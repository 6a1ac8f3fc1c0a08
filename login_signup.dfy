/**
 * The login/signup form: its fields, and how the answer to a submission becomes one
 * of three outcomes — the user is signed in, an error is shown, or a notice is shown.
 */
module LoginSignup {
  import opened Common
  import opened Tables
  import opened BackendRules
  import opened Backend

  const DefaultNotice := "Account created. Please wait for admin approval before logging in."

  /** The request a submission sends, depending on the tab. */
  datatype AuthRequest =
    | LoginRequest(email: string, password: string)
    | SignupRequest(name: string, email: string, password: string, role: string)

  /**
   * What the awaited call gives the handler: a 2xx body with its `success`, `user`, `error`
   * and `message` fields, or a rejected request with the server's `error` text if any.
   */
  datatype AuthResponse =
    | Answered(success: bool, user: Option<SessionUser>, error: Option<string>, message: Option<string>)
    | Rejected(serverError: Option<string>)

  /** The three outcomes of a submission. */
  datatype Outcome = SignedIn(user: SessionUser) | ShowError(text: string) | ShowNotice(text: string)

  /**
   * The outcome of a response.  Both tabs sign the user in exactly when the body has
   * `success` and a `user`; a signup that succeeded without a user shows the message or
   * the approval notice; everything else is an error, with the server's text first.
   */
  function SubmitOutcome(isLogin: bool, resp: AuthResponse): (o: Outcome)
    ensures o.SignedIn? <==> resp.Answered? && resp.success && resp.user.Some?
    ensures o.SignedIn? ==> o.user == resp.user.value
    ensures o.ShowNotice? <==> !isLogin && resp.Answered? && resp.success && resp.user.None?
    ensures o.ShowNotice? ==> o.text == OrElse(resp.message, DefaultNotice)
    ensures resp.Answered? && !o.SignedIn? && (isLogin || !resp.success) ==>
      o == ShowError(OrElse(resp.error, if isLogin then "Login failed" else "Signup failed"))
    ensures resp.Rejected? ==> o == ShowError(OrElse(resp.serverError, "An error occurred"))
    ensures !o.SignedIn? ==> o.text != ""
  {
    match resp
    case Rejected(serverError) => ShowError(OrElse(serverError, "An error occurred"))
    case Answered(success, user, error, message) =>
      if success && user.Some? then SignedIn(user.value)
      else if isLogin then ShowError(OrElse(error, "Login failed"))
      else if success then ShowNotice(OrElse(message, DefaultNotice))
      else ShowError(OrElse(error, "Signup failed"))
  }

  /** How a login answer of the backend reaches the form: errors are non-2xx statuses. */
  function LoginResponse(r: Result<SessionUser>): AuthResponse {
    match r
    case Ok(u) => Answered(true, Some(u), None, None)
    case Err(e) => Rejected(Some(e.message))
  }

  /** How a signup answer of the backend reaches the form. */
  function SignupResponse(r: Result<SignupReply>): AuthResponse {
    match r
    case Ok(reply) => Answered(true, reply.user, None, Some(reply.message))
    case Err(e) => Rejected(Some(e.message))
  }

  /** The form signs in exactly the user the login endpoint accepted, and shows its refusals. */
  lemma {:induction false} LoginOutcomeMatchesBackend(r: Result<SessionUser>)
    ensures r.Ok? ==> SubmitOutcome(true, LoginResponse(r)) == SignedIn(r.value)
    ensures r.Err? && r.error.message != "" ==> SubmitOutcome(true, LoginResponse(r)) == ShowError(r.error.message)
  {
  }

  /**
   * Only the first administrator's signup signs in at once; every other successful signup
   * shows the backend's approval notice.
   */
  lemma {:induction false} SignupOutcomeMatchesBackend(r: Result<SignupReply>)
    requires r.Ok? ==> r.value.message != ""
    ensures r.Ok? && r.value.user.Some? ==> SubmitOutcome(false, SignupResponse(r)) == SignedIn(r.value.user.value)
    ensures r.Ok? && r.value.user.None? ==> SubmitOutcome(false, SignupResponse(r)) == ShowNotice(r.value.message)
  {
  }

  /** The form keys that the inputs write. */
  predicate HasFields(formData: map<string, string>) {
    "name" in formData && "email" in formData && "password" in formData && "role" in formData
  }

  /** The request for the current tab and form. */
  function RequestOf(isLogin: bool, formData: map<string, string>): (q: AuthRequest)
    requires HasFields(formData)
    ensures q.LoginRequest? <==> isLogin
    ensures q.email == formData["email"] && q.password == formData["password"]
    ensures q.SignupRequest? ==> q.name == formData["name"] && q.role == formData["role"]
  {
    if isLogin then LoginRequest(formData["email"], formData["password"])
    else SignupRequest(formData["name"], formData["email"], formData["password"], formData["role"])
  }

  class AuthForm {
    var isLogin: bool
    var formData: map<string, string>
    var error: string
    var success: string
    var loading: bool

    /** The login tab, empty fields with the student role, and no message. */
    constructor ()
      ensures isLogin
      ensures formData == map["name" := "", "email" := "", "password" := "", "role" := StudentRole]
      ensures error == "" && success == "" && !loading
      ensures HasFields(formData)
    {
      isLogin := true;
      formData := map["name" := "", "email" := "", "password" := "", "role" := StudentRole];
      error, success, loading := "", "", false;
    }

    /** A tab button: only the mode changes. */
    method SetMode(login: bool)
      modifies this
      ensures isLogin == login
      ensures formData == old(formData) && error == old(error) && success == old(success) && loading == old(loading)
    {
      isLogin := login;
    }

    /** `handleChange`: the named field takes the typed value and the error is cleared. */
    method HandleChange(name: string, value: string)
      modifies this
      ensures formData == old(formData)[name := value]
      ensures forall k :: k in old(formData) && k != name ==> k in formData && formData[k] == old(formData)[k]
      ensures HasFields(old(formData)) ==> HasFields(formData)
      ensures error == ""
      ensures isLogin == old(isLogin) && success == old(success) && loading == old(loading)
    {
      formData := formData[name := value];
      error := "";
    }

    /** The start of `handleSubmit`: messages cleared, loading set, the request sent. */
    method BeginSubmit() returns (q: AuthRequest)
      requires HasFields(formData)
      modifies this
      ensures isLogin == old(isLogin) && formData == old(formData)
      ensures q == RequestOf(isLogin, formData)
      ensures error == "" && success == "" && loading
    {
      error, success, loading := "", "", true;
      q := RequestOf(isLogin, formData);
    }

    /**
     * The rest of `handleSubmit`: a signed-in user is handed to `onLogin` (returned here),
     * an error or a notice is set, and loading ends whatever happened.
     */
    method FinishSubmit(resp: AuthResponse) returns (onLogin: Option<SessionUser>)
      modifies this
      ensures var o := SubmitOutcome(isLogin, resp);
        onLogin == (if o.SignedIn? then Some(o.user) else None) &&
        error == (if o.ShowError? then o.text else old(error)) &&
        success == (if o.ShowNotice? then o.text else old(success))
      ensures !loading
      ensures isLogin == old(isLogin) && formData == old(formData)
    {
      var o := SubmitOutcome(isLogin, resp);
      onLogin := None;
      match o {
        case SignedIn(u) => onLogin := Some(u);
        case ShowError(t) => error := t;
        case ShowNotice(t) => success := t;
      }
      loading := false;
    }

    /** One whole submission: exactly one of the three outcomes is visible afterwards. */
    method HandleSubmit(resp: AuthResponse) returns (q: AuthRequest, onLogin: Option<SessionUser>)
      requires HasFields(formData)
      modifies this
      ensures q == RequestOf(old(isLogin), old(formData))
      ensures onLogin.Some? <==> SubmitOutcome(old(isLogin), resp).SignedIn?
      ensures (if onLogin.Some? then 1 else 0) + (if error != "" then 1 else 0) + (if success != "" then 1 else 0) == 1
      ensures !loading && isLogin == old(isLogin) && formData == old(formData)
    {
      q := BeginSubmit();
      onLogin := FinishSubmit(resp);
    }
  }
}
