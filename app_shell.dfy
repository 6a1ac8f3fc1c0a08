/**
 * The application shell: the session kept in memory and in browser storage, and the
 * choice of page for each route.
 */
module AppShell {
  import opened Common
  import opened Web

  /** The four dashboards, one per role. */
  datatype Dashboard = StudentHome | InstructorHome | AdministratorHome | AnalystHome

  /** What the shell renders for a path. */
  datatype View =
    | Loading
    | LoginPage
    | DashboardPage(kind: Dashboard, user: SessionUser)
    | Redirect(to: string)
    | NoRoute

  /** The roles that have a dashboard. */
  const DashboardRoles: set<string> := {StudentRole, InstructorRole, AdministratorRole, AnalystRole}

  /** The dashboard of a role, tried in the order student, instructor, administrator, analyst. */
  function DashboardFor(role: string): (r: Option<Dashboard>)
    ensures r.Some? <==> role in DashboardRoles
    ensures r.Some? ==> RoleOf(r.value) == role
  {
    if role == StudentRole then Some(StudentHome)
    else if role == InstructorRole then Some(InstructorHome)
    else if role == AdministratorRole then Some(AdministratorHome)
    else if role == AnalystRole then Some(AnalystHome)
    else None
  }

  /** The role a dashboard serves. */
  function RoleOf(d: Dashboard): string {
    match d
    case StudentHome => StudentRole
    case InstructorHome => InstructorRole
    case AdministratorHome => AdministratorRole
    case AnalystHome => AnalystRole
  }

  /**
   * The page for `path`.  While the stored session is being read nothing but the loading
   * page is shown; the login page sends a signed-in user to the dashboard; the dashboard
   * serves the user's role or sends everyone else to the login page; `/` always does.
   */
  function Route(path: string, loading: bool, user: Option<SessionUser>): (v: View)
    ensures loading ==> v == Loading
    ensures !loading && path == "/login" ==>
      v == (if user.Some? then Redirect("/dashboard") else LoginPage)
    ensures !loading && path == "/" ==> v == Redirect("/login")
    ensures !loading && path == "/dashboard" ==>
      (v.DashboardPage? <==> user.Some? && user.value.role in DashboardRoles)
    ensures !loading && path == "/dashboard" && !v.DashboardPage? ==> v == Redirect("/login")
    ensures v.DashboardPage? ==> user == Some(v.user) && RoleOf(v.kind) == v.user.role
  {
    if loading then Loading
    else if path == "/login" then (if user.Some? then Redirect("/dashboard") else LoginPage)
    else if path == "/dashboard" then
      if user.Some? && DashboardFor(user.value.role).Some?
      then DashboardPage(DashboardFor(user.value.role).value, user.value)
      else Redirect("/login")
    else if path == "/" then Redirect("/login")
    else NoRoute
  }

  /** A signed-in user is never shown the login page, and a signed-out user never a dashboard. */
  lemma {:induction false} NoLoginPageWhenSignedIn(path: string, user: Option<SessionUser>)
    ensures user.Some? ==> Route(path, false, user) != LoginPage
    ensures user.None? ==> !Route(path, false, user).DashboardPage?
  {
  }

  /** The shell's state: the session user and whether the stored session has been read. */
  class App {
    var user: Option<SessionUser>
    var loading: bool
    const storage: BrowserStorage

    /** The session in memory is the one in storage. */
    predicate SessionSynced()
      reads this, storage
    {
      user == storage.user
    }

    /** First render: no user yet, and loading. */
    constructor (storage: BrowserStorage)
      ensures this.storage == storage
      ensures user == None && loading
    {
      this.storage := storage;
      user := None;
      loading := true;
    }

    /** The mount effect: a stored user becomes the current user, and loading ends either way. */
    method Restore()
      modifies this
      ensures user == (if storage.user.Some? then storage.user else old(user))
      ensures !loading
      ensures old(user).None? ==> SessionSynced()
    {
      if storage.user.Some? {
        user := storage.user;
      }
      loading := false;
    }

    /** `handleLogin`: the same user in memory and in storage. */
    method HandleLogin(u: SessionUser)
      modifies this, storage
      ensures user == Some(u) && storage.user == Some(u) && SessionSynced()
      ensures loading == old(loading) && storage.theme == old(storage.theme)
    {
      user := Some(u);
      storage.user := Some(u);
    }

    /** `handleLogout`: the session is cleared in memory and in storage. */
    method HandleLogout()
      modifies this, storage
      ensures user.None? && storage.user.None? && SessionSynced()
      ensures loading == old(loading) && storage.theme == old(storage.theme)
    {
      user := None;
      storage.user := None;
    }
  }
}
