/**
 * The decision rules of the backend endpoints that do not change any table: request
 * validation, the login approval gate, the first-administrator rule of signup, the
 * dashboard counts, the partial-update builders of the profile endpoints, the course
 * create/update merge and the marks bound of submission grading.
 */
module BackendRules {
  import opened Common
  import opened Text
  import opened Tables

  // ---------------------------------------------------------------- admin gate

  /** The administrator check that guards the course endpoints; `None` lets the request through. */
  function RequireAdmin(users: map<UserId, UserRow>, userId: Option<string>): (r: Option<ApiError>)
    ensures r.None? <==>
      Truthy(userId) && userId.value in users && users[userId.value].role == AdministratorRole
    ensures !Truthy(userId) ==> r == Some(ApiError(400, UserIdRequired))
    ensures Truthy(userId) && r.Some? ==> r.value == ApiError(403, "Unauthorized: admin access required")
  {
    if !Truthy(userId) then Some(ApiError(400, UserIdRequired))
    else if userId.value !in users || users[userId.value].role != AdministratorRole then
      Some(ApiError(403, "Unauthorized: admin access required"))
    else None
  }

  // ---------------------------------------------------------------- login

  /** What the external password check answered (the identity provider itself is not modelled). */
  datatype AuthOutcome =
    | AuthNotConfigured
    | AuthRejected
    | AuthAccepted(authUserId: Option<UserId>)

  const PendingApproval := "Your account is pending admin approval. Please wait for approval."
  const CredentialsRequired := "Email and password are required"
  const AuthMissing := "Authentication not configured. Set SUPABASE_URL and SUPABASE_ANON_KEY."
  const SignupFieldsRequired := "Name, email, and password are required"
  const RoleFieldsRequired := "user_id and role are required"
  const InvalidRole := "Invalid role"
  const MarksRangePrefix := "Marks must be between 0 and "
  const UniversityRequired := "university name is required"
  const BadCredentials := "Invalid email or password"
  const ProfileMissing := "User profile not found"
  const EmptyTitle := "title cannot be empty"
  const UserIdRequired := "user_id is required"
  const TitleRequired := "title is required"

  /** `COALESCE(approved, false)`, as the login query reads the flag: NULL is not approved. */
  predicate ApprovedForLogin(u: UserRow) {
    u.approved == Some(true)
  }

  /** `COALESCE(approved, true)`, as the administrators' user list reads the flag: NULL is approved. */
  predicate ListedAsApproved(u: UserRow) {
    u.approved != Some(false)
  }

  /** The login endpoint: the session user on success, otherwise the error response. */
  function Login(users: map<UserId, UserRow>, email: Option<string>, password: Option<string>,
                 auth: AuthOutcome): (r: Result<SessionUser>)
    ensures r.Ok? <==>
      Truthy(email) && Truthy(password) && auth.AuthAccepted? && auth.authUserId.Some? &&
      auth.authUserId.value in users && ApprovedForLogin(users[auth.authUserId.value])
    ensures r.Ok? ==>
      var u := users[auth.authUserId.value];
      r.value == SessionUser(auth.authUserId.value, u.name, u.email, u.role)
    ensures !Truthy(email) || !Truthy(password) ==>
      r == Err(ApiError(400, CredentialsRequired))
    ensures (Truthy(email) && Truthy(password) && auth.AuthAccepted? && auth.authUserId.Some? &&
      auth.authUserId.value in users && !ApprovedForLogin(users[auth.authUserId.value])) ==>
      r == Err(ApiError(403, PendingApproval))
    ensures Truthy(email) && Truthy(password) && auth.AuthNotConfigured? ==>
      r == Err(ApiError(500, AuthMissing))
    ensures Truthy(email) && Truthy(password) && auth.AuthRejected? ==>
      r == Err(ApiError(401, BadCredentials))
    ensures (Truthy(email) && Truthy(password) && auth.AuthAccepted? &&
      (auth.authUserId.None? || auth.authUserId.value !in users)) ==>
      r == Err(ApiError(401, ProfileMissing))
  {
    if !Truthy(email) || !Truthy(password) then Err(ApiError(400, CredentialsRequired))
    else match auth
      case AuthNotConfigured =>
        Err(ApiError(500, AuthMissing))
      case AuthRejected => Err(ApiError(401, BadCredentials))
      case AuthAccepted(uid) =>
        if uid.None? || uid.value !in users then Err(ApiError(401, ProfileMissing))
        else if !ApprovedForLogin(users[uid.value]) then Err(ApiError(403, PendingApproval))
        else
          var u := users[uid.value];
          Ok(SessionUser(uid.value, u.name, u.email, u.role))
  }

  /**
   * A user whose flag is NULL is shown as approved in the administrators' list but is
   * still refused at login, so no Approve action is offered for an account that cannot log in.
   * It follows from the definitions in one step; it records the NULL-approval behaviour
   * listed in README.md.
   */
  lemma NullApprovalListedButRefused(users: map<UserId, UserRow>, uid: UserId, email: string, password: string)
    requires uid in users && users[uid].approved.None?
    requires email != "" && password != ""
    ensures ListedAsApproved(users[uid])
    ensures Login(users, Some(email), Some(password), AuthAccepted(Some(uid))) == Err(ApiError(403, PendingApproval))
  {
  }

  // ---------------------------------------------------------------- signup

  /** What the external account creation answered; without it the backend makes up an id. */
  datatype SignupAuth =
    | AuthCreated(authUserId: UserId)
    | AuthFailed(msg: string)
    | NoAuthService(generatedId: UserId)

  /** `data.get("role", "student")`: the role defaults only when it is missing. */
  function SignupRole(role: Option<string>): (r: string)
    ensures role.Some? ==> r == role.value
    ensures role.None? ==> r == StudentRole
  {
    if role.Some? then role.value else StudentRole
  }

  function ValidateSignup(name: Option<string>, email: Option<string>, password: Option<string>): (r: Option<ApiError>)
    ensures r.None? <==> Truthy(name) && Truthy(email) && Truthy(password)
    ensures r.Some? ==> r.value.code == 400
  {
    if Truthy(name) && Truthy(email) && Truthy(password) then None
    else Some(ApiError(400, SignupFieldsRequired))
  }

  /** The administrators that can log in (the set the signup query counts). */
  function ApprovedAdmins(users: map<UserId, UserRow>): (r: set<UserId>)
    ensures forall u :: u in r <==> u in users && users[u].role == AdministratorRole && ApprovedForLogin(users[u])
  {
    set u | u in users && users[u].role == AdministratorRole && ApprovedForLogin(users[u])
  }

  /** The first-administrator rule: an administrator signup is approved iff no approved administrator exists yet. */
  function AutoApprove(users: map<UserId, UserRow>, role: string): (r: bool)
    ensures r <==> (role == AdministratorRole &&
      forall u :: u in users ==> !(users[u].role == AdministratorRole && ApprovedForLogin(users[u])))
  {
    assert |ApprovedAdmins(users)| == 0 <==> ApprovedAdmins(users) == {};
    role == AdministratorRole && |ApprovedAdmins(users)| == 0
  }

  /**
   * The `users` table after a signup accepted by the identity provider: the profile row the
   * provider's trigger may have created is updated, otherwise a row is inserted.
   */
  function SignupUsers(users: map<UserId, UserRow>, uid: UserId, name: string, email: string, role: string)
    : (r: map<UserId, UserRow>)
    ensures r.Keys == users.Keys + {uid}
    ensures r[uid].name == name && r[uid].role == role
    ensures r[uid].approved == Some(AutoApprove(users, role))
    ensures r[uid].email == (if uid in users then users[uid].email else email)
    ensures forall u :: u in users && u != uid ==> r[u] == users[u]
  {
    var approved := Some(AutoApprove(users, role));
    var row := if uid in users then users[uid].(name := name, role := role, approved := approved)
               else UserRow(name, email, role, approved);
    users[uid := row]
  }

  /**
   * Signup never lets a second administrator in: starting from at most one approved
   * administrator, there is at most one afterwards.
   */
  lemma {:induction false} SignupKeepsOneApprovedAdmin(users: map<UserId, UserRow>, uid: UserId,
                                                        name: string, email: string, role: string)
    requires |ApprovedAdmins(users)| <= 1
    ensures |ApprovedAdmins(SignupUsers(users, uid, name, email, role))| <= 1
  {
    var after := SignupUsers(users, uid, name, email, role);
    if AutoApprove(users, role) {
      assert ApprovedAdmins(after) <= {uid};
      SubsetCardinality(ApprovedAdmins(after), {uid});
    } else {
      assert ApprovedAdmins(after) <= ApprovedAdmins(users);
      SubsetCardinality(ApprovedAdmins(after), ApprovedAdmins(users));
    }
  }

  /** Every signup except the first administrator's leaves the new account unable to log in. */
  lemma SignupApprovalIff(users: map<UserId, UserRow>, uid: UserId, name: string, email: string, role: string)
    ensures ApprovedForLogin(SignupUsers(users, uid, name, email, role)[uid]) <==>
      role == AdministratorRole && ApprovedAdmins(users) == {}
  {
    var r := SignupUsers(users, uid, name, email, role);
    if role == AdministratorRole && ApprovedAdmins(users) == {} {
      assert forall u :: u in users ==> !(users[u].role == AdministratorRole && ApprovedForLogin(users[u])) by {
        forall u | u in users ensures !(users[u].role == AdministratorRole && ApprovedForLogin(users[u])) {
          assert u !in ApprovedAdmins(users);
        }
      }
    } else if role == AdministratorRole {
      var a :| a in ApprovedAdmins(users);
      assert users[a].role == AdministratorRole && ApprovedForLogin(users[a]);
    }
  }

  // ---------------------------------------------------------------- dashboard

  /** The per-role counts of the dashboard endpoint. */
  datatype Summary =
    | StudentSummary(enrolledCount: nat, completedCount: nat)
    | InstructorSummary(totalCourses: nat)
    | AdminSummary(totalUsers: nat, totalCourses: nat)
    | AnalystSummary(totalEnrollments: nat)

  /** The enrolment rows of one user that are not dropped. */
  function ActiveEnrollments(enrolledIn: map<(UserId, CourseId), Enrollment>, u: UserId): set<(UserId, CourseId)> {
    set k | k in enrolledIn && k.0 == u && enrolledIn[k].status != Dropped
  }

  /** The enrolment rows of one user that are completed. */
  function CompletedEnrollments(enrolledIn: map<(UserId, CourseId), Enrollment>, u: UserId): set<(UserId, CourseId)> {
    set k | k in enrolledIn && k.0 == u && enrolledIn[k].status == Completed
  }

  /** The `teaches` rows of one instructor: the courses the instructor count covers. */
  function InstructorCourses(teaches: set<(UserId, CourseId)>, u: UserId): set<(UserId, CourseId)> {
    set t | t in teaches && t.0 == u
  }

  /**
   * The dashboard endpoint: a student gets the numbers of their enrolments that are not
   * dropped and that are completed, an instructor the number of courses they teach, an
   * administrator the numbers of users and courses, an analyst the number of enrolments.
   */
  function Dashboard(users: map<UserId, UserRow>, courses: map<CourseId, CourseRow>,
                     teaches: set<(UserId, CourseId)>, enrolledIn: map<(UserId, CourseId), Enrollment>,
                     userId: Option<string>, role: Option<string>): (r: Result<Summary>)
    ensures r.Ok? <==> (Truthy(userId) && Truthy(role) &&
      role.value in {StudentRole, InstructorRole, AdministratorRole, AnalystRole})
    ensures !(Truthy(userId) && Truthy(role)) ==> r == Err(ApiError(400, RoleFieldsRequired))
    ensures Truthy(userId) && Truthy(role) && !r.Ok? ==> r == Err(ApiError(400, InvalidRole))
    ensures r.Ok? && role.value == StudentRole ==>
      r.value == StudentSummary(|ActiveEnrollments(enrolledIn, userId.value)|,
                                |CompletedEnrollments(enrolledIn, userId.value)|)
    ensures r.Ok? && role.value == InstructorRole ==>
      r.value == InstructorSummary(|InstructorCourses(teaches, userId.value)|)
    ensures r.Ok? && role.value == AdministratorRole ==>
      r.value == AdminSummary(|users|, |courses|)
    ensures r.Ok? && role.value == AnalystRole ==> r.value == AnalystSummary(|enrolledIn|)
  {
    if !Truthy(userId) || !Truthy(role) then Err(ApiError(400, RoleFieldsRequired))
    else
      var u := userId.value;
      if role.value == StudentRole then
        Ok(StudentSummary(|ActiveEnrollments(enrolledIn, u)|, |CompletedEnrollments(enrolledIn, u)|))
      else if role.value == InstructorRole then
        Ok(InstructorSummary(|InstructorCourses(teaches, u)|))
      else if role.value == AdministratorRole then Ok(AdminSummary(|users|, |courses|))
      else if role.value == AnalystRole then Ok(AnalystSummary(|enrolledIn|))
      else Err(ApiError(400, InvalidRole))
  }

  /**
   * A student's completed count never exceeds the enrolled count, and the enrolled count
   * never exceeds the platform total the analyst sees (which includes dropped rows).
   */
  lemma {:induction false} StudentCountsOrdered(users: map<UserId, UserRow>, courses: map<CourseId, CourseRow>,
                                                 teaches: set<(UserId, CourseId)>,
                                                 enrolledIn: map<(UserId, CourseId), Enrollment>, u: string)
    requires u != ""
    ensures var s := Dashboard(users, courses, teaches, enrolledIn, Some(u), Some(StudentRole)).value;
      s.completedCount <= s.enrolledCount <= |enrolledIn|
  {
    SubsetCardinality(CompletedEnrollments(enrolledIn, u), ActiveEnrollments(enrolledIn, u));
    SubsetCardinality(ActiveEnrollments(enrolledIn, u), enrolledIn.Keys);
  }

  /** The enrolled check of the student endpoints: a row exists and it is not dropped. */
  predicate ActivelyEnrolled(enrolledIn: map<(UserId, CourseId), Enrollment>, u: UserId, c: CourseId) {
    (u, c) in enrolledIn && enrolledIn[(u, c)].status != Dropped
  }

  // ---------------------------------------------------------------- profile builders

  /** The (column, value) pairs of the fields that were given. */
  ghost function GivenPairs<V>(fields: seq<(string, Option<V>)>): set<(string, V)> {
    set i | 0 <= i < |fields| && fields[i].1.Some? :: (fields[i].0, fields[i].1.value)
  }

  ghost function Elements<T>(s: seq<T>): set<T> {
    set x | x in s
  }

  /**
   * The order-preserving filter of the fields that were given, paired with their values:
   * it is empty iff none was given, and its entries are exactly the given fields with
   * their values.
   */
  function PresentFields<V>(fields: seq<(string, Option<V>)>): (r: seq<(string, V)>)
    ensures |r| <= |fields|
    ensures r == [] <==> forall i :: 0 <= i < |fields| ==> fields[i].1.None?
    ensures Elements(r) == GivenPairs(fields)
  {
    if fields == [] then []
    else
      var rest := PresentFields(fields[1..]);
      var r := Emit(fields[0]) + rest;
      assert Elements(r) == GivenPairs(fields) by {
        forall p ensures p in Elements(r) <==> p in GivenPairs(fields) {
          if p in Emit(fields[0]) {
            assert fields[0].1.Some? && p == (fields[0].0, fields[0].1.value);
          }
          if p in rest {
            assert p in Elements(rest);
            assert p in GivenPairs(fields[1..]);
            var i :| 0 <= i < |fields[1..]| && fields[1..][i].1.Some? && p == (fields[1..][i].0, fields[1..][i].1.value);
            assert fields[i + 1] == fields[1..][i];
          }
          if p in GivenPairs(fields) {
            var i :| 0 <= i < |fields| && fields[i].1.Some? && p == (fields[i].0, fields[i].1.value);
            if i > 0 {
              assert fields[i] == fields[1..][i - 1];
              assert p in GivenPairs(fields[1..]);
              assert p in Elements(rest);
            }
          }
        }
      }
      r
  }

  function Columns<V>(fields: seq<(string, V)>): (r: seq<string>)
    ensures |r| == |fields| && forall i :: 0 <= i < |r| ==> r[i] == fields[i].0
  {
    seq(|fields|, i requires 0 <= i < |fields| => fields[i].0)
  }

  function Values<V>(fields: seq<(string, V)>): (r: seq<V>)
    ensures |r| == |fields| && forall i :: 0 <= i < |r| ==> r[i] == fields[i].1
  {
    seq(|fields|, i requires 0 <= i < |fields| => fields[i].1)
  }

  /** The editable columns of `student`, in the order the endpoint examines them. */
  function StudentFields(branch: Option<string>, country: Option<string>, dob: Option<string>,
                         phoneNumber: Option<string>): seq<(string, Option<string>)> {
    [("branch", branch), ("country", country), ("dob", dob), ("phone_number", phoneNumber)]
  }

  /**
   * The SET list and parameters of the student profile update, appended one field at a
   * time for each value that is not None.
   */
  method BuildStudentUpdates(branch: Option<string>, country: Option<string>, dob: Option<string>,
                             phoneNumber: Option<string>)
    returns (updates: seq<string>, params: seq<string>)
    ensures updates == Columns(PresentFields(StudentFields(branch, country, dob, phoneNumber)))
    ensures params == Values(PresentFields(StudentFields(branch, country, dob, phoneNumber)))
    ensures updates == [] <==> branch.None? && country.None? && dob.None? && phoneNumber.None?
  {
    ghost var fields := StudentFields(branch, country, dob, phoneNumber);
    PresentFieldsOfFour(fields);
    ghost var acc: seq<(string, string)> := [];
    updates, params := [], [];
    if branch.Some? {
      updates := updates + ["branch"];
      params := params + [branch.value];
    }
    acc := Appended(acc, fields[0]);
    assert updates == Columns(acc) && params == Values(acc);
    if country.Some? {
      updates := updates + ["country"];
      params := params + [country.value];
    }
    acc := Appended(acc, fields[1]);
    assert updates == Columns(acc) && params == Values(acc);
    if dob.Some? {
      updates := updates + ["dob"];
      params := params + [dob.value];
    }
    acc := Appended(acc, fields[2]);
    assert updates == Columns(acc) && params == Values(acc);
    if phoneNumber.Some? {
      updates := updates + ["phone_number"];
      params := params + [phoneNumber.value];
    }
    acc := Appended(acc, fields[3]);
    assert updates == Columns(acc) && params == Values(acc);
    assert acc == PresentFields(fields);
  }

  /** The editable columns of `instructor`; a given but empty hire year is written as NULL. */
  function InstructorFields(branch: Option<string>, specialization: Option<string>, hireYear: Option<string>,
                            phoneNumber: Option<string>): seq<(string, Option<Option<string>>)> {
    [("branch", if branch.Some? then Some(branch) else None),
     ("specialization", if specialization.Some? then Some(specialization) else None),
     ("hire_year", if hireYear.Some? then Some(if Truthy(hireYear) then hireYear else None) else None),
     ("phone_number", if phoneNumber.Some? then Some(phoneNumber) else None)]
  }

  /** The SET list and parameters of the instructor profile update; a `None` parameter is SQL NULL. */
  method BuildInstructorUpdates(branch: Option<string>, specialization: Option<string>, hireYear: Option<string>,
                                phoneNumber: Option<string>)
    returns (updates: seq<string>, params: seq<Option<string>>)
    ensures updates == Columns(PresentFields(InstructorFields(branch, specialization, hireYear, phoneNumber)))
    ensures params == Values(PresentFields(InstructorFields(branch, specialization, hireYear, phoneNumber)))
    ensures updates == [] <==> branch.None? && specialization.None? && hireYear.None? && phoneNumber.None?
  {
    ghost var fields := InstructorFields(branch, specialization, hireYear, phoneNumber);
    PresentFieldsOfFour(fields);
    ghost var acc: seq<(string, Option<string>)> := [];
    updates, params := [], [];
    if branch.Some? {
      updates := updates + ["branch"];
      params := params + [branch];
    }
    acc := Appended(acc, fields[0]);
    assert updates == Columns(acc) && params == Values(acc);
    if specialization.Some? {
      updates := updates + ["specialization"];
      params := params + [specialization];
    }
    acc := Appended(acc, fields[1]);
    assert updates == Columns(acc) && params == Values(acc);
    if hireYear.Some? {
      updates := updates + ["hire_year"];
      params := params + [if Truthy(hireYear) then hireYear else None];
    }
    acc := Appended(acc, fields[2]);
    assert updates == Columns(acc) && params == Values(acc);
    if phoneNumber.Some? {
      updates := updates + ["phone_number"];
      params := params + [phoneNumber];
    }
    acc := Appended(acc, fields[3]);
    assert updates == Columns(acc) && params == Values(acc);
    assert acc == PresentFields(fields);
  }

  /** The contribution of one field to `PresentFields`. */
  function Emit<V>(f: (string, Option<V>)): seq<(string, V)> {
    if f.1.Some? then [(f.0, f.1.value)] else []
  }

  /** `acc` extended by one field, with the columns and values of the result. */
  function Appended<V>(acc: seq<(string, V)>, f: (string, Option<V>)): (r: seq<(string, V)>)
    ensures r == acc + Emit(f)
    ensures Columns(r) == Columns(acc) + (if f.1.Some? then [f.0] else [])
    ensures Values(r) == Values(acc) + (if f.1.Some? then [f.1.value] else [])
  {
    acc + Emit(f)
  }

  /** `PresentFields` of four fields, spelled out field by field. */
  lemma {:induction false} PresentFieldsOfFour<V>(fields: seq<(string, Option<V>)>)
    requires |fields| == 4
    ensures PresentFields(fields) == Emit(fields[0]) + Emit(fields[1]) + Emit(fields[2]) + Emit(fields[3])
  {
    PresentFieldsBuildsUp(fields, 0);
    PresentFieldsBuildsUp(fields, 1);
    PresentFieldsBuildsUp(fields, 2);
    PresentFieldsBuildsUp(fields, 3);
    assert fields[0..] == fields;
    assert fields[4..] == [];
  }

  /** Unfolds `PresentFields` one field at a time from position `k`. */
  lemma {:induction false} PresentFieldsBuildsUp<V>(fields: seq<(string, Option<V>)>, k: nat)
    requires k < |fields|
    ensures PresentFields(fields[k..]) == Emit(fields[k]) + PresentFields(fields[k + 1..])
  {
    assert fields[k..][1..] == fields[k + 1..];
  }

  /** The effect of a SET list on a row: each column assigned its parameter, left to right. */
  function ApplySet<P, V>(p: P, setColumn: (P, string, V) -> P, cols: seq<string>, vals: seq<V>): P
    requires |cols| == |vals|
    decreases |cols|
  {
    if cols == [] then p else ApplySet(setColumn(p, cols[0], vals[0]), setColumn, cols[1..], vals[1..])
  }

  /** A SET list split in two applies as its first part followed by its second. */
  lemma {:induction false} ApplySetConcat<P, V>(p: P, setColumn: (P, string, V) -> P,
                                                a: seq<(string, V)>, b: seq<(string, V)>)
    ensures ApplySet(p, setColumn, Columns(a + b), Values(a + b)) ==
      ApplySet(ApplySet(p, setColumn, Columns(a), Values(a)), setColumn, Columns(b), Values(b))
    decreases |a|
  {
    if a != [] {
      assert Columns(a + b)[1..] == Columns(a[1..] + b);
      assert Values(a + b)[1..] == Values(a[1..] + b);
      assert Columns(a)[1..] == Columns(a[1..]);
      assert Values(a)[1..] == Values(a[1..]);
      ApplySetConcat(setColumn(p, a[0].0, a[0].1), setColumn, a[1..], b);
    } else {
      assert a + b == b;
    }
  }

  /** Applying the SET list of given fields, spelled out field by field. */
  lemma {:induction false} ApplyPresentFields<P, V>(p: P, setColumn: (P, string, V) -> P,
                                                    fields: seq<(string, Option<V>)>)
    requires |fields| == 4
    ensures ApplySet(p, setColumn, Columns(PresentFields(fields)), Values(PresentFields(fields))) ==
      var p1 := if fields[0].1.Some? then setColumn(p, fields[0].0, fields[0].1.value) else p;
      var p2 := if fields[1].1.Some? then setColumn(p1, fields[1].0, fields[1].1.value) else p1;
      var p3 := if fields[2].1.Some? then setColumn(p2, fields[2].0, fields[2].1.value) else p2;
      if fields[3].1.Some? then setColumn(p3, fields[3].0, fields[3].1.value) else p3
  {
    PresentFieldsOfFour(fields);
    var e0, e1, e2, e3 := Emit(fields[0]), Emit(fields[1]), Emit(fields[2]), Emit(fields[3]);
    assert e0 + e1 + e2 + e3 == ((e0 + e1) + e2) + e3;
    ApplySetConcat(p, setColumn, (e0 + e1) + e2, e3);
    ApplySetConcat(p, setColumn, e0 + e1, e2);
    ApplySetConcat(p, setColumn, e0, e1);
  }

  /** One assignment of the student SET list. */
  function SetStudentColumn(p: StudentProfile, col: string, v: string): StudentProfile {
    if col == "branch" then p.(branch := Some(v))
    else if col == "country" then p.(country := Some(v))
    else if col == "dob" then p.(dob := Some(v))
    else if col == "phone_number" then p.(phoneNumber := Some(v))
    else p
  }

  /** The student row with every given field replaced and every other field kept. */
  function MergeStudentProfile(p: StudentProfile, branch: Option<string>, country: Option<string>,
                               dob: Option<string>, phoneNumber: Option<string>): StudentProfile {
    StudentProfile(
      if branch.Some? then branch else p.branch,
      if country.Some? then country else p.country,
      if dob.Some? then dob else p.dob,
      if phoneNumber.Some? then phoneNumber else p.phoneNumber)
  }

  /** The built SET list writes exactly the given fields of the student row. */
  lemma StudentUpdatesMerge(p: StudentProfile, branch: Option<string>, country: Option<string>,
                            dob: Option<string>, phoneNumber: Option<string>)
    ensures var given := PresentFields(StudentFields(branch, country, dob, phoneNumber));
      ApplySet(p, SetStudentColumn, Columns(given), Values(given)) ==
      MergeStudentProfile(p, branch, country, dob, phoneNumber)
  {
    ApplyPresentFields(p, SetStudentColumn, StudentFields(branch, country, dob, phoneNumber));
  }

  /** One assignment of the instructor SET list; a `None` parameter writes NULL. */
  function SetInstructorColumn(p: InstructorProfile, col: string, v: Option<string>): InstructorProfile {
    if col == "branch" then p.(branch := v)
    else if col == "specialization" then p.(specialization := v)
    else if col == "hire_year" then p.(hireYear := v)
    else if col == "phone_number" then p.(phoneNumber := v)
    else p
  }

  /** The instructor row with every given field replaced; an empty hire year becomes NULL. */
  function MergeInstructorProfile(p: InstructorProfile, branch: Option<string>, specialization: Option<string>,
                                  hireYear: Option<string>, phoneNumber: Option<string>): InstructorProfile {
    InstructorProfile(
      if branch.Some? then branch else p.branch,
      if specialization.Some? then specialization else p.specialization,
      if hireYear.Some? then (if Truthy(hireYear) then hireYear else None) else p.hireYear,
      if phoneNumber.Some? then phoneNumber else p.phoneNumber)
  }

  /** The built SET list writes exactly the given fields of the instructor row. */
  lemma InstructorUpdatesMerge(p: InstructorProfile, branch: Option<string>, specialization: Option<string>,
                               hireYear: Option<string>, phoneNumber: Option<string>)
    ensures var given := PresentFields(InstructorFields(branch, specialization, hireYear, phoneNumber));
      ApplySet(p, SetInstructorColumn, Columns(given), Values(given)) ==
      MergeInstructorProfile(p, branch, specialization, hireYear, phoneNumber)
  {
    ApplyPresentFields(p, SetInstructorColumn, InstructorFields(branch, specialization, hireYear, phoneNumber));
  }

  // ---------------------------------------------------------------- courses

  /** The body of a course creation request (the university ranking is not modelled). */
  datatype NewCourse = NewCourse(
    title: Option<string>, duration: Option<string>, level: Option<string>,
    description: Option<string>, fees: Option<int>, universityName: Option<string>)

  /** The validation of `create_course` and the row it inserts. */
  function ValidateNewCourse(req: NewCourse): (r: Result<CourseRow>)
    ensures r.Ok? <==>
      Truthy(req.title) && !IsBlank(req.title.value) && !IsBlank(OrElse(req.universityName, ""))
    ensures !Truthy(req.title) || IsBlank(req.title.value) ==> r == Err(ApiError(400, TitleRequired))
    ensures r.Err? ==> r.error.code == 400
    ensures r.Ok? ==> r.value.title != "" && r.value.title == Trim(req.title.value)
    ensures r.Ok? ==> (r.value.university.Some? && r.value.university.value != "" &&
      r.value.university.value == Trim(OrElse(req.universityName, "")))
    ensures r.Ok? ==> r.value.level != "" && r.value.fees == req.fees
    ensures r.Ok? ==> (r.value.duration == OrElse(req.duration, "") &&
      r.value.level == OrElse(req.level, "beginner") && r.value.description == OrElse(req.description, ""))
    ensures Truthy(req.title) && !IsBlank(req.title.value) && IsBlank(OrElse(req.universityName, "")) ==>
      r == Err(ApiError(400, UniversityRequired))
  {
    var university := Trim(OrElse(req.universityName, ""));
    TrimEmptyIffBlank(OrElse(req.universityName, ""));
    if !Truthy(req.title) then Err(ApiError(400, TitleRequired))
    else
      TrimEmptyIffBlank(req.title.value);
      if Trim(req.title.value) == "" then Err(ApiError(400, TitleRequired))
      else if university == "" then Err(ApiError(400, UniversityRequired))
      else Ok(CourseRow(Trim(req.title.value), OrElse(req.duration, ""), OrElse(req.level, "beginner"),
                        OrElse(req.description, ""), req.fees, Some(university)))
  }

  /** The body of a course update request; a `None` field keeps the stored value. */
  datatype CoursePatch = CoursePatch(
    title: Option<string>, duration: Option<string>, level: Option<string>,
    description: Option<string>, fees: Option<int>, universityName: Option<string>)

  const EmptyPatch := CoursePatch(None, None, None, None, None, None)

  /** The row `update_course` writes, or the error when the resulting title is empty. */
  function MergeCourse(stored: CourseRow, patch: CoursePatch): (r: Result<CourseRow>)
    ensures r.Err? <==> (if Truthy(patch.title) then IsBlank(patch.title.value) else stored.title == "")
    ensures r.Err? ==> r.error == ApiError(400, EmptyTitle)
    ensures r.Ok? ==> r.value.title != ""
    ensures r.Ok? && !Truthy(patch.title) ==> r.value.title == stored.title
    ensures r.Ok? && patch.duration.None? ==> r.value.duration == stored.duration
    ensures r.Ok? && patch.description.None? ==> r.value.description == stored.description
    ensures r.Ok? && patch.fees.None? ==> r.value.fees == stored.fees
    ensures r.Ok? && patch.universityName.None? ==> r.value.university == stored.university
    ensures r.Ok? && patch.level.None? && stored.level != "" ==> r.value.level == stored.level
    ensures r.Ok? ==> r.value.level != ""
    ensures r.Ok? && Truthy(patch.title) ==> r.value.title == Trim(patch.title.value)
    ensures r.Ok? && patch.duration.Some? ==> r.value.duration == patch.duration.value
    ensures r.Ok? && patch.level.Some? && patch.level.value != "" ==> r.value.level == patch.level.value
    ensures r.Ok? && patch.description.Some? ==> r.value.description == patch.description.value
    ensures r.Ok? && patch.fees.Some? ==> r.value.fees == patch.fees
    ensures r.Ok? && patch.universityName.Some? ==>
      r.value.university == (if Trim(patch.universityName.value) == "" then None else Some(Trim(patch.universityName.value)))
  {
    var title := MergedTitle(stored.title, patch.title);
    if title == "" then Err(ApiError(400, EmptyTitle))
    else
      var duration := if patch.duration.Some? then patch.duration else Some(stored.duration);
      var level := if patch.level.Some? then patch.level else Some(stored.level);
      var description := if patch.description.Some? then patch.description else Some(stored.description);
      var fees := if patch.fees.Some? then patch.fees else stored.fees;
      Ok(CourseRow(title, OrElse(duration, ""), OrElse(level, "beginner"), OrElse(description, ""), fees,
                   MergedUniversity(stored.university, patch.universityName)))
  }

  /** The course title after an update: the trimmed new title when one is given. */
  function MergedTitle(storedTitle: string, title: Option<string>): (r: string)
    ensures r == "" <==> (if Truthy(title) then IsBlank(title.value) else storedTitle == "")
  {
    if Truthy(title) then (TrimEmptyIffBlank(title.value); Trim(title.value)) else storedTitle
  }

  /** The university after an update: kept when absent, cleared when blank, else trimmed. */
  function MergedUniversity(stored: Option<string>, universityName: Option<string>): (r: Option<string>)
    ensures universityName.None? ==> r == stored
  {
    if universityName.None? then stored
    else if Trim(universityName.value) == "" then None
    else Some(Trim(universityName.value))
  }

  /** Applying the same update twice writes what applying it once wrote. */
  lemma {:induction false} MergeCourseIdempotent(stored: CourseRow, patch: CoursePatch)
    requires MergeCourse(stored, patch).Ok?
    ensures MergeCourse(MergeCourse(stored, patch).value, patch) == MergeCourse(stored, patch)
  {
    var once := MergeCourse(stored, patch).value;
    if Truthy(patch.title) { TrimIdempotent(patch.title.value); }
    if patch.universityName.Some? { TrimIdempotent(patch.universityName.value); }
    var twice := MergeCourse(once, patch);
    assert twice.Ok?;
    assert twice.value.title == once.title;
    assert twice.value.university == once.university;
    assert twice.value == once;
  }

  // ---------------------------------------------------------------- marks

  /** The bound check of `grade_submission`: `None` when the marks fit the assignment. */
  function CheckMarks(marks: int, maxMarks: int): (r: Option<ApiError>)
    ensures r.None? <==> 0 <= marks <= maxMarks
    ensures r.Some? ==> r.value == ApiError(400, MarksRangePrefix + IntToString(maxMarks))
  {
    if marks < 0 || marks > maxMarks then Some(ApiError(400, MarksRangePrefix + IntToString(maxMarks)))
    else None
  }

  /** One joined (submission, assignment) row: the marks obtained (NULL until graded) and the maximum. */
  datatype MarkRow = MarkRow(marks: Option<int>, maxMarks: int)

  /** Every graded row is within its assignment's bound (what `CheckMarks` enforces). */
  predicate GradedWithinBounds(rows: seq<MarkRow>) {
    forall i :: 0 <= i < |rows| ==> rows[i].marks.Some? ==> 0 <= rows[i].marks.value <= rows[i].maxMarks
  }

  /** `SUM(marks_obtained)`, NULL rows contributing nothing. */
  function Obtained(rows: seq<MarkRow>): int {
    if rows == [] then 0
    else (if rows[0].marks.Some? then rows[0].marks.value else 0) + Obtained(rows[1..])
  }

  /** `SUM(max_marks)` over the same rows. */
  function Possible(rows: seq<MarkRow>): int {
    if rows == [] then 0 else rows[0].maxMarks + Possible(rows[1..])
  }

  /** One more row adds its marks (nothing while ungraded) and its maximum to the sums. */
  lemma TotalsOfCons(row: MarkRow, rows: seq<MarkRow>)
    ensures Obtained([row] + rows) == (if row.marks.Some? then row.marks.value else 0) + Obtained(rows)
    ensures Possible([row] + rows) == row.maxMarks + Possible(rows)
  {
    assert ([row] + rows)[1..] == rows;
  }

  /** Marks that pass the bound check add up to no more than the marks possible. */
  lemma {:induction false} TotalsOrdered(rows: seq<MarkRow>)
    requires GradedWithinBounds(rows)
    requires forall i :: 0 <= i < |rows| ==> rows[i].maxMarks >= 0
    ensures 0 <= Obtained(rows) <= Possible(rows)
  {
    if rows != [] {
      assert GradedWithinBounds(rows[1..]) by {
        forall i | 0 <= i < |rows[1..]| && rows[1..][i].marks.Some?
          ensures 0 <= rows[1..][i].marks.value <= rows[1..][i].maxMarks
        {
          assert rows[1..][i] == rows[i + 1];
        }
      }
      TotalsOrdered(rows[1..]);
    }
  }

  /** The percentage shown beside a student's totals, with the zero-total guard (rounding is not modelled). */
  function Percent(obtained: int, possible: int): (r: real)
    ensures possible <= 0 ==> r == 0.0
    ensures 0 <= obtained <= possible ==> 0.0 <= r <= 100.0
    ensures possible > 0 && obtained == possible ==> r == 100.0
  {
    if possible > 0 then
      assert 0 <= obtained <= possible ==> obtained as real / possible as real <= 1.0 by {
        if 0 <= obtained <= possible {
          assert obtained as real <= possible as real;
        }
      }
      obtained as real / possible as real * 100.0
    else 0.0
  }
}
