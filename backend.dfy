/**
 * The backend's tables and the endpoints that change them.  Each endpoint validates its
 * request first and then either answers with an error, leaving every table as it was,
 * or applies its inserts and updates.
 */
module Backend {
  import opened Common
  import opened Text
  import opened Tables
  import opened BackendRules
  import opened ModuleGrouping

  /** The body of a signup answer: its message and, for the first administrator only, the session user. */
  datatype SignupReply = SignupReply(message: string, user: Option<SessionUser>)

  const ApprovalNotice := "Account created. Please wait for admin approval before logging in."
  const AssignmentFieldsRequired := "instructor_id, course_id, title, and assignment_url are required"
  const ModuleFieldsRequired := "instructor_id, course_id, module_number, and name are required"
  const GradeFieldsRequired := "instructor_id, submission_id, and marks_obtained are required"
  const SubmitFieldsRequired := "student_id, assignment_id, and submission_url are required"
  const ModuleNumberTaken := "Module number already exists for this course"
  const SubmissionNotGradeable := "Submission not found or you cannot grade it"
  const AssignFieldsRequired := "instructor_id and course_id are required"
  const NotEnrolled := "You are not enrolled in this course"
  const EnrollFieldsRequired := "user_id and course_id are required"
  const EnrollRefused := "Already enrolled or invalid course"
  const SubmissionGraded := "Submission graded successfully"
  const ProfileUpdated := "Profile updated successfully"
  const StudentRemoved := "Student removed from course"
  const StudentGraded := "Student graded successfully"
  const ModuleCreated := "Module created successfully"
  const CourseUpdated := "Course updated successfully"
  const AllFieldsRequired := "All fields are required"
  const AdminCreated := "Admin account created."
  const SubmissionStored := "Submission successful"
  const EnrolledNotice := "Enrolled successfully"
  const NoSuchModule := "Module does not exist"
  const NoSuchAssignment := "Assignment not found"
  const NothingToUpdate := "No fields to update"
  const InstructorAssigned := "Instructor assigned"
  const NoSuchCourse := "Course not found"
  const NotTeaching := ApiError(403, "You don't teach this course")

  /** A number in a request (a module number, an id) is given when it is present and not 0 (Python truthiness). */
  predicate GivenNumber(n: Option<int>) {
    n.Some? && n.value != 0
  }

  /** `all([instructor_id, submission_id, marks_obtained is not None])` of the grading request. */
  predicate GradeRequestGiven(instructorId: Option<string>, submissionId: Option<SubmissionId>, marks: Option<int>) {
    Truthy(instructorId) && GivenNumber(submissionId) && marks.Some?
  }

  /** Whether `k` is the submission `id` and belongs to one of `instructor`'s assignments. */
  predicate OwnedSubmission(submissions: map<(AssignmentId, UserId), SubmissionRow>,
                            assignments: map<AssignmentId, AssignmentRow>,
                            k: (AssignmentId, UserId), id: SubmissionId, instructor: UserId)
  {
    k in submissions && submissions[k].submissionId == id &&
    k.0 in assignments && assignments[k.0].instructorId == instructor
  }

  /** Profile rows belong to users. */
  predicate ProfilesOwned(users: map<UserId, UserRow>, studentProfiles: map<UserId, StudentProfile>,
                          instructorProfiles: map<UserId, InstructorProfile>)
  {
    studentProfiles.Keys <= users.Keys && instructorProfiles.Keys <= users.Keys
  }

  /** Content belongs to an existing module, and its ids are fresh and increasing. */
  predicate ContentPlaced(moduleContent: seq<ContentRow>, modules: map<(CourseId, int), ModuleRow>,
                          nextContentId: ContentId)
  {
    (forall i :: 0 <= i < |moduleContent| ==>
      (moduleContent[i].contentId < nextContentId &&
       (moduleContent[i].courseId, moduleContent[i].moduleNumber) in modules)) &&
    (forall i, j :: 0 <= i < j < |moduleContent| ==> moduleContent[i].contentId < moduleContent[j].contentId)
  }

  /** Assignment ids are below the next id handed out. */
  predicate AssignmentIdsBelow(assignments: map<AssignmentId, AssignmentRow>, nextAssignmentId: AssignmentId) {
    forall a :: a in assignments ==> a < nextAssignmentId
  }

  /**
   * Submissions belong to an existing assignment, have distinct ids below the next one
   * handed out, and every mark stored is within its assignment's bound.
   */
  predicate SubmissionsPlaced(submissions: map<(AssignmentId, UserId), SubmissionRow>,
                              assignments: map<AssignmentId, AssignmentRow>, nextSubmissionId: SubmissionId)
  {
    (forall k :: k in submissions ==> k.0 in assignments && submissions[k].submissionId < nextSubmissionId) &&
    (forall k1, k2 :: (k1 in submissions && k2 in submissions &&
      submissions[k1].submissionId == submissions[k2].submissionId) ==> k1 == k2) &&
    (forall k :: k in submissions && submissions[k].marks.Some? ==>
      0 <= submissions[k].marks.value <= assignments[k.0].maxMarks)
  }

  /** The joined row of module `n` (stored as `m`) with one of its content rows `c`. */
  function ContentJoined(n: int, m: ModuleRow, c: ContentRow): JoinedRow {
    JoinedRow(n, m.name, m.duration, Some(c.contentId), c.title, c.contentType, c.url)
  }

  /** The one joined row of a module without content: the content columns are NULL. */
  function BareModule(n: int, m: ModuleRow): JoinedRow {
    JoinedRow(n, m.name, m.duration, None, "", "", "")
  }

  /** The item a content row becomes in the student's module view. */
  function ViewOf(c: ContentRow): ContentView {
    ContentView(c.contentId, c.title, c.contentType, c.url)
  }

  /** Whether `moduleContent[k]` is a content row of module `n` of `course`. */
  predicate ContentRowOf(moduleContent: seq<ContentRow>, course: CourseId, n: int, k: int) {
    0 <= k < |moduleContent| && moduleContent[k].courseId == course && moduleContent[k].moduleNumber == n
  }

  /** Whether module `n` of `course` has at least one content row. */
  ghost predicate HasContent(moduleContent: seq<ContentRow>, course: CourseId, n: int) {
    exists k :: ContentRowOf(moduleContent, course, n, k)
  }

  /** Whether `row` is the join of its module with the content row `moduleContent[k]`. */
  predicate RowOfContent(row: JoinedRow, modules: map<(CourseId, int), ModuleRow>,
                         moduleContent: seq<ContentRow>, course: CourseId, k: int)
  {
    ContentRowOf(moduleContent, course, row.moduleNumber, k) && (course, row.moduleNumber) in modules &&
    row == ContentJoined(row.moduleNumber, modules[(course, row.moduleNumber)], moduleContent[k])
  }

  /** `WHERE m.course_id = %s`: every row is a module of the course. */
  ghost predicate JoinInCourse(rows: seq<JoinedRow>, modules: map<(CourseId, int), ModuleRow>, course: CourseId) {
    forall i :: 0 <= i < |rows| ==> (course, rows[i].moduleNumber) in modules
  }

  /** A row with a content id joins one content row of its module. */
  ghost predicate JoinContentRows(rows: seq<JoinedRow>, modules: map<(CourseId, int), ModuleRow>,
                                  moduleContent: seq<ContentRow>, course: CourseId)
  {
    forall i :: 0 <= i < |rows| && rows[i].contentId.Some? ==>
      exists k :: RowOfContent(rows[i], modules, moduleContent, course, k)
  }

  /** A row without a content id is the NULL row of a module that has no content. */
  ghost predicate JoinBareRows(rows: seq<JoinedRow>, modules: map<(CourseId, int), ModuleRow>,
                               moduleContent: seq<ContentRow>, course: CourseId)
  {
    forall i :: 0 <= i < |rows| && rows[i].contentId.None? ==>
      ((course, rows[i].moduleNumber) in modules && !HasContent(moduleContent, course, rows[i].moduleNumber) &&
       rows[i] == BareModule(rows[i].moduleNumber, modules[(course, rows[i].moduleNumber)]))
  }

  /** Every content row of a module of the course has its joined row. */
  ghost predicate JoinCoversContent(rows: seq<JoinedRow>, modules: map<(CourseId, int), ModuleRow>,
                                    moduleContent: seq<ContentRow>, course: CourseId)
  {
    forall k :: (0 <= k < |moduleContent| && moduleContent[k].courseId == course &&
                 (course, moduleContent[k].moduleNumber) in modules) ==>
      exists i :: 0 <= i < |rows| && RowOfContent(rows[i], modules, moduleContent, course, k)
  }

  /** Every module of the course without content has its NULL row (the LEFT of the join). */
  ghost predicate JoinCoversBare(rows: seq<JoinedRow>, modules: map<(CourseId, int), ModuleRow>,
                                 moduleContent: seq<ContentRow>, course: CourseId)
  {
    forall n :: ((course, n) in modules && !HasContent(moduleContent, course, n)) ==>
      exists i :: 0 <= i < |rows| && rows[i] == BareModule(n, modules[(course, n)])
  }

  /** `ORDER BY m.module_number, mc.content_id`, which also makes the rows distinct. */
  ghost predicate JoinOrdered(rows: seq<JoinedRow>) {
    forall i, j :: 0 <= i < j < |rows| ==>
      (rows[i].moduleNumber < rows[j].moduleNumber ||
       (rows[i].moduleNumber == rows[j].moduleNumber && rows[i].contentId.Some? && rows[j].contentId.Some? &&
        rows[i].contentId.value < rows[j].contentId.value))
  }

  /**
   * `rows` is the answer of the student modules query for `course`: `module LEFT JOIN
   * module_content` on course and module number, restricted to the course and ordered by
   * module number and then content id.
   */
  ghost predicate IsJoin(rows: seq<JoinedRow>, modules: map<(CourseId, int), ModuleRow>,
                         moduleContent: seq<ContentRow>, course: CourseId)
  {
    JoinInCourse(rows, modules, course) && JoinContentRows(rows, modules, moduleContent, course) &&
    JoinBareRows(rows, modules, moduleContent, course) && JoinCoversContent(rows, modules, moduleContent, course) &&
    JoinCoversBare(rows, modules, moduleContent, course) && JoinOrdered(rows)
  }

  /** The grouped join lists every module of the course, and only those, each once. */
  lemma JoinListsCourseModules(rows: seq<JoinedRow>, modules: map<(CourseId, int), ModuleRow>,
                               moduleContent: seq<ContentRow>, course: CourseId)
    requires JoinInCourse(rows, modules, course)
    requires JoinCoversContent(rows, modules, moduleContent, course)
    requires JoinCoversBare(rows, modules, moduleContent, course)
    ensures var views := Grouped(rows);
      forall n :: (course, n) in modules <==> exists j :: 0 <= j < |views| && views[j].moduleNumber == n
    ensures var views := Grouped(rows);
      forall i, j :: 0 <= i < j < |views| ==> views[i].moduleNumber != views[j].moduleNumber
  {
    var views := Grouped(rows);
    var keys := FirstSeen(rows);
    FirstSeenDistinct(rows);
    forall n
      ensures (course, n) in modules <==> exists j :: 0 <= j < |views| && views[j].moduleNumber == n
    {
      FirstSeenMembers(rows, n);
      if (course, n) in modules {
        if HasContent(moduleContent, course, n) {
          var k :| ContentRowOf(moduleContent, course, n, k);
          var i :| 0 <= i < |rows| && RowOfContent(rows[i], modules, moduleContent, course, k);
          assert rows[i].moduleNumber == n;
        } else {
          var i :| 0 <= i < |rows| && rows[i] == BareModule(n, modules[(course, n)]);
          assert rows[i].moduleNumber == n;
        }
        var j :| 0 <= j < |keys| && keys[j] == n;
        assert views[j].moduleNumber == n;
      }
      if exists j :: 0 <= j < |views| && views[j].moduleNumber == n {
        var j :| 0 <= j < |views| && views[j].moduleNumber == n;
        assert keys[j] == n;
        var i :| 0 <= i < |rows| && rows[i].moduleNumber == n;
      }
    }
  }

  /** The ORDER BY of the query lists the modules by increasing module number. */
  lemma JoinModulesAscending(rows: seq<JoinedRow>)
    requires JoinOrdered(rows)
    ensures var views := Grouped(rows);
      forall i, j :: 0 <= i < j < |views| ==> views[i].moduleNumber < views[j].moduleNumber
  {
    var views := Grouped(rows);
    var keys := FirstSeen(rows);
    FirstSeenSorted(rows);
    forall i, j | 0 <= i < j < |views|
      ensures views[i].moduleNumber < views[j].moduleNumber
    {
      assert views[i].moduleNumber == keys[i] && views[j].moduleNumber == keys[j];
    }
  }

  /** Each listed module carries the name and duration stored for it. */
  lemma JoinModuleHeaders(rows: seq<JoinedRow>, modules: map<(CourseId, int), ModuleRow>,
                          moduleContent: seq<ContentRow>, course: CourseId)
    requires JoinContentRows(rows, modules, moduleContent, course)
    requires JoinBareRows(rows, modules, moduleContent, course)
    ensures var views := Grouped(rows);
      forall j :: 0 <= j < |views| ==>
        ((course, views[j].moduleNumber) in modules &&
         views[j].name == modules[(course, views[j].moduleNumber)].name &&
         views[j].duration == modules[(course, views[j].moduleNumber)].duration)
  {
    var views := Grouped(rows);
    var keys := FirstSeen(rows);
    forall j | 0 <= j < |views|
      ensures (course, views[j].moduleNumber) in modules &&
        views[j].name == modules[(course, views[j].moduleNumber)].name &&
        views[j].duration == modules[(course, views[j].moduleNumber)].duration
    {
      var m := keys[j];
      HeaderIsFirstRow(rows, m);
      var h :| 0 <= h < |rows| && rows[h] == HeaderRow(rows, m) && rows[h].moduleNumber == m &&
        forall i :: 0 <= i < h ==> rows[i].moduleNumber != m;
      assert views[j] == ModuleOf(rows, m);
      if rows[h].contentId.Some? {
        var k :| RowOfContent(rows[h], modules, moduleContent, course, k);
      }
    }
  }

  /** Every item of a listed module is a content row of that module of the course. */
  lemma JoinContentOwnModule(rows: seq<JoinedRow>, modules: map<(CourseId, int), ModuleRow>,
                             moduleContent: seq<ContentRow>, course: CourseId)
    requires JoinContentRows(rows, modules, moduleContent, course)
    ensures var views := Grouped(rows);
      forall j, c :: 0 <= j < |views| && c in views[j].content ==>
        exists k :: ContentRowOf(moduleContent, course, views[j].moduleNumber, k) && c == ViewOf(moduleContent[k])
  {
    var views := Grouped(rows);
    var keys := FirstSeen(rows);
    forall j, c | 0 <= j < |views| && c in views[j].content
      ensures exists k :: ContentRowOf(moduleContent, course, views[j].moduleNumber, k) && c == ViewOf(moduleContent[k])
    {
      var m := keys[j];
      assert views[j] == ModuleOf(rows, m);
      ContentFromOwnRows(rows, m);
      var i :| 0 <= i < |rows| && rows[i].moduleNumber == m && rows[i].contentId == Some(c.contentId) &&
        c == ContentView(rows[i].contentId.value, rows[i].title, rows[i].contentType, rows[i].url);
      var k :| RowOfContent(rows[i], modules, moduleContent, course, k);
      assert c == ViewOf(moduleContent[k]);
    }
  }

  /** Every content row of a listed module appears among that module's items. */
  lemma JoinContentComplete(rows: seq<JoinedRow>, modules: map<(CourseId, int), ModuleRow>,
                            moduleContent: seq<ContentRow>, course: CourseId)
    requires JoinInCourse(rows, modules, course)
    requires JoinCoversContent(rows, modules, moduleContent, course)
    ensures var views := Grouped(rows);
      forall j, k :: (0 <= j < |views| && ContentRowOf(moduleContent, course, views[j].moduleNumber, k)) ==>
        ViewOf(moduleContent[k]) in views[j].content
  {
    var views := Grouped(rows);
    var keys := FirstSeen(rows);
    forall j, k | 0 <= j < |views| && ContentRowOf(moduleContent, course, views[j].moduleNumber, k)
      ensures ViewOf(moduleContent[k]) in views[j].content
    {
      var m := keys[j];
      assert views[j] == ModuleOf(rows, m);
      FirstSeenMembers(rows, m);
      var r :| 0 <= r < |rows| && rows[r].moduleNumber == m;
      assert (course, m) in modules;
      var i :| 0 <= i < |rows| && RowOfContent(rows[i], modules, moduleContent, course, k);
      RowContentListed(rows, i);
    }
  }

  /** The assignment totals of one student in one course, and their percentage. */
  datatype Totals = Totals(obtained: int, possible: int, percent: real)

  class Database {
    var users: map<UserId, UserRow>
    var studentProfiles: map<UserId, StudentProfile>
    var instructorProfiles: map<UserId, InstructorProfile>
    var courses: map<CourseId, CourseRow>
    var teaches: set<(UserId, CourseId)>
    var enrolledIn: map<(UserId, CourseId), Enrollment>
    var modules: map<(CourseId, int), ModuleRow>
    var moduleContent: seq<ContentRow>
    var nextContentId: ContentId
    var assignments: map<AssignmentId, AssignmentRow>
    var nextAssignmentId: AssignmentId
    var submissions: map<(AssignmentId, UserId), SubmissionRow>
    var nextSubmissionId: SubmissionId

    /**
     * The integrity the endpoints keep: profile rows belong to users, content belongs to an
     * existing module, submissions to an existing assignment, generated ids are fresh and
     * distinct, and every mark stored is within its assignment's bound.
     */
    ghost predicate Valid()
      reads this
    {
      ProfilesOwned(users, studentProfiles, instructorProfiles) &&
      ContentPlaced(moduleContent, modules, nextContentId) &&
      AssignmentIdsBelow(assignments, nextAssignmentId) &&
      SubmissionsPlaced(submissions, assignments, nextSubmissionId)
    }

    constructor ()
      ensures Valid()
      ensures users == map[] && courses == map[] && teaches == {} && enrolledIn == map[]
      ensures studentProfiles == map[] && instructorProfiles == map[]
      ensures modules == map[] && moduleContent == [] && assignments == map[] && submissions == map[]
      ensures nextContentId == 1 && nextAssignmentId == 1 && nextSubmissionId == 1
    {
      users, studentProfiles, instructorProfiles := map[], map[], map[];
      courses, teaches, enrolledIn := map[], {}, map[];
      modules, moduleContent, nextContentId := map[], [], 1;
      assignments, nextAssignmentId := map[], 1;
      submissions, nextSubmissionId := map[], 1;
    }

    /** The signup endpoint; `auth` is what the identity provider answered (or its absence). */
    method Signup(name: Option<string>, email: Option<string>, password: Option<string>, role: Option<string>,
                  auth: SignupAuth)
      returns (r: Result<SignupReply>)
      requires Valid()
      modifies this
      ensures Valid()
      ensures ValidateSignup(name, email, password).Some? ==>
        (r == Err(ValidateSignup(name, email, password).value) && users == old(users))
      ensures (ValidateSignup(name, email, password).None? && auth.AuthFailed?) ==>
        (r == Err(ApiError(400, "Signup failed: " + auth.msg)) && users == old(users))
      ensures (ValidateSignup(name, email, password).None? && auth.AuthCreated?) ==>
        (users == SignupUsers(old(users), auth.authUserId, name.value, email.value, SignupRole(role)) &&
        r == Ok(if AutoApprove(old(users), SignupRole(role))
                then SignupReply(AdminCreated,
                                 Some(SessionUser(auth.authUserId, name.value, email.value, SignupRole(role))))
                else SignupReply(ApprovalNotice, None)))
      ensures (ValidateSignup(name, email, password).None? && auth.NoAuthService?) ==>
        (if auth.generatedId in old(users) then r == Err(DatabaseError) && users == old(users)
         else (r == Ok(SignupReply(ApprovalNotice, None)) &&
               users == old(users)[auth.generatedId := UserRow(name.value, email.value, SignupRole(role), Some(false))]))
      ensures r.Ok? && r.value.user.Some? ==> auth.AuthCreated? && AutoApprove(old(users), SignupRole(role))
      ensures r.Ok? ==> !auth.AuthFailed?
      ensures r.Ok? ==> (var uid := if auth.AuthCreated? then auth.authUserId else auth.generatedId;
        studentProfiles == (if SignupRole(role) == StudentRole && uid !in old(studentProfiles)
                            then old(studentProfiles)[uid := EmptyStudentProfile] else old(studentProfiles)) &&
        instructorProfiles == (if SignupRole(role) == InstructorRole && uid !in old(instructorProfiles)
                               then old(instructorProfiles)[uid := EmptyInstructorProfile]
                               else old(instructorProfiles)))
      ensures r.Err? ==> studentProfiles == old(studentProfiles) && instructorProfiles == old(instructorProfiles)
      ensures unchanged(this`courses, this`teaches, this`enrolledIn)
      ensures unchanged(this`modules, this`moduleContent)
      ensures unchanged(this`assignments, this`submissions)
    {
      var invalid := ValidateSignup(name, email, password);
      if invalid.Some? {
        return Err(invalid.value);
      }
      var theRole := SignupRole(role);
      match auth {
        case AuthFailed(msg) =>
          r := Err(ApiError(400, "Signup failed: " + msg));
        case AuthCreated(uid) =>
          var auto := AutoApprove(users, theRole);
          users := SignupUsers(users, uid, name.value, email.value, theRole);
          AddRoleProfile(uid, theRole);
          if auto {
            r := Ok(SignupReply(AdminCreated, Some(SessionUser(uid, name.value, email.value, theRole))));
          } else {
            r := Ok(SignupReply(ApprovalNotice, None));
          }
        case NoAuthService(uid) =>
          if uid in users {
            return Err(DatabaseError);
          }
          users := users[uid := UserRow(name.value, email.value, theRole, Some(false))];
          AddRoleProfile(uid, theRole);
          r := Ok(SignupReply(ApprovalNotice, None));
      }
    }

    /**
     * The empty role profile row signup inserts for a student or an instructor; an existing
     * row is left alone (`ON CONFLICT DO NOTHING`).
     */
    method AddRoleProfile(uid: UserId, role: string)
      requires ProfilesOwned(users, studentProfiles, instructorProfiles)
      requires ContentPlaced(moduleContent, modules, nextContentId)
      requires AssignmentIdsBelow(assignments, nextAssignmentId)
      requires SubmissionsPlaced(submissions, assignments, nextSubmissionId)
      requires uid in users
      modifies this
      ensures Valid()
      ensures studentProfiles == (if role == StudentRole && uid !in old(studentProfiles)
                                  then old(studentProfiles)[uid := EmptyStudentProfile] else old(studentProfiles))
      ensures instructorProfiles == (if role == InstructorRole && uid !in old(instructorProfiles)
                                     then old(instructorProfiles)[uid := EmptyInstructorProfile]
                                     else old(instructorProfiles))
      ensures unchanged(this`users, this`courses, this`teaches, this`enrolledIn)
      ensures unchanged(this`modules, this`moduleContent)
      ensures unchanged(this`assignments, this`submissions)
    {
      if role == StudentRole && uid !in studentProfiles {
        studentProfiles := studentProfiles[uid := EmptyStudentProfile];
      } else if role == InstructorRole && uid !in instructorProfiles {
        instructorProfiles := instructorProfiles[uid := EmptyInstructorProfile];
      }
    }

    /** The enroll endpoint: a new (user, course) row with status ongoing, or a conflict. */
    method Enroll(userId: Option<string>, courseId: Option<string>) returns (r: Result<string>)
      requires Valid()
      modifies this
      ensures Valid()
      ensures !Truthy(userId) || !Truthy(courseId) ==>
        (r == Err(ApiError(400, EnrollFieldsRequired)) && enrolledIn == old(enrolledIn))
      ensures (Truthy(userId) && Truthy(courseId) && (userId.value, courseId.value) in old(enrolledIn)) ==>
        (r == Err(ApiError(400, EnrollRefused)) && enrolledIn == old(enrolledIn))
      ensures r.Ok? <==> Truthy(userId) && Truthy(courseId) && (userId.value, courseId.value) !in old(enrolledIn)
      ensures r.Ok? ==> (r.value == EnrolledNotice &&
        enrolledIn == old(enrolledIn)[(userId.value, courseId.value) := Enrollment(Ongoing, None, None)])
      ensures unchanged(this`users, this`courses, this`teaches)
      ensures unchanged(this`studentProfiles, this`instructorProfiles)
      ensures unchanged(this`modules, this`moduleContent)
      ensures unchanged(this`assignments, this`submissions)
    {
      if !Truthy(userId) || !Truthy(courseId) {
        return Err(ApiError(400, EnrollFieldsRequired));
      }
      var key := (userId.value, courseId.value);
      if key in enrolledIn {
        return Err(ApiError(400, EnrollRefused));
      }
      enrolledIn := enrolledIn[key := Enrollment(Ongoing, None, None)];
      r := Ok(EnrolledNotice);
    }

    /** The approve endpoint: the flag becomes true; an unknown id updates nothing. */
    method ApproveUser(userId: Option<string>) returns (r: Result<string>)
      requires Valid()
      modifies this
      ensures Valid()
      ensures !Truthy(userId) ==> r == Err(ApiError(400, UserIdRequired)) && users == old(users)
      ensures Truthy(userId) ==> (r == Ok("User approved") &&
        users == (if userId.value in old(users)
                  then old(users)[userId.value := old(users)[userId.value].(approved := Some(true))]
                  else old(users)))
      ensures Truthy(userId) && userId.value in old(users) ==> ApprovedForLogin(users[userId.value])
      ensures unchanged(this`courses, this`teaches, this`enrolledIn)
      ensures unchanged(this`studentProfiles, this`instructorProfiles)
      ensures unchanged(this`modules, this`moduleContent)
      ensures unchanged(this`assignments, this`submissions)
    {
      if !Truthy(userId) {
        return Err(ApiError(400, UserIdRequired));
      }
      if userId.value in users {
        users := users[userId.value := users[userId.value].(approved := Some(true))];
      }
      r := Ok("User approved");
    }

    /** The assign endpoint: the pair joins `teaches`; assigning twice changes nothing more. */
    method AssignInstructor(instructorId: Option<string>, courseId: Option<string>) returns (r: Result<string>)
      requires Valid()
      modifies this
      ensures Valid()
      ensures !Truthy(instructorId) || !Truthy(courseId) ==>
        (r == Err(ApiError(400, AssignFieldsRequired)) && teaches == old(teaches))
      ensures (Truthy(instructorId) && Truthy(courseId)) ==>
        (r == Ok(InstructorAssigned) && teaches == old(teaches) + {(instructorId.value, courseId.value)})
      ensures unchanged(this`users, this`courses, this`enrolledIn)
      ensures unchanged(this`studentProfiles, this`instructorProfiles)
      ensures unchanged(this`modules, this`moduleContent)
      ensures unchanged(this`assignments, this`submissions)
    {
      if !Truthy(instructorId) || !Truthy(courseId) {
        return Err(ApiError(400, AssignFieldsRequired));
      }
      teaches := teaches + {(instructorId.value, courseId.value)};
      r := Ok(InstructorAssigned);
    }

    /** The student profile update: the name in `users`, the other given fields in `student`. */
    method UpdateStudentProfile(userId: Option<string>, name: Option<string>, branch: Option<string>,
                                country: Option<string>, dob: Option<string>, phoneNumber: Option<string>)
      returns (r: Result<string>)
      requires Valid()
      modifies this
      ensures Valid()
      ensures !Truthy(userId) ==> r == Err(ApiError(400, UserIdRequired))
      ensures (Truthy(userId) && name.None? && branch.None? && country.None? && dob.None? && phoneNumber.None?) ==>
        (r == Err(ApiError(400, NothingToUpdate)))
      ensures r.Err? ==> users == old(users) && studentProfiles == old(studentProfiles)
      ensures r.Ok? <==> (Truthy(userId) &&
        (name.Some? || branch.Some? || country.Some? || dob.Some? || phoneNumber.Some?))
      ensures r.Ok? ==> r.value == ProfileUpdated
      ensures r.Ok? ==> (users == (if name.Some? && userId.value in old(users)
                                  then old(users)[userId.value := old(users)[userId.value].(name := name.value)]
                                  else old(users)))
      ensures r.Ok? ==> (studentProfiles ==
        (if userId.value in old(studentProfiles)
         then old(studentProfiles)[userId.value :=
           MergeStudentProfile(old(studentProfiles)[userId.value], branch, country, dob, phoneNumber)]
         else old(studentProfiles)))
      ensures unchanged(this`courses, this`teaches, this`enrolledIn)
      ensures unchanged(this`instructorProfiles)
      ensures unchanged(this`modules, this`moduleContent)
      ensures unchanged(this`assignments, this`submissions)
    {
      if !Truthy(userId) {
        return Err(ApiError(400, UserIdRequired));
      }
      var uid := userId.value;
      RenameUser(uid, name);
      var updates, params := BuildStudentUpdates(branch, country, dob, phoneNumber);
      if updates == [] && name.None? {
        return Err(ApiError(400, NothingToUpdate));
      }
      if updates != [] {
        WriteStudentColumns(uid, updates, params);
      }
      if uid in old(studentProfiles) {
        StudentUpdatesMerge(old(studentProfiles)[uid], branch, country, dob, phoneNumber);
      }
      r := Ok(ProfileUpdated);
    }

    /** `UPDATE users SET name = ... WHERE user_id = uid`, when a name is given. */
    method RenameUser(uid: UserId, name: Option<string>)
      requires Valid()
      modifies this
      ensures Valid()
      ensures users == (if name.Some? && uid in old(users) then old(users)[uid := old(users)[uid].(name := name.value)]
                        else old(users))
      ensures unchanged(this`courses, this`teaches, this`enrolledIn)
      ensures unchanged(this`studentProfiles, this`instructorProfiles)
      ensures unchanged(this`modules, this`moduleContent)
      ensures unchanged(this`assignments, this`submissions)
    {
      if name.Some? && uid in users {
        users := users[uid := users[uid].(name := name.value)];
      }
    }

    /** `UPDATE student SET <updates> WHERE user_id = uid`. */
    method WriteStudentColumns(uid: UserId, updates: seq<string>, params: seq<string>)
      requires Valid()
      requires |updates| == |params|
      modifies this
      ensures Valid()
      ensures studentProfiles == (if uid in old(studentProfiles)
        then old(studentProfiles)[uid := ApplySet(old(studentProfiles)[uid], SetStudentColumn, updates, params)]
        else old(studentProfiles))
      ensures unchanged(this`users, this`courses, this`teaches, this`enrolledIn)
      ensures unchanged(this`instructorProfiles)
      ensures unchanged(this`modules, this`moduleContent)
      ensures unchanged(this`assignments, this`submissions)
    {
      if uid in studentProfiles {
        studentProfiles := studentProfiles[uid := ApplySet(studentProfiles[uid], SetStudentColumn, updates, params)];
      }
    }

    /** The instructor profile update: only the given fields of `instructor` are written. */
    method UpdateInstructorProfile(userId: Option<string>, branch: Option<string>, specialization: Option<string>,
                                   hireYear: Option<string>, phoneNumber: Option<string>)
      returns (r: Result<string>)
      requires Valid()
      modifies this
      ensures Valid()
      ensures !Truthy(userId) ==> r == Err(ApiError(400, UserIdRequired))
      ensures (Truthy(userId) && branch.None? && specialization.None? && hireYear.None? && phoneNumber.None?) ==>
        (r == Err(ApiError(400, NothingToUpdate)))
      ensures r.Ok? <==> (Truthy(userId) &&
        (branch.Some? || specialization.Some? || hireYear.Some? || phoneNumber.Some?))
      ensures r.Ok? ==> (r.value == ProfileUpdated && instructorProfiles ==
        (if userId.value in old(instructorProfiles)
         then old(instructorProfiles)[userId.value :=
           MergeInstructorProfile(old(instructorProfiles)[userId.value], branch, specialization, hireYear, phoneNumber)]
         else old(instructorProfiles)))
      ensures r.Err? ==> instructorProfiles == old(instructorProfiles)
      ensures unchanged(this`users, this`courses, this`teaches, this`enrolledIn)
      ensures unchanged(this`studentProfiles)
      ensures unchanged(this`modules, this`moduleContent)
      ensures unchanged(this`assignments, this`submissions)
    {
      if !Truthy(userId) {
        return Err(ApiError(400, UserIdRequired));
      }
      var uid := userId.value;
      var updates, params := BuildInstructorUpdates(branch, specialization, hireYear, phoneNumber);
      if updates == [] {
        return Err(ApiError(400, NothingToUpdate));
      }
      if uid in instructorProfiles {
        InstructorUpdatesMerge(instructorProfiles[uid], branch, specialization, hireYear, phoneNumber);
      }
      WriteInstructorColumns(uid, updates, params);
      r := Ok(ProfileUpdated);
    }

    /** `UPDATE instructor SET <updates> WHERE user_id = uid`. */
    method WriteInstructorColumns(uid: UserId, updates: seq<string>, params: seq<Option<string>>)
      requires Valid()
      requires |updates| == |params|
      modifies this
      ensures Valid()
      ensures instructorProfiles == (if uid in old(instructorProfiles)
        then old(instructorProfiles)[uid := ApplySet(old(instructorProfiles)[uid], SetInstructorColumn, updates, params)]
        else old(instructorProfiles))
      ensures unchanged(this`users, this`courses, this`teaches, this`enrolledIn)
      ensures unchanged(this`studentProfiles)
      ensures unchanged(this`modules, this`moduleContent)
      ensures unchanged(this`assignments, this`submissions)
    {
      if uid in instructorProfiles {
        instructorProfiles := instructorProfiles[uid :=
          ApplySet(instructorProfiles[uid], SetInstructorColumn, updates, params)];
      }
    }

    /**
     * The course creation endpoint; `newId` is the identifier the database generates.
     * Every check happens before any table is touched.
     */
    method CreateCourse(adminId: Option<string>, req: NewCourse, newId: CourseId) returns (r: Result<CourseId>)
      requires Valid()
      modifies this
      ensures Valid()
      ensures RequireAdmin(old(users), adminId).Some? ==> r == Err(RequireAdmin(old(users), adminId).value)
      ensures (RequireAdmin(old(users), adminId).None? && ValidateNewCourse(req).Err?) ==>
        (r == Err(ValidateNewCourse(req).error))
      ensures r.Ok? <==> RequireAdmin(old(users), adminId).None? && ValidateNewCourse(req).Ok? && newId !in old(courses)
      ensures r.Ok? ==> r.value == newId && courses == old(courses)[newId := ValidateNewCourse(req).value]
      ensures r.Err? ==> courses == old(courses)
      ensures unchanged(this`users, this`teaches, this`enrolledIn)
      ensures unchanged(this`studentProfiles, this`instructorProfiles)
      ensures unchanged(this`modules, this`moduleContent)
      ensures unchanged(this`assignments, this`submissions)
    {
      var denied := RequireAdmin(users, adminId);
      if denied.Some? {
        return Err(denied.value);
      }
      var row := ValidateNewCourse(req);
      if row.Err? {
        return Err(row.error);
      }
      if newId in courses {
        return Err(DatabaseError);
      }
      courses := courses[newId := row.value];
      r := Ok(newId);
    }

    /** The course update endpoint: given fields replace the stored ones, the rest are kept. */
    method UpdateCourse(adminId: Option<string>, courseId: CourseId, patch: CoursePatch) returns (r: Result<string>)
      requires Valid()
      modifies this
      ensures Valid()
      ensures RequireAdmin(old(users), adminId).Some? ==> r == Err(RequireAdmin(old(users), adminId).value)
      ensures (RequireAdmin(old(users), adminId).None? && courseId !in old(courses)) ==>
        (r == Err(ApiError(404, NoSuchCourse)))
      ensures (RequireAdmin(old(users), adminId).None? && courseId in old(courses)) ==>
        (match MergeCourse(old(courses)[courseId], patch)
        case Err(e) => r == Err(e)
        case Ok(row) => r == Ok(CourseUpdated) && courses == old(courses)[courseId := row])
      ensures r.Err? ==> courses == old(courses)
      ensures unchanged(this`users, this`teaches, this`enrolledIn)
      ensures unchanged(this`studentProfiles, this`instructorProfiles)
      ensures unchanged(this`modules, this`moduleContent)
      ensures unchanged(this`assignments, this`submissions)
    {
      var denied := RequireAdmin(users, adminId);
      if denied.Some? {
        return Err(denied.value);
      }
      if courseId !in courses {
        return Err(ApiError(404, NoSuchCourse));
      }
      var merged := MergeCourse(courses[courseId], patch);
      if merged.Err? {
        return Err(merged.error);
      }
      courses := courses[courseId := merged.value];
      r := Ok(CourseUpdated);
    }

    /** The grading endpoint: grade, status (default completed) and today's completion date. */
    method GradeStudent(instructorId: Option<string>, courseId: Option<string>, studentId: Option<string>,
                        grade: Option<string>, status: Option<string>, today: Date)
      returns (r: Result<string>)
      requires Valid()
      modifies this
      ensures Valid()
      ensures (!(Truthy(instructorId) && Truthy(courseId) && Truthy(studentId) && Truthy(grade))) ==>
        (r == Err(ApiError(400, AllFieldsRequired)))
      ensures r.Ok? <==> (Truthy(instructorId) && Truthy(courseId) && Truthy(studentId) && Truthy(grade) &&
        (instructorId.value, courseId.value) in teaches)
      ensures (Truthy(instructorId) && Truthy(courseId) && Truthy(studentId) && Truthy(grade) && r.Err?) ==>
        (r == Err(NotTeaching))
      ensures r.Err? ==> enrolledIn == old(enrolledIn)
      ensures r.Ok? ==> (r.value == StudentGraded &&
        var key := (studentId.value, courseId.value);
        var newStatus := ParseStatus(if status.Some? then status.value else "completed");
        enrolledIn == (if key in old(enrolledIn)
                       then old(enrolledIn)[key := Enrollment(newStatus, grade, Some(today))]
                       else old(enrolledIn)))
      ensures unchanged(this`users, this`courses, this`teaches)
      ensures unchanged(this`studentProfiles, this`instructorProfiles)
      ensures unchanged(this`modules, this`moduleContent)
      ensures unchanged(this`assignments, this`submissions)
    {
      var theStatus := if status.Some? then status.value else "completed";
      if !(Truthy(instructorId) && Truthy(courseId) && Truthy(studentId) && Truthy(grade)) {
        return Err(ApiError(400, AllFieldsRequired));
      }
      if (instructorId.value, courseId.value) !in teaches {
        return Err(NotTeaching);
      }
      var key := (studentId.value, courseId.value);
      if key in enrolledIn {
        enrolledIn := enrolledIn[key := Enrollment(ParseStatus(theStatus), grade, Some(today))];
      }
      r := Ok(StudentGraded);
    }

    /** The remove endpoint: the enrolment row stays, with status dropped. */
    method RemoveStudent(instructorId: Option<string>, courseId: Option<string>, studentId: Option<string>)
      returns (r: Result<string>)
      requires Valid()
      modifies this
      ensures Valid()
      ensures (!(Truthy(instructorId) && Truthy(courseId) && Truthy(studentId))) ==>
        (r == Err(ApiError(400, AllFieldsRequired)))
      ensures (Truthy(instructorId) && Truthy(courseId) && Truthy(studentId) &&
        (instructorId.value, courseId.value) !in teaches) ==> r == Err(NotTeaching)
      ensures r.Ok? <==> (Truthy(instructorId) && Truthy(courseId) && Truthy(studentId) &&
        (instructorId.value, courseId.value) in teaches)
      ensures r.Err? ==> enrolledIn == old(enrolledIn)
      ensures r.Ok? ==> (r.value == StudentRemoved &&
        var key := (studentId.value, courseId.value);
        enrolledIn == (if key in old(enrolledIn)
                       then old(enrolledIn)[key := old(enrolledIn)[key].(status := Dropped)]
                       else old(enrolledIn)) &&
        !ActivelyEnrolled(enrolledIn, studentId.value, courseId.value))
      ensures unchanged(this`users, this`courses, this`teaches)
      ensures unchanged(this`studentProfiles, this`instructorProfiles)
      ensures unchanged(this`modules, this`moduleContent)
      ensures unchanged(this`assignments, this`submissions)
    {
      if !(Truthy(instructorId) && Truthy(courseId) && Truthy(studentId)) {
        return Err(ApiError(400, AllFieldsRequired));
      }
      if (instructorId.value, courseId.value) !in teaches {
        return Err(NotTeaching);
      }
      var key := (studentId.value, courseId.value);
      if key in enrolledIn {
        enrolledIn := enrolledIn[key := enrolledIn[key].(status := Dropped)];
      }
      r := Ok(StudentRemoved);
    }

    /** The module creation endpoint: module numbers are unique within a course. */
    method CreateModule(instructorId: Option<string>, courseId: Option<string>, moduleNumber: Option<int>,
                        name: Option<string>, duration: Option<string>)
      returns (r: Result<string>)
      requires Valid()
      modifies this
      ensures Valid()
      ensures (!(Truthy(instructorId) && Truthy(courseId) && GivenNumber(moduleNumber) && Truthy(name))) ==>
        (r == Err(ApiError(400, ModuleFieldsRequired)))
      ensures (Truthy(instructorId) && Truthy(courseId) && GivenNumber(moduleNumber) && Truthy(name) &&
        (instructorId.value, courseId.value) !in teaches) ==> r == Err(NotTeaching)
      ensures (Truthy(instructorId) && Truthy(courseId) && GivenNumber(moduleNumber) && Truthy(name) &&
        (instructorId.value, courseId.value) in teaches && (courseId.value, moduleNumber.value) in old(modules)) ==>
        (r == Err(ApiError(400, ModuleNumberTaken)))
      ensures r.Ok? <==> (Truthy(instructorId) && Truthy(courseId) && GivenNumber(moduleNumber) && Truthy(name) &&
        (instructorId.value, courseId.value) in teaches && (courseId.value, moduleNumber.value) !in old(modules))
      ensures r.Err? ==> modules == old(modules)
      ensures r.Ok? ==> (r.value == ModuleCreated &&
        modules == old(modules)[(courseId.value, moduleNumber.value) :=
          ModuleRow(name.value, if duration.Some? then duration.value else "")])
      ensures unchanged(this`users, this`courses, this`teaches, this`enrolledIn)
      ensures unchanged(this`studentProfiles, this`instructorProfiles)
      ensures unchanged(this`moduleContent)
      ensures unchanged(this`assignments, this`submissions)
    {
      if !(Truthy(instructorId) && Truthy(courseId) && GivenNumber(moduleNumber) && Truthy(name)) {
        return Err(ApiError(400, ModuleFieldsRequired));
      }
      if (instructorId.value, courseId.value) !in teaches {
        return Err(NotTeaching);
      }
      var key := (courseId.value, moduleNumber.value);
      if key in modules {
        return Err(ApiError(400, ModuleNumberTaken));
      }
      modules := modules[key := ModuleRow(name.value, if duration.Some? then duration.value else "")];
      r := Ok(ModuleCreated);
    }

    /** The content endpoint: a content row for an existing module, with a fresh id. */
    method AddModuleContent(instructorId: Option<string>, courseId: Option<string>, moduleNumber: Option<int>,
                            title: Option<string>, contentType: Option<string>, url: Option<string>)
      returns (r: Result<ContentId>)
      requires Valid()
      modifies this
      ensures Valid()
      ensures (!(Truthy(instructorId) && Truthy(courseId) && GivenNumber(moduleNumber) &&
                Truthy(title) && Truthy(contentType) && Truthy(url))) ==>
        (r == Err(ApiError(400, AllFieldsRequired)))
      ensures (Truthy(instructorId) && Truthy(courseId) && GivenNumber(moduleNumber) &&
        Truthy(title) && Truthy(contentType) && Truthy(url) &&
        (instructorId.value, courseId.value) !in teaches) ==> r == Err(NotTeaching)
      ensures (Truthy(instructorId) && Truthy(courseId) && GivenNumber(moduleNumber) &&
        Truthy(title) && Truthy(contentType) && Truthy(url) &&
        (instructorId.value, courseId.value) in teaches && (courseId.value, moduleNumber.value) !in modules) ==>
        r == Err(ApiError(404, NoSuchModule))
      ensures r.Ok? <==> (Truthy(instructorId) && Truthy(courseId) && GivenNumber(moduleNumber) &&
        Truthy(title) && Truthy(contentType) && Truthy(url) &&
        (instructorId.value, courseId.value) in teaches && (courseId.value, moduleNumber.value) in modules)
      ensures r.Err? ==> moduleContent == old(moduleContent)
      ensures r.Ok? ==> (r.value == old(nextContentId) &&
        moduleContent == old(moduleContent) +
          [ContentRow(r.value, courseId.value, moduleNumber.value, title.value, contentType.value, url.value)])
      ensures unchanged(this`users, this`courses, this`teaches, this`enrolledIn)
      ensures unchanged(this`studentProfiles, this`instructorProfiles)
      ensures unchanged(this`modules)
      ensures unchanged(this`assignments, this`submissions)
    {
      if !(Truthy(instructorId) && Truthy(courseId) && GivenNumber(moduleNumber) &&
           Truthy(title) && Truthy(contentType) && Truthy(url)) {
        return Err(ApiError(400, AllFieldsRequired));
      }
      if (instructorId.value, courseId.value) !in teaches {
        return Err(NotTeaching);
      }
      if (courseId.value, moduleNumber.value) !in modules {
        return Err(ApiError(404, NoSuchModule));
      }
      var id := nextContentId;
      moduleContent := moduleContent +
        [ContentRow(id, courseId.value, moduleNumber.value, title.value, contentType.value, url.value)];
      nextContentId := nextContentId + 1;
      r := Ok(id);
    }

    /**
     * The assignment creation endpoint.  An absent description is "", an empty due date
     * is NULL and an absent maximum is 20 marks; the module number is stored as given.
     */
    method CreateAssignment(instructorId: Option<string>, courseId: Option<string>, moduleNumber: Option<int>,
                            title: Option<string>, description: Option<string>, assignmentUrl: Option<string>,
                            dueDate: Option<string>, maxMarks: Option<int>)
      returns (r: Result<AssignmentId>)
      requires Valid()
      modifies this
      ensures Valid()
      ensures (!(Truthy(instructorId) && Truthy(courseId) && Truthy(title) && Truthy(assignmentUrl))) ==>
        (r == Err(ApiError(400, AssignmentFieldsRequired)))
      ensures (Truthy(instructorId) && Truthy(courseId) && Truthy(title) && Truthy(assignmentUrl) &&
        (instructorId.value, courseId.value) !in teaches) ==> r == Err(NotTeaching)
      ensures r.Ok? <==> (Truthy(instructorId) && Truthy(courseId) && Truthy(title) && Truthy(assignmentUrl) &&
        (instructorId.value, courseId.value) in teaches)
      ensures r.Err? ==> assignments == old(assignments)
      ensures r.Ok? ==> (r.value !in old(assignments) &&
        assignments == old(assignments)[r.value :=
          AssignmentRow(courseId.value, moduleNumber, instructorId.value, title.value,
                        if description.Some? then description.value else "", assignmentUrl.value,
                        if Truthy(dueDate) then dueDate else None,
                        if maxMarks.Some? then maxMarks.value else 20)])
      ensures unchanged(this`users, this`courses, this`teaches, this`enrolledIn)
      ensures unchanged(this`studentProfiles, this`instructorProfiles)
      ensures unchanged(this`modules, this`moduleContent, this`submissions)
    {
      if !(Truthy(instructorId) && Truthy(courseId) && Truthy(title) && Truthy(assignmentUrl)) {
        return Err(ApiError(400, AssignmentFieldsRequired));
      }
      if (instructorId.value, courseId.value) !in teaches {
        return Err(NotTeaching);
      }
      var id := nextAssignmentId;
      var row := AssignmentRow(courseId.value, moduleNumber, instructorId.value, title.value,
                               if description.Some? then description.value else "", assignmentUrl.value,
                               if Truthy(dueDate) then dueDate else None,
                               if maxMarks.Some? then maxMarks.value else 20);
      assignments := assignments[id := row];
      nextAssignmentId := nextAssignmentId + 1;
      r := Ok(id);
    }

    /**
     * The submission endpoint: one submission per (assignment, student).  Submitting again
     * replaces only the URL; the id, the marks and the feedback are kept.
     */
    method SubmitAssignment(studentId: Option<string>, assignmentId: Option<AssignmentId>, url: Option<string>)
      returns (r: Result<string>)
      requires Valid()
      modifies this
      ensures Valid()
      ensures (!(Truthy(studentId) && GivenNumber(assignmentId) && Truthy(url))) ==>
        (r == Err(ApiError(400, SubmitFieldsRequired)))
      ensures (Truthy(studentId) && GivenNumber(assignmentId) && Truthy(url) && assignmentId.value !in assignments) ==>
        (r == Err(ApiError(404, NoSuchAssignment)))
      ensures (Truthy(studentId) && GivenNumber(assignmentId) && Truthy(url) && assignmentId.value in assignments &&
        !ActivelyEnrolled(enrolledIn, studentId.value, assignments[assignmentId.value].courseId)) ==>
        (r == Err(ApiError(403, NotEnrolled)))
      ensures r.Ok? <==> (Truthy(studentId) && GivenNumber(assignmentId) && Truthy(url) && assignmentId.value in assignments &&
        ActivelyEnrolled(enrolledIn, studentId.value, assignments[assignmentId.value].courseId))
      ensures r.Err? ==> submissions == old(submissions)
      ensures r.Ok? ==> (r.value == SubmissionStored &&
        var key := (assignmentId.value, studentId.value);
        submissions == old(submissions)[key :=
          if key in old(submissions) then old(submissions)[key].(url := url.value)
          else SubmissionRow(old(nextSubmissionId), url.value, None, None)])
      ensures unchanged(this`users, this`courses, this`teaches, this`enrolledIn)
      ensures unchanged(this`studentProfiles, this`instructorProfiles)
      ensures unchanged(this`modules, this`moduleContent, this`assignments)
    {
      if !(Truthy(studentId) && GivenNumber(assignmentId) && Truthy(url)) {
        return Err(ApiError(400, SubmitFieldsRequired));
      }
      var aid := assignmentId.value;
      if aid !in assignments {
        return Err(ApiError(404, NoSuchAssignment));
      }
      if !ActivelyEnrolled(enrolledIn, studentId.value, assignments[aid].courseId) {
        return Err(ApiError(403, NotEnrolled));
      }
      WriteSubmission((aid, studentId.value), url.value);
      r := Ok(SubmissionStored);
    }

    /**
     * `INSERT INTO submission ... ON CONFLICT (assignment_id, student_id) DO UPDATE SET
     * submission_url = ...`: a new row takes the next submission id.
     */
    method WriteSubmission(key: (AssignmentId, UserId), url: string)
      requires Valid()
      requires key.0 in assignments
      modifies this
      ensures Valid()
      ensures submissions == old(submissions)[key :=
        if key in old(submissions) then old(submissions)[key].(url := url)
        else SubmissionRow(old(nextSubmissionId), url, None, None)]
      ensures nextSubmissionId == if key in old(submissions) then old(nextSubmissionId) else old(nextSubmissionId) + 1
      ensures unchanged(this`users, this`courses, this`teaches, this`enrolledIn)
      ensures unchanged(this`studentProfiles, this`instructorProfiles)
      ensures unchanged(this`modules, this`moduleContent, this`assignments)
    {
      if key in submissions {
        submissions := submissions[key := submissions[key].(url := url)];
      } else {
        submissions := submissions[key := SubmissionRow(nextSubmissionId, url, None, None)];
        nextSubmissionId := nextSubmissionId + 1;
      }
    }


    /**
     * The submission grading endpoint.  Marks outside [0, max_marks] of the submission's
     * assignment are refused and leave the submission as it was.
     */
    method GradeSubmission(instructorId: Option<string>, submissionId: Option<SubmissionId>, marks: Option<int>,
                           feedback: Option<string>)
      returns (r: Result<string>)
      requires Valid()
      modifies this
      ensures Valid()
      ensures !GradeRequestGiven(instructorId, submissionId, marks) ==>
        r == Err(ApiError(400, GradeFieldsRequired))
      ensures (GradeRequestGiven(instructorId, submissionId, marks) &&
               !exists k :: OwnedSubmission(old(submissions), old(assignments), k, submissionId.value, instructorId.value)) ==>
        r == Err(ApiError(403, SubmissionNotGradeable))
      ensures r.Err? ==> submissions == old(submissions)
      ensures r.Ok? ==> (GradeRequestGiven(instructorId, submissionId, marks) &&
        exists k :: OwnedSubmission(old(submissions), old(assignments), k, submissionId.value, instructorId.value) &&
          CheckMarks(marks.value, old(assignments)[k.0].maxMarks).None? &&
          submissions == old(submissions)[k := old(submissions)[k].(marks := marks,
            feedback := Some(if feedback.Some? then feedback.value else ""))])
      ensures forall k :: (GradeRequestGiven(instructorId, submissionId, marks) &&
        OwnedSubmission(old(submissions), old(assignments), k, submissionId.value, instructorId.value)) ==>
        (r.Ok? <==> CheckMarks(marks.value, old(assignments)[k.0].maxMarks).None?)
      ensures forall k :: (GradeRequestGiven(instructorId, submissionId, marks) &&
        OwnedSubmission(old(submissions), old(assignments), k, submissionId.value, instructorId.value) &&
        CheckMarks(marks.value, old(assignments)[k.0].maxMarks).Some?) ==>
        r == Err(CheckMarks(marks.value, old(assignments)[k.0].maxMarks).value)
      ensures unchanged(this`users, this`courses, this`teaches, this`enrolledIn)
      ensures unchanged(this`studentProfiles, this`instructorProfiles)
      ensures unchanged(this`modules, this`moduleContent, this`assignments)
    {
      if !GradeRequestGiven(instructorId, submissionId, marks) {
        return Err(ApiError(400, GradeFieldsRequired));
      }
      if !exists k | k in submissions :: OwnedSubmission(submissions, assignments, k, submissionId.value, instructorId.value) {
        return Err(ApiError(403, SubmissionNotGradeable));
      }
      var key :| key in submissions && OwnedSubmission(submissions, assignments, key, submissionId.value, instructorId.value);
      assert OwnedSubmission(old(submissions), old(assignments), key, submissionId.value, instructorId.value);
      var maxMarks := assignments[key.0].maxMarks;
      var outOfRange := CheckMarks(marks.value, maxMarks);
      if outOfRange.Some? {
        return Err(outOfRange.value);
      }
      WriteGrade(key, marks.value, if feedback.Some? then feedback.value else "");
      r := Ok(SubmissionGraded);
    }

    /** `UPDATE submission SET marks_obtained = ..., feedback = ...` for a mark within bounds. */
    method WriteGrade(key: (AssignmentId, UserId), marks: int, feedback: string)
      requires Valid()
      requires key in submissions && key.0 in assignments
      requires 0 <= marks <= assignments[key.0].maxMarks
      modifies this
      ensures Valid()
      ensures submissions == old(submissions)[key := old(submissions)[key].(marks := Some(marks), feedback := Some(feedback))]
      ensures unchanged(this`users, this`courses, this`teaches, this`enrolledIn)
      ensures unchanged(this`studentProfiles, this`instructorProfiles)
      ensures unchanged(this`modules, this`moduleContent, this`assignments)
    {
      submissions := submissions[key := submissions[key].(marks := Some(marks), feedback := Some(feedback))];
    }

    /**
     * The student modules endpoint: an enrolled (not dropped) student gets the rows of the
     * course's `module LEFT JOIN module_content`, grouped by module.  So every module of the
     * course is listed once, with its stored name and duration, even when it has no content,
     * and its items are exactly that module's content rows.
     */
    method GetStudentCourseModules(userId: Option<string>, courseId: CourseId, rows: seq<JoinedRow>)
      returns (r: Result<seq<ModuleView>>)
      requires IsJoin(rows, modules, moduleContent, courseId)
      ensures !Truthy(userId) ==> r == Err(ApiError(400, UserIdRequired))
      ensures (Truthy(userId) && !ActivelyEnrolled(enrolledIn, userId.value, courseId)) ==>
        (r == Err(ApiError(403, NotEnrolled)))
      ensures r.Ok? <==> Truthy(userId) && ActivelyEnrolled(enrolledIn, userId.value, courseId)
      ensures r.Ok? ==> r.value == Grouped(rows)
      ensures r.Ok? ==> forall n :: (courseId, n) in modules <==>
        exists j :: 0 <= j < |r.value| && r.value[j].moduleNumber == n
      ensures r.Ok? ==> forall i, j :: 0 <= i < j < |r.value| ==> r.value[i].moduleNumber < r.value[j].moduleNumber
      ensures r.Ok? ==> forall j :: 0 <= j < |r.value| ==>
        ((courseId, r.value[j].moduleNumber) in modules &&
         r.value[j].name == modules[(courseId, r.value[j].moduleNumber)].name &&
         r.value[j].duration == modules[(courseId, r.value[j].moduleNumber)].duration)
      ensures r.Ok? ==> forall j, c :: 0 <= j < |r.value| && c in r.value[j].content ==>
        exists k :: ContentRowOf(moduleContent, courseId, r.value[j].moduleNumber, k) && c == ViewOf(moduleContent[k])
      ensures r.Ok? ==> forall j, k :: (0 <= j < |r.value| && ContentRowOf(moduleContent, courseId, r.value[j].moduleNumber, k)) ==>
        ViewOf(moduleContent[k]) in r.value[j].content
    {
      if !Truthy(userId) {
        return Err(ApiError(400, UserIdRequired));
      }
      if !ActivelyEnrolled(enrolledIn, userId.value, courseId) {
        return Err(ApiError(403, NotEnrolled));
      }
      var grouped := GroupModules(rows);
      JoinListsCourseModules(rows, modules, moduleContent, courseId);
      JoinModulesAscending(rows);
      JoinModuleHeaders(rows, modules, moduleContent, courseId);
      JoinContentOwnModule(rows, modules, moduleContent, courseId);
      JoinContentComplete(rows, modules, moduleContent, courseId);
      r := Ok(grouped);
    }

    /** The submissions of `student` to assignments of `course`: the rows the totals query joins. */
    ghost function CourseSubmissions(student: UserId, course: CourseId): set<(AssignmentId, UserId)>
      reads this
    {
      set k | k in submissions && k.1 == student && k.0 in assignments && assignments[k.0].courseId == course
    }

    /** The `(s.marks_obtained, a.max_marks)` row that submission `k` joins to. */
    ghost function MarkRowOf(k: (AssignmentId, UserId)): MarkRow
      reads this
      requires k in submissions && k.0 in assignments
    {
      MarkRow(submissions[k].marks, assignments[k.0].maxMarks)
    }

    /** The joined rows of the submissions `keys`, in an arbitrary order. */
    ghost function MarkRowsIn(keys: set<(AssignmentId, UserId)>): seq<MarkRow>
      reads this
      requires forall k :: k in keys ==> k in submissions && k.0 in assignments
    {
      if keys == {} then []
      else
        var k :| k in keys;
        [MarkRowOf(k)] + MarkRowsIn(keys - {k})
    }

    /**
     * The sums over a set of rows do not depend on the order `MarkRowsIn` chose: taking any
     * one submission out removes exactly its marks and its maximum.
     */
    lemma {:induction false} MarkRowsInWithout(keys: set<(AssignmentId, UserId)>, k: (AssignmentId, UserId))
      requires forall j :: j in keys ==> j in submissions && j.0 in assignments
      requires k in keys
      ensures Obtained(MarkRowsIn(keys)) ==
        (if submissions[k].marks.Some? then submissions[k].marks.value else 0) + Obtained(MarkRowsIn(keys - {k}))
      ensures Possible(MarkRowsIn(keys)) == assignments[k.0].maxMarks + Possible(MarkRowsIn(keys - {k}))
      decreases |keys|
    {
      assert exists j :: j in keys && MarkRowsIn(keys) == [MarkRowOf(j)] + MarkRowsIn(keys - {j});
      var j :| j in keys && MarkRowsIn(keys) == [MarkRowOf(j)] + MarkRowsIn(keys - {j});
      TotalsOfCons(MarkRowOf(j), MarkRowsIn(keys - {j}));
      if j != k {
        MarkRowsInWithout(keys - {j}, k);
        MarkRowsInWithout(keys - {k}, j);
        assert keys - {j} - {k} == keys - {k} - {j};
        TotalsOfCons(MarkRowOf(k), MarkRowsIn(keys - {k}));
      }
    }

    /**
     * A student's assignment totals in a course: `COALESCE(SUM(marks_obtained), 0)` and
     * `COALESCE(SUM(max_marks), 0)` over their submissions to the course's assignments, with
     * the percentage guarded against a zero total.  When the course's maxima are not negative,
     * the marks obtained never exceed the marks possible and the percentage is at most 100.
     */
    method StudentTotals(student: UserId, course: CourseId) returns (t: Totals)
      requires Valid()
      ensures t.obtained == Obtained(MarkRowsIn(CourseSubmissions(student, course)))
      ensures t.possible == Possible(MarkRowsIn(CourseSubmissions(student, course)))
      ensures t.obtained >= 0
      ensures t.percent == Percent(t.obtained, t.possible)
      ensures t.possible <= 0 ==> t.percent == 0.0
      ensures (forall k :: k in CourseSubmissions(student, course) ==> assignments[k.0].maxMarks >= 0) ==>
        (t.obtained <= t.possible && 0.0 <= t.percent <= 100.0)
      ensures CourseSubmissions(student, course) == {} ==> t == Totals(0, 0, 0.0)
    {
      var pending := set k | k in submissions && k.1 == student && k.0 in assignments &&
                             assignments[k.0].courseId == course;
      ghost var all := pending;
      var obtained, possible := 0, 0;
      ghost var boundsHold := forall k :: k in pending ==> assignments[k.0].maxMarks >= 0;
      while pending != {}
        invariant pending <= all == CourseSubmissions(student, course)
        invariant obtained + Obtained(MarkRowsIn(pending)) == Obtained(MarkRowsIn(all))
        invariant possible + Possible(MarkRowsIn(pending)) == Possible(MarkRowsIn(all))
        invariant obtained >= 0
        invariant boundsHold ==> obtained <= possible
        invariant boundsHold ==> forall k :: k in pending ==> assignments[k.0].maxMarks >= 0
        decreases |pending|
      {
        var k :| k in pending;
        MarkRowsInWithout(pending, k);
        var row := submissions[k];
        obtained := obtained + (if row.marks.Some? then row.marks.value else 0);
        possible := possible + assignments[k.0].maxMarks;
        pending := pending - {k};
      }
      t := Totals(obtained, possible, Percent(obtained, possible));
    }
  }
}
