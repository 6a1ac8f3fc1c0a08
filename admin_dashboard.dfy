/**
 * The administrator's dashboard: the pending-approval list and the actions on each user
 * row, the two searchable pickers of the assign form, the add-course and edit-course
 * forms, and the state those handlers set.
 */
module AdminDashboard {
  import opened Common
  import opened Text
  import opened Web
  import opened Tables
  import opened BackendRules

  // ---------------------------------------------------------------- users

  /** A row of the user list as the backend sends it. */
  datatype AdminUser = AdminUser(userId: string, name: string, email: string, role: string, approved: Option<bool>)

  /** `u.approved` is truthy: only `true` is; `false` and a missing value are not. */
  predicate IsApproved(u: AdminUser) {
    u.approved == Some(true)
  }

  /** `users.filter(u => !u.approved)`. */
  function PendingUsers(users: seq<AdminUser>): (r: seq<AdminUser>)
    ensures |r| <= |users|
  {
    Filter(users, (u: AdminUser) => !IsApproved(u))
  }

  /** A user is pending iff it is listed and its flag is not `true`. */
  lemma {:induction false} PendingIff(users: seq<AdminUser>, u: AdminUser)
    ensures u in PendingUsers(users) <==> u in users && u.approved != Some(true)
  {
    FilterMembers(users, (x: AdminUser) => !IsApproved(x), u);
  }

  /** "No users pending approval" is shown exactly when every listed user is approved. */
  lemma {:induction false} NoPendingIff(users: seq<AdminUser>)
    ensures PendingUsers(users) == [] <==> forall i :: 0 <= i < |users| ==> IsApproved(users[i])
  {
    if PendingUsers(users) == [] {
      forall i | 0 <= i < |users| ensures IsApproved(users[i]) {
        PendingIff(users, users[i]);
      }
    } else {
      var u := PendingUsers(users)[0];
      PendingIff(users, u);
      var i :| 0 <= i < |users| && users[i] == u;
      assert !IsApproved(users[i]);
    }
  }

  /** The entry the backend lists for a stored user: a NULL flag is reported as `true`. */
  function ListedUser(uid: UserId, row: UserRow): (u: AdminUser)
    ensures u.approved == Some(ListedAsApproved(row))
    ensures u.userId == uid && u.name == row.name && u.email == row.email && u.role == row.role
  {
    AdminUser(uid, row.name, row.email, row.role, Some(row.approved != Some(false)))
  }

  /**
   * Only users stored with `approved = false` show up as pending, and each of them is
   * refused at login; a NULL flag is neither pending nor able to log in.  It follows from
   * the definitions in one step; it is the list-side half of the NULL-approval behaviour that
   * README.md records (the login side is `BackendRules.NullApprovalListedButRefused`).
   */
  lemma PendingListedUsers(uid: UserId, row: UserRow)
    ensures !IsApproved(ListedUser(uid, row)) <==> row.approved == Some(false)
    ensures !IsApproved(ListedUser(uid, row)) ==> !ApprovedForLogin(row)
    ensures row.approved.None? ==> IsApproved(ListedUser(uid, row)) && !ApprovedForLogin(row)
  {
  }

  /** The buttons of a user row. */
  datatype RowActions = RowActions(approve: bool, delete: bool)

  /**
   * The buttons of a row in the pending tab or in the users tab: Delete is offered only
   * for students; Approve on every pending row, and in the users tab only when not approved.
   */
  function ActionsOf(pendingTab: bool, u: AdminUser): (a: RowActions)
    ensures a.delete <==> u.role == StudentRole
    ensures a.approve <==> pendingTab || !IsApproved(u)
  {
    RowActions(pendingTab || u.approved != Some(true), u.role == StudentRole)
  }

  /** In the users tab, a listed user has an Approve button iff it appears in the pending tab. */
  lemma {:induction false} ApproveOfferedIffPending(users: seq<AdminUser>, u: AdminUser)
    requires u in users
    ensures ActionsOf(false, u).approve <==> u in PendingUsers(users)
    ensures u in PendingUsers(users) ==> ActionsOf(false, u) == ActionsOf(true, u)
  {
    PendingIff(users, u);
  }

  // ---------------------------------------------------------------- pickers

  /** An instructor of the picker, with the fields the search reads. */
  datatype InstructorEntry = InstructorEntry(
    userId: string, name: Option<string>, branch: Option<string>, phoneNumber: Option<string>)

  /** A course as the courses endpoint lists it. */
  datatype AdminCourse = AdminCourse(
    courseId: string, title: Option<string>, duration: Option<string>, level: Option<string>,
    description: Option<string>, fees: Option<int>, universityName: Option<string>,
    universityRanking: Option<int>, instructorNames: Option<string>)

  /** The instructor search: the lower-cased query, not trimmed, in one of three fields. */
  predicate InstructorMatches(q: string, i: InstructorEntry) {
    q == "" || Contains(Lower(OrElse(i.name, "")), q) || Contains(Lower(OrElse(i.branch, "")), q) ||
    Contains(Lower(OrElse(i.phoneNumber, "")), q)
  }

  function PickInstructors(instructors: seq<InstructorEntry>, search: string): (r: seq<InstructorEntry>)
    ensures |r| <= |instructors|
  {
    Filter(instructors, (i: InstructorEntry) => InstructorMatches(Lower(search), i))
  }

  /**
   * An instructor is offered iff it is listed and the search box is empty or its
   * lower-cased text occurs in the lower-cased name, branch or phone number.
   */
  lemma {:induction false} PickInstructorsIff(instructors: seq<InstructorEntry>, search: string, i: InstructorEntry)
    ensures i in PickInstructors(instructors, search) <==>
      i in instructors &&
      (search == "" || Contains(Lower(OrElse(i.name, "")), Lower(search)) ||
       Contains(Lower(OrElse(i.branch, "")), Lower(search)) ||
       Contains(Lower(OrElse(i.phoneNumber, "")), Lower(search)))
  {
    FilterMembers(instructors, (x: InstructorEntry) => InstructorMatches(Lower(search), x), i);
  }

  /** An empty search box offers every instructor, in order. */
  lemma {:induction false} PickInstructorsUnfiltered(instructors: seq<InstructorEntry>)
    ensures PickInstructors(instructors, "") == instructors
  {
    FilterKeepsAll(instructors, (x: InstructorEntry) => InstructorMatches(Lower(""), x));
  }

  /** The course search: the lower-cased query in the title, university or instructor names. */
  predicate CourseMatches(q: string, c: AdminCourse) {
    q == "" || Contains(Lower(OrElse(c.title, "")), q) || Contains(Lower(OrElse(c.universityName, "")), q) ||
    Contains(Lower(OrElse(c.instructorNames, "")), q)
  }

  function PickCourses(courses: seq<AdminCourse>, search: string): (r: seq<AdminCourse>)
    ensures |r| <= |courses|
  {
    Filter(courses, (c: AdminCourse) => CourseMatches(Lower(search), c))
  }

  /** A course is offered iff it is listed and the search is empty or occurs in one of its texts. */
  lemma {:induction false} PickCoursesIff(courses: seq<AdminCourse>, search: string, c: AdminCourse)
    ensures c in PickCourses(courses, search) <==>
      c in courses &&
      (search == "" || Contains(Lower(OrElse(c.title, "")), Lower(search)) ||
       Contains(Lower(OrElse(c.universityName, "")), Lower(search)) ||
       Contains(Lower(OrElse(c.instructorNames, "")), Lower(search)))
  {
    FilterMembers(courses, (x: AdminCourse) => CourseMatches(Lower(search), x), c);
  }

  /** An empty search box offers every course, in order. */
  lemma {:induction false} PickCoursesUnfiltered(courses: seq<AdminCourse>)
    ensures PickCourses(courses, "") == courses
  {
    FilterKeepsAll(courses, (x: AdminCourse) => CourseMatches(Lower(""), x));
  }

  // ---------------------------------------------------------------- assign form

  datatype AssignForm = AssignForm(instructorId: string, courseId: string)

  const EmptyAssignForm := AssignForm("", "")

  /**
   * The Assign button is enabled iff both ids are chosen, which is exactly when the
   * assign endpoint does not answer 400 for the pair the form sends.
   */
  function AssignEnabled(f: AssignForm): (b: bool)
    ensures b <==> Truthy(Some(f.instructorId)) && Truthy(Some(f.courseId))
  {
    f.instructorId != "" && f.courseId != ""
  }

  // ---------------------------------------------------------------- course forms

  /** The text fields of the add-course and edit-course forms. */
  datatype CourseForm = CourseForm(
    title: string, duration: string, level: string, description: string, fees: string,
    universityName: string, universityRanking: string)

  const BlankCourseForm := CourseForm("", "", "beginner", "", "", "", "")

  /** The fees the forms send: an empty box is `null`, otherwise the parsed number. */
  function FeesOf(text: string): (r: Option<int>)
    ensures text == "" ==> r.None?
    ensures text != "" ==> r == ToJson(ParseInt(text))
  {
    if text == "" then None else ToJson(ParseInt(text))
  }

  /** The box shows `String(n)` for a number, and the number reads back from it. */
  lemma FeesRoundTrip(n: int)
    ensures FeesOf(IntToString(n)) == Some(n)
  {
    ParseIntOfIntToString(n, "");
    assert IntToString(n) + "" == IntToString(n);
  }

  /**
   * `handleAddCourse`: a blank university name makes no request; otherwise the form is
   * sent with the university trimmed.
   */
  function AddCourseRequest(f: CourseForm): (r: Option<NewCourse>)
    ensures r.None? <==> IsBlank(f.universityName)
    ensures r.Some? ==> r.value.title == Some(f.title) && r.value.duration == Some(f.duration)
    ensures r.Some? ==> r.value.level == Some(f.level) && r.value.description == Some(f.description)
    ensures r.Some? ==> r.value.fees == FeesOf(f.fees) && r.value.universityName == Some(Trim(f.universityName))
  {
    TrimEmptyIffBlank(f.universityName);
    if f.universityName == "" || Trim(f.universityName) == "" then None
    else Some(NewCourse(Some(f.title), Some(f.duration), Some(f.level), Some(f.description),
                        FeesOf(f.fees), Some(Trim(f.universityName))))
  }

  /** What the form lets through, the create endpoint accepts exactly when the title is not blank. */
  lemma {:induction false} AddCourseAcceptedIff(f: CourseForm)
    requires AddCourseRequest(f).Some?
    ensures ValidateNewCourse(AddCourseRequest(f).value).Ok? <==> !IsBlank(f.title)
    ensures ValidateNewCourse(AddCourseRequest(f).value).Ok? ==>
      ValidateNewCourse(AddCourseRequest(f).value).value.university == Some(Trim(f.universityName))
  {
    TrimEmptyIffBlank(f.universityName);
    TrimIdempotent(f.universityName);
    TrimEmptyIffBlank(Trim(f.universityName));
  }

  /** `openEditCourse`'s form: missing texts become "" (the level "beginner"), numbers their text. */
  function FormOf(c: AdminCourse): (f: CourseForm)
    ensures f.level != "" && (Truthy(c.level) ==> f.level == c.level.value)
    ensures Truthy(c.title) ==> f.title == c.title.value
    ensures !Truthy(c.title) ==> f.title == ""
    ensures c.fees.None? ==> f.fees == ""
    ensures c.universityRanking.None? ==> f.universityRanking == ""
  {
    CourseForm(
      OrElse(c.title, ""), OrElse(c.duration, ""), OrElse(c.level, "beginner"), OrElse(c.description, ""),
      if c.fees.Some? then IntToString(c.fees.value) else "",
      OrElse(c.universityName, ""),
      if c.universityRanking.Some? then IntToString(c.universityRanking.value) else "")
  }

  /** The numbers shown in the edit form read back as the course's fees and ranking. */
  lemma {:induction false} FormNumbersRoundTrip(c: AdminCourse)
    ensures FeesOf(FormOf(c).fees) == c.fees
    ensures c.universityRanking.Some? ==> FeesOf(FormOf(c).universityRanking) == c.universityRanking
  {
    if c.fees.Some? { FeesRoundTrip(c.fees.value); }
    if c.universityRanking.Some? { FeesRoundTrip(c.universityRanking.value); }
  }

  /** `handleUpdateCourse`'s body: every text field is sent, the university name trimmed. */
  function UpdatePatch(f: CourseForm): (p: CoursePatch)
    ensures p.title == Some(f.title) && p.duration == Some(f.duration) && p.level == Some(f.level)
    ensures p.description == Some(f.description) && p.fees == FeesOf(f.fees)
    ensures p.universityName == Some(Trim(f.universityName))
  {
    CoursePatch(Some(f.title), Some(f.duration), Some(f.level), Some(f.description), FeesOf(f.fees),
                Some(Trim(f.universityName)))
  }

  /** The update call: the course's id and the body. */
  datatype UpdateRequest = UpdateRequest(courseId: string, patch: CoursePatch)

  /** A list a course handler fetches again after a success. */
  datatype Load = LoadCourses | LoadDashboardData

  /** The reloads `handleAddCourse` and `handleUpdateCourse` start on success. */
  const CourseReloads := [LoadCourses, LoadDashboardData]

  /** How the courses endpoint lists a stored row; fees of 0 are falsy there and listed as missing. */
  function ListedCourse(id: CourseId, row: CourseRow): (c: AdminCourse)
    ensures c.title == Some(row.title) && c.level == Some(row.level) && c.universityName == row.university
    ensures c.fees == (if row.fees == Some(0) then None else row.fees)
  {
    AdminCourse(id, Some(row.title), Some(row.duration), Some(row.level), Some(row.description),
                if row.fees == Some(0) then None else row.fees, row.university, None, None)
  }

  /** A row as the backend writes it: trimmed, non-empty title and university, a non-empty level. */
  predicate CanonicalCourse(row: CourseRow) {
    row.title != "" && Trim(row.title) == row.title && row.level != "" &&
    (row.university.Some? ==> row.university.value != "" && Trim(row.university.value) == row.university.value)
  }

  /** Every course the create endpoint inserts is canonical. */
  lemma {:induction false} CreatedCourseCanonical(req: NewCourse)
    requires ValidateNewCourse(req).Ok?
    ensures CanonicalCourse(ValidateNewCourse(req).value)
  {
    TrimIdempotent(req.title.value);
    TrimIdempotent(OrElse(req.universityName, ""));
  }

  /** The update endpoint keeps a course canonical. */
  lemma {:induction false} UpdatedCourseCanonical(stored: CourseRow, patch: CoursePatch)
    requires CanonicalCourse(stored) && MergeCourse(stored, patch).Ok?
    ensures CanonicalCourse(MergeCourse(stored, patch).value)
  {
    if Truthy(patch.title) { TrimIdempotent(patch.title.value); }
    if patch.universityName.Some? { TrimIdempotent(patch.universityName.value); }
  }

  /**
   * Opening a listed course in the edit form and saving it unchanged writes back the
   * stored row, for every course the backend wrote.
   */
  lemma {:induction false} UnchangedEditKeepsCourse(id: CourseId, row: CourseRow)
    requires CanonicalCourse(row)
    ensures MergeCourse(row, UpdatePatch(FormOf(ListedCourse(id, row)))) == Ok(row)
  {
    var f := FormOf(ListedCourse(id, row));
    assert f.title == row.title && f.duration == row.duration && f.level == row.level;
    assert f.description == row.description && f.universityName == OrElse(row.university, "");
    assert f.fees == (if row.fees.Some? && row.fees != Some(0) then IntToString(row.fees.value) else "");
    var p := UpdatePatch(f);
    UnchangedTitle(row.title);
    UnchangedFees(row.fees);
    UnchangedUniversity(row.university);
  }

  /** A canonical title sent back unchanged is kept. */
  lemma UnchangedTitle(title: string)
    requires title != "" && Trim(title) == title
    ensures MergedTitle(title, Some(title)) == title
  {
  }

  /** The fees shown in the form and sent back leave the stored fees as they were. */
  lemma UnchangedFees(fees: Option<int>)
    ensures var sent := FeesOf(if fees.Some? && fees != Some(0) then IntToString(fees.value) else "");
      (if sent.Some? then sent else fees) == fees
  {
    if fees.Some? && fees != Some(0) {
      FeesRoundTrip(fees.value);
    }
  }

  /** A canonical university read into the form and sent back trimmed is kept as it was. */
  lemma UnchangedUniversity(university: Option<string>)
    requires university.Some? ==> university.value != "" && Trim(university.value) == university.value
    ensures MergedUniversity(university, Some(Trim(OrElse(university, "")))) == university
  {
    if university.None? {
      assert Trim("") == "";
    }
  }

  // ---------------------------------------------------------------- page state

  /** The dashboard's state, with the lists read from the backend. */
  class AdminView {
    var users: seq<AdminUser>
    var courses: seq<AdminCourse>
    var instructors: seq<InstructorEntry>
    var assignForm: AssignForm
    var showAddCourse: bool
    var addCourseForm: CourseForm
    var addCourseLoading: bool
    var editingCourse: Option<AdminCourse>
    var editCourseForm: CourseForm
    var editCourseLoading: bool
    var courseInstructors: seq<InstructorEntry>

    /** The edit dialog is closed and its form and instructor list are reset. */
    predicate EditClosed()
      reads this
    {
      editingCourse.None? && courseInstructors == [] && editCourseForm == BlankCourseForm
    }

    /** First render: empty lists and forms, nothing loading, no dialog. */
    constructor ()
      ensures users == [] && courses == [] && instructors == []
      ensures assignForm == EmptyAssignForm && !showAddCourse && addCourseForm == BlankCourseForm
      ensures !addCourseLoading && !editCourseLoading && EditClosed()
    {
      users, courses, instructors := [], [], [];
      assignForm := EmptyAssignForm;
      showAddCourse, addCourseForm, addCourseLoading := false, BlankCourseForm, false;
      editingCourse, editCourseForm, editCourseLoading, courseInstructors := None, BlankCourseForm, false, [];
    }

    /** `loadUsers`: a successful answer replaces the list; anything else keeps it. */
    method ReceiveUsers(reply: Reply<seq<AdminUser>>)
      modifies this
      ensures users == (if reply.Succeeded? then reply.payload else old(users))
      ensures unchanged(this`courses, this`instructors, this`assignForm, this`showAddCourse)
      ensures unchanged(this`addCourseForm, this`addCourseLoading, this`editingCourse)
      ensures unchanged(this`editCourseForm, this`editCourseLoading, this`courseInstructors)
    {
      if reply.Succeeded? {
        users := reply.payload;
      }
    }

    /** The instructor picker writes the chosen id into the assign form. */
    method SelectInstructor(id: string)
      modifies this
      ensures assignForm == old(assignForm).(instructorId := id)
      ensures unchanged(this`users, this`courses, this`instructors, this`showAddCourse)
      ensures unchanged(this`addCourseForm, this`addCourseLoading, this`editingCourse)
      ensures unchanged(this`editCourseForm, this`editCourseLoading, this`courseInstructors)
    {
      assignForm := assignForm.(instructorId := id);
    }

    /** The course picker writes the chosen id into the assign form. */
    method SelectCourse(id: string)
      modifies this
      ensures assignForm == old(assignForm).(courseId := id)
      ensures unchanged(this`users, this`courses, this`instructors, this`showAddCourse)
      ensures unchanged(this`addCourseForm, this`addCourseLoading, this`editingCourse)
      ensures unchanged(this`editCourseForm, this`editCourseLoading, this`courseInstructors)
    {
      assignForm := assignForm.(courseId := id);
    }

    /**
     * `handleAssignInstructor`: the form's pair is sent (the pair the endpoint accepts when
     * the button is enabled), and the form is emptied after a success.
     */
    method HandleAssignInstructor(reply: Reply<string>) returns (sent: AssignForm)
      modifies this
      ensures sent == old(assignForm)
      ensures assignForm == (if reply.Succeeded? then EmptyAssignForm else old(assignForm))
      ensures unchanged(this`users, this`courses, this`instructors, this`showAddCourse)
      ensures unchanged(this`addCourseForm, this`addCourseLoading, this`editingCourse)
      ensures unchanged(this`editCourseForm, this`editCourseLoading, this`courseInstructors)
    {
      sent := assignForm;
      if reply.Succeeded? {
        assignForm := EmptyAssignForm;
      }
    }

    /** The "+ Add Course" / "Cancel" button. */
    method ToggleAddCourse()
      modifies this
      ensures showAddCourse == !old(showAddCourse)
      ensures unchanged(this`users, this`courses, this`instructors, this`assignForm, this`addCourseForm)
      ensures unchanged(this`addCourseLoading, this`editingCourse, this`editCourseForm)
      ensures unchanged(this`editCourseLoading, this`courseInstructors)
    {
      showAddCourse := !showAddCourse;
    }

    /**
     * The start of `handleAddCourse`: with a blank university nothing is sent and nothing
     * changes; otherwise the request is sent and the form shows loading.
     */
    method BeginAddCourse() returns (req: Option<NewCourse>)
      modifies this
      ensures req == AddCourseRequest(addCourseForm)
      ensures addCourseLoading == (req.Some? || old(addCourseLoading))
      ensures unchanged(this`users, this`courses, this`instructors, this`assignForm, this`showAddCourse)
      ensures unchanged(this`addCourseForm, this`editingCourse, this`editCourseForm)
      ensures unchanged(this`editCourseLoading, this`courseInstructors)
    {
      req := AddCourseRequest(addCourseForm);
      if req.Some? {
        addCourseLoading := true;
      }
    }

    /**
     * The rest of `handleAddCourse`: a success closes and empties the form and fetches the
     * courses and the dashboard counts again; loading ends.
     */
    method FinishAddCourse(reply: Reply<string>) returns (loads: seq<Load>)
      modifies this
      ensures loads == (if reply.Succeeded? then CourseReloads else [])
      ensures !addCourseLoading
      ensures showAddCourse == (if reply.Succeeded? then false else old(showAddCourse))
      ensures addCourseForm == (if reply.Succeeded? then BlankCourseForm else old(addCourseForm))
      ensures unchanged(this`users, this`courses, this`instructors, this`assignForm, this`editingCourse)
      ensures unchanged(this`editCourseForm, this`editCourseLoading, this`courseInstructors)
    {
      loads := [];
      if reply.Succeeded? {
        showAddCourse := false;
        addCourseForm := BlankCourseForm;
        loads := CourseReloads;
      }
      addCourseLoading := false;
    }

    /** The start of `openEditCourse`: the dialog shows the course, its form filled from it. */
    method OpenEditCourse(c: AdminCourse)
      modifies this
      ensures editingCourse == Some(c) && editCourseForm == FormOf(c)
      ensures unchanged(this`users, this`courses, this`instructors, this`assignForm, this`showAddCourse)
      ensures unchanged(this`addCourseForm, this`addCourseLoading, this`editCourseLoading)
      ensures unchanged(this`courseInstructors)
    {
      editingCourse := Some(c);
      editCourseForm := FormOf(c);
    }

    /**
     * The rest of `openEditCourse`: the course's instructors when the call succeeds (an
     * empty list when the body has none), an empty list otherwise.
     */
    method ReceiveCourseInstructors(reply: Reply<Option<seq<InstructorEntry>>>)
      modifies this
      ensures courseInstructors ==
        (if reply.Succeeded? && reply.payload.Some? then reply.payload.value else [])
      ensures unchanged(this`users, this`courses, this`instructors, this`assignForm, this`showAddCourse)
      ensures unchanged(this`addCourseForm, this`addCourseLoading, this`editingCourse)
      ensures unchanged(this`editCourseForm, this`editCourseLoading)
    {
      if reply.Succeeded? && reply.payload.Some? {
        courseInstructors := reply.payload.value;
      } else {
        courseInstructors := [];
      }
    }

    /** `closeEditCourse`: no course, no instructors, the form back to its defaults. */
    method CloseEditCourse()
      modifies this
      ensures EditClosed()
      ensures unchanged(this`users, this`courses, this`instructors, this`assignForm, this`showAddCourse)
      ensures unchanged(this`addCourseForm, this`addCourseLoading, this`editCourseLoading)
    {
      editingCourse := None;
      courseInstructors := [];
      editCourseForm := BlankCourseForm;
    }

    /**
     * The start of `handleUpdateCourse`: without an open course nothing happens; otherwise
     * the course id and the form's patch are sent and the form shows loading.
     */
    method BeginUpdateCourse() returns (req: Option<UpdateRequest>)
      modifies this
      ensures unchanged(this`editingCourse, this`editCourseForm)
      ensures req.None? <==> editingCourse.None?
      ensures req.Some? ==>
        (req.value.courseId == editingCourse.value.courseId && req.value.patch == UpdatePatch(editCourseForm))
      ensures editCourseLoading == (req.Some? || old(editCourseLoading))
      ensures unchanged(this`users, this`courses, this`instructors, this`assignForm, this`showAddCourse)
      ensures unchanged(this`addCourseForm, this`addCourseLoading, this`courseInstructors)
    {
      if editingCourse.None? {
        req := None;
      } else {
        req := Some(UpdateRequest(editingCourse.value.courseId, UpdatePatch(editCourseForm)));
        editCourseLoading := true;
      }
    }

    /**
     * The rest of `handleUpdateCourse`: a success closes the dialog and fetches the courses
     * and the dashboard counts again; loading ends.
     */
    method FinishUpdateCourse(reply: Reply<string>) returns (loads: seq<Load>)
      modifies this
      ensures loads == (if reply.Succeeded? then CourseReloads else [])
      ensures !editCourseLoading
      ensures reply.Succeeded? ==> EditClosed()
      ensures !reply.Succeeded? ==>
        (editingCourse == old(editingCourse) && editCourseForm == old(editCourseForm) &&
         courseInstructors == old(courseInstructors))
      ensures unchanged(this`users, this`courses, this`instructors, this`assignForm, this`showAddCourse)
      ensures unchanged(this`addCourseForm, this`addCourseLoading)
    {
      loads := [];
      if reply.Succeeded? {
        CloseEditCourse();
        loads := CourseReloads;
      }
      editCourseLoading := false;
    }
  }
}
