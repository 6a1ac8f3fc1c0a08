/**
 * The instructor's dashboard: the total of enrolled students, the students a grade can be
 * given to, the recipients of the email-all button, the course id the create forms use,
 * the default maximum of an assignment, and the state of the course drill-down.
 */
module InstructorDashboard {
  import opened Common
  import opened Text
  import opened Web
  import opened Tables
  import opened Backend

  /** A course the instructor teaches, with its enrolment count (missing when NULL). */
  datatype InstructorCourse = InstructorCourse(courseId: string, title: Option<string>, enrolledCount: Option<int>)

  /** A student of the open course. */
  datatype CourseStudent = CourseStudent(userId: string, name: string, email: Option<string>, status: string)

  datatype ModuleEntry = ModuleEntry(moduleNumber: int, name: Option<string>)

  datatype AssignmentItem = AssignmentItem(assignmentId: int, title: string, maxMarks: int)

  datatype SubmissionItem = SubmissionItem(submissionId: int, studentName: string, marksObtained: Option<int>)

  datatype Notice = Notice(title: string, content: Option<string>)

  // ---------------------------------------------------------------- totals

  /** `course.enrolled_count || 0`: the count a course card shows. */
  function CardCount(c: InstructorCourse): (n: int)
    ensures c.enrolledCount.Some? ==> n == c.enrolledCount.value
    ensures c.enrolledCount.None? ==> n == 0
  {
    if c.enrolledCount.Some? then c.enrolledCount.value else 0
  }

  /** The "Total Students" card: the sum of the counts the course cards show. */
  function TotalStudents(courses: seq<InstructorCourse>): (n: int)
    ensures courses != [] ==> n == TotalStudents(courses[..|courses| - 1]) + CardCount(courses[|courses| - 1])
  {
    if courses == [] then 0
    else
      assert courses[1..] != [] ==> courses[1..][..|courses[1..]| - 1] == courses[..|courses| - 1][1..];
      CardCount(courses[0]) + TotalStudents(courses[1..])
  }

  /** The total of two lists of courses is the sum of their totals. */
  lemma {:induction false} TotalStudentsAppend(a: seq<InstructorCourse>, b: seq<InstructorCourse>)
    ensures TotalStudents(a + b) == TotalStudents(a) + TotalStudents(b)
  {
    if a != [] {
      assert (a + b)[1..] == a[1..] + b;
      TotalStudentsAppend(a[1..], b);
    } else {
      assert a + b == b;
    }
  }

  /** With counts that are never negative, the total is at least what any one card shows. */
  lemma {:induction false} TotalCoversEachCard(courses: seq<InstructorCourse>, i: int)
    requires forall j :: 0 <= j < |courses| ==> CardCount(courses[j]) >= 0
    requires 0 <= i < |courses|
    ensures TotalStudents(courses) >= CardCount(courses[i]) >= 0
  {
    TotalNonNegative(courses[1..]);
    if i > 0 {
      TotalCoversEachCard(courses[1..], i - 1);
    }
  }

  /** Counts that are never negative give a total that is not negative. */
  lemma {:induction false} TotalNonNegative(courses: seq<InstructorCourse>)
    requires forall j :: 0 <= j < |courses| ==> CardCount(courses[j]) >= 0
    ensures TotalStudents(courses) >= 0
  {
    if courses != [] {
      TotalNonNegative(courses[1..]);
    }
  }

  // ---------------------------------------------------------------- students

  /** The statuses the grade form accepts in its student list. */
  predicate Gradeable(s: CourseStudent) {
    s.status == "ongoing" || s.status == "completed"
  }

  /** The grade form's student list, in the order of the course's students. */
  function GradeableStudents(students: seq<CourseStudent>): (r: seq<CourseStudent>)
    ensures |r| <= |students|
  {
    Filter(students, (s: CourseStudent) => Gradeable(s))
  }

  /** A student is offered for grading iff it is enrolled and its status is ongoing or completed. */
  lemma {:induction false} GradeableIff(students: seq<CourseStudent>, s: CourseStudent)
    ensures s in GradeableStudents(students) <==>
      s in students && (s.status == "ongoing" || s.status == "completed")
  {
    FilterMembers(students, (x: CourseStudent) => Gradeable(x), s);
  }

  /** `students.map(s => s.email).filter(Boolean)`: the non-empty emails, in student order. */
  function EmailsOf(students: seq<CourseStudent>): (r: seq<string>)
    ensures |r| <= |students|
    ensures forall k :: 0 <= k < |r| ==> r[k] != ""
  {
    if students == [] then []
    else (if Truthy(students[0].email) then [students[0].email.value] else []) + EmailsOf(students[1..])
  }

  /** An address is a recipient iff it is the non-empty email of some student. */
  lemma {:induction false} EmailsOfIff(students: seq<CourseStudent>, e: string)
    ensures e in EmailsOf(students) <==> e != "" && exists i :: 0 <= i < |students| && students[i].email == Some(e)
  {
    if students != [] {
      EmailsOfIff(students[1..], e);
      if exists i :: 0 <= i < |students[1..]| && students[1..][i].email == Some(e) {
        var i :| 0 <= i < |students[1..]| && students[1..][i].email == Some(e);
        assert students[i + 1].email == Some(e);
      }
      if exists i :: 0 <= i < |students| && students[i].email == Some(e) {
        var i :| 0 <= i < |students| && students[i].email == Some(e);
        if i > 0 {
          assert students[1..][i - 1].email == Some(e);
        }
      }
    }
  }

  /** There is no recipient iff no student has a non-empty email. */
  lemma {:induction false} NoEmailsIff(students: seq<CourseStudent>)
    ensures EmailsOf(students) == [] <==> forall i :: 0 <= i < |students| ==> !Truthy(students[i].email)
  {
    if students != [] {
      NoEmailsIff(students[1..]);
      assert forall i :: 1 <= i < |students| ==> students[i] == students[1..][i - 1];
    }
  }

  /** What the email-all button does. */
  datatype EmailPlan = NoStudentsAlert | NoEmailsAlert | OpenCompose(bcc: string)

  /**
   * `handleEmailAllStudents`: an alert when the course has no students or none of them
   * has an email; otherwise a compose window whose BCC is the emails joined by ",".
   */
  function EmailPlanOf(students: seq<CourseStudent>): (p: EmailPlan)
    ensures p.NoStudentsAlert? <==> students == []
    ensures p.NoEmailsAlert? <==> students != [] && forall i :: 0 <= i < |students| ==> !Truthy(students[i].email)
    ensures p.OpenCompose? ==> p.bcc == Join(EmailsOf(students), ",") && p.bcc != ""
  {
    NoEmailsIff(students);
    var emails := EmailsOf(students);
    if students == [] then NoStudentsAlert
    else if emails == [] then NoEmailsAlert
    else (JoinNonEmpty(emails, ","); OpenCompose(Join(emails, ",")))
  }

  // ---------------------------------------------------------------- create forms

  /**
   * `selectedCourse || form.course_id`, and no call when that is empty: the id a create
   * form posts to, which always passes the endpoints' check that a course id is given.
   */
  function CourseIdToUse(selectedCourse: Option<string>, formCourseId: Option<string>): (r: Option<string>)
    ensures r.Some? ==> Truthy(r)
    ensures Truthy(selectedCourse) ==> r == selectedCourse
    ensures !Truthy(selectedCourse) ==> r == (if Truthy(formCourseId) then formCourseId else None)
  {
    if Truthy(selectedCourse) then selectedCourse
    else if Truthy(formCourseId) then formCourseId
    else None
  }

  /** `parseInt(max_marks) || 20`: NaN and 0 fall back to 20 marks, so 0 is never sent. */
  function MaxMarksOf(text: string): (m: int)
    ensures m != 0
    ensures ParseInt(text).NaN? ==> m == 20
    ensures ParseInt(text).Int? && ParseInt(text).value != 0 ==> m == ParseInt(text).value
  {
    IntOr(ParseInt(text), 20)
  }

  /** A maximum the form shows as `String(n)` is the one it sends, unless it is 0. */
  lemma MaxMarksRoundTrip(n: int)
    ensures MaxMarksOf(IntToString(n)) == (if n == 0 then 20 else n)
  {
    ParseIntOfIntToString(n, "");
    assert IntToString(n) + "" == IntToString(n);
  }

  /**
   * The module number a form sends: a number that parses, or nothing (JSON `null` for NaN,
   * and an empty box before anything is chosen).
   */
  function ModuleNumberSent(text: string): (n: Option<int>)
    ensures n.Some? <==> ParseInt(text).Int?
    ensures n.Some? ==> n.value == ParseInt(text).value
  {
    ToJson(ParseInt(text))
  }

  /** A non-zero module number typed as digits reaches the endpoints as a given number. */
  lemma {:induction false} ModuleNumberGiven(n: int)
    requires n != 0
    ensures GivenNumber(ModuleNumberSent(IntToString(n))) && ModuleNumberSent(IntToString(n)) == Some(n)
  {
    ParseIntOfIntToString(n, "");
    assert IntToString(n) + "" == IntToString(n);
  }

  // ---------------------------------------------------------------- grading a submission

  /**
   * The marks `handleGradeSubmission` sends, as written: `parseInt(value) ?? 0` keeps NaN,
   * because NaN is not nullish, and NaN is sent as `null`.
   */
  function SubmissionMarksAsWritten(text: string): (m: Option<int>)
    ensures m.None? <==> ParseInt(text).NaN?
  {
    ToJson(ParseInt(text) )
  }

  /** An empty marks box makes the endpoint answer 400: the fallback to 0 never applies. */
  lemma EmptyMarksRefusedAsWritten(instructorId: Option<string>, submissionId: Option<SubmissionId>)
    ensures SubmissionMarksAsWritten("") == None
    ensures !GradeRequestGiven(instructorId, submissionId, SubmissionMarksAsWritten(""))
  {
    assert LeadingDigits(Unsigned(TrimStart(""))) == "";
  }

  /** The marks sent with the intended fallback: a box that does not parse sends 0. */
  function SubmissionMarks(text: string): (m: Option<int>)
    ensures m.Some?
    ensures ParseInt(text).NaN? ==> m == Some(0)
    ensures ParseInt(text).Int? ==> m == SubmissionMarksAsWritten(text)
  {
    Some(IntOr(ParseInt(text), 0))
  }

  /**
   * With the fallback, a grading request from the form always carries marks, and marks
   * shown as `String(n)` are sent as `n`.
   */
  lemma {:induction false} SubmissionMarksGiven(instructorId: Option<string>, submissionId: SubmissionId, text: string, n: int)
    requires Truthy(instructorId) && submissionId != 0
    ensures GradeRequestGiven(instructorId, Some(submissionId), SubmissionMarks(text))
    ensures SubmissionMarks(IntToString(n)) == Some(n)
  {
    ParseIntOfIntToString(n, "");
    assert IntToString(n) + "" == IntToString(n);
  }

  // ---------------------------------------------------------------- page state

  datatype GradingForm = GradingForm(studentId: string, grade: string, status: string)

  const BlankGradingForm := GradingForm("", "", "completed")

  datatype ModuleForm = ModuleForm(courseId: Option<string>, moduleNumber: string, name: string, duration: string)

  const BlankModuleForm := ModuleForm(Some(""), "", "", "")

  /** The content form; its module number is the parsed choice of the select, or "" at first. */
  datatype ContentForm = ContentForm(
    courseId: Option<string>, moduleNumber: Option<JsInt>, title: string, contentType: string, url: string)

  const BlankContentForm := ContentForm(Some(""), None, "", "video", "")

  datatype AssignmentForm = AssignmentForm(
    courseId: Option<string>, title: string, assignmentUrl: string, description: string, dueDate: string,
    maxMarks: string)

  const BlankAssignmentForm := AssignmentForm(Some(""), "", "", "", "", "20")

  /** A fetch a handler starts; its answer arrives through one of the `Receive` methods. */
  datatype Load =
    | LoadStudents(courseId: string)
    | LoadModules(courseId: string)
    | LoadAnnouncements(courseId: string)
    | LoadAssignments(courseId: string)
    | LoadSubmissions(assignmentId: int)
    | LoadDashboard

  datatype GradeStudentCall = GradeStudentCall(courseId: string, studentId: string, grade: string, status: string)

  datatype CreateModuleCall = CreateModuleCall(courseId: string, moduleNumber: Option<int>, name: string, duration: string)

  datatype AddContentCall = AddContentCall(
    courseId: string, moduleNumber: Option<int>, title: string, contentType: string, url: string)

  datatype CreateAssignmentCall = CreateAssignmentCall(
    courseId: string, title: string, assignmentUrl: string, description: string, dueDate: Option<string>,
    maxMarks: int)

  datatype GradeSubmissionCall = GradeSubmissionCall(submissionId: int, marks: Option<int>, feedback: string)

  /**
   * The module number the content form sends: the select stores `parseInt` of the chosen
   * option, which is sent as that number, or as nothing while no module is chosen or when it
   * is NaN.
   */
  function ContentModuleSent(m: Option<JsInt>): (r: Option<int>)
    ensures r.Some? <==> m.Some? && m.value.Int?
    ensures r.Some? ==> r.value == m.value.value
  {
    if m.None? then None else ToJson(m.value)
  }

  /** Choosing a listed module, whose option value is `String(n)`, sends `n` as a given number. */
  lemma {:induction false} ContentModuleGiven(n: int)
    requires n != 0
    ensures GivenNumber(ContentModuleSent(Some(ParseInt(IntToString(n))))) &&
      ContentModuleSent(Some(ParseInt(IntToString(n)))) == Some(n)
  {
    ParseIntOfIntToString(n, "");
    assert IntToString(n) + "" == IntToString(n);
  }

  /** The dashboard's state. */
  class InstructorView {
    var courses: seq<InstructorCourse>
    var activeTab: string
    var selectedCourse: Option<string>
    var courseActionTab: string
    var students: seq<CourseStudent>
    var modules: seq<ModuleEntry>
    var assignments: seq<AssignmentItem>
    var selectedAssignment: Option<int>
    var submissions: seq<SubmissionItem>
    var announcements: seq<Notice>
    var gradingForm: GradingForm
    var moduleForm: ModuleForm
    var contentForm: ContentForm
    var assignmentForm: AssignmentForm

    /** No course is open and nothing of a course is loaded. */
    predicate CourseClosed()
      reads this
    {
      selectedCourse.None? && students == [] && modules == [] && assignments == [] &&
      selectedAssignment.None? && submissions == [] && announcements == []
    }

    /** First render: the dashboard tab, no course, blank forms. */
    constructor ()
      ensures courses == [] && activeTab == "dashboard" && courseActionTab == "modules" && CourseClosed()
      ensures gradingForm == BlankGradingForm && moduleForm == BlankModuleForm
      ensures contentForm == BlankContentForm && assignmentForm == BlankAssignmentForm
    {
      courses, activeTab, courseActionTab := [], "dashboard", "modules";
      selectedCourse, students, modules, assignments := None, [], [], [];
      selectedAssignment, submissions, announcements := None, [], [];
      gradingForm, moduleForm := BlankGradingForm, BlankModuleForm;
      contentForm, assignmentForm := BlankContentForm, BlankAssignmentForm;
    }

    /**
     * A course card: the course is selected, its students, modules, announcements and
     * assignments are fetched, and the announcements tab is shown.
     */
    method OpenCourse(courseId: string) returns (loads: seq<Load>)
      modifies this
      ensures selectedCourse == Some(courseId) && courseActionTab == "announcements"
      ensures loads == [LoadStudents(courseId), LoadModules(courseId), LoadAnnouncements(courseId),
                        LoadAssignments(courseId)]
      ensures unchanged(this`courses, this`activeTab, this`students, this`modules, this`assignments)
      ensures unchanged(this`selectedAssignment, this`submissions, this`announcements, this`gradingForm)
      ensures unchanged(this`moduleForm, this`contentForm, this`assignmentForm)
    {
      selectedCourse := Some(courseId);
      loads := [LoadStudents(courseId), LoadModules(courseId), LoadAnnouncements(courseId), LoadAssignments(courseId)];
      courseActionTab := "announcements";
    }

    /** "Back to Courses": the course and everything loaded for it are dropped. */
    method BackToCourses()
      modifies this
      ensures CourseClosed()
      ensures unchanged(this`courses, this`activeTab, this`courseActionTab, this`gradingForm)
      ensures unchanged(this`moduleForm, this`contentForm, this`assignmentForm)
    {
      selectedCourse, students, modules, assignments := None, [], [], [];
      selectedAssignment, submissions, announcements := None, [], [];
    }

    /** The "My Courses" link: the courses tab, with no course selected (its lists stay). */
    method ShowMyCourses()
      modifies this
      ensures activeTab == "courses" && selectedCourse.None?
      ensures unchanged(this`courses, this`courseActionTab, this`students, this`modules)
      ensures unchanged(this`assignments, this`selectedAssignment, this`submissions, this`announcements)
      ensures unchanged(this`gradingForm, this`moduleForm, this`contentForm, this`assignmentForm)
    {
      activeTab := "courses";
      selectedCourse := None;
    }

    /** The students of the open course, when the fetch succeeds. */
    method ReceiveStudents(reply: Reply<seq<CourseStudent>>)
      modifies this
      ensures students == (if reply.Succeeded? then reply.payload else old(students))
      ensures unchanged(this`courses, this`activeTab, this`selectedCourse, this`courseActionTab)
      ensures unchanged(this`modules, this`assignments, this`selectedAssignment, this`submissions)
      ensures unchanged(this`announcements, this`gradingForm, this`moduleForm, this`contentForm)
      ensures unchanged(this`assignmentForm)
    {
      if reply.Succeeded? {
        students := reply.payload;
      }
    }

    /** The assignments of the open course, when the fetch succeeds. */
    method ReceiveAssignments(reply: Reply<seq<AssignmentItem>>)
      modifies this
      ensures assignments == (if reply.Succeeded? then reply.payload else old(assignments))
      ensures unchanged(this`courses, this`activeTab, this`selectedCourse, this`courseActionTab)
      ensures unchanged(this`students, this`modules, this`selectedAssignment, this`submissions)
      ensures unchanged(this`announcements, this`gradingForm, this`moduleForm, this`contentForm)
      ensures unchanged(this`assignmentForm)
    {
      if reply.Succeeded? {
        assignments := reply.payload;
      }
    }

    /**
     * `handleGradeStudent`: with no course selected nothing is sent; otherwise the form
     * is sent for the course, and a success empties it and reloads students and totals.
     */
    method HandleGradeStudent(reply: Reply<string>) returns (sent: Option<GradeStudentCall>, loads: seq<Load>)
      modifies this
      ensures sent.None? <==> !Truthy(old(selectedCourse))
      ensures sent.Some? ==> sent.value == GradeStudentCall(old(selectedCourse).value, old(gradingForm).studentId,
                                                            old(gradingForm).grade, old(gradingForm).status)
      ensures gradingForm == (if sent.Some? && reply.Succeeded? then BlankGradingForm else old(gradingForm))
      ensures loads == (if sent.Some? && reply.Succeeded? then [LoadStudents(sent.value.courseId), LoadDashboard] else [])
      ensures unchanged(this`courses, this`activeTab, this`selectedCourse, this`courseActionTab)
      ensures unchanged(this`students, this`modules, this`assignments, this`selectedAssignment)
      ensures unchanged(this`submissions, this`announcements, this`moduleForm, this`contentForm)
      ensures unchanged(this`assignmentForm)
    {
      sent, loads := None, [];
      if !Truthy(selectedCourse) {
        return;
      }
      sent := Some(GradeStudentCall(selectedCourse.value, gradingForm.studentId, gradingForm.grade, gradingForm.status));
      if reply.Succeeded? {
        gradingForm := BlankGradingForm;
        loads := [LoadStudents(selectedCourse.value), LoadDashboard];
      }
    }

    /**
     * `handleCreateModule`: posts to the selected course or the form's; with neither
     * nothing is sent.  A success empties the form and reloads the modules.
     */
    method HandleCreateModule(reply: Reply<string>) returns (sent: Option<CreateModuleCall>, loads: seq<Load>)
      modifies this
      ensures var c := CourseIdToUse(old(selectedCourse), old(moduleForm).courseId);
        sent == (if c.None? then None
                 else Some(CreateModuleCall(c.value, ModuleNumberSent(old(moduleForm).moduleNumber),
                                            old(moduleForm).name, old(moduleForm).duration)))
      ensures moduleForm == (if sent.Some? && reply.Succeeded? then BlankModuleForm else old(moduleForm))
      ensures loads == (if sent.Some? && reply.Succeeded? then [LoadModules(sent.value.courseId)] else [])
      ensures unchanged(this`courses, this`activeTab, this`selectedCourse, this`courseActionTab)
      ensures unchanged(this`students, this`modules, this`assignments, this`selectedAssignment)
      ensures unchanged(this`submissions, this`announcements, this`gradingForm, this`contentForm)
      ensures unchanged(this`assignmentForm)
    {
      sent, loads := None, [];
      var c := CourseIdToUse(selectedCourse, moduleForm.courseId);
      if c.None? {
        return;
      }
      sent := Some(CreateModuleCall(c.value, ModuleNumberSent(moduleForm.moduleNumber), moduleForm.name, moduleForm.duration));
      if reply.Succeeded? {
        moduleForm := BlankModuleForm;
        loads := [LoadModules(c.value)];
      }
    }

    /** `handleAddContent`: the same guard; a success resets the form to a video item. */
    method HandleAddContent(reply: Reply<int>) returns (sent: Option<AddContentCall>, loads: seq<Load>)
      modifies this
      ensures var c := CourseIdToUse(old(selectedCourse), old(contentForm).courseId);
        sent == (if c.None? then None
                 else Some(AddContentCall(c.value, ContentModuleSent(old(contentForm).moduleNumber),
                                          old(contentForm).title, old(contentForm).contentType, old(contentForm).url)))
      ensures contentForm == (if sent.Some? && reply.Succeeded? then BlankContentForm else old(contentForm))
      ensures loads == (if sent.Some? && reply.Succeeded? then [LoadModules(sent.value.courseId)] else [])
      ensures unchanged(this`courses, this`activeTab, this`selectedCourse, this`courseActionTab)
      ensures unchanged(this`students, this`modules, this`assignments, this`selectedAssignment)
      ensures unchanged(this`submissions, this`announcements, this`gradingForm, this`moduleForm)
      ensures unchanged(this`assignmentForm)
    {
      sent, loads := None, [];
      var c := CourseIdToUse(selectedCourse, contentForm.courseId);
      if c.None? {
        return;
      }
      sent := Some(AddContentCall(c.value, ContentModuleSent(contentForm.moduleNumber), contentForm.title,
                                  contentForm.contentType, contentForm.url));
      if reply.Succeeded? {
        contentForm := BlankContentForm;
        loads := [LoadModules(c.value)];
      }
    }

    /**
     * `handleCreateAssignment`: the same guard; the due date is `null` when empty and the
     * maximum falls back to 20.  A success resets the form and reloads assignments and totals.
     */
    method HandleCreateAssignment(reply: Reply<int>) returns (sent: Option<CreateAssignmentCall>, loads: seq<Load>)
      modifies this
      ensures var c := CourseIdToUse(old(selectedCourse), old(assignmentForm).courseId);
        var f := old(assignmentForm);
        sent == (if c.None? then None
                 else Some(CreateAssignmentCall(c.value, f.title, f.assignmentUrl, f.description,
                                                if f.dueDate == "" then None else Some(f.dueDate),
                                                MaxMarksOf(f.maxMarks))))
      ensures assignmentForm == (if sent.Some? && reply.Succeeded? then BlankAssignmentForm else old(assignmentForm))
      ensures loads ==
        (if sent.Some? && reply.Succeeded? then [LoadAssignments(sent.value.courseId), LoadDashboard] else [])
      ensures unchanged(this`courses, this`activeTab, this`selectedCourse, this`courseActionTab)
      ensures unchanged(this`students, this`modules, this`assignments, this`selectedAssignment)
      ensures unchanged(this`submissions, this`announcements, this`gradingForm, this`moduleForm)
      ensures unchanged(this`contentForm)
    {
      sent, loads := None, [];
      var c := CourseIdToUse(selectedCourse, assignmentForm.courseId);
      if c.None? {
        return;
      }
      var f := assignmentForm;
      sent := Some(CreateAssignmentCall(c.value, f.title, f.assignmentUrl, f.description,
                                        if f.dueDate == "" then None else Some(f.dueDate), MaxMarksOf(f.maxMarks)));
      if reply.Succeeded? {
        assignmentForm := BlankAssignmentForm;
        loads := [LoadAssignments(c.value), LoadDashboard];
      }
    }

    /** The Submissions button of an assignment: it is selected and its submissions fetched. */
    method OpenSubmissions(assignmentId: int) returns (loads: seq<Load>)
      modifies this
      ensures selectedAssignment == Some(assignmentId) && loads == [LoadSubmissions(assignmentId)]
      ensures unchanged(this`courses, this`activeTab, this`selectedCourse, this`courseActionTab)
      ensures unchanged(this`students, this`modules, this`assignments, this`submissions)
      ensures unchanged(this`announcements, this`gradingForm, this`moduleForm, this`contentForm)
      ensures unchanged(this`assignmentForm)
    {
      selectedAssignment := Some(assignmentId);
      loads := [LoadSubmissions(assignmentId)];
    }

    /** The Close button of the submissions panel. */
    method CloseSubmissions()
      modifies this
      ensures selectedAssignment.None? && submissions == []
      ensures unchanged(this`courses, this`activeTab, this`selectedCourse, this`courseActionTab)
      ensures unchanged(this`students, this`modules, this`assignments, this`announcements)
      ensures unchanged(this`gradingForm, this`moduleForm, this`contentForm, this`assignmentForm)
    {
      selectedAssignment, submissions := None, [];
    }

    /** The submissions of the selected assignment, when the fetch succeeds. */
    method ReceiveSubmissions(reply: Reply<seq<SubmissionItem>>)
      modifies this
      ensures submissions == (if reply.Succeeded? then reply.payload else old(submissions))
      ensures unchanged(this`courses, this`activeTab, this`selectedCourse, this`courseActionTab)
      ensures unchanged(this`students, this`modules, this`assignments, this`selectedAssignment)
      ensures unchanged(this`announcements, this`gradingForm, this`moduleForm, this`contentForm)
      ensures unchanged(this`assignmentForm)
    {
      if reply.Succeeded? {
        submissions := reply.payload;
      }
    }

    /**
     * `handleGradeSubmission`, with the marks fallback as intended: the marks box text is
     * sent as `SubmissionMarks`, and a success reloads the open assignment's submissions.
     */
    method HandleGradeSubmission(submissionId: int, marksText: string, feedback: string, reply: Reply<string>)
      returns (sent: GradeSubmissionCall, loads: seq<Load>)
      ensures sent == GradeSubmissionCall(submissionId, SubmissionMarks(marksText), feedback)
      ensures loads == (if reply.Succeeded? && GivenNumber(selectedAssignment) then [LoadSubmissions(selectedAssignment.value)] else [])
    {
      sent := GradeSubmissionCall(submissionId, SubmissionMarks(marksText), feedback);
      loads := [];
      if reply.Succeeded? && GivenNumber(selectedAssignment) {
        loads := [LoadSubmissions(selectedAssignment.value)];
      }
    }
  }
}
