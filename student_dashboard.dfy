/**
 * The student dashboard: the catalog search, the enrolled badge, the assignment totals,
 * and the state of the course drill-down with its solution-link form.
 */
module StudentDashboard {
  import opened Common
  import opened Text
  import opened Web
  import opened BackendRules
  import opened ModuleGrouping

  /** A course of the catalog, with the fields the search reads. */
  datatype CatalogCourse = CatalogCourse(
    courseId: string, title: Option<string>, universityName: Option<string>,
    instructorNames: Option<string>, description: Option<string>, level: Option<string>)

  /** An entry of the student's enrolled courses. */
  datatype EnrolledCourse = EnrolledCourse(courseId: string, title: string)

  /** An assignment of the open course, with the student's submission if any. */
  datatype AssignmentEntry = AssignmentEntry(
    assignmentId: int, marksObtained: Option<int>, maxMarks: Option<int>, submissionUrl: Option<string>)

  datatype Announcement = Announcement(title: string, content: Option<string>)

  datatype Insight = Insight(title: string, chartType: string, summary: Option<string>)

  /** A fetch for the open course; its answer arrives through one of the `Receive` methods. */
  datatype Load =
    | LoadCourseContent(courseId: string)
    | LoadAssignments(courseId: string)
    | LoadAnnouncements(courseId: string)
    | LoadCourseInsights(courseId: string)

  // ---------------------------------------------------------------- catalog

  /** The search text as the filter compares it: lower-cased and trimmed. */
  function BrowseQuery(search: string): string {
    Trim(Lower(search))
  }

  predicate LevelOk(levelFilter: string, c: CatalogCourse) {
    levelFilter == "all" || Lower(OrElse(c.level, "")) == levelFilter
  }

  /** The four texts the search looks in, a missing one read as "". */
  function SearchFields(c: CatalogCourse): seq<string> {
    [OrElse(c.title, ""), OrElse(c.universityName, ""), OrElse(c.instructorNames, ""), OrElse(c.description, "")]
  }

  predicate MatchesQuery(q: string, c: CatalogCourse) {
    q == "" || Any(SearchFields(c), (s: string) => Contains(Lower(s), q))
  }

  predicate Shown(levelFilter: string, search: string, c: CatalogCourse) {
    LevelOk(levelFilter, c) && MatchesQuery(BrowseQuery(search), c)
  }

  /** The catalog as the browse tab lists it, in catalog order. */
  function BrowseFilter(courses: seq<CatalogCourse>, levelFilter: string, search: string): (r: seq<CatalogCourse>)
    ensures |r| <= |courses|
  {
    Filter(courses, (c: CatalogCourse) => Shown(levelFilter, search, c))
  }

  /**
   * A course is listed iff it is in the catalog, its level passes the filter, and the
   * query is empty or occurs in its lower-cased title, university, instructors or description.
   */
  lemma {:induction false} BrowseListedIff(courses: seq<CatalogCourse>, levelFilter: string, search: string,
                                           c: CatalogCourse)
    ensures c in BrowseFilter(courses, levelFilter, search) <==>
      c in courses &&
      (levelFilter == "all" || Lower(OrElse(c.level, "")) == levelFilter) &&
      (var q := BrowseQuery(search);
       q == "" || Contains(Lower(OrElse(c.title, "")), q) || Contains(Lower(OrElse(c.universityName, "")), q) ||
       Contains(Lower(OrElse(c.instructorNames, "")), q) || Contains(Lower(OrElse(c.description, "")), q))
  {
    FilterMembers(courses, (x: CatalogCourse) => Shown(levelFilter, search, x), c);
    MatchesQueryIff(BrowseQuery(search), c);
  }

  /** The query matches iff it is empty or occurs in one of the four lower-cased texts. */
  lemma {:induction false} MatchesQueryIff(q: string, c: CatalogCourse)
    ensures MatchesQuery(q, c) <==>
      q == "" || Contains(Lower(OrElse(c.title, "")), q) || Contains(Lower(OrElse(c.universityName, "")), q) ||
      Contains(Lower(OrElse(c.instructorNames, "")), q) || Contains(Lower(OrElse(c.description, "")), q)
  {
    AnyOfFour(OrElse(c.title, ""), OrElse(c.universityName, ""), OrElse(c.instructorNames, ""),
              OrElse(c.description, ""), (s: string) => Contains(Lower(s), q));
  }

  /** Lower-casing keeps whitespace, so a blank text stays blank. */
  lemma LowerKeepsBlank(s: string)
    requires IsBlank(s)
    ensures IsBlank(Lower(s))
  {
    forall i | 0 <= i < |s| ensures IsSpace(Lower(s)[i]) {
      assert IsSpace(s[i]);
    }
  }

  /** With level "all" and a blank search box the whole catalog is listed. */
  lemma {:induction false} BrowseUnfiltered(courses: seq<CatalogCourse>, search: string)
    requires IsBlank(search)
    ensures BrowseFilter(courses, "all", search) == courses
  {
    LowerKeepsBlank(search);
    TrimEmptyIffBlank(Lower(search));
    FilterKeepsAll(courses, (c: CatalogCourse) => Shown("all", search, c));
  }

  /** `allEnrolledCourses.some(e => e.course_id === course.course_id)`. */
  predicate IsEnrolled(enrolled: seq<EnrolledCourse>, courseId: string): (b: bool)
    ensures b <==> exists i :: 0 <= i < |enrolled| && enrolled[i].courseId == courseId
  {
    var p := (e: EnrolledCourse) => e.courseId == courseId;
    AnyIff(enrolled, p);
    assert forall i :: 0 <= i < |enrolled| ==> (p(enrolled[i]) <==> enrolled[i].courseId == courseId);
    Any(enrolled, p)
  }

  /** What a catalog card offers: the enrolled badge, or the enroll button for its course. */
  datatype CardAction = EnrolledBadge | EnrollButton(courseId: string)

  function CardActionOf(enrolled: seq<EnrolledCourse>, c: CatalogCourse): (a: CardAction)
    ensures a.EnrolledBadge? <==> exists i :: 0 <= i < |enrolled| && enrolled[i].courseId == c.courseId
    ensures a.EnrollButton? ==> a.courseId == c.courseId
  {
    if IsEnrolled(enrolled, c.courseId) then EnrolledBadge else EnrollButton(c.courseId)
  }

  // ---------------------------------------------------------------- totals

  /** `reduce((s, a) => s + (a.marks_obtained ?? 0), 0)`. */
  function TotalObtained(entries: seq<AssignmentEntry>): (n: int)
    ensures entries != [] ==>
      (n == TotalObtained(entries[..|entries| - 1]) +
            (var last := entries[|entries| - 1]; if last.marksObtained.Some? then last.marksObtained.value else 0))
  {
    if entries == [] then 0
    else
      assert entries[1..] != [] ==> entries[1..][..|entries[1..]| - 1] == entries[..|entries| - 1][1..];
      (if entries[0].marksObtained.Some? then entries[0].marksObtained.value else 0) + TotalObtained(entries[1..])
  }

  /** `reduce((s, a) => s + (a.max_marks || 0), 0)`. */
  function TotalPossible(entries: seq<AssignmentEntry>): (n: int)
    ensures entries != [] ==>
      (n == TotalPossible(entries[..|entries| - 1]) +
            (var last := entries[|entries| - 1]; if last.maxMarks.Some? then last.maxMarks.value else 0))
  {
    if entries == [] then 0
    else
      assert entries[1..] != [] ==> entries[1..][..|entries[1..]| - 1] == entries[..|entries| - 1][1..];
      (if entries[0].maxMarks.Some? then entries[0].maxMarks.value else 0) + TotalPossible(entries[1..])
  }

  /** The percentage beside the totals, 0 when nothing is possible (rounding is not modelled). */
  function TotalPercent(entries: seq<AssignmentEntry>): (r: real)
    ensures TotalPossible(entries) <= 0 ==> r == 0.0
    ensures 0 <= TotalObtained(entries) <= TotalPossible(entries) ==> 0.0 <= r <= 100.0
    ensures TotalPossible(entries) > 0 && TotalObtained(entries) == TotalPossible(entries) ==> r == 100.0
  {
    Percent(TotalObtained(entries), TotalPossible(entries))
  }

  /** The entries as the mark rows the backend sums, a missing maximum counting 0. */
  function MarkRowsOf(entries: seq<AssignmentEntry>): (rows: seq<MarkRow>)
    ensures |rows| == |entries|
  {
    seq(|entries|, i requires 0 <= i < |entries| =>
      MarkRow(entries[i].marksObtained, if entries[i].maxMarks.Some? then entries[i].maxMarks.value else 0))
  }

  /** The page's totals are the backend's sums over the same rows. */
  lemma {:induction false} TotalsAgreeWithBackend(entries: seq<AssignmentEntry>)
    ensures TotalObtained(entries) == Obtained(MarkRowsOf(entries))
    ensures TotalPossible(entries) == Possible(MarkRowsOf(entries))
  {
    if entries != [] {
      assert MarkRowsOf(entries)[1..] == MarkRowsOf(entries[1..]);
      TotalsAgreeWithBackend(entries[1..]);
    }
  }

  /**
   * Marks that the backend's bound check let through add up to no more than the marks
   * possible, so the percentage lies between 0 and 100; with nothing possible it is 0.
   */
  lemma TotalsBounded(entries: seq<AssignmentEntry>)
    requires forall i :: 0 <= i < |entries| ==> entries[i].maxMarks.Some? && entries[i].maxMarks.value >= 0
    requires forall i :: 0 <= i < |entries| && entries[i].marksObtained.Some? ==>
      0 <= entries[i].marksObtained.value <= entries[i].maxMarks.value
    ensures 0 <= TotalObtained(entries) <= TotalPossible(entries)
    ensures 0.0 <= TotalPercent(entries) <= 100.0
    ensures TotalPossible(entries) == 0 ==> TotalPercent(entries) == 0.0
  {
    var rows := MarkRowsOf(entries);
    TotalsAgreeWithBackend(entries);
    TotalsOrdered(rows);
  }

  // ---------------------------------------------------------------- submission

  /**
   * The guard of `handleSubmitAssignment`: no assignment chosen (0 included, being falsy)
   * or a blank link sends nothing; otherwise the trimmed link is sent.
   */
  function SubmitRequest(submittingFor: Option<int>, submitUrl: string): (r: Option<(int, string)>)
    ensures r.None? <==> submittingFor.None? || submittingFor.value == 0 || IsBlank(submitUrl)
    ensures r.Some? ==> r.value.0 == submittingFor.value && r.value.1 == Trim(submitUrl) && r.value.1 != ""
  {
    TrimEmptyIffBlank(submitUrl);
    if submittingFor.None? || submittingFor.value == 0 || Trim(submitUrl) == "" then None
    else Some((submittingFor.value, Trim(submitUrl)))
  }

  /** The open course, its lists and the submission form. */
  class StudentView {
    var activeTab: string
    var selectedActiveCourse: Option<string>
    var courseModules: seq<ModuleView>
    var assignments: seq<AssignmentEntry>
    var submittingFor: Option<int>
    var submitUrl: string
    var announcements: seq<Announcement>
    var courseInsights: seq<Insight>

    /** No course is open and nothing of one is kept. */
    predicate CourseClosed()
      reads this
    {
      selectedActiveCourse.None? && courseModules == [] && assignments == [] &&
      submittingFor.None? && submitUrl == "" && announcements == [] && courseInsights == []
    }

    constructor ()
      ensures activeTab == "dashboard" && CourseClosed()
    {
      activeTab := "dashboard";
      selectedActiveCourse, courseModules, assignments := None, [], [];
      submittingFor, submitUrl := None, "";
      announcements, courseInsights := [], [];
    }

    /** The "Active Courses" link: the tab changes and the selection is dropped (the lists are kept). */
    method ShowActiveCourses()
      modifies this
      ensures activeTab == "active" && selectedActiveCourse.None?
      ensures courseModules == old(courseModules) && assignments == old(assignments)
      ensures submittingFor == old(submittingFor) && submitUrl == old(submitUrl)
      ensures announcements == old(announcements) && courseInsights == old(courseInsights)
    {
      activeTab := "active";
      selectedActiveCourse := None;
    }

    /** A course card: the course becomes the selection, and its four lists are requested. */
    method OpenCourse(courseId: string) returns (loads: seq<Load>)
      modifies this
      ensures selectedActiveCourse == Some(courseId)
      ensures loads == [LoadCourseContent(courseId), LoadAssignments(courseId), LoadAnnouncements(courseId),
                        LoadCourseInsights(courseId)]
      ensures activeTab == old(activeTab) && courseModules == old(courseModules) && assignments == old(assignments)
      ensures submittingFor == old(submittingFor) && submitUrl == old(submitUrl)
      ensures announcements == old(announcements) && courseInsights == old(courseInsights)
    {
      selectedActiveCourse := Some(courseId);
      loads := [LoadCourseContent(courseId), LoadAssignments(courseId), LoadAnnouncements(courseId),
                LoadCourseInsights(courseId)];
    }

    /** The modules arrive: a successful body replaces them; otherwise they are kept. */
    method ReceiveModules(reply: Reply<seq<ModuleView>>)
      modifies this
      ensures courseModules == (if reply.Succeeded? then reply.payload else old(courseModules))
      ensures activeTab == old(activeTab) && selectedActiveCourse == old(selectedActiveCourse)
      ensures assignments == old(assignments) && submittingFor == old(submittingFor) && submitUrl == old(submitUrl)
      ensures announcements == old(announcements) && courseInsights == old(courseInsights)
    {
      if reply.Succeeded? {
        courseModules := reply.payload;
      }
    }

    /** The assignments arrive: a successful body replaces them; otherwise they are kept. */
    method ReceiveAssignments(reply: Reply<seq<AssignmentEntry>>)
      modifies this
      ensures assignments == (if reply.Succeeded? then reply.payload else old(assignments))
      ensures activeTab == old(activeTab) && selectedActiveCourse == old(selectedActiveCourse)
      ensures courseModules == old(courseModules) && submittingFor == old(submittingFor) && submitUrl == old(submitUrl)
      ensures announcements == old(announcements) && courseInsights == old(courseInsights)
    {
      if reply.Succeeded? {
        assignments := reply.payload;
      }
    }

    /** Announcements: replaced on success, emptied when the request is rejected. */
    method ReceiveAnnouncements(reply: Reply<seq<Announcement>>)
      modifies this
      ensures announcements == (match reply
        case Succeeded(p) => p
        case Unsuccessful => old(announcements)
        case Failed(_) => [])
      ensures activeTab == old(activeTab) && selectedActiveCourse == old(selectedActiveCourse)
      ensures courseModules == old(courseModules) && assignments == old(assignments)
      ensures submittingFor == old(submittingFor) && submitUrl == old(submitUrl) && courseInsights == old(courseInsights)
    {
      match reply {
        case Succeeded(p) => announcements := p;
        case Unsuccessful =>
        case Failed(_) => announcements := [];
      }
    }

    /** Insights: replaced on success and emptied otherwise. */
    method ReceiveInsights(reply: Reply<seq<Insight>>)
      modifies this
      ensures courseInsights == (if reply.Succeeded? then reply.payload else [])
      ensures activeTab == old(activeTab) && selectedActiveCourse == old(selectedActiveCourse)
      ensures courseModules == old(courseModules) && assignments == old(assignments)
      ensures submittingFor == old(submittingFor) && submitUrl == old(submitUrl) && announcements == old(announcements)
    {
      courseInsights := if reply.Succeeded? then reply.payload else [];
    }

    /** "Back to Courses": the selection and everything loaded for it are cleared. */
    method BackToCourses()
      modifies this
      ensures CourseClosed()
      ensures activeTab == old(activeTab)
    {
      selectedActiveCourse, courseModules, assignments := None, [], [];
      submittingFor, submitUrl := None, "";
      announcements, courseInsights := [], [];
    }

    /** "Submit Solution Link" on an assignment opens the form for it. */
    method StartSubmit(assignmentId: int)
      modifies this
      ensures submittingFor == Some(assignmentId)
      ensures activeTab == old(activeTab) && selectedActiveCourse == old(selectedActiveCourse)
      ensures courseModules == old(courseModules) && assignments == old(assignments) && submitUrl == old(submitUrl)
      ensures announcements == old(announcements) && courseInsights == old(courseInsights)
    {
      submittingFor := Some(assignmentId);
    }

    /** Typing in the link box. */
    method SetSubmitUrl(url: string)
      modifies this
      ensures submitUrl == url
      ensures activeTab == old(activeTab) && selectedActiveCourse == old(selectedActiveCourse)
      ensures courseModules == old(courseModules) && assignments == old(assignments) && submittingFor == old(submittingFor)
      ensures announcements == old(announcements) && courseInsights == old(courseInsights)
    {
      submitUrl := url;
    }

    /** "Cancel" closes the form and forgets the link. */
    method CancelSubmit()
      modifies this
      ensures submittingFor.None? && submitUrl == ""
      ensures activeTab == old(activeTab) && selectedActiveCourse == old(selectedActiveCourse)
      ensures courseModules == old(courseModules) && assignments == old(assignments)
      ensures announcements == old(announcements) && courseInsights == old(courseInsights)
    {
      submittingFor, submitUrl := None, "";
    }

    /**
     * `handleSubmitAssignment`, with `reply` the answer to the call when one is made.
     * Without a request nothing changes; a successful answer closes the form and asks for
     * the open course's assignments again (`reload`).
     */
    method HandleSubmitAssignment(reply: Reply<string>) returns (sent: Option<(int, string)>, reload: Option<string>)
      modifies this
      ensures sent == SubmitRequest(old(submittingFor), old(submitUrl))
      ensures sent.Some? && reply.Succeeded? ==> submittingFor.None? && submitUrl == ""
      ensures !(sent.Some? && reply.Succeeded?) ==> submittingFor == old(submittingFor) && submitUrl == old(submitUrl)
      ensures reload == (if sent.Some? && reply.Succeeded? && Truthy(selectedActiveCourse) then selectedActiveCourse else None)
      ensures activeTab == old(activeTab) && selectedActiveCourse == old(selectedActiveCourse)
      ensures courseModules == old(courseModules) && assignments == old(assignments)
      ensures announcements == old(announcements) && courseInsights == old(courseInsights)
    {
      sent := SubmitRequest(submittingFor, submitUrl);
      reload := None;
      if sent.Some? && reply.Succeeded? {
        submittingFor, submitUrl := None, "";
        if Truthy(selectedActiveCourse) {
          reload := selectedActiveCourse;
        }
      }
    }
  }
}
