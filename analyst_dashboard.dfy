/**
 * The data analyst's dashboard: the check before an insight is posted, the chart data
 * that goes with it, and the state of the post-insight form.
 */
module AnalystDashboard {
  import opened Common
  import opened Web

  /** A point of a posted chart: a grade bar, or one of the enrolment-status slices. */
  datatype ChartPoint =
    | GradePoint(grade: string, count: int)
    | StatusPoint(name: string, count: int, fill: string)

  /** The statistics of one course. */
  datatype CourseStats = CourseStats(enrolled: int, completed: int, ongoing: int, gradeDistribution: seq<ChartPoint>)

  // ---------------------------------------------------------------- course statistics

  /** The number of enrolments whose status satisfies `p`. */
  function CountStatus(statuses: seq<string>, p: string -> bool): (n: nat)
    ensures n <= |statuses|
  {
    if statuses == [] then 0 else (if p(statuses[0]) then 1 else 0) + CountStatus(statuses[1..], p)
  }

  /**
   * The counts of the course statistics endpoint over the statuses of a course's
   * enrolments: every status but dropped, completed, and ongoing.
   */
  function StatsOf(statuses: seq<string>, gradeDistribution: seq<ChartPoint>): (st: CourseStats)
    ensures st.enrolled == |statuses| - multiset(statuses)["dropped"]
    ensures st.completed == multiset(statuses)["completed"]
    ensures st.ongoing == multiset(statuses)["ongoing"]
    ensures st.gradeDistribution == gradeDistribution
  {
    var enrolled := (s: string) => s != "dropped";
    var completed := (s: string) => s == "completed";
    var ongoing := (s: string) => s == "ongoing";
    CountOthers(statuses, enrolled, "dropped");
    CountMatching(statuses, completed, "completed");
    CountMatching(statuses, ongoing, "ongoing");
    CourseStats(CountStatus(statuses, enrolled), CountStatus(statuses, completed),
                CountStatus(statuses, ongoing), gradeDistribution)
  }

  /** `COUNT(*) FILTER (WHERE status = v)` is the number of times `v` occurs. */
  lemma {:induction false} CountMatching(statuses: seq<string>, p: string -> bool, v: string)
    requires forall s :: p(s) <==> s == v
    ensures CountStatus(statuses, p) == multiset(statuses)[v]
  {
    if statuses != [] {
      assert statuses == [statuses[0]] + statuses[1..];
      CountMatching(statuses[1..], p, v);
    }
  }

  /** `COUNT(*) FILTER (WHERE status != v)` counts every row but the occurrences of `v`. */
  lemma {:induction false} CountOthers(statuses: seq<string>, p: string -> bool, v: string)
    requires forall s :: p(s) <==> s != v
    ensures CountStatus(statuses, p) == |statuses| - multiset(statuses)[v]
  {
    if statuses != [] {
      assert statuses == [statuses[0]] + statuses[1..];
      CountOthers(statuses[1..], p, v);
    }
  }

  /** Completed and ongoing enrolments are both counted as enrolled, so they never exceed it. */
  lemma {:induction false} StatsOrdered(statuses: seq<string>, gradeDistribution: seq<ChartPoint>)
    ensures var st := StatsOf(statuses, gradeDistribution);
      0 <= st.completed && 0 <= st.ongoing && st.completed + st.ongoing <= st.enrolled <= |statuses|
  {
    if statuses != [] {
      StatsOrdered(statuses[1..], gradeDistribution);
    }
  }

  // ---------------------------------------------------------------- posting an insight

  datatype InsightForm = InsightForm(courseId: string, title: string, chartType: string, summary: string)

  const BlankInsightForm := InsightForm("", "", "grade_distribution", "")

  /** The check of `handlePostInsight`: a course and a title must be chosen (not trimmed). */
  function ValidatePostInsight(f: InsightForm): (ok: bool)
    ensures ok <==> f.courseId != "" && f.title != ""
  {
    Truthy(Some(f.courseId)) && Truthy(Some(f.title))
  }

  const EnrolledFill := "#475569"
  const CompletedFill := "#64748b"
  const OngoingFill := "#94a3b8"

  /**
   * The chart posted with an insight: the grade distribution when it is asked for and is
   * not empty; the three enrolment-status slices when they are asked for and the course's
   * statistics are loaded; otherwise no chart.
   */
  function ChartData(chartType: string, stats: Option<CourseStats>): (r: Option<seq<ChartPoint>>)
    ensures chartType == "grade_distribution" ==>
      (r.Some? <==> stats.Some? && stats.value.gradeDistribution != [])
    ensures chartType == "grade_distribution" && r.Some? ==> r.value == stats.value.gradeDistribution
    ensures chartType == "enrollment_status" ==> (r.Some? <==> stats.Some?)
    ensures chartType == "enrollment_status" && stats.Some? ==>
      r == Some([StatusPoint("Enrolled", stats.value.enrolled, EnrolledFill),
                 StatusPoint("Completed", stats.value.completed, CompletedFill),
                 StatusPoint("Ongoing", stats.value.ongoing, OngoingFill)])
    ensures chartType != "grade_distribution" && chartType != "enrollment_status" ==> r.None?
    ensures r.Some? ==> r.value != []
  {
    if chartType == "grade_distribution" && stats.Some? && |stats.value.gradeDistribution| != 0 then
      Some(stats.value.gradeDistribution)
    else if chartType == "enrollment_status" && stats.Some? then
      Some([StatusPoint("Enrolled", stats.value.enrolled, EnrolledFill),
            StatusPoint("Completed", stats.value.completed, CompletedFill),
            StatusPoint("Ongoing", stats.value.ongoing, OngoingFill)])
    else None
  }

  /**
   * For statistics the endpoint computed, the enrolment-status chart shows completed and
   * ongoing slices that together never exceed the enrolled slice.
   */
  lemma {:induction false} StatusChartOrdered(statuses: seq<string>, gradeDistribution: seq<ChartPoint>)
    ensures var c := ChartData("enrollment_status", Some(StatsOf(statuses, gradeDistribution)));
      c.Some? && |c.value| == 3 && c.value[1].count + c.value[2].count <= c.value[0].count
  {
    StatsOrdered(statuses, gradeDistribution);
  }

  /** A fetch the page starts. */
  datatype AnalystLoad = LoadCourseStats(courseId: string) | LoadPostedInsights(courseId: string) | LoadOverview

  /** A posted insight as the course's list shows it. */
  datatype PostedInsight = PostedInsight(title: string, chartType: string, summary: Option<string>)

  datatype PostInsightCall = PostInsightCall(
    courseId: string, title: string, chartType: string, chartData: Option<seq<ChartPoint>>, summary: string)

  /** `loadCourseStats` and `loadPostedInsights`: an empty id starts no fetch. */
  function CourseLoads(courseId: string): (loads: seq<AnalystLoad>)
    ensures courseId == "" <==> loads == []
    ensures courseId != "" ==> loads == [LoadCourseStats(courseId), LoadPostedInsights(courseId)]
  {
    if courseId == "" then [] else [LoadCourseStats(courseId), LoadPostedInsights(courseId)]
  }

  /** The post-insight part of the dashboard's state. */
  class AnalystView {
    var selectedCourseId: string
    var courseStats: Option<CourseStats>
    var postInsightForm: InsightForm
    var postedInsights: seq<PostedInsight>

    /** First render: no course, no statistics, the blank form. */
    constructor ()
      ensures selectedCourseId == "" && courseStats.None? && postInsightForm == BlankInsightForm
      ensures postedInsights == []
    {
      selectedCourseId, courseStats, postInsightForm, postedInsights := "", None, BlankInsightForm, [];
    }

    /**
     * The course select: the form and the selection take the value; a course starts the
     * fetch of its statistics and insights, and the empty choice clears both.
     */
    method ChooseCourse(value: string) returns (loads: seq<AnalystLoad>)
      modifies this
      ensures postInsightForm == old(postInsightForm).(courseId := value) && selectedCourseId == value
      ensures loads == CourseLoads(value)
      ensures value == "" ==> courseStats.None? && postedInsights == []
      ensures value != "" ==> courseStats == old(courseStats) && postedInsights == old(postedInsights)
    {
      postInsightForm := postInsightForm.(courseId := value);
      selectedCourseId := value;
      loads := CourseLoads(value);
      if value == "" {
        courseStats := None;
        postedInsights := [];
      }
    }

    /** The statistics fetch: set on success, cleared when the request fails. */
    method ReceiveCourseStats(reply: Reply<CourseStats>)
      modifies this
      ensures courseStats == (match reply
                              case Succeeded(st) => Some(st)
                              case Failed(_) => None
                              case Unsuccessful => old(courseStats))
      ensures unchanged(this`selectedCourseId, this`postInsightForm, this`postedInsights)
    {
      match reply {
        case Succeeded(st) => courseStats := Some(st);
        case Failed(_) => courseStats := None;
        case Unsuccessful =>
      }
    }

    /** The posted-insights fetch: set on success, emptied when the request fails. */
    method ReceivePostedInsights(reply: Reply<seq<PostedInsight>>)
      modifies this
      ensures postedInsights == (match reply
                                 case Succeeded(s) => s
                                 case Failed(_) => []
                                 case Unsuccessful => old(postedInsights))
      ensures unchanged(this`selectedCourseId, this`courseStats, this`postInsightForm)
    {
      match reply {
        case Succeeded(s) => postedInsights := s;
        case Failed(_) => postedInsights := [];
        case Unsuccessful =>
      }
    }

    /**
     * `handlePostInsight`: nothing is sent without a course and a title; otherwise the
     * form is sent with its chart.  A success resets the form, clears the statistics and
     * the selection, and reloads the course's insights and the page data.
     */
    method HandlePostInsight(reply: Reply<int>) returns (sent: Option<PostInsightCall>, loads: seq<AnalystLoad>)
      modifies this
      ensures var f := old(postInsightForm);
        sent == (if !ValidatePostInsight(f) then None
                 else Some(PostInsightCall(f.courseId, f.title, f.chartType, ChartData(f.chartType, old(courseStats)),
                                           f.summary)))
      ensures sent.Some? && reply.Succeeded? ==>
        (postInsightForm == BlankInsightForm && courseStats.None? && selectedCourseId == "" &&
         loads == [LoadPostedInsights(old(postInsightForm).courseId), LoadOverview])
      ensures !(sent.Some? && reply.Succeeded?) ==>
        (postInsightForm == old(postInsightForm) && courseStats == old(courseStats) &&
         selectedCourseId == old(selectedCourseId) && loads == [])
      ensures unchanged(this`postedInsights)
    {
      sent, loads := None, [];
      var f := postInsightForm;
      if !ValidatePostInsight(f) {
        return;
      }
      sent := Some(PostInsightCall(f.courseId, f.title, f.chartType, ChartData(f.chartType, courseStats), f.summary));
      if reply.Succeeded? {
        postInsightForm := BlankInsightForm;
        courseStats := None;
        selectedCourseId := "";
        loads := [LoadPostedInsights(f.courseId), LoadOverview];
      }
    }
  }
}
