/**
 * The rows of the backend's tables, held in memory.  Identifiers the database generates
 * for content, assignments and submissions are UUIDs sent to clients as text; here they
 * are fresh natural numbers drawn from counters, so they also increase in insertion order,
 * which the joins' ORDER BY on them relies on.  The
 * identifiers of users and courses are the UUID strings the requests carry.
 */
module Tables {
  import opened Common

  type UserId = string
  type CourseId = string
  type AssignmentId = nat
  type SubmissionId = nat
  type ContentId = nat
  /** A calendar day, as SQL's CURRENT_DATE. */
  type Date = nat

  /** The `status` column of `enrolled_in`; any other text the grading request sends is kept. */
  datatype Status = Ongoing | Completed | Dropped | OtherStatus(text: string)

  function ParseStatus(s: string): (r: Status)
    ensures r == Ongoing <==> s == "ongoing"
    ensures r == Completed <==> s == "completed"
    ensures r == Dropped <==> s == "dropped"
    ensures r.OtherStatus? ==> r.text == s
  {
    if s == "ongoing" then Ongoing
    else if s == "completed" then Completed
    else if s == "dropped" then Dropped
    else OtherStatus(s)
  }

  /** A row of `users`; `approved` is NULL-able. */
  datatype UserRow = UserRow(name: string, email: string, role: string, approved: Option<bool>)

  /** A row of `student` (the columns a student may edit). */
  datatype StudentProfile = StudentProfile(
    branch: Option<string>, country: Option<string>, dob: Option<string>, phoneNumber: Option<string>)

  /** A row of `instructor`; the hire year is kept as the text the request carried. */
  datatype InstructorProfile = InstructorProfile(
    branch: Option<string>, specialization: Option<string>, hireYear: Option<string>, phoneNumber: Option<string>)

  const EmptyStudentProfile := StudentProfile(None, None, None, None)
  const EmptyInstructorProfile := InstructorProfile(None, None, None, None)

  /**
   * A row of `course`.  The university is named directly (the `university` table and its
   * ranking are not modelled); fees are an opaque amount.
   */
  datatype CourseRow = CourseRow(
    title: string, duration: string, level: string, description: string,
    fees: Option<int>, university: Option<string>)

  /** A row of `enrolled_in`, keyed by (user, course). */
  datatype Enrollment = Enrollment(status: Status, grade: Option<string>, completionDate: Option<Date>)

  /** A row of `module`, keyed by (course, module_number). */
  datatype ModuleRow = ModuleRow(name: string, duration: string)

  /** A row of `module_content`. */
  datatype ContentRow = ContentRow(
    contentId: ContentId, courseId: CourseId, moduleNumber: int,
    title: string, contentType: string, url: string)

  /** A row of `assignment`; the module number and the due date may be NULL. */
  datatype AssignmentRow = AssignmentRow(
    courseId: CourseId, moduleNumber: Option<int>, instructorId: UserId, title: string,
    description: string, assignmentUrl: string, dueDate: Option<string>, maxMarks: int)

  /** A row of `assignment_submission`, keyed by (assignment, student). */
  datatype SubmissionRow = SubmissionRow(
    submissionId: SubmissionId, url: string, marks: Option<int>, feedback: Option<string>)

  /** An HTTP error response: its status code and the `error` text of its body. */
  datatype ApiError = ApiError(code: nat, message: string)

  /** What an endpoint answers: a success payload or an error response. */
  datatype Result<T> = Ok(value: T) | Err(error: ApiError)

  /** The answer of an exception caught by an endpoint's handler (its text is the driver's). */
  const DatabaseError := ApiError(500, "database error")
}
