# CourseHub business rules in Dafny

CourseHub is a course-management web application with four roles: student, instructor,
administrator and data analyst. It has a Flask backend (`app.py`) over a PostgreSQL schema and
a React front end. This project models the backend's business rules and the front end's
client-side state and decisions, and proves properties about both.

Backend:

- `Tables` holds the rows of the tables the endpoints touch.
- `BackendRules` holds the decisions that change no table:
  - the administrator gate;
  - the login approval gate;
  - the first-administrator rule of signup;
  - the dashboard counts;
  - the partial-update builders of the profile endpoints;
  - the course create/update merge;
  - the marks bound.
- `ModuleGrouping` is the loop that turns joined module/content rows into nested modules.
- `Backend.Database` is a class whose fields are the tables. Each endpoint that writes is a
  method: it validates its request, then either answers with an error and leaves the tables as
  they were, or makes its writes. Every method keeps the referential invariant `Valid()`:
  - every profile belongs to a user;
  - every content row sits in an existing module;
  - ids are below their counters;
  - every submission belongs to an assignment, and its marks are within that assignment's bound.

Front end:

- `AppShell` covers the session and the routes.
- `Theme` covers the bright/dark store.
- `LoginSignup` covers the login/signup form.
- There is one module per dashboard. Each has a class holding the dashboard's React state, whose
  handlers take the awaited API reply as a parameter.
- Pure render-time decisions are functions, with lemmas that relate them to the backend rules:
  filters, totals, enabled buttons, request bodies and chart data.

Shared helpers:

- `Common`: Option and truthiness.
- `Text`: ASCII lower-casing, trimming and integer text.
- `Web`: `filter`/`some`/`join`, `parseInt` with NaN, and the browser storage.

Two behaviours of the code worth noting:

- A user whose `approved` column is NULL is listed as approved on the administrator's user list
  but refused at login. `BackendRules.NullApprovalListedButRefused` and
  `AdminDashboard.PendingListedUsers` state this.
- `approve_user` checks no administrator identity, so `Backend.Database.ApproveUser` takes none.

## Model

| member | source | states |
|---|---|---|
| Tables.ParseStatus | app.py:1182-1202 | the enrolment status a grading request writes: ongoing, completed and dropped exactly for their names, any other text kept as given |
| BackendRules.RequireAdmin | app.py:15-27 | passes exactly for a present user id whose row has the administrator role; a missing id is a 400, anyone else a 403 with the fixed message |
| BackendRules.Login | app.py:39-96 | succeeds iff both credentials are non-empty, the auth service accepted them with a user id that has a row, and that row's approval is exactly true; the session user is that row; missing credentials give 400; an unconfigured auth service gives 500; rejected credentials give 401 invalid email or password; an accepted identity without an id or without a users row gives 401 profile not found; an unapproved row gives 403 with the pending message |
| BackendRules.NullApprovalListedButRefused | app.py:69-88 | a row with NULL approval counts as approved on the user list yet its login is refused with the pending-approval 403 |
| BackendRules.SignupRole | app.py:107 | a missing role defaults to student, a given one is kept |
| BackendRules.ValidateSignup | app.py:110-111 | the request passes iff name, email and password are all non-empty; otherwise a 400 |
| BackendRules.ApprovedAdmins | app.py:171-172 | exactly the users with the administrator role whose approval is true |
| BackendRules.AutoApprove | app.py:171-173 | a signup is auto-approved iff its role is administrator and no approved administrator exists |
| BackendRules.SignupUsers | app.py:174-186 | the users table after the auth-path upsert: the new id is added or updated with the given name and role and the auto-approval flag; an existing row keeps its email; every other row is unchanged |
| BackendRules.SignupKeepsOneApprovedAdmin | app.py:171-185 | if at most one approved administrator exists before a signup, at most one exists after it |
| BackendRules.SignupApprovalIff | app.py:171-185 | the signed-up user is approved iff they signed up as administrator while no approved administrator existed |
| BackendRules.Dashboard | app.py:261-326 | answers iff user id and role are given and the role is one of the four, else the matching 400; a student gets the numbers of their enrolments not dropped and completed, an instructor the number of courses they teach, an administrator the numbers of users and courses, an analyst the number of enrolments |
| BackendRules.StudentCountsOrdered | app.py:274-287 | a student's completed count never exceeds their enrolled (not dropped) count, which never exceeds the enrolment table |
| BackendRules.PresentFields | app.py:543-556 | no field is kept iff every value is missing; the kept entries are exactly the given fields with their values; never more than were examined (the order is fixed by `PresentFieldsBuildsUp`) |
| BackendRules.BuildStudentUpdates | app.py:543-556 | the SET columns and parameters are the present student fields in order; the list is empty iff no field was given |
| BackendRules.BuildInstructorUpdates | app.py:1034-1047 | the same for the instructor fields, with a given but empty hire year sent as NULL |
| BackendRules.PresentFieldsOfFour | app.py:543-556 | the present fields of four are the concatenation of each field's contribution |
| BackendRules.PresentFieldsBuildsUp | app.py:543-556 | examining one more field appends exactly that field's contribution |
| BackendRules.Appended | app.py:543-556 | appending one field's contribution appends its column and value when it is given, and nothing otherwise |
| BackendRules.ApplySetConcat | app.py:558-559 | applying a SET list in two parts equals applying it at once |
| BackendRules.ApplyPresentFields | app.py:558-559 | applying the present fields of four sets exactly the given columns, in order |
| BackendRules.StudentUpdatesMerge | app.py:540-559 | the UPDATE built from the given fields gives the stored profile with each given field replaced and the others kept |
| BackendRules.InstructorUpdatesMerge | app.py:1029-1049 | the same for the instructor profile, with an empty hire year stored as NULL |
| BackendRules.ValidateNewCourse | app.py:720-756 | accepted iff the title and the trimmed university name are non-blank; a bad title is the title-required 400; a good title with a blank university is the university-required 400; the row has the trimmed title and university, the given fees, and duration, level and description as given when non-empty, else "", "beginner" and "" |
| BackendRules.MergeCourse | app.py:866-920 | refused with the empty-title 400 iff the resulting title is empty; otherwise a sent title is written trimmed, a sent duration, description or fees as given, a sent non-empty level as given, a sent university name cleared when blank and trimmed otherwise; every field not sent keeps its stored value; the level is never empty |
| BackendRules.MergedTitle | app.py:882 | the new title is empty iff a truthy sent title is blank, or no title is sent and the stored one is empty |
| BackendRules.MergedUniversity | app.py:867-912 | no university name sent keeps the stored university |
| BackendRules.MergeCourseIdempotent | app.py:855-939 | sending the same update twice gives the same row as sending it once |
| BackendRules.CheckMarks | app.py:1837-1840 | marks pass iff 0 <= marks <= max marks; otherwise the 400 names the maximum |
| BackendRules.TotalsOrdered | app.py:1141-1150 | with marks within bounds and non-negative maxima, 0 <= obtained <= possible |
| BackendRules.TotalsOfCons | app.py:1141-1145 | one more joined row adds its marks (nothing while ungraded) and its maximum to the two sums |
| BackendRules.Percent | app.py:1150 | zero when nothing is possible; between 0 and 100 when obtained is within bounds; 100 when all marks are obtained |
| ModuleGrouping.GroupModules | app.py:1898-1918 | the loop over joined rows produces exactly `Grouped(rows)`: one module per module number in first-seen order, each with its content rows in order |
| ModuleGrouping.ModuleOfExtended | app.py:1900-1916 | one more row extends an existing module's content by that row's item, or starts a new module from that row |
| ModuleGrouping.ContentOfAbsent | app.py:1900-1916 | a module number that has not been seen has no content |
| ModuleGrouping.FirstSeenMembers | app.py:1900-1909 | a module number is listed iff some row carries it |
| ModuleGrouping.FirstSeenDistinct | app.py:1900-1909 | no module is listed twice |
| ModuleGrouping.HeaderIsFirstRow | app.py:1901-1907 | a module's name and duration come from the first row carrying its number |
| ModuleGrouping.ContentFromOwnRows | app.py:1910-1916 | each content item of a module comes from a row of that module with a content id |
| ModuleGrouping.ContentCount | app.py:1910-1916 | a module has as many content items as rows with its number and a content id |
| ModuleGrouping.RowContentListed | app.py:1910-1916 | every row with a content id puts its item into its own module's content |
| ModuleGrouping.FirstSeenSorted | app.py:1891-1909 | rows ordered by module number give the modules in increasing order |
| Backend.Database.Signup | app.py:99-254 | keeps `Valid()`; a failed validation or auth call changes no user; the auth path upserts via `SignupUsers` and answers with the administrator message and session user iff auto-approved, else the approval notice; the fallback path inserts an unapproved row; the role profile is created for students and instructors |
| Backend.Database.AddRoleProfile | app.py:187-199 | an empty student or instructor profile is added for that role unless one exists; nothing else changes |
| Backend.Database.Enroll | app.py:376-407 | missing ids give 400; an existing enrolment gives the already-enrolled 400; otherwise succeeds iff the pair was not enrolled, adding an ongoing enrolment |
| Backend.Database.ApproveUser | app.py:615-635 | a missing id gives 400; otherwise answers success and, if the user exists, sets approval to true, after which they can log in |
| Backend.Database.AssignInstructor | app.py:673-700 | missing ids give 400; otherwise the pair is added to teaches, an existing pair being kept |
| Backend.Database.UpdateStudentProfile | app.py:522-575 | a missing id or no field gives the matching 400 and no change; otherwise the name is renamed if given and the profile gets exactly the given fields |
| Backend.Database.RenameUser | app.py:540-541 | a given name replaces the user's name; nothing else changes |
| Backend.Database.WriteStudentColumns | app.py:558-559 | the student profile becomes the SET list applied to it |
| Backend.Database.UpdateInstructorProfile | app.py:1019-1062 | a missing id or no field gives the matching 400 and no change; otherwise the profile is merged with the given fields |
| Backend.Database.WriteInstructorColumns | app.py:1049-1050 | the instructor profile becomes the SET list applied to it |
| Backend.Database.CreateCourse | app.py:709-773 | the administrator gate, then `ValidateNewCourse`; succeeds iff both pass, inserting the validated row under the new id; any error leaves the courses unchanged |
| Backend.Database.UpdateCourse | app.py:855-939 | the administrator gate; an unknown course is a 404; otherwise the answer and the new row are those of `MergeCourse` |
| Backend.Database.GradeStudent | app.py:1173-1213 | missing fields give 400; succeeds iff the instructor teaches the course (else 403), setting the enrolment's status (default completed), grade and completion date |
| Backend.Database.RemoveStudent | app.py:1216-1254 | missing fields give 400; with all fields given, an instructor who does not teach the course gets the 403 "You don't teach this course"; succeeds iff the instructor teaches the course, marking the enrolment dropped so the student is no longer actively enrolled |
| Backend.Database.CreateModule | app.py:1394-1446 | missing fields or a zero number give 400; with all fields given, an instructor who does not teach the course gets the 403 "You don't teach this course"; an existing number gives the duplicate 400; succeeds iff the instructor teaches the course and the number is free, adding the module |
| Backend.Database.AddModuleContent | app.py:1449-1504 | missing fields give 400; with all fields given, an instructor who does not teach the course gets the 403 "You don't teach this course"; a taught course without that module gives the 404 "Module does not exist"; succeeds iff the instructor teaches the course and the module exists, appending a content row with the next id |
| Backend.Database.CreateAssignment | app.py:1511-1559 | missing fields give 400; with all fields given, an instructor who does not teach the course gets the 403 "You don't teach this course"; succeeds iff the instructor teaches the course, adding an assignment under a fresh id that stores the course, module number, instructor, title, URL and description (absent: ""), with an empty due date stored as NULL and max marks defaulting to 20 |
| Backend.Database.SubmitAssignment | app.py:1673-1722 | missing fields give 400, an unknown assignment 404, a student not actively enrolled 403; otherwise the submission is inserted, or its URL replaced on resubmission |
| Backend.Database.WriteSubmission | app.py:1706-1714 | the upsert of one submission: a new row with the next id, or the URL of the existing row replaced |
| Backend.Database.GradeSubmission | app.py:1805-1855 | missing fields give 400; a submission not on the instructor's assignments gives 403; for an owned one it succeeds iff the marks are in bounds, writing marks and feedback, and out-of-range marks give `CheckMarks`'s 400 naming the maximum, with the submission unchanged |
| Backend.Database.WriteGrade | app.py:1842-1846 | the submission's marks and feedback are set; nothing else changes |
| Backend.Database.GetStudentCourseModules | app.py:1862-1923 | a missing id gives 400, a student not actively enrolled 403; otherwise, for the rows of the course's `module LEFT JOIN module_content`, the answer is their grouping: every module of the course exactly once, by increasing number, with its stored name and duration, and as items exactly that module's content rows, even when it has none |
| Backend.JoinListsCourseModules | app.py:1882-1918 | the grouped join lists a module number iff the course has that module, and none twice |
| Backend.JoinModulesAscending | app.py:1889-1918 | the ORDER BY lists the grouped modules by increasing number |
| Backend.JoinModuleHeaders | app.py:1882-1907 | each listed module has the name and duration stored for it |
| Backend.JoinContentOwnModule | app.py:1882-1916 | each item of a listed module is a content row of that module of the course |
| Backend.JoinContentComplete | app.py:1882-1916 | each content row of a listed module is among its items |
| Backend.Database.StudentTotals | app.py:1139-1150 | obtained and possible are the sums of marks obtained (0 while ungraded) and of maxima over the student's submissions to the course's assignments; obtained is non-negative; the percent is `Percent` of the totals; with non-negative maxima obtained <= possible and percent in [0, 100]; no submissions give zero totals |
| Backend.Database.MarkRowsInWithout | app.py:1141-1145 | the sums over a set of submissions do not depend on their order: removing one removes exactly its marks and its maximum |
| LoginSignup.SubmitOutcome | frontend/src/components/LoginSignup.js:32-58 | signs in iff the answer succeeded with a user; a signup without a user shows the message or the approval notice; everything else shows the server's error or the tab's fallback; a shown text is never empty |
| LoginSignup.LoginOutcomeMatchesBackend | frontend/src/components/LoginSignup.js:33-39 | the form signs in exactly the user the login endpoint accepted and shows the endpoint's error otherwise |
| LoginSignup.SignupOutcomeMatchesBackend | frontend/src/components/LoginSignup.js:40-56 | only a signup answered with a user signs in; every other success shows the endpoint's message |
| LoginSignup.RequestOf | frontend/src/components/LoginSignup.js:33-46 | the login tab sends email and password, the signup tab also the name and role of the form |
| LoginSignup.AuthForm.constructor | frontend/src/components/LoginSignup.js:7-16 | login tab, empty fields with the student role, no messages, not loading |
| LoginSignup.AuthForm.SetMode | frontend/src/components/LoginSignup.js:78-84 | only the tab changes |
| LoginSignup.AuthForm.HandleChange | frontend/src/components/LoginSignup.js:18-24 | the named field takes the value, the others keep theirs, and the error is cleared |
| LoginSignup.AuthForm.BeginSubmit | frontend/src/components/LoginSignup.js:26-30 | messages cleared, loading set, and the tab's request sent |
| LoginSignup.AuthForm.FinishSubmit | frontend/src/components/LoginSignup.js:32-61 | the outcome's user is handed on, or its error or notice is set; loading ends |
| LoginSignup.AuthForm.HandleSubmit | frontend/src/components/LoginSignup.js:26-61 | after a submission exactly one of signed in, error shown and notice shown holds |
| AppShell.Route | frontend/src/App.js:35-62 | only the loading page while loading; `/login` redirects a signed-in user; `/` goes to login; `/dashboard` shows a dashboard iff the user's role has one, and that dashboard serves the user's role |
| AppShell.DashboardFor | frontend/src/App.js:54-57 | a role has a dashboard iff it is one of the four roles, and that dashboard serves exactly that role |
| AppShell.NoLoginPageWhenSignedIn | frontend/src/App.js:43-61 | a signed-in user never sees the login page and a signed-out user never a dashboard |
| AppShell.App.constructor | frontend/src/App.js:13-14 | no user and loading |
| AppShell.App.Restore | frontend/src/App.js:16-23 | a stored user becomes the current user; loading ends |
| AppShell.App.HandleLogin | frontend/src/App.js:25-28 | the same user in memory and in storage |
| AppShell.App.HandleLogout | frontend/src/App.js:30-33 | the session is cleared in memory and in storage |
| Theme.InitialTheme | frontend/src/context/ThemeContext.js:6-8 | the stored theme if truthy, else bright; never empty |
| Theme.Toggled | frontend/src/context/ThemeContext.js:20-22 | always bright or dark, dark exactly when the previous theme was bright |
| Theme.ToggleTwice | frontend/src/context/ThemeContext.js:20-22 | two toggles restore bright or dark; any other name ends up dark |
| Theme.UseTheme | frontend/src/context/ThemeContext.js:31-36 | returns the context iff there is one, else throws the fixed message |
| Theme.ThemeProvider.constructor | frontend/src/context/ThemeContext.js:6-18 | the initial theme is read from storage and persisted to storage and the page |
| Theme.ThemeProvider.SetTheme | frontend/src/context/ThemeContext.js:15-18 | the theme is set and stays persisted; the stored user is untouched |
| Theme.ThemeProvider.ToggleTheme | frontend/src/context/ThemeContext.js:15-22 | the theme moves to its toggle and stays persisted |
| StudentDashboard.BrowseFilter | frontend/src/components/StudentDashboard.js:640-650 | never more courses than given |
| StudentDashboard.BrowseListedIff | frontend/src/components/StudentDashboard.js:640-650 | a course is listed iff it is in the list, its lower-cased level matches the filter (or the filter is all), and the trimmed lower-cased query is empty or occurs in its lower-cased title, university, instructors or description |
| Text.ContainsIff | frontend/src/components/StudentDashboard.js:648 | the `includes` search holds exactly when the query occurs at some position of the text |
| StudentDashboard.MatchesQueryIff | frontend/src/components/StudentDashboard.js:642-648 | the `some` over the four fields holds iff the query occurs in one of them |
| StudentDashboard.LowerKeepsBlank | frontend/src/components/StudentDashboard.js:642 | lower-casing a blank query keeps it blank, so it trims to empty |
| StudentDashboard.BrowseUnfiltered | frontend/src/components/StudentDashboard.js:640-650 | with the all filter and a blank search every course is listed, in order |
| StudentDashboard.IsEnrolled | frontend/src/components/StudentDashboard.js:655-657 | the `some` over enrolled courses holds iff one has the course's id |
| StudentDashboard.CardActionOf | frontend/src/components/StudentDashboard.js:655-684 | the enrolled badge iff the course is among the enrolled ones, otherwise an enroll button for that course |
| StudentDashboard.MarkRowsOf | frontend/src/components/StudentDashboard.js:556-557 | one mark row per listed assignment |
| StudentDashboard.TotalObtained | frontend/src/components/StudentDashboard.js:556 | the sum equals the `reduce`'s left-to-right accumulation: the total of all but the last entry plus the last entry's marks, 0 when missing |
| StudentDashboard.TotalPossible | frontend/src/components/StudentDashboard.js:557 | the same for the maxima, a missing maximum counting 0 |
| StudentDashboard.TotalPercent | frontend/src/components/StudentDashboard.js:558 | 0 when nothing is possible; in [0, 100] when obtained is within possible; 100 when everything is obtained |
| StudentDashboard.TotalsAgreeWithBackend | frontend/src/components/StudentDashboard.js:556-557 | the page's obtained and possible sums equal the backend's totals over the same rows |
| StudentDashboard.TotalsBounded | frontend/src/components/StudentDashboard.js:556-558 | with marks within bounds, 0 <= obtained <= possible and the percent is in [0, 100], zero when nothing is possible |
| StudentDashboard.SubmitRequest | frontend/src/components/StudentDashboard.js:197-211 | nothing is sent iff no assignment is chosen or the URL is blank; otherwise the chosen assignment and the trimmed, non-empty URL |
| StudentDashboard.StudentView.constructor | frontend/src/components/StudentDashboard.js:18-26 | no course chosen, empty lists, no submission in progress |
| StudentDashboard.StudentView.ShowActiveCourses | frontend/src/components/StudentDashboard.js:224 | the active tab with no course chosen; nothing else changes |
| StudentDashboard.StudentView.OpenCourse | frontend/src/components/StudentDashboard.js:398 | the clicked course is chosen and its content, assignments, announcements and insights are fetched, in that order; nothing else changes |
| StudentDashboard.StudentView.ReceiveModules | frontend/src/components/StudentDashboard.js:154-164 | a successful answer replaces the modules; otherwise they are kept |
| StudentDashboard.StudentView.ReceiveAssignments | frontend/src/components/StudentDashboard.js:166-174 | a successful answer replaces the assignments; otherwise they are kept |
| StudentDashboard.StudentView.ReceiveAnnouncements | frontend/src/components/StudentDashboard.js:176-184 | success replaces, an unsuccessful answer keeps, a thrown call empties the announcements |
| StudentDashboard.StudentView.ReceiveInsights | frontend/src/components/StudentDashboard.js:186-195 | success replaces the insights; anything else empties them |
| StudentDashboard.StudentView.BackToCourses | frontend/src/components/StudentDashboard.js:426 | the course view is closed and every course list emptied |
| StudentDashboard.StudentView.StartSubmit | frontend/src/components/StudentDashboard.js:547 | the assignment being submitted is set |
| StudentDashboard.StudentView.SetSubmitUrl | frontend/src/components/StudentDashboard.js:535 | the URL box takes the typed value |
| StudentDashboard.StudentView.CancelSubmit | frontend/src/components/StudentDashboard.js:537 | the submission in progress is dropped and the URL cleared |
| StudentDashboard.StudentView.HandleSubmitAssignment | frontend/src/components/StudentDashboard.js:197-211 | sends `SubmitRequest`; on success the submission state is cleared and the open course's assignments reloaded; otherwise nothing changes |
| AdminDashboard.PendingUsers | frontend/src/components/AdminDashboard.js:297-310 | never more users than given |
| AdminDashboard.PendingIff | frontend/src/components/AdminDashboard.js:310 | a user is pending iff listed and not approved |
| AdminDashboard.NoPendingIff | frontend/src/components/AdminDashboard.js:297 | the empty-pending message shows iff every user is approved |
| AdminDashboard.ListedUser | app.py:586-606 | the user list reports a NULL approval as approved and keeps id, name, email and role |
| AdminDashboard.PendingListedUsers | app.py:586-606 | a listed user is pending iff their row says not approved, such a user cannot log in, and a NULL approval is listed as approved but refused at login |
| AdminDashboard.ActionsOf | frontend/src/components/AdminDashboard.js:316-358 | Delete is offered iff the user is a student; Approve always on the pending tab, and on the all-users tab iff not approved |
| AdminDashboard.ApproveOfferedIffPending | frontend/src/components/AdminDashboard.js:310-358 | on the all-users tab Approve is offered exactly to the users of the pending tab, with the same actions |
| AdminDashboard.PickInstructors | frontend/src/components/AdminDashboard.js:639-646 | never more instructors than given |
| AdminDashboard.PickInstructorsIff | frontend/src/components/AdminDashboard.js:639-646 | an instructor is offered iff listed and the lower-cased search is empty or occurs in the lower-cased name, branch or phone |
| AdminDashboard.PickInstructorsUnfiltered | frontend/src/components/AdminDashboard.js:640-641 | an empty search offers every instructor, in order |
| AdminDashboard.PickCourses | frontend/src/components/AdminDashboard.js:677-684 | never more courses than given |
| AdminDashboard.PickCoursesIff | frontend/src/components/AdminDashboard.js:677-684 | a course is offered iff listed and the lower-cased search is empty or occurs in the lower-cased title, university or instructor names |
| AdminDashboard.PickCoursesUnfiltered | frontend/src/components/AdminDashboard.js:678-679 | an empty search offers every course, in order |
| AdminDashboard.AssignEnabled | frontend/src/components/AdminDashboard.js:704 | the assign button is enabled iff both an instructor and a course are chosen |
| AdminDashboard.FeesOf | frontend/src/components/AdminDashboard.js:150 | an empty box sends no fees; otherwise the parsed number, NaN becoming null |
| AdminDashboard.FeesRoundTrip | frontend/src/components/AdminDashboard.js:150-175 | the text of a number reads back as that number |
| AdminDashboard.AddCourseRequest | frontend/src/components/AdminDashboard.js:139-152 | nothing is sent iff the university box is blank; otherwise each text field as typed, the fees as read and the trimmed university |
| AdminDashboard.AddCourseAcceptedIff | frontend/src/components/AdminDashboard.js:139-152 | a sent request is accepted by the create endpoint iff the title is not blank, and the stored university is the trimmed box |
| AdminDashboard.FormOf | frontend/src/components/AdminDashboard.js:170-178 | the edit form shows the course's texts, "" for missing ones and beginner for a missing level, and "" for missing numbers |
| AdminDashboard.FormNumbersRoundTrip | frontend/src/components/AdminDashboard.js:175-177 | the fees and ranking shown in the edit form read back as the course's own |
| AdminDashboard.UpdatePatch | frontend/src/components/AdminDashboard.js:233-241 | every text field is sent as typed, the fees as read and the university trimmed |
| AdminDashboard.ListedCourse | app.py:333-373 | the course list reports a row's title, level and university, with fees of 0 listed as missing |
| AdminDashboard.CreatedCourseCanonical | app.py:720-756 | every inserted course has a trimmed non-empty title, a non-empty level and a trimmed non-empty university |
| AdminDashboard.UpdatedCourseCanonical | app.py:866-920 | an accepted update keeps a course in that form |
| AdminDashboard.UnchangedEditKeepsCourse | frontend/src/components/AdminDashboard.js:168-252 | opening a listed course in the edit form and saving it unchanged writes back exactly the stored row |
| AdminDashboard.UnchangedTitle | app.py:882 | a trimmed, non-empty title sent back unchanged is kept |
| AdminDashboard.UnchangedFees | app.py:886 | the fees shown and sent back leave the stored fees as they were, zero included |
| AdminDashboard.UnchangedUniversity | app.py:867-912 | a trimmed university read into the form and sent back is kept, and a missing one stays missing |
| AdminDashboard.AdminView.constructor | frontend/src/components/AdminDashboard.js:8-39 | empty lists and forms, beginner level, nothing open or loading |
| AdminDashboard.AdminView.ReceiveUsers | frontend/src/components/AdminDashboard.js:61-70 | a successful answer replaces the user list; otherwise it is kept |
| AdminDashboard.AdminView.SelectInstructor | frontend/src/components/AdminDashboard.js:651 | only the chosen instructor changes |
| AdminDashboard.AdminView.SelectCourse | frontend/src/components/AdminDashboard.js:689 | only the chosen course changes |
| AdminDashboard.AdminView.HandleAssignInstructor | frontend/src/components/AdminDashboard.js:121-135 | the form is sent; on success it is cleared, otherwise kept |
| AdminDashboard.AdminView.ToggleAddCourse | frontend/src/components/AdminDashboard.js:374 | the add-course panel flips |
| AdminDashboard.AdminView.BeginAddCourse | frontend/src/components/AdminDashboard.js:137-152 | sends `AddCourseRequest` of the form; loading starts iff something is sent |
| AdminDashboard.AdminView.FinishAddCourse | frontend/src/components/AdminDashboard.js:153-165 | on success the panel closes, the form is reset and the courses and dashboard counts are fetched again; otherwise nothing is fetched; loading ends either way |
| AdminDashboard.AdminView.OpenEditCourse | frontend/src/components/AdminDashboard.js:168-178 | the course is being edited with `FormOf` it in the form |
| AdminDashboard.AdminView.ReceiveCourseInstructors | frontend/src/components/AdminDashboard.js:179-185 | a successful answer sets its instructors (none if absent); anything else empties them |
| AdminDashboard.AdminView.CloseEditCourse | frontend/src/components/AdminDashboard.js:188-192 | nothing is being edited, the instructors are emptied and the form reset |
| AdminDashboard.AdminView.BeginUpdateCourse | frontend/src/components/AdminDashboard.js:228-241 | nothing is sent iff no course is open; otherwise its id and `UpdatePatch` of the form, with loading started |
| AdminDashboard.AdminView.FinishUpdateCourse | frontend/src/components/AdminDashboard.js:242-252 | on success the editor closes and the courses and dashboard counts are fetched again; otherwise it stays as it was and nothing is fetched; loading ends |
| InstructorDashboard.CardCount | frontend/src/components/InstructorDashboard.js:415 | a card counts its enrolled number, or 0 when missing |
| InstructorDashboard.TotalStudents | frontend/src/components/InstructorDashboard.js:415 | the total equals the `reduce`'s left-to-right accumulation: the total of all but the last card plus the last card's count |
| InstructorDashboard.TotalStudentsAppend | frontend/src/components/InstructorDashboard.js:415 | the total over two lists of cards is the sum of their totals |
| InstructorDashboard.TotalCoversEachCard | frontend/src/components/InstructorDashboard.js:415 | with non-negative counts the total is at least each card's count |
| InstructorDashboard.TotalNonNegative | frontend/src/components/InstructorDashboard.js:415 | with non-negative counts the total is non-negative |
| InstructorDashboard.GradeableStudents | frontend/src/components/InstructorDashboard.js:672 | never more students than given |
| InstructorDashboard.GradeableIff | frontend/src/components/InstructorDashboard.js:672 | a student can be picked for grading iff their status is ongoing or completed |
| InstructorDashboard.EmailsOf | frontend/src/components/InstructorDashboard.js:326 | never more addresses than students, and none empty |
| InstructorDashboard.EmailsOfIff | frontend/src/components/InstructorDashboard.js:326 | an address is collected iff it is non-empty and some student has it |
| InstructorDashboard.NoEmailsIff | frontend/src/components/InstructorDashboard.js:326-330 | no address is collected iff no student has a truthy email |
| InstructorDashboard.EmailPlanOf | frontend/src/components/InstructorDashboard.js:320-344 | the no-students alert iff there are none; the no-emails alert iff none has an email; otherwise compose to the comma-joined, non-empty address list |
| InstructorDashboard.CourseIdToUse | frontend/src/components/InstructorDashboard.js:184-247 | the open course if any, else the form's course if truthy, else nothing |
| InstructorDashboard.MaxMarksOf | frontend/src/components/InstructorDashboard.js:258 | never 0; a non-number or 0 falls back to 20, any other number is kept |
| InstructorDashboard.MaxMarksRoundTrip | frontend/src/components/InstructorDashboard.js:258 | the text of n sends n, except 0, which sends 20 |
| InstructorDashboard.ModuleNumberSent | frontend/src/components/InstructorDashboard.js:190 | a number is sent iff the text parses; NaN is sent as null |
| InstructorDashboard.ModuleNumberGiven | frontend/src/components/InstructorDashboard.js:190 | the text of a non-zero number passes the endpoint's module-number check |
| InstructorDashboard.ContentModuleSent | frontend/src/components/InstructorDashboard.js:527 | a number is sent iff a module was chosen and its value parsed; it is the parsed number |
| InstructorDashboard.ContentModuleGiven | frontend/src/components/InstructorDashboard.js:527-529 | choosing a listed module, whose option value is its number, sends that number as a given one |
| InstructorDashboard.SubmissionMarksAsWritten | frontend/src/components/InstructorDashboard.js:275 | as written, marks are sent as null exactly when the text does not parse |
| InstructorDashboard.EmptyMarksRefusedAsWritten | frontend/src/components/InstructorDashboard.js:275 | an empty marks box is sent as null and the endpoint then refuses the request |
| InstructorDashboard.SubmissionMarks | frontend/src/components/InstructorDashboard.js:275 | marks are always sent; a non-number becomes 0 and a number is kept |
| InstructorDashboard.SubmissionMarksGiven | frontend/src/components/InstructorDashboard.js:275 | every marks text passes the endpoint's required-fields check, and the text of n sends n |
| InstructorDashboard.InstructorView.constructor | frontend/src/components/InstructorDashboard.js:8-26 | the dashboard tab, no course, empty lists and the blank forms |
| InstructorDashboard.InstructorView.OpenCourse | frontend/src/components/InstructorDashboard.js:430 | the course is open on the announcements tab, and its students, modules, announcements and assignments are loaded |
| InstructorDashboard.InstructorView.BackToCourses | frontend/src/components/InstructorDashboard.js:448 | the course view is closed and every course list emptied |
| InstructorDashboard.InstructorView.ShowMyCourses | frontend/src/components/InstructorDashboard.js:357 | the courses tab with no course open |
| InstructorDashboard.InstructorView.ReceiveStudents | frontend/src/components/InstructorDashboard.js:89-99 | a successful answer replaces the students; otherwise they are kept |
| InstructorDashboard.InstructorView.ReceiveAssignments | frontend/src/components/InstructorDashboard.js:227-234 | a successful answer replaces the assignments; otherwise they are kept |
| InstructorDashboard.InstructorView.HandleGradeStudent | frontend/src/components/InstructorDashboard.js:130-154 | nothing is sent iff no course is open; otherwise the form for that course; on success the form is reset and students and dashboard reloaded |
| InstructorDashboard.InstructorView.HandleCreateModule | frontend/src/components/InstructorDashboard.js:182-202 | sent to `CourseIdToUse` with the parsed number; on success the form is reset and the modules reloaded |
| InstructorDashboard.InstructorView.HandleAddContent | frontend/src/components/InstructorDashboard.js:204-225 | sent to `CourseIdToUse` with the chosen module; on success the form is reset and the modules reloaded |
| InstructorDashboard.InstructorView.HandleCreateAssignment | frontend/src/components/InstructorDashboard.js:245-270 | sent to `CourseIdToUse` with `MaxMarksOf` the box and an empty due date as null; on success the form is reset and assignments and dashboard reloaded |
| InstructorDashboard.InstructorView.OpenSubmissions | frontend/src/components/InstructorDashboard.js:598 | the assignment is selected and its submissions loaded |
| InstructorDashboard.InstructorView.CloseSubmissions | frontend/src/components/InstructorDashboard.js:607 | no assignment is selected and the submissions are emptied |
| InstructorDashboard.InstructorView.ReceiveSubmissions | frontend/src/components/InstructorDashboard.js:236-243 | a successful answer replaces the submissions; otherwise they are kept |
| InstructorDashboard.InstructorView.HandleGradeSubmission | frontend/src/components/InstructorDashboard.js:272-286 | sends the submission with `SubmissionMarks` of the box and the feedback; on success the selected assignment's submissions are reloaded |
| AnalystDashboard.CountStatus | app.py:2127-2134 | never more than the number of enrolments |
| AnalystDashboard.StatsOf | app.py:2127-2134 | enrolled is the number of statuses other than dropped, completed and ongoing the number of each; the grade distribution is passed through |
| AnalystDashboard.CountMatching | app.py:2130-2131 | a `FILTER (WHERE status = v)` count is the number of occurrences of `v` |
| AnalystDashboard.CountOthers | app.py:2129 | a `FILTER (WHERE status != v)` count is the number of rows minus the occurrences of `v` |
| AnalystDashboard.StatsOrdered | app.py:2127-2150 | completed plus ongoing never exceed enrolled (not dropped), which never exceeds the enrolments |
| AnalystDashboard.ValidatePostInsight | frontend/src/components/AnalystDashboard.js:81-84 | an insight can be posted iff a course and a title are given |
| AnalystDashboard.ChartData | frontend/src/components/AnalystDashboard.js:85-94 | the grade distribution when that chart is chosen and non-empty; the three status bars with their colours for the status chart; null for every other case; never an empty chart |
| AnalystDashboard.StatusChartOrdered | frontend/src/components/AnalystDashboard.js:88-94 | the completed and ongoing bars of a course's chart never add up to more than the enrolled bar |
| AnalystDashboard.CourseLoads | frontend/src/components/AnalystDashboard.js:288-294 | choosing a course loads its stats and posted insights; choosing none loads nothing |
| AnalystDashboard.AnalystView.constructor | frontend/src/components/AnalystDashboard.js:28-36 | no course, no stats, the blank insight form and no posted insights |
| AnalystDashboard.AnalystView.ChooseCourse | frontend/src/components/AnalystDashboard.js:285-294 | the form and selection take the course; none chosen clears stats and insights |
| AnalystDashboard.AnalystView.ReceiveCourseStats | frontend/src/components/AnalystDashboard.js:59-67 | success sets the stats, a thrown call clears them, an unsuccessful answer keeps them |
| AnalystDashboard.AnalystView.ReceivePostedInsights | frontend/src/components/AnalystDashboard.js:69-77 | success sets the insights, a thrown call empties them, an unsuccessful answer keeps them |
| AnalystDashboard.AnalystView.HandlePostInsight | frontend/src/components/AnalystDashboard.js:79-115 | nothing is sent unless course and title are given; otherwise the form with `ChartData`; on success the form, stats and selection are reset and the insights and overview reloaded |

## Left out

- Supabase Auth and the HTTP calls to it are left out. Their outcome is a parameter (`AuthOutcome`, `SignupAuth`).
- The orphan-user retry of signup is left out. `SignupAuth` stands for the identity provider's final answer, after any retry.
- Database failures are left out: connection errors, foreign-key violations and the 500 answers they produce. The one exception is the fallback signup's duplicate id, which is modelled.
- SQL `ORDER BY` clauses are left out, except in the student modules query. Listings are sequences in whatever order the caller gives.
- Listing endpoints that only read and reshape rows are not modelled separately: my courses, profiles, instructors, assignments, submissions, announcements and the analyst overview. Their row shapes appear where a dashboard consumes them.
- Announcements are left out: creating them and listing them for instructors and students. They are CRUD with no rule beyond the `teaches` and enrolment checks modelled elsewhere.
- `delete_student`, `delete_course`, `remove_course_instructor` and `get_course_instructors` are left out. Their AdminDashboard handlers (delete user, delete course, remove instructor, approve) only call them and reload.
- Universities are left out: their get-or-create, and the ranking columns. The model stores only the university's name on the course row.
- Python `int(hire_year)` is left out. A given, non-empty hire year is stored as its text.
- Floating point is left out. Fees are integers, `parseFloat` is read as `parseInt`, and `round(…, 1)` and `Math.round` in the percentages are omitted, so `Percent` is the exact ratio.
- JSON `null` and a missing key are not distinguished: both are `None`. Defaults such as `data.get("feedback", "")` therefore apply to both.
- `parseInt` is modelled for optional sign and decimal digits after leading whitespace. Hexadecimal prefixes and the radix argument are left out.
- Lower-casing and trimming cover ASCII only. They stand in for JavaScript's `toLowerCase`/`trim` and Python's `strip`. The trimmed characters are JavaScript's ASCII whitespace (space, tab, line feed, carriage return, vertical tab, form feed). Python's `strip`, used on the course title and university name in app.py, also removes the separators U+001C to U+001F; the model does not strip those four.
- HTML form validation (`required`, `min`, `type="url"`) is left out. The model handles what the handlers receive.
- `encodeURIComponent` and `window.open` are left out. The email plan ends at the comma-joined address list.
- `alert` and `confirm` dialogs are left out.
- Effect and request ordering are left out: mount effects, `loadData`, `Promise.all` and asynchronous interleaving. Each handler is one completed round trip, and the reloads it starts are returned as values.
- Profile viewing and editing on the dashboards, the body of `loadDashboardData` (its calls are returned as loads), and the dashboard cards that only display numbers are left out.
- Two handlers that only call the backend and reload are left out: the chart-type `<select>` of AnalystDashboard.js (lines 317-323), which stores the type and reloads the course stats, and `handleRemoveStudent` of InstructorDashboard.js, which confirms, calls `remove_student` (modelled as `Backend.Database.RemoveStudent`) and reloads.
- The ids the database generates for content, assignments and submissions are UUIDs that app.py returns as text (app.py:1500, 1555, 1785). The model draws them as fresh naturals from counters, so they are also numbered in insertion order. The join's `ORDER BY m.module_number, mc.content_id` (app.py:1890) is modelled on those numbers: within a module, content rows come in insertion order, which UUIDs do not promise. Where a handler tests such an id for truthiness (`GivenNumber`), id 0 stands for the falsy empty string, which a generated id never is.
- The grade-distribution query and grouping of the analyst stats are left out. Only the three status counts are modelled (`StatsOf`), and the distribution is a parameter.
- The first `data-theme` effect of ThemeContext.js (lines 10-13) is left out. It writes the same value as the persistence effect.
- ThemeToggle.js and the API service module are not part of this model. They only forward to the store and to HTTP.
- Backend.Database.StudentTotals: the bound `obtained <= possible` is proved only when every maximum is non-negative. The schema check on `max_marks` is not part of this model.
- Backend.Database.GetStudentCourseModules: the joined rows are a parameter constrained by `IsJoin`, not computed from the tables. `IsJoin` states what the LEFT JOIN and its ORDER BY return, so any rows it admits are the query's rows up to that description.
- AppShell.App.Restore: the stored user is an already-parsed value. A stored text that `JSON.parse` rejects, which throws in the mount effect, is not modelled.
- Theme.ToggleTwice: a stored name other than bright or dark is not restored by two toggles. It ends up dark, as the code does.
- InstructorDashboard.InstructorView.HandleGradeSubmission: it uses the corrected `SubmissionMarks`, not the code as written (see Findings).

## Findings

| source | as written | input that shows it | evidently intended | confidence | as-written member | corrected member |
|---|---|---|---|---|---|---|
| frontend/src/components/InstructorDashboard.js:275 | `parseInt(form.marks?.value) ?? 0` — `??` replaces only null/undefined, never NaN | an empty marks box: `parseInt("")` is NaN, JSON sends it as null, and `grade_submission` answers 400 "instructor_id, submission_id, and marks_obtained are required" | an unparsable box falls back to 0 marks | not executed | InstructorDashboard.EmptyMarksRefusedAsWritten | InstructorDashboard.SubmissionMarksGiven |
