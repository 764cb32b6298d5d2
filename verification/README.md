# Sustainable Living Lab — a verified model of the app's core

Sustainable Living Lab is a browser app for learning about sustainable living.
Students read lessons and answer a short quiz on each. They join hands-on
projects and submit a written reflection to complete them, and they browse a
resource library. A student dashboard and a progress tracker turn these
activities into completion percentages, a sustainability score and badges.
Administrators get an overview of engagement and per-project participation.
Sign-in, sign-up and role-based route guards decide who sees which page.

This project models that core as immutable datatypes and pure state
transformers in Dafny, and proves what each operation guarantees:

- **Lesson progress** (`LessonProgressStore`). An upsert keyed by lesson id
  where the last submission wins. Also the lookup and the completed count.
- **Project participation** (`ParticipationStore`). `joinProject` inserts only
  when absent. `submitProjectProof` is an upsert that completes the project.
  The status machine (not joined → in progress → completed) is stated over
  any run of actions.
- **Catalogue filters** (`Search`, `ResourceFilter`, `LessonsList`). A category
  test combined with a trimmed, case-insensitive substring search over a fixed
  set of fields. The result keeps catalogue order.
- **Quiz grading** (`LessonQuiz`). Counting answers that match the first
  correct option, the rounded 0–100 score, recording it, and the feedback tier.
- **Derived metrics** (`Metrics`, `UserDashboard`, `ProgressPage`,
  `AdminDashboard`, `AdminProjects`). The score, nested badges, completion
  percentages guarded against empty catalogues, and per-project aggregates.
- **Pages that drive the stores** (`ProjectsPage`). The reflection form's
  guard and trimming, the derived "not joined" status, and join enablement.
- **Authentication and routing** (`Auth`, `Router`). The single resident user,
  with login, register and logout. The `ProtectedRoute` decision and the
  route table.
- **Small utilities** (`Toasts`, `FormControls`, `Text`). The toast queue, the
  form-control id derivation, and ASCII models of `toLowerCase`, `trim`,
  `includes` and the `\s+` → `-` replacement.
- **Seed catalogue** (`SeedCatalogue`, `SeedData`, `SeedFacts`,
  `SeedScenarios`):
  - The shipped lessons, projects, resources and account.
  - Their well-formedness facts: unique ids, and quizzes that are non-empty
    with exactly one correct option per question.
  - Worked scenarios across the whole model.

The catalogue builders in `SeedCatalogue` take the display text (titles,
descriptions, question labels, URLs) as a `Prose` parameter. The shipped text
is the constant `SeedData.Shipped`. The ids, categories, difficulties and
correct answers are fixed in the builders. So every structural fact about the
seed data holds for whatever text is displayed.

Values the app obtains from the clock, from `Math.random` or from `btoa` are
parameters:

- the `joinedAt` and `completedAt` timestamps;
- the account's `createdAt`;
- the generated user and toast ids;
- the session token.

## Model

| member | source | states |
|---|---|---|
| LessonProgressStore.GetLessonProgress | src/hooks/useLessons.ts:41-42 | the lookup is none exactly when no record carries the lesson id, and otherwise it is the first record carrying it |
| LessonProgressStore.GetUnique | src/hooks/useLessons.ts:41-42 | with unique lesson ids, the lookup returns a record exactly when that record is in the list under that id |
| LessonProgressStore.MarkLessonCompleted | src/hooks/useLessons.ts:29-39 | with no record for the lesson, exactly one completed record with the score is appended at the end; with one, the length is kept, every record for the lesson becomes completed with the new score, and every other record keeps its place and value |
| LessonProgressStore.MarkPreservesUniqueness | src/hooks/useLessons.ts:31-37 | marking keeps lesson ids unique |
| LessonProgressStore.MarkThenGet | src/hooks/useLessons.ts:29-42 | after marking, the lookup for that lesson yields a completed record with exactly the new score |
| LessonProgressStore.MarkOthersUnaffected | src/hooks/useLessons.ts:33-35 | marking one lesson leaves the lookup of every other lesson unchanged |
| LessonProgressStore.MarkNeverUncompletes | src/hooks/useLessons.ts:34 | after marking, a record is completed iff it was completed before or belongs to the marked lesson, so nothing goes back to not completed |
| LessonProgressStore.MarkTwiceLastWins | src/hooks/useLessons.ts:31-35 | two submissions for the same lesson leave one record holding the second score, keep the length and keep ids unique |
| LessonProgressStore.MarkCanLowerScore | src/hooks/useLessons.ts:34 | a 40 submitted after a 90 replaces it, so no maximum is kept |
| LessonProgressStore.CompletedCount | src/features/dashboard/UserDashboard.tsx:25 | the completed count is at most the list length, and zero iff no record is completed |
| LessonProgressStore.MarkCompletedCount | src/hooks/useLessons.ts:29-39 | with unique ids, a submission raises the completed count by one exactly when the lesson was not yet completed |
| ParticipationStore.GetParticipationFor | src/hooks/useProjects.ts:69-70 | the lookup is none exactly when no record carries the project id, and otherwise it is the first record carrying it |
| ParticipationStore.StatusOf | src/features/projects/ProjectsPage.tsx:70-71 | a project without a record shows as not joined, and one with a record shows the status of its first record; in a valid list, not joined happens only for projects without a record |
| ParticipationStore.CompletedCount | src/features/dashboard/ProgressPage.tsx:15 | the completed count is at most the list length, and zero iff no record is completed |
| ParticipationStore.JoinProject | src/hooks/useProjects.ts:26-39 | joining a project that has a record returns the list unchanged; otherwise exactly one in-progress record with the join time and no proof or completion time is appended |
| ParticipationStore.SubmitProjectProof | src/hooks/useProjects.ts:41-67 | with no record, one completed record carrying the proof and both times is appended; otherwise the length, every project id and every join time are kept, records of other projects are untouched, and the project's records become completed with the new proof and completion time |
| ParticipationStore.JoinIdempotent | src/hooks/useProjects.ts:28-29 | joining a second time changes nothing, whatever the clock says |
| ParticipationStore.JoinThenGet | src/hooks/useProjects.ts:26-39 | after joining, the project's record is the old one if it had one (a completed project is not reset) and a fresh in-progress record otherwise; other projects read back as before |
| ParticipationStore.SubmitThenGet | src/hooks/useProjects.ts:41-67 | after a submission, the project reads back completed with the new proof and completion time, keeps an earlier join time, and other projects read back as before |
| ParticipationStore.JoinPreservesValid | src/hooks/useProjects.ts:26-39 | joining keeps project ids unique and every record well formed |
| ParticipationStore.SubmitPreservesValid | src/hooks/useProjects.ts:41-67 | submitting keeps project ids unique and every record well formed |
| ParticipationStore.ApplyStatus | src/hooks/useProjects.ts:26-67 | one action changes only its own project's status: submitting completes it, joining starts it only when absent; every change is an allowed move |
| ParticipationStore.ApplyAllKeepsInvariant | src/hooks/useProjects.ts:26-67 | over any run of joins and submissions the list stays valid and a completed project stays completed |
| ParticipationStore.ApplyCompletedCount | src/hooks/useProjects.ts:26-67 | with unique ids, joining leaves the completed count alone and submitting raises it by one exactly when the project was not yet completed |
| Search.SearchKey | src/hooks/useResources.ts:25 | the searched term is the typed text with its leading and trailing whitespace removed, lower-cased: it has no capitals, is empty iff the typed text is all whitespace, and does not start or end with whitespace |
| Search.FieldsMatchIff | src/hooks/useResources.ts:30-33 | the search matches iff the term is empty or some lower-cased searched field contains it |
| Search.TrimLower | src/hooks/useResources.ts:25 | trimming and lower-casing commute |
| Search.SearchKeyIgnoresCase | src/features/lessons/LessonsListPage.tsx:17 | lower-casing the typed text first yields the same term |
| Search.SearchKeyIgnoresPadding | src/features/lessons/LessonsListPage.tsx:17 | trimming the typed text first yields the same term |
| ResourceFilter.FilteredResources | src/hooks/useResources.ts:24-36 | the result is an order-preserving subsequence of the catalogue holding exactly the resources that pass both tests, each as many times as it occurs in the catalogue |
| ResourceFilter.KeepIff | src/hooks/useResources.ts:26-34 | a resource passes iff the category is "All" or equal to its own, and the term is empty or occurs in its lower-cased title, description or source |
| ResourceFilter.InitialFiltersKeepAll | src/hooks/useResources.ts:19-22 | the starting filters (empty search, "All") list the whole catalogue in order |
| ResourceFilter.BlankSearchIsCategoryOnly | src/hooks/useResources.ts:30 | an all-whitespace search filters exactly like an empty one |
| ResourceFilter.OnlyCategoryListed | src/hooks/useResources.ts:27-28 | choosing one category lists only resources of that category |
| ResourceFilter.SearchIgnoresCaseAndPadding | src/hooks/useResources.ts:25 | the listed resources do not depend on the case of the typed text or whitespace around it |
| ResourceFilter.UrlAndIdNotSearched | src/hooks/useResources.ts:31-33 | a resource's url and id play no part in whether it is listed |
| ResourceFilter.SameKeepSameList | src/hooks/useResources.ts:24-36 | the list depends only on the catalogue and on which resources the filters accept |
| LessonsList.FilteredLessons | src/features/lessons/LessonsListPage.tsx:15-23 | the result is an order-preserving subsequence of the library holding exactly the lessons that pass both tests, each as many times as it occurs in the library |
| LessonsList.KeepIff | src/features/lessons/LessonsListPage.tsx:16-22 | a lesson passes iff the category is "All" or names its category, and the term is empty or occurs in its lower-cased title or short description |
| LessonsList.ContentNotSearched | src/features/lessons/LessonsListPage.tsx:20-21 | the lesson content plays no part in whether it is listed |
| LessonsList.UnfilteredKeepsAll | src/features/lessons/LessonsListPage.tsx:16-19 | with "All" and a blank search the whole library is listed in order |
| LessonsList.OnlyCategoryListed | src/features/lessons/LessonsListPage.tsx:16 | a category other than "All" lists only lessons of that category |
| LessonsList.CompletedBadgeIff | src/features/lessons/LessonsListPage.tsx:81-82 | with unique lesson ids, the badge reads "Completed" iff a completed record exists for the lesson |
| LessonQuiz.CorrectOption | src/features/lessons/LessonDetailPage.tsx:41 | none iff no option is flagged correct, otherwise the first flagged option |
| LessonQuiz.CorrectCount | src/features/lessons/LessonDetailPage.tsx:38-45 | the count is at most the number of questions, equals it iff every question is answered correctly, and is zero iff none is |
| LessonQuiz.CorrectCountAppend | src/features/lessons/LessonDetailPage.tsx:38-45 | one more question adds one to the count exactly when its chosen option is the correct one |
| LessonQuiz.QuizScore | src/features/lessons/LessonDetailPage.tsx:46 | the score is the nearest integer to correct·100/questions, halves rounded up; it is at most 100, is 100 iff at most 0.5% of the questions are missed, and is 0 iff under 0.5% are right |
| LessonQuiz.AllCorrectIsPerfect | src/features/lessons/LessonDetailPage.tsx:38-46 | answering every question correctly gives 100 |
| LessonQuiz.PerfectMeansAllCorrect | src/features/lessons/LessonDetailPage.tsx:38-46 | on quizzes of fewer than 200 questions, 100 means every question is answered correctly |
| LessonQuiz.FeedbackFor | src/features/lessons/LessonDetailPage.tsx:49-55 | 100 is perfect, 60 to 99 passes, below 60 asks to keep going |
| LessonQuiz.RecordScore | src/features/lessons/LessonDetailPage.tsx:47 | after recording, the lesson reads back completed with exactly that score, others read back as before, and ids stay unique |
| LessonQuiz.SubmitQuiz | src/features/lessons/LessonDetailPage.tsx:36-56 | the submission's score is the rounded percentage of correct answers; the lesson is recorded as completed with it even when it is 0; other lessons are unaffected; the feedback is perfect iff 100 and keep going iff below 60 |
| LessonQuiz.HandleAnswerChange | src/features/lessons/LessonDetailPage.tsx:58-60 | the answer map gains the question, holds the new option for it, and keeps every other answer |
| LessonQuiz.AnswerChangeIsLocal | src/features/lessons/LessonDetailPage.tsx:58-60 | changing one answer does not change whether any other question is answered correctly |
| LessonQuiz.SelectingCorrectOption | src/features/lessons/LessonDetailPage.tsx:40-44 | selecting the first correct option, when its id is non-empty, answers the question correctly |
| Metrics.RoundHalfUp | src/features/dashboard/UserDashboard.tsx:31-36 | the result is the nearest integer to a/b, halves rounded up |
| Metrics.PercentExtremes | src/features/dashboard/UserDashboard.tsx:31-36 | a rounded percentage of a part of a whole is at most 100, is 100 iff the shortfall is at most 0.5% of the whole, and is 0 iff the part is under 0.5% of it |
| Metrics.Percent | src/features/dashboard/UserDashboard.tsx:31-36 | 0 for an empty catalogue, otherwise the rounded percentage; at most 100 when done ≤ total, 100 when everything is done, 0 when nothing is |
| Metrics.SustainabilityScore | src/features/dashboard/UserDashboard.tsx:10-11 | the score is zero iff both counts are zero, is a multiple of five, and is at least ten per lesson and twenty-five per project |
| Metrics.ScoreMonotone | src/features/dashboard/UserDashboard.tsx:10-11 | the score never decreases when either count grows |
| Metrics.Badges | src/features/dashboard/UserDashboard.tsx:13-19 | a badge is earned iff the score reaches its threshold; the earned badges are a prefix of the display order, so they are nested; none iff the score is below 25 |
| Metrics.BadgesMonotone | src/features/dashboard/UserDashboard.tsx:13-19 | a higher score keeps every badge of a lower one |
| UserDashboard.Dashboard | src/features/dashboard/UserDashboard.tsx:21-38 | only completed records are counted; the score is 10 per lesson and 25 per project; the badges are those the score earns, none iff it is below 25; each percentage is 0 for an empty catalogue and otherwise the rounded share |
| UserDashboard.QuizSubmissionNeverLowersScore | src/features/dashboard/UserDashboard.tsx:25-38 | a quiz submission raises the score by 10 exactly when the lesson was not yet completed, and never takes a badge away |
| UserDashboard.ProjectActionNeverLowersScore | src/features/dashboard/UserDashboard.tsx:25-38 | joining leaves the score alone, submitting raises it by 25 exactly when the project was not yet completed, and no badge is lost |
| ProgressPage.LessonRowFor | src/features/dashboard/ProgressPage.tsx:85-95 | a lesson row shows "Completed (score%)" iff the lesson's record is completed, with that record's score, and "Not completed" otherwise |
| ProgressPage.ProjectRowFor | src/features/dashboard/ProgressPage.tsx:115-129 | a project row is "Completed" iff the project is completed, "In progress" iff in progress, and "Not started" without a record |
| ProgressPage.OverallPercent | src/features/dashboard/ProgressPage.tsx:21-26 | 0 when there are no lessons and no projects, otherwise the rounded share of completions; at most 100 when counts do not exceed totals |
| ProgressPage.Progress | src/features/dashboard/ProgressPage.tsx:10-26 | one row per lesson and per project, in catalogue order, each derived from its own records; the score is 10 per completed lesson plus 25 per completed project, and the overall percentage is the rounded share of all completions over all lessons and projects |
| ProgressPage.SameScoreAsDashboard | src/features/dashboard/ProgressPage.tsx:7-8 | the tracker and the dashboard always show the same score |
| AdminDashboard.Overview | src/features/admin/AdminDashboardPage.tsx:14-24 | the interaction total is completed lessons plus completed projects; each rate is the rounded percentage of completed records over the catalogue size, 0 for an empty catalogue and at most 100 when the completions do not exceed it |
| AdminDashboard.InteractionsBracketScore | src/features/admin/AdminDashboardPage.tsx:17 | ten times the interaction total is at most the student's score, which is at most twenty-five times it |
| AdminProjects.ParticipantsFor | src/features/admin/AdminProjectsPage.tsx:52-54 | a project's participant count is 0 iff it has no record, and at most 1 when project ids are unique |
| AdminProjects.CompletedFor | src/features/admin/AdminProjectsPage.tsx:55-57 | a project's completed count is at most its participant count, and 0 iff none of its records is completed |
| AdminProjects.ParticipantsForAppend | src/features/admin/AdminProjectsPage.tsx:52-54 | one more record raises a project's participant count by one exactly when it is for that project, so the count is the number of its records, repeats included |
| AdminProjects.CompletedForAppend | src/features/admin/AdminProjectsPage.tsx:55-57 | one more record raises a project's completed count by one exactly when it is a completed record for that project |
| AdminProjects.PageTotals | src/features/admin/AdminProjectsPage.tsx:26-27 | the participant total counts every record whatever its status, and the completed total is at most it |
| AdminProjects.CompletedForMatchesStatus | src/features/admin/AdminProjectsPage.tsx:52-57 | with unique ids, a project's completed count is 1 iff the project is completed, and 0 otherwise |
| AdminProjects.SubmitDraft | src/features/admin/AdminProjectsPage.tsx:16-24 | submitting the draft clears both fields and changes no project or participation |
| ProjectsPage.JoinEnabledIffEffective | src/features/projects/ProjectsPage.tsx:103 | in a valid list, the join button is enabled exactly when joining would change the list |
| ProjectsPage.HandleSubmit | src/features/projects/ProjectsPage.tsx:22-30 | without an active project or with blank text nothing changes; otherwise the project is completed with the trimmed text, other projects are untouched, and the text box is cleared |
| ProjectsPage.StoredProofIsTrimmed | src/features/projects/ProjectsPage.tsx:24-26 | the reflection stored by a submission is non-empty and neither starts nor ends with whitespace |
| ProjectsPage.OpenReflection | src/features/projects/ProjectsPage.tsx:111-117 | opening the form makes the project active and pre-fills the saved reflection of the project's record when it has one, or "" when there is none |
| ProjectsPage.ReopenShowsSavedReflection | src/features/projects/ProjectsPage.tsx:22-30 | reopening after a submission shows the trimmed reflection just saved |
| Auth.FindUserByEmail | src/features/auth/AuthContext.tsx:31 | none iff no account's email equals the given one ignoring case, otherwise the first such account |
| Auth.Login | src/features/auth/AuthContext.tsx:28-41 | an unknown email fails and leaves the resident user as it was; otherwise the resident user is the first matching account with the new token and the account's role |
| Auth.LoginIgnoresCaseAndPassword | src/features/auth/AuthContext.tsx:28-31 | the outcome of a login does not depend on the password or on the case of the email |
| Auth.Register | src/features/auth/AuthContext.tsx:43-60 | registering fails iff a resident user has the same email ignoring case, leaving it unchanged; otherwise the resident user carries exactly the given name, email and role |
| Auth.RegisterTwiceFails | src/features/auth/AuthContext.tsx:44-47 | registering the same email twice, in any case, fails the second time |
| Auth.Logout | src/features/auth/AuthContext.tsx:62-64 | logout leaves no resident user |
| Auth.RegisterAfterLogoutSucceeds | src/features/auth/AuthContext.tsx:43-64 | after logout any email can be registered |
| Router.ProtectedRoute | src/app/router.tsx:25-42 | children render iff a user is present and is an admin exactly on admin routes; without a user the redirect is to /login, else to /dashboard on admin routes and to /admin on student routes |
| Router.FindRouteFirst | src/app/router.tsx:48-140 | the route table lookup is none iff no route matches the path, and otherwise the first matching route |
| Router.Navigate | src/app/router.tsx:48-140 | an unmatched path moves to "/", a public route shows its page, and a guarded route shows or redirects as the guard decides; whatever shows is the page of the first matching route, for that path |
| Router.NoDoubleRedirect | src/app/router.tsx:32-39 | every redirect target for a signed-in user shows a page for that user, so no second redirect happens |
| Router.RolesPartitionPages | src/app/router.tsx:55-134 | a signed-in user sees every public page, student pages iff a student, and admin pages iff an admin |
| Router.SignedOutSeesOnlyPublic | src/app/router.tsx:28-30 | without a user only public pages show; a matched guarded route moves to /login and an unknown path to "/" |
| Router.LessonLinkShowsLesson | src/app/router.tsx:71-77 | a student following /lessons/<id> sees that lesson |
| Toasts.ShowToast | src/components/ui/ToastProvider.tsx:28-30 | exactly one toast with the message is appended after the existing ones, of type "info" when none is given |
| Toasts.DismissToast | src/components/ui/ToastProvider.tsx:36-38 | every toast with the id is removed, the others are kept in order, and an absent id changes nothing |
| Toasts.ShowThenExpire | src/components/ui/ToastProvider.tsx:31-33 | the timed removal of a new toast has the same effect as dismissing its id from the queue before it was shown, so an older toast that shares the id is removed too |
| Toasts.DismissIdempotent | src/components/ui/ToastProvider.tsx:36-38 | dismissing the same id twice is dismissing it once |
| Toasts.UseToast | src/components/ui/ToastProvider.tsx:17-23 | outside a provider the hook fails, inside it returns the provider's value |
| FormControls.ControlId | src/components/ui/Select.tsx:9 | an explicit id is used even when empty, else the name, else the id derived from the label, which has no whitespace or capitals and is no longer than the label |
| FormControls.DerivedIdIsFixed | src/components/ui/Input.tsx:16 | deriving an id from a derived id changes nothing |
| FormControls.DerivedIdOfWord | src/components/ui/Input.tsx:16 | a label without whitespace derives its lower-cased self |
| FormControls.ControlIdRun | src/components/ui/Input.tsx:16 | without id or name, each maximal whitespace run of the label becomes exactly one "-" between the lower-cased word before it and the id of the rest |
| FormControls.LabelledControl | src/components/ui/Input.tsx:16-27 | the label's target and the control's id are the same id: the explicit id, else the name, else the id derived from the label, without whitespace or capitals |
| Text.ToLower | src/hooks/useResources.ts:25 | lower-casing keeps the length, folds each character, and leaves no capitals |
| Text.TrimIsStrip | src/hooks/useResources.ts:25 | trimming keeps a contiguous middle and removes only whitespace, and is empty iff the text is all whitespace |
| Text.TrimIdempotent | src/hooks/useResources.ts:25 | trimming twice is trimming once |
| Text.ContainsIff | src/hooks/useResources.ts:31-33 | `includes` holds iff the term occurs at some position |
| Text.Slug | src/components/ui/Input.tsx:16 | the label-derived id has no whitespace and no capitals, and a label without whitespace is only lower-cased |
| Text.SlugIdempotent | src/components/ui/Input.tsx:16 | deriving an id twice is deriving it once |
| Text.CollapseRun | src/components/ui/Input.tsx:16 | a maximal whitespace run after a word without whitespace becomes exactly one "-", the word is kept and the rest is collapsed in turn |
| Text.SlugRun | src/components/ui/Input.tsx:16 | in the derived id a maximal whitespace run becomes one "-" between the lower-cased word before it and the derived id of the rest |
| SeedFacts.SeedQuizzesWellFormed | src/services/mockData.ts:26-91 | every seed quiz is non-empty, has distinct question ids, and each question has exactly one option flagged correct |
| SeedFacts.QuestionHasOneCorrect | src/services/mockData.ts:30-35 | a seed question has exactly one correct option, and grading takes it as the right answer |
| SeedFacts.SeedIdsDistinct | src/services/mockData.ts:18-153 | lesson, project and resource ids are each unique within their catalogue |
| SeedFacts.SeedCategoriesListed | src/services/mockData.ts:155-159 | every lesson's category is offered by the category list, and the list offers all three categories |
| SeedFacts.SeedAdminOnly | src/services/mockData.ts:8-16 | there is exactly one seed account, the administrator with email admin@sustainability.edu |
| SeedFacts.SeedLessonsShape | src/services/mockData.ts:18-93 | the seed lessons are the renewable, waste and lifestyle lessons in that order, in their three categories, with quizzes of 2, 1 and 1 questions |
| SeedFacts.SeedProjectsShape | src/services/mockData.ts:95-126 | the seed projects are compost (intermediate), energy audit and plastic free (both beginner), in that order |
| SeedFacts.SeedResourcesShape | src/services/mockData.ts:128-153 | the seed resources are an article, a PDF and a website, in that order |
| SeedScenarios.AdminSignInScenario | src/features/auth/AuthContext.tsx:28-40 | signing in as Admin@Sustainability.EDU with any password gives the seed admin account |
| SeedScenarios.AdminSignInLandsOnAdmin | src/app/router.tsx:36-39 | the signed-in seed administrator is sent from the student dashboard to /admin |
| SeedScenarios.SeedPerfectQuiz | src/services/mockData.ts:26-51 | answering c and a on the first seed lesson scores 100, shows the perfect message and records the lesson completed with 100 |
| SeedScenarios.SeedEnergySearch | src/hooks/useResources.ts:24-36 | searching " Energy " in every category lists the energy checklist |

## Left out

- Storage: `loadFromStorage`, `saveToStorage` and the save-on-change effects are browser storage I/O. The stores start from whatever list they are given.
- React machinery: state hooks, memoisation, context plumbing and rendering are not modelled. Each state updater is a pure function from the old state to the new one.
- Clock, randomness and encoding: timestamps, generated ids and tokens are parameters. `submitProjectProof` reads the clock twice for a new record, so `joinedAt` and `completedAt` are two independent parameters and nothing equates them.
- Timers: the toast's four-second timer is modelled only by its effect, the same removal as `dismissToast` (`Toasts.ShowThenExpire`).
- Strings: `toLowerCase`, `trim` and `\s` are modelled on ASCII (A–Z folding; space, tab, newline, vertical tab, form feed, carriage return). Unicode case mapping and Unicode whitespace are not modelled.
- LessonQuiz.QuizScore: models `Math.round` of a floating-point quotient as exact round-half-up on integers. It requires a non-empty quiz because the app divides by zero (NaN) on an empty one. Every seed quiz is non-empty (`SeedFacts.SeedQuizzesWellFormed`).
- Metrics.Percent: models `Math.round` of the floating-point percentage on the dashboards (src/features/dashboard/UserDashboard.tsx:31-36, src/features/dashboard/ProgressPage.tsx:24-26, src/features/admin/AdminDashboardPage.tsx:19-24) as exact round-half-up on integers; floating-point error in the quotient is not modelled. `ProgressPage.OverallPercent` and `AdminDashboard.Overview` use it too.
- Auth.Register: the token is a parameter. The app builds it with `btoa(email)` (src/features/auth/AuthContext.tsx:17, 55), which throws on characters above U+00FF, so registering such an email fails with an exception in the app; the sign-up form's email field normally rejects them, and the model does not represent that failure.
- LessonQuiz.SubmitQuiz: requires a non-empty quiz, for the same reason as `LessonQuiz.QuizScore`; the app would record a NaN score for an empty one.
- LessonQuiz.SubmitQuiz: the toast texts of the three feedback tiers are carried by `Feedback.Message` but are not part of the contract.
- LessonQuiz.PerfectMeansAllCorrect: holds only for quizzes under 200 questions, because rounding makes 199 of 200 correct show as 100.
- Metrics.SustainabilityScore: its contract states the properties of the score; the exact formula 10·lessons + 25·projects is stated on `UserDashboard.Dashboard`.
- Router: path matching covers the exact paths of the table, `/lessons/<one non-empty segment>` for `/lessons/:id`, and the `*` fallback. It does not model trailing slashes, case-insensitive matching, URL decoding or React Router's ranking; the table has no overlapping routes, so first match equals best match.
- Router.Navigate: renders the decision, not the page components (`LandingPage`, `LoginPage`, the layout).
- Sign-in and sign-up forms (`LoginPage`, `RegisterPage`) are thin wrappers over `login` and `register` plus navigation and are not modelled separately.
- Presentation components (`Button`, `Badge`, `Card`, `ProgressBar` width clamping, `ErrorBoundary`, `MainLayout`, `Navbar`, `Sidebar`, `LandingPage`, the theme toggle) hold no application logic and are not modelled.
- Admin lesson and resource pages only clear draft fields, as the project page does (`AdminProjects.SubmitDraft`); they are not modelled separately.
- `Select` (src/components/ui/Select.tsx:9-20) derives and wires its id exactly as `Input` does, so `FormControls.LabelledControl` models both wrappers.
- `src/types/submission.ts` is unused by the app and is not part of this model.
- SeedData: the catalogue's display text is held as constants. The proven facts are stated for any display text (`Prose`), so they do not depend on the wording.
- The lesson library's help text says the highest quiz score is stored, but `markLessonCompleted` overwrites the score with the latest one. The model follows the code (`LessonProgressStore.MarkCanLowerScore`).
