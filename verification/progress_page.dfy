/** The progress tracker: the same score as the dashboard, a combined
    completion percentage, and one status label per lesson and per project. */
module ProgressPage {
  import opened LessonTypes
  import opened ProjectTypes
  import opened Wrappers
  import LessonProgressStore
  import ParticipationStore
  import opened Metrics
  import UserDashboard

  datatype LessonRow = CompletedWithScore(score: int) | NotCompleted

  datatype ProjectRow = RowCompleted | RowInProgress | NotStarted

  /** "Completed (score%)" when the lesson's record is completed, "Not
      completed" otherwise. */
  function LessonRowFor(progress: seq<LessonProgress>, lessonId: string): (r: LessonRow)
    ensures r.CompletedWithScore? <==> LessonProgressStore.IsLessonCompleted(progress, lessonId)
    ensures r.CompletedWithScore? ==>
              LessonProgressStore.GetLessonProgress(progress, lessonId) == Some(LessonProgress(lessonId, true, r.score))
  {
    match LessonProgressStore.GetLessonProgress(progress, lessonId)
    case Some(rec) => if rec.completed then CompletedWithScore(rec.score) else NotCompleted
    case None => NotCompleted
  }

  /** "Completed", "In progress", or "Not started" when there is no record. */
  function ProjectRowFor(parts: seq<ProjectParticipation>, projectId: string): (r: ProjectRow)
    ensures r == RowCompleted <==> ParticipationStore.StatusOf(parts, projectId) == Completed
    ensures r == RowInProgress <==> ParticipationStore.StatusOf(parts, projectId) == InProgress
    ensures !ParticipationStore.HasRecordFor(parts, projectId) ==> r == NotStarted
  {
    match ParticipationStore.GetParticipationFor(parts, projectId)
    case Some(rec) =>
      if rec.status == Completed then RowCompleted
      else if rec.status == InProgress then RowInProgress
      else NotStarted
    case None => NotStarted
  }

  /** Completed lessons and projects over all lessons and projects, as a
      rounded percentage; 0 when both catalogues are empty. */
  function OverallPercent(lessonsCompleted: nat, projectsCompleted: nat, totalLessons: nat, totalProjects: nat): (r: nat)
    ensures totalLessons + totalProjects == 0 ==> r == 0
    ensures totalLessons + totalProjects > 0 ==>
              2 * (totalLessons + totalProjects) * r
              <= 200 * (lessonsCompleted + projectsCompleted) + (totalLessons + totalProjects)
              < 2 * (totalLessons + totalProjects) * (r + 1)
    ensures lessonsCompleted <= totalLessons && projectsCompleted <= totalProjects ==> r <= 100
  {
    Percent(lessonsCompleted + projectsCompleted, totalLessons + totalProjects)
  }

  datatype ProgressView = ProgressView(
    score: nat,
    overallPercent: nat,
    lessonRows: seq<LessonRow>,
    projectRows: seq<ProjectRow>)

  function Progress(lessons: seq<Lesson>, progress: seq<LessonProgress>,
                    projects: seq<Project>, parts: seq<ProjectParticipation>): (v: ProgressView)
    ensures |v.lessonRows| == |lessons|
    ensures forall i :: 0 <= i < |lessons| ==> v.lessonRows[i] == LessonRowFor(progress, lessons[i].id)
    ensures |v.projectRows| == |projects|
    ensures forall i :: 0 <= i < |projects| ==> v.projectRows[i] == ProjectRowFor(parts, projects[i].id)
    ensures v.score == SustainabilityScore(LessonProgressStore.CompletedCount(progress), ParticipationStore.CompletedCount(parts))
    ensures v.overallPercent
            == OverallPercent(LessonProgressStore.CompletedCount(progress), ParticipationStore.CompletedCount(parts), |lessons|, |projects|)
    ensures |lessons| + |projects| == 0 ==> v.overallPercent == 0
  {
    var lc := LessonProgressStore.CompletedCount(progress);
    var pc := ParticipationStore.CompletedCount(parts);
    ProgressView(
      SustainabilityScore(lc, pc),
      OverallPercent(lc, pc, |lessons|, |projects|),
      seq(|lessons|, i requires 0 <= i < |lessons| => LessonRowFor(progress, lessons[i].id)),
      seq(|projects|, i requires 0 <= i < |projects| => ProjectRowFor(parts, projects[i].id)))
  }

  /** The tracker and the dashboard show the same score. */
  lemma SameScoreAsDashboard(lessons: seq<Lesson>, progress: seq<LessonProgress>,
                             projects: seq<Project>, parts: seq<ProjectParticipation>)
    ensures Progress(lessons, progress, projects, parts).score
            == UserDashboard.Dashboard(lessons, progress, projects, parts).score
  {
  }
}
