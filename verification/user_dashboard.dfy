/** The student dashboard: completed counts, the sustainability score, the
    badges it unlocks, and two completion percentages. */
module UserDashboard {
  import opened LessonTypes
  import opened ProjectTypes
  import LessonProgressStore
  import ParticipationStore
  import opened Metrics

  datatype DashboardView = DashboardView(
    lessonsCompleted: nat,
    projectsCompleted: nat,
    totalLessons: nat,
    totalProjects: nat,
    score: nat,
    lessonPercent: nat,
    projectPercent: nat,
    badges: seq<Badge>)

  /** Everything the dashboard derives from the catalogues and the two stores.
      Only completed progress records and completed participation records count. */
  function Dashboard(lessons: seq<Lesson>, progress: seq<LessonProgress>,
                     projects: seq<Project>, parts: seq<ProjectParticipation>): (v: DashboardView)
    ensures v.lessonsCompleted == LessonProgressStore.CompletedCount(progress) <= |progress|
    ensures v.projectsCompleted == ParticipationStore.CompletedCount(parts) <= |parts|
    ensures v.totalLessons == |lessons| && v.totalProjects == |projects|
    ensures v.score == 10 * v.lessonsCompleted + 25 * v.projectsCompleted
    ensures v.badges == [] <==> v.score < 25
    ensures v.badges == Badges(v.score)
    ensures |lessons| == 0 ==> v.lessonPercent == 0
    ensures |projects| == 0 ==> v.projectPercent == 0
    ensures |lessons| > 0 ==>
              2 * |lessons| * v.lessonPercent <= 200 * v.lessonsCompleted + |lessons| < 2 * |lessons| * (v.lessonPercent + 1)
    ensures |projects| > 0 ==>
              2 * |projects| * v.projectPercent <= 200 * v.projectsCompleted + |projects| < 2 * |projects| * (v.projectPercent + 1)
  {
    var lc := LessonProgressStore.CompletedCount(progress);
    var pc := ParticipationStore.CompletedCount(parts);
    var score := SustainabilityScore(lc, pc);
    DashboardView(lc, pc, |lessons|, |projects|, score,
                  Percent(lc, |lessons|), Percent(pc, |projects|), Badges(score))
  }

  /** Submitting a quiz never lowers the score and never takes a badge away:
      the score rises by ten exactly when the lesson was not yet completed. */
  lemma QuizSubmissionNeverLowersScore(lessons: seq<Lesson>, progress: seq<LessonProgress>,
                                       projects: seq<Project>, parts: seq<ProjectParticipation>,
                                       lessonId: string, quizScore: int)
    requires LessonProgressStore.UniqueLessonIds(progress)
    ensures var before := Dashboard(lessons, progress, projects, parts);
            var after := Dashboard(lessons, LessonProgressStore.MarkLessonCompleted(progress, lessonId, quizScore), projects, parts);
            && after.score == before.score + (if LessonProgressStore.IsLessonCompleted(progress, lessonId) then 0 else 10)
            && before.badges <= after.badges
  {
    LessonProgressStore.MarkCompletedCount(progress, lessonId, quizScore);
    var before := Dashboard(lessons, progress, projects, parts);
    var after := Dashboard(lessons, LessonProgressStore.MarkLessonCompleted(progress, lessonId, quizScore), projects, parts);
    BadgesMonotone(before.score, after.score);
  }

  /** Joining a project leaves the score alone; submitting proof raises it by
      twenty-five exactly when the project was not yet completed. */
  lemma ProjectActionNeverLowersScore(lessons: seq<Lesson>, progress: seq<LessonProgress>,
                                      projects: seq<Project>, parts: seq<ProjectParticipation>,
                                      a: ParticipationStore.Action)
    requires ParticipationStore.UniqueProjectIds(parts)
    ensures var before := Dashboard(lessons, progress, projects, parts);
            var after := Dashboard(lessons, progress, projects, ParticipationStore.Apply(parts, a));
            && after.score == before.score +
                 (if a.Submit? && ParticipationStore.StatusOf(parts, a.projectId) != Completed then 25 else 0)
            && before.badges <= after.badges
  {
    ParticipationStore.ApplyCompletedCount(parts, a);
    var before := Dashboard(lessons, progress, projects, parts);
    var after := Dashboard(lessons, progress, projects, ParticipationStore.Apply(parts, a));
    BadgesMonotone(before.score, after.score);
  }
}
