/** The admin overview: catalogue sizes, the engagement count and the two
    completion rates. */
module AdminDashboard {
  import opened LessonTypes
  import opened ProjectTypes
  import opened ResourceTypes
  import LessonProgressStore
  import ParticipationStore
  import opened Metrics

  datatype AdminOverview = AdminOverview(
    lessonCount: nat,
    projectCount: nat,
    resourceCount: nat,
    totalInteractions: nat,
    lessonCompletionRate: nat,
    projectCompletionRate: nat)

  function Overview(lessons: seq<Lesson>, progress: seq<LessonProgress>,
                    projects: seq<Project>, parts: seq<ProjectParticipation>,
                    resources: seq<Resource>): (v: AdminOverview)
    ensures v.lessonCount == |lessons| && v.projectCount == |projects| && v.resourceCount == |resources|
    ensures v.totalInteractions
            == LessonProgressStore.CompletedCount(progress) + ParticipationStore.CompletedCount(parts)
    ensures v.totalInteractions <= |progress| + |parts|
    ensures v.lessonCompletionRate == Percent(LessonProgressStore.CompletedCount(progress), |lessons|)
    ensures v.projectCompletionRate == Percent(ParticipationStore.CompletedCount(parts), |projects|)
    ensures |lessons| == 0 ==> v.lessonCompletionRate == 0
    ensures |projects| == 0 ==> v.projectCompletionRate == 0
    ensures LessonProgressStore.CompletedCount(progress) <= |lessons| ==> v.lessonCompletionRate <= 100
    ensures ParticipationStore.CompletedCount(parts) <= |projects| ==> v.projectCompletionRate <= 100
  {
    var lc := LessonProgressStore.CompletedCount(progress);
    var pc := ParticipationStore.CompletedCount(parts);
    AdminOverview(|lessons|, |projects|, |resources|, lc + pc, Percent(lc, |lessons|), Percent(pc, |projects|))
  }

  /** The engagement count brackets the student's score: every interaction is
      worth between ten and twenty-five points. */
  lemma InteractionsBracketScore(lessons: seq<Lesson>, progress: seq<LessonProgress>,
                                 projects: seq<Project>, parts: seq<ProjectParticipation>,
                                 resources: seq<Resource>)
    ensures var v := Overview(lessons, progress, projects, parts, resources);
            var score := SustainabilityScore(LessonProgressStore.CompletedCount(progress), ParticipationStore.CompletedCount(parts));
            10 * v.totalInteractions <= score <= 25 * v.totalInteractions
  {
  }
}
