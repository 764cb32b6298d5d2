/** The admin project page: participation totals, per-project counts, and a
    draft form whose submission stores nothing. */
module AdminProjects {
  import opened ProjectTypes
  import ParticipationStore

  /** Records for the project, whatever their status
      (`participation.filter(p => p.projectId === project.id).length`). */
  function ParticipantsFor(parts: seq<ProjectParticipation>, projectId: string): (n: nat)
    ensures n <= |parts|
    ensures n == 0 <==> !ParticipationStore.HasRecordFor(parts, projectId)
    ensures ParticipationStore.UniqueProjectIds(parts) ==> n <= 1
    decreases |parts|
  {
    if parts == [] then 0
    else
      var rest := ParticipantsFor(parts[1..], projectId);
      assert forall i :: 1 <= i < |parts| ==> parts[i] == parts[1..][i - 1];
      (if parts[0].projectId == projectId then 1 else 0) + rest
  }

  /** Completed records for the project. */
  function CompletedFor(parts: seq<ProjectParticipation>, projectId: string): (n: nat)
    ensures n <= ParticipantsFor(parts, projectId)
    ensures n == 0 <==> forall i :: 0 <= i < |parts| && parts[i].projectId == projectId ==> parts[i].status != Completed
    decreases |parts|
  {
    if parts == [] then 0
    else
      var rest := CompletedFor(parts[1..], projectId);
      assert forall i :: 1 <= i < |parts| ==> parts[i] == parts[1..][i - 1];
      (if parts[0].projectId == projectId && parts[0].status == Completed then 1 else 0) + rest
  }

  /** One more record adds one participant exactly when it is for the project,
      so the count is the number of matching records, repeats included. */
  lemma {:induction false} ParticipantsForAppend(parts: seq<ProjectParticipation>, rec: ProjectParticipation, projectId: string)
    ensures ParticipantsFor(parts + [rec], projectId) == ParticipantsFor(parts, projectId) + (if rec.projectId == projectId then 1 else 0)
    decreases |parts|
  {
    if parts != [] {
      assert (parts + [rec])[1..] == parts[1..] + [rec];
      ParticipantsForAppend(parts[1..], rec, projectId);
    }
  }

  /** One more record adds one completion exactly when it is a completed record
      for the project. */
  lemma {:induction false} CompletedForAppend(parts: seq<ProjectParticipation>, rec: ProjectParticipation, projectId: string)
    ensures CompletedFor(parts + [rec], projectId)
            == CompletedFor(parts, projectId) + (if rec.projectId == projectId && rec.status == Completed then 1 else 0)
    decreases |parts|
  {
    if parts != [] {
      assert (parts + [rec])[1..] == parts[1..] + [rec];
      CompletedForAppend(parts[1..], rec, projectId);
    }
  }

  datatype Totals = Totals(totalParticipants: nat, completedProjects: nat)

  /** The page footer: all participation records and the completed ones. */
  function PageTotals(parts: seq<ProjectParticipation>): (t: Totals)
    ensures t.totalParticipants == |parts|
    ensures t.completedProjects == ParticipationStore.CompletedCount(parts)
    ensures t.completedProjects <= t.totalParticipants
  {
    Totals(|parts|, ParticipationStore.CompletedCount(parts))
  }

  /** With unique project ids, a project has a completed record exactly when
      its status is completed. */
  lemma CompletedForMatchesStatus(parts: seq<ProjectParticipation>, projectId: string)
    requires ParticipationStore.UniqueProjectIds(parts)
    ensures CompletedFor(parts, projectId) == (if ParticipationStore.StatusOf(parts, projectId) == Completed then 1 else 0)
  {
    if ParticipationStore.HasRecordFor(parts, projectId) {
      var k := ParticipationStore.FindIndex(parts, projectId).value;
      assert forall i :: 0 <= i < |parts| && parts[i].projectId == projectId ==> i == k;
    }
  }

  datatype PageState = PageState(
    projects: seq<Project>,
    participation: seq<ProjectParticipation>,
    draftTitle: string,
    draftDescription: string)

  /** Saving a draft only clears the form: no project or participation
      record changes. */
  function SubmitDraft(page: PageState): (r: PageState)
    ensures r.projects == page.projects && r.participation == page.participation
    ensures r.draftTitle == "" && r.draftDescription == ""
  {
    page.(draftTitle := "", draftDescription := "")
  }
}
