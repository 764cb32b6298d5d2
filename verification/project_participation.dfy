/** The project-participation store: a list of participation records keyed by
    project id, with a join (insert if absent) and a proof submission (upsert
    that completes the project). */
module ParticipationStore {
  import opened Wrappers
  import opened ProjectTypes

  /** Some record in the list belongs to `projectId`. */
  ghost predicate HasRecordFor(parts: seq<ProjectParticipation>, projectId: string) {
    exists i :: 0 <= i < |parts| && parts[i].projectId == projectId
  }

  /** Position `i` holds the first record for `projectId`. */
  ghost predicate FirstFor(parts: seq<ProjectParticipation>, projectId: string, i: int) {
    && 0 <= i < |parts|
    && parts[i].projectId == projectId
    && forall j :: 0 <= j < i ==> parts[j].projectId != projectId
  }

  /** No two records share a project id. */
  ghost predicate UniqueProjectIds(parts: seq<ProjectParticipation>) {
    forall i, j :: 0 <= i < j < |parts| ==> parts[i].projectId != parts[j].projectId
  }

  /** A record the store can have written: never `not-joined`; in progress
      without proof or completion time; completed with both. */
  predicate WellFormedRecord(rec: ProjectParticipation) {
    match rec.status
    case NotJoined => false
    case InProgress => rec.submittedProof.None? && rec.completedAt.None?
    case Completed => rec.submittedProof.Some? && rec.completedAt.Some?
  }

  /** The invariant of the participation list. */
  ghost predicate Valid(parts: seq<ProjectParticipation>) {
    && UniqueProjectIds(parts)
    && forall i :: 0 <= i < |parts| ==> WellFormedRecord(parts[i])
  }

  /** Position of the first record for `projectId`, if any. */
  function FindIndex(parts: seq<ProjectParticipation>, projectId: string): (r: Option<nat>)
    ensures r.None? <==> !HasRecordFor(parts, projectId)
    ensures r.Some? ==> FirstFor(parts, projectId, r.value)
    decreases |parts|
  {
    if parts == [] then None
    else if parts[0].projectId == projectId then Some(0)
    else
      match FindIndex(parts[1..], projectId)
      case None => None
      case Some(i) => Some(i + 1)
  }

  /** `getParticipationFor`: the first record for `projectId`, or none. */
  function GetParticipationFor(parts: seq<ProjectParticipation>, projectId: string): (r: Option<ProjectParticipation>)
    ensures r.None? <==> !HasRecordFor(parts, projectId)
    ensures r.Some? ==> exists i :: FirstFor(parts, projectId, i) && parts[i] == r.value
  {
    match FindIndex(parts, projectId)
    case None => None
    case Some(i) => Some(parts[i])
  }

  /** The status a page shows for a project: that of its record, and
      `not-joined` when there is none (`participation?.status ?? "not-joined"`). */
  function StatusOf(parts: seq<ProjectParticipation>, projectId: string): (r: ProjectStatus)
    ensures !HasRecordFor(parts, projectId) ==> r == NotJoined
    ensures HasRecordFor(parts, projectId) ==> r == GetParticipationFor(parts, projectId).value.status
    ensures Valid(parts) ==> (r == NotJoined <==> !HasRecordFor(parts, projectId))
  {
    match GetParticipationFor(parts, projectId)
    case None => NotJoined
    case Some(rec) => rec.status
  }

  /** `joinProject`: appends an in-progress record when the project has none;
      otherwise the list is returned as it was. */
  function JoinProject(parts: seq<ProjectParticipation>, projectId: string, now: string): (r: seq<ProjectParticipation>)
    ensures HasRecordFor(parts, projectId) ==> r == parts
    ensures !HasRecordFor(parts, projectId) ==>
              r == parts + [ProjectParticipation(projectId, InProgress, None, now, None)]
  {
    if GetParticipationFor(parts, projectId).Some? then parts
    else parts + [ProjectParticipation(projectId, InProgress, None, now, None)]
  }

  /** `submitProjectProof`: completes the project with the given proof.  An
      existing record keeps its project id and join time; without one, a
      completed record is appended.  The two times come from two separate
      clock reads in the application. */
  function SubmitProjectProof(parts: seq<ProjectParticipation>, projectId: string, content: string,
                              joinedAt: string, completedAt: string): (r: seq<ProjectParticipation>)
    ensures HasRecordFor(parts, projectId) ==> |r| == |parts|
    ensures !HasRecordFor(parts, projectId) ==>
              r == parts + [ProjectParticipation(projectId, Completed, Some(content), joinedAt, Some(completedAt))]
    ensures forall i :: 0 <= i < |parts| ==>
              r[i].projectId == parts[i].projectId && r[i].joinedAt == parts[i].joinedAt
    ensures forall i :: 0 <= i < |parts| && parts[i].projectId != projectId ==> r[i] == parts[i]
    ensures forall i :: 0 <= i < |r| && r[i].projectId == projectId ==>
              && r[i].status == Completed
              && r[i].submittedProof == Some(content)
              && r[i].completedAt == Some(completedAt)
  {
    if GetParticipationFor(parts, projectId).None? then
      parts + [ProjectParticipation(projectId, Completed, Some(content), joinedAt, Some(completedAt))]
    else
      seq(|parts|, i requires 0 <= i < |parts| =>
        if parts[i].projectId == projectId then
          parts[i].(status := Completed, submittedProof := Some(content), completedAt := Some(completedAt))
        else parts[i])
  }

  /** Joining twice is joining once: the second join changes nothing. */
  lemma JoinIdempotent(parts: seq<ProjectParticipation>, projectId: string, t1: string, t2: string)
    ensures JoinProject(JoinProject(parts, projectId, t1), projectId, t2) == JoinProject(parts, projectId, t1)
  {
    var once := JoinProject(parts, projectId, t1);
    if !HasRecordFor(parts, projectId) {
      assert once[|parts|].projectId == projectId;
    }
  }

  /** A list that agrees with `parts` on project ids at every old position and
      only appends records for `projectId` has the same lookups for every other
      project. */
  lemma LookupOthers(parts: seq<ProjectParticipation>, r: seq<ProjectParticipation>, projectId: string, other: string)
    requires other != projectId
    requires |parts| <= |r|
    requires forall i :: 0 <= i < |parts| ==> r[i].projectId == parts[i].projectId
    requires forall i :: 0 <= i < |parts| && parts[i].projectId != projectId ==> r[i] == parts[i]
    requires forall i :: |parts| <= i < |r| ==> r[i].projectId == projectId
    ensures GetParticipationFor(r, other) == GetParticipationFor(parts, other)
  {
    match FindIndex(parts, other)
    case None =>
      assert !HasRecordFor(r, other) by {
        forall i | 0 <= i < |r|
          ensures r[i].projectId != other
        {
          if i < |parts| {
            assert r[i].projectId == parts[i].projectId;
          }
        }
      }
    case Some(k) =>
      assert FirstFor(r, other, k) by {
        forall j | 0 <= j < k
          ensures r[j].projectId != other
        {
          assert r[j].projectId == parts[j].projectId;
        }
      }
      var k' := FindIndex(r, other).value;
      assert k' == k;
  }

  /** After joining, the project's record is the old one if it existed, and a
      fresh in-progress record otherwise; other projects are unaffected. */
  lemma JoinThenGet(parts: seq<ProjectParticipation>, projectId: string, now: string, other: string)
    ensures GetParticipationFor(JoinProject(parts, projectId, now), projectId)
            == if HasRecordFor(parts, projectId) then GetParticipationFor(parts, projectId)
               else Some(ProjectParticipation(projectId, InProgress, None, now, None))
    ensures other != projectId ==>
              GetParticipationFor(JoinProject(parts, projectId, now), other) == GetParticipationFor(parts, other)
  {
    var r := JoinProject(parts, projectId, now);
    if !HasRecordFor(parts, projectId) {
      assert r[|parts|].projectId == projectId;
      var k := FindIndex(r, projectId).value;
      assert k == |parts|;
    }
    if other != projectId {
      LookupOthers(parts, r, projectId, other);
    }
  }

  /** After a submission, the project's record is completed with the new proof
      and completion time, and keeps its earlier join time; other projects are
      unaffected. */
  lemma SubmitThenGet(parts: seq<ProjectParticipation>, projectId: string, content: string,
                      joinedAt: string, completedAt: string, other: string)
    ensures var rec := GetParticipationFor(SubmitProjectProof(parts, projectId, content, joinedAt, completedAt), projectId);
            && rec.Some?
            && rec.value.projectId == projectId
            && rec.value.status == Completed
            && rec.value.submittedProof == Some(content)
            && rec.value.completedAt == Some(completedAt)
            && rec.value.joinedAt == (if HasRecordFor(parts, projectId)
                                      then GetParticipationFor(parts, projectId).value.joinedAt
                                      else joinedAt)
    ensures other != projectId ==>
              GetParticipationFor(SubmitProjectProof(parts, projectId, content, joinedAt, completedAt), other)
              == GetParticipationFor(parts, other)
  {
    var r := SubmitProjectProof(parts, projectId, content, joinedAt, completedAt);
    if HasRecordFor(parts, projectId) {
      var k := FindIndex(parts, projectId).value;
      assert FirstFor(r, projectId, k) by {
        forall j | 0 <= j < k
          ensures r[j].projectId != projectId
        {
          assert r[j].projectId == parts[j].projectId;
        }
      }
      var k' := FindIndex(r, projectId).value;
      assert k' == k;
    } else {
      assert r[|parts|].projectId == projectId;
      var k := FindIndex(r, projectId).value;
      assert k == |parts|;
    }
    if other != projectId {
      LookupOthers(parts, r, projectId, other);
    }
  }

  /** Both operations keep the list invariant. */
  lemma JoinPreservesValid(parts: seq<ProjectParticipation>, projectId: string, now: string)
    requires Valid(parts)
    ensures Valid(JoinProject(parts, projectId, now))
  {
  }

  lemma SubmitPreservesValid(parts: seq<ProjectParticipation>, projectId: string, content: string,
                             joinedAt: string, completedAt: string)
    requires Valid(parts)
    ensures Valid(SubmitProjectProof(parts, projectId, content, joinedAt, completedAt))
  {
    var r := SubmitProjectProof(parts, projectId, content, joinedAt, completedAt);
    forall i | 0 <= i < |r|
      ensures WellFormedRecord(r[i])
    {
      if i < |parts| && parts[i].projectId != projectId {
        assert r[i] == parts[i];
      }
    }
  }

  /** The status moves allowed by the store: staying put, starting a project,
      or completing it.  Nothing goes back to in-progress or not-joined. */
  predicate AllowedMove(before: ProjectStatus, after: ProjectStatus) {
    before == after || after == Completed || (before == NotJoined && after == InProgress)
  }

  /** A user action on the participation store. */
  datatype Action =
    | Join(projectId: string, now: string)
    | Submit(projectId: string, content: string, joinedAt: string, completedAt: string)

  function Apply(parts: seq<ProjectParticipation>, a: Action): seq<ProjectParticipation> {
    match a
    case Join(id, now) => JoinProject(parts, id, now)
    case Submit(id, content, joinedAt, completedAt) => SubmitProjectProof(parts, id, content, joinedAt, completedAt)
  }

  lemma ApplyPreservesValid(parts: seq<ProjectParticipation>, a: Action)
    requires Valid(parts)
    ensures Valid(Apply(parts, a))
  {
    match a
    case Join(id, now) => JoinPreservesValid(parts, id, now);
    case Submit(id, content, joinedAt, completedAt) => SubmitPreservesValid(parts, id, content, joinedAt, completedAt);
  }

  /** The status of every project after one action: joining starts an absent
      project, submitting completes the project, everything else is kept. */
  lemma ApplyStatus(parts: seq<ProjectParticipation>, a: Action, x: string)
    ensures StatusOf(Apply(parts, a), x)
            == if x != a.projectId then StatusOf(parts, x)
               else if a.Submit? then Completed
               else if HasRecordFor(parts, x) then StatusOf(parts, x)
               else InProgress
    ensures AllowedMove(StatusOf(parts, x), StatusOf(Apply(parts, a), x))
  {
    match a
    case Join(id, now) => JoinThenGet(parts, id, now, x);
    case Submit(id, content, joinedAt, completedAt) => SubmitThenGet(parts, id, content, joinedAt, completedAt, x);
  }

  function ApplyAll(parts: seq<ProjectParticipation>, actions: seq<Action>): seq<ProjectParticipation>
    decreases |actions|
  {
    if actions == [] then parts else ApplyAll(Apply(parts, actions[0]), actions[1..])
  }

  /** Over any run of actions the invariant holds and a completed project stays
      completed. */
  lemma {:induction false} ApplyAllKeepsInvariant(parts: seq<ProjectParticipation>, actions: seq<Action>, x: string)
    requires Valid(parts)
    ensures Valid(ApplyAll(parts, actions))
    ensures StatusOf(parts, x) == Completed ==> StatusOf(ApplyAll(parts, actions), x) == Completed
    decreases |actions|
  {
    if actions != [] {
      var next := Apply(parts, actions[0]);
      ApplyPreservesValid(parts, actions[0]);
      ApplyStatus(parts, actions[0], x);
      ApplyAllKeepsInvariant(next, actions[1..], x);
    }
  }

  /** Number of completed records (`participation.filter(p => p.status === "completed").length`). */
  function CompletedCount(parts: seq<ProjectParticipation>): (n: nat)
    ensures n <= |parts|
    ensures n == 0 <==> forall i :: 0 <= i < |parts| ==> parts[i].status != Completed
    decreases |parts|
  {
    if parts == [] then 0
    else (if parts[0].status == Completed then 1 else 0) + CompletedCount(parts[1..])
  }

  lemma {:induction false} CompletedCountAppend(parts: seq<ProjectParticipation>, rec: ProjectParticipation)
    ensures CompletedCount(parts + [rec]) == CompletedCount(parts) + (if rec.status == Completed then 1 else 0)
    decreases |parts|
  {
    if parts != [] {
      assert (parts + [rec])[1..] == parts[1..] + [rec];
      CompletedCountAppend(parts[1..], rec);
    }
  }

  lemma {:induction false} CompletedCountUpdate(p: seq<ProjectParticipation>, q: seq<ProjectParticipation>, k: nat)
    requires |p| == |q| && k < |p|
    requires forall i :: 0 <= i < |p| && i != k ==> p[i] == q[i]
    ensures CompletedCount(q) + (if p[k].status == Completed then 1 else 0)
            == CompletedCount(p) + (if q[k].status == Completed then 1 else 0)
    decreases |p|
  {
    if k == 0 {
      assert p[1..] == q[1..];
    } else {
      CompletedCountUpdate(p[1..], q[1..], k - 1);
    }
  }

  /** Joining never changes the completed count; a submission raises it by one
      exactly when the project was not yet completed. */
  lemma ApplyCompletedCount(parts: seq<ProjectParticipation>, a: Action)
    requires UniqueProjectIds(parts)
    ensures CompletedCount(Apply(parts, a))
            == CompletedCount(parts) + (if a.Submit? && StatusOf(parts, a.projectId) != Completed then 1 else 0)
  {
    match a
    case Join(id, now) =>
      if !HasRecordFor(parts, id) {
        CompletedCountAppend(parts, ProjectParticipation(id, InProgress, None, now, None));
      }
    case Submit(id, content, joinedAt, completedAt) =>
      var r := SubmitProjectProof(parts, id, content, joinedAt, completedAt);
      if HasRecordFor(parts, id) {
        var k := FindIndex(parts, id).value;
        CompletedCountUpdate(parts, r, k);
      } else {
        CompletedCountAppend(parts, ProjectParticipation(id, Completed, Some(content), joinedAt, Some(completedAt)));
      }
  }
}
