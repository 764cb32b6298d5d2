/** The lesson-progress store: a list of progress records keyed by lesson id,
    updated by an upsert where the last submission wins. */
module LessonProgressStore {
  import opened Wrappers
  import opened LessonTypes

  /** Some record in the list belongs to `lessonId`. */
  ghost predicate HasRecordFor(progress: seq<LessonProgress>, lessonId: string) {
    exists i :: 0 <= i < |progress| && progress[i].lessonId == lessonId
  }

  /** Position `i` holds the first record for `lessonId`. */
  ghost predicate FirstFor(progress: seq<LessonProgress>, lessonId: string, i: int) {
    && 0 <= i < |progress|
    && progress[i].lessonId == lessonId
    && forall j :: 0 <= j < i ==> progress[j].lessonId != lessonId
  }

  /** No two records share a lesson id. */
  ghost predicate UniqueLessonIds(progress: seq<LessonProgress>) {
    forall i, j :: 0 <= i < j < |progress| ==> progress[i].lessonId != progress[j].lessonId
  }

  /** Position of the first record for `lessonId`, if any. */
  function FindIndex(progress: seq<LessonProgress>, lessonId: string): (r: Option<nat>)
    ensures r.None? <==> !HasRecordFor(progress, lessonId)
    ensures r.Some? ==> FirstFor(progress, lessonId, r.value)
    decreases |progress|
  {
    if progress == [] then None
    else if progress[0].lessonId == lessonId then Some(0)
    else
      match FindIndex(progress[1..], lessonId)
      case None => None
      case Some(i) => Some(i + 1)
  }

  /** `getLessonProgress`: the first record for `lessonId`, or none. */
  function GetLessonProgress(progress: seq<LessonProgress>, lessonId: string): (r: Option<LessonProgress>)
    ensures r.None? <==> !HasRecordFor(progress, lessonId)
    ensures r.Some? ==> exists i :: FirstFor(progress, lessonId, i) && progress[i] == r.value
  {
    match FindIndex(progress, lessonId)
    case None => None
    case Some(i) => Some(progress[i])
  }

  /** With unique ids, the lookup returns exactly the record carrying the id. */
  lemma GetUnique(progress: seq<LessonProgress>, lessonId: string, rec: LessonProgress)
    requires UniqueLessonIds(progress)
    ensures GetLessonProgress(progress, lessonId) == Some(rec) <==> rec in progress && rec.lessonId == lessonId
  {
    if rec in progress && rec.lessonId == lessonId {
      var k :| 0 <= k < |progress| && progress[k] == rec;
      assert FirstFor(progress, lessonId, k);
    }
  }

  /** `markLessonCompleted`: every record for `lessonId` becomes completed with
      the new score (no maximum is kept); without a record, one is appended. */
  function MarkLessonCompleted(progress: seq<LessonProgress>, lessonId: string, score: int): (r: seq<LessonProgress>)
    ensures HasRecordFor(progress, lessonId) ==> |r| == |progress|
    ensures !HasRecordFor(progress, lessonId) ==> r == progress + [LessonProgress(lessonId, true, score)]
    ensures forall i :: 0 <= i < |progress| ==> r[i].lessonId == progress[i].lessonId
    ensures forall i :: 0 <= i < |progress| && progress[i].lessonId != lessonId ==> r[i] == progress[i]
    ensures forall i :: 0 <= i < |r| && r[i].lessonId == lessonId ==> r[i].completed && r[i].score == score
  {
    if GetLessonProgress(progress, lessonId).Some? then
      seq(|progress|, i requires 0 <= i < |progress| =>
        if progress[i].lessonId == lessonId then progress[i].(completed := true, score := score)
        else progress[i])
    else
      progress + [LessonProgress(lessonId, true, score)]
  }

  /** Marking keeps lesson ids unique. */
  lemma MarkPreservesUniqueness(progress: seq<LessonProgress>, lessonId: string, score: int)
    requires UniqueLessonIds(progress)
    ensures UniqueLessonIds(MarkLessonCompleted(progress, lessonId, score))
  {
  }

  /** After marking, the lookup yields a completed record with exactly the new score. */
  lemma MarkThenGet(progress: seq<LessonProgress>, lessonId: string, score: int)
    ensures GetLessonProgress(MarkLessonCompleted(progress, lessonId, score), lessonId)
            == Some(LessonProgress(lessonId, true, score))
  {
    var r := MarkLessonCompleted(progress, lessonId, score);
    if HasRecordFor(progress, lessonId) {
      var i :| 0 <= i < |progress| && progress[i].lessonId == lessonId;
      assert r[i].lessonId == lessonId;
    } else {
      assert r[|progress|].lessonId == lessonId;
    }
    var k := FindIndex(r, lessonId).value;
    assert r[k] == LessonProgress(lessonId, true, score);
  }

  /** Marking one lesson does not change what the lookup returns for another. */
  lemma MarkOthersUnaffected(progress: seq<LessonProgress>, lessonId: string, score: int, other: string)
    requires other != lessonId
    ensures GetLessonProgress(MarkLessonCompleted(progress, lessonId, score), other)
            == GetLessonProgress(progress, other)
  {
    var r := MarkLessonCompleted(progress, lessonId, score);
    match FindIndex(progress, other)
    case None =>
      assert !HasRecordFor(r, other) by {
        forall i | 0 <= i < |r|
          ensures r[i].lessonId != other
        {
          if i < |progress| {
            assert r[i].lessonId == progress[i].lessonId;
          }
        }
      }
    case Some(k) =>
      assert FirstFor(r, other, k) by {
        forall j | 0 <= j < k
          ensures r[j].lessonId != other
        {
          assert r[j].lessonId == progress[j].lessonId;
        }
      }
      var k' := FindIndex(r, other).value;
      assert k' == k;
  }

  /** A completed record stays completed; the only records that become
      completed are those for the marked lesson. */
  lemma MarkNeverUncompletes(progress: seq<LessonProgress>, lessonId: string, score: int)
    ensures forall i :: 0 <= i < |progress| ==>
              MarkLessonCompleted(progress, lessonId, score)[i].completed
              == (progress[i].completed || progress[i].lessonId == lessonId)
  {
  }

  /** Two submissions for the same lesson leave one record holding the second
      score, even when it is lower than the first. */
  lemma MarkTwiceLastWins(progress: seq<LessonProgress>, lessonId: string, s1: int, s2: int)
    requires UniqueLessonIds(progress)
    ensures var once := MarkLessonCompleted(progress, lessonId, s1);
            var twice := MarkLessonCompleted(once, lessonId, s2);
            && |twice| == |once|
            && UniqueLessonIds(twice)
            && GetLessonProgress(twice, lessonId) == Some(LessonProgress(lessonId, true, s2))
  {
    var once := MarkLessonCompleted(progress, lessonId, s1);
    MarkThenGet(progress, lessonId, s1);
    assert HasRecordFor(once, lessonId);
    MarkPreservesUniqueness(progress, lessonId, s1);
    MarkPreservesUniqueness(once, lessonId, s2);
    MarkThenGet(once, lessonId, s2);
  }

  /** The stored score can go down: a weaker retry replaces a better attempt. */
  lemma MarkCanLowerScore()
    ensures MarkLessonCompleted(MarkLessonCompleted([], "lesson", 90), "lesson", 40)
            == [LessonProgress("lesson", true, 40)]
  {
    var once := MarkLessonCompleted([], "lesson", 90);
    assert once == [LessonProgress("lesson", true, 90)];
    assert HasRecordFor(once, "lesson") by { assert once[0].lessonId == "lesson"; }
  }

  /** Number of completed records (`progress.filter(p => p.completed).length`). */
  function CompletedCount(progress: seq<LessonProgress>): (n: nat)
    ensures n <= |progress|
    ensures n == 0 <==> forall i :: 0 <= i < |progress| ==> !progress[i].completed
    decreases |progress|
  {
    if progress == [] then 0
    else (if progress[0].completed then 1 else 0) + CompletedCount(progress[1..])
  }

  /** Appending a record adds one to the count exactly when it is completed. */
  lemma {:induction false} CompletedCountAppend(progress: seq<LessonProgress>, rec: LessonProgress)
    ensures CompletedCount(progress + [rec]) == CompletedCount(progress) + (if rec.completed then 1 else 0)
    decreases |progress|
  {
    if progress != [] {
      assert (progress + [rec])[1..] == progress[1..] + [rec];
      CompletedCountAppend(progress[1..], rec);
    }
  }

  /** Changing only position `k` changes the count by that position's contribution. */
  lemma {:induction false} CompletedCountUpdate(p: seq<LessonProgress>, q: seq<LessonProgress>, k: nat)
    requires |p| == |q| && k < |p|
    requires forall i :: 0 <= i < |p| && i != k ==> p[i] == q[i]
    ensures CompletedCount(q) + (if p[k].completed then 1 else 0)
            == CompletedCount(p) + (if q[k].completed then 1 else 0)
    decreases |p|
  {
    if k == 0 {
      assert p[1..] == q[1..];
    } else {
      CompletedCountUpdate(p[1..], q[1..], k - 1);
    }
  }

  /** The lesson counts as completed in the list (its first record is completed). */
  predicate IsLessonCompleted(progress: seq<LessonProgress>, lessonId: string) {
    match GetLessonProgress(progress, lessonId)
    case Some(rec) => rec.completed
    case None => false
  }

  /** A submission raises the completed count by one exactly when the lesson
      was not yet completed, so the count never goes down. */
  lemma MarkCompletedCount(progress: seq<LessonProgress>, lessonId: string, score: int)
    requires UniqueLessonIds(progress)
    ensures CompletedCount(MarkLessonCompleted(progress, lessonId, score))
            == CompletedCount(progress) + (if IsLessonCompleted(progress, lessonId) then 0 else 1)
  {
    var r := MarkLessonCompleted(progress, lessonId, score);
    if HasRecordFor(progress, lessonId) {
      var k :| FirstFor(progress, lessonId, k) && progress[k] == GetLessonProgress(progress, lessonId).value;
      CompletedCountUpdate(progress, r, k);
    } else {
      CompletedCountAppend(progress, LessonProgress(lessonId, true, score));
    }
  }
}
