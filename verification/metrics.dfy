/** Derived numbers shown on the dashboards: the sustainability score, the
    badge tiers it unlocks, and rounded completion percentages. */
module Metrics {

  /** `Math.round(a / b)` for a non-negative quotient: the nearest integer,
      with halves rounded up. */
  function RoundHalfUp(a: nat, b: nat): (r: nat)
    requires b > 0
    ensures 2 * b * r <= 2 * a + b < 2 * b * (r + 1)
  {
    (2 * a + b) / (2 * b)
  }

  /** Multiplying by a non-negative factor keeps the order. */
  lemma MulLe(d: nat, x: int, y: int)
    requires x <= y
    ensures d * x <= d * y
  {
    assert d * y - d * x == d * (y - x);
  }

  /** An integer within half of `n / b`, where `n <= scale * b + b/2`, is at
      most `scale`. */
  lemma NearestAtMost(n: nat, b: nat, scale: nat, r: nat)
    requires b > 0
    requires 2 * b * r <= 2 * n + b
    requires n <= scale * b
    ensures r <= scale
  {
    if r > scale {
      MulLe(2 * b, scale + 1, r);
    }
  }

  /** An integer within half of `n / b`, where `n >= scale * b`, is at least
      `scale`. */
  lemma NearestAtLeast(n: nat, b: nat, scale: nat, r: nat)
    requires b > 0
    requires 2 * n + b < 2 * b * (r + 1)
    requires scale * b <= n
    ensures scale <= r
  {
    if r < scale {
      MulLe(2 * b, r + 1, scale);
    }
  }

  /** A rounded quotient of at most one is at most one, and it is one when the
      quotient is one. */
  lemma RoundUnit(a: nat, b: nat, scale: nat)
    requires b > 0
    ensures a <= b ==> RoundHalfUp(scale * a, b) <= scale
    ensures RoundHalfUp(scale * b, b) == scale
  {
    if a <= b {
      MulLe(scale, a, b);
      NearestAtMost(scale * a, b, scale, RoundHalfUp(scale * a, b));
    }
    var q := RoundHalfUp(scale * b, b);
    NearestAtMost(scale * b, b, scale, q);
    NearestAtLeast(scale * b, b, scale, q);
  }

  /** A rounded percentage of a part of a whole is 100 exactly when the
      missing part is at most half a percent, and 0 exactly when the part is
      under half a percent. */
  lemma PercentExtremes(done: nat, total: nat)
    requires 0 < total && done <= total
    ensures RoundHalfUp(100 * done, total) <= 100
    ensures RoundHalfUp(100 * done, total) == 100 <==> 200 * (total - done) <= total
    ensures RoundHalfUp(100 * done, total) == 0 <==> 200 * done < total
  {
    var s := RoundHalfUp(100 * done, total);
    RoundUnit(done, total, 100);
    if s < 100 {
      MulLe(2 * total, s + 1, 100);
    }
    if s >= 1 {
      MulLe(2 * total, 1, s);
    }
  }

  /** A completion percentage guarded against an empty catalogue
      (`total ? Math.round(done / total * 100) : 0`). */
  function Percent(done: nat, total: nat): (r: nat)
    ensures total == 0 ==> r == 0
    ensures total > 0 ==> 2 * total * r <= 200 * done + total < 2 * total * (r + 1)
    ensures done <= total ==> r <= 100
    ensures total > 0 && done == total ==> r == 100
    ensures done == 0 ==> r == 0
  {
    if total == 0 then 0
    else
      RoundUnit(done, total, 100);
      RoundHalfUp(100 * done, total)
  }

  /** `calculateSustainabilityScore`: ten points per completed lesson and
      twenty-five per completed project. */
  function SustainabilityScore(lessonsCompleted: nat, projectsCompleted: nat): (r: nat)
    ensures r == 0 <==> lessonsCompleted == 0 && projectsCompleted == 0
    ensures r % 5 == 0
    ensures r >= 10 * lessonsCompleted && r >= 25 * projectsCompleted
  {
    lessonsCompleted * 10 + projectsCompleted * 25
  }

  /** The score grows with either count. */
  lemma ScoreMonotone(l1: nat, p1: nat, l2: nat, p2: nat)
    requires l1 <= l2 && p1 <= p2
    ensures SustainabilityScore(l1, p1) <= SustainabilityScore(l2, p2)
  {
  }

  datatype Badge = EcoExplorer | HabitBuilder | CommunityChampion {
    function Name(): string {
      match this
      case EcoExplorer => "Eco Explorer"
      case HabitBuilder => "Habit Builder"
      case CommunityChampion => "Community Champion"
    }

    /** The score from which the badge is shown. */
    function Threshold(): nat {
      match this
      case EcoExplorer => 25
      case HabitBuilder => 50
      case CommunityChampion => 100
    }
  }

  /** Every badge, in display order. */
  const AllBadges: seq<Badge> := [EcoExplorer, HabitBuilder, CommunityChampion]

  /** `getBadges`: every badge whose threshold the score reaches, as a prefix
      of the display order, so higher tiers come with all lower ones. */
  function Badges(score: int): (r: seq<Badge>)
    ensures forall b :: b in r <==> score >= b.Threshold()
    ensures r <= AllBadges
    ensures r == [] <==> score < 25
  {
    var r1 := if score >= 25 then [EcoExplorer] else [];
    var r2 := if score >= 50 then r1 + [HabitBuilder] else r1;
    if score >= 100 then r2 + [CommunityChampion] else r2
  }

  /** A higher score never loses a badge. */
  lemma BadgesMonotone(s1: int, s2: int)
    requires s1 <= s2
    ensures Badges(s1) <= Badges(s2)
  {
  }
}
