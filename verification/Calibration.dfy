/** Threshold recommendations from progress gaps. Times are whole microseconds. */
module Calibration {
  import opened Sorting

  const MIN_SAMPLE_COUNT: nat := 20
  const MICROS_PER_MINUTE: int := 60_000_000

  datatype CalibrationOutcome =
    | Recommendation(sampleCount: nat, warningAfterMs: int, restartAfterMs: int)
    | Insufficient(sampleCount: nat)
    | Unavailable

  predicate AtMost(a: int, b: int) {
    a <= b
  }

  function CeilDiv(a: int, b: int): int
    requires b > 0
  {
    -((-a) / b)
  }

  /** The value at the nearest rank of `percent` hundredths of ascending values. */
  function NearestRank(values: seq<int>, percent: nat): int
    requires values != [] && percent <= 100
  {
    var rank := CeilDiv(percent * |values|, 100) - 1;
    values[if rank < 0 then 0 else rank]
  }

  /** Whole minutes, rounded up, and at least one. */
  function RoundedMinutes(micros: int): int {
    var minutes := CeilDiv(micros, MICROS_PER_MINUTE);
    if minutes < 1 then 1 else minutes
  }

  function Max(a: int, b: int): int {
    if a < b then b else a
  }

  function RecommendThresholds(gaps: seq<int>): CalibrationOutcome {
    if |gaps| < MIN_SAMPLE_COUNT then Insufficient(|gaps|)
    else
      var ascending := Sort(gaps, AtMost);
      if exists gap :: gap in ascending && gap <= 0 then Unavailable
      else
        var warning := RoundedMinutes(NearestRank(ascending, 95));
        var restart := RoundedMinutes(Max(NearestRank(ascending, 99), 2 * warning * MICROS_PER_MINUTE));
        Recommendation(|gaps|, warning * 60_000, restart * 60_000)
  }

  /** The threshold check: both positive, and restart after warning. */
  predicate ThresholdsValid(warningAfterMs: int, restartAfterMs: int) {
    warningAfterMs > 0 && restartAfterMs > warningAfterMs
  }

  /** How many gaps a bound covers. */
  function Covered(gaps: seq<int>, bound: int): nat {
    if gaps == [] then 0 else (if gaps[0] <= bound then 1 else 0) + Covered(gaps[1..], bound)
  }

  lemma {:induction false} CoveredMonotone(gaps: seq<int>, low: int, high: int)
    requires low <= high
    ensures Covered(gaps, low) <= Covered(gaps, high)
  {
    if gaps != [] {
      CoveredMonotone(gaps[1..], low, high);
    }
  }

  lemma {:induction false} CoveredInsert(x: int, s: seq<int>, bound: int)
    ensures Covered(Insert(x, s, AtMost), bound) == Covered(s, bound) + if x <= bound then 1 else 0
  {
    if s != [] {
      assert ([x] + s)[1..] == s;
      CoveredInsert(x, s[1..], bound);
      assert ([s[0]] + Insert(x, s[1..], AtMost))[1..] == Insert(x, s[1..], AtMost);
    }
  }

  lemma {:induction false} CoveredSort(s: seq<int>, bound: int)
    ensures Covered(Sort(s, AtMost), bound) == Covered(s, bound)
  {
    if s != [] {
      CoveredSort(s[1..], bound);
      CoveredInsert(s[0], Sort(s[1..], AtMost), bound);
    }
  }

  lemma {:induction false} CoveredConcat(a: seq<int>, b: seq<int>, bound: int)
    ensures Covered(a + b, bound) == Covered(a, bound) + Covered(b, bound)
  {
    if a == [] {
      assert a + b == b;
    } else {
      assert (a + b)[1..] == a[1..] + b;
      CoveredConcat(a[1..], b, bound);
    }
  }

  lemma AtMostLinear()
    ensures LinearOrder(AtMost)
  {
  }

  lemma {:induction false} CoveredAll(s: seq<int>, bound: int)
    requires forall i :: 0 <= i < |s| ==> s[i] <= bound
    ensures Covered(s, bound) == |s|
  {
    if s != [] {
      CoveredAll(s[1..], bound);
    }
  }

  lemma {:induction false} CoveredNone(s: seq<int>, bound: int)
    requires forall i :: 0 <= i < |s| ==> s[i] > bound
    ensures Covered(s, bound) == 0
  {
    if s != [] {
      CoveredNone(s[1..], bound);
    }
  }

  /** In ascending values, a bound covers at least `k` of them exactly when it reaches the k-th. */
  lemma CoveredAtRank(s: seq<int>, k: nat, bound: int)
    requires Sorted(s, AtMost) && 0 < k <= |s|
    ensures Covered(s, bound) >= k <==> bound >= s[k - 1]
  {
    AtMostLinear();
    assert s == s[..k] + s[k..];
    assert s == s[..k - 1] + s[k - 1..];
    if bound >= s[k - 1] {
      forall i | 0 <= i < k
        ensures s[i] <= bound
      {
        if i < k - 1 {
          SortedAt(s, AtMost, i, k - 1);
        }
      }
      CoveredAll(s[..k], bound);
      CoveredConcat(s[..k], s[k..], bound);
    } else {
      forall i | k - 1 <= i < |s|
        ensures s[i] > bound
      {
        if k - 1 < i {
          SortedAt(s, AtMost, k - 1, i);
        }
      }
      CoveredNone(s[k - 1..], bound);
      CoveredConcat(s[..k - 1], s[k - 1..], bound);
      CoveredAtMostLength(s[..k - 1], bound);
    }
  }

  lemma {:induction false} CoveredAtMostLength(s: seq<int>, bound: int)
    ensures Covered(s, bound) <= |s|
  {
    if s != [] {
      CoveredAtMostLength(s[1..], bound);
    }
  }

  /** Rounding up gives the least positive whole minute that reaches the value. */
  lemma RoundedMinutesLeast(micros: int, minutes: int)
    requires minutes >= 1
    ensures RoundedMinutes(micros) >= 1
    ensures minutes * MICROS_PER_MINUTE >= micros <==> minutes >= RoundedMinutes(micros)
  {
  }

  /** `minutes` covers at least the given percentage of the gaps. */
  predicate Covers(gaps: seq<int>, minutes: int, percent: nat) {
    Covered(gaps, minutes * MICROS_PER_MINUTE) * 100 >= percent * |gaps|
  }

  lemma RankBounds(percent: nat, count: nat)
    requires 0 < percent <= 100 && count > 0
    ensures 0 < CeilDiv(percent * count, 100) <= count
    ensures forall covered: int :: covered * 100 >= percent * count <==> covered >= CeilDiv(percent * count, 100)
  {
    assert percent * count >= count by {
      assert (percent - 1) * count >= 0;
    }
    assert percent * count <= 100 * count by {
      assert (100 - percent) * count >= 0;
    }
  }

  lemma RankCovers(gaps: seq<int>, percent: nat, minutes: int)
    requires gaps != [] && 0 < percent <= 100
    ensures Covers(gaps, minutes, percent) <==>
      minutes * MICROS_PER_MINUTE >= NearestRank(Sort(gaps, AtMost), percent)
  {
    AtMostLinear();
    SortSorts(gaps, AtMost);
    var s := Sort(gaps, AtMost);
    CoveredSort(gaps, minutes * MICROS_PER_MINUTE);
    var rank := CeilDiv(percent * |s|, 100);
    RankBounds(percent, |s|);
    CoveredAtRank(s, rank, minutes * MICROS_PER_MINUTE);
  }

  lemma SortedMembers(gaps: seq<int>)
    ensures forall gap :: gap in Sort(gaps, AtMost) <==> gap in gaps
  {
    AtMostLinear();
    SortSorts(gaps, AtMost);
    forall gap
      ensures gap in Sort(gaps, AtMost) <==> gap in gaps
    {
      assert gap in Sort(gaps, AtMost) <==> gap in multiset(Sort(gaps, AtMost));
    }
  }

  /** When each of the three outcomes is returned. */
  lemma OutcomeKinds(gaps: seq<int>)
    ensures RecommendThresholds(gaps).Insufficient? <==> |gaps| < MIN_SAMPLE_COUNT
    ensures RecommendThresholds(gaps).Recommendation? <==>
      |gaps| >= MIN_SAMPLE_COUNT && forall gap :: gap in gaps ==> gap > 0
    ensures !RecommendThresholds(gaps).Unavailable? ==> RecommendThresholds(gaps).sampleCount == |gaps|
  {
    SortedMembers(gaps);
  }

  function RestartBound(gaps: seq<int>, warning: int): int
    requires gaps != []
  {
    Max(NearestRank(Sort(gaps, AtMost), 99), 2 * warning * MICROS_PER_MINUTE)
  }

  /** The two rounded thresholds are the least minutes with the wanted coverage. */
  lemma CoverThresholds(gaps: seq<int>, warning: int, m: int)
    requires gaps != [] && warning == RoundedMinutes(NearestRank(Sort(gaps, AtMost), 95)) && m >= 1
    ensures Covers(gaps, m, 95) <==> m >= warning
    ensures Covers(gaps, m, 99) && m >= 2 * warning <==> m >= RoundedMinutes(RestartBound(gaps, warning))
  {
    RankCovers(gaps, 95, m);
    RankCovers(gaps, 99, m);
    RoundedMinutesLeast(NearestRank(Sort(gaps, AtMost), 95), m);
    RoundedMinutesLeast(RestartBound(gaps, warning), m);
  }

  /** The warning is the least positive whole minute covering 95 percent of the gaps; the restart is the least one
      covering 99 percent that is at least twice the warning; and the pair passes the threshold check. */
  lemma RecommendationLeast(gaps: seq<int>, minutes: int)
    requires RecommendThresholds(gaps).Recommendation? && minutes >= 1
    ensures
      var r := RecommendThresholds(gaps);
      var warning, restart := r.warningAfterMs / 60_000, r.restartAfterMs / 60_000;
      && r.warningAfterMs == warning * 60_000 && r.restartAfterMs == restart * 60_000 && warning >= 1
      && (Covers(gaps, minutes, 95) <==> minutes >= warning)
      && (Covers(gaps, minutes, 99) && minutes >= 2 * warning <==> minutes >= restart)
      && Covers(gaps, warning, 95) && Covers(gaps, restart, 99) && restart >= 2 * warning
      && ThresholdsValid(r.warningAfterMs, r.restartAfterMs)
  {
    SortedMembers(gaps);
    var warning := RoundedMinutes(NearestRank(Sort(gaps, AtMost), 95));
    var restart := RoundedMinutes(RestartBound(gaps, warning));
    CoverThresholds(gaps, warning, minutes);
    CoverThresholds(gaps, warning, warning);
    CoverThresholds(gaps, warning, restart);
  }

  /** The order in which the gaps were observed does not matter. */
  lemma RecommendationForgetsOrder(gaps: seq<int>, other: seq<int>)
    requires multiset(gaps) == multiset(other)
    ensures RecommendThresholds(gaps) == RecommendThresholds(other)
  {
    AtMostLinear();
    SortForgetsOrder(gaps, other, AtMost);
    assert |multiset(gaps)| == |multiset(other)|;
  }
}
