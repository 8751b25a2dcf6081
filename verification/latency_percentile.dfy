/**
 * The latency smoke harness's order statistics: the nearest-rank percentile
 * over a list of integer samples, and the counting facts that pin its value
 * down independently of how the list is sorted.
 */
module LatencyPercentile {
  import opened Wrappers
  import opened Sorting

  /** The numeric comparator `(left, right) => left - right`, as a "less than or equal". */
  function IntLe(a: int, b: int): bool {
    a <= b
  }

  lemma IntLeIsTotalPreorder()
    ensures TotalPreorder(IntLe)
  {
  }

  /** `Math.ceil((target / 100) * n)`, computed exactly. */
  function Rank(target: int, n: nat): (r: int)
    ensures 100 * r >= target * n && 100 * (r - 1) < target * n
  {
    -((-(target * n)) / 100)
  }

  /** `Math.max(0, Math.min(n - 1, rank - 1))`. */
  function RankIndex(target: int, n: nat): (k: nat)
    requires n > 0
    ensures k < n
  {
    var i := Rank(target, n) - 1;
    if i > n - 1 then n - 1 else if i < 0 then 0 else i
  }

  function SortedAscending(values: seq<int>): (s: seq<int>)
    ensures multiset(s) == multiset(values) && |s| == |values|
    ensures forall i, j :: 0 <= i < j < |s| ==> s[i] <= s[j]
  {
    IntLeIsTotalPreorder();
    SortBy(values, IntLe)
  }

  /**
   * `percentile(values, target)`: 0 for a missing (non-array) or empty list,
   * otherwise the element at the clamped nearest rank of a sorted copy.
   */
  function Percentile(values: Option<seq<int>>, target: int): (r: int)
    ensures values.None? || |values.value| == 0 ==> r == 0
    ensures values.Some? && |values.value| > 0 ==> r in values.value
  {
    if values.None? || |values.value| == 0 then 0
    else
      var s := SortedAscending(values.value);
      assert s[RankIndex(target, |s|)] in multiset(values.value);
      s[RankIndex(target, |s|)]
  }

  /** A higher target never gives a lower percentile. */
  lemma PercentileMonotone(values: Option<seq<int>>, t1: int, t2: int)
    requires t1 <= t2
    ensures Percentile(values, t1) <= Percentile(values, t2)
  {
    if values.Some? && |values.value| > 0 {
      var n := |values.value|;
      assert t1 * n <= t2 * n by {
        assert (t2 - t1) * n >= 0;
      }
      assert RankIndex(t1, n) <= RankIndex(t2, n);
    }
  }

  /** The three reported percentiles are ordered. */
  lemma PercentilesOrdered(values: Option<seq<int>>)
    ensures Percentile(values, 50) <= Percentile(values, 95) <= Percentile(values, 99)
  {
    PercentileMonotone(values, 50, 95);
    PercentileMonotone(values, 95, 99);
  }

  // ---------------------------------------------------------------------------
  // The percentile as an order statistic
  // ---------------------------------------------------------------------------

  /** How many samples are strictly below `x`. */
  function CountBelow(s: seq<int>, x: int): (c: nat)
    ensures c <= |s|
  {
    if |s| == 0 then 0 else (if s[0] < x then 1 else 0) + CountBelow(s[1..], x)
  }

  /** How many samples are at most `x`. */
  function CountAtMost(s: seq<int>, x: int): (c: nat)
    ensures c <= |s|
  {
    if |s| == 0 then 0 else (if s[0] <= x then 1 else 0) + CountAtMost(s[1..], x)
  }

  lemma {:induction false} CountsSplit(a: seq<int>, b: seq<int>, x: int)
    ensures CountBelow(a + b, x) == CountBelow(a, x) + CountBelow(b, x)
    ensures CountAtMost(a + b, x) == CountAtMost(a, x) + CountAtMost(b, x)
  {
    if |a| == 0 {
      assert a + b == b;
    } else {
      CountsSplit(a[1..], b, x);
      assert (a + b)[1..] == a[1..] + b;
    }
  }

  /** Taking out element `k` removes one copy of it and its share of each count. */
  lemma RemoveAt(b: seq<int>, k: nat, x: int)
    requires k < |b|
    ensures multiset(b[..k] + b[k + 1..]) == multiset(b) - multiset{b[k]}
    ensures CountBelow(b, x) == CountBelow(b[..k] + b[k + 1..], x) + (if b[k] < x then 1 else 0)
    ensures CountAtMost(b, x) == CountAtMost(b[..k] + b[k + 1..], x) + (if b[k] <= x then 1 else 0)
  {
    assert b == b[..k] + ([b[k]] + b[k + 1..]);
    assert multiset(b) == multiset(b[..k]) + multiset{b[k]} + multiset(b[k + 1..]);
    CountsSplit(b[..k], [b[k]] + b[k + 1..], x);
    CountsSplit([b[k]], b[k + 1..], x);
    CountsSplit(b[..k], b[k + 1..], x);
  }

  /** Both counts depend only on the multiset of samples. */
  lemma {:induction false} CountsOfPermutation(a: seq<int>, b: seq<int>, x: int)
    requires multiset(a) == multiset(b)
    ensures CountBelow(a, x) == CountBelow(b, x) && CountAtMost(a, x) == CountAtMost(b, x)
    decreases |a|
  {
    if |a| > 0 {
      assert a[0] in multiset(b);
      var k :| 0 <= k < |b| && b[k] == a[0];
      RemoveAt(b, k, x);
      assert a == [a[0]] + a[1..];
      assert multiset(a[1..]) == multiset(a) - multiset{a[0]};
      CountsOfPermutation(a[1..], b[..k] + b[k + 1..], x);
    }
  }

  /** In an ascending list, element `k` has at most `k` elements below it and at least `k + 1` at or below it. */
  lemma SortedCounts(s: seq<int>, k: nat)
    requires k < |s|
    requires forall i, j :: 0 <= i < j < |s| ==> s[i] <= s[j]
    ensures CountBelow(s, s[k]) <= k && CountAtMost(s, s[k]) >= k + 1
  {
    var x := s[k];
    assert s == s[..k] + s[k..];
    CountsSplit(s[..k], s[k..], x);
    BelowAtLeastZero(s[k..], x);
    assert s == s[..k + 1] + s[k + 1..];
    CountsSplit(s[..k + 1], s[k + 1..], x);
    AtMostAll(s[..k + 1], x);
  }

  lemma {:induction false} BelowAtLeastZero(t: seq<int>, x: int)
    requires forall i :: 0 <= i < |t| ==> x <= t[i]
    ensures CountBelow(t, x) == 0
  {
    if |t| > 0 {
      BelowAtLeastZero(t[1..], x);
    }
  }

  lemma {:induction false} AtMostAll(t: seq<int>, x: int)
    requires forall i :: 0 <= i < |t| ==> t[i] <= x
    ensures CountAtMost(t, x) == |t|
  {
    if |t| > 0 {
      AtMostAll(t[1..], x);
    }
  }

  /**
   * The percentile is the nearest-rank order statistic of the samples
   * themselves: at most `k` samples lie below it and at least `k + 1` lie at
   * or below it, where `k` is the clamped rank index.
   */
  lemma PercentileIsOrderStatistic(values: seq<int>, target: int)
    requires |values| > 0
    ensures var p := Percentile(Some(values), target);
            var k := RankIndex(target, |values|);
            CountBelow(values, p) <= k && CountAtMost(values, p) >= k + 1
  {
    var s := SortedAscending(values);
    var k := RankIndex(target, |values|);
    SortedCounts(s, k);
    CountsOfPermutation(s, values, s[k]);
  }
}
