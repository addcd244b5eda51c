/** The nearest-rank percentile of the bootstrap estimates (benchmarks/report.py, _percentile). */
module Percentile {
  import opened Common
  import Sorting

  predicate AtMost(x: real, y: real) {
    x <= y
  }

  /** math.ceil */
  function Ceiling(x: real): int {
    -((-x).Floor)
  }

  function Position(probability: real, n: nat): int {
    var rank := Ceiling(probability * n as real) - 1;
    var low := if rank < 0 then 0 else rank;
    if n - 1 < low then n - 1 else low
  }

  /** None stands for the IndexError of an empty list. */
  function Percentile(values: seq<real>, probability: real): Option<real> {
    if values == [] then None
    else Some(Sorting.SortBy(values, AtMost)[Position(probability, |values|)])
  }

  function CountBelow(values: seq<real>, x: real): nat {
    if values == [] then 0
    else CountBelow(values[..|values| - 1], x) + if values[|values| - 1] < x then 1 else 0
  }

  function CountUpTo(values: seq<real>, x: real): nat {
    if values == [] then 0
    else CountUpTo(values[..|values| - 1], x) + if values[|values| - 1] <= x then 1 else 0
  }

  lemma AtMostOrders()
    ensures Sorting.TotalPreorder(AtMost)
    ensures forall s: seq<real> :: Sorting.AntisymmetricOn(s, AtMost)
  {
  }

  // Counting does not see the order of the values.

  lemma {:induction false} CountAppend(a: seq<real>, b: seq<real>, x: real)
    ensures CountBelow(a + b, x) == CountBelow(a, x) + CountBelow(b, x)
    ensures CountUpTo(a + b, x) == CountUpTo(a, x) + CountUpTo(b, x)
  {
    if b == [] {
      assert a + b == a;
    } else {
      CountAppend(a, b[..|b| - 1], x);
      assert (a + b)[..|a + b| - 1] == a + b[..|b| - 1];
    }
  }

  lemma {:induction false} CountPermuted(a: seq<real>, b: seq<real>, x: real)
    requires multiset(a) == multiset(b)
    ensures CountBelow(a, x) == CountBelow(b, x) && CountUpTo(a, x) == CountUpTo(b, x)
    decreases |a|
  {
    hide CountBelow, CountUpTo, Sorting.Without;
    if a == [] {
      assert |multiset(b)| == |b|;
    } else {
      assert a[0] in multiset(b);
      var k :| 0 <= k < |b| && b[k] == a[0];
      Sorting.WithoutCounts(a, 0);
      Sorting.WithoutCounts(b, k);
      assert multiset(Sorting.Without(a, 0)) == multiset(a) - multiset{a[0]};
      assert multiset(Sorting.Without(b, k)) == multiset(b) - multiset{a[0]};
      CountPermuted(Sorting.Without(a, 0), Sorting.Without(b, k), x);
      CountWithout(a, 0, x);
      CountWithout(b, k, x);
    }
  }

  lemma CountWithout(s: seq<real>, k: nat, x: real)
    requires k < |s|
    ensures CountBelow(s, x) == CountBelow(Sorting.Without(s, k), x) + CountBelow([s[k]], x)
    ensures CountUpTo(s, x) == CountUpTo(Sorting.Without(s, k), x) + CountUpTo([s[k]], x)
  {
    hide CountBelow, CountUpTo;
    assert s == s[..k] + ([s[k]] + s[k + 1..]);
    CountAppend(s[..k], [s[k]] + s[k + 1..], x);
    CountAppend([s[k]], s[k + 1..], x);
    CountAppend(s[..k], s[k + 1..], x);
  }

  /** In a sorted list, at most i values are below the one at i, and at least i + 1 do not exceed it. */
  lemma {:induction false} CountSorted(s: seq<real>, i: nat, n: nat)
    requires Sorting.Sorted(s, AtMost) && i < |s| && n <= |s|
    ensures CountBelow(s[..n], s[i]) <= i
    ensures CountUpTo(s[..n], s[i]) >= if n <= i then n else i + 1
  {
    if n > 0 {
      CountSorted(s, i, n - 1);
      assert s[..n][..n - 1] == s[..n - 1];
      if n - 1 < i { assert AtMost(s[n - 1], s[i]); }
      if i < n - 1 { assert AtMost(s[i], s[n - 1]); }
      CountBelowLength(s[..n], s[i]);
    }
  }

  lemma {:induction false} CountBelowLength(s: seq<real>, x: real)
    ensures CountBelow(s, x) <= |s|
  {
    if s != [] {
      CountBelowLength(s[..|s| - 1], x);
    }
  }

  /** The position is the least rank that covers the probability. */
  lemma PositionCovers(probability: real, n: nat)
    requires 0.0 < probability <= 1.0 && n > 0
    ensures 0 <= Position(probability, n) < n
    ensures Position(probability, n) as real < probability * n as real <= (Position(probability, n) + 1) as real
  {
    var x := probability * n as real;
    assert 0.0 < x by { Positive(probability, n as real); }
    assert x <= n as real by { Positive(1.0 - probability, n as real); assert (1.0 - probability) * n as real == n as real - x; }
  }

  lemma Positive(a: real, b: real)
    requires b > 0.0
    ensures a >= 0.0 ==> a * b >= 0.0
    ensures a > 0.0 ==> a * b > 0.0
  {
  }

  // ----- main results -----

  /**
   * The result is the nearest-rank percentile: one of the values, with at least probability * n values up to it and
   * fewer than probability * n values below it.
   */
  lemma NearestRank(values: seq<real>, probability: real)
    requires values != [] && 0.0 < probability <= 1.0
    ensures var r := Percentile(values, probability);
            && r.Some? && r.value in values
            && CountUpTo(values, r.value) as real >= probability * |values| as real
            && CountBelow(values, r.value) as real < probability * |values| as real
  {
    hide CountBelow, CountUpTo, Position, Sorting.SortBy;
    PositionCovers(probability, |values|);
    SortedCounts(values, Position(probability, |values|));
  }

  lemma SortedCounts(values: seq<real>, i: nat)
    requires i < |values|
    ensures var x := Sorting.SortBy(values, AtMost)[i];
            x in values && CountBelow(values, x) <= i && CountUpTo(values, x) >= i + 1
  {
    hide CountBelow, CountUpTo;
    var sorted := Sorting.SortBy(values, AtMost);
    AtMostOrders();
    Sorting.SortBySorted(values, AtMost);
    CountSorted(sorted, i, |sorted|);
    assert sorted[..|sorted|] == sorted;
    CountPermuted(values, sorted, sorted[i]);
    assert sorted[i] in multiset(sorted);
  }

  /** The result depends only on which values there are, and the interval's lower end never exceeds its upper end. */
  lemma OrderedInterval(values: seq<real>, permuted: seq<real>, low: real, high: real)
    requires values != [] && multiset(values) == multiset(permuted) && 0.0 < low <= high <= 1.0
    ensures permuted != []
    ensures Percentile(values, low) == Percentile(permuted, low)
    ensures Percentile(values, low).value <= Percentile(values, high).value
  {
    var n := |values|;
    assert |multiset(values)| == |multiset(permuted)| && |multiset(permuted)| == |permuted|;
    AtMostOrders();
    Sorting.SortByCanonical(values, permuted, AtMost);
    Sorting.SortBySorted(values, AtMost);
    PositionCovers(low, n);
    PositionCovers(high, n);
    PositionMonotone(low, high, n);
    hide Position;
    var sorted := Sorting.SortBy(values, AtMost);
    if Position(low, n) < Position(high, n) {
      assert AtMost(sorted[Position(low, n)], sorted[Position(high, n)]);
    }
  }

  lemma PositionMonotone(low: real, high: real, n: nat)
    requires low <= high && n > 0
    ensures Position(low, n) <= Position(high, n)
  {
    Positive(high - low, n as real);
    assert (high - low) * n as real == high * n as real - low * n as real;
  }
}
