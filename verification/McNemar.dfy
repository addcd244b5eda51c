/** The exact paired sign test (benchmarks/report.py, _exact_mcnemar). */
module McNemar {
  import opened Common

  /** Binomial coefficients by Pascal's rule; math.comb is zero above the diagonal too. */
  function Choose(n: nat, k: nat): nat {
    if k == 0 then 1 else if n == 0 then 0 else Choose(n - 1, k - 1) + Choose(n - 1, k)
  }

  function Power2(n: nat): (r: nat)
    ensures r >= 1
  {
    if n == 0 then 1 else 2 * Power2(n - 1)
  }

  /** The number of outcomes of n fair tosses with lo <= successes < hi. */
  function Between(n: nat, lo: nat, hi: nat): nat
    decreases hi
  {
    if hi <= lo then 0 else Between(n, lo, hi - 1) + Choose(n, hi - 1)
  }

  predicate Worse(base: bool, treated: bool) {
    base && !treated
  }

  /** Pairs in which the first list succeeds alone. */
  function Alone(first: seq<bool>, second: seq<bool>): nat
    requires |first| == |second|
  {
    if first == [] then 0
    else
      var n := |first| - 1;
      Alone(first[..n], second[..n]) + if Worse(first[n], second[n]) then 1 else 0
  }

  function PValue(regressed: nat, improved: nat): real {
    var n, m := regressed + improved, if regressed <= improved then regressed else improved;
    if n == 0 then 1.0
    else
      var doubled := 2.0 * (Between(n, 0, m + 1) as real / Power2(n) as real);
      if doubled <= 1.0 then doubled else 1.0
  }

  datatype Test = Test(regressed: nat, improved: nat, discordant: nat, pValue: real)

  /** The sums over zip(strict=True) and over the tail; None when the lists differ in length. */
  method ExactMcNemar(baseline: seq<bool>, treatment: seq<bool>) returns (r: Option<Test>)
    ensures r.Some? <==> |baseline| == |treatment|
    ensures r.Some? ==>
              && r.value.regressed == Alone(baseline, treatment) && r.value.improved == Alone(treatment, baseline)
              && r.value.discordant == r.value.regressed + r.value.improved
              && r.value.pValue == PValue(Alone(baseline, treatment), Alone(treatment, baseline))
  {
    if |baseline| != |treatment| { return None; }
    var regressed, improved := 0, 0;
    for i := 0 to |baseline|
      invariant regressed == Alone(baseline[..i], treatment[..i])
      invariant improved == Alone(treatment[..i], baseline[..i])
    {
      assert baseline[..i + 1][..i] == baseline[..i] && treatment[..i + 1][..i] == treatment[..i];
      if Worse(baseline[i], treatment[i]) { regressed := regressed + 1; }
      if Worse(treatment[i], baseline[i]) { improved := improved + 1; }
    }
    assert baseline[..|baseline|] == baseline && treatment[..|treatment|] == treatment;
    var discordant := regressed + improved;
    var pValue := 1.0;
    if discordant != 0 {
      var smaller := if regressed <= improved then regressed else improved;
      var tail := 0;
      for k := 0 to smaller + 1
        invariant tail == Between(discordant, 0, k)
      {
        tail := tail + Choose(discordant, k);
      }
      pValue := 2.0 * (tail as real / Power2(discordant) as real);
      if pValue > 1.0 { pValue := 1.0; }
    }
    return Some(Test(regressed, improved, discordant, pValue));
  }

  /** Places where the first list succeeds and the second does not. */
  ghost function Places(first: seq<bool>, second: seq<bool>): set<nat>
    requires |first| == |second|
  {
    set i: nat | i < |first| && first[i] && !second[i]
  }

  /** The two counts are of the pairs that only the baseline, or only the treatment, gets right. */
  lemma {:induction false} AloneCounts(first: seq<bool>, second: seq<bool>)
    requires |first| == |second|
    ensures Alone(first, second) == |Places(first, second)|
  {
    if first != [] {
      var n := |first| - 1;
      AloneCounts(first[..n], second[..n]);
      var before := Places(first[..n], second[..n]);
      assert Places(first, second) == if first[n] && !second[n] then before + {n} else before;
    }
  }

  // ----- binomial facts -----

  lemma {:induction false} ChooseAbove(n: nat, k: nat)
    requires k > n
    ensures Choose(n, k) == 0
  {
    if n > 0 {
      ChooseAbove(n - 1, k - 1);
      ChooseAbove(n - 1, k);
    }
  }

  lemma {:induction false} ChoosePositive(n: nat, k: nat)
    requires k <= n
    ensures Choose(n, k) >= 1
  {
    if k > 0 {
      ChoosePositive(n - 1, k - 1);
    }
  }

  lemma {:induction false} ChooseDiagonal(n: nat)
    ensures Choose(n, n) == 1
  {
    if n > 0 {
      ChooseDiagonal(n - 1);
      ChooseAbove(n - 1, n);
    }
  }

  lemma {:induction false} ChooseSymmetric(n: nat, k: nat)
    requires k <= n
    ensures Choose(n, k) == Choose(n, n - k)
    decreases n
  {
    if k == 0 || k == n {
      ChooseDiagonal(n);
    } else {
      ChooseSymmetric(n - 1, k - 1);
      ChooseSymmetric(n - 1, k);
      assert Choose(n, n - k) == Choose(n - 1, n - k - 1) + Choose(n - 1, n - k);
    }
  }

  lemma {:induction false} BetweenSplits(n: nat, lo: nat, middle: nat, hi: nat)
    requires lo <= middle <= hi
    ensures Between(n, lo, hi) == Between(n, lo, middle) + Between(n, middle, hi)
  {
    if middle < hi {
      BetweenSplits(n, lo, middle, hi - 1);
    }
  }

  lemma {:induction false} BetweenFirst(n: nat, lo: nat, hi: nat)
    requires lo < hi
    ensures Between(n, lo, hi) == Choose(n, lo) + Between(n, lo + 1, hi)
  {
    BetweenSplits(n, lo, lo + 1, hi);
    assert Between(n, lo, lo) == 0;
  }

  /** Counting failures instead of successes reverses the tosses. */
  lemma {:induction false} BetweenReversed(n: nat, lo: nat, hi: nat)
    requires lo <= hi <= n + 1
    ensures Between(n, lo, hi) == Between(n, n + 1 - hi, n + 1 - lo)
    decreases hi - lo
  {
    if lo < hi {
      BetweenReversed(n, lo, hi - 1);
      ChooseSymmetric(n, hi - 1);
      BetweenFirst(n, n + 1 - hi, n + 1 - lo);
    }
  }

  /** One more toss: each count comes from the same count and the one below. */
  lemma {:induction false} BetweenPascal(n: nat, hi: nat)
    ensures Between(n + 1, 0, hi + 1) == Between(n, 0, hi) + Between(n, 0, hi + 1)
  {
    if hi > 0 {
      BetweenPascal(n, hi - 1);
    } else {
      assert Between(n, 0, 0) == 0 && Between(n + 1, 0, 0) == 0;
    }
  }

  lemma {:induction false} RowSum(n: nat)
    ensures Between(n, 0, n + 1) == Power2(n)
  {
    if n == 0 {
      assert Between(0, 0, 0) == 0;
    } else {
      RowSum(n - 1);
      BetweenPascal(n - 1, n);
      ChooseAbove(n - 1, n);
    }
  }

  lemma {:induction false} BetweenMonotone(n: nat, lo: nat, hi: nat, hi': nat)
    requires hi <= hi'
    ensures Between(n, lo, hi) <= Between(n, lo, hi')
  {
    if hi < hi' {
      BetweenMonotone(n, lo, hi, hi' - 1);
    }
  }

  // ----- main results -----

  /** The outcomes at least as far from an even split as the one observed, in either direction. */
  function TwoSided(n: nat, smaller: nat): nat
    requires smaller <= n
  {
    Between(n, 0, smaller + 1) + Between(n, n - smaller, n + 1)
  }

  lemma TailsAgree(n: nat, smaller: nat)
    requires smaller <= n
    ensures TwoSided(n, smaller) == 2 * Between(n, 0, smaller + 1)
  {
    BetweenReversed(n, 0, smaller + 1);
  }

  /** The doubled tail exceeds the whole exactly on a tie. */
  lemma DoubledTail(n: nat, smaller: nat)
    requires 2 * smaller <= n
    ensures 2 * smaller < n ==> 2 * Between(n, 0, smaller + 1) <= Power2(n)
    ensures 2 * smaller == n ==> 2 * Between(n, 0, smaller + 1) > Power2(n)
  {
    TailsAgree(n, smaller);
    RowSum(n);
    if 2 * smaller < n {
      BetweenSplits(n, 0, smaller + 1, n + 1);
      BetweenSplits(n, smaller + 1, n - smaller, n + 1);
    } else {
      BetweenSplits(n, 0, smaller, n + 1);
      ChoosePositive(n, smaller);
    }
  }

  lemma Divides(a: real, b: real, c: real)
    requires b > 0.0 && c == a / b
    ensures c * b == a
  {
  }

  lemma SameQuotient(b: real, x: real, y: real)
    requires b > 0.0 && x * b == y * b
    ensures x == y
  {
    assert (x - y) * b == 0.0;
  }

  lemma AtMostOne(a: real, b: real, c: real)
    requires b > 0.0 && c * b == a
    ensures c <= 1.0 <==> a <= b
  {
    assert (c - 1.0) * b == a - b;
  }

  lemma Halved(a: nat, b: nat)
    requires b >= 1
    ensures 2.0 * (a as real / b as real) == (2 * a) as real / b as real
    ensures (2 * a) as real / b as real <= 1.0 <==> 2 * a <= b
  {
    var d, x, y := b as real, a as real / b as real, (2 * a) as real / b as real;
    Divides(a as real, d, x);
    Divides((2 * a) as real, d, y);
    var twice := 2.0 * x;
    assert twice * d == (2 * a) as real;
    SameQuotient(d, twice, y);
    AtMostOne((2 * a) as real, d, y);
  }

  /**
   * Whenever the discordant counts differ, the p-value is the exact two-sided mass: the outcomes at least as far from
   * an even split, among all Power2(n); the cap at one takes effect exactly on a tie; the arms may be exchanged.
   */
  lemma ExactTwoSided(regressed: nat, improved: nat)
    ensures var n, m := regressed + improved, if regressed <= improved then regressed else improved;
            && (regressed != improved ==> PValue(regressed, improved) == TwoSided(n, m) as real / Power2(n) as real)
            && (2 * Between(n, 0, m + 1) > Power2(n) <==> regressed == improved)
            && (regressed == improved ==> PValue(regressed, improved) == 1.0)
            && PValue(improved, regressed) == PValue(regressed, improved)
  {
    hide Between, Power2, TwoSided;
    var n, m := regressed + improved, if regressed <= improved then regressed else improved;
    DoubledTail(n, m);
    TailsAgree(n, m);
    Halved(Between(n, 0, m + 1), Power2(n));
  }

  lemma DivideMonotone(a: nat, b: nat, c: nat)
    requires a <= b && c >= 1
    ensures a as real / c as real <= b as real / c as real
  {
    assert (b as real / c as real - a as real / c as real) * c as real == (b - a) as real;
  }

  /** For a fixed number of discordant pairs, a larger smaller count never lowers the p-value, which stays in (0, 1]. */
  lemma MonotoneInSmaller(a: nat, b: nat, a': nat, b': nat)
    requires a <= b && a' <= b' && a + b == a' + b' && a <= a'
    ensures 0.0 < PValue(a, b) <= PValue(a', b') <= 1.0
  {
    var n := a + b;
    BetweenMonotone(n, 0, a + 1, a' + 1);
    BetweenMonotone(n, 0, 1, a + 1);
    assert Between(n, 0, 1) == 1 by { assert Between(n, 0, 0) == 0; }
    hide Between, Power2;
    DivideMonotone(Between(n, 0, a + 1), Between(n, 0, a' + 1), Power2(n));
    DividePositive(Between(n, 0, a + 1), Power2(n));
  }

  lemma DividePositive(a: nat, c: nat)
    requires a >= 1 && c >= 1
    ensures a as real / c as real > 0.0
  {
  }
}
