/** The Wilson score interval over exact reals, the square root given by a witness (benchmarks/report.py, _wilson). */
module Wilson {
  import opened Common

  function Max(x: real, y: real): real {
    if x >= y then x else y
  }

  function Min(x: real, y: real): real {
    if x <= y then x else y
  }

  function Proportion(successes: nat, total: nat): real
    requires total > 0
  {
    successes as real / total as real
  }

  function Radicand(p: real, total: nat, z: real): real
    requires total > 0
  {
    p * (1.0 - p) / total as real + z * z / (4.0 * total as real * total as real)
  }

  /** The root math.sqrt takes. */
  ghost predicate IsRoot(root: real, radicand: real) {
    root >= 0.0 && root * root == radicand
  }

  function Denominator(total: nat, z: real): (d: real)
    requires total > 0
    ensures d >= 1.0
  {
    assert z * z >= 0.0;
    1.0 + z * z / total as real
  }

  function Centre(p: real, total: nat, z: real): real
    requires total > 0
  {
    (p + z * z / (2.0 * total as real)) / Denominator(total, z)
  }

  function Margin(total: nat, z: real, root: real): real
    requires total > 0
  {
    z * root / Denominator(total, z)
  }

  function Interval(successes: nat, total: int, z: real, root: real): Option<(real, real)> {
    if total <= 0 then None
    else
      var p := Proportion(successes, total);
      Some((Max(0.0, Centre(p, total, z) - Margin(total, z, root)), Min(1.0, Centre(p, total, z) + Margin(total, z, root))))
  }

  /** The score statistic's numerator: x is not rejected at z exactly when this is at most zero. */
  function Score(x: real, p: real, q: real): real {
    (x - p) * (x - p) - q * x * (1.0 - x)
  }

  // With q for z * z / total, everything is a polynomial.

  lemma Divides(a: real, b: real, c: real)
    requires b != 0.0 && c == a / b
    ensures c * b == a
  {
  }

  lemma Quarter(z: real, n: real, q: real)
    requires n > 0.0 && q * n == z * z
    ensures z * z / (2.0 * n) == q / 2.0
    ensures z * z / (4.0 * n * n) * (z * z) == q * q / 4.0
  {
    assert z * z == q * n;
    assert (q / 2.0) * (2.0 * n) == z * z;
    var w := z * z / (4.0 * n * n);
    assert w * (4.0 * n * n) == z * z;
    assert w * 4.0 * n * n == q * n;
    assert (w * 4.0 * n - q) * n == 0.0;
    assert w * 4.0 * n == q;
    assert w * (q * n) * 4.0 == q * q;
  }

  /** Centre and margin times the denominator. */
  lemma Scaled(p: real, total: nat, z: real, root: real, q: real)
    requires total > 0 && q == z * z / total as real && IsRoot(root, Radicand(p, total, z))
    ensures var centre, margin := Centre(p, total, z), Margin(total, z, root);
            && centre * (1.0 + q) == p + q / 2.0
            && (margin * (1.0 + q)) * (margin * (1.0 + q)) == q * p * (1.0 - p) + q * q / 4.0
  {
    hide Centre, Margin, IsRoot;
    CentreScaled(p, total, z, q);
    MarginScaled(total, z, root, q);
    RootScaled(p, total, z, root, q);
  }

  lemma CentreScaled(p: real, total: nat, z: real, q: real)
    requires total > 0 && q == z * z / total as real
    ensures Centre(p, total, z) * (1.0 + q) == p + q / 2.0
  {
    Divides(z * z, total as real, q);
    Quarter(z, total as real, q);
    Divides(p + z * z / (2.0 * total as real), 1.0 + q, Centre(p, total, z));
  }

  lemma MarginScaled(total: nat, z: real, root: real, q: real)
    requires total > 0 && q == z * z / total as real
    ensures Margin(total, z, root) * (1.0 + q) == z * root
  {
    Divides(z * root, 1.0 + q, Margin(total, z, root));
  }

  lemma RootScaled(p: real, total: nat, z: real, root: real, q: real)
    requires total > 0 && q == z * z / total as real && IsRoot(root, Radicand(p, total, z))
    ensures (z * root) * (z * root) == q * p * (1.0 - p) + q * q / 4.0
  {
    var n := total as real;
    var spread, w := p * (1.0 - p) / n, z * z / (4.0 * n * n);
    assert root * root == spread + w;
    Divides(z * z, n, q);
    Quarter(z, n, q);
    Divides(p * (1.0 - p), n, spread);
    SquaredMargin(z, root, spread, w, n, q, p);
  }

  lemma SquaredMargin(z: real, root: real, spread: real, w: real, n: real, q: real, p: real)
    requires root * root == spread + w && spread * n == p * (1.0 - p) && q * n == z * z && w * (z * z) == q * q / 4.0
    ensures (z * root) * (z * root) == q * p * (1.0 - p) + q * q / 4.0
  {
    assert (z * root) * (z * root) == (z * z) * (root * root);
    assert (z * z) * (spread + w) == (z * z) * spread + (z * z) * w;
    assert (z * z) * spread == q * (spread * n);
    assert q * (spread * n) == q * (p * (1.0 - p));
  }

  /** The unclamped end points are the two roots of the score quadratic. */
  lemma Factors(x: real, p: real, q: real, centre: real, margin: real)
    requires q >= 0.0 && centre * (1.0 + q) == p + q / 2.0
    requires (margin * (1.0 + q)) * (margin * (1.0 + q)) == q * p * (1.0 - p) + q * q / 4.0
    ensures (1.0 + q) * (x - (centre - margin)) * (x - (centre + margin)) == Score(x, p, q)
  {
    var d := 1.0 + q;
    var c, m := centre * d, margin * d;
    var product := (x - (centre - margin)) * (x - (centre + margin));
    assert product == (x - centre) * (x - centre) - margin * margin;
    assert d * d * product == (d * x - c) * (d * x - c) - m * m by {
      assert d * (x - centre) == d * x - c;
      assert d * d * ((x - centre) * (x - centre)) == (d * (x - centre)) * (d * (x - centre));
    }
    Expands(x, p, q);
    assert d * d * product == d * Score(x, p, q);
    assert d * (d * product - Score(x, p, q)) == 0.0;
  }

  lemma Expands(x: real, p: real, q: real)
    ensures ((1.0 + q) * x - (p + q / 2.0)) * ((1.0 + q) * x - (p + q / 2.0)) - (q * p * (1.0 - p) + q * q / 4.0)
         == (1.0 + q) * Score(x, p, q)
  {
  }

  lemma Product(a: real, b: real)
    ensures a >= 0.0 && b >= 0.0 ==> a * b >= 0.0
    ensures a > 0.0 && b > 0.0 ==> a * b > 0.0
  {
  }

  lemma Negated(a: real, b: real)
    ensures a * b == -(a * -b)
  {
  }

  lemma ProductSign(a: real, b: real)
    requires a >= b
    ensures a * b <= 0.0 <==> a >= 0.0 >= b
    ensures a * b < 0.0 <==> a > 0.0 > b
  {
    if a < 0.0 {
      Product(-a, -b);
      assert a * b == -a * -b;
    } else if b > 0.0 {
      Product(a, b);
    } else {
      Product(a, -b);
      assert a * b == -(a * -b);
    }
  }

  lemma InsideIff(x: real, lo: real, hi: real)
    requires lo <= hi
    ensures (x - lo) * (x - hi) <= 0.0 <==> lo <= x <= hi
    ensures (x - lo) * (x - hi) < 0.0 <==> lo < x < hi
  {
    var a, b := x - lo, x - hi;
    assert (x - lo) * (x - hi) == a * b;
    ProductSign(a, b);
  }

  lemma ScaledSign(d: real, y: real)
    requires d >= 1.0
    ensures d * y <= 0.0 <==> y <= 0.0
    ensures d * y < 0.0 <==> y < 0.0
  {
    if y > 0.0 {
      Product(d, y);
    } else if y < 0.0 {
      Product(d, -y);
      Negated(d, y);
    } else {
      assert d * y == 0.0;
    }
  }

  /** Where a score is at most zero, between its roots. */
  lemma AcceptedIff(x: real, p: real, q: real, centre: real, margin: real)
    requires q >= 0.0 && margin >= 0.0 && centre * (1.0 + q) == p + q / 2.0
    requires (margin * (1.0 + q)) * (margin * (1.0 + q)) == q * p * (1.0 - p) + q * q / 4.0
    ensures Score(x, p, q) <= 0.0 <==> centre - margin <= x <= centre + margin
  {
    hide Score;
    Factors(x, p, q, centre, margin);
    BetweenRoots(1.0 + q, x, centre - margin, centre + margin, Score(x, p, q));
  }

  lemma BetweenRoots(d: real, x: real, lo: real, hi: real, value: real)
    requires d >= 1.0 && lo <= hi && d * (x - lo) * (x - hi) == value
    ensures value <= 0.0 <==> lo <= x <= hi
  {
    var product := (x - lo) * (x - hi);
    assert value == d * product by { Associates(d, x - lo, x - hi); }
    ScaledSign(d, product);
    InsideIff(x, lo, hi);
  }

  lemma Unclamped(p: real, q: real, centre: real, margin: real)
    requires 0.0 <= p <= 1.0 && q > 0.0 && margin >= 0.0 && centre * (1.0 + q) == p + q / 2.0
    requires (margin * (1.0 + q)) * (margin * (1.0 + q)) == q * p * (1.0 - p) + q * q / 4.0
    ensures 0.0 <= centre - margin <= p <= centre + margin <= 1.0
  {
    hide Score;
    ScoreAtProportion(p, q);
    AcceptedIff(p, p, q, centre, margin);
    CentreInside(p, q, centre);
    Factors(0.0, p, q, centre, margin);
    Factors(1.0, p, q, centre, margin);
    Product(p, p);
    Product(1.0 - p, 1.0 - p);
    NotInside(1.0 + q, 0.0, centre - margin, centre + margin, centre, p * p);
    NotInside(1.0 + q, 1.0, centre - margin, centre + margin, centre, (1.0 - p) * (1.0 - p));
  }

  lemma ScoreAtProportion(p: real, q: real)
    requires 0.0 <= p <= 1.0 && q > 0.0
    ensures Score(p, p, q) <= 0.0
    ensures Score(0.0, p, q) == p * p && Score(1.0, p, q) == (1.0 - p) * (1.0 - p)
  {
    Product(q, p);
    Product(q * p, 1.0 - p);
  }

  lemma CentreInside(p: real, q: real, centre: real)
    requires 0.0 <= p <= 1.0 && q > 0.0 && centre * (1.0 + q) == p + q / 2.0
    ensures 0.0 < centre < 1.0
  {
    ScaledSign(1.0 + q, -centre);
    ScaledSign(1.0 + q, centre - 1.0);
    assert (1.0 + q) * (centre - 1.0) == p + q / 2.0 - 1.0 - q;
  }

  /** A point where the quadratic is not negative is not strictly between its roots. */
  lemma NotInside(d: real, x: real, lo: real, hi: real, centre: real, value: real)
    requires d >= 1.0 && lo <= centre <= hi && value >= 0.0 && d * (x - lo) * (x - hi) == value
    ensures x < centre ==> x <= lo
    ensures x > centre ==> x >= hi
  {
    NotNegative(d, x - lo, x - hi, value);
    Outside(x, lo, hi, centre);
  }

  lemma NotNegative(d: real, a: real, b: real, value: real)
    requires d >= 1.0 && value >= 0.0 && d * a * b == value
    ensures a * b >= 0.0
  {
    Associates(d, a, b);
    ScaledSign(d, a * b);
  }

  lemma Associates(d: real, a: real, b: real)
    ensures d * a * b == d * (a * b)
  {
  }

  lemma Outside(x: real, lo: real, hi: real, centre: real)
    requires lo <= centre <= hi && (x - lo) * (x - hi) >= 0.0
    ensures x < centre ==> x <= lo
    ensures x > centre ==> x >= hi
  {
    InsideIff(x, lo, hi);
  }

  // ----- main result -----

  /**
   * For every count and every positive z: the end points before clamping factor the score quadratic, enclose the
   * observed proportion, and lie in the unit interval, so the clamps return them unchanged; and the interval is
   * exactly the set of proportions the score test at z does not reject.
   */
  lemma WilsonExact(successes: nat, total: nat, z: real, root: real, x: real)
    requires 0 < total && successes <= total && z > 0.0
    requires IsRoot(root, Radicand(Proportion(successes, total), total, z))
    ensures var p, q := Proportion(successes, total), z * z / total as real;
            var lo := Centre(p, total, z) - Margin(total, z, root);
            var hi := Centre(p, total, z) + Margin(total, z, root);
            && Interval(successes, total, z, root) == Some((lo, hi))
            && 0.0 <= lo <= p <= hi <= 1.0
            && (1.0 + q) * (x - lo) * (x - hi) == Score(x, p, q)
            && (lo <= x <= hi <==> (x - p) * (x - p) <= q * x * (1.0 - x))
  {
    hide IsRoot, Radicand, Centre, Margin, Proportion, Score, Interval;
    var p, q := Proportion(successes, total), z * z / total as real;
    var centre, margin := Centre(p, total, z), Margin(total, z, root);
    ProportionRange(successes, total);
    QuotientPositive(total, z);
    Scaled(p, total, z, root, q);
    MarginNonnegative(total, z, root, p);
    Exact(p, q, centre, margin, x);
    Unclipped(successes, total, z, root);
  }

  lemma Exact(p: real, q: real, centre: real, margin: real, x: real)
    requires 0.0 <= p <= 1.0 && q > 0.0 && margin >= 0.0 && centre * (1.0 + q) == p + q / 2.0
    requires (margin * (1.0 + q)) * (margin * (1.0 + q)) == q * p * (1.0 - p) + q * q / 4.0
    ensures var (lo, hi) := (centre - margin, centre + margin);
            && 0.0 <= lo <= p <= hi <= 1.0
            && (1.0 + q) * (x - lo) * (x - hi) == Score(x, p, q)
            && (lo <= x <= hi <==> (x - p) * (x - p) <= q * x * (1.0 - x))
  {
    hide Score;
    Unclamped(p, q, centre, margin);
    Factors(x, p, q, centre, margin);
    AcceptedIff(x, p, q, centre, margin);
    ScoreIff(x, p, q);
  }

  lemma ScoreIff(x: real, p: real, q: real)
    ensures Score(x, p, q) <= 0.0 <==> (x - p) * (x - p) <= q * x * (1.0 - x)
  {
  }

  lemma Unclipped(successes: nat, total: nat, z: real, root: real)
    requires total > 0
    ensures var p := Proportion(successes, total);
            var lo := Centre(p, total, z) - Margin(total, z, root);
            var hi := Centre(p, total, z) + Margin(total, z, root);
            0.0 <= lo && hi <= 1.0 ==> Interval(successes, total, z, root) == Some((lo, hi))
  {
    hide Centre, Margin, Proportion;
  }

  lemma ProductPositive(a: real, b: real, c: real)
    requires a > 0.0 && b > 0.0 && c == a * b
    ensures c > 0.0
  {
  }

  lemma RatioPositive(a: real, b: real, c: real)
    requires a > 0.0 && b > 0.0 && c == a / b
    ensures c > 0.0
  {
  }

  lemma QuotientPositive(total: nat, z: real)
    requires 0 < total && z > 0.0
    ensures z * z / total as real > 0.0
  {
    ProductPositive(z, z, z * z);
    RatioPositive(z * z, total as real, z * z / total as real);
  }

  lemma ScaledUp(b: real, y: real)
    requires b > 0.0
    ensures b * y >= 0.0 <==> y >= 0.0
    ensures b * y > 0.0 <==> y > 0.0
  {
    if y > 0.0 {
      Product(b, y);
    } else if y < 0.0 {
      Product(b, -y);
      Negated(b, y);
    } else {
      assert b * y == 0.0;
    }
  }

  lemma Ratio(a: real, b: real, c: real)
    requires b > 0.0 && c == a / b
    ensures a >= 0.0 ==> c >= 0.0
    ensures a <= b ==> c <= 1.0
  {
    Divides(a, b, c);
    ScaledUp(b, c);
    ScaledUp(b, 1.0 - c);
    assert b * (1.0 - c) == b - a;
  }

  lemma ProportionRange(successes: nat, total: nat)
    requires 0 < total && successes <= total
    ensures 0.0 <= Proportion(successes, total) <= 1.0
  {
    Ratio(successes as real, total as real, Proportion(successes, total));
  }

  lemma MarginNonnegative(total: nat, z: real, root: real, p: real)
    requires total > 0 && z > 0.0 && IsRoot(root, Radicand(p, total, z))
    ensures Margin(total, z, root) >= 0.0
  {
    hide Radicand;
    Product(z, root);
    Ratio(z * root, Denominator(total, z), Margin(total, z, root));
  }
}
