/**
 Pearson correlation (alpha_decay.py, backtest_analysis.py, cross_asset.py) and the z-score of a
 spread (cross_asset.py). A square root enters as a number given with its square.
 */
module Correlation {
  import opened Common
  import opened Vectors

  /** Fewer observations give no correlation: 5 for signal returns, 20 across assets. */
  const MIN_SIGNALS := 5
  const MIN_OBSERVATIONS := 20

  /** Below this a variance, or a product of standard deviations, counts as zero. */
  const NEGLIGIBLE := 0.000000000000001

  function Centred(xs: seq<real>): (d: seq<real>)
    requires |xs| > 0
    ensures |d| == |xs| && forall i :: 0 <= i < |xs| ==> d[i] == xs[i] - Mean(xs)
  {
    seq(|xs|, i requires 0 <= i < |xs| => xs[i] - Mean(xs))
  }

  function Covariance(xs: seq<real>, ys: seq<real>): real
    requires |xs| == |ys| > 0
  {
    Dot(Centred(xs), Centred(ys), |xs|) / |xs| as real
  }

  function Variance(xs: seq<real>): real
    requires |xs| > 0
  {
    Covariance(xs, xs)
  }

  /** s is the non-negative square root of v. */
  predicate IsRoot(s: real, v: real) {
    s >= 0.0 && s * s == v
  }

  /** The correlation of signals and returns; root is the product of the standard deviations. */
  function SignalCorrelation(xs: seq<real>, ys: seq<real>, root: real): Option<real>
    requires |xs| == |ys|
    requires |xs| > 0 ==> IsRoot(root, Variance(xs) * Variance(ys))
  {
    if |xs| < MIN_SIGNALS || root < NEGLIGIBLE then None else Some(Covariance(xs, ys) / root)
  }

  lemma NonZeroRoot(root: real, a: real, b: real)
    requires IsRoot(root, a * b) && a > 0.0 && b > 0.0
    ensures root > 0.0
  {
    ProductPositive(a, b, a * b);
  }

  /** The correlation of two assets' returns. */
  function AssetCorrelation(xs: seq<real>, ys: seq<real>, root: real): Option<real>
    requires |xs| == |ys|
    requires |xs| > 0 ==> IsRoot(root, Variance(xs) * Variance(ys))
  {
    if |xs| < MIN_OBSERVATIONS || Variance(xs) < NEGLIGIBLE || Variance(ys) < NEGLIGIBLE then None
    else
      NonZeroRoot(root, Variance(xs), Variance(ys));
      Some(Covariance(xs, ys) / root)
  }

  // ----- the Cauchy-Schwarz inequality -----

  function Scaled(b: seq<real>, t: real): (f: seq<real>)
    ensures |f| == |b| && forall i :: 0 <= i < |b| ==> f[i] == t * b[i]
  {
    seq(|b|, i requires 0 <= i < |b| => t * b[i])
  }

  lemma ScaledEntries(b: seq<real>, t: real, zeros: seq<real>)
    requires |zeros| == |b| && forall j :: 0 <= j < |b| ==> zeros[j] == 0.0
    ensures forall j :: 0 <= j < |b| ==> Scaled(b, t)[j] == zeros[j] + t * b[j]
  {
  }

  /** <t b, a> = t <b, a>. */
  lemma DotScaled(a: seq<real>, b: seq<real>, t: real)
    requires |a| == |b|
    ensures Dot(Scaled(b, t), a, |a|) == Times(t, Dot(b, a, |a|))
  {
    hide Dot, Times;
    var zeros := seq(|a|, _ => 0.0);
    ScaledEntries(b, t, zeros);
    DotLinear(zeros, b, Scaled(b, t), t, a, |a|);
    ZeroProducts(zeros, a, |a|);
  }

  lemma DifferenceNorm(a: seq<real>, f: seq<real>)
    requires |a| == |f|
    ensures Dot(a, a, |a|) - 2.0 * Dot(a, f, |a|) + Dot(f, f, |a|) >= 0.0
  {
    hide Dot;
    var s := seq(|a|, i requires 0 <= i < |a| => a[i] - f[i]);
    NormOfDifference(a, f, s);
    NormNonNeg(s, |a|);
  }

  /** |a - t b|^2 is not negative. */
  lemma Quadratic(a: seq<real>, b: seq<real>, t: real, ab: real, bb: real)
    requires |a| == |b| && ab == Dot(a, b, |a|) && bb == Dot(b, b, |a|)
    ensures Dot(a, a, |a|) - 2.0 * Times(t, ab) + Times(t, Times(t, bb)) >= 0.0
  {
    hide Dot, Times;
    var f := Scaled(b, t);
    DotScaled(a, b, t);
    DotScaled(f, b, t);
    DotScaled(b, b, t);
    DotSymmetric(a, b, |a|);
    DotSymmetric(a, f, |a|);
    DotSymmetric(b, f, |a|);
    DifferenceNorm(a, f);
  }

  /** The quadratic in averages instead of sums. */
  lemma AverageQuadratic(u: real, x: real, y: real, n: real, aa: real, tab: real, tbb: real)
    requires n > 0.0 && u * n == aa && x * n == tab && y * n == tbb
    requires aa - 2.0 * tab + tbb >= 0.0
    ensures u - 2.0 * x + y >= 0.0
  {
    assert (u - 2.0 * x + y) * n == aa - 2.0 * tab + tbb;
    CancelLe(0.0, u - 2.0 * x + y, n);
  }

  lemma Regroup(k: real, v: real, n: real, s: real, r: real, q: real)
    requires v * n == s && r == k * v && q == k * s
    ensures r * n == q
  {
  }

  /** The best multiple makes the quadratic a bound on the mixed term. */
  lemma BestMultiple(u: real, c: real, v: real, t: real, tt: real, tc: real, ttv: real)
    requires v > 0.0 && t * v == c && tt == t * t && tc == t * c && ttv == tt * v
    requires u - 2.0 * tc + ttv >= 0.0
    ensures c * c <= u * v
  {
    assert ttv == tc;
    MulMono(tc, u, v);
    assert tc * v == c * c;
  }

  /** Sums that make a non-negative quadratic in one multiple, averaged: c^2 <= u v. */
  lemma BoundFromSums(u: real, c: real, v: real, n: real, t: real, aa: real, ab: real, bb: real)
    requires n > 0.0 && v > 0.0 && t * v == c && u * n == aa && c * n == ab && v * n == bb
    requires aa - 2.0 * Times(t, ab) + Times(t, Times(t, bb)) >= 0.0
    ensures c * c <= u * v
  {
    var tt, tc := t * t, t * c;
    var ttv, x, y := tt * v, t * ab, tt * bb;
    Regroup(t, c, n, ab, tc, x);
    Regroup(tt, v, n, bb, ttv, y);
    AverageQuadratic(u, tc, ttv, n, aa, x, y);
    BestMultiple(u, c, v, t, tt, tc, ttv);
  }

  lemma PositiveAverage(v: real, n: real, s: real)
    requires n > 0.0 && v * n == s && s > 0.0
    ensures v > 0.0
  {
    if v <= 0.0 {
      MulMono(v, 0.0, n);
    }
  }

  /** With c / v as the multiple, the averages of inner products obey c^2 <= u v. */
  lemma BoundFromQuadratic(a: seq<real>, b: seq<real>, u: real, c: real, v: real, n: real)
    requires |a| == |b| && n > 0.0 && Dot(b, b, |a|) > 0.0
    requires u * n == Dot(a, a, |a|) && c * n == Dot(a, b, |a|) && v * n == Dot(b, b, |a|)
    ensures c * c <= u * v
  {
    hide Dot, Times;
    PositiveAverage(v, n, Dot(b, b, |a|));
    DivMul(c, v);
    Quadratic(a, b, c / v, Dot(a, b, |a|), Dot(b, b, |a|));
    BoundFromSums(u, c, v, n, c / v, Dot(a, a, |a|), Dot(a, b, |a|), Dot(b, b, |a|));
  }

  lemma CauchySchwarz(a: seq<real>, b: seq<real>)
    requires |a| == |b|
    ensures Dot(a, b, |a|) * Dot(a, b, |a|) <= Dot(a, a, |a|) * Dot(b, b, |a|)
  {
    hide Dot;
    var n := |a|;
    NormNonNeg(b, n);
    if Dot(b, b, n) > 0.0 {
      BoundFromQuadratic(a, b, Dot(a, a, n), Dot(a, b, n), Dot(b, b, n), 1.0);
    } else {
      ZeroProducts(b, a, n);
      DotSymmetric(a, b, n);
    }
  }

  // ----- correlations -----

  lemma ZeroCovariance(u: real, c: real, v: real, n: real)
    requires n > 0.0 && c * n == 0.0 == v * n
    ensures c * c <= u * v
  {
    assert c == 0.0 && v == 0.0;
  }

  lemma AveragesBounded(a: seq<real>, b: seq<real>, u: real, c: real, v: real, n: real)
    requires |a| == |b| && n > 0.0
    requires u == Dot(a, a, |a|) / n && c == Dot(a, b, |a|) / n && v == Dot(b, b, |a|) / n
    ensures c * c <= u * v
  {
    hide Dot;
    DivMul(Dot(a, a, |a|), n);
    DivMul(Dot(a, b, |a|), n);
    DivMul(Dot(b, b, |a|), n);
    NormNonNeg(b, |a|);
    if Dot(b, b, |a|) > 0.0 {
      BoundFromQuadratic(a, b, u, c, v, n);
    } else {
      ZeroProducts(b, a, |a|);
      DotSymmetric(a, b, |a|);
      ZeroCovariance(u, c, v, n);
    }
  }

  /** cov^2 <= var_x var_y. */
  lemma CovarianceBounded(xs: seq<real>, ys: seq<real>)
    requires |xs| == |ys| > 0
    ensures Covariance(xs, ys) * Covariance(xs, ys) <= Variance(xs) * Variance(ys)
  {
    hide Dot, Centred;
    var a, b, n := Centred(xs), Centred(ys), |xs| as real;
    AveragesBounded(a, b, Variance(xs), Covariance(xs, ys), Variance(ys), n);
  }

  lemma WithinUnit(q: real, root: real, c: real)
    requires root > 0.0 && q * root == c && -root <= c <= root
    ensures -1.0 <= q <= 1.0
  {
    CancelLe(-1.0, q, root);
    CancelLe(q, 1.0, root);
  }

  lemma QuotientWithinUnit(c: real, root: real)
    requires root > 0.0 && c * c <= root * root
    ensures -1.0 <= c / root <= 1.0
  {
    RootMono(c, root);
    assert -c * -c == c * c;
    RootMono(-c, root);
    DivMul(c, root);
    WithinUnit(c / root, root, c);
  }

  /** Every correlation reported, by either rule, lies in [-1, 1]. */
  lemma CorrelationsWithinUnit(xs: seq<real>, ys: seq<real>, root: real)
    requires |xs| == |ys|
    requires |xs| > 0 ==> IsRoot(root, Variance(xs) * Variance(ys))
    ensures SignalCorrelation(xs, ys, root).Some? ==> -1.0 <= SignalCorrelation(xs, ys, root).value <= 1.0
    ensures AssetCorrelation(xs, ys, root).Some? ==> -1.0 <= AssetCorrelation(xs, ys, root).value <= 1.0
  {
    if |xs| > 0 && root > 0.0 {
      CovarianceBounded(xs, ys);
      QuotientWithinUnit(Covariance(xs, ys), root);
    }
  }

  // ----- the spread z-score -----

  lemma {:induction false} SumShifted(xs: seq<real>, d: seq<real>, m: real)
    requires |xs| == |d| && forall i :: 0 <= i < |xs| ==> d[i] == xs[i] - m
    ensures Sum(d) == Sum(xs) - |xs| as real * m
  {
    var n := |xs|;
    if n == 0 {
    } else {
      SumShifted(xs[..n - 1], d[..n - 1], m);
      assert n as real * m == (n - 1) as real * m + m;
    }
  }

  lemma CentredSumsToZero(xs: seq<real>)
    requires |xs| > 0
    ensures Sum(Centred(xs)) == 0.0
  {
    SumShifted(xs, Centred(xs), Mean(xs));
    DivMul(Sum(xs), |xs| as real);
  }

  lemma {:induction false} OnesNorm(ones: seq<real>, k: nat)
    requires k <= |ones| && forall i :: 0 <= i < k ==> ones[i] == 1.0
    ensures Dot(ones, ones, k) == k as real
  {
    if k == 0 {
    } else {
      OnesNorm(ones, k - 1);
    }
  }

  /** The square of a sum is at most the number of terms times the sum of squares. */
  lemma SquareOfSum(p: seq<real>)
    ensures Sum(p) * Sum(p) <= |p| as real * Dot(p, p, |p|)
  {
    var ones := seq(|p|, _ => 1.0);
    CauchySchwarz(ones, p);
    OnesNorm(ones, |p|);
    SumIsDotWithOnes(p, ones, |p|);
    assert p[..|p|] == p;
  }

  lemma DeviationAlgebra(m: real, x: real, s: real)
    requires (-x) * (-x) <= (m - 1.0) * s
    ensures m * (x * x) <= (m - 1.0) * (s + x * x)
  {
    assert (-x) * (-x) == x * x;
    assert (m - 1.0) * (s + x * x) == (m - 1.0) * s + m * (x * x) - x * x;
  }

  /** One deviation among m squares to at most (m - 1) / m of the sum of all squares. */
  lemma OneDeviation(d: seq<real>)
    requires |d| > 0 && Sum(d) == 0.0
    ensures var last := d[|d| - 1];
            |d| as real * (last * last) <= (|d| - 1) as real * Dot(d, d, |d|)
  {
    var m, p, last := |d|, d[..|d| - 1], d[|d| - 1];
    SquareOfSum(p);
    assert Sum(p) == -last;
    DotPrefix(p, p, d, d, m - 1);
    assert Dot(d, d, m) == Dot(p, p, m - 1) + last * last;
    DeviationAlgebra(m as real, last, Dot(p, p, m - 1));
  }

  /** The z-score of the last ratio against all of them; root is their standard deviation. */
  function SpreadZScore(ratios: seq<real>, root: real): Option<real>
    requires |ratios| > 0 ==> IsRoot(root, Variance(ratios))
  {
    if |ratios| < MIN_OBSERVATIONS || Variance(ratios) < NEGLIGIBLE then None
    else Some((ratios[|ratios| - 1] - Mean(ratios)) / root)
  }

  lemma SquarePositive(root: real, v: real)
    requires root > 0.0 && root * root == v
    ensures v > 0.0
  {
    ProductPositive(root, root, v);
  }

  lemma SquareShare(q: real, m: real, k: real, s: real, v: real)
    requires m > 0.0 && v * m == s && m * q <= k * s
    ensures q <= k * v
  {
    Regroup(k, v, m, s, k * v, k * s);
    CancelLe(q, k * v, m);
  }

  lemma SquareOfQuotient(z: real, root: real, x: real, v: real)
    requires z * root == x && root * root == v
    ensures (z * z) * v == x * x
  {
    ProductOfScaled(z, z, root);
  }

  lemma ShareOfOne(p: real, w: real, k: real, q: real)
    requires w > 0.0 && p * w == q && q <= k * w
    ensures p <= k
  {
    CancelLe(p, k, w);
  }

  lemma ZScoreSquared(x: real, root: real, m: real, s: real, v: real)
    requires root > 0.0 && m > 0.0 && root * root == v && v * m == s
    requires m * (x * x) <= (m - 1.0) * s
    ensures (x / root) * (x / root) <= m - 1.0
  {
    DivMul(x, root);
    SquareShare(x * x, m, m - 1.0, s, v);
    SquareOfQuotient(x / root, root, x, v);
    SquarePositive(root, v);
    ShareOfOne((x / root) * (x / root), v, m - 1.0, x * x);
  }

  /** The last ratio is never more than sqrt(m - 1) standard deviations out. */
  lemma SpreadZScoreBounded(ratios: seq<real>, root: real)
    requires |ratios| > 0 && IsRoot(root, Variance(ratios))
    requires SpreadZScore(ratios, root).Some?
    ensures var z := SpreadZScore(ratios, root).value;
            z * z <= (|ratios| - 1) as real
  {
    var m, d := |ratios|, Centred(ratios);
    var v := Variance(ratios);
    CentredSumsToZero(ratios);
    OneDeviation(d);
    DivMul(Dot(d, d, m), m as real);
    ZScoreSquared(d[m - 1], root, m as real, Dot(d, d, m), v);
  }
}
