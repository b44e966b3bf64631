/** Inner products of sequences of numbers. */
module Vectors {
  import opened Common

  /** The inner product of the first k entries. */
  function Dot(r: seq<real>, x: seq<real>, k: nat): real
    requires k <= |r| && k <= |x|
  {
    if k == 0 then 0.0 else Dot(r, x, k - 1) + Times(r[k - 1], x[k - 1])
  }

  lemma DotNone(a: seq<real>, b: seq<real>)
    ensures Dot(a, b, 0) == 0.0
  {
  }

  lemma DotStep(a: seq<real>, b: seq<real>, k: nat)
    requires 0 < k <= |a| && k <= |b|
    ensures Dot(a, b, k) == Dot(a, b, k - 1) + Times(a[k - 1], b[k - 1])
  {
  }

  lemma TimesLinear(s: real, r: real, f: real, p: real, x: real, d: real, next: real)
    requires s == r + f * p && next == d + Times(p, x)
    ensures Times(f, d) + Times(s, x) == Times(r, x) + Times(f, next)
  {
    assert s * x == r * x + f * (p * x);
    Distribute(f, d, p * x);
  }

  lemma TimesZero(r: real, x: real, y: real)
    ensures r == 0.0 || x == 0.0 ==> Times(r, x) == 0.0
    ensures r == 0.0 || x == y ==> Times(r, x) == Times(r, y)
  {
  }

  /** The inner product is linear in its first argument. */
  lemma {:induction false} DotLinear(r: seq<real>, p: seq<real>, s: seq<real>, f: real, x: seq<real>, k: nat)
    requires k <= |r| && k <= |p| && k <= |s| && k <= |x|
    requires forall j :: 0 <= j < k ==> s[j] == r[j] + f * p[j]
    ensures Dot(s, x, k) == Dot(r, x, k) + Times(f, Dot(p, x, k))
  {
    hide Dot, Times;
    if k == 0 {
      TimesZero(f, 0.0, 0.0);
      DotNone(r, x);
      DotNone(p, x);
      DotNone(s, x);
    } else {
      DotLinear(r, p, s, f, x, k - 1);
      DotStep(r, x, k);
      DotStep(p, x, k);
      DotStep(s, x, k);
      TimesLinear(s[k - 1], r[k - 1], f, p[k - 1], x[k - 1], Dot(p, x, k - 1), Dot(p, x, k));
    }
  }

  lemma TimesCommutes(a: real, b: real)
    ensures Times(a, b) == Times(b, a)
  {
  }

  lemma {:induction false} DotSymmetric(a: seq<real>, b: seq<real>, k: nat)
    requires k <= |a| && k <= |b|
    ensures Dot(a, b, k) == Dot(b, a, k)
  {
    hide Times;
    if k == 0 {
    } else {
      DotSymmetric(a, b, k - 1);
      TimesCommutes(a[k - 1], b[k - 1]);
    }
  }

  lemma {:induction false} DotPrefix(r: seq<real>, x: seq<real>, r': seq<real>, x': seq<real>, k: nat)
    requires k <= |r| && k <= |x| && k <= |r'| && k <= |x'|
    requires r[..k] == r'[..k] && x[..k] == x'[..k]
    ensures Dot(r, x, k) == Dot(r', x', k)
  {
    hide Times;
    if k == 0 {
    } else {
      assert forall s: seq<real> :: k <= |s| ==> s[..k - 1] == s[..k][..k - 1] && s[k - 1] == s[..k][k - 1];
      DotPrefix(r, x, r', x', k - 1);
    }
  }

  /** Entries multiplied by zero do not matter. */
  lemma {:induction false} DotAgree(row: seq<real>, x: seq<real>, y: seq<real>, k: nat)
    requires k <= |row| && k <= |x| && k <= |y|
    requires forall j :: 0 <= j < k ==> row[j] == 0.0 || x[j] == y[j]
    ensures Dot(row, x, k) == Dot(row, y, k)
  {
    hide Times;
    if k == 0 {
    } else {
      DotAgree(row, x, y, k - 1);
      TimesZero(row[k - 1], x[k - 1], y[k - 1]);
    }
  }

  /** Where every product has a zero factor, so has the sum. */
  lemma {:induction false} ZeroProducts(r: seq<real>, x: seq<real>, k: nat)
    requires k <= |r| && k <= |x|
    requires forall j :: 0 <= j < k ==> r[j] == 0.0 || x[j] == 0.0
    ensures Dot(r, x, k) == 0.0
  {
    hide Times;
    if k == 0 {
    } else {
      ZeroProducts(r, x, k - 1);
      TimesZero(r[k - 1], x[k - 1], 0.0);
    }
  }

  lemma TimesOne(x: real)
    ensures Times(1.0, x) == x
  {
  }

  lemma {:induction false} SumIsDotWithOnes(r: seq<real>, ones: seq<real>, k: nat)
    requires k <= |r| && k <= |ones| && forall t :: 0 <= t < k ==> ones[t] == 1.0
    ensures Dot(ones, r, k) == Sum(r[..k])
  {
    hide Times;
    if k == 0 {
    } else {
      TimesOne(r[k - 1]);
      SumIsDotWithOnes(r, ones, k - 1);
      assert r[..k][..k - 1] == r[..k - 1];
    }
  }

  lemma SquareSign(a: real)
    ensures Times(a, a) >= 0.0 && (Times(a, a) == 0.0 ==> a == 0.0)
  {
    SquareNonNeg(a);
    if a > 0.0 {
      ProductPositive(a, a, a * a);
    } else if a < 0.0 {
      ProductPositive(-a, -a, -a * -a);
    }
  }

  lemma {:induction false} NormNonNeg(f: seq<real>, k: nat)
    requires k <= |f|
    ensures Dot(f, f, k) >= 0.0
    ensures Dot(f, f, k) == 0.0 ==> forall t :: 0 <= t < k ==> f[t] == 0.0
  {
    hide Times;
    if k == 0 {
    } else {
      NormNonNeg(f, k - 1);
      SquareSign(f[k - 1]);
    }
  }

  /** |r - f|^2 = |r|^2 - 2 <r, f> + |f|^2. */
  lemma NormOfDifference(r: seq<real>, f: seq<real>, s: seq<real>)
    requires |r| == |f| == |s| && forall t :: 0 <= t < |r| ==> s[t] == r[t] - f[t]
    ensures Dot(s, s, |s|) == Dot(r, r, |r|) - 2.0 * Dot(r, f, |r|) + Dot(f, f, |f|)
  {
    hide Dot;
    var n := |r|;
    DotLinear(r, f, s, -1.0, s, n);
    DotSymmetric(r, s, n);
    DotSymmetric(f, s, n);
    DotLinear(r, f, s, -1.0, r, n);
    DotLinear(r, f, s, -1.0, f, n);
    DotSymmetric(f, r, n);
  }
}
