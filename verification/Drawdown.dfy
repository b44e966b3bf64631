/**
 Drawdown and total return, from an equity curve (metrics.py) and rebuilt from its period returns
 (monte_carlo.py).
 */
module Drawdown {
  import opened Common

  function RunMax(c: seq<real>): real
    requires |c| > 0
  {
    if |c| == 1 then c[0] else Max(RunMax(c[..|c| - 1]), c[|c| - 1])
  }

  /** The fraction lost since the peak. */
  function Decline(peak: real, value: real): real {
    if peak > 0.0 then (peak - value) / peak else 0.0
  }

  /** The largest decline from the running peak, one pass over the curve. */
  function WorstDecline(c: seq<real>): real
    requires |c| > 0
  {
    if |c| == 1 then 0.0
    else Max(WorstDecline(c[..|c| - 1]), Decline(RunMax(c), c[|c| - 1]))
  }

  /** How many periods ago the curve last stood at its running peak. */
  function Underwater(c: seq<real>): nat
    requires |c| > 0
  {
    if |c| == 1 || c[|c| - 1] >= RunMax(c[..|c| - 1]) then 0 else Underwater(c[..|c| - 1]) + 1
  }

  function LongestUnderwater(c: seq<real>): nat
    requires |c| > 0
  {
    if |c| == 1 then 0
    else if Underwater(c) > LongestUnderwater(c[..|c| - 1]) then Underwater(c)
    else LongestUnderwater(c[..|c| - 1])
  }

  /** What one more value does to the peak and the drawdown. */
  lemma OneMore(c: seq<real>, i: nat)
    requires i + 1 < |c|
    ensures RunMax(c[..i + 2]) == Max(RunMax(c[..i + 1]), c[i + 1])
    ensures WorstDecline(c[..i + 2]) == Max(WorstDecline(c[..i + 1]), Decline(RunMax(c[..i + 2]), c[i + 1]))
  {
    assert c[..i + 2][..i + 1] == c[..i + 1];
  }

  predicate Positive(c: seq<real>) {
    forall i :: 0 <= i < |c| ==> c[i] > 0.0
  }

  /** The return over one period; none from a value of zero. */
  function PeriodReturn(before: real, after: real): real {
    if before != 0.0 then (after - before) / before else 0.0
  }

  function Returns(c: seq<real>): (r: seq<real>)
    ensures |r| == if |c| < 2 then 0 else |c| - 1
  {
    if |c| < 2 then []
    else seq(|c| - 1, i requires 0 <= i < |c| - 1 => PeriodReturn(c[i], c[i + 1]))
  }

  /** The growth factor of a series of returns. */
  function Compound(r: seq<real>): real {
    if |r| == 0 then 1.0 else Times(Compound(r[..|r| - 1]), 1.0 + r[|r| - 1])
  }

  /** The unit-start equity curve a series of returns implies. */
  function Rebuilt(r: seq<real>): (c: seq<real>)
    ensures |c| == |r| + 1
  {
    seq(|r| + 1, i requires 0 <= i <= |r| => Compound(r[..i]))
  }

  // ----- the single pass finds the maximum over all pairs -----

  lemma {:induction false} RunMaxIsMax(c: seq<real>)
    requires |c| > 0
    ensures forall i :: 0 <= i < |c| ==> c[i] <= RunMax(c)
    ensures exists i :: 0 <= i < |c| && c[i] == RunMax(c)
  {
    var n := |c|;
    if n == 1 {
      assert c[0] == RunMax(c);
    } else {
      var p := c[..n - 1];
      RunMaxIsMax(p);
      assert forall i :: 0 <= i < n - 1 ==> p[i] == c[i];
      if c[n - 1] <= RunMax(p) {
        var i :| 0 <= i < n - 1 && p[i] == RunMax(p);
        assert c[i] == RunMax(c);
      } else {
        assert c[n - 1] == RunMax(c);
      }
    }
  }

  /** The same value is a smaller share of a larger peak. */
  lemma RetainedShare(s: real, a: real, t: real, b: real, v: real)
    requires 0.0 < a <= b && 0.0 < v && s * a == v && t * b == v
    ensures t <= s
  {
    if t < 0.0 {
      StrictMul(t, 0.0, b);
    }
    MulMono(a, b, t);
    CancelLe(t, s, a);
  }

  /** A higher reference makes a larger fractional loss down to a positive value. */
  lemma DeclineMonotone(a: real, b: real, v: real)
    requires 0.0 < a <= b && 0.0 < v
    ensures Decline(a, v) <= Decline(b, v)
  {
    DivMul(a - v, a);
    DivMul(b - v, b);
    RetainedShare(1.0 - Decline(a, v), a, 1.0 - Decline(b, v), b, v);
  }

  /** dd is the maximum of (c[i] - c[j]) / c[i] over all i <= j. */
  ghost predicate IsMaxDrawdown(c: seq<real>, dd: real) {
    && (forall i, j :: 0 <= i <= j < |c| ==> Decline(c[i], c[j]) <= dd)
    && (exists i, j :: 0 <= i <= j < |c| && Decline(c[i], c[j]) == dd)
  }

  lemma WorstDeclineAttained(c: seq<real>)
    requires |c| > 1 && IsMaxDrawdown(c[..|c| - 1], WorstDecline(c[..|c| - 1]))
    ensures exists i, j :: 0 <= i <= j < |c| && Decline(c[i], c[j]) == WorstDecline(c)
  {
    var n, p := |c|, c[..|c| - 1];
    if WorstDecline(c) == WorstDecline(p) {
      var i, j :| 0 <= i <= j < n - 1 && Decline(p[i], p[j]) == WorstDecline(p);
      assert p[i] == c[i] && p[j] == c[j];
    } else {
      RunMaxIsMax(c);
      var i :| 0 <= i < n && c[i] == RunMax(c);
      assert Decline(c[i], c[n - 1]) == WorstDecline(c);
    }
  }

  lemma {:induction false} WorstDeclineIsMaxDrawdown(c: seq<real>)
    requires |c| > 0 && Positive(c)
    ensures IsMaxDrawdown(c, WorstDecline(c))
  {
    var n := |c|;
    if n == 1 {
      assert Decline(c[0], c[0]) == 0.0;
    } else {
      var p := c[..n - 1];
      WorstDeclineIsMaxDrawdown(p);
      RunMaxIsMax(c);
      forall i, j | 0 <= i <= j < n
        ensures Decline(c[i], c[j]) <= WorstDecline(c)
      {
        if j == n - 1 {
          DeclineMonotone(c[i], RunMax(c), c[j]);
        } else {
          assert p[i] == c[i] && p[j] == c[j];
        }
      }
      WorstDeclineAttained(c);
    }
  }

  /** Underwater(c) periods ago the curve stood at its peak, and it has been below ever since. */
  lemma {:induction false} UnderwaterSincePeak(c: seq<real>)
    requires |c| > 0
    ensures Underwater(c) < |c| && c[|c| - 1 - Underwater(c)] == RunMax(c)
    ensures forall k :: |c| - 1 - Underwater(c) < k < |c| ==> c[k] < RunMax(c)
  {
    if |c| == 1 {
    } else {
      UnderwaterSincePeak(c[..|c| - 1]);
    }
  }

  // ----- returns rebuild the curve up to scale -----

  lemma CompoundStep(r: seq<real>, k: nat)
    requires 0 < k <= |r|
    ensures Compound(r[..k]) == Times(Compound(r[..k - 1]), 1.0 + r[k - 1])
  {
    assert r[..k][..k - 1] == r[..k - 1];
  }

  /** Growing by its return takes a value to the next one. */
  lemma GrowthStep(g: real, start: real, before: real, after: real)
    requires Times(g, start) == before != 0.0
    ensures Times(Times(g, 1.0 + PeriodReturn(before, after)), start) == after
  {
    var r := PeriodReturn(before, after);
    DivMul(after - before, before);
    assert (1.0 + r) * before == after;
    assert g * (1.0 + r) * start == (1.0 + r) * (g * start);
  }

  lemma CompoundNothing(start: real)
    ensures Times(Compound([]), start) == start
  {
  }

  /** Compounding the returns of a curve gives its growth. */
  lemma {:induction false} CompoundReturns(c: seq<real>, k: nat)
    requires k < |c| && forall i :: 0 <= i < |c| - 1 ==> c[i] != 0.0
    ensures Times(Compound(Returns(c)[..k]), c[0]) == c[k]
  {
    hide Times, PeriodReturn, Compound;
    if k == 0 {
      CompoundNothing(c[0]);
    } else {
      CompoundReturns(c, k - 1);
      CompoundStep(Returns(c), k);
      GrowthStep(Compound(Returns(c)[..k - 1]), c[0], c[k - 1], c[k]);
    }
  }

  /** A change of unit: keeps the order of values and the decline from one to another. */
  ghost predicate KeepsDeclines(g: real -> real) {
    && (forall a, b :: a <= b ==> g(a) <= g(b))
    && (forall a, b :: Decline(g(a), g(b)) == Decline(a, b))
  }

  /** c is d with every value converted by g. */
  ghost predicate Converted(d: seq<real>, c: seq<real>, g: real -> real) {
    |c| == |d| && forall i :: 0 <= i < |c| ==> c[i] == g(d[i])
  }

  lemma {:induction false} DrawdownIsUnitFree(d: seq<real>, c: seq<real>, g: real -> real)
    requires |d| > 0 && Converted(d, c, g) && KeepsDeclines(g)
    ensures RunMax(c) == g(RunMax(d)) && WorstDecline(c) == WorstDecline(d)
  {
    if |d| == 1 {
    } else {
      DrawdownIsUnitFree(d[..|d| - 1], c[..|d| - 1], g);
    }
  }

  lemma StretchKeepsDecline(a: real, b: real, f: real)
    requires f > 0.0
    ensures Decline(a * f, b * f) == Decline(a, b)
  {
    if a > 0.0 {
      StrictMul(0.0, a, f);
      DivMul(a - b, a);
      assert Decline(a, b) * (a * f) == a * f - b * f;
      DivUnique(Decline(a, b), a * f - b * f, a * f);
    } else {
      MulMono(a, 0.0, f);
    }
  }

  function Stretch(f: real): real -> real {
    x => Times(x, f)
  }

  lemma StretchKeepsDeclines(f: real)
    requires f > 0.0
    ensures KeepsDeclines(Stretch(f))
  {
    forall a, b | a <= b
      ensures Stretch(f)(a) <= Stretch(f)(b)
    {
      MulMono(a, b, f);
    }
    forall a, b
      ensures Decline(Stretch(f)(a), Stretch(f)(b)) == Decline(a, b)
    {
      StretchKeepsDecline(a, b, f);
    }
  }

  lemma RebuiltIsStretched(c: seq<real>)
    requires |c| > 0 && forall i :: 0 <= i < |c| - 1 ==> c[i] != 0.0
    ensures Converted(Rebuilt(Returns(c)), c, Stretch(c[0]))
  {
    hide Times, Compound, Returns;
    forall i | 0 <= i < |c|
      ensures c[i] == Stretch(c[0])(Rebuilt(Returns(c))[i])
    {
      CompoundReturns(c, i);
    }
  }

  /** The drawdown of a curve is not lost by keeping only its returns. */
  lemma ReturnsKeepDrawdown(c: seq<real>)
    requires |c| > 0 && c[0] > 0.0 && forall i :: 0 <= i < |c| - 1 ==> c[i] != 0.0
    ensures WorstDecline(Rebuilt(Returns(c))) == WorstDecline(c)
  {
    hide Rebuilt, Returns, Converted, KeepsDeclines, Stretch, WorstDecline;
    RebuiltIsStretched(c);
    StretchKeepsDeclines(c[0]);
    DrawdownIsUnitFree(Rebuilt(Returns(c)), c, Stretch(c[0]));
  }

  /** Neither is its total return. */
  lemma ReturnsKeepTotal(c: seq<real>)
    requires |c| > 0 && c[0] != 0.0 && forall i :: 0 <= i < |c| - 1 ==> c[i] != 0.0
    ensures Compound(Returns(c)) - 1.0 == c[|c| - 1] / c[0] - 1.0
  {
    var r := Returns(c);
    CompoundReturns(c, |c| - 1);
    assert r[..|c| - 1] == r;
    DivUnique(Compound(r), c[|c| - 1], c[0]);
  }

  // ----- the programs -----

  /** The loss at j can be divided by the peak before it. */
  predicate PeakDivides(c: seq<real>, j: nat)
    requires j < |c|
  {
    c[j] < RunMax(c[..j + 1]) ==> RunMax(c[..j + 1]) != 0.0
  }

  ghost predicate PeaksDivide(c: seq<real>) {
    forall j :: 0 <= j < |c| ==> PeakDivides(c, j)
  }

  lemma PositivePeaksDivide(c: seq<real>)
    requires Positive(c)
    ensures PeaksDivide(c)
  {
    forall j | 0 <= j < |c|
      ensures PeakDivides(c, j)
    {
      RunMaxIsMax(c[..j + 1]);
      assert c[..j + 1][j] > 0.0;
    }
  }

  /** The fraction lost and the number of periods under water, both at their worst. */
  datatype Worst = Worst(drawdown: real, duration: nat)

  lemma NegativePeakLoss(peak: real, value: real)
    requires value < peak && peak != 0.0
    ensures if peak > 0.0 then (peak - value) / peak == Decline(peak, value) else (peak - value) / peak < 0.0
  {
    if peak < 0.0 {
      var q := (peak - value) / peak;
      DivMul(peak - value, peak);
      if q >= 0.0 {
        MulMono(0.0, q, -peak);
      }
    }
  }

  /** Fails exactly when the curve falls below a peak of zero. */
  method ComputeMaxDrawdown(equityCurve: seq<real>) returns (r: Result<Worst, ArithmeticError>)
    ensures r.Success? <==> PeaksDivide(equityCurve)
    ensures r.Success? ==> r.value == if equityCurve == [] then Worst(0.0, 0)
                                      else Worst(WorstDecline(equityCurve), LongestUnderwater(equityCurve))
    ensures equityCurve != [] && Positive(equityCurve) ==>
              r.Success? && IsMaxDrawdown(equityCurve, r.value.drawdown)
  {
    if |equityCurve| == 0 {
      return Success(Worst(0.0, 0));
    }
    if Positive(equityCurve) {
      PositivePeaksDivide(equityCurve);
    }
    var peak := equityCurve[0];
    var maxDd, maxDuration, currentDuration := 0.0, 0, 0;
    for i := 0 to |equityCurve|
      invariant i == 0 ==> peak == equityCurve[0] && maxDd == 0.0 && maxDuration == 0 == currentDuration
      invariant i > 0 ==> peak == RunMax(equityCurve[..i]) && maxDd == WorstDecline(equityCurve[..i])
      invariant i > 0 ==> currentDuration == Underwater(equityCurve[..i])
      invariant i > 0 ==> maxDuration == LongestUnderwater(equityCurve[..i])
      invariant maxDd >= 0.0
      invariant forall j :: 0 <= j < i ==> PeakDivides(equityCurve, j)
    {
      var value := equityCurve[i];
      assert equityCurve[..i + 1][..i] == equityCurve[..i];
      if value >= peak {
        peak := value;
        currentDuration := 0;
      } else {
        assert RunMax(equityCurve[..i + 1]) == peak;
        if peak == 0.0 {
          assert !PeakDivides(equityCurve, i);
          return Failure(DivisionByZero);
        }
        var dd := (peak - value) / peak;
        NegativePeakLoss(peak, value);
        maxDd := Max(maxDd, dd);
        currentDuration := currentDuration + 1;
        maxDuration := if currentDuration > maxDuration then currentDuration else maxDuration;
      }
    }
    assert equityCurve[..|equityCurve|] == equityCurve;
    if Positive(equityCurve) {
      WorstDeclineIsMaxDrawdown(equityCurve);
    }
    return Success(Worst(maxDd, maxDuration));
  }

  method Grow(ghost rets: seq<real>, ghost i: nat, equity: real, r: real) returns (grown: real)
    requires i < |rets| && r == rets[i] && equity == Compound(rets[..i])
    ensures grown == Compound(rets[..i + 1]) == Rebuilt(rets)[i + 1]
  {
    assert rets[..i + 1][..i] == rets[..i];
    grown := Times(equity, 1.0 + r);
  }

  method MaxDrawdownFromReturns(rets: seq<real>) returns (maxDd: real)
    ensures maxDd == WorstDecline(Rebuilt(rets))
  {
    if |rets| == 0 {
      return 0.0;
    }
    ghost var curve := Rebuilt(rets);
    var equity, peak := 1.0, 1.0;
    maxDd := 0.0;
    for i := 0 to |rets|
      invariant equity == Compound(rets[..i])
      invariant peak == RunMax(curve[..i + 1]) && maxDd == WorstDecline(curve[..i + 1])
    {
      OneMore(curve, i);
      equity := Grow(rets, i, equity, rets[i]);
      if equity > peak {
        peak := equity;
      }
      var dd := if peak > 0.0 then (peak - equity) / peak else 0.0;
      assert dd == Decline(peak, equity);
      maxDd := Max(maxDd, dd);
    }
    assert curve[..|rets| + 1] == curve;
  }

  method TotalReturnFromReturns(rets: seq<real>) returns (total: real)
    ensures total == Compound(rets) - 1.0
  {
    if |rets| == 0 {
      return 0.0;
    }
    var cum := 1.0;
    for i := 0 to |rets|
      invariant cum == Compound(rets[..i])
    {
      assert rets[..i + 1][..i] == rets[..i];
      cum := Times(cum, 1.0 + rets[i]);
    }
    assert rets[..|rets|] == rets;
    return cum - 1.0;
  }
}
