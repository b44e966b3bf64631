/**
 Ordinary least squares by the normal equations, and the strategy's periodic refit
 (linear_regression.py, _ols_fit, _predict and _fit_model).
 */
module LeastSquares {
  import opened Common
  import opened LinearSystem
  import opened Vectors

  /** Every row has k features. */
  ghost predicate IsTable(x: Matrix, k: nat) {
    forall t :: 0 <= t < |x| ==> |x[t]| == k
  }

  function Width(x: Matrix): nat {
    if |x| == 0 then 0 else |x[0]|
  }

  function Predict(row: seq<real>, beta: seq<real>, intercept: real): real
    requires |row| == |beta|
  {
    Dot(row, beta, |beta|) + intercept
  }

  function Residuals(x: Matrix, y: seq<real>, beta: seq<real>, intercept: real): (r: seq<real>)
    requires |x| == |y| && IsTable(x, |beta|)
    ensures |r| == |y|
  {
    seq(|y|, t requires 0 <= t < |y| => y[t] - Predict(x[t], beta, intercept))
  }

  /** The sum of squared residuals. */
  function SquaredError(x: Matrix, y: seq<real>, beta: seq<real>, intercept: real): real
    requires |x| == |y| && IsTable(x, |beta|)
  {
    var r := Residuals(x, y, beta, intercept);
    Dot(r, r, |r|)
  }

  /** The table with a trailing column of ones, which carries the intercept. */
  function WithIntercept(x: Matrix): (z: Matrix)
    ensures |z| == |x| && forall t :: 0 <= t < |x| ==> z[t] == x[t] + [1.0]
  {
    seq(|x|, t requires 0 <= t < |x| => x[t] + [1.0])
  }

  function Column(z: Matrix, i: nat): (c: seq<real>)
    requires forall t :: 0 <= t < |z| ==> i < |z[t]|
    ensures |c| == |z| && forall t :: 0 <= t < |z| ==> c[t] == z[t][i]
  {
    seq(|z|, t requires 0 <= t < |z| => z[t][i])
  }

  /** Z^T w over the first t rows. */
  function Weighted(z: Matrix, cols: nat, w: seq<real>, t: nat): (v: seq<real>)
    requires IsTable(z, cols) && |w| == |z| && t <= |z|
    ensures |v| == cols && forall i :: 0 <= i < cols ==> v[i] == Dot(Column(z, i), w, t)
  {
    seq(cols, i requires 0 <= i < cols => Dot(Column(z, i), w, t))
  }

  /** Z^T Z. */
  function Gram(z: Matrix, cols: nat): (g: Matrix)
    requires IsTable(z, cols)
    ensures |g| == cols && IsSquare(g)
    ensures forall i :: 0 <= i < cols ==> g[i] == Weighted(z, cols, Column(z, i), |z|)
  {
    seq(cols, i requires 0 <= i < cols => Weighted(z, cols, Column(z, i), |z|))
  }

  /** Z v, one fitted value a row. */
  function Fitted(z: Matrix, v: seq<real>): (f: seq<real>)
    requires IsTable(z, |v|)
    ensures |f| == |z| && forall t :: 0 <= t < |z| ==> f[t] == Dot(z[t], v, |v|)
  {
    seq(|z|, t requires 0 <= t < |z| => Dot(z[t], v, |v|))
  }

  /** theta solves Z^T Z theta = Z^T y. */
  ghost predicate NormalEquations(z: Matrix, y: seq<real>, theta: seq<real>)
    requires |z| == |y| && IsTable(z, |theta|)
  {
    SolvesSystem(Gram(z, |theta|), Weighted(z, |theta|, y, |z|), theta)
  }

  // ----- algebra of inner products -----

  /** One more row adds its multiple. */
  lemma WeightedStep(z: Matrix, cols: nat, w: seq<real>, t: nat)
    requires IsTable(z, cols) && |w| == |z| && 0 < t <= |z|
    ensures forall i :: 0 <= i < cols ==>
              Weighted(z, cols, w, t)[i] == Weighted(z, cols, w, t - 1)[i] + w[t - 1] * z[t - 1][i]
  {
    forall i | 0 <= i < cols
      ensures Weighted(z, cols, w, t)[i] == Weighted(z, cols, w, t - 1)[i] + w[t - 1] * z[t - 1][i]
    {
      var c := Column(z, i);
      assert Dot(c, w, t) == Dot(c, w, t - 1) + c[t - 1] * w[t - 1];
    }
  }

  lemma AdjointStep(z: Matrix, w: seq<real>, v: seq<real>, t: nat)
    requires IsTable(z, |v|) && |w| == |z| && 0 < t <= |z|
    ensures Dot(Weighted(z, |v|, w, t), v, |v|)
            == Dot(Weighted(z, |v|, w, t - 1), v, |v|) + Times(w[t - 1], Dot(z[t - 1], v, |v|))
  {
    hide Dot, Weighted, Times;
    WeightedStep(z, |v|, w, t);
    DotLinear(Weighted(z, |v|, w, t - 1), z[t - 1], Weighted(z, |v|, w, t), w[t - 1], v, |v|);
  }

  lemma WeightedNothing(z: Matrix, w: seq<real>, v: seq<real>)
    requires IsTable(z, |v|) && |w| == |z|
    ensures Dot(Weighted(z, |v|, w, 0), v, |v|) == 0.0 == Dot(w, Fitted(z, v), 0)
  {
    ZeroProducts(Weighted(z, |v|, w, 0), v, |v|);
  }

  /** <Z^T w, v> = <w, Z v>: the two orders of summation agree. */
  lemma {:induction false} Adjoint(z: Matrix, w: seq<real>, v: seq<real>, t: nat)
    requires IsTable(z, |v|) && |w| == |z| && t <= |z|
    ensures Dot(Weighted(z, |v|, w, t), v, |v|) == Dot(w, Fitted(z, v), t)
  {
    hide Dot, Weighted, Times;
    if t == 0 {
      WeightedNothing(z, w, v);
    } else {
      Adjoint(z, w, v, t - 1);
      AdjointStep(z, w, v, t);
      DotStep(w, Fitted(z, v), t);
    }
  }

  // ----- from the normal equations to least squares -----

  function ResidualVector(z: Matrix, y: seq<real>, theta: seq<real>): (r: seq<real>)
    requires |z| == |y| && IsTable(z, |theta|)
    ensures |r| == |y| && forall t :: 0 <= t < |y| ==> r[t] == y[t] - Fitted(z, theta)[t]
  {
    seq(|y|, t requires 0 <= t < |y| => y[t] - Fitted(z, theta)[t])
  }

  /** Equation i says that column i sees the fitted values as it sees y. */
  lemma NormalEquationOfColumn(z: Matrix, y: seq<real>, theta: seq<real>, i: nat)
    requires |z| == |y| && IsTable(z, |theta|) && i < |theta|
    requires NormalEquations(z, y, theta)
    ensures Dot(Column(z, i), Fitted(z, theta), |z|) == Dot(Column(z, i), y, |z|)
  {
    hide Dot;
    assert Dot(Gram(z, |theta|)[i], theta, |theta|) == Weighted(z, |theta|, y, |z|)[i];
    Adjoint(z, Column(z, i), theta, |z|);
  }

  lemma LessEntries(y: seq<real>, f: seq<real>, r: seq<real>)
    requires |y| == |f| == |r| && forall t :: 0 <= t < |y| ==> r[t] == y[t] - f[t]
    ensures forall t :: 0 <= t < |y| ==> r[t] == y[t] + -1.0 * f[t]
  {
  }

  lemma Negated(d: real)
    ensures Times(-1.0, d) == -d
  {
  }

  lemma DifferenceIsZero(c: seq<real>, y: seq<real>, f: seq<real>, r: seq<real>)
    requires |c| == |y| == |f| == |r| && forall t :: 0 <= t < |y| ==> r[t] == y[t] - f[t]
    requires Dot(c, f, |c|) == Dot(c, y, |c|)
    ensures Dot(c, r, |c|) == 0.0
  {
    hide Dot, Times;
    LessEntries(y, f, r);
    DotLinear(y, f, r, -1.0, c, |c|);
    Negated(Dot(f, c, |c|));
    DotSymmetric(y, c, |c|);
    DotSymmetric(f, c, |c|);
    DotSymmetric(r, c, |c|);
  }

  /** The residuals are orthogonal to every column. */
  lemma Orthogonal(z: Matrix, y: seq<real>, theta: seq<real>, i: nat)
    requires |z| == |y| && IsTable(z, |theta|) && i < |theta|
    requires NormalEquations(z, y, theta)
    ensures Dot(Column(z, i), ResidualVector(z, y, theta), |z|) == 0.0
  {
    hide Dot, Column;
    var n, c, f := |z|, Column(z, i), Fitted(z, theta);
    NormalEquationOfColumn(z, y, theta, i);
    DifferenceIsZero(c, y, f, ResidualVector(z, y, theta));
  }

  /** Any other coefficient vector adds the squared length of its change to the error. */
  lemma Pythagoras(z: Matrix, y: seq<real>, theta: seq<real>, other: seq<real>) returns (f: seq<real>)
    requires |z| == |y| && |theta| == |other| && IsTable(z, |theta|)
    requires NormalEquations(z, y, theta)
    ensures |f| == |z| && forall t :: 0 <= t < |z| ==> f[t] == Fitted(z, other)[t] - Fitted(z, theta)[t]
    ensures var r, s := ResidualVector(z, y, theta), ResidualVector(z, y, other);
            Dot(s, s, |s|) == Dot(r, r, |r|) + Dot(f, f, |f|)
  {
    var n, cols := |z|, |theta|;
    var d := seq(cols, i requires 0 <= i < cols => other[i] - theta[i]);
    f := Fitted(z, d);
    var r, s := ResidualVector(z, y, theta), ResidualVector(z, y, other);
    forall t | 0 <= t < n
      ensures f[t] == Fitted(z, other)[t] - Fitted(z, theta)[t]
    {
      DotLinear(other, theta, d, -1.0, z[t], cols);
      DotSymmetric(other, z[t], cols);
      DotSymmetric(theta, z[t], cols);
      DotSymmetric(d, z[t], cols);
    }
    forall i | 0 <= i < cols
      ensures Weighted(z, cols, r, n)[i] == 0.0
    {
      Orthogonal(z, y, theta, i);
    }
    ZeroProducts(Weighted(z, cols, r, n), d, cols);
    Adjoint(z, r, d, n);
    NormOfDifference(r, f, s);
  }

  /** The normal equations give the least error, and any vector as good solves them too. */
  lemma NormalEquationsMinimise(z: Matrix, y: seq<real>, theta: seq<real>, other: seq<real>)
    requires |z| == |y| && |theta| == |other| && IsTable(z, |theta|)
    requires NormalEquations(z, y, theta)
    ensures var r, s := ResidualVector(z, y, theta), ResidualVector(z, y, other);
            && Dot(r, r, |r|) <= Dot(s, s, |s|)
            && (Dot(r, r, |r|) == Dot(s, s, |s|) ==> NormalEquations(z, y, other))
  {
    var f := Pythagoras(z, y, theta, other);
    NormNonNeg(f, |f|);
    if Dot(f, f, |f|) == 0.0 {
      assert Fitted(z, other) == Fitted(z, theta);
      forall i | 0 <= i < |theta|
        ensures Dot(Gram(z, |other|)[i], other, |other|) == Weighted(z, |other|, y, |z|)[i]
      {
        Adjoint(z, Column(z, i), other, |z|);
        Adjoint(z, Column(z, i), theta, |z|);
        assert Dot(Gram(z, |theta|)[i], theta, |theta|) == Weighted(z, |theta|, y, |z|)[i];
      }
    }
  }

  // ----- back to coefficients and an intercept -----

  lemma InterceptIsLastCoefficient(x: Matrix, y: seq<real>, beta: seq<real>, intercept: real)
    requires |x| == |y| && IsTable(x, |beta|)
    ensures ResidualVector(WithIntercept(x), y, beta + [intercept]) == Residuals(x, y, beta, intercept)
  {
    var z, theta := WithIntercept(x), beta + [intercept];
    forall t | 0 <= t < |x|
      ensures Fitted(z, theta)[t] == Predict(x[t], beta, intercept)
    {
      DotPrefix(z[t], theta, x[t], beta, |beta|);
    }
  }

  /** What a least-squares fit promises: no coefficients and no intercept do better. */
  ghost predicate IsLeastSquares(x: Matrix, y: seq<real>, beta: seq<real>, intercept: real)
    requires |x| == |y| && IsTable(x, |beta|)
  {
    forall b, c | |b| == |beta| ::
      SquaredError(x, y, beta, intercept) <= SquaredError(x, y, b, c)
  }

  /** ... and no other coefficients do as well. */
  ghost predicate IsUniqueBest(x: Matrix, y: seq<real>, beta: seq<real>, intercept: real)
    requires |x| == |y| && IsTable(x, |beta|)
  {
    forall b, c | |b| == |beta| ::
      SquaredError(x, y, b, c) <= SquaredError(x, y, beta, intercept) ==> b == beta && c == intercept
  }

  /** The residuals are orthogonal to every feature column and sum to zero. */
  ghost predicate ResidualsAreOrthogonal(x: Matrix, y: seq<real>, beta: seq<real>, intercept: real)
    requires |x| == |y| && IsTable(x, |beta|)
  {
    var r := Residuals(x, y, beta, intercept);
    && (forall i :: 0 <= i < |beta| ==> Dot(Column(x, i), r, |r|) == 0.0)
    && Sum(r) == 0.0
  }

  lemma NormalEquationsFit(x: Matrix, y: seq<real>, beta: seq<real>, intercept: real)
    requires |x| == |y| && IsTable(x, |beta|)
    requires NormalEquations(WithIntercept(x), y, beta + [intercept])
    ensures IsLeastSquares(x, y, beta, intercept)
    ensures ResidualsAreOrthogonal(x, y, beta, intercept)
  {
    var z, theta, k := WithIntercept(x), beta + [intercept], |beta|;
    var r := Residuals(x, y, beta, intercept);
    InterceptIsLastCoefficient(x, y, beta, intercept);
    forall b, c | |b| == |beta|
      ensures SquaredError(x, y, beta, intercept) <= SquaredError(x, y, b, c)
    {
      InterceptIsLastCoefficient(x, y, b, c);
      NormalEquationsMinimise(z, y, theta, b + [c]);
    }
    forall i | 0 <= i < k
      ensures Dot(Column(x, i), r, |r|) == 0.0
    {
      Orthogonal(z, y, theta, i);
      assert Column(x, i) == Column(z, i);
    }
    Orthogonal(z, y, theta, k);
    SumIsDotWithOnes(r, Column(z, k), |r|);
    assert r[..|r|] == r;
  }

  /** A competitor with no larger error solves the normal equations too. */
  lemma AsGoodSolvesToo(x: Matrix, y: seq<real>, beta: seq<real>, intercept: real, b: seq<real>, c: real)
    requires |x| == |y| && |b| == |beta| && IsTable(x, |beta|)
    requires NormalEquations(WithIntercept(x), y, beta + [intercept])
    requires SquaredError(x, y, b, c) <= SquaredError(x, y, beta, intercept)
    ensures NormalEquations(WithIntercept(x), y, b + [c])
    ensures b + [c] == beta + [intercept] ==> b == beta && c == intercept
  {
    assert (b + [c])[..|b|] == b && (b + [c])[|b|] == c;
    assert (beta + [intercept])[..|b|] == beta && (beta + [intercept])[|b|] == intercept;
    InterceptIsLastCoefficient(x, y, beta, intercept);
    InterceptIsLastCoefficient(x, y, b, c);
    NormalEquationsMinimise(WithIntercept(x), y, beta + [intercept], b + [c]);
  }

  ghost predicate OnlySolution(z: Matrix, y: seq<real>, theta: seq<real>)
    requires |z| == |y| && IsTable(z, |theta|)
  {
    && NormalEquations(z, y, theta)
    && forall v :: |v| == |theta| && NormalEquations(z, y, v) ==> v == theta
  }

  lemma OnlySolutionSolves(z: Matrix, y: seq<real>, theta: seq<real>)
    requires |z| == |y| && IsTable(z, |theta|) && OnlySolution(z, y, theta)
    ensures NormalEquations(z, y, theta)
  {
  }

  lemma NoOtherIsAsGood(x: Matrix, y: seq<real>, beta: seq<real>, intercept: real, b: seq<real>, c: real)
    requires |x| == |y| && |b| == |beta| && IsTable(x, |beta|)
    requires OnlySolution(WithIntercept(x), y, beta + [intercept])
    requires SquaredError(x, y, b, c) <= SquaredError(x, y, beta, intercept)
    ensures b == beta && c == intercept
  {
    hide SquaredError, NormalEquations;
    AsGoodSolvesToo(x, y, beta, intercept, b, c);
  }

  /** The one solution of the normal equations is the one least-squares fit. */
  lemma OnlySolutionIsUniqueBest(x: Matrix, y: seq<real>, beta: seq<real>, intercept: real)
    requires |x| == |y| && IsTable(x, |beta|)
    requires OnlySolution(WithIntercept(x), y, beta + [intercept])
    ensures IsUniqueBest(x, y, beta, intercept)
  {
    forall b, c | |b| == |beta| && SquaredError(x, y, b, c) <= SquaredError(x, y, beta, intercept)
      ensures b == beta && c == intercept
    {
      NoOtherIsAsGood(x, y, beta, intercept, b, c);
    }
  }

  // ----- the program -----

  /** Whether elimination accepts the normal equations of this data set. */
  ghost predicate Solvable(x: Matrix, y: seq<real>)
    requires |x| == |y| && IsTable(x, Width(x))
  {
    var z, cols := WithIntercept(x), Width(x) + 1;
    Forward(Augment(Gram(z, cols), Weighted(z, cols, y, |z|)), cols).Some?
  }

  function PlusProduct(a: real, p: real, q: real): real {
    a + Times(p, q)
  }

  /** xtx += row row^T. */
  method AddOuterProduct(xtx: array<seq<real>>, row: seq<real>)
    requires |row| == xtx.Length && IsTable(xtx[..], |row|)
    modifies xtx
    ensures IsTable(xtx[..], |row|)
    ensures forall i, j :: 0 <= i < |row| && 0 <= j < |row| ==> xtx[i][j] == PlusProduct(old(xtx[i])[j], row[i], row[j])
  {
    hide PlusProduct;
    ghost var m := xtx[..];
    var cols := |row|;
    for i := 0 to cols
      invariant IsTable(xtx[..], cols)
      invariant forall r, c :: 0 <= r < i && 0 <= c < cols ==> xtx[r][c] == PlusProduct(m[r][c], row[r], row[c])
      invariant forall r :: i <= r < cols ==> xtx[r] == m[r]
    {
      ghost var before := xtx[..];
      for j := 0 to cols
        invariant IsTable(xtx[..], cols)
        invariant forall r :: 0 <= r < cols && r != i ==> xtx[r] == before[r]
        invariant forall c :: 0 <= c < j ==> xtx[i][c] == PlusProduct(m[i][c], row[i], row[c])
        invariant forall c :: j <= c < cols ==> xtx[i][c] == m[i][c]
      {
        xtx[i] := xtx[i][j := PlusProduct(xtx[i][j], row[i], row[j])];
      }
    }
  }

  lemma GramStep(z: Matrix, cols: nat, i: nat, j: nat, t: nat)
    requires IsTable(z, cols) && i < cols && j < cols && t < |z|
    ensures Dot(Column(z, j), Column(z, i), t + 1)
            == PlusProduct(Dot(Column(z, j), Column(z, i), t), z[t][i], z[t][j])
  {
    DotStep(Column(z, j), Column(z, i), t + 1);
    TimesCommutes(z[t][i], z[t][j]);
  }

  method BuildGram(z: Matrix, cols: nat) returns (xtx: array<seq<real>>)
    requires IsTable(z, cols)
    ensures fresh(xtx) && xtx[..] == Gram(z, cols)
  {
    hide Dot, Times, PlusProduct, Column;
    xtx := new seq<real>[cols](_ => seq(cols, _ => 0.0));
    forall i, j | 0 <= i < cols && 0 <= j < cols
      ensures Dot(Column(z, j), Column(z, i), 0) == 0.0
    {
      DotNone(Column(z, j), Column(z, i));
    }
    for t := 0 to |z|
      invariant IsTable(xtx[..], cols)
      invariant forall i, j :: 0 <= i < cols && 0 <= j < cols ==> xtx[i][j] == Dot(Column(z, j), Column(z, i), t)
    {
      AddOuterProduct(xtx, z[t]);
      forall i, j | 0 <= i < cols && 0 <= j < cols
        ensures xtx[i][j] == Dot(Column(z, j), Column(z, i), t + 1)
      {
        GramStep(z, cols, i, j, t);
      }
    }
    forall i | 0 <= i < cols
      ensures xtx[..][i] == Gram(z, cols)[i]
    {
      assert |xtx[..][i]| == cols;
    }
  }

  method BuildMoment(z: Matrix, cols: nat, y: seq<real>) returns (xty: array<real>)
    requires IsTable(z, cols) && |y| == |z|
    ensures fresh(xty) && xty[..] == Weighted(z, cols, y, |z|)
  {
    hide Dot, Times, Column;
    xty := new real[cols](_ => 0.0);
    forall j | 0 <= j < cols
      ensures Dot(Column(z, j), y, 0) == 0.0
    {
      DotNone(Column(z, j), y);
    }
    for t := 0 to |z|
      invariant forall j :: 0 <= j < cols ==> xty[j] == Dot(Column(z, j), y, t)
    {
      for j := 0 to cols
        invariant forall c :: 0 <= c < j ==> xty[c] == Dot(Column(z, c), y, t + 1)
        invariant forall c :: j <= c < cols ==> xty[c] == Dot(Column(z, c), y, t)
      {
        DotStep(Column(z, j), y, t + 1);
        xty[j] := PlusProduct(xty[j], z[t][j], y[t]);
      }
    }
  }

  method SolveNormalEquations(z: Matrix, cols: nat, y: seq<real>) returns (theta: Option<seq<real>>)
    requires |z| == |y| && IsTable(z, cols)
    ensures theta.Some? <==> Forward(Augment(Gram(z, cols), Weighted(z, cols, y, |z|)), cols).Some?
    ensures theta.Some? ==> |theta.value| == cols && OnlySolution(z, y, theta.value)
  {
    var xtx := BuildGram(z, cols);
    var xty := BuildMoment(z, cols, y);
    theta := SolveLinearSystem(xtx, xty);
    if theta.Some? {
      forall v | |v| == cols && NormalEquations(z, y, v)
        ensures v == theta.value
      {
        assert SolvesSystem(xtx[..], xty[..], v);
      }
    }
  }

  /**
   Fits y = X beta + intercept. When elimination accepts the normal equations the answer is the one
   least-squares fit; otherwise it is the empty coefficient list and a zero intercept.
   */
  method OlsFit(xMat: Matrix, y: seq<real>) returns (beta: seq<real>, intercept: real)
    requires |xMat| == |y| && IsTable(xMat, Width(xMat))
    ensures |y| > 0 && Solvable(xMat, y) ==>
              && |beta| == Width(xMat)
              && IsLeastSquares(xMat, y, beta, intercept)
              && IsUniqueBest(xMat, y, beta, intercept)
              && ResidualsAreOrthogonal(xMat, y, beta, intercept)
    ensures |y| == 0 || !Solvable(xMat, y) ==> beta == [] && intercept == 0.0
  {
    hide Forward, Gram, Weighted, Augment, OnlySolution, NormalEquations;
    hide IsLeastSquares, IsUniqueBest, ResidualsAreOrthogonal;
    if |y| == 0 {
      return [], 0.0;
    }
    var k := |xMat[0]|;
    var theta := SolveNormalEquations(WithIntercept(xMat), k + 1, y);
    if theta.None? {
      return [], 0.0;
    }
    beta, intercept := theta.value[..k], theta.value[k];
    assert beta + [intercept] == theta.value;
    OnlySolutionSolves(WithIntercept(xMat), y, theta.value);
    NormalEquationsFit(xMat, y, beta, intercept);
    OnlySolutionIsUniqueBest(xMat, y, beta, intercept);
  }

  // ----- the rolling model -----

  const MIN_HISTORY := 20

  lemma {:induction false} SquaresSum(r: seq<real>, sq: seq<real>, k: nat)
    requires k <= |r| && k <= |sq| && forall t :: 0 <= t < k ==> sq[t] == r[t] * r[t]
    ensures Sum(sq[..k]) == Dot(r, r, k)
  {
    if k == 0 {
    } else {
      SquaresSum(r, sq, k - 1);
      assert sq[..k][..k - 1] == sq[..k - 1];
    }
  }

  method ComputeResiduals(x: Matrix, y: seq<real>, beta: seq<real>, intercept: real) returns (residuals: seq<real>)
    requires |x| == |y| && IsTable(x, |beta|)
    ensures residuals == Residuals(x, y, beta, intercept)
  {
    residuals := [];
    for t := 0 to |y|
      invariant residuals == Residuals(x, y, beta, intercept)[..t]
    {
      residuals := residuals + [y[t] - Predict(x[t], beta, intercept)];
    }
  }

  /** The population variance; for residuals summing to zero, the mean square. */
  method Variance(r: seq<real>) returns (v: real)
    requires |r| > 0
    ensures Sum(r) == 0.0 ==> v * |r| as real == Dot(r, r, |r|)
  {
    var n := |r|;
    var meanR := Mean(r);
    var squares := seq(n, t requires 0 <= t < n => (r[t] - meanR) * (r[t] - meanR));
    v := Sum(squares) / n as real;
    DivMul(Sum(squares), n as real);
    if Sum(r) == 0.0 {
      SquaresSum(r, squares, n);
      assert squares[..n] == squares;
    }
  }

  /** The least error is zero exactly when some line fits perfectly. */
  lemma ZeroIffPerfect(x: Matrix, y: seq<real>, beta: seq<real>, intercept: real)
    requires |x| == |y| && IsTable(x, |beta|) && IsLeastSquares(x, y, beta, intercept)
    ensures SquaredError(x, y, beta, intercept) >= 0.0
    ensures SquaredError(x, y, beta, intercept) == 0.0 <==>
            exists b, c :: |b| == |beta| && SquaredError(x, y, b, c) == 0.0
  {
    var r := Residuals(x, y, beta, intercept);
    NormNonNeg(r, |r|);
  }

  lemma PositiveFactor(v: real, n: real)
    requires n > 0.0 && v * n >= 0.0
    ensures v > 0.0 <==> v * n != 0.0
  {
  }

  datatype Model = Model(beta: seq<real>, intercept: real, residualVar: real)

  ghost predicate PerfectFitExists(x: Matrix, y: seq<real>)
    requires |x| == |y| && IsTable(x, Width(x))
  {
    exists b, c :: |b| == Width(x) && SquaredError(x, y, b, c) == 0.0
  }

  /** When a refit replaces the model. */
  ghost predicate Refits(x: Matrix, y: seq<real>)
    requires |x| == |y| && IsTable(x, Width(x))
  {
    |y| >= MIN_HISTORY && Width(x) > 0 && Solvable(x, y) && !PerfectFitExists(x, y)
  }

  /**
   The model is the unique least-squares fit, its residuals average to zero, and its recorded
   variance is the least mean squared error.
   */
  ghost predicate IsBestModel(x: Matrix, y: seq<real>, m: Model)
    requires |x| == |y| && IsTable(x, Width(x))
  {
    && |m.beta| == Width(x)
    && IsLeastSquares(x, y, m.beta, m.intercept)
    && IsUniqueBest(x, y, m.beta, m.intercept)
    && Sum(Residuals(x, y, m.beta, m.intercept)) == 0.0
    && m.residualVar > 0.0
    && m.residualVar * |y| as real == SquaredError(x, y, m.beta, m.intercept)
  }

  method FitHistory(x: Matrix, y: seq<real>) returns (m: Option<Model>)
    requires |x| == |y| && IsTable(x, Width(x))
    ensures m.Some? <==> Refits(x, y)
    ensures m.Some? ==> IsBestModel(x, y, m.value)
  {
    hide Solvable, IsLeastSquares, IsUniqueBest, Dot, Times;
    if |y| < MIN_HISTORY {
      return None;
    }
    var beta, intercept := OlsFit(x, y);
    if |beta| == 0 {
      return None;
    }
    var residuals := ComputeResiduals(x, y, beta, intercept);
    var varR := Variance(residuals);
    ZeroIffPerfect(x, y, beta, intercept);
    PositiveFactor(varR, |y| as real);
    if varR > 0.0 {
      return Some(Model(beta, intercept, varR));
    }
    return None;
  }

  /** The state _fit_model reads and writes; residualVar is the square of the residual std. */
  class RollingRegression {
    var featureHistory: seq<seq<real>>
    var priceHistory: seq<real>
    var model: Model
    var modelFitted: bool
    var tradesSinceLastFit: nat

    ghost predicate Valid()
      reads this
    {
      |featureHistory| == |priceHistory| && IsTable(featureHistory, Width(featureHistory))
    }

    /** A refit that cannot improve on anything changes nothing, the refit counter included. */
    method FitModel()
      requires Valid()
      modifies this`model, this`modelFitted, this`tradesSinceLastFit
      ensures Refits(featureHistory, priceHistory) ==>
                modelFitted && tradesSinceLastFit == 0 && IsBestModel(featureHistory, priceHistory, model)
      ensures !Refits(featureHistory, priceHistory) ==>
                && model == old(model) && modelFitted == old(modelFitted)
                && tradesSinceLastFit == old(tradesSinceLastFit)
    {
      var m := FitHistory(featureHistory, priceHistory);
      if m.Some? {
        model, modelFitted, tradesSinceLastFit := m.value, true, 0;
      }
    }
  }
}
