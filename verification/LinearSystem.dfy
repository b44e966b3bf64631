/**
 Gaussian elimination with partial pivoting on a mutable augmented matrix
 (linear_regression.py, _solve_linear_system).

 The augmented matrix is an array of rows, each row a sequence: exchanging two rows exchanges two
 array elements, and reducing a row replaces its entries one at a time, as the original does.
 */
module LinearSystem {
  import opened Common
  import opened Vectors

  type Matrix = seq<seq<real>>

  /** Below this magnitude a pivot makes the solver give up. */
  const PIVOT_TOLERANCE := 0.0001

  predicate IsSquare(a: Matrix) {
    forall i :: 0 <= i < |a| ==> |a[i]| == |a|
  }

  /** One more column than rows. */
  predicate IsAugmented(m: Matrix) {
    forall i :: 0 <= i < |m| ==> |m[i]| == |m| + 1
  }

  /** x satisfies the equation written in an augmented row. */
  predicate Satisfies(row: seq<real>, x: seq<real>)
    requires |row| == |x| + 1
  {
    Dot(row, x, |x|) == row[|x|]
  }

  ghost predicate Solves(m: Matrix, x: seq<real>)
    requires IsAugmented(m) && |x| == |m|
  {
    forall i :: 0 <= i < |m| ==> Satisfies(m[i], x)
  }

  /** A x = b. */
  ghost predicate SolvesSystem(a: Matrix, b: seq<real>, x: seq<real>)
    requires IsSquare(a) && |a| == |b| == |x|
  {
    forall i :: 0 <= i < |a| ==> Dot(a[i], x, |x|) == b[i]
  }

  function Augment(a: Matrix, b: seq<real>): (m: Matrix)
    requires IsSquare(a) && |a| == |b|
    ensures IsAugmented(m) && |m| == |a|
  {
    seq(|a|, i requires 0 <= i < |a| => a[i] + [b[i]])
  }

  // ----- the elimination as a function of the matrix -----

  /** The first row in [col, upto) whose entry in column col is largest in magnitude. */
  function PivotRow(m: Matrix, col: nat, upto: nat): (p: nat)
    requires IsAugmented(m) && col < upto <= |m|
    ensures col <= p < upto
  {
    if upto == col + 1 then col
    else
      var best := PivotRow(m, col, upto - 1);
      if Abs(m[upto - 1][col]) > Abs(m[best][col]) then upto - 1 else best
  }

  function Swapped(m: Matrix, i: nat, k: nat): (r: Matrix)
    requires i < |m| && k < |m|
    ensures |r| == |m| && (IsAugmented(m) ==> IsAugmented(r))
  {
    m[i := m[k]][k := m[i]]
  }

  function Multiplier(m: Matrix, col: nat, row: nat): real
    requires IsAugmented(m) && col < |m| && row < |m| && m[col][col] != 0.0
  {
    m[row][col] / m[col][col]
  }

  /** a minus f times b. */
  function Less(a: real, f: real, b: real): real {
    a - f * b
  }

  /** Row `row` minus f times row `col`, from column col on. */
  function Reduced(m: Matrix, col: nat, row: nat, f: real): (r: Matrix)
    requires IsAugmented(m) && col < |m| && row < |m|
    ensures IsAugmented(r) && |r| == |m|
  {
    m[row := seq(|m| + 1, j requires 0 <= j <= |m| =>
                 if j < col then m[row][j] else Less(m[row][j], f, m[col][j]))]
  }

  /** Column col eliminated from the rows col + 1 .. upto - 1. */
  function Cleared(m: Matrix, col: nat, upto: nat): (r: Matrix)
    requires IsAugmented(m) && col < upto <= |m| && m[col][col] != 0.0
    ensures IsAugmented(r) && |r| == |m| && r[col] == m[col]
    ensures forall i :: upto <= i < |m| ==> r[i] == m[i]
  {
    if upto == col + 1 then m
    else
      var r := Cleared(m, col, upto - 1);
      Reduced(r, col, upto - 1, Multiplier(r, col, upto - 1))
  }

  /** The matrix with the pivot of column col brought to row col. */
  function Pivoted(m: Matrix, col: nat): (r: Matrix)
    requires IsAugmented(m) && col < |m|
    ensures IsAugmented(r) && |r| == |m|
  {
    Swapped(m, col, PivotRow(m, col, |m|))
  }

  /** The matrix after the first `cols` columns are eliminated; None once a pivot is too small. */
  function Forward(m: Matrix, cols: nat): (r: Option<Matrix>)
    requires IsAugmented(m) && cols <= |m|
    ensures r.Some? ==> IsAugmented(r.value) && |r.value| == |m|
  {
    if cols == 0 then Some(m)
    else match Forward(m, cols - 1)
      case None => None
      case Some(a) =>
        var s := Pivoted(a, cols - 1);
        if Abs(s[cols - 1][cols - 1]) < PIVOT_TOLERANCE then None
        else Some(Cleared(s, cols - 1, |m|))
  }

  function ColumnMultipliers(m: Matrix, col: nat): (fs: seq<real>)
    requires IsAugmented(m) && col < |m| && m[col][col] != 0.0
    ensures |fs| == |m| - col - 1
  {
    seq(|m| - col - 1, i requires 0 <= i < |m| - col - 1 => Multiplier(m, col, col + 1 + i))
  }

  /** Every multiplier used while the first `cols` columns are eliminated. */
  function Multipliers(m: Matrix, cols: nat): seq<real>
    requires IsAugmented(m) && cols <= |m| && Forward(m, cols).Some?
  {
    if cols == 0 then []
    else
      var s := Pivoted(Forward(m, cols - 1).value, cols - 1);
      Multipliers(m, cols - 1) + ColumnMultipliers(s, cols - 1)
  }

  // ----- row operations keep the solution set -----

  lemma SwapKeepsSolutions(m: Matrix, i: nat, k: nat, x: seq<real>)
    requires IsAugmented(m) && i < |m| && k < |m| && |x| == |m|
    ensures Solves(m, x) <==> Solves(Swapped(m, i, k), x)
  {
    var s := Swapped(m, i, k);
    assert s[i] == m[k] && s[k] == m[i];
    assert forall r :: 0 <= r < |m| && r != i && r != k ==> s[r] == m[r];
  }

  /** Entries to the left of column col are zero in rows col and row. */
  ghost predicate ZeroLeft(m: Matrix, col: nat, row: nat)
    requires IsAugmented(m) && col < |m| && row < |m|
  {
    forall j :: 0 <= j < col ==> m[col][j] == 0.0 && m[row][j] == 0.0
  }

  /** Given the pivot row's equation, a row and its reduction are the same equation. */
  lemma RowsEquivalent(r: seq<real>, p: seq<real>, s: seq<real>, f: real, x: seq<real>)
    requires |r| == |p| == |s| == |x| + 1 && Satisfies(p, x)
    requires forall j :: 0 <= j <= |x| ==> s[j] == Less(r[j], f, p[j])
    ensures Satisfies(r, x) <==> Satisfies(s, x)
  {
    DotLinear(r, p, s, -f, x, |x|);
    assert f * Dot(p, x, |x|) == f * p[|x|];
  }

  lemma ReduceKeepsSolutions(m: Matrix, col: nat, row: nat, f: real, x: seq<real>)
    requires IsAugmented(m) && col < |m| && row < |m| && row != col && |x| == |m|
    requires ZeroLeft(m, col, row)
    ensures Solves(m, x) <==> Solves(Reduced(m, col, row, f), x)
  {
    var s := Reduced(m, col, row, f);
    assert s[col] == m[col];
    assert forall i :: 0 <= i < |m| && i != row ==> s[i] == m[i];
    if Satisfies(m[col], x) {
      RowsEquivalent(m[row], m[col], s[row], f, x);
    }
  }

  // ----- what one column achieves -----

  /** The first `cols` columns are zero below the diagonal and their pivots are large enough. */
  ghost predicate Echelon(m: Matrix, cols: nat)
    requires IsAugmented(m) && cols <= |m|
  {
    && (forall c, i :: 0 <= c < cols && c < i < |m| ==> m[i][c] == 0.0)
    && (forall c :: 0 <= c < cols ==> Abs(m[c][c]) >= PIVOT_TOLERANCE)
  }

  lemma {:induction false} PivotIsLargest(m: Matrix, col: nat, upto: nat)
    requires IsAugmented(m) && col < upto <= |m|
    ensures forall i :: col <= i < upto ==> Abs(m[i][col]) <= Abs(m[PivotRow(m, col, upto)][col])
    ensures forall i :: col <= i < PivotRow(m, col, upto) ==> Abs(m[i][col]) < Abs(m[PivotRow(m, col, upto)][col])
  {
    if upto == col + 1 {
    } else {
      PivotIsLargest(m, col, upto - 1);
    }
  }

  lemma SwapKeepsEchelon(m: Matrix, col: nat)
    requires IsAugmented(m) && col < |m| && Echelon(m, col)
    ensures Echelon(Pivoted(m, col), col)
    ensures forall i :: col <= i < |m| ==> Abs(Pivoted(m, col)[i][col]) <= Abs(Pivoted(m, col)[col][col])
  {
    PivotIsLargest(m, col, |m|);
  }

  /** The multiplier is chosen to clear the entry below the pivot. */
  lemma ReduceClears(m: Matrix, col: nat, row: nat)
    requires IsAugmented(m) && col < row < |m| && m[col][col] != 0.0
    ensures Reduced(m, col, row, Multiplier(m, col, row))[row][col] == 0.0
  {
    DivMul(m[row][col], m[col][col]);
  }

  lemma ReduceKeepsEchelon(m: Matrix, col: nat, row: nat, f: real)
    requires IsAugmented(m) && col < row < |m| && Echelon(m, col)
    ensures Echelon(Reduced(m, col, row, f), col)
  {
    hide Less;
  }

  lemma {:induction false} ClearColumn(m: Matrix, col: nat, upto: nat, x: seq<real>)
    requires IsAugmented(m) && col < upto <= |m| && Echelon(m, col) && m[col][col] != 0.0
    requires |x| == |m|
    ensures Echelon(Cleared(m, col, upto), col)
    ensures forall i :: col < i < upto ==> Cleared(m, col, upto)[i][col] == 0.0
    ensures Solves(m, x) <==> Solves(Cleared(m, col, upto), x)
  {
    if upto == col + 1 {
    } else {
      ClearColumn(m, col, upto - 1, x);
      var r := Cleared(m, col, upto - 1);
      ReduceClears(r, col, upto - 1);
      ReduceKeepsEchelon(r, col, upto - 1, Multiplier(r, col, upto - 1));
      ReduceKeepsSolutions(r, col, upto - 1, Multiplier(r, col, upto - 1), x);
    }
  }

  lemma ColumnIsEchelon(a: Matrix, col: nat)
    requires IsAugmented(a) && col < |a| && Echelon(a, col) && Abs(Pivoted(a, col)[col][col]) >= PIVOT_TOLERANCE
    ensures Echelon(Cleared(Pivoted(a, col), col, |a|), col + 1)
  {
    hide Cleared, Pivoted, Solves;
    SwapKeepsEchelon(a, col);
    ClearColumn(Pivoted(a, col), col, |a|, seq(|a|, _ => 0.0));
  }

  /** What one more eliminated column takes. */
  lemma ForwardUnfold(m: Matrix, cols: nat)
    requires IsAugmented(m) && 0 < cols <= |m| && Forward(m, cols).Some?
    ensures Forward(m, cols - 1).Some?
    ensures var s := Pivoted(Forward(m, cols - 1).value, cols - 1);
            && Abs(s[cols - 1][cols - 1]) >= PIVOT_TOLERANCE
            && Forward(m, cols).value == Cleared(s, cols - 1, |m|)
  {
  }

  lemma ForwardNothing(m: Matrix)
    requires IsAugmented(m)
    ensures Forward(m, 0) == Some(m) && Echelon(m, 0)
  {
  }

  /** Elimination reaches echelon form ... */
  lemma {:induction false} ForwardIsEchelon(m: Matrix, cols: nat)
    requires IsAugmented(m) && cols <= |m| && Forward(m, cols).Some?
    ensures Echelon(Forward(m, cols).value, cols)
  {
    hide Forward, Cleared, Pivoted, Echelon;
    if cols == 0 {
      ForwardNothing(m);
    } else {
      ForwardUnfold(m, cols);
      ForwardIsEchelon(m, cols - 1);
      ColumnIsEchelon(Forward(m, cols - 1).value, cols - 1);
    }
  }

  lemma PivotKeepsSolutions(m: Matrix, col: nat, x: seq<real>)
    requires IsAugmented(m) && col < |m| && |x| == |m|
    ensures Solves(m, x) <==> Solves(Pivoted(m, col), x)
  {
    SwapKeepsSolutions(m, col, PivotRow(m, col, |m|), x);
  }

  lemma ColumnKeepsSolutions(a: Matrix, col: nat, x: seq<real>)
    requires IsAugmented(a) && col < |a| == |x| && Echelon(a, col) && Abs(Pivoted(a, col)[col][col]) >= PIVOT_TOLERANCE
    ensures Solves(a, x) <==> Solves(Cleared(Pivoted(a, col), col, |a|), x)
  {
    hide Solves, Cleared, Pivoted, Echelon;
    SwapKeepsEchelon(a, col);
    PivotKeepsSolutions(a, col, x);
    ClearColumn(Pivoted(a, col), col, |a|, x);
  }

  /** ... and neither loses nor gains a solution. */
  lemma {:induction false} ForwardKeepsSolutions(m: Matrix, cols: nat, x: seq<real>)
    requires IsAugmented(m) && cols <= |m| && |x| == |m| && Forward(m, cols).Some?
    ensures Solves(m, x) <==> Solves(Forward(m, cols).value, x)
  {
    hide Solves, Forward, Cleared, Pivoted, Echelon;
    if cols == 0 {
      ForwardNothing(m);
    } else {
      ForwardUnfold(m, cols);
      ForwardKeepsSolutions(m, cols - 1, x);
      ForwardIsEchelon(m, cols - 1);
      ColumnKeepsSolutions(Forward(m, cols - 1).value, cols - 1, x);
    }
  }

  lemma AbsProduct(a: real, b: real)
    ensures Abs(a * b) == Abs(a) * Abs(b)
  {
  }

  lemma MulGap(u: real, v: real)
    requires u > 1.0 && v > 0.0
    ensures u * v > v
  {
    assert (u - 1.0) * v > 0.0;
  }

  lemma RatioAtMostOne(u: real, v: real, w: real)
    requires v > 0.0 && u * v == w <= v
    ensures u <= 1.0
  {
    if u > 1.0 {
      MulGap(u, v);
    }
  }

  lemma QuotientAtMostOne(a: real, b: real)
    requires b != 0.0 && Abs(a) <= Abs(b)
    ensures Abs(a / b) <= 1.0
  {
    DivMul(a, b);
    AbsProduct(a / b, b);
    RatioAtMostOne(Abs(a / b), Abs(b), Abs(a));
  }

  lemma ColumnMultipliersAtMostOne(a: Matrix, col: nat)
    requires IsAugmented(a) && col < |a| && Echelon(a, col) && Pivoted(a, col)[col][col] != 0.0
    ensures forall f :: f in ColumnMultipliers(Pivoted(a, col), col) ==> Abs(f) <= 1.0
  {
    var s := Pivoted(a, col);
    var fs := ColumnMultipliers(s, col);
    SwapKeepsEchelon(a, col);
    forall i | 0 <= i < |fs|
      ensures Abs(fs[i]) <= 1.0
    {
      assert fs[i] == Multiplier(s, col, col + 1 + i);
      QuotientAtMostOne(s[col + 1 + i][col], s[col][col]);
    }
  }

  /** Partial pivoting: no row is ever multiplied by more than one in magnitude. */
  lemma {:induction false} MultipliersAtMostOne(m: Matrix, cols: nat)
    requires IsAugmented(m) && cols <= |m| && Forward(m, cols).Some?
    ensures forall f :: f in Multipliers(m, cols) ==> Abs(f) <= 1.0
  {
    if cols == 0 {
    } else {
      MultipliersAtMostOne(m, cols - 1);
      ForwardIsEchelon(m, cols - 1);
      ColumnMultipliersAtMostOne(Forward(m, cols - 1).value, cols - 1);
    }
  }

  // ----- back substitution -----

  /** The inner product restricted to the columns [lo, hi). */
  function DotRange(r: seq<real>, x: seq<real>, lo: nat, hi: nat): real
    requires lo <= hi <= |r| && hi <= |x|
  {
    if lo == hi then 0.0 else DotRange(r, x, lo, hi - 1) + Times(r[hi - 1], x[hi - 1])
  }

  /** Only the entries of x in [lo, hi) matter. */
  lemma {:induction false} DotRangeLocal(r: seq<real>, x: seq<real>, y: seq<real>, lo: nat, hi: nat)
    requires lo <= hi <= |r| && hi <= |x| && hi <= |y|
    requires forall j :: lo <= j < hi ==> x[j] == y[j]
    ensures DotRange(r, x, lo, hi) == DotRange(r, y, lo, hi)
  {
    hide Times;
    if lo == hi {
    } else {
      DotRangeLocal(r, x, y, lo, hi - 1);
    }
  }

  /** A row whose entries left of i are zero only involves x[i] and what lies right of it. */
  lemma {:induction false} TriangularRow(r: seq<real>, x: seq<real>, i: nat, k: nat)
    requires i < k <= |r| && k <= |x|
    requires forall j :: 0 <= j < i ==> r[j] == 0.0
    ensures Dot(r, x, k) == Times(r[i], x[i]) + DotRange(r, x, i + 1, k)
  {
    hide Times;
    if k == i + 1 {
      ZeroProducts(r, x, i);
    } else {
      TriangularRow(r, x, i, k - 1);
    }
  }

  lemma SameUnknown(a: real, x: real, y: real, rest: real, v: real)
    requires a != 0.0 && a * x + rest == v && a * y + rest == v
    ensures x == y
  {
    CancelEq(x, y, a);
  }

  /** A row determines its diagonal unknown from those right of it. */
  lemma RowDetermines(row: seq<real>, x: seq<real>, y: seq<real>, i: nat)
    requires i < |x| == |y| && |row| == |x| + 1 && row[i] != 0.0
    requires forall j :: 0 <= j < i ==> row[j] == 0.0
    requires forall j :: i < j < |x| ==> x[j] == y[j]
    requires Satisfies(row, x) && Satisfies(row, y)
    ensures x[i] == y[i]
  {
    hide Dot, DotRange;
    DotRangeLocal(row, x, y, i + 1, |x|);
    TriangularRow(row, x, i, |x|);
    TriangularRow(row, y, i, |x|);
    SameUnknown(row[i], x[i], y[i], DotRange(row, x, i + 1, |x|), row[|x|]);
  }

  /** Two solutions of a triangular system agree from row i on. */
  lemma {:induction false} TriangularUnique(m: Matrix, x: seq<real>, y: seq<real>, i: nat)
    requires IsAugmented(m) && |x| == |y| == |m| && i <= |m| && Echelon(m, |m|)
    requires Solves(m, x) && Solves(m, y)
    ensures x[i..] == y[i..]
    decreases |m| - i
  {
    var n := |m|;
    if i == n {
    } else {
      TriangularUnique(m, x, y, i + 1);
      assert forall j :: i + 1 <= j < n ==> x[j] == x[i + 1..][j - i - 1] == y[i + 1..][j - i - 1] == y[j];
      assert Satisfies(m[i], x) && Satisfies(m[i], y);
      RowDetermines(m[i], x, y, i);
    }
  }

  lemma AugmentedMeansSystem(a: Matrix, b: seq<real>, x: seq<real>)
    requires IsSquare(a) && |a| == |b| == |x|
    ensures Solves(Augment(a, b), x) <==> SolvesSystem(a, b, x)
  {
    var m := Augment(a, b);
    forall i | 0 <= i < |a|
      ensures Satisfies(m[i], x) <==> Dot(a[i], x, |x|) == b[i]
    {
      var z := seq(|a|, _ => 0.0);
      DotLinear(a[i], z, m[i], 0.0, x, |x|);
    }
  }

  // ----- what elimination rejects -----

  /** Column c of the rows c and below is zero: no row operation yields a pivot there. */
  ghost predicate NoPivot(a: Matrix, c: nat)
    requires IsAugmented(a) && c < |a|
  {
    forall i :: c <= i < |a| ==> a[i][c] == 0.0
  }

  /** A vector other than zero that the rows i and below send to zero. */
  ghost predicate IsKernel(a: Matrix, c: nat, i: nat, v: seq<real>)
    requires IsAugmented(a) && c < |a|
  {
    && |v| == |a| && v[c] == 1.0 && (forall j :: c < j < |a| ==> v[j] == 0.0)
    && (forall r :: i <= r < |a| ==> Dot(a[r], v, |a|) == 0.0)
  }

  /** Row i fixes entry i of the kernel vector and the rows below do not see it. */
  lemma KernelEntry(a: Matrix, c: nat, i: nat, w: seq<real>) returns (v: seq<real>)
    requires IsAugmented(a) && i < c < |a| && Echelon(a, c) && IsKernel(a, c, i + 1, w)
    ensures IsKernel(a, c, i, v)
  {
    hide Dot, DotRange;
    var n := |a|;
    var rest := DotRange(a[i], w, i + 1, n);
    v := w[i := -rest / a[i][i]];
    DivMul(-rest, a[i][i]);
    DotRangeLocal(a[i], w, v, i + 1, n);
    TriangularRow(a[i], v, i, n);
    forall r | i < r < n
      ensures Dot(a[r], v, n) == 0.0
    {
      DotAgree(a[r], w, v, n);
    }
  }

  lemma {:induction false} KernelVector(a: Matrix, c: nat, i: nat) returns (v: seq<real>)
    requires IsAugmented(a) && i <= c < |a| && Echelon(a, c) && NoPivot(a, c)
    ensures IsKernel(a, c, i, v)
    decreases c - i
  {
    var n := |a|;
    if i == c {
      v := seq(n, j => if j == c then 1.0 else 0.0);
      forall r | c <= r < n
        ensures Dot(a[r], v, n) == 0.0
      {
        ZeroProducts(a[r], v, n);
      }
    } else {
      var w := KernelVector(a, c, i + 1);
      v := KernelEntry(a, c, i, w);
    }
  }

  /** Where no pivot is left, a solution is never the only one. */
  lemma NoPivotIsSingular(a: Matrix, c: nat, x: seq<real>) returns (y: seq<real>)
    requires IsAugmented(a) && c < |a| == |x| && Echelon(a, c) && NoPivot(a, c) && Solves(a, x)
    ensures |y| == |a| && y != x && Solves(a, y)
  {
    hide Dot, Echelon;
    var n := |a|;
    var v := KernelVector(a, c, 0);
    y := seq(n, j requires 0 <= j < n => x[j] + v[j]);
    assert y[c] == x[c] + 1.0;
    forall i | 0 <= i < n
      ensures Satisfies(a[i], y)
    {
      DotLinear(x, v, y, 1.0, a[i], n);
      DotSymmetric(x, a[i], n);
      DotSymmetric(v, a[i], n);
      DotSymmetric(y, a[i], n);
      assert Satisfies(a[i], x);
    }
  }

  /** A rejection happens at the first column whose pivot is below the tolerance. */
  lemma {:induction false} RejectedAt(m: Matrix, cols: nat) returns (c: nat)
    requires IsAugmented(m) && cols <= |m| && Forward(m, cols).None?
    ensures c < cols && Forward(m, c).Some? && Abs(Pivoted(Forward(m, c).value, c)[c][c]) < PIVOT_TOLERANCE
  {
    if Forward(m, cols - 1).None? {
      c := RejectedAt(m, cols - 1);
    } else {
      c := cols - 1;
    }
  }

  /** Elimination reaches column c and finds a pivot there that is not zero but below the tolerance. */
  ghost predicate MeetsTinyPivot(m: Matrix, c: nat)
    requires IsAugmented(m) && c < |m|
  {
    Forward(m, c).Some? && 0.0 < Abs(Pivoted(Forward(m, c).value, c)[c][c]) < PIVOT_TOLERANCE
  }

  /** x is the one and only solution. */
  ghost predicate OnlySolves(m: Matrix, x: seq<real>)
    requires IsAugmented(m) && |x| == |m|
  {
    Solves(m, x) && forall y :: |y| == |m| && Solves(m, y) ==> y == x
  }

  /** A zero pivot is met only where there is more than one solution, or none. */
  lemma ZeroPivotIsSingular(m: Matrix, c: nat, x: seq<real>)
    requires IsAugmented(m) && c < |m| == |x| && OnlySolves(m, x) && Forward(m, c).Some?
    ensures Pivoted(Forward(m, c).value, c)[c][c] != 0.0
  {
    hide Solves, Cleared;
    var a := Forward(m, c).value;
    var s := Pivoted(a, c);
    ForwardIsEchelon(m, c);
    SwapKeepsEchelon(a, c);
    if s[c][c] == 0.0 {
      ForwardKeepsSolutions(m, c, x);
      PivotKeepsSolutions(a, c, x);
      var y := NoPivotIsSingular(s, c, x);
      ForwardKeepsSolutions(m, c, y);
      PivotKeepsSolutions(a, c, y);
      assert false;
    }
  }

  lemma {:induction false} NoneIsFinal(m: Matrix, cols: nat, more: nat)
    requires IsAugmented(m) && cols <= more <= |m| && Forward(m, cols).None?
    ensures Forward(m, more).None?
  {
    if cols == more {
    } else {
      NoneIsFinal(m, cols, more - 1);
    }
  }

  /** A system with exactly one solution is rejected exactly when a pivot other than zero is too small. */
  lemma UniqueIsRejectedIff(m: Matrix, x: seq<real>)
    requires IsAugmented(m) && |x| == |m| && OnlySolves(m, x)
    ensures Forward(m, |m|).None? <==> exists c :: 0 <= c < |m| && MeetsTinyPivot(m, c)
  {
    hide OnlySolves, Pivoted, Cleared;
    if Forward(m, |m|).None? {
      var c := RejectedAt(m, |m|);
      ZeroPivotIsSingular(m, c, x);
      assert MeetsTinyPivot(m, c);
    }
    if c :| 0 <= c < |m| && MeetsTinyPivot(m, c) {
      NoneIsFinal(m, c + 1, |m|);
    }
  }

  /** A system the solver accepts has at most one solution; so one with two solutions is rejected. */
  lemma AcceptedIsUnique(a: Matrix, b: seq<real>, x: seq<real>, y: seq<real>)
    requires IsSquare(a) && |a| == |b| == |x| == |y|
    requires Forward(Augment(a, b), |a|).Some?
    requires SolvesSystem(a, b, x) && SolvesSystem(a, b, y)
    ensures x == y
  {
    var m := Augment(a, b);
    AugmentedMeansSystem(a, b, x);
    AugmentedMeansSystem(a, b, y);
    ForwardKeepsSolutions(m, |a|, x);
    ForwardKeepsSolutions(m, |a|, y);
    ForwardIsEchelon(m, |a|);
    TriangularUnique(Forward(m, |a|).value, x, y, 0);
    assert x[0..] == x && y[0..] == y;
  }

  /** The value xi solves for x[i], given the entries right of it. */
  ghost predicate RowEquation(row: seq<real>, x: seq<real>, xi: real, i: nat)
    requires i < |x| && |row| == |x| + 1
  {
    xi * row[i] == row[|x|] - DotRange(row, x, i + 1, |x|)
  }

  lemma PivotRowSolved(row: seq<real>, before: seq<real>, x: seq<real>, i: nat)
    requires i < |before| == |x| && |row| == |x| + 1
    requires forall j :: 0 <= j < i ==> row[j] == 0.0
    requires forall c :: 0 <= c < |x| && c != i ==> x[c] == before[c]
    requires RowEquation(row, before, x[i], i)
    ensures Satisfies(row, x)
  {
    DotRangeLocal(row, before, x, i + 1, |x|);
    TriangularRow(row, x, i, |x|);
  }

  lemma LaterRowUntouched(row: seq<real>, before: seq<real>, x: seq<real>, i: nat, r: nat)
    requires i < r < |before| == |x| && |row| == |x| + 1
    requires forall j :: 0 <= j < r ==> row[j] == 0.0
    requires forall c :: 0 <= c < |x| && c != i ==> x[c] == before[c]
    requires Satisfies(row, before)
    ensures Satisfies(row, x)
  {
    DotAgree(row, before, x, |x|);
  }

  /** Filling in x[i] solves row i and disturbs no row below it. */
  lemma RowSolved(m: Matrix, before: seq<real>, x: seq<real>, i: nat, r: nat)
    requires IsAugmented(m) && Echelon(m, |m|) && |before| == |x| == |m| && i <= r < |m|
    requires forall c :: 0 <= c < |m| && c != i ==> x[c] == before[c]
    requires RowEquation(m[i], before, x[i], i)
    requires i < r ==> Satisfies(m[r], before)
    ensures Satisfies(m[r], x)
  {
    if i == r {
      PivotRowSolved(m[i], before, x, i);
    } else {
      LaterRowUntouched(m[r], before, x, i, r);
    }
  }

  /** Every triangular system with large enough pivots has a solution, found from the last row up. */
  lemma {:induction false} TriangularSolution(m: Matrix, i: nat) returns (x: seq<real>)
    requires IsAugmented(m) && i <= |m| && Echelon(m, |m|)
    ensures |x| == |m| && forall r :: i <= r < |m| ==> Satisfies(m[r], x)
    decreases |m| - i
  {
    hide Dot, DotRange, Satisfies;
    var n := |m|;
    if i == n {
      x := seq(n, _ => 0.0);
    } else {
      var w := TriangularSolution(m, i + 1);
      var value := m[i][n] - DotRange(m[i], w, i + 1, n);
      DivMul(value, m[i][i]);
      x := w[i := value / m[i][i]];
      forall r | i <= r < n
        ensures Satisfies(m[r], x)
      {
        RowSolved(m, w, x, i, r);
      }
    }
  }

  lemma AcceptedHasOnlySolution(m: Matrix)
    requires IsAugmented(m) && Forward(m, |m|).Some?
    ensures exists x :: |x| == |m| && OnlySolves(m, x)
  {
    hide Satisfies, Echelon;
    var u := Forward(m, |m|).value;
    ForwardIsEchelon(m, |m|);
    var x := TriangularSolution(u, 0);
    ForwardKeepsSolutions(m, |m|, x);
    forall y | |y| == |m| && Solves(m, y)
      ensures y == x
    {
      ForwardKeepsSolutions(m, |m|, y);
      TriangularUnique(u, x, y, 0);
      assert x[0..] == x && y[0..] == y;
    }
    assert OnlySolves(m, x);
  }

  /** Elimination accepts exactly the systems with one solution on which no non-zero pivot is too small. */
  lemma AcceptedIff(m: Matrix)
    requires IsAugmented(m)
    ensures Forward(m, |m|).Some? <==>
            && (exists x :: |x| == |m| && OnlySolves(m, x))
            && (forall c :: 0 <= c < |m| ==> !MeetsTinyPivot(m, c))
  {
    if Forward(m, |m|).Some? {
      AcceptedHasOnlySolution(m);
    }
    forall x | |x| == |m| && OnlySolves(m, x)
      ensures Forward(m, |m|).None? <==> exists c :: 0 <= c < |m| && MeetsTinyPivot(m, c)
    {
      UniqueIsRejectedIff(m, x);
    }
  }

  lemma SolvesOne(p: real, b: real, x: real)
    requires p != 0.0
    ensures p * x == b <==> x == b / p
  {
    DivMul(b, p);
    if p * x == b {
      CancelEq(x, b / p, p);
    }
  }

  /** For one: every single equation p x = b whose p is not zero but below the tolerance. */
  lemma TinyPivotIsRejected(p: real, b: real)
    requires 0.0 < Abs(p) < PIVOT_TOLERANCE
    ensures OnlySolves(Augment([[p]], [b]), [b / p])
    ensures Forward(Augment([[p]], [b]), 1).None?
  {
    var m := Augment([[p]], [b]);
    assert m[0] == [p, b];
    assert Forward(m, 0) == Some(m);
    forall x: seq<real> | |x| == 1
      ensures Solves(m, x) <==> x == [b / p]
    {
      assert Dot(m[0], x, 1) == Dot(m[0], x, 0) + p * x[0];
      assert x == [x[0]];
      SolvesOne(p, b, x[0]);
    }
  }

  // ----- the program -----

  method FindPivot(aug: array<seq<real>>, col: nat) returns (maxRow: nat)
    requires IsAugmented(aug[..]) && col < aug.Length
    ensures maxRow == PivotRow(aug[..], col, aug.Length)
    ensures forall i :: col <= i < aug.Length ==> Abs(aug[i][col]) <= Abs(aug[maxRow][col])
    ensures forall i :: col <= i < maxRow ==> Abs(aug[i][col]) < Abs(aug[maxRow][col])
  {
    maxRow := col;
    for row := col + 1 to aug.Length
      invariant maxRow == PivotRow(aug[..], col, row)
    {
      if Abs(aug[row][col]) > Abs(aug[maxRow][col]) {
        maxRow := row;
      }
    }
    PivotIsLargest(aug[..], col, aug.Length);
  }

  method EliminateRow(aug: array<seq<real>>, col: nat, row: nat)
    requires IsAugmented(aug[..]) && col < row < aug.Length && aug[col][col] != 0.0
    modifies aug
    ensures aug[..] == Reduced(old(aug[..]), col, row, Multiplier(old(aug[..]), col, row))
  {
    hide Less;
    ghost var m := aug[..];
    var n := aug.Length;
    var factor := aug[row][col] / aug[col][col];
    for j := col to n + 1
      invariant IsAugmented(aug[..])
      invariant forall i :: 0 <= i < n && i != row ==> aug[i] == m[i]
      invariant forall c :: 0 <= c < col || j <= c <= n ==> aug[row][c] == m[row][c]
      invariant forall c :: col <= c < j ==> aug[row][c] == Less(m[row][c], factor, m[col][c])
    {
      aug[row] := aug[row][j := Less(aug[row][j], factor, aug[col][j])];
      assert IsAugmented(aug[..]);
    }
    assert |aug[..][row]| == n + 1;
    assert aug[..][row] == Reduced(m, col, row, factor)[row];
  }

  method EliminateColumn(aug: array<seq<real>>, col: nat) returns (ok: bool)
    requires IsAugmented(aug[..]) && col < aug.Length
    modifies aug
    ensures ok <==> Abs(Pivoted(old(aug[..]), col)[col][col]) >= PIVOT_TOLERANCE
    ensures ok ==> aug[..] == Cleared(Pivoted(old(aug[..]), col), col, aug.Length)
  {
    ghost var a := aug[..];
    var maxRow := FindPivot(aug, col);
    aug[col], aug[maxRow] := aug[maxRow], aug[col];
    ghost var s := aug[..];
    assert s == Pivoted(a, col);
    if Abs(aug[col][col]) < PIVOT_TOLERANCE {
      return false;
    }
    for row := col + 1 to aug.Length
      invariant IsAugmented(aug[..]) && s[col][col] != 0.0
      invariant aug[..] == Cleared(s, col, row)
    {
      assert aug[..][col] == s[col];
      EliminateRow(aug, col, row);
    }
    return true;
  }

  method ForwardEliminate(aug: array<seq<real>>) returns (ok: bool)
    requires IsAugmented(aug[..])
    modifies aug
    ensures ok <==> Forward(old(aug[..]), aug.Length).Some?
    ensures ok ==> aug[..] == Forward(old(aug[..]), aug.Length).value
  {
    hide Cleared, Pivoted;
    ghost var m := aug[..];
    var n := aug.Length;
    for col := 0 to n
      invariant IsAugmented(aug[..])
      invariant Forward(m, col) == Some(aug[..])
    {
      var pivotFound := EliminateColumn(aug, col);
      if !pivotFound {
        NoneIsFinal(m, col + 1, n);
        return false;
      }
    }
    return true;
  }

  method SolveRow(aug: array<seq<real>>, x: array<real>, i: nat)
    requires IsAugmented(aug[..]) && i < aug.Length == x.Length && aug[i][i] != 0.0
    modifies x
    ensures forall c :: 0 <= c < x.Length && c != i ==> x[c] == old(x[c])
    ensures RowEquation(aug[i], old(x[..]), x[i], i)
  {
    ghost var before := x[..];
    var n := x.Length;
    x[i] := aug[i][n];
    for j := i + 1 to n
      invariant forall c :: 0 <= c < n && c != i ==> x[c] == before[c]
      invariant x[i] == aug[i][n] - DotRange(aug[i], before, i + 1, j)
    {
      x[i] := x[i] - aug[i][j] * x[j];
    }
    DivMul(x[i], aug[i][i]);
    x[i] := x[i] / aug[i][i];
  }

  method BackSubstitute(aug: array<seq<real>>) returns (x: array<real>)
    requires IsAugmented(aug[..]) && Echelon(aug[..], aug.Length)
    ensures x.Length == aug.Length && Solves(aug[..], x[..])
  {
    ghost var m := aug[..];
    var n := aug.Length;
    x := new real[n](_ => 0.0);
    for i := n downto 0
      invariant aug[..] == m
      invariant forall r :: i <= r < n ==> Satisfies(m[r], x[..])
    {
      ghost var before := x[..];
      assert Abs(m[i][i]) >= PIVOT_TOLERANCE;
      SolveRow(aug, x, i);
      forall r | i <= r < n
        ensures Satisfies(m[r], x[..])
      {
        RowSolved(m, before, x[..], i, r);
      }
    }
  }

  /**
   Solves A x = b. An answer is the one and only solution; there is no answer exactly when the
   elimination meets a pivot below the tolerance; AcceptedIff says which systems those are. Neither
   argument is written to.
   */
  method SolveLinearSystem(aMat: array<seq<real>>, b: array<real>) returns (x: Option<seq<real>>)
    requires IsSquare(aMat[..]) && aMat.Length == b.Length
    ensures x.Some? <==> Forward(Augment(aMat[..], b[..]), b.Length).Some?
    ensures x.Some? ==> |x.value| == b.Length && SolvesSystem(aMat[..], b[..], x.value)
    ensures x.Some? ==> forall y :: |y| == b.Length && SolvesSystem(aMat[..], b[..], y) ==> y == x.value
  {
    var n := b.Length;
    var aug := new seq<real>[n](i requires 0 <= i < n reads aMat, b => aMat[i] + [b[i]]);
    ghost var m := Augment(aMat[..], b[..]);
    assert aug[..] == m;
    var ok := ForwardEliminate(aug);
    if !ok {
      return None;
    }
    ForwardIsEchelon(m, n);
    var xs := BackSubstitute(aug);
    ForwardKeepsSolutions(m, n, xs[..]);
    AugmentedMeansSystem(aMat[..], b[..], xs[..]);
    forall y | |y| == n && SolvesSystem(aMat[..], b[..], y)
      ensures y == xs[..]
    {
      AcceptedIsUnique(aMat[..], b[..], xs[..], y);
    }
    return Some(xs[..]);
  }
}
