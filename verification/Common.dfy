/** Vocabulary shared by every module: options, results, and elementary real arithmetic. */
module Common {

  datatype Option<+T> = None | Some(value: T)

  datatype Result<+T, +E> = Success(value: T) | Failure(error: E)

  datatype ArithmeticError = DivisionByZero

  datatype Side = Buy | Sell

  /** A price level of an order book. */
  datatype Level = Level(price: real, qty: real)

  function Abs(r: real): real {
    if r < 0.0 then -r else r
  }

  function Min(a: real, b: real): real {
    if b < a then b else a
  }

  function Max(a: real, b: real): real {
    if b > a then b else a
  }

  function Times(a: real, b: real): real {
    a * b
  }

  /** The sum of a sequence, accumulated from the left as a running total does. */
  function Sum(s: seq<real>): real {
    if |s| == 0 then 0.0 else Sum(s[..|s| - 1]) + s[|s| - 1]
  }

  function Mean(s: seq<real>): real
    requires |s| > 0
  {
    Sum(s) / |s| as real
  }

  /** The last min(n, |s|) elements: what a bounded deque of capacity n retains. */
  function LastN<T>(s: seq<T>, n: nat): seq<T> {
    if |s| <= n then s else s[|s| - n..]
  }

  lemma DivMul(a: real, b: real)
    requires b != 0.0
    ensures a / b * b == a
  {
  }

  /** Multiplying an inequality by a non-negative factor keeps it. */
  lemma MulMono(a: real, b: real, c: real)
    requires a <= b && 0.0 <= c
    ensures a * c <= b * c
  {
    assert (b - a) * c >= 0.0;
  }

  lemma SquareNonNeg(a: real)
    ensures a * a >= 0.0
  {
    if a < 0.0 {
      assert (-a) * (-a) == a * a;
    }
  }

  lemma StrictMul(x: real, y: real, a: real)
    requires x < y && 0.0 < a
    ensures x * a < y * a
  {
    assert (y - x) * a > 0.0;
  }

  /** A positive common factor cancels from an inequality. */
  lemma CancelLe(x: real, y: real, a: real)
    requires a > 0.0 && x * a <= y * a
    ensures x <= y
  {
    if x > y {
      StrictMul(y, x, a);
    }
  }

  lemma CancelEq(x: real, y: real, a: real)
    requires a != 0.0 && a * x == a * y
    ensures x == y
  {
    assert a * (x - y) == 0.0;
  }

  lemma DivUnique(q: real, a: real, b: real)
    requires b != 0.0 && q * b == a
    ensures a / b == q
  {
    DivMul(a, b);
    assert (a / b - q) * b == 0.0;
  }

  lemma Distribute(x: real, a: real, b: real)
    ensures x * (a + b) == x * a + x * b
  {
  }

  lemma ProductPositive(a: real, b: real, c: real)
    requires a > 0.0 && b > 0.0 && c == a * b
    ensures c > 0.0
  {
  }

  lemma ProductNonNeg(a: real, b: real, c: real)
    requires a >= 0.0 && b >= 0.0 && c == a * b
    ensures c >= 0.0
  {
  }

  lemma DifferenceOfSquares(a: real, b: real)
    ensures (a - b) * (a + b) == a * a - b * b
  {
  }

  /** A square bounded by another's bounds its root. */
  lemma RootMono(c: real, r: real)
    requires r >= 0.0 && c * c <= r * r
    ensures c <= r
  {
    DifferenceOfSquares(c, r);
    if c > r {
      ProductPositive(c - r, c + r, (c - r) * (c + r));
    }
  }

  lemma ProductOfScaled(a: real, b: real, n: real)
    ensures (a * n) * (b * n) == (a * b) * (n * n)
  {
  }
}
