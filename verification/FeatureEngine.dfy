/**
 Rolling trade features, in Python (feature_engine.py) and in C++ (feature_engine.cpp). Both keep the
 last trades and running sums over them; volatility is represented by its square.
 */
module FeatureEngine {
  import opened Common
  import opened Runs

  datatype Trade = Trade(price: real, quantity: real, buyerMaker: bool, timestamp: int)

  datatype Book = Book(mid: Option<real>, spread: Option<real>, imbalance: real)

  datatype LookupError = IndexOutOfRange

  const NO_BOOK := Book(None, None, 0.0)

  datatype Features = Features(
    timestamp: int, vwap: real, tradeImbalance: real, variance: real, tradeRate: real, book: Book)

  // ----- the window as a list of trades -----

  function Notional(t: Trade): real { t.price * t.quantity }

  function Quantity(t: Trade): real { t.quantity }

  function BuyVolume(t: Trade): real { if t.buyerMaker then t.quantity else 0.0 }

  function SellVolume(t: Trade): real { if t.buyerMaker then 0.0 else t.quantity }

  /** Simple returns between consecutive trades, skipping those from a non-positive price. */
  function TradeReturns(w: seq<Trade>): (r: seq<real>)
    ensures |r| <= if |w| == 0 then 0 else |w| - 1
  {
    if |w| < 2 then []
    else
      var past, p, q := TradeReturns(w[..|w| - 1]), w[|w| - 2].price, w[|w| - 1].price;
      if p > 0.0 then past + [q / p - 1.0] else past
  }

  function SquaredFrom(m: real): real -> real {
    x => (x - m) * (x - m)
  }

  /** The sum of squared deviations from m. */
  function Deviations(r: seq<real>, m: real): real {
    Total(SquaredFrom(m), r)
  }

  /** Python divides by one less than the number of returns ... */
  function SampleVariance(r: seq<real>): real {
    if |r| >= 2 then Deviations(r, Mean(r)) / (|r| - 1) as real else 0.0
  }

  /** ... and C++ by the number of returns. */
  function PopulationVariance(r: seq<real>): real {
    if |r| >= 1 then Deviations(r, Mean(r)) / |r| as real else 0.0
  }

  function Ratio(a: real, b: real): real {
    if b > 0.0 then a / b else 0.0
  }

  function TradeRate(w: seq<Trade>): real {
    if |w| >= 2 then Ratio(|w| as real, (w[|w| - 1].timestamp - w[0].timestamp) as real / 1000.0) else 0.0
  }

  /** The features of a non-empty window, but for the variance. */
  function FeaturesOf(w: seq<Trade>, book: Book, variance: real): Features
    requires |w| > 0
  {
    var buy, sell := Total(BuyVolume, w), Total(SellVolume, w);
    Features(w[|w| - 1].timestamp, Ratio(Total(Notional, w), Total(Quantity, w)),
             Ratio(buy - sell, buy + sell), variance, TradeRate(w), book)
  }

  function PythonFeatures(w: seq<Trade>, book: Book): Features {
    if |w| == 0 then Features(0, 0.0, 0.0, 0.0, 0.0, NO_BOOK)
    else FeaturesOf(w, book, SampleVariance(TradeReturns(w)))
  }

  function CppFeatures(w: seq<Trade>, book: Book): Features {
    if |w| == 0 then Features(0, 0.0, 0.0, 0.0, 0.0, book)
    else FeaturesOf(w, book, PopulationVariance(TradeReturns(w)))
  }

  /** The relation between the sample and the population variance of m returns. */
  predicate IsRescaled(sample: real, population: real, m: nat) {
    if m == 0 then sample == population else sample * (m - 1) as real == population * m as real
  }

  lemma SingleDeviation(r: seq<real>)
    requires |r| == 1
    ensures PopulationVariance(r) == 0.0
  {
    assert r[..0] == [] && Sum(r) == r[0];
    assert Mean(r) == r[0];
    assert SquaredFrom(r[0])(r[0]) == 0.0;
    assert Total(SquaredFrom(r[0]), r) == 0.0;
  }

  lemma VarianceFactor(r: seq<real>)
    ensures IsRescaled(SampleVariance(r), PopulationVariance(r), |r|)
  {
    if |r| >= 2 {
      var d := Deviations(r, Mean(r));
      DivMul(d, (|r| - 1) as real);
      DivMul(d, |r| as real);
    } else if |r| == 1 {
      SingleDeviation(r);
    }
  }

  /**
   On a non-empty window the two implementations differ in the variance alone, by the factor between
   sample and population variance; on an empty one they agree exactly when no book has been seen.
   */
  lemma ImplementationsAgree(w: seq<Trade>, book: Book)
    ensures var py, cpp, m := PythonFeatures(w, book), CppFeatures(w, book), |TradeReturns(w)|;
            if |w| > 0 then
              && py.(variance := cpp.variance) == cpp
              && IsRescaled(py.variance, cpp.variance, m)
            else
              py == cpp <==> book == NO_BOOK
  {
    VarianceFactor(TradeReturns(w));
  }

  // ----- bounds on the features -----

  lemma {:induction false} TotalBetween(f: Trade -> real, g: Trade -> real, w: seq<Trade>)
    requires forall i :: 0 <= i < |w| ==> f(w[i]) <= g(w[i])
    ensures Total(f, w) <= Total(g, w)
  {
    if |w| == 0 {
    } else {
      TotalBetween(f, g, w[..|w| - 1]);
    }
  }

  function AtPrice(p: real): Trade -> real {
    (t: Trade) => p * t.quantity
  }

  lemma {:induction false} TotalAtPrice(p: real, w: seq<Trade>)
    ensures Total(AtPrice(p), w) == p * Total(Quantity, w)
  {
    if |w| == 0 {
    } else {
      TotalAtPrice(p, w[..|w| - 1]);
      Distribute(p, Total(Quantity, w[..|w| - 1]), w[|w| - 1].quantity);
    }
  }

  lemma {:induction false} TotalPositive(w: seq<Trade>)
    requires |w| > 0 && forall i :: 0 <= i < |w| ==> w[i].quantity > 0.0
    ensures Total(Quantity, w) > 0.0
    ensures 0.0 <= Total(BuyVolume, w) && 0.0 <= Total(SellVolume, w)
    ensures Total(BuyVolume, w) + Total(SellVolume, w) == Total(Quantity, w)
  {
    if |w| > 1 {
      TotalPositive(w[..|w| - 1]);
    } else {
      assert w[..0] == [];
    }
  }

  lemma NotionalBetween(t: Trade, lo: real, hi: real)
    requires t.quantity > 0.0 && lo <= t.price <= hi
    ensures AtPrice(lo)(t) <= Notional(t) <= AtPrice(hi)(t)
  {
    MulMono(lo, t.price, t.quantity);
    MulMono(t.price, hi, t.quantity);
  }

  lemma QuotientBetween(a: real, b: real, lo: real, hi: real)
    requires b > 0.0 && lo * b <= a <= hi * b
    ensures lo <= a / b <= hi
  {
    DivMul(a, b);
    CancelLe(lo, a / b, b);
    CancelLe(a / b, hi, b);
  }

  /** With positive quantities the VWAP lies between the lowest and the highest price of the window. */
  lemma VwapWithinWindow(w: seq<Trade>, book: Book, lo: real, hi: real)
    requires |w| > 0 && forall i :: 0 <= i < |w| ==> w[i].quantity > 0.0 && lo <= w[i].price <= hi
    ensures lo <= PythonFeatures(w, book).vwap <= hi
  {
    hide Notional, AtPrice, Total;
    forall i | 0 <= i < |w|
      ensures AtPrice(lo)(w[i]) <= Notional(w[i]) <= AtPrice(hi)(w[i])
    {
      NotionalBetween(w[i], lo, hi);
    }
    TotalBetween(AtPrice(lo), Notional, w);
    TotalBetween(Notional, AtPrice(hi), w);
    TotalAtPrice(lo, w);
    TotalAtPrice(hi, w);
    TotalPositive(w);
    QuotientBetween(Total(Notional, w), Total(Quantity, w), lo, hi);
  }

  lemma ImbalanceWithinUnit(w: seq<Trade>, book: Book)
    requires |w| > 0 && forall i :: 0 <= i < |w| ==> w[i].quantity > 0.0
    ensures -1.0 <= PythonFeatures(w, book).tradeImbalance <= 1.0
  {
    TotalPositive(w);
    QuotientBetween(Total(BuyVolume, w) - Total(SellVolume, w), Total(Quantity, w), -1.0, 1.0);
  }

  // ----- the window over a stream -----

  /** Retaining the last n after each trade retains the last n of the stream. */
  lemma LastNStep<T>(s: seq<T>, t: T, n: nat)
    requires n > 0
    ensures LastN(LastN(s, n) + [t], n) == LastN(s + [t], n)
  {
  }

  /** A full deque drops its first element for a new last one. */
  function Pushed<T>(s: seq<T>, t: T, n: nat): (r: seq<T>)
    requires n > 0
    ensures r == if |s| == n then s[1..] + [t] else LastN(s + [t], n)
  {
    LastN(s + [t], n)
  }

  lemma {:induction false} TotalWithoutFirst<T>(f: T -> real, s: seq<T>)
    requires |s| > 0
    ensures Total(f, s[1..]) == Total(f, s) - f(s[0])
  {
    if |s| > 1 {
      TotalWithoutFirst(f, s[..|s| - 1]);
      assert s[1..][..|s| - 2] == s[..|s| - 1][1..];
    } else {
      assert s[..0] == [];
    }
  }

  // ----- the programs -----

  method VolumeBySide(w: seq<Trade>) returns (buy: real, sell: real)
    ensures buy == Total(BuyVolume, w) && sell == Total(SellVolume, w)
  {
    buy, sell := 0.0, 0.0;
    for i := 0 to |w|
      invariant buy == Total(BuyVolume, w[..i]) && sell == Total(SellVolume, w[..i])
    {
      assert w[..i + 1][..i] == w[..i];
      if w[i].buyerMaker {
        buy := buy + w[i].quantity;
      } else {
        sell := sell + w[i].quantity;
      }
    }
    assert w[..|w|] == w;
  }

  method CollectReturns(w: seq<Trade>) returns (r: seq<real>)
    requires |w| >= 2
    ensures r == TradeReturns(w)
  {
    r := [];
    for i := 1 to |w|
      invariant r == TradeReturns(w[..i])
    {
      assert w[..i + 1][..i] == w[..i];
      if w[i - 1].price > 0.0 {
        r := r + [w[i].price / w[i - 1].price - 1.0];
      }
    }
    assert w[..|w|] == w;
  }

  method SumOfSquares(r: seq<real>, mean: real) returns (total: real)
    ensures total == Deviations(r, mean)
  {
    total := 0.0;
    for i := 0 to |r|
      invariant total == Deviations(r[..i], mean)
    {
      assert r[..i + 1][..i] == r[..i];
      var diff := r[i] - mean;
      total := total + diff * diff;
    }
    assert r[..|r|] == r;
  }

  /** feature_engine.py divides the squares by one less than their number, given at least two ... */
  method VariancePython(w: seq<Trade>) returns (variance: real)
    ensures variance == SampleVariance(TradeReturns(w))
  {
    variance := 0.0;
    if |w| >= 2 {
      var r := CollectReturns(w);
      if |r| >= 2 {
        var squares := SumOfSquares(r, Mean(r));
        variance := squares / (|r| - 1) as real;
      }
    }
  }

  /** ... and feature_engine.cpp by their number, given any. */
  method VarianceCpp(w: seq<Trade>) returns (variance: real)
    ensures variance == PopulationVariance(TradeReturns(w))
  {
    variance := 0.0;
    if |w| >= 2 {
      var r := CollectReturns(w);
      if |r| > 0 {
        var squares := SumOfSquares(r, Mean(r));
        variance := squares / |r| as real;
      }
    }
  }

  /** The parallel deques and running sums of either implementation. */
  class RollingWindow {
    const windowSize: nat
    var prices: seq<real>
    var quantities: seq<real>
    var sides: seq<bool>
    var timestamps: seq<int>
    var pvSum: real
    var vSum: real
    var book: Book
    ghost var stream: seq<Trade>

    function Window(): (w: seq<Trade>)
      requires |prices| == |quantities| == |sides| == |timestamps|
      reads this`prices, this`quantities, this`sides, this`timestamps
      ensures |w| == |prices|
    {
      var (ps, qs, ss, ts) := (prices, quantities, sides, timestamps);
      seq(|ps|, i requires 0 <= i < |ps| && |ps| == |qs| == |ss| == |ts| => Trade(ps[i], qs[i], ss[i], ts[i]))
    }

    /** The window is the end of the stream and the running sums are the sums over it. */
    ghost predicate Valid()
      reads this
    {
      && |prices| == |quantities| == |sides| == |timestamps| <= windowSize
      && Window() == LastN(stream, windowSize)
      && pvSum == Total(Notional, Window())
      && vSum == Total(Quantity, Window())
    }

    constructor (windowSize: nat)
      ensures Valid() && stream == [] && book == NO_BOOK && this.windowSize == windowSize
    {
      this.windowSize := windowSize;
      prices, quantities, sides, timestamps := [], [], [], [];
      pvSum, vSum, book, stream := 0.0, 0.0, NO_BOOK, [];
    }

    /** What a full window, one trade too long, becomes. */
    twostate lemma Shifted(t: Trade)
      requires old(Valid()) && |old(prices)| == windowSize > 0
      requires prices == old(prices)[1..] + [t.price] && quantities == old(quantities)[1..] + [t.quantity]
      requires sides == old(sides)[1..] + [t.buyerMaker] && timestamps == old(timestamps)[1..] + [t.timestamp]
      requires pvSum == old(pvSum) - Notional(old(Window())[0]) + Notional(t)
      requires vSum == old(vSum) - old(quantities)[0] + t.quantity
      ensures Window() == LastN(old(stream) + [t], windowSize)
      ensures pvSum == Total(Notional, Window()) && vSum == Total(Quantity, Window())
    {
      hide Total, Notional;
      var w := old(Window());
      assert Window() == w[1..] + [t];
      LastNStep(old(stream), t, windowSize);
      TotalWithoutFirst(Notional, w);
      TotalWithoutFirst(Quantity, w);
      TotalAppend(Notional, w[1..], t);
      TotalAppend(Quantity, w[1..], t);
    }

    twostate lemma Grown(t: Trade)
      requires old(Valid()) && |old(prices)| < windowSize
      requires prices == old(prices) + [t.price] && quantities == old(quantities) + [t.quantity]
      requires sides == old(sides) + [t.buyerMaker] && timestamps == old(timestamps) + [t.timestamp]
      requires pvSum == old(pvSum) + Notional(t)
      requires vSum == old(vSum) + t.quantity
      ensures Window() == LastN(old(stream) + [t], windowSize)
      ensures pvSum == Total(Notional, Window()) && vSum == Total(Quantity, Window())
    {
      hide Total, Notional;
      var w := old(Window());
      assert Window() == w + [t];
      LastNStep(old(stream), t, windowSize);
      TotalAppend(Notional, w, t);
      TotalAppend(Quantity, w, t);
    }

    /** The running sums leave out the oldest trade of a full window and take in the new one. */
    method UpdateSums(full: bool, t: Trade)
      requires |prices| == |quantities| == |sides| == |timestamps|
      requires full ==> |prices| > 0
      modifies this`pvSum, this`vSum
      ensures pvSum == old(pvSum) - (if full then Notional(Window()[0]) else 0.0) + Notional(t)
      ensures vSum == old(vSum) - (if full then quantities[0] else 0.0) + t.quantity
    {
      if full {
        pvSum := pvSum - prices[0] * quantities[0];
        vSum := vSum - quantities[0];
      }
      pvSum := pvSum + t.price * t.quantity;
      vSum := vSum + t.quantity;
    }

    /**
     feature_engine.py: the deques drop their first element when appending beyond capacity. A window of
     size zero is full from the start but has no oldest trade to read.
     */
    method OnTradePython(t: Trade) returns (r: Result<(), LookupError>)
      requires Valid()
      modifies this`prices, this`quantities, this`sides, this`timestamps, this`pvSum, this`vSum, this`stream
      ensures Valid() && (r.Failure? <==> windowSize == 0)
      ensures stream == if r.Success? then old(stream) + [t] else old(stream)
    {
      hide Notional, Total;
      var full := |prices| == windowSize;
      if full && |prices| == 0 {
        return Failure(IndexOutOfRange);
      }
      UpdateSums(full, t);
      prices, quantities := Pushed(prices, t.price, windowSize), Pushed(quantities, t.quantity, windowSize);
      sides, timestamps := Pushed(sides, t.buyerMaker, windowSize), Pushed(timestamps, t.timestamp, windowSize);
      if full {
        Shifted(t);
      } else {
        Grown(t);
      }
      stream := stream + [t];
      return Success(());
    }

    /** feature_engine.cpp: the oldest trade is popped before the new one is pushed. */
    method OnTradeCpp(t: Trade)
      requires Valid() && windowSize > 0
      modifies this`prices, this`quantities, this`sides, this`timestamps, this`pvSum, this`vSum, this`stream
      ensures Valid() && stream == old(stream) + [t]
    {
      hide Notional, Total;
      var full := |prices| >= windowSize;
      UpdateSums(full, t);
      if full {
        prices, quantities, sides, timestamps := prices[1..], quantities[1..], sides[1..], timestamps[1..];
      }
      prices, quantities := prices + [t.price], quantities + [t.quantity];
      sides, timestamps := sides + [t.buyerMaker], timestamps + [t.timestamp];
      if full {
        Shifted(t);
      } else {
        Grown(t);
      }
      stream := stream + [t];
    }

    method OnBookSnapshot(mid: Option<real>, spread: Option<real>, imbalance: real)
      requires Valid()
      modifies this`book
      ensures Valid() && book == Book(mid, spread, imbalance)
    {
      book := Book(mid, spread, imbalance);
    }

    /** What compute reports on a non-empty window, from the running sums and a variance. */
    method Assemble(variance: real) returns (f: Features)
      requires Valid() && |prices| > 0
      ensures f == FeaturesOf(Window(), book, variance)
    {
      var w := Window();
      var buy, sell := VolumeBySide(w);
      var rate := 0.0;
      if |w| >= 2 {
        var span := (timestamps[|w| - 1] - timestamps[0]) as real / 1000.0;
        if span > 0.0 {
          rate := |w| as real / span;
        }
      }
      assert rate == TradeRate(w);
      f := Features(timestamps[|w| - 1], Ratio(pvSum, vSum), Ratio(buy - sell, buy + sell), variance, rate, book);
    }

    method ComputePython() returns (f: Features)
      requires Valid()
      ensures f == PythonFeatures(LastN(stream, windowSize), book)
    {
      if |prices| == 0 {
        return Features(0, 0.0, 0.0, 0.0, 0.0, NO_BOOK);
      }
      var variance := VariancePython(Window());
      f := Assemble(variance);
    }

    method ComputeCpp() returns (f: Features)
      requires Valid()
      ensures f == CppFeatures(LastN(stream, windowSize), book)
    {
      if |prices| == 0 {
        return Features(0, 0.0, 0.0, 0.0, 0.0, book);
      }
      var variance := VarianceCpp(Window());
      f := Assemble(variance);
    }
  }
}
