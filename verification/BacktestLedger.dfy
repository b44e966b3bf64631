/**
 The accounting loop of the backtest (evaluator.py, _compute_metrics_from_fills), written
 differently from the live position it is meant to agree with (pnl.py).
 */
module BacktestLedger {
  import opened Common
  import opened Runs
  import opened Ledger
  import opened Drawdown

  /** The running totals of the loop; realized is net of fees and slippage. */
  datatype Tally = Tally(position: real, avgEntry: real, realized: real, fees: real, slippage: real)

  const EMPTY := Tally(0.0, 0.0, 0.0, 0.0, 0.0)

  function SlipCost(f: Fill): real {
    f.quantity * f.price * f.slippageBps / 10000.0
  }

  predicate Opposite(a: real, b: real) {
    (a > 0.0 && b < 0.0) || (a < 0.0 && b > 0.0)
  }

  /** The profit of closing part of the position at a price. */
  function ProfitOf(t: Tally, closeQty: real, price: real): real {
    closeQty * (price - t.avgEntry) * (if t.position > 0.0 then 1.0 else -1.0)
  }

  function GrossProfit(t: Tally, f: Fill): real {
    if t.position != 0.0 && Opposite(t.position, Signed(f)) then
      ProfitOf(t, Min(Abs(Signed(f)), Abs(t.position)), f.price)
    else 0.0
  }

  /** Two prices averaged by size. */
  function Blend(p: real, a: real, r: real, b: real): real
    requires a + b != 0.0
  {
    (p * a + r * b) / (a + b)
  }

  function NextEntry(t: Tally, f: Fill): real {
    var next := t.position + Signed(f);
    if Abs(next) > Abs(t.position) then
      if t.position == 0.0 then f.price
      else Blend(t.avgEntry, Abs(t.position), f.price, Abs(Signed(f)))
    else if next == 0.0 then 0.0
    else t.avgEntry
  }

  function Booked(t: Tally, f: Fill, profit: real, entry: real, slip: real): Tally {
    Tally(t.position + Signed(f), entry, t.realized + (profit - f.fee - slip), t.fees + f.fee, t.slippage + slip)
  }

  function TallyFill(t: Tally, f: Fill): Tally {
    Booked(t, f, GrossProfit(t, f), NextEntry(t, f), SlipCost(f))
  }

  function Backtest(fills: seq<Fill>): Tally {
    Fold(TallyFill, EMPTY, fills)
  }

  /** The two ledgers tell the same story: position, entry price unless flat, and gross profit. */
  predicate Agree(t: Tally, h: Holding) {
    && t.position == h.quantity
    && (h.quantity != 0.0 ==> t.avgEntry == h.avgEntry)
    && t.realized + t.fees + t.slippage == h.realized
    && t.fees == h.fees
  }

  /** The fill takes the position through zero to the other side. */
  predicate Crosses(quantity: real, f: Fill) {
    Opposite(quantity, quantity + Signed(f))
  }

  lemma NegatedProduct(c: real, d: real)
    ensures c * d * -1.0 == c * -d
  {
  }

  lemma ProfitsAgree(t: Tally, h: Holding, f: Fill)
    requires Agree(t, h)
    ensures GrossProfit(t, f) == RealizedBy(h, f)
  {
    var s, q := Signed(f), h.quantity;
    var c, d := Min(Abs(s), Abs(q)), f.price - h.avgEntry;
    if q != 0.0 && !SameSign(q, s) {
      if s == 0.0 {
        assert c == 0.0;
      } else if q < 0.0 {
        NegatedProduct(c, d);
      }
    }
  }

  lemma EntriesAgreeUnlessCrossing(t: Tally, h: Holding, f: Fill)
    requires Agree(t, h) && !Crosses(h.quantity, f)
    ensures h.quantity + Signed(f) != 0.0 ==> NextEntry(t, f) == EntryAfter(h, f)
  {
    var s, q := Signed(f), h.quantity;
    if q == 0.0 {
      if s != 0.0 {
        FirstEntry(h, f);
      }
    } else if SameSign(q, s) {
      assert Abs(q + s) == Abs(q) + Abs(s);
    }
  }

  lemma BlendMoves(e: real, p: real, a: real, r: real, b: real)
    requires a > 0.0 && b > 0.0 && e * (a + b) == p * a + r * b && p != r
    ensures e != r
  {
  }

  /** A proper blend of two prices equals one of them only when they are equal. */
  lemma BlendEqualsIff(p: real, a: real, r: real, b: real)
    requires a > 0.0 && b > 0.0
    ensures Blend(p, a, r, b) == r <==> p == r
  {
    DivMul(p * a + r * b, a + b);
    if p == r {
      DivUnique(r, p * a + r * b, a + b);
    } else {
      BlendMoves(Blend(p, a, r, b), p, a, r, b);
    }
  }

  /** Through zero, the live ledger restarts at the fill price and the backtest does not. */
  lemma EntriesAgreeCrossing(t: Tally, h: Holding, f: Fill)
    requires Agree(t, h) && Crosses(h.quantity, f)
    ensures EntryAfter(h, f) == f.price
    ensures NextEntry(t, f) == f.price <==> f.price == h.avgEntry
  {
    var s, q := Signed(f), h.quantity;
    if Abs(q + s) > Abs(q) {
      BlendEqualsIff(h.avgEntry, Abs(q), f.price, Abs(s));
    }
  }

  /** One fill keeps the ledgers in agreement exactly when it does not cross zero off the entry price. */
  predicate Faithful(h: Holding, f: Fill) {
    Crosses(h.quantity, f) ==> f.price == h.avgEntry
  }

  lemma StepAgreesIffFaithful(t: Tally, h: Holding, f: Fill)
    requires Agree(t, h)
    ensures Agree(TallyFill(t, f), Apply(h, f)) <==> Faithful(h, f)
  {
    ProfitsAgree(t, h, f);
    if Crosses(h.quantity, f) {
      EntriesAgreeCrossing(t, h, f);
    } else {
      EntriesAgreeUnlessCrossing(t, h, f);
    }
  }

  /** Every fill so far was faithful to the position it met. */
  ghost predicate FaithfulThroughout(fills: seq<Fill>) {
    forall i :: 0 <= i < |fills| ==> Faithful(Book(fills[..i]), fills[i])
  }

  /** The ledgers agreed after each fill so far. */
  ghost predicate AgreeThroughout(fills: seq<Fill>) {
    forall i :: 0 <= i <= |fills| ==> Agree(Backtest(fills[..i]), Book(fills[..i]))
  }

  lemma PrefixStep(fills: seq<Fill>, i: nat)
    requires i < |fills|
    ensures Book(fills[..i + 1]) == Apply(Book(fills[..i]), fills[i])
    ensures Backtest(fills[..i + 1]) == TallyFill(Backtest(fills[..i]), fills[i])
  {
    assert fills[..i + 1] == fills[..i] + [fills[i]];
    FoldAppend(Apply, FLAT, fills[..i], fills[i]);
    FoldAppend(TallyFill, EMPTY, fills[..i], fills[i]);
  }

  lemma {:induction false} FaithfulAgrees(fills: seq<Fill>, n: nat)
    requires n <= |fills| && FaithfulThroughout(fills)
    ensures Agree(Backtest(fills[..n]), Book(fills[..n]))
  {
    if n == 0 {
    } else {
      FaithfulAgrees(fills, n - 1);
      PrefixStep(fills, n - 1);
      StepAgreesIffFaithful(Backtest(fills[..n - 1]), Book(fills[..n - 1]), fills[n - 1]);
    }
  }

  /**
   The backtest loop refines the live position on a fill sequence exactly when every fill that takes
   the position through zero happens at the entry price; in particular whenever no fill crosses.
   */
  lemma BacktestAgreesIff(fills: seq<Fill>)
    ensures AgreeThroughout(fills) <==> FaithfulThroughout(fills)
  {
    if AgreeThroughout(fills) {
      forall i | 0 <= i < |fills|
        ensures Faithful(Book(fills[..i]), fills[i])
      {
        PrefixStep(fills, i);
        assert Agree(Backtest(fills[..i + 1]), Book(fills[..i + 1]));
        StepAgreesIffFaithful(Backtest(fills[..i]), Book(fills[..i]), fills[i]);
      }
    }
    if FaithfulThroughout(fills) {
      forall i | 0 <= i <= |fills|
        ensures Agree(Backtest(fills[..i]), Book(fills[..i]))
      {
        FaithfulAgrees(fills, i);
      }
    }
  }

  /** What the per-symbol analysis keeps: the same books without slippage, and a count of winning fills. */
  datatype SymbolTally = SymbolTally(books: Tally, wins: nat)

  /** A fill that closes wins when its profit exceeds its fee. */
  predicate Wins(t: Tally, f: Fill) {
    t.position != 0.0 && Opposite(t.position, Signed(f)) && GrossProfit(t, f) > f.fee
  }

  function PerSymbolFill(s: SymbolTally, f: Fill): SymbolTally {
    SymbolTally(Booked(s.books, f, GrossProfit(s.books, f), NextEntry(s.books, f), 0.0),
                if Wins(s.books, f) then s.wins + 1 else s.wins)
  }

  function PerSymbol(fills: seq<Fill>): SymbolTally {
    Fold(PerSymbolFill, SymbolTally(EMPTY, 0), fills)
  }

  /** The tally with the slippage it was charged handed back. */
  function Unslipped(t: Tally): Tally {
    t.(realized := t.realized + t.slippage, slippage := 0.0)
  }

  lemma ProfitIgnoresSlippage(t: Tally, f: Fill)
    ensures GrossProfit(Unslipped(t), f) == GrossProfit(t, f)
  {
  }

  lemma FillUnslipped(s: SymbolTally, t: Tally, f: Fill)
    requires s.books == Unslipped(t)
    ensures PerSymbolFill(s, f).books == Unslipped(TallyFill(t, f))
  {
    hide GrossProfit, Blend, SlipCost, Wins;
    ProfitIgnoresSlippage(t, f);
  }

  /** The two analyses of a backtest differ by exactly the slippage one of them deducts. */
  lemma {:induction false} PerSymbolOmitsSlippage(fills: seq<Fill>)
    ensures PerSymbol(fills).books == Unslipped(Backtest(fills))
  {
    if |fills| == 0 {
      assert Unslipped(EMPTY) == EMPTY;
    } else {
      hide TallyFill, PerSymbolFill, Unslipped;
      var past := fills[..|fills| - 1];
      PerSymbolOmitsSlippage(past);
      FillUnslipped(PerSymbol(past), Backtest(past), fills[|fills| - 1]);
    }
  }

  /** How many of the fills raised the realized profit. */
  function Rises(fills: seq<Fill>): nat {
    if |fills| == 0 then 0
    else
      var past := fills[..|fills| - 1];
      Rises(past) + (if PerSymbol(fills).books.realized > PerSymbol(past).books.realized then 1 else 0)
  }

  /** A fill that closes nothing makes no profit, so only a negative fee could raise what is realized. */
  lemma WinRaises(s: SymbolTally, f: Fill)
    ensures Wins(s.books, f) ==> PerSymbolFill(s, f).books.realized > s.books.realized
    ensures PerSymbolFill(s, f).books.realized > s.books.realized && f.fee >= 0.0 ==> Wins(s.books, f)
  {
    hide ProfitOf, NextEntry;
  }

  /** Where no fee is negative, the fills counted as wins are those that raise the realized profit. */
  lemma {:induction false} WinsAreRises(fills: seq<Fill>)
    requires forall i :: 0 <= i < |fills| ==> fills[i].fee >= 0.0
    ensures PerSymbol(fills).wins == Rises(fills)
  {
    if |fills| == 0 {
    } else {
      hide GrossProfit, NextEntry;
      WinsAreRises(fills[..|fills| - 1]);
      WinRaises(PerSymbol(fills[..|fills| - 1]), fills[|fills| - 1]);
    }
  }

  /** Neither fee nor slippage. */
  predicate Free(f: Fill) {
    f.fee == 0.0 && f.slippageBps == 0.0
  }

  lemma Opening(t: Tally, h: Holding, f: Fill)
    requires Free(f) && t.position == h.quantity == 0.0 && Signed(f) > 0.0
    ensures TallyFill(t, f) == Tally(Signed(f), f.price, t.realized, t.fees, t.slippage)
    ensures Apply(h, f) == Holding(Signed(f), f.price, h.realized, h.fees)
  {
    FirstEntry(h, f);
  }

  lemma TurningProfits(t: Tally, h: Holding, f: Fill)
    requires t.position == h.quantity > 0.0 && Signed(f) == -2.0 * h.quantity
    ensures GrossProfit(t, f) == t.position * (f.price - t.avgEntry)
    ensures RealizedBy(h, f) == h.quantity * (f.price - h.avgEntry)
  {
  }

  lemma ZeroProduct(a: real, b: real, c: real)
    requires b == 0.0 && c == a * b
    ensures c == 0.0
  {
  }

  lemma NoSlip(f: Fill)
    requires Free(f)
    ensures SlipCost(f) == 0.0
  {
    var x := f.quantity * f.price * f.slippageBps;
    ZeroProduct(f.quantity * f.price, f.slippageBps, x);
    DivUnique(0.0, x, 10000.0);
  }

  /** Selling twice a long position turns it into a short one of the same size. */
  lemma Turning(t: Tally, h: Holding, f: Fill)
    requires Free(f) && t.position == h.quantity > 0.0 && Signed(f) == -2.0 * h.quantity
    ensures TallyFill(t, f) == Tally(-t.position, t.avgEntry, t.realized + t.position * (f.price - t.avgEntry),
                                     t.fees, t.slippage)
    ensures Apply(h, f) == Holding(-h.quantity, f.price, h.realized + h.quantity * (f.price - h.avgEntry), h.fees)
  {
    hide GrossProfit, SlipCost, RealizedBy;
    TurningProfits(t, h, f);
    NoSlip(f);
  }

  lemma ProductOfNegations(c: real, d: real)
    ensures -c * -d == c * d && -c * d * -1.0 == c * d
  {
  }

  lemma ClosingProfits(t: Tally, h: Holding, f: Fill)
    requires t.position == h.quantity < 0.0 && Signed(f) == -h.quantity
    ensures GrossProfit(t, f) == t.position * (f.price - t.avgEntry)
    ensures RealizedBy(h, f) == h.quantity * (f.price - h.avgEntry)
  {
    ProductOfNegations(h.quantity, f.price - h.avgEntry);
    ProductOfNegations(t.position, f.price - t.avgEntry);
  }

  /** Buying back a short position. */
  lemma Closing(t: Tally, h: Holding, f: Fill)
    requires Free(f) && t.position == h.quantity < 0.0 && Signed(f) == -h.quantity
    ensures TallyFill(t, f) == Tally(0.0, 0.0, t.realized + t.position * (f.price - t.avgEntry), t.fees, t.slippage)
    ensures Apply(h, f) == Holding(0.0, h.avgEntry, h.realized + h.quantity * (f.price - h.avgEntry), h.fees)
  {
    hide GrossProfit, SlipCost, RealizedBy;
    ClosingProfits(t, h, f);
    NoSlip(f);
  }

  lemma FoldThree<S, E>(step: (S, E) -> S, s: S, a: E, b: E, c: E)
    ensures Fold(step, s, [a, b, c]) == step(step(step(s, a), b), c)
  {
    FoldAppend(step, s, [], a);
    FoldAppend(step, s, [a], b);
    FoldAppend(step, s, [a, b], c);
    assert [] + [a] == [a] && [a] + [b] == [a, b] && [a, b] + [c] == [a, b, c];
  }

  /** Buy at one price, sell twice as much at another, buy back at that price. */
  function RoundTrip(quantity: real, entry: real, exit: real): seq<Fill> {
    [Fill("X", Buy, quantity, entry, 0.0, 0.0),
     Fill("X", Sell, 2.0 * quantity, exit, 0.0, 0.0),
     Fill("X", Buy, quantity, exit, 0.0, 0.0)]
  }

  /** Flat again, the live position has realized its profit and the backtest none of it. */
  lemma CrossingLosesProfit(quantity: real, entry: real, exit: real)
    requires quantity > 0.0
    ensures var h, t := Book(RoundTrip(quantity, entry, exit)), Backtest(RoundTrip(quantity, entry, exit));
            && h.quantity == t.position == 0.0
            && h.realized == quantity * (exit - entry)
            && t.realized == t.fees == t.slippage == 0.0
  {
    var fills := RoundTrip(quantity, entry, exit);
    FoldThree(Apply, FLAT, fills[0], fills[1], fills[2]);
    FoldThree(TallyFill, EMPTY, fills[0], fills[1], fills[2]);
    var h1, t1 := Apply(FLAT, fills[0]), TallyFill(EMPTY, fills[0]);
    Opening(EMPTY, FLAT, fills[0]);
    var h2, t2 := Apply(h1, fills[1]), TallyFill(t1, fills[1]);
    Turning(t1, h1, fills[1]);
    Closing(t2, h2, fills[2]);
  }

  // ----- the program -----

  /** The equity before any fill and after each one. */
  ghost function EquityCurve(initial: real, fills: seq<Fill>): (c: seq<real>)
    ensures |c| == |fills| + 1
  {
    seq(|fills| + 1, i requires 0 <= i <= |fills| => initial + Backtest(fills[..i]).realized)
  }

  method RealizeFill(t: Tally, f: Fill) returns (profit: real)
    ensures profit == GrossProfit(t, f)
  {
    var signedQty := if f.side.Buy? then f.quantity else -f.quantity;
    profit := 0.0;
    if t.position != 0.0 && ((t.position > 0.0 && signedQty < 0.0) || (t.position < 0.0 && signedQty > 0.0)) {
      var closeQty := Min(Abs(signedQty), Abs(t.position));
      profit := ProfitOf(t, closeQty, f.price);
    }
  }

  method UpdateEntry(t: Tally, f: Fill) returns (avgEntry: real)
    ensures avgEntry == NextEntry(t, f)
  {
    avgEntry := t.avgEntry;
    var signedQty := if f.side.Buy? then f.quantity else -f.quantity;
    var newPosition := t.position + signedQty;
    if Abs(newPosition) > Abs(t.position) {
      if t.position == 0.0 {
        avgEntry := f.price;
      } else {
        avgEntry := Blend(t.avgEntry, Abs(t.position), f.price, Abs(signedQty));
      }
    } else if newPosition == 0.0 {
      avgEntry := 0.0;
    }
  }

  /** The body of the accounting loop: fill number i brings the tally up to date. */
  method AccountFill(t: Tally, fills: seq<Fill>, i: nat) returns (r: Tally)
    requires i < |fills| && t == Backtest(fills[..i])
    ensures r == Backtest(fills[..i + 1])
  {
    PrefixStep(fills, i);
    var f := fills[i];
    var slipCost := SlipCost(f);
    var fillPnl := RealizeFill(t, f);
    var avgEntry := UpdateEntry(t, f);
    r := Booked(t, f, fillPnl, avgEntry, slipCost);
  }

  lemma PerSymbolStep(fills: seq<Fill>, i: nat)
    requires i < |fills|
    ensures PerSymbol(fills[..i + 1]) == PerSymbolFill(PerSymbol(fills[..i]), fills[i])
  {
    assert fills[..i + 1] == fills[..i] + [fills[i]];
    FoldAppend(PerSymbolFill, SymbolTally(EMPTY, 0), fills[..i], fills[i]);
  }

  /** The books and wins of the per-symbol loop. */
  method ComputeSymbolBooks(fills: seq<Fill>) returns (s: SymbolTally)
    ensures s == PerSymbol(fills)
  {
    hide GrossProfit, NextEntry;
    s := SymbolTally(EMPTY, 0);
    for i := 0 to |fills|
      invariant s == PerSymbol(fills[..i])
    {
      PerSymbolStep(fills, i);
      var f := fills[i];
      var signedQty := if f.side.Buy? then f.quantity else -f.quantity;
      var fillPnl := RealizeFill(s.books, f);
      var wins := s.wins;
      if s.books.position != 0.0 && Opposite(s.books.position, signedQty) {
        if fillPnl > f.fee {
          wins := wins + 1;
        }
      }
      var avgEntry := UpdateEntry(s.books, f);
      s := SymbolTally(Booked(s.books, f, fillPnl, avgEntry, 0.0), wins);
    }
    assert fills[..|fills|] == fills;
  }

  method UpdateDrawdown(peak: real, maxDd: real, equity: real) returns (newPeak: real, newMaxDd: real)
    requires maxDd >= 0.0
    ensures newPeak == Max(peak, equity) && newMaxDd == Max(maxDd, Decline(newPeak, equity))
  {
    newPeak, newMaxDd := peak, maxDd;
    if equity > newPeak {
      newPeak := equity;
    }
    if newPeak > 0.0 {
      var dd := (newPeak - equity) / newPeak;
      newMaxDd := Max(newMaxDd, dd);
    }
  }

  function TotalReturn(gain: real, initial: real): (r: real)
    ensures if initial > 0.0 then r * initial == gain else r == 0.0
  {
    if initial > 0.0 then
      DivMul(gain, initial);
      gain / initial
    else 0.0
  }

  lemma {:induction false} WorstDeclineNonNeg(c: seq<real>)
    requires |c| > 0
    ensures WorstDecline(c) >= 0.0
  {
    if |c| == 1 {
    } else {
      WorstDeclineNonNeg(c[..|c| - 1]);
    }
  }

  /** What one more fill does to the equity curve, its peak and its drawdown. */
  lemma ExtendCurve(initial: real, fills: seq<Fill>, i: nat)
    requires i < |fills|
    ensures var c := EquityCurve(initial, fills);
            && c[i + 1] == initial + Backtest(fills[..i + 1]).realized
            && RunMax(c[..i + 2]) == Max(RunMax(c[..i + 1]), c[i + 1])
            && WorstDecline(c[..i + 2]) == Max(WorstDecline(c[..i + 1]), Decline(RunMax(c[..i + 2]), c[i + 1]))
            && WorstDecline(c[..i + 1]) >= 0.0
  {
    var c := EquityCurve(initial, fills);
    OneMore(c, i);
    WorstDeclineNonNeg(c[..i + 1]);
  }

  /**
   The loop over all fills: the totals, and the drawdown of the equity curve.
   */
  method ComputeMetricsFromFills(fills: seq<Fill>, initialEquity: real)
    returns (tally: Tally, maxDd: real, totalReturn: real)
    ensures tally == Backtest(fills)
    ensures maxDd == WorstDecline(EquityCurve(initialEquity, fills))
    ensures totalReturn == TotalReturn(tally.realized, initialEquity)
  {
    ghost var curve := EquityCurve(initialEquity, fills);
    tally := EMPTY;
    var equity, peak := initialEquity, initialEquity;
    maxDd := 0.0;
    for i := 0 to |fills|
      invariant tally == Backtest(fills[..i])
      invariant equity == initialEquity + tally.realized == curve[i]
      invariant peak == RunMax(curve[..i + 1]) && maxDd == WorstDecline(curve[..i + 1])
    {
      ExtendCurve(initialEquity, fills, i);
      tally := AccountFill(tally, fills, i);
      equity := initialEquity + tally.realized;
      peak, maxDd := UpdateDrawdown(peak, maxDd, equity);
    }
    assert fills[..|fills|] == fills && curve[..|fills| + 1] == curve;
    assert equity - initialEquity == tally.realized;
    totalReturn := TotalReturn(equity - initialEquity, initialEquity);
  }
}
