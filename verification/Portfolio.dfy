/**
 The post-trade state: positions in every symbol, counters, the equity curve and its peak
 (state.py, and PortfolioPnL of pnl.py).
 */
module Portfolio {
  import opened Common
  import opened Runs
  import opened Ledger
  import Drawdown

  datatype Event = Filled(fill: Fill) | Priced(symbol: string, price: real)

  datatype Snapshot = Snapshot(equity: real, realized: real, unrealized: real)

  type Accounts = a: RawAccounts | a.Valid() witness Accounts([], map[])

  /** The positions dictionary, its keys in insertion order. */
  datatype RawAccounts = Accounts(order: seq<string>, holdings: map<string, Holding>) {
    ghost predicate Valid() {
      && (forall i, j :: 0 <= i < j < |order| ==> order[i] != order[j])
      && (forall s :: s in order <==> s in holdings)
    }
  }

  datatype State = State(
    initial: real, accounts: Accounts, prices: map<string, real>,
    totalFills: nat, winningFills: nat, grossProfit: real, grossLoss: real,
    peak: real, curve: seq<Snapshot>, returns_: seq<real>)

  // ----- sums over the positions -----

  /** The sum of an amount over the listed symbols' positions. */
  function SumOver(order: seq<string>, holdings: map<string, Holding>, amount: (string, Holding) -> real): real
    requires forall s :: s in order ==> s in holdings
  {
    if |order| == 0 then 0.0
    else
      var s := order[|order| - 1];
      SumOver(order[..|order| - 1], holdings, amount) + amount(s, holdings[s])
  }

  function SumAll(a: Accounts, amount: (string, Holding) -> real): real {
    SumOver(a.order, a.holdings, amount)
  }

  lemma {:induction false} SumOverElsewhere(
      order: seq<string>, holdings: map<string, Holding>, amount: (string, Holding) -> real, s: string, h: Holding)
    requires forall t :: t in order ==> t in holdings
    requires s !in order
    ensures SumOver(order, holdings[s := h], amount) == SumOver(order, holdings, amount)
  {
    if |order| == 0 {
    } else {
      assert order[|order| - 1] in order;
      SumOverElsewhere(order[..|order| - 1], holdings, amount, s, h);
    }
  }

  lemma {:induction false} SumOverUpdated(
      order: seq<string>, holdings: map<string, Holding>, amount: (string, Holding) -> real, s: string, h: Holding)
    requires forall t :: t in order ==> t in holdings
    requires forall i, j :: 0 <= i < j < |order| ==> order[i] != order[j]
    requires s in order
    ensures SumOver(order, holdings[s := h], amount)
            == SumOver(order, holdings, amount) - amount(s, holdings[s]) + amount(s, h)
  {
    var init, last := order[..|order| - 1], order[|order| - 1];
    if last == s {
      SumOverElsewhere(init, holdings, amount, s, h);
    } else {
      SumOverUpdated(init, holdings, amount, s, h);
    }
  }

  /** A law of each position is a law of the sums. */
  lemma {:induction false} SumOverLaw(
      order: seq<string>, holdings: map<string, Holding>,
      a: (string, Holding) -> real, b: (string, Holding) -> real,
      c: (string, Holding) -> real, d: (string, Holding) -> real)
    requires forall s :: s in order ==> s in holdings
    requires forall s, h :: a(s, h) + b(s, h) == c(s, h) - d(s, h)
    ensures SumOver(order, holdings, a) + SumOver(order, holdings, b)
            == SumOver(order, holdings, c) - SumOver(order, holdings, d)
  {
    if |order| == 0 {
    } else {
      SumOverLaw(order[..|order| - 1], holdings, a, b, c, d);
    }
  }

  function RealizedOf(s: string, h: Holding): real { h.realized }

  function FeesOf(s: string, h: Holding): real { h.fees }

  function CostOf(s: string, h: Holding): real { CostBasis(h) }

  /** The latest price of the symbol, or the entry price when none has been seen. */
  function Mark(prices: map<string, real>, s: string, h: Holding): real {
    if s in prices then prices[s] else h.avgEntry
  }

  function UnrealizedAt(prices: map<string, real>): (string, Holding) -> real {
    (s, h) => Unrealized(h, Mark(prices, s, h))
  }

  function MarkedAt(prices: map<string, real>): (string, Holding) -> real {
    (s, h: Holding) => h.quantity * Mark(prices, s, h)
  }

  // ----- one event -----

  function Open(a: Accounts, s: string): (r: Accounts)
    ensures s in r.holdings
  {
    if s in a.holdings then a else Accounts(a.order + [s], a.holdings[s := FLAT])
  }

  function WithFill(a: Accounts, f: Fill): Accounts {
    var b := Open(a, f.symbol);
    Accounts(b.order, b.holdings[f.symbol := Apply(b.holdings[f.symbol], f)])
  }

  function HoldingOf(a: Accounts, s: string): Holding {
    if s in a.holdings then a.holdings[s] else FLAT
  }

  function Counted(st: State, realized: real): State {
    st.(totalFills := st.totalFills + 1,
        winningFills := if realized > 0.0 then st.winningFills + 1 else st.winningFills,
        grossProfit := if realized > 0.0 then st.grossProfit + realized else st.grossProfit,
        grossLoss := if realized < 0.0 then st.grossLoss + Abs(realized) else st.grossLoss)
  }

  /** The position and the win/loss counters after a fill. */
  function Booked(st: State, f: Fill): State {
    var realized := RealizedBy(HoldingOf(st.accounts, f.symbol), f);
    Counted(st.(accounts := WithFill(st.accounts, f)), realized)
  }

  function Equity(st: State): real {
    st.initial + SumAll(st.accounts, RealizedOf) + SumAll(st.accounts, UnrealizedAt(st.prices))
    - SumAll(st.accounts, FeesOf)
  }

  function LastEquity(st: State): real {
    if |st.curve| > 0 then st.curve[|st.curve| - 1].equity else 0.0
  }

  /** A new point of the equity curve; the first point has no return. */
  function Recorded(st: State): State {
    var equity, prev := Equity(st), LastEquity(st);
    st.(curve := st.curve + [Snapshot(equity, SumAll(st.accounts, RealizedOf),
                                      SumAll(st.accounts, UnrealizedAt(st.prices)))],
        peak := if equity > st.peak then equity else st.peak,
        returns_ := if prev > 0.0 then st.returns_ + [Drawdown.PeriodReturn(prev, equity)] else st.returns_)
  }

  function Step(st: State, e: Event): State {
    match e
    case Filled(f) => Recorded(Booked(st, f))
    case Priced(s, p) => st.(prices := st.prices[s := p])
  }

  function Start(initial: real): State {
    State(initial, Accounts([], map[]), map[], 0, 0, 0.0, 0.0, initial, [], [])
  }

  /** The state after any interleaving of fills and price updates across symbols. */
  function After(initial: real, events: seq<Event>): State {
    Fold(Step, Start(initial), events)
  }

  // ----- what the events amount to -----

  function CashOf(e: Event): real {
    if e.Filled? then CashFlow(e.fill) else 0.0
  }

  function FeeIn(e: Event): real {
    if e.Filled? then e.fill.fee else 0.0
  }

  function QuantityIn(s: string): Event -> real {
    (e: Event) => if e.Filled? && e.fill.symbol == s then Signed(e.fill) else 0.0
  }

  function LastPrice(events: seq<Event>, s: string): Option<real> {
    if |events| == 0 then None
    else
      var e := events[|events| - 1];
      if e.Priced? && e.symbol == s then Some(e.price) else LastPrice(events[..|events| - 1], s)
  }

  function HeldQuantity(s: string): State -> real {
    (st: State) => HoldingOf(st.accounts, s).quantity
  }

  function TotalCost(st: State): real { SumAll(st.accounts, CostOf) }

  function TotalFees(st: State): real { SumAll(st.accounts, FeesOf) }

  function TotalRealized(st: State): real { SumAll(st.accounts, RealizedOf) }

  // ----- conservation -----

  /** A fill moves a sum over positions by its effect on the one position it touches. */
  lemma FillMovesSum(a: Accounts, f: Fill, amount: (string, Holding) -> real)
    requires forall s :: amount(s, FLAT) == 0.0
    ensures SumAll(WithFill(a, f), amount)
            == SumAll(a, amount) - amount(f.symbol, HoldingOf(a, f.symbol))
               + amount(f.symbol, Apply(HoldingOf(a, f.symbol), f))
  {
    var b, s := Open(a, f.symbol), f.symbol;
    if s !in a.holdings {
      SumOverElsewhere(a.order, a.holdings, amount, s, FLAT);
      assert b.order[..|a.order|] == a.order;
    }
    assert SumAll(b, amount) == SumAll(a, amount);
    SumOverUpdated(b.order, b.holdings, amount, s, Apply(b.holdings[s], f));
  }

  lemma StepMovesTotals(st: State, e: Event)
    ensures TotalCost(Step(st, e)) == TotalCost(st) + CashOf(e)
    ensures TotalFees(Step(st, e)) == TotalFees(st) + FeeIn(e)
    ensures Step(st, e).initial == st.initial
  {
    if e.Filled? {
      FillMovesSum(st.accounts, e.fill, CostOf);
      FillMovesSum(st.accounts, e.fill, FeesOf);
      ApplyMovesCash(HoldingOf(st.accounts, e.fill.symbol), e.fill);
    }
  }

  lemma TotalsAreConserved(initial: real, events: seq<Event>)
    ensures TotalCost(After(initial, events)) == Total(CashOf, events)
    ensures TotalFees(After(initial, events)) == Total(FeeIn, events)
    ensures After(initial, events).initial == initial
  {
    forall st, e
      ensures TotalCost(Step(st, e)) == TotalCost(st) + CashOf(e)
      ensures TotalFees(Step(st, e)) == TotalFees(st) + FeeIn(e)
      ensures Step(st, e).initial == st.initial
    {
      StepMovesTotals(st, e);
    }
    Conserved(Step, Start(initial), (st: State) => st.initial == initial, TotalCost, CashOf, events);
    Conserved(Step, Start(initial), (st: State) => st.initial == initial, TotalFees, FeeIn, events);
  }

  /** Each symbol's position is the net of its own fills, whatever happens in other symbols. */
  lemma PositionIsNetOfItsFills(initial: real, events: seq<Event>, s: string)
    ensures HoldingOf(After(initial, events).accounts, s).quantity == Total(QuantityIn(s), events)
  {
    Conserved(Step, Start(initial), _ => true, HeldQuantity(s), QuantityIn(s), events);
  }

  ghost predicate PricesAreLatest(st: State, events: seq<Event>) {
    forall s :: LastPrice(events, s) == if s in st.prices then Some(st.prices[s]) else None
  }

  lemma PricesTrack(initial: real, events: seq<Event>)
    ensures PricesAreLatest(After(initial, events), events)
  {
    forall st, past, e | PricesAreLatest(st, past)
      ensures PricesAreLatest(Step(st, e), past + [e])
    {
      assert (past + [e])[..|past|] == past;
    }
    Tracks(Step, Start(initial), PricesAreLatest, events);
  }

  /**
   At every moment the equity is the initial equity, less every fee, less the net cash spent, plus
   every position marked at its latest price (its entry price if none was seen).
   */
  lemma EquityIsCashLedger(initial: real, events: seq<Event>)
    ensures var st := After(initial, events);
            Equity(st) == initial - Total(FeeIn, events) - Total(CashOf, events)
                          + SumAll(st.accounts, MarkedAt(st.prices))
  {
    hide After, SumOver, Total, Unrealized, CostBasis;
    var st := After(initial, events);
    TotalsAreConserved(initial, events);
    forall s, h: Holding
      ensures RealizedOf(s, h) + UnrealizedAt(st.prices)(s, h) == MarkedAt(st.prices)(s, h) - CostOf(s, h)
    {
      ProfitOfHolding(h, Mark(st.prices, s, h));
    }
    SumOverLaw(st.accounts.order, st.accounts.holdings,
               RealizedOf, UnrealizedAt(st.prices), MarkedAt(st.prices), CostOf);
  }

  /** The counters of profits and losses account for all realized profit. */
  ghost predicate CountersBalance(st: State) {
    && st.grossProfit - st.grossLoss == TotalRealized(st)
    && st.grossProfit >= 0.0 && st.grossLoss >= 0.0
    && st.winningFills <= st.totalFills == |st.curve|
  }

  /** The peak is the greatest of the initial equity and every recorded equity. */
  ghost predicate PeakIsMaximum(st: State, initial: real) {
    && initial <= st.peak && (forall i :: 0 <= i < |st.curve| ==> st.curve[i].equity <= st.peak)
    && (st.peak == initial || exists i :: 0 <= i < |st.curve| && st.curve[i].equity == st.peak)
  }

  lemma StepKeepsCounters(st: State, e: Event)
    requires CountersBalance(st)
    ensures CountersBalance(Step(st, e))
  {
    if e.Filled? {
      FillMovesSum(st.accounts, e.fill, RealizedOf);
    }
  }

  lemma StepKeepsPeak(st: State, e: Event, initial: real)
    requires PeakIsMaximum(st, initial)
    ensures PeakIsMaximum(Step(st, e), initial)
  {
    hide Equity, WithFill, RealizedBy, SumAll;
    if e.Filled? {
      var t, n := Step(st, e), |st.curve|;
      assert forall i :: 0 <= i < n ==> t.curve[i] == st.curve[i];
      assert t.peak == st.peak || t.curve[n].equity == t.peak;
    }
  }

  lemma CountersAndPeak(initial: real, events: seq<Event>)
    ensures CountersBalance(After(initial, events))
    ensures PeakIsMaximum(After(initial, events), initial)
  {
    forall st, e
      ensures CountersBalance(st) ==> CountersBalance(Step(st, e))
      ensures PeakIsMaximum(st, initial) ==> PeakIsMaximum(Step(st, e), initial)
    {
      if CountersBalance(st) {
        StepKeepsCounters(st, e);
      }
      if PeakIsMaximum(st, initial) {
        StepKeepsPeak(st, e, initial);
      }
    }
    Invariant(Step, Start(initial), CountersBalance, _ => true, events);
    Invariant(Step, Start(initial), (st: State) => PeakIsMaximum(st, initial), _ => true, events);
  }

  /** The point a fill records on the curve is the equity right after that fill. */
  lemma SnapshotIsEquity(initial: real, events: seq<Event>, f: Fill)
    ensures var st := After(initial, events + [Filled(f)]);
            |st.curve| > 0 && LastEquity(st) == Equity(st)
  {
    FoldAppend(Step, Start(initial), events, Filled(f));
    var before := Booked(After(initial, events), f);
    assert Equity(Recorded(before)) == Equity(before);
  }

  function Equities(curve: seq<Snapshot>): (c: seq<real>)
    ensures |c| == |curve| && forall i :: 0 <= i < |c| ==> c[i] == curve[i].equity
  {
    seq(|curve|, i requires 0 <= i < |curve| => curve[i].equity)
  }

  /** One more positive value appends its return. */
  lemma ReturnsExtend(c: seq<real>, e: real)
    requires Drawdown.Positive(c)
    ensures Drawdown.Returns(c + [e]) ==
            Drawdown.Returns(c) + if |c| == 0 then [] else [Drawdown.PeriodReturn(c[|c| - 1], e)]
  {
  }

  lemma RecordedReturns(st: State, curve: seq<Snapshot>, returns_: seq<real>)
    requires st.curve == curve && st.returns_ == returns_
    requires Drawdown.Positive(Equities(Recorded(st).curve))
    ensures Drawdown.Positive(Equities(curve))
    ensures returns_ == Drawdown.Returns(Equities(curve)) ==>
              Recorded(st).returns_ == Drawdown.Returns(Equities(Recorded(st).curve))
  {
    hide Equity, Drawdown.PeriodReturn, Drawdown.Returns, SumAll;
    var c, d, equity := Equities(curve), Equities(Recorded(st).curve), Equity(st);
    assert d == c + [equity];
    assert forall i :: 0 <= i < |c| ==> c[i] == d[i];
    assert |c| > 0 ==> LastEquity(st) == c[|c| - 1] > 0.0;
    ReturnsExtend(c, equity);
  }

  lemma ReturnsStep(st: State, e: Event)
    requires Drawdown.Positive(Equities(Step(st, e).curve))
    ensures Drawdown.Positive(Equities(st.curve))
    ensures st.returns_ == Drawdown.Returns(Equities(st.curve)) ==>
              Step(st, e).returns_ == Drawdown.Returns(Equities(Step(st, e).curve))
  {
    hide Equity, Drawdown.PeriodReturn, RealizedBy, WithFill, Drawdown.Returns;
    if e.Filled? {
      RecordedReturns(Booked(st, e.fill), st.curve, st.returns_);
    }
  }

  /** While equity stays positive the returns recorded are the period returns of the equity curve. */
  lemma {:induction false} ReturnsFollowCurve(initial: real, events: seq<Event>)
    requires Drawdown.Positive(Equities(After(initial, events).curve))
    ensures After(initial, events).returns_ == Drawdown.Returns(Equities(After(initial, events).curve))
  {
    if |events| == 0 {
    } else {
      var past, e := events[..|events| - 1], events[|events| - 1];
      var st := After(initial, past);
      ReturnsStep(st, e);
      ReturnsFollowCurve(initial, past);
    }
  }

  lemma CompoundOfCurve(c: seq<real>, r: seq<real>)
    requires |c| > 0 && Drawdown.Positive(c) && r == Drawdown.Returns(c)
    ensures Times(Drawdown.Compound(r), c[0]) == c[|c| - 1]
  {
    hide Drawdown.Compound;
    Drawdown.CompoundReturns(c, |c| - 1);
    assert r[..|c| - 1] == r;
  }

  /** So what they compound to is the growth of equity from the first fill to the last. */
  lemma RecordedReturnsCompound(initial: real, events: seq<Event>)
    requires var curve := After(initial, events).curve; |curve| > 0 && Drawdown.Positive(Equities(curve))
    ensures var st := After(initial, events);
            Times(Drawdown.Compound(st.returns_), st.curve[0].equity) == LastEquity(st)
  {
    hide After, Drawdown.Returns, Drawdown.Compound;
    var st := After(initial, events);
    var c := Equities(st.curve);
    ReturnsFollowCurve(initial, events);
    CompoundOfCurve(c, st.returns_);
    assert c[0] == st.curve[0].equity && c[|c| - 1] == LastEquity(st);
  }

  // ----- the program -----

  class PostTradeState {
    const initialEquity: real
    var order: seq<string>
    var positions: map<string, Position>
    var latestPrices: map<string, real>
    var totalFills: nat
    var winningFills: nat
    var grossProfit: real
    var grossLoss: real
    var peakEquity: real
    var equityCurve: seq<Snapshot>
    var dailyReturns: seq<real>

    ghost predicate Valid()
      reads this`order, this`positions
    {
      && (forall i, j :: 0 <= i < j < |order| ==> order[i] != order[j])
      && (forall s :: s in order <==> s in positions)
      && (forall s, t :: s in positions && t in positions && s != t ==> positions[s] != positions[t])
    }

    function Holdings(): map<string, Holding>
      reads this`positions, positions.Values
    {
      map s | s in positions :: positions[s].Value()
    }

    function Book(): (a: Accounts)
      requires Valid()
      reads this`order, this`positions, positions.Values
    {
      Accounts(order, Holdings())
    }

    function Value(): State
      requires Valid()
      reads this, positions.Values
    {
      State(initialEquity, Book(), latestPrices, totalFills, winningFills,
            grossProfit, grossLoss, peakEquity, equityCurve, dailyReturns)
    }

    constructor (initialEquity: real)
      ensures Valid() && Value() == Start(initialEquity)
    {
      this.initialEquity := initialEquity;
      order, positions, latestPrices := [], map[], map[];
      totalFills, winningFills, grossProfit, grossLoss := 0, 0, 0.0, 0.0;
      peakEquity, equityCurve, dailyReturns := initialEquity, [], [];
    }

    method Create(symbol: string) returns (p: Position)
      requires Valid() && symbol !in positions
      modifies this`order, this`positions
      ensures order == old(order) + [symbol]
      ensures fresh(p) && positions == old(positions)[symbol := p] && p.Value() == FLAT
    {
      p := new Position(symbol);
      order, positions := order + [symbol], positions[symbol := p];
    }

    twostate lemma CreatedIsHeld(symbol: string, new p: Position)
      requires symbol !in old(positions) && positions == old(positions)[symbol := p]
      requires p.Value() == FLAT && forall s :: s in old(positions) ==> unchanged(old(positions[s]))
      ensures Holdings() == old(Holdings())[symbol := FLAT]
    {
    }

    twostate lemma CreatedIsOpen(symbol: string, new p: Position)
      requires old(Valid()) && symbol !in old(positions)
      requires order == old(order) + [symbol] && positions == old(positions)[symbol := p]
      requires fresh(p) && p.Value() == FLAT
      requires forall s :: s in old(positions) ==> unchanged(old(positions[s]))
      ensures Valid() && Book() == Open(old(Book()), symbol)
    {
      CreatedIsHeld(symbol, p);
    }

    method GetOrCreate(symbol: string) returns (p: Position)
      requires Valid()
      modifies this`order, this`positions
      ensures Valid() && symbol in positions && p == positions[symbol]
      ensures Book() == Open(old(Book()), symbol)
      ensures p in old(positions.Values) || fresh(p)
      ensures positions.Values <= old(positions.Values) + {p}
    {
      if symbol in positions {
        return positions[symbol];
      }
      p := Create(symbol);
      CreatedIsOpen(symbol, p);
    }

    method ApplyTo(symbol: string, f: Fill) returns (realized: real)
      requires Valid() && symbol in positions
      modifies positions[symbol]
      ensures Book().holdings == old(Book()).holdings[symbol := Apply(old(Book()).holdings[symbol], f)]
      ensures realized == RealizedBy(old(Book()).holdings[symbol], f)
    {
      realized := positions[symbol].ApplyFill(f);
    }

    method BookFill(f: Fill) returns (realized: real)
      requires Valid()
      modifies this`order, this`positions, positions.Values
      ensures Valid() && Book() == WithFill(old(Book()), f)
      ensures realized == RealizedBy(HoldingOf(old(Book()), f.symbol), f)
    {
      var p := GetOrCreate(f.symbol);
      realized := ApplyTo(f.symbol, f);
    }

    method Count(realized: real)
      requires Valid()
      modifies this`totalFills, this`winningFills, this`grossProfit, this`grossLoss
      ensures Value() == Counted(old(Value()), realized)
    {
      hide PostTradeState.Book;
      totalFills := totalFills + 1;
      if realized > 0.0 {
        winningFills := winningFills + 1;
        grossProfit := grossProfit + realized;
      } else if realized < 0.0 {
        grossLoss := grossLoss + Abs(realized);
      }
    }

    method Record()
      requires Valid()
      modifies this`equityCurve, this`peakEquity, this`dailyReturns
      ensures Value() == Recorded(old(Value()))
    {
      hide PostTradeState.Book, Equity, SumAll, UnrealizedAt;
      ghost var st := Value();
      var equity, realized := Equity(Value()), SumAll(Book(), RealizedOf);
      var unrealized := SumAll(Book(), UnrealizedAt(latestPrices));
      equityCurve := equityCurve + [Snapshot(equity, realized, unrealized)];
      if equity > peakEquity {
        peakEquity := equity;
      }
      if |equityCurve| >= 2 {
        var prev := equityCurve[|equityCurve| - 2].equity;
        if prev > 0.0 {
          dailyReturns := dailyReturns + [Drawdown.PeriodReturn(prev, equity)];
        }
      }
      assert Book() == st.accounts;
    }

    /** Books a fill in its symbol's position and records the resulting equity. */
    method ProcessFill(f: Fill)
      requires Valid()
      modifies this, positions.Values
      ensures Valid() && Value() == Step(old(Value()), Filled(f))
    {
      hide RealizedBy, WithFill, Recorded, PostTradeState.Book;
      ghost var st := Value();
      var realized := BookFill(f);
      Count(realized);
      assert Value() == Booked(st, f);
      Record();
    }

    method UpdatePrice(symbol: string, price: real)
      requires Valid()
      modifies this`latestPrices
      ensures Valid() && Value() == Step(old(Value()), Priced(symbol, price))
    {
      latestPrices := latestPrices[symbol := price];
    }
  }
}
