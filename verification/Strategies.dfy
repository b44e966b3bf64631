/**
 The mean reversion and momentum strategies (mean_reversion.py, momentum.py): two mutable machines fed
 by the same trades and book updates. The rolling VWAP and volatility of each trade come with it, as
 the shared feature engine reports them.
 */
module Strategies {
  import opened Common

  /** holdingRoot is the square root of the holding period. */
  datatype Params = Params(
    threshold: real, warmup: int, cooldown: int,
    targetRisk: real, maxNotional: real, minNotional: real, holdingRoot: real)

  datatype Trade = Trade(price: real, vwap: real, volatility: real)

  /** A trade, or the prices on either side of a depth update. */
  datatype Event = Traded(trade: Trade) | BookUpdate(bids: seq<real>, asks: seq<real>)

  datatype Signal = Signal(side: Side, strength: real, quantity: real, urgency: real, price: real, spread: real)

  datatype State = State(
    tradeCount: nat, sinceLast: nat, lastSide: Option<Side>, mid: Option<real>, spread: Option<real>)

  const START := State(0, 0, None, None, None)

  /** What a strategy answers to an event: a signal or none, unless it divides by a zero threshold. */
  type Answer = Result<Option<Signal>, ArithmeticError>

  /** What one event does: the next state and the answer. */
  datatype Outcome = Outcome(state: State, answer: Answer) {
    function Signal(): Option<Signal> {
      if answer.Success? then answer.value else None
    }
  }

  // ----- shared formulas -----

  function ZScore(t: Trade): real {
    var absVolatility := t.volatility * t.vwap;
    if absVolatility > 0.0 then (t.price - t.vwap) / absVolatility else 0.0
  }

  function Strength(z: real, threshold: real): real
    requires threshold != 0.0
  {
    Min(Abs(z) / (threshold * 2.0), 1.0)
  }

  function Urgency(z: real, threshold: real): real
    requires threshold != 0.0
  {
    Min((Abs(z) - threshold) / threshold, 1.0)
  }

  /** The mid price if there is one and it is not zero, else the trade price. */
  function PriceOf(s: State, t: Trade): real {
    if s.mid.Some? && s.mid.value != 0.0 then s.mid.value else t.price
  }

  /** Constant risk per trade, with the notional clamped. */
  function SizeFor(p: Params, price: real, volatility: real): real
    requires price > 0.0
  {
    var holdingVol := volatility * p.holdingRoot;
    if holdingVol > 0.0 then
      StrictMul(0.0, price, holdingVol);
      var quantity := p.targetRisk / (price * holdingVol);
      var notional := quantity * price;
      if notional > p.maxNotional then p.maxNotional / price
      else if notional < p.minNotional then p.minNotional / price
      else quantity
    else p.minNotional / price
  }

  function SignalFor(p: Params, s: State, t: Trade, side: Side): (g: Signal)
    requires p.threshold != 0.0 && PriceOf(s, t) > 0.0
    ensures g.side == side
  {
    var z, price := ZScore(t), PriceOf(s, t);
    Signal(side, Strength(z, p.threshold), SizeFor(p, price, t.volatility), Urgency(z, p.threshold), price,
           if s.spread.Some? then s.spread.value else 0.0)
  }

  // ----- one event -----

  function Counted(s: State): State {
    s.(tradeCount := s.tradeCount + 1, sinceLast := s.sinceLast + 1)
  }

  predicate Ready(p: Params, s: State, t: Trade) {
    s.tradeCount >= p.warmup && s.sinceLast >= p.cooldown && t.vwap != 0.0 && t.volatility != 0.0
  }

  /** Mean reversion buys what is cheap. */
  function FadeSide(z: real, threshold: real): Option<Side> {
    if z < -threshold then Some(Buy) else if z > threshold then Some(Sell) else None
  }

  /** Momentum buys what rises. */
  function RideSide(z: real, threshold: real): Option<Side> {
    if z > threshold then Some(Buy) else if z < -threshold then Some(Sell) else None
  }

  /** A side other than the last one is taken; without a positive price no signal comes of it. */
  function Act(p: Params, s: State, t: Trade, side: Option<Side>): Outcome
    requires side.Some? ==> p.threshold != 0.0
  {
    if side.None? || side == s.lastSide then Outcome(s, Success(None))
    else
      Outcome(s.(lastSide := side, sinceLast := 0),
              Success(if PriceOf(s, t) > 0.0 then Some(SignalFor(p, s, t, side.value)) else None))
  }

  /** fade: mean reversion; otherwise momentum. */
  function SideOf(p: Params, fade: bool, t: Trade): Option<Side> {
    if fade then FadeSide(ZScore(t), p.threshold) else RideSide(ZScore(t), p.threshold)
  }

  /** The strength of a side is computed, by dividing by the threshold, before anything else is done with it. */
  function OnTrade(p: Params, fade: bool, s: State, t: Trade): Outcome {
    var c, side := Counted(s), SideOf(p, fade, t);
    if !Ready(p, c, t) then Outcome(c, Success(None))
    else if side.Some? && p.threshold == 0.0 then Outcome(c, Failure(DivisionByZero))
    else Act(p, c, t, side)
  }

  function Highest(prices: seq<real>): real
    requires |prices| > 0
  {
    if |prices| == 1 then prices[0] else Max(Highest(prices[..|prices| - 1]), prices[|prices| - 1])
  }

  function Lowest(prices: seq<real>): real
    requires |prices| > 0
  {
    if |prices| == 1 then prices[0] else Min(Lowest(prices[..|prices| - 1]), prices[|prices| - 1])
  }

  function OnBook(s: State, bids: seq<real>, asks: seq<real>): State {
    if |bids| > 0 && |asks| > 0 && Highest(bids) != 0.0 && Lowest(asks) != 0.0 then
      s.(mid := Some((Highest(bids) + Lowest(asks)) / 2.0), spread := Some(Lowest(asks) - Highest(bids)))
    else s
  }

  function On(p: Params, fade: bool, s: State, e: Event): Outcome {
    match e
    case Traded(t) => OnTrade(p, fade, s, t)
    case BookUpdate(bids, asks) => Outcome(OnBook(s, bids, asks), Success(None))
  }

  function After(p: Params, fade: bool, events: seq<Event>): State {
    if |events| == 0 then START else On(p, fade, After(p, fade, events[..|events| - 1]), events[|events| - 1]).state
  }

  function AnswerAt(p: Params, fade: bool, events: seq<Event>, k: nat): Answer
    requires k < |events|
  {
    On(p, fade, After(p, fade, events[..k]), events[k]).answer
  }

  /** The signal emitted at event k, if any. */
  function SignalAt(p: Params, fade: bool, events: seq<Event>, k: nat): Option<Signal>
    requires k < |events|
  {
    On(p, fade, After(p, fade, events[..k]), events[k]).Signal()
  }

  // ----- the machines mirror each other -----

  function Flip(side: Side): Side {
    if side.Buy? then Sell else Buy
  }

  function FlipOption(side: Option<Side>): Option<Side> {
    if side.Some? then Some(Flip(side.value)) else None
  }

  function Mirrored(s: State): State {
    s.(lastSide := FlipOption(s.lastSide))
  }

  function MirroredAnswer(a: Answer): Answer {
    if a.Success? && a.value.Some? then Success(Some(a.value.value.(side := Flip(a.value.value.side)))) else a
  }

  /** The two side rules mirror each other exactly where a negative threshold does not make them overlap. */
  lemma SidesMirrorIff(z: real, threshold: real)
    ensures RideSide(z, threshold) == FlipOption(FadeSide(z, threshold)) <==> !(threshold < z < -threshold)
  {
  }

  lemma ActMirrors(p: Params, s: State, t: Trade, side: Option<Side>)
    requires side.Some? ==> p.threshold != 0.0
    ensures Act(p, Mirrored(s), t, FlipOption(side)).state == Mirrored(Act(p, s, t, side).state)
    ensures Act(p, Mirrored(s), t, FlipOption(side)).answer == MirroredAnswer(Act(p, s, t, side).answer)
  {
  }

  lemma OnMirrors(p: Params, s: State, e: Event)
    requires p.threshold >= 0.0
    ensures On(p, false, Mirrored(s), e).state == Mirrored(On(p, true, s, e).state)
    ensures On(p, false, Mirrored(s), e).answer == MirroredAnswer(On(p, true, s, e).answer)
  {
    if e.Traded? {
      hide ZScore, SignalFor;
      SidesMirrorIff(ZScore(e.trade), p.threshold);
      if p.threshold != 0.0 {
        ActMirrors(p, Counted(s), e.trade, FadeSide(ZScore(e.trade), p.threshold));
      }
    }
  }

  lemma {:induction false} StatesMirror(p: Params, events: seq<Event>)
    requires p.threshold >= 0.0
    ensures After(p, false, events) == Mirrored(After(p, true, events))
  {
    if |events| == 0 {
    } else {
      StatesMirror(p, events[..|events| - 1]);
      OnMirrors(p, After(p, true, events[..|events| - 1]), events[|events| - 1]);
    }
  }

  /**
   On every stream of trades and book updates momentum signals at exactly the events mean reversion
   does, on the opposite side, with equal quantity, strength, urgency and price.
   */
  lemma MachinesMirror(p: Params, events: seq<Event>, k: nat)
    requires p.threshold >= 0.0 && k < |events|
    ensures AnswerAt(p, false, events, k) == MirroredAnswer(AnswerAt(p, true, events, k))
  {
    StatesMirror(p, events[..k]);
    OnMirrors(p, After(p, true, events[..k]), events[k]);
  }

  /** A trade fails exactly when the threshold is zero and a ready machine sees a z-score that is not. */
  lemma FailsIff(p: Params, fade: bool, s: State, t: Trade)
    ensures On(p, fade, s, Traded(t)).answer.Failure? <==>
            p.threshold == 0.0 && Ready(p, Counted(s), t) && ZScore(t) != 0.0
  {
    hide ZScore, SignalFor;
  }

  // ----- signals alternate, with warm-up, cool-down and bounded size -----

  predicate AllPositive(prices: seq<real>) {
    forall i :: 0 <= i < |prices| ==> prices[i] > 0.0
  }

  predicate PositiveEvent(e: Event) {
    match e
    case Traded(t) => t.price > 0.0
    case BookUpdate(bids, asks) => AllPositive(bids) && AllPositive(asks)
  }

  predicate PositiveStream(events: seq<Event>) {
    forall i :: 0 <= i < |events| ==> PositiveEvent(events[i])
  }

  /** The trade takes a side other than the last one, but there is no positive price to size a signal by. */
  predicate Swallows(p: Params, fade: bool, s: State, e: Event) {
    && e.Traded? && p.threshold != 0.0 && Ready(p, Counted(s), e.trade) && PriceOf(s, e.trade) <= 0.0
    && SideOf(p, fade, e.trade).Some? && SideOf(p, fade, e.trade) != s.lastSide
  }

  predicate SwallowsAt(p: Params, fade: bool, events: seq<Event>, k: nat)
    requires k < |events|
  {
    Swallows(p, fade, After(p, fade, events[..k]), events[k])
  }

  /** How many of the events i .. j - 1 take a side without signalling it. */
  function Swallowed(p: Params, fade: bool, events: seq<Event>, i: nat, j: nat): nat
    requires i <= j <= |events|
  {
    if i == j then 0
    else Swallowed(p, fade, events, i, j - 1) + (if SwallowsAt(p, fade, events, j - 1) then 1 else 0)
  }

  /** How many of the events i .. j - 1 are trades. */
  function Trades(events: seq<Event>, i: nat, j: nat): nat
    requires i <= j <= |events|
  {
    if i == j then 0 else Trades(events, i, j - 1) + (if events[j - 1].Traded? then 1 else 0)
  }

  lemma {:induction false} ExtremesPositive(prices: seq<real>)
    requires |prices| > 0 && AllPositive(prices)
    ensures Highest(prices) > 0.0 && Lowest(prices) > 0.0
  {
    if |prices| == 1 {
    } else {
      ExtremesPositive(prices[..|prices| - 1]);
    }
  }

  predicate MidPositive(s: State) {
    s.mid.Some? ==> s.mid.value > 0.0
  }

  /** What an event does to the memory of the machine. */
  lemma OnAny(p: Params, fade: bool, s: State, e: Event)
    ensures var o, trade := On(p, fade, s, e), if e.Traded? then 1 else 0;
            && o.state.tradeCount == s.tradeCount + trade && o.state.sinceLast <= s.sinceLast + trade
            && (o.Signal().Some? ==>
                  && e.Traded? && o.state.lastSide == Some(o.Signal().value.side) && o.state.sinceLast == 0
                  && s.lastSide != o.state.lastSide
                  && o.state.tradeCount >= p.warmup && s.sinceLast + 1 >= p.cooldown)
            && (o.Signal().None? ==>
                  if Swallows(p, fade, s, e) then o.state.lastSide.Some? && o.state.lastSide != s.lastSide
                  else o.state.lastSide == s.lastSide && o.state.sinceLast == s.sinceLast + trade)
            && !(o.Signal().Some? && Swallows(p, fade, s, e))
  {
    hide ZScore, SignalFor, FadeSide, RideSide;
  }

  /** On positive prices nothing is swallowed: an event emits a signal exactly when it changes the last side. */
  lemma OnPositive(p: Params, fade: bool, s: State, e: Event)
    requires MidPositive(s) && PositiveEvent(e)
    ensures var o, trade := On(p, fade, s, e), if e.Traded? then 1 else 0;
            && MidPositive(o.state) && !Swallows(p, fade, s, e)
            && (o.Signal().Some? <==> o.state.lastSide != s.lastSide)
            && (o.Signal().None? ==> o.state.sinceLast == s.sinceLast + trade)
  {
    hide ZScore, SignalFor, FadeSide, RideSide;
    OnAny(p, fade, s, e);
    if e.BookUpdate? && |e.bids| > 0 && |e.asks| > 0 {
      ExtremesPositive(e.bids);
      ExtremesPositive(e.asks);
    }
  }

  /** The state before event j + 1 is what event j makes of the one before it. */
  lemma AfterStep(p: Params, fade: bool, events: seq<Event>, j: nat)
    requires j < |events|
    ensures After(p, fade, events[..j + 1]) == On(p, fade, After(p, fade, events[..j]), events[j]).state
  {
    assert events[..j + 1][..j] == events[..j];
  }

  lemma {:induction false} CountsTrack(p: Params, fade: bool, events: seq<Event>, j: nat)
    requires j <= |events|
    ensures var s := After(p, fade, events[..j]); s.tradeCount == Trades(events, 0, j) && s.sinceLast <= s.tradeCount
  {
    if j == 0 {
    } else {
      hide On;
      CountsTrack(p, fade, events, j - 1);
      AfterStep(p, fade, events, j - 1);
      OnAny(p, fade, After(p, fade, events[..j - 1]), events[j - 1]);
    }
  }

  /** The side i takes turns over with every side taken since. */
  function Turned(side: Side, times: nat): Side {
    if times % 2 == 0 then side else Flip(side)
  }

  lemma OtherSide(a: Side, b: Side)
    requires a != b
    ensures b == Flip(a)
  {
  }

  lemma TurnedOnce(side: Side, times: nat)
    ensures Turned(side, times + 1) == Flip(Turned(side, times))
  {
  }

  /** Between signals the machine remembers the side of the last one, turned over by every side it swallowed. */
  lemma {:induction false} MemoryTracks(p: Params, fade: bool, events: seq<Event>, i: nat, j: nat)
    requires i < j <= |events| && SignalAt(p, fade, events, i).Some?
    requires forall k :: i < k < j ==> SignalAt(p, fade, events, k).None?
    ensures var s := After(p, fade, events[..j]);
            && s.lastSide == Some(Turned(SignalAt(p, fade, events, i).value.side, Swallowed(p, fade, events, i + 1, j)))
            && s.sinceLast <= Trades(events, i + 1, j)
            && (Swallowed(p, fade, events, i + 1, j) == 0 ==> s.sinceLast == Trades(events, i + 1, j))
  {
    hide On, After;
    AfterStep(p, fade, events, j - 1);
    OnAny(p, fade, After(p, fade, events[..j - 1]), events[j - 1]);
    if j == i + 1 {
    } else {
      var side := SignalAt(p, fade, events, i).value.side;
      MemoryTracks(p, fade, events, i, j - 1);
      assert SignalAt(p, fade, events, j - 1).None?;
      var n := Swallowed(p, fade, events, i + 1, j - 1);
      TurnedOnce(side, n);
      if SwallowsAt(p, fade, events, j - 1) {
        OtherSide(Turned(side, n), After(p, fade, events[..j]).lastSide.value);
      }
    }
  }

  /**
   On every stream, consecutive signals are at least the cool-down apart in trades, and on opposite
   sides exactly when an even number of sides was swallowed between them.
   */
  lemma SignalsAlternateIff(p: Params, fade: bool, events: seq<Event>, i: nat, j: nat)
    requires i < j < |events| && SignalAt(p, fade, events, i).Some? && SignalAt(p, fade, events, j).Some?
    requires forall k :: i < k < j ==> SignalAt(p, fade, events, k).None?
    ensures SignalAt(p, fade, events, j).value.side == Flip(SignalAt(p, fade, events, i).value.side)
            <==> Swallowed(p, fade, events, i + 1, j) % 2 == 0
    ensures Trades(events, i + 1, j + 1) >= p.cooldown
  {
    hide On, After, Swallowed;
    MemoryTracks(p, fade, events, i, j);
    OnAny(p, fade, After(p, fade, events[..j]), events[j]);
    OtherSide(After(p, fade, events[..j]).lastSide.value, SignalAt(p, fade, events, j).value.side);
  }

  lemma {:induction false} PositiveSwallowsNothing(p: Params, fade: bool, events: seq<Event>, i: nat, j: nat)
    requires PositiveStream(events) && i <= j <= |events|
    ensures MidPositive(After(p, fade, events[..j])) && Swallowed(p, fade, events, i, j) == 0
    decreases j
  {
    hide On;
    if j == 0 {
    } else {
      PositiveSwallowsNothing(p, fade, events, if i < j then i else j - 1, j - 1);
      AfterStep(p, fade, events, j - 1);
      OnPositive(p, fade, After(p, fade, events[..j - 1]), events[j - 1]);
    }
  }

  /** On positive prices consecutive signals are always on opposite sides. */
  lemma SignalsAlternate(p: Params, fade: bool, events: seq<Event>, i: nat, j: nat)
    requires PositiveStream(events) && i < j < |events|
    requires SignalAt(p, fade, events, i).Some? && SignalAt(p, fade, events, j).Some?
    requires forall k :: i < k < j ==> SignalAt(p, fade, events, k).None?
    ensures SignalAt(p, fade, events, j).value.side == Flip(SignalAt(p, fade, events, i).value.side)
    ensures Trades(events, i + 1, j + 1) >= p.cooldown
  {
    SignalsAlternateIff(p, fade, events, i, j);
    PositiveSwallowsNothing(p, fade, events, i + 1, j);
  }

  /** On every stream, no signal comes before the warm-up, nor before a full cool-down from the start. */
  lemma NoEarlySignal(p: Params, fade: bool, events: seq<Event>, j: nat)
    requires j < |events| && SignalAt(p, fade, events, j).Some?
    ensures Trades(events, 0, j + 1) >= p.warmup && Trades(events, 0, j + 1) >= p.cooldown
  {
    hide On, After;
    CountsTrack(p, fade, events, j);
    OnAny(p, fade, After(p, fade, events[..j]), events[j]);
  }

  /** Two sells in a row: the buy between them finds a trade price of zero and no mid price. */
  lemma SidesCanRepeat(p: Params)
    requires 0.0 < p.threshold < 2.0 && p.warmup <= 1 && p.cooldown <= 1
    ensures var up, down := Traded(Trade(20.0, 10.0, 0.5)), Traded(Trade(0.0, 10.0, 0.5));
            var events := [up, down, up];
            && SignalAt(p, true, events, 0).Some? && SignalAt(p, true, events, 0).value.side == Sell
            && SignalAt(p, true, events, 1).None?
            && SignalAt(p, true, events, 2).Some? && SignalAt(p, true, events, 2).value.side == Sell
  {
    hide SignalFor;
    var up, down := Trade(20.0, 10.0, 0.5), Trade(0.0, 10.0, 0.5);
    var events := [Traded(up), Traded(down), Traded(up)];
    assert ZScore(up) == 2.0 && ZScore(down) == -2.0;
    AfterStep(p, true, events, 0);
    AfterStep(p, true, events, 1);
    assert events[..0] == [];
    assert After(p, true, events[..1]) == State(1, 0, Some(Sell), None, None);
    assert After(p, true, events[..2]) == State(2, 0, Some(Buy), None, None);
  }

  /** Whatever the volatility, the notional of the position lies between the bounds. */
  lemma NotionalWithinBounds(p: Params, price: real, volatility: real)
    requires price > 0.0 && p.minNotional <= p.maxNotional
    ensures p.minNotional <= SizeFor(p, price, volatility) * price <= p.maxNotional
  {
    DivMul(p.maxNotional, price);
    DivMul(p.minNotional, price);
  }

  /** Without a positive price a side is taken but no signal emitted. */
  lemma NonPositivePriceSwallows(p: Params, fade: bool, s: State, t: Trade)
    requires PriceOf(s, t) <= 0.0
    ensures On(p, fade, s, Traded(t)).Signal().None?
    ensures var side := SideOf(p, fade, t);
            Ready(p, Counted(s), t) && p.threshold != 0.0 && side.Some? && side != s.lastSide ==>
              Swallows(p, fade, s, Traded(t)) && On(p, fade, s, Traded(t)).state.lastSide == side
  {
  }

  /** What an emitted signal is made of. */
  lemma OnSignal(p: Params, fade: bool, s: State, e: Event)
    requires On(p, fade, s, e).Signal().Some?
    ensures var g := On(p, fade, s, e).Signal().value;
            && e.Traded? && p.threshold != 0.0 && g.price == PriceOf(s, e.trade) > 0.0
            && g.quantity == SizeFor(p, g.price, e.trade.volatility)
            && g.strength == Strength(ZScore(e.trade), p.threshold)
            && g.urgency == Urgency(ZScore(e.trade), p.threshold)
  {
    hide ZScore, SizeFor, Strength, Urgency;
  }

  /** Every signal on every stream: its notional lies between the bounds. */
  lemma SignalNotionalWithinBounds(p: Params, fade: bool, events: seq<Event>, k: nat)
    requires k < |events| && SignalAt(p, fade, events, k).Some? && p.minNotional <= p.maxNotional
    ensures var g := SignalAt(p, fade, events, k).value; p.minNotional <= g.quantity * g.price <= p.maxNotional
  {
    hide On, SizeFor;
    OnSignal(p, fade, After(p, fade, events[..k]), events[k]);
    NotionalWithinBounds(p, SignalAt(p, fade, events, k).value.price, events[k].trade.volatility);
  }

  // ----- what a signal says -----

  lemma QuotientOrder(q: real, v: real, d: real, k: real, kv: real)
    requires v > 0.0 && q * v == d && kv == k * v
    ensures q < k <==> d < kv
    ensures q > k <==> d > kv
  {
    if q < k {
      StrictMul(q, k, v);
    } else if q > k {
      StrictMul(k, q, v);
    }
  }

  /** Mean reversion buys exactly below the band of threshold volatilities around VWAP and sells above it. */
  lemma FadesTheBand(t: Trade, threshold: real, band: real)
    requires t.volatility * t.vwap > 0.0 && threshold >= 0.0 && band == threshold * (t.volatility * t.vwap)
    ensures FadeSide(ZScore(t), threshold) == Some(Buy) <==> t.price < t.vwap - band
    ensures FadeSide(ZScore(t), threshold) == Some(Sell) <==> t.price > t.vwap + band
  {
    var v, d := t.volatility * t.vwap, t.price - t.vwap;
    DivMul(d, v);
    QuotientOrder(d / v, v, d, -threshold, -band);
    QuotientOrder(d / v, v, d, threshold, band);
  }

  lemma HalfOfExcess(a: real, t: real, u: real, s: real)
    requires t > 0.0 && u * t == a - t && s * (t * 2.0) == a
    ensures s == (1.0 + u) / 2.0
    ensures u > 0.0 <==> a > t
    ensures u >= 1.0 <==> a >= 2.0 * t
  {
    CancelEq(2.0 * s, 1.0 + u, t);
    QuotientOrder(u, t, a - t, 0.0, 0.0);
    QuotientOrder(u, t, a - t, 1.0, t);
  }

  /** Urgency runs from 0 at the threshold to 1 at twice the threshold, and strength follows it from one half. */
  lemma StrengthFollowsUrgency(z: real, threshold: real)
    requires threshold > 0.0
    ensures Strength(z, threshold) == (1.0 + Urgency(z, threshold)) / 2.0
    ensures Abs(z) > threshold <==> Urgency(z, threshold) > 0.0
    ensures Abs(z) >= 2.0 * threshold <==> Urgency(z, threshold) == 1.0
    ensures Urgency(z, threshold) <= 1.0
  {
    var a := Abs(z);
    var u, s := (a - threshold) / threshold, a / (threshold * 2.0);
    DivMul(a - threshold, threshold);
    DivMul(a, threshold * 2.0);
    HalfOfExcess(a, threshold, u, s);
  }

  lemma NotionalFits(notional: real, v: real, risk: real, lo: real, hi: real)
    requires v > 0.0 && notional * v == risk && lo * v <= risk <= hi * v
    ensures lo <= notional <= hi
  {
    CancelLe(lo, notional, v);
    CancelLe(notional, hi, v);
  }

  /** Unless a notional bound intervenes, every position risks the same amount, whatever the price and volatility. */
  lemma RiskIsConstant(p: Params, price: real, volatility: real, holdingVol: real)
    requires price > 0.0 && holdingVol == volatility * p.holdingRoot && holdingVol > 0.0
    requires p.minNotional * holdingVol <= p.targetRisk <= p.maxNotional * holdingVol
    ensures SizeFor(p, price, volatility) * price * holdingVol == p.targetRisk
  {
    StrictMul(0.0, price, holdingVol);
    var quantity := p.targetRisk / (price * holdingVol);
    DivMul(p.targetRisk, price * holdingVol);
    NotionalFits(quantity * price, holdingVol, p.targetRisk, p.minNotional, p.maxNotional);
  }

  // ----- the programs -----

  method HighestOf(prices: seq<real>) returns (best: real)
    requires |prices| > 0
    ensures best == Highest(prices)
    ensures best in prices && forall p :: p in prices ==> p <= best
  {
    best := prices[0];
    for i := 1 to |prices|
      invariant best == Highest(prices[..i])
      invariant best in prices && forall p :: p in prices[..i] ==> p <= best
    {
      assert prices[..i + 1] == prices[..i] + [prices[i]];
      best := Max(best, prices[i]);
    }
    assert prices[..|prices|] == prices;
  }

  method LowestOf(prices: seq<real>) returns (best: real)
    requires |prices| > 0
    ensures best == Lowest(prices)
    ensures best in prices && forall p :: p in prices ==> best <= p
  {
    best := prices[0];
    for i := 1 to |prices|
      invariant best == Lowest(prices[..i])
      invariant best in prices && forall p :: p in prices[..i] ==> best <= p
    {
      assert prices[..i + 1] == prices[..i] + [prices[i]];
      best := Min(best, prices[i]);
    }
    assert prices[..|prices|] == prices;
  }

  method Size(p: Params, price: real, volatility: real) returns (quantity: Option<real>)
    ensures quantity.Some? <==> price > 0.0
    ensures price > 0.0 ==> quantity.value == SizeFor(p, price, volatility)
  {
    var holdingVol := volatility * p.holdingRoot;
    if holdingVol > 0.0 && price > 0.0 {
      StrictMul(0.0, price, holdingVol);
      var q := p.targetRisk / (price * holdingVol);
      var notional := q * price;
      if notional > p.maxNotional {
        q := p.maxNotional / price;
      } else if notional < p.minNotional {
        q := p.minNotional / price;
      }
      return Some(q);
    } else if price > 0.0 {
      return Some(p.minNotional / price);
    } else {
      return None;
    }
  }

  /** The signal of a side that has just been taken, unless there is no positive price to size it by. */
  method Emit(p: Params, s: State, t: Trade, side: Side, z: real) returns (r: Option<Signal>)
    requires p.threshold != 0.0 && z == ZScore(t)
    ensures r == if PriceOf(s, t) > 0.0 then Some(SignalFor(p, s, t, side)) else None
  {
    var price := PriceOf(s, t);
    var quantity := Size(p, price, t.volatility);
    if quantity.None? {
      return None;
    }
    var strength := Strength(z, p.threshold);
    var urgency := Urgency(z, p.threshold);
    var spread := if s.spread.Some? then s.spread.value else 0.0;
    return Some(Signal(side, strength, quantity.value, urgency, price, spread));
  }

  class MeanReversionStrategy {
    const params: Params
    var tradeCount: nat
    var tradesSinceLastSignal: nat
    var lastSignalSide: Option<Side>
    var midPrice: Option<real>
    var spread: Option<real>

    function Value(): State
      reads this
    {
      State(tradeCount, tradesSinceLastSignal, lastSignalSide, midPrice, spread)
    }

    constructor (params: Params)
      ensures this.params == params && Value() == START
    {
      this.params := params;
      tradeCount, tradesSinceLastSignal, lastSignalSide, midPrice, spread := 0, 0, None, None, None;
    }

    method HandleTrade(t: Trade) returns (answer: Answer)
      modifies this
      ensures Outcome(Value(), answer) == On(params, true, old(Value()), Traded(t))
    {
      tradeCount := tradeCount + 1;
      tradesSinceLastSignal := tradesSinceLastSignal + 1;
      if tradeCount < params.warmup {
        return Success(None);
      }
      if tradesSinceLastSignal < params.cooldown {
        return Success(None);
      }
      if t.vwap == 0.0 || t.volatility == 0.0 {
        return Success(None);
      }
      var zScore := ZScore(t);
      var side := None;
      if zScore < -params.threshold {
        side := Some(Buy);
      } else if zScore > params.threshold {
        side := Some(Sell);
      }
      if side.None? {
        return Success(None);
      }
      if params.threshold == 0.0 {
        return Failure(DivisionByZero);
      }
      if side == lastSignalSide {
        return Success(None);
      }
      lastSignalSide := side;
      tradesSinceLastSignal := 0;
      var signal := Emit(params, Value(), t, side.value, zScore);
      return Success(signal);
    }

    method HandleBook(bids: seq<real>, asks: seq<real>)
      modifies this
      ensures Outcome(Value(), Success(None)) == On(params, true, old(Value()), BookUpdate(bids, asks))
    {
      if |bids| > 0 && |asks| > 0 {
        var bestBid := HighestOf(bids);
        var bestAsk := LowestOf(asks);
        if bestBid != 0.0 && bestAsk != 0.0 {
          midPrice, spread := Some((bestBid + bestAsk) / 2.0), Some(bestAsk - bestBid);
        }
      }
    }
  }

  class MomentumStrategy {
    const params: Params
    var tradeCount: nat
    var tradesSinceLastSignal: nat
    var lastSignalSide: Option<Side>
    var midPrice: Option<real>
    var spread: Option<real>

    function Value(): State
      reads this
    {
      State(tradeCount, tradesSinceLastSignal, lastSignalSide, midPrice, spread)
    }

    constructor (params: Params)
      ensures this.params == params && Value() == START
    {
      this.params := params;
      tradeCount, tradesSinceLastSignal, lastSignalSide, midPrice, spread := 0, 0, None, None, None;
    }

    method HandleTrade(t: Trade) returns (answer: Answer)
      modifies this
      ensures Outcome(Value(), answer) == On(params, false, old(Value()), Traded(t))
    {
      tradeCount := tradeCount + 1;
      tradesSinceLastSignal := tradesSinceLastSignal + 1;
      if tradeCount < params.warmup || tradesSinceLastSignal < params.cooldown {
        return Success(None);
      }
      if t.vwap == 0.0 || t.volatility == 0.0 {
        return Success(None);
      }
      var zScore := ZScore(t);
      var side := None;
      if zScore > params.threshold {
        side := Some(Buy);
      } else if zScore < -params.threshold {
        side := Some(Sell);
      }
      if side.None? {
        return Success(None);
      }
      if params.threshold == 0.0 {
        return Failure(DivisionByZero);
      }
      if side == lastSignalSide {
        return Success(None);
      }
      lastSignalSide := side;
      tradesSinceLastSignal := 0;
      var signal := Emit(params, Value(), t, side.value, zScore);
      return Success(signal);
    }

    method HandleBook(bids: seq<real>, asks: seq<real>)
      modifies this
      ensures Outcome(Value(), Success(None)) == On(params, false, old(Value()), BookUpdate(bids, asks))
    {
      if |bids| > 0 && |asks| > 0 {
        var bestBid := HighestOf(bids);
        var bestAsk := LowestOf(asks);
        if bestBid != 0.0 && bestAsk != 0.0 {
          midPrice, spread := Some((bestBid + bestAsk) / 2.0), Some(bestAsk - bestBid);
        }
      }
    }
  }
}
