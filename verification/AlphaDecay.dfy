/**
 Signal returns at fixed horizons, computed twice: online, as trades arrive (alpha_decay.py), and
 offline, by sorting the trades and searching them (backtest_analysis.py).
 */
module AlphaDecay {
  import opened Common
  import opened Runs

  datatype Signal = Signal(id: string, timestamp: int, symbol: string, direction: real, mid: real)

  /** outcome maps each horizon to the return found there, None while pending. */
  datatype TrackedSignal = TrackedSignal(signal: Signal, outcome: map<int, Option<real>>) {
    /** Every horizon has its return. */
    predicate FullyFilled() {
      forall h :: h in outcome ==> outcome[h].Some?
    }
  }

  datatype Event = Recorded(signal: Signal) | Traded(symbol: string, timestamp: int, price: real)

  datatype Tick = Tick(timestamp: int, price: real)

  function Elements(horizons: seq<int>): set<int> {
    set h | h in horizons
  }

  function ReturnFrom(mid: real, price: real): real
    requires mid != 0.0
  {
    (price - mid) / mid
  }

  /** The return at a price that may not have been reached, from a mid price that may be missing. */
  function ReturnAt(mid: real, price: Option<real>): Option<real> {
    if price.Some? && mid != 0.0 then Some(ReturnFrom(mid, price.value)) else None
  }

  // ----- online -----

  function Fresh(horizons: seq<int>, s: Signal): TrackedSignal {
    TrackedSignal(s, map h | h in horizons :: None)
  }

  /** The entry for horizon h after a trade in the signal's symbol. */
  function SettledAt(t: TrackedSignal, h: int, timestamp: int, price: real): Option<real>
    requires h in t.outcome && t.signal.mid != 0.0
  {
    if t.outcome[h].None? && timestamp >= t.signal.timestamp + h then Some(ReturnFrom(t.signal.mid, price))
    else t.outcome[h]
  }

  /** A trade settles every pending horizon it lies at or beyond. */
  function Observe(t: TrackedSignal, e: Event): TrackedSignal {
    if e.Recorded? || t.signal.symbol != e.symbol || t.signal.mid == 0.0 then t
    else t.(outcome := map h | h in t.outcome :: SettledAt(t, h, e.timestamp, e.price))
  }

  function ObserveAll(ts: seq<TrackedSignal>, e: Event): (r: seq<TrackedSignal>)
    ensures |r| == |ts|
  {
    seq(|ts|, i requires 0 <= i < |ts| => Observe(ts[i], e))
  }

  /** The signals held after an event; beyond capacity the oldest is dropped. */
  function Track(horizons: seq<int>, capacity: nat): (seq<TrackedSignal>, Event) -> seq<TrackedSignal> {
    (ts: seq<TrackedSignal>, e: Event) =>
      if e.Recorded? then LastN(ts + [Fresh(horizons, e.signal)], capacity) else ObserveAll(ts, e)
  }

  function Tracked(horizons: seq<int>, capacity: nat, events: seq<Event>): seq<TrackedSignal> {
    Fold(Track(horizons, capacity), [], events)
  }

  /** What becomes of one signal over later events. */
  function Watch(t: TrackedSignal, events: seq<Event>): TrackedSignal {
    Fold(Observe, t, events)
  }

  function Records(events: seq<Event>): nat {
    if |events| == 0 then 0
    else Records(events[..|events| - 1]) + (if events[|events| - 1].Recorded? then 1 else 0)
  }

  // ----- offline -----

  /** The ticks of one symbol in order of arrival. */
  function Timeline(events: seq<Event>, symbol: string): seq<Tick> {
    if |events| == 0 then []
    else
      var past, e := Timeline(events[..|events| - 1], symbol), events[|events| - 1];
      if e.Traded? && e.symbol == symbol then past + [Tick(e.timestamp, e.price)] else past
  }

  /** Tuples compare by timestamp, then by price. */
  predicate NotAfter(a: Tick, b: Tick) {
    a.timestamp < b.timestamp || (a.timestamp == b.timestamp && a.price <= b.price)
  }

  predicate Sorted(ticks: seq<Tick>) {
    forall i, j :: 0 <= i <= j < |ticks| ==> NotAfter(ticks[i], ticks[j])
  }

  function Insert(ticks: seq<Tick>, t: Tick): seq<Tick> {
    if |ticks| == 0 || NotAfter(ticks[|ticks| - 1], t) then ticks + [t]
    else Insert(ticks[..|ticks| - 1], t) + [ticks[|ticks| - 1]]
  }

  function Sort(ticks: seq<Tick>): seq<Tick> {
    if |ticks| == 0 then [] else Insert(Sort(ticks[..|ticks| - 1]), ticks[|ticks| - 1])
  }

  /** The price of the first listed tick at or after the target. */
  function FirstPrice(ticks: seq<Tick>, target: int): Option<real> {
    if |ticks| == 0 then None
    else
      var past, t := FirstPrice(ticks[..|ticks| - 1], target), ticks[|ticks| - 1];
      if past.None? && t.timestamp >= target then Some(t.price) else past
  }

  function OfflineReturn(s: Signal, horizon: int, events: seq<Event>): Option<real> {
    var price := FirstPrice(Sort(Timeline(events, s.symbol)), s.timestamp + horizon);
    if s.mid > 0.0 then ReturnAt(s.mid, price) else None
  }

  // ----- sorting -----

  lemma {:induction false} InsertAdds(ticks: seq<Tick>, t: Tick)
    ensures multiset(Insert(ticks, t)) == multiset(ticks) + multiset{t}
  {
    hide NotAfter;
    if |ticks| == 0 {
    } else {
      var init, last := ticks[..|ticks| - 1], ticks[|ticks| - 1];
      assert ticks == init + [last];
      InsertAdds(init, t);
    }
  }

  lemma InsertHas(ticks: seq<Tick>, t: Tick, i: nat)
    requires i < |Insert(ticks, t)|
    ensures Insert(ticks, t)[i] == t || Insert(ticks, t)[i] in ticks
  {
    hide Insert;
    InsertAdds(ticks, t);
    assert Insert(ticks, t)[i] in multiset(Insert(ticks, t));
  }

  lemma {:induction false} InsertSorts(ticks: seq<Tick>, t: Tick)
    requires Sorted(ticks)
    ensures Sorted(Insert(ticks, t)) && multiset(Insert(ticks, t)) == multiset(ticks) + multiset{t}
  {
    InsertAdds(ticks, t);
    if |ticks| == 0 || NotAfter(ticks[|ticks| - 1], t) {
    } else {
      var init, last := ticks[..|ticks| - 1], ticks[|ticks| - 1];
      InsertSorts(init, t);
      forall i | 0 <= i < |Insert(init, t)|
        ensures NotAfter(Insert(init, t)[i], last)
      {
        InsertHas(init, t, i);
      }
    }
  }

  lemma {:induction false} SortSorts(ticks: seq<Tick>)
    ensures Sorted(Sort(ticks)) && multiset(Sort(ticks)) == multiset(ticks)
  {
    hide NotAfter, Insert;
    if |ticks| == 0 {
    } else {
      var init, last := ticks[..|ticks| - 1], ticks[|ticks| - 1];
      SortSorts(init);
      InsertSorts(Sort(init), last);
      assert ticks == init + [last];
    }
  }

  lemma InsertLast(ticks: seq<Tick>, t: Tick)
    requires Sorted(ticks + [t])
    ensures Sorted(ticks) && Insert(ticks, t) == ticks + [t]
  {
    hide NotAfter;
    var all := ticks + [t];
    assert forall i :: 0 <= i < |ticks| ==> ticks[i] == all[i];
    assert |ticks| > 0 ==> NotAfter(all[|ticks| - 1], all[|ticks|]);
  }

  /** Sorting a sorted timeline changes nothing. */
  lemma {:induction false} SortKeepsSorted(ticks: seq<Tick>)
    requires Sorted(ticks)
    ensures Sort(ticks) == ticks
  {
    hide NotAfter, Insert;
    if |ticks| == 0 {
    } else {
      var init, last := ticks[..|ticks| - 1], ticks[|ticks| - 1];
      assert ticks == init + [last];
      InsertLast(init, last);
      SortKeepsSorted(init);
    }
  }

  // ----- searching -----

  lemma {:induction false} FirstPriceIs(ticks: seq<Tick>, target: int, i: nat)
    requires i <= |ticks| && forall k :: 0 <= k < i ==> ticks[k].timestamp < target
    requires i < |ticks| ==> ticks[i].timestamp >= target
    ensures FirstPrice(ticks, target) == if i < |ticks| then Some(ticks[i].price) else None
  {
    var n := |ticks|;
    if n == 0 {
    } else {
      FirstPriceIs(ticks[..n - 1], target, if i < n then i else n - 1);
    }
  }

  lemma {:induction false} FirstPriceOfConcat(a: seq<Tick>, b: seq<Tick>, target: int)
    ensures FirstPrice(a + b, target) ==
            if FirstPrice(a, target).Some? then FirstPrice(a, target) else FirstPrice(b, target)
  {
    if |b| == 0 {
      assert a + b == a;
    } else {
      FirstPriceOfConcat(a, b[..|b| - 1], target);
      assert (a + b)[..|a + b| - 1] == a + b[..|b| - 1];
    }
  }

  lemma {:induction false} TimelineOfConcat(a: seq<Event>, b: seq<Event>, symbol: string)
    ensures Timeline(a + b, symbol) == Timeline(a, symbol) + Timeline(b, symbol)
  {
    if |b| == 0 {
      assert a + b == a;
    } else {
      TimelineOfConcat(a, b[..|b| - 1], symbol);
      assert (a + b)[..|a + b| - 1] == a + b[..|b| - 1];
    }
  }

  // ----- what the tracker finds -----

  /** The tracked signal reports r at horizon h. */
  predicate Reports(t: TrackedSignal, h: int, r: Option<real>) {
    h in t.outcome && t.outcome[h] == r
  }

  /** A watched signal keeps, at each horizon, the return of the first qualifying trade to arrive. */
  lemma {:induction false} WatchFindsFirst(horizons: seq<int>, s: Signal, events: seq<Event>, h: int)
    requires h in horizons
    ensures Watch(Fresh(horizons, s), events).signal == s
    ensures Reports(Watch(Fresh(horizons, s), events), h,
                    ReturnAt(s.mid, FirstPrice(Timeline(events, s.symbol), s.timestamp + h)))
  {
    if |events| == 0 {
    } else {
      WatchFindsFirst(horizons, s, events[..|events| - 1], h);
    }
  }

  /** The signal t is held, `back` places from the end. */
  ghost predicate Holds(ts: seq<TrackedSignal>, back: nat, t: TrackedSignal) {
    back < |ts| && ts[|ts| - 1 - back] == t
  }

  /** An event either pushes every held signal one place back or lets it observe a trade in place. */
  lemma HeldStep(horizons: seq<int>, capacity: nat, ts: seq<TrackedSignal>, e: Event, back: nat, t: TrackedSignal)
    requires Holds(ts, back, t)
    requires e.Recorded? ==> back + 1 < capacity
    ensures Holds(Track(horizons, capacity)(ts, e), if e.Recorded? then back + 1 else back, Observe(t, e))
  {
  }

  /** A signal just recorded is the last one held, as nothing has been watched yet. */
  lemma HeldWhenRecorded(horizons: seq<int>, capacity: nat, ts: seq<TrackedSignal>, s: Signal)
    requires capacity > 0
    ensures Holds(Track(horizons, capacity)(ts, Recorded(s)), 0, Watch(Fresh(horizons, s), []))
  {
    hide Fresh;
  }

  /**
   A recorded signal that later records have not pushed out is held, that many places from the end,
   as it became by watching only what came after it.
   */
  lemma {:induction false} HeldUntilEvicted(
      horizons: seq<int>, capacity: nat, before: seq<Event>, s: Signal, after: seq<Event>)
    requires Records(after) < capacity
    ensures Holds(Tracked(horizons, capacity, before + [Recorded(s)] + after), Records(after),
                  Watch(Fresh(horizons, s), after))
  {
    hide Fold, Observe, Fresh, Track, Holds;
    var start := before + [Recorded(s)];
    var step := Track(horizons, capacity);
    if |after| == 0 {
      assert start + after == start;
      FoldAppend(step, [], before, Recorded(s));
      HeldWhenRecorded(horizons, capacity, Tracked(horizons, capacity, before), s);
    } else {
      var init, e := after[..|after| - 1], after[|after| - 1];
      assert init + [e] == after;
      FoldAppend(Observe, Fresh(horizons, s), init, e);
      HeldUntilEvicted(horizons, capacity, before, s, init);
      assert start + after == start + init + [e];
      FoldAppend(step, [], start + init, e);
      HeldStep(horizons, capacity, Tracked(horizons, capacity, start + init), e, Records(init),
               Watch(Fresh(horizons, s), init));
    }
  }

  /** The signal was recorded before any trade of its symbol reached the horizon. */
  predicate InTime(before: seq<Event>, s: Signal, horizon: int) {
    FirstPrice(Timeline(before, s.symbol), s.timestamp + horizon).None?
  }

  lemma FirstOverallIsFirstAfter(before: seq<Event>, s: Signal, after: seq<Event>, h: int)
    requires InTime(before, s, h)
    ensures FirstPrice(Timeline(before + [Recorded(s)] + after, s.symbol), s.timestamp + h)
            == FirstPrice(Timeline(after, s.symbol), s.timestamp + h)
  {
    TimelineOfConcat(before, [Recorded(s)], s.symbol);
    TimelineOfConcat(before + [Recorded(s)], after, s.symbol);
    FirstPriceOfConcat(Timeline(before, s.symbol), Timeline(after, s.symbol), s.timestamp + h);
    assert Timeline([Recorded(s)], s.symbol) == [];
    assert Timeline(before, s.symbol) + [] == Timeline(before, s.symbol);
  }

  /** Watching the trades as they come finds what sorting and searching all of them finds. */
  lemma WatchIsOffline(horizons: seq<int>, before: seq<Event>, s: Signal, after: seq<Event>, h: int)
    requires h in horizons && s.mid >= 0.0
    requires Sorted(Timeline(before + [Recorded(s)] + after, s.symbol)) && InTime(before, s, h)
    ensures Reports(Watch(Fresh(horizons, s), after), h, OfflineReturn(s, h, before + [Recorded(s)] + after))
  {
    hide ReturnFrom, Timeline, Sorted, Watch, FirstPrice;
    FirstOverallIsFirstAfter(before, s, after, h);
    SortKeepsSorted(Timeline(before + [Recorded(s)] + after, s.symbol));
    WatchFindsFirst(horizons, s, after, h);
  }

  /** The earliest of the ticks at or after the target; of several at one time, the cheapest. */
  ghost predicate IsLeast(ticks: seq<Tick>, target: int, least: Option<Tick>) {
    match least
    case None => forall t :: t in ticks ==> t.timestamp < target
    case Some(t) =>
      && t in ticks && t.timestamp >= target
      && forall u :: u in ticks && u.timestamp >= target ==> NotAfter(t, u)
  }

  function Least(ticks: seq<Tick>, target: int): (least: Option<Tick>)
    ensures IsLeast(ticks, target, least)
  {
    if |ticks| == 0 then None
    else
      var past, t := Least(ticks[..|ticks| - 1], target), ticks[|ticks| - 1];
      assert ticks == ticks[..|ticks| - 1] + [t];
      if t.timestamp >= target && (past.None? || NotAfter(t, past.value)) then Some(t) else past
  }

  function PriceOf(tick: Option<Tick>): Option<real> {
    if tick.Some? then Some(tick.value.price) else None
  }

  /** However many there are before the target in an ordered timeline, the next one is the least at or after it. */
  lemma FirstOfSorted(ticks: seq<Tick>, target: int, least: Option<Tick>)
    requires Sorted(ticks) && IsLeast(ticks, target, least)
    ensures FirstPrice(ticks, target) == PriceOf(least)
  {
    var i := 0;
    while i < |ticks| && ticks[i].timestamp < target
      invariant 0 <= i <= |ticks| && forall k :: 0 <= k < i ==> ticks[k].timestamp < target
    {
      i := i + 1;
    }
    FirstPriceIs(ticks, target, i);
    assert i < |ticks| ==> ticks[i] in ticks;
    if least.Some? {
      var j :| 0 <= j < |ticks| && ticks[j] == least.value;
      assert i <= j && NotAfter(ticks[i], ticks[j]) && NotAfter(ticks[j], ticks[i]);
    }
  }

  /** Sorting and searching finds the least qualifying tick, in whatever order the ticks arrived. */
  lemma SortFindsLeast(ticks: seq<Tick>, target: int)
    ensures FirstPrice(Sort(ticks), target) == PriceOf(Least(ticks, target))
  {
    SortSorts(ticks);
    forall t
      ensures t in Sort(ticks) <==> t in ticks
    {
      assert t in multiset(Sort(ticks)) <==> t in multiset(ticks);
    }
    FirstOfSorted(Sort(ticks), target, Least(ticks, target));
  }

  /**
   Whether a signal's online and offline returns agree at a horizon: the trade that settles it as it
   arrives, and the least one of all that qualify, have the same price; a zero mid price has no return
   either way, and a negative one has a return online as soon as a trade qualifies.
   */
  predicate SameTrade(before: seq<Event>, s: Signal, after: seq<Event>, h: int) {
    var target := s.timestamp + h;
    var arrived := FirstPrice(Timeline(after, s.symbol), target);
    if s.mid > 0.0 then arrived == PriceOf(Least(Timeline(before + [Recorded(s)] + after, s.symbol), target))
    else s.mid == 0.0 || arrived.None?
  }

  lemma ReturnsDiffer(mid: real, p: real, q: real)
    requires mid != 0.0
    ensures ReturnFrom(mid, p) == ReturnFrom(mid, q) <==> p == q
  {
    DivMul(p - mid, mid);
    DivMul(q - mid, mid);
  }

  /** From a mid price other than zero, different prices mean different returns. */
  lemma ReturnsAtDiffer(mid: real, p: Option<real>, q: Option<real>)
    ensures mid != 0.0 ==> (ReturnAt(mid, p) == ReturnAt(mid, q) <==> p == q)
  {
    if mid != 0.0 && p.Some? && q.Some? {
      ReturnsDiffer(mid, p.value, q.value);
    }
  }

  /** The tracker reports the offline return of a signal it holds exactly under that condition. */
  lemma OnlineEqualsOfflineIff(
      horizons: seq<int>, capacity: nat, before: seq<Event>, s: Signal, after: seq<Event>, h: int)
    requires Records(after) < capacity && h in horizons
    ensures var events := before + [Recorded(s)] + after;
            exists t :: && Holds(Tracked(horizons, capacity, events), Records(after), t) && t.signal == s
                        && (Reports(t, h, OfflineReturn(s, h, events)) <==> SameTrade(before, s, after, h))
  {
    hide FirstPrice, Least, Sort, Timeline, ReturnFrom, Watch, Tracked;
    var events := before + [Recorded(s)] + after;
    HeldUntilEvicted(horizons, capacity, before, s, after);
    WatchFindsFirst(horizons, s, after, h);
    SortFindsLeast(Timeline(events, s.symbol), s.timestamp + h);
    var t, target := Watch(Fresh(horizons, s), after), s.timestamp + h;
    var arrived, least := FirstPrice(Timeline(after, s.symbol), target), Least(Timeline(events, s.symbol), target);
    ReturnsAtDiffer(s.mid, arrived, PriceOf(least));
  }

  /**
   Online equals offline: with a symbol's trades in order of time (and of price within a millisecond),
   a non-negative mid price, and a signal recorded in time and not evicted, the tracker's return at
   each horizon is the one found by sorting and searching.
   */
  lemma OnlineEqualsOffline(
      horizons: seq<int>, capacity: nat, before: seq<Event>, s: Signal, after: seq<Event>, h: int)
    requires Records(after) < capacity && h in horizons && s.mid >= 0.0
    requires Sorted(Timeline(before + [Recorded(s)] + after, s.symbol)) && InTime(before, s, h)
    ensures var events := before + [Recorded(s)] + after;
            exists t :: && Holds(Tracked(horizons, capacity, events), Records(after), t)
                        && t.signal == s && Reports(t, h, OfflineReturn(s, h, events))
  {
    HeldUntilEvicted(horizons, capacity, before, s, after);
    WatchIsOffline(horizons, before, s, after, h);
    WatchFindsFirst(horizons, s, after, h);
  }

  predicate Increasing(ticks: seq<Tick>) {
    forall i, j :: 0 <= i < j < |ticks| ==> ticks[i].timestamp < ticks[j].timestamp
  }

  lemma IncreasingIsSorted(ticks: seq<Tick>)
    requires Increasing(ticks)
    ensures Sorted(ticks)
  {
  }

  /** In particular with strictly increasing time stamps. */
  lemma IncreasingTradesAgree(
      horizons: seq<int>, capacity: nat, before: seq<Event>, s: Signal, after: seq<Event>, h: int)
    requires Records(after) < capacity && h in horizons && s.mid >= 0.0 && InTime(before, s, h)
    requires Increasing(Timeline(before + [Recorded(s)] + after, s.symbol))
    ensures var events := before + [Recorded(s)] + after;
            exists t :: && Holds(Tracked(horizons, capacity, events), Records(after), t)
                        && t.signal == s && Reports(t, h, OfflineReturn(s, h, events))
  {
    IncreasingIsSorted(Timeline(before + [Recorded(s)] + after, s.symbol));
    OnlineEqualsOffline(horizons, capacity, before, s, after, h);
  }

  lemma LeastOfTwo(p: Tick, q: Tick, target: int)
    requires p.timestamp == q.timestamp >= target
    ensures PriceOf(Least([p, q], target)) == Some(Min(p.price, q.price))
  {
    assert [p, q][..1] == [p] && [p][..0] == [];
    assert Least([p], target) == Some(p);
  }

  lemma TimelineOfTwo(a: Event, b: Event)
    requires a.Traded? && b.Traded? && a.symbol == b.symbol
    ensures Timeline([a, b], a.symbol) == [Tick(a.timestamp, a.price), Tick(b.timestamp, b.price)]
  {
    assert [a, b][..1] == [a] && [a][..0] == [];
    assert Timeline([], a.symbol) + [Tick(a.timestamp, a.price)] == [Tick(a.timestamp, a.price)];
    assert Timeline([a], a.symbol) == [Tick(a.timestamp, a.price)];
  }

  /** Of two trades in the same millisecond online takes the first to arrive, offline the cheaper. */
  lemma TiesDiffer(s: Signal, h: int, first: real, second: real)
    requires s.mid > 0.0
    ensures var at := s.timestamp + h;
            var after := [Traded(s.symbol, at, first), Traded(s.symbol, at, second)];
            && Reports(Watch(Fresh([h], s), after), h, Some(ReturnFrom(s.mid, first)))
            && OfflineReturn(s, h, after) == Some(ReturnFrom(s.mid, Min(first, second)))
            && (Reports(Watch(Fresh([h], s), after), h, OfflineReturn(s, h, after)) <==> first <= second)
  {
    hide ReturnFrom, Watch, Fresh, Timeline, FirstPrice, Sort, Least;
    var at := s.timestamp + h;
    var a, b := Traded(s.symbol, at, first), Traded(s.symbol, at, second);
    var p, q := Tick(at, first), Tick(at, second);
    TimelineOfTwo(a, b);
    WatchFindsFirst([h], s, [a, b], h);
    FirstPriceIs([p, q], at, 0);
    SortFindsLeast([p, q], at);
    LeastOfTwo(p, q, at);
    ReturnsDiffer(s.mid, first, Min(first, second));
  }

  // ----- the programs -----

  /** The first price at or after the target, by binary search. */
  method FindPriceAt(timeline: seq<Tick>, target: int) returns (price: Option<real>)
    requires Sorted(timeline)
    ensures price == FirstPrice(timeline, target)
  {
    if |timeline| == 0 {
      return None;
    }
    var lo, hi := 0, |timeline| - 1;
    if target > timeline[|timeline| - 1].timestamp {
      FirstPriceIs(timeline, target, |timeline|);
      return None;
    }
    while lo < hi
      invariant 0 <= lo <= hi < |timeline|
      invariant forall k :: 0 <= k < lo ==> timeline[k].timestamp < target
      invariant timeline[hi].timestamp >= target
    {
      var mid := (lo + hi) / 2;
      if timeline[mid].timestamp < target {
        lo := mid + 1;
      } else {
        hi := mid;
      }
    }
    FirstPriceIs(timeline, target, lo);
    return Some(timeline[lo].price);
  }

  method ReturnAtHorizon(s: Signal, h: int, ghost events: seq<Event>, timeline: seq<Tick>) returns (r: Option<real>)
    requires Sorted(timeline) && timeline == Sort(Timeline(events, s.symbol))
    ensures r == OfflineReturn(s, h, events)
  {
    hide Sort, Timeline, FirstPrice, Sorted;
    var price := FindPriceAt(timeline, s.timestamp + h);
    if price.Some? && s.mid > 0.0 {
      r := Some(ReturnFrom(s.mid, price.value));
    } else {
      r := None;
    }
  }

  /** The offline returns of one signal at every horizon. */
  method HorizonReturns(s: Signal, horizons: seq<int>, events: seq<Event>) returns (found: map<int, Option<real>>)
    ensures found.Keys == Elements(horizons)
    ensures forall h :: h in found ==> found[h] == OfflineReturn(s, h, events)
  {
    hide OfflineReturn, Sort, Timeline, Sorted;
    var timeline := Sort(Timeline(events, s.symbol));
    SortSorts(Timeline(events, s.symbol));
    found := map[];
    for k := 0 to |horizons|
      invariant found.Keys == Elements(horizons[..k])
      invariant forall h :: h in found ==> found[h] == OfflineReturn(s, h, events)
    {
      var r := ReturnAtHorizon(s, horizons[k], events, timeline);
      found := found[horizons[k] := r];
      assert horizons[..k + 1] == horizons[..k] + [horizons[k]];
    }
    assert horizons[..|horizons|] == horizons;
  }

  class AlphaDecayTracker {
    const horizons: seq<int>
    const maxSignals: nat
    var signals: seq<TrackedSignal>

    ghost predicate Valid()
      reads this
    {
      forall i :: 0 <= i < |signals| ==> signals[i].outcome.Keys == Elements(horizons)
    }

    constructor (horizons: seq<int>, maxSignals: nat)
      ensures this.horizons == horizons && this.maxSignals == maxSignals
      ensures Valid() && signals == Tracked(horizons, maxSignals, [])
    {
      this.horizons, this.maxSignals, signals := horizons, maxSignals, [];
    }

    method RecordSignal(s: Signal)
      requires Valid()
      modifies this
      ensures Valid() && signals == Track(horizons, maxSignals)(old(signals), Recorded(s))
    {
      var sig := Fresh(horizons, s);
      signals := LastN(signals + [sig], maxSignals);
    }

    /** Fills the pending horizons of one signal that a trade has reached. */
    method Settle(t: TrackedSignal, timestamp: int, price: real) returns (r: TrackedSignal)
      requires t.outcome.Keys == Elements(horizons) && t.signal.mid != 0.0
      ensures r == Observe(t, Traded(t.signal.symbol, timestamp, price))
    {
      r := t;
      for k := 0 to |horizons|
        invariant r.signal == t.signal && r.outcome.Keys == t.outcome.Keys
        invariant forall h :: h in t.outcome ==>
                    r.outcome[h] == if h in horizons[..k] then SettledAt(t, h, timestamp, price) else t.outcome[h]
      {
        var h := horizons[k];
        assert horizons[..k + 1] == horizons[..k] + [h];
        if r.outcome[h].None? {
          if timestamp >= r.signal.timestamp + h {
            var actual := ReturnFrom(r.signal.mid, price);
            r := r.(outcome := r.outcome[h := Some(actual)]);
          }
        }
      }
      assert horizons[..|horizons|] == horizons;
      assert forall h :: h in t.outcome ==> h in Elements(horizons);
      assert r.outcome == Observe(t, Traded(t.signal.symbol, timestamp, price)).outcome;
    }

    method OnTrade(symbol: string, timestamp: int, price: real)
      requires Valid()
      modifies this
      ensures Valid() && signals == Track(horizons, maxSignals)(old(signals), Traded(symbol, timestamp, price))
    {
      ghost var e := Traded(symbol, timestamp, price);
      for i := 0 to |signals|
        invariant |signals| == |old(signals)| && Valid()
        invariant forall k :: 0 <= k < i ==> signals[k] == Observe(old(signals)[k], e)
        invariant forall k :: i <= k < |signals| ==> signals[k] == old(signals)[k]
      {
        var sig := signals[i];
        if sig.FullyFilled() {
          assert Observe(sig, e).outcome == sig.outcome;
        } else if sig.signal.symbol == symbol && sig.signal.mid != 0.0 {
          var settled := Settle(sig, timestamp, price);
          signals := signals[i := settled];
        }
      }
    }
  }
}
