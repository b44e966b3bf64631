/**
 The emergency halt shared by all services (circuit_breaker.py): one key in a shared store, and in
 every service an instance that caches its answer for a while. Each call is one atomic step on its
 instance and the store; any number of instances interleave, and the store may fail at any step.
 */
module CircuitBreaker {
  import opened Common
  import opened Runs

  /** Seconds an answer is reused before the store is asked again. */
  const CHECK_INTERVAL := 0.5

  datatype Instance = Instance(cached: bool, lastCheck: real)

  /** An instance that has not been used yet. */
  const NEW := Instance(false, 0.0)

  /** keySet: the shared key is present, so everything should halt. */
  datatype World = World(keySet: bool, instances: map<nat, Instance>)

  datatype Operation = IsTripped | Trip | Reset

  /** `up` says whether the store can be reached during the call. */
  datatype Event = Event(instance: nat, now: real, op: Operation, up: bool)

  function InstanceOf(w: World, i: nat): Instance {
    if i in w.instances then w.instances[i] else NEW
  }

  // ----- one call -----

  function IsFresh(b: Instance, now: real): bool {
    now - b.lastCheck < CHECK_INTERVAL
  }

  /** is_tripped: the cached answer while fresh, else the store's; a failing store counts as tripped. */
  function Checked(b: Instance, keySet: bool, now: real, up: bool): Instance {
    if IsFresh(b, now) then b else Instance(if up then keySet else true, now)
  }

  /** What one instance and the store are after a call of that instance. */
  datatype Shared = Shared(keySet: bool, instance: Instance)

  /** trip and reset write the store first, so a failing store leaves both as they were. */
  function Called(op: Operation, b: Instance, keySet: bool, now: real, up: bool): Shared {
    match op
    case IsTripped => Shared(keySet, Checked(b, keySet, now, up))
    case Trip => if up then Shared(true, Instance(true, now)) else Shared(keySet, b)
    case Reset => if up then Shared(false, Instance(false, now)) else Shared(keySet, b)
  }

  /** The answer is_tripped gives. */
  function Answer(w: World, e: Event): bool {
    Checked(InstanceOf(w, e.instance), w.keySet, e.now, e.up).cached
  }

  function Next(w: World, e: Event): World {
    var r := Called(e.op, InstanceOf(w, e.instance), w.keySet, e.now, e.up);
    World(r.keySet, w.instances[e.instance := r.instance])
  }

  function After(start: World, events: seq<Event>): World {
    Fold(Next, start, events)
  }

  /** The key was absent right after event m. */
  predicate AbsentAt(start: World, events: seq<Event>, m: nat)
    requires m < |events|
  {
    !After(start, events[..m + 1]).keySet
  }

  /** No instance has been used; whether the key is set is open. */
  predicate IsStart(w: World) {
    w.instances == map[]
  }

  predicate Chronological(events: seq<Event>) {
    && (forall i :: 0 <= i < |events| ==> events[i].now >= CHECK_INTERVAL)
    && (forall i, j :: 0 <= i <= j < |events| ==> events[i].now <= events[j].now)
  }

  // ----- bounded staleness -----

  /** A cached "not tripped" is the default or was true of the store at the time it was cached. */
  ghost predicate CacheWasTrue(start: World, w: World, past: seq<Event>) {
    forall i :: !InstanceOf(w, i).cached ==>
      || InstanceOf(w, i).lastCheck == 0.0
      || exists m :: 0 <= m < |past| && past[m].now == InstanceOf(w, i).lastCheck && AbsentAt(start, past, m)
  }

  lemma NextKeepsCacheTrue(start: World, past: seq<Event>, e: Event)
    requires CacheWasTrue(start, After(start, past), past)
    ensures CacheWasTrue(start, After(start, past + [e]), past + [e])
  {
    var w, all := After(start, past), past + [e];
    FoldAppend(Next, start, past, e);
    var v := After(start, all);
    assert all[..|past| + 1] == all;
    forall i | !InstanceOf(v, i).cached && InstanceOf(v, i).lastCheck != 0.0
      ensures exists m :: 0 <= m < |all| && all[m].now == InstanceOf(v, i).lastCheck && AbsentAt(start, all, m)
    {
      if InstanceOf(v, i) == InstanceOf(w, i) {
        var m :| 0 <= m < |past| && past[m].now == InstanceOf(w, i).lastCheck && AbsentAt(start, past, m);
        assert all[..m + 1] == past[..m + 1] && all[m] == past[m];
        assert AbsentAt(start, all, m);
      } else {
        assert all[|past|] == e && AbsentAt(start, all, |past|);
      }
    }
  }

  lemma {:induction false} CacheStaysTrue(start: World, events: seq<Event>)
    requires IsStart(start)
    ensures CacheWasTrue(start, After(start, events), events)
  {
    if |events| == 0 {
    } else {
      var past, e := events[..|events| - 1], events[|events| - 1];
      CacheStaysTrue(start, past);
      NextKeepsCacheTrue(start, past, e);
      assert past + [e] == events;
    }
  }

  /**
   If any instance answers "not tripped" at time t, the key was absent at some moment within the last
   half second, whatever the other instances did and however often the store failed.
   */
  lemma BoundedStaleness(start: World, past: seq<Event>, e: Event) returns (m: nat)
    requires IsStart(start) && Chronological(past + [e])
    requires e.op.IsTripped? && !Answer(After(start, past), e)
    ensures m < |past + [e]| && e.now - CHECK_INTERVAL < (past + [e])[m].now <= e.now
    ensures AbsentAt(start, past + [e], m)
  {
    var w, all := After(start, past), past + [e];
    var b := InstanceOf(w, e.instance);
    FoldAppend(Next, start, past, e);
    assert all[..|past| + 1] == all && all[|past|] == e;
    if IsFresh(b, e.now) {
      CacheStaysTrue(start, past);
      m :| 0 <= m < |past| && past[m].now == b.lastCheck && AbsentAt(start, past, m);
      assert all[..m + 1] == past[..m + 1] && all[m] == past[m];
      assert all[m].now <= all[|past|].now;
    } else {
      m := |past|;
    }
  }

  /** Nobody successfully resets after event k. */
  predicate NoResetAfter(events: seq<Event>, k: nat) {
    forall i :: k < i < |events| ==> !(events[i].op.Reset? && events[i].up)
  }

  lemma {:induction false} KeyStaysSet(start: World, events: seq<Event>, k: nat, m: nat)
    requires k <= m < |events| && events[k].op.Trip? && events[k].up && NoResetAfter(events, k)
    ensures !AbsentAt(start, events, m)
  {
    assert events[..m + 1] == events[..m] + [events[m]];
    FoldAppend(Next, start, events[..m], events[m]);
    if m == k {
    } else {
      KeyStaysSet(start, events, k, m - 1);
    }
  }

  lemma AbsentOnlyBeforeTrip(start: World, events: seq<Event>, k: nat, m: nat)
    requires k < |events| && m < |events| && AbsentAt(start, events, m)
    requires events[k].op.Trip? && events[k].up && NoResetAfter(events, k)
    ensures m < k
  {
    if k <= m {
      KeyStaysSet(start, events, k, m);
    }
  }

  /** From half a second after a trip, until somebody resets, every instance answers "tripped". */
  lemma TripHaltsEveryone(start: World, past: seq<Event>, e: Event, k: nat)
    requires IsStart(start) && Chronological(past + [e])
    requires k < |past| && past[k].op.Trip? && past[k].up && NoResetAfter(past + [e], k)
    requires e.op.IsTripped? && e.now >= past[k].now + CHECK_INTERVAL
    ensures Answer(After(start, past), e)
  {
    if !Answer(After(start, past), e) {
      var all := past + [e];
      assert all[k] == past[k];
      var m := BoundedStaleness(start, past, e);
      AbsentOnlyBeforeTrip(start, all, k, m);
      assert false;
    }
  }

  /** The instance that tripped the breaker last answers "tripped" at once, for as long as nobody resets. */
  lemma {:induction false} TripperKnowsAtOnce(start: World, past: seq<Event>, k: nat)
    requires k < |past| && past[k].op.Trip? && past[k].up && NoResetAfter(past, k)
    ensures After(start, past).keySet && InstanceOf(After(start, past), past[k].instance).cached
  {
    var n := |past|;
    var init, e := past[..n - 1], past[n - 1];
    assert past == init + [e];
    FoldAppend(Next, start, init, e);
    if k < n - 1 {
      TripperKnowsAtOnce(start, init, k);
    }
  }

  lemma TripperAnswersTripped(start: World, past: seq<Event>, e: Event, k: nat)
    requires k < |past| && past[k].op.Trip? && past[k].up && NoResetAfter(past, k)
    requires e.op.IsTripped? && e.instance == past[k].instance
    ensures Answer(After(start, past), e)
  {
    TripperKnowsAtOnce(start, past, k);
  }

  /** A new instance sees a set key on its first check exactly when the clock has passed the interval. */
  lemma FirstCheckNeedsTheClock(now: real)
    ensures Checked(NEW, true, now, true).cached <==> now >= CHECK_INTERVAL
  {
  }

  // ----- the program -----

  datatype StoreError = StoreDown

  class Store {
    var value: Option<string>

    constructor ()
      ensures value == None
    {
      value := None;
    }
  }

  class Breaker {
    const store: Store
    var cachedState: bool
    var lastCheck: real

    constructor (store: Store)
      ensures this.store == store && Value() == NEW
    {
      this.store, cachedState, lastCheck := store, false, 0.0;
    }

    function Value(): Instance
      reads this
    {
      Instance(cachedState, lastCheck)
    }

    function View(): Shared
      reads this, store
    {
      Shared(store.value.Some?, Value())
    }

    method CheckTripped(now: real, up: bool) returns (tripped: bool)
      modifies this
      ensures View() == Called(IsTripped, old(Value()), old(store.value.Some?), now, up)
      ensures tripped == Value().cached
      ensures !up && !tripped ==> IsFresh(old(Value()), now) && !old(cachedState)
    {
      if now - lastCheck < CHECK_INTERVAL {
        return cachedState;
      }
      if up {
        cachedState := store.value.Some?;
      } else {
        cachedState := true;
      }
      lastCheck := now;
      return cachedState;
    }

    method TripBreaker(now: real, payload: string, up: bool) returns (r: Result<(), StoreError>)
      modifies this, store
      ensures View() == Called(Trip, old(Value()), old(store.value.Some?), now, up)
      ensures r.Success? <==> up
      ensures store.value == if up then Some(payload) else old(store.value)
    {
      if !up {
        return Failure(StoreDown);
      }
      store.value := Some(payload);
      cachedState, lastCheck := true, now;
      return Success(());
    }

    method ResetBreaker(now: real, up: bool) returns (r: Result<(), StoreError>)
      modifies this, store
      ensures View() == Called(Reset, old(Value()), old(store.value.Some?), now, up)
      ensures r.Success? <==> up
      ensures store.value == if up then None else old(store.value)
    {
      if !up {
        return Failure(StoreDown);
      }
      store.value := None;
      cachedState, lastCheck := false, now;
      return Success(());
    }
  }
}
