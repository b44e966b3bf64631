/**
 Token bucket rate limiter (rate_limiter.py). Refilling and taking a token happen under one lock, so
 any interleaving of callers is a sequence of timed attempts on the bucket.
 */
module RateLimiter {
  import opened Common
  import opened Runs

  /** rate tokens a second, at most capacity of them, full at time start. */
  datatype Limiter = Limiter(rate: real, capacity: int, start: real) {
    predicate Valid() {
      rate > 0.0 && capacity >= 1
    }
  }

  datatype Bucket = Bucket(tokens: real, lastRefill: real)

  /** The burst size in effect; zero means unset. */
  function BurstSize(callsPerSecond: real, burst: Option<int>): (n: int)
    requires callsPerSecond > 0.0
    ensures n < 1 <==> burst.Some? && burst.value < 0
  {
    if burst.Some? && burst.value != 0 then burst.value
    else if (callsPerSecond * 2.0).Floor > 1 then (callsPerSecond * 2.0).Floor
    else 1
  }

  /** Tokens earned between two times. */
  function Earned(l: Limiter, from: real, to: real): real {
    (to - from) * l.rate
  }

  function Refilled(l: Limiter, b: Bucket, now: real): Bucket {
    Bucket(Min(b.tokens + Earned(l, b.lastRefill, now), l.capacity as real), now)
  }

  /** One attempt: refill, then take a token if there is one. */
  function Attempt(l: Limiter, b: Bucket, now: real): Bucket {
    var r := Refilled(l, b, now);
    if r.tokens >= 1.0 then Bucket(r.tokens - 1.0, now) else r
  }

  function After(l: Limiter, times: seq<real>): Bucket {
    if |times| == 0 then Bucket(l.capacity as real, l.start)
    else Attempt(l, After(l, times[..|times| - 1]), times[|times| - 1])
  }

  /** The tokens attempt i finds. */
  function Level(l: Limiter, times: seq<real>, i: nat): real
    requires i < |times|
  {
    Refilled(l, After(l, times[..i]), times[i]).tokens
  }

  predicate Granted(l: Limiter, times: seq<real>, i: nat)
    requires i < |times|
  {
    Level(l, times, i) >= 1.0
  }

  /** How many of the attempts i .. j - 1 got a token. */
  function Grants(l: Limiter, times: seq<real>, i: nat, j: nat): nat
    requires i <= j <= |times|
  {
    if i == j then 0
    else Grants(l, times, i, j - 1) + (if Granted(l, times, j - 1) then 1 else 0)
  }

  /** Attempts are made in the order of the clock. */
  predicate Chronological(l: Limiter, times: seq<real>) {
    && (forall i :: 0 <= i < |times| ==> l.start <= times[i])
    && (forall i, j :: 0 <= i <= j < |times| ==> times[i] <= times[j])
  }

  // ----- the level of the bucket -----

  lemma EarnedAdds(l: Limiter, a: real, b: real, c: real)
    ensures Earned(l, a, c) == Earned(l, a, b) + Earned(l, b, c)
  {
  }

  lemma EarnedNonNeg(l: Limiter, a: real, b: real)
    requires l.rate >= 0.0 && a <= b
    ensures Earned(l, a, b) >= 0.0
  {
    MulMono(0.0, b - a, l.rate);
  }

  /** What attempt i leaves behind. */
  lemma LevelStep(l: Limiter, times: seq<real>, i: nat)
    requires i + 1 < |times|
    ensures var left := Level(l, times, i) - (if Granted(l, times, i) then 1.0 else 0.0);
            Level(l, times, i + 1) == Min(left + Earned(l, times[i], times[i + 1]), l.capacity as real)
  {
    assert times[..i + 1][..i] == times[..i];
  }

  lemma {:induction false} LevelNonNeg(l: Limiter, times: seq<real>, i: nat)
    requires l.Valid() && Chronological(l, times) && i < |times|
    ensures 0.0 <= Level(l, times, i) <= l.capacity as real
  {
    if i == 0 {
      EarnedNonNeg(l, l.start, times[0]);
    } else {
      LevelNonNeg(l, times, i - 1);
      LevelStep(l, times, i - 1);
      EarnedNonNeg(l, times[i - 1], times[i]);
    }
  }

  /** The room left in the window from attempt i to attempt j, just before attempt j. */
  function Room(l: Limiter, times: seq<real>, i: nat, j: nat): real
    requires i <= j < |times|
  {
    l.capacity as real + Earned(l, times[i], times[j]) - Grants(l, times, i, j) as real
  }

  lemma RoomStep(l: Limiter, times: seq<real>, i: nat, j: nat)
    requires i <= j && j + 1 < |times|
    ensures Room(l, times, i, j + 1)
            == Room(l, times, i, j) - (if Granted(l, times, j) then 1.0 else 0.0) + Earned(l, times[j], times[j + 1])
  {
    EarnedAdds(l, times[i], times[j], times[j + 1]);
  }

  /** The bucket never holds more than the room of any window ending now ... */
  lemma {:induction false} LevelWithinRoom(l: Limiter, times: seq<real>, i: nat, j: nat)
    requires l.Valid() && Chronological(l, times) && i <= j < |times|
    ensures Level(l, times, j) <= Room(l, times, i, j)
  {
    if i == j {
      LevelNonNeg(l, times, i);
    } else {
      LevelWithinRoom(l, times, i, j - 1);
      LevelStep(l, times, j - 1);
      RoomStep(l, times, i, j - 1);
    }
  }

  /** ... and holds exactly the room of one of them: the window since it was last full. */
  lemma {:induction false} LevelIsSomeRoom(l: Limiter, times: seq<real>, j: nat) returns (i: nat)
    requires l.Valid() && Chronological(l, times) && j < |times|
    ensures i <= j && Level(l, times, j) == Room(l, times, i, j)
  {
    if j == 0 {
      EarnedNonNeg(l, l.start, times[0]);
      i := 0;
    } else {
      LevelStep(l, times, j - 1);
      if Level(l, times, j) == l.capacity as real {
        i := j;
      } else {
        i := LevelIsSomeRoom(l, times, j - 1);
        RoomStep(l, times, i, j - 1);
      }
    }
  }

  // ----- the rate envelope, in both directions -----

  /** Admitting attempt j keeps every window ending now within burst plus rate times length. */
  ghost predicate Admissible(l: Limiter, times: seq<real>, j: nat)
    requires j < |times|
  {
    forall i :: 0 <= i <= j ==>
      Grants(l, times, i, j) as real + 1.0 <= l.capacity as real + Earned(l, times[i], times[j])
  }

  /** The limiter grants exactly the attempts that keep every window within the envelope. */
  lemma GrantedIffAdmissible(l: Limiter, times: seq<real>, j: nat)
    requires l.Valid() && Chronological(l, times) && j < |times|
    ensures Granted(l, times, j) <==> Admissible(l, times, j)
  {
    if Granted(l, times, j) {
      forall i | 0 <= i <= j
        ensures Grants(l, times, i, j) as real + 1.0 <= l.capacity as real + Earned(l, times[i], times[j])
      {
        LevelWithinRoom(l, times, i, j);
      }
    }
    if Admissible(l, times, j) {
      var i := LevelIsSomeRoom(l, times, j);
      assert Grants(l, times, i, j) as real + 1.0 <= l.capacity as real + Earned(l, times[i], times[j]);
    }
  }

  lemma EnvelopeOfAttempts(l: Limiter, times: seq<real>, i: nat, j: nat)
    requires l.Valid() && Chronological(l, times) && i <= j < |times|
    ensures Grants(l, times, i, j + 1) as real <= l.capacity as real + Earned(l, times[i], times[j])
  {
    LevelWithinRoom(l, times, i, j);
    LevelNonNeg(l, times, j);
  }

  /** How many of the first n attempts fell in [a, b] and got a token. */
  function GrantsBetween(l: Limiter, times: seq<real>, a: real, b: real, n: nat): nat
    requires n <= |times|
  {
    if n == 0 then 0
    else GrantsBetween(l, times, a, b, n - 1)
         + (if a <= times[n - 1] <= b && Granted(l, times, n - 1) then 1 else 0)
  }

  /** A time window covers a run of consecutive attempts. */
  lemma {:induction false} WindowIsRun(l: Limiter, times: seq<real>, a: real, b: real, n: nat) returns (i: nat, j: nat)
    requires Chronological(l, times) && n <= |times|
    ensures i <= j <= n && GrantsBetween(l, times, a, b, n) == Grants(l, times, i, j)
    ensures i < j ==> a <= times[i] && times[j - 1] <= b
    ensures n > 0 && a <= times[n - 1] <= b ==> j == n
    ensures n > 0 && times[n - 1] < a ==> i == j
  {
    if n == 0 {
      i, j := 0, 0;
    } else {
      i, j := WindowIsRun(l, times, a, b, n - 1);
      if a <= times[n - 1] <= b {
        if i == j {
          i, j := n - 1, n - 1;
        }
        if n - 1 > 0 {
          assert times[n - 2] <= times[n - 1];
        }
        j := n;
      }
    }
  }

  /**
   Over any stretch of time, whoever calls and whenever, the number of successful acquisitions is at
   most the burst size plus the rate times its length.
   */
  lemma RateEnvelope(l: Limiter, times: seq<real>, a: real, b: real)
    requires l.Valid() && Chronological(l, times) && a <= b
    ensures GrantsBetween(l, times, a, b, |times|) as real <= l.capacity as real + Earned(l, a, b)
  {
    var i, j := WindowIsRun(l, times, a, b, |times|);
    EarnedNonNeg(l, a, b);
    if i < j {
      EnvelopeOfAttempts(l, times, i, j - 1);
      assert times[i] <= times[j - 1];
      EarnedAdds(l, a, times[i], b);
      EarnedAdds(l, times[i], times[j - 1], b);
      EarnedNonNeg(l, a, times[i]);
      EarnedNonNeg(l, times[j - 1], b);
    }
  }

  lemma WaitEarnsOne(l: Limiter, a: real, b: real)
    requires l.rate > 0.0 && b - a >= 1.0 / l.rate
    ensures Earned(l, a, b) >= 1.0
  {
    DivMul(1.0, l.rate);
    MulMono(1.0 / l.rate, b - a, l.rate);
  }

  /** An attempt made 1 / rate after the previous one always finds a token. */
  lemma WaitingEarnsAToken(l: Limiter, times: seq<real>, j: nat)
    requires l.Valid() && Chronological(l, times) && 0 < j < |times|
    requires times[j] - times[j - 1] >= 1.0 / l.rate
    ensures Granted(l, times, j)
  {
    LevelNonNeg(l, times, j - 1);
    LevelStep(l, times, j - 1);
    WaitEarnsOne(l, times[j - 1], times[j]);
  }

  /** A negative burst size never grants anything. */
  lemma {:induction false} NegativeBurstStarves(l: Limiter, times: seq<real>, j: nat)
    requires l.capacity < 1 && j < |times|
    ensures !Granted(l, times, j)
  {
    assert Level(l, times, j) <= l.capacity as real;
  }

  // ----- callers -----

  /** Where a caller stands inside acquire. */
  datatype Caller =
    | Outside
    | Trying(deadline: real, wakeAt: real)
    | Missed(deadline: real)
    | Returned(ok: bool, deadline: real, at: real)

  datatype Move = Call(timeout: real) | Lock | Decide

  datatype Event = Event(caller: nat, now: real, move: Move)

  /** attempts holds the time of every pass through the locked section; successes counts the granted ones. */
  datatype World = World(
    bucket: Bucket, callers: map<nat, Caller>, waits: nat, clock: real,
    attempts: seq<real>, successes: nat)

  function CallerOf(w: World, c: nat): Caller {
    if c in w.callers then w.callers[c] else Outside
  }

  /** How long to sleep after finding no token; None past the deadline. */
  function Pause(rate: real, deadline: real, now: real): Option<real>
    requires rate > 0.0
  {
    var wait := Min(1.0 / rate, deadline - now);
    if wait <= 0.0 then None else Some(wait)
  }

  /** One step of one caller; a step out of turn changes nothing. */
  function Next(l: Limiter, w: World, e: Event): World
    requires l.rate > 0.0
  {
    var c, now := CallerOf(w, e.caller), e.now;
    if now < w.clock then w
    else match e.move
      case Call(timeout) =>
        if c.Outside? || c.Returned? then
          w.(callers := w.callers[e.caller := Trying(now + timeout, now)], clock := now)
        else w
      case Lock =>
        if c.Trying? && c.wakeAt <= now then
          var ok := Refilled(l, w.bucket, now).tokens >= 1.0;
          w.(bucket := Attempt(l, w.bucket, now), clock := now, attempts := w.attempts + [now],
             successes := if ok then w.successes + 1 else w.successes,
             callers := w.callers[e.caller := if ok then Returned(true, c.deadline, now) else Missed(c.deadline)])
        else w
      case Decide =>
        if c.Missed? then
          match Pause(l.rate, c.deadline, now)
          case None => w.(callers := w.callers[e.caller := Returned(false, c.deadline, now)], clock := now)
          case Some(wait) =>
            w.(callers := w.callers[e.caller := Trying(c.deadline, now + wait)], waits := w.waits + 1, clock := now)
        else w
  }

  /** The bucket is what its own attempts made it, and a caller is turned away only past its deadline. */
  ghost predicate Consistent(l: Limiter, w: World) {
    && l.start <= w.clock && Chronological(l, w.attempts)
    && (forall i :: 0 <= i < |w.attempts| ==> w.attempts[i] <= w.clock)
    && w.bucket == After(l, w.attempts)
    && w.successes == Grants(l, w.attempts, 0, |w.attempts|)
    && (forall c :: c in w.callers && w.callers[c].Returned? && !w.callers[c].ok ==>
          w.callers[c].deadline <= w.callers[c].at)
  }

  lemma {:induction false} GrantsOfPrefix(l: Limiter, times: seq<real>, more: seq<real>, i: nat, j: nat)
    requires i <= j <= |times| && times <= more
    ensures Grants(l, times, i, j) == Grants(l, more, i, j)
  {
    if i == j {
    } else {
      GrantsOfPrefix(l, times, more, i, j - 1);
      assert times[..j - 1] == more[..j - 1] && times[j - 1] == more[j - 1];
    }
  }

  /** What one more attempt does to the history. */
  lemma OneMoreAttempt(l: Limiter, times: seq<real>, now: real)
    ensures After(l, times + [now]) == Attempt(l, After(l, times), now)
    ensures Grants(l, times + [now], 0, |times| + 1)
            == Grants(l, times, 0, |times|) + (if Refilled(l, After(l, times), now).tokens >= 1.0 then 1 else 0)
  {
    hide Attempt, Earned;
    var all := times + [now];
    assert all[..|times|] == times;
    GrantsOfPrefix(l, times, all, 0, |times|);
    assert Granted(l, all, |times|) <==> Refilled(l, After(l, times), now).tokens >= 1.0;
  }

  lemma LockKeepsConsistent(l: Limiter, w: World, e: Event)
    requires l.Valid() && Consistent(l, w) && e.move.Lock?
    ensures Consistent(l, Next(l, w, e))
  {
    hide Earned, Refilled, Attempt, After, Grants, Pause;
    OneMoreAttempt(l, w.attempts, e.now);
  }

  lemma RateInverse(rate: real)
    requires rate > 0.0
    ensures 1.0 / rate > 0.0
  {
  }

  lemma NextKeepsConsistent(l: Limiter, w: World, e: Event)
    requires l.Valid() && Consistent(l, w)
    ensures Consistent(l, Next(l, w, e))
  {
    hide Earned, Refilled, Attempt, After, Grants;
    match e.move
    case Call(_) =>
    case Lock => LockKeepsConsistent(l, w, e);
    case Decide => RateInverse(l.rate);
  }

  ghost function Opened(l: Limiter): World {
    World(Bucket(l.capacity as real, l.start), map[], 0, l.start, [], 0)
  }

  function StepOf(l: Limiter): (World, Event) -> World
    requires l.rate > 0.0
  {
    (w, e) => Next(l, w, e)
  }

  /** Every interleaving of any number of callers keeps the envelope over any stretch of time. */
  lemma EveryInterleavingIsLimited(l: Limiter, events: seq<Event>, a: real, b: real)
    requires l.Valid() && a <= b
    ensures var w := Fold(StepOf(l), Opened(l), events);
            && Consistent(l, w)
            && GrantsBetween(l, w.attempts, a, b, |w.attempts|) as real <= l.capacity as real + Earned(l, a, b)
  {
    forall w, e | Consistent(l, w)
      ensures Consistent(l, StepOf(l)(w, e))
    {
      NextKeepsConsistent(l, w, e);
    }
    Invariant(StepOf(l), Opened(l), w => Consistent(l, w), _ => true, events);
    RateEnvelope(l, Fold(StepOf(l), Opened(l), events).attempts, a, b);
  }

  // ----- one caller -----

  /** The bucket after attempts from any state on. */
  function From(l: Limiter, b: Bucket, times: seq<real>): Bucket {
    if |times| == 0 then b else Attempt(l, From(l, b, times[..|times| - 1]), times[|times| - 1])
  }

  /** Attempt i finds a token. */
  predicate Finds(l: Limiter, b: Bucket, times: seq<real>, i: nat)
    requires i < |times|
  {
    Refilled(l, From(l, b, times[..i]), times[i]).tokens >= 1.0
  }

  /** What one caller does continues the run all callers share. */
  lemma {:induction false} FromContinues(l: Limiter, past: seq<real>, times: seq<real>)
    ensures From(l, After(l, past), times) == After(l, past + times)
  {
    if |times| == 0 {
      assert past + times == past;
    } else {
      FromContinues(l, past, times[..|times| - 1]);
      assert (past + times)[..|past + times| - 1] == past + times[..|times| - 1];
    }
  }

  lemma NoPass(l: Limiter, b: Bucket)
    ensures From(l, b, []) == b
  {
  }

  /** One more pass through the locked section. */
  lemma Passes(l: Limiter, b: Bucket, times: seq<real>, now: real)
    ensures From(l, b, times + [now]) == Attempt(l, From(l, b, times), now)
    ensures Finds(l, b, times + [now], |times|) <==> Refilled(l, From(l, b, times), now).tokens >= 1.0
    ensures forall i :: 0 <= i < |times| ==> (Finds(l, b, times + [now], i) <==> Finds(l, b, times, i))
  {
    var all := times + [now];
    assert all[..|times|] == times;
    assert forall i :: 0 <= i < |times| ==> all[..i] == times[..i];
  }

  /** A bucket that can hold a token has one once it has earned one. */
  lemma RefillFinds(l: Limiter, b: Bucket, now: real)
    requires l.Valid() && b.tokens >= 0.0 && b.lastRefill <= now
    ensures Attempt(l, b, now).tokens >= 0.0 && Attempt(l, b, now).lastRefill == now
    ensures now - b.lastRefill >= 1.0 / l.rate ==> Refilled(l, b, now).tokens >= 1.0
  {
    EarnedNonNeg(l, b.lastRefill, now);
    if now - b.lastRefill >= 1.0 / l.rate {
      WaitEarnsOne(l, b.lastRefill, now);
    }
  }

  /** A pause is a full wait or lasts until the deadline. */
  lemma PauseIs(rate: real, deadline: real, now: real, sleep: real)
    requires rate > 0.0 && Pause(rate, deadline, now) == Some(sleep)
    ensures 0.0 < sleep && (sleep == 1.0 / rate || sleep == deadline - now)
  {
  }

  /** How many full waits are left before the deadline, rounded up. */
  function Rounds(l: Limiter, deadline: real, now: real): int {
    if now >= deadline then 0 else Earned(l, now, deadline).Floor + 1
  }

  lemma SleepProgress(l: Limiter, deadline: real, before: real, t: real, sleep: real, after: real)
    requires l.rate > 0.0 && before <= t && Pause(l.rate, deadline, t) == Some(sleep) && after >= t + sleep
    ensures 0 <= Rounds(l, deadline, after) < Rounds(l, deadline, before)
  {
    hide Earned;
    EarnedNonNeg(l, before, deadline);
    if after < deadline {
      EarnedNonNeg(l, after, deadline);
      WaitEarnsOne(l, before, after);
      EarnedAdds(l, before, after, deadline);
    }
  }

  // ----- the program -----

  /** A clock that moves by some lag before every reading, and at least as long as it is slept for. */
  class Clock {
    var now: real
    var readings: nat
    const lag: nat -> real

    constructor (lag: nat -> real)
    {
      this.lag, now, readings := lag, 0.0, 0;
    }

    method Read() returns (t: real)
      modifies this
      ensures t == now >= old(now)
    {
      now := now + Max(lag(readings), 0.0);
      readings := readings + 1;
      return now;
    }

    method Sleep(duration: real)
      requires duration >= 0.0
      modifies this
      ensures now >= old(now) + duration
    {
      now := now + duration + Max(lag(readings), 0.0);
      readings := readings + 1;
    }
  }

  class TokenBucket {
    const rate: real
    const maxTokens: int
    const created: real
    var tokens: real
    var lastRefill: real
    var totalWaits: nat

    constructor (callsPerSecond: real, burstSize: Option<int>, now: real)
      requires callsPerSecond > 0.0
      ensures Config() == Limiter(callsPerSecond, BurstSize(callsPerSecond, burstSize), now)
      ensures Value() == After(Config(), []) && totalWaits == 0
    {
      rate, created := callsPerSecond, now;
      maxTokens := BurstSize(callsPerSecond, burstSize);
      tokens := BurstSize(callsPerSecond, burstSize) as real;
      lastRefill := now;
      totalWaits := 0;
    }

    function Config(): Limiter {
      Limiter(rate, maxTokens, created)
    }

    function Value(): Bucket
      reads this
    {
      Bucket(tokens, lastRefill)
    }

    method Refill(now: real)
      modifies this`tokens, this`lastRefill
      ensures Value() == Refilled(Config(), old(Value()), now)
    {
      hide Earned;
      var newTokens := Earned(Config(), lastRefill, now);
      tokens := Min(tokens + newTokens, maxTokens as real);
      lastRefill := now;
    }

    /** The locked section of acquire. */
    method TryTake(now: real) returns (ok: bool)
      modifies this`tokens, this`lastRefill
      ensures Value() == Attempt(Config(), old(Value()), now)
      ensures ok <==> Refilled(Config(), old(Value()), now).tokens >= 1.0
    {
      Refill(now);
      if tokens >= 1.0 {
        tokens := tokens - 1.0;
        return true;
      }
      return false;
    }

    /** The unlocked rest of one round of acquire: the time to sleep, or None to give up. */
    method WaitOrGiveUp(deadline: real, now: real) returns (sleep: Option<real>)
      requires rate > 0.0
      modifies this`totalWaits
      ensures sleep == Pause(rate, deadline, now) && (sleep.None? <==> deadline <= now)
      ensures totalWaits == old(totalWaits) + (if sleep.Some? then 1 else 0)
    {
      RateInverse(rate);
      var waitTime := Min(1.0 / rate, deadline - now);
      if waitTime <= 0.0 {
        return None;
      }
      totalWaits := totalWaits + 1;
      return Some(waitTime);
    }

    /** Nothing but time has passed since the bucket was last used, and it can hold a token. */
    predicate Usable(now: real)
      reads this`tokens, this`lastRefill
    {
      maxTokens >= 1 && tokens >= 0.0 && lastRefill <= now
    }

    /** Passes of other callers through the locked section, at their own times. */
    method Others(clock: Clock, passes: nat, ghost l: Limiter, ghost b: Bucket, ghost times: seq<real>)
      returns (ghost after: seq<real>)
      requires l == Config() && Value() == From(l, b, times)
      modifies this`tokens, this`lastRefill, clock
      ensures Value() == From(l, b, after) && times <= after && |after| == |times| + passes
      ensures forall i :: 0 <= i < |times| ==> (Finds(l, b, after, i) <==> Finds(l, b, times, i))
      ensures clock.now >= old(clock.now)
      ensures passes == 0 ==> clock.now == old(clock.now) && Value() == old(Value())
    {
      hide From, Finds, Attempt, Refilled;
      after := times;
      for k := 0 to passes
        invariant Value() == From(l, b, after) && times <= after && |after| == |times| + k
        invariant forall i :: 0 <= i < |times| ==> (Finds(l, b, after, i) <==> Finds(l, b, times, i))
        invariant clock.now >= old(clock.now)
        invariant k == 0 ==> clock.now == old(clock.now) && Value() == old(Value())
      {
        var now := clock.Read();
        var granted := TryTake(now);
        Passes(l, b, after, now);
        after := after + [now];
      }
    }

    /** One pass of this caller, after those of the others that came before it. */
    method Pass(clock: Clock, others: nat, ghost l: Limiter, ghost b: Bucket, ghost times: seq<real>)
      returns (ok: bool, ghost after: seq<real>)
      requires rate > 0.0 && l == Config() && Value() == From(l, b, times)
      modifies this`tokens, this`lastRefill, clock
      ensures Value() == From(l, b, after) && |after| == |times| + others + 1
      ensures forall i :: 0 <= i < |times| ==> (Finds(l, b, after, i) <==> Finds(l, b, times, i))
      ensures ok <==> Finds(l, b, after, |after| - 1)
      ensures clock.now >= old(clock.now)
      ensures others == 0 && old(Usable(clock.now)) ==>
                && Usable(clock.now) && after[|after| - 1] == lastRefill >= old(clock.now)
                && (old(clock.now - lastRefill) >= 1.0 / rate ==> ok)
    {
      hide Earned, Attempt, Refilled, From, Finds;
      after := Others(clock, others, l, b, times);
      ghost var found := Value();
      var now := clock.Read();
      ok := TryTake(now);
      Passes(l, b, after, now);
      if others == 0 && old(Usable(clock.now)) {
        RefillFinds(l, found, now);
      }
      after := after + [now];
    }

    /**
     The wait loop of one caller; before its pass number k others(k) passes of other callers come in
     between. All passes are at times, its own are numbered by mine. Exactly a last pass of its own
     that finds a token makes it succeed, and it gives up no earlier than the timeout. Left alone with a
     usable bucket it is answered within two passes.
     */
    method Acquire(timeout: real, clock: Clock, others: nat -> nat)
      returns (ok: bool, ghost times: seq<real>, ghost mine: seq<nat>)
      requires rate > 0.0
      modifies this`tokens, this`lastRefill, this`totalWaits, clock
      ensures Value() == From(Config(), old(Value()), times)
      ensures mine != [] && forall i :: 0 <= i < |mine| ==> mine[i] < |times|
      ensures forall i, j :: 0 <= i < j < |mine| ==> mine[i] < mine[j]
      ensures forall i :: 0 <= i < |mine| ==>
                (Finds(Config(), old(Value()), times, mine[i]) <==> ok && i == |mine| - 1)
      ensures totalWaits == old(totalWaits) + |mine| - 1
      ensures !ok ==> clock.now >= old(clock.now) + timeout
      ensures old(Usable(clock.now)) && (forall k :: others(k) == 0) ==>
                |mine| <= 2 && (!ok && |mine| == 2 ==> times[mine[1]] >= old(clock.now) + timeout)
    {
      hide Earned, Attempt, Refilled, Pause, Rounds, From, Finds;
      ghost var l, b, begin := Config(), Value(), clock.now;
      ghost var alone := Usable(clock.now) && forall k :: others(k) == 0;
      var t := clock.Read();
      var deadline := t + timeout;
      var k := 0;
      times, mine := [], [];
      NoPass(l, b);
      while true
        invariant k == |mine| && Value() == From(l, b, times) && totalWaits == old(totalWaits) + k
        invariant forall i :: 0 <= i < k ==> mine[i] < |times| && !Finds(l, b, times, mine[i])
        invariant forall i, j :: 0 <= i < j < k ==> mine[i] < mine[j]
        invariant clock.now >= begin && deadline >= begin + timeout
        invariant alone ==> k <= 1 && Usable(clock.now)
        invariant alone && k == 1 ==> clock.now - lastRefill >= 1.0 / rate || clock.now >= deadline
        decreases Rounds(l, deadline, clock.now)
      {
        ghost var before := clock.now;
        ok, times := Pass(clock, others(k), l, b, times);
        mine := mine + [|times| - 1];
        if ok {
          return;
        }
        k := k + 1;
        t := clock.Read();
        var sleep := WaitOrGiveUp(deadline, t);
        if sleep.None? {
          return;
        }
        PauseIs(rate, deadline, t, sleep.value);
        clock.Sleep(sleep.value);
        SleepProgress(l, deadline, before, t, sleep.value, clock.now);
      }
    }
  }
}
