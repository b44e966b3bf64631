/** Runs of a state machine over a sequence of events, and what every step of a run keeps. */
module Runs {

  /** The state reached from s by the events, oldest first. */
  function Fold<S, E>(step: (S, E) -> S, s: S, events: seq<E>): S {
    if |events| == 0 then s
    else step(Fold(step, s, events[..|events| - 1]), events[|events| - 1])
  }

  /** The sum of an amount over the events. */
  function Total<E>(amount: E -> real, events: seq<E>): real {
    if |events| == 0 then 0.0
    else Total(amount, events[..|events| - 1]) + amount(events[|events| - 1])
  }

  lemma FoldAppend<S, E>(step: (S, E) -> S, s: S, events: seq<E>, e: E)
    ensures Fold(step, s, events + [e]) == step(Fold(step, s, events), e)
  {
    assert (events + [e])[..|events|] == events;
  }

  lemma TotalAppend<E>(amount: E -> real, events: seq<E>, e: E)
    ensures Total(amount, events + [e]) == Total(amount, events) + amount(e)
  {
    assert (events + [e])[..|events|] == events;
  }

  /** A property of the initial state that each allowed event keeps holds after any run. */
  lemma {:induction false} Invariant<S(!new), E(!new)>(
      step: (S, E) -> S, s: S, inv: S -> bool, allowed: E -> bool, events: seq<E>)
    requires inv(s)
    requires forall t, e :: inv(t) && allowed(e) ==> inv(step(t, e))
    requires forall i :: 0 <= i < |events| ==> allowed(events[i])
    ensures inv(Fold(step, s, events))
  {
    if |events| == 0 {
    } else {
      Invariant(step, s, inv, allowed, events[..|events| - 1]);
    }
  }

  /** What each event adds to a measure of the state accumulates over any run. */
  lemma {:induction false} Conserved<S(!new), E(!new)>(
      step: (S, E) -> S, s: S, inv: S -> bool, measure: S -> real, amount: E -> real, events: seq<E>)
    requires inv(s)
    requires forall t, e :: inv(t) ==> inv(step(t, e)) && measure(step(t, e)) == measure(t) + amount(e)
    ensures inv(Fold(step, s, events))
    ensures measure(Fold(step, s, events)) == measure(s) + Total(amount, events)
  {
    if |events| == 0 {
    } else {
      Conserved(step, s, inv, measure, amount, events[..|events| - 1]);
    }
  }

  /** A relation between the state and the history that each event extends holds after any run. */
  lemma {:induction false} Tracks<S(!new), E(!new)>(
      step: (S, E) -> S, s: S, rel: (S, seq<E>) -> bool, events: seq<E>)
    requires rel(s, [])
    requires forall t, past, e :: rel(t, past) ==> rel(step(t, e), past + [e])
    ensures rel(Fold(step, s, events), events)
  {
    if |events| == 0 {
      assert events == [];
    } else {
      var past, e := events[..|events| - 1], events[|events| - 1];
      Tracks(step, s, rel, past);
      assert past + [e] == events;
    }
  }
}
