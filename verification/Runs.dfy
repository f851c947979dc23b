/** Runs of a state machine given by an enabledness test and a transition function. */
module Runs {

  datatype Machine<!S, !E> = Machine(enabled: (S, E) -> bool, apply: (S, E) -> S)

  /** The state after the events, taken in order. */
  ghost function After<S, E>(m: Machine<S, E>, s: S, events: seq<E>): S {
    if events == [] then s else After(m, m.apply(s, events[0]), events[1..])
  }

  /** Every event is enabled when its turn comes. */
  ghost predicate Legal<S, E>(m: Machine<S, E>, s: S, events: seq<E>) {
    events != [] ==> m.enabled(s, events[0]) && Legal(m, m.apply(s, events[0]), events[1..])
  }

  /** An invariant that every enabled event keeps holds after every legal run. */
  lemma {:induction false} Invariant<S(!new), E(!new)>(m: Machine<S, E>, inv: S -> bool, s: S, events: seq<E>)
    requires inv(s) && Legal(m, s, events)
    requires forall t, e | inv(t) && m.enabled(t, e) :: inv(m.apply(t, e))
    ensures inv(After(m, s, events))
  {
    if events != [] {
      Invariant(m, inv, m.apply(s, events[0]), events[1..]);
    }
  }

  /** A legal run can be extended by any event enabled at its end. */
  lemma {:induction false} Extend<S, E>(m: Machine<S, E>, s: S, events: seq<E>, e: E)
    requires Legal(m, s, events) && m.enabled(After(m, s, events), e)
    ensures Legal(m, s, events + [e]) && After(m, s, events + [e]) == m.apply(After(m, s, events), e)
  {
    var longer := events + [e];
    if events == [] {
      assert longer[1..] == [];
    } else {
      Extend(m, m.apply(s, events[0]), events[1..], e);
      assert longer[1..] == events[1..] + [e];
    }
  }
}
