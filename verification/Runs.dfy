/** Runs of a deterministic system whose environment chooses the events. */
module Runs {
  function After<S, E>(step: (S, E) -> S, s: S, run: seq<E>): S
    decreases |run|
  {
    if run == [] then s else After(step, step(s, run[0]), run[1..])
  }

  /** Each event is possible in the state in which it occurs. */
  predicate Legal<S, E>(step: (S, E) -> S, possible: (S, E) -> bool, s: S, run: seq<E>)
    decreases |run|
  {
    run == [] || (possible(s, run[0]) && Legal(step, possible, step(s, run[0]), run[1..]))
  }

  lemma {:induction false} Compose<S, E>(step: (S, E) -> S, possible: (S, E) -> bool, s: S, r1: seq<E>, r2: seq<E>)
    ensures After(step, s, r1 + r2) == After(step, After(step, s, r1), r2)
    ensures Legal(step, possible, s, r1 + r2) <==>
              Legal(step, possible, s, r1) && Legal(step, possible, After(step, s, r1), r2)
    decreases |r1|
  {
    if r1 == [] {
      assert r1 + r2 == r2;
    } else {
      assert (r1 + r2)[1..] == r1[1..] + r2;
      Compose(step, possible, step(s, r1[0]), r1[1..], r2);
    }
  }
}
