/** Runs of a machine: what its step function makes of a sequence of events. */
module Runs {
  /** The state after a run. */
  function Run<S, E>(step: (S, E) -> S, s: S, es: seq<E>): S {
    if es == [] then s else step(Run(step, s, es[..|es| - 1]), es[|es| - 1])
  }

  /** Running two stretches one after the other is running their join. */
  lemma {:induction false} RunConcat<S, E>(step: (S, E) -> S, s: S, a: seq<E>, b: seq<E>)
    ensures Run(step, s, a + b) == Run(step, Run(step, s, a), b)
  {
    if b == [] {
      assert a + b == a;
    } else {
      assert (a + b)[..|a + b| - 1] == a + b[..|b| - 1];
      RunConcat(step, s, a, b[..|b| - 1]);
    }
  }

  lemma RunOne<S, E>(step: (S, E) -> S, s: S, e: E)
    ensures Run(step, s, [e]) == step(s, e)
  {
  }

  lemma RunSnoc<S, E>(step: (S, E) -> S, s: S, es: seq<E>, e: E)
    ensures Run(step, s, es + [e]) == step(Run(step, s, es), e)
  {
    assert (es + [e])[..|es|] == es;
  }

  lemma RunTwo<S, E>(step: (S, E) -> S, s: S, e: E, f: E)
    ensures Run(step, s, [e, f]) == step(step(s, e), f)
  {
    assert [e, f] == [e] + [f];
    RunConcat(step, s, [e], [f]);
    RunOne(step, s, e);
    RunOne(step, step(s, e), f);
  }

  lemma RunCons<S, E>(step: (S, E) -> S, s: S, e: E, es: seq<E>)
    ensures Run(step, s, [e] + es) == Run(step, step(s, e), es)
  {
    RunConcat(step, s, [e], es);
    RunOne(step, s, e);
  }

  lemma RunThree<S, E>(step: (S, E) -> S, s: S, e: E, f: E, g: E)
    ensures Run(step, s, [e, f, g]) == step(step(step(s, e), f), g)
  {
    assert [e, f, g] == [e] + [f, g];
    RunCons(step, s, e, [f, g]);
    RunTwo(step, step(s, e), f, g);
  }
}
