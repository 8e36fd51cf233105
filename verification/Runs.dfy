/** Runs of any machine that takes a command and a state to a state and to outputs. */
module Runs {
  function StateAfter<S, C>(next: (S, C) -> S, s: S, steps: seq<C>): S {
    if steps == [] then s else next(StateAfter(next, s, steps[..|steps| - 1]), steps[|steps| - 1])
  }

  function OutputsOf<S, C, O>(next: (S, C) -> S, out: (S, C) -> seq<O>, s: S, steps: seq<C>): seq<O> {
    if steps == [] then []
    else
      var before := steps[..|steps| - 1];
      OutputsOf(next, out, s, before) + out(StateAfter(next, s, before), steps[|steps| - 1])
  }

  lemma {:induction false} RunInParts<S, C, O>(next: (S, C) -> S, out: (S, C) -> seq<O>, s: S, a: seq<C>, b: seq<C>)
    ensures StateAfter(next, s, a + b) == StateAfter(next, StateAfter(next, s, a), b)
    ensures OutputsOf(next, out, s, a + b)
      == OutputsOf(next, out, s, a) + OutputsOf(next, out, StateAfter(next, s, a), b)
    decreases |b|
  {
    if b == [] {
      assert a + b == a;
    } else {
      var before := b[..|b| - 1];
      assert (a + b)[..|a + b| - 1] == a + before;
      RunInParts(next, out, s, a, before);
    }
  }

  lemma OneStep<S, C, O>(next: (S, C) -> S, out: (S, C) -> seq<O>, s: S, c: C)
    ensures StateAfter(next, s, [c]) == next(s, c)
    ensures OutputsOf(next, out, s, [c]) == out(s, c)
  {
    assert [c][..0] == [];
    assert StateAfter(next, s, []) == s && OutputsOf(next, out, s, []) == [];
    assert [] + out(s, c) == out(s, c);
  }

  lemma FirstStep<S, C, O>(next: (S, C) -> S, out: (S, C) -> seq<O>, s: S, c: C, rest: seq<C>)
    ensures StateAfter(next, s, [c] + rest) == StateAfter(next, next(s, c), rest)
    ensures OutputsOf(next, out, s, [c] + rest) == out(s, c) + OutputsOf(next, out, next(s, c), rest)
  {
    RunInParts(next, out, s, [c], rest);
    OneStep(next, out, s, c);
  }
}
