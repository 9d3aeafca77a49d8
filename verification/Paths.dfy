/** Finite runs of a step machine, which gives the state after a step, or nothing when the step is not enabled. */
module Paths {
  import opened Common

  function End<S, T>(next: (S, T) -> Option<S>, s: S, steps: seq<T>): Option<S>
    decreases |steps|
  {
    if steps == [] then Some(s)
    else
      var t := next(s, steps[0]);
      if t.None? then None else End(next, t.value, steps[1..])
  }

  lemma {:induction false} Concat<S, T>(next: (S, T) -> Option<S>, s: S, a: seq<T>, b: seq<T>)
    ensures var t := End(next, s, a); End(next, s, a + b) == if t.None? then None else End(next, t.value, b)
    decreases |a|
  {
    if a == [] {
      assert a + b == b;
    } else {
      assert (a + b)[0] == a[0] && (a + b)[1..] == a[1..] + b;
      if next(s, a[0]).Some? { Concat(next, next(s, a[0]).value, a[1..], b); }
    }
  }

  lemma One<S, T>(next: (S, T) -> Option<S>, s: S, step: T)
    ensures End(next, s, [step]) == next(s, step)
  {
    assert [step][1..] == [];
  }

  lemma Prepend<S, T>(next: (S, T) -> Option<S>, s: S, step: T, rest: seq<T>)
    ensures var t := next(s, step); End(next, s, [step] + rest) == if t.None? then None else End(next, t.value, rest)
  {
    One(next, s, step);
    Concat(next, s, [step], rest);
  }

  lemma Two<S, T>(next: (S, T) -> Option<S>, s0: S, a: T, s1: S, b: T, s2: S)
    requires next(s0, a) == Some(s1) && next(s1, b) == Some(s2)
    ensures End(next, s0, [a, b]) == Some(s2)
  {
    One(next, s1, b);
    Prepend(next, s0, a, [b]);
    assert [a] + [b] == [a, b];
  }

  lemma Three<S, T>(next: (S, T) -> Option<S>, s0: S, a: T, s1: S, b: T, s2: S, c: T, s3: S)
    requires next(s0, a) == Some(s1) && next(s1, b) == Some(s2) && next(s2, c) == Some(s3)
    ensures End(next, s0, [a, b, c]) == Some(s3)
  {
    Two(next, s1, b, s2, c, s3);
    Prepend(next, s0, a, [b, c]);
    assert [a] + [b, c] == [a, b, c];
  }

  /** The same run with its states: each follows from the one before by its step. */
  ghost predicate Trace<S(!new), T(!new)>(next: (S, T) -> Option<S>, states: seq<S>, steps: seq<T>)
  {
    && |states| == |steps| + 1
    && forall i :: 0 <= i < |steps| ==> next(states[i], steps[i]) == Some(states[i + 1])
  }

  /** Every state of a trace is the end of the steps before it. */
  lemma {:induction false} TraceIsPath<S(!new), T(!new)>(
    next: (S, T) -> Option<S>, states: seq<S>, steps: seq<T>, i: nat)
    requires Trace(next, states, steps) && i < |states|
    ensures End(next, states[0], steps[..i]) == Some(states[i])
  {
    if i > 0 {
      TraceIsPath(next, states, steps, i - 1);
      One(next, states[i - 1], steps[i - 1]);
      Concat(next, states[0], steps[..i - 1], [steps[i - 1]]);
      assert steps[..i] == steps[..i - 1] + [steps[i - 1]];
    }
  }
}
