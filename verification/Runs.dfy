/** Finite runs of a step relation. */
module Runs {

  ghost predicate Run<S(!new), T>(next: (S, T, S) -> bool, s: S, steps: seq<T>, s': S)
    decreases |steps|
  {
    if steps == [] then s == s'
    else exists mid :: next(s, steps[0], mid) && Run(next, mid, steps[1..], s')
  }

  lemma RunOne<S(!new), T>(next: (S, T, S) -> bool, s: S, step: T, s': S)
    requires next(s, step, s')
    ensures Run(next, s, [step], s')
  {
    assert Run(next, s', [step][1..], s');
  }

  lemma {:induction false} RunConcat<S(!new), T>(next: (S, T, S) -> bool, s: S, a: seq<T>, mid: S, b: seq<T>, s': S)
    requires Run(next, s, a, mid) && Run(next, mid, b, s')
    ensures Run(next, s, a + b, s')
    decreases |a|
  {
    if a == [] {
      assert a + b == b;
    } else {
      var s1 :| next(s, a[0], s1) && Run(next, s1, a[1..], mid);
      assert (a + b)[1..] == a[1..] + b;
      RunConcat(next, s1, a[1..], mid, b, s');
    }
  }

  /** What the first state has and every step keeps, the last state has. */
  lemma {:induction false} RunKeeps<S(!new), T(!new)>(next: (S, T, S) -> bool, inv: S -> bool, s: S, steps: seq<T>, s': S)
    requires Run(next, s, steps, s') && inv(s)
    requires forall a, step, b :: inv(a) && next(a, step, b) ==> inv(b)
    ensures inv(s')
    decreases |steps|
  {
    if steps != [] {
      var s1 :| next(s, steps[0], s1) && Run(next, s1, steps[1..], s');
      RunKeeps(next, inv, s1, steps[1..], s');
    }
  }

  /** A run of one relation is a run of another that allows its steps from the states in question. */
  lemma {:induction false} RunImplies<S(!new), T(!new)>(next: (S, T, S) -> bool, other: (S, T, S) -> bool, inv: S -> bool,
                                            s: S, steps: seq<T>, s': S)
    requires Run(next, s, steps, s') && inv(s)
    requires forall a, step, b :: inv(a) && next(a, step, b) ==> inv(b) && other(a, step, b)
    ensures Run(other, s, steps, s') && inv(s')
    decreases |steps|
  {
    if steps != [] {
      var s1 :| next(s, steps[0], s1) && Run(next, s1, steps[1..], s');
      RunImplies(next, other, inv, s1, steps[1..], s');
    }
  }
}
