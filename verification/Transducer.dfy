/** A stream stage: a step function turns each input into a new state and the
    outputs it gives rise to. */
module Transducer {

  type Step<!S, !A, !B> = (S, A) -> (S, seq<B>)

  function Run<S, A, B>(step: Step<S, A, B>, s: S, input: seq<A>): (S, seq<B>)
    decreases |input|
  {
    if input == [] then (s, [])
    else
      var (s1, out) := step(s, input[0]);
      var (s2, rest) := Run(step, s1, input[1..]);
      (s2, out + rest)
  }

  lemma {:induction false} RunAppend<S, A, B>(step: Step<S, A, B>, s: S, a: seq<A>, b: seq<A>)
    ensures Run(step, s, a + b).0 == Run(step, Run(step, s, a).0, b).0
    ensures Run(step, s, a + b).1 == Run(step, s, a).1 + Run(step, Run(step, s, a).0, b).1
    decreases |a|
  {
    if a == [] {
      assert a + b == b;
    } else {
      assert (a + b)[1..] == a[1..] + b;
      RunAppend(step, step(s, a[0]).0, a[1..], b);
    }
  }

  lemma RunCons<S, A, B>(step: Step<S, A, B>, s: S, input: seq<A>)
    requires input != []
    ensures var (s1, out) := step(s, input[0]);
      var (s2, rest) := Run(step, s1, input[1..]);
      Run(step, s, input) == (s2, if out == [] then rest else out + rest)
  {
    var (s1, out) := step(s, input[0]);
    assert out == [] ==> out + Run(step, s1, input[1..]).1 == Run(step, s1, input[1..]).1;
  }

  lemma RunOne<S, A, B>(step: Step<S, A, B>, s: S, a: A)
    ensures Run(step, s, [a]) == step(s, a)
  {
    assert Run(step, step(s, a).0, []) == (step(s, a).0, []);
    assert step(s, a).1 + [] == step(s, a).1;
  }

  /** A property of states that every step keeps holds throughout. */
  ghost predicate Keeps<S(!new), A(!new), B>(step: Step<S, A, B>, inv: S -> bool) {
    forall s, a :: inv(s) ==> inv(step(s, a).0)
  }

  lemma {:induction false} RunKeeps<S(!new), A(!new), B>(step: Step<S, A, B>, inv: S -> bool, s: S, input: seq<A>)
    requires Keeps(step, inv) && inv(s)
    ensures inv(Run(step, s, input).0)
    decreases |input|
  {
    if input != [] {
      RunKeeps(step, inv, step(s, input[0]).0, input[1..]);
    }
  }
}
