/** Runs of a state machine: how a run goes on, and how it is retold. */
module Runs {

  /** run does one step for each input, in order. */
  ghost predicate IsRun<S(!new), I(!new)>(step: (S, I) -> S, run: (S, seq<I>) -> S) {
    forall s, inputs {:trigger run(s, inputs)} ::
      run(s, inputs) == if inputs == [] then s else run(step(s, inputs[0]), inputs[1..])
  }

  lemma {:induction false} Concat<S(!new), I(!new)>(step: (S, I) -> S, run: (S, seq<I>) -> S, s: S, first: seq<I>,
                                                    second: seq<I>)
    requires IsRun(step, run)
    ensures run(s, first + second) == run(run(s, first), second)
    decreases |first|
  {
    if first == [] {
      assert first + second == second;
    } else {
      assert (first + second)[1..] == first[1..] + second;
      Concat(step, run, step(s, first[0]), first[1..], second);
    }
  }

  /** A run retold state by state. */
  lemma {:induction false} Through<S(!new), I(!new)>(step: (S, I) -> S, run: (S, seq<I>) -> S, states: seq<S>,
                                                     inputs: seq<I>)
    requires IsRun(step, run) && |states| == |inputs| + 1
    requires forall i :: 0 <= i < |inputs| ==> step(states[i], inputs[i]) == states[i + 1]
    ensures run(states[0], inputs) == states[|inputs|]
    decreases |inputs|
  {
    if inputs != [] {
      Through(step, run, states[1..], inputs[1..]);
    }
  }
}
