/** A stateful adapter, seen as a state machine: a step function takes the
    adapter's state and one call's input to the new state and what the call
    yields. `Final` and `Trace` run a sequence of calls in order. */
module Machines {

  /** The state reached from `s` after the calls `inputs`, in order. */
  function Final<S, I, O>(step: (S, I) -> (S, O), s: S, inputs: seq<I>): S
    decreases |inputs|
  {
    if inputs == [] then s
    else step(Final(step, s, inputs[..|inputs| - 1]), inputs[|inputs| - 1]).0
  }

  /** What each of the calls `inputs` yields, in order, starting from state `s`. */
  function Trace<S, I, O>(step: (S, I) -> (S, O), s: S, inputs: seq<I>): (os: seq<O>)
    ensures |os| == |inputs|
    decreases |inputs|
  {
    if inputs == [] then []
    else
      var before := inputs[..|inputs| - 1];
      Trace(step, s, before) + [step(Final(step, s, before), inputs[|inputs| - 1]).1]
  }

  /** One more call moves the final state by one step. */
  lemma FinalSnoc<S, I, O>(step: (S, I) -> (S, O), s: S, inputs: seq<I>, x: I)
    ensures Final(step, s, inputs + [x]) == step(Final(step, s, inputs), x).0
  {
    assert (inputs + [x])[..|inputs|] == inputs;
  }

  /** One more call appends its own yield to the trace and leaves the earlier ones alone. */
  lemma TraceSnoc<S, I, O>(step: (S, I) -> (S, O), s: S, inputs: seq<I>, x: I)
    ensures Trace(step, s, inputs + [x]) == Trace(step, s, inputs) + [step(Final(step, s, inputs), x).1]
  {
    assert (inputs + [x])[..|inputs|] == inputs;
  }

  /** The k-th call yields what one step does from the state the first k calls leave. */
  lemma {:induction false} TraceAt<S, I, O>(step: (S, I) -> (S, O), s: S, inputs: seq<I>, k: nat)
    requires k < |inputs|
    ensures Trace(step, s, inputs)[k] == step(Final(step, s, inputs[..k]), inputs[k]).1
  {
    var n := |inputs|;
    if k < n - 1 {
      TraceAt(step, s, inputs[..n - 1], k);
      assert inputs[..n - 1][..k] == inputs[..k];
    } else {
      assert inputs[..k] == inputs[..n - 1];
    }
  }

  /** The state after k + 1 calls is one step on from the state after k. */
  lemma FinalStep<S, I, O>(step: (S, I) -> (S, O), s: S, inputs: seq<I>, k: nat)
    requires k < |inputs|
    ensures Final(step, s, inputs[..k + 1]) == step(Final(step, s, inputs[..k]), inputs[k]).0
  {
    assert inputs[..k + 1][..k] == inputs[..k];
  }

  /** Running a + b from s is running b from where a leaves off. */
  lemma {:induction false} FinalAppend<S, I, O>(step: (S, I) -> (S, O), s: S, a: seq<I>, b: seq<I>)
    ensures Final(step, s, a + b) == Final(step, Final(step, s, a), b)
  {
    if b == [] {
      assert a + b == a;
    } else {
      var b' := b[..|b| - 1];
      FinalAppend(step, s, a, b');
      assert (a + b)[..|a + b| - 1] == a + b';
    }
  }
}
