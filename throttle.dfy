/** `Throttle` and `throttle(func, wait)`: the wrapped function runs at most
    once per `wait` milliseconds; calls in between return the last result. */
module Throttling {
  import opened Calls
  import opened Machines

  /** The fields `Throttle.__call__` updates. */
  datatype ThrottleState<V> = ThrottleState(lastExecution: int, lastResult: Option<V>)

  /** The state `Throttle.__init__` leaves when the clock reads `clock`: the
      last execution is set `wait` milliseconds in the past, with no result yet. */
  function Primed<V>(wait: int, clock: int): ThrottleState<V>
  {
    ThrottleState(clock - wait, None)
  }

  /** One call of `Throttle.__call__` at time `present`: the function runs iff
      at least `wait` milliseconds passed since the last execution, which
      then moves to `present`; the call returns the last result either way. */
  function Gate<V>(func: Callable<V>, wait: int): (ThrottleState<V>, Timed<V>) -> (ThrottleState<V>, Outcome<Option<V>>)
  {
    (s: ThrottleState<V>, t: Timed<V>) =>
      if t.present - s.lastExecution >= wait then
        var r := Some(func(t.args));
        (ThrottleState(t.present, r), Outcome(true, r))
      else (s, Outcome(false, s.lastResult))
  }

  /** Whenever the clock has not gone back since construction, the first call runs the function. */
  lemma ThrottleFirstCallRuns<V>(func: Callable<V>, wait: int, clock: int, calls: seq<Timed<V>>)
    requires calls != [] && clock <= calls[0].present
    ensures Trace(Gate(func, wait), Primed(wait, clock), calls)[0] == Outcome(true, Some(func(calls[0].args)))
  {
    TraceAt(Gate(func, wait), Primed(wait, clock), calls, 0);
  }

  /** A call that runs the function returns that run's result; a call that
      does not returns what the previous call returned. */
  lemma ThrottleReturnsLast<V>(func: Callable<V>, wait: int, s: ThrottleState<V>, calls: seq<Timed<V>>, k: nat)
    requires 0 < k < |calls|
    ensures var os := Trace(Gate(func, wait), s, calls);
            os[k].returned == if os[k].ran then Some(func(calls[k].args)) else os[k - 1].returned
  {
    TraceAt(Gate(func, wait), s, calls, k);
    TraceAt(Gate(func, wait), s, calls, k - 1);
    FinalStep(Gate(func, wait), s, calls, k - 1);
    assert k - 1 + 1 == k;
  }

  /** Once call i has run the function, the recorded last execution is never
      earlier than call i's time, as long as the clock does not go back. */
  lemma {:induction false} LastExecutionSince<V>(func: Callable<V>, wait: int, s: ThrottleState<V>,
                                                 calls: seq<Timed<V>>, i: nat, j: nat)
    requires Chronological(calls)
    requires i < j <= |calls|
    requires Trace(Gate(func, wait), s, calls)[i].ran
    ensures Final(Gate(func, wait), s, calls[..j]).lastExecution >= calls[i].present
  {
    FinalStep(Gate(func, wait), s, calls, j - 1);
    if j - 1 == i {
      TraceAt(Gate(func, wait), s, calls, i);
    } else {
      LastExecutionSince(func, wait, s, calls, i, j - 1);
    }
  }

  /** Rate limit: with a clock that never goes back, any two calls that run
      the function are at least `wait` milliseconds apart. */
  lemma ThrottleSpacing<V>(func: Callable<V>, wait: int, s: ThrottleState<V>, calls: seq<Timed<V>>, i: nat, j: nat)
    requires Chronological(calls)
    requires i < j < |calls|
    requires Trace(Gate(func, wait), s, calls)[i].ran && Trace(Gate(func, wait), s, calls)[j].ran
    ensures calls[j].present - calls[i].present >= wait
  {
    LastExecutionSince(func, wait, s, calls, i, j);
    TraceAt(Gate(func, wait), s, calls, j);
  }

  /** With `wait` 100 and the clock at 0 on construction, calls at 0, 50 and
      150 run, skip (returning the first result), and run again. */
  lemma ThrottleTimeline<V>(func: Callable<V>, a: Args<V>, b: Args<V>, c: Args<V>)
    ensures var calls := [Timed(0, a), Timed(50, b), Timed(150, c)];
            Trace(Gate(func, 100), Primed(100, 0), calls)
            == [Outcome(true, Some(func(a))), Outcome(false, Some(func(a))), Outcome(true, Some(func(c)))]
  {
    var g, s0 := Gate(func, 100), Primed(100, 0);
    var s1 := ThrottleState(0, Some(func(a)));
    var c1, c2 := [Timed(0, a)], [Timed(0, a), Timed(50, b)];
    assert [] + c1 == c1 && c1 + [Timed(50, b)] == c2;
    assert c2 + [Timed(150, c)] == [Timed(0, a), Timed(50, b), Timed(150, c)];
    TraceSnoc(g, s0, [], Timed(0, a));
    FinalSnoc(g, s0, [], Timed(0, a));
    assert Trace(g, s0, c1) == [Outcome(true, Some(func(a)))];
    assert Final(g, s0, c1) == s1;
    TraceSnoc(g, s0, c1, Timed(50, b));
    FinalSnoc(g, s0, c1, Timed(50, b));
    assert Trace(g, s0, c2) == [Outcome(true, Some(func(a))), Outcome(false, Some(func(a)))];
    assert Final(g, s0, c2) == s1;
    TraceSnoc(g, s0, c2, Timed(150, c));
  }

  /** The adapter `throttle(func, wait)` returns. */
  class Throttle<V> {
    const func: Callable<V>
    const wait: int
    var lastResult: Option<V>
    var lastExecution: int
    ghost const start: ThrottleState<V>
    ghost var history: seq<Timed<V>>
    ghost var outcomes: seq<Outcome<Option<V>>>

    ghost predicate Valid()
      reads this
    {
      ThrottleState(lastExecution, lastResult) == Final(Gate(func, wait), start, history)
      && outcomes == Trace(Gate(func, wait), start, history)
    }

    /** `Throttle.__init__`, with `clock` the reading of `now()` it takes. */
    constructor (func: Callable<V>, wait: int, clock: int)
      ensures Valid()
      ensures this.func == func && this.wait == wait
      ensures lastExecution == clock - wait && lastResult == None
      ensures start == Primed(wait, clock) && history == [] && outcomes == []
    {
      this.func := func;
      this.wait := wait;
      lastResult := None;
      lastExecution := clock - wait;
      start := Primed(wait, clock);
      history := [];
      outcomes := [];
    }

    /** `Throttle.__call__` with `now()` reading `present`. */
    method Call(present: int, args: Args<V>) returns (r: Option<V>)
      requires Valid()
      modifies this
      ensures Valid()
      ensures var ran := present - old(lastExecution) >= wait;
              (ran ==> lastExecution == present && lastResult == Some(func(args)))
              && (!ran ==> lastExecution == old(lastExecution) && lastResult == old(lastResult))
              && outcomes == old(outcomes) + [Outcome(ran, r)]
      ensures r == lastResult
      ensures history == old(history) + [Timed(present, args)]
    {
      FinalSnoc(Gate(func, wait), start, history, Timed(present, args));
      TraceSnoc(Gate(func, wait), start, history, Timed(present, args));
      ghost var ran := present - lastExecution >= wait;
      if present - lastExecution >= wait {
        lastResult := Some(func(args));
        lastExecution := present;
      }
      r := lastResult;
      history := history + [Timed(present, args)];
      outcomes := outcomes + [Outcome(ran, r)];
    }
  }
}
