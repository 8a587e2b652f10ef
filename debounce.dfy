/** `Debounce` and `debounce(func, wait, max_wait)`: the wrapped function
    runs on a call only when `wait` milliseconds of quiet preceded it, or,
    with an active `max_wait`, when the last execution is at least `max_wait`
    milliseconds old; calls in between return the last result. */
module Debouncing {
  import opened Calls
  import opened Machines

  /** The `max_wait` argument: a number (what the `is_number` check at
      construction accepts) or any other Python value, of which only its
      truthiness matters. The default `False` is `NotNumber(false)`. */
  datatype MaxWait = NotNumber(truthy: bool) | Number(ms: int)

  /** Python truthiness of `max_wait`: a number is true iff it is non-zero. */
  predicate Truthy(m: MaxWait)
  {
    match m
    case NotNumber(t) => t
    case Number(ms) => ms != 0
  }

  /** The fields `Debounce.__call__` updates; `lastExecution` is Python's None as `None`. */
  datatype DebounceState<V> = DebounceState(lastCall: int, lastExecution: Option<int>, lastResult: Option<V>)

  /** The state `Debounce.__init__` leaves. It reads the clock for the last
      call (`callClock`), set `wait` in the past, and, only when `max_wait` is
      a number, a second time for the last execution (`execClock`), set
      `max_wait` in the past; otherwise the last execution is None and
      `execClock` is unused. */
  function Primed<V>(wait: int, maxWait: MaxWait, callClock: int, execClock: int): DebounceState<V>
  {
    DebounceState(callClock - wait, if maxWait.Number? then Some(execClock - maxWait.ms) else None, None)
  }

  /** The second item of the `any([...])` list: `max_wait and present -
      last_execution >= max_wait`. A falsy `max_wait` short-circuits to false;
      otherwise subtracting a None last execution raises TypeError, and so
      does comparing with a `max_wait` that is not a number. */
  function MaxWaitElapsed(maxWait: MaxWait, lastExecution: Option<int>, present: int): (r: Result<bool>)
    ensures !Truthy(maxWait) ==> r == Ok(false)
    ensures r.Err? <==> Truthy(maxWait) && (maxWait.NotNumber? || lastExecution.None?)
    ensures r.Ok? ==> (r.value <==> Truthy(maxWait) && maxWait.Number? && lastExecution.Some?
                                    && present - lastExecution.value >= maxWait.ms)
  {
    if !Truthy(maxWait) then Ok(false)
    else
      match lastExecution
      case None => Err(TypeError)
      case Some(le) =>
        match maxWait
        case Number(ms) => Ok(present - le >= ms)
        case NotNumber(_) => Err(TypeError)
  }

  /** One call of `Debounce.__call__` at time `present`. Both items of the
      `any` list are evaluated first, so a TypeError leaves the state as it
      was. Otherwise the function runs iff `wait` passed since the last call
      or the max-wait item holds; a run records the result and the execution
      time; the last call moves to `present` either way, and the call returns
      the last result. */
  function Gate<V>(func: Callable<V>, wait: int, maxWait: MaxWait)
    : (DebounceState<V>, Timed<V>) -> (DebounceState<V>, Outcome<Result<Option<V>>>)
  {
    (s: DebounceState<V>, t: Timed<V>) => Step(func, wait, maxWait, s, t)
  }

  /** The call `Gate` describes, as a function of the state and the call. */
  function Step<V>(func: Callable<V>, wait: int, maxWait: MaxWait, s: DebounceState<V>, t: Timed<V>)
    : (DebounceState<V>, Outcome<Result<Option<V>>>)
  {
    var late := MaxWaitElapsed(maxWait, s.lastExecution, t.present);
    if late.Err? then (s, Outcome(false, Err(late.error)))
    else if t.present - s.lastCall >= wait || late.value then
      var r := Some(func(t.args));
      (DebounceState(t.present, Some(t.present), r), Outcome(true, Ok(r)))
    else (s.(lastCall := t.present), Outcome(false, Ok(s.lastResult)))
  }

  /** Whenever the clock has not gone back since construction and `max_wait`
      is not a truthy non-number, the first call runs the function. */
  lemma DebounceFirstCallRuns<V>(func: Callable<V>, wait: int, maxWait: MaxWait,
                                 callClock: int, execClock: int, calls: seq<Timed<V>>)
    requires !(maxWait.NotNumber? && maxWait.truthy)
    requires calls != [] && callClock <= calls[0].present
    ensures Trace(Gate(func, wait, maxWait), Primed(wait, maxWait, callClock, execClock), calls)[0]
            == Outcome(true, Ok(Some(func(calls[0].args))))
  {
    TraceAt(Gate(func, wait, maxWait), Primed(wait, maxWait, callClock, execClock), calls, 0);
  }

  /** With `max_wait` falsy, every call records its time as the last call. */
  lemma LastCallIsPrevious<V>(func: Callable<V>, wait: int, maxWait: MaxWait, s: DebounceState<V>,
                              calls: seq<Timed<V>>, k: nat)
    requires !Truthy(maxWait)
    requires 0 < k <= |calls|
    ensures Final(Gate(func, wait, maxWait), s, calls[..k]).lastCall == calls[k - 1].present
  {
    FinalStep(Gate(func, wait, maxWait), s, calls, k - 1);
    assert k - 1 + 1 == k;
  }

  /** Debouncing proper: with `max_wait` falsy, a call after the first runs
      the function iff at least `wait` milliseconds passed since the call
      before it, whether or not that one ran. */
  lemma DebounceQuietPeriod<V>(func: Callable<V>, wait: int, maxWait: MaxWait, s: DebounceState<V>,
                               calls: seq<Timed<V>>, k: nat)
    requires !Truthy(maxWait)
    requires 0 < k < |calls|
    ensures Trace(Gate(func, wait, maxWait), s, calls)[k].ran
            <==> calls[k].present - calls[k - 1].present >= wait
  {
    TraceAt(Gate(func, wait, maxWait), s, calls, k);
    LastCallIsPrevious(func, wait, maxWait, s, calls, k);
  }

  /** While no call runs the function after call i did, the last execution stays at call i's time. */
  lemma {:induction false} LastExecutionHeld<V>(func: Callable<V>, wait: int, maxWait: MaxWait, s: DebounceState<V>,
                                               calls: seq<Timed<V>>, i: nat, j: nat)
    requires i < j <= |calls|
    requires Trace(Gate(func, wait, maxWait), s, calls)[i].ran
    requires forall l :: i < l < j ==> !Trace(Gate(func, wait, maxWait), s, calls)[l].ran
    ensures Final(Gate(func, wait, maxWait), s, calls[..j]).lastExecution == Some(calls[i].present)
  {
    FinalStep(Gate(func, wait, maxWait), s, calls, j - 1);
    if j - 1 == i {
      TraceAt(Gate(func, wait, maxWait), s, calls, i);
    } else {
      LastExecutionHeld(func, wait, maxWait, s, calls, i, j - 1);
      TraceAt(Gate(func, wait, maxWait), s, calls, j - 1);
    }
  }

  /** Max-wait bound: with a numeric, non-zero `max_wait`, once call i has
      run the function, every later call up to the next run comes less than
      `max_wait` milliseconds after call i. */
  lemma DebounceMaxWait<V>(func: Callable<V>, wait: int, ms: int, s: DebounceState<V>,
                           calls: seq<Timed<V>>, i: nat, j: nat)
    requires ms != 0
    requires i < j < |calls|
    requires Trace(Gate(func, wait, Number(ms)), s, calls)[i].ran
    requires forall l :: i < l <= j ==> !Trace(Gate(func, wait, Number(ms)), s, calls)[l].ran
    ensures calls[j].present - calls[i].present < ms
  {
    LastExecutionHeld(func, wait, Number(ms), s, calls, i, j);
    TraceAt(Gate(func, wait, Number(ms)), s, calls, j);
  }

  /** A truthy `max_wait` that is not a number, with no execution recorded,
      makes every call raise TypeError and change nothing. */
  lemma {:induction false} DebounceBrokenMaxWait<V>(func: Callable<V>, wait: int, maxWait: MaxWait,
                                                    s: DebounceState<V>, calls: seq<Timed<V>>)
    requires maxWait.NotNumber? && maxWait.truthy && s.lastExecution.None?
    ensures Final(Gate(func, wait, maxWait), s, calls) == s
    ensures forall k :: 0 <= k < |calls| ==> Trace(Gate(func, wait, maxWait), s, calls)[k] == Outcome(false, Err(TypeError))
  {
    if calls != [] {
      var n := |calls| - 1;
      DebounceBrokenMaxWait(func, wait, maxWait, s, calls[..n]);
      assert Trace(Gate(func, wait, maxWait), s, calls)[..n] == Trace(Gate(func, wait, maxWait), s, calls[..n]);
    }
  }

  /** The adapter `debounce(func, wait, max_wait)` returns. */
  class Debounce<V> {
    const func: Callable<V>
    const wait: int
    const maxWait: MaxWait
    var lastResult: Option<V>
    var lastCall: int
    var lastExecution: Option<int>
    ghost const start: DebounceState<V>
    ghost var history: seq<Timed<V>>
    ghost var outcomes: seq<Outcome<Result<Option<V>>>>

    ghost predicate Valid()
      reads this
    {
      DebounceState(lastCall, lastExecution, lastResult) == Final(Gate(func, wait, maxWait), start, history)
      && outcomes == Trace(Gate(func, wait, maxWait), start, history)
    }

    /** `Debounce.__init__`, with `callClock` its reading of `now()` and
        `execClock` the second reading it takes when `max_wait` is a number. */
    constructor (func: Callable<V>, wait: int, maxWait: MaxWait, callClock: int, execClock: int)
      ensures Valid()
      ensures this.func == func && this.wait == wait && this.maxWait == maxWait
      ensures lastCall == callClock - wait && lastResult == None
      ensures lastExecution == if maxWait.Number? then Some(execClock - maxWait.ms) else None
      ensures start == Primed(wait, maxWait, callClock, execClock) && history == [] && outcomes == []
    {
      this.func := func;
      this.wait := wait;
      this.maxWait := maxWait;
      lastResult := None;
      lastCall := callClock - wait;
      lastExecution := if maxWait.Number? then Some(execClock - maxWait.ms) else None;
      start := Primed(wait, maxWait, callClock, execClock);
      history := [];
      outcomes := [];
    }

    /** `Debounce.__call__` with `now()` reading `present`. */
    method Call(present: int, args: Args<V>) returns (r: Result<Option<V>>)
      requires Valid()
      modifies this
      ensures Valid()
      ensures history == old(history) + [Timed(present, args)]
      ensures var late := MaxWaitElapsed(maxWait, old(lastExecution), present);
              (late.Err? ==>
                 r == Err(late.error) && lastCall == old(lastCall)
                 && lastExecution == old(lastExecution) && lastResult == old(lastResult)
                 && outcomes == old(outcomes) + [Outcome(false, r)])
              && (late.Ok? ==>
                    var ran := present - old(lastCall) >= wait || late.value;
                    lastCall == present && r == Ok(lastResult)
                    && (ran ==> lastExecution == Some(present) && lastResult == Some(func(args)))
                    && (!ran ==> lastExecution == old(lastExecution) && lastResult == old(lastResult))
                    && outcomes == old(outcomes) + [Outcome(ran, r)])
    {
      FinalSnoc(Gate(func, wait, maxWait), start, history, Timed(present, args));
      TraceSnoc(Gate(func, wait, maxWait), start, history, Timed(present, args));
      var late := MaxWaitElapsed(maxWait, lastExecution, present);
      ghost var ran := false;
      if late.Err? {
        r := Err(late.error);
      } else {
        if present - lastCall >= wait || late.value {
          lastResult := Some(func(args));
          lastExecution := Some(present);
          ran := true;
        }
        lastCall := present;
        r := Ok(lastResult);
      }
      history := history + [Timed(present, args)];
      outcomes := outcomes + [Outcome(ran, r)];
    }
  }
}
