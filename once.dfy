/** `Once` and `once(func)`: the wrapped function runs on the first call
    only; that call's result is cached and returned by every later call. */
module OnceGate {
  import opened Calls
  import opened Machines

  /** The fields `Once.__call__` updates: whether it has been called, and the cached result. */
  datatype OnceState<V> = OnceState(called: bool, result: Option<V>)

  /** The state `Once.__init__` leaves: not called, result None. */
  function Unused<V>(): OnceState<V>
  {
    OnceState(false, None)
  }

  /** One call of `Once.__call__`: the first call runs the function and
      caches its result; every call returns the cached result. */
  function Remembering<V>(func: Callable<V>): (OnceState<V>, Args<V>) -> (OnceState<V>, Outcome<Option<V>>)
  {
    (s: OnceState<V>, args: Args<V>) =>
      if !s.called then
        var r := Some(func(args));
        (OnceState(true, r), Outcome(true, r))
      else (s, Outcome(false, s.result))
  }

  /** Once called, the state never changes again, whatever the later calls' arguments. */
  lemma {:induction false} OnceSettled<V>(func: Callable<V>, s: OnceState<V>, calls: seq<Args<V>>)
    requires s.called
    ensures Final(Remembering(func), s, calls) == s
  {
    if calls != [] {
      OnceSettled(func, s, calls[..|calls| - 1]);
    }
  }

  /** After one or more calls, `called` is set and the cache holds the first call's result. */
  lemma OnceCaches<V>(func: Callable<V>, calls: seq<Args<V>>)
    requires calls != []
    ensures Final(Remembering(func), Unused(), calls) == OnceState(true, Some(func(calls[0])))
  {
    var s1 := OnceState(true, Some(func(calls[0])));
    FinalStep(Remembering(func), Unused(), calls, 0);
    assert Final(Remembering(func), Unused(), calls[..1]) == s1;
    OnceSettled(func, s1, calls[1..]);
    FinalAppend(Remembering(func), Unused(), calls[..1], calls[1..]);
    assert calls[..1] + calls[1..] == calls;
  }

  /** Every call returns the first call's result; only the first call runs the function. */
  lemma OnceReturnsFirst<V>(func: Callable<V>, calls: seq<Args<V>>, k: nat)
    requires k < |calls|
    ensures Trace(Remembering(func), Unused(), calls)[k] == Outcome(k == 0, Some(func(calls[0])))
  {
    TraceAt(Remembering(func), Unused(), calls, k);
    if k > 0 {
      OnceCaches(func, calls[..k]);
    }
  }

  /** The wrapped function runs exactly once over any non-empty sequence of calls. */
  lemma {:induction false} OnceRunsOnce<V>(func: Callable<V>, calls: seq<Args<V>>)
    ensures Runs(Trace(Remembering(func), Unused(), calls)) == if calls == [] then 0 else 1
  {
    if calls != [] {
      var k := |calls| - 1;
      var os := Trace(Remembering(func), Unused(), calls);
      OnceRunsOnce(func, calls[..k]);
      assert os[..k] == Trace(Remembering(func), Unused(), calls[..k]);
      OnceReturnsFirst(func, calls, k);
    }
  }

  /** The adapter `once(func)` returns. */
  class Once<V> {
    const func: Callable<V>
    var result: Option<V>
    var called: bool
    ghost var history: seq<Args<V>>
    ghost var outcomes: seq<Outcome<Option<V>>>

    ghost predicate Valid()
      reads this
    {
      OnceState(called, result) == Final(Remembering(func), Unused(), history)
      && outcomes == Trace(Remembering(func), Unused(), history)
    }

    /** `Once.__init__`. */
    constructor (func: Callable<V>)
      ensures Valid()
      ensures this.func == func && !called && result == None
      ensures history == [] && outcomes == []
    {
      this.func := func;
      result := None;
      called := false;
      history := [];
      outcomes := [];
    }

    /** `Once.__call__`: run the function on the first call only, then return the cached result. */
    method Call(args: Args<V>) returns (r: Option<V>)
      requires Valid()
      modifies this
      ensures Valid()
      ensures old(called) ==> result == old(result)
      ensures !old(called) ==> result == Some(func(args))
      ensures called && r == result
      ensures history == old(history) + [args]
      ensures r == Some(func(history[0]))
      ensures outcomes == old(outcomes) + [Outcome(!old(called), r)]
    {
      FinalSnoc(Remembering(func), Unused(), history, args);
      TraceSnoc(Remembering(func), Unused(), history, args);
      ghost var ran := !called;
      if !called {
        result := Some(func(args));
        called := true;
      }
      r := result;
      history := history + [args];
      outcomes := outcomes + [Outcome(ran, r)];
      OnceCaches(func, history);
    }
  }
}
