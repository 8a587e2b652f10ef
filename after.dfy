/** `After` and `after(n, func)`: a call counter that lets the wrapped
    function run once it has been called `n` times, and on every call after. */
module AfterGate {
  import opened Calls
  import opened Machines

  /** What Python's `int(n)` does with the count handed to `after`: it gives
      an integer, raises ValueError (an unparsable string) or raises some
      other exception, such as TypeError (a value of the wrong kind, such as
      None) or OverflowError (an infinite float). */
  datatype IntConversion = Converted(value: int) | RaisesValueError | RaisesOther(error: Error)

  /** The count `After.__init__` stores: a non-negative integer is kept,
      a negative one or one `int` rejects with ValueError becomes 0; the
      source catches only ValueError and AssertionError, so any other
      exception from `int` escapes unchanged. */
  function ClampCount(n: IntConversion): (r: Result<nat>)
    ensures r.Err? <==> n.RaisesOther?
    ensures r.Err? ==> r.error == n.error
    ensures r.Ok? && n.Converted? && n.value >= 0 ==> r.value == n.value
    ensures r.Ok? && !(n.Converted? && n.value >= 0) ==> r.value == 0
  {
    match n
    case Converted(i) => if i >= 0 then Ok(i) else Ok(0)
    case RaisesValueError => Ok(0)
    case RaisesOther(e) => Err(e)
  }

  /** One call of `After.__call__` on counter `n`: the counter drops by one,
      and the wrapped function runs iff it is now below 1; otherwise the call
      returns None. */
  function Counting<V>(func: Callable<V>): (int, Args<V>) -> (int, Outcome<Option<V>>)
  {
    (n: int, args: Args<V>) =>
      var m := n - 1;
      if m < 1 then (m, Outcome(true, Some(func(args)))) else (m, Outcome(false, None))
  }

  /** Every call takes exactly one off the counter. */
  lemma {:induction false} Countdown<V>(func: Callable<V>, n: int, calls: seq<Args<V>>)
    ensures Final(Counting(func), n, calls) == n - |calls|
  {
    if calls != [] {
      Countdown(func, n, calls[..|calls| - 1]);
    }
  }

  /** Call number k + 1 of an `After` built with count n runs the function on
      its own arguments iff k + 1 >= n; the calls before return None. With
      n <= 1 every call runs. */
  lemma AfterSchedule<V>(func: Callable<V>, n: int, calls: seq<Args<V>>, k: nat)
    requires k < |calls|
    ensures Trace(Counting(func), n, calls)[k]
            == if k + 1 >= n then Outcome(true, Some(func(calls[k]))) else Outcome(false, None)
  {
    TraceAt(Counting(func), n, calls, k);
    Countdown(func, n, calls[..k]);
  }

  /** The first call that runs the function: call n, or call 1 when n < 1. */
  function FirstRun(n: int): nat
  {
    if n < 1 then 1 else n
  }

  /** Over any sequence of calls, the function runs exactly once per call from call FirstRun(n) on. */
  lemma {:induction false} AfterRunCount<V>(func: Callable<V>, n: int, calls: seq<Args<V>>)
    ensures Runs(Trace(Counting(func), n, calls))
            == if |calls| < FirstRun(n) then 0 else |calls| - FirstRun(n) + 1
  {
    if calls != [] {
      var k := |calls| - 1;
      var os := Trace(Counting(func), n, calls);
      AfterRunCount(func, n, calls[..k]);
      assert os[..k] == Trace(Counting(func), n, calls[..k]);
      AfterSchedule(func, n, calls, k);
    }
  }

  /** The adapter `after(n, func)` returns. The counter `n` is the one field
      `__call__` updates; `history` and `outcomes` record every call so far. */
  class After<V> {
    var n: int
    const func: Callable<V>
    ghost const initial: int
    ghost var history: seq<Args<V>>
    ghost var outcomes: seq<Outcome<Option<V>>>

    ghost predicate Valid()
      reads this
    {
      n == Final(Counting(func), initial, history)
      && outcomes == Trace(Counting(func), initial, history)
    }

    /** `After.__init__` once the count has been clamped (see ClampCount). */
    constructor (n: nat, func: Callable<V>)
      ensures Valid()
      ensures this.n == n && this.func == func && initial == n
      ensures history == [] && outcomes == []
    {
      this.n := n;
      this.func := func;
      initial := n;
      history := [];
      outcomes := [];
    }

    /** `After.__call__`: decrement the counter, then run the function iff
        the counter is below 1. */
    method Call(args: Args<V>) returns (r: Option<V>)
      requires Valid()
      modifies this
      ensures Valid()
      ensures n == old(n) - 1
      ensures r == if n < 1 then Some(func(args)) else None
      ensures r.Some? <==> |history| >= initial
      ensures history == old(history) + [args]
      ensures outcomes == old(outcomes) + [Outcome(r.Some?, r)]
    {
      FinalSnoc(Counting(func), initial, history, args);
      TraceSnoc(Counting(func), initial, history, args);
      Countdown(func, initial, history);
      n := n - 1;
      if n < 1 {
        r := Some(func(args));
      } else {
        r := None;
      }
      history := history + [args];
      outcomes := outcomes + [Outcome(r.Some?, r)];
    }
  }

  /** `after(n, func)`: clamp the count and build the adapter; a count that
      `int` rejects with anything but ValueError makes the construction
      raise that same exception. */
  method NewAfter<V>(n: IntConversion, func: Callable<V>) returns (r: Result<After<V>>)
    ensures r.Err? <==> n.RaisesOther?
    ensures r.Err? ==> r.error == n.error
    ensures r.Ok? ==> fresh(r.value) && r.value.Valid() && r.value.func == func
                      && r.value.n == ClampCount(n).value && r.value.history == []
  {
    var count := ClampCount(n);
    if count.Err? {
      return Err(count.error);
    }
    var a := new After(count.value, func);
    r := Ok(a);
  }
}
