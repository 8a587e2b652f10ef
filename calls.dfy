/** Values shared by every adapter of `pydash.api.functions`: the arguments
    of one Python call, optional values, the exceptions the adapters raise
    themselves, and a record of what one call of an adapter did. */
module Calls {

  datatype Option<T> = None | Some(value: T)

  /** Exceptions raised by the adapters' own code (never by the wrapped
      function), including those Python's `int()` raises on a count. */
  datatype Error = TypeError | IndexError | OverflowError

  datatype Result<T> = Ok(value: T) | Err(error: Error)

  /** The arguments of one call `f(*positional, **keywords)`. */
  datatype Args<V> = Args(positional: seq<V>, keywords: map<string, V>)

  /** A wrapped Python callable: it maps the arguments of a call to the value it returns. */
  type Callable<!V> = Args<V> -> V

  /** The arguments of `f(v)`: one positional argument and no keywords. */
  function Single<V>(v: V): Args<V>
  {
    Args([v], map[])
  }

  /** One call of a time-gated adapter: the clock reading `now()` takes at the call, and its arguments. */
  datatype Timed<V> = Timed(present: int, args: Args<V>)

  /** The clock never goes backwards across the calls `calls`. */
  ghost predicate Chronological<V>(calls: seq<Timed<V>>)
  {
    forall i, j :: 0 <= i <= j < |calls| ==> calls[i].present <= calls[j].present
  }

  /** What one call of an adapter did: whether it invoked the wrapped function, and what it returned. */
  datatype Outcome<R> = Outcome(ran: bool, returned: R)

  /** How many of the calls recorded in `os` invoked the wrapped function. */
  function Runs<R>(os: seq<Outcome<R>>): (n: nat)
    ensures n <= |os|
    ensures n == 0 <==> forall k :: 0 <= k < |os| ==> !os[k].ran
  {
    if os == [] then 0 else Runs(os[..|os| - 1]) + (if os[|os| - 1].ran then 1 else 0)
  }
}
