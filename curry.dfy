/** `Curry` and `curry(func, arity)`: accumulate arguments across calls
    until their number reaches the arity, then run the function on all of
    them. Each call that falls short returns a new `Curry`; the receiver
    keeps its own arguments. */
module Currying {
  import opened Calls

  datatype Curry<!V> = Curry(func: Callable<V>, arity: int, args: seq<V>, kargs: map<string, V>)

  /** What calling a `Curry` gives: the function's result, or a new `Curry` waiting for more. */
  datatype Curried<!V> = Done(value: V) | Pending(next: Curry<V>)

  /** `curry(func, arity)`: nothing accumulated yet. */
  function CurryOf<V>(func: Callable<V>, arity: int): Curry<V>
  {
    Curry(func, arity, [], map[])
  }

  /** The arguments accumulated once call `call` is added to `c`: positional
      arguments concatenate, earlier first; keyword arguments merge, and on
      a name bound both before and now the earlier binding wins. */
  function Merged<V>(c: Curry<V>, call: Args<V>): (m: Args<V>)
    ensures |m.positional| == |c.args| + |call.positional|
    ensures m.positional[..|c.args|] == c.args && m.positional[|c.args|..] == call.positional
    ensures m.keywords.Keys == c.kargs.Keys + call.keywords.Keys
    ensures forall k :: k in c.kargs ==> m.keywords[k] == c.kargs[k]
    ensures forall k :: k in call.keywords && k !in c.kargs ==> m.keywords[k] == call.keywords[k]
  {
    Args(c.args + call.positional, call.keywords + c.kargs)
  }

  /** `Curry.__call__`: run the function on the merged arguments iff their
      count (positional plus distinct keywords) reaches the arity; otherwise
      return a new `Curry` with the same function and arity holding them. */
  function Call<V>(c: Curry<V>, call: Args<V>): (r: Curried<V>)
    ensures var m := Merged(c, call);
            r.Done? <==> |m.positional| + |m.keywords| >= c.arity
    ensures r.Done? ==> r.value == c.func(Merged(c, call))
    ensures r.Pending? ==> r.next.func == c.func && r.next.arity == c.arity
                           && Args(r.next.args, r.next.kargs) == Merged(c, call)
  {
    var m := Merged(c, call);
    if |m.positional| + |m.keywords| >= c.arity then Done(c.func(m))
    else Pending(Curry(c.func, c.arity, m.positional, m.keywords))
  }

  /** The first call of `curry(func, arity)` sees exactly its own arguments:
      it runs the function on them when they reach the arity, and otherwise
      holds them. */
  lemma CurryFirstCall<V>(func: Callable<V>, arity: int, call: Args<V>)
    ensures Call(CurryOf(func, arity), call)
            == if |call.positional| + |call.keywords| >= arity then Done(func(call))
               else Pending(Curry(func, arity, call.positional, call.keywords))
  {
    var m := Merged(CurryOf(func, arity), call);
    assert m.positional == call.positional;
    assert m.keywords == call.keywords;
  }

  /** Applying in two stages is applying once with everything: positional
      arguments in order, and first-stage keywords winning over second-stage ones. */
  lemma CurryInStages<V>(c: Curry<V>, first: Args<V>, second: Args<V>)
    requires Call(c, first).Pending?
    ensures Call(Call(c, first).next, second)
            == Call(c, Args(first.positional + second.positional, second.keywords + first.keywords))
  {
    var both := Args(first.positional + second.positional, second.keywords + first.keywords);
    var next := Call(c, first).next;
    assert next.args == c.args + first.positional && next.kargs == first.keywords + c.kargs;
    assert next.args + second.positional == c.args + both.positional;
    MergeKeywords(second.keywords, first.keywords, c.kargs);
    assert Merged(next, second) == Merged(c, both);
  }

  /** Merging keywords in two rounds is merging them in one. */
  lemma MergeKeywords<V>(later: map<string, V>, earlier: map<string, V>, held: map<string, V>)
    ensures later + (earlier + held) == (later + earlier) + held
  {
    var l, r := later + (earlier + held), (later + earlier) + held;
    assert l.Keys == r.Keys;
    forall k | k in l
      ensures l[k] == r[k]
    {
    }
  }

  /** Feeding `xs` to a `Curry` one positional argument per call, stopping
      once the function has run. */
  function Feed<V>(c: Curry<V>, xs: seq<V>): Curried<V>
    requires xs != []
    decreases |xs|
  {
    var r := Call(c, Single(xs[0]));
    if |xs| == 1 || r.Done? then r else Feed(r.next, xs[1..])
  }

  /** A `Curry` short of exactly |xs| arguments, fed them one per call, runs
      the function on the last call, on all its arguments in order. */
  lemma {:induction false} CurryOneAtATime<V>(c: Curry<V>, xs: seq<V>)
    requires xs != []
    requires |c.args| + |c.kargs| + |xs| == c.arity
    ensures Feed(c, xs) == Done(c.func(Args(c.args + xs, c.kargs)))
    decreases |xs|
  {
    var m := Merged(c, Single(xs[0]));
    assert map[] + c.kargs == c.kargs;
    assert m.keywords == c.kargs;
    assert |m.positional| + |m.keywords| == c.arity - |xs| + 1;
    if |xs| > 1 {
      var next := Curry(c.func, c.arity, c.args + [xs[0]], c.kargs);
      assert Call(c, Single(xs[0])) == Pending(next);
      CurryOneAtATime(next, xs[1..]);
      assert c.args + [xs[0]] + xs[1..] == c.args + xs;
    } else {
      assert m == Args(c.args + xs, c.kargs);
    }
  }

  /** Before that last call, every call falls short: after the first j of
      the |xs| arguments the result is a `Curry` still waiting, holding
      exactly those j arguments after its own. */
  lemma {:induction false} FeedPendingBeforeLast<V>(c: Curry<V>, xs: seq<V>, j: nat)
    requires |c.args| + |c.kargs| + |xs| == c.arity
    requires 0 < j < |xs|
    ensures Feed(c, xs[..j]) == Pending(Curry(c.func, c.arity, c.args + xs[..j], c.kargs))
    decreases |xs|
  {
    assert map[] + c.kargs == c.kargs;
    var next := Curry(c.func, c.arity, c.args + [xs[0]], c.kargs);
    assert Call(c, Single(xs[0])) == Pending(next);
    if j == 1 {
      assert xs[..1] == [xs[0]];
    } else {
      FeedPendingBeforeLast(next, xs[1..], j - 1);
      assert xs[..j][1..] == xs[1..][..j - 1];
      assert c.args + [xs[0]] + xs[1..][..j - 1] == c.args + xs[..j];
    }
  }
}
