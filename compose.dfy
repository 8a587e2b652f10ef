/** `compose(*funcs)`: a callable that runs the rightmost function on its
    arguments and feeds each result, as the one argument, to the function on
    its left. */
module Composition {
  import opened Calls

  /** f1(f2(... fn(args) ...)) for funcs = [f1, f2, ..., fn]. */
  function Composed<V>(funcs: seq<Callable<V>>, args: Args<V>): V
    requires funcs != []
    decreases |funcs|
  {
    if |funcs| == 1 then funcs[0](args)
    else funcs[0](Single(Composed(funcs[1..], args)))
  }

  /** The wrapper `compose(*funcs)` returns, called with `args`: pop the last
      function and run it on the arguments, then run the others from right to
      left on the running result. With no functions the pop raises IndexError. */
  method CallComposed<V>(funcs: seq<Callable<V>>, args: Args<V>) returns (r: Result<V>)
    ensures funcs == [] ==> r == Err(IndexError)
    ensures funcs != [] ==> r == Ok(Composed(funcs, args))
  {
    if funcs == [] {
      return Err(IndexError);
    }
    var i := |funcs| - 1;
    var ret := funcs[i](args);
    while i > 0
      invariant 0 <= i < |funcs|
      invariant ret == Composed(funcs[i..], args)
    {
      i := i - 1;
      assert funcs[i..][1..] == funcs[i + 1..];
      ret := funcs[i](Single(ret));
    }
    assert funcs[0..] == funcs;
    r := Ok(ret);
  }

  /** Composing fs with gs is composing fs with the composition of gs: the
      result does not depend on how the functions are grouped. */
  lemma {:induction false} ComposeNests<V>(fs: seq<Callable<V>>, gs: seq<Callable<V>>, args: Args<V>)
    requires fs != [] && gs != []
    ensures Composed(fs + gs, args) == Composed(fs, Single(Composed(gs, args)))
    decreases |fs|
  {
    if |fs| == 1 {
      assert (fs + gs)[1..] == gs;
    } else {
      ComposeNests(fs[1..], gs, args);
      assert (fs + gs)[1..] == fs[1..] + gs;
    }
  }

  /** compose(f, g, h)(args) is f(g(h(args))). */
  lemma ComposeThree<V>(f: Callable<V>, g: Callable<V>, h: Callable<V>, args: Args<V>)
    ensures Composed([f, g, h], args) == f(Single(g(Single(h(args)))))
  {
    assert [g, h][1..] == [h];
    assert Composed([g, h], args) == g(Single(h(args)));
    assert [f, g, h][1..] == [g, h];
  }
}
