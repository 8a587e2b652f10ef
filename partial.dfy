/** `Partial`, `partial`, `partial_right` and `wrap`: bind arguments to a
    function, placed before (or, from the right, after) the arguments of
    each later call. A `Partial` never changes once built. */
module Binding {
  import opened Calls

  datatype Partial<!V> = Partial(func: Callable<V>, bound: seq<V>, fromRight: bool)

  /** The arguments `Partial.__call__` hands to the wrapped function: the
      bound arguments then the call's (or, from the right, the call's then
      the bound ones); keyword arguments pass through untouched. */
  function Forwarded<V>(p: Partial<V>, args: Args<V>): (a: Args<V>)
    ensures |a.positional| == |p.bound| + |args.positional|
    ensures !p.fromRight ==> a.positional[..|p.bound|] == p.bound
                             && a.positional[|p.bound|..] == args.positional
    ensures p.fromRight ==> a.positional[..|args.positional|] == args.positional
                            && a.positional[|args.positional|..] == p.bound
    ensures a.keywords == args.keywords
  {
    if p.fromRight then Args(args.positional + p.bound, args.keywords)
    else Args(p.bound + args.positional, args.keywords)
  }

  /** `Partial.__call__`: the wrapped function's result on the forwarded arguments. */
  function Apply<V>(p: Partial<V>, args: Args<V>): V
  {
    p.func(Forwarded(p, args))
  }

  /** A `Partial` used as a callable in its own right, for instance wrapped again. */
  function AsCallable<V>(p: Partial<V>): Callable<V>
  {
    (args: Args<V>) => Apply(p, args)
  }

  /** `partial(func, *args)`: every call runs `func` on `args` followed by the call's arguments. */
  function PartialOf<V(!new)>(func: Callable<V>, bound: seq<V>): (p: Partial<V>)
    ensures forall args :: Apply(p, args) == func(Args(bound + args.positional, args.keywords))
  {
    Partial(func, bound, false)
  }

  /** `partial_right(func, *args)`: every call runs `func` on the call's arguments followed by `args`. */
  function PartialRightOf<V(!new)>(func: Callable<V>, bound: seq<V>): (p: Partial<V>)
    ensures forall args :: Apply(p, args) == func(Args(args.positional + bound, args.keywords))
  {
    Partial(func, bound, true)
  }

  /** `wrap(value, wrapper)`: every call runs `wrapper` with `value` as its
      first argument, followed by the call's arguments. */
  function Wrap<V(!new)>(value: V, wrapper: Callable<V>): (p: Partial<V>)
    ensures forall args :: Apply(p, args) == wrapper(Args([value] + args.positional, args.keywords))
  {
    Partial(wrapper, [value], false)
  }

  /** Binding a, then b on the left, is binding a + b at once. */
  lemma PartialNests<V(!new)>(func: Callable<V>, a: seq<V>, b: seq<V>, args: Args<V>)
    ensures Apply(PartialOf(AsCallable(PartialOf(func, a)), b), args) == Apply(PartialOf(func, a + b), args)
  {
    var inner := Partial(func, a, false);
    var call := Args(b + args.positional, args.keywords);
    calc {
      Apply(PartialOf(AsCallable(inner), b), args);
      AsCallable(inner)(call);
      Apply(inner, call);
      func(Args(a + (b + args.positional), args.keywords));
      { assert a + (b + args.positional) == (a + b) + args.positional; }
      func(Args((a + b) + args.positional, args.keywords));
      Apply(PartialOf(func, a + b), args);
    }
  }

  /** Binding a, then b on the right, is binding b + a at once on the right. */
  lemma PartialRightNests<V(!new)>(func: Callable<V>, a: seq<V>, b: seq<V>, args: Args<V>)
    ensures Apply(PartialRightOf(AsCallable(PartialRightOf(func, a)), b), args)
            == Apply(PartialRightOf(func, b + a), args)
  {
    var inner := Partial(func, a, true);
    var call := Args(args.positional + b, args.keywords);
    calc {
      Apply(PartialRightOf(AsCallable(inner), b), args);
      AsCallable(inner)(call);
      Apply(inner, call);
      func(Args((args.positional + b) + a, args.keywords));
      { assert (args.positional + b) + a == args.positional + (b + a); }
      func(Args(args.positional + (b + a), args.keywords));
      Apply(PartialRightOf(func, b + a), args);
    }
  }

  /** Binding a on the left and b on the right surrounds the call's arguments. */
  lemma PartialBothSides<V(!new)>(func: Callable<V>, a: seq<V>, b: seq<V>, args: Args<V>)
    ensures Apply(PartialRightOf(AsCallable(PartialOf(func, a)), b), args)
            == func(Args(a + args.positional + b, args.keywords))
  {
    var inner := Partial(func, a, false);
    var call := Args(args.positional + b, args.keywords);
    calc {
      Apply(PartialRightOf(AsCallable(inner), b), args);
      AsCallable(inner)(call);
      Apply(inner, call);
      func(Args(a + (args.positional + b), args.keywords));
      { assert a + (args.positional + b) == a + args.positional + b; }
      func(Args(a + args.positional + b, args.keywords));
    }
  }
}
