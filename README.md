# pydash function adapters, modelled in Dafny

This project models the function adapters of pydash's `pydash/api/functions.py`. Each adapter wraps a callable and changes when it runs, how often it runs, or which arguments it gets:

- `after(n, func)` (class `After`) counts calls. It runs `func` from call `n` on.
- `once(func)` (class `Once`) runs `func` on the first call and caches that result.
- `partial`, `partial_right` and `wrap` (class `Partial`) bind arguments before or after the call's own.
- `curry(func, arity)` (class `Curry`) accumulates arguments until there are `arity` of them.
- `compose(*funcs)` chains functions from right to left.
- `throttle(func, wait)` and `debounce(func, wait, max_wait)` (classes `Throttle` and `Debounce`) gate calls by elapsed milliseconds and return the last result in between.

Modules, one per adapter plus two shared ones:

- `Calls` (calls.dfy) holds what the adapters share. A wrapped callable is a Dafny function value `Args<V> -> V`. `Args` is a sequence of positional arguments plus a map of keyword arguments. `Timed` pairs a call's arguments with the clock reading `now()` takes at that call. `Outcome(ran, returned)` records whether a call invoked the wrapped function and what it returned.
- `Machines` (machines.dfy) treats a stateful adapter as a state machine. `Final` and `Trace` run a sequence of calls through a step function. `Trace` gives each call's outcome, in order.
- `AfterGate`, `OnceGate`, `Throttling` and `Debouncing` each define a pure step function: `Counting`, `Remembering`, `Throttling.Gate` and `Debouncing.Gate`. This function specifies one call of the source's `__call__`. Each module also has a class with the source's fields, whose `Call` method updates them in place. The class keeps a ghost `history` of its calls and a ghost `outcomes` log. Its `Valid()` ties the fields to `Final(step, start, history)` and the log to `Trace(step, start, history)`. So every lemma about `Trace` holds for any sequence of calls on an object.
- `Binding` (Partial) and `Currying` (Curry) are datatypes with functions, because their calls do not change the receiver.
- `Composition` models the wrapper `compose` returns as a method with a loop, proved against a recursive definition of the composition.

The clock `now()` becomes an explicit `present: int` argument of each call. Construction takes its clock reading as an argument too; `Debounce.__init__` reads the clock a second time when `max_wait` is a number, so its constructor takes a second reading, used only in that case. The calls themselves accept any `present`. The properties that need a clock that never goes back (`Chronological`) assume it in the lemma.

The model follows the code in these places:

- A `compose()` with no functions fails only when the wrapper is called. The failure is an `IndexError` from popping an empty list.
- `After.__init__` catches only `ValueError` and `AssertionError` from `int(n)`. Any other exception from `int(n)` escapes instead of turning the count into 0: `TypeError` for a count such as `None`, `OverflowError` for an infinite float.
- `Debounce` with a truthy `max_wait` that is not a number makes every call raise `TypeError`: the source subtracts `None` at line 120. `any([...])` builds its whole list before testing it, so this happens even when `wait` has elapsed.

## Model

| member | source | states |
|---|---|---|
| `AfterGate.ClampCount` | pydash/api/functions.py:15-22 | a non-negative integer count is kept; a negative one, or one `int()` rejects with ValueError, becomes 0; any other exception from `int()` (TypeError, OverflowError) is not caught and escapes unchanged |
| `AfterGate.After.constructor` | pydash/api/functions.py:15-23 | stores the clamped count and the function, with no calls recorded |
| `AfterGate.NewAfter` | pydash/api/functions.py:152-156 | `after(n, func)` raises exactly when `int(n)` raises anything other than ValueError, and raises that same exception; otherwise it gives a fresh adapter whose counter is the clamped count |
| `AfterGate.After.Call` | pydash/api/functions.py:25-30 | the counter drops by exactly 1; the function runs on this call's arguments iff the counter is now below 1, that is iff this is call number `n` or later; otherwise the call returns None |
| `AfterGate.Countdown` | pydash/api/functions.py:25-27 | after k calls the counter is its initial value minus k |
| `AfterGate.AfterSchedule` | pydash/api/functions.py:25-30 | call number k+1 runs the function on its own arguments iff k+1 >= n; calls 1..n-1 return None; with n <= 1 every call runs |
| `AfterGate.AfterRunCount` | pydash/api/functions.py:25-30 | over any sequence of calls the function runs once per call from call max(n, 1) on, and never before |
| `OnceGate.Once.constructor` | pydash/api/functions.py:61-64 | a new adapter is not called and has result None |
| `OnceGate.Once.Call` | pydash/api/functions.py:66-72 | the first call runs the function and caches its result; later calls leave the cache alone; every call returns the first call's result, whatever its own arguments |
| `OnceGate.OnceSettled` | pydash/api/functions.py:68-70 | once `called` is set, no sequence of further calls changes the state |
| `OnceGate.OnceCaches` | pydash/api/functions.py:66-72 | after one or more calls, `called` is true and the cache holds the function's result on the first call's arguments |
| `OnceGate.OnceReturnsFirst` | pydash/api/functions.py:66-72 | every call k returns the first call's result, and the call runs the function iff k is the first call |
| `OnceGate.OnceRunsOnce` | pydash/api/functions.py:66-72 | over any non-empty sequence of calls the function runs exactly once, and zero times over none |
| `Binding.Forwarded` | pydash/api/functions.py:83-92 | the function receives the bound arguments then the call's own, or the call's own then the bound ones when binding from the right; keyword arguments pass through unchanged |
| `Binding.PartialOf` | pydash/api/functions.py:231-235 | every call of `partial(func, *bound)` runs `func` on `bound ++ args` |
| `Binding.PartialRightOf` | pydash/api/functions.py:238-242 | every call of `partial_right(func, *bound)` runs `func` on `args ++ bound` |
| `Binding.Wrap` | pydash/api/functions.py:260-265 | every call of `wrap(value, wrapper)` runs `wrapper` on `[value] ++ args` |
| `Binding.PartialNests` | pydash/api/functions.py:83-92 | binding `a` and then `b` with `partial` is the same as binding `a ++ b` at once |
| `Binding.PartialRightNests` | pydash/api/functions.py:83-92 | binding `a` and then `b` with `partial_right` is the same as binding `b ++ a` at once |
| `Binding.PartialBothSides` | pydash/api/functions.py:83-92 | `partial_right(partial(func, *a), *b)` runs `func` on `a ++ args ++ b` |
| `Currying.Merged` | pydash/api/functions.py:47-48 | the accumulated positional arguments come first, followed by the call's; the keyword names are the union of both; a name bound before keeps its earlier value; a new name takes the call's value |
| `Currying.Call` | pydash/api/functions.py:43-55 | the function runs on the merged arguments iff positional count plus distinct keyword count reaches the arity; otherwise the result is a new `Curry` with the same function and arity holding the merged arguments (the receiver, a value, is untouched) |
| `Currying.CurryFirstCall` | pydash/api/functions.py:181-187 | the first call of `curry(func, arity)` runs `func` on exactly its own arguments when they reach the arity, and otherwise holds exactly them |
| `Currying.CurryInStages` | pydash/api/functions.py:43-55 | a call that falls short, followed by a second call, gives what one call with all the positional arguments in order would give; keywords from the first call win over those from the second |
| `Currying.CurryOneAtATime` | pydash/api/functions.py:43-55 | a curry short of exactly m arguments, fed m positional arguments one per call, runs the function on the last call, on its own arguments followed by all m in order |
| `Currying.FeedPendingBeforeLast` | pydash/api/functions.py:43-55 | in that same feeding, every call before the last stays pending: after j < m of the arguments the result is a curry with the same function and arity holding its own arguments followed by those j |
| `Composition.CallComposed` | pydash/api/functions.py:159-178 | with no functions the call raises IndexError; otherwise it returns f1(f2(... fn(args) ...)), where the rightmost function receives the original arguments and each other function receives the previous result as its one argument |
| `Composition.ComposeNests` | pydash/api/functions.py:159-178 | composing `fs ++ gs` is composing `fs` after the composition of `gs` |
| `Composition.ComposeThree` | pydash/api/functions.py:159-163 | `compose(f, g, h)(args)` is `f(g(h(args)))` |
| `Throttling.Throttle.constructor` | pydash/api/functions.py:132-137 | the last execution is set `wait` milliseconds before the construction clock reading; no result yet |
| `Throttling.Throttle.Call` | pydash/api/functions.py:139-149 | the function runs iff at least `wait` milliseconds passed since the last execution; a run stores the result and moves the last execution to `present`; otherwise nothing changes; the call returns the last result |
| `Throttling.ThrottleFirstCallRuns` | pydash/api/functions.py:132-147 | if the clock has not gone back since construction, the first call runs the function |
| `Throttling.ThrottleReturnsLast` | pydash/api/functions.py:139-149 | a call that runs returns its own result; a call that does not returns what the previous call returned |
| `Throttling.LastExecutionSince` | pydash/api/functions.py:145-147 | with a clock that never goes back, after call i runs, the recorded last execution is never earlier than call i's time |
| `Throttling.ThrottleSpacing` | pydash/api/functions.py:139-149 | with a clock that never goes back, any two calls that run the function are at least `wait` milliseconds apart |
| `Throttling.ThrottleTimeline` | pydash/api/functions.py:132-149 | with wait 100 and construction at time 0, calls at 0, 50 and 150 run, skip while returning the first result, and run again |
| `Debouncing.MaxWaitElapsed` | pydash/api/functions.py:118-120 | the max-wait test is false when `max_wait` is falsy; it raises TypeError exactly when `max_wait` is truthy and is not a number or has no execution time; when it does not raise, it holds exactly when `max_wait` is a truthy number, an execution time is recorded and `present - last_execution >= max_wait` |
| `Debouncing.Debounce.constructor` | pydash/api/functions.py:98-109 | the last call is set `wait` before the first clock reading; the last execution is set `max_wait` before the second reading when `max_wait` is a number, and is None otherwise; no result yet |
| `Debouncing.Debounce.Call` | pydash/api/functions.py:111-126 | a TypeError from the max-wait test leaves all state unchanged. Otherwise the function runs iff `wait` passed since the last call or the max-wait test holds. A run stores the result and the execution time. The last call moves to `present` on every call that does not raise, and the call returns the last result. |
| `Debouncing.DebounceFirstCallRuns` | pydash/api/functions.py:105-122 | if the clock has not gone back since construction and `max_wait` is not a truthy non-number, the first call runs the function |
| `Debouncing.LastCallIsPrevious` | pydash/api/functions.py:124 | with `max_wait` falsy, the recorded last call after k calls is call k's time |
| `Debouncing.DebounceQuietPeriod` | pydash/api/functions.py:111-126 | with `max_wait` falsy, each call after the first runs the function iff at least `wait` milliseconds passed since the previous call, whether that call ran or not |
| `Debouncing.LastExecutionHeld` | pydash/api/functions.py:121-122 | until another call runs the function, the recorded last execution stays at the time of the call that last ran it |
| `Debouncing.DebounceMaxWait` | pydash/api/functions.py:118-122 | with a non-zero numeric `max_wait`, every call between one run and the next comes less than `max_wait` milliseconds after that run |
| `Debouncing.DebounceBrokenMaxWait` | pydash/api/functions.py:107-120 | with a truthy `max_wait` that is not a number, every call raises TypeError and the state never changes |

## Left out

- `delay` (pydash/api/functions.py:207-221) is a blocking sleep followed by a plain call, so there is no logic to model.
- The clock `now()` and the `is_number` predicate come from modules that are not part of this model. The clock is an integer argument. `is_number` is folded into the `MaxWait` datatype: `Number(ms)` where it holds, `NotNumber(truthy)` where it does not.
- The default arity computed with `inspect.getargspec` (line 38) is runtime reflection over Python signatures. Arity is always an explicit argument of `CurryOf`.
- Python's `int()` conversion in `After.__init__` is not modelled. `IntConversion` takes its outcome as input.
- Floating-point counts, waits and clock readings are not modelled. Every count and time is an integer.
- Python's `assert` at line 18 is treated as always executed. Under `python -O` it is stripped, and a negative count would be kept.
- The wrapped function is a total Dafny function. Its own exceptions and side effects are not modelled, and it returns the same value for the same arguments.
- Python's `None` returned by a skipped `After` call, and a result not yet set, are `Option.None`. A wrapped function that itself returns `None` is not confused with them.
- The factories `once`, `throttle` and `debounce` do nothing but construct; they are modelled by the class constructors. `curry` is `CurryOf`. The outer `compose` only captures its arguments; the wrapper it returns is `CallComposed`, which takes the captured sequence as a parameter. Each call of the wrapper reads the same captured sequence, so repeated calls with the same arguments give the same result.
- `Partial` and `Curry` are values, so the source's guarantee that a call never changes them, and that bound or accumulated arguments stay as they were, holds by construction.
- `Debouncing.MaxWaitElapsed` also makes a truthy non-number `max_wait` raise when an execution time is recorded, as comparing a number with a non-number does in Python 3. No sequence of calls reaches that state: the constructor records no execution for such a `max_wait`, and every call then raises before recording one.
- Concurrency is left out. The source has no locking, and the model is single-threaded.
