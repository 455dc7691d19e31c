# Handsontable function helpers, modelled in Dafny

This project models the function helpers of Handsontable
(`handsontable/helpers/function`) as their unit tests pin them down. The
implementation module is not part of this model; the behaviour modelled is
the behaviour `test/unit/helpers/Function.spec.js` asserts. The model covers two
families of helpers.

- **Timing controllers.** `throttle`, `throttleAfterHits` and `debounce`
  become deterministic state machines over a logical clock in integer
  milliseconds (`timing.dfy`, `throttle.dfy`, `throttle_after_hits.dfy`,
  `debounce.dfy`).
  - A run is a chronological sequence of events. `Call(t, args)` invokes the
    wrapper at time `t`. `Tick(t)` only lets the clock reach `t`.
  - Before a call is handled, every timer due at or before its time fires.
  - Each invocation of the wrapped target is recorded in a log as a `Fire`
    with its time, its arguments and why it happened. The reasons are a
    leading edge, a trailing timer, or a pass-through while a hit budget
    lasts.
- **Argument combinators.** `pipe`, `partial`, `curry` and `curryRight` become
  pure functions on argument sequences (`combinators.dfy`).
  - A JavaScript target is a total function on argument lists together with
    its declared parameter count, which stands in for `fn.length`.
  - `js_values.dfy` holds the few JavaScript values the tests use: integers,
    NaN, strings and `undefined`. It also holds the `+` operator, so the
    expected values `'3foo'`, `'foo21'` and `6` can be computed and proved.

`scenarios.dfy` replays every test of the suite for these helpers as lemmas.
The timing traces are proved for every `wait` in the range where the trace
keeps its shape; the tests' own 200 lies in that range.

Decisions where the tests fix a behaviour that a looser description of the
helpers would leave open or contradict:

- **Throttle: a trailing fire closes the window.** The next call after it is
  a leading call again. Restarting the window at the trailing fire's time
  instead would make the call at 400 in the `throttleAfterHits` test fall
  inside a window (trailing fire at 300). That would give 7 invocations where
  the test expects 8 (Function.spec.js:102).
- **throttleAfterHits: the hit budget is spent once and never refilled.**
  Refilling it each window would let the calls at 100 pass through, giving 7
  invocations where the test expects 6 (:93).
- **curryRight: each call's arguments are reversed, then appended** to those
  already collected. Prepending each new argument would give `'foo21'` for
  `curried(1)(2)('foo')`, which the test expects to be `'3foo'` (:224).

## Model

| member | source | states |
|---|---|---|
| Throttle.Call | test/unit/helpers/Function.spec.js:39-53 | outside a window a call fires the target at once with its own arguments and opens a window at its time; inside a window it fires nothing, leaves the log and window alone and makes the single trailing timer (due at the window's end) carry its arguments |
| Throttle.Advance | test/unit/helpers/Function.spec.js:56-67 | moving the clock fires a due trailing timer exactly once, with the latest arguments, and closes the window; otherwise only the clock moves |
| Throttle.LeadingBurst | test/unit/helpers/Function.spec.js:41-47 | a burst of calls at one instant outside a window fires exactly once, with the first call's arguments, and leaves one timer with the last call's arguments (none for a single call) |
| Throttle.QuietInsideWindow | test/unit/helpers/Function.spec.js:49-54 | any events that all fall inside the open window fire nothing and keep the window; the timer ends up carrying the last call's arguments |
| Throttle.CallKeepsValid | test/unit/helpers/Function.spec.js:36-70 | a call preserves the throttle invariant: ordered log, every fire right after a leading fire at least `wait` later, trailing fires exactly `wait` after their leading fire, a window open exactly after a leading fire |
| Throttle.RunKeepsValid | test/unit/helpers/Function.spec.js:36-70 | any chronological run of calls and ticks preserves the throttle invariant |
| Throttle.RunAppend | test/unit/helpers/Function.spec.js:41-67 | running two chronological pieces one after the other equals running their concatenation, so a trace can be split at its checkpoints |
| Throttle.OneFirePerWindow | test/unit/helpers/Function.spec.js:41-69 | in every reachable log nothing fires within `wait` after a leading fire, and trailing fires are at least `wait` apart: at most one trailing fire per window |
| ThrottleAfterHits.Call | test/unit/helpers/Function.spec.js:79-87 | while budget remains a call fires at once with its own arguments and spends one hit; once the budget is spent the call is exactly a call of the inner throttle |
| ThrottleAfterHits.RunKeepsValid | test/unit/helpers/Function.spec.js:79-107 | the budget never grows, the pass-through count equals the hits spent, and the inner throttle is untouched while budget remains |
| ThrottleAfterHits.Advance | test/unit/helpers/Function.spec.js:96-108 | moving the clock passes nothing through and spends no hit; the only fire it can add is the inner throttle's due trailing timer |
| ThrottleAfterHits.WithinBudget | test/unit/helpers/Function.spec.js:81-87 | up to `hits` calls all pass straight through, one fire per call with its own arguments, and the budget shrinks by one per call |
| ThrottleAfterHits.BurstWithinBudget | test/unit/helpers/Function.spec.js:81-87 | a burst within the budget appends one pass-through fire per call and only moves the inner throttle's clock |
| ThrottleAfterHits.SpentIsThrottle | test/unit/helpers/Function.spec.js:89-108 | once the budget is spent the wrapper behaves exactly as a plain throttle on every run; no hit is ever given back |
| Debounce.Call | test/unit/helpers/Function.spec.js:118-126 | a call never fires the target itself; it replaces whatever was pending by one timer due `wait` later with its own arguments |
| Debounce.RunKeepsValid | test/unit/helpers/Function.spec.js:115-148 | on every run consecutive fires are at least `wait` apart and the pending timer lies within `wait` of the clock |
| Debounce.BurstHasNoPause | test/unit/helpers/Function.spec.js:120-124 | calls made at the same instant contain no pause when `wait` is positive |
| Debounce.Advance | test/unit/helpers/Function.spec.js:135-147 | moving the clock fires the pending timer exactly once it is due, at its due time and with the arguments of the call that armed it, and clears it; otherwise nothing fires |
| Debounce.FiresOncePerPause | test/unit/helpers/Function.spec.js:120-142 | a stream of calls produces exactly the reference log: one trailing fire per gap of at least `wait`, `wait` after the call before the gap and with that call's arguments; afterwards one timer holds the last call's arguments, due `wait` after it |
| Debounce.SettledBurstFires | test/unit/helpers/Function.spec.js:136-147 | once the clock is `wait` past the last call, exactly one more fire happens, with that call's arguments |
| Scenarios.ThrottleScenario | test/unit/helpers/Function.spec.js:39-69 | the throttle trace gives 1, 1, 3 and 4 invocations at its checkpoints, step by step from the initial state |
| Scenarios.ThrottleWholeTrace | test/unit/helpers/Function.spec.js:39-69 | the whole throttle trace, run in one go from the initial state and settled at 900, gives the same four invocations as the step-by-step trace |
| Scenarios.ThrottleAfterHitsScenario | test/unit/helpers/Function.spec.js:79-108 | the throttleAfterHits trace gives 5, 6, 8 and 9 invocations at its checkpoints |
| Scenarios.DebounceScenario | test/unit/helpers/Function.spec.js:118-147 | the debounce trace gives 0, 0, 1 and 2 invocations, each fire carrying the last arguments before a pause |
| Scenarios.TestTracesHold | test/unit/helpers/Function.spec.js:39-69 | with the tests' `wait` of 200 the throttle fires at 0, 200, 400 and 600 and the debounce at 300 and 600 |
| Combinators.Pipe | test/unit/helpers/Function.spec.js:163-171 | the first stage receives all arguments, every later stage receives only the previous stage's result, and the pipe returns the last stage's result |
| Combinators.PipeAppend | test/unit/helpers/Function.spec.js:163-165 | piping `fs + gs` is piping `gs` after the result of piping `fs` |
| Scenarios.PipeScenario | test/unit/helpers/Function.spec.js:158-171 | four incrementers called with `(1, 2, 'foo')` receive `(1, 2, 'foo')`, `2`, `3`, `4` and the pipe returns 5 |
| Combinators.Partial | test/unit/helpers/Function.spec.js:184-186 | a partial application calls the target with the fixed arguments followed by the call's own arguments |
| Combinators.PartialNothingFixed | test/unit/helpers/Function.spec.js:188-190 | with nothing fixed the call is forwarded unchanged |
| Combinators.PartialTwice | test/unit/helpers/Function.spec.js:184-192 | fixing `a` and then `b` is fixing `a + b` |
| Combinators.PartialSurplusIgnored | test/unit/helpers/Function.spec.js:192-194 | when the fixed arguments fill the target's parameters, the call's own arguments are ignored by a target that reads only its parameters |
| Scenarios.PartialScenario | test/unit/helpers/Function.spec.js:182-194 | `partial(f, 1, 2)('foo')` and `partial(f)(1, 2, 'foo')` give `'3foo'`, `partial(f, 1, 2, 3)('foo')` gives 6 |
| Combinators.CurryChain | test/unit/helpers/Function.spec.js:203-225 | a curried chain keeps collecting while fewer arguments than the arity are collected, calls the target exactly when the arity is first reached and with all collected arguments, and rejects any further call |
| Combinators.CurryCollectsInOrder | test/unit/helpers/Function.spec.js:202-209 | `curry` collects the calls' arguments left to right, in the order given |
| Combinators.CurryGroupingIrrelevant | test/unit/helpers/Function.spec.js:207-208 | two groupings of the same arguments that reach the arity only at their last call give the same result |
| Scenarios.CurryScenario | test/unit/helpers/Function.spec.js:203-209 | `(1, 2, 'foo')` and `(1)(2)('foo')` give `'3foo'`, `(1, 2)(3)` gives 6 |
| Combinators.Reverse | test/unit/helpers/Function.spec.js:222-225 | the reversal `curryRight` applies to each call's arguments puts the `i`-th argument from the end at position `i` |
| Combinators.CurryRightOneCall | test/unit/helpers/Function.spec.js:222-223 | in a single call `curryRight` passes the arguments to the target reversed |
| Combinators.CurryRightOneAtATime | test/unit/helpers/Function.spec.js:224 | with one argument per call `curryRight` collects exactly as `curry` does |
| Scenarios.CurryRightOneCallScenario | test/unit/helpers/Function.spec.js:222-223 | `('foo', 2, 1)` gives `'3foo'` and `(1, 2, 'foo')` gives `'foo21'` |
| Scenarios.CurryRightSingletonsScenario | test/unit/helpers/Function.spec.js:224 | `(1)(2)('foo')` gives `'3foo'` |
| Scenarios.CurryRightPairScenario | test/unit/helpers/Function.spec.js:225 | `(1, 2)(3)` collects `2, 1, 3`, the order that tells `curryRight` from `curry`, and gives 6 |
| Scenarios.Sum3IgnoresSurplus | test/unit/helpers/Function.spec.js:182 | the target `(a, b, c) => (a + b) + c` ignores arguments beyond its three parameters |
| JsValues.Plus | test/unit/helpers/Function.spec.js:158-161 | `+` concatenates the string forms as soon as one side is a string, adds two numbers, and gives NaN otherwise |
| JsValues.DecimalRoundTrip | test/unit/helpers/Function.spec.js:186 | the decimal numeral written for a non-negative number reads back as that number |
| JsValues.IntDecimalRoundTrip | test/unit/helpers/Function.spec.js:186 | the numeral `+` writes for any integer, with a minus sign for a negative one, reads back as that integer |

## Left out

- `proxy` (Function.spec.js:17-30): it binds `this` and boxes primitives (`valueOf`), which have no counterpart here.
- `isFunction` (:232-257): it reflects on the runtime type of arbitrary JavaScript values.
- Real timers, `setTimeout` and the event loop: a logical clock and an explicit event sequence replace them. A timer that the event loop would run at its due time is recorded at that time when the clock first reaches it.
- The `this` context a wrapper forwards to its target, and the spies that count invocations: the target is pure and its invocations are the log.
- `fn.length` reflection: the arity is given explicitly with the target.
- Floating-point numbers: values are integers, NaN, strings and `undefined`, which is all the tests use.
- Combinators.Pipe: requires at least one function; a pipe of no functions is not asserted anywhere.
- Combinators.CurryChain: a call that brings more arguments than the arity passes all of them to the target; no test asserts this case.
- Throttle.LeadingBurst: stated for a positive `wait` only; with `wait` 0 every call of a burst would be a leading one.
- Throttle.Call: with `wait` 0 the window a call opens ends at that same instant, so each synchronous call of a burst fires as a leading call. In JavaScript a zero-delay timer runs only after the synchronous calls. Calls made at one instant are modelled faithfully only for a positive `wait`, which is what the tests use.
- Debounce.Call: with `wait` 0 a call at the same instant as the previous one first fires the previous call's timer. In JavaScript that timer would be cancelled before it could run, so nothing would fire yet. Calls made at one instant are modelled faithfully only for a positive `wait`, which is what the tests use.
- Throttle.QuietInsideWindow: stated for events inside an already open window; the timing of calls across several windows is covered by Throttle.RunKeepsValid and Throttle.OneFirePerWindow instead.
