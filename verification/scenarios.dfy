/**
 The helpers' expected behaviour on the concrete scenarios of the function
 helper test suite, proved of the model. Calls are numbered 1, 2, 3, ... and
 the call's number is passed as its argument list, so each fire shows which
 call's arguments it used.
 */
module Scenarios {
  import opened Timing
  import Throttle
  import Debounce
  import ThrottleAfterHits
  import opened JsValues
  import opened Combinators

  // ---------------------------------------------------------------- timing

  // Each controller is driven through the trace of the tests: five calls at
  // 0, two at 100, four at 400, then the clock reaches 900. The tests use a
  // `wait` of 200; the lemmas prove the same outcome for every `wait` in the
  // range where the trace keeps its shape. The expected state after each step
  // is written out in full, and each step is proved to lead from one to the
  // next.

  function ThrottleAt0(wait: nat): Throttle.State<int> {
    Throttle.State(wait, 0, Some(0), Some(Timer(wait, 5)), [Fire(0, 1, Leading)])
  }

  function ThrottleAt100(wait: nat): Throttle.State<int> {
    Throttle.State(wait, 100, Some(0), Some(Timer(wait, 7)), [Fire(0, 1, Leading)])
  }

  function ThrottleAt400(wait: nat): Throttle.State<int> {
    Throttle.State(wait, 400, Some(400), Some(Timer(400 + wait, 11)),
                   [Fire(0, 1, Leading), Fire(wait, 7, Trailing), Fire(400, 8, Leading)])
  }

  function ThrottleAt900(wait: nat): Throttle.State<int> {
    Throttle.State(wait, 900, None, None,
                   [Fire(0, 1, Leading), Fire(wait, 7, Trailing), Fire(400, 8, Leading), Fire(400 + wait, 11, Trailing)])
  }

  /** `throttle(spy, wait)`: the first call at 0 fires at once and opens a
      window; the fifth call's arguments wait in the trailing timer. */
  lemma ThrottleBurstAtZero(wait: nat)
    requires wait > 0
    ensures Throttle.Run(Throttle.Init(wait, 0), Calls(0, [1, 2, 3, 4, 5])) == ThrottleAt0(wait)
  {
    var s0 := Throttle.Init<int>(wait, 0);
    Throttle.LeadingBurst(s0, 0, [1, 2, 3, 4, 5]);
    assert Throttle.Advance(s0, 0).log == [];
  }

  /** The calls at 100 fall inside that window: nothing fires, the timer now
      carries the seventh call's arguments. */
  lemma ThrottleQuietAtHundred(wait: nat)
    requires wait > 100
    ensures Throttle.Run(ThrottleAt0(wait), Calls(100, [6, 7])) == ThrottleAt100(wait)
  {
    Throttle.QuietInsideWindow(ThrottleAt0(wait), Calls(100, [6, 7]));
    LatestArgsOfCalls(100, [6, 7]);
  }

  /** At 400 the timer has fired (at `wait`, with the seventh call's
      arguments) and closed the window, so the eighth call fires at once and
      opens a new one; the eleventh call's arguments wait in the timer. */
  lemma ThrottleBurstAtFourHundred(wait: nat)
    requires 100 < wait <= 400
    ensures Throttle.Run(ThrottleAt100(wait), Calls(400, [8, 9, 10, 11])) == ThrottleAt400(wait)
  {
    var s := ThrottleAt100(wait);
    Throttle.LeadingBurst(s, 400, [8, 9, 10, 11]);
    assert Throttle.Advance(s, 400).log == [Fire(0, 1, Leading), Fire(wait, 7, Trailing)];
  }

  /** By 900 the eleventh call's timer has fired. */
  lemma ThrottleSettles(wait: nat)
    requires wait <= 500
    ensures Throttle.Advance(ThrottleAt400(wait), 900) == ThrottleAt900(wait)
  {
    assert Throttle.Due(ThrottleAt400(wait), 900);
  }

  /** The `throttle` trace, step by step: one, one, three and finally four
      invocations. */
  lemma ThrottleScenario(wait: nat)
    requires 100 < wait <= 400
    ensures |ThrottleAt0(wait).log| == 1 && |ThrottleAt100(wait).log| == 1
    ensures |ThrottleAt400(wait).log| == 3 && |ThrottleAt900(wait).log| == 4
    ensures Throttle.Advance(ThrottleAt400(wait), 900) == ThrottleAt900(wait)
    ensures Throttle.Run(Throttle.Init(wait, 0), Calls(0, [1, 2, 3, 4, 5])) == ThrottleAt0(wait)
    ensures Throttle.Run(ThrottleAt0(wait), Calls(100, [6, 7])) == ThrottleAt100(wait)
    ensures Throttle.Run(ThrottleAt100(wait), Calls(400, [8, 9, 10, 11])) == ThrottleAt400(wait)
  {
    ThrottleBurstAtZero(wait);
    ThrottleQuietAtHundred(wait);
    ThrottleBurstAtFourHundred(wait);
    ThrottleSettles(wait);
  }

  /** The five pass-through invocations of the trace. */
  function FivePassThroughs(): seq<Fire<int>> {
    [Fire(0, 1, PassThrough), Fire(0, 2, PassThrough), Fire(0, 3, PassThrough),
     Fire(0, 4, PassThrough), Fire(0, 5, PassThrough)]
  }

  function HitsAt0(wait: nat): ThrottleAfterHits.State<int> {
    ThrottleAfterHits.State(5, 0, FivePassThroughs(), Throttle.State(wait, 0, None, None, []))
  }

  function HitsAt100(wait: nat): ThrottleAfterHits.State<int> {
    ThrottleAfterHits.State(5, 0, FivePassThroughs(),
      Throttle.State(wait, 100, Some(100), Some(Timer(100 + wait, 7)), [Fire(100, 6, Leading)]))
  }

  function HitsAt400(wait: nat): ThrottleAfterHits.State<int> {
    ThrottleAfterHits.State(5, 0, FivePassThroughs(),
      Throttle.State(wait, 400, Some(400), Some(Timer(400 + wait, 11)),
                     [Fire(100, 6, Leading), Fire(100 + wait, 7, Trailing), Fire(400, 8, Leading)]))
  }

  function HitsAt900(wait: nat): ThrottleAfterHits.State<int> {
    ThrottleAfterHits.State(5, 0, FivePassThroughs(),
      Throttle.State(wait, 900, None, None,
                     [Fire(100, 6, Leading), Fire(100 + wait, 7, Trailing), Fire(400, 8, Leading),
                      Fire(400 + wait, 11, Trailing)]))
  }

  lemma FirstBurstPassesThrough()
    ensures ThrottleAfterHits.PassThroughs(Calls(0, [1, 2, 3, 4, 5])) == FivePassThroughs()
  {
    var b := Calls(0, [1, 2, 3, 4, 5]);
    var p := ThrottleAfterHits.PassThroughs(b);
    var q := FivePassThroughs();
    assert |p| == |q|;
    forall i | 0 <= i < 5 ensures p[i] == q[i] {
      assert b[i] == Call(0, [1, 2, 3, 4, 5][i]);
    }
  }

  /** `throttleAfterHits(spy, wait, 5)`: the five calls at 0 all pass through
      and leave the inner throttle untouched. */
  lemma AfterHitsBudgetAtZero(wait: nat)
    ensures ThrottleAfterHits.Run(ThrottleAfterHits.Init(wait, 5, 0), Calls(0, [1, 2, 3, 4, 5])) == HitsAt0(wait)
  {
    var s0 := ThrottleAfterHits.Init<int>(wait, 5, 0);
    ThrottleAfterHits.BurstWithinBudget(s0, 0, [1, 2, 3, 4, 5]);
    FirstBurstPassesThrough();
    assert [] + FivePassThroughs() == FivePassThroughs();
  }

  /** With the budget spent, the calls at 100 are throttled: the sixth fires at
      once and opens a window, the seventh's arguments wait in the timer. */
  lemma AfterHitsSpentAtHundred(wait: nat)
    requires wait > 0
    ensures ThrottleAfterHits.Run(HitsAt0(wait), Calls(100, [6, 7])) == HitsAt100(wait)
  {
    var s := HitsAt0(wait);
    ThrottleAfterHits.SpentIsThrottle(s, Calls(100, [6, 7]));
    Throttle.LeadingBurst(s.throttle, 100, [6, 7]);
  }

  /** At 400 the seventh call's timer has fired, `wait` after the window
      opened; the eighth call opens a new window, the eleventh is left pending. */
  lemma AfterHitsSpentAtFourHundred(wait: nat)
    requires 0 < wait <= 300
    ensures ThrottleAfterHits.Run(HitsAt100(wait), Calls(400, [8, 9, 10, 11])) == HitsAt400(wait)
  {
    var s := HitsAt100(wait);
    ThrottleAfterHits.SpentIsThrottle(s, Calls(400, [8, 9, 10, 11]));
    Throttle.LeadingBurst(s.throttle, 400, [8, 9, 10, 11]);
    assert Throttle.Advance(s.throttle, 400).log == [Fire(100, 6, Leading), Fire(100 + wait, 7, Trailing)];
  }

  /** By 900 the eleventh call's timer has fired. */
  lemma AfterHitsSettles(wait: nat)
    requires wait <= 500
    ensures ThrottleAfterHits.Advance(HitsAt400(wait), 900) == HitsAt900(wait)
  {
    assert Throttle.Due(HitsAt400(wait).throttle, 900);
  }

  /** The whole `throttle` trace run in one go from the initial state ends
      with the four invocations of the step-by-step trace. */
  lemma ThrottleWholeTrace(wait: nat)
    requires 100 < wait <= 400
    ensures
      var trace := Calls(0, [1, 2, 3, 4, 5]) + Calls(100, [6, 7]) + Calls(400, [8, 9, 10, 11]);
      && Chronological(0, trace)
      && Throttle.Advance(Throttle.Run(Throttle.Init(wait, 0), trace), 900) == ThrottleAt900(wait)
      && |Throttle.Advance(Throttle.Run(Throttle.Init(wait, 0), trace), 900).log| == 4
  {
    var s0 := Throttle.Init<int>(wait, 0);
    var a, b, c := Calls(0, [1, 2, 3, 4, 5]), Calls(100, [6, 7]), Calls(400, [8, 9, 10, 11]);
    ChronologicalAppend(0, a, b);
    Throttle.RunAppend(s0, a, b);
    Throttle.RunAppend(s0, a + b, c);
    ThrottleScenario(wait);
  }

  /** The `throttleAfterHits` trace, step by step: five, six, eight and
      finally nine invocations. */
  lemma ThrottleAfterHitsScenario(wait: nat)
    requires 0 < wait <= 300
    ensures |ThrottleAfterHits.Fires(HitsAt0(wait))| == 5 && |ThrottleAfterHits.Fires(HitsAt100(wait))| == 6
    ensures |ThrottleAfterHits.Fires(HitsAt400(wait))| == 8 && |ThrottleAfterHits.Fires(HitsAt900(wait))| == 9
    ensures ThrottleAfterHits.Advance(HitsAt400(wait), 900) == HitsAt900(wait)
    ensures ThrottleAfterHits.Run(ThrottleAfterHits.Init(wait, 5, 0), Calls(0, [1, 2, 3, 4, 5])) == HitsAt0(wait)
    ensures ThrottleAfterHits.Run(HitsAt0(wait), Calls(100, [6, 7])) == HitsAt100(wait)
    ensures ThrottleAfterHits.Run(HitsAt100(wait), Calls(400, [8, 9, 10, 11])) == HitsAt400(wait)
  {
    AfterHitsBudgetAtZero(wait);
    AfterHitsSpentAtHundred(wait);
    AfterHitsSpentAtFourHundred(wait);
    AfterHitsSettles(wait);
  }

  function DebounceAt0(wait: nat): Debounce.State<int> {
    Debounce.State(wait, 0, Some(Timer(wait, 5)), [])
  }

  function DebounceAt100(wait: nat): Debounce.State<int> {
    Debounce.State(wait, 100, Some(Timer(100 + wait, 7)), [])
  }

  function DebounceAt400(wait: nat): Debounce.State<int> {
    Debounce.State(wait, 400, Some(Timer(400 + wait, 11)), [Fire(100 + wait, 7, Trailing)])
  }

  function DebounceAt900(wait: nat): Debounce.State<int> {
    Debounce.State(wait, 900, None, [Fire(100 + wait, 7, Trailing), Fire(400 + wait, 11, Trailing)])
  }

  /** `debounce(spy, wait)`: the calls at 0 fire nothing and leave the fifth
      call's timer pending. */
  lemma DebounceBurstAtZero(wait: nat)
    requires wait > 0
    ensures Debounce.Run(Debounce.Init(wait, 0), Calls(0, [1, 2, 3, 4, 5])) == DebounceAt0(wait)
  {
    var s0 := Debounce.Init<int>(wait, 0);
    Debounce.FiresOncePerPause(s0, Calls(0, [1, 2, 3, 4, 5]));
    Debounce.BurstHasNoPause(wait, 0, [1, 2, 3, 4, 5]);
  }

  /** The calls at 100 cancel that timer before it is due: still nothing has
      fired, and the seventh call's timer is pending. */
  lemma DebounceBurstAtHundred(wait: nat)
    requires wait > 100
    ensures Debounce.Run(DebounceAt0(wait), Calls(100, [6, 7])) == DebounceAt100(wait)
  {
    Debounce.FiresOncePerPause(DebounceAt0(wait), Calls(100, [6, 7]));
    Debounce.BurstHasNoPause(wait, 100, [6, 7]);
  }

  /** The first call at 400 finds the seventh call's timer due; the other
      calls leave the eleventh call's timer pending. */
  lemma DebounceBurstAtFourHundred(wait: nat)
    requires 0 < wait <= 300
    ensures Debounce.Run(DebounceAt100(wait), Calls(400, [8, 9, 10, 11])) == DebounceAt400(wait)
  {
    var s := DebounceAt100(wait);
    var b := Calls(400, [8, 9, 10, 11]);
    var c := Debounce.Call(s, 400, 8);
    assert c.log == [Fire(100 + wait, 7, Trailing)];
    assert Debounce.Run(s, b) == Debounce.Run(c, b[1..]);
    assert b[1..] == Calls(400, [9, 10, 11]);
    Debounce.FiresOncePerPause(c, b[1..]);
    Debounce.BurstHasNoPause(wait, 400, [9, 10, 11]);
  }

  /** By 900 the eleventh call's timer has fired. */
  lemma DebounceSettles(wait: nat)
    requires wait <= 500
    ensures Debounce.Advance(DebounceAt400(wait), 900) == DebounceAt900(wait)
  {
    assert Debounce.Due(DebounceAt400(wait), 900);
  }

  /** The `debounce` trace, step by step: nothing, nothing, one and finally
      two invocations, each with the arguments of the last call before a
      pause. */
  lemma DebounceScenario(wait: nat)
    requires 100 < wait <= 300
    ensures |DebounceAt0(wait).log| == 0 && |DebounceAt100(wait).log| == 0
    ensures |DebounceAt400(wait).log| == 1 && |DebounceAt900(wait).log| == 2
    ensures Debounce.Advance(DebounceAt400(wait), 900) == DebounceAt900(wait)
    ensures Debounce.Run(Debounce.Init(wait, 0), Calls(0, [1, 2, 3, 4, 5])) == DebounceAt0(wait)
    ensures Debounce.Run(DebounceAt0(wait), Calls(100, [6, 7])) == DebounceAt100(wait)
    ensures Debounce.Run(DebounceAt100(wait), Calls(400, [8, 9, 10, 11])) == DebounceAt400(wait)
  {
    DebounceBurstAtZero(wait);
    DebounceBurstAtHundred(wait);
    DebounceBurstAtFourHundred(wait);
    DebounceSettles(wait);
  }

  /** The tests' own `wait` of 200 lies in every range above. */
  lemma TestTracesHold()
    ensures Throttle.Advance(Throttle.Run(ThrottleAt100(200), Calls(400, [8, 9, 10, 11])), 900).log ==
      [Fire(0, 1, Leading), Fire(200, 7, Trailing), Fire(400, 8, Leading), Fire(600, 11, Trailing)]
    ensures Debounce.Advance(Debounce.Run(DebounceAt100(200), Calls(400, [8, 9, 10, 11])), 900).log ==
      [Fire(300, 7, Trailing), Fire(600, 11, Trailing)]
  {
    ThrottleScenario(200);
    DebounceScenario(200);
  }

  // ---------------------------------------------------------------- combinators

  /** The test targets: `(a) => a + 1` and `(a, b, c) => (a + b) + c`. */
  function Inc(): Fn {
    Fn(1, args => Plus(Arg(args, 0), Num(1)))
  }

  function Sum3(): Fn {
    Fn(3, args => Plus(Plus(Arg(args, 0), Arg(args, 1)), Arg(args, 2)))
  }

  /** The sum target reads its three parameters and nothing else. */
  lemma Sum3IgnoresSurplus()
    ensures IgnoresSurplus(Sum3())
  {
    forall args: seq<Value>, extra: seq<Value> | |args| >= 3
      ensures Apply(Sum3(), args + extra) == Apply(Sum3(), args)
    {
      assert (args + extra)[0] == args[0] && (args + extra)[1] == args[1] && (args + extra)[2] == args[2];
    }
  }

  lemma ThreeFoo()
    ensures Plus(Plus(Num(1), Num(2)), Str("foo")) == Str("3foo")
  {
    assert NatToDecimal(3) == "3";
  }

  /** `pipe` of four incrementers called with `(1, 2, 'foo')`. */
  lemma PipeScenario()
    ensures
      var r := Pipe([Inc(), Inc(), Inc(), Inc()], [Num(1), Num(2), Str("foo")]);
      && r.inputs == [[Num(1), Num(2), Str("foo")], [Num(2)], [Num(3)], [Num(4)]]
      && r.result == Num(5)
  {
  }

  lemma PartialScenario()
    ensures Apply(Partial(Sum3(), [Num(1), Num(2)]), [Str("foo")]) == Str("3foo")
    ensures Apply(Partial(Sum3(), []), [Num(1), Num(2), Str("foo")]) == Str("3foo")
    ensures Apply(Partial(Sum3(), [Num(1), Num(2), Num(3)]), [Str("foo")]) == Num(6)
  {
    ThreeFoo();
    assert [Num(1), Num(2)] + [Str("foo")] == [Num(1), Num(2), Str("foo")];
    assert [] + [Num(1), Num(2), Str("foo")] == [Num(1), Num(2), Str("foo")];
    // the fixed arguments fill the target's three parameters, so 'foo' is surplus
    Sum3IgnoresSurplus();
    PartialSurplusIgnored(Sum3(), [Num(1), Num(2), Num(3)], [Str("foo")]);
  }

  lemma CurryScenario()
    ensures Curry(Sum3(), [[Num(1), Num(2), Str("foo")]]) == Returned(Str("3foo"))
    ensures Curry(Sum3(), [[Num(1)], [Num(2)], [Str("foo")]]) == Returned(Str("3foo"))
    ensures Curry(Sum3(), [[Num(1), Num(2)], [Num(3)]]) == Returned(Num(6))
  {
    ThreeFoo();
    CurryCollectsInOrder([[Num(1), Num(2), Str("foo")]]);
    CurryCollectsInOrder([[Num(1)], [Num(2)], [Str("foo")]]);
    CurryCollectsInOrder([[Num(1)], [Num(2)]]);
    CurryCollectsInOrder([[Num(1), Num(2)], [Num(3)]]);
    CurryCollectsInOrder([[Num(1), Num(2)]]);
  }

  /** `curryRight(sum)('foo', 2, 1)`: one call, arguments reversed. */
  lemma CurryRightOneCallScenario()
    ensures CurryRight(Sum3(), [[Str("foo"), Num(2), Num(1)]]) == Returned(Str("3foo"))
    ensures CurryRight(Sum3(), [[Num(1), Num(2), Str("foo")]]) == Returned(Str("foo21"))
  {
    ThreeFoo();
    assert NatToDecimal(2) == "2" && NatToDecimal(1) == "1";
    CurryRightOneCall(Sum3(), [Str("foo"), Num(2), Num(1)]);
    CurryRightOneCall(Sum3(), [Num(1), Num(2), Str("foo")]);
    assert Reverse([Str("foo"), Num(2), Num(1)]) == [Num(1), Num(2), Str("foo")];
    assert Reverse([Num(1), Num(2), Str("foo")]) == [Str("foo"), Num(2), Num(1)];
  }

  /** `curryRight(sum)(1)(2)('foo')`: one argument per call, collected in order. */
  lemma CurryRightSingletonsScenario()
    ensures CurryRight(Sum3(), [[Num(1)], [Num(2)], [Str("foo")]]) == Returned(Str("3foo"))
  {
    ThreeFoo();
    var b := [[Num(1)], [Num(2)], [Str("foo")]];
    assert Front(b) == [[Num(1)], [Num(2)]];
    CurryRightOneAtATime(b);
    CurryRightOneAtATime(Front(b));
    CurryCollectsInOrder(b);
    CurryCollectsInOrder(Front(b));
  }

  /** `curryRight(sum)(1, 2)(3)`: each call's arguments reversed, then appended. */
  lemma CurryRightPairScenario()
    ensures Accumulated(RightToLeft, [[Num(1), Num(2)], [Num(3)]]) == [Num(2), Num(1), Num(3)]
    ensures CurryRight(Sum3(), [[Num(1), Num(2)], [Num(3)]]) == Returned(Num(6))
  {
    var c := [[Num(1), Num(2)], [Num(3)]];
    assert Front(c) == [[Num(1), Num(2)]];
    assert Reverse([Num(1), Num(2)]) == [Num(2), Num(1)];
    assert Reverse([Num(3)]) == [Num(3)];
    assert Accumulated(RightToLeft, Front(c)) == [Num(2), Num(1)];
    assert Accumulated(RightToLeft, c) == [Num(2), Num(1), Num(3)];
  }
}
