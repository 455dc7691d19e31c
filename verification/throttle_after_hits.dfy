/**
 `throttleAfterHits(target, wait, hits)`: the first `hits` calls go straight
 through to the target. The budget is spent once and never refilled; every
 later call is handed to a plain throttle over the same target and window.
 */
module ThrottleAfterHits {
  import opened Timing
  import Throttle

  /** `passed` records the pass-through invocations; the inner throttle
      records the rest. */
  datatype State<A> = State(hits: nat, remaining: nat, passed: seq<Fire<A>>, throttle: Throttle.State<A>)

  /** Every invocation of the target so far, in order. */
  function Fires<A>(s: State<A>): seq<Fire<A>> {
    s.passed + s.throttle.log
  }

  function Clock<A>(s: State<A>): int {
    s.throttle.clock
  }

  predicate Valid<A>(s: State<A>) {
    && Throttle.Valid(s.throttle)
    && s.remaining <= s.hits
    && |s.passed| == s.hits - s.remaining
    && (forall i :: 0 <= i < |s.passed| ==> s.passed[i].edge == PassThrough && s.passed[i].at <= s.throttle.clock)
    && Untouched(s)
  }

  /** While budget remains the inner throttle has never been used. */
  predicate Untouched<A>(s: State<A>) {
    s.remaining > 0 ==> s.throttle.log == [] && s.throttle.window.None? && s.throttle.timer.None?
  }

  function Init<A>(wait: nat, hits: nat, start: int): (s: State<A>)
    ensures Valid(s) && Fires(s) == [] && s.remaining == hits && Clock(s) == start
  {
    State(hits, hits, [], Throttle.Init(wait, start))
  }

  /** Moving the clock passes nothing through and spends no hit: only the
      inner throttle's trailing timer can fire, and only once it is due. */
  function Advance<A>(s: State<A>, t: int): (r: State<A>)
    requires Clock(s) <= t
    ensures Clock(r) == t && r.remaining == s.remaining && r.passed == s.passed
    ensures r.throttle == Throttle.Advance(s.throttle, t)
    ensures Untouched(s) ==> Untouched(r)
    ensures Throttle.Due(s.throttle, t) ==>
      Fires(r) == Fires(s) + [Fire(s.throttle.timer.value.due, s.throttle.timer.value.args, Trailing)]
    ensures !Throttle.Due(s.throttle, t) ==> Fires(r) == Fires(s)
  {
    s.(throttle := Throttle.Advance(s.throttle, t))
  }

  /** While budget remains, a call fires at once and spends one hit; once it is
      spent, the call is exactly a call of the inner throttle. */
  function Call<A>(s: State<A>, t: int, args: A): (r: State<A>)
    requires Clock(s) <= t
    ensures Clock(r) == t && r.hits == s.hits && r.remaining <= s.remaining
    ensures IsPrefix(s.passed, r.passed) && IsPrefix(s.throttle.log, r.throttle.log)
    ensures Untouched(s) ==> Untouched(r)
    ensures Untouched(s) && s.remaining > 0 ==>
      && Fires(r) == Fires(s) + [Fire(t, args, PassThrough)]
      && r.remaining == s.remaining - 1
    ensures s.remaining == 0 ==>
      && r.throttle == Throttle.Call(s.throttle, t, args)
      && r.passed == s.passed && r.remaining == 0
  {
    if s.remaining > 0 then
      s.(remaining := s.remaining - 1,
         passed := s.passed + [Fire(t, args, PassThrough)],
         throttle := Throttle.Advance(s.throttle, t))
    else
      s.(throttle := Throttle.Call(s.throttle, t, args))
  }

  function Step<A>(s: State<A>, e: Event<A>): (r: State<A>)
    requires Clock(s) <= e.t
    ensures Clock(r) == e.t && r.hits == s.hits && r.remaining <= s.remaining
    ensures Untouched(s) ==> Untouched(r)
  {
    match e
    case Call(t, args) => Call(s, t, args)
    case Tick(t) => Advance(s, t)
  }

  function Run<A>(s: State<A>, evs: seq<Event<A>>): (r: State<A>)
    requires Chronological(Clock(s), evs)
    ensures Clock(r) == EndTime(Clock(s), evs) && r.hits == s.hits
    ensures r.remaining <= s.remaining
    decreases |evs|
  {
    if evs == [] then s else Run(Step(s, evs[0]), evs[1..])
  }

  lemma StepKeepsValid<A>(s: State<A>, e: Event<A>)
    requires Valid(s) && Clock(s) <= e.t
    ensures Valid(Step(s, e))
  {
    match e {
      case Call(t, args) =>
        if s.remaining == 0 {
          Throttle.CallKeepsValid(s.throttle, t, args);
        } else {
          Throttle.AdvanceKeepsValid(s.throttle, t);
        }
      case Tick(t) => Throttle.AdvanceKeepsValid(s.throttle, t);
    }
  }

  lemma {:induction false} RunKeepsValid<A>(s: State<A>, evs: seq<Event<A>>)
    requires Valid(s) && Chronological(Clock(s), evs)
    ensures Valid(Run(s, evs))
    decreases |evs|
  {
    if evs != [] {
      StepKeepsValid(s, evs[0]);
      RunKeepsValid(Step(s, evs[0]), evs[1..]);
    }
  }

  /** The pass-through fires of a stream of calls. */
  function PassThroughs<A>(evs: seq<Event<A>>): (fs: seq<Fire<A>>)
    requires OnlyCalls(evs)
    ensures |fs| == |evs|
    ensures forall i :: 0 <= i < |evs| ==> fs[i] == Fire(evs[i].t, evs[i].args, PassThrough)
  {
    if evs == [] then [] else [Fire(evs[0].t, evs[0].args, PassThrough)] + PassThroughs(evs[1..])
  }

  /** Within the budget every call fires at once with its own arguments, and
      the budget shrinks by one per call. */
  lemma WithinBudget<A>(s: State<A>, evs: seq<Event<A>>)
    requires Untouched(s) && Chronological(Clock(s), evs) && OnlyCalls(evs)
    requires |evs| <= s.remaining
    ensures Fires(Run(s, evs)) == Fires(s) + PassThroughs(evs)
    ensures Run(s, evs).remaining == s.remaining - |evs|
  {
    var r := Run(s, evs);
    PassedWithinBudget(s, evs);
    BudgetKeepsThrottle(s, evs);
    if evs == [] {
      assert PassThroughs(evs) == [];
    } else {
      assert s.throttle.log == [];
      assert s.passed + [] == s.passed;
      assert r.throttle.log == [];
      assert r.passed + [] == r.passed;
    }
  }

  /** One call within the budget: it passes through and the inner throttle
      only sees its clock move. */
  lemma PassOne<A>(s: State<A>, e: Event<A>)
    requires Untouched(s) && s.remaining > 0 && e.Call? && Clock(s) <= e.t
    ensures Step(s, e) == s.(remaining := s.remaining - 1,
                             passed := s.passed + [Fire(e.t, e.args, PassThrough)],
                             throttle := s.throttle.(clock := e.t))
  {
    assert Throttle.Advance(s.throttle, e.t) == s.throttle.(clock := e.t);
  }

  /** The calls after the first of a stream of calls are calls too. */
  lemma OnlyCallsRest<A>(evs: seq<Event<A>>)
    requires OnlyCalls(evs) && evs != []
    ensures evs[0].Call? && OnlyCalls(evs[1..])
  {
    assert forall i :: 0 <= i < |evs[1..]| ==> evs[1..][i] == evs[i + 1];
  }

  /** Within the budget the inner throttle only sees its clock move. */
  lemma {:induction false} BudgetKeepsThrottle<A>(s: State<A>, evs: seq<Event<A>>)
    requires Untouched(s) && Chronological(Clock(s), evs) && OnlyCalls(evs)
    requires |evs| <= s.remaining
    ensures Run(s, evs).throttle == s.throttle.(clock := EndTime(Clock(s), evs))
    ensures Run(s, evs).remaining == s.remaining - |evs|
    decreases |evs|
  {
    if evs != [] {
      OnlyCallsRest(evs);
      PassOne(s, evs[0]);
      BudgetKeepsThrottle(Step(s, evs[0]), evs[1..]);
    }
  }

  /** Within the budget each call adds its own pass-through fire. */
  lemma {:induction false} PassedWithinBudget<A>(s: State<A>, evs: seq<Event<A>>)
    requires Untouched(s) && Chronological(Clock(s), evs) && OnlyCalls(evs)
    requires |evs| <= s.remaining
    ensures Run(s, evs).passed == s.passed + PassThroughs(evs)
    decreases |evs|
  {
    if evs == [] {
      assert s.passed + PassThroughs(evs) == s.passed;
    } else {
      var f := Fire(evs[0].t, evs[0].args, PassThrough);
      var rest := PassThroughs(evs[1..]);
      OnlyCallsRest(evs);
      PassOne(s, evs[0]);
      PassedWithinBudget(Step(s, evs[0]), evs[1..]);
      assert Run(s, evs).passed == s.passed + [f] + rest;
      AppendAssociates(s.passed, [f], rest);
    }
  }

  /** A burst of calls at one instant within the budget: each passes through
      with its own arguments, and the inner throttle only sees its clock move. */
  lemma BurstWithinBudget<A>(s: State<A>, t: int, argss: seq<A>)
    requires Untouched(s) && Clock(s) <= t && 0 < |argss| <= s.remaining
    ensures Run(s, Calls(t, argss)) ==
      s.(remaining := s.remaining - |argss|,
         passed := s.passed + PassThroughs(Calls(t, argss)),
         throttle := s.throttle.(clock := t))
  {
    var evs := Calls(t, argss);
    assert OnlyCalls(evs);
    PassedWithinBudget(s, evs);
    BudgetKeepsThrottle(s, evs);
  }

  /** Once the budget is spent, the wrapper is exactly the inner throttle:
      no hit is ever given back. */
  lemma {:induction false} SpentIsThrottle<A>(s: State<A>, evs: seq<Event<A>>)
    requires s.remaining == 0 && Chronological(Clock(s), evs)
    ensures Run(s, evs).throttle == Throttle.Run(s.throttle, evs)
    ensures Run(s, evs).passed == s.passed && Run(s, evs).remaining == 0
    decreases |evs|
  {
    if evs != [] {
      SpentIsThrottle(Step(s, evs[0]), evs[1..]);
    }
  }
}
