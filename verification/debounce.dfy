/**
 `debounce(target, wait)`: a call never invokes the target itself. It cancels
 the pending timer, if any, and arms a new one due `wait` milliseconds later
 with its own arguments. The target therefore fires once per pause of at
 least `wait` in the stream of calls, with the arguments of the call that
 started the pause.
 */
module Debounce {
  import opened Timing

  datatype State<A> = State(wait: nat, clock: int, timer: Option<Timer<A>>, log: seq<Fire<A>>)

  /** Consecutive fires are at least `wait` apart, so all fires are ordered. */
  predicate Spaced<A>(log: seq<Fire<A>>, wait: nat) {
    forall i :: 0 < i < |log| ==> log[i].at >= log[i - 1].at + wait
  }

  predicate Valid<A>(s: State<A>) {
    && Spaced(s.log, s.wait)
    && (forall i :: 0 <= i < |s.log| ==> s.log[i].at <= s.clock && s.log[i].edge == Trailing)
    // the pending timer was armed by a call at or before the clock, after the latest fire
    && (s.timer.Some? ==>
          && s.clock <= s.timer.value.due <= s.clock + s.wait
          && (|s.log| > 0 ==> s.timer.value.due >= s.log[|s.log| - 1].at + s.wait))
  }

  predicate Due<A>(s: State<A>, t: int) {
    s.timer.Some? && s.timer.value.due <= t
  }

  function Init<A>(wait: nat, start: int): (s: State<A>)
    ensures Valid(s) && s.wait == wait && s.clock == start && s.log == [] && s.timer.None?
  {
    State(wait, start, None, [])
  }

  /** The clock moves to `t`; a due timer fires. */
  function Advance<A>(s: State<A>, t: int): (r: State<A>)
    requires s.clock <= t
    ensures r.clock == t && r.wait == s.wait && IsPrefix(s.log, r.log)
    ensures Due(s, t) ==> r.log == s.log + [Fire(s.timer.value.due, s.timer.value.args, Trailing)] && r.timer.None?
    ensures !Due(s, t) ==> r == s.(clock := t)
  {
    match s.timer
    case Some(tm) =>
      if tm.due <= t then s.(clock := t, timer := None, log := s.log + [Fire(tm.due, tm.args, Trailing)])
      else s.(clock := t)
    case None => s.(clock := t)
  }

  /** A call at time `t`: it fires nothing of its own and replaces whatever
      was pending by a timer due `wait` later with its arguments. */
  function Call<A>(s: State<A>, t: int, args: A): (r: State<A>)
    requires s.clock <= t
    ensures r.clock == t && r.wait == s.wait && IsPrefix(s.log, r.log)
    ensures r.log == Advance(s, t).log
    ensures r.timer == Some(Timer(t + s.wait, args))
    ensures |r.log| == |s.log| + (if Due(s, t) then 1 else 0)
  {
    Advance(s, t).(timer := Some(Timer(t + s.wait, args)))
  }

  function Step<A>(s: State<A>, e: Event<A>): (r: State<A>)
    requires s.clock <= e.t
    ensures r.clock == e.t && r.wait == s.wait && IsPrefix(s.log, r.log)
  {
    match e
    case Call(t, args) => Call(s, t, args)
    case Tick(t) => Advance(s, t)
  }

  function Run<A>(s: State<A>, evs: seq<Event<A>>): (r: State<A>)
    requires Chronological(s.clock, evs)
    ensures r.wait == s.wait && IsPrefix(s.log, r.log)
    ensures r.clock == EndTime(s.clock, evs)
    decreases |evs|
  {
    if evs == [] then s else Run(Step(s, evs[0]), evs[1..])
  }

  lemma AdvanceKeepsValid<A>(s: State<A>, t: int)
    requires Valid(s) && s.clock <= t
    ensures Valid(Advance(s, t))
  {
    if Due(s, t) {
      var f := Fire(s.timer.value.due, s.timer.value.args, Trailing);
      var l := s.log + [f];
      assert forall i :: 0 <= i < |s.log| ==> l[i] == s.log[i];
    }
  }

  /** A new timer is armed no earlier than `wait` after the latest fire,
      because that fire happened no later than the call. */
  lemma CallKeepsValid<A>(s: State<A>, t: int, args: A)
    requires Valid(s) && s.clock <= t
    ensures Valid(Call(s, t, args))
  {
    AdvanceKeepsValid(s, t);
  }

  lemma StepKeepsValid<A>(s: State<A>, e: Event<A>)
    requires Valid(s) && s.clock <= e.t
    ensures Valid(Step(s, e))
  {
    match e {
      case Call(t, args) => CallKeepsValid(s, t, args);
      case Tick(t) => AdvanceKeepsValid(s, t);
    }
  }

  lemma {:induction false} RunKeepsValid<A>(s: State<A>, evs: seq<Event<A>>)
    requires Valid(s) && Chronological(s.clock, evs)
    ensures Valid(Run(s, evs))
    decreases |evs|
  {
    if evs != [] {
      StepKeepsValid(s, evs[0]);
      RunKeepsValid(Step(s, evs[0]), evs[1..]);
    }
  }

  /** The number of pauses in a stream of calls: gaps of at least `wait`
      between one call and the next. */
  function Pauses<A>(wait: nat, evs: seq<Event<A>>): nat
    decreases |evs|
  {
    if |evs| < 2 then 0
    else (if evs[1].t - evs[0].t >= wait then 1 else 0) + Pauses(wait, evs[1..])
  }

  /** Calls made at the same instant form no pause when `wait` is positive. */
  lemma {:induction false} BurstHasNoPause<A>(wait: nat, t: int, argss: seq<A>)
    requires wait > 0
    ensures Pauses(wait, Calls(t, argss)) == 0
    decreases |argss|
  {
    if |argss| >= 2 {
      assert Calls(t, argss)[1..] == Calls(t, argss[1..]);
      BurstHasNoPause(wait, t, argss[1..]);
    }
  }

  /** Reference log for debouncing: one trailing fire per pause, `wait` after
      the call that started it and with that call's arguments. */
  function PauseFires<A>(wait: nat, evs: seq<Event<A>>): (r: seq<Fire<A>>)
    requires OnlyCalls(evs)
    ensures |r| == Pauses(wait, evs)
    decreases |evs|
  {
    if |evs| < 2 then []
    else
      (if evs[1].t - evs[0].t >= wait then [Fire(evs[0].t + wait, evs[0].args, Trailing)] else [])
      + PauseFires(wait, evs[1..])
  }

  /** A stream of calls that starts before any earlier timer is due fires the
      target exactly at its pauses, as the reference log says, and afterwards
      one timer is pending with the last call's arguments, due `wait` after it. */
  lemma {:induction false} FiresOncePerPause<A>(s: State<A>, evs: seq<Event<A>>)
    requires Chronological(s.clock, evs) && OnlyCalls(evs) && evs != []
    requires s.timer.None? || evs[0].t < s.timer.value.due
    ensures Run(s, evs).log == s.log + PauseFires(s.wait, evs)
    ensures |Run(s, evs).log| == |s.log| + Pauses(s.wait, evs)
    ensures Run(s, evs).timer == Some(Timer(evs[|evs| - 1].t + s.wait, evs[|evs| - 1].args))
    decreases |evs|
  {
    var s1 := Call(s, evs[0].t, evs[0].args);
    assert Run(s, evs) == Run(s1, evs[1..]);
    assert s1.log == s.log;
    if |evs| == 1 {
      assert s.log + PauseFires(s.wait, evs) == s.log;
    } else {
      var rest := evs[1..];
      // the first call of the rest sees the timer armed by evs[0]; advancing to
      // its time first fires that timer exactly when the gap is a pause
      var s2 := Advance(s1, rest[0].t);
      var head := if rest[0].t - evs[0].t >= s.wait then [Fire(evs[0].t + s.wait, evs[0].args, Trailing)] else [];
      assert s2.log == s.log + head;
      assert Run(s1, rest) == Run(s2, rest) by {
        assert Call(s1, rest[0].t, rest[0].args) == Call(s2, rest[0].t, rest[0].args);
      }
      FiresOncePerPause(s2, rest);
      assert PauseFires(s.wait, evs) == head + PauseFires(s.wait, rest);
      AppendAssociates(s.log, head, PauseFires(s.wait, rest));
      assert rest[|rest| - 1] == evs[|evs| - 1];
    }
  }

  /** After the last call of a stream, the target fires exactly once more,
      with that call's arguments, once the clock has moved `wait` past it. */
  lemma SettledBurstFires<A>(s: State<A>, evs: seq<Event<A>>, t: int)
    requires Chronological(s.clock, evs) && OnlyCalls(evs) && evs != []
    requires s.timer.None? || evs[0].t < s.timer.value.due
    requires t >= evs[|evs| - 1].t + s.wait
    ensures Advance(Run(s, evs), t).log ==
      Run(s, evs).log + [Fire(evs[|evs| - 1].t + s.wait, evs[|evs| - 1].args, Trailing)]
    ensures |Advance(Run(s, evs), t).log| == |s.log| + Pauses(s.wait, evs) + 1
  {
    FiresOncePerPause(s, evs);
    var r := Run(s, evs);
    assert Due(r, t);
  }
}
