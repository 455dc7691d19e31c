/**
 `throttle(target, wait)`: the first call of a window invokes the target at
 once (leading edge) and opens a window of `wait` milliseconds. Calls inside
 the window do not invoke the target; they (re)arm a single timer due at the
 end of the window, carrying the arguments of the most recent call. When that
 timer fires (trailing edge) the window closes, so the next call is again a
 leading one.
 */
module Throttle {
  import opened Timing

  /** `window` is the start time of the open window, `timer` the pending
      trailing call, `log` every invocation of the target so far. */
  datatype State<A> = State(wait: nat, clock: int, window: Option<int>, timer: Option<Timer<A>>, log: seq<Fire<A>>)

  /** The window discipline of a throttle log: whatever follows a leading
      fire comes at least `wait` later, and a trailing fire comes exactly
      `wait` after the leading fire right before it. */
  predicate Disciplined<A>(log: seq<Fire<A>>, wait: nat) {
    && (forall i :: 0 < i < |log| && log[i - 1].edge == Leading ==> log[i].at >= log[i - 1].at + wait)
    && (forall i :: 0 <= i < |log| && log[i].edge == Trailing ==>
          0 < i && log[i - 1].edge == Leading && log[i].at == log[i - 1].at + wait)
  }

  /** An ordered log of leading and trailing fires, none later than `clock`. */
  predicate Recorded<A>(log: seq<Fire<A>>, clock: int) {
    && Ordered(log)
    && (forall i :: 0 <= i < |log| ==> log[i].at <= clock && log[i].edge != PassThrough)
  }

  predicate Valid<A>(s: State<A>) {
    && Recorded(s.log, s.clock)
    && Disciplined(s.log, s.wait)
    // a window is open exactly when the latest fire was a leading one, and it started then
    && (s.window.Some? <==> |s.log| > 0 && s.log[|s.log| - 1].edge == Leading)
    && (s.window.Some? ==> s.window.value == s.log[|s.log| - 1].at)
    && Coherent(s)
  }

  /** The trailing timer, if any, is due at the end of the open window and has not fired yet. */
  predicate Coherent<A>(s: State<A>) {
    s.timer.Some? ==> s.window.Some? && s.timer.value.due == s.window.value + s.wait && s.clock < s.timer.value.due
  }

  /** Time `t` lies inside the open window. */
  predicate Open<A>(s: State<A>, t: int) {
    s.window.Some? && t < s.window.value + s.wait
  }

  /** The trailing timer is due at time `t`. */
  predicate Due<A>(s: State<A>, t: int) {
    s.timer.Some? && s.timer.value.due <= t
  }

  function Init<A>(wait: nat, start: int): (s: State<A>)
    ensures Valid(s) && s.wait == wait && s.clock == start
    ensures s.log == [] && !Open(s, start) && s.timer.None?
  {
    State(wait, start, None, None, [])
  }

  /** The clock moves to `t`; a due trailing timer fires and closes the window. */
  function Advance<A>(s: State<A>, t: int): (r: State<A>)
    requires s.clock <= t
    ensures r.clock == t && r.wait == s.wait && IsPrefix(s.log, r.log)
    ensures Coherent(s) ==> Coherent(r)
    ensures Due(s, t) ==>
      && r.log == s.log + [Fire(s.timer.value.due, s.timer.value.args, Trailing)]
      && r.window.None? && r.timer.None?
    ensures !Due(s, t) ==> r == s.(clock := t)
  {
    match s.timer
    case Some(tm) =>
      if tm.due <= t then
        s.(clock := t, window := None, timer := None, log := s.log + [Fire(tm.due, tm.args, Trailing)])
      else
        s.(clock := t)
    case None => s.(clock := t)
  }

  /** A call at time `t` with `args`. */
  function Call<A>(s: State<A>, t: int, args: A): (r: State<A>)
    requires s.clock <= t
    ensures r.clock == t && r.wait == s.wait && IsPrefix(s.log, r.log)
    ensures Coherent(s) ==> Coherent(r)
    // outside a window: exactly one immediate fire, with this call's arguments
    ensures Coherent(s) && !Open(s, t) ==>
      && r.log == Advance(s, t).log + [Fire(t, args, Leading)]
      && r.window == Some(t) && r.timer.None?
    // inside a window: nothing fires; the one trailing timer now carries these arguments
    ensures Coherent(s) && Open(s, t) ==>
      && r.log == s.log && r.window == s.window
      && r.timer == Some(Timer(s.window.value + s.wait, args))
  {
    var a := Advance(s, t);
    if a.window.Some? && t < a.window.value + a.wait then
      a.(timer := Some(Timer(a.window.value + a.wait, args)))
    else
      a.(window := Some(t), log := a.log + [Fire(t, args, Leading)])
  }

  function Step<A>(s: State<A>, e: Event<A>): (r: State<A>)
    requires s.clock <= e.t
    ensures r.clock == e.t && r.wait == s.wait && IsPrefix(s.log, r.log)
    ensures Coherent(s) ==> Coherent(r)
  {
    match e
    case Call(t, args) => Call(s, t, args)
    case Tick(t) => Advance(s, t)
  }

  function Run<A>(s: State<A>, evs: seq<Event<A>>): (r: State<A>)
    requires Chronological(s.clock, evs)
    ensures r.wait == s.wait && IsPrefix(s.log, r.log)
    ensures r.clock == EndTime(s.clock, evs)
    ensures Coherent(s) ==> Coherent(r)
    decreases |evs|
  {
    if evs == [] then s else Run(Step(s, evs[0]), evs[1..])
  }

  /** A trailing fire keeps the window discipline: it comes `wait` after the
      leading fire that opened the window. */
  lemma AdvanceKeepsValid<A>(s: State<A>, t: int)
    requires Valid(s) && s.clock <= t
    ensures Valid(Advance(s, t))
  {
    if Due(s, t) {
      var f := Fire(s.timer.value.due, s.timer.value.args, Trailing);
      AppendKeepsDiscipline(s.log, s.wait, f);
      AppendKeepsRecorded(s.log, s.clock, f, t);
    }
  }

  /** A call keeps the invariant: inside a window it only re-arms the timer,
      outside one it fires at once. */
  lemma CallKeepsValid<A>(s: State<A>, t: int, args: A)
    requires Valid(s) && s.clock <= t
    ensures Valid(Call(s, t, args))
  {
    AdvanceKeepsValid(s, t);
    var a := Advance(s, t);
    if Open(a, t) {
      RearmKeepsValid(a, args);
      assert Call(s, t, args) == a.(timer := Some(Timer(a.window.value + a.wait, args)));
    } else {
      LeadingKeepsValid(a, args);
      assert Call(s, t, args) == a.(window := Some(a.clock), log := a.log + [Fire(a.clock, args, Leading)]);
    }
  }

  /** Inside a window, re-arming the timer for the window's end keeps the invariant. */
  lemma RearmKeepsValid<A>(a: State<A>, args: A)
    requires Valid(a) && Open(a, a.clock)
    ensures Valid(a.(timer := Some(Timer(a.window.value + a.wait, args))))
  {
  }

  /** A leading fire keeps the window discipline: it happens only once the
      previous window, if any, has run its full length. */
  lemma LeadingKeepsValid<A>(a: State<A>, args: A)
    requires Valid(a) && !Open(a, a.clock)
    ensures Valid(a.(window := Some(a.clock), log := a.log + [Fire(a.clock, args, Leading)]))
  {
    var f := Fire(a.clock, args, Leading);
    AppendKeepsDiscipline(a.log, a.wait, f);
    AppendKeepsRecorded(a.log, a.clock, f, a.clock);
  }

  lemma StepKeepsValid<A>(s: State<A>, e: Event<A>)
    requires Valid(s) && s.clock <= e.t
    ensures Valid(Step(s, e))
  {
    match e {
      case Call(t, args) => CallKeepsValid(s, t, args);
      case Tick(t) => AdvanceKeepsValid(s, t);
    }
  }

  lemma {:induction false} RunKeepsValid<A>(s: State<A>, evs: seq<Event<A>>)
    requires Valid(s) && Chronological(s.clock, evs)
    ensures Valid(Run(s, evs))
    decreases |evs|
  {
    if evs != [] {
      StepKeepsValid(s, evs[0]);
      RunKeepsValid(Step(s, evs[0]), evs[1..]);
    }
  }

  /** Appending one fire to a disciplined log, when the new fire respects the
      discipline relative to the last one, yields a disciplined log. */
  lemma AppendKeepsDiscipline<A>(log: seq<Fire<A>>, wait: nat, f: Fire<A>)
    requires Disciplined(log, wait)
    requires f.edge == Trailing ==> |log| > 0 && log[|log| - 1].edge == Leading && f.at == log[|log| - 1].at + wait
    requires |log| > 0 && log[|log| - 1].edge == Leading ==> f.at >= log[|log| - 1].at + wait
    ensures Disciplined(log + [f], wait)
  {
    var l := log + [f];
    forall i | 0 < i < |l| && l[i - 1].edge == Leading
      ensures l[i].at >= l[i - 1].at + wait
    {
      if i < |log| { assert l[i - 1] == log[i - 1] && l[i] == log[i]; }
    }
    forall i | 0 <= i < |l| && l[i].edge == Trailing
      ensures 0 < i && l[i - 1].edge == Leading && l[i].at == l[i - 1].at + wait
    {
      if i < |log| { assert l[i] == log[i]; }
    }
  }

  lemma AppendKeepsRecorded<A>(log: seq<Fire<A>>, clock: int, f: Fire<A>, clock': int)
    requires Recorded(log, clock) && clock <= f.at <= clock' && f.edge != PassThrough
    ensures Recorded(log + [f], clock')
  {
    var l := log + [f];
    forall i, j | 0 <= i <= j < |l|
      ensures l[i].at <= l[j].at
    {
      if j < |log| { assert l[i] == log[i] && l[j] == log[j]; }
      else if i < |log| { assert l[i] == log[i]; }
    }
  }

  /** Running two chronological pieces one after the other is running their concatenation. */
  lemma {:induction false} RunAppend<A>(s: State<A>, a: seq<Event<A>>, b: seq<Event<A>>)
    requires Chronological(s.clock, a) && Chronological(EndTime(s.clock, a), b)
    ensures Chronological(s.clock, a + b)
    ensures Run(s, a + b) == Run(Run(s, a), b)
    decreases |a|
  {
    ChronologicalAppend(s.clock, a, b);
    if a == [] {
      assert a + b == b;
    } else {
      RunAppend(Step(s, a[0]), a[1..], b);
      assert (a + b)[1..] == a[1..] + b;
    }
  }

  /** Inside an open window nothing fires: calls only re-arm the trailing timer
      with their arguments, and the window stays as it is. */
  lemma {:induction false} QuietInsideWindow<A>(s: State<A>, evs: seq<Event<A>>)
    requires Coherent(s) && s.window.Some? && Chronological(s.clock, evs)
    requires EndTime(s.clock, evs) < s.window.value + s.wait
    ensures Run(s, evs).log == s.log && Run(s, evs).window == s.window
    ensures Run(s, evs).timer ==
      match LatestArgs(evs)
      case None => s.timer
      case Some(a) => Some(Timer(s.window.value + s.wait, a))
    decreases |evs|
  {
    if evs != [] {
      ChronologicalBounds(s.clock, evs);
      QuietInsideWindow(Step(s, evs[0]), evs[1..]);
    }
  }

  /** A burst of calls at one instant outside a window: the first call fires at
      once, the others fire nothing now and leave one trailing timer with the
      last call's arguments. */
  lemma {:induction false} LeadingBurst<A>(s: State<A>, t: int, argss: seq<A>)
    requires Coherent(s) && s.wait > 0 && s.clock <= t && !Open(s, t) && |argss| > 0
    ensures Run(s, Calls(t, argss)).log == Advance(s, t).log + [Fire(t, argss[0], Leading)]
    ensures Run(s, Calls(t, argss)).window == Some(t)
    ensures Run(s, Calls(t, argss)).timer ==
      (if |argss| == 1 then None else Some(Timer(t + s.wait, argss[|argss| - 1])))
  {
    var evs := Calls(t, argss);
    var s1 := Call(s, t, argss[0]);
    var last := argss[|argss| - 1];
    var rest := evs[1..];
    assert s1.window == Some(t) && s1.timer.None?;
    assert Run(s, evs) == Run(s1, rest);
    LatestArgsAfterFirst(t, argss);
    QuietInsideWindow(s1, rest);
    if |argss| > 1 {
      assert LatestArgs(rest) == Some(last);
      assert Run(s1, rest).timer == Some(Timer(s1.window.value + s1.wait, last));
    }
  }

  /** At most one fire per window: nothing fires within `wait` after a leading
      fire, and two trailing fires are at least `wait` apart. */
  lemma OneFirePerWindow<A>(s: State<A>)
    requires Valid(s)
    ensures forall i, j :: 0 <= i < j < |s.log| && s.log[i].edge == Leading ==>
      s.log[j].at >= s.log[i].at + s.wait
    ensures forall i, j :: 0 <= i < j < |s.log| && s.log[i].edge == Trailing && s.log[j].edge == Trailing ==>
      s.log[j].at >= s.log[i].at + s.wait
  {
    var log := s.log;
    forall i, j | 0 <= i < j < |log| && log[i].edge == Leading
      ensures log[j].at >= log[i].at + s.wait
    {
      assert log[i + 1].at >= log[i].at + s.wait;
      assert log[i + 1].at <= log[j].at;
    }
    forall i, j | 0 <= i < j < |log| && log[i].edge == Trailing && log[j].edge == Trailing
      ensures log[j].at >= log[i].at + s.wait
    {
      assert log[j - 1].edge == Leading && log[j].at == log[j - 1].at + s.wait;
      assert log[i].at <= log[j - 1].at;
    }
  }
}
