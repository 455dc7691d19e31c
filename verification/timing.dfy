/**
 Vocabulary shared by the three timing controllers (throttle, throttleAfterHits
 and debounce). Real timers are replaced by a logical clock counted in integer
 milliseconds: a run is a chronological sequence of events, each either a call
 of the wrapped function or a tick that only lets the clock move forward and
 lets due timers fire. Every invocation of the target is recorded as a `Fire`.
 */
module Timing {

  datatype Option<T> = None | Some(value: T)

  /** Why the target was invoked: at the start of a window, by a timer at the
      end of a window, or straight through while a hit budget lasts. */
  datatype Edge = Leading | Trailing | PassThrough

  /** One invocation of the target, at logical time `at`, with `args`. */
  datatype Fire<A> = Fire(at: int, args: A, edge: Edge)

  /** A scheduled (not yet fired) invocation. */
  datatype Timer<A> = Timer(due: int, args: A)

  /** `Call(t, args)`: the wrapper is invoked at time `t`.
      `Tick(t)`: the clock reaches `t` and due timers fire. */
  datatype Event<A> = Call(t: int, args: A) | Tick(t: int)

  /** The events are stamped no earlier than `from` and in non-decreasing time. */
  predicate Chronological<A>(from: int, evs: seq<Event<A>>)
    decreases |evs|
  {
    evs == [] || (from <= evs[0].t && Chronological(evs[0].t, evs[1..]))
  }

  /** The time the clock shows after `evs`, starting from `from`. */
  function EndTime<A>(from: int, evs: seq<Event<A>>): int {
    if evs == [] then from else evs[|evs| - 1].t
  }

  /** In a chronological sequence every event lies between the start and the end time. */
  lemma {:induction false} ChronologicalBounds<A>(from: int, evs: seq<Event<A>>)
    requires Chronological(from, evs)
    ensures from <= EndTime(from, evs)
    ensures forall i :: 0 <= i < |evs| ==> from <= evs[i].t <= EndTime(from, evs)
    decreases |evs|
  {
    if evs != [] {
      ChronologicalBounds(evs[0].t, evs[1..]);
      assert forall i :: 0 < i < |evs| ==> evs[i] == evs[1..][i - 1];
    }
  }

  lemma {:induction false} ChronologicalAppend<A>(from: int, a: seq<Event<A>>, b: seq<Event<A>>)
    requires Chronological(from, a) && Chronological(EndTime(from, a), b)
    ensures Chronological(from, a + b)
    ensures EndTime(from, a + b) == EndTime(EndTime(from, a), b)
    decreases |a|
  {
    if a == [] {
      assert a + b == b;
    } else {
      ChronologicalAppend(a[0].t, a[1..], b);
      assert (a + b)[1..] == a[1..] + b;
    }
  }

  /** The fires of a log are recorded in non-decreasing time. */
  predicate Ordered<A>(log: seq<Fire<A>>) {
    forall i, j :: 0 <= i <= j < |log| ==> log[i].at <= log[j].at
  }

  ghost predicate IsPrefix<T>(a: seq<T>, b: seq<T>) {
    |a| <= |b| && b[..|a|] == a
  }

  /** Every event of the sequence is a call (no ticks). */
  predicate OnlyCalls<A>(evs: seq<Event<A>>) {
    forall i :: 0 <= i < |evs| ==> evs[i].Call?
  }

  lemma AppendAssociates<T>(a: seq<T>, b: seq<T>, c: seq<T>)
    ensures a + b + c == a + (b + c)
  {
  }

  /** A burst: one call per element of `argss`, all at time `t`, in order. */
  function Calls<A>(t: int, argss: seq<A>): (evs: seq<Event<A>>)
    ensures |evs| == |argss|
    ensures forall i :: 0 <= i < |evs| ==> evs[i] == Call(t, argss[i])
    ensures forall from :: from <= t ==> Chronological(from, evs)
  {
    if argss == [] then [] else [Call(t, argss[0])] + Calls(t, argss[1..])
  }

  /** The arguments of the last call among `evs`, if there is a call at all. */
  function LatestArgs<A>(evs: seq<Event<A>>): Option<A> {
    if evs == [] then None
    else
      match LatestArgs(evs[1..])
      case Some(a) => Some(a)
      case None => if evs[0].Call? then Some(evs[0].args) else None
  }

  lemma {:induction false} LatestArgsOfCalls<A>(t: int, argss: seq<A>)
    ensures LatestArgs(Calls(t, argss)) == (if argss == [] then None else Some(argss[|argss| - 1]))
    decreases |argss|
  {
    if argss != [] {
      var evs := Calls(t, argss);
      assert evs[1..] == Calls(t, argss[1..]);
      LatestArgsOfCalls(t, argss[1..]);
    }
  }

  /** After the first call of a burst, the latest arguments are the burst's last ones. */
  lemma LatestArgsAfterFirst<A>(t: int, argss: seq<A>)
    requires |argss| > 0
    ensures LatestArgs(Calls(t, argss)[1..]) == (if |argss| == 1 then None else Some(argss[|argss| - 1]))
  {
    assert Calls(t, argss)[1..] == Calls(t, argss[1..]);
    LatestArgsOfCalls(t, argss[1..]);
    if |argss| > 1 {
      assert argss[1..][|argss[1..]| - 1] == argss[|argss| - 1];
    }
  }
}
