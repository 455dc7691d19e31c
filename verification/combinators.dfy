/**
 The argument combinators: `pipe`, `partial`, `curry` and `curryRight`.
 A JavaScript function is modelled as a total function on argument lists
 together with its declared parameter count (`fn.length`), which curry reads.
 */
module Combinators {
  import opened JsValues

  /** A callable target: `arity` is its declared parameter count, `body`
      maps the actual argument list (of any length) to the result. */
  datatype Fn = Fn(arity: nat, body: seq<Value> -> Value)

  function Apply(f: Fn, args: seq<Value>): Value {
    f.body(args)
  }

  /** The `i`-th parameter as a JavaScript function sees it: surplus
      arguments are not seen, missing ones read as `undefined`. */
  function Arg(args: seq<Value>, i: nat): Value {
    if i < |args| then args[i] else Undefined
  }

  // ---------------------------------------------------------------- pipe

  /** What a pipe did: the argument list each stage received, and the result. */
  datatype Piped = Piped(inputs: seq<seq<Value>>, result: Value)

  /** `pipe(f1, ..., fn)(...args)`: the first stage gets all arguments, every
      later stage gets the previous stage's result as its only argument, and
      the last stage's result is returned. */
  function Pipe(fs: seq<Fn>, args: seq<Value>): (r: Piped)
    requires |fs| > 0
    ensures |r.inputs| == |fs|
    ensures r.inputs[0] == args
    ensures forall i :: 0 < i < |fs| ==> r.inputs[i] == [Apply(fs[i - 1], r.inputs[i - 1])]
    ensures r.result == Apply(fs[|fs| - 1], r.inputs[|fs| - 1])
    decreases |fs|
  {
    var first := Apply(fs[0], args);
    if |fs| == 1 then Piped([args], first)
    else
      var rest := Pipe(fs[1..], [first]);
      Piped([args] + rest.inputs, rest.result)
  }

  /** Piping is associative: a pipe of `fs + gs` feeds the result of the pipe
      of `fs` to the pipe of `gs`. */
  lemma {:induction false} PipeAppend(fs: seq<Fn>, gs: seq<Fn>, args: seq<Value>)
    requires |fs| > 0 && |gs| > 0
    ensures Pipe(fs + gs, args).result == Pipe(gs, [Pipe(fs, args).result]).result
    decreases |fs|
  {
    var first := Apply(fs[0], args);
    assert (fs + gs)[0] == fs[0];
    if |fs| == 1 {
      assert (fs + gs)[1..] == gs;
    } else {
      assert (fs + gs)[1..] == fs[1..] + gs;
      PipeAppend(fs[1..], gs, [first]);
    }
  }

  // ---------------------------------------------------------------- partial

  /** `partial(f, ...fixed)`: a variadic function that calls `f` with the
      fixed arguments followed by the call's own arguments. */
  function Partial(f: Fn, fixed: seq<Value>): (g: Fn)
    ensures g.arity == 0
    ensures forall call :: Apply(g, call) == Apply(f, fixed + call)
  {
    Fn(0, call => Apply(f, fixed + call))
  }

  /** With nothing fixed, a partial application forwards its call unchanged. */
  lemma PartialNothingFixed(f: Fn, call: seq<Value>)
    ensures Apply(Partial(f, []), call) == Apply(f, call)
  {
    assert [] + call == call;
  }

  /** Fixing `a` and then `b` is fixing `a + b`. */
  lemma PartialTwice(f: Fn, a: seq<Value>, b: seq<Value>, call: seq<Value>)
    ensures Apply(Partial(Partial(f, a), b), call) == Apply(Partial(f, a + b), call)
  {
    assert a + (b + call) == (a + b) + call;
  }

  /** The target reads only its declared parameters, as a JavaScript function
      that names its parameters and never touches `arguments` does: surplus
      arguments change nothing. */
  ghost predicate IgnoresSurplus(f: Fn) {
    forall args: seq<Value>, extra: seq<Value> :: |args| >= f.arity ==> Apply(f, args + extra) == Apply(f, args)
  }

  /** When the fixed arguments already fill the target's parameters, the
      call's own arguments are surplus and are ignored. */
  lemma PartialSurplusIgnored(f: Fn, fixed: seq<Value>, call: seq<Value>)
    requires IgnoresSurplus(f) && f.arity <= |fixed|
    ensures Apply(Partial(f, fixed), call) == Apply(f, fixed)
  {
  }

  // ---------------------------------------------------------------- curry

  /** `curry` collects each call's arguments as given; `curryRight` collects
      them reversed. */
  datatype Direction = LeftToRight | RightToLeft

  /** The state of a curried chain after some calls: the target has returned
      a value, or the chain is still collecting, or a call was made on the
      returned (non-function) value, which JavaScript rejects. */
  datatype Curried = Returned(value: Value) | Awaiting(acc: seq<Value>) | NotCallable

  function Reverse<T>(s: seq<T>): (r: seq<T>)
    ensures |r| == |s|
    ensures forall i :: 0 <= i < |s| ==> r[i] == s[|s| - 1 - i]
    decreases |s|
  {
    if s == [] then [] else Reverse(s[1..]) + [s[0]]
  }

  function Collect(dir: Direction, batch: seq<Value>): seq<Value> {
    match dir
    case LeftToRight => batch
    case RightToLeft => Reverse(batch)
  }

  /** One call with arguments `batch` on a chain in state `c`. */
  function Feed(f: Fn, dir: Direction, c: Curried, batch: seq<Value>): Curried {
    match c
    case Awaiting(acc) =>
      var all := acc + Collect(dir, batch);
      if |all| >= f.arity then Returned(Apply(f, all)) else Awaiting(all)
    case _ => NotCallable
  }

  function Front<T>(s: seq<T>): seq<T>
    requires |s| > 0
  {
    s[..|s| - 1]
  }

  /** All arguments of the calls `batches`, as collected in direction `dir`. */
  function Accumulated(dir: Direction, batches: seq<seq<Value>>): (r: seq<Value>)
    decreases |batches|
  {
    if batches == [] then []
    else Accumulated(dir, Front(batches)) + Collect(dir, batches[|batches| - 1])
  }

  /** `curry(f)` (or `curryRight(f)`) called successively with `batches`.
      The target runs exactly when the collected arguments first reach its
      arity, and then with all of them; before that the chain keeps
      collecting; a call after that is a call of a non-function. */
  function CurryChain(f: Fn, dir: Direction, batches: seq<seq<Value>>): (r: Curried)
    ensures batches == [] || |Accumulated(dir, batches)| < f.arity ==>
      r == Awaiting(Accumulated(dir, batches))
    ensures batches != [] && (|batches| == 1 || |Accumulated(dir, Front(batches))| < f.arity) &&
            f.arity <= |Accumulated(dir, batches)| ==>
      r == Returned(Apply(f, Accumulated(dir, batches)))
    ensures |batches| >= 2 && f.arity <= |Accumulated(dir, Front(batches))| ==> r == NotCallable
    decreases |batches|
  {
    if batches == [] then Awaiting([])
    else Feed(f, dir, CurryChain(f, dir, Front(batches)), batches[|batches| - 1])
  }

  function Curry(f: Fn, batches: seq<seq<Value>>): Curried {
    CurryChain(f, LeftToRight, batches)
  }

  function CurryRight(f: Fn, batches: seq<seq<Value>>): Curried {
    CurryChain(f, RightToLeft, batches)
  }

  /** All arguments of a list of calls, in order: the first call's, then the rest's. */
  function Concat(batches: seq<seq<Value>>): seq<Value>
    decreases |batches|
  {
    if batches == [] then [] else batches[0] + Concat(batches[1..])
  }

  /** Flattening can equally peel off the last call. */
  lemma {:induction false} ConcatFront(batches: seq<seq<Value>>)
    requires batches != []
    ensures Concat(batches) == Concat(Front(batches)) + batches[|batches| - 1]
    decreases |batches|
  {
    if |batches| == 1 {
      assert Front(batches) == [];
      assert Concat(batches[1..]) == [];
    } else {
      var rest := batches[1..];
      ConcatFront(rest);
      assert Front(batches) == [batches[0]] + Front(rest);
      assert Front(batches)[1..] == Front(rest);
      assert batches[0] + (Concat(Front(rest)) + rest[|rest| - 1])
          == batches[0] + Concat(Front(rest)) + rest[|rest| - 1];
    }
  }

  /** `curry` collects left to right: its arguments are the calls' arguments
      in order, however they were grouped into calls. */
  lemma {:induction false} CurryCollectsInOrder(batches: seq<seq<Value>>)
    ensures Accumulated(LeftToRight, batches) == Concat(batches)
    decreases |batches|
  {
    if batches != [] {
      CurryCollectsInOrder(Front(batches));
      ConcatFront(batches);
    }
  }

  /** Grouping does not matter to `curry`: two ways of passing the same
      arguments, each reaching the arity only with its last call, call the
      target with the same arguments. */
  lemma CurryGroupingIrrelevant(f: Fn, b1: seq<seq<Value>>, b2: seq<seq<Value>>)
    requires Concat(b1) == Concat(b2) && f.arity <= |Concat(b1)|
    requires |b1| > 0 && (|b1| == 1 || |Concat(Front(b1))| < f.arity)
    requires |b2| > 0 && (|b2| == 1 || |Concat(Front(b2))| < f.arity)
    ensures Curry(f, b1) == Curry(f, b2) == Returned(Apply(f, Concat(b1)))
  {
    CurryCollectsInOrder(b1);
    CurryCollectsInOrder(b2);
    CurryCollectsInOrder(Front(b1));
    CurryCollectsInOrder(Front(b2));
  }

  /** Fed one argument per call, `curryRight` collects exactly like `curry`. */
  lemma {:induction false} CurryRightOneAtATime(batches: seq<seq<Value>>)
    requires forall i :: 0 <= i < |batches| ==> |batches[i]| == 1
    ensures Accumulated(RightToLeft, batches) == Accumulated(LeftToRight, batches)
    decreases |batches|
  {
    if batches != [] {
      CurryRightOneAtATime(Front(batches));
      var last := batches[|batches| - 1];
      assert Reverse(last) == last;
    }
  }

  /** In one call, `curryRight` passes the arguments to the target reversed. */
  lemma CurryRightOneCall(f: Fn, batch: seq<Value>)
    requires f.arity <= |batch|
    ensures CurryRight(f, [batch]) == Returned(Apply(f, Reverse(batch)))
  {
    assert Front([batch]) == [];
    assert CurryChain(f, RightToLeft, []) == Awaiting([]);
    assert [] + Reverse(batch) == Reverse(batch);
  }
}
