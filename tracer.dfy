/** The call tracer of `check_recursion`: learner functions, the module
    namespace they look themselves up in, the tracing wrapper (`wrapcall` /
    `inner`), the interpreter that runs one call, and the two closure lists the
    wrapper appends to. */
module Tracer {
  import opened Values

  /** What a learner function does when called with `args`: return at once,
      raise, or call itself (by its own name, looked up in its module) once and
      finish with `post` applied to what that call returned. */
  datatype Step =
    | Return(value: Value)
    | Raise(error: Exc)
    | SelfCall(args: seq<Value>, post: Value -> Outcome)

  /** A function object. A learner function knows the global name it calls
      itself by. A wrapper is the `inner` closure made by one `check_recursion`
      call (`session`) around the function it displaced. */
  datatype Callable =
    | Learner(name: string, body: seq<Value> -> Step)
    | Wrapper(session: nat, target: Callable)

  /** Some wrapper in `c` appends to the lists of `session`. */
  predicate Mentions(c: Callable, session: nat)
  {
    match c
    case Learner(_, _) => false
    case Wrapper(s, t) => s == session || Mentions(t, session)
  }

  /** No function bound in the namespace is a wrapper of `session`: the lists
      of that session are new. */
  predicate SessionFresh(ns: map<string, Callable>, session: nat)
  {
    forall name :: name in ns ==> !Mentions(ns[name], session)
  }

  /** One call and what it adds to the two lists of `session`: `ins` to
      `inputargs`, `rets` to `retvals`. */
  datatype Run = Run(out: Outcome, ins: seq<Value>, rets: seq<Value>)

  /** Calling `f` with `args` while the module's names are bound as in `ns`
      and `depth` interpreter frames are left before Python raises its own
      RecursionError. A wrapper appends `args[0]` before calling its target
      (an empty `args` raises IndexError there) and the result after it
      returns; only the wrappers of `session` write to the lists observed. */
  function Exec(ns: map<string, Callable>, f: Callable, args: seq<Value>, session: nat, depth: nat): Run
    decreases depth
  {
    if depth == 0 then Run(Raised(RecursionLimit), [], [])
    else
      match f
      case Wrapper(s, target) =>
        if |args| == 0 then Run(Raised(IndexError), [], [])
        else
          var r := Exec(ns, target, args, session, depth - 1);
          Run(r.out,
              (if s == session then [args[0]] else []) + r.ins,
              r.rets + (if s == session && r.out.Ok? then [r.out.value] else []))
      case Learner(name, body) =>
        match body(args)
        case Return(v) => Run(Ok(v), [], [])
        case Raise(e) => Run(Raised(e), [], [])
        case SelfCall(a, post) =>
          if name !in ns then Run(Raised(NameError), [], [])
          else
            var r := Exec(ns, ns[name], a, session, depth - 1);
            Run(if r.out.Ok? then post(r.out.value) else r.out, r.ins, r.rets)
  }

  /** A module object: its global names and what they are bound to. */
  class Module {
    var bindings: map<string, Callable>

    constructor (bindings: map<string, Callable>)
      ensures this.bindings == bindings
    {
      this.bindings := bindings;
    }
  }

  /** The `inputargs` and `retvals` lists of one `check_recursion` call, which
      its wrapper closes over. */
  class TraceLog {
    const session: nat
    var inputargs: seq<Value>
    var retvals: seq<Value>

    constructor (session: nat)
      ensures this.session == session && inputargs == [] && retvals == []
    {
      this.session := session;
      inputargs := [];
      retvals := [];
    }

    /** Runs one call, appending to the lists as the wrappers of this session
        are entered and left. */
    method Call(ns: map<string, Callable>, f: Callable, args: seq<Value>, depth: nat) returns (out: Outcome)
      modifies this
      ensures out == Exec(ns, f, args, session, depth).out
      ensures inputargs == old(inputargs) + Exec(ns, f, args, session, depth).ins
      ensures retvals == old(retvals) + Exec(ns, f, args, session, depth).rets
      decreases depth
    {
      if depth == 0 {
        return Raised(RecursionLimit);
      }
      match f
      case Wrapper(s, target) =>
        if |args| == 0 {
          return Raised(IndexError);
        }
        if s == session {
          inputargs := inputargs + [args[0]];
        }
        out := Call(ns, target, args, depth - 1);
        if s == session && out.Ok? {
          retvals := retvals + [out.value];
        }
      case Learner(name, body) =>
        match body(args)
        case Return(v) =>
          out := Ok(v);
        case Raise(e) =>
          out := Raised(e);
        case SelfCall(a, post) =>
          if name !in ns {
            return Raised(NameError);
          }
          out := Call(ns, ns[name], a, depth - 1);
          if out.Ok? {
            out := post(out.value);
          }
    }
  }

  // ---------------------------------------------------------------------
  // The learner function on its own, and what tracing it shows
  // ---------------------------------------------------------------------

  /** A learner function run untraced with every self-call reaching itself:
      its outcome, the argument tuples of its self-calls in call order, and
      the values those self-calls returned in completion order. `n` frames are
      left before the interpreter's RecursionError. */
  datatype Unfolding = Unfolding(out: Outcome, calls: seq<seq<Value>>, results: seq<Value>)

  function Reference(body: seq<Value> -> Step, args: seq<Value>, n: nat): Unfolding
    decreases n
  {
    if n == 0 then Unfolding(Raised(RecursionLimit), [], [])
    else
      match body(args)
      case Return(v) => Unfolding(Ok(v), [], [])
      case Raise(e) => Unfolding(Raised(e), [], [])
      case SelfCall(a, post) =>
        var r := Reference(body, a, n - 1);
        Unfolding(if r.out.Ok? then post(r.out.value) else r.out,
                  [a] + r.calls,
                  r.results + (if r.out.Ok? then [r.out.value] else []))
  }

  /** The index of the first empty argument tuple, or `|calls|` if none. */
  function FirstEmpty(calls: seq<seq<Value>>): (e: nat)
    ensures e <= |calls|
    ensures e < |calls| ==> calls[e] == []
    ensures forall k :: 0 <= k < e ==> calls[k] != []
  {
    if calls == [] then 0
    else if calls[0] == [] then 0
    else 1 + FirstEmpty(calls[1..])
  }

  /** The first argument of each (non-empty) tuple. */
  function FirstArgs(calls: seq<seq<Value>>): (r: seq<Value>)
    requires forall k :: 0 <= k < |calls| ==> calls[k] != []
    ensures |r| == |calls| && forall k :: 0 <= k < |calls| ==> r[k] == calls[k][0]
  {
    if calls == [] then [] else [calls[0][0]] + FirstArgs(calls[1..])
  }

  /** What a run with the wrapper installed shows of an unfolding: the same
      outcome and the first arguments and results of the self-calls, unless a
      self-call passes no positional argument, where the wrapper's `args[0]`
      raises IndexError after logging the self-calls before it. */
  function Observed(u: Unfolding): Run
  {
    var e := FirstEmpty(u.calls);
    if e < |u.calls| then Run(Raised(IndexError), FirstArgs(u.calls[..e]), [])
    else Run(u.out, FirstArgs(u.calls), u.results)
  }

  /** Without the wrapper, running the learner function is its reference
      unfolding and logs nothing. */
  lemma {:induction false} Untraced(ns: map<string, Callable>, name: string, body: seq<Value> -> Step,
                                    args: seq<Value>, session: nat, n: nat)
    requires name in ns && ns[name] == Learner(name, body)
    ensures Exec(ns, Learner(name, body), args, session, n) == Run(Reference(body, args, n).out, [], [])
    decreases n
  {
    if n > 0 {
      match body(args)
      case Return(_) =>
      case Raise(_) =>
      case SelfCall(a, post) =>
        Untraced(ns, name, body, a, session, n - 1);
    }
  }

  /** What one more traced self-call, with a non-empty argument tuple `a`,
      adds to what is observed of the unfolding below it. */
  lemma ObservedStep(a: seq<Value>, post: Value -> Outcome, inner: Unfolding)
    requires a != []
    ensures var o := Observed(inner);
      Observed(Unfolding(if inner.out.Ok? then post(inner.out.value) else inner.out,
                         [a] + inner.calls,
                         inner.results + (if inner.out.Ok? then [inner.out.value] else [])))
      == Run(if o.out.Ok? then post(o.out.value) else o.out,
             [a[0]] + o.ins,
             o.rets + (if o.out.Ok? then [o.out.value] else []))
  {
    var calls := [a] + inner.calls;
    assert calls[1..] == inner.calls;
    var e := FirstEmpty(inner.calls);
    assert FirstEmpty(calls) == 1 + e;
    if e < |inner.calls| {
      assert calls[..1 + e][1..] == inner.calls[..e];
    }
  }

  /** With the name bound to this session's wrapper around the learner
      function, a direct call logs exactly the self-calls of the reference
      unfolding: their first arguments in call order and their results in
      completion order, and returns what the learner function returns. Each
      traced self-call takes two frames, the wrapper's and the function's. */
  lemma {:induction false} Traced(ns: map<string, Callable>, name: string, body: seq<Value> -> Step,
                                  args: seq<Value>, session: nat, n: nat)
    requires name in ns && ns[name] == Wrapper(session, Learner(name, body))
    ensures Exec(ns, Learner(name, body), args, session, 2 * n) == Observed(Reference(body, args, n))
    decreases n
  {
    if n > 0 && body(args).SelfCall? && body(args).args != [] {
      Traced(ns, name, body, body(args).args, session, n - 1);
      TracedSelfCall(ns, name, body, args, session, n);
    }
  }

  /** The inductive step of `Traced` for a self-call with arguments. */
  lemma TracedSelfCall(ns: map<string, Callable>, name: string, body: seq<Value> -> Step,
                       args: seq<Value>, session: nat, n: nat)
    requires name in ns && ns[name] == Wrapper(session, Learner(name, body))
    requires n > 0 && body(args).SelfCall? && body(args).args != []
    requires Exec(ns, Learner(name, body), body(args).args, session, 2 * (n - 1))
          == Observed(Reference(body, body(args).args, n - 1))
    ensures Exec(ns, Learner(name, body), args, session, 2 * n) == Observed(Reference(body, args, n))
  {
    var a, post := body(args).args, body(args).post;
    var o := Exec(ns, Learner(name, body), a, session, 2 * (n - 1));
    var w := Exec(ns, ns[name], a, session, 2 * n - 1);
    assert w == Run(o.out, [a[0]] + o.ins, o.rets + (if o.out.Ok? then [o.out.value] else []));
    assert Exec(ns, Learner(name, body), args, session, 2 * n)
        == Run(if w.out.Ok? then post(w.out.value) else w.out, w.ins, w.rets);
    var inner := Reference(body, a, n - 1);
    assert Reference(body, args, n)
        == Unfolding(if inner.out.Ok? then post(inner.out.value) else inner.out,
                     [a] + inner.calls,
                     inner.results + (if inner.out.Ok? then [inner.out.value] else []));
    ObservedStep(a, post, inner);
  }

  /** An unfolding that returns has seen every self-call return. */
  lemma {:induction false} ReturnedAll(body: seq<Value> -> Step, args: seq<Value>, n: nat)
    requires Reference(body, args, n).out.Ok?
    ensures |Reference(body, args, n).results| == |Reference(body, args, n).calls|
    decreases n
  {
    match body(args)
    case Return(_) =>
    case Raise(_) =>
    case SelfCall(a, post) =>
      ReturnedAll(body, a, n - 1);
  }

  /** Results come in completion order, innermost first: when the unfolding
      returns, the `k`-th self-call's result (counting from the outermost) is
      the `k`-th result from the end, and is what that call returns on its own
      with the frames it had left. */
  lemma {:induction false} CompletionOrder(body: seq<Value> -> Step, args: seq<Value>, n: nat, k: nat)
    requires Reference(body, args, n).out.Ok?
    requires k < |Reference(body, args, n).calls|
    ensures k < n - 1
    ensures |Reference(body, args, n).results| == |Reference(body, args, n).calls|
    ensures Reference(body, Reference(body, args, n).calls[k], n - 1 - k).out.Ok?
    ensures Reference(body, args, n).results[|Reference(body, args, n).results| - 1 - k]
         == Reference(body, Reference(body, args, n).calls[k], n - 1 - k).out.value
    decreases n
  {
    SelfCallShape(body, args, n);
    var a := body(args).args;
    var inner := Reference(body, a, n - 1);
    var u := Reference(body, args, n);
    ReturnedAll(body, a, n - 1);
    if k == 0 {
      assert u.calls[0] == a;
      assert u.results[|u.results| - 1] == inner.out.value;
    } else {
      CompletionOrder(body, a, n - 1, k - 1);
      var c := inner.calls[k - 1];
      assert u.calls[k] == c;
      assert (n - 1) - 1 - (k - 1) == n - 1 - k;
      assert u.results[|u.results| - 1 - k] == inner.results[|inner.results| - 1 - (k - 1)];
    }
  }

  /** An unfolding that returns after a self-call is that self-call's
      unfolding with one call in front and one result at the end. */
  lemma SelfCallShape(body: seq<Value> -> Step, args: seq<Value>, n: nat)
    requires Reference(body, args, n).out.Ok? && Reference(body, args, n).calls != []
    ensures n > 0 && body(args).SelfCall?
    ensures var inner := Reference(body, body(args).args, n - 1);
      && inner.out.Ok?
      && Reference(body, args, n).calls == [body(args).args] + inner.calls
      && Reference(body, args, n).results == inner.results + [inner.out.value]
  {
  }
}
