/** `TestRecursive.check_recursion`: swap the tracing wrapper into the module,
    call the function once, restore the binding, then judge the trace: the
    base-case rule, the self-call check, the convergence check over
    consecutive first arguments, and the answer check. */
module Recursion {
  import opened Values
  import opened Tracer
  import opened Checks
  import Cases

  // ---------------------------------------------------------------------
  // Convergence
  // ---------------------------------------------------------------------

  /** What the loop body does with the pair `(a, b)` of consecutive first
      arguments. Only the class of the earlier one `a` picks the branch. */
  datatype PairCheck = Shrinks | Unchecked | LengthNotLess | ValueNotLess | Incomparable

  function CheckPair(a: Value, b: Value): PairCheck
  {
    if a.ListV? || a.StrV? then
      (if !IsSized(b) then Incomparable          // len(b) raises TypeError
       else if Len(b) < Len(a) then Shrinks else LengthNotLess)
    else if IsNumber(a) then
      (if !IsNumber(b) then Incomparable         // b < a raises TypeError
       else if Num(b) < Num(a) then Shrinks else ValueNotLess)
    else Unchecked
  }

  /** The pair passes the loop body. */
  predicate Accepts(a: Value, b: Value)
  {
    CheckPair(a, b) == Shrinks || CheckPair(a, b) == Unchecked
  }

  /** Every consecutive pair of first arguments passes. */
  predicate Converges(ins: seq<Value>)
  {
    forall i :: 0 <= i < |ins| - 1 ==> Accepts(ins[i], ins[i + 1])
  }

  /** The verdict the loop body gives a pair it does not accept. */
  function Rejection(p: PairCheck, i: nat): Verdict
  {
    match p
    case LengthNotLess => Failed(NotShorter(i))
    case ValueNotLess => Failed(NotSmaller(i))
    case _ => Errored(TypeError)
  }

  /** The loop `for i in range(len(inputargs) - 1)` from index `i` on: the
      first pair not accepted decides, and if there is none the loop passes. */
  function ConvergenceFrom(ins: seq<Value>, i: nat): (v: Verdict)
    ensures v == Passed <==> forall j :: i <= j < |ins| - 1 ==> Accepts(ins[j], ins[j + 1])
    ensures v == Passed || v == Errored(TypeError) || (v.Failed? && (v.failure.NotShorter? || v.failure.NotSmaller?))
    decreases |ins| - i
  {
    if i + 1 >= |ins| then Passed
    else if Accepts(ins[i], ins[i + 1]) then ConvergenceFrom(ins, i + 1)
    else Rejection(CheckPair(ins[i], ins[i + 1]), i)
  }

  /** When the check does not pass, it reports the first pair that is not
      accepted, and how it failed there. */
  lemma {:induction false} FirstRejectionReported(ins: seq<Value>, i: nat, k: nat)
    requires i <= k < |ins| - 1 && !Accepts(ins[k], ins[k + 1])
    requires forall l :: i <= l < k ==> Accepts(ins[l], ins[l + 1])
    ensures ConvergenceFrom(ins, i) == Rejection(CheckPair(ins[k], ins[k + 1]), k)
    decreases k - i
  {
    if i < k {
      FirstRejectionReported(ins, i + 1, k);
    }
  }

  /** The loop itself. */
  method CheckConvergence(inputargs: seq<Value>) returns (v: Verdict)
    ensures v == ConvergenceFrom(inputargs, 0)
    ensures v == Passed <==> Converges(inputargs)
  {
    var i := 0;
    while i + 1 < |inputargs|
      invariant i == 0 || i < |inputargs|
      invariant forall l :: 0 <= l < i ==> Accepts(inputargs[l], inputargs[l + 1])
      invariant ConvergenceFrom(inputargs, i) == ConvergenceFrom(inputargs, 0)
    {
      var p := CheckPair(inputargs[i], inputargs[i + 1]);
      if p != Shrinks && p != Unchecked {
        return Rejection(p, i);
      }
      i := i + 1;
    }
    return Passed;
  }

  // ---------------------------------------------------------------------
  // The verdict on one traced run
  // ---------------------------------------------------------------------

  /** What leaves the `try` around the call when it raises: `except
      Exception` turns an error on a base case into "Base case not handled"
      and re-raises any other; SystemExit and KeyboardInterrupt pass through
      untouched. */
  function Escaping(basecase: bool, e: Exc): Exc
  {
    if basecase && IsException(e) then BaseCaseNotHandled else e
  }

  /** Everything after the call: the base-case rule on a raising call, then
      the self-call check, the convergence check and the answer check, each
      stopping at its first failing assertion. */
  function Judge(basecase: bool, ans: Value, run: Run): (v: Verdict)
    ensures run.out.Raised? ==> v == Errored(if basecase && IsException(run.out.error) then BaseCaseNotHandled
                                             else run.out.error)
    ensures run.out.Ok? ==> (v == Failed(NoSelfCall) <==> !basecase && |run.rets| <= 1)
    ensures v == Passed <==> && run.out.Ok?
                             && (basecase || |run.rets| > 1)
                             && Converges(run.ins)
                             && IsInstance(run.out.value, TypeOf(ans)) && PyEq(run.out.value, ans)
    ensures run.out.Ok? && (basecase || |run.rets| > 1) && !Converges(run.ins) ==> v == ConvergenceFrom(run.ins, 0)
    ensures run.out.Ok? && (basecase || |run.rets| > 1) && Converges(run.ins) ==> v == CheckAnswer(ans, run.out.value)
  {
    if run.out.Raised? then Errored(Escaping(basecase, run.out.error))
    else if !basecase && |run.rets| <= 1 then Failed(NoSelfCall)
    else
      var c := ConvergenceFrom(run.ins, 0);
      if c != Passed then c
      else CheckAnswer(ans, run.out.value)
  }

  /** The swap: the module's names with `name` rebound to this session's
      wrapper around what it was bound to. */
  function Swapped(ns: map<string, Callable>, name: string, session: nat): (ns': map<string, Callable>)
    requires name in ns
    ensures ns'.Keys == ns.Keys && ns'[name] == Wrapper(session, ns[name])
    ensures forall other :: other in ns && other != name ==> ns'[other] == ns[other]
  {
    ns[name := Wrapper(session, ns[name])]
  }

  /** The traced run: the top-level call goes to the displaced function
      itself, or, with `traceTop`, to the wrapper. */
  function TracedRun(ns: map<string, Callable>, name: string, args: seq<Value>, session: nat,
                     depth: nat, traceTop: bool): Run
    requires name in ns
  {
    var ns' := Swapped(ns, name, session);
    Exec(ns', if traceTop then ns'[name] else ns[name], args, session, depth)
  }

  /** The outcome of `check_recursion(test)` when the module's names are bound
      as in `ns`. `getattr` on a missing name raises AttributeError. */
  function RecursionVerdict(ns: map<string, Callable>, test: Cases.RecursiveCall, session: nat,
                            depth: nat, traceTop: bool): Verdict
  {
    if test.func.name !in ns then Errored(AttributeError)
    else Judge(test.basecase, test.ans, TracedRun(ns, test.func.name, test.args, session, depth, traceTop))
  }

  /** `check_recursion(test)` as written (`traceTop` false) or with the
      top-level call traced too (`traceTop` true). The binding is restored
      after a call that returns; after a call that raises, the restore is
      skipped and the wrapper stays installed. */
  method CheckRecursionWith(test: Cases.RecursiveCall, session: nat, depth: nat, traceTop: bool)
    returns (v: Verdict)
    requires SessionFresh(test.namespace.bindings, session)
    modifies test.namespace
    ensures v == RecursionVerdict(old(test.namespace.bindings), test, session, depth, traceTop)
    ensures test.func.name !in old(test.namespace.bindings) ==> test.namespace.bindings == old(test.namespace.bindings)
    ensures test.func.name in old(test.namespace.bindings) ==>
      var name := test.func.name;
      test.namespace.bindings ==
        if TracedRun(old(test.namespace.bindings), name, test.args, session, depth, traceTop).out.Ok?
        then old(test.namespace.bindings)
        else Swapped(old(test.namespace.bindings), name, session)
  {
    var m := test.namespace;
    var name := test.func.name;
    if name !in m.bindings {
      return Errored(AttributeError);
    }
    ghost var before := m.bindings;
    var origFunc := m.bindings[name];
    var wrappedFunc := Wrapper(session, origFunc);
    m.bindings := m.bindings[name := wrappedFunc];
    assert m.bindings == Swapped(before, name, session);

    var log := new TraceLog(session);
    var result := log.Call(m.bindings, if traceTop then wrappedFunc else origFunc, test.args, depth);
    ghost var run := Run(result, log.inputargs, log.retvals);
    assert run == TracedRun(before, name, test.args, session, depth, traceTop);
    if result.Raised? {
      return Errored(Escaping(test.basecase, result.error));
    }
    m.bindings := m.bindings[name := origFunc];
    assert m.bindings == before;

    if !test.basecase && |log.retvals| <= 1 {
      return Failed(NoSelfCall);
    }
    v := CheckConvergence(log.inputargs);
    if v != Passed {
      return v;
    }
    v := CheckAnswer(test.ans, result.value);
  }

  /** `check_recursion(test)` as written: the top-level call is not traced. */
  method CheckRecursion(test: Cases.RecursiveCall, session: nat, depth: nat) returns (v: Verdict)
    requires SessionFresh(test.namespace.bindings, session)
    modifies test.namespace
    ensures v == RecursionVerdict(old(test.namespace.bindings), test, session, depth, false)
    ensures test.func.name !in old(test.namespace.bindings) ==> test.namespace.bindings == old(test.namespace.bindings)
    ensures test.func.name in old(test.namespace.bindings) ==>
      var name := test.func.name;
      test.namespace.bindings ==
        if TracedRun(old(test.namespace.bindings), name, test.args, session, depth, false).out.Ok?
        then old(test.namespace.bindings)
        else Swapped(old(test.namespace.bindings), name, session)
  {
    v := CheckRecursionWith(test, session, depth, false);
  }

  /** `check_recursion(test)` with the top-level call going through the
      wrapper, so that `retvals` holds one more entry than there are
      self-calls, as the self-call check's "ignore original call" expects. */
  method CheckRecursionTracingTop(test: Cases.RecursiveCall, session: nat, depth: nat) returns (v: Verdict)
    requires SessionFresh(test.namespace.bindings, session)
    modifies test.namespace
    ensures v == RecursionVerdict(old(test.namespace.bindings), test, session, depth, true)
    ensures test.func.name !in old(test.namespace.bindings) ==> test.namespace.bindings == old(test.namespace.bindings)
    ensures test.func.name in old(test.namespace.bindings) ==>
      var name := test.func.name;
      test.namespace.bindings ==
        if TracedRun(old(test.namespace.bindings), name, test.args, session, depth, true).out.Ok?
        then old(test.namespace.bindings)
        else Swapped(old(test.namespace.bindings), name, session)
  {
    v := CheckRecursionWith(test, session, depth, true);
  }

  // ---------------------------------------------------------------------
  // What the verdict says about a well-formed case
  // ---------------------------------------------------------------------

  /** A case whose function's name is bound to that function itself in its
      module, as the cases are written. */
  ghost predicate WellBound(ns: map<string, Callable>, name: string, body: seq<Value> -> Step)
  {
    name in ns && ns[name] == Learner(name, body)
  }

  /** As written, the trace of a well-bound case is the reference unfolding
      of the learner function with the top-level call left out. */
  lemma TraceAsWritten(ns: map<string, Callable>, name: string, body: seq<Value> -> Step,
                       args: seq<Value>, session: nat, n: nat)
    requires WellBound(ns, name, body)
    ensures TracedRun(ns, name, args, session, 2 * n, false) == Observed(Reference(body, args, n))
  {
    Traced(Swapped(ns, name, session), name, body, args, session, n);
  }

  /** With the top-level call traced, the trace gains the top-level argument
      in front and the top-level result at the end. */
  lemma TraceTracingTop(ns: map<string, Callable>, name: string, body: seq<Value> -> Step,
                        args: seq<Value>, session: nat, n: nat)
    requires WellBound(ns, name, body)
    ensures var o := Observed(Reference(body, args, n));
      TracedRun(ns, name, args, session, 2 * n + 1, true) ==
        if args == [] then Run(Raised(IndexError), [], [])
        else Run(o.out, [args[0]] + o.ins, o.rets + (if o.out.Ok? then [o.out.value] else []))
  {
    Traced(Swapped(ns, name, session), name, body, args, session, n);
  }

  /** Tracing does not change what the learner function returns: unless some
      self-call passes no positional argument, the traced call ends exactly as
      the untraced one with half the stack. */
  lemma NonInterference(ns: map<string, Callable>, name: string, body: seq<Value> -> Step,
                        args: seq<Value>, session: nat, n: nat)
    requires WellBound(ns, name, body)
    requires forall k :: 0 <= k < |Reference(body, args, n).calls| ==> Reference(body, args, n).calls[k] != []
    ensures TracedRun(ns, name, args, session, 2 * n, false).out == Exec(ns, ns[name], args, session, n).out
  {
    TraceAsWritten(ns, name, body, args, session, n);
    Untraced(ns, name, body, args, session, n);
  }

  /** As written, a case that is not a base case passes the self-call check
      only when the function calls itself at least TWICE: the top-level call
      is not in `retvals`. */
  lemma SelfCallNeedsTwo(ns: map<string, Callable>, test: Cases.RecursiveCall, body: seq<Value> -> Step,
                         session: nat, n: nat)
    requires WellBound(ns, test.func.name, body) && !test.basecase
    requires Reference(body, test.args, n).out.Ok?
    requires forall k :: 0 <= k < |Reference(body, test.args, n).calls| ==> Reference(body, test.args, n).calls[k] != []
    ensures RecursionVerdict(ns, test, session, 2 * n, false) == Failed(NoSelfCall)
            <==> |Reference(body, test.args, n).calls| <= 1
  {
    TraceAsWritten(ns, test.func.name, body, test.args, session, n);
    ReturnedAll(body, test.args, n);
  }

  /** With the top-level call traced, the self-call check fails exactly when
      the function never calls itself. */
  lemma SelfCallNeedsOne(ns: map<string, Callable>, test: Cases.RecursiveCall, body: seq<Value> -> Step,
                         session: nat, n: nat)
    requires WellBound(ns, test.func.name, body) && !test.basecase && test.args != []
    requires Reference(body, test.args, n).out.Ok?
    requires forall k :: 0 <= k < |Reference(body, test.args, n).calls| ==> Reference(body, test.args, n).calls[k] != []
    ensures RecursionVerdict(ns, test, session, 2 * n + 1, true) == Failed(NoSelfCall)
            <==> |Reference(body, test.args, n).calls| == 0
  {
    TraceTracingTop(ns, test.func.name, body, test.args, session, n);
    ReturnedAll(body, test.args, n);
  }

  /** The base-case rule: when the traced call raises an Exception, a base
      case reports "Base case not handled" and any other case passes the error
      on; SystemExit and KeyboardInterrupt always pass through. */
  lemma BaseCaseRule(ns: map<string, Callable>, test: Cases.RecursiveCall, session: nat, depth: nat, traceTop: bool)
    requires test.func.name in ns
    requires TracedRun(ns, test.func.name, test.args, session, depth, traceTop).out.Raised?
    ensures var e := TracedRun(ns, test.func.name, test.args, session, depth, traceTop).out.error;
      RecursionVerdict(ns, test, session, depth, traceTop) ==
        if test.basecase && IsException(e) then Errored(BaseCaseNotHandled) else Errored(e)
  {
  }
}
