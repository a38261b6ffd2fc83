/** Concrete cases run through the model: a learner's count-down function
    checked by `check_recursion`, and the convergence check on a few traces. */
module Scenarios {
  import opened Values
  import opened Tracer
  import opened Checks
  import opened Recursion
  import Cases

  /** A learner's `countdown(k)`: 0 for `k <= 0`, otherwise
      `countdown(k - 1)`; anything but one int argument raises TypeError. */
  function Countdown(args: seq<Value>): Step
  {
    if |args| == 1 && args[0].IntV? then
      if args[0].i <= 0 then Return(IntV(0))
      else SelfCall([IntV(args[0].i - 1)], v => Ok(v))
    else Raise(TypeError)
  }

  /** The module of a case whose function is `countdown`, bound to itself. */
  function CountdownModule(): map<string, Callable>
  {
    map["countdown" := Learner("countdown", Countdown)]
  }

  /** The argument tuples of `countdown(k)`'s self-calls, in call order. */
  function CountdownCalls(k: nat): (r: seq<seq<Value>>)
    ensures |r| == k && forall j :: 0 <= j < k ==> r[j] == [IntV(k - 1 - j)]
  {
    if k == 0 then [] else [[IntV(k - 1)]] + CountdownCalls(k - 1)
  }

  /** `k` zeros: what the self-calls return. */
  function Zeros(k: nat): (r: seq<Value>)
    ensures |r| == k && forall j :: 0 <= j < k ==> r[j] == IntV(0)
  {
    if k == 0 then [] else Zeros(k - 1) + [IntV(0)]
  }

  /** With more than `k` frames, `countdown(k)` returns 0 after calling itself
      with k - 1, ..., 0, each of which returns 0. */
  lemma {:induction false} CountdownUnfolds(k: nat, n: nat)
    requires k < n
    ensures Reference(Countdown, [IntV(k)], n) == Unfolding(Ok(IntV(0)), CountdownCalls(k), Zeros(k))
    decreases k
  {
    if k > 0 {
      CountdownUnfolds(k - 1, n - 1);
    }
  }

  /** The first arguments of those self-calls: k - 1 down to 0. */
  function CountdownArgs(k: nat): (r: seq<Value>)
    ensures |r| == k && forall j :: 0 <= j < k ==> r[j] == IntV(k - 1 - j)
  {
    if k == 0 then [] else [IntV(k - 1)] + CountdownArgs(k - 1)
  }

  /** What the wrapper records of `countdown(k)` with the name rebound. */
  lemma CountdownTrace(session: nat, k: nat)
    ensures TracedRun(CountdownModule(), "countdown", [IntV(k)], session, 2 * (k + 1), false)
         == Run(Ok(IntV(0)), CountdownArgs(k), Zeros(k))
    ensures TracedRun(CountdownModule(), "countdown", [IntV(k)], session, 2 * (k + 1) + 1, true)
         == Run(Ok(IntV(0)), [IntV(k)] + CountdownArgs(k), Zeros(k) + [IntV(0)])
  {
    var calls := CountdownCalls(k);
    CountdownUnfolds(k, k + 1);
    TraceAsWritten(CountdownModule(), "countdown", Countdown, [IntV(k)], session, k + 1);
    TraceTracingTop(CountdownModule(), "countdown", Countdown, [IntV(k)], session, k + 1);
    assert FirstEmpty(calls) == |calls|;
    assert FirstArgs(calls) == CountdownArgs(k);
  }

  /** Both traces strictly decrease. */
  lemma CountdownDescends(k: nat)
    ensures Converges(CountdownArgs(k))
    ensures Converges([IntV(k)] + CountdownArgs(k))
  {
    var ins := CountdownArgs(k);
    forall j | 0 <= j < |ins| - 1 ensures Accepts(ins[j], ins[j + 1]) {
      assert ins[j] == IntV(k - 1 - j) && ins[j + 1] == IntV(k - 2 - j);
    }
    var top := [IntV(k)] + ins;
    forall j | 0 <= j < |top| - 1 ensures Accepts(top[j], top[j + 1]) {
      assert top[j] == IntV(k - j) && top[j + 1] == IntV(k - 1 - j);
    }
  }

  /** `check_recursion` as written on `countdown(k)` with expected answer 0:
      the case passes only from k = 2 on, since `countdown(1)` calls itself
      once and that single self-call is all `retvals` holds. */
  lemma CountdownAsWritten(test: Cases.RecursiveCall, session: nat, k: nat)
    requires test.func.name == "countdown" && test.args == [IntV(k)]
    requires test.ans == IntV(0) && !test.basecase
    ensures RecursionVerdict(CountdownModule(), test, session, 2 * (k + 1), false)
         == if k >= 2 then Passed else Failed(NoSelfCall)
  {
    CountdownTrace(session, k);
    CountdownDescends(k);
    AnswerItselfPasses(IntV(0));
  }

  /** With the top-level call traced, the same case passes from k = 1 on. */
  lemma CountdownTracingTop(test: Cases.RecursiveCall, session: nat, k: nat)
    requires test.func.name == "countdown" && test.args == [IntV(k)]
    requires test.ans == IntV(0) && !test.basecase
    ensures RecursionVerdict(CountdownModule(), test, session, 2 * (k + 1) + 1, true)
         == if k >= 1 then Passed else Failed(NoSelfCall)
  {
    CountdownTrace(session, k);
    CountdownDescends(k);
    AnswerItselfPasses(IntV(0));
  }

  /** Strictly decreasing numbers pass; the first pair that does not decrease
      is reported by its index; a list followed by a number cannot be measured. */
  lemma ConvergenceExamples()
    ensures ConvergenceFrom([IntV(5), IntV(3), FloatV(0.5)], 0) == Passed
    ensures ConvergenceFrom([IntV(5), IntV(6), IntV(1)], 0) == Failed(NotSmaller(0))
    ensures ConvergenceFrom([StrV("ab"), StrV("ab")], 0) == Failed(NotShorter(0))
    ensures ConvergenceFrom([ListV([IntV(1)]), IntV(0)], 0) == Errored(TypeError)
    ensures ConvergenceFrom([TupleV([IntV(1)]), TupleV([IntV(1), IntV(2)])], 0) == Passed
  {
    assert ConvergenceFrom([IntV(5), IntV(3), FloatV(0.5)], 1) == Passed;
  }
}
