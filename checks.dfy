/** The single-expression checks of the harness: `strip_prompt`,
    `TestInputOutput.check_result`, `TestRecursive.check_result` and
    `TestFunction.check_result`. A check's outcome is a verdict: it passes, an
    assertion fails (unittest's "failure"), or an exception escapes (unittest's
    "error"). */
module Checks {
  import opened Values
  import opened Text

  datatype Failure =
    | ReturnedNone        // assertIsNotNone on the result
    | WrongType           // assertIsInstance(result, type(ans))
    | WrongAnswer         // assertEqual(result, ans)
    | NoOutput            // assertNotEqual(result.strip(), "")
    | OutputMismatch      // assertIn(result, answer + "\n")
    | NoSelfCall          // assertGreater(len(retvals), 1)
    | NotShorter(index: nat)  // assertLess on lengths, at pair `index`
    | NotSmaller(index: nat)  // assertLess on values, at pair `index`

  datatype Verdict = Passed | Failed(failure: Failure) | Errored(error: Exc)

  /** `strip_prompt(stdout, sep)`: when `stdout` is not blank and contains
      `sep`, drop everything up to and including the character at the first
      occurrence of `sep` (only that one character: `find(sep) + 1`), then the
      whitespace that follows; otherwise return `stdout` unchanged. */
  function StripPrompt(stdout: string, sep: string): (r: string)
    ensures IsBlank(stdout) || !Contains(stdout, sep) ==> r == stdout
    ensures !IsBlank(stdout) && Contains(stdout, sep) ==>
      var cut := Find(stdout, sep) + 1;
      && 0 < cut <= |stdout|
      && |r| <= |stdout| - cut
      && r == stdout[|stdout| - |r|..]
      && (forall k :: cut <= k < |stdout| - |r| ==> IsSpace(stdout[k]))
      && (r == [] || !IsSpace(r[0]))
    ensures r == stdout <==> IsBlank(stdout) || !Contains(stdout, sep)
  {
    if !IsBlank(stdout) && Contains(stdout, sep) then
      var cut := Find(stdout, sep) + 1;
      assert cut <= |stdout| by {
        if |sep| == 0 { assert !IsBlank(stdout); }
      }
      var rest := stdout[cut..];
      var r := LStrip(rest);
      assert stdout[|stdout| - |r|..] == rest[|rest| - |r|..];
      r
    else stdout
  }

  /** `TestInputOutput.check_result(result, answer)`: when an answer is
      expected the output must not be blank, and the output must occur in the
      answer followed by a newline. */
  function CheckOutput(result: string, answer: string): (v: Verdict)
    ensures v == Passed <==> (answer == "" || !IsBlank(result)) && Contains(answer + "\n", result)
    ensures v == Failed(NoOutput) <==> answer != "" && IsBlank(result)
    ensures v == Passed || v == Failed(NoOutput) || v == Failed(OutputMismatch)
  {
    if answer != "" && IsBlank(result) then Failed(NoOutput)
    else if !Contains(answer + "\n", result) then Failed(OutputMismatch)
    else Passed
  }

  /** Printing exactly the expected answer, with or without the final
      newline, passes whenever the answer is empty or not blank. */
  lemma EchoPasses(answer: string)
    requires answer == "" || !IsBlank(answer)
    ensures CheckOutput(answer, answer) == Passed
    ensures CheckOutput(answer + "\n", answer) == Passed
  {
    var full := answer + "\n";
    assert OccursAt(full, answer, 0) by { assert full[0..|answer|] == answer; }
    assert OccursAt(full, full, 0) by { assert full[0..|full|] == full; }
    if answer != "" {
      var k :| 0 <= k < |answer| && !IsSpace(answer[k]);
      assert full[k] == answer[k];
    }
  }

  /** A non-empty but blank expected answer can never be met: the output
      would have to be non-blank and yet lie inside whitespace. */
  lemma {:induction false} BlankAnswerUnmeetable(result: string, answer: string)
    requires answer != "" && IsBlank(answer)
    ensures CheckOutput(result, answer) != Passed
  {
    var full := answer + "\n";
    if Contains(full, result) {
      var i :| 0 <= i <= |full| && OccursAt(full, result, i);
      forall k | 0 <= k < |result| ensures IsSpace(result[k]) {
        assert result[k] == full[i..i + |result|][k] == full[i + k];
      }
    }
  }

  /** `TestRecursive.check_result(test, result)`: when an answer is expected
      the result must not be None; it must be an instance of the answer's
      class; and it must equal the answer. An expected answer of None thus
      demands a result of None. */
  function CheckAnswer(ans: Value, result: Value): (v: Verdict)
    ensures v == Passed <==> IsInstance(result, TypeOf(ans)) && PyEq(result, ans)
    ensures v == Failed(ReturnedNone) <==> !ans.NoneV? && result.NoneV?
    ensures v == Failed(WrongType) <==> !result.NoneV? && !IsInstance(result, TypeOf(ans))
    ensures v == Passed || v == Failed(ReturnedNone) || v == Failed(WrongType) || v == Failed(WrongAnswer)
  {
    if !ans.NoneV? && result.NoneV? then Failed(ReturnedNone)
    else if !IsInstance(result, TypeOf(ans)) then Failed(WrongType)
    else if !PyEq(result, ans) then Failed(WrongAnswer)
    else Passed
  }

  /** Returning the expected answer itself always passes. */
  lemma AnswerItselfPasses(ans: Value)
    ensures CheckAnswer(ans, ans) == Passed
  {
    PyEqReflexive(ans);
  }

  /** Equality alone is not enough: 3.0 for an expected 3 is the wrong type,
      though the two compare equal. */
  lemma TypeSensitive()
    ensures PyEq(FloatV(3.0), IntV(3))
    ensures CheckAnswer(IntV(3), FloatV(3.0)) == Failed(WrongType)
  {
  }

  /** `TestFunction.check_result(test, result)` as written: the same first two
      assertions, but the last reads `self.testcase`, an attribute that does
      not exist, so the check raises AttributeError instead of comparing. */
  function CheckFunctionAnswer(ans: Value, result: Value): (v: Verdict)
    ensures v != Passed
    ensures v == Errored(AttributeError) <==> CheckAnswer(ans, result) in {Passed, Failed(WrongAnswer)}
    ensures v != Errored(AttributeError) ==> v == CheckAnswer(ans, result)
  {
    if !ans.NoneV? && result.NoneV? then Failed(ReturnedNone)
    else if !IsInstance(result, TypeOf(ans)) then Failed(WrongType)
    else Errored(AttributeError)
  }

  /** The defect in one picture: the expected answer itself, which the
      recursive check accepts, errors under the function check. */
  lemma FunctionAnswerNeverPasses(ans: Value)
    ensures CheckAnswer(ans, ans) == Passed
    ensures CheckFunctionAnswer(ans, ans) == Errored(AttributeError)
  {
    AnswerItselfPasses(ans);
  }
}
