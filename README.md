# Recursion checker of an autograding harness, in Dafny

The harness grades small learner programs with `unittest`. Its core is
`TestRecursive.check_recursion`. It looks the learner's function up in the
learner's module and rebinds that name to a tracing wrapper. It then calls the
original function once, restores the binding, and judges what the wrapper saw:

- a base case must not raise;
- any other case must call itself (as written, at least twice);
- the first argument must shrink from one self-call to the next;
- the result must be the expected answer.

Around it sit the small checks and formatters the test classes use:

- the answer checks of `TestRecursive` and `TestFunction`;
- the docstring gates of both classes;
- `strip_prompt` and the output check of `TestInputOutput`;
- `callstr()` and `name()` of the case records.

The model has eight modules:

- `Values`: Python values as the harness meets them, `type`, `isinstance`,
  `==`, and the exceptions that can end a call.
- `Text`: the `str` builtins the harness relies on: `isspace`, `lstrip`, `in`,
  `find` and `join`.
- `Cases`: the `FuncCall` and `RecursiveCall` records with `callstr()` and
  `name()`. `repr` is a parameter.
- `Tracer`: learner functions, the module namespace (the class `Module`), and
  the wrapper `inner`. It also holds the interpreter `Exec` that runs one call
  under a frame budget, and the class `TraceLog` holding the two closure lists
  `inputargs` and `retvals`, which `TraceLog.Call` appends to.
- `Checks`: `strip_prompt`, the three `check_result` methods and the verdict
  type. A verdict is passed, failed (an assertion) or errored (an exception).
- `Recursion`: the convergence loop, the verdict on a traced run, and
  `check_recursion` itself as a method that swaps and restores the module
  binding. It also holds the lemmas relating the trace to the function's own
  unfolding.
- `Docstrings`: the two `test_docstring` loops.
- `Scenarios`: a learner's `countdown` function and a few traces run through
  the model.

A learner function is modelled as a body that, given its arguments, returns,
raises, or calls itself once by its own global name and finishes with a
function of what that call returned (linear recursion). Python's recursion
limit is a frame budget `depth`; when it runs out the call raises. Each
`check_recursion` call creates fresh closure lists. The model gives each call
a session number, and a wrapper appends only to the lists of its own session.

The code is followed where its documentation says otherwise:

- An expected answer of `None` is not "unchecked". `check_result` asserts
  `isinstance(result, type(None))`, so the result must be `None` too.
- A function that recurses `k` times leaves `k` entries in `retvals`, not
  `k + 1`. The top-level call goes to the original function, not to the
  wrapper. See Findings.
- The binding is not restored on every exit path. The code has no `finally`:
  after the call raises, the restore is skipped and the wrapper stays
  installed in the learner's module (`Recursion.CheckRecursion`).
- Only exceptions derived from `Exception` are caught. `SystemExit` and
  `KeyboardInterrupt` raised by a base case escape unchanged instead of
  becoming "Base case not handled".

## Model

| member | source | states |
|---|---|---|
| Values.PyEqReflexive | __init__.py:130-133 | every modelled value is `==` to itself, so `assertEqual(x, x)` holds |
| Text.LStrip | __init__.py:18 | `lstrip()` gives a suffix of its input that does not start with whitespace; every dropped character is whitespace |
| Text.Find | __init__.py:18 | `find` gives -1 exactly when `sep` does not occur; otherwise it gives the first index where `sep` occurs |
| Text.JoinCopies | case.py:34 | joining n copies with `", "` has length n·len + (n-1)·2 and starts and ends with a whole copy |
| Checks.StripPrompt | __init__.py:12-19 | the input comes back unchanged exactly when it is blank or lacks `sep`; otherwise the result is a shorter suffix that starts after the character at the first `sep`, what lies between is whitespace, and it does not start with whitespace |
| Checks.CheckOutput | __init__.py:51-59 | passes iff the output is non-blank (when an answer is expected) and occurs in answer + "\n"; a non-empty answer with blank output fails as "no output" |
| Checks.EchoPasses | __init__.py:51-59 | printing the expected answer, with or without the final newline, passes, for an empty or non-blank answer (the next row shows why a whitespace-only answer is excluded) |
| Checks.BlankAnswerUnmeetable | __init__.py:53-59 | a non-empty expected answer made only of whitespace fails for every output |
| Checks.CheckAnswer | __init__.py:120-133 | fails with "returned None" iff an answer is expected and the result is None; fails on type iff the result is not None and not an instance of the answer's class; passes iff it is such an instance and equals the answer |
| Checks.AnswerItselfPasses | __init__.py:120-133 | returning the expected answer itself passes |
| Checks.TypeSensitive | __init__.py:126-129 | 3.0 equals 3 but fails the check for an expected 3 on type |
| Checks.CheckFunctionAnswer | __init__.py:77-90 | never passes; it raises AttributeError exactly where the recursive check would pass or fail on equality, and otherwise agrees with it |
| Checks.FunctionAnswerNeverPasses | __init__.py:87-90 | the expected answer itself passes the recursive check but errors under the function check |
| Cases.NameString | case.py:37-38 | `name()` is the function's name followed by "()", which is `callstr()` of a call without arguments |
| Cases.CallString | case.py:31-35 | `callstr()` starts with the name and "(", ends with ")", and is exactly `name()` for no arguments; for n arguments its length is that of n copies of `repr` of the whole tuple and n - 1 separators ", " inside the parentheses, with a whole copy first and last |
| Cases.CallStringLayout | case.py:34 | for n >= 1 arguments, `callstr()` holds copy j of `repr` of the whole tuple at offset len(name) + 1 + j·(len(copy) + 2) for every j < n, each followed by ", " except the last |
| Text.JoinCopiesLayout | case.py:34 | joining n >= 1 copies of x by sep puts copy j at j·(len(x) + len(sep)) and a separator right after every copy but the last |
| Cases.CallStringIntended | case.py:31-35 | the corrected `callstr()` agrees with the as-written one on no arguments and, for a Python-like `repr`, is the name followed by `repr` of the tuple whenever there is not exactly one argument |
| Cases.WholeTupleRepeated | case.py:34 | for a Python-like `repr` and at least one argument, the as-written `callstr()` differs from the corrected one |
| Tracer.TraceLog.Call | __init__.py:145-149 | one call returns what the interpreter says, and appends to `inputargs` and `retvals` exactly what the wrappers of this session log |
| Tracer.Untraced | __init__.py:152 | the untraced baseline that `Recursion.NonInterference` compares the traced run against: with the name still bound to `orig_func` as looked up before the swap, a call returns what the function's unfolding returns and logs nothing |
| Tracer.Traced | __init__.py:145-149 | with the name bound to the wrapper, a direct call returns what the unfolding returns and logs the first argument of every self-call in call order and every result in completion order; a self-call without arguments raises IndexError after logging the self-calls before it |
| Tracer.ReturnedAll | __init__.py:146-148 | when the call returns, every self-call has logged its result: as many results as self-calls |
| Tracer.CompletionOrder | __init__.py:147-148 | `retvals` is innermost first: the k-th self-call's result is the k-th entry from the end, and is what that call returns on its own |
| Recursion.ConvergenceFrom | __init__.py:178-184 | the loop passes iff every pair of consecutive first arguments is accepted; otherwise it fails on length or value, or raises TypeError |
| Recursion.FirstRejectionReported | __init__.py:178-184 | a failing loop reports the first pair it does not accept, by its index and kind |
| Recursion.CheckConvergence | __init__.py:178-184 | the loop's verdict is `ConvergenceFrom(inputargs, 0)`, and it passes iff every consecutive pair is accepted |
| Recursion.Judge | __init__.py:162-186 | a call raising an Exception errors with "Base case not handled" on a base case and with its own error otherwise, and SystemExit or KeyboardInterrupt always pass through; a returning call fails "does not call itself" iff it is not a base case and `retvals` has at most one entry; the verdict passes iff the call returned, self-called (or is a base case), converged and gave the answer; once the call returned and self-called, a trace that does not converge reports the loop's first rejection before any answer check, and a converging trace gets the answer check's verdict |
| Recursion.Swapped | __init__.py:152-154 | the swap rebinds only the function's name, to a wrapper around what it was bound to |
| Recursion.CheckRecursionWith | __init__.py:135-186 | the verdict is that of the traced run; a missing name raises AttributeError and changes nothing; the module's bindings are restored iff the call returned, and stay swapped after a raise |
| Recursion.CheckRecursion | __init__.py:135-186 | `check_recursion` as written: the verdict of the run whose top-level call is untraced; the module is unchanged when the name is missing, its bindings are restored after a returning call, and the wrapper stays installed after a raising one |
| Recursion.CheckRecursionTracingTop | __init__.py:173-176 | the corrected `check_recursion`, whose top-level call goes through the wrapper, with the same post-state of the bindings |
| Recursion.TraceAsWritten | __init__.py:152-163 | for a case whose name is bound to its own function, the as-written trace is the function's unfolding with the top-level call left out |
| Recursion.TraceTracingTop | __init__.py:173-176 | with the top-level call traced, the trace gains the top-level argument at the front and the top-level result at the end |
| Recursion.NonInterference | __init__.py:145-149 | the wrapper does not change what the function returns, unless some self-call passes no positional argument |
| Recursion.SelfCallNeedsTwo | __init__.py:173-176 | as written, a returning non-base case fails "does not call itself" iff the function calls itself at most once |
| Recursion.SelfCallNeedsOne | __init__.py:173-176 | with the top-level call traced, the same case fails iff the function never calls itself |
| Recursion.BaseCaseRule | __init__.py:162-168 | when the traced call raises an Exception, a base case reports "Base case not handled" and any other case re-raises the error; SystemExit and KeyboardInterrupt are re-raised in every case (a corollary of `Recursion.Judge` for the verdict of a whole learner run) |
| Docstrings.RecursiveDocstrings | __init__.py:188-199 | the loop reports each function at most once, and only if its `__doc__` is absent or empty |
| Docstrings.OnceReportsEach | __init__.py:190-199 | no function is reported twice or after it entered the set, and only undocumented functions of the cases are reported |
| Docstrings.OnceReportsAll | __init__.py:190-199 | every undocumented function not already in the set is reported, however many cases share it |
| Docstrings.FunctionDocstrings | __init__.py:92-102 | `TestFunction`'s loop reports every case whose function is undocumented, one report per case |
| Docstrings.UntilPassedReportsEveryCase | __init__.py:92-102 | an undocumented function never enters the set, so each case that uses it is reported again |
| Docstrings.RepeatedReport | __init__.py:92-102 | two cases sharing one undocumented function give two reports under `TestFunction` and one under `TestRecursive` |
| Scenarios.CountdownTrace | __init__.py:145-149 | tracing `countdown(k)` logs the first arguments k-1 down to 0 and k zeros; with the top-level call traced it also logs k first and one more zero last |
| Scenarios.CountdownDescends | __init__.py:178-184 | both traces of `countdown(k)` pass the convergence loop |
| Scenarios.CountdownAsWritten | __init__.py:173-176 | as written, `countdown(k)` with answer 0 passes iff k >= 2, and otherwise fails "does not call itself" |
| Scenarios.CountdownTracingTop | __init__.py:173-176 | with the top-level call traced, `countdown(k)` passes iff k >= 1 |
| Scenarios.ConvergenceExamples | __init__.py:178-184 | decreasing numbers pass; a rise is reported at its index; an equal-length string fails on length; a list followed by a number raises TypeError; tuples are not checked |

## Left out

- `invoke_script` and the `TIMEOUT` constant: running `main.py` in a subprocess is I/O. Only its output, as a string, enters the model (`Checks.CheckOutput`).
- The `unittest` plumbing: `subTest`, the assertion messages, and the `setUp` stubs that always raise.
- The loops `test_input_output`, `test_function_call` and `test_recursive_call`: each only runs one check per case inside its own `subTest`.
- Floating point: a float is a real number, with no NaN, infinities or rounding.
- `repr` is a parameter. `Cases.TupleReprConsistent` states only how it renders tuples.
- Python object identity is a number. A function object is its identity, name and docstring (`Cases.FuncRef`).
- Keyword arguments: the wrapper forwards `**kwargs` unchanged, and the model has none.
- Learner functions that call themselves more than once in one activation (tree recursion), call other functions, or rebind names are not modelled: a body makes at most one self-call.
- `isinstance` knows only the builtin classes and `bool <: int`. User-defined class hierarchies are not modelled (`OtherV` is an instance of an unrelated class).
- `dict`, `set`, `bytes`, `range`, `Decimal`, `Fraction` and user-defined classes with `__len__` or `__lt__` have no value of their own: they are all `OtherV`, which has no `len` and no ordering. So a pair such as `[1, 2]` followed by `{}` gives TypeError in `Recursion.CheckPair`, where Python compares `len({}) < 2` and passes.
- Values.PyEq and Checks.CheckAnswer: `OtherV` values compare by identity. Python compares `dict`, `set`, `bytes`, `range`, `Decimal` and `Fraction` by content, and `Decimal(3) == 3` and `Fraction(3) == 3` hold. So an answer of one of these classes that is a different object with the same content fails with `WrongAnswer` in the model, where Python's `assertEqual` passes. The same holds for `Recursion.Judge`'s answer step.
- A learner body cannot catch an exception raised by its own self-call: `post` sees only returned values. In Python, `try: r = f(n - 1)` with an `except` that returns normally leaves fewer entries in `retvals` than in `inputargs`. `Tracer.ReturnedAll` and the "iff" of `Recursion.SelfCallNeedsTwo` hold under this restriction only.
- Other subclasses of `BaseException` alone (`GeneratorExit`, user-defined ones) are not modelled; `SystemExit` and `KeyboardInterrupt` are.
- Tracer.Traced: stated for an even frame budget (two frames per traced self-call). Python's real recursion limit and frame accounting are abstracted to `depth`.
- Recursion.ConvergenceFrom and Tracer.Traced: arguments are logged as values, not as references to objects. The wrapper appends the argument object itself, and the loop reads it only after the whole call has finished. A learner that mutates its list argument in place and passes the same object on is not modelled. For example, `total(lst)` that pops from `lst` and recurses on it logs one list several times, and that list is empty by then. Python therefore compares its final length with itself and fails "shorter input"; the model, where each logged argument is a separate value, has no such learner.
- Message texts, including the hard-coded "reverse()" in the convergence messages, are not modelled. Only which assertion failed is modelled.

## Findings

| source | as written | input that shows it | evidently intended | confidence | as-written member | corrected member |
|---|---|---|---|---|---|---|
| __init__.py:163-176 | the top-level call goes to `orig_func`, not the wrapper, so `retvals` holds only the self-calls, yet the check asks for more than one entry ("ignore original call") | a non-base case `countdown(1)` with answer 0, which calls itself once: fails "does not call itself" | a function that calls itself at least once passes: the top-level call is traced (or the bound is 0) | not executed | Recursion.SelfCallNeedsTwo | Recursion.SelfCallNeedsOne |
| case.py:34 | the generator renders `repr(self.args)`, the whole tuple, once per argument | args `(1, 2)` give `f((1, 2), (1, 2))` | each argument's own `repr`: `f(1, 2)` | not executed | Cases.WholeTupleRepeated | Cases.CallStringIntended |
| __init__.py:92-102 | `TestFunction.test_docstring` adds a function to `tested_funcs` only after its docstring passed | two cases sharing one undocumented function give two failing sub-tests | each function is checked once, as `TestRecursive.test_docstring` does by adding it first | not executed | Docstrings.RepeatedReport | Docstrings.OnceReportsAll |
| __init__.py:87 | `self.testcase.assertEqual` names an attribute the test case does not have | any result of the answer's class, e.g. the answer itself: AttributeError | `self.assertEqual`, as in `TestRecursive.check_result` | not executed | Checks.FunctionAnswerNeverPasses | Checks.CheckAnswer |
