/** The docstring gates `TestRecursive.test_docstring` and
    `TestFunction.test_docstring`: each walks the cases, remembering the
    functions it has dealt with in a set, and fails a function whose
    `__doc__` is absent or empty. They differ in WHEN a function enters the
    set. Both take the cases' functions in case order; the failures they
    return stand for the failing sub-tests, in order. */
module Docstrings {
  import Cases

  type FuncRef = Cases.FuncRef

  /** `not func.__doc__` (a function always has the attribute; it is None
      when there is no docstring). */
  predicate Undocumented(f: FuncRef)
  {
    f.doc.None? || f.doc.value == ""
  }

  /** One function object never changes docstring: the same identity always
      comes with the same record. */
  ghost predicate Consistent(fs: seq<FuncRef>)
  {
    forall i, j :: 0 <= i < |fs| && 0 <= j < |fs| && fs[i].id == fs[j].id ==> fs[i] == fs[j]
  }

  function Ids(fs: seq<FuncRef>): set<nat>
  {
    set k | 0 <= k < |fs| :: fs[k].id
  }

  /** The identities of the undocumented functions in `fs`. */
  function UndocumentedIds(fs: seq<FuncRef>): set<nat>
  {
    set k | 0 <= k < |fs| && Undocumented(fs[k]) :: fs[k].id
  }

  /** The undocumented entries of `fs`, in order, repeats included. */
  function UndocumentedEntries(fs: seq<FuncRef>): (r: seq<FuncRef>)
    ensures forall f :: f in r ==> f in fs && Undocumented(f)
  {
    if fs == [] then []
    else (if Undocumented(fs[0]) then [fs[0]] else []) + UndocumentedEntries(fs[1..])
  }

  // ---------------------------------------------------------------------
  // TestRecursive.test_docstring: a function enters the set before it is checked
  // ---------------------------------------------------------------------

  /** The failures of the loop over `fs` when the identities in `seen` are
      already in `tested_funcs`. */
  function ScanOnce(fs: seq<FuncRef>, seen: set<nat>): seq<FuncRef>
  {
    if fs == [] then []
    else if fs[0].id in seen then ScanOnce(fs[1..], seen)
    else (if Undocumented(fs[0]) then [fs[0]] else []) + ScanOnce(fs[1..], seen + {fs[0].id})
  }

  method RecursiveDocstrings(funcs: seq<FuncRef>) returns (failed: seq<FuncRef>)
    ensures failed == ScanOnce(funcs, {})
    ensures forall i, j :: 0 <= i < j < |failed| ==> failed[i].id != failed[j].id
    ensures forall f :: f in failed ==> Undocumented(f) && f in funcs
  {
    var tested: set<nat> := {};
    failed := [];
    var i := 0;
    while i < |funcs|
      invariant 0 <= i <= |funcs|
      invariant failed + ScanOnce(funcs[i..], tested) == ScanOnce(funcs, {})
    {
      var f := funcs[i];
      assert funcs[i..][1..] == funcs[i + 1..];
      if f.id !in tested {
        tested := tested + {f.id};
        if Undocumented(f) {
          failed := failed + [f];
        }
      }
      i := i + 1;
    }
    OnceReportsEach(funcs, {});
  }

  /** Each function is reported at most once, only if undocumented, and never
      if it was already in the set. */
  lemma {:induction false} OnceReportsEach(fs: seq<FuncRef>, seen: set<nat>)
    ensures var r := ScanOnce(fs, seen);
      && (forall i, j :: 0 <= i < j < |r| ==> r[i].id != r[j].id)
      && (forall f :: f in r ==> f.id !in seen && Undocumented(f) && f in fs)
    decreases |fs|
  {
    if fs != [] {
      OnceReportsEach(fs[1..], seen);
      OnceReportsEach(fs[1..], seen + {fs[0].id});
    }
  }

  /** ...and every undocumented function is reported, whatever number of
      cases share it. */
  lemma {:induction false} OnceReportsAll(fs: seq<FuncRef>, seen: set<nat>)
    requires Consistent(fs)
    ensures Ids(ScanOnce(fs, seen)) == UndocumentedIds(fs) - seen
    decreases |fs|
  {
    if fs != [] {
      var rest := fs[1..];
      assert Consistent(rest) by {
        forall i, j | 0 <= i < |rest| && 0 <= j < |rest| && rest[i].id == rest[j].id
          ensures rest[i] == rest[j]
        {
          assert rest[i] == fs[i + 1] && rest[j] == fs[j + 1];
        }
      }
      assert UndocumentedIds(fs) == (if Undocumented(fs[0]) then {fs[0].id} else {}) + UndocumentedIds(rest) by {
        forall x | x in UndocumentedIds(fs)
          ensures x in (if Undocumented(fs[0]) then {fs[0].id} else {}) + UndocumentedIds(rest)
        {
          var k :| 0 <= k < |fs| && Undocumented(fs[k]) && fs[k].id == x;
          if k > 0 { assert rest[k - 1] == fs[k]; }
        }
        forall x | x in UndocumentedIds(rest) ensures x in UndocumentedIds(fs) {
          var k :| 0 <= k < |rest| && Undocumented(rest[k]) && rest[k].id == x;
          assert fs[k + 1] == rest[k];
        }
      }
      if fs[0].id in seen {
        OnceReportsAll(rest, seen);
      } else {
        OnceReportsAll(rest, seen + {fs[0].id});
        var head := if Undocumented(fs[0]) then [fs[0]] else [];
        IdsOfConcat(head, ScanOnce(rest, seen + {fs[0].id}));
        if !Undocumented(fs[0]) {
          forall k | 0 <= k < |rest| && rest[k].id == fs[0].id ensures !Undocumented(rest[k]) {
            assert rest[k] == fs[k + 1];
          }
        }
      }
    }
  }

  lemma IdsOfConcat(a: seq<FuncRef>, b: seq<FuncRef>)
    ensures Ids(a + b) == Ids(a) + Ids(b)
  {
    var ab := a + b;
    forall x | x in Ids(ab) ensures x in Ids(a) + Ids(b) {
      var k :| 0 <= k < |ab| && ab[k].id == x;
      if k >= |a| { assert ab[k] == b[k - |a|]; }
    }
    forall x | x in Ids(b) ensures x in Ids(ab) {
      var k :| 0 <= k < |b| && b[k].id == x;
      assert ab[|a| + k] == b[k];
    }
    forall x | x in Ids(a) ensures x in Ids(ab) {
      var k :| 0 <= k < |a| && a[k].id == x;
      assert ab[k] == a[k];
    }
  }

  // ---------------------------------------------------------------------
  // TestFunction.test_docstring: a function enters the set only once it passed
  // ---------------------------------------------------------------------

  function ScanUntilPassed(fs: seq<FuncRef>, seen: set<nat>): seq<FuncRef>
  {
    if fs == [] then []
    else if fs[0].id in seen then ScanUntilPassed(fs[1..], seen)
    else if Undocumented(fs[0]) then [fs[0]] + ScanUntilPassed(fs[1..], seen)
    else ScanUntilPassed(fs[1..], seen + {fs[0].id})
  }

  method FunctionDocstrings(funcs: seq<FuncRef>) returns (failed: seq<FuncRef>)
    ensures failed == ScanUntilPassed(funcs, {})
    ensures Consistent(funcs) ==> failed == UndocumentedEntries(funcs)
  {
    var tested: set<nat> := {};
    failed := [];
    var i := 0;
    while i < |funcs|
      invariant 0 <= i <= |funcs|
      invariant failed + ScanUntilPassed(funcs[i..], tested) == ScanUntilPassed(funcs, {})
    {
      var f := funcs[i];
      assert funcs[i..][1..] == funcs[i + 1..];
      if f.id !in tested {
        if Undocumented(f) {
          failed := failed + [f];
        } else {
          tested := tested + {f.id};
        }
      }
      i := i + 1;
    }
    if Consistent(funcs) {
      UntilPassedReportsEveryCase(funcs, {});
    }
  }

  /** As written, an undocumented function never enters the set, so it is
      reported once for EVERY case that uses it. */
  lemma {:induction false} UntilPassedReportsEveryCase(fs: seq<FuncRef>, seen: set<nat>)
    requires Consistent(fs)
    requires forall k :: 0 <= k < |fs| && fs[k].id in seen ==> !Undocumented(fs[k])
    ensures ScanUntilPassed(fs, seen) == UndocumentedEntries(fs)
    decreases |fs|
  {
    if fs != [] {
      var rest := fs[1..];
      assert Consistent(rest) by {
        forall i, j | 0 <= i < |rest| && 0 <= j < |rest| && rest[i].id == rest[j].id
          ensures rest[i] == rest[j]
        {
          assert rest[i] == fs[i + 1] && rest[j] == fs[j + 1];
        }
      }
      var seen' := if fs[0].id in seen || Undocumented(fs[0]) then seen else seen + {fs[0].id};
      forall k | 0 <= k < |rest| && rest[k].id in seen' ensures !Undocumented(rest[k]) {
        assert rest[k] == fs[k + 1];
      }
      UntilPassedReportsEveryCase(rest, seen');
    }
  }

  /** The defect in one picture: two cases sharing one undocumented function
      fail twice under TestFunction and once under TestRecursive. */
  lemma RepeatedReport(f: FuncRef)
    requires Undocumented(f)
    ensures ScanUntilPassed([f, f], {}) == [f, f]
    ensures ScanOnce([f, f], {}) == [f]
  {
    assert [f, f][1..] == [f] && [f][1..] == [];
    assert ScanUntilPassed([f], {}) == [f];
    assert ScanOnce([f], {f.id}) == [];
    var none: set<nat> := {};
    assert none + {f.id} == {f.id};
    assert ScanOnce([f, f], none) == [f] + ScanOnce([f], {f.id});
  }
}
