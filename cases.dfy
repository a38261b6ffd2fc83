/** The test-case records (`FuncCall`, `RecursiveCall`) and their two
    formatters, `callstr()` and `name()`. `repr` is a parameter: Python's
    `repr` is not part of this model. */
module Cases {
  import opened Values
  import opened Text
  import Tracer

  /** What a case knows of its function object: its identity, `__name__` and
      `__doc__`. */
  datatype FuncRef = FuncRef(id: nat, name: string, doc: Option<string>)

  /** `FuncCall(func, args, ans, output)` */
  datatype FuncCall = FuncCall(func: FuncRef, args: seq<Value>, ans: Value, output: string)
  {
    function CallStr(repr: Value -> string): string { CallString(func.name, args, repr) }
    function Name(): string { NameString(func.name) }
  }

  /** `RecursiveCall(module, func, args, ans, output, basecase)`; the module
      field is called `namespace`, `module` being a Dafny keyword. */
  datatype RecursiveCall = RecursiveCall(namespace: Tracer.Module, func: FuncRef, args: seq<Value>,
                                         ans: Value, output: string, basecase: bool)
  {
    function CallStr(repr: Value -> string): string { CallString(func.name, args, repr) }
    function Name(): string { NameString(func.name) }
  }

  /** `name()`: the function's name followed by "()", which is also what
      `callstr()` gives for a call without arguments. */
  function NameString(name: string): (r: string)
    ensures |r| == |name| + 2 && r[..|name|] == name && r[|name|..] == "()"
    ensures forall repr: Value -> string :: r == CallString(name, [], repr)
  {
    name + "()"
  }

  /** `callstr()` as written: the name, then in parentheses `repr(args)` of the
      WHOLE argument tuple, once per argument, joined by ", ". */
  function CallString(name: string, args: seq<Value>, repr: Value -> string): (r: string)
    ensures |r| >= |name| + 2 && r[..|name| + 1] == name + "(" && r[|r| - 1] == ')'
    ensures args == [] ==> r == name + "()"
    ensures args != [] ==>
      var whole := repr(TupleV(args));
      && |r| == |name| + 2 + |args| * |whole| + (|args| - 1) * 2
      && |name| + 2 + |whole| <= |r|
      && r[|name| + 1..|name| + 1 + |whole|] == whole
      && r[|r| - 1 - |whole|..|r| - 1] == whole
  {
    if args == [] then name + "()"
    else
      var whole := repr(TupleV(args));
      var inner := Join(Copies(whole, |args|), ", ");
      JoinCopies(whole, ", ", |args|);
      Bracketed(name, inner, |whole|);
      name + "(" + inner + ")"
  }

  /** For `n >= 1` arguments, `callstr()` holds `n` copies of `repr` of the
      whole tuple, copy `j` at `CopyStart(j)` after the "(", each but the last
      followed by ", ". */
  lemma CallStringLayout(name: string, args: seq<Value>, repr: Value -> string)
    requires args != []
    ensures var r, whole := CallString(name, args, repr), repr(TupleV(args));
      && (forall j :: 0 <= j < |args| ==> OccursAt(r, whole, |name| + 1 + CopyStart(j, whole, ", ")))
      && (forall j :: 0 <= j < |args| - 1 ==> OccursAt(r, ", ", |name| + 1 + CopyStart(j, whole, ", ") + |whole|))
  {
    var whole := repr(TupleV(args));
    assert CallString(name, args, repr) == name + "(" + Join(Copies(whole, |args|), ", ") + ")";
    CallLayout(name, whole, |args|);
  }

  /** Where the pieces of `name(inner)` sit. */
  lemma Bracketed(name: string, inner: string, w: nat)
    requires w <= |inner|
    ensures var r := name + "(" + inner + ")";
      && |r| == |name| + 2 + |inner|
      && r[|name| + 1..|name| + 1 + w] == inner[..w]
      && r[|r| - 1 - w..|r| - 1] == inner[|inner| - w..]
  {
    var r := name + "(" + inner + ")";
    assert r[|name| + 1..|r| - 1] == inner;
  }

  /** Copy `j` of `whole` sits at `CopyStart(j)` inside the parentheses,
      with ", " right after each copy but the last. */
  lemma CallLayout(name: string, whole: string, n: nat)
    requires n >= 1
    ensures var r := name + "(" + Join(Copies(whole, n), ", ") + ")";
      && (forall j :: 0 <= j < n ==> OccursAt(r, whole, |name| + 1 + CopyStart(j, whole, ", ")))
      && (forall j :: 0 <= j < n - 1 ==> OccursAt(r, ", ", |name| + 1 + CopyStart(j, whole, ", ") + |whole|))
  {
    JoinCopiesLayout(whole, ", ", n);
    EnclosedLayout(name, Join(Copies(whole, n), ", "), whole, n);
  }

  /** The layout of copies and separators carries over from the text inside
      the parentheses to the whole call string. */
  lemma EnclosedLayout(name: string, inner: string, whole: string, n: nat)
    requires forall j :: 0 <= j < n ==> OccursAt(inner, whole, CopyStart(j, whole, ", "))
    requires forall j :: 0 <= j < n - 1 ==> OccursAt(inner, ", ", CopyStart(j, whole, ", ") + |whole|)
    ensures forall j :: 0 <= j < n ==> OccursAt(name + "(" + inner + ")", whole, |name| + 1 + CopyStart(j, whole, ", "))
    ensures forall j :: 0 <= j < n - 1 ==>
      OccursAt(name + "(" + inner + ")", ", ", |name| + 1 + CopyStart(j, whole, ", ") + |whole|)
  {
    forall j | 0 <= j < n ensures OccursAt(name + "(" + inner + ")", whole, |name| + 1 + CopyStart(j, whole, ", ")) {
      Enclosed(name, inner, whole, CopyStart(j, whole, ", "));
    }
    forall j | 0 <= j < n - 1
      ensures OccursAt(name + "(" + inner + ")", ", ", |name| + 1 + CopyStart(j, whole, ", ") + |whole|)
    {
      Enclosed(name, inner, ", ", CopyStart(j, whole, ", ") + |whole|);
    }
  }

  /** An occurrence inside the parentheses, seen from the whole call string. */
  lemma Enclosed(name: string, inner: string, sub: string, i: nat)
    requires OccursAt(inner, sub, i)
    ensures OccursAt(name + "(" + inner + ")", sub, |name| + 1 + i)
  {
    var open := name + "(";
    assert name + "(" + inner + ")" == open + (inner + ")");
    OccursBefore(inner, ")", sub, i);
    OccursAfter(open, inner + ")", sub, i);
  }

  /** `repr` renders tuples as Python does: "(", the elements' reprs joined by
      ", ", a trailing "," for a one-element tuple, ")". */
  ghost predicate TupleReprConsistent(repr: Value -> string)
  {
    forall xs: seq<Value> :: TupleRepr(repr, xs)
  }

  predicate TupleRepr(repr: Value -> string, xs: seq<Value>)
  {
    repr(TupleV(xs)) == "(" + Join(Reprs(xs, repr), ", ") + (if |xs| == 1 then "," else "") + ")"
  }

  function Reprs(xs: seq<Value>, repr: Value -> string): (r: seq<string>)
    ensures |r| == |xs| && forall k :: 0 <= k < |xs| ==> r[k] == repr(xs[k])
  {
    seq(|xs|, k requires 0 <= k < |xs| => repr(xs[k]))
  }

  /** `callstr()` as evidently intended: each argument's own `repr`. */
  function CallStringIntended(name: string, args: seq<Value>, repr: Value -> string): (r: string)
    ensures |r| >= |name| + 2 && r[..|name| + 1] == name + "(" && r[|r| - 1] == ')'
    ensures args == [] ==> r == CallString(name, args, repr)
    ensures TupleReprConsistent(repr) && |args| != 1 ==> r == name + repr(TupleV(args))
  {
    var r := name + "(" + Join(Reprs(args, repr), ", ") + ")";
    assert TupleReprConsistent(repr) ==> TupleRepr(repr, args);
    r
  }

  /** The defect: with a Python-like `repr`, `callstr()` never shows a call
      with arguments the way it was made, since it repeats the whole tuple. */
  lemma WholeTupleRepeated(name: string, args: seq<Value>, repr: Value -> string)
    requires TupleReprConsistent(repr) && args != []
    ensures CallString(name, args, repr) != CallStringIntended(name, args, repr)
  {
    var whole := repr(TupleV(args));
    var joined := Join(Reprs(args, repr), ", ");
    assert TupleRepr(repr, args);
    var n := |args|;
    assert n * |whole| == |whole| + (n - 1) * |whole|;
    assert (n - 1) * |whole| >= 0;
    assert |CallString(name, args, repr)| >= |name| + 2 + |whole|;
  }
}
