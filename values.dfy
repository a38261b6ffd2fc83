/** Python values as the grading harness meets them: the arguments it passes to
    learner code, the answers it expects, the values learner code returns, and
    the exceptions that can cut a call short. */
module Values {

  datatype Option<T> = None | Some(value: T)

  /** A Python value. Floats are real numbers (no NaN, infinities or rounding).
      OtherV is an instance of any other class, known by its class and by its
      object identity. */
  datatype Value =
    | NoneV
    | BoolV(b: bool)
    | IntV(i: int)
    | FloatV(r: real)
    | StrV(s: string)
    | ListV(items: seq<Value>)
    | TupleV(elems: seq<Value>)
    | OtherV(cls: nat, ident: nat)

  /** `type(v)` */
  datatype Tag = NoneType | BoolType | IntType | FloatType | StrType | ListType | TupleType | OtherType(cls: nat)

  function TypeOf(v: Value): Tag
  {
    match v
    case NoneV => NoneType
    case BoolV(_) => BoolType
    case IntV(_) => IntType
    case FloatV(_) => FloatType
    case StrV(_) => StrType
    case ListV(_) => ListType
    case TupleV(_) => TupleType
    case OtherV(c, _) => OtherType(c)
  }

  /** `isinstance(v, t)` for a single class: among the builtin classes the only
      subclass relation is bool <: int. */
  predicate IsInstance(v: Value, t: Tag)
  {
    TypeOf(v) == t || (v.BoolV? && t == IntType)
  }

  /** `isinstance(v, (int, float))`; bool is an int. */
  predicate IsNumber(v: Value)
  {
    v.BoolV? || v.IntV? || v.FloatV?
  }

  /** The numeric value Python compares a number by. */
  function Num(v: Value): real
    requires IsNumber(v)
  {
    match v
    case BoolV(b) => if b then 1.0 else 0.0
    case IntV(i) => i as real
    case FloatV(r) => r
  }

  /** Values `len` accepts (among those modelled). */
  predicate IsSized(v: Value)
  {
    v.StrV? || v.ListV? || v.TupleV?
  }

  function Len(v: Value): nat
    requires IsSized(v)
  {
    match v
    case StrV(s) => |s|
    case ListV(xs) => |xs|
    case TupleV(xs) => |xs|
  }

  /** Python's `==`: numbers compare by value whatever their class, strings by
      content, lists and tuples element by element (a list never equals a
      tuple), None only itself, and other objects by identity. */
  predicate PyEq(a: Value, b: Value)
    decreases a
  {
    if IsNumber(a) || IsNumber(b) then IsNumber(a) && IsNumber(b) && Num(a) == Num(b)
    else
      match a
      case NoneV => b.NoneV?
      case StrV(x) => b.StrV? && b.s == x
      case ListV(xs) => b.ListV? && |xs| == |b.items| && forall k :: 0 <= k < |xs| ==> PyEq(xs[k], b.items[k])
      case TupleV(xs) => b.TupleV? && |xs| == |b.elems| && forall k :: 0 <= k < |xs| ==> PyEq(xs[k], b.elems[k])
      case OtherV(_, _) => b == a
      case _ => false
  }

  /** Every value equals itself. */
  lemma {:induction false} PyEqReflexive(a: Value)
    ensures PyEq(a, a)
    decreases a
  {
    match a
    case ListV(xs) =>
      forall k | 0 <= k < |xs| ensures PyEq(xs[k], xs[k]) { PyEqReflexive(xs[k]); }
    case TupleV(xs) =>
      forall k | 0 <= k < |xs| ensures PyEq(xs[k], xs[k]) { PyEqReflexive(xs[k]); }
    case _ =>
  }

  /** The exceptions the model distinguishes. RecursionLimit is the interpreter's
      own RecursionError (stack exhausted); BaseCaseNotHandled is the
      RecursionError the harness raises itself; LearnerError is anything learner
      code raises on purpose or by accident. SystemExit and KeyboardInterrupt
      derive from BaseException only; every other one derives from Exception. */
  datatype Exc =
    | AttributeError
    | IndexError
    | NameError
    | TypeError
    | RecursionLimit
    | BaseCaseNotHandled
    | LearnerError(code: nat)
    | SystemExit
    | KeyboardInterrupt

  /** `isinstance(e, Exception)`: what `except Exception` catches. */
  predicate IsException(e: Exc)
  {
    !e.SystemExit? && !e.KeyboardInterrupt?
  }

  /** How a call ends: it returns a value or raises. */
  datatype Outcome = Ok(value: Value) | Raised(error: Exc)
}
