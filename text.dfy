/** The few `str` builtins the harness relies on: `isspace`, `strip` and
    `lstrip`, `in` on strings, `find`, and `join`. */
module Text {

  /** `c.isspace()`, the set of characters `str.strip()` removes. */
  predicate IsSpace(c: char)
  {
    c == ' ' || ('\t' <= c <= '\r') || ('\U{1C}' <= c <= '\U{1F}')
    || c == '\U{85}' || c == '\U{A0}' || c == '\U{1680}'
    || ('\U{2000}' <= c <= '\U{200A}') || c == '\U{2028}' || c == '\U{2029}'
    || c == '\U{202F}' || c == '\U{205F}' || c == '\U{3000}'
  }

  /** `s.strip() == ""`: nothing but whitespace (or nothing at all). */
  predicate IsBlank(s: string)
  {
    forall k :: 0 <= k < |s| ==> IsSpace(s[k])
  }

  /** `s.lstrip()`: the longest suffix of `s` that does not start with whitespace. */
  function LStrip(s: string): (r: string)
    ensures |r| <= |s| && r == s[|s| - |r|..]
    ensures r == [] || !IsSpace(r[0])
    ensures forall k :: 0 <= k < |s| - |r| ==> IsSpace(s[k])
  {
    if s != [] && IsSpace(s[0]) then LStrip(s[1..]) else s
  }

  /** `sub` occurs in `s` starting at index `i`. */
  predicate OccursAt(s: string, sub: string, i: int)
  {
    0 <= i && i + |sub| <= |s| && s[i..i + |sub|] == sub
  }

  /** `sub in s` */
  predicate Contains(s: string, sub: string)
  {
    exists i :: 0 <= i <= |s| && OccursAt(s, sub, i)
  }

  /** `s.find(sub, k)`: the first occurrence at or after `k`, or -1. */
  function FindFrom(s: string, sub: string, k: nat): (i: int)
    ensures i == -1 || (k <= i && OccursAt(s, sub, i))
    ensures i == -1 <==> forall j :: k <= j ==> !OccursAt(s, sub, j)
    ensures i != -1 ==> forall j :: k <= j < i ==> !OccursAt(s, sub, j)
    decreases |s| + 1 - k
  {
    if k + |sub| > |s| then -1
    else if s[k..k + |sub|] == sub then k
    else FindFrom(s, sub, k + 1)
  }

  /** `s.find(sub)` */
  function Find(s: string, sub: string): (i: int)
    ensures -1 <= i
    ensures i == -1 <==> !Contains(s, sub)
    ensures i != -1 ==> OccursAt(s, sub, i) && forall j :: 0 <= j < i ==> !OccursAt(s, sub, j)
  {
    FindFrom(s, sub, 0)
  }

  /** `sep.join(parts)` */
  function Join(parts: seq<string>, sep: string): string
  {
    if |parts| == 0 then ""
    else if |parts| == 1 then parts[0]
    else parts[0] + sep + Join(parts[1..], sep)
  }

  /** `n` copies of `x`. */
  function Copies(x: string, n: nat): (r: seq<string>)
    ensures |r| == n && forall k :: 0 <= k < n ==> r[k] == x
  {
    seq(n, _ => x)
  }

  /** Joining `n >= 1` copies of `x` gives `n` times `x` and `n - 1` separators,
      starting and ending with a whole copy of `x`. */
  lemma {:induction false} JoinCopies(x: string, sep: string, n: nat)
    requires n >= 1
    ensures |Join(Copies(x, n), sep)| == n * |x| + (n - 1) * |sep|
    ensures |x| <= |Join(Copies(x, n), sep)|
    ensures Join(Copies(x, n), sep)[..|x|] == x
    ensures Join(Copies(x, n), sep)[|Join(Copies(x, n), sep)| - |x|..] == x
  {
    var j := Join(Copies(x, n), sep);
    if n == 1 {
      assert j == x;
    } else {
      assert Copies(x, n)[1..] == Copies(x, n - 1);
      JoinCopies(x, sep, n - 1);
      var rest := Join(Copies(x, n - 1), sep);
      assert j == x + sep + rest;
      Distribute(|x|, |sep|, n);
      assert j[|j| - |x|..] == rest[|rest| - |x|..];
    }
  }

  /** Where the `j`-th copy of `x` starts in a join of copies of `x` by `sep`. */
  function CopyStart(j: nat, x: string, sep: string): nat
  {
    j * (|x| + |sep|)
  }

  /** Each copy starts one copy and one separator after the one before. */
  lemma CopyStartNext(j: nat, x: string, sep: string)
    requires j > 0
    ensures CopyStart(j, x, sep) == |x| + |sep| + CopyStart(j - 1, x, sep)
  {
  }

  /** Joining `n >= 1` copies of `x` by `sep` lays them out end to end: copy
      `j` at `CopyStart(j, x, sep)`, and a separator right after each copy
      but the last. */
  lemma JoinCopiesLayout(x: string, sep: string, n: nat)
    requires n >= 1
    ensures forall j :: 0 <= j < n ==> OccursAt(Join(Copies(x, n), sep), x, CopyStart(j, x, sep))
    ensures forall j :: 0 <= j < n - 1 ==> OccursAt(Join(Copies(x, n), sep), sep, CopyStart(j, x, sep) + |x|)
  {
    forall j | 0 <= j < n ensures OccursAt(Join(Copies(x, n), sep), x, CopyStart(j, x, sep)) {
      CopyAt(x, sep, n, j);
    }
    forall j | 0 <= j < n - 1 ensures OccursAt(Join(Copies(x, n), sep), sep, CopyStart(j, x, sep) + |x|) {
      SeparatorAt(x, sep, n, j);
    }
  }

  /** The first copy and separator, and the rest of the join after them. */
  lemma JoinCopiesStep(x: string, sep: string, n: nat)
    requires n >= 2
    ensures Join(Copies(x, n), sep) == (x + sep) + Join(Copies(x, n - 1), sep)
  {
    assert Copies(x, n)[1..] == Copies(x, n - 1);
  }

  lemma {:induction false} CopyAt(x: string, sep: string, n: nat, j: nat)
    requires j < n
    ensures OccursAt(Join(Copies(x, n), sep), x, CopyStart(j, x, sep))
    decreases j
  {
    var whole := Join(Copies(x, n), sep);
    if j == 0 {
      if n == 1 {
        assert whole == x;
      } else {
        JoinCopiesStep(x, sep, n);
      }
      assert whole[0..|x|] == x;
    } else {
      JoinCopiesStep(x, sep, n);
      CopyAt(x, sep, n - 1, j - 1);
      CopyStartNext(j, x, sep);
      OccursAfter(x + sep, Join(Copies(x, n - 1), sep), x, CopyStart(j - 1, x, sep));
    }
  }

  lemma {:induction false} SeparatorAt(x: string, sep: string, n: nat, j: nat)
    requires j + 1 < n
    ensures OccursAt(Join(Copies(x, n), sep), sep, CopyStart(j, x, sep) + |x|)
    decreases j
  {
    var whole := Join(Copies(x, n), sep);
    JoinCopiesStep(x, sep, n);
    if j == 0 {
      assert whole[|x|..|x| + |sep|] == sep;
    } else {
      SeparatorAt(x, sep, n - 1, j - 1);
      CopyStartNext(j, x, sep);
      OccursAfter(x + sep, Join(Copies(x, n - 1), sep), sep, CopyStart(j - 1, x, sep) + |x|);
    }
  }

  /** An occurrence in `b` is one in `a + b`, shifted by `|a|`. */
  lemma OccursAfter(a: string, b: string, sub: string, i: nat)
    requires OccursAt(b, sub, i)
    ensures OccursAt(a + b, sub, |a| + i)
  {
    assert (a + b)[|a| + i..|a| + i + |sub|] == b[i..i + |sub|];
  }

  /** An occurrence in `b` is one in `b + c` at the same place. */
  lemma OccursBefore(b: string, c: string, sub: string, i: nat)
    requires OccursAt(b, sub, i)
    ensures OccursAt(b + c, sub, i)
  {
    assert (b + c)[i..i + |sub|] == b[i..i + |sub|];
  }

  /** One copy and one separator more. */
  lemma Distribute(a: nat, b: nat, n: nat)
    requires n >= 2
    ensures n * a + (n - 1) * b == a + b + ((n - 1) * a + (n - 2) * b)
  {
  }
}
