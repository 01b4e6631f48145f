/**
  The handful of string operations the importer relies on: Go's
  `strings.HasPrefix`, `strings.HasSuffix` and `strings.TrimSuffix`, the
  slice that strips the quotes from an import literal, and the ordering
  that `sort.Strings` uses.

  Strings are sequences of Unicode scalar values. Go compares strings byte
  by byte in their UTF-8 encoding; UTF-8 preserves code-point order, so the
  lexicographic order on characters below is the same order.
 */
module Strings {

  /** `strings.HasPrefix(s, prefix)`. */
  predicate HasPrefix(s: string, prefix: string) {
    |prefix| <= |s| && s[..|prefix|] == prefix
  }

  /** `strings.HasSuffix(s, suffix)`. */
  predicate HasSuffix(s: string, suffix: string) {
    |suffix| <= |s| && s[|s| - |suffix|..] == suffix
  }

  /** `strings.TrimSuffix(s, suffix)`: drops one trailing `suffix` if there is one. */
  function TrimSuffix(s: string, suffix: string): (r: string)
    ensures HasSuffix(s, suffix) ==> r + suffix == s
    ensures !HasSuffix(s, suffix) ==> r == s
  {
    if HasSuffix(s, suffix) then s[..|s| - |suffix|] else s
  }

  lemma PrefixOfConcat(prefix: string, rest: string)
    ensures HasPrefix(prefix + rest, prefix)
  {
    assert (prefix + rest)[..|prefix|] == prefix;
  }

  /** A Go import path literal as go/parser hands it over: the path between two delimiters. */
  type Literal = s: string | |s| >= 2 witness "\"\""

  /** The import path inside a literal: the literal without its first and last character (importer.go line 109). */
  function Unquote(lit: Literal): (path: string)
    ensures |path| + 2 == |lit|
    ensures lit == [lit[0]] + path + [lit[|lit| - 1]]
  {
    lit[1..|lit| - 1]
  }

  /** The interpreted-string literal that go/parser produces for `path`. */
  function Quote(path: string): (lit: Literal)
    ensures lit[0] == '"' && lit[|lit| - 1] == '"'
  {
    ['"'] + path + ['"']
  }

  lemma UnquoteQuote(path: string)
    ensures Unquote(Quote(path)) == path
  {
    assert Quote(path)[1..|path| + 1] == path;
  }

  /** `a <= b` on Go strings. */
  predicate LessEq(a: string, b: string)
    decreases |a|
  {
    |a| == 0 || (|b| > 0 && (a[0] < b[0] || (a[0] == b[0] && LessEq(a[1..], b[1..]))))
  }

  lemma {:induction false} LessEqReflexive(a: string)
    ensures LessEq(a, a)
    decreases |a|
  {
    if |a| > 0 {
      LessEqReflexive(a[1..]);
    }
  }

  lemma {:induction false} LessEqTotal(a: string, b: string)
    ensures LessEq(a, b) || LessEq(b, a)
    decreases |a|
  {
    if |a| > 0 && |b| > 0 && a[0] == b[0] {
      LessEqTotal(a[1..], b[1..]);
    }
  }

  lemma {:induction false} LessEqAntisymmetric(a: string, b: string)
    requires LessEq(a, b) && LessEq(b, a)
    ensures a == b
    decreases |a|
  {
    if |a| > 0 {
      LessEqAntisymmetric(a[1..], b[1..]);
      assert a == [a[0]] + a[1..];
      assert b == [b[0]] + b[1..];
    }
  }

  lemma {:induction false} LessEqTransitive(a: string, b: string, c: string)
    requires LessEq(a, b) && LessEq(b, c)
    ensures LessEq(a, c)
    decreases |a|
  {
    if |a| > 0 && a[0] == b[0] && b[0] == c[0] {
      LessEqTransitive(a[1..], b[1..], c[1..]);
    }
  }
}
