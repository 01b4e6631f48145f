/**
  `sort.Strings` as a specification: the result is in ascending order and is
  a permutation of the input. Because strings that compare equal are equal,
  there is only one such result, so the insertion sort below returns exactly
  what Go's (unstable) sort returns.
 */
module Sorting {
  import opened Strings

  /** Every earlier element is `<=` every later one. */
  predicate Sorted(s: seq<string>) {
    forall i, j :: 0 <= i < j < |s| ==> LessEq(s[i], s[j])
  }

  /** Puts `x` into its place in an already sorted sequence. */
  function Insert(x: string, s: seq<string>): (r: seq<string>)
    requires Sorted(s)
    ensures Sorted(r)
    ensures multiset(r) == multiset(s) + multiset{x}
    decreases |s|
  {
    if |s| == 0 then [x]
    else if LessEq(x, s[0]) then
      InsertFront(x, s);
      [x] + s
    else
      LessEqTotal(x, s[0]);
      var rest := Insert(x, s[1..]);
      assert s == [s[0]] + s[1..];
      HeadBelowAll(s[0], rest, s[1..], x);
      [s[0]] + rest
  }

  lemma InsertFront(x: string, s: seq<string>)
    requires Sorted(s) && |s| > 0 && LessEq(x, s[0])
    ensures Sorted([x] + s)
  {
    var r := [x] + s;
    forall i, j | 0 <= i < j < |r|
      ensures LessEq(r[i], r[j])
    {
      if i == 0 {
        assert r[j] == s[j - 1];
        if j > 1 {
          LessEqTransitive(x, s[0], s[j - 1]);
        }
      } else {
        assert r[i] == s[i - 1] && r[j] == s[j - 1];
      }
    }
  }

  /** A head that is below every element of a sorted tail keeps the whole sorted. */
  lemma HeadBelowAll(h: string, rest: seq<string>, tail: seq<string>, x: string)
    requires Sorted(rest) && Sorted([h] + tail) && LessEq(h, x)
    requires multiset(rest) == multiset(tail) + multiset{x}
    ensures Sorted([h] + rest)
  {
    forall j | 0 <= j < |rest|
      ensures LessEq(h, rest[j])
    {
      assert rest[j] in multiset(rest);
      if rest[j] != x {
        assert rest[j] in multiset(tail);
        var k :| 0 <= k < |tail| && tail[k] == rest[j];
        var ht := [h] + tail;
        assert ht[0] == h && ht[k + 1] == tail[k];
        assert LessEq(ht[0], ht[k + 1]);
      }
    }
    forall i, j | 0 <= i < j < |rest| + 1
      ensures LessEq(([h] + rest)[i], ([h] + rest)[j])
    {
      if i > 0 {
        assert ([h] + rest)[i] == rest[i - 1];
      }
    }
  }

  /** `sort.Strings(s)`. */
  function SortStrings(s: seq<string>): (r: seq<string>)
    ensures Sorted(r)
    ensures multiset(r) == multiset(s)
    decreases |s|
  {
    if |s| == 0 then []
    else
      assert s == s[..|s| - 1] + [s[|s| - 1]];
      Insert(s[|s| - 1], SortStrings(s[..|s| - 1]))
  }

  /** Two sorted permutations of one multiset are the same sequence. */
  lemma {:induction false} SortedUnique(a: seq<string>, b: seq<string>)
    requires Sorted(a) && Sorted(b)
    requires multiset(a) == multiset(b)
    ensures a == b
    decreases |a|
  {
    if |a| > 0 {
      assert |b| == |multiset(b)| == |multiset(a)| == |a|;
      assert a[0] in multiset(b);
      var i :| 0 <= i < |b| && b[i] == a[0];
      assert b[0] in multiset(a);
      var j :| 0 <= j < |a| && a[j] == b[0];
      LessEqReflexive(a[0]);
      LessEqReflexive(b[0]);
      assert LessEq(b[0], b[i]);
      assert LessEq(a[0], a[j]);
      LessEqAntisymmetric(a[0], b[0]);
      assert a == [a[0]] + a[1..];
      assert b == [b[0]] + b[1..];
      assert multiset(a) == multiset{a[0]} + multiset(a[1..]);
      assert multiset(b) == multiset{b[0]} + multiset(b[1..]);
      assert multiset(a[1..]) == multiset(a) - multiset{a[0]};
      assert multiset(b[1..]) == multiset(b) - multiset{b[0]};
      SortedUnique(a[1..], b[1..]);
    }
  }

  /** Sorting already sorted data changes nothing; in particular sorting is idempotent. */
  lemma SortSorted(s: seq<string>)
    requires Sorted(s)
    ensures SortStrings(s) == s
  {
    SortedUnique(SortStrings(s), s);
  }
}
