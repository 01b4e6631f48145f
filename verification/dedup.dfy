/**
  The per-bucket import aggregation of `ImportDir`: each path of a file is
  appended to the bucket's list unless a linear scan finds it there already,
  so the list keeps first-seen order and never holds a path twice.
 */
module Dedup {

  /** The set of elements of a sequence. */
  function Elems(s: seq<string>): set<string> {
    set x | x in s
  }

  predicate NoDuplicates(s: seq<string>) {
    forall i, j :: 0 <= i < j < |s| ==> s[i] != s[j]
  }

  /** The scan over `*imports` that looks for `path` (importer.go lines 113-117). */
  function Seen(have: seq<string>, path: string): (found: bool)
    ensures found <==> path in have
    decreases |have|
  {
    if |have| == 0 then false
    else if have[0] == path then true
    else
      assert have == [have[0]] + have[1..];
      Seen(have[1..], path)
  }

  /** Adds one file's paths to a bucket aggregate (importer.go lines 107-120). */
  function AppendNew(agg: seq<string>, paths: seq<string>): (r: seq<string>)
    ensures |agg| <= |r| && r[..|agg|] == agg
    ensures Elems(r) == Elems(agg) + Elems(paths)
    ensures NoDuplicates(agg) ==> NoDuplicates(r)
    decreases |paths|
  {
    if |paths| == 0 then agg
    else
      var next := if Seen(agg, paths[0]) then agg else agg + [paths[0]];
      assert Elems(paths) == {paths[0]} + Elems(paths[1..]) by {
        assert paths == [paths[0]] + paths[1..];
      }
      var r := AppendNew(next, paths[1..]);
      assert r[..|agg|] == next[..|agg|] == agg;
      r
  }

  lemma {:induction false} NoDuplicatesCount(s: seq<string>, x: string)
    requires NoDuplicates(s)
    ensures multiset(s)[x] <= 1
    decreases |s|
  {
    if |s| > 0 {
      var init := s[..|s| - 1];
      assert s == init + [s[|s| - 1]];
      assert NoDuplicates(init);
      NoDuplicatesCount(init, x);
      if s[|s| - 1] == x {
        forall i | 0 <= i < |init|
          ensures init[i] != x
        {
          assert init[i] == s[i];
        }
      }
    }
  }

  lemma RepeatCount(s: seq<string>, i: int, j: int)
    requires 0 <= i < j < |s| && s[i] == s[j]
    ensures multiset(s)[s[i]] >= 2
  {
    assert s == s[..j] + s[j..];
    assert s[i] in s[..j];
    assert s[j] == s[j..][0];
  }

  /** Reordering keeps a duplicate-free list duplicate-free. */
  lemma NoDuplicatesPermutation(a: seq<string>, b: seq<string>)
    requires NoDuplicates(a) && multiset(a) == multiset(b)
    ensures NoDuplicates(b)
  {
    forall i, j | 0 <= i < j < |b|
      ensures b[i] != b[j]
    {
      if b[i] == b[j] {
        RepeatCount(b, i, j);
        NoDuplicatesCount(a, b[i]);
      }
    }
  }

  lemma ElemsPermutation(a: seq<string>, b: seq<string>)
    requires multiset(a) == multiset(b)
    ensures Elems(a) == Elems(b)
  {
    forall x
      ensures x in a <==> x in b
    {
      assert x in a <==> x in multiset(a);
      assert x in b <==> x in multiset(b);
    }
  }
}
