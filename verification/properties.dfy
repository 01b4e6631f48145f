/**
  What `ImportDir` promises about its result, stated against reference
  definitions that read the input records directly.
 */
module ImporterProperties {
  import opened Wrappers
  import opened Strings
  import opened Sorting
  import opened Dedup
  import opened Packages
  import opened Importer

  // ---------------------------------------------------------------------
  // Reference definitions
  // ---------------------------------------------------------------------

  /** A collaborator failed for this file. */
  predicate IsError(v: Verdict) {
    v.MatchFailed? || v.ParseFailed?
  }

  predicate NoErrors(files: seq<Scan>) {
    forall i :: 0 <= i < |files| ==> !IsError(files[i].verdict)
  }

  /** The error reported for the first file whose collaborator failed. */
  function FirstError(files: seq<Scan>): Option<string> {
    if |files| == 0 then None
    else if IsError(files[0].verdict) then Some(files[0].verdict.err)
    else FirstError(files[1..])
  }

  predicate DistinctNames(files: seq<Scan>) {
    forall i, j :: 0 <= i < j < |files| ==> files[i].name != files[j].name
  }

  function Names(files: seq<Scan>): seq<string> {
    if |files| == 0 then [] else Names(files[..|files| - 1]) + [files[|files| - 1].name]
  }

  /** External test: a test file name whose package clause carries the external-test suffix. */
  predicate IsXTestFile(s: Scan) {
    s.verdict.Parsed? && HasSuffix(s.name, TestFileSuffix) && HasSuffix(s.verdict.header.pkgName, XTestPackageSuffix)
  }

  /** Internal test: a test file name in a package without the suffix. */
  predicate IsTestFile(s: Scan) {
    s.verdict.Parsed? && HasSuffix(s.name, TestFileSuffix) && !HasSuffix(s.verdict.header.pkgName, XTestPackageSuffix)
  }

  /** Package source: a built file whose name is not a test file name. */
  predicate IsMainFile(s: Scan) {
    s.verdict.Parsed? && !HasSuffix(s.name, TestFileSuffix)
  }

  predicate InBucket(s: Scan, b: Bucket) {
    match b
    case Main => IsMainFile(s)
    case Test => IsTestFile(s)
    case XTest => IsXTestFile(s)
  }

  /** The names of the files of bucket `b`, in input order. */
  function NamesIn(files: seq<Scan>, b: Bucket): seq<string> {
    if |files| == 0 then []
    else NamesIn(files[..|files| - 1], b) + (if InBucket(files[|files| - 1], b) then [files[|files| - 1].name] else [])
  }

  /** The names of the files the build excludes, in input order. */
  function ExcludedNames(files: seq<Scan>): seq<string> {
    if |files| == 0 then []
    else ExcludedNames(files[..|files| - 1]) + (if files[|files| - 1].verdict.Excluded? then [files[|files| - 1].name] else [])
  }

  /** The names of the built files. */
  function ClassifiedNames(files: seq<Scan>): set<string> {
    if |files| == 0 then {}
    else ClassifiedNames(files[..|files| - 1]) + (if files[|files| - 1].verdict.Parsed? then {files[|files| - 1].name} else {})
  }

  /** The name each built file proposes, in input order. */
  function Candidates(files: seq<Scan>): seq<string> {
    if |files| == 0 then []
    else
      var s := files[|files| - 1];
      Candidates(files[..|files| - 1]) + (if s.verdict.Parsed? then [CandidateName(s.name, s.verdict.header.pkgName)] else [])
  }

  /** The first non-empty string, or "" when there is none. */
  function FirstNonEmpty(names: seq<string>): string {
    if |names| == 0 then ""
    else if names[0] != "" then names[0]
    else FirstNonEmpty(names[1..])
  }

  /** Every import path some file of bucket `b` declares. */
  function BucketImports(files: seq<Scan>, b: Bucket): set<string> {
    if |files| == 0 then {}
    else
      var s := files[|files| - 1];
      BucketImports(files[..|files| - 1], b) + (if InBucket(s, b) then Elems(FileImports(s.verdict.header)) else {})
  }

  /** The record describes exactly the files processed so far. */
  ghost predicate Reflects(files: seq<Scan>, p: Package) {
    && (forall b :: p.FilesOf(b) == NamesIn(files, b))
    && p.ignoredGoFiles == ExcludedNames(files)
    && p.name == FirstNonEmpty(Candidates(files))
    && p.goFileImports.Keys == ClassifiedNames(files)
    && (forall i :: 0 <= i < |files| && LastParsedOfName(files, i) ==>
          files[i].name in p.goFileImports &&
          p.goFileImports[files[i].name] == FileImports(files[i].verdict.header))
    && (forall b :: NoDuplicates(p.ImportsOf(b)) && Elems(p.ImportsOf(b)) == BucketImports(files, b))
  }

  /** Record `i` is built and no later record of the same name is. */
  predicate LastParsedOfName(files: seq<Scan>, i: int)
    requires 0 <= i < |files|
  {
    files[i].verdict.Parsed? &&
    forall j :: i < j < |files| && files[j].name == files[i].name ==> !files[j].verdict.Parsed?
  }

  // ---------------------------------------------------------------------
  // Facts about the reference definitions
  // ---------------------------------------------------------------------

  lemma {:induction false} FirstErrorSnoc(init: seq<Scan>, last: Scan)
    ensures FirstError(init + [last]) ==
      if FirstError(init).Some? then FirstError(init)
      else if IsError(last.verdict) then Some(last.verdict.err)
      else None
    decreases |init|
  {
    if |init| > 0 {
      assert (init + [last])[1..] == init[1..] + [last];
      FirstErrorSnoc(init[1..], last);
    }
  }

  lemma {:induction false} FirstErrorNone(files: seq<Scan>)
    ensures FirstError(files).None? <==> NoErrors(files)
    decreases |files|
  {
    if |files| > 0 {
      FirstErrorNone(files[1..]);
      assert forall i :: 1 <= i < |files| ==> files[i] == files[1..][i - 1];
    }
  }

  lemma {:induction false} FirstNonEmptySnoc(names: seq<string>, x: string)
    ensures FirstNonEmpty(names + [x]) == if FirstNonEmpty(names) != "" then FirstNonEmpty(names) else x
    decreases |names|
  {
    if |names| > 0 {
      assert (names + [x])[1..] == names[1..] + [x];
      FirstNonEmptySnoc(names[1..], x);
    }
  }

  // ---------------------------------------------------------------------
  // The loop
  // ---------------------------------------------------------------------

  /** The last iteration of the loop, taken on its own. */
  lemma AccumulateSnoc(init: seq<Scan>, s: Scan)
    ensures Accumulate(init + [s]) ==
      if Accumulate(init).Failure? then Failure(Accumulate(init).error) else Step(Accumulate(init).value, s)
  {
    assert (init + [s])[..|init|] == init;
  }

  /** A built file after an uneventful prefix is classified into the prefix's record. */
  lemma AccumulateParsed(init: seq<Scan>, s: Scan, acc: Package)
    requires Accumulate(init) == Success(acc) && s.verdict.Parsed?
    ensures Accumulate(init + [s]) == Success(Classify(acc, s.name, s.verdict.header))
  {
    AccumulateSnoc(init, s);
  }

  /** The loop aborts exactly when some collaborator fails, with the first failure's error. */
  lemma {:induction false} AccumulateFailure(files: seq<Scan>)
    ensures Accumulate(files).Failure? <==> FirstError(files).Some?
    ensures Accumulate(files).Failure? ==> Accumulate(files).error == FirstError(files).value
    decreases |files|
  {
    if |files| > 0 {
      var init := files[..|files| - 1];
      assert files == init + [files[|files| - 1]];
      AccumulateFailure(init);
      FirstErrorSnoc(init, files[|files| - 1]);
    }
  }

  /** Without failures the loop builds the record the reference definitions describe. */
  lemma {:induction false} AccumulateReflects(files: seq<Scan>)
    requires NoErrors(files)
    ensures Accumulate(files).Success?
    ensures Reflects(files, Accumulate(files).value)
    decreases |files|
  {
    if |files| == 0 {
      forall b
        ensures EmptyPackage.FilesOf(b) == [] && EmptyPackage.ImportsOf(b) == []
      {
      }
    } else {
      var init := files[..|files| - 1];
      var s := files[|files| - 1];
      assert files == init + [s];
      assert !IsError(s.verdict);
      assert NoErrors(init) by {
        assert forall i :: 0 <= i < |init| ==> init[i] == files[i];
      }
      AccumulateReflects(init);
      var acc := Accumulate(init).value;
      if s.verdict.Excluded? {
        ExcludedStep(init, s, acc);
      } else {
        ParsedStep(init, s, acc);
      }
    }
  }

  lemma ExcludedStep(init: seq<Scan>, s: Scan, acc: Package)
    requires Reflects(init, acc) && s.verdict.Excluded?
    ensures Reflects(init + [s], acc.(ignoredGoFiles := acc.ignoredGoFiles + [s.name]))
  {
    var files := init + [s];
    var p := acc.(ignoredGoFiles := acc.ignoredGoFiles + [s.name]);
    assert files[..|files| - 1] == init;
    assert Candidates(files) == Candidates(init);
    forall b
      ensures p.FilesOf(b) == NamesIn(files, b)
      ensures NoDuplicates(p.ImportsOf(b)) && Elems(p.ImportsOf(b)) == BucketImports(files, b)
    {
      assert p.ImportsOf(b) == acc.ImportsOf(b);
      assert NoDuplicates(acc.ImportsOf(b));
    }
    forall i | 0 <= i < |files| && LastParsedOfName(files, i)
      ensures files[i].name in p.goFileImports
      ensures p.goFileImports[files[i].name] == FileImports(files[i].verdict.header)
    {
      assert i < |init| && init[i] == files[i];
      assert LastParsedOfName(init, i);
    }
  }

  lemma ParsedStep(init: seq<Scan>, s: Scan, acc: Package)
    requires Reflects(init, acc) && s.verdict.Parsed?
    ensures Reflects(init + [s], Classify(acc, s.name, s.verdict.header))
  {
    var files := init + [s];
    var h := s.verdict.header;
    var p := Classify(acc, s.name, h);
    var b := BucketOf(s.name, h.pkgName);
    assert files[..|files| - 1] == init;
    assert Candidates(files) == Candidates(init) + [CandidateName(s.name, h.pkgName)];
    FirstNonEmptySnoc(Candidates(init), CandidateName(s.name, h.pkgName));
    assert p.name == FirstNonEmpty(Candidates(files));
    forall c
      ensures p.FilesOf(c) == NamesIn(files, c)
      ensures NoDuplicates(p.ImportsOf(c)) && Elems(p.ImportsOf(c)) == BucketImports(files, c)
    {
      assert InBucket(s, c) <==> c == b;
      assert NoDuplicates(acc.ImportsOf(c)) && Elems(acc.ImportsOf(c)) == BucketImports(init, c);
    }
    assert p.goFileImports.Keys == ClassifiedNames(files);
    forall i | 0 <= i < |files| && LastParsedOfName(files, i)
      ensures files[i].name in p.goFileImports
      ensures p.goFileImports[files[i].name] == FileImports(files[i].verdict.header)
    {
      if i < |init| {
        assert init[i] == files[i] && files[i].name != s.name;
        assert LastParsedOfName(init, i);
      }
    }
  }

  // ---------------------------------------------------------------------
  // Name precedence
  // ---------------------------------------------------------------------

  /** Once `Name` is set, no later file changes it. */
  lemma {:induction false} NameStable(files: seq<Scan>, more: seq<Scan>, p: Package, q: Package)
    requires Accumulate(files) == Success(p) && p.name != ""
    requires Accumulate(files + more) == Success(q)
    ensures q.name == p.name
    decreases |more|
  {
    if |more| == 0 {
      assert files + more == files;
    } else {
      var init := more[..|more| - 1];
      var s := more[|more| - 1];
      assert files + more == (files + init) + [s];
      AccumulateSnoc(files + init, s);
      var mid := Accumulate(files + init).value;
      NameStable(files, init, p, mid);
      StepKeepsName(mid, s);
    }
  }

  lemma StepKeepsName(acc: Package, s: Scan)
    requires acc.name != ""
    ensures Step(acc, s).Success? ==> Step(acc, s).value.name == acc.name
  {
  }

  lemma {:induction false} CandidatesNoneParsed(files: seq<Scan>)
    requires forall j :: 0 <= j < |files| ==> !files[j].verdict.Parsed?
    ensures Candidates(files) == []
    decreases |files|
  {
    if |files| > 0 {
      CandidatesNoneParsed(files[..|files| - 1]);
    }
  }

  // ---------------------------------------------------------------------
  // Excluded files
  // ---------------------------------------------------------------------

  /** An excluded file only lengthens `IgnoredGoFiles`: inserted anywhere, it
      leaves the outcome and every other field as they were. */
  lemma {:induction false} ExcludedChangesOnlyIgnored(a: seq<Scan>, x: Scan, b: seq<Scan>)
    requires x.verdict.Excluded?
    ensures Accumulate(a + [x] + b).Success? <==> Accumulate(a + b).Success?
    ensures Accumulate(a + b).Failure? ==> Accumulate(a + [x] + b).error == Accumulate(a + b).error
    ensures Accumulate(a + b).Success? ==>
              var q := Accumulate(a + [x] + b).value;
              q == Accumulate(a + b).value.(ignoredGoFiles := q.ignoredGoFiles)
    decreases |b|
  {
    ExcludedFrame(a, x, b);
  }

  /** `ExcludedChangesOnlyIgnored`, stated through `SameButIgnored`. */
  lemma {:induction false} ExcludedFrame(a: seq<Scan>, x: Scan, b: seq<Scan>)
    requires x.verdict.Excluded?
    ensures SameButIgnored(Accumulate(a + [x] + b), Accumulate(a + b))
    decreases |b|
  {
    if |b| == 0 {
      assert a + [x] + b == a + [x];
      assert a + b == a;
      ExcludedLast(a, x);
    } else {
      var init := b[..|b| - 1];
      var s := b[|b| - 1];
      ExcludedFrame(a, x, init);
      var u := a + [x] + init;
      var v := a + init;
      assert a + [x] + b == u + [s];
      assert a + b == v + [s];
      SnocFrame(u, v, s);
    }
  }

  /** An excluded file at the end only lengthens `IgnoredGoFiles`. */
  lemma ExcludedLast(a: seq<Scan>, x: Scan)
    requires x.verdict.Excluded?
    ensures SameButIgnored(Accumulate(a + [x]), Accumulate(a))
  {
    AccumulateSnoc(a, x);
  }

  /** Two loop outcomes that differ at most in `IgnoredGoFiles`. */
  predicate SameButIgnored(ru: Result<Package, string>, rv: Result<Package, string>) {
    && (ru.Success? <==> rv.Success?)
    && (rv.Failure? ==> ru.error == rv.error)
    && (rv.Success? ==> ru.value == rv.value.(ignoredGoFiles := ru.value.ignoredGoFiles))
  }

  /** One more iteration keeps two outcomes equal up to `IgnoredGoFiles`. */
  lemma SnocFrame(u: seq<Scan>, v: seq<Scan>, s: Scan)
    requires SameButIgnored(Accumulate(u), Accumulate(v))
    ensures SameButIgnored(Accumulate(u + [s]), Accumulate(v + [s]))
  {
    AccumulateSnoc(u, s);
    AccumulateSnoc(v, s);
    if Accumulate(v).Success? {
      StepFrame(Accumulate(v).value, Accumulate(u).value.ignoredGoFiles, s);
    }
  }

  /** One loop iteration does not look at `IgnoredGoFiles` and touches no other
      field differently because of it. */
  lemma StepFrame(acc: Package, ignored: seq<string>, s: Scan)
    ensures Step(acc.(ignoredGoFiles := ignored), s).Success? == Step(acc, s).Success?
    ensures Step(acc, s).Failure? ==> Step(acc.(ignoredGoFiles := ignored), s).error == Step(acc, s).error
    ensures Step(acc, s).Success? ==>
              var q := Step(acc.(ignoredGoFiles := ignored), s).value;
              q == Step(acc, s).value.(ignoredGoFiles := q.ignoredGoFiles)
  {
    if s.verdict.Parsed? {
      var h := s.verdict.header;
      var b := BucketOf(s.name, h.pkgName);
      var acc' := acc.(ignoredGoFiles := ignored);
      assert acc'.FilesOf(b) == acc.FilesOf(b) && acc'.ImportsOf(b) == acc.ImportsOf(b);
    }
  }

  // ---------------------------------------------------------------------
  // Facts about the filters
  // ---------------------------------------------------------------------

  /** Without failures, the three buckets and the excluded files split the names. */
  lemma {:induction false} FiltersSplitNames(files: seq<Scan>)
    requires NoErrors(files)
    ensures multiset(NamesIn(files, Main)) + multiset(NamesIn(files, Test)) + multiset(NamesIn(files, XTest))
            + multiset(ExcludedNames(files)) == multiset(Names(files))
    decreases |files|
  {
    if |files| > 0 {
      FiltersSplitNames(files[..|files| - 1]);
    }
  }

  /** File lists holding the bucket and excluded names hold every input name once per occurrence. */
  lemma PartitionOf(files: seq<Scan>, goFiles: seq<string>, testGoFiles: seq<string>,
                    xTestGoFiles: seq<string>, ignoredGoFiles: seq<string>)
    requires NoErrors(files)
    requires multiset(goFiles) == multiset(NamesIn(files, Main))
    requires multiset(testGoFiles) == multiset(NamesIn(files, Test))
    requires multiset(xTestGoFiles) == multiset(NamesIn(files, XTest))
    requires ignoredGoFiles == ExcludedNames(files)
    ensures multiset(goFiles + testGoFiles + xTestGoFiles + ignoredGoFiles) == multiset(Names(files))
  {
    FiltersSplitNames(files);
    assert multiset(goFiles + testGoFiles + xTestGoFiles + ignoredGoFiles)
      == multiset(goFiles) + multiset(testGoFiles) + multiset(xTestGoFiles) + multiset(ignoredGoFiles);
  }

  /** The first name proposed is the first built file's, when that is not empty. */
  lemma {:induction false} FirstCandidate(files: seq<Scan>, i: int)
    requires 0 <= i < |files| && files[i].verdict.Parsed?
    requires forall j :: 0 <= j < i ==> !files[j].verdict.Parsed?
    requires CandidateName(files[i].name, files[i].verdict.header.pkgName) != ""
    ensures FirstNonEmpty(Candidates(files)) == CandidateName(files[i].name, files[i].verdict.header.pkgName)
    decreases |files|
  {
    var init := files[..|files| - 1];
    var last := files[|files| - 1];
    var c := CandidateName(files[i].name, files[i].verdict.header.pkgName);
    if i == |files| - 1 {
      CandidatesNoneParsed(init);
      assert Candidates(files) == [c];
    } else {
      assert init[i] == files[i];
      FirstCandidate(init, i);
      if last.verdict.Parsed? {
        var x := CandidateName(last.name, last.verdict.header.pkgName);
        assert Candidates(files) == Candidates(init) + [x];
        FirstNonEmptySnoc(Candidates(init), x);
      } else {
        assert Candidates(files) == Candidates(init);
      }
    }
  }

  lemma {:induction false} NamesInMember(files: seq<Scan>, b: Bucket, x: string)
    ensures x in NamesIn(files, b) <==> exists j :: 0 <= j < |files| && files[j].name == x && InBucket(files[j], b)
    decreases |files|
  {
    if |files| > 0 {
      var init := files[..|files| - 1];
      NamesInMember(init, b, x);
      assert forall j :: 0 <= j < |init| ==> init[j] == files[j];
      if x in NamesIn(files, b) && x !in NamesIn(init, b) {
        assert files[|files| - 1].name == x && InBucket(files[|files| - 1], b);
      }
    }
  }

  lemma {:induction false} ExcludedNamesMember(files: seq<Scan>, x: string)
    ensures x in ExcludedNames(files) <==> exists j :: 0 <= j < |files| && files[j].name == x && files[j].verdict.Excluded?
    decreases |files|
  {
    if |files| > 0 {
      var init := files[..|files| - 1];
      ExcludedNamesMember(init, x);
      assert forall j :: 0 <= j < |init| ==> init[j] == files[j];
      if x in ExcludedNames(files) && x !in ExcludedNames(init) {
        assert files[|files| - 1].name == x && files[|files| - 1].verdict.Excluded?;
      }
    }
  }

  lemma {:induction false} ClassifiedNamesMember(files: seq<Scan>, x: string)
    ensures x in ClassifiedNames(files) <==> exists j :: 0 <= j < |files| && files[j].name == x && files[j].verdict.Parsed?
    decreases |files|
  {
    if |files| > 0 {
      var init := files[..|files| - 1];
      ClassifiedNamesMember(init, x);
      assert forall j :: 0 <= j < |init| ==> init[j] == files[j];
      if x in ClassifiedNames(files) && x !in ClassifiedNames(init) {
        assert files[|files| - 1].name == x && files[|files| - 1].verdict.Parsed?;
      }
    }
  }

  lemma {:induction false} DistinctNamesOnce(files: seq<Scan>, i: int)
    requires DistinctNames(files) && 0 <= i < |files|
    ensures multiset(Names(files))[files[i].name] == 1
    decreases |files|
  {
    var init := files[..|files| - 1];
    assert forall j :: 0 <= j < |init| ==> init[j] == files[j];
    if i < |init| {
      DistinctNamesOnce(init, i);
    } else {
      NamesNotPresent(init, files[i].name);
    }
  }

  lemma {:induction false} NamesNotPresent(files: seq<Scan>, x: string)
    requires forall j :: 0 <= j < |files| ==> files[j].name != x
    ensures multiset(Names(files))[x] == 0
    decreases |files|
  {
    if |files| > 0 {
      NamesNotPresent(files[..|files| - 1], x);
    }
  }
}
