/**
  The guarantees of `ImportDir` as its callers see them: the finished,
  sorted `Package`, or the error that aborted the call.
 */
module ImportDirTheorems {
  import opened Wrappers
  import opened Strings
  import opened Sorting
  import opened Dedup
  import opened Packages
  import opened Importer
  import opened ImporterProperties

  /** How many of the four file lists hold `n`. */
  function ListsHolding(p: Package, n: string): nat {
    (if n in p.goFiles then 1 else 0) + (if n in p.testGoFiles then 1 else 0)
    + (if n in p.xTestGoFiles then 1 else 0) + (if n in p.ignoredGoFiles then 1 else 0)
  }

  /** The pre-sort record behind a successful call. */
  lemma Unsorted(gorootsrc: string, dir: string, files: seq<Scan>, p: Package) returns (raw: Package)
    requires ImportDir(gorootsrc, dir, files) == Success(p)
    ensures NoErrors(files)
    ensures Accumulate(files) == Success(raw) && p == Finish(raw, dir, gorootsrc)
    ensures Reflects(files, raw)
  {
    AccumulateFailure(files);
    FirstErrorNone(files);
    AccumulateReflects(files);
    raw := Accumulate(files).value;
  }

  /** A file list of a successful call: sorted, and holding its bucket's names. */
  lemma FilesContents(gorootsrc: string, dir: string, files: seq<Scan>, p: Package, b: Bucket)
    requires ImportDir(gorootsrc, dir, files) == Success(p)
    ensures Sorted(p.FilesOf(b)) && multiset(p.FilesOf(b)) == multiset(NamesIn(files, b))
  {
    var raw := Unsorted(gorootsrc, dir, files, p);
    assert raw.FilesOf(b) == NamesIn(files, b);
    assert p.FilesOf(b) == SortStrings(raw.FilesOf(b));
  }

  /** An import aggregate of a successful call: sorted, duplicate-free, and
      holding its bucket's import paths. */
  lemma ImportsContents(gorootsrc: string, dir: string, files: seq<Scan>, p: Package, b: Bucket)
    requires ImportDir(gorootsrc, dir, files) == Success(p)
    ensures Sorted(p.ImportsOf(b)) && NoDuplicates(p.ImportsOf(b))
    ensures Elems(p.ImportsOf(b)) == BucketImports(files, b)
  {
    var raw := Unsorted(gorootsrc, dir, files, p);
    assert p.ImportsOf(b) == SortStrings(raw.ImportsOf(b));
    assert NoDuplicates(raw.ImportsOf(b)) && Elems(raw.ImportsOf(b)) == BucketImports(files, b);
    NoDuplicatesPermutation(raw.ImportsOf(b), p.ImportsOf(b));
    ElemsPermutation(raw.ImportsOf(b), p.ImportsOf(b));
  }

  /** The unsorted fields of a successful call, against the reference definitions. */
  lemma Contents(gorootsrc: string, dir: string, files: seq<Scan>, p: Package)
    requires ImportDir(gorootsrc, dir, files) == Success(p)
    ensures NoErrors(files)
    ensures p.ignoredGoFiles == ExcludedNames(files)
    ensures p.name == FirstNonEmpty(Candidates(files))
    ensures p.goFileImports.Keys == ClassifiedNames(files)
    ensures forall i :: 0 <= i < |files| && LastParsedOfName(files, i) ==>
              files[i].name in p.goFileImports &&
              p.goFileImports[files[i].name] == FileImports(files[i].verdict.header)
    ensures p.goroot == InGoroot(dir, gorootsrc)
  {
    var raw := Unsorted(gorootsrc, dir, files, p);
  }

  /** The call fails exactly when a collaborator fails for some file, and then
      with the error of the first such file; there is no partial result. */
  lemma ImportDirFailure(gorootsrc: string, dir: string, files: seq<Scan>)
    ensures ImportDir(gorootsrc, dir, files).Failure? <==> FirstError(files).Some?
    ensures ImportDir(gorootsrc, dir, files).Failure? ==>
              ImportDir(gorootsrc, dir, files).error == FirstError(files).value
  {
    AccumulateFailure(files);
  }

  /** No name is added or lost: the four lists together are the input names. */
  lemma ImportDirPartition(gorootsrc: string, dir: string, files: seq<Scan>, p: Package)
    requires ImportDir(gorootsrc, dir, files) == Success(p)
    ensures multiset(p.goFiles + p.testGoFiles + p.xTestGoFiles + p.ignoredGoFiles) == multiset(Names(files))
  {
    Contents(gorootsrc, dir, files, p);
    FilesContents(gorootsrc, dir, files, p, Main);
    FilesContents(gorootsrc, dir, files, p, Test);
    FilesContents(gorootsrc, dir, files, p, XTest);
    assert p.FilesOf(Main) == p.goFiles && p.FilesOf(Test) == p.testGoFiles && p.FilesOf(XTest) == p.xTestGoFiles;
    PartitionOf(files, p.goFiles, p.testGoFiles, p.xTestGoFiles, p.ignoredGoFiles);
  }

  /** With distinct input names, each name sits in exactly one of the four lists. */
  lemma ImportDirExactlyOne(gorootsrc: string, dir: string, files: seq<Scan>, p: Package)
    requires ImportDir(gorootsrc, dir, files) == Success(p)
    requires DistinctNames(files)
    ensures forall i :: 0 <= i < |files| ==> ListsHolding(p, files[i].name) == 1
  {
    ImportDirPartition(gorootsrc, dir, files, p);
    forall i | 0 <= i < |files|
      ensures ListsHolding(p, files[i].name) == 1
    {
      var n := files[i].name;
      DistinctNamesOnce(files, i);
      var all := p.goFiles + p.testGoFiles + p.xTestGoFiles + p.ignoredGoFiles;
      assert multiset(all)[n] == multiset(p.goFiles)[n] + multiset(p.testGoFiles)[n]
        + multiset(p.xTestGoFiles)[n] + multiset(p.ignoredGoFiles)[n];
      assert n in p.goFiles <==> multiset(p.goFiles)[n] > 0;
      assert n in p.testGoFiles <==> multiset(p.testGoFiles)[n] > 0;
      assert n in p.xTestGoFiles <==> multiset(p.xTestGoFiles)[n] > 0;
      assert n in p.ignoredGoFiles <==> multiset(p.ignoredGoFiles)[n] > 0;
    }
  }

  /** Which list a name lands in is decided by the two suffix tests, or by
      the build excluding the file. */
  lemma ImportDirBuckets(gorootsrc: string, dir: string, files: seq<Scan>, p: Package, n: string)
    requires ImportDir(gorootsrc, dir, files) == Success(p)
    ensures n in p.goFiles <==> exists j :: 0 <= j < |files| && files[j].name == n && IsMainFile(files[j])
    ensures n in p.testGoFiles <==> exists j :: 0 <= j < |files| && files[j].name == n && IsTestFile(files[j])
    ensures n in p.xTestGoFiles <==> exists j :: 0 <= j < |files| && files[j].name == n && IsXTestFile(files[j])
    ensures n in p.ignoredGoFiles <==> exists j :: 0 <= j < |files| && files[j].name == n && files[j].verdict.Excluded?
  {
    Contents(gorootsrc, dir, files, p);
    forall b
      ensures n in p.FilesOf(b) <==> n in NamesIn(files, b)
    {
      FilesContents(gorootsrc, dir, files, p, b);
      assert n in p.FilesOf(b) <==> n in multiset(p.FilesOf(b));
      assert n in NamesIn(files, b) <==> n in multiset(NamesIn(files, b));
    }
    NamesInMember(files, Main, n);
    NamesInMember(files, Test, n);
    NamesInMember(files, XTest, n);
    assert p.FilesOf(Main) == p.goFiles && p.FilesOf(Test) == p.testGoFiles && p.FilesOf(XTest) == p.xTestGoFiles;
    ExcludedNamesMember(files, n);
  }

  /** The bucket rule for distinct names, file by file. */
  lemma ImportDirBucketRule(gorootsrc: string, dir: string, files: seq<Scan>, p: Package)
    requires ImportDir(gorootsrc, dir, files) == Success(p)
    requires DistinctNames(files)
    ensures forall i :: 0 <= i < |files| ==>
      && (files[i].name in p.goFiles <==> IsMainFile(files[i]))
      && (files[i].name in p.testGoFiles <==> IsTestFile(files[i]))
      && (files[i].name in p.xTestGoFiles <==> IsXTestFile(files[i]))
      && (files[i].name in p.ignoredGoFiles <==> files[i].verdict.Excluded?)
  {
    forall i | 0 <= i < |files|
      ensures files[i].name in p.goFiles <==> IsMainFile(files[i])
      ensures files[i].name in p.testGoFiles <==> IsTestFile(files[i])
      ensures files[i].name in p.xTestGoFiles <==> IsXTestFile(files[i])
      ensures files[i].name in p.ignoredGoFiles <==> files[i].verdict.Excluded?
    {
      ImportDirBuckets(gorootsrc, dir, files, p, files[i].name);
      assert forall j :: 0 <= j < |files| && files[j].name == files[i].name ==> j == i;
    }
  }

  /** Excluded files keep their input order; the list is never sorted. */
  lemma ImportDirIgnoredOrder(gorootsrc: string, dir: string, files: seq<Scan>, p: Package)
    requires ImportDir(gorootsrc, dir, files) == Success(p)
    ensures p.ignoredGoFiles == ExcludedNames(files)
  {
    Contents(gorootsrc, dir, files, p);
  }

  /** `GoFileImports` has a key exactly for the files of the three buckets, and
      holds the unquoted paths of the last built file of each name. */
  lemma ImportDirFileImports(gorootsrc: string, dir: string, files: seq<Scan>, p: Package)
    requires ImportDir(gorootsrc, dir, files) == Success(p)
    ensures forall n :: n in p.goFileImports <==> n in p.goFiles || n in p.testGoFiles || n in p.xTestGoFiles
    ensures forall i :: 0 <= i < |files| && LastParsedOfName(files, i) ==>
              files[i].name in p.goFileImports &&
              p.goFileImports[files[i].name] == FileImports(files[i].verdict.header)
  {
    Contents(gorootsrc, dir, files, p);
    forall n
      ensures n in p.goFileImports <==> n in p.goFiles || n in p.testGoFiles || n in p.xTestGoFiles
    {
      ClassifiedNamesMember(files, n);
      ImportDirBuckets(gorootsrc, dir, files, p, n);
    }
  }

  /** For distinct names: a key for each built file, holding its import paths
      stripped of their delimiters, in declaration order, repeats kept; none
      for an excluded file. */
  lemma ImportDirFileImportsDistinct(gorootsrc: string, dir: string, files: seq<Scan>, p: Package)
    requires ImportDir(gorootsrc, dir, files) == Success(p)
    requires DistinctNames(files)
    ensures forall i :: 0 <= i < |files| ==> (files[i].name in p.goFileImports <==> files[i].verdict.Parsed?)
    ensures forall i :: 0 <= i < |files| && files[i].verdict.Parsed? ==>
              var lits := files[i].verdict.header.importLits;
              && files[i].name in p.goFileImports
              && |p.goFileImports[files[i].name]| == |lits|
              && forall k :: 0 <= k < |lits| ==> p.goFileImports[files[i].name][k] == lits[k][1..|lits[k]| - 1]
  {
    Contents(gorootsrc, dir, files, p);
    forall i | 0 <= i < |files|
      ensures files[i].name in p.goFileImports <==> files[i].verdict.Parsed?
      ensures files[i].verdict.Parsed? ==> LastParsedOfName(files, i)
    {
      ClassifiedNamesMember(files, files[i].name);
      assert forall j :: 0 <= j < |files| && files[j].name == files[i].name ==> j == i;
    }
  }

  /** Each aggregate is duplicate-free and holds exactly the paths its bucket's files import. */
  lemma ImportDirAggregates(gorootsrc: string, dir: string, files: seq<Scan>, p: Package)
    requires ImportDir(gorootsrc, dir, files) == Success(p)
    ensures NoDuplicates(p.imports) && Elems(p.imports) == BucketImports(files, Main)
    ensures NoDuplicates(p.testImports) && Elems(p.testImports) == BucketImports(files, Test)
    ensures NoDuplicates(p.xTestImports) && Elems(p.xTestImports) == BucketImports(files, XTest)
  {
    ImportsContents(gorootsrc, dir, files, p, Main);
    ImportsContents(gorootsrc, dir, files, p, Test);
    ImportsContents(gorootsrc, dir, files, p, XTest);
    assert p.ImportsOf(Main) == p.imports && p.ImportsOf(Test) == p.testImports && p.ImportsOf(XTest) == p.xTestImports;
  }

  /** Six lists come back sorted, each a permutation of what the loop built;
      the excluded files and the per-file imports are returned as built. */
  lemma ImportDirSorted(gorootsrc: string, dir: string, files: seq<Scan>, p: Package)
    requires ImportDir(gorootsrc, dir, files) == Success(p)
    ensures Accumulate(files).Success?
    ensures var raw := Accumulate(files).value;
      && Sorted(p.imports) && multiset(p.imports) == multiset(raw.imports)
      && Sorted(p.testImports) && multiset(p.testImports) == multiset(raw.testImports)
      && Sorted(p.xTestImports) && multiset(p.xTestImports) == multiset(raw.xTestImports)
      && Sorted(p.goFiles) && multiset(p.goFiles) == multiset(raw.goFiles)
      && Sorted(p.testGoFiles) && multiset(p.testGoFiles) == multiset(raw.testGoFiles)
      && Sorted(p.xTestGoFiles) && multiset(p.xTestGoFiles) == multiset(raw.xTestGoFiles)
      && p.ignoredGoFiles == raw.ignoredGoFiles
      && p.goFileImports == raw.goFileImports
      && p.name == raw.name
  {
  }

  /** `Name` is the first non-empty name proposed by a built file, in input order. */
  lemma ImportDirName(gorootsrc: string, dir: string, files: seq<Scan>, p: Package)
    requires ImportDir(gorootsrc, dir, files) == Success(p)
    ensures p.name == FirstNonEmpty(Candidates(files))
  {
    Contents(gorootsrc, dir, files, p);
  }

  /** When the first built file proposes a non-empty name, that name is `Name`,
      whatever the later files declare. */
  lemma ImportDirNameFirstFile(gorootsrc: string, dir: string, files: seq<Scan>, p: Package, i: int)
    requires ImportDir(gorootsrc, dir, files) == Success(p)
    requires 0 <= i < |files| && files[i].verdict.Parsed?
    requires forall j :: 0 <= j < i ==> !files[j].verdict.Parsed?
    requires CandidateName(files[i].name, files[i].verdict.header.pkgName) != ""
    ensures p.name == CandidateName(files[i].name, files[i].verdict.header.pkgName)
    ensures IsXTestFile(files[i]) ==> p.name + XTestPackageSuffix == files[i].verdict.header.pkgName
    ensures !IsXTestFile(files[i]) ==> p.name == files[i].verdict.header.pkgName
  {
    Contents(gorootsrc, dir, files, p);
    FirstCandidate(files, i);
  }

  /** An excluded file, wherever it sits in the input, changes nothing but
      `IgnoredGoFiles`: no file list, import list, name or per-file entry. */
  lemma ImportDirExcludedFile(gorootsrc: string, dir: string, a: seq<Scan>, x: Scan, b: seq<Scan>)
    requires x.verdict.Excluded?
    ensures ImportDir(gorootsrc, dir, a + [x] + b).Success? <==> ImportDir(gorootsrc, dir, a + b).Success?
    ensures ImportDir(gorootsrc, dir, a + b).Success? ==>
              var q := ImportDir(gorootsrc, dir, a + [x] + b).value;
              q == ImportDir(gorootsrc, dir, a + b).value.(ignoredGoFiles := q.ignoredGoFiles)
  {
    ExcludedChangesOnlyIgnored(a, x, b);
  }

  /** `Goroot` is the prefix test on the directory. */
  lemma ImportDirGoroot(gorootsrc: string, dir: string, files: seq<Scan>, p: Package)
    requires ImportDir(gorootsrc, dir, files) == Success(p)
    ensures p.goroot <==> |gorootsrc| + 1 <= |dir| && dir[..|gorootsrc|] == gorootsrc && dir[|gorootsrc|] == '/'
  {
    Contents(gorootsrc, dir, files, p);
    InGorootIff(dir, gorootsrc);
  }

  lemma InGorootIff(dir: string, gorootsrc: string)
    ensures InGoroot(dir, gorootsrc) <==>
              |gorootsrc| + 1 <= |dir| && dir[..|gorootsrc|] == gorootsrc && dir[|gorootsrc|] == '/'
  {
    if |gorootsrc| + 1 <= |dir| && dir[..|gorootsrc|] == gorootsrc && dir[|gorootsrc|] == '/' {
      assert dir[..|gorootsrc| + 1] == gorootsrc + "/";
    }
    if InGoroot(dir, gorootsrc) {
      assert dir[..|gorootsrc|] == (gorootsrc + "/")[..|gorootsrc|];
    }
  }

  /** The source root itself is not inside the source root. */
  lemma RootNotInGoroot(gorootsrc: string)
    ensures !InGoroot(gorootsrc, gorootsrc)
  {
  }

  /** Every path below the source root is inside it. */
  lemma NestedInGoroot(gorootsrc: string, rest: string)
    ensures InGoroot(gorootsrc + "/" + rest, gorootsrc)
  {
    PrefixOfConcat(gorootsrc + "/", rest);
  }
}
