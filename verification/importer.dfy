/**
  `Importer.ImportDir`: folds the candidate files of one directory, in the
  order given, into a `Package`, then sorts six of its lists and decides
  whether the directory lies in the Go source tree.
 */
module Importer {
  import opened Wrappers
  import opened Strings
  import opened Sorting
  import opened Dedup
  import opened Packages

  /** File names of test files end in this. */
  const TestFileSuffix := "_test.go"
  /** Packages of external (black-box) tests end in this. */
  const XTestPackageSuffix := "_test"

  /** The bucket of a built file (importer.go lines 80-100). */
  function BucketOf(fileName: string, pkgName: string): Bucket {
    if HasSuffix(fileName, TestFileSuffix) then
      if HasSuffix(pkgName, XTestPackageSuffix) then XTest else Test
    else Main
  }

  /** The package name a built file proposes for `Name`: external tests drop their suffix. */
  function CandidateName(fileName: string, pkgName: string): (r: string)
    ensures BucketOf(fileName, pkgName) == XTest ==> r + XTestPackageSuffix == pkgName
    ensures BucketOf(fileName, pkgName) != XTest ==> r == pkgName
  {
    if BucketOf(fileName, pkgName) == XTest then TrimSuffix(pkgName, XTestPackageSuffix) else pkgName
  }

  /** The import paths of a file, quotes removed, in declaration order, repeats kept. */
  function FileImports(h: Header): (paths: seq<string>)
    ensures |paths| == |h.importLits|
    ensures forall k :: 0 <= k < |paths| ==> h.importLits[k] == [h.importLits[k][0]] + paths[k] + [h.importLits[k][|h.importLits[k]| - 1]]
  {
    seq(|h.importLits|, k requires 0 <= k < |h.importLits| => Unquote(h.importLits[k]))
  }

  /** Files one built file into `acc` (importer.go lines 75-120): the file joins the
      list of its bucket, its paths join that bucket's aggregate once each, it names
      the package if nothing has yet, and its own paths are recorded under its name. */
  function Classify(acc: Package, fileName: string, h: Header): (p: Package)
    ensures var b := BucketOf(fileName, h.pkgName);
      && p.FilesOf(b) == acc.FilesOf(b) + [fileName]
      && |acc.ImportsOf(b)| <= |p.ImportsOf(b)| && p.ImportsOf(b)[..|acc.ImportsOf(b)|] == acc.ImportsOf(b)
      && Elems(p.ImportsOf(b)) == Elems(acc.ImportsOf(b)) + Elems(FileImports(h))
      && (NoDuplicates(acc.ImportsOf(b)) ==> NoDuplicates(p.ImportsOf(b)))
    ensures forall c :: c != BucketOf(fileName, h.pkgName) ==>
      p.FilesOf(c) == acc.FilesOf(c) && p.ImportsOf(c) == acc.ImportsOf(c)
    ensures acc.name != "" ==> p.name == acc.name
    ensures acc.name == "" ==> p.name == CandidateName(fileName, h.pkgName)
    ensures p.ignoredGoFiles == acc.ignoredGoFiles && p.goroot == acc.goroot
    ensures p.goFileImports.Keys == acc.goFileImports.Keys + {fileName}
    ensures p.goFileImports[fileName] == FileImports(h)
    ensures forall n :: n in acc.goFileImports && n != fileName ==> p.goFileImports[n] == acc.goFileImports[n]
  {
    var b := BucketOf(fileName, h.pkgName);
    var paths := FileImports(h);
    var named := acc.(
      name := if acc.name == "" then CandidateName(fileName, h.pkgName) else acc.name,
      goFileImports := acc.goFileImports[fileName := paths]);
    named.WithBucket(b, acc.FilesOf(b) + [fileName], AppendNew(acc.ImportsOf(b), paths))
  }

  /** One iteration of the loop over `names` (importer.go lines 58-121). */
  function Step(acc: Package, s: Scan): Result<Package, string> {
    match s.verdict
    case MatchFailed(e) => Failure(e)
    case Excluded => Success(acc.(ignoredGoFiles := acc.ignoredGoFiles + [s.name]))
    case ParseFailed(e) => Failure(e)
    case Parsed(h) => Success(Classify(acc, s.name, h))
  }

  /** The record after the loop has processed `files`, or the error that stopped it. */
  function Accumulate(files: seq<Scan>): Result<Package, string>
    decreases |files|
  {
    if |files| == 0 then Success(EmptyPackage)
    else
      var acc :- Accumulate(files[..|files| - 1]);
      Step(acc, files[|files| - 1])
  }

  /** Whether `dir` lies strictly below the source root `gorootsrc` (importer.go line 130). */
  predicate InGoroot(dir: string, gorootsrc: string) {
    HasPrefix(dir, gorootsrc + "/")
  }

  /** The sorting and the `Goroot` flag that end `ImportDir` (importer.go lines 123-130). */
  function Finish(raw: Package, dir: string, gorootsrc: string): Package {
    raw.(
      imports := SortStrings(raw.imports),
      testImports := SortStrings(raw.testImports),
      xTestImports := SortStrings(raw.xTestImports),
      goFiles := SortStrings(raw.goFiles),
      testGoFiles := SortStrings(raw.testGoFiles),
      xTestGoFiles := SortStrings(raw.xTestGoFiles),
      goroot := InGoroot(dir, gorootsrc))
  }

  /** `(*Importer).ImportDir(dir, names)`, with `gorootsrc` the importer's source root
      and `files` the names together with the collaborators' answers for them. */
  function ImportDir(gorootsrc: string, dir: string, files: seq<Scan>): Result<Package, string> {
    var raw :- Accumulate(files);
    Success(Finish(raw, dir, gorootsrc))
  }
}
