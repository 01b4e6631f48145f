/**
  The records `ImportDir` consumes and produces. The collaborators it calls,
  `build.Default.MatchFile` and `parser.ParseFile`, are represented by what
  they answered for each file name.
 */
module Packages {
  import opened Strings

  /** What `parser.ParseFile(..., parser.ImportsOnly)` reports: the package
      clause and the import path literals in declaration order. */
  datatype Header = Header(pkgName: string, importLits: seq<Literal>)

  /** The collaborators' answers for one file, in the order they are asked. */
  datatype Verdict =
    | MatchFailed(err: string)   // MatchFile returned an error
    | Excluded                   // MatchFile said the file is not part of the build
    | ParseFailed(err: string)   // ParseFile returned an error
    | Parsed(header: Header)     // the file is built and its header was read

  /** One candidate file name with the collaborators' answers for it. */
  datatype Scan = Scan(name: string, verdict: Verdict)

  /** The three buckets a built file can land in. */
  datatype Bucket = Main | Test | XTest

  /** The `Package` record `ImportDir` fills in. */
  datatype Package = Package(
    name: string,
    goroot: bool,
    imports: seq<string>,
    testImports: seq<string>,
    xTestImports: seq<string>,
    goFiles: seq<string>,
    testGoFiles: seq<string>,
    xTestGoFiles: seq<string>,
    ignoredGoFiles: seq<string>,
    goFileImports: map<string, seq<string>>)
  {
    /** The file list of a bucket (`gofiles` in the source). */
    function FilesOf(b: Bucket): seq<string> {
      match b
      case Main => goFiles
      case Test => testGoFiles
      case XTest => xTestGoFiles
    }

    /** The import aggregate of a bucket (`imports` in the source). */
    function ImportsOf(b: Bucket): seq<string> {
      match b
      case Main => imports
      case Test => testImports
      case XTest => xTestImports
    }

    /** Replaces the file list and import aggregate of one bucket. */
    function WithBucket(b: Bucket, files: seq<string>, imps: seq<string>): (p: Package)
      ensures p.FilesOf(b) == files && p.ImportsOf(b) == imps
      ensures forall c :: c != b ==> p.FilesOf(c) == FilesOf(c) && p.ImportsOf(c) == ImportsOf(c)
      ensures p.name == name && p.goroot == goroot && p.ignoredGoFiles == ignoredGoFiles
      ensures p.goFileImports == goFileImports
    {
      match b
      case Main => this.(goFiles := files, imports := imps)
      case Test => this.(testGoFiles := files, testImports := imps)
      case XTest => this.(xTestGoFiles := files, xTestImports := imps)
    }
  }

  /** The record as first allocated (importer.go lines 52-54). */
  const EmptyPackage := Package("", false, [], [], [], [], [], [], [], map[])
}
