# wollemi's Go package importer, modelled in Dafny

wollemi generates Please `BUILD` files for Go code. To learn what a
directory holds, its Go adapter calls `(*Importer).ImportDir(dir, names)`. That
function walks the candidate file names in the order given and asks two
collaborators about each file:

- `build.Default.MatchFile` says whether build constraints exclude the file;
- `parser.ParseFile(..., parser.ImportsOnly)` reads the file's package clause
  and import declarations.

Each built file goes into one of three buckets:

| bucket | files | package clause | lists filled |
|---|---|---|---|
| Main | not ending in `_test.go` | any | `GoFiles`, `Imports` |
| Test | ending in `_test.go` | not ending in `_test` | `TestGoFiles`, `TestImports` |
| XTest | ending in `_test.go` | ending in `_test` | `XTestGoFiles`, `XTestImports` |

The function then works as follows:

- Each built file's unquoted import paths are recorded under its name in
  `GoFileImports`.
- New paths are appended to the bucket's aggregate import list, so each path
  appears there once.
- The first built file that proposes a non-empty name sets the package
  `Name`. An external test proposes its package name without the `_test`
  suffix.
- Excluded files go to `IgnoredGoFiles`, in input order.
- Any error from a collaborator aborts the call with that error.
- At the end, the six bucket lists are sorted.
- `Goroot` is set to whether `dir` starts with the importer's `gorootsrc`
  followed by `/`.

The model is a pure function `Importer.ImportDir(gorootsrc, dir, files)`.
Each element of `files` is a `Scan`: a file name plus the collaborators'
answer for it, which is one of:

- `MatchFailed(err)`
- `Excluded`
- `ParseFailed(err)`
- `Parsed(Header(pkgName, importLits))`

The loop is `Importer.Accumulate`, one `Importer.Step` per name. The sorting
and the `Goroot` test are `Importer.Finish`. `sort.Strings` is modelled as
`Sorting.SortStrings`, an insertion sort proved to return the unique sorted
permutation. The result therefore equals Go's output whatever algorithm the
Go library uses.

The properties are stated against independent reference definitions in
`ImporterProperties`. These are:

- the names in each bucket;
- the excluded names;
- the candidate names;
- the set of paths imported per bucket;
- the first error.

The end-to-end theorems are in `ImportDirTheorems`. Worked examples are in
`ImportDirScenarios`.

Two details of the code shape the model:

- **Name precedence.** `Name` is set only while it is still `""`. A file whose
  package clause is exactly `_test`, with a `_test.go` name, proposes the
  empty name. Such a file leaves `Name` unset, and a later file names the
  package. `Name` is therefore the first *non-empty* candidate, not
  necessarily the first built file's.
- **`Goroot` for the root itself.** `Goroot` holds exactly when `dir` starts
  with `gorootsrc + "/"`. So `dir == gorootsrc` gives `false`
  (`ImportDirTheorems.RootNotInGoroot`). `gorootsrc + "/"` and every path below
  it give `true` (`ImportDirTheorems.NestedInGoroot`).

## Model

| member | source | states |
|---|---|---|
| ImportDirTheorems.ImportDirFailure | adapters/golang/importer.go:58-73 | The call fails exactly when some file's match or parse fails, and the error returned is the one of the first such file in input order. |
| ImporterProperties.AccumulateFailure | adapters/golang/importer.go:58-73 | The loop aborts exactly when a collaborator fails, with the first failure's error. |
| ImporterProperties.AccumulateReflects | adapters/golang/importer.go:58-121 | Without failures the loop's record matches the reference definitions: bucket lists in input order, excluded names, name, per-file imports, de-duplicated aggregates. |
| ImportDirTheorems.ImportDirPartition | adapters/golang/importer.go:58-102 | On success the four file lists together hold every input name exactly as often as it was given. |
| ImportDirTheorems.ImportDirExactlyOne | adapters/golang/importer.go:58-102 | With distinct input names, every name lands in exactly one of `GoFiles`, `TestGoFiles`, `XTestGoFiles`, `IgnoredGoFiles`. |
| ImportDirTheorems.ImportDirBuckets | adapters/golang/importer.go:64-102 | A name is in each of the four lists if and only if some input file of that name was excluded or built into the matching bucket by the `_test.go`/`_test` rule. |
| ImportDirTheorems.ImportDirBucketRule | adapters/golang/importer.go:80-100 | With distinct names, a built file is in `GoFiles`, `TestGoFiles` or `XTestGoFiles` if and only if its file name and package name put it in that bucket. |
| ImportDirTheorems.ImportDirIgnoredOrder | adapters/golang/importer.go:64-67 | `IgnoredGoFiles` is the excluded names in input order, not sorted. |
| ImportDirTheorems.ImportDirExcludedFile | adapters/golang/importer.go:64-67 | Inserting an excluded file anywhere changes neither success nor any field other than `IgnoredGoFiles`. |
| ImporterProperties.ExcludedChangesOnlyIgnored | adapters/golang/importer.go:64-67 | The loop-level form: an inserted excluded file leaves the outcome, the error and every other field unchanged. |
| ImportDirTheorems.ImportDirName | adapters/golang/importer.go:84-99 | `Name` is the first non-empty name proposed by a built file in input order, with external tests' `_test` suffix removed. |
| ImportDirTheorems.ImportDirNameFirstFile | adapters/golang/importer.go:84-99 | If the first built file proposes a non-empty name, `Name` is its package name, minus `_test` for an external test. |
| ImporterProperties.NameStable | adapters/golang/importer.go:84-99 | Once `Name` is non-empty, processing more files never changes it. |
| Importer.CandidateName | adapters/golang/importer.go:84-99 | An external test proposes its package name with `_test` removed; any other built file proposes its package name. |
| Strings.TrimSuffix | adapters/golang/importer.go:85 | With the suffix present the result plus the suffix is the input; otherwise the input is returned unchanged. |
| ImportDirTheorems.ImportDirFileImports | adapters/golang/importer.go:104-111 | `GoFileImports` has a key exactly for the names in the three built lists, and each name maps to the unquoted paths of its last built occurrence, in declaration order with repeats. |
| ImportDirTheorems.ImportDirFileImportsDistinct | adapters/golang/importer.go:104-111 | With distinct names, a file has an entry if and only if it was built, and entry k is the k-th import literal without its first and last character. |
| Importer.FileImports | adapters/golang/importer.go:107-111 | The per-file list has one path per import declaration, each the literal with its surrounding quotes removed. |
| Strings.Unquote | adapters/golang/importer.go:109 | The path is the literal minus its first and last character. |
| Strings.UnquoteQuote | adapters/golang/importer.go:109 | Unquoting a quoted path gives back the path. |
| Importer.Classify | adapters/golang/importer.go:75-120 | A built file is appended to the file list of the bucket its file name and package name select. That bucket's aggregate keeps its old contents as a prefix, gains exactly the file's paths as a set, and stays duplicate-free if it was. The other two buckets are unchanged. `Name` is kept when non-empty and otherwise becomes the file's candidate name. `IgnoredGoFiles` is unchanged. The file's `GoFileImports` entry becomes its paths, replacing any earlier one, and every other entry is kept. |
| ImportDirTheorems.ImportDirAggregates | adapters/golang/importer.go:113-119 | Each aggregate import list has no repeats and holds exactly the paths imported by the files of its bucket. |
| Dedup.AppendNew | adapters/golang/importer.go:107-120 | Appending keeps the old list as a prefix, adds exactly the new paths, and introduces no duplicate. |
| Dedup.Seen | adapters/golang/importer.go:113-117 | The linear scan finds the path if and only if it is already in the list. |
| ImportDirTheorems.ImportDirSorted | adapters/golang/importer.go:123-128 | The six bucket lists come back sorted permutations of the loop's lists. `IgnoredGoFiles`, `Name` and `GoFileImports` are untouched. |
| Sorting.SortStrings | adapters/golang/importer.go:123-128 | The result is sorted bytewise and is a permutation of the input. |
| Sorting.SortedUnique | adapters/golang/importer.go:123-128 | Two sorted permutations of one list are equal, so any correct sort gives the modelled result. |
| Strings.LessEqTotal | adapters/golang/importer.go:123-128 | The string order `sort.Strings` uses compares any two strings. |
| Strings.LessEqTransitive | adapters/golang/importer.go:123-128 | That order is transitive. |
| Strings.LessEqAntisymmetric | adapters/golang/importer.go:123-128 | That order is antisymmetric, so equal-ranked strings are equal. |
| ImportDirTheorems.ImportDirGoroot | adapters/golang/importer.go:130 | `Goroot` holds if and only if `dir` starts with `gorootsrc` immediately followed by `/`. |
| ImportDirTheorems.RootNotInGoroot | adapters/golang/importer.go:130 | The source root itself is not reported as in `GOROOT`. |
| ImportDirTheorems.NestedInGoroot | adapters/golang/importer.go:130 | Every `dir` of the form `gorootsrc + "/" + rest` is reported as in `GOROOT`, including `rest` empty. |
| ImportDirScenarios.ThreeBuckets | adapters/golang/importer.go:51-133 | A source file, an internal test and an external test give one file per bucket. `fmt` is repeated in `a.go`'s entry but appears once in `Imports`, and `XTestImports` comes back sorted. |
| ImportDirScenarios.BareXTestDoesNotName | adapters/golang/importer.go:80-99 | An external test with package `_test` leaves `Name` empty, and the following source file sets it. |

## Left out

- `build.Default.MatchFile` and `parser.ParseFile` are not modelled. The model
  takes each file's outcome as input (`Scan.verdict`), because they read the
  file system and evaluate build tags.
- `token.FileSet` and `filepath.Join(dir, name)` exist only to feed the
  parser, so they are not modelled.
- Strings.Unquote: does not model the panic that Go's slicing raises on a
  literal shorter than two characters. The parser never produces such a
  literal, and the `Literal` type excludes it.
- Escape sequences inside import literals are not interpreted, and neither is
  a back-quoted literal's raw form. The code only drops the first and last
  byte, and so does the model.
- Strings are sequences of characters rather than UTF-8 bytes. For valid
  UTF-8, byte order and code-point order agree, so the sort order is the
  same.
- The map returned in `GoFileImports` gives a built file with no imports the
  empty list, where Go stores `nil`. The two are not distinguished.
- `gorootsrc` is a parameter. `NewImporter`, `GOPATH` and `GOROOT` read
  `build.Default` from the environment, and the `init` function's `Setenv`
  changes it. None of these is modelled.
- `IsGoroot` queries the file system with `os.Stat`, so it is left out.
- `ModulePath` delegates to `modfile.ModulePath`, which is not part of this
  model.
- `NewPackage` is not modelled. It copies the fields of a go/build
  `*build.Package` into wollemi's `Package` and passes an error through.
  `ImportDir` does not use it, and `build.Package` is not part of this
  model.
- Concurrency is not modelled: the call shares no state between
  invocations. Repeated calls with the same inputs giving the same result
  holds because the model is a function.
