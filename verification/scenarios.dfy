/**
  Concrete directories worked through `ImportDir`.
 */
module ImportDirScenarios {
  import opened Wrappers
  import opened Packages
  import opened Strings
  import opened Sorting
  import opened Dedup
  import opened Importer
  import opened ImporterProperties

  const Root := "/usr/local/go/src"

  const SourceFile := Scan("a.go", Parsed(Header("p", [Quote("fmt"), Quote("fmt")])))
  const InternalTest := Scan("a_test.go", Parsed(Header("p", [Quote("testing")])))
  const ExternalTest := Scan("a_x_test.go", Parsed(Header("p_test", [Quote("p"), Quote("os")])))

  /** A package with one source file, one internal and one external test. */
  const ThreeFiles := [SourceFile, InternalTest, ExternalTest]

  // The record after each iteration of the loop.
  const PerFileAfterA := map["a.go" := ["fmt", "fmt"]]
  const PerFileAfterATest := PerFileAfterA["a_test.go" := ["testing"]]
  const PerFileAfterXTest := PerFileAfterATest["a_x_test.go" := ["p", "os"]]
  const AfterA := Package("p", false, ["fmt"], [], [], ["a.go"], [], [], [], PerFileAfterA)
  const AfterATest := Package("p", false, ["fmt"], ["testing"], [], ["a.go"], ["a_test.go"], [], [], PerFileAfterATest)
  const AfterXTest := Package("p", false, ["fmt"], ["testing"], ["p", "os"], ["a.go"], ["a_test.go"], ["a_x_test.go"], [],
                              PerFileAfterXTest)

  lemma FirstImports()
    ensures FileImports(SourceFile.verdict.header) == ["fmt", "fmt"]
    ensures AppendNew([], ["fmt", "fmt"]) == ["fmt"]
  {
    UnquoteQuote("fmt");
    assert ["fmt", "fmt"][1..] == ["fmt"];
    assert AppendNew(["fmt"], ["fmt"]) == AppendNew(["fmt"], []);
  }

  lemma ClassifyFirst()
    ensures Classify(EmptyPackage, "a.go", SourceFile.verdict.header) == AfterA
  {
    assert BucketOf("a.go", "p") == Main;
    FirstImports();
  }

  lemma SecondIsInternalTest()
    ensures BucketOf("a_test.go", "p") == Test
  {
    assert "a_test.go"[1..] == TestFileSuffix;
  }

  lemma SecondImports()
    ensures FileImports(InternalTest.verdict.header) == ["testing"]
    ensures AppendNew([], ["testing"]) == ["testing"]
  {
    UnquoteQuote("testing");
  }

  lemma ClassifySecond()
    ensures Classify(AfterA, "a_test.go", InternalTest.verdict.header) == AfterATest
  {
    SecondIsInternalTest();
    SecondImports();
  }

  lemma ThirdIsExternalTest()
    ensures BucketOf("a_x_test.go", "p_test") == XTest
  {
    assert "a_x_test.go"[3..] == TestFileSuffix;
    assert "p_test"[1..] == XTestPackageSuffix;
  }

  lemma ThirdImports()
    ensures FileImports(ExternalTest.verdict.header) == ["p", "os"]
    ensures AppendNew([], ["p", "os"]) == ["p", "os"]
  {
    UnquoteQuote("p");
    UnquoteQuote("os");
    assert ["p", "os"][1..] == ["os"];
    assert AppendNew(["p"], ["os"]) == AppendNew(["p", "os"], []);
  }

  lemma ClassifyThird()
    ensures Classify(AfterATest, "a_x_test.go", ExternalTest.verdict.header) == AfterXTest
  {
    ThirdIsExternalTest();
    ThirdImports();
  }

  lemma LoopAfterFirst()
    ensures Accumulate([SourceFile]) == Success(AfterA)
  {
    assert [] + [SourceFile] == [SourceFile];
    AccumulateParsed([], SourceFile, EmptyPackage);
    ClassifyFirst();
  }

  lemma LoopAfterSecond()
    ensures Accumulate([SourceFile, InternalTest]) == Success(AfterATest)
  {
    assert [SourceFile] + [InternalTest] == [SourceFile, InternalTest];
    LoopAfterFirst();
    AccumulateParsed([SourceFile], InternalTest, AfterA);
    ClassifySecond();
  }

  lemma LoopOverThreeFiles()
    ensures Accumulate(ThreeFiles) == Success(AfterXTest)
  {
    assert [SourceFile, InternalTest] + [ExternalTest] == ThreeFiles;
    LoopAfterSecond();
    AccumulateParsed([SourceFile, InternalTest], ExternalTest, AfterATest);
    ClassifyThird();
  }

  lemma SortTwo()
    ensures SortStrings(["p", "os"]) == ["os", "p"]
  {
    var sorted := ["os", "p"];
    assert LessEq("os", "p");
    assert multiset(sorted) == multiset(["p", "os"]);
    SortedUnique(SortStrings(["p", "os"]), sorted);
  }

  /** Each file lands in its own bucket, the repeated "fmt" is kept per file
      but not in `Imports`, and the external test's imports come back sorted. */
  lemma ThreeBuckets()
    ensures ImportDir(Root, "/work/p", ThreeFiles) == Success(Package(
      name := "p",
      goroot := false,
      imports := ["fmt"],
      testImports := ["testing"],
      xTestImports := ["os", "p"],
      goFiles := ["a.go"],
      testGoFiles := ["a_test.go"],
      xTestGoFiles := ["a_x_test.go"],
      ignoredGoFiles := [],
      goFileImports := map["a.go" := ["fmt", "fmt"], "a_test.go" := ["testing"], "a_x_test.go" := ["p", "os"]]))
  {
    LoopOverThreeFiles();
    SortTwo();
    SortSorted(["fmt"]);
    SortSorted(["testing"]);
    SortSorted(["a.go"]);
    SortSorted(["a_test.go"]);
    SortSorted(["a_x_test.go"]);
    assert !InGoroot("/work/p", Root);
  }

  /** An external test whose package clause is exactly `_test`, then a source file. */
  const BareXTestFirst := [
    Scan("x_test.go", Parsed(Header("_test", []))),
    Scan("a.go", Parsed(Header("p", [])))
  ]

  /** Stripping the suffix from `_test` proposes the empty name, which leaves
      `Name` unset, so the second file, not the first, names the package. */
  lemma BareXTestDoesNotName()
    ensures Accumulate(BareXTestFirst[..1]).Success?
    ensures Accumulate(BareXTestFirst[..1]).value.name == ""
    ensures Accumulate(BareXTestFirst[..2]).Success?
    ensures Accumulate(BareXTestFirst[..2]).value.name == "p"
  {
    assert BareXTestFirst[..1][..0] == [];
    assert BareXTestFirst[..2][..1] == BareXTestFirst[..1];
    assert BucketOf("x_test.go", "_test") == XTest by {
      assert "x_test.go"[1..] == TestFileSuffix;
      assert "_test"[0..] == XTestPackageSuffix;
    }
    assert CandidateName("x_test.go", "_test") == "";
    assert BucketOf("a.go", "p") == Main;
  }
}
