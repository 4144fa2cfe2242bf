/** writeVerifyAllSamples: the generated `VerifyAllSamples.kt`, which imports
    the `main` of every example whose output is to be checked and hands each
    one to an `OutputVerifier` together with its expected-output file and the
    place in the chapter where that output starts. */
module VerifyAll {
  import opened Wrappers
  import opened Text
  import opened Languages
  import opened Examples

  /** What the writer reads from one example after its chapter is processed. */
  datatype ExampleView = ExampleView(
    skip: bool,
    kotlin: bool,
    hasOutputToVerify: bool,
    packageName: Option<string>,
    expectedOutputFileName: string,
    startLine: Option<int>,
    mainStartLine: Option<int>)

  /** A chapter: the name of its code directory, the name of its file, and
      its registered examples in registration order. */
  datatype ChapterView = ChapterView(codeDirName: string, fileName: string, examples: seq<ExampleView>)

  /** One entry of the verifier's list. */
  datatype ExampleOutput = ExampleOutput(functionName: string, expectedOutputFile: string, location: string)

  /** The view of a processed example. */
  function ViewOf(e: CodeExample): (v: ExampleView)
    reads e, e.mainExample
    ensures v.skip == e.skip && v.kotlin == e.language.Kotlin? && v.packageName == e.packageName
    ensures v.hasOutputToVerify == e.HasOutputToVerify()
    ensures v.expectedOutputFileName == e.ExpectedOutputFileName()
    ensures v.startLine == e.expectedOutputStartLine
    ensures v.mainStartLine == if e.mainExample != null then e.mainExample.expectedOutputStartLine else None
  {
    ExampleView(e.skip, e.language.Kotlin?, e.HasOutputToVerify(), e.packageName, e.ExpectedOutputFileName(),
                e.expectedOutputStartLine,
                if e.mainExample != null then e.mainExample.expectedOutputStartLine else None)
  }

  /** The filter of the writer, with the `?: continue` on the package name:
      written Kotlin examples with output to verify whose file had a package
      statement generated. */
  predicate Selected(e: ExampleView) {
    !e.skip && e.kotlin && e.hasOutputToVerify && e.packageName.Some?
  }

  /** An example is listed exactly when it is written, is Kotlin, has a
      package name, is not marked `noverify`, and has expected output of
      its own or borrows a `main` that has some. */
  lemma SelectedOf(e: CodeExample)
    ensures Selected(ViewOf(e)) <==>
      !e.skip && e.language.Kotlin? && e.packageName.Some? && !e.sourceMetadata.noverify
      && (e.expectedOutput != "" || (e.mainExample != null && e.mainExample.expectedOutput != ""))
  {
  }

  /** The name the imported `main` is given: the package name with '.'
      replaced by '_'. */
  function Alias(fqName: string): (r: string)
    ensures |r| == |fqName| && '.' !in r
    ensures forall i :: 0 <= i < |fqName| && fqName[i] != '.' ==> r[i] == fqName[i]
    ensures forall i :: 0 <= i < |fqName| && fqName[i] == '.' ==> r[i] == '_'
  {
    ReplaceChar(fqName, '.', '_')
  }

  /** The line part of a location: the example's own start line, else the
      start line of the example it borrows `main` from; Kotlin renders a
      missing value as "null". */
  function LineText(e: ExampleView): (r: string)
    ensures e.startLine.Some? ==> ParseInt(r) == Some(e.startLine.value)
    ensures e.startLine.None? && e.mainStartLine.Some? ==> ParseInt(r) == Some(e.mainStartLine.value)
    ensures e.startLine.None? && e.mainStartLine.None? ==> r == "null"
  {
    match e.startLine
    case Some(n) =>
      ParseIntToString(n);
      IntToString(n)
    case None =>
      match e.mainStartLine
      case Some(n) =>
        ParseIntToString(n);
        IntToString(n)
      case None => "null"
  }

  /** The entry of a selected example. */
  function OutputOf(ch: ChapterView, e: ExampleView): ExampleOutput
    requires Selected(e)
  {
    ExampleOutput(Alias(e.packageName.value),
                  ch.codeDirName + "/" + e.expectedOutputFileName,
                  ch.fileName + ":" + LineText(e))
  }

  /** The import line of a selected example. */
  function ImportLine(e: ExampleView): string
    requires Selected(e)
  {
    "import " + e.packageName.value + ".main as " + Alias(e.packageName.value) + "\n"
  }

  /** The call that checks one entry. */
  function VerifyLine(o: ExampleOutput): string {
    "    verifier.verifySample(::" + o.functionName + ", \"" + o.expectedOutputFile + "\", \"" + o.location + "\")\n"
  }

  /** The entries of the selected examples among `es`, in order. */
  function ChapterOutputs(ch: ChapterView, es: seq<ExampleView>): seq<ExampleOutput> {
    if |es| == 0 then []
    else
      var last := es[|es| - 1];
      ChapterOutputs(ch, es[..|es| - 1]) + (if Selected(last) then [OutputOf(ch, last)] else [])
  }

  /** The import lines of the selected examples among `es`, in order. */
  function ChapterImports(es: seq<ExampleView>): string {
    if |es| == 0 then ""
    else
      var last := es[|es| - 1];
      ChapterImports(es[..|es| - 1]) + (if Selected(last) then ImportLine(last) else "")
  }

  /** The entries of all chapters, chapter after chapter. */
  function AllOutputs(chs: seq<ChapterView>): seq<ExampleOutput> {
    if |chs| == 0 then []
    else
      var last := chs[|chs| - 1];
      AllOutputs(chs[..|chs| - 1]) + ChapterOutputs(last, last.examples)
  }

  /** The import lines of all chapters, chapter after chapter. */
  function AllImports(chs: seq<ChapterView>): string {
    if |chs| == 0 then ""
    else
      var last := chs[|chs| - 1];
      AllImports(chs[..|chs| - 1]) + ChapterImports(last.examples)
  }

  /** The calls for a list of entries, in order. */
  function VerifyLines(os: seq<ExampleOutput>): string {
    if |os| == 0 then ""
    else VerifyLines(os[..|os| - 1]) + VerifyLine(os[|os| - 1])
  }

  const MainHead := "\n\nfun main(args: Array<String>) {\n"
  const VerifierLine := "    val verifier = OutputVerifier()\n"
  const ReportLine := "    verifier.report()\n}\n"

  /** The whole generated file for a given first line. */
  function Document(header: string, chs: seq<ChapterView>): string {
    header + AllImports(chs) + MainHead + VerifierLine + VerifyLines(AllOutputs(chs)) + ReportLine
  }

  /** writeVerifyAllSamples, with the file's text returned instead of
      written: the header, one import per selected example while the list
      of entries is built, then `main` with one call per entry. */
  method WriteVerifyAllSamples(header: string, chapters: seq<ChapterView>)
    returns (text: string, examples: seq<ExampleOutput>)
    ensures examples == AllOutputs(chapters)
    ensures text == Document(header, chapters)
  {
    text := header;
    examples := [];
    var c := 0;
    while c < |chapters|
      invariant c <= |chapters|
      invariant text == header + AllImports(chapters[..c])
      invariant examples == AllOutputs(chapters[..c])
    {
      assert chapters[..c + 1][..c] == chapters[..c];
      text, examples := WriteChapter(chapters[c], text, examples);
      c := c + 1;
    }
    assert chapters[..c] == chapters;
    var calls := WriteCalls(examples);
    text := text + MainHead + VerifierLine + calls + ReportLine;
  }

  /** The inner loop of the writer, over the examples of one chapter. */
  method WriteChapter(chapter: ChapterView, text0: string, examples0: seq<ExampleOutput>)
    returns (text: string, examples: seq<ExampleOutput>)
    ensures text == text0 + ChapterImports(chapter.examples)
    ensures examples == examples0 + ChapterOutputs(chapter, chapter.examples)
  {
    text, examples := text0, examples0;
    var j := 0;
    while j < |chapter.examples|
      invariant j <= |chapter.examples|
      invariant text == text0 + ChapterImports(chapter.examples[..j])
      invariant examples == examples0 + ChapterOutputs(chapter, chapter.examples[..j])
    {
      var example := chapter.examples[j];
      ChapterStep(chapter, chapter.examples, j);
      if Selected(example) {
        Appended(text0, ChapterImports(chapter.examples[..j]), ImportLine(example));
        Appended(examples0, ChapterOutputs(chapter, chapter.examples[..j]), [OutputOf(chapter, example)]);
        text := text + ImportLine(example);
        examples := examples + [OutputOf(chapter, example)];
      }
      j := j + 1;
    }
    assert chapter.examples[..j] == chapter.examples;
  }

  lemma Appended<T>(a: seq<T>, b: seq<T>, c: seq<T>)
    ensures a + b + c == a + (b + c)
  {
  }

  /** One more example adds its import line and its entry when selected. */
  lemma ChapterStep(ch: ChapterView, es: seq<ExampleView>, j: nat)
    requires j < |es|
    ensures ChapterImports(es[..j + 1]) == ChapterImports(es[..j]) + (if Selected(es[j]) then ImportLine(es[j]) else "")
    ensures ChapterOutputs(ch, es[..j + 1]) == ChapterOutputs(ch, es[..j]) + (if Selected(es[j]) then [OutputOf(ch, es[j])] else [])
  {
    assert es[..j + 1][..j] == es[..j];
  }

  /** The loop that writes one call per entry. */
  method WriteCalls(examples: seq<ExampleOutput>) returns (text: string)
    ensures text == VerifyLines(examples)
  {
    text := "";
    var k := 0;
    while k < |examples|
      invariant k <= |examples|
      invariant text == VerifyLines(examples[..k])
    {
      assert examples[..k + 1][..k] == examples[..k];
      text := text + VerifyLine(examples[k]);
      k := k + 1;
    }
    assert examples[..k] == examples;
  }

  /** An entry of a list is an entry of any list it starts or ends. */
  lemma InPrefix(o: ExampleOutput, a: seq<ExampleOutput>, b: seq<ExampleOutput>)
    ensures o in a ==> o in a + b
    ensures o in b ==> o in a + b
  {
    if o in b {
      var k :| 0 <= k < |b| && b[k] == o;
      assert (a + b)[|a| + k] == o;
    }
  }

  /** Every selected example of a chapter has its entry in the chapter's
      list. */
  lemma {:induction false} ChapterListed(ch: ChapterView, es: seq<ExampleView>, j: nat)
    requires j < |es| && Selected(es[j])
    ensures OutputOf(ch, es[j]) in ChapterOutputs(ch, es)
  {
    var init, last := es[..|es| - 1], es[|es| - 1];
    var o := OutputOf(ch, es[j]);
    if j < |init| {
      assert init[j] == es[j];
      ChapterListed(ch, init, j);
      InPrefix(o, ChapterOutputs(ch, init), if Selected(last) then [OutputOf(ch, last)] else []);
    } else {
      assert ChapterOutputs(ch, es) == ChapterOutputs(ch, init) + [o];
    }
  }

  /** Every entry of a chapter's list comes from a selected example. */
  lemma {:induction false} ChapterSource(ch: ChapterView, es: seq<ExampleView>, o: ExampleOutput) returns (j: nat)
    requires o in ChapterOutputs(ch, es)
    ensures j < |es| && Selected(es[j]) && o == OutputOf(ch, es[j])
  {
    var init := es[..|es| - 1];
    if o in ChapterOutputs(ch, init) {
      j := ChapterSource(ch, init, o);
      assert init[j] == es[j];
    } else {
      j := |es| - 1;
    }
  }

  /** The number of selected examples among `es`. */
  function CountSelected(es: seq<ExampleView>): nat {
    if |es| == 0 then 0
    else CountSelected(es[..|es| - 1]) + (if Selected(es[|es| - 1]) then 1 else 0)
  }

  /** A chapter contributes one entry per selected example. */
  lemma {:induction false} ChapterOutputsCount(ch: ChapterView, es: seq<ExampleView>)
    ensures |ChapterOutputs(ch, es)| == CountSelected(es)
  {
    if |es| > 0 {
      ChapterOutputsCount(ch, es[..|es| - 1]);
    }
  }

  /** Every selected example of every chapter has its entry in the list. */
  lemma {:induction false} AllListed(chs: seq<ChapterView>, c: nat, j: nat)
    requires c < |chs| && j < |chs[c].examples| && Selected(chs[c].examples[j])
    ensures OutputOf(chs[c], chs[c].examples[j]) in AllOutputs(chs)
  {
    var init, last := chs[..|chs| - 1], chs[|chs| - 1];
    var o := OutputOf(chs[c], chs[c].examples[j]);
    if c < |init| {
      assert init[c] == chs[c];
      AllListed(init, c, j);
      InPrefix(o, AllOutputs(init), ChapterOutputs(last, last.examples));
    } else {
      ChapterListed(last, last.examples, j);
      InPrefix(o, ChapterOutputs(last, last.examples), []);
      assert AllOutputs(chs) == AllOutputs(init) + ChapterOutputs(last, last.examples);
    }
  }

  /** Every entry of the list comes from a selected example of some
      chapter. */
  lemma {:induction false} AllSource(chs: seq<ChapterView>, o: ExampleOutput) returns (c: nat, j: nat)
    requires o in AllOutputs(chs)
    ensures c < |chs| && j < |chs[c].examples| && Selected(chs[c].examples[j])
    ensures o == OutputOf(chs[c], chs[c].examples[j])
  {
    var init, last := chs[..|chs| - 1], chs[|chs| - 1];
    if o in AllOutputs(init) {
      c, j := AllSource(init, o);
      assert init[c] == chs[c];
    } else {
      c := |chs| - 1;
      j := ChapterSource(last, last.examples, o);
    }
  }

  /** The packages of the two copies of the tool. */
  const MarkcodePackage := "com.hadihariri.markcode"
  const LegacyPackage := "org.jetbrains.kotlinBook"

  /** The first line of the file as the markcode copy writes it. */
  const MarkcodeHeader := "import " + MarkcodePackage + "\n"
  /** The first line of the file as the legacy copy writes it. */
  const LegacyHeader := "import " + LegacyPackage + ".OutputVerifier\n"
  /** The first line the generated `main` needs: it constructs an
      `OutputVerifier`. */
  const VerifyHeader := "import " + MarkcodePackage + ".OutputVerifier\n"

  /** A one-line header imports a class named `OutputVerifier`. */
  ghost predicate ImportsVerifier(header: string) {
    exists pkg :: header == "import " + pkg + ".OutputVerifier\n"
  }

  /** As written, the markcode header imports the package name itself, so
      the `OutputVerifier()` that the generated `main` calls is not
      imported. */
  lemma MarkcodeHeaderMissesVerifier()
    ensures !ImportsVerifier(MarkcodeHeader)
    ensures Contains(VerifierLine, "OutputVerifier()")
  {
    var h := MarkcodeHeader;
    forall pkg ensures h != "import " + pkg + ".OutputVerifier\n" {
      var t := "import " + pkg + ".OutputVerifier\n";
      if |t| == |h| {
        assert t[|t| - 2] == 'r' && h[|h| - 2] == 'e';
      }
    }
    assert VerifierLine[19..35] == "OutputVerifier()";
    ContainsAt(VerifierLine, "OutputVerifier()", 19);
  }

  /** The header the rest of the model uses imports the verifier, as the
      legacy copy's header does. */
  lemma HeadersImportVerifier()
    ensures ImportsVerifier(VerifyHeader) && ImportsVerifier(LegacyHeader)
  {
  }

  /** The generated file: the writer with the header that imports the
      verifier. */
  method WriteVerifyAll(chapters: seq<ChapterView>) returns (text: string, examples: seq<ExampleOutput>)
    ensures examples == AllOutputs(chapters)
    ensures text == Document(VerifyHeader, chapters) && StartsWith(text, VerifyHeader)
  {
    text, examples := WriteVerifyAllSamples(VerifyHeader, chapters);
    HeadersImportVerifier();
    assert text[..|VerifyHeader|] == VerifyHeader;
  }

  /** The helloworld sample: package "helloworld.exkt", expected output
      from line 8 of "helloworld.adoc". */
  lemma HelloWorldEntry()
    ensures var e := ExampleView(false, true, true, Some("helloworld.exkt"), "1_HelloWorld.txt", Some(8), None);
      var outs := AllOutputs([ChapterView("helloworld", "helloworld.adoc", [e])]);
      |outs| == 1 && outs[0].functionName == "helloworld_exkt" && outs[0].location == "helloworld.adoc:8"
  {
    var e := ExampleView(false, true, true, Some("helloworld.exkt"), "1_HelloWorld.txt", Some(8), None);
    var ch := ChapterView("helloworld", "helloworld.adoc", [e]);
    assert [e][..0] == [] && [ch][..0] == [];
    assert ChapterOutputs(ch, [e]) == [OutputOf(ch, e)];
    assert Alias("helloworld.exkt") == "helloworld_exkt";
    assert IntToString(8) == "8";
    assert "helloworld.adoc" + ":" + "8" == "helloworld.adoc:8";
  }
}
