/** One code block of a chapter (`CodeExample`): its raw lines by line
    number, the buffers processLines fills, and the source file text built
    from them. */
module Examples {
  import opened Wrappers
  import opened Text
  import opened Callouts
  import opened Languages
  import opened Metadata
  import opened LineProcessing
  import opened Output

  /** Raw lines in ascending line-number order, each number at most once: a
      `TreeMap<Int, String>` as a list of entries. */
  predicate SortedLines(lines: seq<(int, string)>) {
    forall i, j :: 0 <= i < j < |lines| ==> lines[i].0 < lines[j].0
  }

  /** The map the entries stand for. */
  function AsMap(lines: seq<(int, string)>): map<int, string> {
    if |lines| == 0 then map[] else AsMap(lines[1..])[lines[0].0 := lines[0].1]
  }

  lemma {:induction false} AsMapKeys(lines: seq<(int, string)>)
    ensures AsMap(lines).Keys == set e | e in lines :: e.0
  {
    if |lines| > 0 {
      AsMapKeys(lines[1..]);
      assert lines == [lines[0]] + lines[1..];
    }
  }

  /** `put(n, line)`: the entry for `n` is added, or replaced when there is
      one, and the order is kept. */
  function Put(lines: seq<(int, string)>, n: int, line: string): (r: seq<(int, string)>)
    ensures forall e :: e in r ==> e == (n, line) || e in lines
    ensures (n, line) in r
    ensures SortedLines(lines) ==> SortedLines(r)
  {
    if |lines| == 0 then [(n, line)]
    else if lines[0].0 == n then [(n, line)] + lines[1..]
    else if lines[0].0 > n then [(n, line)] + lines
    else
      var rest := Put(lines[1..], n, line);
      assert SortedLines(lines) ==> forall e :: e in lines[1..] ==> lines[0].0 < e.0;
      [lines[0]] + rest
  }

  /** As a map, `Put` is an update: every other line number keeps its line. */
  lemma {:induction false} PutUpdates(lines: seq<(int, string)>, n: int, line: string)
    requires SortedLines(lines)
    ensures AsMap(Put(lines, n, line)) == AsMap(lines)[n := line]
  {
    if |lines| > 0 {
      var head, rest := lines[0], lines[1..];
      var r := Put(lines, n, line);
      if head.0 == n {
        assert r[1..] == rest;
      } else if head.0 > n {
        assert r[1..] == lines;
      } else {
        assert SortedLines(rest);
        PutUpdates(rest, n, line);
        assert r[1..] == Put(rest, n, line);
        PutAfterHead(AsMap(rest), head, n, line);
      }
    }
  }

  lemma PutAfterHead(m: map<int, string>, head: (int, string), n: int, line: string)
    requires head.0 != n
    ensures m[n := line][head.0 := head.1] == m[head.0 := head.1][n := line]
  {
  }

  /** The line texts in line-number order (`rawLines.values`). */
  function Values(lines: seq<(int, string)>): (r: seq<string>)
    ensures |r| == |lines| && forall i :: 0 <= i < |lines| ==> r[i] == lines[i].1
  {
    seq(|lines|, i requires 0 <= i < |lines| => lines[i].1)
  }

  /** `File.extension`: the text after the last '.', or "" without one. */
  function Extension(name: string): (r: string)
    ensures '.' in name ==> name == SubstringBeforeLast(name, '.') + "." + r
    ensures '.' !in name ==> r == ""
  {
    match LastIndexOf(name, '.')
    case Some(i) => name[i + 1..]
    case None => ""
  }

  /** The warning `process` prints: the text mentions no "fun main" and the
      output file is a Kotlin file. */
  predicate MissingMain(content: string, filename: string) {
    !Contains(content, "fun main") && Extension(filename) == "kt"
  }

  lemma JoinFour(a: string, b: string, c: string, d: string)
    ensures a + b + c + d == a + (b + c + d)
  {
  }

  /** What `process` writes for an example that is not skipped. */
  datatype Written = Written(
    outputFile: string,
    content: string,
    missingMainWarning: bool,
    expectedOutputFile: Option<(string, string)>)

  /** A file as `process` writes it: the missing-main warning is the one
      its content calls for, and an expected-output file, when there is
      one, is named after it with the extension "txt" and is not empty. */
  predicate WellWritten(w: Written) {
    w.missingMainWarning == MissingMain(w.content, w.outputFile)
    && (w.expectedOutputFile.Some? ==>
          w.expectedOutputFile.value.0 == ReplaceAfterLast(w.outputFile, '.', "txt")
          && w.expectedOutputFile.value.1 != "")
  }

  class CodeExample {
    var filename: string
    const language: Language
    const prependExamples: seq<CodeExample>
    const mainExample: CodeExample?
    const skip: bool
    const sourceMetadata: SourceMetadata
    /** The two line-length limits of checkRemoveAnnotation. */
    const limits: Limits

    var rawLines: seq<(int, string)>
    var text: string
    var textWithoutMain: string
    var textOfMain: string
    var expectedOutput: string
    var hasErrors: bool
    /** The reportLineError diagnostics, as (line number, message). */
    var lineErrors: seq<(int, string)>
    var packageName: Option<string>
    var expectedOutputStartLine: Option<int>

    /** The raw lines are kept sorted; an example never borrows from itself. */
    ghost predicate Valid()
      reads this`rawLines
    {
      SortedLines(rawLines) && this !in prependExamples && mainExample != this
    }

    constructor (filename: string, language: Language, prependExamples: seq<CodeExample>,
                 mainExample: CodeExample?, skip: bool, sourceMetadata: SourceMetadata, limits: Limits)
      ensures Valid()
      ensures this.filename == filename && this.language == language
      ensures this.prependExamples == prependExamples && this.mainExample == mainExample
      ensures this.skip == skip && this.sourceMetadata == sourceMetadata && this.limits == limits
      ensures rawLines == [] && Snapshot(false) == NoBuffers
      ensures packageName == None
    {
      this.filename := filename;
      this.language := language;
      this.prependExamples := prependExamples;
      this.mainExample := mainExample;
      this.skip := skip;
      this.sourceMetadata := sourceMetadata;
      this.limits := limits;
      rawLines := [];
      text, textWithoutMain, textOfMain, expectedOutput := "", "", "", "";
      hasErrors, lineErrors := false, [];
      packageName, expectedOutputStartLine := None, None;
    }

    /** The buffers as processLines sees them, with its `insideMain` flag. */
    function Snapshot(insideMain: bool): Buffers
      reads this`text, this`textWithoutMain, this`textOfMain, this`expectedOutput
      reads this`expectedOutputStartLine, this`hasErrors, this`lineErrors
    {
      Buffers(insideMain, text, textWithoutMain, textOfMain, expectedOutput,
              expectedOutputStartLine, hasErrors, lineErrors)
    }

    /** The buffers once processLines has cleared `text`, and only `text`. */
    function Start(): Buffers
      reads this`text, this`textWithoutMain, this`textOfMain, this`expectedOutput
      reads this`expectedOutputStartLine, this`hasErrors, this`lineErrors
    {
      Snapshot(false).(text := "")
    }

    /** What processLines reads from the example itself. */
    function CurrentSetting(): Setting
      reads this`rawLines, this`filename
    {
      Setting(WrapsWholeBlock(skip, mainExample != null, language, Values(rawLines)), language, filename, limits)
    }

    /** updateOutputFileName: only a Kotlin example is renamed. */
    method UpdateOutputFileName(name: string)
      modifies this`filename
      ensures filename == if language.Kotlin? then name else old(filename)
    {
      if language == Kotlin {
        filename := name;
      }
    }

    /** addLine. */
    method AddLine(lineNumber: int, line: string)
      requires Valid()
      modifies this`rawLines
      ensures Valid()
      ensures rawLines == Put(old(rawLines), lineNumber, line)
      ensures AsMap(rawLines) == old(AsMap(rawLines))[lineNumber := line]
    {
      PutUpdates(rawLines, lineNumber, line);
      rawLines := Put(rawLines, lineNumber, line);
    }

    /** reportLineError, with the diagnostic kept instead of printed. */
    method ReportLineError(lineNumber: int, message: string)
      modifies this`hasErrors, this`lineErrors
      ensures hasErrors && lineErrors == old(lineErrors) + [(lineNumber, message)]
    {
      lineErrors := lineErrors + [(lineNumber, message)];
      hasErrors := true;
    }

    /** checkRemoveAnnotation. */
    method CheckRemoveAnnotation(line: string, lineNumber: int) returns (processedLine: string)
      modifies this`hasErrors, this`lineErrors
      ensures processedLine == StripCallout(line, limits).text
      ensures Snapshot(false) == Report(old(Snapshot(false)), lineNumber, line, limits)
    {
      var matchResult := FindCallout(line, 0);
      if matchResult.Some? {
        var lineBeforeAnno := TrimEnd(line[..matchResult.value]);
        if |lineBeforeAnno| > limits.beforeCallout {
          ReportLineError(lineNumber, LimitMessage(true, limits));
        }
        processedLine := lineBeforeAnno;
      } else {
        if |TrimEnd(line)| > limits.wholeLine {
          ReportLineError(lineNumber, LimitMessage(false, limits));
        }
        processedLine := TrimEnd(line);
      }
    }

    /** appendProcessedLine. */
    method AppendProcessedLine(processedLine: string, insideMain: bool)
      modifies this`text, this`textWithoutMain, this`textOfMain
      ensures Snapshot(false) == AppendProcessed(old(Snapshot(false)), processedLine, insideMain)
    {
      text := text + processedLine + "\n";
      if !insideMain {
        textWithoutMain := textWithoutMain + processedLine + "\n";
      } else {
        textOfMain := textOfMain + processedLine + "\n";
      }
    }

    /** appendSourceLine. */
    method AppendSourceLine(line: string, lineNumber: int, insideMain: bool)
      modifies this`text, this`textWithoutMain, this`textOfMain, this`hasErrors, this`lineErrors
      ensures Snapshot(false) ==
        AppendProcessed(Report(old(Snapshot(false)), lineNumber, line, limits), StripCallout(line, limits).text, insideMain)
    {
      var processed := CheckRemoveAnnotation(line, lineNumber);
      AppendProcessedLine(processed, insideMain);
    }

    /** processLines: the raw lines in line-number order, each through one
        `Step`, from the buffers with `text` cleared; `main` is closed at the
        end iff it was opened. For an example processed for the first time
        this is `Processed`. */
    method ProcessLines()
      modifies this`text, this`textWithoutMain, this`textOfMain, this`expectedOutput
      modifies this`hasErrors, this`lineErrors, this`expectedOutputStartLine
      ensures var st := CurrentSetting();
        var p := Finish(Run(old(Start()), rawLines, st), st);
        Snapshot(p.insideMain) == p
      ensures old(Start()) == NoBuffers ==>
        Snapshot(Processed(rawLines, CurrentSetting()).insideMain) == Processed(rawLines, CurrentSetting())
    {
      text := "";
      ghost var start := Start();
      ghost var st := CurrentSetting();
      var everythingInsideMain := WrapsWholeBlock(skip, mainExample != null, language, Values(rawLines));
      var insideMain := false;
      var i := 0;
      while i < |rawLines|
        invariant 0 <= i <= |rawLines|
        invariant Snapshot(insideMain) == Run(start, rawLines[..i], st)
      {
        var (lineNumber, line) := rawLines[i];
        assert rawLines[..i + 1][..i] == rawLines[..i];
        insideMain := ProcessLine(lineNumber, line, insideMain, everythingInsideMain);
        i := i + 1;
      }
      assert rawLines[..i] == rawLines;
      if insideMain {
        AppendProcessedLine(MainEnd(language), true);
      }
    }

    /** One line of processLines: it opens `main` when it is the first line
        that belongs there, and goes to the code or, once `main` is open
        and it is neither a main line nor blank, to the expected output. */
    method ProcessLine(lineNumber: int, line: string, insideMain: bool, everythingInsideMain: bool)
      returns (nowInsideMain: bool)
      modifies this`text, this`textWithoutMain, this`textOfMain, this`expectedOutput
      modifies this`hasErrors, this`lineErrors, this`expectedOutputStartLine
      ensures Snapshot(nowInsideMain) ==
        Step(old(Snapshot(insideMain)), lineNumber, line, Setting(everythingInsideMain, language, filename, limits))
    {
      ghost var st := Setting(everythingInsideMain, language, filename, limits);
      ghost var before := Snapshot(insideMain);
      nowInsideMain := insideMain;
      if IsMainLine(line) || everythingInsideMain {
        if !nowInsideMain {
          AppendProcessedLine("\n" + MainFunction(language, filename), true);
          nowInsideMain := true;
        }
        assert Snapshot(true) == if !insideMain then AppendProcessed(before, MainOpening(st), true).(insideMain := true) else before;
        var lineContent := RemovePrefix(RemovePrefix(line, ">>> "), "... ");
        AppendSourceLine(MainIndent(language) + lineContent, lineNumber, nowInsideMain);
      } else if !nowInsideMain {
        AppendSourceLine(line, lineNumber, nowInsideMain);
      } else if line != "" {
        if expectedOutputStartLine.None? {
          expectedOutputStartLine := Some(lineNumber);
        }
        var processed := CheckRemoveAnnotation(line, lineNumber);
        expectedOutput := expectedOutput + processed + "\n";
      }
    }

    /** hasOutputToVerify. */
    predicate HasOutputToVerify(): (b: bool)
      reads this`expectedOutput, mainExample
      ensures sourceMetadata.noverify ==> !b
      ensures !sourceMetadata.noverify && expectedOutput != "" ==> b
      ensures !sourceMetadata.noverify && expectedOutput == "" ==>
        (b <==> mainExample != null && mainExample.expectedOutput != "")
    {
      (expectedOutput != "" || (mainExample != null && mainExample.expectedOutput != ""))
      && !sourceMetadata.noverify
    }

    /** expectedOutputFileName: the extension becomes "txt". */
    function ExpectedOutputFileName(): (r: string)
      reads this`filename
      ensures '.' in filename ==> r == SubstringBeforeLast(filename, '.') + ".txt"
      ensures '.' !in filename ==> r == filename
    {
      ReplaceAfterLast(filename, '.', "txt")
    }

    /** The texts collectSyntheticElements searches: the example's own
        text, each prepended example's text and the borrowed `main`. */
    predicate Mentions(key: string)
      reads this`text, prependExamples, mainExample
    {
      Contains(text, key)
      || (exists j :: 0 <= j < |prependExamples| && Contains(prependExamples[j].text, key))
      || (mainExample != null && Contains(mainExample.textOfMain, key))
    }

    function MentionTexts(): (r: seq<string>)
      reads this`text, prependExamples, mainExample
      ensures forall key :: Mentioned(key, r) <==> Mentions(key)
    {
      var r := [text] + TextsOf(prependExamples) + (if mainExample != null then [mainExample.textOfMain] else []);
      assert forall key :: Mentioned(key, r) ==> Mentions(key) by {
        forall key | Mentioned(key, r) ensures Mentions(key) {
          var i :| 0 <= i < |r| && Contains(r[i], key);
          if 0 < i <= |prependExamples| {
            assert Contains(prependExamples[i - 1].text, key);
          }
        }
      }
      assert forall key :: Mentions(key) ==> Mentioned(key, r) by {
        forall key | Mentions(key) ensures Mentioned(key, r) {
          if Contains(text, key) {
            assert r[0] == text;
          } else if j :| 0 <= j < |prependExamples| && Contains(prependExamples[j].text, key) {
            assert r[j + 1] == prependExamples[j].text;
          } else {
            assert r[|r| - 1] == mainExample.textOfMain;
          }
        }
      }
      r
    }

    /** collectSyntheticElements: the value of every table entry whose key
        occurs in one of the searched texts, and of no other. */
    function CollectSyntheticElements(table: seq<(string, string)>): (r: seq<string>)
      reads this`text, prependExamples, mainExample
      ensures forall v :: v in r <==>
        exists i :: 0 <= i < |table| && table[i].1 == v && Mentions(table[i].0)
    {
      Collect(table, MentionTexts())
    }

    /** The first line of a file whose directive asks for `jvmname`. */
    function JvmNameLine(): string
      requires sourceMetadata.filename.Some?
    {
      "@file:JvmName(\"" + SubstringBefore(sourceMetadata.filename.value, '.') + "\")\n"
    }

    /** Some raw line already starts with "package". */
    predicate DeclaresPackage()
      reads this`rawLines
    {
      exists i :: 0 <= i < |rawLines| && StartsWith(rawLines[i].1, "package")
    }

    /** The name the package is derived from: the directive's file name, or
        the example's. */
    function PackageSource(): string
      reads this`filename
    {
      sourceMetadata.filename.GetOr(filename)
    }

    /** The borrowed `main`, or nothing. */
    function MainText(): string
      reads mainExample
    {
      if mainExample != null then mainExample.textOfMain else ""
    }

    /** generateOutputText fails (a crash in the source) when `jvmname` is
        given without a file name, or when a Kotlin package has to be derived
        from an empty file name. */
    predicate OutputFails()
      reads this`rawLines, this`filename
    {
      (sourceMetadata.jvmname && sourceMetadata.filename.None?)
      || (!DeclaresPackage() && language.Kotlin? && PackageSource() == "")
    }

    /** The start of the file: the `jvmname` annotation and, unless the
        block declares its own, the package statement. */
    function Header(dirName: string): string
      reads this`rawLines, this`filename
      requires !OutputFails()
    {
      var jvm := if sourceMetadata.jvmname then JvmNameLine() else "";
      if DeclaresPackage() then jvm
      else jvm + PackageStatement(language, PackageName(language, dirName, PackageSource())) + "\n\n"
    }

    /** The statements that open the code: synthetic imports, synthetic
        prefixes, the directive's imports, then one blank line iff any of
        these three was written. */
    function Statements(imports: seq<(string, string)>, prefixes: seq<(string, string)>): string
      reads this`text, prependExamples, mainExample
    {
      var syntheticImports := CollectSyntheticElements(imports);
      var syntheticPrefixes := CollectSyntheticElements(prefixes);
      var any := |syntheticImports| > 0 || |syntheticPrefixes| > 0 || |sourceMetadata.imports| > 0;
      var statements := Lines(ImportStatements(language, syntheticImports)) + Lines(syntheticPrefixes)
        + Lines(ImportStatements(language, sourceMetadata.imports));
      if any then statements + "\n" else statements
    }

    /** The rest of the file, in the order generateOutputText appends it: the
        statements, each prepended example's code outside `main`, the
        example's text, and the borrowed `main`. */
    function Body(imports: seq<(string, string)>, prefixes: seq<(string, string)>): string
      reads this`text, prependExamples, mainExample
    {
      var code := Statements(imports, prefixes) + Lines(WithoutMainTextsOf(prependExamples)) + text;
      if mainExample != null then code + mainExample.textOfMain else code
    }

    /** The text generateOutputText returns. */
    function OutputText(dirName: string, imports: seq<(string, string)>, prefixes: seq<(string, string)>): Result<string>
      reads this`text, this`rawLines, this`filename, prependExamples, mainExample
    {
      if sourceMetadata.jvmname && sourceMetadata.filename.None? then Failure("jvmname without a file name")
      else if OutputFails() then Failure("empty file name")
      else Success(Collapse(Header(dirName) + Body(imports, prefixes)))
    }

    /** generateOutputText. The package name is recorded when a package
        statement is written. */
    method GenerateOutputText(dirName: string, imports: seq<(string, string)>, prefixes: seq<(string, string)>)
      returns (r: Result<string>)
      requires Valid()
      modifies this`packageName
      ensures r == OutputText(dirName, imports, prefixes)
      ensures packageName ==
        if r.Success? && !DeclaresPackage() then Some(PackageName(language, dirName, PackageSource()))
        else old(packageName)
    {
      var result := "";
      if sourceMetadata.jvmname {
        if sourceMetadata.filename.None? {
          return Failure("jvmname without a file name");
        }
        result := JvmNameLine();
      }
      if !DeclaresPackage() {
        var name := sourceMetadata.filename.GetOr(filename);
        if language == Kotlin && name == "" {
          return Failure("empty file name");
        }
        var p := PackageName(language, dirName, name);
        packageName := Some(p);
        result := result + PackageStatement(language, p) + "\n\n";
      }
      assert result == Header(dirName);
      var body := AppendBody(imports, prefixes);
      r := Success(Collapse(result + body));
    }

    /** Text without line breaks that occurs in the body occurs in the
        generated file. */
    lemma InBody(dirName: string, imports: seq<(string, string)>, prefixes: seq<(string, string)>, key: string)
      requires '\n' !in key && Contains(Body(imports, prefixes), key)
      requires OutputText(dirName, imports, prefixes).Success?
      ensures Contains(OutputText(dirName, imports, prefixes).value, key)
    {
      var whole := Header(dirName) + Body(imports, prefixes);
      ContainsInfix(Header(dirName), Body(imports, prefixes), "", key);
      assert whole + "" == whole;
      CollapseKeepsWords(whole, key);
    }

    /** The code after the statements: each prepended example's code
        outside `main`, the example's text and the borrowed `main`. */
    function Code(): string
      reads this`text, prependExamples, mainExample
    {
      Lines(WithoutMainTextsOf(prependExamples)) + text + MainText()
    }

    lemma BodySplit(imports: seq<(string, string)>, prefixes: seq<(string, string)>)
      ensures Body(imports, prefixes) == Statements(imports, prefixes) + Code()
    {
      var stmts, before := Statements(imports, prefixes), Lines(WithoutMainTextsOf(prependExamples));
      assert Body(imports, prefixes) == stmts + before + text + MainText();
      JoinFour(stmts, before, text, MainText());
    }

    /** Every text without line breaks in the example's own code, or in the
        `main` it borrows, reaches the generated file. */
    lemma KeptInOutput(dirName: string, imports: seq<(string, string)>, prefixes: seq<(string, string)>, key: string)
      requires '\n' !in key
      requires Contains(text, key) || (mainExample != null && Contains(mainExample.textOfMain, key))
      requires OutputText(dirName, imports, prefixes).Success?
      ensures Contains(OutputText(dirName, imports, prefixes).value, key)
    {
      var before := Lines(WithoutMainTextsOf(prependExamples));
      if Contains(text, key) {
        ContainsInfix(before, text, MainText(), key);
      } else {
        ContainsInfix(before + text, MainText(), "", key);
        assert before + text + MainText() + "" == Code();
      }
      BodySplit(imports, prefixes);
      ContainsInfix(Statements(imports, prefixes), Code(), "", key);
      assert Statements(imports, prefixes) + Code() + "" == Body(imports, prefixes);
      InBody(dirName, imports, prefixes, key);
    }

    /** An import table entry whose key the example mentions is imported by
        the generated file. */
    lemma SyntheticImportWritten(dirName: string, imports: seq<(string, string)>, prefixes: seq<(string, string)>, i: nat)
      requires i < |imports| && Mentions(imports[i].0) && '\n' !in imports[i].1
      requires OutputText(dirName, imports, prefixes).Success?
      ensures Contains(OutputText(dirName, imports, prefixes).value, ImportStatement(language, imports[i].1))
    {
      var stmt := ImportStatement(language, imports[i].1);
      ImportInStatements(imports, prefixes, i);
      BodySplit(imports, prefixes);
      ContainsExtended(Statements(imports, prefixes), Code(), stmt);
      ImportSingleLine(language, imports[i].1);
      InBody(dirName, imports, prefixes, stmt);
    }

    lemma ImportInStatements(imports: seq<(string, string)>, prefixes: seq<(string, string)>, i: nat)
      requires i < |imports| && Mentions(imports[i].0)
      ensures Contains(Statements(imports, prefixes), ImportStatement(language, imports[i].1))
    {
      var syn := CollectSyntheticElements(imports);
      assert imports[i].1 in syn;
      var j :| 0 <= j < |syn| && syn[j] == imports[i].1;
      var stmts := ImportStatements(language, syn);
      var k := stmts[j];
      LineIn(stmts, j);
      ContainsExtended(Lines(stmts), Lines(CollectSyntheticElements(prefixes)), k);
      var two := Lines(stmts) + Lines(CollectSyntheticElements(prefixes));
      ContainsExtended(two, Lines(ImportStatements(language, sourceMetadata.imports)), k);
      var three := two + Lines(ImportStatements(language, sourceMetadata.imports));
      ContainsExtended(three, "\n", k);
    }

    /** An example whose processing opened `main` never draws the
        missing-`main` warning: the Kotlin opening mentions "fun main". */
    lemma OpenedMainNotMissing(dirName: string, imports: seq<(string, string)>, prefixes: seq<(string, string)>)
      requires language.Kotlin?
      requires Snapshot(true) == Processed(rawLines, CurrentSetting())
      requires OutputText(dirName, imports, prefixes).Success?
      ensures !MissingMain(OutputText(dirName, imports, prefixes).value, filename)
    {
      OpenedMainMentioned(rawLines, CurrentSetting());
      MainWordSingleLine();
      KeptInOutput(dirName, imports, prefixes, "fun main");
    }

    /** A block wrapped whole in `main` never draws the missing-`main`
        warning. */
    lemma WrappedNotMissing(dirName: string, imports: seq<(string, string)>, prefixes: seq<(string, string)>)
      requires CurrentSetting().wrapAll && |rawLines| > 0
      requires Snapshot(Processed(rawLines, CurrentSetting()).insideMain) == Processed(rawLines, CurrentSetting())
      requires OutputText(dirName, imports, prefixes).Success?
      ensures !MissingMain(OutputText(dirName, imports, prefixes).value, filename)
    {
      WrappedWholeStaysInMain(rawLines, CurrentSetting());
      OpenedMainNotMissing(dirName, imports, prefixes);
    }

    /** The appends of generateOutputText after the header. */
    method AppendBody(imports: seq<(string, string)>, prefixes: seq<(string, string)>) returns (result: string)
      ensures result == Body(imports, prefixes)
    {
      result := AppendStatements(imports, prefixes);
      result := AppendLines(result, WithoutMainTextsOf(prependExamples));
      result := result + text;
      if mainExample != null {
        result := result + mainExample.textOfMain;
      }
    }

    /** The statement appends of generateOutputText. */
    method AppendStatements(imports: seq<(string, string)>, prefixes: seq<(string, string)>) returns (result: string)
      ensures result == Statements(imports, prefixes)
    {
      var anyPrefixes := false;
      var syntheticImports := CollectSyntheticElements(imports);
      result := AppendLines([], ImportStatements(language, syntheticImports));
      anyPrefixes := |syntheticImports| > 0;
      var syntheticPrefixes := CollectSyntheticElements(prefixes);
      result := AppendLines(result, syntheticPrefixes);
      anyPrefixes := anyPrefixes || |syntheticPrefixes| > 0;
      result := AppendLines(result, ImportStatements(language, sourceMetadata.imports));
      if anyPrefixes || |sourceMetadata.imports| > 0 {
        result := result + "\n";
      }
    }

    /** The output `process` checks against: the example's own, or else the
        one of the example it takes `main` from. */
    function BorrowedOutput(): Option<string>
      reads mainExample
    {
      if mainExample != null then Some(mainExample.expectedOutput) else None
    }

    /** What `process` leaves and gives back when it starts from the
        buffers `start`: the buffers are those processLines computes from
        them; a skipped example writes nothing; a written one writes its
        own file with the generated text, the warning that text calls for
        and its expected-output file, or fails as generateOutputText does. */
    ghost predicate ProcessedFrom(start: Buffers, r: Result<Option<Written>>, dirName: string, writeExpectedOutput: bool,
                                  imports: seq<(string, string)>, prefixes: seq<(string, string)>)
      reads this, prependExamples, mainExample
    {
      Valid()
      && (var st := CurrentSetting();
          var p := Finish(Run(start, rawLines, st), st);
          Snapshot(p.insideMain) == p)
      && (skip ==> r == Success(None))
      && (!skip ==> match OutputText(dirName, imports, prefixes)
            case Failure(e) => r == Failure(e)
            case Success(t) => r == Success(Some(Written(filename, t, MissingMain(t, filename),
              ExpectedFile(writeExpectedOutput, sourceMetadata.noverify, filename, expectedOutput, BorrowedOutput())))))
    }

    /** process: the lines are processed; an example that is not skipped gets
        its source file, the missing-`main` warning when it applies, and its
        expected-output file. */
    method Process(dirName: string, writeExpectedOutput: bool,
                   imports: seq<(string, string)>, prefixes: seq<(string, string)>)
      returns (r: Result<Option<Written>>)
      requires Valid()
      modifies this`text, this`textWithoutMain, this`textOfMain, this`expectedOutput
      modifies this`hasErrors, this`lineErrors, this`expectedOutputStartLine, this`packageName
      ensures Valid()
      ensures var st := CurrentSetting();
        var p := Finish(Run(old(Start()), rawLines, st), st);
        Snapshot(p.insideMain) == p
      ensures skip ==> r == Success(None)
      ensures !skip ==> match OutputText(dirName, imports, prefixes)
        case Failure(e) => r == Failure(e)
        case Success(t) => r == Success(Some(Written(filename, t, MissingMain(t, filename),
          ExpectedFile(writeExpectedOutput, sourceMetadata.noverify, filename, expectedOutput, BorrowedOutput()))))
    {
      ProcessLines();
      if skip {
        return Success(None);
      }
      var result := GenerateOutputText(dirName, imports, prefixes);
      if result.Failure? {
        return Failure(result.error);
      }
      var content := result.value;
      var expected := ExpectedFile(writeExpectedOutput, sourceMetadata.noverify, filename, expectedOutput, BorrowedOutput());
      r := Success(Some(Written(filename, content, MissingMain(content, filename), expected)));
    }
  }

  /** The expected-output file `process` writes, as (name, content): only
      when asked to, when the directive does not say `noverify` and when
      there is output to check; the content is the example's own output, or
      else the borrowed one, and is never empty; the name is the file name
      with its extension replaced by "txt". */
  function ExpectedFile(write: bool, noverify: bool, fileName: string, own: string, borrowed: Option<string>)
    : (r: Option<(string, string)>)
    ensures r.Some? <==> write && !noverify && (own != "" || (borrowed.Some? && borrowed.value != ""))
    ensures r.Some? ==> r.value.0 == ReplaceAfterLast(fileName, '.', "txt") && r.value.1 != ""
    ensures r.Some? ==> r.value.1 == if own != "" then own else borrowed.value
  {
    if !(write && !noverify && (own != "" || (borrowed.Some? && borrowed.value != ""))) then None
    else if own != "" then Some((ReplaceAfterLast(fileName, '.', "txt"), own))
    else if borrowed.Some? then Some((ReplaceAfterLast(fileName, '.', "txt"), borrowed.value))
    else None
  }

  /** The `text` of each example, in order. */
  function TextsOf(es: seq<CodeExample>): (r: seq<string>)
    reads es
    ensures |r| == |es| && forall i :: 0 <= i < |es| ==> r[i] == es[i].text
  {
    if |es| == 0 then [] else TextsOf(es[..|es| - 1]) + [es[|es| - 1].text]
  }

  /** The `textWithoutMain` of each example, in order. */
  function WithoutMainTextsOf(es: seq<CodeExample>): (r: seq<string>)
    reads es
    ensures |r| == |es| && forall i :: 0 <= i < |es| ==> r[i] == es[i].textWithoutMain
  {
    if |es| == 0 then [] else WithoutMainTextsOf(es[..|es| - 1]) + [es[|es| - 1].textWithoutMain]
  }

  /** Appends one line per text, in order. */
  method AppendLines(prefix: string, xs: seq<string>) returns (r: string)
    ensures r == prefix + Lines(xs)
    ensures prefix == [] ==> r == Lines(xs)
  {
    r := prefix;
    var i := 0;
    while i < |xs|
      invariant 0 <= i <= |xs|
      invariant r == prefix + Lines(xs[..i])
    {
      assert xs[..i + 1][..i] == xs[..i];
      r := r + xs[i] + "\n";
      i := i + 1;
    }
    assert xs[..i] == xs;
  }
}
