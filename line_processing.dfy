/** How the lines of one code block are split into plain code, the body of a
    synthesised `main`, and the expected console output. */
module LineProcessing {
  import opened Wrappers
  import opened Text
  import opened Callouts
  import opened Languages

  /** The buffers processLines fills, with the `insideMain` flag it carries
      from line to line. */
  datatype Buffers = Buffers(
    insideMain: bool,
    text: string,
    withoutMain: string,
    ofMain: string,
    expected: string,
    expectedStart: Option<int>,
    hasErrors: bool,
    errors: seq<(int, string)>)

  const NoBuffers := Buffers(false, "", "", "", "", None, false, [])

  /** The settings processLines reads from its example. */
  datatype Setting = Setting(wrapAll: bool, lang: Language, filename: string, limits: Limits)

  /** A line that belongs to `main` by itself: a REPL-style ">>>" or "..." line. */
  predicate IsMainLine(line: string) {
    StartsWith(line, ">>>") || StartsWith(line, "...")
  }

  /** Whether the whole block is wrapped in `main`: the example is not
      skipped, borrows no `main`, has no ">>>" line, and declares nothing. */
  predicate WrapsWholeBlock(skip: bool, hasMainExample: bool, lang: Language, lines: seq<string>) {
    !skip && !hasMainExample && (forall i :: 0 <= i < |lines| ==> !StartsWith(lines[i], ">>>"))
    && !HasAnyDeclarations(lang, lines)
  }

  /** appendProcessedLine: the line goes to `text` and to exactly one of the
      two halves, chosen by `insideMain`. */
  function AppendProcessed(b: Buffers, line: string, insideMain: bool): (r: Buffers)
    ensures r.text == b.text + line + "\n"
    ensures insideMain ==> r.ofMain == b.ofMain + line + "\n" && r.withoutMain == b.withoutMain
    ensures !insideMain ==> r.withoutMain == b.withoutMain + line + "\n" && r.ofMain == b.ofMain
    ensures r.insideMain == b.insideMain && r.expected == b.expected
    ensures r.expectedStart == b.expectedStart && r.hasErrors == b.hasErrors && r.errors == b.errors
  {
    if insideMain then b.(text := b.text + line + "\n", ofMain := b.ofMain + line + "\n")
    else b.(text := b.text + line + "\n", withoutMain := b.withoutMain + line + "\n")
  }

  /** The line-length check of checkRemoveAnnotation, with reportLineError
      for a line that breaks its limit: the error flag is raised and one
      diagnostic for that line number is recorded. */
  function Report(b: Buffers, lineNumber: int, line: string, limits: Limits): (r: Buffers)
    ensures r == b.(hasErrors := r.hasErrors, errors := r.errors) && b.errors <= r.errors
    ensures StripCallout(line, limits).tooLong <==> |r.errors| == |b.errors| + 1
    ensures StripCallout(line, limits).tooLong ==> r.hasErrors && r.errors[|b.errors|].0 == lineNumber
    ensures StripCallout(line, limits).tooLong ==>
      r.errors[|b.errors|].1 == LimitMessage(FindCallout(line, 0).Some?, limits)
    ensures !StripCallout(line, limits).tooLong ==> r == b
  {
    if StripCallout(line, limits).tooLong then
      b.(hasErrors := true, errors := b.errors + [(lineNumber, LimitMessage(FindCallout(line, 0).Some?, limits))])
    else b
  }

  /** The opening of `main`, emitted as its own processed line. */
  function MainOpening(st: Setting): string {
    "\n" + MainFunction(st.lang, st.filename)
  }

  /** A line that goes inside `main`: a ">>>" or "..." line, or any line of
      a block wrapped whole. */
  predicate GoesToMain(line: string, st: Setting) {
    IsMainLine(line) || st.wrapAll
  }

  /** The text a line that goes inside `main` is given before its callout
      check: the indent, then the line less a ">>> " or "... " prompt. */
  function MainLineText(line: string, st: Setting): string {
    MainIndent(st.lang) + RemovePrefix(RemovePrefix(line, ">>> "), "... ")
  }

  /** One line of the loop in processLines. */
  function Step(b: Buffers, lineNumber: int, line: string, st: Setting): Buffers {
    if GoesToMain(line, st) then
      var withMain := if !b.insideMain then AppendProcessed(b, MainOpening(st), true).(insideMain := true) else b;
      var content := MainLineText(line, st);
      AppendProcessed(Report(withMain, lineNumber, content, st.limits), StripCallout(content, st.limits).text, true)
    else if !b.insideMain then
      AppendProcessed(Report(b, lineNumber, line, st.limits), StripCallout(line, st.limits).text, false)
    else if line != "" then
      var r := Report(b, lineNumber, line, st.limits);
      r.(expected := r.expected + StripCallout(line, st.limits).text + "\n",
         expectedStart := if r.expectedStart.None? then Some(lineNumber) else r.expectedStart)
    else b
  }

  /** The lines of a block, in ascending line-number order, run through
      `Step` from the buffers `start`. */
  function Run(start: Buffers, lines: seq<(int, string)>, st: Setting): Buffers {
    if |lines| == 0 then start
    else
      var last := lines[|lines| - 1];
      Step(Run(start, lines[..|lines| - 1], st), last.0, last.1, st)
  }

  /** The end of processLines: `main` is closed iff it was opened. */
  function Finish(b: Buffers, st: Setting): (r: Buffers)
    ensures r.insideMain == b.insideMain
    ensures b.insideMain ==> EndsWith(r.ofMain, MainEnd(st.lang) + "\n") && r.withoutMain == b.withoutMain
    ensures !b.insideMain ==> r == b
  {
    if b.insideMain then
      var r := AppendProcessed(b, MainEnd(st.lang), true);
      assert r.ofMain[|r.ofMain| - |MainEnd(st.lang) + "\n"|..] == MainEnd(st.lang) + "\n";
      r
    else b
  }

  /** Everything processLines computes for a block whose buffers are still
      empty. */
  function Processed(lines: seq<(int, string)>, st: Setting): Buffers {
    Finish(Run(NoBuffers, lines, st), st)
  }

  /** The shape of the buffers at every point: `text` is the part outside
      `main` followed by the part inside it; the part inside is empty until
      `main` opens, and then starts with the opening. */
  predicate Shaped(b: Buffers, st: Setting) {
    b.text == b.withoutMain + b.ofMain
    && (!b.insideMain ==> b.ofMain == "")
    && (b.insideMain ==> StartsWith(b.ofMain, MainOpening(st) + "\n"))
    && (b.expectedStart.Some? <==> b.expected != "")
  }

  /** Opening `main` on shaped buffers keeps them shaped. */
  lemma OpenShaped(b: Buffers, st: Setting)
    requires Shaped(b, st) && !b.insideMain
    ensures Shaped(AppendProcessed(b, MainOpening(st), true).(insideMain := true), st)
  {
    var m := MainOpening(st);
    var w := AppendProcessed(b, m, true);
    assert b.text == b.withoutMain;
    assert w.ofMain == m + "\n";
    assert w.text == w.withoutMain + w.ofMain;
  }

  /** Appending inside an open `main` keeps the buffers shaped and only
      extends the part inside `main`. */
  lemma AppendInsideShaped(w: Buffers, t: string, st: Setting)
    requires Shaped(w, st) && w.insideMain
    ensures Shaped(AppendProcessed(w, t, true), st)
    ensures StartsWith(AppendProcessed(w, t, true).ofMain, w.ofMain)
  {
    var r := AppendProcessed(w, t, true);
    var head := MainOpening(st) + "\n";
    assert r.ofMain == w.ofMain + t + "\n";
    assert r.ofMain[..|w.ofMain|] == w.ofMain;
    assert r.ofMain[..|head|] == w.ofMain[..|head|];
  }

  /** A line that goes into `main` keeps the buffers shaped. */
  lemma MainStepShaped(b: Buffers, n: int, line: string, st: Setting)
    requires Shaped(b, st) && GoesToMain(line, st)
    ensures Shaped(Step(b, n, line, st), st) && Step(b, n, line, st).insideMain
    ensures b.insideMain ==> StartsWith(Step(b, n, line, st).ofMain, b.ofMain)
  {
    var withMain := if !b.insideMain then AppendProcessed(b, MainOpening(st), true).(insideMain := true) else b;
    if !b.insideMain {
      OpenShaped(b, st);
    }
    var content := MainLineText(line, st);
    var rep := Report(withMain, n, content, st.limits);
    assert Shaped(rep, st) && rep.ofMain == withMain.ofMain;
    AppendInsideShaped(rep, StripCallout(content, st.limits).text, st);
  }

  lemma StepShaped(b: Buffers, n: int, line: string, st: Setting)
    requires Shaped(b, st)
    ensures Shaped(Step(b, n, line, st), st)
    ensures b.insideMain ==> Step(b, n, line, st).insideMain
    ensures b.insideMain ==> StartsWith(Step(b, n, line, st).ofMain, b.ofMain)
  {
    if GoesToMain(line, st) {
      MainStepShaped(b, n, line, st);
    } else if b.insideMain {
      assert Step(b, n, line, st).ofMain == b.ofMain;
    }
  }

  /** Every prefix of the block leaves shaped buffers shaped. */
  lemma {:induction false} RunShaped(start: Buffers, lines: seq<(int, string)>, st: Setting)
    requires Shaped(start, st)
    ensures Shaped(Run(start, lines, st), st)
  {
    if |lines| > 0 {
      RunShaped(start, lines[..|lines| - 1], st);
      StepShaped(Run(start, lines[..|lines| - 1], st), lines[|lines| - 1].0, lines[|lines| - 1].1, st);
    }
  }

  /** What one line contributes to `main`: its indented, stripped text on a
      line of its own if it goes inside `main`, and nothing otherwise. */
  function MainLine(line: string, st: Setting): string {
    if GoesToMain(line, st) then StripCallout(MainLineText(line, st), st.limits).text + "\n" else ""
  }

  /** The part of `main` the lines of a block contribute: each line that
      goes inside it, indented and stripped, on a line of its own. */
  function MainLines(lines: seq<(int, string)>, st: Setting): string {
    if |lines| == 0 then ""
    else MainLines(lines[..|lines| - 1], st) + MainLine(lines[|lines| - 1].1, st)
  }

  /** Some line of the block goes inside `main`. */
  predicate AnyMainLine(lines: seq<(int, string)>, st: Setting) {
    exists i :: 0 <= i < |lines| && GoesToMain(lines[i].1, st)
  }

  /** What one line does to `main`: a line that goes inside it opens it if
      it is not open yet, then adds its own text; any other line leaves the
      part inside `main` as it is. */
  lemma StepMain(b: Buffers, lineNumber: int, line: string, st: Setting)
    ensures var r := Step(b, lineNumber, line, st);
      r.insideMain == (b.insideMain || GoesToMain(line, st))
      && r.ofMain == (if GoesToMain(line, st) && !b.insideMain then b.ofMain + MainOpening(st) + "\n" else b.ofMain)
                     + MainLine(line, st)
  {
    if GoesToMain(line, st) {
      var withMain := if !b.insideMain then AppendProcessed(b, MainOpening(st), true).(insideMain := true) else b;
      var content := MainLineText(line, st);
      var rep := Report(withMain, lineNumber, content, st.limits);
      var text := StripCallout(content, st.limits).text;
      assert rep.ofMain == withMain.ofMain && rep.insideMain;
      assert Step(b, lineNumber, line, st) == AppendProcessed(rep, text, true);
      Regroup(withMain.ofMain, text, "\n");
    } else if !b.insideMain {
      var rep := Report(b, lineNumber, line, st.limits);
      assert rep.ofMain == b.ofMain && !rep.insideMain;
    }
  }

  /** Concatenation regroups, and an empty text adds nothing. */
  lemma Regroup(a: string, b: string, c: string)
    ensures a + b + c == a + (b + c)
    ensures a == "" ==> a + b + c == b + c
  {
  }

  /** The opening of `main` is emitted once, before the first line that goes
      inside it, and never again: the part inside `main` is that opening
      followed by exactly the lines that go inside it. `main` is open
      exactly when some line went inside it. */
  lemma {:induction false} RunMain(lines: seq<(int, string)>, st: Setting)
    ensures var b := Run(NoBuffers, lines, st);
      (b.insideMain <==> AnyMainLine(lines, st))
      && b.ofMain == (if b.insideMain then MainOpening(st) + "\n" + MainLines(lines, st) else "")
  {
    if |lines| > 0 {
      var init := lines[..|lines| - 1];
      RunMain(init, st);
      MainAfterLast(Run(NoBuffers, init, st), lines, st);
    }
  }

  /** The step of `RunMain`: when the buffers after all but the last line
      are as `RunMain` states, so are they after the last line too. */
  lemma MainAfterLast(b: Buffers, lines: seq<(int, string)>, st: Setting)
    requires |lines| > 0
    requires b.insideMain <==> AnyMainLine(lines[..|lines| - 1], st)
    requires b.ofMain == (if b.insideMain then MainOpening(st) + "\n" + MainLines(lines[..|lines| - 1], st) else "")
    ensures var r := Step(b, lines[|lines| - 1].0, lines[|lines| - 1].1, st);
      (r.insideMain <==> AnyMainLine(lines, st))
      && r.ofMain == (if r.insideMain then MainOpening(st) + "\n" + MainLines(lines, st) else "")
  {
    var init := lines[..|lines| - 1];
    var last := lines[|lines| - 1];
    var r := Step(b, last.0, last.1, st);
    var head := MainOpening(st) + "\n";
    var line := MainLine(last.1, st);
    AnyMainLineSplit(lines, st);
    assert MainLines(lines, st) == MainLines(init, st) + line;
    if b.insideMain {
      assert r.insideMain && r.ofMain == b.ofMain + line by {
        StepMain(b, last.0, last.1, st);
      }
      Regroup(head, MainLines(init, st), line);
    } else if GoesToMain(last.1, st) {
      assert r.insideMain && r.ofMain == head + line by {
        StepMain(b, last.0, last.1, st);
        Regroup(b.ofMain, MainOpening(st), "\n");
      }
      NoMainLines(init, st);
      assert MainLines(lines, st) == line;
    } else {
      assert !r.insideMain && r.ofMain == b.ofMain by {
        StepMain(b, last.0, last.1, st);
      }
    }
  }

  /** Some line of a non-empty block goes inside `main` iff one of all but
      its last line does, or its last line does. */
  lemma AnyMainLineSplit(lines: seq<(int, string)>, st: Setting)
    requires |lines| > 0
    ensures AnyMainLine(lines, st) <==>
      AnyMainLine(lines[..|lines| - 1], st) || GoesToMain(lines[|lines| - 1].1, st)
  {
    var init := lines[..|lines| - 1];
    if AnyMainLine(init, st) {
      var i :| 0 <= i < |init| && GoesToMain(init[i].1, st);
      assert lines[i] == init[i];
    }
    if AnyMainLine(lines, st) && !GoesToMain(lines[|lines| - 1].1, st) {
      var i :| 0 <= i < |lines| && GoesToMain(lines[i].1, st);
      assert init[i] == lines[i];
    }
  }

  /** Without a line going inside `main`, the lines contribute nothing to it. */
  lemma {:induction false} NoMainLines(lines: seq<(int, string)>, st: Setting)
    requires !AnyMainLine(lines, st)
    ensures MainLines(lines, st) == ""
  {
    if |lines| > 0 {
      AnyMainLineSplit(lines, st);
      NoMainLines(lines[..|lines| - 1], st);
    }
  }

  /** After processing, `text` is the code outside `main` followed by the
      whole of `main`; `main` was opened exactly when some line went inside
      it, and then it is the opening, emitted once, the lines that went
      inside it, and the end. */
  lemma ProcessedShape(lines: seq<(int, string)>, st: Setting)
    ensures var p := Processed(lines, st);
      p.text == p.withoutMain + p.ofMain
      && (p.insideMain <==> p.ofMain != "")
      && (p.insideMain <==> AnyMainLine(lines, st))
      && (p.insideMain ==> StartsWith(p.ofMain, MainOpening(st) + "\n") && EndsWith(p.ofMain, MainEnd(st.lang) + "\n"))
      && (p.insideMain ==> p.ofMain == MainOpening(st) + "\n" + MainLines(lines, st) + MainEnd(st.lang) + "\n")
      && (p.expectedStart.Some? <==> p.expected != "")
  {
    RunShaped(NoBuffers, lines, st);
    FinishShaped(Run(NoBuffers, lines, st), st);
    RunMain(lines, st);
  }

  /** Closing `main` keeps the part inside it starting with its opening. */
  lemma FinishShaped(b: Buffers, st: Setting)
    requires Shaped(b, st)
    ensures var p := Finish(b, st);
      p.text == p.withoutMain + p.ofMain
      && (p.insideMain <==> p.ofMain != "")
      && (p.insideMain ==> StartsWith(p.ofMain, MainOpening(st) + "\n") && EndsWith(p.ofMain, MainEnd(st.lang) + "\n"))
      && (p.expectedStart.Some? <==> p.expected != "")
  {
    if b.insideMain {
      CloseShaped(b, MainOpening(st) + "\n", MainEnd(st.lang));
    }
  }

  lemma CloseShaped(b: Buffers, head: string, end: string)
    requires b.text == b.withoutMain + b.ofMain && StartsWith(b.ofMain, head)
    ensures var p := AppendProcessed(b, end, true);
      p.text == p.withoutMain + p.ofMain && p.ofMain != "" && StartsWith(p.ofMain, head)
      && EndsWith(p.ofMain, end + "\n")
  {
    var p := AppendProcessed(b, end, true);
    assert p.ofMain == b.ofMain + (end + "\n");
    assert p.ofMain[..|head|] == b.ofMain[..|head|];
    assert p.ofMain[|p.ofMain| - |end + "\n"|..] == end + "\n";
  }

  /** A Kotlin block whose processing opened `main` mentions "fun main". */
  lemma OpenedMainMentioned(lines: seq<(int, string)>, st: Setting)
    requires st.lang.Kotlin? && Processed(lines, st).insideMain
    ensures Contains(Processed(lines, st).text, "fun main")
  {
    var p := Processed(lines, st);
    var head := MainOpening(st) + "\n";
    assert p.text == p.withoutMain + p.ofMain && StartsWith(p.ofMain, head) by {
      ProcessedShape(lines, st);
    }
    var rest := p.ofMain[|head|..];
    assert p.ofMain == head + rest;
    OpeningMentionsMain(st);
    ContainsInfix(p.withoutMain, head, rest, "fun main");
    Regroup(p.withoutMain, head, rest);
  }

  lemma OpeningMentionsMain(st: Setting)
    requires st.lang.Kotlin?
    ensures Contains(MainOpening(st) + "\n", "fun main")
  {
    KotlinMainMentioned(st.filename);
    ContainsInfix("\n", MainFunction(Kotlin, st.filename), "\n", "fun main");
  }

  /** A block wrapped whole puts every line inside `main`: nothing stays
      outside it and no line is taken as expected output. */
  lemma {:induction false} WrappedWholeStaysInMain(lines: seq<(int, string)>, st: Setting)
    requires st.wrapAll
    ensures Run(NoBuffers, lines, st).withoutMain == "" && Run(NoBuffers, lines, st).expected == ""
    ensures |lines| > 0 ==> Run(NoBuffers, lines, st).insideMain
  {
    if |lines| > 0 {
      WrappedWholeStaysInMain(lines[..|lines| - 1], st);
    }
  }

  /** A block with no ">>>" or "..." line that is not wrapped whole passes
      through untouched by `main`: everything is code outside it. */
  lemma {:induction false} PlainBlockHasNoMain(lines: seq<(int, string)>, st: Setting)
    requires !st.wrapAll
    requires forall i :: 0 <= i < |lines| ==> !IsMainLine(lines[i].1)
    ensures var b := Run(NoBuffers, lines, st);
      !b.insideMain && b.ofMain == "" && b.expected == "" && b.text == b.withoutMain
  {
    if |lines| > 0 {
      PlainBlockHasNoMain(lines[..|lines| - 1], st);
    }
  }

  /** Java never wraps a whole block: it always reports declarations. */
  lemma JavaNeverWrapsWhole(skip: bool, hasMainExample: bool, lines: seq<string>)
    ensures !WrapsWholeBlock(skip, hasMainExample, Java, lines)
  {
  }

  /** Once `main` is open, a non-empty line that is neither ">>>" nor "..."
      goes only to the expected output, and an empty one is dropped. */
  lemma OutputLine(b: Buffers, n: int, line: string, st: Setting)
    requires b.insideMain && !st.wrapAll && !IsMainLine(line)
    ensures var r := Step(b, n, line, st);
      r.text == b.text && r.withoutMain == b.withoutMain && r.ofMain == b.ofMain
      && (line == "" ==> r == b)
      && (line != "" ==> r.expected == b.expected + StripCallout(line, st.limits).text + "\n")
      && (line != "" ==> r.expectedStart == if b.expectedStart.None? then Some(n) else b.expectedStart)
  {
  }

  /** The `i`th line of a block goes to the expected output: a line before
      it went inside `main`, and it is a non-empty line that does not go
      inside `main` itself. */
  predicate ToExpected(lines: seq<(int, string)>, i: nat, st: Setting)
    requires i < |lines|
  {
    AnyMainLine(lines[..i], st) && !GoesToMain(lines[i].1, st) && lines[i].1 != ""
  }

  /** Some line of the block goes to the expected output. */
  predicate AnyExpected(lines: seq<(int, string)>, st: Setting) {
    exists i :: 0 <= i < |lines| && ToExpected(lines, i, st)
  }

  /** One line sets the start of the expected output when none is set yet
      and it is a line of the output; otherwise the start stays. */
  lemma StepExpectedStart(b: Buffers, n: int, line: string, st: Setting)
    ensures Step(b, n, line, st).expectedStart ==
      if b.insideMain && !GoesToMain(line, st) && line != "" && b.expectedStart.None? then Some(n)
      else b.expectedStart
  {
  }

  /** expectedOutputStartLine is the number of the first line that goes to
      the expected output, and stays unset when no line does. */
  lemma {:induction false} ExpectedStartFirst(lines: seq<(int, string)>, st: Setting)
    ensures var s := Run(NoBuffers, lines, st).expectedStart;
      Processed(lines, st).expectedStart == s
      && (s.None? <==> !AnyExpected(lines, st))
      && forall i :: (0 <= i < |lines| && ToExpected(lines, i, st)
                      && forall j :: 0 <= j < i ==> !ToExpected(lines, j, st)) ==> s == Some(lines[i].0)
  {
    if |lines| > 0 {
      var k := |lines| - 1;
      var init := lines[..k];
      ExpectedStartFirst(init, st);
      var b := Run(NoBuffers, init, st);
      assert b.insideMain <==> AnyMainLine(init, st) by { RunMain(init, st); }
      assert lines[..k] == init;
      ExpectedSplit(lines, st);
      var s := Run(NoBuffers, lines, st).expectedStart;
      assert s == if ToExpected(lines, k, st) && b.expectedStart.None? then Some(lines[k].0) else b.expectedStart by {
        StepExpectedStart(b, lines[k].0, lines[k].1, st);
      }
      forall i | 0 <= i < |lines| && ToExpected(lines, i, st) && forall j :: 0 <= j < i ==> !ToExpected(lines, j, st)
        ensures s == Some(lines[i].0)
      {
        if i < k {
          forall j | 0 <= j < i
            ensures !ToExpected(init, j, st)
          {
            assert !ToExpected(lines, j, st);
          }
          assert ToExpected(init, i, st) && init[i] == lines[i];
        } else {
          forall j | 0 <= j < |init|
            ensures !ToExpected(init, j, st)
          {
            assert !ToExpected(lines, j, st);
          }
        }
      }
    }
  }

  /** A line before the last goes to the expected output in a block iff it
      does in the block less its last line. */
  lemma ExpectedSplit(lines: seq<(int, string)>, st: Setting)
    requires |lines| > 0
    ensures forall i :: 0 <= i < |lines| - 1 ==>
      ToExpected(lines, i, st) == ToExpected(lines[..|lines| - 1], i, st)
    ensures AnyExpected(lines, st) <==>
      AnyExpected(lines[..|lines| - 1], st) || ToExpected(lines, |lines| - 1, st)
  {
    var k := |lines| - 1;
    var init := lines[..k];
    forall i | 0 <= i < k
      ensures ToExpected(lines, i, st) == ToExpected(init, i, st)
    {
      assert lines[..i] == init[..i] && lines[i] == init[i];
    }
    if AnyExpected(lines, st) && !ToExpected(lines, k, st) {
      var i :| 0 <= i < |lines| && ToExpected(lines, i, st);
      assert i < k;
      assert ToExpected(init, i, st);
    }
    if AnyExpected(init, st) {
      var i :| 0 <= i < |init| && ToExpected(init, i, st);
      assert ToExpected(lines, i, st);
    }
  }

  /** One line records at most one diagnostic, for its own line number,
      and raises the error flag when it does. */
  lemma StepErrors(b: Buffers, n: int, line: string, st: Setting)
    ensures var r := Step(b, n, line, st);
      b.errors <= r.errors
      && ((r.errors == b.errors && r.hasErrors == b.hasErrors)
          || (|r.errors| == |b.errors| + 1 && r.errors[|b.errors|].0 == n && r.hasErrors))
  {
  }

  /** Some line of the block has line number `n`. */
  predicate NamesLine(lines: seq<(int, string)>, n: int) {
    exists i :: 0 <= i < |lines| && lines[i].0 == n
  }

  /** When the diagnostics of all but the last line name lines among them,
      and the last line adds at most one naming itself, every diagnostic
      names a line of the block. */
  lemma ErrorLinesExtend(lines: seq<(int, string)>, init: seq<(int, string)>,
                         before: seq<(int, string)>, after: seq<(int, string)>, lo: nat)
    requires |lines| > 0 && init == lines[..|lines| - 1]
    requires forall j :: lo <= j < |before| ==> NamesLine(init, before[j].0)
    requires after == before || (before <= after && |after| == |before| + 1 && after[|before|].0 == lines[|lines| - 1].0)
    ensures forall j :: lo <= j < |after| ==> NamesLine(lines, after[j].0)
  {
    forall j | lo <= j < |after|
      ensures NamesLine(lines, after[j].0)
    {
      if j < |before| {
        assert after[j] == before[j] && NamesLine(init, before[j].0);
        var i :| 0 <= i < |init| && init[i].0 == before[j].0;
        assert lines[i] == init[i];
      } else {
        assert lines[|lines| - 1].0 == after[j].0;
      }
    }
  }

  /** Diagnostics only accumulate, at most one per line, each naming a line
      of the block; the error flag is raised exactly when one was added (or
      it was already raised). */
  lemma {:induction false} RunErrors(start: Buffers, lines: seq<(int, string)>, st: Setting)
    ensures var r := Run(start, lines, st);
      start.errors <= r.errors && |r.errors| <= |start.errors| + |lines|
      && (forall j :: |start.errors| <= j < |r.errors| ==> NamesLine(lines, r.errors[j].0))
      && (r.hasErrors <==> start.hasErrors || |r.errors| > |start.errors|)
  {
    if |lines| > 0 {
      var init := lines[..|lines| - 1];
      var b := Run(start, init, st);
      RunErrors(start, init, st);
      var last := lines[|lines| - 1];
      var r := Run(start, lines, st);
      assert b.errors <= r.errors
        && ((r.errors == b.errors && r.hasErrors == b.hasErrors)
            || (|r.errors| == |b.errors| + 1 && r.errors[|b.errors|].0 == last.0 && r.hasErrors))
      by {
        StepErrors(b, last.0, last.1, st);
      }
      ErrorLinesExtend(lines, init, b.errors, r.errors, |start.errors|);
    }
  }
}
