/** A chapter (`Chapter`): the scan of its lines into code examples, the
    renaming of the example files by section, and the processing of every
    registered example. */
module Chapters {
  import opened Wrappers
  import opened Text
  import opened Callouts
  import opened Languages
  import opened Metadata
  import opened Naming
  import opened Sections
  import opened Examples
  import opened LineProcessing

  /** Whether an example is skipped, from its directive (the empty directive
      for a block without one): a block tagged "kotlin" is skipped when the
      directive says `skip`, one tagged "java" when it names no file, and
      every other block always. */
  function SkipRule(m: SourceMetadata): (r: bool)
    ensures !r <==> (m.language == Some("kotlin") && !m.skip) || (m.language == Some("java") && m.filename.Some?)
  {
    if m.language == Some("kotlin") then m.skip
    else if m.language == Some("java") then m.filename.None?
    else true
  }

  /** A block is Java iff it is tagged "java". */
  function LanguageRule(m: SourceMetadata): (r: Language)
    ensures r.Java? <==> m.language == Some("java")
  {
    if m.language == Some("java") then Java else Kotlin
  }

  /** A block without a directive is never written, and a Java example that
      is written was named by its directive: it never gets a generated
      ".kt" name. */
  lemma WrittenJavaIsNamed(m: SourceMetadata)
    ensures SkipRule(EmptySourceMetadata)
    ensures LanguageRule(m).Java? && !SkipRule(m) ==> m.filename.Some?
  {
  }

  /** The level of a heading: its number of leading '='. */
  function HeadingLevel(line: string): (n: nat)
    ensures n <= |line|
    ensures forall i :: 0 <= i < n ==> line[i] == '='
    ensures n < |line| ==> line[n] != '='
  {
    if |line| > 0 && line[0] == '=' then 1 + HeadingLevel(line[1..]) else 0
  }

  /** The text of a heading, `trimStart('=').trimStart()`: the line
      without its leading '='s and the whitespace after them. */
  function HeadingText(line: string): (r: string)
    ensures |r| <= |line| && r == line[|line| - |r|..]
    ensures forall i :: 0 <= i < |line| - |r| ==> line[i] == '=' || IsWhitespace(line[i])
    ensures |r| == 0 || !IsWhitespace(r[0])
    ensures r == TrimStart(line[HeadingLevel(line)..])
  {
    var n := HeadingLevel(line);
    var rest := line[n..];
    var r := TrimStart(rest);
    assert r == line[|line| - |r|..];
    forall i | n <= i < |line| - |r|
      ensures IsWhitespace(line[i])
    {
      assert line[i] == rest[i - n];
    }
    r
  }

  const ExamplePrefixTag := "[exampleprefix="

  /** parseCaption's result: the caption an immediately preceding
      "[exampleprefix=…]" line names (the text after its first '=', less a
      final ']'), else the heading's own text. */
  function CaptionOf(line: string, prevLine: Option<string>): string {
    if prevLine.Some? && StartsWith(prevLine.value, ExamplePrefixTag) then
      RemoveSuffix(SubstringAfter(prevLine.value, '='), "]")
    else HeadingText(line)
  }

  /** The name an example of a section group is given: "<sec>_<name>" when
      it is alone in its group, "<sec>_<i>_<name>" (counting from 1) when it
      is not. */
  function SectionFileName(section: string, groupSize: nat, index: nat, name: string): string {
    if groupSize == 1 then section + "_" + name
    else section + "_" + IntToString(index + 1) + "_" + name
  }

  lemma SplitAtFirst(a: string, c: char, b: string, a': string, b': string)
    requires c !in a && c !in a' && a + [c] + b == a' + [c] + b'
    ensures a == a' && b == b'
  {
    IndexOfFirst(a, c, b);
    IndexOfFirst(a', c, b');
    assert a == (a + [c] + b)[..|a|];
    assert b == (a + [c] + b)[|a| + 1..];
  }

  /** Renaming keeps examples of different sections apart, and the examples
      of one group apart even when their names are the same. */
  lemma SectionFileNamesDistinct(s1: string, n1: nat, i1: nat, name1: string,
                                 s2: string, n2: nat, i2: nat, name2: string)
    requires '_' !in s1 && '_' !in s2
    requires SectionFileName(s1, n1, i1, name1) == SectionFileName(s2, n2, i2, name2)
    ensures s1 == s2
    ensures n1 == n2 && n1 > 1 ==> i1 == i2 && name1 == name2
    ensures n1 == n2 == 1 ==> name1 == name2
  {
    var t1 := if n1 == 1 then name1 else IntToString(i1 + 1) + "_" + name1;
    var t2 := if n2 == 1 then name2 else IntToString(i2 + 1) + "_" + name2;
    assert SectionFileName(s1, n1, i1, name1) == s1 + ['_'] + t1;
    assert SectionFileName(s2, n2, i2, name2) == s2 + ['_'] + t2;
    SplitAtFirst(s1, '_', t1, s2, t2);
    if n1 == n2 && n1 > 1 {
      assert t1 == IntToString(i1 + 1) + ['_'] + name1;
      assert t2 == IntToString(i2 + 1) + ['_'] + name2;
      SplitAtFirst(IntToString(i1 + 1), '_', name1, IntToString(i2 + 1), name2);
      IntToStringInjective(i1 + 1, i2 + 1);
    }
  }

  const PrependMissing := "Can't find example to prepend: "
  const MainMissing := "Can't find example to take 'main' from: "
  const DuplicateName := "Duplicate filename "

  /** The examples registered under `wanted`, in order; or the failure for
      the first name that is not registered. */
  function LookupAll(examples: map<string, CodeExample>, wanted: seq<string>): (r: Result<seq<CodeExample>>)
    ensures r.Success? <==> forall i :: 0 <= i < |wanted| ==> wanted[i] in examples
    ensures r.Success? ==> |r.value| == |wanted| && forall i :: 0 <= i < |wanted| ==> r.value[i] == examples[wanted[i]]
    ensures r.Failure? ==> exists i :: 0 <= i < |wanted| && wanted[i] !in examples && r.error == PrependMissing + wanted[i]
                                       && forall j :: 0 <= j < i ==> wanted[j] in examples
  {
    if |wanted| == 0 then Success([])
    else if wanted[0] !in examples then Failure(PrependMissing + wanted[0])
    else
      match LookupAll(examples, wanted[1..])
      case Failure(e) =>
        var k :| 0 <= k < |wanted| - 1 && wanted[1..][k] !in examples && e == PrependMissing + wanted[1..][k]
                 && forall j :: 0 <= j < k ==> wanted[1..][j] in examples;
        assert forall j :: 0 <= j < k + 1 ==> wanted[j] in examples by {
          assert forall j :: 1 <= j < k + 1 ==> wanted[j] == wanted[1..][j - 1];
        }
        assert wanted[k + 1] == wanted[1..][k];
        Failure(e)
      case Success(rest) =>
        assert forall i :: 1 <= i < |wanted| ==> wanted[i] == wanted[1..][i - 1];
        Success([examples[wanted[0]]] + rest)
  }

  /** Whether the scan registers an example under its file name: when its
      directive names the file, or when the example is written. */
  predicate Registers(e: CodeExample) {
    e.sourceMetadata.filename.Some? || !e.skip
  }

  /** The registry: `names` lists each key of `examples` once, in
      registration order; an example is registered exactly when the scan
      registers it, and under the name it was created with. */
  ghost predicate Registry(names: seq<string>, examples: map<string, CodeExample>, nameOf: map<CodeExample, string>) {
    (forall i, j :: 0 <= i < j < |names| ==> names[i] != names[j])
    && (forall n :: n in examples <==> n in names)
    && (forall n :: n in examples ==> examples[n] in nameOf && nameOf[examples[n]] == n && Registers(examples[n]))
    && (forall e :: e in nameOf && Registers(e) ==> nameOf[e] in examples && examples[nameOf[e]] == e)
  }

  /** Every registered name leads to a created example. */
  lemma RegisteredNames(names: seq<string>, examples: map<string, CodeExample>, nameOf: map<CodeExample, string>)
    requires Registry(names, examples, nameOf)
    ensures forall i :: 0 <= i < |names| ==> names[i] in examples && examples[names[i]] in nameOf
  {
    forall i | 0 <= i < |names|
      ensures names[i] in examples && examples[names[i]] in nameOf
    {
      assert names[i] in names;
    }
  }

  /** The section numbers are listed once each, in order of first use;
      each has a non-empty group and holds no '_'. */
  ghost predicate SectionsListed(sections: seq<string>, bySection: map<string, seq<CodeExample>>) {
    (forall i, j :: 0 <= i < j < |sections| ==> sections[i] != sections[j])
    && (forall s :: s in bySection <==> s in sections)
    && (forall s :: s in bySection ==> '_' !in s && |bySection[s]| > 0)
  }

  /** `slot` records where each grouped example sits, and every example of
      a group is recorded. */
  ghost predicate Placed(bySection: map<string, seq<CodeExample>>, slot: map<CodeExample, (string, nat)>) {
    (forall s, i :: s in bySection && 0 <= i < |bySection[s]| ==>
       bySection[s][i] in slot && slot[bySection[s][i]] == (s, i))
    && (forall e :: e in slot ==>
          slot[e].0 in bySection && slot[e].1 < |bySection[slot[e].0]| && bySection[slot[e].0][slot[e].1] == e)
  }

  /** The grouped examples are the written ones. */
  ghost predicate Slotted(slot: map<CodeExample, (string, nat)>, nameOf: map<CodeExample, string>) {
    (forall e :: e in slot ==> e in nameOf && !e.skip)
    && (forall e :: e in nameOf && !e.skip ==> e in slot)
  }

  /** The groups: every written example sits once in the group of one
      section, at a known place. */
  ghost predicate Groups(sections: seq<string>, bySection: map<string, seq<CodeExample>>,
                         slot: map<CodeExample, (string, nat)>, nameOf: map<CodeExample, string>) {
    SectionsListed(sections, bySection) && Placed(bySection, slot) && Slotted(slot, nameOf)
  }

  /** An example follows the rules of the scan: its skip flag and language
      come from its directive, and it borrows only created examples. */
  ghost predicate Conforms(e: CodeExample, nameOf: map<CodeExample, string>, limits: Limits) {
    e.skip == SkipRule(e.sourceMetadata) && e.language == LanguageRule(e.sourceMetadata)
    && e.limits == limits
    && (forall p :: p in e.prependExamples ==> p in nameOf)
    && (e.mainExample != null ==> e.mainExample in nameOf)
  }

  /** Every created example follows the rules of the scan. */
  ghost predicate AllConform(nameOf: map<CodeExample, string>, limits: Limits) {
    forall e :: e in nameOf ==> Conforms(e, nameOf, limits)
  }

  /** Each raw line of an example is the chapter line of that number. */
  ghost predicate FromChapter(e: CodeExample, lines: seq<string>)
    reads e`rawLines
  {
    e.Valid() && forall l :: l in e.rawLines ==> 1 <= l.0 <= |lines| && lines[l.0 - 1] == l.1
  }

  /** Every example of `es` holds chapter lines only. */
  ghost predicate AllFromChapter(es: set<CodeExample>, lines: seq<string>)
    reads es`rawLines
  {
    forall e :: e in es ==> FromChapter(e, lines)
  }

  /** Every created example still has the file name it was created with. */
  ghost predicate Named(nameOf: map<CodeExample, string>)
    reads nameOf.Keys`filename
  {
    forall e :: e in nameOf ==> e.filename == nameOf[e]
  }

  lemma NamedAdmit(nameOf: map<CodeExample, string>, e: CodeExample)
    requires Named(nameOf)
    ensures Named(nameOf[e := e.filename])
  {
  }

  /** Creating a new example that follows the rules keeps them for all. */
  lemma ConformAdmit(nameOf: map<CodeExample, string>, limits: Limits, e: CodeExample, name: string)
    requires AllConform(nameOf, limits) && Conforms(e, nameOf, limits)
    ensures AllConform(nameOf[e := name], limits)
  {
    var nameOf' := nameOf[e := name];
    forall x | x in nameOf'
      ensures Conforms(x, nameOf', limits)
    {
      assert Conforms(x, nameOf, limits);
    }
  }

  /** Admitting a new example under a new name keeps the registry. */
  lemma RegistryAdmit(names: seq<string>, examples: map<string, CodeExample>, nameOf: map<CodeExample, string>,
                      e: CodeExample, name: string, names': seq<string>, examples': map<string, CodeExample>)
    requires Registry(names, examples, nameOf) && name !in examples && e !in nameOf
    requires names' == (if Registers(e) then names + [name] else names)
    requires examples' == (if Registers(e) then examples[name := e] else examples)
    ensures Registry(names', examples', nameOf[e := name])
  {
    var nameOf' := nameOf[e := name];
    forall n | n in examples'
      ensures examples'[n] in nameOf' && nameOf'[examples'[n]] == n && Registers(examples'[n])
    {
      if n != name || !Registers(e) {
        assert examples'[n] == examples[n] != e;
      }
    }
  }

  /** A skipped example stays out of the groups. */
  lemma GroupsSkip(sections: seq<string>, bySection: map<string, seq<CodeExample>>,
                   slot: map<CodeExample, (string, nat)>, nameOf: map<CodeExample, string>,
                   e: CodeExample, name: string)
    requires Groups(sections, bySection, slot, nameOf) && e.skip
    ensures Groups(sections, bySection, slot, nameOf[e := name])
  {
  }

  lemma SectionsListedAdd(sections: seq<string>, bySection: map<string, seq<CodeExample>>, section: string,
                          group: seq<CodeExample>, e: CodeExample, sections': seq<string>,
                          bySection': map<string, seq<CodeExample>>)
    requires SectionsListed(sections, bySection) && '_' !in section
    requires sections' == if section in bySection then sections else sections + [section]
    requires bySection' == bySection[section := group + [e]]
    ensures SectionsListed(sections', bySection')
  {
  }

  lemma PlacedAdd(bySection: map<string, seq<CodeExample>>, slot: map<CodeExample, (string, nat)>,
                  section: string, group: seq<CodeExample>, e: CodeExample,
                  bySection': map<string, seq<CodeExample>>, slot': map<CodeExample, (string, nat)>)
    requires Placed(bySection, slot) && e !in slot
    requires group == if section in bySection then bySection[section] else []
    requires bySection' == bySection[section := group + [e]] && slot' == slot[e := (section, |group|)]
    ensures Placed(bySection', slot')
  {
    forall s, i | s in bySection' && 0 <= i < |bySection'[s]|
      ensures bySection'[s][i] in slot' && slot'[bySection'[s][i]] == (s, i)
    {
      if s == section && i == |group| {
      } else {
        assert bySection'[s][i] == bySection[s][i];
      }
    }
    forall x | x in slot'
      ensures slot'[x].0 in bySection' && slot'[x].1 < |bySection'[slot'[x].0]|
      ensures bySection'[slot'[x].0][slot'[x].1] == x
    {
      if x != e {
        var (s, i) := slot[x];
        assert bySection'[s][i] == bySection[s][i];
      }
    }
  }

  lemma SlottedAdd(slot: map<CodeExample, (string, nat)>, nameOf: map<CodeExample, string>,
                   e: CodeExample, name: string, place: (string, nat))
    requires Slotted(slot, nameOf) && !e.skip
    ensures Slotted(slot[e := place], nameOf[e := name])
  {
  }

  /** A written example goes at the end of its section's group. */
  lemma GroupsAdd(sections: seq<string>, bySection: map<string, seq<CodeExample>>,
                  slot: map<CodeExample, (string, nat)>, nameOf: map<CodeExample, string>,
                  e: CodeExample, name: string, section: string, group: seq<CodeExample>, sections': seq<string>,
                  bySection': map<string, seq<CodeExample>>, slot': map<CodeExample, (string, nat)>)
    requires Groups(sections, bySection, slot, nameOf) && e !in nameOf && !e.skip && '_' !in section
    requires group == if section in bySection then bySection[section] else []
    requires sections' == if section in bySection then sections else sections + [section]
    requires bySection' == bySection[section := group + [e]] && slot' == slot[e := (section, |group|)]
    ensures Groups(sections', bySection', slot', nameOf[e := name])
  {
    SectionsListedAdd(sections, bySection, section, group, e, sections', bySection');
    PlacedAdd(bySection, slot, section, group, e, bySection', slot');
    SlottedAdd(slot, nameOf, e, name, (section, |group|));
  }

  /** The groups once `e` is grouped under `section`: a skipped example
      leaves them as they were; a written one joins the end of the
      section's group, and a section seen for the first time is listed
      after the others. */
  ghost predicate GroupedUnder(sections0: seq<string>, bySection0: map<string, seq<CodeExample>>,
                               sections: seq<string>, bySection: map<string, seq<CodeExample>>,
                               e: CodeExample, section: string)
    reads e
  {
    if e.skip then bySection == bySection0 && sections == sections0
    else
      var group := if section in bySection0 then bySection0[section] else [];
      bySection == bySection0[section := group + [e]]
      && sections == (if section in bySection0 then sections0 else sections0 + [section])
  }

  /** The file name of a new example: the directive's, or the CamelCase
      caption followed by the caption index (unless 0) and ".kt". */
  function FileNameFor(m: SourceMetadata, caption: string, captionIndex: int): string {
    if m.filename.Some? then m.filename.value
    else Camel(caption, true) + (if captionIndex == 0 then "" else IntToString(captionIndex)) + ".kt"
  }

  /** The line that opens and closes a block. */
  const Delimiter := "----"

  /** What a line outside any block is, in the order `process` tests it:
      a "////" toggles the comment block; inside one nothing else counts;
      then a heading, a "[source," directive, the block title right after a
      directive (which moves the expected line on by one), and the opening
      "----". */
  datatype LineKind = Toggle | Commented | Heading | Directive | Title | Open | Plain

  /** The locals of the scan loop of `process`. */
  datatype ScanState = ScanState(
    caption: string,
    captionIndex: int,
    current: CodeExample?,
    last: CodeExample?,
    exampleIndex: int,
    inBlockComment: bool,
    metaLine: Option<string>,
    expected: int,
    prevLine: Option<string>)

  function LineKindOf(st: ScanState, lineNumber: int, line: string): LineKind {
    if StartsWith(line, "////") then Toggle
    else if st.inBlockComment then Commented
    else if StartsWith(line, "=") then Heading
    else if StartsWith(line, "[source,") then Directive
    else if StartsWith(line, ".") && lineNumber == st.expected then Title
    else if StartsWith(line, Delimiter) then Open
    else Plain
  }

  /** The locals after a line that neither opens a block nor is a heading. */
  function Passive(st: ScanState, lineNumber: int, line: string): (next: ScanState)
    ensures next.current == st.current && next.caption == st.caption && next.captionIndex == st.captionIndex
    ensures next.inBlockComment != st.inBlockComment <==> LineKindOf(st, lineNumber, line) == Toggle
    ensures LineKindOf(st, lineNumber, line) == Directive ==> next.metaLine == Some(line) && next.expected == lineNumber + 1
    ensures LineKindOf(st, lineNumber, line) == Title ==> next.metaLine == st.metaLine && next.expected == st.expected + 1
    ensures LineKindOf(st, lineNumber, line) in {Commented, Plain} ==> next == st
  {
    match LineKindOf(st, lineNumber, line)
    case Toggle => st.(inBlockComment := !st.inBlockComment)
    case Directive => st.(metaLine := Some(line), expected := lineNumber + 1)
    case Title => st.(expected := st.expected + 1)
    case _ => st
  }

  /** The locals after a heading with caption `caption`: a non-empty caption
      replaces the current one and restarts its index. */
  function Captioned(st: ScanState, caption: string): ScanState {
    if caption != "" then st.(caption := caption, captionIndex := 0) else st
  }

  /** The name a created example ends up with: a written Kotlin example
      takes the name of its place in its section's group; every other
      example keeps the name it was created with. */
  ghost function Final(e: CodeExample, nameOf: map<CodeExample, string>,
                       bySection: map<string, seq<CodeExample>>, slot: map<CodeExample, (string, nat)>): string
    requires e in nameOf
  {
    if e in slot && slot[e].0 in bySection && e.language.Kotlin? then
      SectionFileName(slot[e].0, |bySection[slot[e].0]|, slot[e].1, nameOf[e])
    else nameOf[e]
  }

  /** The names part-way through the renaming: the groups of the sections
      in `done`, and the first `i` examples of the group of `s`, are
      renamed. */
  ghost function Progress(nameOf: map<CodeExample, string>, bySection: map<string, seq<CodeExample>>,
                          slot: map<CodeExample, (string, nat)>, done: set<string>, s: string, i: nat)
    : (r: map<CodeExample, string>)
    ensures r.Keys == nameOf.Keys
  {
    map e | e in nameOf ::
      if e in slot && (slot[e].0 in done || (slot[e].0 == s && slot[e].1 < i))
      then Final(e, nameOf, bySection, slot) else nameOf[e]
  }

  /** Before the renaming every example has the name it was created with. */
  lemma ProgressNone(nameOf: map<CodeExample, string>, bySection: map<string, seq<CodeExample>>,
                     slot: map<CodeExample, (string, nat)>, s: string)
    ensures Progress(nameOf, bySection, slot, {}, s, 0) == nameOf
  {
  }

  /** Renaming the example at position `i` of the group of `s`. */
  lemma ProgressStep(nameOf: map<CodeExample, string>, bySection: map<string, seq<CodeExample>>,
                     slot: map<CodeExample, (string, nat)>, done: set<string>, s: string, i: nat)
    requires Placed(bySection, slot) && Slotted(slot, nameOf)
    requires s in bySection && i < |bySection[s]| && s !in done
    ensures var e := bySection[s][i];
      e in nameOf && e in slot && slot[e] == (s, i)
      && Progress(nameOf, bySection, slot, done, s, i)[e] == nameOf[e]
      && Progress(nameOf, bySection, slot, done, s, i + 1)
         == Progress(nameOf, bySection, slot, done, s, i)[e := Final(e, nameOf, bySection, slot)]
  {
  }

  /** Once its whole group is renamed, a section is done. */
  lemma ProgressClose(nameOf: map<CodeExample, string>, bySection: map<string, seq<CodeExample>>,
                      slot: map<CodeExample, (string, nat)>, done: set<string>, s: string, s': string)
    requires Placed(bySection, slot) && s in bySection
    ensures Progress(nameOf, bySection, slot, done, s, |bySection[s]|)
         == Progress(nameOf, bySection, slot, done + {s}, s', 0)
  {
  }

  /** Which group is under way does not matter before its first example. */
  lemma ProgressRestart(nameOf: map<CodeExample, string>, bySection: map<string, seq<CodeExample>>,
                        slot: map<CodeExample, (string, nat)>, done: set<string>, s: string, s': string)
    ensures Progress(nameOf, bySection, slot, done, s, 0) == Progress(nameOf, bySection, slot, done, s', 0)
  {
  }

  /** When every section is done, every example has its final name. */
  lemma ProgressAll(nameOf: map<CodeExample, string>, bySection: map<string, seq<CodeExample>>,
                    slot: map<CodeExample, (string, nat)>, done: set<string>, s: string)
    requires Placed(bySection, slot) && bySection.Keys <= done
    ensures Progress(nameOf, bySection, slot, done, s, 0)
         == map e | e in nameOf :: Final(e, nameOf, bySection, slot)
  {
  }

  /** Renaming keeps the written Kotlin examples apart: two of them never
      end up with the same name, whatever names they were created with. */
  lemma FinalNamesDistinct(sections: seq<string>, bySection: map<string, seq<CodeExample>>,
                           slot: map<CodeExample, (string, nat)>, nameOf: map<CodeExample, string>,
                           e1: CodeExample, e2: CodeExample)
    requires Groups(sections, bySection, slot, nameOf)
    requires e1 in slot && e2 in slot && e1.language.Kotlin? && e2.language.Kotlin? && e1 != e2
    ensures e1 in nameOf && e2 in nameOf
    ensures Final(e1, nameOf, bySection, slot) != Final(e2, nameOf, bySection, slot)
  {
    var (s1, i1) := slot[e1];
    var (s2, i2) := slot[e2];
    if Final(e1, nameOf, bySection, slot) == Final(e2, nameOf, bySection, slot) {
      SectionFileNamesDistinct(s1, |bySection[s1]|, i1, nameOf[e1], s2, |bySection[s2]|, i2, nameOf[e2]);
    }
  }

  /** The file each registered example writes under, when it writes one:
      two written examples of the same language never share it. Kotlin
      examples are kept apart by the renaming, Java examples (which keep
      their names) by the registry. */
  lemma WrittenNamesDistinct(names: seq<string>, examples: map<string, CodeExample>,
                             sections: seq<string>, bySection: map<string, seq<CodeExample>>,
                             slot: map<CodeExample, (string, nat)>, nameOf: map<CodeExample, string>,
                             i: nat, j: nat)
    requires Registry(names, examples, nameOf) && Groups(sections, bySection, slot, nameOf)
    requires i < |names| && j < |names| && i != j
    requires !examples[names[i]].skip && !examples[names[j]].skip
    requires examples[names[i]].language == examples[names[j]].language
    ensures examples[names[i]] in nameOf && examples[names[j]] in nameOf
    ensures Final(examples[names[i]], nameOf, bySection, slot) != Final(examples[names[j]], nameOf, bySection, slot)
  {
    var e1, e2 := examples[names[i]], examples[names[j]];
    assert names[i] != names[j];
    if e1.language.Kotlin? {
      FinalNamesDistinct(sections, bySection, slot, nameOf, e1, e2);
    }
  }

  class Chapter {
    /** The chapter file's name. */
    const fileName: string
    /** The line-length limits of every example of the chapter. */
    const limits: Limits
    const sectionCounter: SectionCounter
    /** The registered examples by name, and their names in registration
        order (a `LinkedHashMap`). */
    var examples: map<string, CodeExample>
    var names: seq<string>
    /** The written examples by section number, and the section numbers in
        the order they were first used. */
    var examplesBySection: map<string, seq<CodeExample>>
    var sections: seq<string>
    /** The lines of the headings reported as nested too deep. */
    var headingErrors: seq<int>
    /** Every example the scan has created, with the file name it was
        created with. */
    ghost var nameOf: map<CodeExample, string>
    /** The section and the position in its group of every written example. */
    ghost var slot: map<CodeExample, (string, nat)>

    /** A chapter whose counter starts at the chapter number. */
    constructor (fileName: string, chapterNumber: int, limits: Limits)
      ensures this.fileName == fileName && this.limits == limits
      ensures Fresh() && fresh(sectionCounter) && fresh(sectionCounter.sectionNumber)
      ensures sectionCounter.sectionNumber[..] == [chapterNumber, 0, 0, 0]
    {
      this.fileName := fileName;
      this.limits := limits;
      sectionCounter := new SectionCounter(chapterNumber);
      examples, names := map[], [];
      examplesBySection, sections := map[], [];
      headingErrors := [];
      nameOf, slot := map[], map[];
    }

    /** Nothing scanned yet. */
    ghost predicate Fresh()
      reads this, sectionCounter
    {
      sectionCounter.Valid() && examples == map[] && names == [] && examplesBySection == map[]
      && sections == [] && headingErrors == [] && nameOf == map[] && slot == map[]
    }

    /** The registry agrees with the created examples. */
    ghost predicate RegistryOk()
      reads this`names, this`examples, this`nameOf
    {
      Registry(names, examples, nameOf)
    }

    /** The groups agree with the created examples. */
    ghost predicate GroupsOk()
      reads this`sections, this`examplesBySection, this`slot, this`nameOf
    {
      Groups(sections, examplesBySection, slot, nameOf)
    }

    /** Every created example follows the rules of the scan and still has
        the file name it was created with. */
    ghost predicate ExamplesOk(lines: seq<string>)
      reads this`nameOf, nameOf.Keys`rawLines, nameOf.Keys`filename
    {
      AllConform(nameOf, limits) && AllFromChapter(nameOf.Keys, lines) && Named(nameOf)
    }

    /** The invariant of the scan. */
    ghost predicate Inv(lines: seq<string>)
      reads this`names, this`examples, this`sections, this`examplesBySection, this`slot, this`nameOf
      reads nameOf.Keys`rawLines, nameOf.Keys`filename
    {
      sectionCounter.Valid() && RegistryOk() && GroupsOk() && ExamplesOk(lines)
    }

    /** The scan locals refer to created examples, and a directive has been
        cached whenever a delimiter is expected. */
    ghost predicate StateOk(st: ScanState)
      reads this
    {
      (st.current != null ==> st.current in nameOf) && (st.last != null ==> st.last in nameOf)
      && st.expected >= -1 && (st.expected >= 0 ==> st.metaLine.Some?) && st.captionIndex >= 0
    }

    /** parseCaption: the counter advances for a heading of level at most 4,
        and a deeper one is reported instead. */
    method ParseCaption(lineNumber: int, line: string, prevLine: Option<string>) returns (caption: string)
      requires sectionCounter.Valid()
      modifies sectionCounter.sectionNumber, this`headingErrors
      ensures caption == CaptionOf(line, prevLine)
      ensures HeadingLevel(line) > 4 ==>
        headingErrors == old(headingErrors) + [lineNumber]
        && sectionCounter.sectionNumber[..] == old(sectionCounter.sectionNumber[..])
      ensures HeadingLevel(line) <= 4 ==>
        headingErrors == old(headingErrors)
        && sectionCounter.sectionNumber[..] == Bump(old(sectionCounter.sectionNumber[..]), HeadingLevel(line))
    {
      var level := HeadingLevel(line);
      if level > 4 {
        headingErrors := headingErrors + [lineNumber];
      } else {
        sectionCounter.Increment(level);
      }
      if prevLine.Some? && StartsWith(prevLine.value, ExamplePrefixTag) {
        return RemoveSuffix(SubstringAfter(prevLine.value, '='), "]");
      }
      return HeadingText(line);
    }

    /** Registering a new example under its file name, when the scan
        registers it. */
    method Register(example: CodeExample)
      requires RegistryOk() && example !in nameOf && example.filename !in examples
      modifies this`examples, this`names
      ensures Registry(names, examples, nameOf[example := example.filename])
      ensures examples == (if Registers(example) then old(examples)[example.filename := example] else old(examples))
      ensures names == (if Registers(example) then old(names) + [example.filename] else old(names))
    {
      var names', examples' := names, examples;
      if Registers(example) {
        examples' := examples[example.filename := example];
        names' := names + [example.filename];
      }
      RegistryAdmit(names, examples, nameOf, example, example.filename, names', examples');
      names, examples := names', examples';
    }

    /** Adding a new example to the group of its section, when it is
        written. */
    method Group(example: CodeExample, section: string)
      requires GroupsOk() && example !in nameOf && '_' !in section
      modifies this`sections, this`examplesBySection, this`slot
      ensures Groups(sections, examplesBySection, slot, nameOf[example := example.filename])
      ensures example.skip ==> examplesBySection == old(examplesBySection) && sections == old(sections)
      ensures !example.skip ==>
        var group := if section in old(examplesBySection) then old(examplesBySection)[section] else [];
        examplesBySection == old(examplesBySection)[section := group + [example]]
        && sections == (if section in old(examplesBySection) then old(sections) else old(sections) + [section])
      ensures GroupedUnder(old(sections), old(examplesBySection), sections, examplesBySection, example, section)
    {
      if example.skip {
        GroupsSkip(sections, examplesBySection, slot, nameOf, example, example.filename);
      } else {
        var group := if section in examplesBySection then examplesBySection[section] else [];
        var sections' := if section in examplesBySection then sections else sections + [section];
        var bySection' := examplesBySection[section := group + [example]];
        ghost var slot' := slot[example := (section, |group|)];
        GroupsAdd(sections, examplesBySection, slot, nameOf, example, example.filename, section, group,
                  sections', bySection', slot');
        sections, examplesBySection, slot := sections', bySection', slot';
      }
    }

    /** Recording a new example, fit for the scan, as created. */
    method Create(example: CodeExample, ghost lines: seq<string>)
      requires example !in nameOf && ExamplesOk(lines)
      requires example.Valid() && example.rawLines == [] && Conforms(example, nameOf, limits)
      modifies this`nameOf
      ensures nameOf == old(nameOf)[example := example.filename]
      ensures ExamplesOk(lines)
    {
      ConformAdmit(nameOf, limits, example, example.filename);
      NamedAdmit(nameOf, example);
      nameOf := nameOf[example := example.filename];
    }

    /** The example a block opened with directive `m` creates: its file
        name is the directive's, or the one made from the caption; the
        examples it borrows must be registered, and its file name must not
        be. */
    method NewExample(m: SourceMetadata, caption: string, captionIndex: int) returns (r: Result<CodeExample>)
      requires RegistryOk()
      ensures r.Success? <==> (forall n :: n in m.prependFilenames ==> n in examples)
                              && (m.mainFilename.Some? ==> m.mainFilename.value in examples)
                              && FileNameFor(m, caption, captionIndex) !in examples
      ensures r.Failure? && LookupAll(examples, m.prependFilenames).Failure? ==>
        r.error == LookupAll(examples, m.prependFilenames).error
      ensures r.Failure? && LookupAll(examples, m.prependFilenames).Success? ==>
        r.error == if m.mainFilename.Some? && m.mainFilename.value !in examples
                   then MainMissing + m.mainFilename.value
                   else DuplicateName + FileNameFor(m, caption, captionIndex)
      ensures r.Success? ==> var e := r.value;
        fresh(e) && e.Valid() && e.rawLines == [] && e.limits == limits && e.sourceMetadata == m
        && e.skip == SkipRule(m) && e.language == LanguageRule(m)
        && e.filename == FileNameFor(m, caption, captionIndex)
        && e.prependExamples == LookupAll(examples, m.prependFilenames).value
        && (e.mainExample == if m.mainFilename.Some? then examples[m.mainFilename.value] else null)
        && (forall p :: p in e.prependExamples ==> p in nameOf)
        && (e.mainExample != null ==> e.mainExample in nameOf)
        && e !in nameOf
    {
      var filename: string;
      if m.filename.Some? {
        filename := m.filename.value;
      } else {
        var base := CaptionToFilename(caption, captionIndex);
        filename := base + ".kt";
      }
      var prepends := LookupAll(examples, m.prependFilenames);
      if prepends.Failure? {
        return Failure(prepends.error);
      }
      var mainExample: CodeExample? := null;
      if m.mainFilename.Some? {
        if m.mainFilename.value !in examples {
          return Failure(MainMissing + m.mainFilename.value);
        }
        mainExample := examples[m.mainFilename.value];
      }
      if filename in examples {
        return Failure(DuplicateName + filename);
      }
      assert forall p :: p in prepends.value ==> p in nameOf;
      var example := new CodeExample(filename, LanguageRule(m), prepends.value, mainExample, SkipRule(m), m, limits);
      return Success(example);
    }

    /** Admitting a new example: registered under its file name (unless the
        scan does not register it), added to the group of `section` (unless
        skipped), and recorded as created. */
    method Admit(example: CodeExample, section: string, ghost lines: seq<string>)
      requires Inv(lines) && example !in nameOf && example.filename !in examples && '_' !in section
      requires example.Valid() && example.rawLines == [] && Conforms(example, nameOf, limits)
      modifies this`examples, this`names, this`examplesBySection, this`sections, this`nameOf, this`slot
      ensures Inv(lines) && nameOf == old(nameOf)[example := example.filename]
      ensures examples == (if Registers(example) then old(examples)[example.filename := example] else old(examples))
      ensures names == (if Registers(example) then old(names) + [example.filename] else old(names))
      ensures GroupedUnder(old(sections), old(examplesBySection), sections, examplesBySection, example, section)
    {
      ghost var nameOf' := nameOf[example := example.filename];
      Register(example);
      ghost var names', examples' := names, examples;
      assert Registry(names', examples', nameOf');
      Group(example, section);
      assert Groups(sections, examplesBySection, slot, nameOf');
      assert ExamplesOk(lines);
      Create(example, lines);
      assert names == names' && examples == examples' && nameOf == nameOf';
    }

    /** Admitting a new example under the current section number, as the
        scan does when it opens a block. */
    method AdmitHere(example: CodeExample, ghost lines: seq<string>)
      requires Inv(lines) && example !in nameOf && example.filename !in examples
      requires example.Valid() && example.rawLines == [] && Conforms(example, nameOf, limits)
      modifies this`examples, this`names, this`examplesBySection, this`sections, this`nameOf, this`slot
      ensures Inv(lines) && nameOf == old(nameOf)[example := example.filename]
      ensures examples == (if Registers(example) then old(examples)[example.filename := example] else old(examples))
      ensures names == (if Registers(example) then old(names) + [example.filename] else old(names))
      ensures GroupedUnder(old(sections), old(examplesBySection), sections, examplesBySection,
                           example, Dotted(sectionCounter.sectionNumber[..]))
    {
      var sectionNumber := sectionCounter.CurrentSectionNumber();
      DottedHasNoUnderscore(sectionCounter.sectionNumber[..]);
      Admit(example, sectionNumber, lines);
    }

    /** The descriptor an opening delimiter is read with: the directive
        recorded for it when it is the line the directive announced, and the
        empty descriptor otherwise. */
    function OpeningMetadata(st: ScanState, lineNumber: int): (m: SourceMetadata)
      ensures st.expected != lineNumber || st.metaLine.None? ==> m == EmptySourceMetadata
    {
      if st.expected == lineNumber && st.metaLine.Some? then MetadataOf(st.metaLine.value) else EmptySourceMetadata
    }

    /** An example as a non-`append` opening creates it: it carries the
        descriptor it was read with, the skip and language rules applied to
        it, and the file name the descriptor and caption give. */
    ghost predicate MadeFrom(e: CodeExample, m: SourceMetadata, caption: string, captionIndex: int)
      reads e
    {
      e.sourceMetadata == m && e.skip == SkipRule(m) && e.language == LanguageRule(m)
      && e.filename == FileNameFor(m, caption, captionIndex)
    }

    /** The scan state once `e` is opened: it is the open block, and the
        caption and example counters advance exactly when it is written. */
    function Opened(st: ScanState, e: CodeExample): ScanState {
      var step := if e.skip then 0 else 1;
      st.(current := e, captionIndex := st.captionIndex + step, exampleIndex := st.exampleIndex + step)
    }

    /** What opening a block does to the scan state: `append` reopens the
        last block and changes nothing else; a new example becomes the open
        block, with the descriptor it was read with, and the caption and
        example counters advance exactly when it is written. */
    ghost predicate OpenedAs(st: ScanState, lineNumber: int, next: ScanState, r: Result<()>) {
      var m := OpeningMetadata(st, lineNumber);
      (m.append ==> r.Success? && next == st.(current := st.last))
      && (!m.append && r.Success? ==>
            next.current != null && next.current.sourceMetadata == m
            && next.current.skip == SkipRule(m) && next.current.language == LanguageRule(m)
            && next == Opened(st, next.current))
    }

    /** The "----" that opens a block: the directive applies when the line
        is the expected one; `append` reopens the last block; otherwise a new
        example is created and admitted. */
    method OpenBlock(st: ScanState, lineNumber: nat, ghost lines: seq<string>) returns (next: ScanState, r: Result<()>)
      requires Inv(lines) && StateOk(st) && st.current == null
      modifies this`examples, this`names, this`examplesBySection, this`sections, this`nameOf, this`slot
      ensures nameOf.Keys >= old(nameOf.Keys) && fresh(nameOf.Keys - old(nameOf.Keys))
      ensures Inv(lines) && next.prevLine == st.prevLine && next.inBlockComment == st.inBlockComment
      ensures r.Success? ==> StateOk(next)
      ensures r.Failure? ==> examples == old(examples) && names == old(names)
      ensures OpenedAs(st, lineNumber, next, r)
      ensures OpeningMetadata(st, lineNumber).append ==>
        examples == old(examples) && names == old(names) && nameOf == old(nameOf)
      ensures !OpeningMetadata(st, lineNumber).append && r.Success? ==>
        next.current !in old(nameOf)
        && next.current.filename == FileNameFor(OpeningMetadata(st, lineNumber), st.caption, st.captionIndex)
        && GroupedUnder(old(sections), old(examplesBySection), sections, examplesBySection,
                        next.current, Dotted(sectionCounter.sectionNumber[..]))
      ensures OpeningMetadata(st, lineNumber).append || r.Failure? ==>
        examplesBySection == old(examplesBySection) && sections == old(sections)
    {
      // The directive is read with parseMetadata, whose result `MetadataOf`
      // states; `OpeningMetadata` applies it on the announced line only.
      var m := OpeningMetadata(st, lineNumber);
      if m.append {
        next, r := st.(current := st.last), Success(());
      } else {
        next, r := OpenExample(st, m, lines);
      }
    }

    /** An opening delimiter whose descriptor does not say `append`: a new
        example is created under the file name its descriptor and caption
        give it, admitted, and opened; it advances the counters only when it
        is written. */
    method OpenExample(st: ScanState, m: SourceMetadata, ghost lines: seq<string>) returns (next: ScanState, r: Result<()>)
      requires Inv(lines) && StateOk(st) && st.current == null
      modifies this`examples, this`names, this`examplesBySection, this`sections, this`nameOf, this`slot
      ensures nameOf.Keys >= old(nameOf.Keys) && fresh(nameOf.Keys - old(nameOf.Keys))
      ensures Inv(lines) && next.prevLine == st.prevLine && next.inBlockComment == st.inBlockComment
      ensures r.Success? ==> StateOk(next)
      ensures r.Failure? ==> examples == old(examples) && names == old(names)
      ensures r.Success? ==> next.current != null && next.current !in old(nameOf)
      ensures r.Success? ==> MadeFrom(next.current, m, st.caption, st.captionIndex) && next == Opened(st, next.current)
      ensures r.Success? ==> GroupedUnder(old(sections), old(examplesBySection), sections, examplesBySection,
                                          next.current, Dotted(sectionCounter.sectionNumber[..]))
      ensures r.Failure? ==> examplesBySection == old(examplesBySection) && sections == old(sections)
    {
      next, r := st, Success(());
      var made := NewExample(m, st.caption, st.captionIndex);
      if made.Failure? {
        r := Failure(made.error);
      } else {
        var example := made.value;
        assert MadeFrom(example, m, st.caption, st.captionIndex);
        AdmitHere(example, lines);
        next := Opened(st, example);
      }
    }

    /** A line inside an open block: "----" closes the block (it becomes
        the last one), any other line is added to the block under its
        1-based number. */
    method InBlock(st: ScanState, lineNumber: nat, line: string, ghost lines: seq<string>) returns (next: ScanState)
      requires Inv(lines) && StateOk(st) && st.current != null
      requires lineNumber < |lines| && lines[lineNumber] == line
      modifies st.current`rawLines
      ensures Inv(lines) && StateOk(next)
      ensures StartsWith(line, Delimiter) ==>
        next == st.(current := null, last := st.current) && st.current.rawLines == old(st.current.rawLines)
      ensures !StartsWith(line, Delimiter) ==>
        next == st && st.current.rawLines == Put(old(st.current.rawLines), lineNumber + 1, line)
    {
      var current := st.current;
      next := st;
      if StartsWith(line, Delimiter) {
        next := st.(current := null, last := current);
      } else {
        current.AddLine(lineNumber + 1, line);
        forall e | e in nameOf
          ensures FromChapter(e, lines)
        {
          if e == current {
            assert forall l :: l in e.rawLines ==> l == (lineNumber + 1, line) || l in old(e.rawLines);
          }
        }
      }
    }

    /** A heading outside a block: its caption becomes the current one. */
    method HeadingLine(st: ScanState, lineNumber: nat, line: string, ghost lines: seq<string>) returns (next: ScanState)
      requires Inv(lines) && StateOk(st)
      modifies this`headingErrors, sectionCounter.sectionNumber
      ensures Inv(lines) && StateOk(next) && next == Captioned(st, CaptionOf(line, st.prevLine))
    {
      var caption := ParseCaption(lineNumber, line, st.prevLine);
      next := Captioned(st, caption);
    }

    /** A line outside any block. */
    method Outside(st: ScanState, lineNumber: nat, line: string, ghost lines: seq<string>)
      returns (next: ScanState, r: Result<()>)
      requires Inv(lines) && StateOk(st) && st.current == null
      modifies this`examples, this`names, this`examplesBySection, this`sections, this`nameOf, this`slot
      modifies this`headingErrors, sectionCounter.sectionNumber
      ensures nameOf.Keys >= old(nameOf.Keys) && fresh(nameOf.Keys - old(nameOf.Keys))
      ensures Inv(lines) && next.prevLine == st.prevLine
      ensures r.Success? ==> StateOk(next)
      ensures LineKindOf(st, lineNumber, line) != Open ==>
        r.Success? && examples == old(examples) && names == old(names) && nameOf == old(nameOf)
        && examplesBySection == old(examplesBySection) && sections == old(sections)
      ensures LineKindOf(st, lineNumber, line) !in {Heading, Open} ==>
        next == Passive(st, lineNumber, line) && headingErrors == old(headingErrors)
        && sectionCounter.sectionNumber[..] == old(sectionCounter.sectionNumber[..])
      ensures LineKindOf(st, lineNumber, line) == Heading ==>
        next == Captioned(st, CaptionOf(line, st.prevLine))
      ensures LineKindOf(st, lineNumber, line) == Open ==> OpenedAs(st, lineNumber, next, r)
      ensures LineKindOf(st, lineNumber, line) == Open && OpeningMetadata(st, lineNumber).append ==>
        examples == old(examples) && names == old(names) && nameOf == old(nameOf)
      ensures LineKindOf(st, lineNumber, line) == Open && !OpeningMetadata(st, lineNumber).append && r.Success? ==>
        next.current !in old(nameOf)
        && next.current.filename == FileNameFor(OpeningMetadata(st, lineNumber), st.caption, st.captionIndex)
        && GroupedUnder(old(sections), old(examplesBySection), sections, examplesBySection,
                        next.current, Dotted(sectionCounter.sectionNumber[..]))
      ensures LineKindOf(st, lineNumber, line) == Open && (OpeningMetadata(st, lineNumber).append || r.Failure?) ==>
        examplesBySection == old(examplesBySection) && sections == old(sections)
    {
      match LineKindOf(st, lineNumber, line)
      case Heading =>
        next := HeadingLine(st, lineNumber, line, lines);
        r := Success(());
      case Open =>
        next, r := OpenBlock(st, lineNumber, lines);
      case _ =>
        next, r := Passive(st, lineNumber, line), Success(());
    }

    /** One line of the scan, inside a block or outside; the line becomes
        the previous line. */
    method Step(st: ScanState, lineNumber: nat, line: string, ghost lines: seq<string>) returns (next: ScanState, r: Result<()>)
      requires Inv(lines) && StateOk(st) && lineNumber < |lines| && lines[lineNumber] == line
      modifies this`examples, this`names, this`examplesBySection, this`sections, this`nameOf, this`slot
      modifies this`headingErrors, sectionCounter.sectionNumber, {st.current}`rawLines
      ensures nameOf.Keys >= old(nameOf.Keys) && fresh(nameOf.Keys - old(nameOf.Keys))
      ensures Inv(lines) && next.prevLine == Some(line)
      ensures r.Success? ==> StateOk(next)
    {
      if st.current != null {
        next := InBlock(st, lineNumber, line, lines);
        r := Success(());
      } else {
        next, r := Outside(st, lineNumber, line, lines);
      }
      next := next.(prevLine := Some(line));
    }

    /** The scan of `process`: every line in order, from the chapter file's
        name without its extension as the caption; the first failure ends
        it. */
    method Scan(lines: seq<string>) returns (r: Result<()>)
      requires Fresh()
      modifies this, sectionCounter.sectionNumber
      ensures Inv(lines)
      ensures forall e :: e in nameOf ==> fresh(e)
    {
      var st := ScanState(SubstringBeforeLast(fileName, '.'), 0, null, null, 1, false, None, -1, None);
      var i := 0;
      r := Success(());
      while i < |lines|
        invariant i <= |lines| && Inv(lines) && StateOk(st)
        invariant forall e :: e in nameOf ==> fresh(e)
      {
        st, r := Step(st, i, lines[i], lines);
        if r.Failure? {
          return;
        }
        i := i + 1;
      }
    }

    /** updateOutputFileName on a created example, seen from the names of
        all of them. */
    method RenameOne(e: CodeExample, name: string, ghost m: map<CodeExample, string>)
      requires Named(m) && e in m
      modifies e`filename
      ensures Named(m[e := if e.language.Kotlin? then name else m[e]])
    {
      e.UpdateOutputFileName(name);
    }

    /** The renaming of the group of section `sections[k]`, whose examples
        are still named as created. */
    method RenameGroup(k: nat, ghost done: set<string>)
      requires GroupsOk() && k < |sections| && sections[k] !in done
      requires Named(Progress(nameOf, examplesBySection, slot, done, sections[k], 0))
      modifies slot.Keys`filename
      ensures Named(Progress(nameOf, examplesBySection, slot, done + {sections[k]}, sections[k], 0))
    {
      var s := sections[k];
      var group := examplesBySection[s];
      if |group| == 1 {
        ProgressStep(nameOf, examplesBySection, slot, done, s, 0);
        RenameOne(group[0], s + "_" + group[0].filename, Progress(nameOf, examplesBySection, slot, done, s, 0));
      } else {
        var i := 0;
        while i < |group|
          invariant i <= |group| && Named(Progress(nameOf, examplesBySection, slot, done, s, i))
        {
          ProgressStep(nameOf, examplesBySection, slot, done, s, i);
          RenameOne(group[i], s + "_" + IntToString(i + 1) + "_" + group[i].filename,
                    Progress(nameOf, examplesBySection, slot, done, s, i));
          i := i + 1;
        }
      }
      ProgressClose(nameOf, examplesBySection, slot, done, s, s);
    }

    /** The renaming of `process`: section by section, a group of one
        example is named "<sec>_<name>", the examples of a larger group
        "<sec>_<i>_<name>"; only Kotlin examples take the new name. */
    method RenameBySection()
      requires GroupsOk() && Named(nameOf)
      modifies slot.Keys`filename
      ensures forall e :: e in nameOf ==> e.filename == Final(e, nameOf, examplesBySection, slot)
    {
      ghost var done: set<string> := {};
      ProgressNone(nameOf, examplesBySection, slot, "");
      var k := 0;
      while k < |sections|
        invariant k <= |sections| && done == set j | 0 <= j < k :: sections[j]
        invariant Named(Progress(nameOf, examplesBySection, slot, done, "", 0))
      {
        assert sections[k] !in done;
        ProgressRestart(nameOf, examplesBySection, slot, done, "", sections[k]);
        RenameGroup(k, done);
        ProgressRestart(nameOf, examplesBySection, slot, done + {sections[k]}, sections[k], "");
        done := done + {sections[k]};
        k := k + 1;
      }
      ProgressAll(nameOf, examplesBySection, slot, done, "");
      assert Named(map e | e in nameOf :: Final(e, nameOf, examplesBySection, slot));
    }

    /** One example's `process`, seen from the chapter. */
    method ProcessOne(example: CodeExample, dirName: string, writeExpectedOutput: bool,
                      imports: seq<(string, string)>, prefixes: seq<(string, string)>)
      returns (r: Result<Option<Written>>)
      requires example.Valid()
      modifies example`text, example`textWithoutMain, example`textOfMain, example`expectedOutput
      modifies example`hasErrors, example`lineErrors, example`expectedOutputStartLine, example`packageName
      ensures example.ProcessedFrom(old(example.Start()), r, dirName, writeExpectedOutput, imports, prefixes)
      ensures r.Success? ==> (r.value.None? <==> example.skip)
      ensures r.Success? && r.value.Some? ==>
        r.value.value.outputFile == example.filename && WellWritten(r.value.value)
      ensures r.Failure? ==> !example.skip
    {
      r := example.Process(dirName, writeExpectedOutput, imports, prefixes);
      assert example.Valid();
    }

    /** What `process` gives back for `e`: nothing when it is skipped, and
        otherwise a well-formed file under its current name. */
    static predicate Entry(w: Option<Written>, e: CodeExample)
      reads e`filename
    {
      (w.None? <==> e.skip) && (w.Some? ==> w.value.outputFile == e.filename && WellWritten(w.value))
    }

    /** The last step of `process`: every registered example is processed,
        in registration order; the first failure ends the chapter. A skipped
        example writes nothing and never fails. */
    method ProcessExamples(dirName: string, writeExpectedOutput: bool,
                           imports: seq<(string, string)>, prefixes: seq<(string, string)>)
      returns (r: Result<seq<Option<Written>>>)
      requires forall i :: 0 <= i < |names| ==> names[i] in examples && examples[names[i]].Valid()
      modifies examples.Values`text, examples.Values`textWithoutMain, examples.Values`textOfMain
      modifies examples.Values`expectedOutput, examples.Values`hasErrors, examples.Values`lineErrors
      modifies examples.Values`expectedOutputStartLine, examples.Values`packageName
      ensures r.Success? ==> |r.value| == |names|
      ensures r.Success? ==> forall i :: 0 <= i < |names| ==>
        (r.value[i].None? <==> examples[names[i]].skip)
        && (r.value[i].Some? ==>
              r.value[i].value.outputFile == examples[names[i]].filename && WellWritten(r.value[i].value))
      ensures r.Failure? ==> exists i :: 0 <= i < |names| && !examples[names[i]].skip
    {
      var written: seq<Option<Written>> := [];
      var i := 0;
      while i < |names|
        invariant i <= |names| && |written| == i
        invariant forall j :: 0 <= j < |names| ==> examples[names[j]].Valid()
        invariant forall j :: 0 <= j < i ==> Entry(written[j], examples[names[j]])
      {
        var example := examples[names[i]];
        var out := ProcessOne(example, dirName, writeExpectedOutput, imports, prefixes);
        if out.Failure? {
          return Failure(out.error);
        }
        assert Entry(out.value, example);
        written := written + [out.value];
        i := i + 1;
      }
      return Success(written);
    }

    /** What follows the scan in `process`: the renaming by section, then
        the processing of every registered example. Each registered example
        that is not skipped writes its file under its final name. */
    method RenameAndProcess(dirName: string, writeExpectedOutput: bool,
                            imports: seq<(string, string)>, prefixes: seq<(string, string)>, ghost lines: seq<string>)
      returns (r: Result<seq<Option<Written>>>)
      requires RegistryOk() && GroupsOk() && Named(nameOf) && AllFromChapter(nameOf.Keys, lines)
      modifies slot.Keys`filename
      modifies examples.Values`text, examples.Values`textWithoutMain, examples.Values`textOfMain
      modifies examples.Values`expectedOutput, examples.Values`hasErrors, examples.Values`lineErrors
      modifies examples.Values`expectedOutputStartLine, examples.Values`packageName
      ensures r.Success? ==> |r.value| == |names|
      ensures r.Success? ==> forall i :: 0 <= i < |names| ==>
        names[i] in examples && examples[names[i]] in nameOf
        && (r.value[i].None? <==> examples[names[i]].skip)
        && (r.value[i].Some? ==>
              r.value[i].value.outputFile == Final(examples[names[i]], nameOf, examplesBySection, slot)
              && WellWritten(r.value[i].value))
      ensures r.Failure? ==> exists i :: 0 <= i < |names| && !examples[names[i]].skip
    {
      RenameBySection();
      RegisteredNames(names, examples, nameOf);
      r := ProcessExamples(dirName, writeExpectedOutput, imports, prefixes);
    }

    /** process: the scan, then the renaming and the processing. */
    method Process(lines: seq<string>, dirName: string, writeExpectedOutput: bool,
                   imports: seq<(string, string)>, prefixes: seq<(string, string)>)
      returns (r: Result<seq<Option<Written>>>)
      requires Fresh()
      modifies this, sectionCounter.sectionNumber
      ensures r.Success? ==> |r.value| == |names|
      ensures r.Success? ==> forall i :: 0 <= i < |names| ==>
        names[i] in examples && examples[names[i]] in nameOf
        && (r.value[i].None? <==> examples[names[i]].skip)
        && (r.value[i].Some? ==>
              r.value[i].value.outputFile == Final(examples[names[i]], nameOf, examplesBySection, slot)
              && WellWritten(r.value[i].value))
    {
      var scanned := Scan(lines);
      if scanned.Failure? {
        return Failure(scanned.error);
      }
      r := RenameAndProcess(dirName, writeExpectedOutput, imports, prefixes, lines);
    }

    /** hasErrors: whether some registered example reported an error. */
    method HasErrors() returns (r: bool)
      requires RegistryOk()
      ensures r <==> exists n :: n in examples && examples[n].hasErrors
    {
      var i := 0;
      while i < |names|
        invariant i <= |names|
        invariant forall j :: 0 <= j < i ==> !examples[names[j]].hasErrors
      {
        if examples[names[i]].hasErrors {
          return true;
        }
        i := i + 1;
      }
      return false;
    }
  }

  /** A chapter for the file `fileName`: its number is read from the name,
      and a name starting with "ch" whose number does not parse is an
      error. */
  method NewChapter(fileName: string, limits: Limits) returns (r: Result<Chapter>)
    ensures r.Failure? <==> ExtractChapterNumber(fileName).Failure?
    ensures r.Success? ==>
      fresh(r.value) && r.value.Fresh() && r.value.fileName == fileName && r.value.limits == limits
      && r.value.sectionCounter.sectionNumber[..] == [ExtractChapterNumber(fileName).value, 0, 0, 0]
  {
    var number := ExtractChapterNumber(fileName);
    if number.Failure? {
      return Failure(number.error);
    }
    var chapter := new Chapter(fileName, number.value, limits);
    return Success(chapter);
  }
}
