# mark-code example engine, modelled in Dafny

mark-code turns an AsciiDoc chapter into compilable source files. It scans
the chapter line by line and finds the `----` code blocks and the
`[source,...]` directives above them. Each block becomes a complete Kotlin
or Java file: package statement, synthetic imports and prefixes, prepended
examples, the block's own code and a borrowed `main`. The console output
shown after a `>>>` line becomes the expected-output text. After the scan,
the examples of each section are renamed with their section number. A
final step writes `VerifyAllSamples.kt`, which checks every example's
output.

The modules follow the program:

- `Text` and `Wrappers`: the Kotlin string functions the code uses, and Option/Result.
- `Callouts`: the `<N>` callout markers and the line-length check (`checkRemoveAnnotation`).
- `Naming`: `captionToFilename` and `extractChapterNumber`.
- `Sections`: `SectionCounter`, a class over a four-slot array.
- `Languages`: `KotlinLanguage` and `JavaLanguage` as one two-constructor datatype.
- `Metadata`: the directive parser `parseMetadata` and its copy `DocMetadata.parse`, with a writer for the round-trip property.
- `LineProcessing`: the buffers `processLines` fills, as a value-level specification.
- `Examples`: the `CodeExample` class (`addLine`, `processLines`, `generateOutputText`, `process`).
- `Output`: the pieces the generated text is made of and the final blank-line clean-up.
- `Chapters`: the `Chapter` class and its scan, registration, grouping and renaming.
- `VerifyAll`: `writeVerifyAllSamples`.
- `Legacy`: the in-source tables of the legacy copy in `src/main/kotlin/codegen.kt`.

The repository holds two copies of the engine. The model follows the
`com/hadihariri/markcode` copy. The legacy copy differs only in its line
limits (55/76 instead of 150/175), its in-source synthetic tables and the
first line of `VerifyAllSamples.kt`. These enter the model as parameters
(`Limits`, the two tables) and as constants (`LegacyLimits`,
`Legacy.SyntheticImports`, `Legacy.SyntheticPrefixes`,
`VerifyAll.LegacyHeader`).

Files are neither read nor written. A chapter is a `seq<string>` of lines.
Each generated file is returned as a `Written` value: name, text, the
missing-main warning flag and the optional expected-output file.
`VerifyAllSamples.kt` is returned as a string. Messages printed to
`System.err` become recorded values: an example's `lineErrors` with its
`hasErrors` flag, and a chapter's `headingErrors`. A line-length diagnostic
is recorded with the message that states the limit applied, not the text the
markcode copy prints (see Findings). The `IllegalStateException`s
of the scan become `Failure` results with the same messages.

## Model

| member | source | states |
|---|---|---|
| Callouts.FindCallout | src/main/kotlin/com/hadihariri/markcode/codegen.kt:65 | the first `<digits>` marker at or after a position: it is one, none comes before it, and "none" means there is none |
| Callouts.StripCallout | src/main/kotlin/com/hadihariri/markcode/CodeExample.kt:75-91 | the kept text is a prefix of the line ending at the first marker (or the line end) with trailing whitespace removed; the line is flagged iff the kept text is longer than the before-marker limit when a marker exists, else than the whole-line limit |
| Callouts.StrippedHasNoCallout | src/main/kotlin/com/hadihariri/markcode/CodeExample.kt:79-83 | the kept text contains no marker |
| Callouts.StripIdempotent | src/main/kotlin/com/hadihariri/markcode/CodeExample.kt:75-91 | checking a kept line again keeps it unchanged |
| Callouts.ShortLineAccepted | src/main/kotlin/com/hadihariri/markcode/CodeExample.kt:84-88 | a line without a marker within the whole-line limit is not flagged and is only right-trimmed |
| Callouts.LimitMessage | src/main/kotlin/com/hadihariri/markcode/CodeExample.kt:80-86 | the diagnostic states the limit that was applied (corrected form) |
| Callouts.MarkcodeMessageMismatch | src/main/kotlin/com/hadihariri/markcode/CodeExample.kt:80-86 | as written, the diagnostics state 55 and 76 while the limits applied are 150 and 175 |
| Callouts.CalloutMessageStates55 | src/main/kotlin/com/hadihariri/markcode/CodeExample.kt:81 | the before-callout diagnostic as written states 55 |
| Callouts.WholeLineMessageStates76 | src/main/kotlin/com/hadihariri/markcode/CodeExample.kt:86 | the whole-line diagnostic as written states 76 |
| Callouts.LegacyMessagesAgree | src/main/kotlin/codegen.kt:225-231 | with the legacy limits 55 and 76 the corrected diagnostics are exactly the written ones |
| Naming.Upper | src/main/kotlin/com/hadihariri/markcode/codegen.kt:16 | upper-cases a lower-case letter, keeps every other character, and keeps letters and digits letters and digits |
| Naming.Camel | src/main/kotlin/com/hadihariri/markcode/codegen.kt:11-19 | the result holds only letters and digits and is no longer than the caption |
| Naming.CaptionToFilename | src/main/kotlin/com/hadihariri/markcode/codegen.kt:9-21 | the loop computes the capitalised caption followed by the index, the index being left out when it is 0 |
| Naming.CapAfterWord | src/main/kotlin/com/hadihariri/markcode/codegen.kt:13-14 | a space turns capitalisation back on whatever came before |
| Naming.CamelWords | src/main/kotlin/com/hadihariri/markcode/codegen.kt:12-19 | the name of "a b" is the name of "a" followed by the capitalised name of "b" |
| Naming.CapUntilKept | src/main/kotlin/com/hadihariri/markcode/codegen.kt:12-19 | until a letter or digit is kept, capitalisation stays on |
| Naming.CamelFirstUpper | src/main/kotlin/com/hadihariri/markcode/codegen.kt:16 | the first kept character of a caption is upper-cased |
| Naming.CamelOfName | src/main/kotlin/com/hadihariri/markcode/codegen.kt:12-19 | a word of letters and digits is kept whole, with only its first character upper-cased when capitalising |
| Naming.CamelIdempotent | src/main/kotlin/com/hadihariri/markcode/codegen.kt:9-19 | naming an already named caption changes nothing |
| Naming.CamelWord | src/main/kotlin/com/hadihariri/markcode/codegen.kt:12-19 | a lower-case word is kept with its first letter upper-cased |
| Naming.CaptionExamples | src/main/kotlin/com/hadihariri/markcode/codegen.kt:20 | "my file" gives "MyFile", and with index 2 "MyFile2" |
| Naming.ExtractChapterNumber | src/main/kotlin/com/hadihariri/markcode/codegen.kt:69-74 | 0 for a name not starting with "ch"; otherwise exactly the integer `parseInt` reads from the text between "ch" and the last '.', and a `NumberFormatException` failure exactly when that text is not an integer |
| Naming.ChapterNumberOf | src/main/kotlin/com/hadihariri/markcode/codegen.kt:69-74 | "ch" + n + "." + extension gives back n for every integer n |
| Naming.ChapterNumberRefused | src/main/kotlin/com/hadihariri/markcode/codegen.kt:71 | "ch" followed by a letter is refused |
| Sections.Bump | src/main/kotlin/com/hadihariri/markcode/SectionCounter.kt:6-13 | level <= 1 changes nothing; otherwise slot level-1 goes up by one, the slots before it are kept and the slots after it become 0 |
| Sections.NonZero | src/main/kotlin/com/hadihariri/markcode/SectionCounter.kt:16 | the kept slots are all non-zero |
| Sections.Decimals | src/main/kotlin/com/hadihariri/markcode/SectionCounter.kt:16 | one decimal rendering per kept slot |
| Sections.Dotted | src/main/kotlin/com/hadihariri/markcode/SectionCounter.kt:16 | the non-zero slots rendered in decimal and joined by '.'; `DottedSplits` reads them back |
| Sections.SectionCounter.constructor | src/main/kotlin/com/hadihariri/markcode/SectionCounter.kt:3-4 | a fresh counter holds the chapter number followed by three zeros |
| Sections.SectionCounter.Increment | src/main/kotlin/com/hadihariri/markcode/SectionCounter.kt:6-13 | the array becomes Bump of its old contents, in place |
| Sections.SectionCounter.CurrentSectionNumber | src/main/kotlin/com/hadihariri/markcode/SectionCounter.kt:15-17 | the rendering of the array's non-zero slots |
| Sections.DottedSplits | src/main/kotlin/com/hadihariri/markcode/SectionCounter.kt:16 | splitting the rendering at '.' gives back the decimal renderings of exactly the non-zero slots |
| Sections.DottedHasNoUnderscore | src/main/kotlin/com/hadihariri/markcode/SectionCounter.kt:16 | a section number never contains '_' (the separator renaming uses) |
| Sections.FreshCounter | src/main/kotlin/com/hadihariri/markcode/SectionCounter.kt:3-17 | a fresh counter for chapter n renders "n", or "" when n is 0 |
| Sections.InnerZeroDropped | src/main/kotlin/com/hadihariri/markcode/SectionCounter.kt:16 | every zero slot is dropped, not only trailing ones: [5,0,1,0] renders "5.1" |
| Sections.HeadingSequence | src/main/kotlin/com/hadihariri/markcode/SectionCounter.kt:6-13 | for chapter 5, levels 2, 3, 2 give [5,1,0,0], [5,1,1,0], [5,2,0,0] |
| Sections.ThreeLevels | src/main/kotlin/com/hadihariri/markcode/SectionCounter.kt:15-17 | [5,1,1,0] renders "5.1.1" |
| Sections.SecondSection | src/main/kotlin/com/hadihariri/markcode/SectionCounter.kt:15-17 | [5,2,0,0] renders "5.2" |
| Sections.HeadingRenders | src/main/kotlin/com/hadihariri/markcode/SectionCounter.kt:15-17 | those counters render "5.1", "5.1.1", "5.2" |
| Languages.PackageName | src/main/kotlin/com/hadihariri/markcode/KotlinLanguage.kt:7-11 | Kotlin: for a digit-led file name, the directory name, ".ex", and the text after the first '.' less ".kt" with every '.' made '_'; otherwise the directory name, '.', and the file name less ".kt". Java (JavaLanguage.kt line 6): the directory name, whatever the file name |
| Languages.NumberedPackage | src/main/kotlin/com/hadihariri/markcode/KotlinLanguage.kt:8-9 | for any file name "<n>.<rest>.kt" with a digit-led, dot-free `n`, the package is "<dir>.ex" followed by `rest` with its '.'s made '_' |
| Languages.RenamedPackage | src/main/kotlin/com/hadihariri/markcode/KotlinLanguage.kt:8-9 | the renamed file "5.1.1_2_Foo.kt" gets the package "<dir>.ex1_1_2_Foo" |
| Languages.NamedPackage | src/main/kotlin/com/hadihariri/markcode/KotlinLanguage.kt:10 | a file name not led by a digit gives "<dir>.<name>" |
| Languages.Statement | src/main/kotlin/com/hadihariri/markcode/KotlinLanguage.kt:13-15 | a statement is the keyword, a space, the name and the terminator: nothing for Kotlin, ';' for Java (JavaLanguage.kt lines 7-8) |
| Languages.StatementName | src/main/kotlin/com/hadihariri/markcode/KotlinLanguage.kt:13-15 | the name can be read back from between the keyword and the terminator |
| Languages.StatementSingleLine | src/main/kotlin/com/hadihariri/markcode/KotlinLanguage.kt:13-15 | a statement for a one-line name is one line |
| Languages.ImportSingleLine | src/main/kotlin/com/hadihariri/markcode/KotlinLanguage.kt:15 | an import of a one-line name is one line |
| Languages.PackageStatement | src/main/kotlin/com/hadihariri/markcode/KotlinLanguage.kt:13 | "package ", then exactly the package name, then the terminator (';' for Java, JavaLanguage.kt line 7) |
| Languages.ImportStatement | src/main/kotlin/com/hadihariri/markcode/KotlinLanguage.kt:15 | "import ", then exactly the imported name, then the terminator (';' for Java, JavaLanguage.kt line 8) |
| Languages.MainFunction | src/main/kotlin/com/hadihariri/markcode/KotlinLanguage.kt:17 | the opening of `main` ends with '{'; Kotlin's is exactly "fun main(args: Array<String>) {" whatever the file name; Java's (JavaLanguage.kt lines 10-13) starts with "public class <name up to the first '.'> {", and `JavaMainText` states all of it |
| Languages.JavaMainText | src/main/kotlin/com/hadihariri/markcode/JavaLanguage.kt:10-13 | Java's opening of `main` is exactly "public class <file name up to its first '.'> {", a line break, then "    public static void main(String[] args) {" |
| Languages.KotlinMainIgnoresName | src/main/kotlin/com/hadihariri/markcode/KotlinLanguage.kt:17 | the Kotlin opening of `main` is the same for every file name |
| Languages.JavaClassName | src/main/kotlin/com/hadihariri/markcode/JavaLanguage.kt:10-13 | a Java file "<name>.<ext>" opens a class named `name` |
| Languages.MainEnd | src/main/kotlin/com/hadihariri/markcode/KotlinLanguage.kt:19 | the end of `main` ends with '}' and is exactly "}" for Kotlin; Java's (JavaLanguage.kt line 16) is stated by `JavaEndText` |
| Languages.JavaEndText | src/main/kotlin/com/hadihariri/markcode/JavaLanguage.kt:16 | Java's end of `main` is exactly "    }", a line break, then "}": the method closes, then the class |
| Languages.NoBracesInMethodHead | src/main/kotlin/com/hadihariri/markcode/JavaLanguage.kt:12 | the Java method head between the class line and the body opens and closes no brace |
| Languages.MainIndent | src/main/kotlin/com/hadihariri/markcode/KotlinLanguage.kt:18 | the indent is spaces only (four for Kotlin, eight for Java) |
| Languages.KotlinMainMentioned | src/main/kotlin/com/hadihariri/markcode/KotlinLanguage.kt:17 | the Kotlin opening mentions "fun main" |
| Languages.KotlinMainBraces | src/main/kotlin/com/hadihariri/markcode/KotlinLanguage.kt:17-19 | the Kotlin opening opens one brace and the end closes one |
| Languages.JavaMainBraces | src/main/kotlin/com/hadihariri/markcode/JavaLanguage.kt:10-16 | the Java opening opens two braces and closes none; the end closes two, for a file name without braces |
| Languages.JavaEndBraces | src/main/kotlin/com/hadihariri/markcode/JavaLanguage.kt:16 | the Java end closes two braces and opens none |
| Languages.HasAnyDeclarations | src/main/kotlin/com/hadihariri/markcode/KotlinLanguage.kt:21-23 | Kotlin: true iff some line starts with one of the nine declaration prefixes; Java (JavaLanguage.kt line 18): always true |
| Languages.DeclarationIsPrefix | src/main/kotlin/com/hadihariri/markcode/KotlinLanguage.kt:21-23 | the test is a plain prefix test ("classify()" counts) and is false for no lines |
| Output.Collapse | src/main/kotlin/com/hadihariri/markcode/CodeExample.kt:164 | the pass never lengthens the text |
| Output.CollapseKeepsText | src/main/kotlin/com/hadihariri/markcode/CodeExample.kt:164 | the pass removes line breaks and nothing else |
| Output.CollapseNothingToDo | src/main/kotlin/com/hadihariri/markcode/CodeExample.kt:164 | a text without three line breaks in a row is unchanged |
| Output.CollapseSinglePass | src/main/kotlin/com/hadihariri/markcode/CodeExample.kt:164 | the pass is not repeated: four line breaks become three, six become four |
| Output.CollapseKeepsWords | src/main/kotlin/com/hadihariri/markcode/CodeExample.kt:164 | a one-line text occurs in the result iff it occurs in the input |
| Output.ImportStatements | src/main/kotlin/com/hadihariri/markcode/CodeExample.kt:151-153 | one import statement per directive import, in order |
| Output.LineFound | src/main/kotlin/com/hadihariri/markcode/CodeExample.kt:143-153 | every listed text has its own line in the rendering |
| Output.Collect | src/main/kotlin/com/hadihariri/markcode/CodeExample.kt:167-173 | a value is collected iff some table entry with that value has a key that occurs in one of the searched texts |
| Output.CollectAppend | src/main/kotlin/com/hadihariri/markcode/CodeExample.kt:167-173 | collected values keep table order |
| Output.CollectOne | src/main/kotlin/com/hadihariri/markcode/CodeExample.kt:167-173 | an entry contributes its value once when its key occurs, otherwise nothing |
| Metadata.FlagKinds | src/main/kotlin/com/hadihariri/markcode/codegen.kt:45-56 | a token is a flag iff it equals the flag's name exactly |
| Metadata.HasExact | src/main/kotlin/com/hadihariri/markcode/codegen.kt:45-56 | a flag is set iff its exact name is among the tokens |
| Metadata.FlagsExact | src/main/kotlin/com/hadihariri/markcode/codegen.kt:45-56 | append, skip, noverify and jvmname are set iff the exact word is among the tokens after the second field |
| Metadata.Extend | src/main/kotlin/com/hadihariri/markcode/codegen.kt:35-59 | one more token adds its value to prepends or imports, replaces main or the file name, or sets one flag, and changes nothing else |
| Metadata.ParseMetadata | src/main/kotlin/com/hadihariri/markcode/codegen.kt:24-63 | the loop's result is the directive's metadata: language = field 1, and the token rules over fields 2 onward |
| Metadata.ParseTokens | src/main/kotlin/com/hadihariri/markcode/codegen.kt:35-62 | over the tokens: prepends and imports in order, last main and last file name, each flag iff present |
| Metadata.DocMetadata.Parse | src/main/kotlin/com/hadihariri/markcode/DocMetadata.kt:4-36 | the duplicate parser gives the same metadata as parseMetadata for every line |
| Metadata.LastOfAppend | src/main/kotlin/com/hadihariri/markcode/codegen.kt:39-41 | a later main= (or file name) replaces an earlier one |
| Metadata.ValuesOfAppend | src/main/kotlin/com/hadihariri/markcode/codegen.kt:36-44 | prepend= and import= values are kept in order of appearance |
| Metadata.HasAppend | src/main/kotlin/com/hadihariri/markcode/codegen.kt:45-56 | a flag set anywhere stays set |
| Metadata.Unbracket | src/main/kotlin/com/hadihariri/markcode/codegen.kt:25 | the brackets around a directive are stripped |
| Metadata.RenderFields | src/main/kotlin/com/hadihariri/markcode/codegen.kt:25-26 | in a written directive the language is field 1 and the remaining tokens are read back as written |
| Metadata.RenderPrepends | src/main/kotlin/com/hadihariri/markcode/codegen.kt:36-38 | written prepends are read back in order |
| Metadata.RenderImports | src/main/kotlin/com/hadihariri/markcode/codegen.kt:42-44 | written imports are read back in order |
| Metadata.RenderMain | src/main/kotlin/com/hadihariri/markcode/codegen.kt:39-41 | a written main is read back |
| Metadata.RenderFilename | src/main/kotlin/com/hadihariri/markcode/codegen.kt:57-58 | a written file name is read back |
| Metadata.RenderFlags | src/main/kotlin/com/hadihariri/markcode/codegen.kt:45-56 | written flags are read back exactly |
| Metadata.ParseRender | src/main/kotlin/com/hadihariri/markcode/codegen.kt:24-63 | parsing the directive written for a metadata record gives the record back (round trip) |
| Examples.Put | src/main/kotlin/com/hadihariri/markcode/CodeExample.kt:36-38 | the stored lines stay sorted by line number and hold the new pair |
| Examples.PutUpdates | src/main/kotlin/com/hadihariri/markcode/CodeExample.kt:36-38 | seen as a map, storing a line sets or overwrites that line number only |
| Examples.ExpectedFile | src/main/kotlin/com/hadihariri/markcode/CodeExample.kt:114-124 | an expected-output file is written iff asked, not noverify and some output exists; it is named after the file with "txt" after the last '.' and holds the own output, else the borrowed one |
| Examples.MissingMain | src/main/kotlin/com/hadihariri/markcode/CodeExample.kt:110 | the missing-main warning: the written text has no "fun main" and the output file has the extension "kt"; `OpenedMainNotMissing` and `WrappedNotMissing` state when it is off |
| Examples.AppendLines | src/main/kotlin/com/hadihariri/markcode/CodeExample.kt:156-158 | appending texts one per line gives the prefix followed by their rendering |
| Examples.CodeExample.constructor | src/main/kotlin/com/hadihariri/markcode/CodeExample.kt:12-28 | a new example has no lines, empty buffers and no errors |
| Examples.CodeExample.UpdateOutputFileName | src/main/kotlin/com/hadihariri/markcode/CodeExample.kt:30-34 | only a Kotlin example changes its file name |
| Examples.CodeExample.AddLine | src/main/kotlin/com/hadihariri/markcode/CodeExample.kt:36-38 | the raw lines become the old ones with that line number set to the line |
| Examples.CodeExample.ReportLineError | src/main/kotlin/com/hadihariri/markcode/CodeExample.kt:177-180 | the error flag is set and one diagnostic for the line is recorded |
| Examples.CodeExample.CheckRemoveAnnotation | src/main/kotlin/com/hadihariri/markcode/CodeExample.kt:75-91 | returns the line cut before its callout (or whole), right-trimmed, and records one diagnostic, stating the applied limit, iff that text breaks its limit |
| Examples.CodeExample.HasOutputToVerify | src/main/kotlin/com/hadihariri/markcode/CodeExample.kt:128-129 | false under `noverify`; otherwise true when the example has expected output, and else exactly when its borrowed `main` has some |
| Examples.CodeExample.AppendProcessedLine | src/main/kotlin/com/hadihariri/markcode/CodeExample.kt:93-100 | the line goes to text and to exactly one of the two halves, chosen by insideMain |
| Examples.CodeExample.AppendSourceLine | src/main/kotlin/com/hadihariri/markcode/CodeExample.kt:71-73 | check, then append the stripped line |
| Examples.CodeExample.ProcessLine | src/main/kotlin/com/hadihariri/markcode/CodeExample.kt:47-63 | one iteration of the loop is one Step of the buffers |
| Examples.CodeExample.ProcessLines | src/main/kotlin/com/hadihariri/markcode/CodeExample.kt:40-69 | the buffers become the line-by-line run over the sorted lines followed by the closing of main |
| Examples.CodeExample.ExpectedOutputFileName | src/main/kotlin/com/hadihariri/markcode/CodeExample.kt:184-185 | the text after the last '.' is replaced by "txt"; a name without '.' is unchanged |
| Examples.CodeExample.MentionTexts | src/main/kotlin/com/hadihariri/markcode/CodeExample.kt:168-171 | the searched texts are the own text, each prepend's text and the borrowed main |
| Examples.CodeExample.CollectSyntheticElements | src/main/kotlin/com/hadihariri/markcode/CodeExample.kt:167-173 | a value is collected iff the key of one of its entries occurs in a searched text |
| Examples.CodeExample.GenerateOutputText | src/main/kotlin/com/hadihariri/markcode/CodeExample.kt:131-165 | the built text is the specified output; packageName is set iff no raw line starts with "package" |
| Examples.CodeExample.OutputText | src/main/kotlin/com/hadihariri/markcode/CodeExample.kt:131-165 | the text generateOutputText returns: the JvmName line and the package statement when they apply, the statements, the prepended examples, the own text and the borrowed main, with triple line breaks collapsed; it fails where the source throws; `BodySplit`, `InBody`, `KeptInOutput` and `SyntheticImportWritten` state its properties |
| Examples.CodeExample.AppendBody | src/main/kotlin/com/hadihariri/markcode/CodeExample.kt:142-162 | the loops build the body: statements, prepends, own text, borrowed main |
| Examples.CodeExample.AppendStatements | src/main/kotlin/com/hadihariri/markcode/CodeExample.kt:142-154 | the loops build the synthetic imports, synthetic prefixes, directive imports and the blank line |
| Examples.CodeExample.BodySplit | src/main/kotlin/com/hadihariri/markcode/CodeExample.kt:142-162 | the body is the statements followed by the code |
| Examples.CodeExample.InBody | src/main/kotlin/com/hadihariri/markcode/CodeExample.kt:164 | a one-line text of the body survives into the output |
| Examples.CodeExample.KeptInOutput | src/main/kotlin/com/hadihariri/markcode/CodeExample.kt:156-164 | a one-line text of the own code or of the borrowed main occurs in the output |
| Examples.CodeExample.ImportInStatements | src/main/kotlin/com/hadihariri/markcode/CodeExample.kt:143-146 | a mentioned import table entry becomes an import statement |
| Examples.CodeExample.SyntheticImportWritten | src/main/kotlin/com/hadihariri/markcode/CodeExample.kt:143-164 | a mentioned import table entry is imported by the generated file |
| Examples.CodeExample.OpenedMainNotMissing | src/main/kotlin/com/hadihariri/markcode/CodeExample.kt:110 | a Kotlin example whose processing opened main gets no missing-main warning |
| Examples.CodeExample.WrappedNotMissing | src/main/kotlin/com/hadihariri/markcode/CodeExample.kt:42-51 | a wrapped non-empty block gets no missing-main warning |
| Examples.CodeExample.Process | src/main/kotlin/com/hadihariri/markcode/CodeExample.kt:102-126 | a skipped example writes nothing; otherwise the output file and its text, the warning and the expected-output file as specified |
| LineProcessing.AppendProcessed | src/main/kotlin/com/hadihariri/markcode/CodeExample.kt:93-100 | the line goes to text and to exactly one half; nothing else changes |
| LineProcessing.WrapsWholeBlock | src/main/kotlin/com/hadihariri/markcode/CodeExample.kt:42-43 | everythingInsideMain: not skipped, no borrowed main, no line starting with ">>>" and no declaration; `WrappedWholeStaysInMain` and `JavaNeverWrapsWhole` state what follows from it |
| LineProcessing.Step | src/main/kotlin/com/hadihariri/markcode/CodeExample.kt:47-63 | one iteration of the loop, by its three branches; what it does to each buffer is stated by `StepShaped`, `StepMain`, `OutputLine`, `StepExpectedStart` and `StepErrors` |
| LineProcessing.Run | src/main/kotlin/com/hadihariri/markcode/CodeExample.kt:46-64 | the loop over the lines in ascending line-number order; its result is stated by `RunShaped`, `RunMain`, `ExpectedStartFirst` and `RunErrors` |
| LineProcessing.Processed | src/main/kotlin/com/hadihariri/markcode/CodeExample.kt:40-69 | processLines on empty buffers: the loop, then the closing of main; `ProcessedShape` and `ExpectedStartFirst` state the result |
| LineProcessing.Report | src/main/kotlin/com/hadihariri/markcode/CodeExample.kt:75-91 | a line over its limit sets the flag and adds one diagnostic, for its line number, whose message states the limit that was applied, as `reportLineError` (lines 177-180) records it; otherwise nothing changes |
| LineProcessing.Finish | src/main/kotlin/com/hadihariri/markcode/CodeExample.kt:66-68 | main is closed iff it was opened |
| LineProcessing.StepShaped | src/main/kotlin/com/hadihariri/markcode/CodeExample.kt:47-63 | each line keeps text = plain half + main half, and once main is open it stays open and only grows |
| LineProcessing.RunShaped | src/main/kotlin/com/hadihariri/markcode/CodeExample.kt:46-64 | the whole loop keeps that shape |
| LineProcessing.FinishShaped | src/main/kotlin/com/hadihariri/markcode/CodeExample.kt:66-68 | closing keeps the shape and ends the main half with the closing text |
| LineProcessing.ProcessedShape | src/main/kotlin/com/hadihariri/markcode/CodeExample.kt:40-69 | text = plain half + main half; main is opened iff some line goes inside it, and then the main half is the opening, once, followed by exactly the lines that went inside it and the closing; a start line is recorded iff some output was |
| LineProcessing.StepMain | src/main/kotlin/com/hadihariri/markcode/CodeExample.kt:47-54 | a line that goes inside main opens it only when it is not yet open and then adds its indented, stripped text; any other line leaves main as it is |
| LineProcessing.RunMain | src/main/kotlin/com/hadihariri/markcode/CodeExample.kt:45-64 | main is open iff some line went inside it; the main half is then the opening, once, followed by the text of exactly those lines, in order |
| LineProcessing.OpenedMainMentioned | src/main/kotlin/com/hadihariri/markcode/CodeExample.kt:48-51 | a Kotlin block whose main was opened mentions "fun main" |
| LineProcessing.WrappedWholeStaysInMain | src/main/kotlin/com/hadihariri/markcode/CodeExample.kt:42-53 | a wrapped block puts nothing outside main and has no expected output |
| LineProcessing.PlainBlockHasNoMain | src/main/kotlin/com/hadihariri/markcode/CodeExample.kt:55-57 | without ">>>" or "..." lines and unwrapped, every line is plain and no main is opened |
| LineProcessing.JavaNeverWrapsWhole | src/main/kotlin/com/hadihariri/markcode/CodeExample.kt:42-43 | a Java block is never wrapped whole |
| LineProcessing.OutputLine | src/main/kotlin/com/hadihariri/markcode/CodeExample.kt:58-63 | after main opens, a plain non-empty line goes only to the expected output and sets the start line to its own number when none is set yet; an empty one is dropped |
| LineProcessing.StepExpectedStart | src/main/kotlin/com/hadihariri/markcode/CodeExample.kt:58-61 | one line sets the start of the expected output to its own number exactly when main is open, the line does not go inside main, is not empty and no start is set; otherwise the start stays |
| LineProcessing.ExpectedStartFirst | src/main/kotlin/com/hadihariri/markcode/CodeExample.kt:45-64 | expectedOutputStartLine is the line number of the first line that goes to the expected output (a non-empty line after main opened that does not itself go inside main), and stays null when no line does |
| LineProcessing.StepErrors | src/main/kotlin/com/hadihariri/markcode/CodeExample.kt:75-91 | a line adds at most one diagnostic, for its own number |
| LineProcessing.RunErrors | src/main/kotlin/com/hadihariri/markcode/CodeExample.kt:46-64 | diagnostics are only appended, at most one per line, each for a line of the block; the flag is set iff one was added (or it was set) |
| Chapters.SkipRule | src/main/kotlin/com/hadihariri/markcode/Chapter.kt:72-77 | an example is written iff its tag is kotlin without skip, or java with a file name |
| Chapters.LanguageRule | src/main/kotlin/com/hadihariri/markcode/Chapter.kt:82 | the language is Java iff the tag is "java" |
| Chapters.WrittenJavaIsNamed | src/main/kotlin/com/hadihariri/markcode/Chapter.kt:72-77 | a block without a directive is skipped; a written Java example has an explicit file name |
| Chapters.HeadingLevel | src/main/kotlin/com/hadihariri/markcode/Chapter.kt:119 | the level is the number of leading '=' |
| Chapters.HeadingText | src/main/kotlin/com/hadihariri/markcode/Chapter.kt:129 | the caption is the heading less its leading '='s and then its leading whitespace: only '=' or whitespace is dropped, and it does not start with whitespace |
| Chapters.LookupAll | src/main/kotlin/com/hadihariri/markcode/Chapter.kt:65-67 | succeeds iff every prepend name is registered, giving them in order; otherwise fails with the message for the first missing name, every earlier one being registered |
| Chapters.FileNameFor | src/main/kotlin/com/hadihariri/markcode/Chapter.kt:63 | the directive's file name, else the CamelCase caption followed by the caption index (left out when 0) and ".kt"; `OpenBlock` states that a new example gets it |
| Chapters.LineKindOf | src/main/kotlin/com/hadihariri/markcode/Chapter.kt:35-53 | the tests on a line outside a block, in the order the source makes them: "////", inside a comment, "=", "[source,", "." on the expected line, "----", anything else; `Outside` states what each kind does |
| Chapters.Captioned | src/main/kotlin/com/hadihariri/markcode/Chapter.kt:41-44 | a non-empty caption becomes the current one with its index reset to 0; an empty one changes nothing |
| Chapters.Passive | src/main/kotlin/com/hadihariri/markcode/Chapter.kt:35-52 | a "////" toggles comment mode, a directive is cached with the next line expected, a title at the expected line moves the expectation; other lines change nothing |
| Chapters.SectionFileNamesDistinct | src/main/kotlin/com/hadihariri/markcode/Chapter.kt:102-111 | two renamed names are equal only for the same section, group size, position and name |
| Chapters.RegistryAdmit | src/main/kotlin/com/hadihariri/markcode/Chapter.kt:84-89 | registering keeps names unique and maps each name to its example |
| Chapters.GroupsAdd | src/main/kotlin/com/hadihariri/markcode/Chapter.kt:90-94 | a written example joins its section's group at the end |
| Chapters.GroupedUnder | src/main/kotlin/com/hadihariri/markcode/Chapter.kt:90-94 | the grouping rule: a skipped example leaves the groups as they were; a written one joins the end of its section's group, and a section seen for the first time is listed after the others |
| Chapters.ProgressAll | src/main/kotlin/com/hadihariri/markcode/Chapter.kt:102-111 | renaming every section gives every example its final name |
| Chapters.FinalNamesDistinct | src/main/kotlin/com/hadihariri/markcode/Chapter.kt:102-111 | two different grouped Kotlin examples end up with different names |
| Chapters.WrittenNamesDistinct | src/main/kotlin/com/hadihariri/markcode/Chapter.kt:84-111 | two different written registered examples of one language end up with different names |
| Chapters.NewChapter | src/main/kotlin/com/hadihariri/markcode/Chapter.kt:10 | a chapter is created iff its chapter number parses; its counter starts at [n,0,0,0] |
| Chapters.Chapter.constructor | src/main/kotlin/com/hadihariri/markcode/Chapter.kt:7-10 | a new chapter has no examples, no sections and a fresh counter |
| Chapters.Chapter.ParseCaption | src/main/kotlin/com/hadihariri/markcode/Chapter.kt:118-130 | the caption from "[exampleprefix=" on the previous line, else the heading text; the counter advances iff the level is at most 4, otherwise an error is recorded |
| Chapters.Chapter.NewExample | src/main/kotlin/com/hadihariri/markcode/Chapter.kt:63-86 | succeeds iff all prepends and main are registered and the name is new; the failure message names the first problem, a missing prepend being the first missing one in order; the example has the directive's file name or the caption's, its skip and language by the rules |
| Chapters.Chapter.Create | src/main/kotlin/com/hadihariri/markcode/Chapter.kt:81-83 | a created example gets its file name as its name and keeps the chapter's examples valid |
| Chapters.Chapter.Register | src/main/kotlin/com/hadihariri/markcode/Chapter.kt:87-89 | an example is registered under its name iff it has an explicit file name or is written |
| Chapters.Chapter.Group | src/main/kotlin/com/hadihariri/markcode/Chapter.kt:90-94 | only a written example joins the group of the given section, at its end, as `GroupedUnder` states |
| Chapters.Chapter.Admit | src/main/kotlin/com/hadihariri/markcode/Chapter.kt:84-94 | registration of a new example under its file name when the scan registers it, and its grouping under the given section as `GroupedUnder` states, keeping the chapter's invariant |
| Chapters.Chapter.AdmitHere | src/main/kotlin/com/hadihariri/markcode/Chapter.kt:84-94 | admitting a new example under the current section number (`Dotted` of the counter): registered as `Admit` states and grouped as `GroupedUnder` states |
| Chapters.Chapter.OpeningMetadata | src/main/kotlin/com/hadihariri/markcode/Chapter.kt:54-57 | the directive is read only on the line it announced; any other opening gets the empty descriptor |
| Chapters.Chapter.OpenBlock | src/main/kotlin/com/hadihariri/markcode/Chapter.kt:53-95 | `append` reopens the last block and changes no registration and no group; otherwise a new example with the read descriptor, its skip and language rules and its file name becomes the open block, joins the group of the current section number when it is written, and the caption index advances exactly when it is written; a failure registers and groups nothing; the invariant is kept |
| Chapters.Chapter.OpenExample | src/main/kotlin/com/hadihariri/markcode/Chapter.kt:62-94 | a new example not seen before, with the descriptor, rules and file name it was read with, is opened, joins the group of the current section number when it is written, and both counters advance exactly when it is written; a failure changes no group |
| Chapters.Chapter.InBlock | src/main/kotlin/com/hadihariri/markcode/Chapter.kt:25-33 | a delimiter closes the block and makes it the last example; another line is stored under its 1-based number |
| Chapters.Chapter.HeadingLine | src/main/kotlin/com/hadihariri/markcode/Chapter.kt:39-45 | a heading with a non-empty caption makes it current and resets the caption index |
| Chapters.Chapter.Outside | src/main/kotlin/com/hadihariri/markcode/Chapter.kt:34-97 | a line outside a block acts by its kind: a heading sets the caption, an opening delimiter acts as `OpenBlock` states (grouping included), any other line only updates the passive state; only an opening delimiter registers or groups anything |
| Chapters.Chapter.Step | src/main/kotlin/com/hadihariri/markcode/Chapter.kt:24-99 | one line of the scan keeps the invariant and remembers the line as the previous one |
| Chapters.Chapter.Scan | src/main/kotlin/com/hadihariri/markcode/Chapter.kt:24-100 | the scan keeps the chapter's invariant and creates only new examples |
| Chapters.Chapter.RenameOne | src/main/kotlin/com/hadihariri/markcode/Chapter.kt:103-105 | a lone example gets "<section>_<name>" if Kotlin |
| Chapters.Chapter.RenameGroup | src/main/kotlin/com/hadihariri/markcode/Chapter.kt:106-110 | a group's members get "<section>_<i>_<name>" for i = 1..n |
| Chapters.Chapter.RenameBySection | src/main/kotlin/com/hadihariri/markcode/Chapter.kt:102-111 | after renaming, every example has its final name |
| Chapters.Chapter.ProcessOne | src/main/kotlin/com/hadihariri/markcode/Chapter.kt:113-115 | an example's process seen from the chapter: the buffers are those processLines computes; a skipped example writes nothing; a written one writes its own file with the generated text, the missing-main warning its text calls for and the expected-output file, or fails as generateOutputText does |
| Chapters.Chapter.ProcessExamples | src/main/kotlin/com/hadihariri/markcode/Chapter.kt:113-115 | every registered example is processed in order: a skipped one writes nothing and never fails, a written one writes its own file, with the warning its text calls for and an expected-output file named after it |
| Chapters.Chapter.RenameAndProcess | src/main/kotlin/com/hadihariri/markcode/Chapter.kt:102-115 | every registered written example is written under its final name, with the warning its text calls for and an expected-output file named after it |
| Chapters.Chapter.Process | src/main/kotlin/com/hadihariri/markcode/Chapter.kt:12-116 | the whole process: scan, rename, then write each registered example under its final name, with the warning its text calls for and an expected-output file named after it |
| Chapters.Chapter.HasErrors | src/main/kotlin/com/hadihariri/markcode/Chapter.kt:132 | true iff some registered example has errors |
| VerifyAll.ViewOf | src/main/kotlin/com/hadihariri/markcode/codegen.kt:83-90 | what the writer reads from an example: skip, language, output to verify, package name, expected file and start lines |
| VerifyAll.Alias | src/main/kotlin/com/hadihariri/markcode/codegen.kt:85 | the alias is the package name with every '.' made '_' and every other character kept |
| VerifyAll.SelectedOf | src/main/kotlin/com/hadihariri/markcode/codegen.kt:83-84 | an example is listed iff it is written, Kotlin, has a package name, is not `noverify`, and has expected output of its own or from its borrowed `main` |
| VerifyAll.LineText | src/main/kotlin/com/hadihariri/markcode/codegen.kt:90 | the own start line, else the borrowed main's, else "null"; the number parses back |
| VerifyAll.OutputOf | src/main/kotlin/com/hadihariri/markcode/codegen.kt:87-90 | the entry of a selected example: its alias, "<code dir>/<expected-output file name>" and the location `LineText` gives |
| VerifyAll.ImportLine | src/main/kotlin/com/hadihariri/markcode/codegen.kt:86 | "import <package>.main as <alias>" for a selected example |
| VerifyAll.VerifyLine | src/main/kotlin/com/hadihariri/markcode/codegen.kt:97 | one verifySample call for an entry |
| VerifyAll.Document | src/main/kotlin/com/hadihariri/markcode/codegen.kt:78-99 | the header, the imports of all chapters, the opening of main, the verifier, one call per entry and the report; `WriteVerifyAll` writes it |
| VerifyAll.WriteVerifyAllSamples | src/main/kotlin/com/hadihariri/markcode/codegen.kt:76-101 | the list is every selected example's entry in order, and the text is the header, their imports, then main with one call per entry |
| VerifyAll.WriteChapter | src/main/kotlin/com/hadihariri/markcode/codegen.kt:83-91 | one chapter adds its selected examples' imports and entries in order |
| VerifyAll.WriteCalls | src/main/kotlin/com/hadihariri/markcode/codegen.kt:96-98 | one verifier call per entry, in order |
| VerifyAll.ChapterListed | src/main/kotlin/com/hadihariri/markcode/codegen.kt:83-90 | every selected example of a chapter has its entry |
| VerifyAll.ChapterSource | src/main/kotlin/com/hadihariri/markcode/codegen.kt:83-90 | every entry comes from a selected example |
| VerifyAll.ChapterOutputsCount | src/main/kotlin/com/hadihariri/markcode/codegen.kt:83-91 | a chapter has exactly one entry per selected example |
| VerifyAll.AllListed | src/main/kotlin/com/hadihariri/markcode/codegen.kt:82-92 | every selected example of every chapter has its entry |
| VerifyAll.AllSource | src/main/kotlin/com/hadihariri/markcode/codegen.kt:82-92 | every entry comes from a selected example of some chapter |
| VerifyAll.MarkcodeHeaderMissesVerifier | src/main/kotlin/com/hadihariri/markcode/codegen.kt:78 | as written, the first line does not import OutputVerifier, which main constructs |
| VerifyAll.HeadersImportVerifier | src/main/kotlin/codegen.kt:489 | the legacy header, and the corrected one, import OutputVerifier |
| VerifyAll.WriteVerifyAll | src/main/kotlin/com/hadihariri/markcode/codegen.kt:76-101 | the generated file with the corrected header starts with that header |
| VerifyAll.HelloWorldEntry | samples-out/VerifyAllSamples.kt:2-7 | the helloworld example gives one entry, alias "helloworld_exkt", location "helloworld.adoc:8" |
| Legacy.InnerKeyImported | src/main/kotlin/com/hadihariri/markcode/CodeExample.kt:167-173 | the key test is a substring test: a block mentioning a key also gets every entry whose key occurs inside it |
| Legacy.FileReaderAlsoImportsFile | src/main/kotlin/codegen.kt:8-34 | with the legacy table a block mentioning FileReader imports java.io.FileReader and java.io.File |
| Legacy.FacebookPrefix | src/main/kotlin/codegen.kt:36-38 | the getFacebookName helper is added exactly when its name is mentioned |

## Left out

- File I/O is not modelled: `readLines`, `mkdir`, `writeText` and the `BufferedWriter`. Inputs are sequences of lines and outputs are returned values.
- `Main.kt` and the legacy `main` (argument handling, directory listing, `System.exit`) are not part of this model.
- `Synthetics.kt` is not part of this model. It reads `imports.txt` and `prefixes.txt` from disk, so the two tables are parameters. They are lists of pairs in file order. The source builds them with `toMap`, which keeps one entry per key (the last one). The model keeps every pair, so a key listed twice in a table file would give two entries in the model and one in the source. The tables in the repository list each key once.
- `isLetterOrDigit` and `toUpperCase` are modelled for ASCII only.
- `isWhitespace` is modelled for the ASCII whitespace characters only (`IsWhitespace`), while Kotlin's `isWhitespace` also accepts Unicode spaces such as U+00A0, U+2000 to U+200A, U+2028, U+2029, U+3000 and U+001C to U+001F. The `trimStart`/`trimEnd` of `checkRemoveAnnotation`, `parseCaption` and `HeadingText` therefore keep such characters where the source removes them.
- A string is a sequence of characters, so its length counts characters. Kotlin's `String.length` counts UTF-16 code units, so the 150/175 limits of `checkRemoveAnnotation` differ for text outside the Basic Multilingual Plane.
- `Integer.parseInt` is modelled on unbounded integers and ASCII digits only. Its 32-bit overflow is not modelled, and neither are the other Unicode decimal digits `Character.digit` accepts: a chapter file named "ch" followed by an Arabic-Indic digit three is chapter 3 in the source and fails in the model (`Naming.ExtractChapterNumber`).
- The `exampleIndex` counter of `Chapter.process` is kept in the scan state but never read, as in the source.
- The `ExampleMetadata` interface that `DocMetadata` implements is not shown in the source, so `DocMetadata` is a plain class.
- The legacy copy's `captionToFilename`, `parseMetadata`, language objects, `SectionCounter`, `CodeExample` and `Chapter` are textually the same code as the markcode copy. They are represented by the same members and not modelled a second time.
- `ParseMetadata`'s chain of `startsWith`/`==` tests is modelled as one classification of a token (`KindOf`), tested in the same order.
- VerifyAll.WriteVerifyAllSamples: takes the chapters as `ChapterView` values, one `ExampleView` per registered example (`ViewOf` gives each view), so the link from a processed `Chapter` object to its view is not stated.
- VerifyAll.HelloWorldEntry: uses "helloworld" as the code directory name, so it does not reproduce the expected-file path of the sample, which was written by a build whose code directory name included "samples-out".
- Chapters.Chapter.Scan: states the chapter's invariant, not the full state after the scan. The per-line behaviour, grouping included, is stated by `InBlock`, `HeadingLine`, `Outside`, `OpenBlock`, `Passive`, `NewExample` and `Admit`.
- Chapters.Chapter.Step: states the invariant and the remembered previous line; the per-kind effects are in `InBlock` and `Outside`.
- Chapters.Chapter.OpenBlock: the message of a failed opening is stated by `NewExample`, not by `OpenBlock`.
- Chapters.Chapter.ProcessExamples: states, per registered example, nothing or a file under its name with the warning its text calls for and an expected-output file named after it. It does not tie the file's text to the example's buffers, because an example's text reads the buffers of the examples it borrows, and the model does not carry the fact that those were processed earlier in the loop. `ProcessOne` states the text for one example.
- Chapters.Chapter.RenameAndProcess: the same as `ProcessExamples`; the text of each file is not stated.
- Chapters.Chapter.Process: the same as `ProcessExamples`, and no failure condition is stated, because `Scan` states the invariant and not when the scan fails (see `Scan`).
- Chapters.WrittenNamesDistinct: distinctness is stated between examples of one language. A Java example keeps its explicit name and is not renamed, and the source does not stop that name from equalling a renamed Kotlin name.
- LineProcessing.Report: records the diagnostic with the corrected message, which states the limit that is applied (`LimitMessage`). The markcode copy's code prints "(55 characters max)" and "(76 characters max)" next to the limits 150 and 175 (see Findings); `MessageAsWritten` models that text, and `LegacyMessagesAgree` shows that the two agree under the legacy limits.
- Examples.CodeExample.CheckRemoveAnnotation: records the same corrected message as `Report`, not the text the markcode copy prints.
- Examples.CodeExample.ProcessLines: the second postcondition holds for a first call only. `processLines` clears only `text`, so a second call would append to the other buffers.

## Findings

| source | as written | input that shows it | evidently intended | confidence | as-written member | corrected member |
|---|---|---|---|---|---|---|
| src/main/kotlin/com/hadihariri/markcode/CodeExample.kt:80-86 | the diagnostics say "(55 characters max)" and "(76 characters max)" while the limits checked are 150 and 175 | a code line of 151 characters before a `<1>` callout is reported as breaking a 55-character limit | the message states the limit that is applied, as in the legacy copy where both are 55 and 76 | high; not executed | Callouts.MarkcodeMessageMismatch | Callouts.LimitMessage |
| src/main/kotlin/com/hadihariri/markcode/codegen.kt:78 | the first line of `VerifyAllSamples.kt` is `import com.hadihariri.markcode`, a package, while the generated `main` constructs `OutputVerifier()` | any list of chapters: the header imports no `OutputVerifier` | `import com.hadihariri.markcode.OutputVerifier`, as the legacy copy (with its own package) and the sample output in samples-out/VerifyAllSamples.kt:1 have | high; not executed | VerifyAll.MarkcodeHeaderMissesVerifier | VerifyAll.WriteVerifyAll |
