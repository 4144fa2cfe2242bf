/** The two example languages and their conventions: package naming,
    statement syntax, the text that wraps a synthesised `main`, and whether a
    block already declares something. */
module Languages {
  import opened Text

  datatype Language = Kotlin | Java

  /** getPackageName. For Kotlin the file name must not be empty (its first
      character is inspected): a name that starts with a digit is nested
      under "<dir>.ex" and named after the text after its first '.', less
      ".kt", with every further '.' turned into '_'; any other name is the
      file name less ".kt". Java uses the directory name alone. */
  function PackageName(lang: Language, dirName: string, fileName: string): (r: string)
    requires lang.Kotlin? ==> |fileName| > 0
    ensures StartsWith(r, dirName)
    ensures lang.Java? ==> r == dirName
    ensures lang.Kotlin? ==> |r| > |dirName| && r[|dirName|] == '.'
    ensures lang.Kotlin? && IsDigit(fileName[0]) ==>
      StartsWith(r, dirName + ".ex") && '.' !in r[|dirName| + 3..]
    ensures lang.Kotlin? && IsDigit(fileName[0]) ==>
      r == dirName + ".ex" + ReplaceChar(RemoveSuffix(SubstringAfter(fileName, '.'), ".kt"), '.', '_')
    ensures lang.Kotlin? && !IsDigit(fileName[0]) ==> r == dirName + "." + RemoveSuffix(fileName, ".kt")
  {
    match lang
    case Java => dirName
    case Kotlin =>
      if IsDigit(fileName[0]) then
        var tail := ReplaceChar(RemoveSuffix(SubstringAfter(fileName, '.'), ".kt"), '.', '_');
        assert (dirName + ".ex" + tail)[..|dirName + ".ex"|] == dirName + ".ex";
        assert (dirName + ".ex" + tail)[|dirName| + 3..] == tail;
        dirName + ".ex" + tail
      else
        var r := dirName + "." + RemoveSuffix(fileName, ".kt");
        assert r[..|dirName|] == dirName;
        r
  }

  /** Statements end in ';' in Java and in nothing in Kotlin. */
  function Terminator(lang: Language): string {
    if lang.Java? then ";" else ""
  }

  /** A `package` or `import` statement naming `name`. */
  function Statement(lang: Language, keyword: string, name: string): (r: string)
    ensures StartsWith(r, keyword + " ") && EndsWith(r, Terminator(lang))
    ensures |r| == |keyword| + 1 + |name| + |Terminator(lang)|
  {
    var r := keyword + " " + name + Terminator(lang);
    assert r[..|keyword + " "|] == keyword + " ";
    assert r[|r| - |Terminator(lang)|..] == Terminator(lang);
    r
  }

  /** A statement is one line when its name is. */
  lemma StatementSingleLine(lang: Language, keyword: string, name: string)
    requires '\n' !in keyword && '\n' !in name
    ensures '\n' !in Statement(lang, keyword, name)
  {
  }

  /** An import of a one-line name is one line. */
  lemma ImportSingleLine(lang: Language, name: string)
    requires '\n' !in name
    ensures '\n' !in ImportStatement(lang, name)
  {
    assert '\n' !in "import";
    StatementSingleLine(lang, "import", name);
  }

  /** formatPackageStatement: "package <name>", with Java's ';'. */
  function PackageStatement(lang: Language, packageName: string): (r: string)
    ensures StartsWith(r, "package ") && EndsWith(r, Terminator(lang))
    ensures |r| == 8 + |packageName| + |Terminator(lang)|
    ensures r[8..|r| - |Terminator(lang)|] == packageName
  {
    StatementName(lang, "package", packageName);
    Statement(lang, "package", packageName)
  }

  /** formatImportStatement: "import <name>", with Java's ';'. */
  function ImportStatement(lang: Language, importName: string): (r: string)
    ensures StartsWith(r, "import ") && EndsWith(r, Terminator(lang))
    ensures |r| == 7 + |importName| + |Terminator(lang)|
    ensures r[7..|r| - |Terminator(lang)|] == importName
  {
    StatementName(lang, "import", importName);
    Statement(lang, "import", importName)
  }

  /** The name a statement states sits between the keyword and the
      terminator. */
  lemma StatementName(lang: Language, keyword: string, name: string)
    ensures var r := Statement(lang, keyword, name);
      r[|keyword| + 1..|r| - |Terminator(lang)|] == name
  {
  }

  /** formatMainFunction: Kotlin ignores the file name; Java opens a class
      named after the file name up to its first '.'. Both end by opening
      the body of `main`. */
  function MainFunction(lang: Language, fileName: string): (r: string)
    ensures EndsWith(r, "{")
    ensures lang.Kotlin? ==> StartsWith(r, "fun main(")
    ensures lang.Kotlin? ==> r == "fun main(args: Array<String>) {"
    ensures lang.Java? ==> StartsWith(r, "public class " + SubstringBefore(fileName, '.') + " {")
  {
    match lang
    case Kotlin =>
      var r := KotlinMainHead + "{";
      assert r[..9] == "fun main(";
      r
    case Java =>
      var head := "public class " + SubstringBefore(fileName, '.') + " {";
      var r := head + JavaMainHead + "{";
      assert r[..|head|] == head;
      r
  }

  /** The Java class is named after the file name up to its first '.'. */
  lemma JavaClassName(name: string, ext: string)
    requires '.' !in name
    ensures StartsWith(MainFunction(Java, name + "." + ext), "public class " + name + " {")
  {
    IndexOfFirst(name, '.', ext);
    assert name + "." + ext == name + ['.'] + ext;
    assert SubstringBefore(name + "." + ext, '.') == name;
  }

  /** Java's opening of `main`: the class line, then the method head. */
  lemma JavaMainText(fileName: string)
    ensures MainFunction(Java, fileName)
      == "public class " + SubstringBefore(fileName, '.') + " {" + "\n    public static void main(String[] args) {"
  {
    var head := "public class " + SubstringBefore(fileName, '.') + " {";
    assert JavaMainHead + "{" == "\n    public static void main(String[] args) {";
    assert MainFunction(Java, fileName) == head + (JavaMainHead + "{");
  }

  /** Kotlin's opening of `main` is the same whatever the file name. */
  lemma KotlinMainIgnoresName(a: string, b: string)
    ensures MainFunction(Kotlin, a) == MainFunction(Kotlin, b)
  {
  }

  const KotlinMainHead := "fun main(args: Array<String>) "
  const JavaMainHead := "\n    public static void main(String[] args) "

  /** formatMainFunctionIndent. */
  function MainIndent(lang: Language): (r: string)
    ensures forall i :: 0 <= i < |r| ==> r[i] == ' '
  {
    match lang
    case Kotlin => "    "
    case Java => "        "
  }

  /** formatMainFunctionEnd: closes `main` (and, in Java, the class). */
  function MainEnd(lang: Language): (r: string)
    ensures EndsWith(r, "}")
    ensures lang.Kotlin? ==> r == "}"
  {
    match lang
    case Kotlin => "}"
    case Java =>
      var r := "    }" + "\n}";
      assert r[|r| - 1..] == "}";
      r
  }

  /** Java's end of `main` closes the method, then the class. */
  lemma JavaEndText()
    ensures MainEnd(Java) == "    }\n}"
  {
  }

  /** Occurrences of `c` in `s`. */
  function Count(s: string, c: char): (n: nat)
    ensures n <= |s|
  {
    if |s| == 0 then 0
    else Count(s[..|s| - 1], c) + (if s[|s| - 1] == c then 1 else 0)
  }

  lemma {:induction false} CountAppend(a: string, b: string, c: char)
    ensures Count(a + b, c) == Count(a, c) + Count(b, c)
  {
    if |b| == 0 {
      assert a + b == a;
    } else {
      assert (a + b)[..|a + b| - 1] == a + b[..|b| - 1];
      CountAppend(a, b[..|b| - 1], c);
    }
  }

  /** The Kotlin opening mentions "fun main", which is what the missing-main
      warning looks for. */
  lemma KotlinMainMentioned(fileName: string)
    ensures Contains(MainFunction(Kotlin, fileName), "fun main")
  {
    assert MainFunction(Kotlin, fileName)[0..8] == "fun main";
    ContainsAt(MainFunction(Kotlin, fileName), "fun main", 0);
  }

  /** What the missing-main warning looks for is one line. */
  lemma MainWordSingleLine()
    ensures '\n' !in "fun main"
  {
  }

  lemma {:induction false} CountAbsent(s: string, c: char)
    requires c !in s
    ensures Count(s, c) == 0
  {
    if |s| > 0 {
      CountAbsent(s[..|s| - 1], c);
    }
  }

  /** The Kotlin opening leaves one brace open and its end closes one. */
  lemma KotlinMainBraces(fileName: string)
    ensures Count(MainFunction(Kotlin, fileName), '{') == 1 == Count(MainEnd(Kotlin), '}')
    ensures Count(MainFunction(Kotlin, fileName), '}') == 0 == Count(MainEnd(Kotlin), '{')
  {
    CountAppend(KotlinMainHead, "{", '{');
    CountAppend(KotlinMainHead, "{", '}');
    CountAbsent(KotlinMainHead, '{');
    CountAbsent(KotlinMainHead, '}');
    assert "{"[..0] == "" && "}"[..0] == "";
  }

  lemma NoBracesInMethodHead()
    ensures Count(JavaMainHead, '{') == 0 && Count(JavaMainHead, '}') == 0
  {
    CountAbsent(JavaMainHead, '{');
    CountAbsent(JavaMainHead, '}');
  }

  /** The Java opening leaves two braces open (class and method) and its end
      closes both, provided the file name itself has no braces. */
  lemma JavaMainBraces(fileName: string)
    requires '{' !in fileName && '}' !in fileName
    ensures Count(MainFunction(Java, fileName), '{') == 2 == Count(MainEnd(Java), '}')
    ensures Count(MainFunction(Java, fileName), '}') == 0 == Count(MainEnd(Java), '{')
  {
    var name := SubstringBefore(fileName, '.');
    assert '{' !in name && '}' !in name;
    JavaOpeningBraces(name);
    assert MainFunction(Java, fileName) == "public class " + name + " " + "{" + JavaMainHead + "{";
    JavaEndBraces();
  }

  /** The braces of the Java opening for a class name without braces. */
  lemma JavaOpeningBraces(name: string)
    requires '{' !in name && '}' !in name
    ensures var m := "public class " + name + " " + "{" + JavaMainHead + "{";
      Count(m, '{') == 2 && Count(m, '}') == 0
  {
    var p1, op := "public class " + name + " ", "{";
    CountAppend(p1 + op + JavaMainHead, op, '{');
    CountAppend(p1 + op, JavaMainHead, '{');
    CountAppend(p1, op, '{');
    CountAppend(p1 + op + JavaMainHead, op, '}');
    CountAppend(p1 + op, JavaMainHead, '}');
    CountAppend(p1, op, '}');
    NoBracesInMethodHead();
    CountAbsent("public class ", '{');
    CountAbsent("public class ", '}');
    CountAppend("public class " + name, " ", '{');
    CountAppend("public class ", name, '{');
    CountAppend("public class " + name, " ", '}');
    CountAppend("public class ", name, '}');
    CountAbsent(name, '{');
    CountAbsent(name, '}');
    assert " "[..0] == "";
    CountAbsent(op, '}');
    assert op[..0] == "";
  }

  lemma JavaEndBraces()
    ensures Count(MainEnd(Java), '}') == 2 && Count(MainEnd(Java), '{') == 0
  {
    var sp, nl, cl := "    ", "\n", "}";
    assert MainEnd(Java) == sp + cl + nl + cl;
    CountAppend(sp + cl + nl, cl, '}');
    CountAppend(sp + cl, nl, '}');
    CountAppend(sp, cl, '}');
    CountAppend(sp + cl + nl, cl, '{');
    CountAppend(sp + cl, nl, '{');
    CountAppend(sp, cl, '{');
    CountAbsent(sp, '{');
    CountAbsent(sp, '}');
    CountAbsent(nl, '{');
    CountAbsent(nl, '}');
    CountAbsent(cl, '{');
    assert cl[..0] == "";
  }

  /** The prefixes that mark a Kotlin block as already declaring something. */
  const DeclarationPrefixes: seq<string> :=
    ["fun", "inline fun", "operator fun", "class", "enum class", "interface",
     "open class", "data class", "abstract class"]

  predicate StartsWithAny(s: string, prefixes: seq<string>) {
    exists p :: p in prefixes && StartsWith(s, p)
  }

  /** hasAnyDeclarations: for Kotlin, some line starts with a declaration
      keyword (a plain prefix test); for Java, always. */
  function HasAnyDeclarations(lang: Language, lines: seq<string>): (r: bool)
    ensures lang.Java? ==> r
    ensures lang.Kotlin? ==>
      (r <==> exists i :: 0 <= i < |lines| && StartsWithAny(lines[i], DeclarationPrefixes))
  {
    match lang
    case Java => true
    case Kotlin =>
      if |lines| == 0 then false
      else if StartsWithAny(lines[|lines| - 1], DeclarationPrefixes) then true
      else
        var r := HasAnyDeclarations(Kotlin, lines[..|lines| - 1]);
        assert forall i :: 0 <= i < |lines| - 1 ==> lines[..|lines| - 1][i] == lines[i];
        r
  }

  /** The prefix test is not a word test: "classify()" counts as a
      declaration, and an empty block declares nothing. */
  lemma DeclarationIsPrefix()
    ensures HasAnyDeclarations(Kotlin, ["classify()"])
    ensures !HasAnyDeclarations(Kotlin, [])
  {
    assert "classify()"[..5] == "class";
    assert StartsWithAny(["classify()"][0], DeclarationPrefixes) by {
      assert "class" in DeclarationPrefixes;
    }
  }

  lemma SubstringAfterFirst(a: string, c: char, b: string)
    requires c !in a
    ensures SubstringAfter(a + [c] + b, c) == b
  {
    IndexOfFirst(a, c, b);
  }

  /** For a name that starts with a digit, "<number>.<rest>.kt", the
      package is nested under "<dir>.ex" and named after `rest`, with every
      '.' in it turned into '_'. */
  lemma NumberedPackage(dirName: string, number: string, rest: string)
    requires |number| > 0 && IsDigit(number[0]) && '.' !in number
    ensures PackageName(Kotlin, dirName, number + "." + rest + ".kt") == dirName + ".ex" + ReplaceChar(rest, '.', '_')
  {
    var f := number + "." + rest + ".kt";
    assert f == number + ['.'] + (rest + ".kt");
    SubstringAfterFirst(number, '.', rest + ".kt");
    var t := rest + ".kt";
    assert t[|t| - 3..] == ".kt";
    assert RemoveSuffix(t, ".kt") == rest;
  }

  /** Replacing the one '.' between two texts that have none. */
  lemma ReplaceOneDot(a: string, b: string)
    requires '.' !in a && '.' !in b
    ensures ReplaceChar(a + "." + b, '.', '_') == a + "_" + b
  {
    var r := ReplaceChar(a + "." + b, '.', '_');
    forall i | 0 <= i < |r|
      ensures r[i] == (a + "_" + b)[i]
    {
      if i < |a| {
        assert (a + "." + b)[i] == a[i];
      } else if i > |a| {
        assert (a + "." + b)[i] == b[i - |a| - 1];
      }
    }
  }

  /** The second example of section 5.1.1, renamed "5.1.1_2_Foo.kt", gets
      the package "<dir>.ex1_1_2_Foo". */
  lemma RenamedPackage(dirName: string)
    ensures PackageName(Kotlin, dirName, "5" + "." + ("1" + "." + "1_2_Foo") + ".kt")
         == dirName + ".ex" + ("1" + "_" + "1_2_Foo")
  {
    NumberedPackage(dirName, "5", "1" + "." + "1_2_Foo");
    ReplaceOneDot("1", "1_2_Foo");
  }

  /** Any other Kotlin name is the package's last component, less ".kt". */
  lemma NamedPackage(dirName: string, name: string)
    requires |name| > 0 && !IsDigit(name[0])
    ensures PackageName(Kotlin, dirName, name + ".kt") == dirName + "." + name
  {
    var f := name + ".kt";
    assert f[0] == name[0];
    assert f[|f| - 3..] == ".kt";
    assert RemoveSuffix(f, ".kt") == name;
  }
}
