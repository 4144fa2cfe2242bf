/** The in-source tables of the legacy copy of the generator (the one the
    command line wires in): which imports and which top-level declarations
    a block gets when it mentions a key. The key test is a substring test. */
module Legacy {
  import opened Text
  import opened Languages
  import opened Output
  import opened Examples

  /** syntheticImports: class or function name to the name it is imported
      under, in declaration order. */
  const SyntheticImports: seq<(string, string)> := [
    ("Comparator", "java.util.Comparator"),
    ("TreeMap", "java.util.TreeMap"),
    ("ArrayList", "java.util.ArrayList"),
    ("BufferedReader", "java.io.BufferedReader"),
    ("FileReader", "java.io.FileReader"),
    ("StringReader", "java.io.StringReader"),
    ("InputStreamReader", "java.io.InputStreamReader"),
    ("File", "java.io.File"),
    ("HashSet", "java.util.HashSet"),
    ("Date", "java.util.Date"),
    ("Collections", "java.util.Collections"),
    ("BigDecimal", "java.math.BigDecimal"),
    ("Serializable", "java.io.Serializable"),
    ("PropertyChangeSupport", "java.beans.PropertyChangeSupport"),
    ("PropertyChangeListener", "java.beans.PropertyChangeListener"),
    ("Delegates", "kotlin.properties.Delegates"),
    ("KClass", "kotlin.reflect.KClass"),
    ("KProperty", "kotlin.reflect.KProperty"),
    ("memberProperties", "kotlin.reflect.memberProperties"),
    ("compareValuesBy", "kotlin.comparisons.compareValuesBy"),
    ("@Before", "org.junit.Before"),
    ("@Test", "org.junit.Test"),
    ("Assert", "org.junit.Assert"),
    ("Period", "java.time.Period"),
    ("LocalDate", "java.time.LocalDate")
  ]

  /** syntheticPrefixes: a helper function some examples call without
      defining it. */
  const SyntheticPrefixes: seq<(string, string)> := [
    ("getFacebookName", "fun getFacebookName(accountId: Int) = \"fb:$accountId\"")
  ]

  lemma FileNamesSingleLine()
    ensures '\n' !in "java.io.File" && '\n' !in "java.io.FileReader"
  {
  }

  /** Text that occurs in a text that occurs in `s` occurs in `s`. */
  lemma ContainsWithin(s: string, a: string, b: string)
    requires Contains(s, a) && Contains(a, b)
    ensures Contains(s, b)
  {
    var i := ContainsIndex(s, a);
    var j := ContainsIndex(a, b);
    assert j + |b| <= |a| == |s[i..i + |a|]|;
    forall t | 0 <= t < |b|
      ensures s[i + j..i + j + |b|][t] == b[t]
    {
      assert s[i + j + t] == s[i..i + |a|][j + t] == a[j + t] == a[j..j + |b|][t];
    }
    ContainsAt(s, b, i + j);
  }

  /** Because the key test is a substring test, a block that mentions one
      key also gets the entry of every key that occurs inside it. */
  lemma InnerKeyImported(e: CodeExample, dirName: string, imports: seq<(string, string)>,
                         prefixes: seq<(string, string)>, i: nat, j: nat)
    requires i < |imports| && j < |imports| && Contains(imports[i].0, imports[j].0)
    requires Contains(e.text, imports[i].0) && '\n' !in imports[j].1
    requires e.OutputText(dirName, imports, prefixes).Success?
    ensures Contains(e.OutputText(dirName, imports, prefixes).value, ImportStatement(e.language, imports[j].1))
  {
    ContainsWithin(e.text, imports[i].0, imports[j].0);
    e.SyntheticImportWritten(dirName, imports, prefixes, j);
  }

  lemma FileEntries()
    ensures |SyntheticImports| == 25
    ensures SyntheticImports[4] == ("FileReader", "java.io.FileReader")
    ensures SyntheticImports[7] == ("File", "java.io.File")
  {
  }

  lemma FileInFileReader()
    ensures Contains("FileReader", "File")
  {
    assert "FileReader"[0..4] == "File";
    ContainsAt("FileReader", "File", 0);
  }

  /** With the legacy table, a block that mentions `FileReader` is given
      the import of `java.io.File` as well as its own. */
  lemma FileReaderAlsoImportsFile(e: CodeExample, dirName: string)
    requires Contains(e.text, "FileReader")
    requires e.OutputText(dirName, SyntheticImports, SyntheticPrefixes).Success?
    ensures Contains(e.OutputText(dirName, SyntheticImports, SyntheticPrefixes).value,
                     ImportStatement(e.language, "java.io.File"))
    ensures Contains(e.OutputText(dirName, SyntheticImports, SyntheticPrefixes).value,
                     ImportStatement(e.language, "java.io.FileReader"))
  {
    var t := SyntheticImports;
    FileEntries();
    FileInFileReader();
    FileNamesSingleLine();
    InnerKeyImported(e, dirName, t, SyntheticPrefixes, 4, 7);
    e.SyntheticImportWritten(dirName, t, SyntheticPrefixes, 4);
  }

  /** The helper function is added exactly when its name is mentioned. */
  lemma FacebookPrefix(texts: seq<string>)
    ensures Collect(SyntheticPrefixes, texts) ==
      if Mentioned("getFacebookName", texts) then ["fun getFacebookName(accountId: Int) = \"fb:$accountId\""] else []
  {
    CollectOne(SyntheticPrefixes[0].0, SyntheticPrefixes[0].1, texts);
  }
}
