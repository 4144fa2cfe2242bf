/** The `[source,<language>,<token>,...]` directive that precedes a code
    block, and its parser (`parseMetadata`, repeated verbatim as
    `DocMetadata.parse`). */
module Metadata {
  import opened Wrappers
  import opened Text

  /** What a directive line says about the block that follows it. */
  datatype SourceMetadata = SourceMetadata(
    language: Option<string>,
    filename: Option<string>,
    prependFilenames: seq<string>,
    append: bool,
    mainFilename: Option<string>,
    skip: bool,
    noverify: bool,
    jvmname: bool,
    imports: seq<string>)

  /** The descriptor of a block that has no directive. */
  const EmptySourceMetadata := SourceMetadata(None, None, [], false, None, false, false, false, [])

  /** The comma-separated fields of a directive once its leading `[`s and
      trailing `]`s are trimmed. */
  function Fields(line: string): seq<string> {
    Split(TrimEndChar(TrimStartChar(line, '['), ']'), ',')
  }

  /** The fields after the first two (`parts.drop(2)`). */
  function Tokens(line: string): seq<string> {
    var f := Fields(line);
    if |f| <= 2 then [] else f[2..]
  }

  /** How a token is classified: the first matching test of the parser's
      `if` chain. */
  datatype Kind =
    | PrependRef | MainRef | ImportRef
    | AppendFlag | SkipFlag | NoVerifyFlag | JvmNameFlag
    | FileNameToken

  function KindOf(t: string): Kind {
    if StartsWith(t, "prepend=") then PrependRef
    else if StartsWith(t, "main=") then MainRef
    else if StartsWith(t, "import=") then ImportRef
    else if t == "append" then AppendFlag
    else if t == "skip" then SkipFlag
    else if t == "noverify" then NoVerifyFlag
    else if t == "jvmname" then JvmNameFlag
    else FileNameToken
  }

  /** The value a token carries: the text after its `key=` prefix, or the
      whole token for a file name. */
  function Payload(t: string): string {
    match KindOf(t)
    case PrependRef => RemovePrefix(t, "prepend=")
    case MainRef => RemovePrefix(t, "main=")
    case ImportRef => RemovePrefix(t, "import=")
    case _ => t
  }

  /** The payloads of the tokens of kind `k`, in order of appearance. */
  function ValuesOf(ts: seq<string>, k: Kind): (vs: seq<string>)
    ensures |vs| <= |ts|
  {
    if |ts| == 0 then []
    else ValuesOf(ts[..|ts| - 1], k) + (if KindOf(ts[|ts| - 1]) == k then [Payload(ts[|ts| - 1])] else [])
  }

  /** The payload of the last token of kind `k`, if any. */
  function LastOf(ts: seq<string>, k: Kind): Option<string> {
    if |ts| == 0 then None
    else if KindOf(ts[|ts| - 1]) == k then Some(Payload(ts[|ts| - 1]))
    else LastOf(ts[..|ts| - 1], k)
  }

  /** Some token has kind `k`. */
  predicate Has(ts: seq<string>, k: Kind) {
    |ts| > 0 && (KindOf(ts[|ts| - 1]) == k || Has(ts[..|ts| - 1], k))
  }

  /** The meaning of a directive line, stated token class by token class. */
  function MetadataOf(line: string): SourceMetadata {
    var f := Fields(line);
    var ts := Tokens(line);
    SourceMetadata(
      if |f| >= 2 then Some(f[1]) else None,
      LastOf(ts, FileNameToken),
      ValuesOf(ts, PrependRef),
      Has(ts, AppendFlag),
      LastOf(ts, MainRef),
      Has(ts, SkipFlag),
      Has(ts, NoVerifyFlag),
      Has(ts, JvmNameFlag),
      ValuesOf(ts, ImportRef))
  }

  /** The four flags are recognised by exact equality only. */
  lemma FlagKinds(t: string)
    ensures KindOf(t) == AppendFlag <==> t == "append"
    ensures KindOf(t) == SkipFlag <==> t == "skip"
    ensures KindOf(t) == NoVerifyFlag <==> t == "noverify"
    ensures KindOf(t) == JvmNameFlag <==> t == "jvmname"
  {
    if t == "append" {
      assert !StartsWith(t, "main=") by { assert t[0] != 'm'; }
    } else if t == "noverify" {
      assert !StartsWith(t, "prepend=") by { assert t[0] != 'p'; }
    } else if t == "jvmname" {
      assert !StartsWith(t, "import=") by { assert t[0] != 'i'; }
    }
  }

  lemma {:induction false} HasExact(ts: seq<string>, k: Kind, flag: string)
    requires forall t :: KindOf(t) == k <==> t == flag
    ensures Has(ts, k) <==> flag in ts
  {
    if |ts| > 0 {
      HasExact(ts[..|ts| - 1], k, flag);
      assert ts == ts[..|ts| - 1] + [ts[|ts| - 1]];
    }
  }

  /** A flag is set exactly when one of the tokens after the language is
      that word, untrimmed; the first field and the language never set one. */
  lemma FlagsExact(line: string)
    ensures MetadataOf(line).append <==> "append" in Tokens(line)
    ensures MetadataOf(line).skip <==> "skip" in Tokens(line)
    ensures MetadataOf(line).noverify <==> "noverify" in Tokens(line)
    ensures MetadataOf(line).jvmname <==> "jvmname" in Tokens(line)
  {
    forall t { FlagKinds(t); }
    HasExact(Tokens(line), AppendFlag, "append");
    HasExact(Tokens(line), SkipFlag, "skip");
    HasExact(Tokens(line), NoVerifyFlag, "noverify");
    HasExact(Tokens(line), JvmNameFlag, "jvmname");
  }

  /** How each token class grows when one more token is read. */
  lemma Extend(ts: seq<string>, t: string)
    ensures ValuesOf(ts + [t], PrependRef) == ValuesOf(ts, PrependRef) + if KindOf(t) == PrependRef then [Payload(t)] else []
    ensures ValuesOf(ts + [t], ImportRef) == ValuesOf(ts, ImportRef) + if KindOf(t) == ImportRef then [Payload(t)] else []
    ensures LastOf(ts + [t], FileNameToken) == if KindOf(t) == FileNameToken then Some(t) else LastOf(ts, FileNameToken)
    ensures LastOf(ts + [t], MainRef) == if KindOf(t) == MainRef then Some(Payload(t)) else LastOf(ts, MainRef)
    ensures Has(ts + [t], AppendFlag) == (KindOf(t) == AppendFlag || Has(ts, AppendFlag))
    ensures Has(ts + [t], SkipFlag) == (KindOf(t) == SkipFlag || Has(ts, SkipFlag))
    ensures Has(ts + [t], NoVerifyFlag) == (KindOf(t) == NoVerifyFlag || Has(ts, NoVerifyFlag))
    ensures Has(ts + [t], JvmNameFlag) == (KindOf(t) == JvmNameFlag || Has(ts, JvmNameFlag))
  {
    assert (ts + [t])[..|ts|] == ts;
  }

  /** `parseMetadata`: the language is the second field; the tokens after
      it are read in one pass. It never fails. */
  method ParseMetadata(line: string) returns (r: SourceMetadata)
    ensures r == MetadataOf(line)
  {
    var parts := Split(TrimEndChar(TrimStartChar(line, '['), ']'), ',');
    var language := if |parts| >= 2 then Some(parts[1]) else None;
    var ts := if |parts| <= 2 then [] else parts[2..];
    assert ts == Tokens(line);
    r := ParseTokens(language, ts);
  }

  /** The loop of `parseMetadata` over `parts.drop(2)`: each token updates
      a flag or records a reference, by the first test of the `if` chain
      that it passes. */
  method ParseTokens(language: Option<string>, ts: seq<string>) returns (r: SourceMetadata)
    ensures r == SourceMetadata(language, LastOf(ts, FileNameToken), ValuesOf(ts, PrependRef),
      Has(ts, AppendFlag), LastOf(ts, MainRef), Has(ts, SkipFlag), Has(ts, NoVerifyFlag),
      Has(ts, JvmNameFlag), ValuesOf(ts, ImportRef))
  {
    var fileName: Option<string> := None;
    var prependFilenames: seq<string> := [];
    var mainFilename: Option<string> := None;
    var append, skip, noverify, jvmname := false, false, false, false;
    var imports: seq<string> := [];
    var i := 0;
    while i < |ts|
      invariant 0 <= i <= |ts|
      invariant fileName == LastOf(ts[..i], FileNameToken)
      invariant prependFilenames == ValuesOf(ts[..i], PrependRef)
      invariant mainFilename == LastOf(ts[..i], MainRef)
      invariant imports == ValuesOf(ts[..i], ImportRef)
      invariant append == Has(ts[..i], AppendFlag)
      invariant skip == Has(ts[..i], SkipFlag)
      invariant noverify == Has(ts[..i], NoVerifyFlag)
      invariant jvmname == Has(ts[..i], JvmNameFlag)
    {
      var part := ts[i];
      assert ts[..i + 1] == ts[..i] + [part];
      Extend(ts[..i], part);
      match KindOf(part) {
      case PrependRef =>
        prependFilenames := prependFilenames + [RemovePrefix(part, "prepend=")];
      case MainRef =>
        mainFilename := Some(RemovePrefix(part, "main="));
      case ImportRef =>
        imports := imports + [RemovePrefix(part, "import=")];
      case AppendFlag =>
        append := true;
      case SkipFlag =>
        skip := true;
      case NoVerifyFlag =>
        noverify := true;
      case JvmNameFlag =>
        jvmname := true;
      case FileNameToken =>
        fileName := Some(part);
      }
      i := i + 1;
    }
    assert ts[..i] == ts;
    r := SourceMetadata(language, fileName, prependFilenames, append, mainFilename, skip, noverify, jvmname, imports);
  }

  /** `DocMetadata`, the `ExampleMetadata` implementation whose `parse` is a
      copy of `parseMetadata`. */
  class DocMetadata {
    constructor () {}

    /** Gives the same descriptor as `parseMetadata` for every line. */
    method Parse(line: string) returns (r: SourceMetadata)
      ensures r == MetadataOf(line)
    {
      r := ParseMetadata(line);
    }
  }

  // ---------------------------------------------------------------------
  // Round trip: a descriptor written out as a directive is parsed back.

  /** Text that can stand inside one comma-separated field. */
  predicate Plain(s: string) {
    ',' !in s && ']' !in s
  }

  /** A descriptor that some directive line denotes: a language is given,
      no value holds a separator, and the file name is not mistaken for a
      flag or a `key=` token. */
  predicate Writable(m: SourceMetadata) {
    && m.language.Some? && Plain(m.language.value)
    && (m.filename.Some? ==> Plain(m.filename.value) && KindOf(m.filename.value) == FileNameToken)
    && (forall p :: p in m.prependFilenames ==> Plain(p))
    && (m.mainFilename.Some? ==> Plain(m.mainFilename.value))
    && (forall p :: p in m.imports ==> Plain(p))
  }

  function Tagged(prefix: string, vs: seq<string>): (ts: seq<string>)
    ensures |ts| == |vs|
    ensures forall i :: 0 <= i < |vs| ==> ts[i] == prefix + vs[i]
  {
    if |vs| == 0 then [] else Tagged(prefix, vs[..|vs| - 1]) + [prefix + vs[|vs| - 1]]
  }

  function OptTokens(prefix: string, v: Option<string>): seq<string> {
    if v.Some? then [prefix + v.value] else []
  }

  function FlagTokens(m: SourceMetadata): seq<string> {
    (if m.append then ["append"] else [])
    + (if m.skip then ["skip"] else [])
    + (if m.noverify then ["noverify"] else [])
    + (if m.jvmname then ["jvmname"] else [])
  }

  function RenderTokens(m: SourceMetadata): seq<string> {
    Tagged("prepend=", m.prependFilenames)
    + OptTokens("main=", m.mainFilename)
    + Tagged("import=", m.imports)
    + FlagTokens(m)
    + OptTokens("", m.filename)
  }

  /** A directive line that states `m`. */
  function Render(m: SourceMetadata): string
    requires m.language.Some?
  {
    "[" + Join(["source", m.language.value] + RenderTokens(m), ",") + "]"
  }

  lemma {:induction false} LastOfAbsent(ts: seq<string>, k: Kind)
    requires forall i :: 0 <= i < |ts| ==> KindOf(ts[i]) != k
    ensures LastOf(ts, k).None?
  {
    if |ts| > 0 {
      LastOfAbsent(ts[..|ts| - 1], k);
    }
  }

  lemma {:induction false} ValuesOfAbsent(ts: seq<string>, k: Kind)
    requires forall i :: 0 <= i < |ts| ==> KindOf(ts[i]) != k
    ensures ValuesOf(ts, k) == []
  {
    if |ts| > 0 {
      ValuesOfAbsent(ts[..|ts| - 1], k);
    }
  }

  lemma {:induction false} HasAbsent(ts: seq<string>, k: Kind)
    requires forall i :: 0 <= i < |ts| ==> KindOf(ts[i]) != k
    ensures !Has(ts, k)
  {
    if |ts| > 0 {
      HasAbsent(ts[..|ts| - 1], k);
    }
  }

  lemma {:induction false} ValuesOfAppend(a: seq<string>, b: seq<string>, k: Kind)
    ensures ValuesOf(a + b, k) == ValuesOf(a, k) + ValuesOf(b, k)
  {
    if |b| > 0 {
      assert (a + b)[..|a + b| - 1] == a + b[..|b| - 1];
      ValuesOfAppend(a, b[..|b| - 1], k);
    } else {
      assert a + b == a;
    }
  }

  lemma {:induction false} LastOfAppend(a: seq<string>, b: seq<string>, k: Kind)
    ensures LastOf(a + b, k) == if LastOf(b, k).Some? then LastOf(b, k) else LastOf(a, k)
  {
    if |b| > 0 {
      assert (a + b)[..|a + b| - 1] == a + b[..|b| - 1];
      LastOfAppend(a, b[..|b| - 1], k);
    } else {
      assert a + b == a;
    }
  }

  lemma {:induction false} HasAppend(a: seq<string>, b: seq<string>, k: Kind)
    ensures Has(a + b, k) == (Has(a, k) || Has(b, k))
  {
    if |b| > 0 {
      assert (a + b)[..|a + b| - 1] == a + b[..|b| - 1];
      HasAppend(a, b[..|b| - 1], k);
    } else {
      assert a + b == a;
    }
  }

  lemma ValuesOfGroups(t1: seq<string>, t2: seq<string>, t3: seq<string>, t4: seq<string>, t5: seq<string>, k: Kind)
    ensures ValuesOf(t1 + t2 + t3 + t4 + t5, k)
         == ValuesOf(t1, k) + ValuesOf(t2, k) + ValuesOf(t3, k) + ValuesOf(t4, k) + ValuesOf(t5, k)
  {
    ValuesOfAppend(t1, t2, k);
    ValuesOfAppend(t1 + t2, t3, k);
    ValuesOfAppend(t1 + t2 + t3, t4, k);
    ValuesOfAppend(t1 + t2 + t3 + t4, t5, k);
  }

  lemma LastOfGroups(t1: seq<string>, t2: seq<string>, t3: seq<string>, t4: seq<string>, t5: seq<string>, k: Kind)
    requires LastOf(t1, k).None? && LastOf(t3, k).None? && LastOf(t4, k).None?
    requires LastOf(t2, k).None? || LastOf(t5, k).None?
    ensures LastOf(t1 + t2 + t3 + t4 + t5, k) == if LastOf(t5, k).Some? then LastOf(t5, k) else LastOf(t2, k)
  {
    LastOfAppend(t1, t2, k);
    LastOfAppend(t1 + t2, t3, k);
    LastOfAppend(t1 + t2 + t3, t4, k);
    LastOfAppend(t1 + t2 + t3 + t4, t5, k);
  }

  lemma HasGroups(t1: seq<string>, t2: seq<string>, t3: seq<string>, t4: seq<string>, t5: seq<string>, k: Kind)
    ensures Has(t1 + t2 + t3 + t4 + t5, k) == (Has(t1, k) || Has(t2, k) || Has(t3, k) || Has(t4, k) || Has(t5, k))
  {
    HasAppend(t1, t2, k);
    HasAppend(t1 + t2, t3, k);
    HasAppend(t1 + t2 + t3, t4, k);
    HasAppend(t1 + t2 + t3 + t4, t5, k);
  }

  /** The payloads of a tagged list are the tagged values. */
  lemma {:induction false} TaggedValues(prefix: string, vs: seq<string>, tag: Kind)
    requires forall i :: 0 <= i < |vs| ==> KindOf(Tagged(prefix, vs)[i]) == tag && Payload(Tagged(prefix, vs)[i]) == vs[i]
    ensures ValuesOf(Tagged(prefix, vs), tag) == vs
  {
    if |vs| > 0 {
      var ts := Tagged(prefix, vs);
      var init := vs[..|vs| - 1];
      assert ts[..|ts| - 1] == Tagged(prefix, init);
      forall i | 0 <= i < |init|
        ensures KindOf(Tagged(prefix, init)[i]) == tag && Payload(Tagged(prefix, init)[i]) == init[i]
      {
        assert Tagged(prefix, init)[i] == ts[i];
      }
      TaggedValues(prefix, init, tag);
      assert vs == init + [vs[|vs| - 1]];
    }
  }

  lemma PrependToken(v: string)
    ensures KindOf("prepend=" + v) == PrependRef && Payload("prepend=" + v) == v
  {
    assert ("prepend=" + v)[..8] == "prepend=";
    assert ("prepend=" + v)[8..] == v;
  }

  lemma MainToken(v: string)
    ensures KindOf("main=" + v) == MainRef && Payload("main=" + v) == v
  {
    var t := "main=" + v;
    assert t[0] == 'm';
    assert t[..5] == "main=";
    assert t[5..] == v;
  }

  lemma ImportToken(v: string)
    ensures KindOf("import=" + v) == ImportRef && Payload("import=" + v) == v
  {
    var t := "import=" + v;
    assert t[0] == 'i';
    assert t[..7] == "import=";
    assert t[7..] == v;
  }

  lemma PrependGroup(vs: seq<string>)
    ensures forall i :: 0 <= i < |vs| ==>
      KindOf(Tagged("prepend=", vs)[i]) == PrependRef && Payload(Tagged("prepend=", vs)[i]) == vs[i]
  {
    forall i | 0 <= i < |vs|
      ensures KindOf(Tagged("prepend=", vs)[i]) == PrependRef && Payload(Tagged("prepend=", vs)[i]) == vs[i]
    {
      PrependToken(vs[i]);
    }
  }

  lemma ImportGroup(vs: seq<string>)
    ensures forall i :: 0 <= i < |vs| ==>
      KindOf(Tagged("import=", vs)[i]) == ImportRef && Payload(Tagged("import=", vs)[i]) == vs[i]
  {
    forall i | 0 <= i < |vs|
      ensures KindOf(Tagged("import=", vs)[i]) == ImportRef && Payload(Tagged("import=", vs)[i]) == vs[i]
    {
      ImportToken(vs[i]);
    }
  }

  /** A character of a joined list comes from a part or from the separator. */
  lemma {:induction false} JoinChars(parts: seq<string>, sep: string, c: char)
    requires c in Join(parts, sep)
    ensures c in sep || exists p :: p in parts && c in p
  {
    if |parts| > 1 {
      var rest := Join(parts[1..], sep);
      if c !in parts[0] && c !in sep {
        assert c in rest;
        JoinChars(parts[1..], sep, c);
        var p :| p in parts[1..] && c in p;
        assert p in parts;
      }
    } else if |parts| == 1 {
      assert parts[0] in parts;
    }
  }

  lemma {:induction false} TaggedPlain(prefix: string, vs: seq<string>)
    requires Plain(prefix) && forall v :: v in vs ==> Plain(v)
    ensures forall t :: t in Tagged(prefix, vs) ==> Plain(t)
  {
    forall t | t in Tagged(prefix, vs) ensures Plain(t) {
      var i :| 0 <= i < |vs| && Tagged(prefix, vs)[i] == t;
      assert vs[i] in vs;
    }
  }

  /** The fields of a rendered directive are "source", the language and the
      rendered tokens. */
  lemma RenderFields(m: SourceMetadata)
    requires Writable(m)
    ensures |Fields(Render(m))| >= 2 && Fields(Render(m))[1] == m.language.value
    ensures Tokens(Render(m)) == RenderTokens(m)
  {
    var parts := ["source", m.language.value] + RenderTokens(m);
    RenderPlain(m);
    JoinPlain(parts);
    Unbracket(Join(parts, ","));
    assert Render(m) == "[" + Join(parts, ",") + "]";
    SplitJoin(parts, ',');
  }

  /** Every field of a rendered directive is plain. */
  lemma RenderPlain(m: SourceMetadata)
    requires Writable(m)
    ensures forall p :: p in ["source", m.language.value] + RenderTokens(m) ==> Plain(p)
  {
    KeysPlain();
    TaggedPlain("prepend=", m.prependFilenames);
    TaggedPlain("import=", m.imports);
    FlagsPlain(m);
    assert forall t :: t in OptTokens("", m.filename) ==> Plain(t) by {
      if m.filename.Some? {
        assert "" + m.filename.value == m.filename.value;
      }
    }
  }

  /** The fixed texts of a rendered directive are plain. */
  lemma KeysPlain()
    ensures Plain("source") && Plain("prepend=") && Plain("main=") && Plain("import=")
  {
    assert Plain("source");
    assert Plain("prepend=");
    assert Plain("main=");
    assert Plain("import=");
  }

  lemma FlagsPlain(m: SourceMetadata)
    ensures forall t :: t in FlagTokens(m) ==> Plain(t)
  {
    assert Plain("append") && Plain("skip");
    assert Plain("noverify") && Plain("jvmname");
  }

  /** Joining plain fields that start with "source" gives text that starts
      with 's' and has no ']'. */
  lemma JoinPlain(parts: seq<string>)
    requires |parts| >= 2 && parts[0] == "source"
    requires forall p :: p in parts ==> Plain(p)
    ensures |Join(parts, ",")| > 0 && Join(parts, ",")[0] == 's' && ']' !in Join(parts, ",")
  {
    assert Join(parts, ",") == "source" + "," + Join(parts[1..], ",");
    if ']' in Join(parts, ",") {
      JoinChars(parts, ",", ']');
      assert false;
    }
  }

  /** Trimming the brackets of "[body]" gives `body` back. */
  lemma Unbracket(body: string)
    requires |body| > 0 && body[0] != '[' && ']' !in body
    ensures TrimEndChar(TrimStartChar("[" + body + "]", '['), ']') == body
  {
    var line := "[" + body + "]";
    assert line[1..] == body + "]";
    assert TrimStartChar(line, '[') == body + "]";
    assert (body + "]")[..|body|] == body;
    assert body[|body| - 1] in body;
  }

  /** The kind of every rendered token: one class per group. */
  lemma RenderKinds(m: SourceMetadata)
    requires Writable(m)
    ensures forall i :: 0 <= i < |Tagged("prepend=", m.prependFilenames)| ==>
              KindOf(Tagged("prepend=", m.prependFilenames)[i]) == PrependRef
    ensures forall i :: 0 <= i < |OptTokens("main=", m.mainFilename)| ==>
              KindOf(OptTokens("main=", m.mainFilename)[i]) == MainRef
    ensures forall i :: 0 <= i < |Tagged("import=", m.imports)| ==>
              KindOf(Tagged("import=", m.imports)[i]) == ImportRef
    ensures forall i :: 0 <= i < |FlagTokens(m)| ==>
              KindOf(FlagTokens(m)[i]) in {AppendFlag, SkipFlag, NoVerifyFlag, JvmNameFlag}
    ensures forall i :: 0 <= i < |OptTokens("", m.filename)| ==>
              KindOf(OptTokens("", m.filename)[i]) == FileNameToken
  {
    PrependGroup(m.prependFilenames);
    ImportGroup(m.imports);
    if m.mainFilename.Some? {
      MainToken(m.mainFilename.value);
    }
    FlagKinds("append");
    FlagKinds("skip");
    FlagKinds("noverify");
    FlagKinds("jvmname");
    if m.filename.Some? {
      assert "" + m.filename.value == m.filename.value;
    }
  }

  /** The payloads of the "prepend=" group are the prepended names. */
  lemma PrependValues(vs: seq<string>)
    ensures ValuesOf(Tagged("prepend=", vs), PrependRef) == vs
  {
    PrependGroup(vs);
    TaggedValues("prepend=", vs, PrependRef);
  }

  /** The payloads of the "import=" group are the imports. */
  lemma ImportValues(vs: seq<string>)
    ensures ValuesOf(Tagged("import=", vs), ImportRef) == vs
  {
    ImportGroup(vs);
    TaggedValues("import=", vs, ImportRef);
  }

  /** No group but the first carries a prepend. */
  lemma PrependsElsewhere(m: SourceMetadata)
    requires Writable(m)
    ensures ValuesOf(OptTokens("main=", m.mainFilename), PrependRef) == []
    ensures ValuesOf(Tagged("import=", m.imports), PrependRef) == []
    ensures ValuesOf(FlagTokens(m), PrependRef) == []
    ensures ValuesOf(OptTokens("", m.filename), PrependRef) == []
  {
    RenderKinds(m);
    ValuesOfAbsent(OptTokens("main=", m.mainFilename), PrependRef);
    ValuesOfAbsent(Tagged("import=", m.imports), PrependRef);
    ValuesOfAbsent(FlagTokens(m), PrependRef);
    ValuesOfAbsent(OptTokens("", m.filename), PrependRef);
  }

  /** No group but the third carries an import. */
  lemma ImportsElsewhere(m: SourceMetadata)
    requires Writable(m)
    ensures ValuesOf(Tagged("prepend=", m.prependFilenames), ImportRef) == []
    ensures ValuesOf(OptTokens("main=", m.mainFilename), ImportRef) == []
    ensures ValuesOf(FlagTokens(m), ImportRef) == []
    ensures ValuesOf(OptTokens("", m.filename), ImportRef) == []
  {
    RenderKinds(m);
    ValuesOfAbsent(Tagged("prepend=", m.prependFilenames), ImportRef);
    ValuesOfAbsent(OptTokens("main=", m.mainFilename), ImportRef);
    ValuesOfAbsent(FlagTokens(m), ImportRef);
    ValuesOfAbsent(OptTokens("", m.filename), ImportRef);
  }

  lemma RenderPrepends(m: SourceMetadata)
    requires Writable(m)
    ensures ValuesOf(RenderTokens(m), PrependRef) == m.prependFilenames
  {
    var t1, t2, t3, t4, t5 := Tagged("prepend=", m.prependFilenames), OptTokens("main=", m.mainFilename),
      Tagged("import=", m.imports), FlagTokens(m), OptTokens("", m.filename);
    PrependValues(m.prependFilenames);
    PrependsElsewhere(m);
    ValuesOfGroups(t1, t2, t3, t4, t5, PrependRef);
    assert ValuesOf(t1 + t2 + t3 + t4 + t5, PrependRef) == m.prependFilenames;
  }

  lemma RenderImports(m: SourceMetadata)
    requires Writable(m)
    ensures ValuesOf(RenderTokens(m), ImportRef) == m.imports
  {
    var t1, t2, t3, t4, t5 := Tagged("prepend=", m.prependFilenames), OptTokens("main=", m.mainFilename),
      Tagged("import=", m.imports), FlagTokens(m), OptTokens("", m.filename);
    ImportValues(m.imports);
    ImportsElsewhere(m);
    ValuesOfGroups(t1, t2, t3, t4, t5, ImportRef);
  }

  lemma RenderMain(m: SourceMetadata)
    requires Writable(m)
    ensures LastOf(RenderTokens(m), MainRef) == m.mainFilename
  {
    RenderKinds(m);
    var t1, t2, t3, t4, t5 := Tagged("prepend=", m.prependFilenames), OptTokens("main=", m.mainFilename),
      Tagged("import=", m.imports), FlagTokens(m), OptTokens("", m.filename);
    LastOfAbsent(t1, MainRef);
    LastOfAbsent(t3, MainRef);
    LastOfAbsent(t4, MainRef);
    LastOfAbsent(t5, MainRef);
    if m.mainFilename.Some? {
      MainToken(m.mainFilename.value);
      assert t2 == [] + ["main=" + m.mainFilename.value];
    }
    assert RenderTokens(m) == t1 + t2 + t3 + t4 + t5;
    LastOfGroups(t1, t2, t3, t4, t5, MainRef);
  }

  lemma RenderFilename(m: SourceMetadata)
    requires Writable(m)
    ensures LastOf(RenderTokens(m), FileNameToken) == m.filename
  {
    RenderKinds(m);
    var t1, t2, t3, t4, t5 := Tagged("prepend=", m.prependFilenames), OptTokens("main=", m.mainFilename),
      Tagged("import=", m.imports), FlagTokens(m), OptTokens("", m.filename);
    LastOfAbsent(t1, FileNameToken);
    LastOfAbsent(t2, FileNameToken);
    LastOfAbsent(t3, FileNameToken);
    LastOfAbsent(t4, FileNameToken);
    if m.filename.Some? {
      assert t5 == [] + [m.filename.value] by {
        assert "" + m.filename.value == m.filename.value;
      }
    }
    assert RenderTokens(m) == t1 + t2 + t3 + t4 + t5;
    LastOfGroups(t1, t2, t3, t4, t5, FileNameToken);
  }

  /** The flag group states exactly the flags that are set. */
  lemma FlagGroup(m: SourceMetadata)
    ensures Has(FlagTokens(m), AppendFlag) == m.append
    ensures Has(FlagTokens(m), SkipFlag) == m.skip
    ensures Has(FlagTokens(m), NoVerifyFlag) == m.noverify
    ensures Has(FlagTokens(m), JvmNameFlag) == m.jvmname
  {
    var f1 := if m.append then ["append"] else [];
    var f2 := if m.skip then ["skip"] else [];
    var f3 := if m.noverify then ["noverify"] else [];
    var f4 := if m.jvmname then ["jvmname"] else [];
    FlagKinds("append");
    FlagKinds("skip");
    FlagKinds("noverify");
    FlagKinds("jvmname");
    forall k ensures Has(FlagTokens(m), k) == (Has(f1, k) || Has(f2, k) || Has(f3, k) || Has(f4, k)) {
      HasAppend(f1, f2, k);
      HasAppend(f1 + f2, f3, k);
      HasAppend(f1 + f2 + f3, f4, k);
    }
    forall x, k ensures Has([x], k) == (KindOf(x) == k) {
      assert [x][..0] == [];
    }
  }

  lemma RenderFlags(m: SourceMetadata)
    requires Writable(m)
    ensures Has(RenderTokens(m), AppendFlag) == m.append
    ensures Has(RenderTokens(m), SkipFlag) == m.skip
    ensures Has(RenderTokens(m), NoVerifyFlag) == m.noverify
    ensures Has(RenderTokens(m), JvmNameFlag) == m.jvmname
  {
    RenderKinds(m);
    FlagGroup(m);
    var t1, t2, t3, t4, t5 := Tagged("prepend=", m.prependFilenames), OptTokens("main=", m.mainFilename),
      Tagged("import=", m.imports), FlagTokens(m), OptTokens("", m.filename);
    assert RenderTokens(m) == t1 + t2 + t3 + t4 + t5;
    forall k | k in {AppendFlag, SkipFlag, NoVerifyFlag, JvmNameFlag}
      ensures Has(RenderTokens(m), k) == Has(t4, k)
    {
      HasAbsent(t1, k);
      HasAbsent(t2, k);
      HasAbsent(t3, k);
      HasAbsent(t5, k);
      HasGroups(t1, t2, t3, t4, t5, k);
    }
  }

  /** Writing a descriptor out as a directive and parsing it gives the
      descriptor back: every field a directive can state round-trips. */
  lemma ParseRender(m: SourceMetadata)
    requires Writable(m)
    ensures MetadataOf(Render(m)) == m
  {
    RenderFields(m);
    RenderPrepends(m);
    RenderImports(m);
    RenderMain(m);
    RenderFilename(m);
    RenderFlags(m);
  }
}
