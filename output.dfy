/** The pieces the text of a generated source file is assembled from: the
    statement lines, the synthetic imports and prefixes a block mentions, and
    the final blank-line clean-up. */
module Output {
  import opened Text
  import opened Languages

  /** `replace("\n\n\n", "\n\n")`: one left-to-right pass that shortens each
      non-overlapping run of three line breaks to two. */
  function Collapse(s: string): (r: string)
    ensures |r| <= |s|
    decreases |s|
  {
    if StartsWith(s, "\n\n\n") then "\n\n" + Collapse(s[3..])
    else if |s| == 0 then ""
    else [s[0]] + Collapse(s[1..])
  }

  /** The characters of `s` other than line breaks, in order. */
  function NonNewlines(s: string): (r: string)
    ensures '\n' !in r
  {
    if |s| == 0 then ""
    else (if s[0] == '\n' then "" else [s[0]]) + NonNewlines(s[1..])
  }

  lemma NonNewlinesCons(c: char, s: string)
    ensures NonNewlines([c] + s) == (if c == '\n' then "" else [c]) + NonNewlines(s)
  {
    assert ([c] + s)[1..] == s;
  }

  /** The pass removes line breaks and nothing else. */
  lemma {:induction false} CollapseKeepsText(s: string)
    ensures NonNewlines(Collapse(s)) == NonNewlines(s)
    decreases |s|
  {
    if StartsWith(s, "\n\n\n") {
      CollapseKeepsText(s[3..]);
      var c := Collapse(s[3..]);
      NonNewlinesCons('\n', c);
      NonNewlinesCons('\n', ['\n'] + c);
      assert "\n\n" + c == ['\n'] + (['\n'] + c);
      assert s == ['\n'] + (['\n'] + (['\n'] + s[3..]));
      NonNewlinesCons('\n', s[3..]);
      NonNewlinesCons('\n', ['\n'] + s[3..]);
      NonNewlinesCons('\n', ['\n'] + (['\n'] + s[3..]));
    } else if |s| > 0 {
      CollapseKeepsText(s[1..]);
      assert s == [s[0]] + s[1..];
      NonNewlinesCons(s[0], s[1..]);
      NonNewlinesCons(s[0], Collapse(s[1..]));
    }
  }

  /** A text with no run of three line breaks is left as it is. */
  lemma {:induction false} CollapseNothingToDo(s: string)
    requires !Contains(s, "\n\n\n")
    ensures Collapse(s) == s
    decreases |s|
  {
    if |s| > 0 {
      CollapseNothingToDo(s[1..]);
    }
  }

  /** The pass is not repeated: four line breaks become three, so a run of
      blank lines can survive it. */
  lemma CollapseSinglePass()
    ensures Collapse("\n\n\n\n") == "\n\n\n"
    ensures Collapse("\n\n\n\n\n\n") == "\n\n\n\n"
  {
    assert Collapse("\n") == "\n";
    assert Collapse("\n\n\n") == "\n\n";
  }

  lemma ContainsCons(c: char, s: string, k: string)
    requires Contains(s, k)
    ensures Contains([c] + s, k)
  {
    assert ([c] + s)[1..] == s;
  }

  lemma ContainsSkipBreak(s: string, k: string)
    requires Contains(s, k) && |s| > 0 && s[0] == '\n' && |k| > 0 && k[0] != '\n'
    ensures Contains(s[1..], k)
  {
  }

  /** A text without line breaks that starts the input starts the output. */
  lemma {:induction false} CollapsePrefix(s: string, k: string)
    requires '\n' !in k && StartsWith(s, k)
    ensures StartsWith(Collapse(s), k)
    decreases |s|
  {
    if |k| > 0 {
      assert s[0] == k[0];
      assert k[1..] <= s[1..];
      assert forall c :: c in k[1..] ==> c in k;
      CollapsePrefix(s[1..], k[1..]);
    }
  }

  /** A text without line breaks that starts the output starts the input. */
  lemma {:induction false} CollapsePrefixBack(s: string, k: string)
    requires '\n' !in k && StartsWith(Collapse(s), k)
    ensures StartsWith(s, k)
    decreases |s|
  {
    if |k| > 0 {
      assert k[0] in k;
      assert |s| > 0;
      assert Collapse(s)[0] == k[0] != '\n';
      assert !StartsWith(s, "\n\n\n");
      assert Collapse(s)[1..] == Collapse(s[1..]);
      assert forall c :: c in k[1..] ==> c in k;
      CollapsePrefixBack(s[1..], k[1..]);
    }
  }

  /** The pass keeps every text without line breaks that occurs in its input,
      and brings in none that did not. */
  lemma {:induction false} CollapseKeepsWords(s: string, k: string)
    requires '\n' !in k
    ensures Contains(Collapse(s), k) <==> Contains(s, k)
    decreases |s|
  {
    if |k| == 0 {
      assert StartsWith(s, k) && StartsWith(Collapse(s), k);
    } else if StartsWith(s, k) {
      CollapsePrefix(s, k);
    } else if StartsWith(Collapse(s), k) {
      CollapsePrefixBack(s, k);
    } else if StartsWith(s, "\n\n\n") {
      assert k[0] in k;
      var c := Collapse(s[3..]);
      CollapseKeepsWords(s[3..], k);
      if Contains(s, k) {
        ContainsSkipBreak(s, k);
        ContainsSkipBreak(s[1..], k);
        assert s[1..][1..] == s[2..] && s[2..][1..] == s[3..];
        ContainsSkipBreak(s[2..], k);
        ContainsCons('\n', c, k);
        ContainsCons('\n', ['\n'] + c, k);
        assert "\n\n" + c == ['\n'] + (['\n'] + c);
      }
      if Contains(Collapse(s), k) {
        assert Collapse(s) == "\n\n" + c;
        ContainsSkipBreak("\n\n" + c, k);
        assert ("\n\n" + c)[1..] == "\n" + c;
        ContainsSkipBreak("\n" + c, k);
        assert ("\n" + c)[1..] == c;
        assert s == s[..3] + s[3..];
        ContainsInfix(s[..3], s[3..], "", k);
        assert s[..3] + s[3..] + "" == s;
      }
    } else if |s| > 0 {
      CollapseKeepsWords(s[1..], k);
      assert Collapse(s)[1..] == Collapse(s[1..]);
    }
  }

  /** The statements importing `names`, in order. */
  function ImportStatements(lang: Language, names: seq<string>): (r: seq<string>)
    ensures |r| == |names|
    ensures forall i :: 0 <= i < |names| ==> r[i] == ImportStatement(lang, names[i])
  {
    seq(|names|, i requires 0 <= i < |names| => ImportStatement(lang, names[i]))
  }

  /** One line per text, in order. */
  function Lines(xs: seq<string>): string {
    if |xs| == 0 then ""
    else Lines(xs[..|xs| - 1]) + xs[|xs| - 1] + "\n"
  }

  /** Every listed text has its own line in the rendering. */
  lemma {:induction false} LineFound(xs: seq<string>, i: nat)
    requires i < |xs|
    ensures Contains(Lines(xs), xs[i] + "\n")
  {
    var init := xs[..|xs| - 1];
    var line := xs[|xs| - 1] + "\n";
    if i == |xs| - 1 {
      ContainsInfix(Lines(init), line, "", line);
      assert Lines(init) + line + "" == Lines(xs);
      assert StartsWith(line, line);
    } else {
      assert init[i] == xs[i];
      LineFound(init, i);
      ContainsInfix("", Lines(init), line, xs[i] + "\n");
      assert "" + Lines(init) + line == Lines(xs);
    }
  }

  /** A text occurs wherever a longer text it starts occurs. */
  lemma ContainsShorter(s: string, k: string, x: string)
    requires Contains(s, k + x)
    ensures Contains(s, k)
  {
    var i := ContainsIndex(s, k + x);
    assert s[i..i + |k|] == (k + x)[..|k|];
    ContainsAt(s, k, i);
  }

  /** A text occurs in anything its container starts. */
  lemma ContainsExtended(s: string, rest: string, k: string)
    requires Contains(s, k)
    ensures Contains(s + rest, k)
  {
    ContainsInfix("", s, rest, k);
    assert "" + s + rest == s + rest;
  }

  /** A listed text occurs in its rendering. */
  lemma LineIn(xs: seq<string>, i: nat)
    requires i < |xs|
    ensures Contains(Lines(xs), xs[i])
  {
    LineFound(xs, i);
    ContainsShorter(Lines(xs), xs[i], "\n");
  }

  /** `key in text` for some of the texts a block is made of. */
  predicate Mentioned(key: string, texts: seq<string>) {
    exists i :: 0 <= i < |texts| && Contains(texts[i], key)
  }

  /** collectSyntheticElements: the values of the table entries whose key
      occurs in one of `texts`, in table order. */
  function Collect(table: seq<(string, string)>, texts: seq<string>): (r: seq<string>)
    ensures |r| <= |table|
    ensures forall v :: v in r <==>
      exists i :: 0 <= i < |table| && table[i].1 == v && Mentioned(table[i].0, texts)
  {
    if |table| == 0 then []
    else
      var init := table[..|table| - 1];
      var last := table[|table| - 1];
      var r := Collect(init, texts) + (if Mentioned(last.0, texts) then [last.1] else []);
      assert forall i :: 0 <= i < |init| ==> init[i] == table[i];
      r
  }

  /** Collecting keeps the order of the table: collecting from two tables
      one after the other is collecting from their concatenation. */
  lemma {:induction false} CollectAppend(a: seq<(string, string)>, b: seq<(string, string)>, texts: seq<string>)
    ensures Collect(a + b, texts) == Collect(a, texts) + Collect(b, texts)
  {
    if |b| == 0 {
      assert a + b == a;
    } else {
      assert (a + b)[..|a + b| - 1] == a + b[..|b| - 1];
      CollectAppend(a, b[..|b| - 1], texts);
    }
  }

  /** An entry whose key occurs nowhere contributes nothing; one whose key
      occurs contributes its value once. */
  lemma CollectOne(key: string, value: string, texts: seq<string>)
    ensures Collect([(key, value)], texts) == if Mentioned(key, texts) then [value] else []
  {
    assert [(key, value)][..0] == [];
  }
}
