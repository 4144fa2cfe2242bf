/** File names derived from headings and chapter file names. */
module Naming {
  import opened Wrappers
  import opened Text

  /** A character the caption keeps (`isLetterOrDigit`, over ASCII). */
  predicate IsAlnum(c: char) {
    IsAsciiLetter(c) || IsDigit(c)
  }

  /** `toUpperCase` over ASCII: lower-case letters move up, the rest stay. */
  function Upper(c: char): (u: char)
    ensures IsAlnum(c) ==> IsAlnum(u)
    ensures 'a' <= c <= 'z' ==> 'A' <= u <= 'Z'
    ensures !('a' <= c <= 'z') ==> u == c
  {
    if 'a' <= c <= 'z' then (c as int - 32) as char else c
  }

  /** Whether the next kept character is capitalised, after reading `s` with
      the flag starting at `cap`: a space sets it, a kept character clears
      it, anything else leaves it alone. */
  predicate CapAfter(s: string, cap: bool) {
    if |s| == 0 then cap
    else
      var c := s[|s| - 1];
      if c == ' ' then true
      else if IsAlnum(c) then false
      else CapAfter(s[..|s| - 1], cap)
  }

  /** The name built from `s`: only letters and digits are kept, and each one
      read while the flag is set is upper-cased. */
  function Camel(s: string, cap: bool): (r: string)
    ensures |r| <= |s|
    ensures forall i :: 0 <= i < |r| ==> IsAlnum(r[i])
  {
    if |s| == 0 then ""
    else
      var c := s[|s| - 1];
      var init := s[..|s| - 1];
      if c != ' ' && IsAlnum(c) then
        Camel(init, cap) + [if CapAfter(init, cap) then Upper(c) else c]
      else Camel(init, cap)
  }

  /** captionToFilename: the CamelCase name of a caption, followed by the
      caption index unless it is 0. */
  method CaptionToFilename(caption: string, captionIndex: int) returns (r: string)
    ensures r == Camel(caption, true) + (if captionIndex == 0 then "" else IntToString(captionIndex))
  {
    var name := "";
    var capitalize := true;
    var i := 0;
    while i < |caption|
      invariant 0 <= i <= |caption|
      invariant name == Camel(caption[..i], true)
      invariant capitalize == CapAfter(caption[..i], true)
    {
      var c := caption[i];
      assert caption[..i + 1][..i] == caption[..i];
      if c == ' ' {
        capitalize := true;
      } else if IsAlnum(c) {
        name := name + [if capitalize then Upper(c) else c];
        capitalize := false;
      }
      i := i + 1;
    }
    assert caption[..i] == caption;
    r := name + (if captionIndex == 0 then "" else IntToString(captionIndex));
  }

  /** Reading a space restarts capitalisation, whatever came before. */
  lemma {:induction false} CapAfterWord(a: string, b: string, cap: bool)
    ensures CapAfter(a + [' '] + b, cap) == CapAfter(b, true)
  {
    if |b| == 0 {
      assert a + [' '] + b == a + [' '];
    } else {
      assert (a + [' '] + b)[..|a + [' '] + b| - 1] == a + [' '] + b[..|b| - 1];
      CapAfterWord(a, b[..|b| - 1], cap);
    }
  }

  /** Words are named independently: the text after a space is named as a
      fresh caption and appended to the name of the text before it. */
  lemma {:induction false} CamelWords(a: string, b: string, cap: bool)
    ensures Camel(a + [' '] + b, cap) == Camel(a, cap) + Camel(b, true)
  {
    if |b| == 0 {
      assert a + [' '] + b == a + [' '];
      assert (a + [' '])[..|a|] == a;
    } else {
      var init := b[..|b| - 1];
      assert (a + [' '] + b)[..|a + [' '] + b| - 1] == a + [' '] + init;
      CamelWords(a, init, cap);
      CapAfterWord(a, init, cap);
    }
  }

  /** Until the first kept character is read, a set flag stays set. */
  lemma {:induction false} CapUntilKept(s: string)
    requires Camel(s, true) == ""
    ensures CapAfter(s, true)
  {
    if |s| > 0 {
      var c := s[|s| - 1];
      if !(c != ' ' && IsAlnum(c)) {
        CapUntilKept(s[..|s| - 1]);
      }
    }
  }

  /** The first character of a caption's name is already upper-case (or a
      digit): upper-casing it changes nothing. */
  lemma {:induction false} CamelFirstUpper(s: string)
    requires Camel(s, true) != ""
    ensures Upper(Camel(s, true)[0]) == Camel(s, true)[0]
  {
    var c := s[|s| - 1];
    var init := s[..|s| - 1];
    if Camel(init, true) == "" {
      CapUntilKept(init);
      if c != ' ' && IsAlnum(c) {
        assert Camel(s, true) == [Upper(c)];
      }
    } else {
      CamelFirstUpper(init);
    }
  }

  /** A name made only of kept characters is rebuilt as itself, except that
      its first character is upper-cased when the flag starts set. */
  lemma {:induction false} CamelOfName(t: string, cap: bool)
    requires forall i :: 0 <= i < |t| ==> IsAlnum(t[i])
    ensures |t| == 0 ==> Camel(t, cap) == ""
    ensures |t| > 0 ==> Camel(t, cap) == [if cap then Upper(t[0]) else t[0]] + t[1..]
    ensures |t| > 0 ==> !CapAfter(t, cap)
  {
    if |t| > 0 {
      var init := t[..|t| - 1];
      var c := t[|t| - 1];
      assert c == t[|t| - 1];
      assert IsDigit(c) ==> c != ' ';
      CamelOfName(init, cap);
      if |init| > 0 {
        assert t[1..] == init[1..] + [c];
      }
    }
  }

  /** Naming a name again gives it back. */
  lemma CamelIdempotent(s: string)
    ensures Camel(Camel(s, true), true) == Camel(s, true)
  {
    var t := Camel(s, true);
    CamelOfName(t, true);
    if |t| > 0 {
      CamelFirstUpper(s);
      assert t == [t[0]] + t[1..];
    }
  }

  /** A word of kept characters starting with a lower-case letter is named
      by upper-casing that letter. */
  lemma CamelWord(w: string)
    requires |w| > 0 && 'a' <= w[0] <= 'z' && forall i :: 0 <= i < |w| ==> IsAlnum(w[i])
    ensures Camel(w, true) == [Upper(w[0])] + w[1..]
  {
    CamelOfName(w, true);
  }

  /** "my file" is named "MyFile", and "MyFile2" as the third example
      under that caption. */
  lemma CaptionExamples()
    ensures Camel("my file", true) == "MyFile"
    ensures Camel("my file", true) + IntToString(2) == "MyFile2"
  {
    var my, file := "my", "file";
    assert "my file" == my + [' '] + file;
    CamelWords(my, file, true);
    CamelWord(my);
    CamelWord(file);
    assert Upper('m') == 'M' && Upper('f') == 'F';
  }

  /** extractChapterNumber: 0 unless the name starts with "ch"; otherwise the
      integer between "ch" and the last '.', and a failure
      (`NumberFormatException`) when that text is not an integer. */
  function ExtractChapterNumber(filename: string): (r: Result<int>)
    ensures !StartsWith(filename, "ch") ==> r == Success(0)
    ensures StartsWith(filename, "ch") ==>
      (r.Success? <==> ParseInt(SubstringBeforeLast(filename[2..], '.')).Some?)
    ensures StartsWith(filename, "ch") && r.Success? ==>
      Some(r.value) == ParseInt(SubstringBeforeLast(filename[2..], '.'))
    ensures r.Failure? ==> r.error == "NumberFormatException"
  {
    if StartsWith(filename, "ch") then
      match ParseInt(SubstringBeforeLast(RemovePrefix(filename, "ch"), '.'))
      case Some(n) => Success(n)
      case None => Failure("NumberFormatException")
    else Success(0)
  }

  /** The text before the last '.' of "<a>.<b>", when `b` has no '.'. */
  lemma BeforeLastDot(a: string, b: string)
    requires '.' !in b
    ensures SubstringBeforeLast(a + "." + b, '.') == a
  {
    var s := a + "." + b;
    assert s[|a|] == '.';
    var r := SubstringBeforeLast(s, '.');
    assert r == s[..|a|];
  }

  /** A chapter file "ch<n>.<ext>" yields n. */
  lemma ChapterNumberOf(n: int, ext: string)
    requires '.' !in ext
    ensures ExtractChapterNumber("ch" + IntToString(n) + "." + ext) == Success(n)
  {
    var f := "ch" + IntToString(n) + "." + ext;
    assert f[..2] == "ch";
    assert RemovePrefix(f, "ch") == IntToString(n) + "." + ext;
    BeforeLastDot(IntToString(n), ext);
    ParseIntToString(n);
  }

  /** A name starting with "ch" and then a letter is refused, as
      "chapter.adoc" is: the text before the last '.' is not a number. */
  lemma ChapterNumberRefused(rest: string)
    requires |rest| > 0 && IsAsciiLetter(rest[0])
    ensures ExtractChapterNumber("ch" + rest).Failure?
  {
    var f := "ch" + rest;
    assert f[..2] == "ch";
    assert RemovePrefix(f, "ch") == rest;
    var before := SubstringBeforeLast(rest, '.');
    if |before| > 0 {
      assert before[0] == rest[0];
      assert before[0] in before;
    }
  }}
