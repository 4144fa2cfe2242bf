/** The hierarchical section number of a chapter: four slots, the first
    holding the chapter number. */
module Sections {
  import opened Text

  /** The slots after a heading of level `level`: slot level-1 goes up by one
      and every deeper slot is reset; level 1 and below change nothing. */
  function Bump(s: seq<int>, level: int): (r: seq<int>)
    requires |s| == 4 && level <= 4
    ensures |r| == 4
    ensures level <= 1 ==> r == s
    ensures level > 1 ==> forall i :: 0 <= i < level - 1 ==> r[i] == s[i]
    ensures level > 1 ==> r[level - 1] == s[level - 1] + 1
    ensures level > 1 ==> forall i :: level <= i < 4 ==> r[i] == 0
  {
    if level <= 1 then s
    else seq(4, i requires 0 <= i < 4 => if i < level - 1 then s[i] else if i == level - 1 then s[i] + 1 else 0)
  }

  /** The slots that are not zero, in order. */
  function NonZero(s: seq<int>): (r: seq<int>)
    ensures |r| <= |s|
    ensures forall i :: 0 <= i < |r| ==> r[i] != 0
  {
    if |s| == 0 then []
    else NonZero(s[..|s| - 1]) + (if s[|s| - 1] != 0 then [s[|s| - 1]] else [])
  }

  function Decimals(xs: seq<int>): (r: seq<string>)
    ensures |r| == |xs|
    ensures forall i :: 0 <= i < |xs| ==> r[i] == IntToString(xs[i])
  {
    seq(|xs|, i requires 0 <= i < |xs| => IntToString(xs[i]))
  }

  /** The dotted rendering of a section number: the non-zero slots joined
      with ".". */
  function Dotted(s: seq<int>): string {
    Join(Decimals(NonZero(s)), ".")
  }

  class SectionCounter {
    const sectionNumber: array<int>

    ghost predicate Valid() {
      sectionNumber.Length == 4
    }

    /** A counter for chapter `chapterNumber` starts at [chapterNumber, 0, 0, 0]. */
    constructor (chapterNumber: int)
      ensures Valid() && fresh(sectionNumber)
      ensures sectionNumber[..] == [chapterNumber, 0, 0, 0]
    {
      var a := new int[4];
      a[0], a[1], a[2], a[3] := chapterNumber, 0, 0, 0;
      sectionNumber := a;
    }

    /** increment: a heading of level `level` (at most 4, as the only caller
        guarantees; level 5 would index past the last slot). */
    method Increment(level: int)
      requires Valid() && level <= 4
      modifies sectionNumber
      ensures Valid()
      ensures sectionNumber[..] == Bump(old(sectionNumber[..]), level)
    {
      if level > 1 {
        sectionNumber[level - 1] := sectionNumber[level - 1] + 1;
        for i := level to 4
          invariant forall j :: 0 <= j < level ==> sectionNumber[j] == Bump(old(sectionNumber[..]), level)[j]
          invariant forall j :: level <= j < i ==> sectionNumber[j] == 0
          invariant forall j :: i <= j < 4 ==> sectionNumber[j] == old(sectionNumber[j])
        {
          sectionNumber[i] := 0;
        }
      }
    }

    /** currentSectionNumber: the dotted rendering of the slots. */
    function CurrentSectionNumber(): (r: string)
      requires Valid()
      reads this, sectionNumber
      ensures r == Dotted(sectionNumber[..])
    {
      Join(Decimals(NonZero(sectionNumber[..])), ".")
    }
  }

  /** The rendering splits back at "." into the decimals of the non-zero
      slots: no slot's decimal contains a dot. */
  lemma DottedSplits(s: seq<int>)
    requires NonZero(s) != []
    ensures Split(Dotted(s), '.') == Decimals(NonZero(s))
  {
    var parts := Decimals(NonZero(s));
    forall p | p in parts
      ensures '.' !in p
    {
      var i :| 0 <= i < |parts| && parts[i] == p;
    }
    SplitJoin(parts, '.');
  }

  lemma {:induction false} JoinAvoids(parts: seq<string>, sep: string, c: char)
    requires c !in sep && forall p :: p in parts ==> c !in p
    ensures c !in Join(parts, sep)
  {
    if |parts| > 1 {
      assert parts[0] in parts;
      assert forall p :: p in parts[1..] ==> p in parts;
      JoinAvoids(parts[1..], sep, c);
    } else if |parts| == 1 {
      assert parts[0] in parts;
    }
  }

  /** A section number never holds an underscore. */
  lemma DottedHasNoUnderscore(s: seq<int>)
    ensures '_' !in Dotted(s)
  {
    var parts := Decimals(NonZero(s));
    forall p | p in parts
      ensures '_' !in p
    {
      var i :| 0 <= i < |parts| && parts[i] == p;
    }
    JoinAvoids(parts, ".", '_');
  }

  /** The non-zero slots of a four-slot number, spelled out. */
  lemma NonZeroOfFour(a: int, b: int, c: int, d: int)
    ensures NonZero([a, b, c, d])
         == (if a != 0 then [a] else []) + (if b != 0 then [b] else [])
          + (if c != 0 then [c] else []) + (if d != 0 then [d] else [])
  {
    assert [a][..0] == [];
    assert NonZero([a]) == (if a != 0 then [a] else []);
    assert [a, b][..1] == [a];
    assert NonZero([a, b]) == NonZero([a]) + (if b != 0 then [b] else []);
    assert [a, b, c][..2] == [a, b];
    assert NonZero([a, b, c]) == NonZero([a, b]) + (if c != 0 then [c] else []);
    assert [a, b, c, d][..3] == [a, b, c];
    assert NonZero([a, b, c, d]) == NonZero([a, b, c]) + (if d != 0 then [d] else []);
  }

  /** A fresh counter renders the chapter number, or nothing for chapter 0. */
  lemma FreshCounter(n: int)
    ensures Dotted([n, 0, 0, 0]) == if n == 0 then "" else IntToString(n)
  {
    NonZeroOfFour(n, 0, 0, 0);
    if n != 0 {
      assert NonZero([n, 0, 0, 0]) == [n];
      assert Decimals([n]) == [IntToString(n)];
    }
  }

  /** Zero slots are dropped wherever they are, not only at the end. */
  lemma InnerZeroDropped()
    ensures Dotted([5, 0, 1, 0]) == "5.1"
    ensures Dotted([5, 1, 0, 0]) == "5.1"
  {
    NonZeroOfFour(5, 0, 1, 0);
    NonZeroOfFour(5, 1, 0, 0);
    assert Decimals([5, 1]) == ["5", "1"];
  }

  /** Chapter 5: a level-2, a level-3 and a level-2 heading give 5.1, 5.1.1
      and 5.2. */
  lemma HeadingSequence()
    ensures Bump([5, 0, 0, 0], 2) == [5, 1, 0, 0]
    ensures Bump([5, 1, 0, 0], 3) == [5, 1, 1, 0]
    ensures Bump([5, 1, 1, 0], 2) == [5, 2, 0, 0]
  {
  }

  /** The three section numbers of that sequence render as 5.1, 5.1.1 and 5.2. */
  lemma HeadingRenders()
    ensures Dotted([5, 1, 0, 0]) == "5.1"
    ensures Dotted([5, 1, 1, 0]) == "5.1.1"
    ensures Dotted([5, 2, 0, 0]) == "5.2"
  {
    InnerZeroDropped();
    ThreeLevels();
    SecondSection();
  }

  lemma ThreeLevels()
    ensures Dotted([5, 1, 1, 0]) == "5.1.1"
  {
    NonZeroOfFour(5, 1, 1, 0);
    assert IntToString(5) == "5" && IntToString(1) == "1";
    assert Decimals([5, 1, 1]) == ["5", "1", "1"];
  }

  lemma SecondSection()
    ensures Dotted([5, 2, 0, 0]) == "5.2"
  {
    NonZeroOfFour(5, 2, 0, 0);
    assert IntToString(5) == "5" && IntToString(2) == "2";
    assert Decimals([5, 2]) == ["5", "2"];
  }
}
