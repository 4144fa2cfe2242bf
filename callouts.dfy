/** Callout markers (`<1>`, `<2>`, …) at the end of code lines, and the
    line-length check made while removing them. */
module Callouts {
  import opened Wrappers
  import opened Text

  /** The two line-length limits: for the code before a callout, and for a
      whole line without one. */
  datatype Limits = Limits(beforeCallout: nat, wholeLine: nat)

  /** The pattern `<(\d+)>` matches at `i`: a '<', one or more ASCII digits,
      then a '>'. */
  predicate CalloutAt(s: string, i: int) {
    0 <= i < |s| && s[i] == '<' &&
    exists k :: i + 1 < k < |s| && s[k] == '>' && forall m :: i + 1 <= m < k ==> IsDigit(s[m])
  }

  /** The leftmost match at or after `from`, as a regular-expression search
      reports it. */
  function FindCallout(s: string, from: nat): (r: Option<nat>)
    requires from <= |s|
    ensures r.Some? ==> from <= r.value < |s| && CalloutAt(s, r.value)
    ensures r.Some? ==> forall j :: from <= j < r.value ==> !CalloutAt(s, j)
    ensures r.None? ==> forall j :: from <= j < |s| ==> !CalloutAt(s, j)
    decreases |s| - from
  {
    if from == |s| then None
    else if CalloutAt(s, from) then Some(from)
    else FindCallout(s, from + 1)
  }

  /** Where the code of a line ends: at its first callout, or at its end. */
  function CodeEnd(line: string): nat {
    match FindCallout(line, 0)
    case Some(i) => i
    case None => |line|
  }

  /** The outcome of checkRemoveAnnotation for one line: the text kept, and
      whether the line breaks the limit that applies to it. */
  datatype Stripped = Stripped(text: string, tooLong: bool)

  /** checkRemoveAnnotation: the code before the first callout (or the whole
      line), with trailing whitespace removed; it is too long when it exceeds
      the before-callout limit (line with a callout) or the whole-line limit
      (line without one). */
  function StripCallout(line: string, limits: Limits): (r: Stripped)
    ensures r.text <= line && |r.text| <= CodeEnd(line)
    ensures forall i :: |r.text| <= i < CodeEnd(line) ==> IsWhitespace(line[i])
    ensures |r.text| == 0 || !IsWhitespace(r.text[|r.text| - 1])
    ensures r.tooLong <==>
      |r.text| > (if FindCallout(line, 0).Some? then limits.beforeCallout else limits.wholeLine)
  {
    match FindCallout(line, 0)
    case Some(i) =>
      var t := TrimEnd(line[..i]);
      Stripped(t, |t| > limits.beforeCallout)
    case None =>
      var t := TrimEnd(line);
      Stripped(t, |t| > limits.wholeLine)
  }

  /** A match inside a prefix is a match in the whole line. */
  lemma CalloutInPrefix(p: string, s: string, j: int)
    requires p <= s && CalloutAt(p, j)
    ensures CalloutAt(s, j)
  {
    var k :| j + 1 < k < |p| && p[k] == '>' && forall m :: j + 1 <= m < k ==> IsDigit(p[m]);
    assert s[k] == '>';
    assert forall m :: j + 1 <= m < k ==> IsDigit(s[m]) by {
      forall m | j + 1 <= m < k ensures IsDigit(s[m]) {
        assert s[m] == p[m];
      }
    }
  }

  /** The kept text holds no callout. */
  lemma StrippedHasNoCallout(line: string, limits: Limits)
    ensures FindCallout(StripCallout(line, limits).text, 0).None?
  {
    var t := StripCallout(line, limits).text;
    forall j | 0 <= j < |t|
      ensures !CalloutAt(t, j)
    {
      if CalloutAt(t, j) {
        CalloutInPrefix(t, line, j);
        assert false;
      }
    }
  }

  /** Removing callouts twice is removing them once. */
  lemma StripIdempotent(line: string, limits: Limits)
    ensures StripCallout(StripCallout(line, limits).text, limits).text == StripCallout(line, limits).text
  {
    var t := StripCallout(line, limits).text;
    StrippedHasNoCallout(line, limits);
    var u := StripCallout(t, limits).text;
    assert CodeEnd(t) == |t|;
  }

  /** A line of at most the whole-line limit with no callout is never
      reported, and its text is only right-trimmed. */
  lemma ShortLineAccepted(line: string, limits: Limits)
    requires FindCallout(line, 0).None? && |line| <= limits.wholeLine
    ensures !StripCallout(line, limits).tooLong
    ensures StripCallout(line, limits).text == TrimEnd(line)
  {
  }

  /** The limits of the two copies of the engine. */
  const MarkcodeLimits := Limits(150, 175)
  const LegacyLimits := Limits(55, 76)

  const CalloutLinePrefix := "Code line before annotation is too long"
  const WholeLinePrefix := "Code line is too long"
  const MessageSuffix := " characters max)"

  /** The messages as both copies write them: the numbers are fixed at 55
      and 76, whatever the limits are. */
  function MessageAsWritten(withCallout: bool): string {
    if withCallout then CalloutLinePrefix + " (" + "55" + MessageSuffix
    else WholeLinePrefix + " (" + "76" + MessageSuffix
  }

  /** The number a message states: the text between its '(' and the next
      space. */
  function StatedLimit(m: string): string {
    SubstringBefore(SubstringAfter(m, '('), ' ')
  }

  lemma StatedNumber(pre: string, num: string, post: string)
    requires '(' !in pre && ' ' !in num && |post| > 0 && post[0] == ' '
    ensures StatedLimit(pre + " (" + num + post) == num
  {
    var m := pre + " (" + num + post;
    assert m == (pre + " ") + ['('] + (num + post);
    IndexOfFirst(pre + " ", '(', num + post);
    assert SubstringAfter(m, '(') == num + post;
    assert num + post == num + [' '] + post[1..];
    IndexOfFirst(num, ' ', post[1..]);
  }

  lemma NoParenInPrefixes()
    ensures '(' !in CalloutLinePrefix && '(' !in WholeLinePrefix
    ensures |MessageSuffix| > 0 && MessageSuffix[0] == ' '
  {
  }

  /** The messages stating the limit actually applied. */
  function LimitMessage(withCallout: bool, limits: Limits): (m: string)
    ensures ParseInt(StatedLimit(m)) == Some(if withCallout then limits.beforeCallout else limits.wholeLine)
  {
    var lim := if withCallout then limits.beforeCallout else limits.wholeLine;
    var pre := if withCallout then CalloutLinePrefix else WholeLinePrefix;
    NoParenInPrefixes();
    StatedNumber(pre, IntToString(lim), MessageSuffix);
    ParseIntToString(lim);
    pre + " (" + IntToString(lim) + MessageSuffix
  }

  /** As written, the message for an over-long line before a callout states
      55 while the markcode limit applied is 150: a 151-character line is
      reported as exceeding "55 characters max". */
  lemma MarkcodeMessageMismatch()
    ensures ParseInt(StatedLimit(MessageAsWritten(true))) == Some(55)
    ensures ParseInt(StatedLimit(MessageAsWritten(false))) == Some(76)
    ensures MarkcodeLimits.beforeCallout != 55 && MarkcodeLimits.wholeLine != 76
  {
    CalloutMessageStates55();
    WholeLineMessageStates76();
  }

  lemma CalloutMessageStates55()
    ensures ParseInt(StatedLimit(MessageAsWritten(true))) == Some(55)
  {
    NoParenInPrefixes();
    assert IntToString(55) == "55";
    StatedNumber(CalloutLinePrefix, IntToString(55), MessageSuffix);
    ParseIntToString(55);
  }

  lemma WholeLineMessageStates76()
    ensures ParseInt(StatedLimit(MessageAsWritten(false))) == Some(76)
  {
    NoParenInPrefixes();
    assert IntToString(76) == "76";
    StatedNumber(WholeLinePrefix, IntToString(76), MessageSuffix);
    ParseIntToString(76);
  }

  /** With the legacy limits the stated messages are the written ones. */
  lemma LegacyMessagesAgree()
    ensures LimitMessage(true, LegacyLimits) == MessageAsWritten(true)
    ensures LimitMessage(false, LegacyLimits) == MessageAsWritten(false)
  {
    assert IntToString(55) == "55";
    assert IntToString(76) == "76";
  }
}
