/** Event identifiers and the text form of replay cursors. */
module Cursors {
  import opened Sequences
  import opened Options
  import opened Text

  // -------------------------------------------------------------- decimal numbers

  function DigitChar(d: nat): (c: char)
    requires d < 10
    ensures '0' <= c <= '9' && DigitValue(c) == Some(d)
  {
    '0' + d as char
  }

  function DigitValue(c: char): Option<nat> {
    if '0' <= c <= '9' then Some((c - '0') as nat) else None
  }

  /** `str(n)`. */
  function Decimal(n: nat): (s: string)
    ensures s != "" && forall i | 0 <= i < |s| :: '0' <= s[i] <= '9'
  {
    (if n < 10 then "" else Decimal(n / 10)) + [DigitChar(n % 10)]
  }

  /** The digits of a Python integer literal: single underscores may separate them. */
  function Digits(s: string): Option<nat>
    decreases |s|
  {
    if s == "" then None
    else
      var d := DigitValue(Last(s));
      var rest := Init(s);
      if d.None? || rest == "" then d
      else
        var higher := Digits(if Last(rest) == '_' then Init(rest) else rest);
        if higher.None? then None else Some(10 * higher.value + d.value)
  }

  /** An optional sign and digits. */
  function Signed(t: string): Option<int> {
    if t == "" then None
    else
      var signed := t[0] == '-' || t[0] == '+';
      var n := Digits(if signed then t[1..] else t);
      if n.None? then None else Some(if t[0] == '-' then 0 - n.value as int else n.value as int)
  }

  /** `int(s)`. */
  function ParseInt(s: string): Option<int> { Signed(Strip(s)) }

  lemma {:induction false} DigitsOfDecimal(n: nat)
    ensures Digits(Decimal(n)) == Some(n)
  {
    if n >= 10 {
      DigitsOfDecimal(n / 10);
      var s := Decimal(n);
      assert Init(s) == Decimal(n / 10);
      assert '0' <= Last(Init(s)) <= '9';
    }
  }

  lemma ParseIntOfDecimal(n: nat)
    ensures ParseInt(Decimal(n)) == Some(n)
  {
    var s := Decimal(n);
    assert '0' <= s[0] <= '9' && '0' <= s[|s| - 1] <= '9';
    StripOfTrimmed(s);
    DigitsOfDecimal(n);
  }

  /** The texts `int` takes, sign and whitespace aside: digits, with single underscores between them. */
  ghost predicate DigitText(s: string) {
    && s != "" && '0' <= s[0] <= '9' && '0' <= s[|s| - 1] <= '9'
    && forall i | 0 <= i < |s| :: '0' <= s[i] <= '9' || (s[i] == '_' && i > 0 && s[i - 1] != '_')
  }

  lemma DigitTextShorter(s: string)
    requires |s| > 1 && '0' <= Last(s) <= '9'
    ensures var rest := Init(s); DigitText(s) <==> DigitText(if Last(rest) == '_' then Init(rest) else rest)
  {
    var rest := Init(s);
    var shorter := if Last(rest) == '_' then Init(rest) else rest;
    assert forall i | 0 <= i < |shorter| :: shorter[i] == s[i];
    if DigitText(s) && Last(rest) == '_' { assert s[|s| - 2] == '_' && s[|s| - 3] != '_'; }
  }

  lemma {:induction false} DigitsIff(s: string)
    ensures Digits(s).Some? <==> DigitText(s)
    decreases |s|
  {
    if |s| > 1 && DigitValue(Last(s)).Some? {
      var rest := Init(s);
      DigitTextShorter(s);
      DigitsIff(if Last(rest) == '_' then Init(rest) else rest);
    }
  }

  /** An underscore between digits changes nothing. */
  lemma {:induction false} UnderscoreIgnored(a: string, b: string)
    requires Digits(a).Some? && b != "" && forall i | 0 <= i < |b| :: '0' <= b[i] <= '9'
    ensures Digits(a + "_" + b) == Digits(a + b)
    decreases |b|
  {
    assert Init(a + "_" + b) == a + "_" + Init(b) && Init(a + b) == a + Init(b);
    if |b| == 1 {
      assert Init(a + "_" + b) == a + "_" && Init(a + "_") == a && a + Init(b) == a;
    } else {
      UnderscoreIgnored(a, Init(b));
      assert (a + "_" + Init(b))[|a| + |b| - 1] == (a + Init(b))[|a| + |b| - 2] == b[|b| - 2];
    }
  }

  /** Text that begins and ends with a digit. */
  predicate DigitEnds(s: string) { s != "" && '0' <= s[0] <= '9' && '0' <= s[|s| - 1] <= '9' }

  lemma SignedTrimmed(sign: string, digits: string)
    requires sign in {"", "+", "-"} && DigitEnds(digits)
    ensures Trimmed(sign + digits)
  {
    var t := sign + digits;
    assert t[|t| - 1] == digits[|digits| - 1];
  }

  lemma SignedReads(sign: string, digits: string, n: nat)
    requires sign in {"", "+", "-"} && DigitEnds(digits) && Digits(digits) == Some(n)
    ensures Signed(sign + digits) == Some(if sign == "-" then 0 - n as int else n as int)
  {
    if sign == "" {
      assert sign + digits == digits;
    } else {
      assert (sign + digits)[1..] == digits;
    }
  }

  /** `int` reads a decimal number with an optional sign and whitespace on both sides. */
  lemma ParseIntReads(before: string, sign: string, n: int, after: string)
    requires AllSpace(before) && AllSpace(after) && sign in {"", "+", "-"} && n >= 0
    ensures ParseInt(before + (sign + Decimal(n)) + after) == Some(if sign == "-" then -n else n)
  {
    DigitsOfDecimal(n);
    SignedTrimmed(sign, Decimal(n));
    StripOfPadded(before, sign + Decimal(n), after);
    SignedReads(sign, Decimal(n), n);
  }

  /** And nothing else is a number: what remains after whitespace and sign must be such digits. */
  lemma ParseIntIff(s: string)
    ensures ParseInt(s).Some? <==>
              var t := Strip(s);
              DigitText(t) || (t != "" && (t[0] == '-' || t[0] == '+') && DigitText(t[1..]))
  {
    var t := Strip(s);
    if t != "" {
      DigitsIff(t);
      DigitsIff(t[1..]);
    }
  }

  // --------------------------------------------------------------------- cursors

  /** `eventId`. */
  function EventId(threadId: string, eventSeq: nat): string { threadId + ":" + Decimal(eventSeq) }

  /** What follows the last colon, or everything if there is none. */
  function AfterColon(s: string): string { Last(SplitOn(s, ':')) }

  datatype Parsed = Missing | Malformed | Number(value: int)

  function ParseText(cursor: Option<string>): Parsed {
    if cursor.None? || Strip(cursor.value) == "" then Missing
    else
      var n := ParseInt(AfterColon(Strip(cursor.value)));
      if n.None? then Malformed else Number(n.value)
  }

  lemma {:induction false} LStripKeepsEnd(s: string, t: string)
    requires t != "" && !IsSpace(t[0])
    ensures LStrip(s + t) == LStrip(s) + t
  {
    if s == "" {
      assert s + t == t;
    } else {
      assert (s + t)[1..] == s[1..] + t;
      LStripKeepsEnd(s[1..], t);
    }
  }

  lemma StripKeepsEnd(s: string, t: string)
    requires t != "" && !IsSpace(t[0]) && !IsSpace(t[|t| - 1])
    ensures Strip(s + t) == LStrip(s) + t
  {
    LStripKeepsEnd(s, t);
    var u := LStrip(s) + t;
    assert u[|u| - 1] == t[|t| - 1];
  }

  lemma AfterColonOf(s: string, digits: string)
    requires ':' !in digits
    ensures AfterColon(s + (":" + digits)) == digits
  {
    SplitJoins(s, ':');
    var residual := Last(SplitOn(s, ':'));
    SplitConcat(s, ":" + digits, ':');
    JoinSplits([residual, digits], ':');
    assert JoinWith([residual, digits], ':') == residual + [':'] + digits == residual + (":" + digits);
  }

  lemma NumberReadsBack(eventSeq: nat)
    ensures ParseText(Some(Decimal(eventSeq))) == Number(eventSeq)
  {
    var digits := Decimal(eventSeq);
    StripOfTrimmed(digits);
    JoinSplits([digits], ':');
    ParseIntOfDecimal(eventSeq);
  }

  lemma IdStripped(threadId: string, digits: string)
    requires digits != "" && !IsSpace(digits[|digits| - 1]) && ':' !in digits
    ensures var stripped := Strip(threadId + ":" + digits); stripped != "" && AfterColon(stripped) == digits
  {
    var tail := ":" + digits;
    assert threadId + ":" + digits == threadId + tail;
    assert tail[|tail| - 1] == digits[|digits| - 1];
    StripKeepsEnd(threadId, tail);
    AfterColonOf(LStrip(threadId), digits);
  }

  /** Round trip: the identifier of an event, sent back as a cursor, names that event's number,
      whatever the thread is called; so does the bare number of the SSE frame. */
  lemma EventIdReadsBack(threadId: string, eventSeq: nat)
    ensures ParseText(Some(EventId(threadId, eventSeq))) == Number(eventSeq)
    ensures ParseText(Some(Decimal(eventSeq))) == Number(eventSeq)
  {
    NumberReadsBack(eventSeq);
    IdStripped(threadId, Decimal(eventSeq));
    ParseIntOfDecimal(eventSeq);
  }

  lemma PlainTextReads(t: string)
    requires t != "" && Trimmed(t) && ':' !in t
    ensures ParseText(Some(t)) == match ParseInt(t) case Some(v) => Number(v) case None => Malformed
  {
    StripOfTrimmed(t);
    JoinSplits([t], ':');
  }

  /** A negative number is read as such. */
  lemma SignedReadsBack(n: int)
    requires n >= 0
    ensures ParseText(Some("-" + Decimal(n))) == Number(-n)
  {
    DigitsOfDecimal(n);
    SignedTrimmed("-", Decimal(n));
    SignedReads("-", Decimal(n), n);
    StripOfTrimmed("-" + Decimal(n));
    PlainTextReads("-" + Decimal(n));
  }
}
