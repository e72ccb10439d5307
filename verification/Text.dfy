/** Text primitives shared by the models: whitespace, trimming, splitting and joining. */
module Text {
  import opened Sequences

  /** The whitespace characters of Python's `str.isspace`, which is also what `\s` matches. */
  predicate IsSpace(c: char) {
    || '\t' <= c <= '\r' || '\U{1c}' <= c <= ' '
    || c == '\U{85}' || c == '\U{a0}' || c == '\U{1680}'
    || '\U{2000}' <= c <= '\U{200a}' || c == '\U{2028}' || c == '\U{2029}'
    || c == '\U{202f}' || c == '\U{205f}' || c == '\U{3000}'
  }

  /** Character by character. */
  lemma SpaceCharacters(c: char)
    ensures IsSpace(c) == (c in {
       '\t', '\n', '\U{0b}', '\U{0c}', '\r', '\U{1c}', '\U{1d}', '\U{1e}', '\U{1f}', ' ', '\U{85}', '\U{a0}',
       '\U{1680}', '\U{2000}', '\U{2001}', '\U{2002}', '\U{2003}', '\U{2004}', '\U{2005}', '\U{2006}', '\U{2007}',
       '\U{2008}', '\U{2009}', '\U{200a}', '\U{2028}', '\U{2029}', '\U{202f}', '\U{205f}', '\U{3000}'})
  {
  }

  ghost predicate AllSpace(s: string) { forall i | 0 <= i < |s| :: IsSpace(s[i]) }

  ghost predicate NoSpace(s: string) { forall i | 0 <= i < |s| :: !IsSpace(s[i]) }

  /** Neither end of the text is whitespace. */
  ghost predicate Trimmed(s: string) {
    s == "" || (!IsSpace(s[0]) && !IsSpace(s[|s| - 1]))
  }

  // ---------------------------------------------------------------- trimming

  function LStrip(s: string): string {
    if s != "" && IsSpace(s[0]) then LStrip(s[1..]) else s
  }

  function RStrip(s: string): string {
    if s != "" && IsSpace(s[|s| - 1]) then RStrip(s[..|s| - 1]) else s
  }

  function Strip(s: string): string { RStrip(LStrip(s)) }

  lemma {:induction false} LStripParts(s: string) returns (a: string)
    ensures s == a + LStrip(s) && AllSpace(a)
    ensures LStrip(s) == "" || !IsSpace(LStrip(s)[0])
  {
    if s != "" && IsSpace(s[0]) {
      var b := LStripParts(s[1..]);
      a := [s[0]] + b;
    } else {
      a := "";
    }
  }

  lemma {:induction false} RStripParts(s: string) returns (c: string)
    ensures s == RStrip(s) + c && AllSpace(c)
    ensures RStrip(s) == "" || !IsSpace(RStrip(s)[|RStrip(s)| - 1])
  {
    if s != "" && IsSpace(s[|s| - 1]) {
      var d := RStripParts(s[..|s| - 1]);
      c := d + [s[|s| - 1]];
    } else {
      c := "";
    }
  }

  /** What `strip` removes: whitespace on both sides of a trimmed core. */
  lemma StripParts(s: string) returns (a: string, c: string)
    ensures s == a + Strip(s) + c && AllSpace(a) && AllSpace(c) && Trimmed(Strip(s))
  {
    a := LStripParts(s);
    c := RStripParts(LStrip(s));
    assert LStrip(s) == Strip(s) + c;
  }

  lemma {:induction false} LStripSkips(a: string, m: string)
    requires AllSpace(a)
    ensures LStrip(a + m) == LStrip(m)
  {
    if a == "" {
      assert a + m == m;
    } else {
      assert (a + m)[1..] == a[1..] + m;
      LStripSkips(a[1..], m);
    }
  }

  lemma {:induction false} RStripSkips(m: string, c: string)
    requires AllSpace(c)
    ensures RStrip(m + c) == RStrip(m)
  {
    if c == "" {
      assert m + c == m;
    } else {
      assert (m + c)[..|m + c| - 1] == m + c[..|c| - 1];
      RStripSkips(m, c[..|c| - 1]);
    }
  }

  /** A trimmed core surrounded by whitespace strips to that core, so `strip` has only one answer. */
  lemma StripOfPadded(a: string, m: string, c: string)
    requires AllSpace(a) && AllSpace(c) && Trimmed(m)
    ensures Strip(a + m + c) == m
  {
    assert a + m + c == a + (m + c);
    LStripSkips(a, m + c);
    if m == "" {
      assert m + c == c + "";
      LStripSkips(c, "");
    } else {
      RStripSkips(m, c);
    }
  }

  /** Whitespace added on either side never changes the stripped text. */
  lemma StripIgnoresPadding(a: string, b: string, c: string)
    requires AllSpace(a) && AllSpace(c)
    ensures Strip(a + b + c) == Strip(b)
  {
    var p, q := StripParts(b);
    assert a + b + c == (a + p) + Strip(b) + (q + c);
    StripOfPadded(a + p, Strip(b), q + c);
  }

  lemma StripOfTrimmed(s: string)
    requires Trimmed(s)
    ensures Strip(s) == s
  {
    StripOfPadded("", s, "");
    assert "" + s + "" == s;
  }

  lemma StripBlank(s: string)
    ensures Strip(s) == "" <==> AllSpace(s)
  {
    var a, c := StripParts(s);
    if AllSpace(s) {
      StripOfPadded(s, "", "");
      assert s + "" + "" == s;
    }
  }

  lemma StripIdempotent(s: string)
    ensures Strip(Strip(s)) == Strip(s) && Trimmed(Strip(s))
  {
    var a, c := StripParts(s);
    StripOfTrimmed(Strip(s));
  }

  // --------------------------------------------------- splitting on a separator

  /** Puts one character in front of split pieces: it opens a new piece or extends the first. */
  function Prepend(c: char, pieces: seq<string>, sep: char): (r: seq<string>)
    requires pieces != []
    ensures r != []
  {
    if c == sep then [""] + pieces else [[c] + pieces[0]] + pieces[1..]
  }

  /** `s.split(sep)` for a one-character separator: always at least one piece. */
  function SplitOn(s: string, sep: char): (pieces: seq<string>)
    ensures |pieces| >= 1
  {
    if s == "" then [""]
    else Prepend(s[0], SplitOn(s[1..], sep), sep)
  }

  /** `sep.join(pieces)`. */
  function JoinWith(pieces: seq<string>, sep: char): string {
    if pieces == [] then ""
    else if |pieces| == 1 then pieces[0]
    else pieces[0] + [sep] + JoinWith(pieces[1..], sep)
  }

  ghost predicate Lacks(pieces: seq<string>, sep: char) {
    forall i | 0 <= i < |pieces| :: sep !in pieces[i]
  }

  /** Splitting loses nothing, and no piece holds the separator. */
  lemma {:induction false} SplitJoins(s: string, sep: char)
    ensures JoinWith(SplitOn(s, sep), sep) == s && Lacks(SplitOn(s, sep), sep)
  {
    if s != "" {
      SplitJoins(s[1..], sep);
      var rest := SplitOn(s[1..], sep);
      if s[0] == sep {
        assert SplitOn(s, sep)[1..] == rest;
      } else {
        assert SplitOn(s, sep)[1..] == rest[1..];
      }
      assert s == [s[0]] + s[1..];
    }
  }

  /** Conversely separator-free pieces come back unchanged, so the pieces of a text are unique. */
  lemma {:induction false} JoinSplits(pieces: seq<string>, sep: char)
    requires pieces != [] && Lacks(pieces, sep)
    ensures SplitOn(JoinWith(pieces, sep), sep) == pieces
    decreases |pieces|, |pieces[0]|
  {
    var s := JoinWith(pieces, sep);
    if pieces[0] == "" {
      if |pieces| > 1 {
        assert s[1..] == JoinWith(pieces[1..], sep);
        JoinSplits(pieces[1..], sep);
        assert pieces == [""] + pieces[1..];
      }
    } else {
      var shorter := [pieces[0][1..]] + pieces[1..];
      assert shorter[1..] == pieces[1..];
      assert s[1..] == JoinWith(shorter, sep);
      assert s[0] == pieces[0][0] && s[0] in pieces[0];
      assert pieces[0] == [s[0]] + shorter[0];
      JoinSplits(shorter, sep);
      assert pieces == [[s[0]] + shorter[0]] + shorter[1..];
    }
  }

  lemma PrependToOne(c: char, x: string, b: string, sep: char)
    requires c != sep
    ensures Prepend(c, SplitOn(x + b, sep), sep) == SplitOn([c] + x + b, sep)
  {
    assert ([c] + x + b)[1..] == x + b;
  }

  lemma PrependOpens(r: seq<string>, tail: seq<string>)
    requires r != []
    ensures Init([""] + r) == [""] + Init(r) && Last([""] + r) == Last(r)
    ensures [""] + (Init(r) + tail) == Init([""] + r) + tail
  {
  }

  lemma PrependExtends(c: char, r: seq<string>, tail: seq<string>)
    requires |r| > 1
    ensures var p := [[c] + r[0]] + r[1..];
            && Last(p) == Last(r)
            && [[c] + r[0]] + (Init(r) + tail)[1..] == Init(p) + tail
  {
  }

  lemma PrependCommutes(c: char, r: seq<string>, b: string, sep: char)
    requires r != []
    ensures Prepend(c, Init(r) + SplitOn(Last(r) + b, sep), sep)
         == Init(Prepend(c, r, sep)) + SplitOn(Last(Prepend(c, r, sep)) + b, sep)
  {
    var tail := SplitOn(Last(r) + b, sep);
    if c == sep {
      PrependOpens(r, tail);
    } else if |r| == 1 {
      PrependToOne(c, r[0], b, sep);
      assert Init(r) + tail == tail && Prepend(c, r, sep) == [[c] + r[0]];
      var whole := SplitOn([c] + r[0] + b, sep);
      assert Init([[c] + r[0]]) + whole == whole;
    } else {
      PrependExtends(c, r, tail);
      assert (Init(r) + tail)[0] == r[0];
    }
  }

  /** Splitting a concatenation only revisits the last piece of the left part. */
  lemma {:induction false} SplitConcat(a: string, b: string, sep: char)
    ensures SplitOn(a + b, sep)
         == Init(SplitOn(a, sep)) + SplitOn(Last(SplitOn(a, sep)) + b, sep)
  {
    if a == "" {
      assert a + b == b == "" + b;
    } else {
      assert (a + b)[1..] == a[1..] + b;
      SplitConcat(a[1..], b, sep);
      PrependCommutes(a[0], SplitOn(a[1..], sep), b, sep);
    }
  }

  // ------------------------------------------------- splitting on whitespace

  /** Length of the leading run of non-space characters. */
  function WordEnd(s: string): (n: nat)
    ensures n <= |s| && NoSpace(s[..n]) && (n == |s| || IsSpace(s[n]))
  {
    if s == "" || IsSpace(s[0]) then 0
    else
      assert s == [s[0]] + s[1..];
      1 + WordEnd(s[1..])
  }

  /** Python's `s.split()`: the maximal runs of non-space characters. */
  function Words(s: string): seq<string>
    decreases |s|
  {
    if s == "" then []
    else if IsSpace(s[0]) then Words(s[1..])
    else [s[..WordEnd(s)]] + Words(s[WordEnd(s)..])
  }

  ghost predicate CleanWords(ws: seq<string>) {
    forall i | 0 <= i < |ws| :: ws[i] != "" && NoSpace(ws[i])
  }

  lemma {:induction false} WordsAreClean(s: string)
    ensures CleanWords(Words(s))
    decreases |s|
  {
    if s != "" {
      if IsSpace(s[0]) { WordsAreClean(s[1..]); } else { WordsAreClean(s[WordEnd(s)..]); }
    }
  }

  lemma WordEndOf(w: string, rest: string)
    requires NoSpace(w) && (rest == "" || IsSpace(rest[0]))
    ensures WordEnd(w + rest) == |w|
  {
    var s := w + rest;
    assert forall i | 0 <= i < |w| :: s[i] == w[i];
    assert rest != "" ==> s[|w|] == rest[0];
  }

  /** Joining clean words with single spaces and splitting again is the identity. */
  lemma {:induction false} WordsOfJoin(ws: seq<string>)
    requires CleanWords(ws)
    ensures Words(JoinWith(ws, ' ')) == ws
  {
    if ws != [] {
      var s := JoinWith(ws, ' ');
      var rest := if |ws| == 1 then "" else " " + JoinWith(ws[1..], ' ');
      assert s == ws[0] + rest;
      WordEndOf(ws[0], rest);
      assert s[..|ws[0]|] == ws[0] && s[|ws[0]|..] == rest;
      assert s[0] == ws[0][0];
      if |ws| > 1 {
        assert rest[1..] == JoinWith(ws[1..], ' ');
        WordsOfJoin(ws[1..]);
        assert ws == [ws[0]] + ws[1..];
      } else {
        assert ws == [ws[0]];
      }
    }
  }
}
