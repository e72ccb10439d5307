/** Text helpers for prompts and model replies. */
module PromptHelpers {
  import opened Text
  import opened Pattern

  /** An arbitrary Python argument: only strings have text. */
  datatype PyValue = PyStr(text: string) | NotAString

  // ------------------------------------------------------ whitespace normal form

  function NormalizeText(value: PyValue): string {
    match value
    case PyStr(text) => JoinWith(Words(text), ' ')
    case NotAString => ""
  }

  /** Normalising keeps the words and nothing else; what is not a string has none. */
  lemma NormalizeKeepsWords(text: string)
    ensures Words(NormalizeText(PyStr(text))) == Words(text)
    ensures NormalizeText(NotAString) == ""
  {
    WordsAreClean(text);
    WordsOfJoin(Words(text));
  }

  /** The result is a canonical form: two texts normalise alike exactly when they have the same words. */
  lemma NormalizeIsCanonical(a: string, b: string)
    ensures NormalizeText(PyStr(a)) == NormalizeText(PyStr(b)) <==> Words(a) == Words(b)
    ensures NormalizeText(PyStr(NormalizeText(PyStr(a)))) == NormalizeText(PyStr(a))
  {
    NormalizeKeepsWords(a);
    NormalizeKeepsWords(b);
  }

  /** A whitespace character inside a text is an ordinary space after a non-space. */
  ghost predicate LoneSpace(s: string, i: nat)
    requires 0 < i < |s|
  {
    IsSpace(s[i]) ==> s[i] == ' ' && !IsSpace(s[i - 1])
  }

  /** No whitespace but single separating spaces. */
  ghost predicate SingleSpaced(s: string) {
    Trimmed(s) && forall i | 0 < i < |s| :: LoneSpace(s, i)
  }

  lemma SpacedConcat(w: string, rest: string)
    requires w != "" && NoSpace(w) && rest != "" && SingleSpaced(rest)
    ensures SingleSpaced(w + " " + rest)
  {
    var s := w + " " + rest;
    forall i | 0 < i < |s| ensures LoneSpace(s, i) {
      if i > |w| + 1 { assert LoneSpace(rest, i - |w| - 1); }
    }
    assert s[|s| - 1] == rest[|rest| - 1] && s[0] == w[0];
  }

  lemma {:induction false} JoinIsSingleSpaced(ws: seq<string>)
    requires CleanWords(ws)
    ensures SingleSpaced(JoinWith(ws, ' '))
    ensures ws != [] ==> JoinWith(ws, ' ') != ""
  {
    if |ws| == 1 {
      assert JoinWith(ws, ' ') == ws[0];
    } else if |ws| > 1 {
      JoinIsSingleSpaced(ws[1..]);
      SpacedConcat(ws[0], JoinWith(ws[1..], ' '));
    }
  }

  /** Exactly the single-spaced texts are left alone. */
  lemma NormalizedIffSingleSpaced(s: string)
    ensures NormalizeText(PyStr(s)) == s <==> SingleSpaced(s)
  {
    WordsAreClean(s);
    JoinIsSingleSpaced(Words(s));
    if SingleSpaced(s) { SingleSpacedIsFixed(s); }
  }

  lemma SingleSpacedTail(s: string, n: nat)
    requires SingleSpaced(s) && 0 < n < |s| && IsSpace(s[n])
    ensures n + 1 < |s| && s[n] == ' ' && !IsSpace(s[n + 1]) && SingleSpaced(s[n + 1..])
  {
    var rest := s[n + 1..];
    assert LoneSpace(s, n) && n + 1 < |s| && LoneSpace(s, n + 1);
    forall i | 0 < i < |rest| ensures LoneSpace(rest, i) { assert LoneSpace(s, n + 1 + i); }
    assert rest[0] == s[n + 1] && rest[|rest| - 1] == s[|s| - 1];
  }

  lemma WordsBegin(s: string)
    requires s != "" && !IsSpace(s[0])
    ensures Words(s) != []
  {
  }

  lemma WordsAfterGap(s: string, n: nat)
    requires n == WordEnd(s) && 0 < n && n + 1 < |s| && !IsSpace(s[n + 1])
    ensures Words(s) == [s[..n]] + Words(s[n + 1..]) && Words(s[n + 1..]) != []
  {
    var tail := s[n..];
    assert tail[0] == s[n] && tail[1..] == s[n + 1..];
    assert Words(tail) == Words(tail[1..]);
    WordsBegin(s[n + 1..]);
  }

  lemma {:induction false} SingleSpacedIsFixed(s: string)
    requires SingleSpaced(s)
    ensures JoinWith(Words(s), ' ') == s
    decreases |s|
  {
    if s != "" {
      var n := WordEnd(s);
      if n < |s| {
        SingleSpacedTail(s, n);
        WordsAfterGap(s, n);
        SingleSpacedIsFixed(s[n + 1..]);
        assert s == s[..n] + " " + s[n + 1..];
        assert Words(s)[1..] == Words(s[n + 1..]);
      } else {
        assert s[..n] == s && Words(s[n..]) == [];
      }
    }
  }

  // ---------------------------------------------------------------- truncation

  /** Python's `text[:end]`, where a negative end counts from the right. */
  function Prefix(text: string, end: int): string {
    var stop := if end < 0 then |text| + end else end;
    if stop <= 0 then "" else if stop >= |text| then text else text[..stop]
  }

  function Truncate(text: string, limit: int): string {
    if |text| <= limit then text else Prefix(text, limit - 3) + "..."
  }

  /** The limit is respected exactly when the text fits already or there is room for the dots;
      below three the slice end turns negative and the result is too long. */
  lemma TruncateRespectsLimit(text: string, limit: int)
    ensures |Truncate(text, limit)| <= limit <==> (|text| <= limit || limit >= 3)
  {
  }

  lemma TruncateBelowThree()
    ensures Truncate("planning", 2) == "plannin..."
  {
  }

  /** With room for the dots, truncating twice is truncating once to the smaller limit. */
  lemma TruncateComposes(text: string, n: int, m: int)
    requires 3 <= n <= m
    ensures Truncate(Truncate(text, m), n) == Truncate(text, n)
    ensures |Truncate(text, n)| == if |text| <= n then |text| else n
  {
    if |text| > m > n {
      assert Truncate(text, m)[..n - 3] == text[..n - 3];
    }
  }

  function FormatFrameContent(content: string, limit: int): string {
    var stripped := Strip(content);
    if stripped == "" then "Frame document: (empty)"
    else
      var body := if |stripped| > limit then Prefix(stripped, limit - 3) + "..." else stripped;
      "Confirmed frame document:\n\n" + body
  }

  /** The empty notice appears exactly for blank documents; otherwise the header is followed by the
      stripped document truncated to the limit. */
  lemma FormatFrameShape(content: string, limit: int)
    ensures FormatFrameContent(content, limit) == "Frame document: (empty)" <==> AllSpace(content)
    ensures !AllSpace(content) ==>
              FormatFrameContent(content, limit) == "Confirmed frame document:\n\n" + Truncate(Strip(content), limit)
  {
    StripBlank(content);
    assert !AllSpace(content) ==> FormatFrameContent(content, limit)[0] == 'C';
  }

  // ------------------------------------------------------------- fence stripping

  /** `^\s*```(?:json|JSON)?\s*\n(.*?)\n\s*```\s*$`; `match` anchors it at the start. */
  const FENCE: seq<Item> := [
    Spaces, Lit("```"), OneOfOrNone(["json", "JSON"]), Spaces, Lit("\n"),
    AnyLazy, Lit("\n"), Spaces, Lit("```"), Spaces, AtEnd
  ]

  function StripJsonFence(text: string): string {
    var t := Strip(text);
    match Search(FENCE, t, 0)
    case Some(cuts) =>
      assert Fits(FENCE[5], t, cuts[5], cuts[6]);
      Strip(t[cuts[5]..cuts[6]])
    case None => t
  }

  /** A body between an opening and a closing fence line. */
  function Wrap(lang: string, w1: string, body: string, w2: string): string {
    "```" + lang + w1 + "\n" + body + "\n" + w2 + "```"
  }

  /** A fenced text, with no search in mind: an opening fence line, a body and a closing fence line. */
  ghost predicate Fenced(t: string, lang: string, w1: string, body: string, w2: string) {
    && lang in {"", "json", "JSON"} && AllSpace(w1) && AllSpace(w2)
    && t == Wrap(lang, w1, body, w2)
  }

  ghost predicate IsFenced(t: string) {
    exists lang, w1, body, w2 :: Fenced(t, lang, w1, body, w2)
  }

  lemma Cut(t: string, i: nat, j: nat, k: nat)
    requires i <= j <= k <= |t|
    ensures t[i..j] + t[j..k] == t[i..k]
  {
  }

  lemma NoOuterSpace(t: string, i: nat, j: nat)
    requires Trimmed(t) && i <= j <= |t| && AllSpace(t[i..j])
    ensures i == 0 ==> j == 0
    ensures j == |t| ==> i == j
  {
    assert forall k | i <= k < j :: t[k] == t[i..j][k - i];
  }

  /** Every parse of the pattern is a fenced shape around the captured group. */
  lemma ParseIsFenced(t: string, c: seq<nat>)
    requires Trimmed(t) && IsParse(FENCE, t, c) && c[0] == 0
    ensures c[5] <= c[6] <= |t| && IsFenced(t) && exists lang, w1, w2 :: Fenced(t, lang, w1, t[c[5]..c[6]], w2)
  {
    assert Fits(FENCE[0], t, c[0], c[1]) && Fits(FENCE[1], t, c[1], c[2]) && Fits(FENCE[2], t, c[2], c[3]);
    assert Fits(FENCE[3], t, c[3], c[4]) && Fits(FENCE[4], t, c[4], c[5]) && Fits(FENCE[5], t, c[5], c[6]);
    assert Fits(FENCE[6], t, c[6], c[7]) && Fits(FENCE[7], t, c[7], c[8]) && Fits(FENCE[8], t, c[8], c[9]);
    assert Fits(FENCE[9], t, c[9], c[10]) && Fits(FENCE[10], t, c[10], c[11]);
    NoOuterSpace(t, 0, c[1]);
    assert t[c[10]..|t|] == t[c[10]..];
    NoOuterSpace(t, c[10], |t|);
    NoOuterSpace(t, c[9], |t|);
    var lang, w1, body, w2 := t[c[2]..c[3]], t[c[3]..c[4]], t[c[5]..c[6]], t[c[7]..c[8]];
    Cut(t, 0, c[2], c[3]); Cut(t, 0, c[3], c[4]); Cut(t, 0, c[4], c[5]); Cut(t, 0, c[5], c[6]);
    Cut(t, 0, c[6], c[7]); Cut(t, 0, c[7], c[8]); Cut(t, 0, c[8], c[9]);
    assert t[0..|t|] == t;
    assert Fenced(t, lang, w1, body, w2);
  }

  lemma LastPart(t: string, p: string, x: string)
    requires p + x <= t
    ensures p <= t && t[|p|..|p| + |x|] == x
  {
    assert t[..|p + x|] == p + x;
  }

  /** Where the factors of the pattern end in a wrapped body. */
  function WrapCuts(lang: string, w1: string, body: string, w2: string): seq<nat> {
    var a := 3 + |lang|;
    var b := a + |w1|;
    var d := b + 1 + |body|;
    var e := d + 1 + |w2|;
    [0, 0, 3, a, b, b + 1, d, d + 1, e, e + 3, e + 3, e + 3]
  }

  lemma WrapParts(lang: string, w1: string, body: string, w2: string)
    ensures var t, c := Wrap(lang, w1, body, w2), WrapCuts(lang, w1, body, w2);
            && |t| == c[11] && t[0..3] == "```" && t[3..c[3]] == lang && t[c[3]..c[4]] == w1
            && t[c[4]..c[5]] == "\n" && t[c[5]..c[6]] == body && t[c[6]..c[7]] == "\n"
            && t[c[7]..c[8]] == w2 && t[c[8]..c[9]] == "```"
  {
    var t := Wrap(lang, w1, body, w2);
    var p1 := "```" + lang;
    var p2 := p1 + w1;
    var p3 := p2 + "\n";
    var p4 := p3 + body;
    var p5 := p4 + "\n";
    LastPart(t, p5 + w2, "```");
    LastPart(t, p5, w2);
    LastPart(t, p4, "\n");
    LastPart(t, p3, body);
    LastPart(t, p2, "\n");
    LastPart(t, p1, w1);
    LastPart(t, "```", lang);
    LastPart(t, "", "```");
  }

  /** Every fenced shape is a parse of the pattern. */
  lemma FencedParses(t: string, lang: string, w1: string, body: string, w2: string)
    requires Fenced(t, lang, w1, body, w2)
    ensures Search(FENCE, t, 0).Some?
  {
    var cuts := WrapCuts(lang, w1, body, w2);
    WrapParts(lang, w1, body, w2);
    assert lang == "" || lang in ["json", "JSON"];
    forall k | 0 <= k < |FENCE| ensures Fits(FENCE[k], t, cuts[k], cuts[k + 1]) {
    }
    SearchComplete(FENCE, t, cuts);
  }

  /** The fence line decides the language: the character after the backticks is a space or a letter. */
  lemma WrapLanguage(lang: string, w1: string, body: string, w2: string)
    requires lang in {"", "json", "JSON"} && AllSpace(w1)
    ensures var t := Wrap(lang, w1, body, w2); |t| >= 8 && |lang| == (if IsSpace(t[3]) then 0 else 4)
  {
    var t := Wrap(lang, w1, body, w2);
    WrapParts(lang, w1, body, w2);
    assert lang != "" ==> t[3] == t[3..3 + |lang|][0] == lang[0];
    assert w1 != "" ==> t[3 + |lang|] == t[3 + |lang|..3 + |lang| + |w1|][0] == w1[0];
    assert w1 == "" ==> t[3 + |lang|] == t[3 + |lang|..3 + |lang| + 1][0] == '\n';
  }

  /** What lies between the fences is the body with whitespace around it. */
  lemma WrapInner(lang: string, w1: string, body: string, w2: string)
    requires AllSpace(w1) && AllSpace(w2)
    ensures var t := Wrap(lang, w1, body, w2);
            |t| >= |lang| + 6 && Strip(t[3 + |lang|..|t| - 3]) == Strip(body)
  {
    var t := Wrap(lang, w1, body, w2);
    var inner := (w1 + "\n") + body + ("\n" + w2);
    assert t == ("```" + lang) + inner + "```";
    assert t[3 + |lang|..|t| - 3] == inner;
    StripIgnoresPadding(w1 + "\n", body, "\n" + w2);
  }

  /** However the text is read as fenced, the stripped body is the same. */
  lemma FencedBodyUnique(t: string, l: string, w: string, b: string, v: string,
                         l': string, w': string, b': string, v': string)
    requires Fenced(t, l, w, b, v) && Fenced(t, l', w', b', v')
    ensures Strip(b) == Strip(b')
  {
    WrapLanguage(l, w, b, v);
    WrapLanguage(l', w', b', v');
    WrapInner(l, w, b, v);
    WrapInner(l', w', b', v');
  }

  /** The search is the declarative reading of the text: a fenced text yields its stripped body,
      any other text is only stripped. */
  lemma StripJsonFenceMeaning(text: string)
    ensures forall lang, w1, body, w2 :: Fenced(Strip(text), lang, w1, body, w2) ==>
              StripJsonFence(text) == Strip(body)
    ensures !IsFenced(Strip(text)) ==> StripJsonFence(text) == Strip(text)
    ensures Search(FENCE, Strip(text), 0).Some? <==> IsFenced(Strip(text))
  {
    var t := Strip(text);
    StripIdempotent(text);
    var found := Search(FENCE, t, 0);
    if found.Some? {
      var c := found.value;
      ParseIsFenced(t, c);
      var l, w, v :| Fenced(t, l, w, t[c[5]..c[6]], v);
      forall lang, w1, body, w2 | Fenced(t, lang, w1, body, w2)
        ensures StripJsonFence(text) == Strip(body)
      {
        FencedBodyUnique(t, l, w, t[c[5]..c[6]], v, lang, w1, body, w2);
      }
    } else {
      forall lang, w1, body, w2 | Fenced(t, lang, w1, body, w2)
        ensures false
      {
        FencedParses(t, lang, w1, body, w2);
      }
    }
  }

  /** The docstring promises the original text when there is no fence. That holds exactly for texts
      with no whitespace at either end; any other comes back stripped. */
  lemma OriginalKeptIffTrimmed(text: string)
    requires !IsFenced(Strip(text))
    ensures StripJsonFence(text) == text <==> Trimmed(text)
  {
    StripJsonFenceMeaning(text);
    StripIdempotent(text);
    if Trimmed(text) { StripOfTrimmed(text); }
  }

  lemma OriginalNotKept()
    ensures !IsFenced(Strip(" a")) && StripJsonFence(" a") == "a"
  {
    StripOfPadded(" ", "a", "");
    assert " " + "a" + "" == " a";
    StripJsonFenceMeaning(" a");
    forall lang, w1, body, w2 ensures !Fenced("a", lang, w1, body, w2) {
      WrapParts(lang, w1, body, w2);
    }
  }

  /** The lazy group: the search never takes a longer body than another parse that agrees with it
      up to where the body begins. */
  lemma CapturedIsShortest(t: string, cuts: seq<nat>)
    requires IsParse(FENCE, t, cuts) && Search(FENCE, t, cuts[0]).Some?
    requires Search(FENCE, t, cuts[0]).value[..6] == cuts[..6]
    ensures Search(FENCE, t, cuts[0]).value[6] <= cuts[6]
  {
    var found := Search(FENCE, t, cuts[0]).value;
    if found[6] != cuts[6] {
      SearchIsFirst(FENCE, t, cuts, 5);
      assert Fits(FENCE[4], t, cuts[4], cuts[5]);
      GreedyAndLazy(t, cuts[5], found[6], cuts[6]);
    }
  }

  lemma WrapTrimmed(lang: string, w1: string, body: string, w2: string)
    ensures Trimmed(Wrap(lang, w1, body, w2))
  {
    var t := Wrap(lang, w1, body, w2);
    WrapParts(lang, w1, body, w2);
    assert t[0] == t[0..3][0] && t[|t| - 1] == t[|t| - 3..|t|][2];
  }

  /** Round trip: any body at all, however it is wrapped and padded, comes back stripped. */
  lemma FenceRoundTrip(before: string, lang: string, w1: string, body: string, w2: string, after: string)
    requires lang in {"", "json", "JSON"}
    requires AllSpace(before) && AllSpace(w1) && AllSpace(w2) && AllSpace(after)
    ensures StripJsonFence(before + Wrap(lang, w1, body, w2) + after) == Strip(body)
  {
    var t := Wrap(lang, w1, body, w2);
    WrapTrimmed(lang, w1, body, w2);
    StripOfPadded(before, t, after);
    StripJsonFenceMeaning(before + t + after);
    assert Fenced(t, lang, w1, body, w2);
  }

  /** One call removes one layer: a body that is itself fenced keeps its own fence. */
  lemma OneLayerOnly(body: string)
    ensures StripJsonFence(Wrap("json", "", Wrap("", "", body, ""), "")) == Wrap("", "", body, "")
  {
    var inner := Wrap("", "", body, "");
    var t := Wrap("json", "", inner, "");
    WrapTrimmed("", "", body, "");
    WrapTrimmed("json", "", inner, "");
    StripOfTrimmed(inner);
    StripOfTrimmed(t);
    StripJsonFenceMeaning(t);
    assert Fenced(t, "json", "", inner, "");
  }
}
