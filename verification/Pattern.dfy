/** A backtracking matcher for the fragment of Python's `re` that the fence pattern uses. */
module Pattern {
  import opened Options
  import opened Text

  /** One factor of a pattern; a pattern is a sequence of factors. */
  datatype Item =
    | Lit(text: string)
    | OneOfOrNone(options: seq<string>)  // (?:a|b)?
    | Spaces                             // \s*
    | AnyLazy                            // .*? with DOTALL
    | AtEnd                              // $

  predicate AtText(t: string, i: nat, j: nat, w: string) {
    i <= j <= |t| && t[i..j] == w
  }

  function Matching(options: seq<string>, t: string, i: nat): seq<nat> {
    if options == [] then []
    else
      var rest := Matching(options[1..], t, i);
      if AtText(t, i, i + |options[0]|, options[0]) then [i + |options[0]|] + rest else rest
  }

  function Down(lo: nat, hi: nat): (r: seq<nat>)
    requires lo <= hi
    ensures |r| == hi - lo + 1 && forall k | 0 <= k < |r| :: r[k] == hi - k
  {
    seq(hi - lo + 1, k requires 0 <= k <= hi - lo => hi - k)
  }

  function Up(lo: nat, hi: nat): (r: seq<nat>)
    requires lo <= hi
    ensures |r| == hi - lo + 1 && forall k | 0 <= k < |r| :: r[k] == lo + k
  {
    seq(hi - lo + 1, k requires 0 <= k <= hi - lo => lo + k)
  }

  function SpaceEnd(t: string, i: nat): (j: nat)
    requires i <= |t|
    ensures i <= j <= |t| && AllSpace(t[i..j]) && (j < |t| ==> !IsSpace(t[j]))
    decreases |t| - i
  {
    if i == |t| || !IsSpace(t[i]) then i
    else
      var j := SpaceEnd(t, i + 1);
      assert t[i..j] == [t[i]] + t[i + 1..j];
      j
  }

  /** Where `item`, started at `i`, may end, in the order the engine tries them. */
  function Choices(item: Item, t: string, i: nat): seq<nat>
    requires i <= |t|
  {
    match item
    case Lit(w) => if AtText(t, i, i + |w|, w) then [i + |w|] else []
    case OneOfOrNone(options) => Matching(options, t, i) + [i]
    case Spaces => Down(i, SpaceEnd(t, i))
    case AnyLazy => Up(i, |t|)
    case AtEnd => if i == |t| || (i + 1 == |t| && t[i] == '\n') then [i] else []
  }

  /** What it means, with no order in mind, for `item` to match the text from `i` to `j`. */
  ghost predicate Fits(item: Item, t: string, i: nat, j: nat) {
    && i <= j <= |t|
    && match item
       case Lit(w) => t[i..j] == w
       case OneOfOrNone(options) => i == j || t[i..j] in options
       case Spaces => AllSpace(t[i..j])
       case AnyLazy => true
       case AtEnd => i == j && (i == |t| || t[i..] == "\n")
  }

  lemma {:induction false} MatchingFits(options: seq<string>, t: string, i: nat, j: nat)
    ensures j in Matching(options, t, i) <==> i <= j <= |t| && t[i..j] in options
  {
    if options != [] {
      MatchingFits(options[1..], t, i, j);
      assert i <= j <= |t| && t[i..j] == options[0] ==> j == i + |options[0]|;
    }
  }

  lemma ChoicesFit(item: Item, t: string, i: nat, j: nat)
    requires i <= |t|
    ensures j in Choices(item, t, i) <==> Fits(item, t, i, j)
  {
    match item
    case Lit(w) =>
    case OneOfOrNone(options) => MatchingFits(options, t, i, j);
    case Spaces =>
      var e := SpaceEnd(t, i);
      if i <= j <= e {
        assert forall k | 0 <= k < j - i :: t[i..j][k] == t[i..e][k];
        assert Down(i, e)[e - j] == j;
      } else if e < j <= |t| {
        assert t[i..j][e - i] == t[e];
      }
    case AnyLazy =>
      if i <= j <= |t| {
        assert Up(i, |t|)[j - i] == j;
      }
    case AtEnd =>
  }

  ghost predicate AllFit(item: Item, t: string, i: nat, choices: seq<nat>) {
    i <= |t| && forall k | 0 <= k < |choices| :: Fits(item, t, i, choices[k])
  }

  lemma ChoicesAllFit(item: Item, t: string, i: nat)
    requires i <= |t|
    ensures AllFit(item, t, i, Choices(item, t, i))
  {
    var c := Choices(item, t, i);
    forall k | 0 <= k < |c| ensures Fits(item, t, i, c[k]) { ChoicesFit(item, t, i, c[k]); }
  }

  /** `cuts` splits a stretch of the text into one part per factor. */
  ghost predicate IsParse(p: seq<Item>, t: string, cuts: seq<nat>) {
    && |cuts| == |p| + 1
    && cuts[0] <= |t|
    && forall k | 0 <= k < |p| :: Fits(p[k], t, cuts[k], cuts[k + 1])
  }

  /** Depth-first search with backtracking, as `re.match` performs it. */
  function Search(p: seq<Item>, t: string, i: nat): (r: Option<seq<nat>>)
    requires i <= |t|
    ensures r.Some? ==> IsParse(p, t, r.value) && r.value[0] == i
    decreases |p|, 0, 1
  {
    if p == [] then Some([i])
    else
      ChoicesAllFit(p[0], t, i);
      Try(p, t, i, Choices(p[0], t, i))
  }

  function Try(p: seq<Item>, t: string, i: nat, choices: seq<nat>): (r: Option<seq<nat>>)
    requires p != [] && AllFit(p[0], t, i, choices)
    ensures r.Some? ==> IsParse(p, t, r.value) && r.value[0] == i
    decreases |p|, 0, 0, |choices|
  {
    if choices == [] then None
    else
      match Search(p[1..], t, choices[0])
      case Some(cuts) =>
        assert forall k | 1 <= k < |p| :: p[k] == p[1..][k - 1];
        Some([i] + cuts)
      case None => Try(p, t, i, choices[1..])
  }

  /** Backtracking misses nothing: a text that can be parsed at all is matched. */
  lemma {:induction false} SearchComplete(p: seq<Item>, t: string, cuts: seq<nat>)
    requires IsParse(p, t, cuts)
    ensures Search(p, t, cuts[0]).Some?
    decreases |p|, 0, 1
  {
    if p != [] {
      ChoicesFit(p[0], t, cuts[0], cuts[1]);
      ChoicesAllFit(p[0], t, cuts[0]);
      TryComplete(p, t, Choices(p[0], t, cuts[0]), cuts);
    }
  }

  lemma {:induction false} TryComplete(p: seq<Item>, t: string, choices: seq<nat>, cuts: seq<nat>)
    requires p != [] && IsParse(p, t, cuts) && cuts[1] in choices
    requires AllFit(p[0], t, cuts[0], choices)
    ensures Try(p, t, cuts[0], choices).Some?
    decreases |p|, 0, 0, |choices|
  {
    if choices[0] == cuts[1] {
      SearchComplete(p[1..], t, cuts[1..]);
    } else {
      TryComplete(p, t, choices[1..], cuts);
    }
  }

  /** `item` started at `i` is tried with end `j` before end `k`. */
  ghost predicate TriedBefore(item: Item, t: string, i: nat, j: nat, k: nat)
    requires i <= |t|
  {
    var c := Choices(item, t, i);
    exists a, b :: 0 <= a < b < |c| && c[a] == j && c[b] == k
  }

  /** Whitespace runs are greedy and the dot run is lazy. */
  lemma GreedyAndLazy(t: string, i: nat, j: nat, k: nat)
    requires i <= |t|
    ensures TriedBefore(Spaces, t, i, j, k) ==> j > k
    ensures TriedBefore(AnyLazy, t, i, j, k) ==> j < k
  {
  }

  /** An optional tag is taken when it is there: leaving it out is tried last. */
  lemma TagBeforeNone(options: seq<string>, t: string, i: nat, j: nat, k: nat)
    requires i <= |t| && "" !in options && TriedBefore(OneOfOrNone(options), t, i, j, k)
    ensures j > i
  {
    var c := Choices(OneOfOrNone(options), t, i);
    var a, b :| 0 <= a < b < |c| && c[a] == j && c[b] == k;
    assert c[a] == Matching(options, t, i)[a];
    MatchingFits(options, t, i, j);
  }

  /** The parse found is the first one in the engine's order: wherever another parse departs
      from it, that parse took an end the engine tries later. */
  lemma {:induction false} SearchIsFirst(p: seq<Item>, t: string, cuts: seq<nat>, d: nat)
    requires IsParse(p, t, cuts) && d < |p|
    requires Search(p, t, cuts[0]).Some?
    requires var found := Search(p, t, cuts[0]).value;
             found[..d + 1] == cuts[..d + 1] && found[d + 1] != cuts[d + 1]
    ensures TriedBefore(p[d], t, cuts[d], Search(p, t, cuts[0]).value[d + 1], cuts[d + 1])
  {
    var found := Search(p, t, cuts[0]).value;
    var choices := Choices(p[0], t, cuts[0]);
    ChoicesAllFit(p[0], t, cuts[0]);
    if d == 0 {
      ChoicesFit(p[0], t, cuts[0], cuts[1]);
      var b :| 0 <= b < |choices| && choices[b] == cuts[1];
      var a := FirstSuccess(p, t, cuts[0], choices);
      if b < a {
        SearchComplete(p[1..], t, cuts[1..]);
        assert false;
      }
      assert choices[a] == found[1] && choices[b] == cuts[1];
    } else {
      var a := FirstSuccess(p, t, cuts[0], choices);
      assert found[1] == found[..d + 1][1] == cuts[..d + 1][1] == cuts[1];
      assert found[1..][..d] == found[..d + 1][1..] == cuts[1..][..d];
      SearchIsFirst(p[1..], t, cuts[1..], d - 1);
    }
  }

  lemma {:induction false} FirstSuccess(p: seq<Item>, t: string, i: nat, choices: seq<nat>) returns (a: nat)
    requires p != [] && AllFit(p[0], t, i, choices)
    requires Try(p, t, i, choices).Some?
    ensures a < |choices| && Search(p[1..], t, choices[a]).Some?
    ensures Try(p, t, i, choices).value == [i] + Search(p[1..], t, choices[a]).value
    ensures forall b | 0 <= b < a :: Search(p[1..], t, choices[b]).None?
  {
    if Search(p[1..], t, choices[0]).Some? {
      a := 0;
    } else {
      var rest := FirstSuccess(p, t, i, choices[1..]);
      a := rest + 1;
    }
  }
}
