/** JSON trees and the dotted-path readers of the evidence scripts. */
module Json {
  import opened Text
  import opened Options

  datatype Json =
    | Null
    | Bool(b: bool)
    | Num(n: real)
    | Str(s: string)
    | Arr(items: seq<Json>)
    | Obj(fields: map<string, Json>)

  /** Python's `str(v)` for values that are not strings; every result holds whatever it prints. */
  type Renderer = Json -> string

  predicate Truthy(v: Json) {
    match v
    case Null => false
    case Bool(b) => b
    case Num(n) => n != 0.0
    case Str(s) => s != ""
    case Arr(items) => items != []
    case Obj(fields) => fields != map[]
  }

  /** `payload.get(key)`: a missing key reads as null. */
  function Get(v: Json, key: string): Json
    requires v.Obj?
  {
    if key in v.fields then v.fields[key] else Null
  }

  /** `str(payload.get(key) or "").strip()`. */
  function TextOf(show: Renderer, v: Json): string {
    Strip(if !Truthy(v) then "" else if v.Str? then v.s else show(v))
  }

  /** What reads as no text: Python's false values. Anything else reads as its own text, stripped. */
  lemma TextOfMeaning(show: Renderer, v: Json)
    ensures v in {Null, Bool(false), Num(0.0), Str(""), Arr([]), Obj(map[])} ==> TextOf(show, v) == ""
    ensures v.Str? ==> TextOf(show, v) == Strip(v.s)
    ensures v !in {Null, Bool(false), Num(0.0), Arr([]), Obj(map[])} && !v.Str? ==> TextOf(show, v) == Strip(show(v))
  {
  }

  // ------------------------------------------------------------ dotted paths

  /** The value a token path leads to; null as soon as it leaves the objects. */
  function DigTokens(v: Json, tokens: seq<string>): Json
    decreases |tokens|
  {
    if tokens == [] then v
    else if v.Obj? then DigTokens(Get(v, tokens[0]), tokens[1..])
    else Null
  }

  function Tokens(key: string): seq<string> { SplitOn(key, '.') }

  /** The lenient reader. */
  method Dig(payload: Json, key: string) returns (current: Json)
    ensures current == DigTokens(payload, Tokens(key))
  {
    current := payload;
    var tokens := Tokens(key);
    for i := 0 to |tokens|
      invariant DigTokens(payload, tokens) == DigTokens(current, tokens[i..])
    {
      if !current.Obj? { return Null; }
      assert tokens[i..][1..] == tokens[i + 1..];
      current := Get(current, tokens[i]);
    }
  }

  /** The first of several paths that leads to a number. */
  function NumberAt(v: Json, keys: seq<string>): Option<real> {
    if keys == [] then None
    else
      var found := DigTokens(v, Tokens(keys[0]));
      if found.Num? then Some(found.n) else NumberAt(v, keys[1..])
  }

  method FirstNumber(payload: Json, keys: seq<string>) returns (r: Option<real>)
    ensures r == NumberAt(payload, keys)
  {
    for i := 0 to |keys|
      invariant NumberAt(payload, keys) == NumberAt(payload, keys[i..])
    {
      var value := Dig(payload, keys[i]);
      assert keys[i..][1..] == keys[i + 1..];
      if value.Num? { return Some(value.n); }
    }
    return None;
  }

  /** What `NumberAt` picks, by index: a numeric path with no numeric path before it. */
  lemma {:induction false} NumberAtIsFirst(v: Json, keys: seq<string>, x: real)
    ensures NumberAt(v, keys) == Some(x) <==>
              exists k :: 0 <= k < |keys| && DigTokens(v, Tokens(keys[k])) == Num(x)
                          && forall j | 0 <= j < k :: !DigTokens(v, Tokens(keys[j])).Num?
  {
    if keys != [] {
      NumberAtIsFirst(v, keys[1..], x);
      if DigTokens(v, Tokens(keys[0])).Num? {
        assert NumberAt(v, keys) == Some(x) ==> DigTokens(v, Tokens(keys[0])) == Num(x);
      } else if NumberAt(v, keys) == Some(x) {
        var k :| 0 <= k < |keys[1..]| && DigTokens(v, Tokens(keys[1..][k])) == Num(x)
                 && forall j | 0 <= j < k :: !DigTokens(v, Tokens(keys[1..][j])).Num?;
        assert forall j | 1 <= j < k + 1 :: keys[j] == keys[1..][j - 1];
        assert DigTokens(v, Tokens(keys[k + 1])) == Num(x);
      } else {
        forall k | 1 <= k < |keys| && DigTokens(v, Tokens(keys[k])) == Num(x)
          ensures exists j :: 0 <= j < k && DigTokens(v, Tokens(keys[j])).Num?
        {
          assert keys[1..][k - 1] == keys[k];
          var j :| 0 <= j < k - 1 && DigTokens(v, Tokens(keys[1..][j])).Num?;
          assert DigTokens(v, Tokens(keys[j + 1])).Num?;
        }
      }
    }
  }

  datatype Required = Value(v: real) | MissingObjectPath | InvalidNumber

  /** The strict reader, which raises instead of giving up quietly. */
  method RequireNumber(payload: Json, key: string) returns (r: Required)
    ensures r == RequiredAt(payload, Tokens(key))
  {
    var current := payload;
    var tokens := Tokens(key);
    for i := 0 to |tokens|
      invariant RequiredAt(payload, tokens) == RequiredAt(current, tokens[i..])
    {
      if !current.Obj? { return MissingObjectPath; }
      assert tokens[i..][1..] == tokens[i + 1..];
      current := Get(current, tokens[i]);
    }
    if !current.Num? { return InvalidNumber; }
    return Value(current.n);
  }

  function RequiredAt(v: Json, tokens: seq<string>): Required
    decreases |tokens|
  {
    if tokens == [] then (if v.Num? then Value(v.n) else InvalidNumber)
    else if v.Obj? then RequiredAt(Get(v, tokens[0]), tokens[1..])
    else MissingObjectPath
  }

  /** Path lookup composes over concatenated paths. */
  lemma {:induction false} DigComposes(v: Json, a: seq<string>, b: seq<string>)
    ensures DigTokens(v, a + b) == DigTokens(DigTokens(v, a), b)
    decreases |a|
  {
    if a == [] {
      assert a + b == b;
    } else {
      assert (a + b)[1..] == a[1..] + b;
      if v.Obj? { DigComposes(Get(v, a[0]), a[1..], b); }
    }
  }

  /** The strict reader's three outcomes in terms of plain lookups: a missing object path is a
      proper prefix of the path that does not lead to an object. */
  lemma {:induction false} RequiredMeaning(v: Json, tokens: seq<string>)
    ensures RequiredAt(v, tokens).MissingObjectPath?
       <==> exists k :: 0 <= k < |tokens| && !DigTokens(v, tokens[..k]).Obj?
    ensures !RequiredAt(v, tokens).MissingObjectPath? ==>
              RequiredAt(v, tokens) == (var found := DigTokens(v, tokens);
                                        if found.Num? then Value(found.n) else InvalidNumber)
    ensures RequiredAt(v, tokens).MissingObjectPath? ==> !DigTokens(v, tokens).Num?
    decreases |tokens|
  {
    if tokens != [] {
      assert tokens[..0] == [];
      if v.Obj? {
        var next := Get(v, tokens[0]);
        RequiredMeaning(next, tokens[1..]);
        assert forall k | 1 <= k < |tokens| ::
            tokens[..k][0] == tokens[0] && tokens[..k][1..] == tokens[1..][..k - 1];
        if RequiredAt(v, tokens).MissingObjectPath? {
          var k :| 0 <= k < |tokens[1..]| && !DigTokens(next, tokens[1..][..k]).Obj?;
          assert !DigTokens(v, tokens[..k + 1]).Obj?;
        } else {
          assert forall k | 1 <= k < |tokens| :: DigTokens(v, tokens[..k]).Obj?;
        }
      } else {
        assert !DigTokens(v, tokens[..0]).Obj?;
      }
    }
  }

  /** The strict and the lenient reader agree: one succeeds with a number exactly when the other finds it. */
  lemma StrictAgreesWithLenient(v: Json, key: string, x: real)
    ensures RequiredAt(v, Tokens(key)) == Value(x) <==> NumberAt(v, [key]) == Some(x)
  {
    RequiredMeaning(v, Tokens(key));
    assert [key][1..] == [];
  }
}
