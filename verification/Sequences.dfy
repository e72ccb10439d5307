/** Sequence vocabulary shared by the models. */
module Sequences {

  function Init<T>(s: seq<T>): seq<T>
    requires s != []
  {
    s[..|s| - 1]
  }

  function Last<T>(s: seq<T>): T
    requires s != []
  {
    s[|s| - 1]
  }

  /** How many elements carry a flag. */
  function Count<T>(flag: T -> bool, xs: seq<T>): nat {
    if xs == [] then 0 else Count(flag, Init(xs)) + if flag(Last(xs)) then 1 else 0
  }

  lemma {:induction false} CountAll<T>(flag: T -> bool, xs: seq<T>)
    ensures Count(flag, xs) <= |xs|
    ensures Count(flag, xs) == |xs| <==> forall i | 0 <= i < |xs| :: flag(xs[i])
  {
    if xs != [] { CountAll(flag, Init(xs)); }
  }

  lemma CountAppend<T>(flag: T -> bool, xs: seq<T>, x: T)
    ensures Count(flag, xs + [x]) == Count(flag, xs) + if flag(x) then 1 else 0
  {
    assert Init(xs + [x]) == xs;
  }

  lemma {:induction false} CountUpdate<T>(flag: T -> bool, xs: seq<T>, i: nat, x: T)
    requires i < |xs|
    ensures Count(flag, xs[i := x]) + (if flag(xs[i]) then 1 else 0) == Count(flag, xs) + if flag(x) then 1 else 0
  {
    if i == |xs| - 1 {
      assert Init(xs[i := x]) == Init(xs);
    } else {
      assert Init(xs[i := x]) == Init(xs)[i := x];
      CountUpdate(flag, Init(xs), i, x);
    }
  }
}
