/** Shared arithmetic, on exact numbers. */
module Numbers {

  function Max(a: int, b: int): int { if a > b then a else b }

  /** `_reduction_pct`. */
  function ReductionPct(baseline: real, candidate: real): real
    requires baseline > 0.0
  {
    (baseline - candidate) / baseline * 100.0
  }

  // Python's `round`: to the nearest value, ties to even.

  function RoundHalfEven(y: real): int {
    var f := y.Floor;
    var d := y - f as real;
    if d < 0.5 then f else if d > 0.5 then f + 1 else if f % 2 == 0 then f else f + 1
  }

  /** `round(x, 3)`. */
  function Round3(x: real): real { RoundHalfEven(x * 1000.0) as real / 1000.0 }

  /** Multiples of one thousandth. */
  predicate OnGrid(x: real) { (x * 1000.0).Floor as real == x * 1000.0 }

  /** No integer is closer, and a tie goes to an even one. */
  lemma RoundIsNearest(y: real)
    ensures -0.5 <= RoundHalfEven(y) as real - y <= 0.5
    ensures y - y.Floor as real == 0.5 ==> RoundHalfEven(y) % 2 == 0
  {
  }

  lemma RoundMonotone(x: real, y: real)
    requires x <= y
    ensures RoundHalfEven(x) <= RoundHalfEven(y)
  {
    assert x.Floor <= y.Floor;
  }

  lemma Round3Monotone(x: real, y: real)
    requires x <= y
    ensures Round3(x) <= Round3(y)
  {
    RoundMonotone(x * 1000.0, y * 1000.0);
  }

  lemma Round3OnGrid(x: real)
    ensures OnGrid(Round3(x))
  {
    var k := RoundHalfEven(x * 1000.0);
    GridPoint(k);
  }

  lemma GridPoint(k: int)
    ensures OnGrid(k as real / 1000.0)
  {
    assert k as real / 1000.0 * 1000.0 == k as real;
  }

  /** Exactly the grid points are left alone. */
  lemma Round3Fixes(x: real)
    ensures Round3(x) == x <==> OnGrid(x)
  {
    Round3OnGrid(x);
  }

  lemma Round3Idempotent(x: real)
    ensures Round3(Round3(x)) == Round3(x)
  {
    Round3OnGrid(x);
    Round3Fixes(Round3(x));
  }
}
