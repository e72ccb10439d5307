/** Interpolated percentiles over a sorted sample. */
module Percentiles {
  import opened Sequences
  import opened Options

  ghost predicate Sorted(xs: seq<real>) {
    forall i, j | 0 <= i < j < |xs| :: xs[i] <= xs[j]
  }

  function Part(w: real, x: real): real { w * x }

  lemma NonNegative(x: real, y: real)
    requires x >= 0.0 && y >= 0.0
    ensures x * y >= 0.0
  {
  }

  lemma Scaled(w: real, x: real)
    requires 0.0 <= w <= 1.0 && x >= 0.0
    ensures 0.0 <= Part(w, x) <= x
  {
    NonNegative(w, x);
    NonNegative(1.0 - w, x);
    assert (1.0 - w) * x == x - w * x;
  }

  lemma PartMonotone(v: real, w: real, x: real)
    requires v <= w && x >= 0.0
    ensures Part(v, x) <= Part(w, x)
  {
    NonNegative(w - v, x);
    assert (w - v) * x == w * x - v * x;
  }

  /** The position `pct` of the way through `n` samples. */
  function Rank(pct: real, n: nat): real { Part(pct / 100.0, (n - 1) as real) }

  function Min(a: int, b: int): int { if a < b then a else b }

  function Mix(a: real, b: real, weight: real): real { a * (1.0 - weight) + b * weight }

  /** The sample at a fractional position, interpolated between its two neighbours. */
  function At(xs: seq<real>, rank: real): real
    requires 0.0 <= rank <= (|xs| - 1) as real
  {
    var lower := rank.Floor;
    var upper := Min(lower + 1, |xs| - 1);
    var weight := rank - lower as real;
    Mix(xs[lower], xs[upper], weight)
  }

  lemma RankInRange(pct: real, n: nat)
    requires 0.0 <= pct <= 100.0 && n > 0
    ensures 0.0 <= Rank(pct, n) <= (n - 1) as real
  {
    Scaled(pct / 100.0, (n - 1) as real);
  }

  /** `_percentile`: the empty sample is an error, and the ends are clamped. */
  function Percentile(xs: seq<real>, pct: real): Option<real> {
    if xs == [] then None
    else if pct <= 0.0 then Some(xs[0])
    else if pct >= 100.0 then Some(xs[|xs| - 1])
    else
      RankInRange(pct, |xs|);
      Some(At(xs, Rank(pct, |xs|)))
  }

  // ------------------------------------------------------------- interpolation

  lemma Blend(a: real, b: real, w: real)
    requires a <= b && 0.0 <= w <= 1.0
    ensures a <= Mix(a, b, w) <= b
  {
    assert Mix(a, b, w) == a + Part(w, b - a);
    Scaled(w, b - a);
  }

  lemma BlendMonotone(a: real, b: real, v: real, w: real)
    requires a <= b && 0.0 <= v <= w <= 1.0
    ensures Mix(a, b, v) <= Mix(a, b, w)
  {
    Scaled(w - v, b - a);
    assert Mix(a, b, w) - Mix(a, b, v) == Part(w - v, b - a);
  }

  lemma BlendPointwise(a: real, b: real, c: real, d: real, w: real)
    requires a <= c && b <= d && 0.0 <= w <= 1.0
    ensures Mix(a, b, w) <= Mix(c, d, w)
  {
    Scaled(1.0 - w, c - a);
    Scaled(w, d - b);
    assert Mix(c, d, w) - Mix(a, b, w) == Part(1.0 - w, c - a) + Part(w, d - b);
  }

  /** An interpolated value lies between its two neighbours. */
  lemma AtBetween(xs: seq<real>, rank: real)
    requires Sorted(xs) && 0.0 <= rank <= (|xs| - 1) as real
    ensures xs[rank.Floor] <= At(xs, rank) <= xs[Min(rank.Floor + 1, |xs| - 1)]
  {
    var lower := rank.Floor;
    Blend(xs[lower], xs[Min(lower + 1, |xs| - 1)], rank - lower as real);
  }

  lemma AtMonotone(xs: seq<real>, r: real, s: real)
    requires Sorted(xs) && 0.0 <= r <= s <= (|xs| - 1) as real
    ensures At(xs, r) <= At(xs, s)
  {
    var i, j := r.Floor, s.Floor;
    if i == j {
      BlendMonotone(xs[i], xs[Min(i + 1, |xs| - 1)], r - i as real, s - i as real);
    } else {
      AtBetween(xs, r);
      AtBetween(xs, s);
      assert xs[Min(i + 1, |xs| - 1)] <= xs[j];
    }
  }

  lemma RankMonotone(p: real, q: real, n: nat)
    requires p <= q && n > 0
    ensures Rank(p, n) <= Rank(q, n)
  {
    PartMonotone(p / 100.0, q / 100.0, (n - 1) as real);
  }

  /** Larger percentages give larger percentiles, on the whole real line: inside a segment, across
      segments and at the clamped ends. */
  lemma PercentileMonotone(xs: seq<real>, p: real, q: real)
    requires xs != [] && Sorted(xs) && p <= q
    ensures Percentile(xs, p).value <= Percentile(xs, q).value
  {
    PercentileInRange(xs, p);
    PercentileInRange(xs, q);
    if 0.0 < p && q < 100.0 {
      RankInRange(p, |xs|);
      RankInRange(q, |xs|);
      RankMonotone(p, q, |xs|);
      AtMonotone(xs, Rank(p, |xs|), Rank(q, |xs|));
    }
  }

  lemma PercentileInRange(xs: seq<real>, pct: real)
    requires xs != [] && Sorted(xs)
    ensures xs[0] <= Percentile(xs, pct).value <= xs[|xs| - 1]
  {
    if 0.0 < pct < 100.0 {
      RankInRange(pct, |xs|);
      AtBetween(xs, Rank(pct, |xs|));
    }
  }

  /** The rank is the same share of the way through the sample as the percentage is of one hundred. */
  lemma RankIsShare(pct: real, n: nat)
    requires n > 0
    ensures 100.0 * Rank(pct, n) == pct * (n - 1) as real
  {
    var m := (n - 1) as real;
    assert 100.0 * (pct / 100.0 * m) == (100.0 * (pct / 100.0)) * m;
  }

  lemma PercentileIsMix(xs: seq<real>, pct: real, k: nat, w: real)
    requires 0.0 < pct < 100.0 && k + 1 < |xs| && 0.0 <= w < 1.0
    requires pct * (|xs| - 1) as real == 100.0 * (k as real + w)
    ensures Percentile(xs, pct) == Some(Mix(xs[k], xs[k + 1], w))
  {
    RankIsShare(pct, |xs|);
    RankInRange(pct, |xs|);
    var rank := Rank(pct, |xs|);
    assert rank == k as real + w && rank.Floor == k;
    assert rank - k as real == w && Min(k + 1, |xs| - 1) == k + 1;
  }

  /** Between two neighbouring samples a percentile is the straight line from one to the other: `w` of
      the way from sample `k` to the next it has covered `w` of their difference. */
  lemma PercentileIsLinear(xs: seq<real>, pct: real, k: nat, w: real)
    requires 0.0 < pct < 100.0 && k + 1 < |xs| && 0.0 <= w < 1.0
    requires pct * (|xs| - 1) as real == 100.0 * (k as real + w)
    ensures Percentile(xs, pct) == Some(xs[k] * (1.0 - w) + xs[k + 1] * w)
  {
    PercentileIsMix(xs, pct, k, w);
    MixIsLine(xs[k], xs[k + 1], w);
  }

  lemma MixIsLine(a: real, b: real, w: real)
    ensures Mix(a, b, w) == a * (1.0 - w) + b * w
  {
  }

  /** The middle of two samples is their mean. */
  lemma MiddleOfTwo(xs: seq<real>)
    requires |xs| == 2
    ensures Percentile(xs, 50.0) == Some((xs[0] + xs[1]) / 2.0)
  {
    PercentileIsMix(xs, 50.0, 0, 0.5);
    MixIsLine(xs[0], xs[1], 0.5);
  }

  // ---------------------------------------------------------------- order statistics

  function CountAtMost(xs: seq<real>, x: real): nat {
    if xs == [] then 0 else CountAtMost(Init(xs), x) + if Last(xs) <= x then 1 else 0
  }

  function CountAtLeast(xs: seq<real>, x: real): nat {
    if xs == [] then 0 else CountAtLeast(xs[1..], x) + if xs[0] >= x then 1 else 0
  }

  lemma {:induction false} PrefixCounted(xs: seq<real>, x: real, k: nat)
    requires k <= |xs| && forall i | 0 <= i < k :: xs[i] <= x
    ensures CountAtMost(xs, x) >= k
  {
    if xs != [] { PrefixCounted(Init(xs), x, if k == |xs| then k - 1 else k); }
  }

  lemma {:induction false} SuffixCounted(xs: seq<real>, x: real, k: nat)
    requires k <= |xs| && forall i | k <= i < |xs| :: xs[i] >= x
    ensures CountAtLeast(xs, x) >= |xs| - k
  {
    if xs != [] { SuffixCounted(xs[1..], x, if k == 0 then 0 else k - 1); }
  }

  /** A percentile splits the sample where it claims to: `floor(rank) + 1` samples are at most it,
      and every sample from the upper neighbour on is at least it. */
  lemma PercentileSplitsSample(xs: seq<real>, pct: real)
    requires xs != [] && Sorted(xs) && 0.0 < pct < 100.0
    ensures var lower := Rank(pct, |xs|).Floor;
            && CountAtMost(xs, Percentile(xs, pct).value) >= lower + 1
            && CountAtLeast(xs, Percentile(xs, pct).value) >= |xs| - Min(lower + 1, |xs| - 1)
  {
    var n := |xs|;
    RankInRange(pct, n);
    var lower := Rank(pct, n).Floor;
    AtBetween(xs, Rank(pct, n));
    PrefixCounted(xs, Percentile(xs, pct).value, lower + 1);
    SuffixCounted(xs, Percentile(xs, pct).value, Min(lower + 1, n - 1));
  }

  /** Raising samples never lowers a percentile. */
  lemma PercentilePointwise(xs: seq<real>, ys: seq<real>, pct: real)
    requires xs != [] && |xs| == |ys| && forall i | 0 <= i < |xs| :: xs[i] <= ys[i]
    ensures Percentile(xs, pct).value <= Percentile(ys, pct).value
  {
    if 0.0 < pct < 100.0 {
      RankInRange(pct, |xs|);
      var rank := Rank(pct, |xs|);
      var i := rank.Floor;
      var j := Min(i + 1, |xs| - 1);
      BlendPointwise(xs[i], xs[j], ys[i], ys[j], rank - i as real);
    }
  }

  function Line(a: real, b: real, x: real): real { a * x + b }

  function Affine(xs: seq<real>, a: real, b: real): (ys: seq<real>)
    ensures |ys| == |xs| && forall i | 0 <= i < |xs| :: ys[i] == Line(a, b, xs[i])
  {
    if xs == [] then [] else [Line(a, b, xs[0])] + Affine(xs[1..], a, b)
  }

  lemma LineOfMix(a: real, b: real, x: real, y: real, w: real)
    ensures Mix(Line(a, b, x), Line(a, b, y), w) == Line(a, b, Mix(x, y, w))
  {
    assert a * (x * (1.0 - w) + y * w) == a * (x * (1.0 - w)) + a * (y * w);
  }

  /** Changing units changes a percentile the same way. */
  lemma PercentileAffine(xs: seq<real>, a: real, b: real, pct: real)
    requires xs != []
    ensures Percentile(Affine(xs, a, b), pct) == Some(Line(a, b, Percentile(xs, pct).value))
  {
    if 0.0 < pct < 100.0 {
      RankInRange(pct, |xs|);
      var rank := Rank(pct, |xs|);
      LineOfMix(a, b, xs[rank.Floor], xs[Min(rank.Floor + 1, |xs| - 1)], rank - rank.Floor as real);
    }
  }
}
