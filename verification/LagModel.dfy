/** The interactive stream smoke: a deterministic lag model and the p95 it reports. */
module LagModel {
  import opened Sequences
  import opened Numbers
  import opened Percentiles

  /** Triangle-wave jitter: from 1 at multiples of 14 down to 0 half way between. */
  function Offset(idx: nat): real {
    var d := idx % 14 - 7;
    (if d < 0 then -d else d) as real / 7.0
  }

  function Lag(base: real, offset: real, jitter: real): real { base + Part(offset, jitter) }

  function Sample(idx: nat, base: real, jitter: real): real { Round3(Lag(base, Offset(idx), jitter)) }

  function Samples(n: nat, base: real, jitter: real): (xs: seq<real>)
    ensures |xs| == n && forall i | 0 <= i < n :: xs[i] == Sample(i, base, jitter)
  {
    seq(n, i requires 0 <= i < n => Sample(i, base, jitter))
  }

  // ------------------------------------------------------------------- sorting

  function Insert(x: real, xs: seq<real>): seq<real> {
    if xs == [] || x <= xs[0] then [x] + xs else [xs[0]] + Insert(x, xs[1..])
  }

  /** Python's `sorted`. */
  function Sort(xs: seq<real>): seq<real> {
    if xs == [] then [] else Insert(xs[0], Sort(xs[1..]))
  }

  lemma {:induction false} InsertKeeps(x: real, xs: seq<real>)
    ensures multiset(Insert(x, xs)) == multiset(xs) + multiset{x} && |Insert(x, xs)| == |xs| + 1
  {
    if xs != [] && x > xs[0] {
      InsertKeeps(x, xs[1..]);
      assert xs == [xs[0]] + xs[1..];
    }
  }

  lemma {:induction false} InsertSorts(x: real, xs: seq<real>)
    requires Sorted(xs)
    ensures Sorted(Insert(x, xs))
  {
    if xs != [] && x > xs[0] {
      var rest := Insert(x, xs[1..]);
      InsertSorts(x, xs[1..]);
      InsertKeeps(x, xs[1..]);
      forall i | 0 <= i < |rest| ensures xs[0] <= rest[i] {
        assert rest[i] in multiset(rest);
        assert rest[i] == x || rest[i] in xs[1..];
      }
    }
  }

  lemma {:induction false} SortKeeps(xs: seq<real>)
    ensures multiset(Sort(xs)) == multiset(xs) && |Sort(xs)| == |xs|
  {
    if xs != [] {
      SortKeeps(xs[1..]);
      InsertKeeps(xs[0], Sort(xs[1..]));
      assert xs == [xs[0]] + xs[1..];
    }
  }

  lemma {:induction false} SortOrders(xs: seq<real>)
    ensures Sorted(Sort(xs))
  {
    if xs != [] {
      SortOrders(xs[1..]);
      InsertSorts(xs[0], Sort(xs[1..]));
    }
  }

  /** Sorting is determined by what it promises: an ordered rearrangement. */
  lemma SortSorts(xs: seq<real>)
    ensures Sorted(Sort(xs)) && multiset(Sort(xs)) == multiset(xs) && |Sort(xs)| == |xs|
  {
    SortKeeps(xs);
    SortOrders(xs);
  }

  // ------------------------------------------------------------------ the report

  datatype Outcome = SampleSizeNotPositive | NegativeLag | Reported(p95: real, sampleCount: int)

  function P95(n: nat, base: real, jitter: real): real
    requires n > 0
  {
    SortSorts(Samples(n, base, jitter));
    Round3(Percentile(Sort(Samples(n, base, jitter)), 95.0).value)
  }

  method BuildPayload(sampleSize: int, base: real, jitter: real) returns (r: Outcome)
    ensures r == if sampleSize <= 0 then SampleSizeNotPositive
                 else if base < 0.0 || jitter < 0.0 then NegativeLag
                 else Reported(P95(sampleSize, base, jitter), sampleSize)
    ensures r.Reported? ==> Round3(base) <= r.p95 <= Round3(base + jitter)
  {
    if sampleSize <= 0 { return SampleSizeNotPositive; }
    if base < 0.0 || jitter < 0.0 { return NegativeLag; }
    var samples: seq<real> := [];
    for idx := 0 to sampleSize
      invariant samples == Samples(idx, base, jitter)
    {
      assert Samples(idx + 1, base, jitter) == Samples(idx, base, jitter) + [Sample(idx, base, jitter)];
      samples := samples + [Round3(Lag(base, Offset(idx), jitter))];
    }
    SortSorts(samples);
    P95Bounds(sampleSize, base, jitter);
    var p95 := Percentile(Sort(samples), 95.0);
    return Reported(Round3(p95.value), sampleSize);
  }

  lemma JitterBounds(base: real, w: real, jitter: real)
    requires 0.0 <= w <= 1.0 && jitter >= 0.0
    ensures Round3(base) <= Round3(Lag(base, w, jitter)) <= Round3(base + jitter)
    ensures w == 1.0 ==> Lag(base, w, jitter) == base + jitter
  {
    Scaled(w, jitter);
    Round3Monotone(base, Lag(base, w, jitter));
    Round3Monotone(Lag(base, w, jitter), base + jitter);
  }

  lemma OffsetRange(idx: nat)
    ensures 0.0 <= Offset(idx) <= 1.0
    ensures idx % 14 == 0 ==> Offset(idx) == 1.0
  {
  }

  /** The wave: it starts at its peak, repeats every fourteen samples, is at zero half way, and moves by
      one seventh from each sample to the next, down before the middle and up after it. */
  lemma WaveShape(idx: nat)
    ensures Offset(0) == 1.0 && Offset(7) == 0.0 && Offset(idx + 14) == Offset(idx)
    ensures Offset(idx) - Offset(idx + 1) == if idx % 14 < 7 then 1.0 / 7.0 else -1.0 / 7.0
  {
  }

  lemma SampleBounds(idx: nat, base: real, jitter: real)
    requires jitter >= 0.0
    ensures Round3(base) <= Sample(idx, base, jitter) <= Round3(base + jitter)
    ensures idx % 14 == 0 ==> Sample(idx, base, jitter) == Round3(base + jitter)
  {
    OffsetRange(idx);
    JitterBounds(base, Offset(idx), jitter);
  }

  lemma SortedMember(xs: seq<real>, k: nat) returns (i: nat)
    requires k < |xs|
    ensures i < |xs| && k < |Sort(xs)| && Sort(xs)[k] == xs[i]
  {
    SortSorts(xs);
    assert Sort(xs)[k] in multiset(xs);
    i :| 0 <= i < |xs| && xs[i] == Sort(xs)[k];
  }

  lemma SortedSamplesBounded(n: nat, base: real, jitter: real, k: nat)
    requires k < n && jitter >= 0.0
    ensures k < |Sort(Samples(n, base, jitter))|
    ensures Round3(base) <= Sort(Samples(n, base, jitter))[k] <= Round3(base + jitter)
  {
    var i := SortedMember(Samples(n, base, jitter), k);
    SampleBounds(i, base, jitter);
  }

  /** For every accepted input the reported p95 stays between the rounded base and the rounded peak. */
  lemma P95Bounds(n: nat, base: real, jitter: real)
    requires n > 0 && jitter >= 0.0
    ensures Round3(base) <= P95(n, base, jitter) <= Round3(base + jitter)
  {
    var ys := Sort(Samples(n, base, jitter));
    SortSorts(Samples(n, base, jitter));
    SortedSamplesBounded(n, base, jitter, 0);
    SortedSamplesBounded(n, base, jitter, n - 1);
    PercentileInRange(ys, 95.0);
    var p := Percentile(ys, 95.0).value;
    Round3Monotone(Round3(base), p);
    Round3Monotone(p, Round3(base + jitter));
    Round3Idempotent(base);
    Round3Idempotent(base + jitter);
  }

  /** The reported p95 is a whole number of thousandths, nearest to the point that lies 95% of the way
      through the sorted sample: `parts` twentieths of the way from sample `k` to the next. */
  lemma P95IsInterpolated(n: nat, base: real, jitter: real, k: nat, parts: nat)
    requires k + 1 < n && parts < 20 && 19 * (n - 1) == 20 * k + parts
    ensures |Sort(Samples(n, base, jitter))| == n && OnGrid(P95(n, base, jitter))
    ensures var ys, w := Sort(Samples(n, base, jitter)), parts as real / 20.0;
            -0.0005 <= P95(n, base, jitter) - Mix(ys[k], ys[k + 1], w) <= 0.0005
  {
    var ys, w := Sort(Samples(n, base, jitter)), parts as real / 20.0;
    SortSorts(Samples(n, base, jitter));
    TwentiethsOfHundred(n, k, parts);
    PercentileIsMix(ys, 95.0, k, w);
    RoundsNear(Percentile(ys, 95.0).value);
    Round3OnGrid(Percentile(ys, 95.0).value);
  }

  lemma TwentiethsOfHundred(n: nat, k: nat, parts: nat)
    requires n > 0 && 19 * (n - 1) == 20 * k + parts
    ensures 95.0 * (n - 1) as real == 100.0 * (k as real + parts as real / 20.0)
  {
    assert 19.0 * (n - 1) as real == (19 * (n - 1)) as real == 20.0 * k as real + parts as real;
  }

  lemma RoundsNear(x: real)
    ensures -0.0005 <= Round3(x) - x <= 0.0005
  {
    RoundIsNearest(x * 1000.0);
  }

  // ------------------------------------------------------ the p95 is the peak

  /** How many of the first `n` samples sit on the peak of the wave: one in every 14, rounded up. */
  function Peaks(n: nat): nat { (n + 13) / 14 }

  lemma PeaksStep(n: nat)
    requires n > 0
    ensures Peaks(n) == Peaks(n - 1) + if (n - 1) % 14 == 0 then 1 else 0
  {
  }

  lemma SamplesGrow(n: nat, base: real, jitter: real, x: real)
    requires n > 0
    ensures multiset(Samples(n, base, jitter))[x]
         == multiset(Samples(n - 1, base, jitter))[x] + if Sample(n - 1, base, jitter) == x then 1 else 0
  {
    assert Samples(n, base, jitter) == Samples(n - 1, base, jitter) + [Sample(n - 1, base, jitter)];
  }

  lemma {:induction false} PeaksCounted(n: nat, base: real, jitter: real)
    requires jitter >= 0.0
    ensures multiset(Samples(n, base, jitter))[Round3(base + jitter)] >= Peaks(n)
  {
    if n > 0 {
      PeaksCounted(n - 1, base, jitter);
      SamplesGrow(n, base, jitter, Round3(base + jitter));
      SampleBounds(n - 1, base, jitter);
      PeaksStep(n);
    }
  }

  /** In a sorted sample bounded by `top`, the copies of `top` fill the end. */
  lemma {:induction false} TopFillsEnd(ys: seq<real>, top: real, i: nat)
    requires Sorted(ys) && (forall k | 0 <= k < |ys| :: ys[k] <= top)
    requires i < |ys| && i >= |ys| - multiset(ys)[top]
    ensures ys[i] == top
  {
    var body, last := Init(ys), Last(ys);
    assert ys == body + [last];
    if last == top && i < |body| {
      TopFillsEnd(body, top, i);
    }
  }

  /** Once the peak samples reach down to the 95% rank, the reported p95 is exactly the rounded
      peak: it no longer depends on the sample size. */
  lemma P95IsPeak(n: nat, base: real, jitter: real)
    requires n > 0 && jitter >= 0.0 && Rank(95.0, n) >= (n - Peaks(n)) as real
    ensures P95(n, base, jitter) == Round3(base + jitter)
  {
    var ys, top := Sort(Samples(n, base, jitter)), Round3(base + jitter);
    SortSorts(Samples(n, base, jitter));
    PeaksCounted(n, base, jitter);
    forall k | 0 <= k < |ys| ensures ys[k] <= top { SortedSamplesBounded(n, base, jitter, k); }
    RankInRange(95.0, n);
    var lower := Rank(95.0, n).Floor;
    TopFillsEnd(ys, top, lower);
    TopFillsEnd(ys, top, Min(lower + 1, n - 1));
    AtBetween(ys, Rank(95.0, n));
    Round3Idempotent(base + jitter);
  }

  // ------------------------------------------------- and where it is not the peak

  /** In a sorted sample bounded by `top`, nothing before the copies of `top` equals it. */
  lemma {:induction false} BelowTop(ys: seq<real>, top: real, i: nat)
    requires Sorted(ys) && (forall k | 0 <= k < |ys| :: ys[k] <= top)
    requires i < |ys| - multiset(ys)[top]
    ensures ys[i] < top
  {
    var body, last := Init(ys), Last(ys);
    assert ys == body + [last];
    if last == top {
      BelowTop(body, top, i);
    }
  }

  /** With no base and a jitter of seven the samples are the whole numbers of the wave. */
  lemma WholeSample(idx: nat)
    ensures Sample(idx, 0.0, 7.0) == 7.0 <==> idx % 14 == 0
    ensures idx % 14 != 0 ==> Sample(idx, 0.0, 7.0) <= 6.0
  {
    var d := idx % 14 - 7;
    var k := if d < 0 then -d else d;
    assert Lag(0.0, Offset(idx), 7.0) == k as real;
    GridPoint(1000 * k);
    Round3Fixes(k as real);
  }

  lemma {:induction false} WholePeaksExact(n: nat)
    ensures multiset(Samples(n, 0.0, 7.0))[7.0] == Peaks(n)
  {
    if n > 0 {
      WholePeaksExact(n - 1);
      SamplesGrow(n, 0.0, 7.0, 7.0);
      WholeSample(n - 1);
      PeaksStep(n);
    }
  }

  lemma WholeSorted(n: nat, i: nat)
    requires i < n
    ensures |Sort(Samples(n, 0.0, 7.0))| == n && Sort(Samples(n, 0.0, 7.0))[i] <= 7.0
    ensures i < n - Peaks(n) ==> Sort(Samples(n, 0.0, 7.0))[i] <= 6.0
  {
    var xs := Samples(n, 0.0, 7.0);
    SortSorts(xs);
    forall k | 0 <= k < n ensures Sort(xs)[k] <= 7.0 && (Sort(xs)[k] < 7.0 ==> Sort(xs)[k] <= 6.0) {
      var j := SortedMember(xs, k);
      WholeSample(j);
    }
    WholePeaksExact(n);
    if i < n - Peaks(n) { BelowTop(Sort(xs), 7.0, i); }
  }

  /** The weight is a multiple of one twentieth. */
  lemma WeightAtMost(n: nat)
    requires n > 0
    ensures 0.0 <= Rank(95.0, n) - Rank(95.0, n).Floor as real <= 0.95
  {
    var rank := Rank(95.0, n);
    assert 20.0 * rank == (19 * (n - 1)) as real;
    var twentieths := 19 * (n - 1) - 20 * rank.Floor;
    assert twentieths as real == 20.0 * (rank - rank.Floor as real);
    assert twentieths < 20;
  }

  lemma BlendBelow(a: real, b: real, w: real)
    requires a <= 6.0 && b <= 7.0 && 0.0 <= w <= 0.95
    ensures Mix(a, b, w) <= 6.95
  {
    BlendPointwise(a, b, 6.0, 7.0, w);
  }

  lemma P95BelowPeak(n: nat)
    requires n > 0 && Rank(95.0, n) < (n - Peaks(n)) as real
    ensures P95(n, 0.0, 7.0) < Round3(0.0 + 7.0)
  {
    var ys, rank := Sort(Samples(n, 0.0, 7.0)), Rank(95.0, n);
    RankInRange(95.0, n);
    var lower := rank.Floor;
    WholeSorted(n, lower);
    WholeSorted(n, Min(lower + 1, n - 1));
    WeightAtMost(n);
    BlendBelow(ys[lower], ys[Min(lower + 1, n - 1)], rank - lower as real);
    Round3Monotone(Percentile(ys, 95.0).value, 6.95);
    GridPoint(6950);
    Round3Fixes(6.95);
    GridPoint(7000);
    Round3Fixes(7.0);
  }

  /** The sample sizes at which the peak samples reach down to the 95% rank. */
  predicate PeaksReachRank(n: nat) { n == 1 || 15 <= n <= 21 || 29 <= n <= 41 || n >= 43 }

  lemma PeaksReachRankMeaning(n: nat)
    requires n > 0
    ensures PeaksReachRank(n) <==> Rank(95.0, n) >= (n - Peaks(n)) as real
  {
    assert 100.0 * Rank(95.0, n) == (95 * (n - 1)) as real;
    assert Rank(95.0, n) >= (n - Peaks(n)) as real <==> 20 * Peaks(n) >= n + 19;
    assert 14 * Peaks(n) >= n && 14 * Peaks(n) <= n + 13;
  }

  /** Exactly at these sizes, 43 and more and the default of 100 among them, the reported p95 is the
      rounded peak whatever the base and the jitter: it tells nothing about the sample. */
  lemma P95IsPeakIff(n: nat)
    requires n > 0
    ensures PeaksReachRank(n) <==>
              forall base: real, jitter: real | base >= 0.0 && jitter >= 0.0 ::
                P95(n, base, jitter) == Round3(base + jitter)
  {
    PeaksReachRankMeaning(n);
    if PeaksReachRank(n) {
      forall base: real, jitter: real | base >= 0.0 && jitter >= 0.0
        ensures P95(n, base, jitter) == Round3(base + jitter)
      {
        P95IsPeak(n, base, jitter);
      }
    } else {
      P95BelowPeak(n);
    }
  }
}
