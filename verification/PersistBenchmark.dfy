/** The persistence benchmark: an event log with periodic checkpoints against rewriting every event. */
module PersistBenchmark {
  import opened Numbers

  const SNAPSHOT_BYTES := 32768
  const APPEND_BYTES := 1536

  /** `math.ceil(total / interval)`. */
  function CeilDiv(total: int, interval: int): int
    requires interval > 0
  {
    -((-total) / interval)
  }

  /** The counters of one benchmark run, as the script derives them from its three arguments. */
  datatype Costs = Costs(totalEvents: int, interval: int, snapshots: int, baselineBytes: int, candidateBytes: int)

  function Run(turns: int, eventsPerTurn: int, checkpointEvery: int): Costs {
    var total := Max(1, turns) * Max(1, eventsPerTurn);
    var interval := Max(1, checkpointEvery);
    var snapshots := CeilDiv(total, interval);
    Costs(total, interval, snapshots, total * SNAPSHOT_BYTES, total * APPEND_BYTES + snapshots * SNAPSHOT_BYTES)
  }

  lemma TotalPositive(turns: int, eventsPerTurn: int)
    ensures Max(1, turns) * Max(1, eventsPerTurn) >= 1
  {
  }

  lemma CeilDivBounds(total: int, interval: int)
    requires total >= 1 && interval >= 1
    ensures (CeilDiv(total, interval) - 1) * interval < total <= CeilDiv(total, interval) * interval
    ensures CeilDiv(total, interval) >= 1
  {
    var q := (-total) / interval;
    assert -total == q * interval + (-total) % interval;
  }

  lemma MulMonotone(a: int, b: int, k: int)
    requires a <= b && k >= 0
    ensures a * k <= b * k
  {
  }

  /** The snapshot count is the least number of checkpoint intervals that covers all events. */
  lemma SnapshotsAreLeast(turns: int, eventsPerTurn: int, checkpointEvery: int, k: int)
    ensures var c := Run(turns, eventsPerTurn, checkpointEvery);
            c.snapshots * c.interval >= c.totalEvents && (k * c.interval >= c.totalEvents ==> k >= c.snapshots)
  {
    TotalPositive(turns, eventsPerTurn);
    var c := Run(turns, eventsPerTurn, checkpointEvery);
    CeilDivBounds(c.totalEvents, c.interval);
    if k <= c.snapshots - 1 { MulMonotone(k, c.snapshots - 1, c.interval); }
  }

  lemma SnapshotRange(total: int, interval: int)
    requires total >= 1 && interval >= 1
    ensures 1 <= CeilDiv(total, interval) <= total
    ensures interval == 1 ==> CeilDiv(total, interval) == total
    ensures interval >= 2 ==> 2 * CeilDiv(total, interval) <= total + 1
  {
    var s := CeilDiv(total, interval);
    CeilDivBounds(total, interval);
    MulMonotone(1, interval, s - 1);
    if interval >= 2 { MulMonotone(2, interval, s - 1); }
  }

  /** Checkpointing pays off exactly when there is something to save: an interval and a total of at least two. */
  lemma CandidateCheaperIff(turns: int, eventsPerTurn: int, checkpointEvery: int)
    ensures var c := Run(turns, eventsPerTurn, checkpointEvery);
            c.candidateBytes < c.baselineBytes <==> c.interval >= 2 && c.totalEvents >= 2
  {
    TotalPositive(turns, eventsPerTurn);
    var c := Run(turns, eventsPerTurn, checkpointEvery);
    SnapshotRange(c.totalEvents, c.interval);
  }

  lemma SnapshotsAntitone(total: int, i: int, j: int)
    requires total >= 1 && 1 <= i <= j
    ensures CeilDiv(total, j) <= CeilDiv(total, i)
  {
    CeilDivBounds(total, i);
    CeilDivBounds(total, j);
    if CeilDiv(total, i) <= CeilDiv(total, j) - 1 {
      MulMonotone(i, j, CeilDiv(total, i));
      MulMonotone(CeilDiv(total, i), CeilDiv(total, j) - 1, j);
    }
  }

  /** What is written. Arguments below one count as one; each turn adds its events; an append costs 1536
      bytes, a snapshot, like a rewrite, 32768. */
  lemma BytesWritten(turns: int, eventsPerTurn: int, checkpointEvery: int)
    ensures var c := Run(turns, eventsPerTurn, checkpointEvery);
            && (turns <= 1 ==> c.totalEvents == if eventsPerTurn <= 1 then 1 else eventsPerTurn)
            && (turns > 1 ==> c.totalEvents == Run(turns - 1, eventsPerTurn, checkpointEvery).totalEvents
                                               + if eventsPerTurn <= 1 then 1 else eventsPerTurn)
            && c.interval == (if checkpointEvery <= 1 then 1 else checkpointEvery)
            && c.baselineBytes == 32768 * c.totalEvents
            && c.candidateBytes == 1536 * c.totalEvents + 32768 * c.snapshots
  {
  }

  function RewriteReduction(c: Costs): real
    requires c.totalEvents >= 1
  {
    ReductionPct(c.totalEvents as real, c.snapshots as real)
  }

  lemma ReductionOrder(baseline: real, x: real, y: real)
    requires baseline > 0.0 && x <= y
    ensures ReductionPct(baseline, y) <= ReductionPct(baseline, x)
    ensures x <= baseline ==> ReductionPct(baseline, x) >= 0.0
    ensures x > 0.0 ==> ReductionPct(baseline, x) < 100.0
  {
  }

  lemma ReductionOf(baseline: real, x: real)
    requires baseline > 0.0
    ensures ReductionPct(baseline, x) * baseline == 100.0 * (baseline - x)
  {
    var share := (baseline - x) / baseline;
    assert share * baseline == baseline - x;
  }

  /** The reduction is the share of rewrites that the checkpoints save. */
  lemma ReductionIsShare(c: Costs)
    requires c.totalEvents >= 1
    ensures RewriteReduction(c) * c.totalEvents as real == 100.0 * (c.totalEvents - c.snapshots) as real
  {
    ReductionOf(c.totalEvents as real, c.snapshots as real);
  }

  /** The reported write-amplification reduction lies in [0, 100) and never falls when the
      checkpoint interval grows. */
  lemma RewriteReductionOrdered(turns: int, eventsPerTurn: int, i: int, j: int)
    requires i <= j
    ensures var a, b := Run(turns, eventsPerTurn, i), Run(turns, eventsPerTurn, j);
            && a.totalEvents == b.totalEvents >= 1
            && 0.0 <= RewriteReduction(a) <= RewriteReduction(b) < 100.0
  {
    TotalPositive(turns, eventsPerTurn);
    var a, b := Run(turns, eventsPerTurn, i), Run(turns, eventsPerTurn, j);
    SnapshotRange(a.totalEvents, a.interval);
    SnapshotRange(b.totalEvents, b.interval);
    SnapshotsAntitone(a.totalEvents, a.interval, b.interval);
    ReductionOrder(a.totalEvents as real, a.snapshots as real, a.totalEvents as real);
    ReductionOrder(a.totalEvents as real, b.snapshots as real, a.snapshots as real);
  }
}
