/** The evidence producers of phases 07 and 08: scripts that turn measurements into gate artifacts. */
module Producers {
  import opened Text
  import opened Options
  import opened Json
  import opened Numbers
  import opened GateReport

  /** A numeric input: the paths it may be read from, first hit first, and its built-in default. */
  datatype Field = Field(keys: seq<string>, default: real)

  function InMetrics(key: string): string { "candidate_metrics." + key }
  function InBaseline(key: string): string { "baseline_metrics." + key }
  function InContext(key: string): string { "context." + key }

  datatype Formula = Reduction | Percent | PerThousand | Count

  /** One producer script. The scripts share their program and differ in these constants. */
  datatype Producer = Producer(
    name: string,
    phase: Phase,
    formula: Formula,
    subject: Field,              // the measured quantity, read from the candidate file
    reference: Field,            // what it is compared with
    referenceInBaseline: bool,   // whether that is read from the baseline file
    veto: seq<string>,           // a candidate count that must be zero besides, if any
    roundsFirst: bool)           // whether the verdict is taken on the rounded metric
  {
    /** What every proof below needs to know about a script. */
    ghost predicate WellFormed() {
      && name != "" && Trimmed(name) && name in phase.required
      && subject.default >= 0.0 && reference.default > 0.0
      && (!roundsFirst ==> formula.Count?)
      && (!phase.statusCounts ==> roundsFirst && veto == [])
    }
  }

  const RENDER_FANOUT_PROFILE := Producer("render_fanout_profile", PHASE_08, Reduction,
    Field([InMetrics("component_invalidation_count"), InMetrics("component_invalidations"),
           "component_invalidation_count", "value"], 6175.0),
    Field([InBaseline("component_invalidation_count"), InBaseline("component_invalidations"),
           InMetrics("component_invalidation_count"), "value"], 9500.0),
    true, [], true)

  const STREAM_RESILIENCE_SCENARIO := Producer("stream_resilience_scenario", PHASE_08, Percent,
    Field([InMetrics("forced_reload_count"), InMetrics("forced_reloads"), "forced_reload_count"], 3.0),
    Field([InMetrics("turn_count"), InMetrics("total_turns"), "turn_count"], 150.0),
    false,
    [InMetrics("transient_reconnect_forced_reload_count"),
     InMetrics("transient_reconnect_unnecessary_forced_reload"),
     InContext("transient_reconnect_forced_reload_count")],
    true)

  const RELOAD_REASON_AUDIT := Producer("reload_reason_audit", PHASE_08, Count,
    Field([InMetrics("unclassified_reload_reason_events"),
           InMetrics("unclassified_forced_reload_reason_count"),
           "unclassified_reload_reason_events", "value"], 0.0),
    Field([], 1.0), false,
    [InMetrics("invalid_forced_reason_count"),
     InMetrics("invalid_forced_reload_reason_count"),
     InContext("invalid_forced_reason_count")],
    false)

  const STATE_HOT_PATH_BENCHMARK := Producer("state_hot_path_benchmark", PHASE_07, Reduction,
    Field([InMetrics("apply_duration_p95_ms"), "apply_duration_p95_ms", "value"], 18.8),
    Field([InBaseline("apply_duration_p95_ms"), InMetrics("apply_duration_p95_ms"), "value"], 28.0),
    true, [], true)

  const STATE_HOT_PATH_TRACE := Producer("state_hot_path_trace", PHASE_07, PerThousand,
    Field([InContext("global_sort_invocations"), InMetrics("global_sort_invocations")], 12.0),
    Field([InContext("total_events"), InMetrics("total_events")], 4000.0),
    false, [], true)

  const REDUCER_IDENTITY_TESTS := Producer("reducer_identity_tests", PHASE_07, Count,
    Field([InContext("identity_break_cases"), InMetrics("identity_break_cases"), "value"], 0.0),
    Field([], 1.0), false, [], true)

  lemma ScriptsAreWellFormed()
    ensures RENDER_FANOUT_PROFILE.WellFormed() && STREAM_RESILIENCE_SCENARIO.WellFormed()
    ensures RELOAD_REASON_AUDIT.WellFormed() && STATE_HOT_PATH_BENCHMARK.WellFormed()
    ensures STATE_HOT_PATH_TRACE.WellFormed() && REDUCER_IDENTITY_TESTS.WellFormed()
  {
  }

  // ------------------------------------------------------------- gate contract

  datatype Contract = Contract(metric: string, op: Op, target: real)

  predicate Names(show: Renderer, entry: Json, source: string) {
    entry.Obj? && TextOf(show, Get(entry, "source")) == source
  }

  function ParseContract(show: Renderer, entry: Json): Result<Contract>
    requires entry.Obj?
  {
    var metric := TextOf(show, Get(entry, "metric"));
    var op := ParseOp(TextOf(show, Get(entry, "operator")));
    var target := Get(entry, "target");
    if metric == "" then Err(MissingMetric)
    else if op.None? then Err(UnsupportedOperator)
    else if !target.Num? then Err(MissingTarget)
    else Ok(Contract(metric, op.value, target.n))
  }

  /** The contract of a source: its first entry decides. */
  function ContractOf(show: Renderer, entries: seq<Json>, source: string): Result<Contract> {
    if entries == [] then Err(MissingGateForSource)
    else if Names(show, entries[0], source) then ParseContract(show, entries[0])
    else ContractOf(show, entries[1..], source)
  }

  method GateContract(show: Renderer, files: Files, gatesFile: string, producer: Producer) returns (r: Result<Contract>)
    ensures r == (var entries := PhaseEntries(files, gatesFile, producer.phase.id);
                  if entries.Err? then Err(entries.error) else ContractOf(show, entries.value, producer.name))
  {
    var entries :- PhaseEntries(files, gatesFile, producer.phase.id);
    assert entries[0..] == entries;
    for i := 0 to |entries|
      invariant ContractOf(show, entries, producer.name) == ContractOf(show, entries[i..], producer.name)
    {
      assert entries[i..][1..] == entries[i + 1..];
      if Names(show, entries[i], producer.name) {
        return ParseContract(show, entries[i]);
      }
    }
    return Err(MissingGateForSource);
  }

  // ------------------------------------------------------------ evidence inputs

  datatype Inputs = Inputs(candidate: Option<string>, allowSynthetic: bool,
                           commitSha: Option<string>, baseline: Option<string>)

  datatype Evidence = Evidence(mode: string, eligible: bool, path: Option<string>, sha: string)

  function ResolveEvidence(files: Files, inputs: Inputs): Result<Evidence> {
    var sha := if inputs.commitSha.Some? then Strip(inputs.commitSha.value) else "";
    match inputs.candidate
    case None =>
      if inputs.allowSynthetic then Ok(Evidence("synthetic", false, None, "synthetic-local"))
      else Err(MissingCandidate)
    case Some(path) =>
      if path !in files then Err(FileMissing)
      else if sha == "" then Err(MissingCommitSha)
      else Ok(Evidence("candidate", true, Some(path), sha))
  }

  // --------------------------------------------------------------- measurements

  function Reading(payload: Option<Json>, keys: seq<string>): Option<real> {
    if payload.None? then None else NumberAt(payload.value, keys)
  }

  function NonNegativeOr(found: Option<real>, default: real): real {
    if found.Some? && found.value >= 0.0 then found.value else default
  }

  function PositiveOr(found: Option<real>, default: real): (r: real)
    ensures default > 0.0 ==> r > 0.0
  {
    if found.Some? && found.value > 0.0 then found.value else default
  }

  function Percentage(numerator: real, denominator: real): real
    requires denominator > 0.0
  {
    numerator / denominator * 100.0
  }

  function RatePer1000(count: real, total: real): real
    requires total > 0.0
  {
    count / total * 1000.0
  }

  function Compute(formula: Formula, subject: real, reference: real): real
    requires reference > 0.0
  {
    match formula
    case Reduction => ReductionPct(reference, subject)
    case Percent => Percentage(subject, reference)
    case PerThousand => RatePer1000(subject, reference)
    case Count => subject
  }

  lemma Share(part: real, whole: real) returns (share: real)
    requires whole > 0.0
    ensures share == part / whole && share * whole == part
  {
    share := part / whole;
  }

  lemma SharesAddUp(a: real, b: real, x: real, y: real, whole: real)
    requires whole > 0.0 && a * whole == x && b * whole == y && x + y == whole
    ensures a + b == 1.0
  {
    assert (a + b - 1.0) * whole == 0.0;
  }

  /** How the formulas relate: a percentage recovers its numerator, a reduction is what is missing
      from one hundred percent, and a rate per thousand is ten times the percentage. */
  lemma FormulasRelate(subject: real, reference: real)
    requires reference > 0.0
    ensures Compute(Percent, subject, reference) * reference == 100.0 * subject
    ensures Compute(Reduction, subject, reference) == 100.0 - Compute(Percent, subject, reference)
    ensures Compute(PerThousand, subject, reference) == 10.0 * Compute(Percent, subject, reference)
  {
    var share := Share(subject, reference);
    var rest := Share(reference - subject, reference);
    SharesAddUp(share, rest, subject, reference - subject, reference);
  }

  /** The metric of a script, before any rounding. */
  function Metric(producer: Producer, baseline: Option<Json>, candidate: Option<Json>): real
    requires producer.reference.default > 0.0
  {
    var subject := NonNegativeOr(Reading(candidate, producer.subject.keys), producer.subject.default);
    var source := if producer.referenceInBaseline then baseline else candidate;
    var reference := PositiveOr(Reading(source, producer.reference.keys), producer.reference.default);
    Compute(producer.formula, subject, reference)
  }

  /** The extra conjunct some scripts put on their verdict. */
  predicate PolicyHolds(producer: Producer, candidate: Option<Json>) {
    NonNegativeOr(Reading(candidate, producer.veto), 0.0) <= 0.0
  }

  datatype Measurement = Measurement(value: real, passed: bool)

  /** What a script reports and the verdict beside it. The reload audit judges the raw count and
      only then rounds; every other script rounds first and judges the rounded metric. */
  function Reported(producer: Producer, metric: real, policy: bool, contract: Contract): Measurement {
    var judged := if producer.roundsFirst then Round3(metric) else metric;
    Measurement(Round3(metric), Evaluate(contract.op, judged, contract.target) && policy)
  }

  // ------------------------------------------------------------------ artifacts

  function OpText(op: Op): (text: string)
    ensures ParseOp(text) == Some(op)
  {
    match op case Gte => "gte" case Lte => "lte" case Eq => "eq"
  }

  function Verdict(passed: bool): string { if passed then "pass" else "fail" }

  function Artifact(producer: Producer, evidence: Evidence, contract: Contract, m: Measurement): Json {
    Obj(map[
      "phase" := Str(producer.phase.id),
      "source" := Str(producer.name),
      "evidence_mode" := Str(evidence.mode),
      "gate_eligible" := Bool(evidence.eligible),
      "status" := Str(Verdict(m.passed)),
      "metric" := Str(contract.metric),
      "value" := Num(m.value),
      "target" := Num(contract.target),
      "operator" := Str(OpText(contract.op)),
      "pass" := Bool(m.passed),
      "context" := Obj(map[
        "candidate_path" := if evidence.path.Some? then Str(evidence.path.value) else Null,
        "candidate_commit_sha" := Str(evidence.sha)
      ])
    ])
  }

  function LoadOptional(files: Files, path: Option<string>): Result<Option<Json>> {
    if path.None? then Ok(None)
    else
      var payload :- LoadJson(files, path.value);
      Ok(Some(payload))
  }

  /** The parsed baseline and candidate, as far as the script reads them. */
  function LoadReadings(producer: Producer, files: Files, baseline: Option<string>, candidate: Option<string>)
    : Result<(Option<Json>, Option<Json>)>
  {
    var present := producer.referenceInBaseline && baseline.Some? && baseline.value in files;
    var before :- LoadOptional(files, if present then baseline else None);
    var after :- LoadOptional(files, candidate);
    Ok((before, after))
  }

  /** `_build_payload`: resolve the inputs, read the files, measure, and describe the result. */
  function BuildPayload(producer: Producer, files: Files, contract: Contract, inputs: Inputs): Result<Json>
    requires producer.reference.default > 0.0
  {
    var evidence :- ResolveEvidence(files, inputs);
    var (baseline, candidate) :- LoadReadings(producer, files, inputs.baseline, evidence.path);
    var m := Reported(producer, Metric(producer, baseline, candidate), PolicyHolds(producer, candidate), contract);
    var metadata :- LoadOptional(files, inputs.baseline);
    Ok(Artifact(producer, evidence, contract, m))
  }

  /** The measuring part in the script's own form: built-in numbers are overwritten by what the
      parsed files provide. */
  method Measure(producer: Producer, baseline: Option<Json>, candidate: Option<Json>)
    returns (metric: real, policyPass: bool)
    requires producer.reference.default > 0.0
    ensures metric == Metric(producer, baseline, candidate) && policyPass == PolicyHolds(producer, candidate)
  {
    var subject, reference, invalid := producer.subject.default, producer.reference.default, 0.0;
    var source := if producer.referenceInBaseline then baseline else candidate;
    if source.Some? {
      var extracted := FirstNumber(source.value, producer.reference.keys);
      if extracted.Some? && extracted.value > 0.0 { reference := extracted.value; }
    }
    if candidate.Some? {
      var extracted := FirstNumber(candidate.value, producer.subject.keys);
      if extracted.Some? && extracted.value >= 0.0 { subject := extracted.value; }
      extracted := FirstNumber(candidate.value, producer.veto);
      if extracted.Some? && extracted.value >= 0.0 { invalid := extracted.value; }
    }
    metric, policyPass := Compute(producer.formula, subject, reference), invalid <= 0.0;
  }

  method ProduceArtifact(producer: Producer, files: Files, contract: Contract, inputs: Inputs) returns (r: Result<Json>)
    requires producer.reference.default > 0.0
    ensures r == BuildPayload(producer, files, contract, inputs)
  {
    var evidence :- ResolveEvidence(files, inputs);
    var before, after := None, None;
    if producer.referenceInBaseline && inputs.baseline.Some? && inputs.baseline.value in files {
      var payload :- LoadJson(files, inputs.baseline.value);
      before := Some(payload);
    }
    if evidence.path.Some? {
      var payload :- LoadJson(files, evidence.path.value);
      after := Some(payload);
    }
    var metric, policyPass := Measure(producer, before, after);
    if inputs.baseline.Some? {
      var metadata :- LoadJson(files, inputs.baseline.value);
    }
    return Ok(Artifact(producer, evidence, contract, Reported(producer, metric, policyPass, contract)));
  }

  /** In candidate mode a producer fails only for its inputs: once the candidate is a readable
      object, the commit SHA is not blank and the baseline is readable, it writes an artifact. */
  lemma CandidateBuildSucceeds(producer: Producer, files: Files, contract: Contract, inputs: Inputs)
    requires inputs.candidate.Some? && producer.reference.default > 0.0
    ensures BuildPayload(producer, files, contract, inputs).Ok? <==>
              && LoadJson(files, inputs.candidate.value).Ok?
              && inputs.commitSha.Some? && !AllSpace(inputs.commitSha.value)
              && BaselineReadable(files, inputs.baseline)
  {
    if inputs.commitSha.Some? { StripBlank(inputs.commitSha.value); }
  }
}
