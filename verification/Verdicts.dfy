/** What a producer's artifact says, read off its inputs: which numbers count, what is computed from
    them, when the verdict is "pass", and which inputs give no artifact at all. */
module Verdicts {
  import opened Text
  import opened Options
  import opened Json
  import opened Numbers
  import opened GateReport
  import opened Producers
  import opened Agreement

  /** Which entries of the gates file a producer can work with, and what it reads in one. */
  lemma ContractEntryMeaning(show: Renderer, entry: Json)
    requires entry.Obj?
    ensures ParseContract(show, entry).Ok? <==>
              && TextOf(show, Get(entry, "metric")) != "" && Get(entry, "target").Num?
              && TextOf(show, Get(entry, "operator")) in {"gte", "lte", "eq"}
    ensures ParseContract(show, entry).Ok? ==>
              var c := ParseContract(show, entry).value;
              c.metric == TextOf(show, Get(entry, "metric"))
              && forall v :: Meets(c.op, v, c.target) <==> EntryAdmits(show, entry, v)
  {
  }

  // ------------------------------------------------------------------- the readings

  /** A file as the script sees it, if it is given and there. */
  function Seen(files: Files, path: Option<string>): Option<Json> {
    if path.Some? && path.value in files then Some(files[path.value]) else None
  }

  /** The first number the payload holds at one of the paths. */
  ghost predicate Holds(payload: Option<Json>, keys: seq<string>, n: real) {
    payload.Some? && NumberAt(payload.value, keys) == Some(n)
  }

  /** `x` is what the script works with: the number in the file if it is usable, else the built-in one. */
  ghost predicate Taken(payload: Option<Json>, field: Field, usable: real -> bool, x: real) {
    || (Holds(payload, field.keys, x) && usable(x))
    || (x == field.default && forall n | Holds(payload, field.keys, n) :: !usable(n))
  }

  lemma UsableIsTaken(payload: Option<Json>, field: Field, usable: real -> bool, n: real, x: real)
    requires Taken(payload, field, usable, x) && Holds(payload, field.keys, n) && usable(n)
    ensures x == n
  {
  }

  /** A positive count where there should be none. */
  ghost predicate Vetoed(producer: Producer, candidate: Option<Json>) {
    exists n :: Holds(candidate, producer.veto, n) && n > 0.0
  }

  /** What the formula makes of the two numbers, without dividing. */
  ghost predicate Computes(formula: Formula, subject: real, reference: real, metric: real) {
    match formula
    case Reduction => metric * reference == 100.0 * (reference - subject)
    case Percent => metric * reference == 100.0 * subject
    case PerThousand => metric * reference == 1000.0 * subject
    case Count => metric == subject
  }

  lemma ComputeComputes(formula: Formula, subject: real, reference: real)
    requires reference > 0.0
    ensures Computes(formula, subject, reference, Compute(formula, subject, reference))
  {
    FormulasRelate(subject, reference);
    var percent := Compute(Percent, subject, reference);
    match formula
    case Reduction => assert (100.0 - percent) * reference == 100.0 * reference - percent * reference;
    case PerThousand => assert 10.0 * percent * reference == 10.0 * (percent * reference);
    case _ =>
  }

  /** Where the reference number is read. */
  function ReferenceFile(producer: Producer, files: Files, inputs: Inputs): Option<Json> {
    if producer.referenceInBaseline then Seen(files, inputs.baseline) else Seen(files, inputs.candidate)
  }

  lemma FilesRead(producer: Producer, files: Files, inputs: Inputs)
    requires ResolveEvidence(files, inputs).Ok?
    requires LoadReadings(producer, files, inputs.baseline, ResolveEvidence(files, inputs).value.path).Ok?
    ensures var (baseline, candidate) :=
              LoadReadings(producer, files, inputs.baseline, ResolveEvidence(files, inputs).value.path).value;
            && candidate == Seen(files, inputs.candidate)
            && (if producer.referenceInBaseline then baseline else candidate) == ReferenceFile(producer, files, inputs)
  {
  }

  /** The measured number of a run, before rounding. */
  lemma MetricMeaning(producer: Producer, files: Files, c: Contract, inputs: Inputs)
    returns (subject: real, reference: real, metric: real)
    requires producer.reference.default > 0.0 && BuildPayload(producer, files, c, inputs).Ok?
    ensures Taken(Seen(files, inputs.candidate), producer.subject, x => x >= 0.0, subject)
    ensures Taken(ReferenceFile(producer, files, inputs), producer.reference, x => x > 0.0, reference)
    ensures Computes(producer.formula, subject, reference, metric)
    ensures var a := BuildPayload(producer, files, c, inputs).value;
            a == Artifact(producer, ResolveEvidence(files, inputs).value, c,
                          Reported(producer, metric, PolicyHolds(producer, Seen(files, inputs.candidate)), c))
  {
    FilesRead(producer, files, inputs);
    var candidate, source := Seen(files, inputs.candidate), ReferenceFile(producer, files, inputs);
    subject := NonNegativeOr(Reading(candidate, producer.subject.keys), producer.subject.default);
    reference := PositiveOr(Reading(source, producer.reference.keys), producer.reference.default);
    metric := Compute(producer.formula, subject, reference);
    ComputeComputes(producer.formula, subject, reference);
  }

  lemma PolicyMeaning(producer: Producer, candidate: Option<Json>)
    ensures PolicyHolds(producer, candidate) <==> !Vetoed(producer, candidate)
  {
    var found := Reading(candidate, producer.veto);
    if found.Some? { assert Holds(candidate, producer.veto, found.value); }
  }

  lemma RoundedNear(x: real)
    ensures -0.0005 <= Round3(x) - x <= 0.0005 && OnGrid(Round3(x))
  {
    RoundIsNearest(x * 1000.0);
    Round3OnGrid(x);
  }

  /** The whole of it: an artifact reports the metric to the nearest thousandth, and it passes if and
      only if the number it is judged by meets the gate and no count vetoes it. */
  lemma VerdictMeaning(producer: Producer, files: Files, c: Contract, inputs: Inputs, artifact: Json)
    returns (subject: real, reference: real, metric: real, value: real)
    requires producer.reference.default > 0.0 && BuildPayload(producer, files, c, inputs) == Ok(artifact)
    ensures Taken(Seen(files, inputs.candidate), producer.subject, x => x >= 0.0, subject)
    ensures Taken(ReferenceFile(producer, files, inputs), producer.reference, x => x > 0.0, reference)
    ensures Computes(producer.formula, subject, reference, metric)
    ensures artifact.Obj? && Get(artifact, "value") == Num(value)
    ensures OnGrid(value) && -0.0005 <= value - metric <= 0.0005
    ensures Passed(artifact) <==>
              && Meets(c.op, if producer.roundsFirst then value else metric, c.target)
              && !Vetoed(producer, Seen(files, inputs.candidate))
    ensures Get(artifact, "status") == Str(if Passed(artifact) then "pass" else "fail")
  {
    subject, reference, metric := MetricMeaning(producer, files, c, inputs);
    value := Round3(metric);
    RoundedNear(metric);
    PolicyMeaning(producer, Seen(files, inputs.candidate));
    ArtifactFields(producer, ResolveEvidence(files, inputs).value, c,
                   Reported(producer, metric, PolicyHolds(producer, Seen(files, inputs.candidate)), c));
  }

  /** A positive veto count always fails the verdict. */
  lemma VetoFails(producer: Producer, files: Files, c: Contract, inputs: Inputs, artifact: Json, x: real)
    requires producer.reference.default > 0.0 && BuildPayload(producer, files, c, inputs) == Ok(artifact)
    requires Holds(Seen(files, inputs.candidate), producer.veto, x) && x > 0.0
    ensures !Passed(artifact) && Get(artifact, "status") == Str("fail")
  {
    var subject, reference, metric, value := VerdictMeaning(producer, files, c, inputs, artifact);
  }

  // -------------------------------------------------------------------- the artifact

  /** An artifact names the gate it was made for, with the operator as the gates file writes it. */
  lemma ArtifactNamesGate(producer: Producer, files: Files, c: Contract, inputs: Inputs, a: Json)
    requires producer.reference.default > 0.0 && BuildPayload(producer, files, c, inputs) == Ok(a)
    ensures a.Obj? && Get(a, "phase") == Str(producer.phase.id) && Get(a, "source") == Str(producer.name)
    ensures Get(a, "metric") == Str(c.metric) && Get(a, "target") == Num(c.target)
    ensures Get(a, "operator") == Str(if c.op.Gte? then "gte" else if c.op.Lte? then "lte" else "eq")
  {
  }

  /** Without a candidate there is only synthetic evidence, and only when it is allowed; it is marked
      ineligible. */
  lemma SyntheticBuild(producer: Producer, files: Files, c: Contract, inputs: Inputs)
    requires producer.reference.default > 0.0 && inputs.candidate.None?
    ensures BuildPayload(producer, files, c, inputs).Ok? <==>
              inputs.allowSynthetic && BaselineReadable(files, inputs.baseline)
    ensures BuildPayload(producer, files, c, inputs).Ok? ==>
              var a := BuildPayload(producer, files, c, inputs).value;
              && a.Obj? && Get(a, "evidence_mode") == Str("synthetic") && Get(a, "gate_eligible") == Bool(false)
              && Get(a, "context").Obj? && Get(Get(a, "context"), "candidate_path") == Null
  {
  }

  /** No report passes such an artifact. */
  lemma SyntheticJudged(show: Renderer, phase: Phase, producer: Producer, files: Files, c: Contract, inputs: Inputs,
                        gate: Gate)
    requires producer.reference.default > 0.0 && inputs.candidate.None?
    requires BuildPayload(producer, files, c, inputs).Ok?
    ensures var a := BuildPayload(producer, files, c, inputs).value;
            a.Obj? && var source := ReadArtifact(show, a, gate);
                      source.Ok? ==> !Judge(phase, gate, source.value).passed
  {
    SyntheticBuild(producer, files, c, inputs);
    TextOfTrimmed(show, "synthetic");
    SyntheticNeverPasses(phase, show, BuildPayload(producer, files, c, inputs).value, gate);
  }

  /** What is wrong is reported in this order: no candidate, no such file, no commit, no object. */
  lemma BuildErrors(producer: Producer, files: Files, c: Contract, inputs: Inputs)
    requires producer.reference.default > 0.0 && BaselineReadable(files, inputs.baseline)
    ensures BuildPayload(producer, files, c, inputs).Err? ==>
              BuildPayload(producer, files, c, inputs).error ==
              if inputs.candidate.None? then MissingCandidate
              else if inputs.candidate.value !in files then FileMissing
              else if inputs.commitSha.None? || AllSpace(inputs.commitSha.value) then MissingCommitSha
              else NotAnObject
    ensures BuildPayload(producer, files, c, inputs).Ok? <==>
              if inputs.candidate.None? then inputs.allowSynthetic
              else
                && inputs.candidate.value in files && files[inputs.candidate.value].Obj?
                && inputs.commitSha.Some? && !AllSpace(inputs.commitSha.value)
  {
    if inputs.commitSha.Some? { StripBlank(inputs.commitSha.value); }
  }

  // ---------------------------------------------------------------- the scripts by example

  /** The number a script reports in synthetic mode, where it reads no file. */
  function BuiltIn(producer: Producer): Json
    requires producer.reference.default > 0.0
  {
    var r := BuildPayload(producer, map[], Contract("m", Lte, 0.0), Inputs(None, true, None, None));
    if r.Ok? && r.value.Obj? then Get(r.value, "value") else Null
  }

  lemma BuiltInIsMetric(producer: Producer)
    requires producer.reference.default > 0.0
    ensures BuiltIn(producer)
         == Num(Round3(Compute(producer.formula, producer.subject.default, producer.reference.default)))
  {
  }

  lemma RoundsTo(x: real, thousandths: int)
    requires -0.5 < x * 1000.0 - thousandths as real < 0.5
    ensures Round3(x) == thousandths as real / 1000.0
  {
    var k := RoundHalfEven(x * 1000.0);
    RoundIsNearest(x * 1000.0);
    assert -1.0 < k as real - thousandths as real < 1.0;
    assert k == thousandths;
  }

  /** The built-in numbers of the six scripts. */
  lemma BuiltInReports()
    ensures BuiltIn(RENDER_FANOUT_PROFILE) == Num(35.0) && BuiltIn(STREAM_RESILIENCE_SCENARIO) == Num(2.0)
    ensures BuiltIn(RELOAD_REASON_AUDIT) == Num(0.0) && BuiltIn(STATE_HOT_PATH_BENCHMARK) == Num(32.857)
    ensures BuiltIn(STATE_HOT_PATH_TRACE) == Num(3.0) && BuiltIn(REDUCER_IDENTITY_TESTS) == Num(0.0)
  {
    BuiltInIsMetric(RENDER_FANOUT_PROFILE);
    RoundsTo(ReductionPct(9500.0, 6175.0), 35000);
    BuiltInIsMetric(STREAM_RESILIENCE_SCENARIO);
    RoundsTo(Percentage(3.0, 150.0), 2000);
    BuiltInIsMetric(RELOAD_REASON_AUDIT);
    BuiltInIsMetric(STATE_HOT_PATH_BENCHMARK);
    RoundsTo(ReductionPct(28.0, 18.8), 32857);
    BuiltInIsMetric(STATE_HOT_PATH_TRACE);
    RoundsTo(RatePer1000(12.0, 4000.0), 3000);
    BuiltInIsMetric(REDUCER_IDENTITY_TESTS);
    RoundsTo(0.0, 0);
  }

  /** A candidate file with one section of numbers. */
  function Section(section: string, fields: map<string, Json>): Json { Obj(map[section := Obj(fields)]) }

  lemma SectionHolds(section: string, fields: map<string, Json>, key: string)
    requires '.' !in section && '.' !in key && key in fields
    ensures DigTokens(Section(section, fields), Tokens(section + "." + key)) == fields[key]
  {
    JoinSplits([section, key], '.');
    assert JoinWith([section, key], '.') == section + ['.'] + key == section + "." + key;
    assert Tokens(section + "." + key) == [section, key];
    assert [section, key][1..] == [key] && [key][1..] == [];
    assert DigTokens(Obj(fields), [key]) == fields[key];
  }

  lemma SectionReads(section: string, fields: map<string, Json>, key: string, keys: seq<string>, x: real)
    requires '.' !in section && '.' !in key && key in fields && fields[key] == Num(x)
    requires keys != [] && keys[0] == section + "." + key
    ensures NumberAt(Section(section, fields), keys) == Some(x)
  {
    SectionHolds(section, fields, key);
  }

  const FORCED := "forced_reload_count"
  const TURNS := "turn_count"
  const TRANSIENT := "transient_reconnect_forced_reload_count"

  /** The candidate of a stream resilience run. */
  function StreamFields(forced: real, turns: real, transient: real): map<string, Json> {
    map[FORCED := Num(forced), TURNS := Num(turns), TRANSIENT := Num(transient)]
  }

  function StreamCounts(forced: real, turns: real, transient: real): Json {
    Section("candidate_metrics", StreamFields(forced, turns, transient))
  }

  lemma StreamFieldsHold(forced: real, turns: real, transient: real)
    ensures var fields := StreamFields(forced, turns, transient);
            && FORCED in fields && TURNS in fields && TRANSIENT in fields
            && fields[FORCED] == Num(forced) && fields[TURNS] == Num(turns) && fields[TRANSIENT] == Num(transient)
    ensures '.' !in FORCED && '.' !in TURNS && '.' !in TRANSIENT && '.' !in "candidate_metrics"
  {
    assert FORCED[1] == 'o' && TURNS[1] == 'u' && TRANSIENT[1] == 'r';
  }

  lemma SamePath(key: string)
    ensures InMetrics(key) == "candidate_metrics" + "." + key
  {
  }

  lemma StreamReads(forced: real, turns: real, transient: real, producer: Producer)
    requires CountsReloads(producer)
    ensures NumberAt(StreamCounts(forced, turns, transient), producer.subject.keys) == Some(forced)
    ensures NumberAt(StreamCounts(forced, turns, transient), producer.reference.keys) == Some(turns)
    ensures NumberAt(StreamCounts(forced, turns, transient), producer.veto) == Some(transient)
  {
    var section, fields := "candidate_metrics", StreamFields(forced, turns, transient);
    StreamFieldsHold(forced, turns, transient);
    SamePath(FORCED);
    SamePath(TURNS);
    SamePath(TRANSIENT);
    SectionReads(section, fields, FORCED, producer.subject.keys, forced);
    SectionReads(section, fields, TURNS, producer.reference.keys, turns);
    SectionReads(section, fields, TRANSIENT, producer.veto, transient);
  }

  /** What matters of the stream resilience script here. */
  ghost predicate CountsReloads(producer: Producer) {
    && producer.subject.keys != [] && producer.subject.keys[0] == InMetrics(FORCED)
    && producer.reference.keys != [] && producer.reference.keys[0] == InMetrics(TURNS)
    && producer.veto != [] && producer.veto[0] == InMetrics(TRANSIENT)
    && producer.reference.default > 0.0 && producer.roundsFirst && !producer.referenceInBaseline
    && producer.formula.Percent?
  }

  lemma StreamScenarioCounts()
    ensures CountsReloads(STREAM_RESILIENCE_SCENARIO)
  {
  }

  /** A whole run on such a file: it reports the share of turns that were reloaded, and passes a gate of at
      most `limit` percent if and only if that share is within the limit and no transient reconnect
      caused a reload. */
  lemma StreamRun(producer: Producer, forced: real, turns: real, transient: real, limit: real, path: string,
                  sha: string)
    returns (artifact: Json, metric: real, value: real)
    requires CountsReloads(producer) && forced >= 0.0 && turns > 0.0 && !AllSpace(sha)
    ensures BuildPayload(producer, map[path := StreamCounts(forced, turns, transient)], Contract("m", Lte, limit),
                         Inputs(Some(path), false, Some(sha), None)) == Ok(artifact)
    ensures artifact.Obj? && Get(artifact, "value") == Num(value) && OnGrid(value)
    ensures metric * turns == 100.0 * forced && -0.0005 <= value - metric <= 0.0005
    ensures Passed(artifact) <==> value <= limit && transient <= 0.0
  {
    var counts := StreamCounts(forced, turns, transient);
    var files, c := map[path := counts], Contract("m", Lte, limit);
    var inputs := Inputs(Some(path), false, Some(sha), None);
    BuildErrors(producer, files, c, inputs);
    artifact := BuildPayload(producer, files, c, inputs).value;
    StreamReads(forced, turns, transient, producer);
    metric, value := PercentRun(producer, files, c, inputs, counts, artifact, forced, turns, transient);
  }

  lemma PercentRun(producer: Producer, files: Files, c: Contract, inputs: Inputs, counts: Json, artifact: Json,
                   forced: real, turns: real, transient: real)
    returns (metric: real, value: real)
    requires producer.reference.default > 0.0 && producer.roundsFirst && !producer.referenceInBaseline
    requires producer.formula.Percent? && forced >= 0.0 && turns > 0.0 && c.op == Lte
    requires Seen(files, inputs.candidate) == Some(counts) && BuildPayload(producer, files, c, inputs) == Ok(artifact)
    requires NumberAt(counts, producer.subject.keys) == Some(forced)
    requires NumberAt(counts, producer.reference.keys) == Some(turns)
    requires NumberAt(counts, producer.veto) == Some(transient)
    ensures artifact.Obj? && Get(artifact, "value") == Num(value) && OnGrid(value)
    ensures metric * turns == 100.0 * forced && -0.0005 <= value - metric <= 0.0005
    ensures Passed(artifact) <==> value <= c.target && transient <= 0.0
  {
    var subject, reference;
    subject, reference, metric, value := VerdictMeaning(producer, files, c, inputs, artifact);
    UsableIsTaken(Some(counts), producer.subject, x => x >= 0.0, forced, subject);
    UsableIsTaken(Some(counts), producer.reference, x => x > 0.0, turns, reference);
    assert transient > 0.0 ==> Holds(Some(counts), producer.veto, transient);
  }
}
