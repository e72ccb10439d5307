/** The evidence pipeline end to end: do the report and the producers reach the same verdicts? */
module Agreement {
  import opened Text
  import opened Options
  import opened Json
  import opened Numbers
  import opened GateReport
  import opened Producers

  // -------------------------------------------------- judging before rounding

  /** Whether rounding a non-negative measurement to thousandths can never lose a gate it met. */
  predicate RoundingSafe(op: Op, target: real) {
    target < 0.0 || Evaluate(op, Round3(target), target)
  }

  /** The condition is exact: it holds if and only if every non-negative value that meets the
      gate still meets it once rounded. */
  lemma RoundingSafeMeaning(op: Op, target: real)
    ensures RoundingSafe(op, target) <==>
              forall raw: real :: raw >= 0.0 && Evaluate(op, raw, target) ==> Evaluate(op, Round3(raw), target)
  {
    if RoundingSafe(op, target) {
      forall raw: real | raw >= 0.0 && Evaluate(op, raw, target)
        ensures Evaluate(op, Round3(raw), target)
      {
        Round3Fixes(0.0);
        Round3Monotone(0.0, raw);
        if raw <= target { Round3Monotone(raw, target); }
        if raw >= target { Round3Monotone(target, raw); }
      }
    } else {
      assert Evaluate(op, target, target);
    }
  }

  /** Targets written with at most three decimals are always safe. */
  lemma GridTargetsAreSafe(op: Op, target: real)
    requires OnGrid(target)
    ensures RoundingSafe(op, target)
  {
    Round3Fixes(target);
  }

  /** A producer's own verdict never exceeds what its reported value supports; only the reload
      audit needs a safe target for that. The phase 07 producers say exactly what it supports. */
  lemma VerdictSupported(producer: Producer, metric: real, policy: bool, c: Contract)
    requires !producer.roundsFirst ==> metric >= 0.0 && RoundingSafe(c.op, c.target)
    ensures var m := Reported(producer, metric, policy, c);
            && (m.passed ==> Evaluate(c.op, m.value, c.target))
            && (producer.roundsFirst && policy ==> (m.passed <==> Evaluate(c.op, m.value, c.target)))
  {
    RoundingSafeMeaning(c.op, c.target);
  }

  // ------------------------------------------------------ one gate, one artifact

  ghost predicate DistinctSources(gates: seq<Gate>) {
    forall i, j | 0 <= i < j < |gates| :: gates[i].source != gates[j].source
  }

  lemma EntryAsContract(show: Renderer, entry: Json)
    requires entry.Obj? && ParseGate(show, entry).Ok?
    ensures var gate := ParseGate(show, entry).value;
            && Names(show, entry, gate.source) && gate.metric != "" && Trimmed(gate.metric)
            && ParseContract(show, entry) == Ok(Contract(gate.metric, gate.op, gate.target))
  {
    var metric := Get(entry, "metric");
    StripIdempotent(if !Truthy(metric) then "" else if metric.Str? then metric.s else show(metric));
  }

  /** Both programs read the same gate: when the sources are distinct, the contract a producer finds
      for its source is the gate the report judges under that source. */
  lemma {:induction false} ContractMatchesGate(show: Renderer, entries: seq<Json>, gates: seq<Gate>, i: nat)
    requires ResolveGates(show, entries) == Ok(gates) && DistinctSources(gates) && i < |gates|
    ensures ContractOf(show, entries, gates[i].source)
         == Ok(Contract(gates[i].metric, gates[i].op, gates[i].target))
    ensures gates[i].metric != "" && Trimmed(gates[i].metric)
  {
    if !entries[0].Obj? {
      ContractMatchesGate(show, entries[1..], gates, i);
    } else {
      var rest := ResolveGates(show, entries[1..]).value;
      assert gates == [gates[0]] + rest && gates[1..] == rest;
      EntryAsContract(show, entries[0]);
      if i > 0 {
        assert forall j | 0 <= j < |rest| :: rest[j] == gates[j + 1];
        ContractMatchesGate(show, entries[1..], rest, i - 1);
        assert gates[0].source != gates[i].source;
      }
    }
  }

  /** The producer's side of an artifact that was built in candidate mode. */
  ghost predicate BuiltFor(producer: Producer, files: Files, gate: Gate, inputs: Inputs, artifact: Json) {
    && producer.WellFormed() && gate.source == producer.name && gate.metric != "" && Trimmed(gate.metric)
    && inputs.candidate.Some?
    && BuildPayload(producer, files, Contract(gate.metric, gate.op, gate.target), inputs) == Ok(artifact)
  }

  function Passed(artifact: Json): bool {
    artifact.Obj? && Get(artifact, "pass") == Bool(true)
  }

  lemma TextOfTrimmed(show: Renderer, s: string)
    requires s != "" && Trimmed(s)
    ensures TextOf(show, Str(s)) == s
  {
    StripOfTrimmed(s);
  }

  lemma ArtifactFields(producer: Producer, evidence: Evidence, c: Contract, m: Measurement)
    ensures var a := Artifact(producer, evidence, c, m);
            && Get(a, "source") == Str(producer.name) && Get(a, "metric") == Str(c.metric)
            && Get(a, "value") == Num(m.value) && Get(a, "status") == Str(Verdict(m.passed))
            && Get(a, "evidence_mode") == Str(evidence.mode)
            && Get(a, "gate_eligible") == Bool(evidence.eligible)
            && Get(a, "pass") == Bool(m.passed) && Get(a, "context").Obj?
            && Get(Get(a, "context"), "candidate_path")
               == (if evidence.path.Some? then Str(evidence.path.value) else Null)
            && Get(Get(a, "context"), "candidate_commit_sha") == Str(evidence.sha)
  {
  }

  /** What a payload with trimmed texts in the checked fields reads back as. */
  lemma PayloadReadsBack(show: Renderer, a: Json, gate: Gate, value: real, status: string, mode: string,
                         eligible: bool, path: Json, sha: Json)
    requires a.Obj? && Get(a, "context").Obj?
    requires Get(a, "source") == Str(gate.source) && gate.source != "" && Trimmed(gate.source)
    requires Get(a, "metric") == Str(gate.metric) && gate.metric != "" && Trimmed(gate.metric)
    requires Get(a, "status") == Str(status) && (status == "pass" || status == "fail")
    requires Get(a, "evidence_mode") == Str(mode) && mode != "" && Trimmed(mode)
    requires Get(a, "value") == Num(value) && Get(a, "gate_eligible") == Bool(eligible)
    requires Get(Get(a, "context"), "candidate_path") == path
    requires Get(Get(a, "context"), "candidate_commit_sha") == sha
    ensures ReadArtifact(show, a, gate)
         == Ok(Source(value, status, mode, eligible, path, sha, EligibilityIssues(mode, Bool(eligible), path, sha)))
  {
    TextOfTrimmed(show, gate.source);
    TextOfTrimmed(show, gate.metric);
    TextOfTrimmed(show, status);
    TextOfTrimmed(show, mode);
  }

  /** Reading back an artifact: every field the report checks survives, whatever was measured. */
  lemma ArtifactReadsBack(show: Renderer, producer: Producer, evidence: Evidence, gate: Gate, m: Measurement,
                          path: Json)
    requires producer.WellFormed() && gate.source == producer.name && gate.metric != "" && Trimmed(gate.metric)
    requires evidence.mode in {"candidate", "synthetic"}
    requires path == (if evidence.path.Some? then Str(evidence.path.value) else Null)
    ensures ReadArtifact(show, Artifact(producer, evidence, Contract(gate.metric, gate.op, gate.target), m), gate)
         == Ok(Source(m.value, Verdict(m.passed), evidence.mode, evidence.eligible, path, Str(evidence.sha),
                      EligibilityIssues(evidence.mode, Bool(evidence.eligible), path, Str(evidence.sha))))
  {
    var c := Contract(gate.metric, gate.op, gate.target);
    ArtifactFields(producer, evidence, c, m);
    PayloadReadsBack(show, Artifact(producer, evidence, c, m), gate, m.value, Verdict(m.passed), evidence.mode,
                     evidence.eligible, path, Str(evidence.sha));
  }

  lemma CandidateEvidence(files: Files, inputs: Inputs)
    requires inputs.candidate.Some? && ResolveEvidence(files, inputs).Ok?
    ensures inputs.commitSha.Some? && Strip(inputs.commitSha.value) != ""
    ensures ResolveEvidence(files, inputs).value
         == Evidence("candidate", true, inputs.candidate, Strip(inputs.commitSha.value))
  {
  }

  /** What a successful candidate-mode build wrote. */
  lemma BuildWrites(producer: Producer, files: Files, c: Contract, inputs: Inputs) returns (metric: real, policy: bool)
    requires producer.WellFormed() && inputs.candidate.Some? && BuildPayload(producer, files, c, inputs).Ok?
    ensures inputs.commitSha.Some? && Strip(inputs.commitSha.value) != ""
    ensures BuildPayload(producer, files, c, inputs)
         == Ok(Artifact(producer, Evidence("candidate", true, inputs.candidate, Strip(inputs.commitSha.value)), c,
                        Reported(producer, metric, policy, c)))
    ensures producer.formula.Count? ==> metric >= 0.0
    ensures producer.veto == [] ==> policy
  {
    CandidateEvidence(files, inputs);
    var evidence := ResolveEvidence(files, inputs).value;
    var (baseline, candidate) := LoadReadings(producer, files, inputs.baseline, evidence.path).value;
    metric, policy := Metric(producer, baseline, candidate), PolicyHolds(producer, candidate);
  }

  function CandidateSource(m: Measurement, path: string, sha: string): Source {
    Source(m.value, Verdict(m.passed), "candidate", true, Str(path), Str(sha),
           EligibilityIssues("candidate", Bool(true), Str(path), Str(sha)))
  }

  lemma CandidateIssues(path: string, sha: string)
    requires Strip(sha) != ""
    ensures EligibilityIssues("candidate", Bool(true), Str(path), Str(sha))
         == if AllSpace(path) then [BlankCandidatePath] else []
  {
    StripBlank(path);
  }

  lemma JudgeCandidate(phase: Phase, gate: Gate, m: Measurement, path: string, sha: string)
    requires Strip(sha) != ""
    requires m.passed ==> Evaluate(gate.op, m.value, gate.target)
    requires phase.statusCounts || (m.passed <==> Evaluate(gate.op, m.value, gate.target))
    ensures Judge(phase, gate, CandidateSource(m, path, sha)).passed <==> m.passed && !AllSpace(path)
  {
    CandidateIssues(path, sha);
    assert Verdict(m.passed) == "pass" <==> m.passed by { assert "pass"[0] != "fail"[0]; }
  }

  /** A candidate artifact always loads, its only possible eligibility issue is a blank candidate
      path, and the report's verdict on it is its own verdict, path permitting. */
  lemma GateAgreement(show: Renderer, producer: Producer, files: Files, gate: Gate, inputs: Inputs, artifact: Json)
    requires BuiltFor(producer, files, gate, inputs, artifact)
    requires !producer.roundsFirst ==> RoundingSafe(gate.op, gate.target)
    ensures artifact.Obj? && ReadArtifact(show, artifact, gate).Ok?
    ensures ReadArtifact(show, artifact, gate).value.issues
         == if AllSpace(inputs.candidate.value) then [BlankCandidatePath] else []
    ensures Judge(producer.phase, gate, ReadArtifact(show, artifact, gate).value).passed
       <==> Passed(artifact) && !AllSpace(inputs.candidate.value)
  {
    var c := Contract(gate.metric, gate.op, gate.target);
    var metric, policy := BuildWrites(producer, files, c, inputs);
    var path, sha := inputs.candidate.value, Strip(inputs.commitSha.value);
    var m := Reported(producer, metric, policy, c);
    var evidence := Evidence("candidate", true, inputs.candidate, sha);
    ArtifactFields(producer, evidence, c, m);
    ArtifactReadsBack(show, producer, evidence, gate, m, Str(path));
    StripIdempotent(inputs.commitSha.value);
    CandidateIssues(path, sha);
    VerdictSupported(producer, metric, policy, c);
    JudgeCandidate(producer.phase, gate, m, path, sha);
  }

  // ------------------------------------------------------------ whole pipeline

  /** One producer run: the script, its command line and the files it saw. */
  datatype Job = Job(producer: Producer, inputs: Inputs, files: Files)

  /** The artifact under `gate`'s source was written by `job` for this gates file. */
  ghost predicate WrittenBy(phase: Phase, show: Renderer, files: Files, gatesFile: string, dir: string,
                            gate: Gate, job: Job)
  {
    var entries := PhaseEntries(files, gatesFile, phase.id);
    var path := ArtifactPath(dir, gate.source);
    && job.producer.WellFormed() && job.producer.phase == phase && job.producer.name == gate.source
    && entries.Ok? && path in files
    && var contract := ContractOf(show, entries.value, job.producer.name);
       && contract.Ok?
       && BuildPayload(job.producer, job.files, contract.value, job.inputs) == Ok(files[path])
  }

  /** Every gate's artifact was written by the script of that name. */
  ghost predicate Produced(phase: Phase, show: Renderer, files: Files, gatesFile: string, dir: string,
                           gates: seq<Gate>, jobs: map<string, Job>)
  {
    && GatesOf(phase, show, files, gatesFile) == Ok(gates) && DistinctSources(gates)
    && forall i | 0 <= i < |gates| ::
         gates[i].source in jobs && WrittenBy(phase, show, files, gatesFile, dir, gates[i], jobs[gates[i].source])
  }

  lemma ProducedFor(phase: Phase, show: Renderer, files: Files, gatesFile: string, dir: string,
                    gates: seq<Gate>, jobs: map<string, Job>, i: nat)
    requires Produced(phase, show, files, gatesFile, dir, gates, jobs) && i < |gates|
    ensures gates[i].metric != "" && Trimmed(gates[i].metric)
    ensures var job, path := jobs[gates[i].source], ArtifactPath(dir, gates[i].source);
            BuildPayload(job.producer, job.files, Contract(gates[i].metric, gates[i].op, gates[i].target), job.inputs)
            == Ok(files[path])
  {
    ContractMatchesGate(show, PhaseEntries(files, gatesFile, phase.id).value, gates, i);
  }

  /** End to end: when the artifacts were built in candidate mode and the targets are safe to round
      to, the report loads them all and repeats each artifact's own verdict; the only thing it can
      object to is a blank candidate path. */
  lemma PipelineAgreement(phase: Phase, show: Renderer, files: Files, gatesFile: string, dir: string,
                          gates: seq<Gate>, jobs: map<string, Job>)
    requires Produced(phase, show, files, gatesFile, dir, gates, jobs)
    requires forall i | 0 <= i < |gates| ::
               var job := jobs[gates[i].source];
               && job.inputs.candidate.Some?
               && (job.producer.roundsFirst || RoundingSafe(gates[i].op, gates[i].target))
    ensures JudgeAll(phase, show, files, dir, gates).Ok?
    ensures var results := JudgeAll(phase, show, files, dir, gates).value;
            && |results| == |gates|
            && forall i | 0 <= i < |gates| ::
                 var path := jobs[gates[i].source].inputs.candidate.value;
                 && (results[i].passed <==> Passed(files[ArtifactPath(dir, gates[i].source)]) && !AllSpace(path))
                 && results[i].source.issues == (if AllSpace(path) then [BlankCandidatePath] else [])
    ensures Certifies(phase, show, files, gatesFile, dir) <==>
              forall i | 0 <= i < |gates| ::
                && Passed(files[ArtifactPath(dir, gates[i].source)])
                && !AllSpace(jobs[gates[i].source].inputs.candidate.value)
  {
    var judge := gate => JudgeFile(phase, show, files, dir, gate);
    forall i | 0 <= i < |gates|
      ensures judge(gates[i]).Ok?
      ensures var path := jobs[gates[i].source].inputs.candidate.value;
              && judge(gates[i]).value.source.issues == (if AllSpace(path) then [BlankCandidatePath] else [])
              && (judge(gates[i]).value.passed
                  <==> Passed(files[ArtifactPath(dir, gates[i].source)]) && !AllSpace(path))
    {
      var job, artifact := jobs[gates[i].source], files[ArtifactPath(dir, gates[i].source)];
      ProducedFor(phase, show, files, gatesFile, dir, gates, jobs, i);
      GateAgreement(show, job.producer, job.files, gates[i], job.inputs, artifact);
    }
    TraverseMeaning(judge, gates);
    CertifiesMeaning(phase, show, files, gatesFile, dir);
  }

  /** The condition on the target is needed: a script that judges before rounding and measures an
      unsafe target exactly writes an artifact that passes and that the report then fails. */
  lemma UnsafeTargetDisagrees(show: Renderer, producer: Producer, files: Files, path: string, sha: string, gate: Gate)
    requires producer.WellFormed() && !producer.roundsFirst
    requires gate.source == producer.name && gate.metric != "" && Trimmed(gate.metric)
    requires !RoundingSafe(gate.op, gate.target) && !AllSpace(sha)
    requires path in files && files[path].Obj?
    requires NumberAt(files[path], producer.subject.keys) == Some(gate.target)
    requires NumberAt(files[path], producer.veto) == None
    ensures var inputs := Inputs(Some(path), false, Some(sha), None);
            var built := BuildPayload(producer, files, Contract(gate.metric, gate.op, gate.target), inputs);
            && built.Ok? && Passed(built.value) && built.value.Obj?
            && var source := ReadArtifact(show, built.value, gate);
               source.Ok? && !Judge(producer.phase, gate, source.value).passed
  {
    var inputs := Inputs(Some(path), false, Some(sha), None);
    var c := Contract(gate.metric, gate.op, gate.target);
    CandidateBuildSucceeds(producer, files, c, inputs);
    CandidateEvidence(files, inputs);
    var evidence := Evidence("candidate", true, Some(path), Strip(sha));
    var m := Reported(producer, gate.target, true, c);
    assert BuildPayload(producer, files, c, inputs) == Ok(Artifact(producer, evidence, c, m));
    ArtifactFields(producer, evidence, c, m);
    ArtifactReadsBack(show, producer, evidence, gate, m, Str(path));
  }

  /** Unsafe targets exist for every operator. */
  lemma UnsafeTargetsExist()
    ensures !RoundingSafe(Gte, 0.0004) && !RoundingSafe(Lte, 0.0006) && !RoundingSafe(Eq, 0.0004)
  {
  }

  /** A gate that asks for more of the metric a reduction improves, or for less of any other. */
  predicate AsksForBetter(formula: Formula, op: Op) {
    if formula.Reduction? then op.Gte? else op.Lte?
  }

  /** Improving the measured quantity never turns a passing verdict into a failing one, through
      formula, rounding and judgement. */
  lemma ImprovementKeepsVerdict(producer: Producer, better: real, worse: real, reference: real, policy: bool,
                                c: Contract)
    requires reference > 0.0 && better <= worse && AsksForBetter(producer.formula, c.op)
    ensures Reported(producer, Compute(producer.formula, worse, reference), policy, c).passed
        ==> Reported(producer, Compute(producer.formula, better, reference), policy, c).passed
  {
    var x, y := Compute(producer.formula, better, reference), Compute(producer.formula, worse, reference);
    FormulasRelate(better, reference);
    FormulasRelate(worse, reference);
    PercentMonotone(better, worse, reference);
    if producer.formula.Reduction? { Round3Monotone(y, x); } else { Round3Monotone(x, y); }
  }

  lemma PercentMonotone(x: real, y: real, reference: real)
    requires reference > 0.0 && x <= y
    ensures Compute(Percent, x, reference) <= Compute(Percent, y, reference)
  {
    var p, q := Compute(Percent, x, reference), Compute(Percent, y, reference);
    FormulasRelate(x, reference);
    FormulasRelate(y, reference);
    if p > q { NotBelow(p - q, reference); }
  }

  lemma NotBelow(d: real, reference: real)
    requires d > 0.0 && reference > 0.0
    ensures d * reference > 0.0
  {
  }

  /** The candidate file `{"value": x}`. */
  function BareValue(x: real): Json { Obj(map["value" := Num(x)]) }

  lemma FirstToken(key: string)
    requires key != "" && key[0] != '.'
    ensures Tokens(key)[0] != "" && Tokens(key)[0][0] == key[0]
  {
  }

  lemma BareValueElsewhere(x: real, key: string)
    requires key != "" && key[0] != '.' && key[0] != 'v'
    ensures DigTokens(BareValue(x), Tokens(key)) == Null
  {
    FirstToken(key);
    assert Get(BareValue(x), Tokens(key)[0]) == Null;
  }

  ghost predicate NeverBare(keys: seq<string>) {
    forall i | 0 <= i < |keys| :: keys[i] != "" && keys[i][0] != '.' && keys[i][0] != 'v'
  }

  lemma {:induction false} BareValueSkips(x: real, keys: seq<string>)
    requires NeverBare(keys)
    ensures NumberAt(BareValue(x), keys) == None
    ensures NumberAt(BareValue(x), keys + ["value"]) == Some(x)
  {
    var all := keys + ["value"];
    if keys == [] {
      JoinSplits(["value"], '.');
      assert DigTokens(BareValue(x), ["value"]) == Num(x);
    } else {
      BareValueElsewhere(x, keys[0]);
      assert all[1..] == keys[1..] + ["value"];
      BareValueSkips(x, keys[1..]);
    }
  }

  lemma ReloadAuditPaths(keys: seq<string>, veto: seq<string>)
    requires keys == RELOAD_REASON_AUDIT.subject.keys && veto == RELOAD_REASON_AUDIT.veto
    ensures |keys| == 4 && keys[3] == "value" && NeverBare(keys[..3]) && NeverBare(veto)
  {
    assert keys[0][0] == 'c' && keys[1][0] == 'c' && keys[2][0] == 'u';
    assert veto[0][0] == 'c' && veto[1][0] == 'c' && veto[2][0] == 'c' && |veto| == 3;
  }

  /** Such a measurement can be made at every unsafe target: the reload audit reads the bare value. */
  lemma ReloadAuditReadsBareValue(x: real, keys: seq<string>, veto: seq<string>)
    requires keys == RELOAD_REASON_AUDIT.subject.keys && veto == RELOAD_REASON_AUDIT.veto
    ensures RELOAD_REASON_AUDIT.WellFormed() && !RELOAD_REASON_AUDIT.roundsFirst
    ensures NumberAt(BareValue(x), keys) == Some(x) && NumberAt(BareValue(x), veto) == None
  {
    ScriptsAreWellFormed();
    ReloadAuditPaths(keys, veto);
    assert keys == keys[..3] + ["value"];
    BareValueSkips(x, keys[..3]);
    BareValueSkips(x, veto);
  }

  // -------------------------------------------------------- the phase 07 report

  /** On artifacts of its own producers, in either mode, a report that ignores the artifact's
      status judges exactly like one that insists on it. */
  lemma StatusAddsNothing(show: Renderer, producer: Producer, files: Files, gate: Gate, inputs: Inputs, artifact: Json)
    requires producer.WellFormed() && producer.roundsFirst && producer.veto == []
    requires gate.source == producer.name && gate.metric != "" && Trimmed(gate.metric)
    requires BuildPayload(producer, files, Contract(gate.metric, gate.op, gate.target), inputs) == Ok(artifact)
    ensures artifact.Obj? && ReadArtifact(show, artifact, gate).Ok?
    ensures forall lax: Phase, strict: Phase | !lax.statusCounts && strict.statusCounts ::
              var source := ReadArtifact(show, artifact, gate).value;
              Judge(lax, gate, source).passed <==> Judge(strict, gate, source).passed
  {
    var c := Contract(gate.metric, gate.op, gate.target);
    var evidence := ResolveEvidence(files, inputs).value;
    var (baseline, candidate) := LoadReadings(producer, files, inputs.baseline, evidence.path).value;
    var metric := Metric(producer, baseline, candidate);
    var m := Reported(producer, metric, true, c);
    assert artifact == Artifact(producer, evidence, c, m);
    var path := if evidence.path.Some? then Str(evidence.path.value) else Null;
    ArtifactReadsBack(show, producer, evidence, gate, m, path);
    assert Verdict(m.passed) == "pass" <==> m.passed by { assert "pass"[0] != "fail"[0]; }
  }

  /** Gate by gate, the phase 07 report on its own producers' artifacts equals the stricter rule. */
  lemma Phase07EqualsStricterRule(show: Renderer, files: Files, gatesFile: string, dir: string,
                                  gates: seq<Gate>, jobs: map<string, Job>)
    requires Produced(PHASE_07, show, files, gatesFile, dir, gates, jobs)
    ensures var lax := JudgeAll(PHASE_07, show, files, dir, gates);
            var strict := JudgeAll(PHASE_07.(statusCounts := true), show, files, dir, gates);
            && lax.Ok? && strict.Ok? && |lax.value| == |strict.value| == |gates|
            && forall i | 0 <= i < |gates| :: lax.value[i].passed <==> strict.value[i].passed
  {
    var stricter := PHASE_07.(statusCounts := true);
    var judge := gate => JudgeFile(PHASE_07, show, files, dir, gate);
    var judge' := gate => JudgeFile(stricter, show, files, dir, gate);
    forall i | 0 <= i < |gates|
      ensures judge(gates[i]).Ok? && judge'(gates[i]).Ok?
      ensures judge(gates[i]).value.passed <==> judge'(gates[i]).value.passed
    {
      var job, artifact := jobs[gates[i].source], files[ArtifactPath(dir, gates[i].source)];
      ProducedFor(PHASE_07, show, files, gatesFile, dir, gates, jobs, i);
      StatusAddsNothing(show, job.producer, job.files, gates[i], job.inputs, artifact);
    }
    TraverseMeaning(judge, gates);
    TraverseMeaning(judge', gates);
  }

  /** On artifacts from elsewhere the two rules differ exactly on eligible evidence that meets its
      target but declares failure. */
  lemma RulesDifferExactly(lax: Phase, strict: Phase, gate: Gate, source: Source)
    requires !lax.statusCounts && strict.statusCounts
    ensures Judge(lax, gate, source).passed != Judge(strict, gate, source).passed
       <==> source.status != "pass" && Eligible(source) && Evaluate(gate.op, source.value, gate.target)
    ensures Judge(strict, gate, source).passed ==> Judge(lax, gate, source).passed
  {
  }
}
