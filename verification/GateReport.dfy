/** The gate reports: scripts that re-judge evidence artifacts against the phase gate definitions.
    Phase 07 and phase 08 share one program; they differ in their sources and in whether the
    artifact's own status counts. */
module GateReport {
  import opened Sequences
  import opened Text
  import opened Options
  import opened Json

  datatype Error =
    | FileMissing | NotAnObject | MissingPhases | MissingPhase
    | InvalidGateRecord | UnsupportedOperator | MissingTarget | MissingRequiredSource
    | SourceMismatch | MetricMismatch | MissingValue | InvalidStatus | MissingContext
    | MissingGateForSource | MissingMetric | MissingCandidate | MissingCommitSha

  datatype Result<+T> = Ok(value: T) | Err(error: Error) {
    predicate IsFailure() { Err? }

    function PropagateFailure<U>(): Result<U>
      requires Err?
    {
      Err(error)
    }

    function Extract(): T
      requires Ok?
    {
      value
    }
  }

  /** The file system: the parsed content of every readable JSON file. */
  type Files = map<string, Json>

  datatype Op = Gte | Lte | Eq

  function ParseOp(text: string): Option<Op> {
    if text == "gte" then Some(Gte) else if text == "lte" then Some(Lte) else if text == "eq" then Some(Eq) else None
  }

  predicate Evaluate(op: Op, value: real, target: real) {
    match op case Gte => value >= target case Lte => value <= target case Eq => value == target
  }

  /** What each operator stands for. */
  ghost predicate Meets(op: Op, value: real, target: real) {
    && (op.Gte? ==> value >= target)
    && (op.Lte? ==> value <= target)
    && (op.Eq? ==> value >= target && value <= target)
  }

  datatype Gate = Gate(id: string, metric: string, source: string, op: Op, target: real)

  datatype Phase = Phase(id: string, required: set<string>, statusCounts: bool)

  const PHASE_07 := Phase("07", {"state_hot_path_benchmark", "state_hot_path_trace", "reducer_identity_tests"}, false)
  const PHASE_08 := Phase("08", {"render_fanout_profile", "stream_resilience_scenario", "reload_reason_audit"}, true)

  function LoadJson(files: Files, path: string): Result<Json> {
    if path !in files then Err(FileMissing)
    else if !files[path].Obj? then Err(NotAnObject)
    else Ok(files[path])
  }

  // ---------------------------------------------------------- gate definitions

  function PhaseEntries(files: Files, gatesFile: string, phaseId: string): Result<seq<Json>> {
    var payload :- LoadJson(files, gatesFile);
    if !payload.Obj? then Err(NotAnObject)
    else
      var phases := Get(payload, "phases");
      if !phases.Obj? then Err(MissingPhases)
      else
        var entries := Get(phases, phaseId);
        if entries.Arr? then Ok(entries.items) else Err(MissingPhase)
  }

  function ParseGate(show: Renderer, entry: Json): Result<Gate>
    requires entry.Obj?
  {
    var id := TextOf(show, Get(entry, "id"));
    var metric := TextOf(show, Get(entry, "metric"));
    var source := TextOf(show, Get(entry, "source"));
    var op := ParseOp(TextOf(show, Get(entry, "operator")));
    var target := Get(entry, "target");
    if id == "" || metric == "" || source == "" then Err(InvalidGateRecord)
    else if op.None? then Err(UnsupportedOperator)
    else if !target.Num? then Err(MissingTarget)
    else Ok(Gate(id, metric, source, op.value, target.n))
  }

  /** The number `v` passes an entry of the gates file, read off its JSON. */
  ghost predicate EntryAdmits(show: Renderer, entry: Json, v: real)
    requires entry.Obj? && Get(entry, "target").Num?
  {
    var target, op := Get(entry, "target").n, TextOf(show, Get(entry, "operator"));
    (op == "gte" && v >= target) || (op == "lte" && v <= target) || (op == "eq" && v == target)
  }

  /** Which entries are gates, and what such a gate asks for. */
  lemma GateEntryMeaning(show: Renderer, entry: Json)
    requires entry.Obj?
    ensures ParseGate(show, entry).Ok? <==>
              && TextOf(show, Get(entry, "id")) != "" && TextOf(show, Get(entry, "metric")) != ""
              && TextOf(show, Get(entry, "source")) != ""
              && TextOf(show, Get(entry, "operator")) in {"gte", "lte", "eq"} && Get(entry, "target").Num?
    ensures ParseGate(show, entry).Ok? ==>
              var gate := ParseGate(show, entry).value;
              && gate.id == TextOf(show, Get(entry, "id")) && gate.metric == TextOf(show, Get(entry, "metric"))
              && gate.source == TextOf(show, Get(entry, "source"))
              && forall v :: Evaluate(gate.op, v, gate.target) <==> EntryAdmits(show, entry, v)
  {
  }

  /** The first error wins. */
  function Cons<T>(head: Result<T>, rest: Result<seq<T>>): Result<seq<T>> {
    match head
    case Err(e) => Err(e)
    case Ok(y) => match rest case Ok(more) => Ok([y] + more) case Err(e) => Err(e)
  }

  /** The gates of a list of entries: entries that are not objects are skipped, the first bad one is reported. */
  function ResolveGates(show: Renderer, entries: seq<Json>): Result<seq<Gate>> {
    if entries == [] then Ok([])
    else if !entries[0].Obj? then ResolveGates(show, entries[1..])
    else Cons(ParseGate(show, entries[0]), ResolveGates(show, entries[1..]))
  }

  function Sources(gates: seq<Gate>): set<string> {
    set i | 0 <= i < |gates| :: gates[i].source
  }

  function GatesOf(phase: Phase, show: Renderer, files: Files, gatesFile: string): Result<seq<Gate>> {
    var entries :- PhaseEntries(files, gatesFile, phase.id);
    var gates :- ResolveGates(show, entries);
    if phase.required <= Sources(gates) then Ok(gates) else Err(MissingRequiredSource)
  }

  function Prepend<T>(done: seq<T>, rest: Result<seq<T>>): Result<seq<T>> {
    match rest case Ok(more) => Ok(done + more) case Err(e) => Err(e)
  }

  lemma PrependNothing<T>(r: Result<seq<T>>)
    ensures Prepend([], r) == r
  {
    if r.Ok? { assert [] + r.value == r.value; }
  }

  /** Applies a fallible step to every element, stopping at the first error. */
  function Traverse<A, B>(f: A -> Result<B>, xs: seq<A>): Result<seq<B>> {
    if xs == [] then Ok([]) else Cons(f(xs[0]), Traverse(f, xs[1..]))
  }

  lemma {:induction false} TraverseMeaning<A, B>(f: A -> Result<B>, xs: seq<A>)
    ensures var r := Traverse(f, xs);
            && (r.Ok? <==> forall i | 0 <= i < |xs| :: f(xs[i]).Ok?)
            && (r.Ok? ==> |r.value| == |xs| && forall i | 0 <= i < |xs| :: f(xs[i]) == Ok(r.value[i]))
  {
    if xs != [] {
      TraverseMeaning(f, xs[1..]);
      assert forall i | 1 <= i < |xs| :: xs[i] == xs[1..][i - 1];
    }
  }

  lemma PrependCons<T>(done: seq<T>, head: Result<T>, rest: Result<seq<T>>)
    ensures Prepend(done, Cons(head, rest)) == match head case Ok(y) => Prepend(done + [y], rest) case Err(e) => Err(e)
  {
    if head.Ok? && rest.Ok? {
      assert done + ([head.value] + rest.value) == done + [head.value] + rest.value;
    }
  }

  /** One turn of a loop that has handled the first `i` elements. */
  lemma TraverseStep<A, B>(f: A -> Result<B>, xs: seq<A>, i: nat, done: seq<B>)
    requires i < |xs|
    ensures Prepend(done, Traverse(f, xs[i..]))
         == match f(xs[i])
            case Ok(y) => Prepend(done + [y], Traverse(f, xs[i + 1..]))
            case Err(e) => Err(e)
  {
    assert xs[i..][1..] == xs[i + 1..];
    PrependCons(done, f(xs[i]), Traverse(f, xs[i + 1..]));
  }

  lemma ResolveStep(show: Renderer, entries: seq<Json>, i: nat, done: seq<Gate>)
    requires i < |entries|
    ensures Prepend(done, ResolveGates(show, entries[i..]))
         == if !entries[i].Obj? then Prepend(done, ResolveGates(show, entries[i + 1..]))
            else match ParseGate(show, entries[i])
                 case Ok(gate) => Prepend(done + [gate], ResolveGates(show, entries[i + 1..]))
                 case Err(e) => Err(e)
  {
    assert entries[i..][1..] == entries[i + 1..];
    if entries[i].Obj? {
      PrependCons(done, ParseGate(show, entries[i]), ResolveGates(show, entries[i + 1..]));
    }
  }

  method PhaseGates(phase: Phase, show: Renderer, files: Files, gatesFile: string) returns (r: Result<seq<Gate>>)
    ensures r == GatesOf(phase, show, files, gatesFile)
  {
    var entries :- PhaseEntries(files, gatesFile, phase.id);
    var resolved: seq<Gate> := [];
    assert entries[0..] == entries;
    PrependNothing(ResolveGates(show, entries));
    for i := 0 to |entries|
      invariant ResolveGates(show, entries) == Prepend(resolved, ResolveGates(show, entries[i..]))
    {
      ResolveStep(show, entries, i, resolved);
      if entries[i].Obj? {
        var gate :- ParseGate(show, entries[i]);
        resolved := resolved + [gate];
      }
    }
    assert entries[|entries|..] == [] && resolved + [] == resolved;
    if !(phase.required <= Sources(resolved)) { return Err(MissingRequiredSource); }
    return Ok(resolved);
  }

  // ----------------------------------------------------------------- artifacts

  datatype Issue =
    | InvalidMode | EligibleNotBoolean | CandidateNotEligible
    | BlankCandidatePath | BlankCommitSha | SyntheticNotIneligible

  datatype Source = Source(value: real, status: string, mode: string, eligible: bool,
                           candidatePath: Json, commitSha: Json, issues: seq<Issue>)

  predicate Blank(v: Json) { !v.Str? || Strip(v.s) == "" }

  function Note(condition: bool, issue: Issue): seq<Issue> { if condition then [issue] else [] }

  function EligibilityIssues(mode: string, eligible: Json, path: Json, sha: Json): seq<Issue> {
    Note(mode != "candidate" && mode != "synthetic", InvalidMode)
    + Note(!eligible.Bool?, EligibleNotBoolean)
    + Note(mode == "candidate" && eligible != Bool(true), CandidateNotEligible)
    + Note(mode == "candidate" && Blank(path), BlankCandidatePath)
    + Note(mode == "candidate" && Blank(sha), BlankCommitSha)
    + Note(mode == "synthetic" && eligible != Bool(false), SyntheticNotIneligible)
  }

  lemma NoteJoins(issues: seq<Issue>, condition: bool, issue: Issue)
    ensures forall x :: x in issues + Note(condition, issue) <==> x in issues || (condition && x == issue)
    ensures issues + Note(condition, issue) == [] <==> issues == [] && !condition
  {
    assert condition ==> issue in Note(condition, issue);
  }

  lemma NotesHold(a: bool, b: bool, c: bool, d: bool, e: bool, f: bool)
    ensures var issues := Note(a, InvalidMode) + Note(b, EligibleNotBoolean) + Note(c, CandidateNotEligible)
                          + Note(d, BlankCandidatePath) + Note(e, BlankCommitSha) + Note(f, SyntheticNotIneligible);
            && (InvalidMode in issues <==> a) && (EligibleNotBoolean in issues <==> b)
            && (CandidateNotEligible in issues <==> c) && (BlankCandidatePath in issues <==> d)
            && (BlankCommitSha in issues <==> e) && (SyntheticNotIneligible in issues <==> f)
            && (issues == [] <==> !a && !b && !c && !d && !e && !f)
  {
    var one := Note(a, InvalidMode);
    var two := one + Note(b, EligibleNotBoolean);
    var three := two + Note(c, CandidateNotEligible);
    var four := three + Note(d, BlankCandidatePath);
    var five := four + Note(e, BlankCommitSha);
    NoteJoins(one, b, EligibleNotBoolean);
    NoteJoins(two, c, CandidateNotEligible);
    NoteJoins(three, d, BlankCandidatePath);
    NoteJoins(four, e, BlankCommitSha);
    NoteJoins(five, f, SyntheticNotIneligible);
  }

  lemma BlankMeaning(v: Json)
    ensures Blank(v) <==> (v.Str? ==> AllSpace(v.s))
  {
    if v.Str? { StripBlank(v.s); }
  }

  /** Each issue by itself, and when there is none: candidate evidence that is marked eligible, with a
      path and a commit, or synthetic evidence that is marked ineligible. */
  lemma IssuesMeaning(mode: string, eligible: Json, path: Json, sha: Json)
    ensures var issues := EligibilityIssues(mode, eligible, path, sha);
            && (InvalidMode in issues <==> mode !in {"candidate", "synthetic"})
            && (EligibleNotBoolean in issues <==> !eligible.Bool?)
            && (CandidateNotEligible in issues <==> mode == "candidate" && eligible != Bool(true))
            && (BlankCandidatePath in issues <==> mode == "candidate" && (path.Str? ==> AllSpace(path.s)))
            && (BlankCommitSha in issues <==> mode == "candidate" && (sha.Str? ==> AllSpace(sha.s)))
            && (SyntheticNotIneligible in issues <==> mode == "synthetic" && eligible != Bool(false))
    ensures EligibilityIssues(mode, eligible, path, sha) == [] <==>
              if mode == "candidate" then eligible == Bool(true) && !Blank(path) && !Blank(sha)
              else mode == "synthetic" && eligible == Bool(false)
  {
    BlankMeaning(path);
    BlankMeaning(sha);
    NotesHold(mode != "candidate" && mode != "synthetic", !eligible.Bool?,
              mode == "candidate" && eligible != Bool(true), mode == "candidate" && Blank(path),
              mode == "candidate" && Blank(sha), mode == "synthetic" && eligible != Bool(false));
  }

  function ReadArtifact(show: Renderer, payload: Json, gate: Gate): Result<Source>
    requires payload.Obj?
  {
    var value := Get(payload, "value");
    var status := TextOf(show, Get(payload, "status"));
    var mode := TextOf(show, Get(payload, "evidence_mode"));
    var eligible := Get(payload, "gate_eligible");
    var context := Get(payload, "context");
    if TextOf(show, Get(payload, "source")) != gate.source then Err(SourceMismatch)
    else if TextOf(show, Get(payload, "metric")) != gate.metric then Err(MetricMismatch)
    else if !value.Num? then Err(MissingValue)
    else if status != "pass" && status != "fail" then Err(InvalidStatus)
    else if !context.Obj? then Err(MissingContext)
    else
      var path, sha := Get(context, "candidate_path"), Get(context, "candidate_commit_sha");
      Ok(Source(value.n, status, mode, eligible.Bool? && eligible.b, path, sha,
                EligibilityIssues(mode, eligible, path, sha)))
  }

  function ArtifactPath(dir: string, source: string): string { dir + "/" + source + ".json" }

  function LoadSourceArtifact(show: Renderer, files: Files, dir: string, gate: Gate): Result<Source> {
    var payload :- LoadJson(files, ArtifactPath(dir, gate.source));
    if payload.Obj? then ReadArtifact(show, payload, gate) else Err(NotAnObject)
  }

  // -------------------------------------------------------------------- report

  datatype GateResult = GateResult(gate: Gate, value: real, passed: bool, metricPassed: bool, source: Source)

  datatype Report = Report(results: seq<GateResult>, passCount: nat, eligibilityFailCount: nat, allPass: bool)

  predicate Eligible(source: Source) {
    source.mode == "candidate" && source.eligible && source.issues == []
  }

  function Judge(phase: Phase, gate: Gate, source: Source): GateResult {
    var metricPassed := Evaluate(gate.op, source.value, gate.target);
    var passed := metricPassed && Eligible(source) && (phase.statusCounts ==> source.status == "pass");
    GateResult(gate, source.value, passed, metricPassed, source)
  }

  function JudgeFile(phase: Phase, show: Renderer, files: Files, dir: string, gate: Gate): Result<GateResult> {
    var source :- LoadSourceArtifact(show, files, dir, gate);
    Ok(Judge(phase, gate, source))
  }

  function JudgeAll(phase: Phase, show: Renderer, files: Files, dir: string, gates: seq<Gate>)
    : Result<seq<GateResult>>
  {
    Traverse(gate => JudgeFile(phase, show, files, dir, gate), gates)
  }

  function PassCount(results: seq<GateResult>): nat { Count((r: GateResult) => r.passed, results) }

  function IneligibleCount(results: seq<GateResult>): nat {
    Count((r: GateResult) => !Eligible(r.source), results)
  }

  lemma CountsAppend(results: seq<GateResult>, r: GateResult)
    ensures PassCount(results + [r]) == PassCount(results) + if r.passed then 1 else 0
    ensures IneligibleCount(results + [r]) == IneligibleCount(results) + if Eligible(r.source) then 0 else 1
  {
    assert Init(results + [r]) == results && Last(results + [r]) == r;
  }

  lemma AllPass(results: seq<GateResult>)
    ensures PassCount(results) == |results| <==> forall i | 0 <= i < |results| :: results[i].passed
  {
    CountAll((r: GateResult) => r.passed, results);
  }

  lemma JudgeStep(phase: Phase, show: Renderer, files: Files, dir: string, gates: seq<Gate>, i: nat,
                  results: seq<GateResult>)
    requires i < |gates|
    ensures Prepend(results, JudgeAll(phase, show, files, dir, gates[i..]))
         == match LoadSourceArtifact(show, files, dir, gates[i])
            case Ok(source) =>
              Prepend(results + [Judge(phase, gates[i], source)], JudgeAll(phase, show, files, dir, gates[i + 1..]))
            case Err(e) => Err(e)
  {
    var judge := gate => JudgeFile(phase, show, files, dir, gate);
    TraverseStep(judge, gates, i, results);
    assert judge(gates[i]) == JudgeFile(phase, show, files, dir, gates[i]);
  }

  predicate BaselineReadable(files: Files, baseline: Option<string>) {
    baseline.None? || LoadJson(files, baseline.value).Ok?
  }

  method BuildReport(phase: Phase, show: Renderer, files: Files, dir: string, gates: seq<Gate>,
                     baseline: Option<string>) returns (r: Result<Report>)
    ensures r.Ok? <==> JudgeAll(phase, show, files, dir, gates).Ok? && BaselineReadable(files, baseline)
    ensures r.Ok? ==>
              && Ok(r.value.results) == JudgeAll(phase, show, files, dir, gates)
              && r.value.passCount == PassCount(r.value.results)
              && r.value.eligibilityFailCount == IneligibleCount(r.value.results)
              && (r.value.allPass <==> forall i | 0 <= i < |r.value.results| :: r.value.results[i].passed)
  {
    var results: seq<GateResult> := [];
    var passCount, eligibilityFailCount := 0, 0;
    assert gates[0..] == gates;
    PrependNothing(JudgeAll(phase, show, files, dir, gates));
    for i := 0 to |gates|
      invariant JudgeAll(phase, show, files, dir, gates)
             == Prepend(results, JudgeAll(phase, show, files, dir, gates[i..]))
      invariant |results| == i
      invariant passCount == PassCount(results) && eligibilityFailCount == IneligibleCount(results)
    {
      JudgeStep(phase, show, files, dir, gates, i, results);
      var source :- LoadSourceArtifact(show, files, dir, gates[i]);
      var result := Judge(phase, gates[i], source);
      if result.passed { passCount := passCount + 1; }
      if !Eligible(source) { eligibilityFailCount := eligibilityFailCount + 1; }
      CountsAppend(results, result);
      results := results + [result];
    }
    var allPass := passCount == |gates|;
    assert gates[|gates|..] == [] && results + [] == results;
    AllPass(results);
    if baseline.Some? {
      var metadata :- LoadJson(files, baseline.value);
    }
    return Ok(Report(results, passCount, eligibilityFailCount, allPass));
  }

  /** The counter of eligibility failures: nothing that passes is counted, and it is zero exactly when
      all evidence is eligible. */
  lemma {:induction false} IneligibleMeaning(phase: Phase, gates: seq<Gate>, sources: seq<Source>,
                                             results: seq<GateResult>)
    requires |gates| == |sources| == |results|
    requires forall i | 0 <= i < |results| :: results[i] == Judge(phase, gates[i], sources[i])
    ensures PassCount(results) + IneligibleCount(results) <= |results|
    ensures IneligibleCount(results) == 0 <==> forall i | 0 <= i < |sources| ::
              sources[i].mode == "candidate" && sources[i].eligible && sources[i].issues == []
  {
    if results != [] {
      var n := |results| - 1;
      IneligibleMeaning(phase, gates[..n], sources[..n], Init(results));
      assert forall i | 0 <= i < n :: sources[..n][i] == sources[i];
    }
  }

  /** The optional self-test of the finished report. */
  predicate SelfTestPasses(results: seq<GateResult>) {
    && |results| >= 1
    && forall i | 0 <= i < |results| ::
         results[i].source.mode == "candidate" || results[i].source.mode == "synthetic"
  }

  /** Everything the script reads can be read. */
  predicate Readable(phase: Phase, show: Renderer, files: Files, gatesFile: string, dir: string,
                     baseline: Option<string>)
  {
    var gates := GatesOf(phase, show, files, gatesFile);
    gates.Ok? && JudgeAll(phase, show, files, dir, gates.value).Ok? && BaselineReadable(files, baseline)
  }

  /** The whole script; the result is its exit code. Code 1 means that something could not be read
      or the self-test failed; code 0 that every gate is certified; code 2 is what remains. */
  method RunReport(phase: Phase, show: Renderer, files: Files, gatesFile: string, dir: string,
                   baseline: Option<string>, selfTest: bool) returns (code: int)
    requires phase.required != {}
    ensures code in {0, 1, 2}
    ensures code == 0 <==> Certifies(phase, show, files, gatesFile, dir) && BaselineReadable(files, baseline)
    ensures code == 1 <==>
              !Readable(phase, show, files, gatesFile, dir, baseline)
              || (selfTest && !SelfTestPasses(
                    JudgeAll(phase, show, files, dir, GatesOf(phase, show, files, gatesFile).value).value))
  {
    var gates := PhaseGates(phase, show, files, gatesFile);
    if gates.Err? { return 1; }
    CertifiesMeaning(phase, show, files, gatesFile, dir);
    var report := BuildReport(phase, show, files, dir, gates.value, baseline);
    if report.Err? { return 1; }
    if selfTest && !SelfTestPasses(report.value.results) {
      return 1;
    }
    return if report.value.allPass then 0 else 2;
  }

  // ------------------------------------------------------------------ soundness

  /** An artifact that deserves its gate, read directly off the JSON. */
  ghost predicate Certified(phase: Phase, show: Renderer, artifact: Json, gate: Gate) {
    && artifact.Obj?
    && TextOf(show, Get(artifact, "source")) == gate.source
    && TextOf(show, Get(artifact, "metric")) == gate.metric
    && TextOf(show, Get(artifact, "evidence_mode")) == "candidate"
    && Get(artifact, "gate_eligible") == Bool(true)
    && TextOf(show, Get(artifact, "status")) in (if phase.statusCounts then {"pass"} else {"pass", "fail"})
    && Get(artifact, "value").Num?
    && Meets(gate.op, Get(artifact, "value").n, gate.target)
    && Get(artifact, "context").Obj?
    && !Blank(Get(Get(artifact, "context"), "candidate_path"))
    && !Blank(Get(Get(artifact, "context"), "candidate_commit_sha"))
  }

  ghost predicate GateCertified(phase: Phase, show: Renderer, files: Files, dir: string, gate: Gate) {
    var path := ArtifactPath(dir, gate.source);
    path in files && Certified(phase, show, files[path], gate)
  }

  /** What exit code 0 stands for: a gate list that covers every required source, each gate backed
      by a certified artifact. */
  ghost predicate Certifies(phase: Phase, show: Renderer, files: Files, gatesFile: string, dir: string) {
    var gates := GatesOf(phase, show, files, gatesFile);
    && gates.Ok?
    && (forall s | s in phase.required :: exists i :: 0 <= i < |gates.value| && gates.value[i].source == s)
    && forall i | 0 <= i < |gates.value| :: GateCertified(phase, show, files, dir, gates.value[i])
  }

  /** A gate passes exactly when its artifact is certified. */
  lemma PassIffCertified(phase: Phase, show: Renderer, files: Files, dir: string, gate: Gate)
    ensures GateCertified(phase, show, files, dir, gate)
       <==> (var result := JudgeFile(phase, show, files, dir, gate); result.Ok? && result.value.passed)
  {
  }

  /** What a judged gate records: the artifact's own value, whether that alone meets the target, and
      that a pass needs eligible evidence besides. */
  lemma ResultMeaning(phase: Phase, show: Renderer, files: Files, dir: string, gate: Gate)
    requires JudgeFile(phase, show, files, dir, gate).Ok?
    ensures var r, path := JudgeFile(phase, show, files, dir, gate).value, ArtifactPath(dir, gate.source);
            && path in files && files[path].Obj? && Get(files[path], "value") == Num(r.value) && r.gate == gate
            && (r.metricPassed <==> Meets(gate.op, r.value, gate.target))
            && (r.passed ==> r.metricPassed && r.source.issues == [])
  {
  }

  lemma AllCertified(phase: Phase, show: Renderer, files: Files, dir: string, gates: seq<Gate>)
    ensures (forall i | 0 <= i < |gates| :: GateCertified(phase, show, files, dir, gates[i]))
       <==> (var results := JudgeAll(phase, show, files, dir, gates);
             results.Ok? && forall i | 0 <= i < |results.value| :: results.value[i].passed)
    ensures var results := JudgeAll(phase, show, files, dir, gates);
            results.Ok? ==> |results.value| == |gates|
  {
    var judge := gate => JudgeFile(phase, show, files, dir, gate);
    TraverseMeaning(judge, gates);
    forall i | 0 <= i < |gates|
      ensures GateCertified(phase, show, files, dir, gates[i])
         <==> judge(gates[i]).Ok? && judge(gates[i]).value.passed
    {
      PassIffCertified(phase, show, files, dir, gates[i]);
    }
  }

  /** In terms of the judged results: all gates certified means all results pass, and a passing
      report also passes its self-test. */
  lemma CertifiesMeaning(phase: Phase, show: Renderer, files: Files, gatesFile: string, dir: string)
    requires GatesOf(phase, show, files, gatesFile).Ok?
    ensures var results := JudgeAll(phase, show, files, dir, GatesOf(phase, show, files, gatesFile).value);
            && (Certifies(phase, show, files, gatesFile, dir)
                <==> results.Ok? && forall i | 0 <= i < |results.value| :: results.value[i].passed)
            && (results.Ok? && phase.required != {} ==> |results.value| >= 1)
            && (results.Ok? ==> forall i | 0 <= i < |results.value| ::
                                  results.value[i].passed ==> results.value[i].source.mode == "candidate")
  {
    var gates := GatesOf(phase, show, files, gatesFile).value;
    var judge := gate => JudgeFile(phase, show, files, dir, gate);
    RequiredCovered(phase, show, files, gatesFile);
    AllCertified(phase, show, files, dir, gates);
    TraverseMeaning(judge, gates);
    forall gate: Gate | judge(gate).Ok?
      ensures judge(gate).value.passed ==> judge(gate).value.source.mode == "candidate"
    {
    }
  }

  /** The mode an artifact declares. */
  function DeclaredMode(show: Renderer, files: Files, dir: string, gate: Gate): string {
    var path := ArtifactPath(dir, gate.source);
    if path in files && files[path].Obj? then TextOf(show, Get(files[path], "evidence_mode")) else ""
  }

  /** The self-test of a report that could be built fails exactly when some artifact declares a mode
      that is neither of the two. */
  lemma SelfTestMeaning(phase: Phase, show: Renderer, files: Files, gatesFile: string, dir: string)
    requires phase.required != {} && GatesOf(phase, show, files, gatesFile).Ok?
    requires JudgeAll(phase, show, files, dir, GatesOf(phase, show, files, gatesFile).value).Ok?
    ensures var gates := GatesOf(phase, show, files, gatesFile).value;
            SelfTestPasses(JudgeAll(phase, show, files, dir, gates).value) <==>
              forall i | 0 <= i < |gates| :: DeclaredMode(show, files, dir, gates[i]) in {"candidate", "synthetic"}
  {
    var gates := GatesOf(phase, show, files, gatesFile).value;
    var results := JudgeAll(phase, show, files, dir, gates).value;
    var judge := gate => JudgeFile(phase, show, files, dir, gate);
    RequiredCovered(phase, show, files, gatesFile);
    TraverseMeaning(judge, gates);
    forall i | 0 <= i < |gates|
      ensures results[i].source.mode == DeclaredMode(show, files, dir, gates[i])
    {
      assert judge(gates[i]) == Ok(results[i]);
      ModeDeclared(phase, show, files, dir, gates[i]);
    }
  }

  lemma ModeDeclared(phase: Phase, show: Renderer, files: Files, dir: string, gate: Gate)
    requires JudgeFile(phase, show, files, dir, gate).Ok?
    ensures JudgeFile(phase, show, files, dir, gate).value.source.mode == DeclaredMode(show, files, dir, gate)
  {
  }

  lemma RequiredCovered(phase: Phase, show: Renderer, files: Files, gatesFile: string)
    requires GatesOf(phase, show, files, gatesFile).Ok?
    ensures var gates := GatesOf(phase, show, files, gatesFile).value;
            forall s | s in phase.required :: exists i :: 0 <= i < |gates| && gates[i].source == s
  {
    var gates := GatesOf(phase, show, files, gatesFile).value;
    forall s | s in phase.required ensures exists i :: 0 <= i < |gates| && gates[i].source == s {
      assert s in Sources(gates);
    }
  }

  /** Synthetic evidence never yields a passing gate, whatever else the artifact says. */
  lemma SyntheticNeverPasses(phase: Phase, show: Renderer, artifact: Json, gate: Gate)
    requires artifact.Obj? && TextOf(show, Get(artifact, "evidence_mode")) == "synthetic"
    ensures var source := ReadArtifact(show, artifact, gate);
            source.Ok? ==> !Judge(phase, gate, source.value).passed && source.value.mode == "synthetic"
  {
  }

  /** Gates that share a source must agree on its metric, or the report cannot be built. */
  lemma SharedSourceSharesMetric(phase: Phase, show: Renderer, files: Files, dir: string, gates: seq<Gate>,
                                 i: nat, j: nat)
    requires JudgeAll(phase, show, files, dir, gates).Ok?
    requires i < |gates| && j < |gates| && gates[i].source == gates[j].source
    ensures gates[i].metric == gates[j].metric
  {
    var judge := gate => JudgeFile(phase, show, files, dir, gate);
    TraverseMeaning(judge, gates);
    assert judge(gates[i]).Ok? && judge(gates[j]).Ok?;
  }
}
