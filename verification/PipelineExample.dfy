/** The pipeline theorems are about something: any set of well-formed scripts that covers a phase can
    be set up, and the scripts of phases 07 and 08 are such sets. */
module PipelineExample {
  import opened Sequences
  import opened Options
  import opened Text
  import opened Json
  import opened GateReport
  import opened Producers
  import opened Agreement

  const PHASE_07_SCRIPTS := [STATE_HOT_PATH_BENCHMARK, STATE_HOT_PATH_TRACE, REDUCER_IDENTITY_TESTS]
  const PHASE_08_SCRIPTS := [RENDER_FANOUT_PROFILE, STREAM_RESILIENCE_SCENARIO, RELOAD_REASON_AUDIT]

  const GATES_FILE := "g"
  const DIRECTORY := "d"

  ghost predicate Covers(scripts: seq<Producer>, phase: Phase) {
    && (forall i | 0 <= i < |scripts| :: scripts[i].WellFormed() && scripts[i].phase == phase)
    && (forall i, j | 0 <= i < j < |scripts| :: scripts[i].name != scripts[j].name)
    && (forall s | s in phase.required :: exists i :: 0 <= i < |scripts| && scripts[i].name == s)
  }

  lemma Scripts07Cover()
    ensures Covers(PHASE_07_SCRIPTS, PHASE_07)
  {
    ScriptsAreWellFormed();
    var a, b, c := PHASE_07_SCRIPTS[0].name, PHASE_07_SCRIPTS[1].name, PHASE_07_SCRIPTS[2].name;
    assert a != b && a != c && b != c by { assert a[15] == 'b' && b[15] == 't' && a[0] == b[0] == 's' && c[0] == 'r'; }
    assert forall s | s in PHASE_07.required :: s == a || s == b || s == c;
  }

  lemma Scripts08Cover()
    ensures Covers(PHASE_08_SCRIPTS, PHASE_08)
  {
    ScriptsAreWellFormed();
    var a, b, c := PHASE_08_SCRIPTS[0].name, PHASE_08_SCRIPTS[1].name, PHASE_08_SCRIPTS[2].name;
    assert a != b && a != c && b != c by { assert a[0] == c[0] == 'r' && b[0] == 's' && a[2] == 'n' && c[2] == 'l'; }
    assert forall s | s in PHASE_08.required :: s == a || s == b || s == c;
  }

  // ------------------------------------------------------------------ gates file

  function Entry(name: string): Json {
    Obj(map["id" := Str("gate"), "metric" := Str("metric"), "source" := Str(name),
            "operator" := Str("lte"), "target" := Num(1.0)])
  }

  function GateNamed(name: string): Gate { Gate("gate", "metric", name, Lte, 1.0) }

  function Entries(scripts: seq<Producer>): seq<Json> {
    if scripts == [] then [] else [Entry(scripts[0].name)] + Entries(scripts[1..])
  }

  function Gates(scripts: seq<Producer>): (gates: seq<Gate>)
    ensures |gates| == |scripts| && forall i | 0 <= i < |scripts| :: gates[i] == GateNamed(scripts[i].name)
  {
    if scripts == [] then [] else [GateNamed(scripts[0].name)] + Gates(scripts[1..])
  }

  lemma EntryParses(show: Renderer, name: string)
    requires name != "" && Text.Trimmed(name)
    ensures ParseGate(show, Entry(name)) == Ok(GateNamed(name))
  {
    TextOfTrimmed(show, "gate");
    TextOfTrimmed(show, "metric");
    TextOfTrimmed(show, name);
    TextOfTrimmed(show, "lte");
    var e := Entry(name);
    assert Get(e, "id") == Str("gate") && Get(e, "metric") == Str("metric") && Get(e, "source") == Str(name);
    assert Get(e, "operator") == Str("lte") && Get(e, "target") == Num(1.0);
    assert ParseOp(OpText(Lte)) == Some(Lte);
  }

  lemma {:induction false} EntriesResolve(show: Renderer, scripts: seq<Producer>)
    requires forall i | 0 <= i < |scripts| :: scripts[i].WellFormed()
    ensures ResolveGates(show, Entries(scripts)) == Ok(Gates(scripts))
  {
    if scripts != [] {
      EntryParses(show, scripts[0].name);
      EntriesResolve(show, scripts[1..]);
      assert Entries(scripts)[1..] == Entries(scripts[1..]);
    }
  }

  // ------------------------------------------------------------------- artifacts

  /** A candidate-mode run on an empty candidate object. */
  function JobOf(producer: Producer): Job {
    Job(producer, Inputs(Some("c"), false, Some("sha"), None), map["c" := Obj(map[])])
  }

  function Built(producer: Producer): Result<Json>
    requires producer.reference.default > 0.0
  {
    var job := JobOf(producer);
    BuildPayload(producer, job.files, Contract("metric", Lte, 1.0), job.inputs)
  }

  lemma BuiltOk(producer: Producer)
    requires producer.reference.default > 0.0
    ensures Built(producer).Ok?
  {
    var job := JobOf(producer);
    assert !AllSpace("sha") by { assert "sha"[0] == 's'; }
    CandidateBuildSucceeds(producer, job.files, Contract("metric", Lte, 1.0), job.inputs);
  }

  lemma PathsDiffer(dir: string, a: string, b: string)
    requires a != b
    ensures ArtifactPath(dir, a) != ArtifactPath(dir, b)
  {
    var p, q := ArtifactPath(dir, a), ArtifactPath(dir, b);
    assert p[|dir| + 1..|p| - 5] == a && q[|dir| + 1..|q| - 5] == b;
  }

  function Artifacts(scripts: seq<Producer>): Files
    requires forall i | 0 <= i < |scripts| :: scripts[i].reference.default > 0.0
  {
    if scripts == [] then map[]
    else
      var built := Built(Last(scripts));
      var rest := Artifacts(Init(scripts));
      if built.Ok? then rest[ArtifactPath(DIRECTORY, Last(scripts).name) := built.value] else rest
  }

  function Jobs(scripts: seq<Producer>): map<string, Job> {
    if scripts == [] then map[] else Jobs(Init(scripts))[Last(scripts).name := JobOf(Last(scripts))]
  }

  lemma {:induction false} ArtifactsHold(scripts: seq<Producer>, i: nat)
    requires forall k | 0 <= k < |scripts| :: scripts[k].reference.default > 0.0
    requires forall j, k | 0 <= j < k < |scripts| :: scripts[j].name != scripts[k].name
    requires i < |scripts|
    ensures var path := ArtifactPath(DIRECTORY, scripts[i].name);
            path in Artifacts(scripts) && Built(scripts[i]) == Ok(Artifacts(scripts)[path])
    ensures scripts[i].name in Jobs(scripts) && Jobs(scripts)[scripts[i].name] == JobOf(scripts[i])
  {
    BuiltOk(Last(scripts));
    if i < |scripts| - 1 {
      ArtifactsHold(Init(scripts), i);
      PathsDiffer(DIRECTORY, scripts[i].name, Last(scripts).name);
    }
  }

  // ----------------------------------------------------------------- the example

  function AllFiles(scripts: seq<Producer>, phase: Phase): Files
    requires forall i | 0 <= i < |scripts| :: scripts[i].reference.default > 0.0
  {
    Artifacts(scripts)[GATES_FILE := Obj(map["phases" := Obj(map[phase.id := Arr(Entries(scripts))])])]
  }

  lemma GatesResolve(show: Renderer, scripts: seq<Producer>, phase: Phase)
    requires Covers(scripts, phase)
    ensures PhaseEntries(AllFiles(scripts, phase), GATES_FILE, phase.id) == Ok(Entries(scripts))
    ensures GatesOf(phase, show, AllFiles(scripts, phase), GATES_FILE) == Ok(Gates(scripts))
  {
    EntriesResolve(show, scripts);
    var gates := Gates(scripts);
    forall s | s in phase.required ensures s in Sources(gates) {
      var i :| 0 <= i < |scripts| && scripts[i].name == s;
      assert gates[i].source == s;
    }
  }

  lemma ArtifactStored(scripts: seq<Producer>, phase: Phase, i: nat)
    requires Covers(scripts, phase) && i < |scripts|
    ensures var path := ArtifactPath(DIRECTORY, scripts[i].name);
            path in AllFiles(scripts, phase) && Built(scripts[i]) == Ok(AllFiles(scripts, phase)[path])
    ensures scripts[i].name in Jobs(scripts) && Jobs(scripts)[scripts[i].name] == JobOf(scripts[i])
  {
    ArtifactsHold(scripts, i);
    assert |ArtifactPath(DIRECTORY, scripts[i].name)| != |GATES_FILE|;
  }

  lemma ContractFound(show: Renderer, scripts: seq<Producer>, phase: Phase, i: nat)
    requires Covers(scripts, phase) && i < |scripts|
    ensures ContractOf(show, Entries(scripts), scripts[i].name) == Ok(Contract("metric", Lte, 1.0))
  {
    EntriesResolve(show, scripts);
    ContractMatchesGate(show, Entries(scripts), Gates(scripts), i);
  }

  lemma GateWritten(show: Renderer, scripts: seq<Producer>, phase: Phase, i: nat)
    requires Covers(scripts, phase) && i < |scripts|
    ensures var source := Gates(scripts)[i].source;
            source in Jobs(scripts) && Jobs(scripts)[source] == JobOf(scripts[i])
    ensures WrittenBy(phase, show, AllFiles(scripts, phase), GATES_FILE, DIRECTORY, Gates(scripts)[i],
                      JobOf(scripts[i]))
  {
    GatesResolve(show, scripts, phase);
    ArtifactStored(scripts, phase, i);
    ContractFound(show, scripts, phase, i);
  }

  lemma AllWritten(show: Renderer, scripts: seq<Producer>, phase: Phase)
    requires Covers(scripts, phase)
    ensures forall i | 0 <= i < |scripts| ::
              var source := Gates(scripts)[i].source;
              && source in Jobs(scripts) && Jobs(scripts)[source] == JobOf(scripts[i])
              && WrittenBy(phase, show, AllFiles(scripts, phase), GATES_FILE, DIRECTORY, Gates(scripts)[i],
                           Jobs(scripts)[source])
  {
    forall i | 0 <= i < |scripts|
      ensures var source := Gates(scripts)[i].source;
              && source in Jobs(scripts) && Jobs(scripts)[source] == JobOf(scripts[i])
              && WrittenBy(phase, show, AllFiles(scripts, phase), GATES_FILE, DIRECTORY, Gates(scripts)[i],
                           Jobs(scripts)[source])
    {
      GateWritten(show, scripts, phase, i);
    }
  }

  /** Whatever scripts cover a phase: with one gate and one run each, every hypothesis of the
      pipeline theorems holds. */
  lemma ProducedExists(show: Renderer, scripts: seq<Producer>, phase: Phase)
    requires Covers(scripts, phase)
    ensures Produced(phase, show, AllFiles(scripts, phase), GATES_FILE, DIRECTORY, Gates(scripts), Jobs(scripts))
    ensures forall i | 0 <= i < |scripts| ::
              var job := Jobs(scripts)[Gates(scripts)[i].source];
              job.inputs.candidate.Some? && RoundingSafe(Gates(scripts)[i].op, Gates(scripts)[i].target)
  {
    GatesResolve(show, scripts, phase);
    AllWritten(show, scripts, phase);
    assert RoundingSafe(Lte, 1.0);
  }
}
