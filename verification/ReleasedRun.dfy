/** An instance: a run of a one-step workflow that is started, executed and released. So what is proved of
    jobs, traces, lives and releases is about something. */
module ReleasedRun {
  import opened Values
  import opened Frames
  import opened Seqs
  import opened Dsl
  import opened Denotation
  import opened StateMachine
  import opened Protocol
  import opened Budget
  import opened StepRows
  import opened Evidence
  import opened Collisions
  import opened Orchestrator
  import opened Lifecycle
  import Contract
  import Reconciliation
  import Validation
  import Verifier
  import Release
  import Assessment

  function Reported(): Params {
    map["rows" := Num(1.0)]
  }

  function Succeeds(): Outcome {
    Done(Rows(1), Reported())
  }

  // ---- The job and its run ----

  predicate Apart(name: string, id: string) {
    !(SOURCE_PREFIX <= id) && Path(id) != Path(SourceRef(name))
  }

  function Instance(name: string, id: string): Job
    requires Apart(name, id)
  {
    OneStepJob(name, id, Succeeds())
  }

  lemma PairIsDistinct(a: string, b: string)
    requires Path(a) != Path(b)
    ensures DistinctPaths({a, b})
  {
  }

  lemma OneStepNodes(name: string, id: string, outcome: Outcome)
    requires Apart(name, id)
    ensures Nodes(OneStepJob(name, id, outcome).w) == {SourceRef(name), id}
  {
    var w := OneStepJob(name, id, outcome).w;
    assert SourceRefs(w) == {SourceRef(name)};
    assert IdSet(w) == {id} by { assert w.steps[0] in w.steps; }
  }

  lemma OneStepIsOk(name: string, id: string, outcome: Outcome)
    requires Apart(name, id)
    ensures JobOk(OneStepJob(name, id, outcome))
  {
    var j := OneStepJob(name, id, outcome);
    OneStepJobIsValid(name, id, outcome);
    OneStepNodes(name, id, outcome);
    PairIsDistinct(SourceRef(name), id);
    assert StepIds(j.steps) == [id] && j.steps == j.w.steps;
  }

  /** The stores with the source seeded. */
  lemma OneStepSeeded(name: string, id: string, outcome: Outcome)
    requires Apart(name, id)
    ensures var j, ref := OneStepJob(name, id, outcome), SourceRef(name);
      && Start(j).d == Durable(RUNNING, map[ref := SourceRecord("run", ref, "v1")], map[Path(ref) := Rows(0)])
      && id !in Start(j).d.records && Load(Start(j).d, [ref]) == Some([Rows(0)])
  {
    var j, ref := OneStepJob(name, id, outcome), SourceRef(name);
    assert Seeded(j, 0) == Durable(RUNNING, map[], map[]);
    assert Start(j).d == Seeded(j, 1) == Durable(RUNNING, map[ref := SourceRecord("run", ref, "v1")],
      map[Path(ref) := Rows(0)]);
    assert id != ref by { assert SOURCE_PREFIX <= ref; }
    assert Load(Start(j).d, [ref]).value == [Rows(0)];
  }

  /** The stores of the run once it is VERIFYING. */
  ghost function Finished(name: string, id: string): Durable
    requires Apart(name, id)
  {
    var j := Instance(name, id);
    Durable(VERIFYING,
            map[SourceRef(name) := SourceRecord("run", SourceRef(name), "v1"),
              id := CompletedRecord("run", j.steps[0], Reported())],
            map[Path(SourceRef(name)) := Rows(0), Path(id) := Rows(1)])
  }

  lemma InstanceFinishes(name: string, id: string)
    requires Apart(name, id)
    ensures Complete(Instance(name, id), Call(Start(Instance(name, id)))).d == Finished(name, id)
  {
    var j, s := Instance(name, id), Instance(name, id).steps[0];
    OneStepSeeded(name, id, Succeeds());
    var d := Start(j).d;
    OneStepRun(j, s, d, Rows(0), Rows(1), Reported());
    assert d.records[id := RUNNING_RECORD][id := CompletedRecord("run", s, Reported())] == Finished(name, id).records;
  }

  lemma CompletesInSteps(j: Job, c: Config) returns (n: nat)
    ensures Iterate(j, c, n) == Complete(j, c) && Complete(j, c).pc.Idle?
  {
    EnoughWrites(j, c, WritesLeft(j, c.pc));
    n := SurvivesBySteps(j, c, WritesLeft(j, c.pc));
  }

  lemma CallTrace(j: Job) returns (tr: seq<Config>)
    ensures IsTrace(j, tr) && tr[|tr| - 1].d == Complete(j, Call(Start(j))).d && tr[|tr| - 1].pc.Idle?
  {
    var called := Call(Start(j));
    var n := CompletesInSteps(j, called);
    assert IsTrace(j, [Start(j), called]);
    tr := TraceIterates(j, [Start(j), called], called, n);
  }

  // ---- Its assessment ----

  function Asked(name: string): Contract.Terms {
    Contract.Terms([name], [], [], map[], [], [], [], [], [])
  }

  function BriefOf(name: string, id: string): Assessment.Brief
    requires Apart(name, id)
  {
    Assessment.Brief(Instance(name, id).w, Contract.Contract(Asked(name), Contract.Approved, true), map[name := "v1"],
                     Validation.Checks((checkFunction, frame, args) => Some(true), Validation.KeysInOrder))
  }

  lemma NothingToCheck(name: string, id: string)
    requires Apart(name, id)
    ensures Validation.Manifest(Asked(name), Instance(name, id).w, BriefOf(name, id).checks) == []
  {
    var w, checks := Instance(name, id).w, BriefOf(name, id).checks;
    FlatMapEmpty(w.steps, Validation.JoinRule);
    FlatMapEmpty(w.steps, Validation.SchemaRules(checks));
    forall s | s in w.steps ensures Validation.JoinRule(s) == [] && Validation.SchemaRules(checks)(s) == [] {
      assert s == w.steps[0] && s.operationId == "derive";
    }
  }

  lemma RowsKept(name: string, id: string, files: map<string, Frame>)
    requires Apart(name, id) && files == Finished(name, id).files
    ensures var w := Instance(name, id).w;
      Reconciliation.Reconciled(Asked(name), w, Assessment.Artifacts(Assessment.Needed(w), files)).status ==
        Reconciliation.Pass
  {
    var w := Instance(name, id).w;
    var artifacts := Assessment.Artifacts(Assessment.Needed(w), files);
    var s := w.steps[0];
    if Reconciliation.RowConservationTest(s, artifacts).Some? {
      assert artifacts[s.inputs[0]] == Rows(0) && artifacts[s.id] == Rows(1);
    }
    assert w.steps[..0] == [];
    var test := Reconciliation.RowConservationTest(s, artifacts);
    assert Reconciliation.RowTests([], artifacts) == [];
    assert Reconciliation.RowTests(w.steps, artifacts) == if test.Some? then [test.value] else [];
    assert test.Some? ==> test.value.passed;
  }

  ghost function Listing(name: string, id: string): seq<StepRow>
    requires Apart(name, id)
  {
    [StepRow(SourceRef(name), Finished(name, id).records[SourceRef(name)]), StepRow(id, Finished(name, id).records[id])]
  }

  lemma EvidencePasses(name: string, id: string)
    requires Apart(name, id)
    ensures Verifier.NoFailedRecord(Finished(name, id).records)
  {
    var records := Finished(name, id).records;
    forall x | x in records ensures NoFailedEntry(records[x].evidence) {
      assert Get(records[x].evidence, "reconciliation") == Null;
      assert Get(records[x].evidence, "external_reconciliation") == Null;
    }
  }

  lemma ListingLists(name: string, id: string)
    requires Apart(name, id)
    ensures Lists(Listing(name, id), Finished(name, id).records)
  {
    var rows := Listing(name, id);
    assert SourceRef(name) != id by { assert SOURCE_PREFIX <= SourceRef(name); }
    assert rows[0] in rows && rows[1] in rows;
  }

  lemma VerifierPasses(name: string, id: string, rows: seq<StepRow>)
    requires Apart(name, id) && Lists(rows, Finished(name, id).records)
    ensures Verifier.Verified(Asked(name), Instance(name, id).w, map[name := "v1"], rows).verdict == Verifier.PASS
  {
    var records, w := Finished(name, id).records, Instance(name, id).w;
    EvidencePasses(name, id);
    assert Verifier.AllEvidenced(w, records) by {
      assert records[id].evidence == Reported() && "rows" in Reported();
    }
    assert Verifier.PlanSatisfied(Asked(name), w, map[name := "v1"], records);
    Verifier.PassIff(Asked(name), w, map[name := "v1"], rows, records);
  }

  lemma NoReasonApplies(c: Release.Case)
    requires Release.Releasable(c)
    ensures Release.Explains([], c)
  {
  }

  lemma PairIsReadable(b: Assessment.Brief, files: map<string, Frame>, ref: string, id: string)
    requires ValidDag(b.w) && Nodes(b.w) == {ref, id} && Path(ref) in files && Path(id) in files
    ensures Assessment.Readable(b, files)
  {
    forall node | node in Nodes(b.w) ensures Path(node) in files {
      assert node == ref || node == id;
    }
    NodesAreStored(b.w, files);
    Assessment.ReadableIffStored(b, files);
  }

  lemma InstanceIsReadable(name: string, id: string)
    requires Apart(name, id)
    ensures Assessment.Readable(BriefOf(name, id), Finished(name, id).files)
  {
    OneStepJobIsValid(name, id, Succeeds());
    OneStepNodes(name, id, Succeeds());
    PairIsReadable(BriefOf(name, id), Finished(name, id).files, SourceRef(name), id);
  }

  lemma InstanceIsReleasable(name: string, id: string, rows: seq<StepRow>)
    requires Apart(name, id) && Lists(rows, Finished(name, id).records)
    ensures Release.Releasable(Assessment.CaseOf(BriefOf(name, id), Finished(name, id), rows))
  {
    NothingToCheck(name, id);
    RowsKept(name, id, Finished(name, id).files);
    VerifierPasses(name, id, rows);
  }

  /** A readable and releasable run can be assessed as one to release. */
  lemma ReleasableIsReleased(b: Assessment.Brief, d: Durable, rows: seq<StepRow>) returns (a: Assessment.Assessment)
    requires Assessment.Readable(b, d.files) && Lists(rows, d.records)
      && Release.Releasable(Assessment.CaseOf(b, d, rows))
    ensures Assessment.Assesses(b, d, rows, a) && a.decision.decision == Release.RELEASE
  {
    var c := Assessment.CaseOf(b, d, rows);
    NoReasonApplies(c);
    a := Assessment.Assessment(
      c.checks.value, c.reconciled.value, c.verified, Release.ReleaseDecision(Release.RELEASE, [], []),
      Release.Score(b.contract.terms, b.w, rows, c.checks.value, c.reconciled.value, c.verified));
  }

  // ---- Its life ----

  ghost function SettingOf(name: string, id: string): Setting
    requires Apart(name, id)
  {
    Setting(Instance(name, id), map[name := "v1"], BriefOf(name, id).checks,
            map[name := Rows(0)], map[name := "v1"], false, None, {}, {})
  }

  /** Nothing holds back a valid workflow without approval gates whose sources are all supplied. */
  lemma UngatedIsStartable(w: Workflow, frames: map<string, Frame>, versions: map<string, string>)
    requires ValidDag(w) && AllSupplied(w, frames, versions) && w.approvalGates == []
    ensures Startable(w, frames, versions, false, None, {}, {})
  {
  }

  lemma InstanceIsStartable(name: string, id: string)
    requires Apart(name, id)
    ensures Startable(Instance(name, id).w, map[name := Rows(0)], map[name := "v1"], false, None, {}, {})
  {
    OneStepJobIsValid(name, id, Succeeds());
    UngatedIsStartable(Instance(name, id).w, map[name := Rows(0)], map[name := "v1"]);
  }

  lemma InstanceIsAdmissible(name: string, id: string)
    requires Apart(name, id)
    ensures Admissible(SettingOf(name, id))
  {
    InstanceIsStartable(name, id);
  }

  ghost function LifeOf(tr: seq<Config>): seq<Life> {
    [Unborn, Opening(DRAFT), Opening(APPROVED), Opening(RUNNING)] + seq(|tr|, i requires 0 <= i < |tr| => Live(tr[i]))
  }

  lemma TraceIsLife(x: Setting, tr: seq<Config>)
    requires Admissible(x) && IsTrace(x.j, tr)
    ensures IsLife(x, LifeOf(tr))
  {
    var h := LifeOf(tr);
    forall i | 0 <= i < |h| - 1 ensures StepAt(x, h, i) {
      if i >= 4 { assert Next(x.j, tr[i - 4], tr[i - 3]); }
    }
  }

  lemma ReleaseSettles(d: Durable, a: Assessment.Assessment)
    requires d.state == VERIFYING && a.decision.decision == Release.RELEASE
    ensures Settles(d, d.(state := RELEASED), a, Assessed(RELEASED, a))
  {
  }

  lemma DecisionReleases(b: Assessment.Brief, d: Durable, a: Assessment.Assessment, r: ReleaseResult)
    requires ExecutionOrder(b.w).Ok? && AssessedAs(b, d, a)
    requires r == Assessed(RELEASED, a) && Settles(d, d.(state := RELEASED), a, r)
    ensures ReleaseFollows(b, d, d.(state := RELEASED), r)
  {
  }

  lemma InstanceReleases(name: string, id: string)
    requires Apart(name, id)
    ensures Deserves(SettingOf(name, id), BriefOf(name, id).contract, Finished(name, id))
    ensures Releases(SettingOf(name, id), Finished(name, id), Finished(name, id).(state := RELEASED))
  {
    var b, d := BriefOf(name, id), Finished(name, id);
    ListingLists(name, id);
    InstanceIsReleasable(name, id, Listing(name, id));
    InstanceIsReadable(name, id);
    var a := ReleasableIsReleased(b, d, Listing(name, id));
    OneStepJobIsValid(name, id, Succeeds());
    assert BriefOn(SettingOf(name, id), b.contract) == b;
    assert AssessedAs(b, d, a);
    ReleaseSettles(d, a);
    DecisionReleases(b, d, a, Assessed(RELEASED, a));
  }

  lemma LifeEndsReleased(x: Setting, tr: seq<Config>) returns (h: seq<Life>)
    requires Admissible(x) && IsTrace(x.j, tr)
    requires Released(x, tr[|tr| - 1], tr[|tr| - 1].(d := tr[|tr| - 1].d.(state := RELEASED)))
    ensures IsLife(x, h) && h[|h| - 1].Live? && h[|h| - 1].c.d == tr[|tr| - 1].d.(state := RELEASED)
  {
    TraceIsLife(x, tr);
    var c := tr[|tr| - 1];
    var released := Live(c.(d := c.d.(state := RELEASED)));
    OneMoreStep(x, LifeOf(tr), released);
    h := LifeOf(tr) + [released];
  }

  /** Every step of the workflow is row-conserving by name and has more rows in its file than its input. */
  ghost predicate EveryStepAddsRows(w: Workflow, files: map<string, Frame>) {
    forall s :: s in w.steps ==> Reconciliation.AddsRows(s, Assessment.Artifacts(Assessment.Needed(w), files))
  }

  /** The instance's derive step turns no row into one. */
  lemma InstanceAddsRow(name: string, id: string, files: map<string, Frame>)
    requires Apart(name, id) && files == Finished(name, id).files
    ensures EveryStepAddsRows(Instance(name, id).w, files)
  {
    var w := Instance(name, id).w;
    var artifacts, s := Assessment.Artifacts(Assessment.Needed(w), files), w.steps[0];
    assert s.inputs[0] in s.inputs + [s.id] && s.id in s.inputs + [s.id];
    assert artifacts[s.inputs[0]] == Rows(0) && artifacts[s.id] == Rows(1);
  }

  lemma InstanceIsReleased(name: string, id: string) returns (h: seq<Life>)
    requires Apart(name, id)
    ensures IsLife(SettingOf(name, id), h)
    ensures h[|h| - 1].Live? && h[|h| - 1].c.d == Finished(name, id).(state := RELEASED)
  {
    var x := SettingOf(name, id);
    InstanceIsAdmissible(name, id);
    var tr := CallTrace(x.j);
    InstanceFinishes(name, id);
    InstanceReleases(name, id);
    h := LifeEndsReleased(x, tr);
  }

  lemma InstanceIsValidated(name: string, id: string)
    requires Apart(name, id)
    ensures Contract.Validated(BriefOf(name, id).contract)
  {
  }

  /** For any source and any step with a file of its own there is a run, of a workflow with that source and that
      step, that is released: the assumptions of every result about lives and releases can be met. Its derive
      step has added a row. */
  lemma SomeRunIsReleased(name: string, id: string) returns (x: Setting, h: seq<Life>, contract: Contract.Contract)
    requires Apart(name, id)
    ensures JobOk(x.j) && IsLife(x, h) && Nodes(x.j.w) == {SourceRef(name), id}
    ensures h[|h| - 1].Live? && h[|h| - 1].c.d.state == RELEASED
    ensures Contract.Validated(contract) && Deserves(x, contract, h[|h| - 1].c.d.(state := VERIFYING))
    ensures EveryStepAddsRows(x.j.w, h[|h| - 1].c.d.files)
  {
    OneStepIsOk(name, id, Succeeds());
    OneStepNodes(name, id, Succeeds());
    InstanceIsValidated(name, id);
    InstanceAddsRow(name, id, Finished(name, id).files);
    InstanceReleases(name, id);
    x, contract := SettingOf(name, id), BriefOf(name, id).contract;
    h := InstanceIsReleased(name, id);
  }
}
