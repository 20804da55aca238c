/** What a step's operation is given: the stored frames of its inputs, defused on their way into an export, and
    nothing at all when the export's destination is blocked. */
module GivenInputs {
  import opened Values
  import opened Frames
  import opened Dsl
  import opened Denotation
  import opened StateMachine
  import opened Protocol
  import opened Recovery
  import opened Safety
  import opened Guarantees

  /** `given` are the stored frames of the inputs of `s`, in order; an export on one input gets its frame defused. */
  ghost predicate GivesStored(e: Engine, s: WorkflowStep, files: map<string, Frame>, given: seq<Frame>) {
    && |given| == |s.inputs|
    && forall n :: 0 <= n < |given| ==>
         && Path(s.inputs[n]) in files
         && given[n] ==
            if e.kind(s.operationId, s.operationVersion) == Some(Unary) && s.operationId == "export"
            then e.defuse(files[Path(s.inputs[n])])
            else files[Path(s.inputs[n])]
  }

  /** The step is an export on one input whose destination the guard blocks. */
  ghost predicate Blocked(e: Engine, s: WorkflowStep) {
    && e.kind(s.operationId, s.operationVersion) == Some(Unary) && s.operationId == "export" && |s.inputs| == 1
    && e.destinationBlocked(s.params)
  }

  /** The registered operation takes as many inputs as the step has. */
  ghost predicate Takes(e: Engine, s: WorkflowStep) {
    var kind := e.kind(s.operationId, s.operationVersion);
    (kind == Some(Unary) && |s.inputs| == 1) || (kind == Some(Binary) && |s.inputs| == 2)
  }

  lemma BeginGives(j: Job, c: Config, i: nat, s: WorkflowStep)
    requires Begin(j, c, i, s).pc.Executing? && !c.pc.Executing?
    ensures Begin(j, c, i, s).pc.i == i && Begin(j, c, i, s).d.files == c.d.files
    ensures GivesStored(j.engine, s, c.d.files, Begin(j, c, i, s).pc.inputs)
    ensures Takes(j.engine, s) && !Blocked(j.engine, s)
  {
    var inputs := Load(c.d, s.inputs).value;
    forall n | 0 <= n < |s.inputs| ensures Path(s.inputs[n]) in c.d.files && inputs[n] == c.d.files[Path(s.inputs[n])] {
      assert s.inputs[n] in s.inputs;
    }
  }

  lemma NextGives(j: Job, c: Config, c': Config)
    requires Next(j, c, c') && c'.pc.Executing?
    ensures c'.pc.i < |j.steps|
    ensures GivesStored(j.engine, j.steps[c'.pc.i], c'.d.files, c'.pc.inputs)
    ensures Takes(j.engine, j.steps[c'.pc.i]) && !Blocked(j.engine, j.steps[c'.pc.i])
  {
    if c.pc.AtStep? && c.pc.i < |j.steps| { BeginGives(j, c, c.pc.i, j.steps[c.pc.i]); }
  }

  /** In every trace, of any job: an operation that is about to execute takes as many inputs as the step has, is given
      exactly the stored frames of these inputs, defused if it is an export, and is no export to a blocked place. */
  lemma ExecutesOnStored(j: Job, tr: seq<Config>, k: nat)
    requires IsTrace(j, tr) && k < |tr| && tr[k].pc.Executing?
    ensures tr[k].pc.i < |j.steps|
    ensures GivesStored(j.engine, j.steps[tr[k].pc.i], tr[k].d.files, tr[k].pc.inputs)
    ensures Takes(j.engine, j.steps[tr[k].pc.i]) && !Blocked(j.engine, j.steps[tr[k].pc.i])
  {
    if k > 0 {
      NextGives(j, tr[k - 1], tr[k]);
    }
  }

  // ---- What a finished run holds ----

  lemma AttemptGives(e: Engine, s: WorkflowStep, files: map<string, Frame>, inputs: seq<Frame>)
    returns (given: seq<Frame>)
    requires |inputs| == |s.inputs|
    requires forall n :: 0 <= n < |inputs| ==> Path(s.inputs[n]) in files && inputs[n] == files[Path(s.inputs[n])]
    requires Attempt(e, s, inputs).Done?
    ensures GivesStored(e, s, files, given) && Takes(e, s) && !Blocked(e, s)
    ensures e.execute(s.operationId, s.operationVersion, given, s.params) == Attempt(e, s, inputs)
  {
    given := Prepared(e, e.kind(s.operationId, s.operationVersion).value, s, inputs);
  }

  lemma InputsAreStored(j: Job, tr: seq<Config>, i: nat, s: WorkflowStep)
    requires JobOk(j) && IsTrace(j, tr) && i < |tr| && tr[i].d.state == VERIFYING && s in j.w.steps
    ensures InputsReady(s, Meaning(j)) && |InputFrames(s, Meaning(j))| == |s.inputs|
    ensures forall n :: 0 <= n < |s.inputs| ==>
      Path(s.inputs[n]) in tr[i].d.files && InputFrames(s, Meaning(j))[n] == tr[i].d.files[Path(s.inputs[n])]
  {
    forall ref | ref in s.inputs
      ensures Path(ref) in tr[i].d.files && ref in Meaning(j) && Meaning(j)[ref] == Some(tr[i].d.files[Path(ref)])
    {
      assert ref in Nodes(j.w);
      VerifyingHoldsMeaning(j, tr, i, ref);
    }
  }

  lemma RecordIsAttempt(j: Job, tr: seq<Config>, i: nat, s: WorkflowStep)
    requires JobOk(j) && IsTrace(j, tr) && i < |tr| && tr[i].d.state == VERIFYING && s in j.w.steps
    requires InputsReady(s, Meaning(j))
    ensures s.id in tr[i].d.records && Path(s.id) in tr[i].d.files
    ensures Attempt(j.engine, s, InputFrames(s, Meaning(j))) ==
      Done(tr[i].d.files[Path(s.id)], tr[i].d.records[s.id].evidence)
  {
    ScriptIsSane(j);
    var t := ScriptOf(j);
    Reachable(j, t, tr, i);
    var k, x :| Shaped(j, t, tr[i], k, x);
    ShapeState(j, t, k, x);
    EveryStepIsPlanned(j, s);
    var a :| 0 <= a < |j.steps| && j.steps[a].id == s.id;
    SameStep(j, s, j.steps[a]);
    IdealRecord(j, t, k, a);
    VerifyingHoldsMeaning(j, tr, i, s.id);
    assert FateIsTrue(j, t.m, t.fates, a) && FateIsValue(t.m, s, t.fates[a]);
  }

  /** In a VERIFYING run the file and the evidence of every step are what its operation returned on the very files its
      inputs now have, defused if it is an export. */
  lemma VerifyingIsComputed(j: Job, tr: seq<Config>, i: nat, s: WorkflowStep) returns (given: seq<Frame>)
    requires JobOk(j) && IsTrace(j, tr) && i < |tr| && tr[i].d.state == VERIFYING && s in j.w.steps
    ensures GivesStored(j.engine, s, tr[i].d.files, given) && Takes(j.engine, s) && !Blocked(j.engine, s)
    ensures s.id in tr[i].d.records && Path(s.id) in tr[i].d.files
    ensures j.engine.execute(s.operationId, s.operationVersion, given, s.params) ==
            Done(tr[i].d.files[Path(s.id)], tr[i].d.records[s.id].evidence)
  {
    InputsAreStored(j, tr, i, s);
    RecordIsAttempt(j, tr, i, s);
    given := AttemptGives(j.engine, s, tr[i].d.files, InputFrames(s, Meaning(j)));
  }

  // ---- Blocked exports ----

  ghost predicate DistinctIds(j: Job) {
    forall a, b :: 0 <= a < b < |j.steps| ==> j.steps[a].id != j.steps[b].id
  }

  /** What is on record for a blocked export. */
  ghost predicate Denied(r: StepRecord) {
    r.status == Failed && r.error == Some(PlatformError(POLICY_DENIED, [])) && r.artifact == None
  }

  /** The blocked export at `a` is not being executed, was never executed, and its record is at most a denial. */
  ghost predicate Refuses(j: Job, a: nat, c: Config)
    requires a < |j.steps|
  {
    && (c.pc.Executing? || c.pc.Executed? || c.pc.Saved? ==> c.pc.i != a)
    && j.steps[a].id !in c.log
    && (j.steps[a].id in c.d.records ==> Denied(c.d.records[j.steps[a].id]))
  }

  lemma AdvanceRefuses(j: Job, a: nat, c: Config)
    requires DistinctIds(j) && a < |j.steps| && Blocked(j.engine, j.steps[a]) && Refuses(j, a, c)
    ensures Refuses(j, a, Advance(j, c))
  {
    if !c.pc.Idle? && !c.pc.Quarantining? && c.pc.i < |j.steps| && c.pc.i != a {
      assert j.steps[c.pc.i].id != j.steps[a].id;
    }
  }

  lemma {:induction false} SeededLacksSteps(j: Job, n: nat)
    requires n <= |j.w.sources|
    ensures forall s: WorkflowStep :: s.id !in Seeded(j, n).records
  {
    if n > 0 { SeededLacksSteps(j, n - 1); }
  }

  lemma {:induction false} TraceRefuses(j: Job, tr: seq<Config>, k: nat, a: nat)
    requires DistinctIds(j) && IsTrace(j, tr) && k < |tr| && a < |j.steps| && Blocked(j.engine, j.steps[a])
    ensures Refuses(j, a, tr[k])
  {
    if k == 0 {
      SeededLacksSteps(j, |j.w.sources|);
    } else {
      TraceRefuses(j, tr, k - 1, a);
      assert Next(j, tr[k - 1], tr[k]);
      AdvanceRefuses(j, a, tr[k - 1]);
    }
  }

  lemma BlockedIsRejected(e: Engine, s: WorkflowStep, inputs: seq<Frame>)
    requires Blocked(e, s)
    ensures Attempt(e, s, inputs) == Rejected(PlatformError(POLICY_DENIED, []))
  {
  }

  lemma BlockedStepValue(e: Engine, s: WorkflowStep, v: Valuation)
    requires Blocked(e, s)
    ensures StepValue(e, s, v).None?
  {
    if InputsReady(s, v) { BlockedIsRejected(e, s, InputFrames(s, v)); }
  }

  lemma BlockedHasNoValue(j: Job, s: WorkflowStep)
    requires JobOk(j) && s in j.w.steps && Blocked(j.engine, s)
    ensures s.id in Meaning(j) && Meaning(j)[s.id].None?
  {
    MeaningSolves(j);
    BlockedStepValue(j.engine, s, Meaning(j));
    assert s.id in IdSet(j.w);
  }

  /** An export to a blocked place is never executed, whatever calls and crashes; the most that is ever recorded of
      it is a failure with POLICY_DENIED and no artifact; and no run of the workflow ever is VERIFYING. */
  lemma BlockedExportNeverRuns(j: Job, tr: seq<Config>, k: nat, s: WorkflowStep)
    requires JobOk(j) && IsTrace(j, tr) && k < |tr| && s in j.w.steps && Blocked(j.engine, s)
    ensures s.id !in tr[k].log && tr[k].d.state != VERIFYING
    ensures s.id in tr[k].d.records ==> Denied(tr[k].d.records[s.id])
  {
    StepsDistinct(j);
    EveryStepIsPlanned(j, s);
    var a :| 0 <= a < |j.steps| && j.steps[a].id == s.id;
    SameStep(j, s, j.steps[a]);
    TraceRefuses(j, tr, k, a);
    BlockedHasNoValue(j, s);
    FailingStepNeverVerifies(j, tr, k, s);
  }

  lemma BlockedFate(j: Job, t: Script, a: nat)
    requires Sane(j, t) && DoneBefore(t.fates, a) && a < |j.steps| && Blocked(j.engine, j.steps[a])
    ensures t.fates[a] == Rejected(PlatformError(POLICY_DENIED, []))
  {
    Frontier(j, t, a);
    assert FateIsTrue(j, t.m, t.fates, a);
    assert InputsReady(j.steps[a], t.m);
    BlockedIsRejected(j.engine, j.steps[a], InputFrames(j.steps[a], t.m));
  }

  lemma BlockedStops(j: Job, t: Script, a: nat)
    requires Sane(j, t) && DoneBefore(t.fates, a) && a < |j.steps| && Blocked(j.engine, j.steps[a])
    ensures var d := FinalFrom(j, t, 0);
      d.state == QUARANTINED && j.steps[a].id in d.records && Denied(d.records[j.steps[a].id])
  {
    BlockedFate(j, t, a);
    FinalIgnoresProgress(j, t, a);
    ShapeState(j, t, a, Stopped);
  }

  lemma ValuedAreDone(j: Job, a: nat)
    requires JobOk(j) && a <= |j.steps|
    requires forall b :: 0 <= b < a ==> j.steps[b].id in Meaning(j) && Meaning(j)[j.steps[b].id].Some?
    ensures DoneBefore(ScriptOf(j).fates, a)
  {
    forall b | 0 <= b < a ensures ScriptOf(j).fates[b].Done? { FateIsValued(j, j.steps[b], b); }
  }

  /** And when every step before it has a value, a call that is not cut short records exactly that and quarantines the
      run. */
  lemma BlockedExportQuarantines(j: Job, tr: seq<Config>, k: nat, a: nat)
    requires JobOk(j) && IsTrace(j, tr) && k < |tr| && a < |j.steps| && Blocked(j.engine, j.steps[a])
    requires forall b :: 0 <= b < a ==> j.steps[b].id in Meaning(j) && Meaning(j)[j.steps[b].id].Some?
    ensures var d := Complete(j, Call(Crash(tr[k]))).d;
      d.state == QUARANTINED && j.steps[a].id in d.records && Denied(d.records[j.steps[a].id])
  {
    ScriptIsSane(j);
    var t := ScriptOf(j);
    ValuedAreDone(j, a);
    BlockedStops(j, t, a);
    Reachable(j, t, tr, k);
    var n, x :| Shaped(j, t, tr[k], n, x);
    CallReachesFinal(j, t, tr[k], n, x);
  }

  // ---- What is ever on record about a step ----

  ghost predicate RejectsWith(e: Engine, s: WorkflowStep, error: PlatformError) {
    exists inputs :: e.execute(s.operationId, s.operationVersion, inputs, s.params) == Rejected(error)
  }

  /** Why a step failed: too few or too many inputs, a blocked export, or an error its operation raised. */
  ghost predicate FailsFor(e: Engine, s: WorkflowStep, error: PlatformError) {
    || (e.kind(s.operationId, s.operationVersion).Some? && !Takes(e, s) && error == PlatformError(VALIDATION_FAIL, []))
    || (Blocked(e, s) && error == PlatformError(POLICY_DENIED, []))
    || RejectsWith(e, s, error)
  }

  /** A record of `s`: started, failed for a reason there is, or completed with what its operation reported. */
  ghost predicate IsRecordOf(j: Job, s: WorkflowStep, r: StepRecord) {
    match r.status
    case Running => r == StepRecord(Running, None, None, map[], None)
    case Failed =>
      && r.error.Some? && FailsFor(j.engine, s, r.error.value)
      && r == StepRecord(Failed, Some(s.operationId + "@" + s.operationVersion), None, map[], r.error)
    case Completed =>
      && Genuine(j.engine, s, r.evidence)
      && r == StepRecord(Completed, Some(s.operationId + "@" + s.operationVersion), Some(j.runId + "/" + s.id),
         r.evidence,
                         None)
    case Pending => false
  }

  ghost predicate OutcomeIsReal(j: Job, c: Config) {
    match c.pc
    case Executed(i, Done(_, evidence)) => i < |j.steps| && Genuine(j.engine, j.steps[i], evidence)
    case Executed(i, Rejected(error)) => i < |j.steps| && RejectsWith(j.engine, j.steps[i], error)
    case Executed(i, Escapes) => i < |j.steps|
    case Saved(i, evidence) => i < |j.steps| && Genuine(j.engine, j.steps[i], evidence)
    case _ => true
  }

  ghost predicate Recorded(j: Job, a: nat, c: Config)
    requires a < |j.steps|
  {
    && OutcomeIsReal(j, c)
    && (j.steps[a].id in c.d.records ==> IsRecordOf(j, j.steps[a], c.d.records[j.steps[a].id]))
  }

  lemma BeginRecords(j: Job, a: nat, c: Config, i: nat)
    requires DistinctIds(j) && a < |j.steps| && Recorded(j, a, c) && c.pc == AtStep(i) && i < |j.steps|
    ensures Recorded(j, a, Begin(j, c, i, j.steps[i]))
  {
    assert i < a || i > a ==> j.steps[i].id != j.steps[a].id;
  }

  lemma ConcludeRecords(j: Job, a: nat, c: Config)
    requires DistinctIds(j) && a < |j.steps| && Recorded(j, a, c) && c.pc.Executed?
    ensures Recorded(j, a, Conclude(c, c.pc.i, j.steps[c.pc.i], c.pc.outcome))
  {
    assert c.pc.i < a || c.pc.i > a ==> j.steps[c.pc.i].id != j.steps[a].id;
  }

  lemma AdvanceRecords(j: Job, a: nat, c: Config)
    requires DistinctIds(j) && a < |j.steps| && Recorded(j, a, c)
    ensures Recorded(j, a, Advance(j, c))
  {
    match c.pc
    case Idle =>
    case AtStep(i) => if i < |j.steps| { BeginRecords(j, a, c, i); }
    case Executing(i, inputs) =>
    case Executed(i, outcome) => ConcludeRecords(j, a, c);
    case Saved(i, evidence) => assert i < a || i > a ==> j.steps[i].id != j.steps[a].id;
    case Quarantining =>
  }

  lemma {:induction false} TraceRecords(j: Job, tr: seq<Config>, k: nat, a: nat)
    requires DistinctIds(j) && IsTrace(j, tr) && k < |tr| && a < |j.steps|
    ensures Recorded(j, a, tr[k])
  {
    if k == 0 {
      SeededLacksSteps(j, |j.w.sources|);
    } else {
      TraceRecords(j, tr, k - 1, a);
      assert Next(j, tr[k - 1], tr[k]);
      AdvanceRecords(j, a, tr[k - 1]);
    }
  }

  /** In every trace of a valid workflow, and whatever files its nodes share, a step has no record at all or one of
      these. */
  lemma RecordsAre(j: Job, tr: seq<Config>, k: nat, s: WorkflowStep)
    requires Planned(j) && IsTrace(j, tr) && k < |tr| && s in j.steps && s.id in tr[k].d.records
    ensures IsRecordOf(j, s, tr[k].d.records[s.id])
  {
    StepsDistinct(j);
    var a :| 0 <= a < |j.steps| && j.steps[a] == s;
    TraceRecords(j, tr, k, a);
  }

  /** A source is on record from the start as COMPLETED, with the version locked for it, and stays so. */
  ghost predicate IsSourceRecord(j: Job, name: string, r: StepRecord) {
    r == StepRecord(Completed, None, Some(j.runId + "/" + "source:" + name),
                    map["role" := Str("source"), "snapshot_id" := Str(j.snapshots(name))], None)
  }

  lemma {:induction false} SeededRecordIs(j: Job, n: nat, i: nat)
    requires i < n <= |j.w.sources|
    ensures var ref := "source:" + j.w.sources[i];
      ref in Seeded(j, n).records && IsSourceRecord(j, j.w.sources[i], Seeded(j, n).records[ref])
  {
    assert ArtifactId(j.runId, "source:" + j.w.sources[n - 1]) == j.runId + "/" + "source:" + j.w.sources[n - 1];
    var last, mine := "source:" + j.w.sources[n - 1], "source:" + j.w.sources[i];
    if i < n - 1 {
      SeededRecordIs(j, n - 1, i);
      assert last == mine ==> last[|"source:"|..] == mine[|"source:"|..];
    }
  }

  lemma SourcesStayOnRecord(j: Job, tr: seq<Config>, k: nat, name: string)
    requires JobOk(j) && IsTrace(j, tr) && k < |tr| && name in j.w.sources
    ensures "source:" + name in tr[k].d.records && IsSourceRecord(j, name, tr[k].d.records["source:" + name])
  {
    var i :| 0 <= i < |j.w.sources| && j.w.sources[i] == name;
    SeededRecordIs(j, |j.w.sources|, i);
    FinishedIsForever(j, tr, 0, k, "source:" + name);
  }

  ghost predicate HasFailure(j: Job, d: Durable) {
    exists s :: s in j.steps && s.id in d.records && d.records[s.id].status == Failed
  }

  lemma StoppedHasFailure(j: Job, t: Script, n: nat, x: Delta)
    requires Sane(j, t) && Possible(j, t, n, x) && x.Stopped?
    ensures HasFailure(j, At(j, t, n, x))
  {
    var s, d := j.steps[n], At(j, t, n, x);
    assert s in j.steps && s.id in d.records && d.records[s.id].status == Failed;
  }

  lemma ShapedFailure(j: Job, t: Script, c: Config, n: nat, x: Delta)
    requires Sane(j, t) && Shaped(j, t, c, n, x) && c.d.state == QUARANTINED
    ensures HasFailure(j, c.d)
  {
    ShapeState(j, t, n, x);
    StoppedHasFailure(j, t, n, x);
  }

  /** A run is quarantined only for a step whose failure is on record; an error that is not typed leaves it RUNNING. */
  lemma QuarantinedHasFailure(j: Job, tr: seq<Config>, k: nat)
    requires JobOk(j) && IsTrace(j, tr) && k < |tr| && tr[k].d.state == QUARANTINED
    ensures HasFailure(j, tr[k].d)
  {
    ScriptIsSane(j);
    Reachable(j, ScriptOf(j), tr, k);
    var n, x :| Shaped(j, ScriptOf(j), tr[k], n, x);
    ShapedFailure(j, ScriptOf(j), tr[k], n, x);
  }
}
