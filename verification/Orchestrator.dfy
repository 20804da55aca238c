/** The orchestrator: starting, running and releasing a run through the durable stores, where the process may
    die after any number of durable writes of a `Run` call. */
module Orchestrator {
  import opened Values
  import opened Frames
  import opened Seqs
  import opened Dsl
  import opened Denotation
  import opened StateMachine
  import opened Protocol
  import opened Budget
  import opened StepRows
  import opened Store
  import Contract
  import PolicyGate
  import Reconciliation
  import Validation
  import Verifier
  import Release
  import Assessment

  // ---- Calls as stretches of the protocol ----

  datatype RunResult =
    | Returned(state: RunState)      // the call returned the run
    | Raised(error: PlatformError)   // it raised before touching anything
    | Escaped                        // an error left the call and nothing was quarantined
    | Crashed                        // the process died

  /** `j` describes this run of this workflow on these operations. */
  ghost predicate Drives(j: Job, engine: Engine, runId: string, w: Workflow) {
    && j.runId == runId && j.engine == engine && j.w == w
    && (ExecutionOrder(w).Ok? ==>
          ExecutionOrder(w).value == StepIds(j.steps) && forall s :: s in j.steps ==> StepById(w, s.id) == Ok(s))
  }

  lemma JobDrives(j: Job)
    requires JobOk(j)
    ensures Drives(j, j.engine, j.runId, j.w)
  {
    forall s | s in j.steps ensures StepById(j.w, s.id) == Ok(s) { StepByIdFinds(j.w, s); }
  }

  lemma OrderedIdsExist(w: Workflow, order: seq<string>)
    requires ExecutionOrder(w) == Ok(order)
    ensures forall x :: x in order ==> x in IdSet(w)
  {
    DepsOfKeys(w.steps, IdSet(w));
    Graph.KahnIsCanonical(DepGraph(w), order);
  }

  lemma StepsInOrder(w: Workflow, order: seq<string>) returns (steps: seq<WorkflowStep>)
    requires forall x :: x in order ==> x in IdSet(w)
    ensures StepIds(steps) == order && forall s :: s in steps ==> StepById(w, s.id) == Ok(s)
  {
    steps := [];
    for i := 0 to |order|
      invariant StepIds(steps) == order[..i]
      invariant forall s :: s in steps ==> StepById(w, s.id) == Ok(s)
    {
      assert order[i] in order;
      FindStepExists(w.steps, order[i]);
      steps := steps + [StepById(w, order[i]).value];
    }
    assert order[..|order|] == order;
  }

  /** Some job describes any run of any workflow. */
  lemma SomeJobDrives(engine: Engine, runId: string, w: Workflow) returns (j: Job)
    ensures Drives(j, engine, runId, w)
  {
    var steps: seq<WorkflowStep> := [];
    if ExecutionOrder(w).Ok? {
      OrderedIdsExist(w, ExecutionOrder(w).value);
      steps := StepsInOrder(w, ExecutionOrder(w).value);
    }
    j := Job(runId, w, steps, engine, name => Frame([], []), name => "");
  }

  /** What a caller sees of a call that stands at `c` when it ends or its process dies: only a call that quarantined
      the run or finished it moves the state. */
  function ResultOf(c: Config): RunResult {
    if !c.pc.Idle? then Crashed else if c.d.state == RUNNING then Escaped else Returned(c.d.state)
  }

  /** The call on the stores `before` ended with `r` and left `after`: exactly what a process that lives through
      `writes` durable writes sees of the protocol. */
  ghost predicate Follows(j: Job, before: Durable, after: Durable, r: RunResult, writes: nat) {
    var c := Survive(j, Call(Config(before, Idle, [])), writes);
    after == c.d && r == ResultOf(c)
  }

  /** A call that returned the run returned it in the state it left. */
  lemma FollowsState(j: Job, before: Durable, after: Durable, r: RunResult, writes: nat)
    requires Follows(j, before, after, r, writes) && r.Returned?
    ensures after.state == r.state
  {
  }

  /** A call that was not cut short left exactly what the protocol's whole call leaves. */
  lemma FollowsIsComplete(j: Job, before: Durable, after: Durable, r: RunResult, writes: nat)
    requires Follows(j, before, after, r, writes) && !r.Crashed?
    ensures after == Complete(j, Call(Config(before, Idle, []))).d
  {
    EndedIsComplete(j, Call(Config(before, Idle, [])), writes);
  }

  /** No call needs more than three writes a step and one for the run's state; a process that lives through them
      sees the end of the call. */
  lemma AmpleWritesEnd(j: Job, before: Durable, after: Durable, r: RunResult, writes: nat)
    requires Follows(j, before, after, r, writes) && 3 * |j.steps| + 1 <= writes
    ensures !r.Crashed? && after == Complete(j, Call(Config(before, Idle, []))).d
  {
    EnoughWrites(j, Call(Config(before, Idle, [])), writes);
  }

  /** How one turn of the loop ends. */
  datatype StepEnd = Proceed | End(result: RunResult)

  /** With `left` writes to go the call stands at `c`, at the head of the next turn or for good. */
  ghost predicate EndsAt(j: Job, c: Config, left: nat, i: int, e: StepEnd) {
    match e
    case Proceed => c.pc.AtStep? && c.pc.i == i + 1 && c.d.state == RUNNING
    case End(r) => Survive(j, c, left) == c && r == ResultOf(c)
  }

  /** From `c` with `writes` to go the call gets to `c'` with `left` to go. */
  ghost predicate Leads(j: Job, c: Config, writes: nat, c': Config, left: nat) {
    Survive(j, c, writes) == Survive(j, c', left)
  }

  /** From `c` with `writes` to go, the turn of step `i` left the stores `d` where the call stands at `c'` with `left`
      to go, and ended as `e` says. */
  ghost predicate Turned(j: Job, c: Config, writes: nat, d: Durable, c': Config, left: nat, i: int, e: StepEnd) {
    Leads(j, c, writes, c', left) && d == c'.d && EndsAt(j, c', left, i, e)
  }

  class WorkflowOrchestrator {
    const store: RunStore
    const artifacts: ArtifactStore
    const engine: Engine
    const gated: set<string>
    const checks: Validation.Checks

    constructor (engine: Engine, gated: set<string>, checks: Validation.Checks)
      ensures this.engine == engine && this.gated == gated && this.checks == checks
      ensures fresh(store) && fresh(artifacts) && store.runs == map[] && store.stepRuns == map[]
        && artifacts.files == map[]
    {
      var runStore := new RunStore();
      var artifactStore := new ArtifactStore();
      store, artifacts := runStore, artifactStore;
      this.engine, this.gated, this.checks := engine, gated, checks;
    }

    ghost function At(runId: string): Durable
      requires runId in store.runs
      reads store, artifacts
    {
      View(store, artifacts, runId)
    }

    /** Only the step records and files of `runId` may have changed. */
    twostate predicate OtherTablesKept(runId: string)
      reads store, artifacts
    {
      && Without(store.stepRuns, runId) == old(Without(store.stepRuns, runId))
      && Without(artifacts.files, runId) == old(Without(artifacts.files, runId))
    }

    /** Only the run `runId` may have changed, and of its own row only the state. */
    twostate predicate OthersKept(runId: string)
      reads store, artifacts
    {
      && OtherTablesKept(runId)
      && store.runs.Keys == old(store.runs.Keys)
      && (forall r :: r != runId && r in store.runs ==> store.runs[r] == old(store.runs)[r])
      && (runId in store.runs ==> store.runs[runId] == old(store.runs)[runId].(state := store.runs[runId].state))
    }

    /** The inputs of a step; None when a read raises. */
    method LoadInputs(runId: string, refs: seq<string>) returns (r: Option<seq<Frame>>)
      requires runId in store.runs
      ensures r == Load(At(runId), refs)
    {
      var inputs: seq<Frame> := [];
      for i := 0 to |refs|
        invariant |inputs| == i
        invariant forall k :: 0 <= k < i ==>
          Path(refs[k]) in artifacts.Files(runId) && inputs[k] == artifacts.Files(runId)[Path(refs[k])]
      {
        var f := artifacts.LoadByIds(runId, refs[i]);
        if f.None? {
          assert refs[i] in refs;
          return None;
        }
        inputs := inputs + [f.value];
      }
      r := Some(inputs);
      assert Load(At(runId), refs).Some? by { assert forall ref :: ref in refs ==> Path(ref) in At(runId).files; }
      assert inputs == Load(At(runId), refs).value;
    }

    /** Records `s` as FAILED, then quarantines the run, if the process lives through both writes. */
    method FailStepAndQuarantine(runId: string, s: WorkflowStep, e: PlatformError, writes: nat)
      returns (end: StepEnd, left: nat)
      requires runId in store.runs && store.runs[runId].state == RUNNING
      modifies store
      ensures OthersKept(runId) && runId in store.runs
      ensures At(runId) == StoredFailure(old(At(runId)), s, e, writes)
      ensures end == (if writes < 2 then End(Crashed) else End(Returned(QUARANTINED)))
      ensures left == LeftAfterTwo(writes)
    {
      if writes == 0 {
        return End(Crashed), 0;
      }
      store.UpsertStepRun(runId, s.id, FailedRecord(s, e));
      assert At(runId) == Upsert(old(At(runId)), s.id, FailedRecord(s, e));
      if writes == 1 {
        return End(Crashed), 0;
      }
      var run := store.UpdateRunState(runId, QUARANTINED);
      return End(Returned(QUARANTINED)), writes - 2;
    }

    /** Saves the artifact of `s`, then records it as COMPLETED, if the process lives through both writes. */
    method Commit(runId: string, s: WorkflowStep, output: Frame, evidence: Params, writes: nat)
      returns (end: StepEnd, left: nat)
      requires runId in store.runs
      modifies store, artifacts
      ensures OthersKept(runId) && runId in store.runs
      ensures At(runId) == StoredSuccess(old(At(runId)), runId, s, output, evidence, writes)
      ensures end == (if writes < 2 then End(Crashed) else Proceed)
      ensures left == LeftAfterTwo(writes)
    {
      if writes == 0 {
        return End(Crashed), 0;
      }
      var artifactId := artifacts.Save(runId, s.id, output);
      assert At(runId) == Save(old(At(runId)), s.id, output);
      if writes == 1 {
        return End(Crashed), 0;
      }
      store.UpsertStepRun(runId, s.id, StepRecord(Completed, Some(FullId(s)), Some(artifactId), evidence, None));
      return Proceed, writes - 2;
    }

    /** Executes a step that is recorded as RUNNING, and stores its outcome. */
    method ExecuteStep(runId: string, s: WorkflowStep, i: nat, inputs: seq<Frame>, writes: nat, ghost j: Job,
                       ghost c: Config)
      returns (end: StepEnd, left: nat, ghost c': Config)
      requires runId in store.runs && At(runId) == c.d && c.d.state == RUNNING && c.pc == Executing(i, inputs)
      requires j.engine == engine && j.runId == runId && i < |j.steps| && j.steps[i] == s
      modifies store, artifacts
      ensures OthersKept(runId) && runId in store.runs
      ensures Turned(j, c, writes, At(runId), c', left, i, end)
    {
      var outcome := engine.execute(s.operationId, s.operationVersion, inputs, s.params);
      match outcome {
        case Escapes =>
          c' := EscapeEnds(j, c, i, inputs, writes);
          end, left := End(Escaped), writes;
        case Rejected(e) =>
          c' := RejectionStored(j, c, i, inputs, e, writes);
          end, left := FailStepAndQuarantine(runId, s, e, writes);
        case Done(output, evidence) =>
          c' := SuccessStored(j, c, i, inputs, output, evidence, writes);
          end, left := Commit(runId, s, output, evidence, writes);
      }
    }

    /** Records a step that may not execute as FAILED and quarantines the run. */
    method Refuse(runId: string, s: WorkflowStep, i: nat, e: PlatformError, writes: nat, ghost j: Job, ghost c: Config)
      returns (end: StepEnd, left: nat, ghost c': Config)
      requires runId in store.runs && At(runId) == c.d && c.d.state == RUNNING && c.pc == AtStep(i)
      requires i < |j.steps| && Begin(j, c, i, j.steps[i]) == Refused(c, s, e)
      modifies store
      ensures OthersKept(runId) && runId in store.runs
      ensures Turned(j, c, writes, At(runId), c', left, i, end)
    {
      c' := RefusalStored(j, c, i, s, e, writes);
      end, left := FailStepAndQuarantine(runId, s, e, writes);
    }

    /** Records a step as RUNNING, if the process lives through the write. */
    method RecordRunning(runId: string, s: WorkflowStep, writes: nat) returns (alive: bool)
      requires runId in store.runs
      modifies store`stepRuns
      ensures OthersKept(runId) && alive == (writes > 0)
      ensures At(runId) == if alive then Upsert(old(At(runId)), s.id, RUNNING_RECORD) else old(At(runId))
    {
      alive := writes > 0;
      if alive { store.UpsertStepRun(runId, s.id, RUNNING_RECORD); }
    }

    /** Records a step as RUNNING, then executes it; `c` is where the call stands in between. */
    method StartStep(runId: string, s: WorkflowStep, i: nat, inputs: seq<Frame>, writes: nat, ghost j: Job,
                     ghost c: Config)
      returns (end: StepEnd, left: nat, ghost c': Config, ghost rest: nat)
      requires runId in store.runs && store.runs[runId].state == RUNNING
      requires Upsert(At(runId), s.id, RUNNING_RECORD) == c.d && c.pc == Executing(i, inputs)
      requires j.engine == engine && j.runId == runId && i < |j.steps| && j.steps[i] == s
      modifies store, artifacts
      ensures OthersKept(runId) && runId in store.runs
      ensures writes == 0 ==> end == End(Crashed) && left == 0 && At(runId) == old(At(runId))
      ensures writes > 0 ==> rest == writes - 1 && Turned(j, c, rest, At(runId), c', left, i, end)
    {
      var alive := RecordRunning(runId, s, writes);
      if !alive {
        return End(Crashed), 0, c, 0;
      }
      var fewer: nat := writes - 1;
      rest := fewer;
      end, left, c' := ExecuteStep(runId, s, i, inputs, fewer, j, c);
    }

    /** The part of a turn that executes its step, seen from the head of the turn. */
    method TakeTurn(runId: string, s: WorkflowStep, i: nat, inputs: seq<Frame>, writes: nat, ghost j: Job,
                    ghost c: Config)
      returns (end: StepEnd, left: nat, ghost c': Config)
      requires runId in store.runs && At(runId) == c.d && c.d.state == RUNNING && c.pc == AtStep(i)
      requires j.engine == engine && j.runId == runId && i < |j.steps| && j.steps[i] == s
      requires Begin(j, c, i, s) == c.(d := Upsert(c.d, s.id, RUNNING_RECORD), pc := Executing(i, inputs))
      modifies store, artifacts
      ensures OthersKept(runId) && runId in store.runs
      ensures Turned(j, c, writes, At(runId), c', left, i, end)
    {
      ghost var rest;
      end, left, c', rest := StartStep(runId, s, i, inputs, writes, j, Begin(j, c, i, s));
      if writes == 0 {
        c' := c;
        DeadTurn(j, c, i);
      } else {
        StartedTurn(j, c, i, writes, rest, At(runId), c', left, end);
      }
    }

    /** One turn of the loop: skip a COMPLETED step, refuse it, or record it as RUNNING and execute it. */
    method VisitStep(runId: string, s: WorkflowStep, i: nat, writes: nat, ghost j: Job, ghost c: Config)
      returns (end: StepEnd, left: nat, ghost c': Config)
      requires runId in store.runs && At(runId) == c.d && c.d.state == RUNNING && c.pc == AtStep(i)
      requires j.engine == engine && j.runId == runId && i < |j.steps| && j.steps[i] == s
      modifies store, artifacts
      ensures OthersKept(runId) && runId in store.runs
      ensures Turned(j, c, writes, At(runId), c', left, i, end)
    {
      left, c' := writes, Begin(j, c, i, s);
      QuietTurn(j, c, i, writes);
      var existing := store.GetStepRun(runId, s.id);
      if existing.Some? && existing.value.status.Completed? {
        return Proceed, left, c';
      }
      var kind := engine.kind(s.operationId, s.operationVersion);
      if kind.None? {
        return End(Escaped), left, c';
      }
      if |s.inputs| != Arity(kind.value) {
        end, left, c' := Refuse(runId, s, i, PlatformError(VALIDATION_FAIL, []), writes, j, c);
        return;
      }
      var inputs := LoadInputs(runId, s.inputs);
      if inputs.None? {
        return End(Escaped), left, c';
      }
      if IsExport(kind.value, s) && engine.destinationBlocked(s.params) {
        end, left, c' := Refuse(runId, s, i, PlatformError(POLICY_DENIED, []), writes, j, c);
        return;
      }
      var ready := Prepared(engine, kind.value, s, inputs.value);
      end, left, c' := TakeTurn(runId, s, i, ready, writes, j, c);
    }

    /** The loop over the steps in execution order. */
    method RunSteps(runId: string, w: Workflow, order: seq<string>, writes: nat, ghost j: Job, ghost start: Config)
      returns (end: StepEnd, left: nat, ghost c: Config)
      requires Drives(j, engine, runId, w) && ExecutionOrder(w) == Ok(order)
      requires runId in store.runs && At(runId) == start.d && start.d.state == RUNNING && start.pc == AtStep(0)
      modifies store, artifacts
      ensures OthersKept(runId) && runId in store.runs
      ensures Leads(j, start, writes, c, left) && At(runId) == c.d && |order| == |j.steps|
        && EndsAt(j, c, left, |order| - 1, end)
    {
      left, c := writes, start;
      for i := 0 to |order|
        invariant OthersKept(runId) && runId in store.runs
        invariant Leads(j, start, writes, c, left) && At(runId) == c.d && c.pc == AtStep(i) && c.d.state == RUNNING
      {
        var step := PlannedStep(engine, runId, w, order, i, j);
        ghost var c';
        end, left, c' := VisitStep(runId, step, i, left, j, c);
        c := c';
        if end.End? {
          return;
        }
      }
      end := Proceed;
    }

    /** All steps, then VERIFYING. */
    method RunToEnd(runId: string, w: Workflow, order: seq<string>, writes: nat, ghost j: Job, ghost start: Config)
      returns (r: RunResult)
      requires Drives(j, engine, runId, w) && ExecutionOrder(w) == Ok(order)
      requires runId in store.runs && At(runId) == start.d && start.d.state == RUNNING && start.pc == AtStep(0)
      modifies store, artifacts
      ensures OthersKept(runId) && runId in store.runs
      ensures At(runId) == Survive(j, start, writes).d && r == ResultOf(Survive(j, start, writes))
    {
      var end, left;
      ghost var c;
      end, left, c := RunSteps(runId, w, order, writes, j, start);
      if end.End? {
        return end.result;
      }
      LastTurnLeads(j, c, left);
      if left == 0 {
        return Crashed;
      }
      var updated := store.UpdateRunState(runId, VERIFYING);
      return Returned(updated.value.state);
    }

    /** `run()`: unknown runs raise, a run that is not RUNNING is returned as it is, and a RUNNING one is taken as far
        along the protocol as a process gets that lives through `writes` durable writes. */
    method Run(runId: string, w: Workflow, writes: nat, ghost j: Job) returns (r: RunResult)
      requires Drives(j, engine, runId, w)
      modifies store, artifacts
      ensures OthersKept(runId)
      ensures runId !in old(store.runs) ==> r == Raised(PlatformError(SCHEMA_MISSING, [runId]))
      ensures runId in old(store.runs) && (old(store.runs)[runId].state != RUNNING || ExecutionOrder(w).Ok?) ==>
        Follows(j, old(At(runId)), At(runId), r, writes)
      ensures runId in old(store.runs) && old(store.runs)[runId].state == RUNNING && ExecutionOrder(w).Err? ==>
        r == Raised(ExecutionOrder(w).error) && At(runId) == old(At(runId))
    {
      var run := store.GetRun(runId);
      if run.None? {
        return Raised(PlatformError(SCHEMA_MISSING, [runId]));
      }
      ghost var start := Call(Config(At(runId), Idle, []));
      if run.value.state != RUNNING {
        return Returned(run.value.state);
      }
      var order := TopologicalOrder(w);
      if order.Err? {
        return Raised(order.error);
      }
      r := RunToEnd(runId, w, order.value, writes, j, start);
    }

    /** The checks `start_run` makes before it writes anything. */
    method Preflight(w: Workflow, frames: map<string, Frame>, versions: map<string, string>, drifted: bool,
                     contract: Option<Contract.Terms>, granted: set<string>)
      returns (refused: Option<PlatformError>)
      ensures refused.None? <==> Startable(w, frames, versions, drifted, contract, gated, granted)
      ensures refused.Some? ==> refused.value.code == Refusal(w, frames, versions, drifted)
    {
      var invalid := ValidateDag(w);
      ValidateDagIff(w);
      if invalid.Some? {
        return invalid;
      }
      if exists s :: s in w.sources && (s !in frames || s !in versions) {
        return Some(PlatformError(SCHEMA_MISSING, w.sources));
      }
      if drifted {
        return Some(PlatformError(SCHEMA_DRIFT, []));
      }
      var gate := PolicyGate.Evaluate(w, contract, gated, granted);
      PolicyGate.ProceedsIff(w, contract, gated, granted);
      refused := if gate.verdict == PolicyGate.BLOCKED then Some(PlatformError(POLICY_DENIED, [])) else None;
    }

    /** Saves the frame of a source and records it as COMPLETED. */
    method SeedSource(runId: string, name: string, frame: Frame, snapshot: string, ghost j: Job, ghost i: nat)
      requires runId in store.runs && i < |j.w.sources| && At(runId) == Seeded(j, i)
      requires j.runId == runId && j.w.sources[i] == name && j.sources(name) == frame && j.snapshots(name) == snapshot
      modifies store`stepRuns, artifacts
      ensures OtherTablesKept(runId) && At(runId) == Seeded(j, i + 1)
    {
      var node := SourceRef(name);
      var artifactId := artifacts.Save(runId, node, frame);
      store.UpsertStepRun(runId, node, StepRecord(Completed, None, Some(artifactId), SourceEvidence(snapshot), None));
    }

    /** Seeds every declared source, in order. */
    method SeedSources(w: Workflow, frames: string -> Frame, versions: string -> string, runId: string, ghost j: Job)
      requires runId in store.runs && At(runId) == Seeded(j, 0)
      requires j.runId == runId && j.w == w && j.sources == frames && j.snapshots == versions
      modifies store`stepRuns, artifacts
      ensures OtherTablesKept(runId) && At(runId) == Seeded(j, |w.sources|)
    {
      for i := 0 to |w.sources|
        invariant OtherTablesKept(runId) && At(runId) == Seeded(j, i)
      {
        SeedSource(runId, w.sources[i], frames(w.sources[i]), versions(w.sources[i]), j, i);
      }
    }

    /** The row of a new run, taken through DRAFT and APPROVED to RUNNING. */
    method OpenRun(w: Workflow, versions: map<string, string>, runId: string)
      requires runId !in store.runs
      modifies store`runs
      ensures store.runs == old(store.runs)[runId := NewRun(w, versions).(state := RUNNING)]
    {
      var created := store.CreateRun(runId, NewRun(w, versions));
      var approved := store.UpdateRunState(runId, APPROVED);
      var running := store.UpdateRunState(runId, RUNNING);
    }

    /** `start_run`: nothing is written unless the workflow is valid, every source has a frame and a version, no
        source drifted and the policy gate lets it pass; then the run is RUNNING with every source seeded. */
    method StartRun(w: Workflow, frames: map<string, Frame>, versions: map<string, string>, drifted: bool,
                    contract: Option<Contract.Terms>, granted: set<string>, runId: string, ghost j: Job)
      returns (r: Result<string, PlatformError>)
      requires runId !in store.runs && store.Records(runId) == map[] && artifacts.Files(runId) == map[]
      requires j.runId == runId && j.w == w && Supplies(j, frames, versions)
      modifies store, artifacts
      ensures r.Ok? <==> Startable(w, frames, versions, drifted, contract, gated, granted)
      ensures r.Err? ==> r.error.code == Refusal(w, frames, versions, drifted)
      ensures r.Err? ==> unchanged(store) && unchanged(artifacts)
      ensures r.Ok? ==>
        r.value == runId && store.runs == old(store.runs)[runId := NewRun(w, versions).(state := RUNNING)]
      ensures r.Ok? ==> runId in store.runs && At(runId) == Start(j).d && Locks(store.runs[runId], w, versions)
      ensures OtherTablesKept(runId)
    {
      var refused := Preflight(w, frames, versions, drifted, contract, granted);
      if refused.Some? {
        return Err(refused.value);
      }
      OpenRun(w, versions, runId);
      var frameOf := name => if name in frames then frames[name] else Frame([], []);
      var versionOf := name => if name in versions then versions[name] else "";
      ghost var supplied := j.(sources := frameOf, snapshots := versionOf);
      SeedSources(w, frameOf, versionOf, runId, supplied);
      SeededAlike(j, supplied, |w.sources|);
      NewRunLocks(w, versions);
      return Ok(runId);
    }

    /** The artifacts of some nodes, read in any order; None when a read raises. */
    method LoadArtifacts(runId: string, nodes: set<string>) returns (r: Option<map<string, Frame>>)
      requires runId in store.runs
      ensures r.Some? <==> Assessment.AllStored(nodes, artifacts.Files(runId))
      ensures r.Some? ==> r.value == Assessment.Artifacts(nodes, artifacts.Files(runId))
    {
      var left := nodes;
      var loaded: map<string, Frame> := map[];
      while left != {}
        invariant left <= nodes && loaded.Keys == nodes - left
        invariant forall ref :: ref in loaded ==>
          Path(ref) in artifacts.Files(runId) && loaded[ref] == artifacts.Files(runId)[Path(ref)]
        decreases |left|
      {
        var ref :| ref in left;
        var f := artifacts.LoadByIds(runId, ref);
        if f.None? {
          return None;
        }
        loaded := loaded[ref := f.value];
        left := left - {ref};
      }
      assert loaded.Keys == nodes;
      assert loaded == Assessment.Artifacts(nodes, artifacts.Files(runId));
      r := Some(loaded);
    }

    /** The whole assessment of a run; None when a read of an artifact raises. */
    method Assess(runId: string, b: Assessment.Brief)
      returns (r: Option<Assessment.Assessment>, ghost rows: seq<StepRow>)
      requires runId in store.runs
      ensures r.None? <==> !Assessment.Readable(b, artifacts.Files(runId))
      ensures r.Some? ==> Assessment.Assesses(b, At(runId), rows, r.value)
    {
      var terms := b.contract.terms;
      rows := [];
      var results := Validation.Validate(terms, b.w, artifacts.Files(runId), b.checks);
      if results.None? {
        return None, rows;
      }
      var loaded := LoadArtifacts(runId, Assessment.Needed(b.w));
      if loaded.None? {
        return None, rows;
      }
      var report := Reconciliation.Reconcile(terms, b.w, loaded.value);
      var listed := store.ListStepRuns(runId);
      rows := listed;
      var verified := Verifier.Verify(terms, b.w, b.snapshots, listed);
      var decision := Release.Decide(Release.Case(b.contract, store.runs[runId].state, verified, Some(results.value),
        Some(report)));
      var scores := Release.Score(terms, b.w, listed, results.value, report, verified);
      return Some(Assessment.Assessment(results.value, report, verified, decision, scores)), rows;
    }

    /** Moves an assessed run to where its decision takes it; a terminal run stays. */
    method Settle(runId: string, state: RunState, a: Assessment.Assessment) returns (r: ReleaseResult)
      requires runId in store.runs && store.runs[runId].state == state
      modifies store`runs
      ensures OthersKept(runId) && runId in store.runs
      ensures Settles(old(At(runId)), At(runId), a, r)
    {
      if Assessment.Terminal(state) {
        return Assessed(state, a);
      }
      var target := if a.decision.decision == Release.RELEASE then RELEASED else QUARANTINED;
      var moved := store.UpdateRunState(runId, target);
      r := if moved.Err? then Illegal(moved.error, a) else Assessed(moved.value.state, a);
    }

    /** `release`: assess the run, then move it unless its state is terminal. */
    method ReleaseRun(runId: string, w: Workflow, contract: Contract.Contract) returns (r: ReleaseResult)
      modifies store`runs
      ensures OthersKept(runId)
      ensures runId !in old(store.runs) ==> r == Unassessed(PlatformError(SCHEMA_MISSING, [runId]))
      ensures runId in old(store.runs) ==> ReleaseFollows(
        Assessment.Brief(w, contract, old(store.runs)[runId].snapshots, checks), old(At(runId)), At(runId), r)
    {
      var run := store.GetRun(runId);
      if run.None? {
        return Unassessed(PlatformError(SCHEMA_MISSING, [runId]));
      }
      var order := TopologicalOrder(w);
      if order.Err? {
        return Unassessed(order.error);
      }
      var brief := Assessment.Brief(w, contract, run.value.snapshots, checks);
      r := AssessAndSettle(runId, brief, run.value.state);
    }

    method AssessAndSettle(runId: string, b: Assessment.Brief, state: RunState) returns (r: ReleaseResult)
      requires runId in store.runs && store.runs[runId].state == state && ExecutionOrder(b.w).Ok?
      modifies store`runs
      ensures OthersKept(runId) && runId in store.runs
      ensures ReleaseFollows(b, old(At(runId)), At(runId), r)
    {
      var assessed;
      ghost var rows;
      assessed, rows := Assess(runId, b);
      if assessed.None? {
        return Lost;
      }
      assert AssessedAs(b, At(runId), assessed.value);
      r := Settle(runId, state, assessed.value);
    }
  }

  // ---- Releasing ----

  datatype ReleaseResult =
    | Assessed(state: RunState, assessment: Assessment.Assessment)         // returned the run with its assessment
    | Illegal(error: PlatformError, assessment: Assessment.Assessment)     // raised on the state change
    | Unassessed(error: PlatformError)                                     // raised before assessing
    | Lost                                                                 // reading an artifact raised

  /** The stores went from `before` to `after` by one `release`: at most the state has changed, to where the
      assessment takes it. */
  ghost predicate ReleaseFollows(b: Assessment.Brief, before: Durable, after: Durable, r: ReleaseResult) {
    match r
    case Unassessed(e) => after == before && ExecutionOrder(b.w) == Err(e)
    case Lost => after == before && ExecutionOrder(b.w).Ok? && !Assessment.Readable(b, before.files)
    case Assessed(_, a) => ExecutionOrder(b.w).Ok? && AssessedAs(b, before, a) && Settles(before, after, a, r)
    case Illegal(_, a) => ExecutionOrder(b.w).Ok? && AssessedAs(b, before, a) && Settles(before, after, a, r)
  }

  /** The state changes along the decision's edge; an illegal edge raises and changes nothing. */
  ghost predicate Settles(before: Durable, after: Durable, a: Assessment.Assessment, r: ReleaseResult) {
    && after == before.(state := Assessment.Destination(before.state, a.decision.decision))
    && match r
       case Assessed(state, x) => x == a && state == after.state && Assessment.Terminal(after.state)
       case Illegal(e, x) => x == a && e.code == VALIDATION_FAIL && after == before
         && !Assessment.Terminal(before.state)
       case Unassessed(_) => false
       case Lost => false
  }

  ghost predicate AssessedAs(b: Assessment.Brief, d: Durable, a: Assessment.Assessment) {
    exists rows :: Assessment.Assesses(b, d, rows, a)
  }

  // ---- Starting ----

  function SourceEvidence(snapshot: string): Params {
    map["role" := Str("source"), "snapshot_id" := Str(snapshot)]
  }

  /** The seeded stores depend on the declared sources only. */
  lemma {:induction false} SeededAlike(j: Job, k: Job, n: nat)
    requires n <= |j.w.sources| && k.w == j.w && k.runId == j.runId
    requires forall s :: s in j.w.sources ==> j.sources(s) == k.sources(s) && j.snapshots(s) == k.snapshots(s)
    ensures Seeded(j, n) == Seeded(k, n)
  {
    if n > 0 {
      SeededAlike(j, k, n - 1);
      assert j.w.sources[n - 1] in j.w.sources;
    }
  }

  /** The job is about the frames and snapshot ids given for its sources. */
  ghost predicate Supplies(j: Job, frames: map<string, Frame>, versions: map<string, string>) {
    forall s :: s in j.w.sources ==>
      (s in frames ==> j.sources(s) == frames[s]) && (s in versions ==> j.snapshots(s) == versions[s])
  }

  function NewRun(w: Workflow, versions: map<string, string>): RunRecord {
    RunRecord(w.version, w.contractId, DRAFT, map s | s in w.sources && s in versions :: versions[s])
  }

  /** The row is that of a run of this workflow and contract, with the version of every source locked. */
  ghost predicate Locks(run: RunRecord, w: Workflow, versions: map<string, string>) {
    && run.workflowVersion == w.version && run.contractId == w.contractId
    && (forall s :: s in run.snapshots <==> s in w.sources && s in versions)
    && (forall s :: s in run.snapshots ==> run.snapshots[s] == versions[s])
  }

  lemma NewRunLocks(w: Workflow, versions: map<string, string>)
    ensures Locks(NewRun(w, versions).(state := RUNNING), w, versions)
  {
  }

  ghost predicate AllSupplied(w: Workflow, frames: map<string, Frame>, versions: map<string, string>) {
    forall s :: s in w.sources ==> s in frames && s in versions
  }

  /** A valid workflow, all sources supplied and undrifted, every approval granted and nothing prohibited. */
  ghost predicate Startable(w: Workflow, frames: map<string, Frame>, versions: map<string, string>, drifted: bool,
                            contract: Option<Contract.Terms>, gated: set<string>, granted: set<string>) {
    && ValidDag(w) && AllSupplied(w, frames, versions) && !drifted
    && PolicyGate.AllGranted(w, contract, gated, granted) && PolicyGate.NothingForbidden(w, contract)
  }

  /** The code of the first check that refuses a workflow. */
  ghost function Refusal(w: Workflow, frames: map<string, Frame>, versions: map<string, string>,
                         drifted: bool): ErrorCode {
    if !ValidDag(w) then (if UniqueIds(w) && !RefsKnown(w) then SCHEMA_MISSING else VALIDATION_FAIL)
    else if !AllSupplied(w, frames, versions) then SCHEMA_MISSING
    else if drifted then SCHEMA_DRIFT
    else POLICY_DENIED
  }

  // ---- What a number of writes is worth ----

  /** A failure stored as far as `writes` allow. */
  function StoredFailure(d: Durable, s: WorkflowStep, e: PlatformError, writes: nat): Durable {
    var failed := Upsert(d, s.id, FailedRecord(s, e));
    if writes == 0 then d else if writes == 1 then failed else Move(failed, QUARANTINED)
  }

  /** A result stored as far as `writes` allow. */
  function StoredSuccess(d: Durable, runId: string, s: WorkflowStep, output: Frame, evidence: Params,
                         writes: nat): Durable {
    var saved := Save(d, s.id, output);
    if writes == 0 then d else if writes == 1 then saved else Upsert(saved, s.id, CompletedRecord(runId, s, evidence))
  }

  function LeftAfterTwo(writes: nat): nat {
    if writes < 2 then 0 else writes - 2
  }

  /** The step is recorded as FAILED and the run is about to be quarantined. */
  function Refused(c: Config, s: WorkflowStep, e: PlatformError): Config {
    c.(d := Upsert(c.d, s.id, FailedRecord(s, e)), pc := Quarantining)
  }

  /** The step at position `i`, as `step_by_id` finds it. */
  function PlannedStep(engine: Engine, runId: string, w: Workflow, order: seq<string>, i: nat,
                       ghost j: Job): (s: WorkflowStep)
    requires Drives(j, engine, runId, w) && ExecutionOrder(w) == Ok(order) && i < |order|
    ensures i < |j.steps| && s == j.steps[i]
  {
    assert j.steps[i] in j.steps && StepIds(j.steps)[i] == j.steps[i].id;
    StepById(w, order[i]).value
  }

  /** A turn that writes nothing costs nothing. */
  lemma QuietTurn(j: Job, c: Config, i: nat, writes: nat)
    requires i < |j.steps| && c.pc == AtStep(i)
    ensures var c' := Begin(j, c, i, j.steps[i]);
      c'.pc.AtStep? || c'.pc.Idle? ==> Leads(j, c, writes, c', writes)
  {
  }

  lemma DeadTurn(j: Job, c: Config, i: nat)
    requires i < |j.steps| && c.pc == AtStep(i) && Begin(j, c, i, j.steps[i]).pc.Executing?
    ensures Turned(j, c, 0, c.d, c, 0, i, End(Crashed))
  {
  }

  /** A turn that gets to executing its step has cost a write. */
  lemma StartedTurn(j: Job, c: Config, i: nat, writes: nat, rest: nat, d: Durable, c': Config, left: nat, e: StepEnd)
    requires i < |j.steps| && c.pc == AtStep(i) && Begin(j, c, i, j.steps[i]).pc.Executing? && writes == rest + 1
    requires Turned(j, Begin(j, c, i, j.steps[i]), rest, d, c', left, i, e)
    ensures Turned(j, c, writes, d, c', left, i, e)
  {
    assert Survive(j, c, writes) == Survive(j, Begin(j, c, i, j.steps[i]), rest);
  }

  lemma LastTurnLeads(j: Job, c: Config, left: nat)
    requires c.pc == AtStep(|j.steps|)
    ensures Survive(j, c, left) == if left == 0 then c else Advance(j, c)
  {
  }

  /** A failure on record still has to quarantine the run. */
  lemma QuarantineLeads(j: Job, c: Config, writes: nat)
    requires c.pc.Quarantining?
    ensures Survive(j, c, writes) == if writes == 0 then c else c.(d := Move(c.d, QUARANTINED), pc := Idle)
  {
  }

  lemma RefusalStored(j: Job, c: Config, i: nat, s: WorkflowStep, e: PlatformError, writes: nat) returns (c': Config)
    requires i < |j.steps| && c.pc == AtStep(i) && c.d.state == RUNNING
      && Begin(j, c, i, j.steps[i]) == Refused(c, s, e)
    ensures Leads(j, c, writes, c', LeftAfterTwo(writes)) && c'.d == StoredFailure(c.d, s, e, writes)
    ensures EndsAt(j, c', LeftAfterTwo(writes), i, if writes < 2 then End(Crashed) else End(Returned(QUARANTINED)))
  {
    c' := Survive(j, c, writes);
    if writes > 0 { QuarantineLeads(j, Refused(c, s, e), writes - 1); }
  }

  lemma ExecutionLeads(j: Job, c: Config, i: nat, inputs: seq<Frame>, outcome: Outcome, writes: nat)
    returns (c1: Config)
    requires i < |j.steps| && c.pc == Executing(i, inputs)
    requires outcome == j.engine.execute(j.steps[i].operationId, j.steps[i].operationVersion, inputs, j.steps[i].params)
    ensures Leads(j, c, writes, c1, writes) && c1.d == c.d && c1.pc == Executed(i, outcome)
    ensures Advance(j, c1) == Conclude(c1, i, j.steps[i], outcome)
  {
    c1 := Advance(j, c);
  }

  lemma EscapeEnds(j: Job, c: Config, i: nat, inputs: seq<Frame>, writes: nat) returns (c': Config)
    requires i < |j.steps| && c.pc == Executing(i, inputs) && c.d.state == RUNNING
    requires j.engine.execute(j.steps[i].operationId, j.steps[i].operationVersion, inputs, j.steps[i].params).Escapes?
    ensures Leads(j, c, writes, c', writes) && c'.d == c.d && EndsAt(j, c', writes, i, End(Escaped))
  {
    var c1 := ExecutionLeads(j, c, i, inputs, Escapes, writes);
    c' := c1.(pc := Idle);
    assert Survive(j, c1, writes) == Survive(j, c', writes);
  }

  lemma RejectionStored(j: Job, c: Config, i: nat, inputs: seq<Frame>, e: PlatformError, writes: nat)
    returns (c': Config)
    requires i < |j.steps| && c.pc == Executing(i, inputs) && c.d.state == RUNNING
    requires j.engine.execute(j.steps[i].operationId, j.steps[i].operationVersion, inputs, j.steps[i].params) ==
      Rejected(e)
    ensures Leads(j, c, writes, c', LeftAfterTwo(writes)) && c'.d == StoredFailure(c.d, j.steps[i], e, writes)
    ensures EndsAt(j, c', LeftAfterTwo(writes), i, if writes < 2 then End(Crashed) else End(Returned(QUARANTINED)))
  {
    var c1 := ExecutionLeads(j, c, i, inputs, Rejected(e), writes);
    var c2 := Refused(c1, j.steps[i], e);
    c' := Survive(j, c1, writes);
    if writes > 0 {
      assert Survive(j, c1, writes) == Survive(j, c2, writes - 1);
      QuarantineLeads(j, c2, writes - 1);
    }
  }

  lemma SuccessStored(j: Job, c: Config, i: nat, inputs: seq<Frame>, output: Frame, evidence: Params, writes: nat)
    returns (c': Config)
    requires i < |j.steps| && c.pc == Executing(i, inputs) && c.d.state == RUNNING
    requires j.engine.execute(j.steps[i].operationId, j.steps[i].operationVersion, inputs, j.steps[i].params) ==
      Done(output, evidence)
    ensures Leads(j, c, writes, c', LeftAfterTwo(writes))
    ensures c'.d == StoredSuccess(c.d, j.runId, j.steps[i], output, evidence, writes)
    ensures EndsAt(j, c', LeftAfterTwo(writes), i, if writes < 2 then End(Crashed) else Proceed)
  {
    var s := j.steps[i];
    var c1 := ExecutionLeads(j, c, i, inputs, Done(output, evidence), writes);
    var c2 := c1.(d := Save(c1.d, s.id, output), pc := Saved(i, evidence));
    var c3 := c2.(d := Upsert(c2.d, s.id, CompletedRecord(j.runId, s, evidence)), pc := AtStep(i + 1));
    assert writes > 0 ==> Survive(j, c1, writes) == Survive(j, c2, writes - 1);
    assert writes > 1 ==> Survive(j, c2, writes - 1) == Survive(j, c3, writes - 2);
    c' := if writes == 0 then c1 else if writes == 1 then c2 else c3;
  }
}
