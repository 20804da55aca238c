/** The crash/resume protocol of one run: `run()` as single durable writes, with a crash possible
    between any two of them, measured against the denotation of the workflow. */
module Protocol {
  import opened Values
  import opened Frames
  import opened Seqs
  import opened Graph
  import opened Dsl
  import opened Denotation
  import opened StateMachine

  // ---- What is durable ----

  datatype StepStatus = Pending | Running | Completed | Failed

  datatype StepRecord = StepRecord(
    status: StepStatus,
    operation: Option<string>,
    artifact: Option<string>,
    evidence: Params,
    error: Option<PlatformError>)

  /** One run as the stores hold it: its state, its step rows, and its artifact files by path. */
  datatype Durable = Durable(state: RunState, records: map<string, StepRecord>, files: map<string, Frame>)

  /** File name of a node: every ':' becomes '_'. */
  function Path(id: string): string {
    seq(|id|, i requires 0 <= i < |id| => if id[i] == ':' then '_' else id[i])
  }

  /** Everything fixed for a run: its workflow, the workflow's steps in execution order, the operations,
      and the frame and snapshot id locked for each declared source name. */
  datatype Job = Job(
    runId: string,
    w: Workflow,
    steps: seq<WorkflowStep>,
    engine: Engine,
    sources: string -> Frame,
    snapshots: string -> string)

  function FullId(s: WorkflowStep): string {
    s.operationId + "@" + s.operationVersion
  }

  function ArtifactId(runId: string, node: string): string {
    runId + "/" + node
  }

  const RUNNING_RECORD := StepRecord(Running, None, None, map[], None)

  function FailedRecord(s: WorkflowStep, e: PlatformError): StepRecord {
    StepRecord(Failed, Some(FullId(s)), None, map[], Some(e))
  }

  function CompletedRecord(runId: string, s: WorkflowStep, evidence: Params): StepRecord {
    StepRecord(Completed, Some(FullId(s)), Some(ArtifactId(runId, s.id)), evidence, None)
  }

  function SourceRecord(runId: string, ref: string, snapshot: string): StepRecord {
    StepRecord(Completed, None, Some(ArtifactId(runId, ref)),
               map["role" := Str("source"), "snapshot_id" := Str(snapshot)], None)
  }

  // ---- Single durable writes ----

  function Upsert(d: Durable, id: string, r: StepRecord): Durable {
    d.(records := d.records[id := r])
  }

  function Save(d: Durable, id: string, f: Frame): Durable {
    d.(files := d.files[Path(id) := f])
  }

  /** `update_run_state`: unchanged when the edge is illegal (the call raises). */
  function Move(d: Durable, target: RunState): Durable {
    if Transition(d.state, target).None? then d.(state := target) else d
  }

  predicate IsCompleted(d: Durable, id: string) {
    id in d.records && d.records[id].status == Completed
  }

  /** The inputs of a step, or None when some artifact file is absent (the read raises). */
  function Load(d: Durable, refs: seq<string>): Option<seq<Frame>> {
    if exists ref :: ref in refs && Path(ref) !in d.files then None
    else Some(seq(|refs|, i requires 0 <= i < |refs| && Path(refs[i]) in d.files => d.files[Path(refs[i])]))
  }

  // ---- run() as a small-step machine ----

  /** Where an active `run()` call stands; `Idle` when no call is active. */
  datatype Pc =
    | Idle
    | AtStep(i: nat)
    | Executing(i: nat, inputs: seq<Frame>)
    | Executed(i: nat, outcome: Outcome)
    | Saved(i: nat, evidence: Params)
    | Quarantining

  /** `log` records every execution of an operation, in order, including those a crash cuts off. */
  datatype Config = Config(d: Durable, pc: Pc, log: seq<string>)

  /** Entering `run()`: anything but a RUNNING run is returned as it is. */
  function Call(c: Config): Config {
    c.(pc := if c.d.state == RUNNING then AtStep(0) else Idle)
  }

  /** The process dies: everything that is not durable is gone. */
  function Crash(c: Config): Config {
    c.(pc := Idle)
  }

  /** The loop head for step `s` at position `i`: skip it, refuse it, or record it as RUNNING. */
  function Begin(j: Job, c: Config, i: nat, s: WorkflowStep): Config {
    if IsCompleted(c.d, s.id) then c.(pc := AtStep(i + 1))
    else
      match j.engine.kind(s.operationId, s.operationVersion)
      case None => c.(pc := Idle)
      case Some(k) =>
        if |s.inputs| != Arity(k) then
          c.(d := Upsert(c.d, s.id, FailedRecord(s, PlatformError(VALIDATION_FAIL, []))), pc := Quarantining)
        else
          match Load(c.d, s.inputs)
          case None => c.(pc := Idle)
          case Some(inputs) =>
            if IsExport(k, s) && j.engine.destinationBlocked(s.params) then
              c.(d := Upsert(c.d, s.id, FailedRecord(s, PlatformError(POLICY_DENIED, []))), pc := Quarantining)
            else
              c.(d := Upsert(c.d, s.id, RUNNING_RECORD), pc := Executing(i, Prepared(j.engine, k, s, inputs)))
  }

  function Conclude(c: Config, i: nat, s: WorkflowStep, outcome: Outcome): Config {
    match outcome
    case Done(output, evidence) => c.(d := Save(c.d, s.id, output), pc := Saved(i, evidence))
    case Rejected(e) => c.(d := Upsert(c.d, s.id, FailedRecord(s, e)), pc := Quarantining)
    case Escapes => c.(pc := Idle)
  }

  /** One step of an active call; each writes at most once. */
  function Advance(j: Job, c: Config): Config {
    match c.pc
    case Idle => c
    case AtStep(i) =>
      if i < |j.steps| then Begin(j, c, i, j.steps[i])
      else c.(d := Move(c.d, VERIFYING), pc := Idle)
    case Executing(i, inputs) =>
      if i < |j.steps| then
        var s := j.steps[i];
        c.(pc := Executed(i, j.engine.execute(s.operationId, s.operationVersion, inputs, s.params)),
           log := c.log + [s.id])
      else Crash(c)
    case Executed(i, outcome) =>
      if i < |j.steps| then Conclude(c, i, j.steps[i], outcome) else Crash(c)
    case Saved(i, evidence) =>
      if i < |j.steps| then
        var s := j.steps[i];
        c.(d := Upsert(c.d, s.id, CompletedRecord(j.runId, s, evidence)), pc := AtStep(i + 1))
      else Crash(c)
    case Quarantining => c.(d := Move(c.d, QUARANTINED), pc := Idle)
  }

  /** Bounds the steps an active call can still take. */
  function Rank(j: Job, pc: Pc): nat {
    var n := |j.steps|;
    match pc
    case Idle => 0
    case AtStep(i) => if i < n then 4 * (n - i) + 4 else 4
    case Executing(i, _) => if i < n then 4 * (n - i) + 3 else 1
    case Executed(i, _) => if i < n then 4 * (n - i) + 2 else 1
    case Saved(i, _) => if i < n then 4 * (n - i) + 1 else 1
    case Quarantining => 1
  }

  /** Let an active call run to its end without a crash. */
  function Complete(j: Job, c: Config): Config
    decreases Rank(j, c.pc)
  {
    if c.pc.Idle? then c else Complete(j, Advance(j, c))
  }

  /** `n` steps of an active call. */
  function Iterate(j: Job, c: Config, n: nat): Config {
    if n == 0 then c else Advance(j, Iterate(j, c, n - 1))
  }

  // ---- Runs: any interleaving of calls, steps and crashes ----

  ghost predicate DistinctPaths(ids: set<string>) {
    forall a, b :: a in ids && b in ids && Path(a) == Path(b) ==> a == b
  }

  /** Distinct nodes have distinct artifact files. */
  ghost predicate InjectivePaths(w: Workflow) {
    DistinctPaths(Nodes(w))
  }

  /** A validated workflow and its steps in execution order. */
  ghost predicate Planned(j: Job) {
    && ValidDag(j.w)
    && ExecutionOrder(j.w) == Ok(StepIds(j.steps))
    && (forall s :: s in j.steps ==> s in j.w.steps)
  }

  /** A planned job in which no two nodes share a file. */
  ghost predicate JobOk(j: Job) {
    Planned(j) && InjectivePaths(j.w)
  }

  /** The stores after `start_run` has seeded the first `n` sources. */
  function Seeded(j: Job, n: nat): Durable
    requires n <= |j.w.sources|
  {
    if n == 0 then Durable(RUNNING, map[], map[])
    else
      var name := j.w.sources[n - 1];
      Upsert(Save(Seeded(j, n - 1), SourceRef(name), j.sources(name)),
             SourceRef(name), SourceRecord(j.runId, SourceRef(name), j.snapshots(name)))
  }

  ghost function Start(j: Job): Config {
    Config(Seeded(j, |j.w.sources|), Idle, [])
  }

  ghost predicate Next(j: Job, c: Config, c': Config) {
    || c' == Advance(j, c)
    || c' == Crash(c)
    || (c.pc.Idle? && c' == Call(c))
  }

  ghost predicate IsTrace(j: Job, t: seq<Config>) {
    t != [] && t[0] == Start(j) && forall i :: 0 <= i < |t| - 1 ==> Next(j, t[i], t[i + 1])
  }

  // ---- The meaning a run must agree with ----

  /** The locked sources as a valuation. */
  ghost function Locked(j: Job): Valuation {
    map ref | ref in SourceRefs(j.w) :: Some(j.sources(ref[|SOURCE_PREFIX|..]))
  }

  ghost function Meaning(j: Job): Valuation
    requires JobOk(j)
  {
    assert forall ref :: ref in SourceRefs(j.w) ==> ref in Locked(j);
    Denote(j.engine, j.w, Locked(j))
  }

  /** Fate of the step at position `i` when its inputs have their values under `m`. */
  ghost function Fate(j: Job, m: Valuation, i: nat): Outcome
    requires i < |j.steps|
  {
    var s := j.steps[i];
    if InputsReady(s, m) then Attempt(j.engine, s, InputFrames(s, m)) else Escapes
  }
}
