/** Any use of the orchestrator: a run started by `StartRun` and then driven by `Run` and `ReleaseRun`, in any order,
    any number of times, on any contracts, with crashes, and with other runs started, run and released in between,
    lives a life. */
module Sessions {
  import opened Values
  import opened Frames
  import opened Dsl
  import opened Denotation
  import opened StateMachine
  import opened Protocol
  import opened Budget
  import opened Orchestrator
  import opened Lifecycle
  import Contract
  import Store

  /** `h` is a life that has led to what the stores hold about the run, and no call is active. */
  ghost predicate Lives(o: WorkflowOrchestrator, x: Setting, runId: string, h: seq<Life>)
    reads o.store, o.artifacts
  {
    && runId in o.store.runs && Drives(x.j, o.engine, runId, x.j.w)
    && x.checks == o.checks && x.snapshots == o.store.runs[runId].snapshots
    && IsLife(x, h) && Rests(h[|h| - 1], o.At(runId))
  }

  ghost predicate Rests(l: Life, d: Durable) {
    l.Live? && l.c.pc.Idle? && l.c.d == d
  }

  // ---- How each call extends a life ----

  lemma Extended(x: Setting, h: seq<Life>, c: Config) returns (h': seq<Life>)
    requires IsLife(x, h) && LifeNext(x, h[|h| - 1], Live(c))
    ensures IsLife(x, h') && h <= h' && h'[|h'| - 1] == Live(c)
  {
    OneMoreStep(x, h, Live(c));
    h' := h + [Live(c)];
  }

  lemma {:induction false} LifeIterates(x: Setting, h: seq<Life>, c: Config, n: nat) returns (h': seq<Life>)
    requires IsLife(x, h) && h[|h| - 1].Live? && Alike(h[|h| - 1].c, c)
    ensures IsLife(x, h') && h <= h' && h'[|h'| - 1].Live? && Alike(h'[|h'| - 1].c, Iterate(x.j, c, n))
  {
    if n == 0 {
      h' := h;
    } else {
      var shorter := LifeIterates(x, h, c, n - 1);
      var last := shorter[|shorter| - 1].c;
      AdvanceAlike(x.j, last, Iterate(x.j, c, n - 1));
      h' := Extended(x, shorter, Advance(x.j, last));
    }
  }

  /** A call of `Run`, cut off or not, is a stretch of the life, and leaves the run at rest. */
  lemma RunLives(x: Setting, h: seq<Life>, before: Durable, after: Durable, r: RunResult, writes: nat)
    returns (h': seq<Life>)
    requires IsLife(x, h) && Rests(h[|h| - 1], before) && Follows(x.j, before, after, r, writes)
    ensures IsLife(x, h') && h <= h' && Rests(h'[|h'| - 1], after)
  {
    var start := Call(Config(before, Idle, []));
    var called := Extended(x, h, Call(h[|h| - 1].c));
    var n := SurvivesBySteps(x.j, start, writes);
    var ran := LifeIterates(x, called, start, n);
    h' := Extended(x, ran, Crash(ran[|ran| - 1].c));
  }

  lemma FollowsReleases(x: Setting, contract: Contract.Contract, before: Durable, after: Durable, r: ReleaseResult)
    requires ReleaseFollows(BriefOn(x, contract), before, after, r)
    ensures Releases(x, before, after)
  {
  }

  lemma ReleaseStep(x: Setting, c: Config, after: Durable)
    requires c.pc.Idle? && Releases(x, c.d, after)
    ensures LifeNext(x, Live(c), Live(c.(d := after)))
  {
    assert Released(x, c, c.(d := after));
  }

  /** A call of `ReleaseRun`, on any contract, is one step of the life. */
  lemma ReleaseLives(x: Setting, h: seq<Life>, contract: Contract.Contract, before: Durable, after: Durable,
                     r: ReleaseResult)
    returns (h': seq<Life>)
    requires IsLife(x, h) && Rests(h[|h| - 1], before) && ReleaseFollows(BriefOn(x, contract), before, after, r)
    ensures IsLife(x, h') && h <= h' && Rests(h'[|h'| - 1], after)
  {
    var c := h[|h| - 1].c;
    FollowsReleases(x, contract, before, after, r);
    ReleaseStep(x, c, after);
    h' := Extended(x, h, c.(d := after));
  }

  /** A successful `StartRun` is the beginning of a life. */
  lemma StartLives(x: Setting) returns (h: seq<Life>)
    requires Admissible(x)
    ensures IsLife(x, h) && Rests(h[|h| - 1], Start(x.j).d)
  {
    h := [Unborn, Opening(DRAFT), Opening(APPROVED), Opening(RUNNING), Live(Start(x.j))];
    forall i | 0 <= i < |h| - 1 ensures StepAt(x, h, i) {}
  }

  // ---- Sessions ----

  method StartOnce(o: WorkflowOrchestrator, w: Workflow, frames: map<string, Frame>, versions: map<string, string>,
                   drifted: bool, terms: Option<Contract.Terms>, granted: set<string>, runId: string, ghost j: Job)
    returns (r: Result<string, PlatformError>, ghost x: Setting, ghost h: seq<Life>)
    requires runId !in o.store.runs && o.store.Records(runId) == map[] && o.artifacts.Files(runId) == map[]
    requires Drives(j, o.engine, runId, w) && Supplies(j, frames, versions)
    modifies o.store, o.artifacts
    ensures r.Ok? <==> Startable(w, frames, versions, drifted, terms, o.gated, granted)
    ensures x == Setting(j, NewRun(w, versions).snapshots, o.checks, frames, versions, drifted, terms, o.gated, granted)
    ensures r.Ok? ==> Lives(o, x, runId, h) && o.store.runs[runId].state == RUNNING
  {
    x := Setting(j, NewRun(w, versions).snapshots, o.checks, frames, versions, drifted, terms, o.gated, granted);
    h := [];
    r := o.StartRun(w, frames, versions, drifted, terms, granted, runId, j);
    if r.Ok? {
      h := StartLives(x);
    }
  }

  /** What may be asked of the orchestrator after that: of the run itself, or of any other run. */
  datatype Request =
    | RunIt(writes: nat)
    | ReleaseIt(contract: Contract.Contract)
    | StartOther(runId: string, w: Workflow, frames: map<string, Frame>, versions: map<string, string>, drifted: bool,
                 terms: Option<Contract.Terms>, granted: set<string>)
    | RunOther(runId: string, w: Workflow, writes: nat)
    | ReleaseOther(runId: string, w: Workflow, contract: Contract.Contract)

  predicate OfOther(q: Request) {
    q.StartOther? || q.RunOther? || q.ReleaseOther?
  }

  predicate Concerns(q: Request, runId: string) {
    OfOther(q) && q.runId == runId
  }

  method RunOnce(o: WorkflowOrchestrator, runId: string, w: Workflow, writes: nat, ghost x: Setting, ghost h: seq<Life>)
    returns (r: RunResult, ghost h': seq<Life>)
    requires Lives(o, x, runId, h) && x.j.w == w && ExecutionOrder(w).Ok?
    modifies o.store, o.artifacts
    ensures Lives(o, x, runId, h') && h <= h' && Follows(x.j, old(o.At(runId)), o.At(runId), r, writes)
  {
    r := o.Run(runId, w, writes, x.j);
    h' := RunLives(x, h, old(o.At(runId)), o.At(runId), r, writes);
  }

  method ReleaseOnce(o: WorkflowOrchestrator, runId: string, w: Workflow, contract: Contract.Contract,
                     ghost x: Setting, ghost h: seq<Life>)
    returns (r: ReleaseResult, ghost h': seq<Life>)
    requires Lives(o, x, runId, h) && x.j.w == w && ExecutionOrder(w).Ok?
    modifies o.store, o.artifacts
    ensures Lives(o, x, runId, h') && h <= h'
    ensures ReleaseFollows(BriefOn(x, contract), old(o.At(runId)), o.At(runId), r)
  {
    r := o.ReleaseRun(runId, w, contract);
    h' := ReleaseLives(x, h, contract, old(o.At(runId)), o.At(runId), r);
  }

  lemma TracedWhileRunning(x: Setting, h: seq<Life>, d: Durable) returns (tr: seq<Config>)
    requires IsLife(x, h) && Rests(h[|h| - 1], d) && d.state == RUNNING
    ensures IsTrace(x.j, tr) && tr[|tr| - 1].d == d
  {
    LifeKeeps(x, h, |h| - 1);
    var c := h[|h| - 1].c;
    assert Traced(x.j, c);
    tr :| EndsIn(x.j, tr, c);
  }

  /** One call by a process that lives through it ends, and leaves a RUNNING run, whatever happened to it before, with
      exactly the stores of one run that never crashed; VERIFYING is returned if and only if every step has a value. */
  method Finish(o: WorkflowOrchestrator, runId: string, w: Workflow, writes: nat, ghost x: Setting, ghost h: seq<Life>)
    returns (r: RunResult, ghost h': seq<Life>)
    requires Lives(o, x, runId, h) && x.j.w == w && JobOk(x.j)
    requires o.store.runs[runId].state == RUNNING && 3 * |w.steps| + 1 <= writes
    modifies o.store, o.artifacts
    ensures Lives(o, x, runId, h') && h <= h'
    ensures !r.Crashed? && o.At(runId) == Complete(x.j, Call(Start(x.j))).d
    ensures r == Returned(VERIFYING) <==> forall s :: s in w.steps ==> s.id in Meaning(x.j) && Meaning(x.j)[s.id].Some?
  {
    ghost var tr := TracedWhileRunning(x, h, o.At(runId));
    r, h' := RunOnce(o, runId, w, writes, x, h);
    AmpleCallFinishes(x.j, tr, o.At(runId), r, writes);
  }

  /** `runId` has its row and its tables as before. */
  twostate predicate Undisturbed(o: WorkflowOrchestrator, runId: string)
    reads o.store, o.artifacts
  {
    && runId in old(o.store.runs) && runId in o.store.runs && o.store.runs[runId] == old(o.store.runs[runId])
    && o.At(runId) == old(o.At(runId))
  }

  /** Running another run, of whatever workflow, changes nothing about this one. */
  method RunAnother(o: WorkflowOrchestrator, other: string, w: Workflow, writes: nat, ghost runId: string)
    requires runId in o.store.runs && other != runId
    modifies o.store, o.artifacts
    ensures Undisturbed(o, runId)
  {
    ghost var j := SomeJobDrives(o.engine, other, w);
    var r := o.Run(other, w, writes, j);
    Store.OtherRunsKept(old(o.store.stepRuns), o.store.stepRuns, other, runId);
    Store.OtherRunsKept(old(o.artifacts.files), o.artifacts.files, other, runId);
  }

  /** Nor does releasing another run. */
  method ReleaseAnother(o: WorkflowOrchestrator, other: string, w: Workflow, contract: Contract.Contract,
                        ghost runId: string)
    requires runId in o.store.runs && other != runId
    modifies o.store, o.artifacts
    ensures Undisturbed(o, runId)
  {
    var r := o.ReleaseRun(other, w, contract);
    Store.OtherRunsKept(old(o.store.stepRuns), o.store.stepRuns, other, runId);
    Store.OtherRunsKept(old(o.artifacts.files), o.artifacts.files, other, runId);
  }

  /** The id is of no run so far. */
  predicate Unused(o: WorkflowOrchestrator, runId: string)
    reads o.store, o.artifacts
  {
    && runId !in o.store.runs
    && (forall k :: k in o.store.stepRuns.Keys ==> k.0 != runId)
    && (forall k :: k in o.artifacts.files.Keys ==> k.0 != runId)
  }

  /** Nor does starting another run, under an id that is not taken. */
  method StartAnother(o: WorkflowOrchestrator, other: string, w: Workflow, frames: map<string, Frame>,
                      versions: map<string, string>, drifted: bool, terms: Option<Contract.Terms>, granted: set<string>,
                      ghost runId: string)
    requires runId in o.store.runs && Unused(o, other)
    modifies o.store, o.artifacts
    ensures Undisturbed(o, runId)
  {
    ghost var j := Job(other, w, [], o.engine, s => if s in frames then frames[s] else Frame([], []),
                       s => if s in versions then versions[s] else "");
    assert o.store.Records(other) == map[] && o.artifacts.Files(other) == map[];
    var r := o.StartRun(w, frames, versions, drifted, terms, granted, other, j);
    Store.OtherRunsKept(old(o.store.stepRuns), o.store.stepRuns, other, runId);
    Store.OtherRunsKept(old(o.artifacts.files), o.artifacts.files, other, runId);
  }

  method ServeOther(o: WorkflowOrchestrator, q: Request, ghost runId: string)
    requires runId in o.store.runs && OfOther(q) && !Concerns(q, runId)
    modifies o.store, o.artifacts
    ensures Undisturbed(o, runId)
  {
    match q {
      case StartOther(other, w, frames, versions, drifted, terms, granted) =>
        if Unused(o, other) { StartAnother(o, other, w, frames, versions, drifted, terms, granted, runId); }
      case RunOther(other, w, writes) =>
        RunAnother(o, other, w, writes, runId);
      case ReleaseOther(other, w, contract) =>
        ReleaseAnother(o, other, w, contract, runId);
    }
  }

  method Serve(o: WorkflowOrchestrator, runId: string, w: Workflow, q: Request, ghost x: Setting, ghost h: seq<Life>)
    returns (ghost h': seq<Life>)
    requires Lives(o, x, runId, h) && x.j.w == w && ExecutionOrder(w).Ok? && !Concerns(q, runId)
    modifies o.store, o.artifacts
    ensures Lives(o, x, runId, h') && h <= h'
  {
    h' := h;
    if q.RunIt? {
      var ran;
      ran, h' := RunOnce(o, runId, w, q.writes, x, h);
    } else if q.ReleaseIt? {
      var released;
      released, h' := ReleaseOnce(o, runId, w, q.contract, x, h);
    } else {
      ServeOther(o, q, runId);
    }
  }

  /** The file of `node` holds its value. */
  ghost predicate Holds(j: Job, d: Durable, node: string)
    requires JobOk(j)
  {
    node in Meaning(j) && Path(node) in d.files && Meaning(j)[node] == Some(d.files[Path(node)])
  }

  ghost predicate AllHold(j: Job, d: Durable)
    requires JobOk(j)
  {
    forall node :: node in Nodes(j.w) ==> Holds(j, d, node)
  }

  lemma ReleasedHoldsAt(x: Setting, h: seq<Life>, d: Durable, node: string)
    requires JobOk(x.j) && IsLife(x, h) && Rests(h[|h| - 1], d) && d.state == RELEASED && node in Nodes(x.j.w)
    ensures Holds(x.j, d, node)
  {
    ReleasedHoldsMeaning(x, h, |h| - 1, node);
  }

  lemma ReleasedHolds(x: Setting, h: seq<Life>, d: Durable)
    requires JobOk(x.j) && IsLife(x, h) && Rests(h[|h| - 1], d) && d.state == RELEASED
    ensures AllHold(x.j, d)
  {
    forall node | node in Nodes(x.j.w) ensures Holds(x.j, d, node) {
      ReleasedHoldsAt(x, h, d, node);
    }
  }

  /** Any sequence of requests keeps the run on a life: so whenever it ends up RELEASED, every artifact in the
      stores is the value the workflow denotes. */
  method Drive(o: WorkflowOrchestrator, runId: string, w: Workflow, requests: seq<Request>, ghost x: Setting,
               ghost h: seq<Life>)
    returns (ghost h': seq<Life>)
    requires Lives(o, x, runId, h) && x.j.w == w && ExecutionOrder(w).Ok?
    requires forall q :: q in requests ==> !Concerns(q, runId)
    modifies o.store, o.artifacts
    ensures Lives(o, x, runId, h') && h <= h'
    ensures JobOk(x.j) && o.At(runId).state == RELEASED ==> AllHold(x.j, o.At(runId))
  {
    h' := h;
    for i := 0 to |requests|
      invariant Lives(o, x, runId, h') && h <= h'
    {
      assert requests[i] in requests;
      h' := Serve(o, runId, w, requests[i], x, h');
    }
    if JobOk(x.j) && o.At(runId).state == RELEASED {
      ReleasedHolds(x, h', o.At(runId));
    }
  }
}
