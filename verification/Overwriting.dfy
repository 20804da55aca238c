/** What is left of a run in which nodes do share files: whoever wrote a file last. */
module Overwriting {
  import opened Values
  import opened Frames
  import opened Dsl
  import opened Denotation
  import opened StateMachine
  import opened Protocol
  import opened Recovery

  /** The operation of `s` returned `output`, for some inputs. */
  ghost predicate Returns(e: Engine, s: WorkflowStep, output: Frame) {
    exists inputs, evidence :: e.execute(s.operationId, s.operationVersion, inputs, s.params) == Done(output, evidence)
  }

  /** The file at `path` is an output of some step whose file it is. */
  ghost predicate WrittenByStep(j: Job, d: Durable, path: string) {
    path in d.files && exists s :: s in j.steps && Path(s.id) == path && Returns(j.engine, s, d.files[path])
  }

  ghost predicate DoneUpTo(j: Job, d: Durable, n: nat) {
    n <= |j.steps| && forall k :: 0 <= k < n ==> IsCompleted(d, j.steps[k].id)
  }

  /** Every COMPLETED step has had its file written by a step. */
  ghost predicate FilesWritten(j: Job, d: Durable) {
    forall s :: s in j.steps && IsCompleted(d, s.id) ==> WrittenByStep(j, d, Path(s.id))
  }

  ghost predicate OutcomeOf(e: Engine, s: WorkflowStep, outcome: Outcome) {
    outcome.Done? ==> Returns(e, s, outcome.output)
  }

  /** The call has finished all earlier steps, and what it holds of its own step comes from that step's operation. */
  ghost predicate PcTracks(j: Job, c: Config) {
    match c.pc
    case Idle => true
    case AtStep(i) => DoneUpTo(j, c.d, i)
    case Executing(i, _) => i < |j.steps| && DoneUpTo(j, c.d, i)
    case Executed(i, outcome) => i < |j.steps| && DoneUpTo(j, c.d, i) && OutcomeOf(j.engine, j.steps[i], outcome)
    case Saved(i, _) => i < |j.steps| && DoneUpTo(j, c.d, i) && WrittenByStep(j, c.d, Path(j.steps[i].id))
    case Quarantining => true
  }

  ghost predicate Tracks(j: Job, c: Config) {
    && FilesWritten(j, c.d) && PcTracks(j, c)
    && (c.pc.Idle? || c.d.state == RUNNING)
    && (c.d.state == VERIFYING ==> DoneUpTo(j, c.d, |j.steps|))
  }

  ghost predicate DistinctSteps(j: Job) {
    forall a, b :: 0 <= a < b < |j.steps| ==> j.steps[a].id != j.steps[b].id
  }

  // ---- Single writes ----

  lemma UpsertKeepsEarlier(j: Job, d: Durable, i: nat, r: StepRecord)
    requires DistinctSteps(j) && i < |j.steps| && DoneUpTo(j, d, i)
    ensures DoneUpTo(j, Upsert(d, j.steps[i].id, r), i)
  {
  }

  lemma UpsertKeepsWritten(j: Job, d: Durable, i: nat, r: StepRecord)
    requires FilesWritten(j, d) && i < |j.steps|
    requires r.status == Completed ==> WrittenByStep(j, d, Path(j.steps[i].id))
    ensures FilesWritten(j, Upsert(d, j.steps[i].id, r))
  {
    var d' := Upsert(d, j.steps[i].id, r);
    forall s | s in j.steps && IsCompleted(d', s.id) ensures WrittenByStep(j, d', Path(s.id)) {
      if s.id != j.steps[i].id { assert IsCompleted(d, s.id); }
      assert WrittenByStep(j, d, Path(s.id));
    }
  }

  lemma SaveWrites(j: Job, d: Durable, i: nat, output: Frame, path: string)
    requires i < |j.steps| && Returns(j.engine, j.steps[i], output)
    requires path == Path(j.steps[i].id) || WrittenByStep(j, d, path)
    ensures WrittenByStep(j, Save(d, j.steps[i].id, output), path)
  {
    assert j.steps[i] in j.steps;
  }

  lemma SaveKeepsWritten(j: Job, d: Durable, i: nat, output: Frame)
    requires FilesWritten(j, d) && i < |j.steps| && Returns(j.engine, j.steps[i], output)
    ensures FilesWritten(j, Save(d, j.steps[i].id, output))
    ensures WrittenByStep(j, Save(d, j.steps[i].id, output), Path(j.steps[i].id))
  {
    var d' := Save(d, j.steps[i].id, output);
    SaveWrites(j, d, i, output, Path(j.steps[i].id));
    forall s | s in j.steps && IsCompleted(d', s.id) ensures WrittenByStep(j, d', Path(s.id)) {
      assert IsCompleted(d, s.id);
      SaveWrites(j, d, i, output, Path(s.id));
    }
  }

  // ---- Steps of a call ----

  lemma BeginTracks(j: Job, c: Config, i: nat)
    requires DistinctSteps(j) && Tracks(j, c) && c.pc == AtStep(i) && i < |j.steps|
    ensures Tracks(j, Begin(j, c, i, j.steps[i]))
  {
    var s, c' := j.steps[i], Begin(j, c, i, j.steps[i]);
    if c'.d != c.d {
      var r := c'.d.records[s.id];
      UpsertKeepsEarlier(j, c.d, i, r);
      UpsertKeepsWritten(j, c.d, i, r);
    }
  }

  lemma ConcludeTracks(j: Job, c: Config, i: nat, outcome: Outcome)
    requires DistinctSteps(j) && Tracks(j, c) && c.pc == Executed(i, outcome)
    ensures Tracks(j, Conclude(c, i, j.steps[i], outcome))
  {
    match outcome
    case Done(output, evidence) => SaveKeepsWritten(j, c.d, i, output);
    case Rejected(e) => UpsertKeepsWritten(j, c.d, i, FailedRecord(j.steps[i], e));
    case Escapes =>
  }

  lemma CommitTracks(j: Job, c: Config, i: nat, evidence: Params)
    requires DistinctSteps(j) && Tracks(j, c) && c.pc == Saved(i, evidence)
    ensures Tracks(j, Advance(j, c))
  {
    var r := CompletedRecord(j.runId, j.steps[i], evidence);
    UpsertKeepsEarlier(j, c.d, i, r);
    UpsertKeepsWritten(j, c.d, i, r);
  }

  lemma AdvanceTracks(j: Job, c: Config)
    requires DistinctSteps(j) && Tracks(j, c)
    ensures Tracks(j, Advance(j, c))
  {
    match c.pc
    case Idle =>
    case AtStep(i) => if i < |j.steps| { BeginTracks(j, c, i); }
    case Executing(i, inputs) =>
    case Executed(i, outcome) => ConcludeTracks(j, c, i, outcome);
    case Saved(i, evidence) => CommitTracks(j, c, i, evidence);
    case Quarantining =>
  }

  lemma {:induction false} SeededRecordsAreSources(j: Job, n: nat)
    requires n <= |j.w.sources|
    ensures Seeded(j, n).state == RUNNING && forall id :: id in Seeded(j, n).records ==> SOURCE_PREFIX <= id
  {
    if n > 0 { SeededRecordsAreSources(j, n - 1); }
  }

  lemma {:induction false} TraceTracks(j: Job, tr: seq<Config>, i: nat)
    requires DistinctSteps(j) && IsTrace(j, tr) && i < |tr|
    ensures Tracks(j, tr[i])
  {
    if i == 0 {
      SeededRecordsAreSources(j, |j.w.sources|);
    } else {
      TraceTracks(j, tr, i - 1);
      assert Next(j, tr[i - 1], tr[i]);
      AdvanceTracks(j, tr[i - 1]);
    }
  }

  // ---- Main results ----

  /** Whatever files its nodes share, and whatever crashed: in a VERIFYING run of a valid workflow the file of every
      step is an output of a step whose file it is. */
  lemma StepFilesAreOutputs(j: Job, tr: seq<Config>, i: nat, s: WorkflowStep)
    requires Planned(j) && IsTrace(j, tr) && i < |tr| && tr[i].d.state == VERIFYING && s in j.w.steps
    ensures WrittenByStep(j, tr[i].d, Path(s.id))
  {
    StepsDistinct(j);
    TraceTracks(j, tr, i);
    var order := StepIds(j.steps);
    OrderIsTopological(j.w, order);
    assert s.id in order;
    var k :| 0 <= k < |order| && order[k] == s.id;
    assert IsCompleted(tr[i].d, j.steps[k].id) && j.steps[k] in j.steps;
  }

  /** So when a step shares its file with a source, and no step with that file can return the frame locked for the
      source, no VERIFYING run of the workflow still holds the locked frame. */
  lemma LockedFrameIsLost(j: Job, tr: seq<Config>, i: nat, s: WorkflowStep, name: string)
    requires Planned(j) && IsTrace(j, tr) && i < |tr| && tr[i].d.state == VERIFYING
    requires s in j.w.steps && name in j.w.sources && Path(s.id) == Path(SourceRef(name))
    requires forall t :: t in j.w.steps && Path(t.id) == Path(SourceRef(name)) ==>
      !Returns(j.engine, t, j.sources(name))
    ensures Path(SourceRef(name)) in tr[i].d.files && tr[i].d.files[Path(SourceRef(name))] != j.sources(name)
  {
    StepFilesAreOutputs(j, tr, i, s);
  }
}
