/** The exact invariant of every interleaving of `run()` calls, steps and crashes, and what follows:
    safety, immutability of finished work, at most one unfinished attempt, and final results that
    do not depend on the crashes. */
module Safety {
  import opened Values
  import opened Frames
  import opened Seqs
  import opened Dsl
  import opened Denotation
  import opened StateMachine
  import opened Protocol
  import opened Recovery

  /** What a current or abandoned attempt at the next step has left behind. */
  datatype Delta = Clean | Started | Stored | Faulted | Stopped | Verified

  /** `run()` gets as far as recording `s` as RUNNING. */
  ghost predicate Admitted(e: Engine, s: WorkflowStep) {
    match e.kind(s.operationId, s.operationVersion)
    case None => false
    case Some(k) => |s.inputs| == Arity(k) && !(IsExport(k, s) && e.destinationBlocked(s.params))
  }

  ghost predicate Possible(j: Job, t: Script, k: nat, x: Delta)
    requires Sane(j, t)
  {
    && DoneBefore(t.fates, k)
    && match x
       case Clean => true
       case Started => k < |j.steps| && Admitted(j.engine, j.steps[k])
       case Stored => k < |j.steps| && Admitted(j.engine, j.steps[k]) && t.fates[k].Done?
       case Faulted => k < |j.steps| && t.fates[k].Rejected?
       case Stopped => k < |j.steps| && t.fates[k].Rejected?
       case Verified => k == |j.steps|
  }

  /** The durable state after `k` completed steps and a trace of shape `x` of one further attempt. */
  ghost function At(j: Job, t: Script, k: nat, x: Delta): Durable
    requires Sane(j, t) && Possible(j, t, k, x)
  {
    var d := Ideal(j, t.fates, k);
    match x
    case Clean => d
    case Started => Upsert(d, j.steps[k].id, RUNNING_RECORD)
    case Stored => Save(Upsert(d, j.steps[k].id, RUNNING_RECORD), j.steps[k].id, t.fates[k].output)
    case Faulted => Upsert(d, j.steps[k].id, FailedRecord(j.steps[k], t.fates[k].error))
    case Stopped => Upsert(d, j.steps[k].id, FailedRecord(j.steps[k], t.fates[k].error)).(state := QUARANTINED)
    case Verified => d.(state := VERIFYING)
  }

  /** Where an active call may stand in front of a state of that shape. */
  ghost predicate Stands(j: Job, t: Script, pc: Pc, k: nat, x: Delta)
    requires Sane(j, t) && Possible(j, t, k, x)
  {
    match pc
    case Idle => true
    case AtStep(i) => i <= k && !x.Stopped? && !x.Verified?
    case Executing(i, inputs) =>
      && i == k && (x.Started? || x.Stored?)
      && j.engine.execute(j.steps[k].operationId, j.steps[k].operationVersion, inputs, j.steps[k].params) == t.fates[k]
    case Executed(i, outcome) => i == k && (x.Started? || x.Stored?) && outcome == t.fates[k]
    case Saved(i, evidence) => i == k && x.Stored? && t.fates[k].evidence == evidence
    case Quarantining => x.Faulted?
  }

  ghost predicate Shaped(j: Job, t: Script, c: Config, k: nat, x: Delta)
    requires Sane(j, t)
  {
    Possible(j, t, k, x) && c.d == At(j, t, k, x) && Stands(j, t, c.pc, k, x)
  }

  ghost predicate Inv(j: Job, t: Script, c: Config)
    requires Sane(j, t)
  {
    exists k, x :: Shaped(j, t, c, k, x)
  }

  // ---- Facts about one shape ----

  lemma Overwritten(d: Durable, id: string, a: StepRecord, b: StepRecord, f: Frame)
    ensures Upsert(Upsert(d, id, a), id, b) == Upsert(d, id, b)
    ensures Upsert(Save(Upsert(d, id, a), id, f), id, b) == Save(Upsert(d, id, b), id, f)
    ensures Save(Save(d, id, f), id, f) == Save(d, id, f)
    ensures Save(Upsert(d, id, b), id, f) == Upsert(Save(d, id, f), id, b)
  {
    assert d.records[id := a][id := b] == d.records[id := b];
    assert d.files[Path(id) := f][Path(id) := f] == d.files[Path(id) := f];
  }

  lemma SkipsFinished(j: Job, t: Script, k: nat, x: Delta, i: nat)
    requires Sane(j, t) && Possible(j, t, k, x) && i < k
    ensures IsCompleted(At(j, t, k, x), j.steps[i].id)
    ensures At(j, t, k, x).records[j.steps[i].id] == CompletedRecord(j.runId, j.steps[i], t.fates[i].evidence)
  {
    IdealRecord(j, t, k, i);
    if k < |j.steps| { Frontier(j, t, k); }
  }

  lemma FrontierNotCompleted(j: Job, t: Script, k: nat, x: Delta)
    requires Sane(j, t) && Possible(j, t, k, x) && k < |j.steps|
    ensures !IsCompleted(At(j, t, k, x), j.steps[k].id)
  {
    Frontier(j, t, k);
  }

  lemma SettledInputsReady(s: WorkflowStep, m: Valuation, d: Durable)
    requires forall ref :: ref in s.inputs ==> Settled(m, d, ref)
    ensures InputsReady(s, m) && Load(d, s.inputs) == Some(InputFrames(s, m))
  {
    assert forall ref :: ref in s.inputs ==> Settled(m, d, ref) && m[ref].Some?;
    assert Load(d, s.inputs).value == InputFrames(s, m);
  }

  /** At the frontier the artifact store holds exactly the true inputs, whatever was attempted before. */
  lemma LoadsTrueInputs(j: Job, t: Script, k: nat, x: Delta)
    requires Sane(j, t) && Possible(j, t, k, x) && k < |j.steps|
    ensures InputsReady(j.steps[k], t.m)
    ensures Load(At(j, t, k, x), j.steps[k].inputs) == Some(InputFrames(j.steps[k], t.m))
  {
    var s, d, base := j.steps[k], At(j, t, k, x), Ideal(j, t.fates, k);
    Frontier(j, t, k);
    SettledInputsReady(s, t.m, base);
    forall ref | ref in s.inputs ensures Settled(t.m, d, ref) {
      assert Settled(t.m, base, ref);
    }
    SettledInputsReady(s, t.m, d);
  }

  lemma FateOf(j: Job, t: Script, k: nat, x: Delta)
    requires Sane(j, t) && Possible(j, t, k, x) && k < |j.steps|
    ensures InputsReady(j.steps[k], t.m)
    ensures t.fates[k] == Attempt(j.engine, j.steps[k], InputFrames(j.steps[k], t.m))
  {
    LoadsTrueInputs(j, t, k, x);
    assert FateIsTrue(j, t.m, t.fates, k);
  }

  // ---- The invariant is inductive ----

  /** Whatever an earlier attempt recorded for the next step is overwritten by a new record. */
  lemma AttemptOverwritten(j: Job, t: Script, k: nat, x: Delta, r: StepRecord)
    requires Sane(j, t) && Possible(j, t, k, x) && k < |j.steps| && !x.Stopped?
    ensures var s, base := j.steps[k], Ideal(j, t.fates, k);
      Upsert(At(j, t, k, x), s.id, r) ==
      if x.Stored? then Save(Upsert(base, s.id, r), s.id, t.fates[k].output) else Upsert(base, s.id, r)
  {
    var s, base := j.steps[k], Ideal(j, t.fates, k);
    match x
    case Clean =>
    case Started => Overwritten(base, s.id, RUNNING_RECORD, r, Frame([], []));
    case Stored => Overwritten(base, s.id, RUNNING_RECORD, r, t.fates[k].output);
    case Faulted => Overwritten(base, s.id, FailedRecord(s, t.fates[k].error), r, Frame([], []));
  }

  lemma AdmitKeeps(j: Job, t: Script, c: Config, k: nat, x: Delta)
    requires Sane(j, t) && Shaped(j, t, c, k, x) && k < |j.steps| && c.pc == AtStep(k)
    requires Admitted(j.engine, j.steps[k])
    ensures Inv(j, t, Begin(j, c, k, j.steps[k]))
  {
    FrontierNotCompleted(j, t, k, x);
    LoadsTrueInputs(j, t, k, x);
    FateOf(j, t, k, x);
    AttemptOverwritten(j, t, k, x, RUNNING_RECORD);
    assert Shaped(j, t, Begin(j, c, k, j.steps[k]), k, if x.Stored? then Stored else Started);
  }

  lemma RefuseKeeps(j: Job, t: Script, c: Config, k: nat, x: Delta)
    requires Sane(j, t) && Shaped(j, t, c, k, x) && k < |j.steps| && c.pc == AtStep(k)
    requires !Admitted(j.engine, j.steps[k])
    ensures Inv(j, t, Begin(j, c, k, j.steps[k]))
  {
    var s, c' := j.steps[k], Begin(j, c, k, j.steps[k]);
    FrontierNotCompleted(j, t, k, x);
    LoadsTrueInputs(j, t, k, x);
    FateOf(j, t, k, x);
    if j.engine.kind(s.operationId, s.operationVersion).None? {
      assert Shaped(j, t, c', k, x);
    } else {
      AttemptOverwritten(j, t, k, x, FailedRecord(s, t.fates[k].error));
      assert Shaped(j, t, c', k, Faulted);
    }
  }

  lemma ConcludeKeeps(j: Job, t: Script, c: Config, k: nat, x: Delta)
    requires Sane(j, t) && Shaped(j, t, c, k, x) && c.pc.Executed?
    ensures k < |j.steps| && c.pc.i == k && Inv(j, t, Conclude(c, k, j.steps[k], c.pc.outcome))
  {
    var s, c' := j.steps[k], Conclude(c, k, j.steps[k], c.pc.outcome);
    var base := Ideal(j, t.fates, k);
    match t.fates[k]
    case Done(output, evidence) =>
      Overwritten(Upsert(base, s.id, RUNNING_RECORD), s.id, RUNNING_RECORD, RUNNING_RECORD, output);
      assert Shaped(j, t, c', k, Stored);
    case Rejected(e) =>
      Overwritten(base, s.id, RUNNING_RECORD, FailedRecord(s, e), Frame([], []));
      assert Shaped(j, t, c', k, Faulted);
    case Escapes =>
      assert Shaped(j, t, c', k, x);
  }

  lemma SavedKeeps(j: Job, t: Script, c: Config, k: nat, x: Delta)
    requires Sane(j, t) && Shaped(j, t, c, k, x) && c.pc.Saved?
    ensures k < |j.steps| && Shaped(j, t, Advance(j, c), k + 1, Clean)
  {
    var s := j.steps[k];
    var done := CompletedRecord(j.runId, s, t.fates[k].evidence);
    Overwritten(Ideal(j, t.fates, k), s.id, RUNNING_RECORD, done, t.fates[k].output);
    Overwritten(Ideal(j, t.fates, k), s.id, done, done, t.fates[k].output);
    assert Ideal(j, t.fates, k + 1) == Upsert(Save(Ideal(j, t.fates, k), s.id, t.fates[k].output), s.id, done);
  }

  lemma VisitKeeps(j: Job, t: Script, c: Config, k: nat, x: Delta)
    requires Sane(j, t) && Shaped(j, t, c, k, x) && c.pc.AtStep?
    ensures Inv(j, t, Advance(j, c))
  {
    if c.pc.i < k {
      SkipsFinished(j, t, k, x, c.pc.i);
      assert Shaped(j, t, Advance(j, c), k, x);
    } else if k < |j.steps| {
      if Admitted(j.engine, j.steps[k]) { AdmitKeeps(j, t, c, k, x); } else { RefuseKeeps(j, t, c, k, x); }
    } else {
      IdealHolds(j, t, k);
      assert Shaped(j, t, Advance(j, c), k, Verified);
    }
  }

  lemma StepKeeps(j: Job, t: Script, c: Config, k: nat, x: Delta)
    requires Sane(j, t) && Shaped(j, t, c, k, x)
    ensures Inv(j, t, Advance(j, c))
  {
    match c.pc
    case Idle => assert Shaped(j, t, Advance(j, c), k, x);
    case AtStep(i) => VisitKeeps(j, t, c, k, x);
    case Executing(i, inputs) => assert Shaped(j, t, Advance(j, c), k, x);
    case Executed(i, outcome) => ConcludeKeeps(j, t, c, k, x);
    case Saved(i, evidence) => SavedKeeps(j, t, c, k, x);
    case Quarantining =>
      IdealHolds(j, t, k);
      assert Shaped(j, t, Advance(j, c), k, Stopped);
  }

  lemma ShapeState(j: Job, t: Script, k: nat, x: Delta)
    requires Sane(j, t) && Possible(j, t, k, x)
    ensures At(j, t, k, x).state == if x.Stopped? then QUARANTINED else if x.Verified? then VERIFYING else RUNNING
  {
    IdealHolds(j, t, k);
  }

  lemma NextKeeps(j: Job, t: Script, c: Config, c': Config)
    requires Sane(j, t) && Inv(j, t, c) && Next(j, c, c')
    ensures Inv(j, t, c')
  {
    var k, x :| Shaped(j, t, c, k, x);
    StepKeeps(j, t, c, k, x);
    ShapeState(j, t, k, x);
    assert Shaped(j, t, Crash(c), k, x);
    assert Shaped(j, t, Call(c), k, x);
  }

  lemma {:induction false} Reachable(j: Job, t: Script, tr: seq<Config>, i: nat)
    requires Sane(j, t) && IsTrace(j, tr) && i < |tr|
    ensures Inv(j, t, tr[i])
  {
    if i == 0 {
      assert Shaped(j, t, tr[0], 0, Clean);
    } else {
      Reachable(j, t, tr, i - 1);
      NextKeeps(j, t, tr[i - 1], tr[i]);
    }
  }
}
