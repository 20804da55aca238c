/** What the crash-safe protocol promises, for every finite interleaving of calls, steps and crashes. */
module Guarantees {
  import opened Values
  import opened Frames
  import opened Seqs
  import opened Dsl
  import opened Denotation
  import opened StateMachine
  import opened Protocol
  import opened Recovery
  import opened Safety

  // ---- The result of a run ----

  /** The durable state a run must end in, from its first `k` steps on. */
  ghost function FinalFrom(j: Job, t: Script, k: nat): Durable
    requires Sane(j, t) && DoneBefore(t.fates, k)
    decreases |t.fates| - k
  {
    if k == |j.steps| then At(j, t, k, Verified)
    else
      match t.fates[k]
      case Done(_, _) => FinalFrom(j, t, k + 1)
      case Rejected(_) => At(j, t, k, Stopped)
      case Escapes => if Admitted(j.engine, j.steps[k]) then At(j, t, k, Started) else At(j, t, k, Clean)
  }

  lemma {:induction false} FinalIgnoresProgress(j: Job, t: Script, k: nat)
    requires Sane(j, t) && DoneBefore(t.fates, k)
    ensures FinalFrom(j, t, 0) == FinalFrom(j, t, k)
  {
    if k > 0 { FinalIgnoresProgress(j, t, k - 1); }
  }

  lemma AdmittedOrEscapes(j: Job, t: Script, k: nat, x: Delta)
    requires Sane(j, t) && Possible(j, t, k, x) && k < |j.steps|
    ensures t.fates[k].Done? ==> Admitted(j.engine, j.steps[k])
    ensures j.engine.kind(j.steps[k].operationId, j.steps[k].operationVersion).None? ==> t.fates[k].Escapes?
  {
    FateOf(j, t, k, x);
  }

  /** A call that ends where it would begin a step found no operation for it. */
  lemma BeginEnds(j: Job, t: Script, c: Config, k: nat, x: Delta)
    requires Sane(j, t) && Shaped(j, t, c, k, x) && k < |j.steps| && c.pc == AtStep(k)
    requires Begin(j, c, k, j.steps[k]).pc.Idle?
    ensures Begin(j, c, k, j.steps[k]).d == FinalFrom(j, t, k)
  {
    FrontierNotCompleted(j, t, k, x);
    LoadsTrueInputs(j, t, k, x);
    AdmittedOrEscapes(j, t, k, x);
  }

  /** A call that ends with an outcome in hand was left by an error of the operation. */
  lemma OutcomeEnds(j: Job, t: Script, c: Config, k: nat, x: Delta)
    requires Sane(j, t) && Shaped(j, t, c, k, x) && c.pc.Executed? && Advance(j, c).pc.Idle?
    ensures Advance(j, c).d == FinalFrom(j, t, k)
  {
    assert t.fates[k].Escapes? && x.Started?;
  }

  lemma QuarantineEnds(j: Job, t: Script, c: Config, k: nat, x: Delta)
    requires Sane(j, t) && Shaped(j, t, c, k, x) && c.pc.Quarantining?
    ensures Advance(j, c).d == FinalFrom(j, t, k)
  {
    ShapeState(j, t, k, x);
    assert At(j, t, k, Stopped) == At(j, t, k, Faulted).(state := QUARANTINED);
  }

  lemma VerifyEnds(j: Job, t: Script, c: Config, k: nat, x: Delta)
    requires Sane(j, t) && Shaped(j, t, c, k, x) && c.pc == AtStep(|j.steps|)
    ensures Advance(j, c).d == FinalFrom(j, t, k)
  {
    ShapeState(j, t, k, x);
    assert k == |j.steps| && x == Clean;
  }

  /** A call that ends leaves the final state. */
  lemma LastStep(j: Job, t: Script, c: Config, k: nat, x: Delta)
    requires Sane(j, t) && Shaped(j, t, c, k, x) && !c.pc.Idle? && Advance(j, c).pc.Idle?
    ensures Advance(j, c).d == FinalFrom(j, t, k)
  {
    match c.pc
    case AtStep(i) =>
      if i < k { SkipsFinished(j, t, k, x, i); }
      if k < |j.steps| { BeginEnds(j, t, c, k, x); } else { VerifyEnds(j, t, c, k, x); }
    case Executed(i, outcome) => OutcomeEnds(j, t, c, k, x);
    case Quarantining => QuarantineEnds(j, t, c, k, x);
    case Executing(i, inputs) =>
    case Saved(i, evidence) =>
  }

  lemma {:induction false} CompletesToFinal(j: Job, t: Script, c: Config, k: nat, x: Delta)
    requires Sane(j, t) && Shaped(j, t, c, k, x) && !c.pc.Idle?
    ensures Complete(j, c).d == FinalFrom(j, t, 0)
    decreases Rank(j, c.pc), 1
  {
    var c' := Advance(j, c);
    assert Complete(j, c) == Complete(j, c');
    RankDrops(j, c);
    if c'.pc.Idle? {
      LastStep(j, t, c, k, x);
      FinalIgnoresProgress(j, t, k);
    } else {
      StepKeeps(j, t, c, k, x);
      InvCompletes(j, t, c', Rank(j, c.pc));
    }
  }

  lemma RankDrops(j: Job, c: Config)
    requires !c.pc.Idle?
    ensures Rank(j, Advance(j, c).pc) < Rank(j, c.pc)
  {
  }

  lemma {:induction false} InvCompletes(j: Job, t: Script, c: Config, bound: nat)
    requires Sane(j, t) && Inv(j, t, c) && !c.pc.Idle? && Rank(j, c.pc) < bound
    ensures Complete(j, c).d == FinalFrom(j, t, 0)
    decreases bound, 0
  {
    var k, x :| Shaped(j, t, c, k, x);
    CompletesToFinal(j, t, c, k, x);
  }

  lemma CallReachesFinal(j: Job, t: Script, c: Config, k: nat, x: Delta)
    requires Sane(j, t) && Shaped(j, t, c, k, x)
    ensures Complete(j, Call(Crash(c))).d == FinalFrom(j, t, 0)
  {
    ShapeState(j, t, k, x);
    var called := Call(Crash(c));
    if c.d.state == RUNNING {
      assert Shaped(j, t, called, k, x);
      CompletesToFinal(j, t, called, k, x);
    } else {
      FinalIgnoresProgress(j, t, k);
    }
  }

  lemma {:induction false} FinalStateIff(j: Job, t: Script, k: nat)
    requires Sane(j, t) && DoneBefore(t.fates, k)
    ensures FinalFrom(j, t, k).state == VERIFYING <==> forall i :: 0 <= i < |t.fates| ==> t.fates[i].Done?
    ensures FinalFrom(j, t, k).state in {RUNNING, VERIFYING, QUARANTINED}
    decreases |t.fates| - k
  {
    if k == |j.steps| {
      ShapeState(j, t, k, Verified);
    } else {
      match t.fates[k]
      case Done(_, _) => FinalStateIff(j, t, k + 1);
      case Rejected(_) => ShapeState(j, t, k, Stopped);
      case Escapes => ShapeState(j, t, k, if Admitted(j.engine, j.steps[k]) then Started else Clean);
    }
  }

  lemma FateIsValued(j: Job, s: WorkflowStep, i: nat)
    requires JobOk(j) && i < |j.steps| && j.steps[i] == s
    ensures s.id in Meaning(j) && (ScriptOf(j).fates[i].Done? <==> Meaning(j)[s.id].Some?)
  {
    MeaningSolves(j);
    assert s in j.steps && s in j.w.steps;
  }

  lemma FatesAreMeaning(j: Job)
    requires JobOk(j)
    ensures (forall i :: 0 <= i < |j.steps| ==> ScriptOf(j).fates[i].Done?) <==>
            (forall s :: s in j.w.steps ==> s.id in Meaning(j) && Meaning(j)[s.id].Some?)
  {
    forall i | 0 <= i < |j.steps|
      ensures j.steps[i] in j.w.steps && j.steps[i].id in Meaning(j)
      ensures ScriptOf(j).fates[i].Done? <==> Meaning(j)[j.steps[i].id].Some?
    {
      assert j.steps[i] in j.steps;
      FateIsValued(j, j.steps[i], i);
    }
    forall s | s in j.w.steps ensures exists i :: 0 <= i < |j.steps| && j.steps[i] == s {
      EveryStepIsPlanned(j, s);
      var i :| 0 <= i < |j.steps| && j.steps[i].id == s.id;
      assert j.steps[i] in j.steps;
      SameStep(j, s, j.steps[i]);
    }
  }

  lemma EveryStepIsPlanned(j: Job, s: WorkflowStep)
    requires JobOk(j) && s in j.w.steps
    ensures exists i :: 0 <= i < |j.steps| && j.steps[i].id == s.id
  {
    var order := StepIds(j.steps);
    OrderIsTopological(j.w, order);
    assert s.id in order;
    var i :| 0 <= i < |order| && order[i] == s.id;
    assert j.steps[i].id == s.id;
  }

  /** Whatever calls and crashes came before, one more uninterrupted `run()` leaves exactly the stores
      (state, step records and artifact files) of a single `run()` that never crashed. They say
      VERIFYING if and only if every step has a value. */
  lemma CrashesDoNotShow(j: Job, tr: seq<Config>, i: nat)
    requires JobOk(j) && IsTrace(j, tr) && i < |tr|
    ensures Complete(j, Call(Crash(tr[i]))).d == Complete(j, Call(Start(j))).d
    ensures Complete(j, Call(Start(j))).d.state == VERIFYING <==>
            forall s :: s in j.w.steps ==> s.id in Meaning(j) && Meaning(j)[s.id].Some?
  {
    ScriptIsSane(j);
    var t := ScriptOf(j);
    Reachable(j, t, tr, i);
    var k, x :| Shaped(j, t, tr[i], k, x);
    CallReachesFinal(j, t, tr[i], k, x);
    assert Shaped(j, t, Start(j), 0, Clean);
    CallReachesFinal(j, t, Start(j), 0, Clean);
    FinalStateIff(j, t, 0);
    FatesAreMeaning(j);
  }

  /** A run that reached VERIFYING or QUARANTINED has exactly the stores of the uninterrupted run. */
  lemma FinishedRunIsExact(j: Job, tr: seq<Config>, i: nat)
    requires JobOk(j) && IsTrace(j, tr) && i < |tr| && tr[i].d.state in {VERIFYING, QUARANTINED}
    ensures tr[i].d == Complete(j, Call(Start(j))).d
  {
    CrashesDoNotShow(j, tr, i);
  }

  /** In a VERIFYING run the file of every node holds that node's value. */
  lemma VerifyingHoldsMeaning(j: Job, tr: seq<Config>, i: nat, node: string)
    requires JobOk(j) && IsTrace(j, tr) && i < |tr| && tr[i].d.state == VERIFYING && node in Nodes(j.w)
    ensures IsCompleted(tr[i].d, node) && Path(node) in tr[i].d.files
    ensures node in Meaning(j) && Meaning(j)[node] == Some(tr[i].d.files[Path(node)])
  {
    ScriptIsSane(j);
    var t := ScriptOf(j);
    Reachable(j, t, tr, i);
    var k, x :| Shaped(j, t, tr[i], k, x);
    ShapeState(j, t, k, x);
    IdealHolds(j, t, k);
    AllFinished(j);
    assert Settled(t.m, Ideal(j, t.fates, k), node);
  }

  lemma AllFinished(j: Job)
    requires JobOk(j)
    ensures ScriptOf(j).finished[|j.steps|] == Nodes(j.w)
  {
    assert j.steps[..|j.steps|] == j.steps;
    forall x | x in IdSet(j.w) ensures x in IdsOf(j.steps) {
      var s :| s in j.w.steps && s.id == x;
      EveryStepIsPlanned(j, s);
    }
    FinishedAreNodes(j, |j.steps|);
  }

  /** If some step deterministically fails, no sequence of calls and crashes ever reaches VERIFYING. */
  lemma FailingStepNeverVerifies(j: Job, tr: seq<Config>, i: nat, s: WorkflowStep)
    requires JobOk(j) && IsTrace(j, tr) && i < |tr| && s in j.w.steps
    requires s.id in Meaning(j) ==> Meaning(j)[s.id].None?
    ensures tr[i].d.state != VERIFYING
  {
    if tr[i].d.state == VERIFYING { VerifyingHoldsMeaning(j, tr, i, s.id); }
  }

  // ---- Progress is a prefix ----

  /** The first `k` steps are COMPLETED, later ones are not, and only the next one has a record at all. */
  ghost predicate Progress(j: Job, d: Durable, k: nat) {
    && k <= |j.steps|
    && (forall i :: 0 <= i < k ==> IsCompleted(d, j.steps[i].id))
    && (k < |j.steps| ==> !IsCompleted(d, j.steps[k].id))
    && (forall i :: k < i < |j.steps| ==> j.steps[i].id !in d.records)
  }

  lemma {:induction false} FinishedLacks(j: Job, t: Script, k: nat, i: nat)
    requires Sane(j, t) && k <= i < |j.steps|
    ensures j.steps[i].id !in t.finished[k]
    decreases i - k
  {
    if k == i {
      assert Fresh(t.finished[i], j.steps[i].id);
    } else {
      FinishedLacks(j, t, k + 1, i);
      assert t.finished[k + 1] == t.finished[k] + {j.steps[k].id};
    }
  }

  lemma ShapeProgress(j: Job, t: Script, c: Config, k: nat, x: Delta)
    requires Sane(j, t) && Shaped(j, t, c, k, x)
    ensures Progress(j, c.d, k)
  {
    forall i | 0 <= i < k ensures IsCompleted(c.d, j.steps[i].id) { SkipsFinished(j, t, k, x, i); }
    if k < |j.steps| { FrontierNotCompleted(j, t, k, x); }
    IdealHolds(j, t, k);
    forall i | k < i < |j.steps| ensures j.steps[i].id !in c.d.records {
      FinishedLacks(j, t, k, i);
      FinishedLacks(j, t, k + 1, i);
      assert t.finished[k + 1] == t.finished[k] + {j.steps[k].id};
    }
  }

  /** In every reachable state the COMPLETED steps are a prefix of the execution order and at most one
      further step has a record. */
  lemma CompletedStepsArePrefix(j: Job, tr: seq<Config>, i: nat)
    requires JobOk(j) && IsTrace(j, tr) && i < |tr|
    ensures exists k :: Progress(j, tr[i].d, k)
  {
    ScriptIsSane(j);
    var t := ScriptOf(j);
    Reachable(j, t, tr, i);
    var k, x :| Shaped(j, t, tr[i], k, x);
    ShapeProgress(j, t, tr[i], k, x);
  }

  // ---- Finished work is never touched again ----

  /** `d'` keeps the record and the file of `id`. */
  ghost predicate Keeps(d: Durable, d': Durable, id: string) {
    && id in d.records && id in d'.records && d'.records[id] == d.records[id]
    && Path(id) in d.files && Path(id) in d'.files && d'.files[Path(id)] == d.files[Path(id)]
  }

  /** `c'` keeps everything about the completed node `id`, and has not executed it. */
  ghost predicate Untouched(c: Config, c': Config, id: string) {
    && Keeps(c.d, c'.d, id)
    && multiset(c'.log)[id] == multiset(c.log)[id]
  }

  lemma CompletedIsFinished(j: Job, t: Script, k: nat, x: Delta, id: string)
    requires Sane(j, t) && Possible(j, t, k, x) && IsCompleted(At(j, t, k, x), id)
    ensures id in t.finished[k] && Path(id) in At(j, t, k, x).files
    ensures k < |j.steps| ==> id != j.steps[k].id && Path(id) != Path(j.steps[k].id)
  {
    IdealHolds(j, t, k);
    if k < |j.steps| {
      Frontier(j, t, k);
      assert Fresh(t.finished[k], j.steps[k].id);
    }
    assert Settled(t.m, Ideal(j, t.fates, k), id);
  }

  lemma BeginKeepsOthers(j: Job, c: Config, i: nat, s: WorkflowStep, id: string)
    requires id in c.d.records && Path(id) in c.d.files && (id == s.id ==> IsCompleted(c.d, id))
    ensures Keeps(c.d, Begin(j, c, i, s).d, id) && Begin(j, c, i, s).log == c.log
  {
  }

  lemma ConcludeKeepsOthers(c: Config, i: nat, s: WorkflowStep, outcome: Outcome, id: string)
    requires id in c.d.records && Path(id) in c.d.files && id != s.id && Path(id) != Path(s.id)
    ensures Keeps(c.d, Conclude(c, i, s, outcome).d, id) && Conclude(c, i, s, outcome).log == c.log
  {
  }

  lemma CommitKeepsOthers(j: Job, c: Config, i: nat, evidence: Params, id: string)
    requires c.pc == Saved(i, evidence) && i < |j.steps| && id != j.steps[i].id
    requires id in c.d.records && Path(id) in c.d.files
    ensures Untouched(c, Advance(j, c), id)
  {
  }

  lemma VisitLeavesFinished(j: Job, t: Script, c: Config, k: nat, x: Delta, id: string)
    requires Sane(j, t) && Shaped(j, t, c, k, x) && IsCompleted(c.d, id) && c.pc.AtStep? && c.pc.i < |j.steps|
    ensures Untouched(c, Advance(j, c), id)
  {
    var i := c.pc.i;
    CompletedIsFinished(j, t, k, x, id);
    if i < k { SkipsFinished(j, t, k, x, i); }
    BeginKeepsOthers(j, c, i, j.steps[i], id);
  }

  lemma OutcomeLeavesFinished(j: Job, t: Script, c: Config, k: nat, x: Delta, id: string)
    requires Sane(j, t) && Shaped(j, t, c, k, x) && IsCompleted(c.d, id) && c.pc.Executed?
    ensures Untouched(c, Advance(j, c), id)
  {
    CompletedIsFinished(j, t, k, x, id);
    ConcludeKeepsOthers(c, c.pc.i, j.steps[c.pc.i], c.pc.outcome, id);
  }

  lemma StepLeavesFinished(j: Job, t: Script, c: Config, k: nat, x: Delta, id: string)
    requires Sane(j, t) && Shaped(j, t, c, k, x) && IsCompleted(c.d, id)
    ensures Untouched(c, Advance(j, c), id)
  {
    CompletedIsFinished(j, t, k, x, id);
    match c.pc
    case AtStep(i) => if i < |j.steps| { VisitLeavesFinished(j, t, c, k, x, id); }
    case Idle =>
    case Executing(i, inputs) =>
    case Executed(i, outcome) => OutcomeLeavesFinished(j, t, c, k, x, id);
    case Saved(i, evidence) => CommitKeepsOthers(j, c, i, evidence, id);
    case Quarantining =>
  }

  lemma NextLeavesFinished(j: Job, t: Script, c: Config, c': Config, id: string)
    requires Sane(j, t) && Inv(j, t, c) && Next(j, c, c') && IsCompleted(c.d, id)
    ensures Untouched(c, c', id)
  {
    var k, x :| Shaped(j, t, c, k, x);
    StepLeavesFinished(j, t, c, k, x, id);
    CompletedIsFinished(j, t, k, x, id);
  }

  /** If `id` is finished at `i`, it is untouched up to `i + 1`, and it has a file. */
  ghost predicate StaysAt(tr: seq<Config>, i: nat, id: string)
    requires i < |tr|
  {
    IsCompleted(tr[i].d, id) ==>
      Path(id) in tr[i].d.files && (i + 1 < |tr| ==> Untouched(tr[i], tr[i + 1], id))
  }

  lemma FinishedStaysAt(j: Job, t: Script, tr: seq<Config>, i: nat, id: string)
    requires Sane(j, t) && IsTrace(j, tr) && i < |tr|
    ensures StaysAt(tr, i, id)
  {
    Reachable(j, t, tr, i);
    if IsCompleted(tr[i].d, id) {
      var k, x :| Shaped(j, t, tr[i], k, x);
      CompletedIsFinished(j, t, k, x, id);
      if i + 1 < |tr| { NextLeavesFinished(j, t, tr[i], tr[i + 1], id); }
    }
  }

  lemma {:induction false} FinishedStaysFrom(tr: seq<Config>, a: nat, b: nat, id: string)
    requires a <= b < |tr| && IsCompleted(tr[a].d, id) && forall i :: 0 <= i < |tr| ==> StaysAt(tr, i, id)
    ensures Untouched(tr[a], tr[b], id)
    decreases b
  {
    if a == b {
      assert StaysAt(tr, a, id);
    } else {
      FinishedStaysFrom(tr, a, b - 1, id);
      assert StaysAt(tr, b - 1, id);
    }
  }

  /** Once a node is COMPLETED, its record and its artifact never change again and its operation is
      never executed again, through any further calls and crashes. */
  lemma FinishedIsForever(j: Job, tr: seq<Config>, a: nat, b: nat, id: string)
    requires JobOk(j) && IsTrace(j, tr) && a <= b < |tr| && IsCompleted(tr[a].d, id)
    ensures Untouched(tr[a], tr[b], id)
  {
    ScriptIsSane(j);
    forall i | 0 <= i < |tr| ensures StaysAt(tr, i, id) { FinishedStaysAt(j, ScriptOf(j), tr, i, id); }
    FinishedStaysFrom(tr, a, b, id);
  }

  /** The step's operation returns this evidence for some inputs. */
  ghost predicate Genuine(e: Engine, s: WorkflowStep, evidence: Params) {
    exists inputs, output :: e.execute(s.operationId, s.operationVersion, inputs, s.params) == Done(output, evidence)
  }

  lemma DoneIsGenuine(e: Engine, s: WorkflowStep, inputs: seq<Frame>)
    requires Attempt(e, s, inputs).Done?
    ensures Genuine(e, s, Attempt(e, s, inputs).evidence)
  {
  }

  lemma FinishedIsGenuine(j: Job, t: Script, c: Config, k: nat, x: Delta, a: nat)
    requires Sane(j, t) && Shaped(j, t, c, k, x) && a < |j.steps| && IsCompleted(c.d, j.steps[a].id)
    ensures Genuine(j.engine, j.steps[a], c.d.records[j.steps[a].id].evidence)
  {
    CompletedIsFinished(j, t, k, x, j.steps[a].id);
    if k <= a { FinishedLacks(j, t, k, a); }
    SkipsFinished(j, t, k, x, a);
    assert FateIsTrue(j, t.m, t.fates, a);
    DoneIsGenuine(j.engine, j.steps[a], InputFrames(j.steps[a], t.m));
  }

  /** The evidence of a COMPLETED step is what its operation returned for some inputs. */
  lemma EvidenceIsGenuine(j: Job, tr: seq<Config>, i: nat, s: WorkflowStep)
    requires JobOk(j) && IsTrace(j, tr) && i < |tr| && s in j.w.steps && IsCompleted(tr[i].d, s.id)
    ensures Genuine(j.engine, s, tr[i].d.records[s.id].evidence)
  {
    ScriptIsSane(j);
    var t := ScriptOf(j);
    Reachable(j, t, tr, i);
    var k, x :| Shaped(j, t, tr[i], k, x);
    EveryStepIsPlanned(j, s);
    var a :| 0 <= a < |j.steps| && j.steps[a].id == s.id;
    SameStep(j, s, j.steps[a]);
    FinishedIsGenuine(j, t, tr[i], k, x, a);
  }

  lemma SameStep(j: Job, s: WorkflowStep, u: WorkflowStep)
    requires JobOk(j) && s in j.w.steps && u in j.steps && u.id == s.id
    ensures u == s
  {
    StepByIdFinds(j.w, s);
    StepByIdFinds(j.w, u);
  }
}
