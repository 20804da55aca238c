/** Whole runs: from before `start_run` through any calls and crashes of `run` to any number of releases. */
module Lifecycle {
  import opened Values
  import opened Frames
  import opened Dsl
  import opened Denotation
  import opened StateMachine
  import opened Protocol
  import opened Budget
  import opened Recovery
  import opened Safety
  import opened StepRows
  import opened Orchestrator
  import Contract
  import Guarantees
  import PolicyGate
  import Reconciliation
  import RunEvidence
  import Validation
  import Verifier
  import Release
  import Assessment

  // ---- Calls of the orchestrator are steps of the protocol ----

  ghost predicate Alike(a: Config, b: Config) {
    a.d == b.d && a.pc == b.pc
  }

  lemma AdvanceAlike(j: Job, a: Config, b: Config)
    requires Alike(a, b)
    ensures Alike(Advance(j, a), Advance(j, b))
  {
  }

  lemma {:induction false} TraceIterates(j: Job, tr: seq<Config>, c: Config, n: nat) returns (tr': seq<Config>)
    requires IsTrace(j, tr) && Alike(tr[|tr| - 1], c)
    ensures IsTrace(j, tr') && tr <= tr' && Alike(tr'[|tr'| - 1], Iterate(j, c, n))
  {
    if n == 0 {
      tr' := tr;
    } else {
      var shorter := TraceIterates(j, tr, c, n - 1);
      var last := shorter[|shorter| - 1];
      AdvanceAlike(j, last, Iterate(j, c, n - 1));
      tr' := shorter + [Advance(j, last)];
    }
  }

  lemma CompleteAlike(j: Job, a: Config, b: Config)
    requires Alike(a, b)
    ensures Alike(Complete(j, a), Complete(j, b))
    decreases Rank(j, a.pc)
  {
    if !a.pc.Idle? {
      AdvanceAlike(j, a, b);
      CompleteAlike(j, Advance(j, a), Advance(j, b));
    }
  }

  lemma TraceCalls(j: Job, tr: seq<Config>) returns (called: seq<Config>)
    requires IsTrace(j, tr)
    ensures IsTrace(j, called) && tr <= called && called[|called| - 1] == Call(Crash(tr[|tr| - 1]))
  {
    var last := tr[|tr| - 1];
    called := tr + [Crash(last), Call(Crash(last))];
    forall i | 0 <= i < |called| - 1 ensures Next(j, called[i], called[i + 1]) {
      if i < |tr| - 1 { assert Next(j, tr[i], tr[i + 1]); }
    }
  }

  /** However a call of `Run` ended, it extends the run's trace: what is proved of traces holds of the stores
      after any sequence of `Run` calls, each cut off anywhere. */
  lemma RunExtendsTrace(j: Job, tr: seq<Config>, after: Durable, r: RunResult, writes: nat) returns (tr': seq<Config>)
    requires IsTrace(j, tr) && Follows(j, tr[|tr| - 1].d, after, r, writes)
    ensures IsTrace(j, tr') && tr <= tr' && tr'[|tr'| - 1].d == after
    ensures !r.Crashed? ==> tr'[|tr'| - 1].pc.Idle?
  {
    var start := Call(Config(tr[|tr| - 1].d, Idle, []));
    var n := SurvivesBySteps(j, start, writes);
    var called := TraceCalls(j, tr);
    tr' := TraceIterates(j, called, start, n);
  }

  /** When `Run` finally returns VERIFYING, whatever crashed before, the stores are those of one
      uninterrupted run and the file of every node holds that node's value. */
  lemma ReturnedVerifying(j: Job, tr: seq<Config>, after: Durable, writes: nat, node: string)
    requires JobOk(j) && IsTrace(j, tr) && node in Nodes(j.w)
    requires Follows(j, tr[|tr| - 1].d, after, Returned(VERIFYING), writes)
    ensures after == Complete(j, Call(Start(j))).d
    ensures Path(node) in after.files && node in Meaning(j) && Meaning(j)[node] == Some(after.files[Path(node)])
  {
    var tr' := RunExtendsTrace(j, tr, after, Returned(VERIFYING), writes);
    FollowsState(j, tr[|tr| - 1].d, after, Returned(VERIFYING), writes);
    VerifyingStores(j, tr', after, node);
  }

  lemma VerifyingStores(j: Job, tr: seq<Config>, d: Durable, node: string)
    requires JobOk(j) && IsTrace(j, tr) && tr[|tr| - 1].d == d && d.state == VERIFYING && node in Nodes(j.w)
    ensures d == Complete(j, Call(Start(j))).d
    ensures Path(node) in d.files && node in Meaning(j) && Meaning(j)[node] == Some(d.files[Path(node)])
  {
    Guarantees.FinishedRunIsExact(j, tr, |tr| - 1);
    Guarantees.VerifyingHoldsMeaning(j, tr, |tr| - 1, node);
  }

  /** After any calls and crashes, one more call of `Run` by a process that lives through three writes a step and
      one more ends, and leaves exactly the stores of one run that never crashed. */
  lemma AmpleCallFinishes(j: Job, tr: seq<Config>, after: Durable, r: RunResult, writes: nat)
    requires JobOk(j) && IsTrace(j, tr) && Follows(j, tr[|tr| - 1].d, after, r, writes) && 3 * |j.w.steps| + 1 <= writes
    ensures !r.Crashed? && after == Complete(j, Call(Start(j))).d
    ensures r == Returned(VERIFYING) <==> forall s :: s in j.w.steps ==> s.id in Meaning(j) && Meaning(j)[s.id].Some?
  {
    OrderIsTopological(j.w, StepIds(j.steps));
    AmpleWritesEnd(j, tr[|tr| - 1].d, after, r, writes);
    CompleteAlike(j, Call(Config(tr[|tr| - 1].d, Idle, [])), Call(Crash(tr[|tr| - 1])));
    Guarantees.CrashesDoNotShow(j, tr, |tr| - 1);
  }

  // ---- Which runs can be released ----

  lemma NodesAreStored(w: Workflow, files: map<string, Frame>)
    requires RefsKnown(w) && forall node :: node in Nodes(w) ==> Path(node) in files
    ensures Assessment.AllStored(Assessment.Needed(w), files)
  {
    forall ref | ref in Assessment.Needed(w) ensures Path(ref) in files {
      var s :| s in w.steps && ref in s.inputs + [s.id];
      assert ref in Nodes(w);
    }
  }

  lemma StoppedIsUnstored(j: Job, t: Script, c: Config, k: nat, x: Delta)
    requires Sane(j, t) && Shaped(j, t, c, k, x) && c.d.state == QUARANTINED
    requires forall s :: s in j.steps ==> s in j.w.steps
    ensures !Assessment.AllStored(Assessment.Needed(j.w), c.d.files)
  {
    ShapeState(j, t, k, x);
    Frontier(j, t, k);
    var s := j.steps[k];
    assert s in j.steps && s.id in IdSet(j.w);
    Assessment.StepsAreNeeded(j.w, s.id);
  }

  /** Once `run` has ended a run, every node that some step reads or writes has its file exactly if the run is
      VERIFYING: a run that `run` itself quarantined has no artifact of the failed step. */
  lemma StoredIffVerifying(j: Job, tr: seq<Config>, i: nat)
    requires JobOk(j) && IsTrace(j, tr) && i < |tr| && tr[i].d.state in {VERIFYING, QUARANTINED}
    ensures Assessment.AllStored(Assessment.Needed(j.w), tr[i].d.files) <==> tr[i].d.state == VERIFYING
  {
    if tr[i].d.state == VERIFYING {
      forall node | node in Nodes(j.w) ensures Path(node) in tr[i].d.files {
        Guarantees.VerifyingHoldsMeaning(j, tr, i, node);
      }
      NodesAreStored(j.w, tr[i].d.files);
    } else {
      ScriptIsSane(j);
      Reachable(j, ScriptOf(j), tr, i);
      var k, x :| Shaped(j, ScriptOf(j), tr[i], k, x);
      StoppedIsUnstored(j, ScriptOf(j), tr[i], k, x);
    }
  }

  /** So the first `release` of such a run can read what it needs, whatever the contract, exactly if it is VERIFYING. */
  lemma ReadableIffVerifying(j: Job, tr: seq<Config>, i: nat, b: Assessment.Brief)
    requires JobOk(j) && IsTrace(j, tr) && i < |tr| && tr[i].d.state in {VERIFYING, QUARANTINED} && b.w == j.w
    ensures Assessment.Readable(b, tr[i].d.files) <==> tr[i].d.state == VERIFYING
  {
    StoredIffVerifying(j, tr, i);
    Assessment.ReadableIffStored(b, tr[i].d.files);
  }

  /** On a run that `run` quarantined, the one thing `release` can do is to raise that error and change nothing. */
  lemma ReleaseOfStoppedRun(j: Job, tr: seq<Config>, i: nat, b: Assessment.Brief, after: Durable, r: ReleaseResult)
    requires JobOk(j) && IsTrace(j, tr) && i < |tr| && tr[i].d.state == QUARANTINED && b.w == j.w
    ensures ReleaseFollows(b, tr[i].d, after, r) <==> r == Lost && after == tr[i].d
  {
    ReadableIffVerifying(j, tr, i, b);
    UnreadableIsLost(b, tr[i].d, after, r);
  }

  lemma UnreadableIsLost(b: Assessment.Brief, d: Durable, after: Durable, r: ReleaseResult)
    requires ExecutionOrder(b.w).Ok? && !Assessment.Readable(b, d.files)
    ensures ReleaseFollows(b, d, after, r) <==> r == Lost && after == d
  {
  }

  /** On a run that reached VERIFYING, RELEASE depends on the contract, the plan, the checks on the data and the
      independent recomputation only; nothing else can hold it back. */
  lemma DecisionOfFinishedRun(j: Job, tr: seq<Config>, i: nat, b: Assessment.Brief, rows: seq<StepRow>,
                              a: Assessment.Assessment)
    requires JobOk(j) && IsTrace(j, tr) && i < |tr| && tr[i].d.state == VERIFYING && b.w == j.w
    requires RunEvidence.OnlyAggregatesReconcile(j.engine) && RunEvidence.AlwaysEvidence(j.engine)
    requires Verifier.AllLocked(j.w, b.snapshots) && Assessment.Assesses(b, tr[i].d, rows, a)
    ensures a.decision.decision == Release.RELEASE <==>
      && b.contract.status == Contract.Approved && b.contract.readyForPlanning
      && RunEvidence.PlanCovers(b.contract.terms, j.w) && Verifier.SumsReconciled(b.contract.terms, tr[i].d.records)
      && (forall r :: r in a.results ==> r.passed) && a.report.status == Reconciliation.Pass
  {
    RunEvidence.VerdictOfFinishedRun(j, tr, i, b.contract.terms, b.snapshots, rows);
    Validation.PassedIffAllPassed(b.contract.terms, b.w, tr[i].d.files, b.checks);
  }

  // ---- The life of a run ----

  /** What is fixed for a run: its job, the versions it locked, the checks, and what `start_run` was given. */
  datatype Setting = Setting(
    j: Job,
    snapshots: map<string, string>,
    checks: Validation.Checks,
    frames: map<string, Frame>,
    versions: map<string, string>,
    drifted: bool,
    gateTerms: Option<Contract.Terms>,
    gated: set<string>,
    granted: set<string>)

  /** Before `start_run` wrote anything, while it is opening the run, and once it has returned. */
  datatype Life = Unborn | Opening(state: RunState) | Live(c: Config)

  ghost predicate Admissible(x: Setting) {
    Startable(x.j.w, x.frames, x.versions, x.drifted, x.gateTerms, x.gated, x.granted)
  }

  /** What a release of the run on `contract` judges by; every release comes with a contract of its own. */
  function BriefOn(x: Setting, contract: Contract.Contract): Assessment.Brief {
    Assessment.Brief(x.j.w, contract, x.snapshots, x.checks)
  }

  ghost predicate Releases(x: Setting, before: Durable, after: Durable) {
    exists contract, r :: ReleaseFollows(BriefOn(x, contract), before, after, r)
  }

  ghost predicate Released(x: Setting, c: Config, c': Config) {
    c.pc.Idle? && c' == c.(d := c'.d) && Releases(x, c.d, c'.d)
  }

  ghost predicate LifeNext(x: Setting, l: Life, l': Life) {
    || l' == l
    || (l.Unborn? && Admissible(x) && l' == Opening(DRAFT))
    || (l == Opening(DRAFT) && l' == Opening(APPROVED))
    || (l == Opening(APPROVED) && l' == Opening(RUNNING))
    || (l == Opening(RUNNING) && l' == Live(Start(x.j)))
    || (l.Live? && l'.Live? && (Next(x.j, l.c, l'.c) || Released(x, l.c, l'.c)))
  }

  ghost predicate IsLife(x: Setting, h: seq<Life>) {
    h != [] && h[0] == Unborn && forall i :: 0 <= i < |h| - 1 ==> StepAt(x, h, i)
  }

  ghost predicate StepAt(x: Setting, h: seq<Life>, i: nat)
    requires i + 1 < |h|
  {
    LifeNext(x, h[i], h[i + 1])
  }

  lemma OneMoreStep(x: Setting, h: seq<Life>, l: Life)
    requires IsLife(x, h) && LifeNext(x, h[|h| - 1], l)
    ensures IsLife(x, h + [l])
  {
    forall i | 0 <= i < |h + [l]| - 1 ensures StepAt(x, h + [l], i) {
      if i < |h| - 1 { assert StepAt(x, h, i); }
    }
  }

  /** A run with no row yet counts as a draft. */
  function StateOf(l: Life): RunState {
    match l
    case Unborn => DRAFT
    case Opening(state) => state
    case Live(c) => c.d.state
  }

  // ---- What holds throughout ----

  ghost predicate EndsIn(j: Job, tr: seq<Config>, c: Config) {
    IsTrace(j, tr) && tr[|tr| - 1] == c
  }

  ghost predicate Traced(j: Job, c: Config) {
    exists tr :: EndsIn(j, tr, c)
  }

  /** `c` was released or quarantined by a release in state `c0`, and nothing else has changed. */
  ghost predicate Decided(x: Setting, c0: Config, c: Config) {
    && Traced(x.j, c0) && c.pc.Idle? && c.d == c0.d.(state := c.d.state)
    && (c.d.state == QUARANTINED || (c.d.state == RELEASED && ReleasedFrom(x, c0.d)))
  }

  /** On `contract`, the stores `d` are decided RELEASE. */
  ghost predicate Deserves(x: Setting, contract: Contract.Contract, d: Durable) {
    exists rows, a :: Assessment.Assesses(BriefOn(x, contract), d, rows, a) && a.decision.decision == Release.RELEASE
  }

  ghost predicate ReleasedFrom(x: Setting, d: Durable) {
    exists contract :: Deserves(x, contract, d)
  }

  ghost predicate LiveOk(x: Setting, c: Config) {
    Traced(x.j, c) || exists c0 :: Decided(x, c0, c)
  }

  ghost predicate LifeOk(x: Setting, l: Life) {
    match l
    case Unborn => true
    case Opening(_) => Admissible(x)
    case Live(c) => Admissible(x) && LiveOk(x, c)
  }

  lemma TracedNext(j: Job, c: Config, c': Config)
    requires Traced(j, c) && Next(j, c, c')
    ensures Traced(j, c')
  {
    var tr :| EndsIn(j, tr, c);
    var tr' := tr + [c'];
    forall i | 0 <= i < |tr'| - 1 ensures Next(j, tr'[i], tr'[i + 1]) {
      if i < |tr| - 1 { assert Next(j, tr[i], tr[i + 1]); }
    }
    assert EndsIn(j, tr', c');
  }

  /** A run that is not RUNNING, and that no call is working on, is left as it is by calls and crashes. */
  lemma RestingNext(j: Job, c: Config, c': Config)
    requires c.pc.Idle? && c.d.state != RUNNING && Next(j, c, c')
    ensures c'.pc.Idle? && c'.d == c.d
  {
  }

  lemma DecidedNext(x: Setting, c0: Config, c: Config, c': Config)
    requires Decided(x, c0, c) && Next(x.j, c, c')
    ensures Decided(x, c0, c')
  {
    RestingNext(x.j, c, c');
  }

  /** A readable run is judged. */
  lemma ReadableIsJudged(b: Assessment.Brief, before: Durable, after: Durable, r: ReleaseResult)
    requires ExecutionOrder(b.w).Ok? && Assessment.Readable(b, before.files) && ReleaseFollows(b, before, after, r)
    ensures (r.Assessed? || r.Illegal?) && AssessedAs(b, before, r.assessment)
      && Settles(before, after, r.assessment, r)
  {
  }

  /** A release changes at most the state, and only of a run that has not ended and can be read: it moves it to
      QUARANTINED, or to RELEASED when that was decided. */
  lemma ReleaseMoves(x: Setting, before: Durable, after: Durable)
    requires Releases(x, before, after)
    ensures after == before.(state := after.state)
    ensures after.state == before.state || Transition(before.state, after.state).None?
    ensures after.state != before.state ==>
      && !Assessment.Terminal(before.state)
      && Assessment.AllStored(Assessment.Needed(x.j.w), before.files)
      && (after.state == QUARANTINED || (after.state == RELEASED && ReleasedFrom(x, before)))
  {
    var contract, r :| ReleaseFollows(BriefOn(x, contract), before, after, r);
    if after.state != before.state {
      var a := r.assessment;
      var rows :| Assessment.Assesses(BriefOn(x, contract), before, rows, a);
      if a.decision.decision == Release.RELEASE { assert Deserves(x, contract, before); }
    }
  }

  /** On a live run that no release has touched, a release releases it, quarantines it, or changes nothing. */
  lemma TracedRelease(x: Setting, c: Config, c': Config)
    requires Traced(x.j, c) && Released(x, c, c') && c'.d != c.d
    ensures Decided(x, c, c')
  {
    ReleaseMoves(x, c.d, c'.d);
  }

  lemma DecidedRelease(x: Setting, c0: Config, c: Config, c': Config)
    requires Decided(x, c0, c) && Released(x, c, c')
    ensures Decided(x, c0, c')
  {
    ReleaseMoves(x, c.d, c'.d);
  }

  lemma LiveKeeps(x: Setting, c: Config, c': Config)
    requires LiveOk(x, c) && (Next(x.j, c, c') || Released(x, c, c'))
    ensures LiveOk(x, c')
  {
    if Traced(x.j, c) {
      if Next(x.j, c, c') {
        TracedNext(x.j, c, c');
      } else if c'.d != c.d {
        TracedRelease(x, c, c');
      }
    } else {
      var c0 :| Decided(x, c0, c);
      if Next(x.j, c, c') { DecidedNext(x, c0, c, c'); } else { DecidedRelease(x, c0, c, c'); }
    }
  }

  lemma {:induction false} LifeKeeps(x: Setting, h: seq<Life>, i: nat)
    requires IsLife(x, h) && i < |h|
    ensures LifeOk(x, h[i])
  {
    if i > 0 {
      LifeKeeps(x, h, i - 1);
      assert StepAt(x, h, i - 1);
      if h[i].Live? {
        if h[i - 1].Live? {
          if h[i] != h[i - 1] { LiveKeeps(x, h[i - 1].c, h[i].c); }
        } else {
          assert EndsIn(x.j, [Start(x.j)], h[i].c);
        }
      }
    }
  }

  // ---- The states a run goes through ----

  lemma AdvanceIsLegal(j: Job, c: Config)
    ensures Advance(j, c).d.state == c.d.state || Transition(c.d.state, Advance(j, c).d.state).None?
  {
  }

  lemma ReleaseIsLegal(x: Setting, c: Config, c': Config)
    requires Released(x, c, c')
    ensures c'.d.state == c.d.state || Transition(c.d.state, c'.d.state).None?
  {
    ReleaseMoves(x, c.d, c'.d);
  }

  lemma SeededIsRunning(j: Job, n: nat)
    requires n <= |j.w.sources|
    ensures Seeded(j, n).state == RUNNING
  {
  }

  lemma StepIsLegal(x: Setting, l: Life, l': Life)
    requires LifeNext(x, l, l')
    ensures StateOf(l') == StateOf(l) || Transition(StateOf(l), StateOf(l')).None?
  {
    if l.Live? && l'.Live? && l' != l {
      if Next(x.j, l.c, l'.c) { AdvanceIsLegal(x.j, l.c); } else { ReleaseIsLegal(x, l.c, l'.c); }
    }
    if l == Opening(RUNNING) && l' != l { SeededIsRunning(x.j, |x.j.w.sources|); }
  }

  function States(h: seq<Life>): seq<RunState> {
    seq(|h|, i requires 0 <= i < |h| => StateOf(h[i]))
  }

  lemma LifeIsLegal(x: Setting, h: seq<Life>)
    requires IsLife(x, h)
    ensures Legal(States(h))
  {
    forall i | 0 <= i < |h| - 1
      ensures States(h)[i + 1] == States(h)[i] || Transition(States(h)[i], States(h)[i + 1]).None?
    {
      assert StepAt(x, h, i);
      StepIsLegal(x, h[i], h[i + 1]);
    }
  }

  // ---- Main results ----

  lemma TracedStates(j: Job, c: Config)
    requires JobOk(j) && Traced(j, c)
    ensures c.d.state in {RUNNING, VERIFYING, QUARANTINED}
    ensures c.d.state != RUNNING ==> c.pc.Idle?
  {
    var tr :| EndsIn(j, tr, c);
    ScriptIsSane(j);
    Reachable(j, ScriptOf(j), tr, |tr| - 1);
    var k, x :| Shaped(j, ScriptOf(j), c, k, x);
    ShapeState(j, ScriptOf(j), k, x);
  }

  /** A decided RELEASE was decided on the stores of one uninterrupted run, every node holding its value. */
  lemma ReleasedStores(x: Setting, c0: Config, node: string)
    requires JobOk(x.j) && Traced(x.j, c0) && c0.d.state == VERIFYING && node in Nodes(x.j.w)
    ensures c0.d == Complete(x.j, Call(Start(x.j))).d
    ensures IsCompleted(c0.d, node) && Path(node) in c0.d.files
    ensures node in Meaning(x.j) && Meaning(x.j)[node] == Some(c0.d.files[Path(node)])
  {
    VerifyingIsExact(x.j, c0);
    var tr :| EndsIn(x.j, tr, c0);
    Guarantees.VerifyingHoldsMeaning(x.j, tr, |tr| - 1, node);
  }

  /** What must be true of the stores of a run RELEASED on `contract`. */
  ghost predicate Sound(x: Setting, contract: Contract.Contract, d: Durable) {
    // The artifacts and records are those of one uninterrupted run, whatever crashed on the way.
    && d.(state := VERIFYING) == Complete(x.j, Call(Start(x.j))).d
    // Every step completed, with evidence, on a plan that satisfies the contract.
    && Verifier.PlanSatisfied(contract.terms, x.j.w, x.snapshots, d.records)
    && contract.status == Contract.Approved
    // Every check held on the frame of its stage, every sum adds up, and no row was lost.
    && Assessment.EveryRuleHolds(BriefOn(x, contract), d.files)
    && Assessment.EverySumStands(BriefOn(x, contract), d.files)
    && Assessment.NoRowsLost(x.j.w, d.files)
  }

  /** It was assessed with full scores, if the contract had been validated. */
  ghost predicate WellAssessed(x: Setting, contract: Contract.Contract, d: Durable) {
    exists rows, a ::
      && Assessment.Assesses(BriefOn(x, contract), d, rows, a)
      && a.decision.decision == Release.RELEASE && (forall r :: r in a.results ==> r.passed)
      && (Contract.Validated(contract) ==> Assessment.FullScores(a.scores))
  }

  lemma DeservingIsWellAssessed(x: Setting, contract: Contract.Contract, d: Durable)
    requires Deserves(x, contract, d)
    ensures d.state == VERIFYING && WellAssessed(x, contract, d)
    ensures d == Complete(x.j, Call(Start(x.j))).d ==> Sound(x, contract, d)
  {
    var b := BriefOn(x, contract);
    var rows, a :| Assessment.Assesses(b, d, rows, a) && a.decision.decision == Release.RELEASE;
    Assessment.ReleaseImplies(b, d, rows, a);
    if Contract.Validated(contract) { Assessment.ReleaseHasFullScores(b, d, rows, a); }
  }

  lemma VerifyingIsExact(j: Job, c: Config)
    requires JobOk(j) && Traced(j, c) && c.d.state == VERIFYING
    ensures c.d == Complete(j, Call(Start(j))).d
  {
    var tr :| EndsIn(j, tr, c);
    Guarantees.FinishedRunIsExact(j, tr, |tr| - 1);
  }

  lemma OnlyStateMoved(before: Durable, after: Durable)
    requires before.state == VERIFYING && after == before.(state := after.state)
    ensures before == after.(state := VERIFYING) && after.records == before.records && after.files == before.files
  {
  }

  lemma SoundInAnyState(x: Setting, contract: Contract.Contract, before: Durable, after: Durable)
    requires Sound(x, contract, before) && before == after.(state := VERIFYING)
    ensures Sound(x, contract, after)
  {
  }

  lemma DecidedIsSound(x: Setting, c0: Config, c: Config) returns (contract: Contract.Contract)
    requires JobOk(x.j) && Decided(x, c0, c) && c.d.state == RELEASED
    ensures c0.d.state == VERIFYING && c0.d == c.d.(state := VERIFYING)
    ensures Sound(x, contract, c.d) && WellAssessed(x, contract, c0.d)
  {
    if c0.d.state == RELEASED { TracedStates(x.j, c0); }
    contract :| Deserves(x, contract, c0.d);
    DeservingIsWellAssessed(x, contract, c0.d);
    VerifyingIsExact(x.j, c0);
    OnlyStateMoved(c0.d, c.d);
    SoundInAnyState(x, contract, c0.d, c.d);
  }

  lemma ReleasedIsDecided(x: Setting, h: seq<Life>, i: nat) returns (c0: Config)
    requires JobOk(x.j) && IsLife(x, h) && i < |h| && h[i].Live? && h[i].c.d.state == RELEASED
    ensures Admissible(x) && Decided(x, c0, h[i].c)
  {
    LifeKeeps(x, h, i);
    var c := h[i].c;
    if Traced(x.j, c) { TracedStates(x.j, c); }
    c0 :| Decided(x, c0, c);
  }

  lemma ReleasedHoldsMeaning(x: Setting, h: seq<Life>, i: nat, node: string)
    requires JobOk(x.j) && IsLife(x, h) && i < |h|
    requires h[i].Live? && h[i].c.d.state == RELEASED && node in Nodes(x.j.w)
    ensures Path(node) in h[i].c.d.files && node in Meaning(x.j)
    ensures Meaning(x.j)[node] == Some(h[i].c.d.files[Path(node)])
  {
    var c0 := ReleasedIsDecided(x, h, i);
    var contract := DecidedIsSound(x, c0, h[i].c);
    ReleasedStores(x, c0, node);
  }

  /** Whenever a run is RELEASED, on whatever contracts it was submitted: every required approval was granted and
      nothing prohibited came before the gate; it went through APPROVED, RUNNING and VERIFYING in this order; one
      contract was approved and found satisfied, judged on the stores of one run that never crashed; and every
      artifact is the value the workflow denotes. */
  lemma ReleasedRunsAreSound(x: Setting, h: seq<Life>, i: nat, node: string)
    requires JobOk(x.j) && IsLife(x, h) && i < |h|
    requires h[i].Live? && h[i].c.d.state == RELEASED && node in Nodes(x.j.w)
    ensures PolicyGate.AllGranted(x.j.w, x.gateTerms, x.gated, x.granted)
    ensures PolicyGate.NothingForbidden(x.j.w, x.gateTerms)
    ensures exists a, b, c ::
      0 < a < b < c < i && States(h)[a] == APPROVED && States(h)[b] == RUNNING && States(h)[c] == VERIFYING
    ensures exists contract ::
      Sound(x, contract, h[i].c.d) && WellAssessed(x, contract, h[i].c.d.(state := VERIFYING))
    ensures Path(node) in h[i].c.d.files && node in Meaning(x.j)
    ensures Meaning(x.j)[node] == Some(h[i].c.d.files[Path(node)])
  {
    LifeIsLegal(x, h);
    ReleasedOnlyInOrder(States(h), i);
    ReleasedHoldsMeaning(x, h, i, node);
    var c0 := ReleasedIsDecided(x, h, i);
    var contract := DecidedIsSound(x, c0, h[i].c);
  }

  /** `s` is a row-conserving step on one input whose stored output is no shorter than its stored input. */
  ghost predicate KeepsRows(s: WorkflowStep, files: map<string, Frame>) {
    && |s.inputs| == 1 && Path(s.inputs[0]) in files && Path(s.id) in files
    && files[Path(s.inputs[0])].Height() <= files[Path(s.id)].Height()
  }

  lemma NoRowsLostKeepsRows(w: Workflow, files: map<string, Frame>, s: WorkflowStep)
    requires Assessment.AllStored(Assessment.Needed(w), files) && Assessment.NoRowsLost(w, files)
    requires s in w.steps && s.operationId in {"cast", "derive", "export"} && |s.inputs| == 1
    ensures KeepsRows(s, files)
  {
    assert s.inputs[0] in s.inputs + [s.id] && s.id in s.inputs + [s.id];
    var artifacts := Assessment.Artifacts(Assessment.Needed(w), files);
    assert s.inputs[0] in Assessment.Needed(w) && s.id in Assessment.Needed(w);
    assert Reconciliation.Comparable(s, artifacts) && !Reconciliation.LosesRows(s, artifacts);
  }

  lemma DecidedIsStored(x: Setting, contract: Contract.Contract, d: Durable)
    requires WellAssessed(x, contract, d)
    ensures Assessment.AllStored(Assessment.Needed(x.j.w), d.files)
  {
  }

  /** No RELEASED run lost a row in a cast, derive or export. */
  lemma ReleasedRunsKeepRows(x: Setting, h: seq<Life>, i: nat, s: WorkflowStep)
    requires JobOk(x.j) && IsLife(x, h) && i < |h| && h[i].Live? && h[i].c.d.state == RELEASED
    requires s in x.j.w.steps && s.operationId in {"cast", "derive", "export"} && |s.inputs| == 1
    ensures KeepsRows(s, h[i].c.d.files)
  {
    var c0 := ReleasedIsDecided(x, h, i);
    var contract := DecidedIsSound(x, c0, h[i].c);
    DecidedIsStored(x, contract, c0.d);
    NoRowsLostKeepsRows(x.j.w, h[i].c.d.files, s);
  }

  /** In a RELEASED run every null rate that some step declares was checked on that step's own frame, and held. */
  lemma ReleasedRunsMeetNullRates(x: Setting, h: seq<Life>, i: nat, s: WorkflowStep, column: string)
    requires JobOk(x.j) && IsLife(x, h) && i < |h| && h[i].Live? && h[i].c.d.state == RELEASED
    requires s in x.j.w.steps && Validation.DeclaresNullRate(s, column)
    ensures Path(s.id) in h[i].c.d.files
    ensures x.checks.run("check_null_rate", h[i].c.d.files[Path(s.id)],
                         map["column" := Str(column), "max_rate" := Get(s.params, "null_policy").fields[column]])
            == Some(true)
  {
    var c0 := ReleasedIsDecided(x, h, i);
    var contract := DecidedIsSound(x, c0, h[i].c);
    Validation.DeclaredNullRatesAreChecked(contract.terms, x.j.w, x.checks, s, column);
    var rule := Validation.DeclaredNullRule(s, column);
    assert Validation.RuleHolds(rule, x.j.w, h[i].c.d.files, x.checks);
  }

  lemma EndedStep(x: Setting, c: Config, c': Config)
    requires JobOk(x.j) && LiveOk(x, c) && Assessment.Terminal(c.d.state) && (Next(x.j, c, c') || Released(x, c, c'))
    ensures c'.d == c.d
  {
    if Traced(x.j, c) { TracedStates(x.j, c); }
    if Released(x, c, c') { ReleaseMoves(x, c.d, c'.d); }
  }

  lemma EndedLife(x: Setting, l: Life, l': Life)
    requires JobOk(x.j) && LifeOk(x, l) && LifeNext(x, l, l') && l.Live? && Assessment.Terminal(l.c.d.state)
    ensures l'.Live? && l'.c.d == l.c.d
  {
    if l' != l { EndedStep(x, l.c, l'.c); }
  }

  /** If the run has ended at `k`, its stores are the same at `k + 1`. */
  ghost predicate Stays(h: seq<Life>, k: nat)
    requires k + 1 < |h|
  {
    h[k].Live? && Assessment.Terminal(h[k].c.d.state) ==> h[k + 1].Live? && h[k + 1].c.d == h[k].c.d
  }

  lemma EndedStays(x: Setting, h: seq<Life>, k: nat)
    requires JobOk(x.j) && IsLife(x, h) && k + 1 < |h|
    ensures Stays(h, k)
  {
    LifeKeeps(x, h, k);
    assert StepAt(x, h, k);
    if h[k].Live? && Assessment.Terminal(h[k].c.d.state) { EndedLife(x, h[k], h[k + 1]); }
  }

  lemma AllStay(x: Setting, h: seq<Life>)
    requires JobOk(x.j) && IsLife(x, h)
    ensures forall a :: 0 <= a < |h| - 1 ==> Stays(h, a)
  {
    forall a | 0 <= a < |h| - 1 ensures Stays(h, a) { EndedStays(x, h, a); }
  }

  lemma {:induction false} StaysForever(h: seq<Life>, i: nat, k: nat)
    requires i <= k < |h| && h[i].Live? && Assessment.Terminal(h[i].c.d.state)
    requires forall a :: 0 <= a < |h| - 1 ==> Stays(h, a)
    ensures h[k].Live? && h[k].c.d == h[i].c.d
    decreases k
  {
    if i < k {
      StaysForever(h, i, k - 1);
      assert Stays(h, k - 1);
    }
  }

  /** A run that was released or quarantined is never changed again, by any call of `run` or `release`. */
  lemma EndedForever(x: Setting, h: seq<Life>, i: nat, k: nat)
    requires JobOk(x.j) && IsLife(x, h) && i <= k < |h| && h[i].Live? && Assessment.Terminal(h[i].c.d.state)
    ensures h[k].Live? && h[k].c.d == h[i].c.d
  {
    AllStay(x, h);
    StaysForever(h, i, k);
  }
}
