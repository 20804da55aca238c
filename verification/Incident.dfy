/** The incident and recovery agent: what to do about a run, from its step records alone. */
module Incident {
  import opened Values
  import opened Dsl
  import opened Denotation
  import opened StateMachine
  import opened Protocol
  import opened Recovery
  import opened Safety
  import opened StepRows
  import Guarantees

  datatype FailureClass = TRANSIENT | DATA | LOGIC | SECURITY | EXTERNAL_SIDE_EFFECT | UNKNOWN

  datatype SafeAction = RETRY | ROLLBACK | QUARANTINE | STOP | ESCALATE

  datatype Diagnosis = Diagnosis(failureClass: FailureClass, action: SafeAction, retryFrom: Option<string>)

  const ESCALATION_THRESHOLD := 3
  const ROLLBACK_PLACEHOLDER := "no compensating action defined for this automation's write-capable steps"

  function ClassOf(code: ErrorCode): FailureClass {
    match code
    case SCHEMA_MISSING => DATA
    case SCHEMA_DRIFT => DATA
    case JOIN_UNSAFE => DATA
    case DATA_QUALITY_BLOCK => DATA
    case VALIDATION_FAIL => DATA
    case RECONCILIATION_FAIL => DATA
    case PREDICTION_UNSUPPORTED => DATA
    case EVIDENCE_INSUFFICIENT => DATA
    case POLICY_DENIED => SECURITY
    case EXTERNAL_WRITE_UNVERIFIED => EXTERNAL_SIDE_EFFECT
    case _ => LOGIC
  }

  function FailureOf(error: Option<PlatformError>): FailureClass {
    match error
    case None => UNKNOWN
    case Some(e) => ClassOf(e.code)
  }

  function DiagnoseFailedStep(r: StepRecord, rollbackPolicy: Option<string>): Diagnosis {
    var failure := FailureOf(r.error);
    var action :=
      match failure
      case UNKNOWN => ESCALATE
      case SECURITY => SafeAction.STOP
      case EXTERNAL_SIDE_EFFECT =>
        if rollbackPolicy.Some? && rollbackPolicy.value != ROLLBACK_PLACEHOLDER then ROLLBACK else SafeAction.STOP
      case _ => SafeAction.QUARANTINE;
    Diagnosis(failure, action, None)
  }

  function FirstWith(rows: seq<StepRow>, status: StepStatus): Option<StepRow> {
    if rows == [] then None
    else if rows[0].record.status == status then Some(rows[0])
    else FirstWith(rows[1..], status)
  }

  /** A failed step decides first, then a stalled one; too many earlier failures always escalate. */
  function Diagnose(rows: seq<StepRow>, priorFailures: int, rollbackPolicy: Option<string>): Diagnosis {
    var failed, stalled := FirstWith(rows, Failed), FirstWith(rows, Running);
    if failed.None? && stalled.None? then Diagnosis(UNKNOWN, SafeAction.STOP, None)
    else
      var d := if failed.Some? then DiagnoseFailedStep(failed.value.record, rollbackPolicy)
               else Diagnosis(TRANSIENT, RETRY, Some(stalled.value.id));
      if priorFailures >= ESCALATION_THRESHOLD then d.(action := ESCALATE, retryFrom := None) else d
  }

  // ---- What is never retried or rolled back ----

  ghost predicate Fails(rows: seq<StepRow>, code: ErrorCode) {
    var failed := FirstWith(rows, Failed);
    failed.Some? && failed.value.record.error.Some? && failed.value.record.error.value.code == code
  }

  /** With a failed step on record nothing is retried, whatever else is stalled; compensation is proposed only for
      a possible partial external write under a real policy; and the third failure always escalates. */
  lemma FailuresAreNeverRetried(rows: seq<StepRow>, priorFailures: int, rollbackPolicy: Option<string>)
    ensures var d := Diagnose(rows, priorFailures, rollbackPolicy);
      && (d.action == RETRY ==> forall r :: r in rows ==> r.record.status != Failed)
      && (d.action == ROLLBACK <==>
            priorFailures < ESCALATION_THRESHOLD && Fails(rows, EXTERNAL_WRITE_UNVERIFIED)
            && rollbackPolicy.Some? && rollbackPolicy.value != ROLLBACK_PLACEHOLDER)
      && (d.retryFrom.Some? <==> d.action == RETRY)
      && (priorFailures >= ESCALATION_THRESHOLD && (exists r :: r in rows && r.record.status in {Failed, Running}) ==>
         d.action == ESCALATE)
  {
    FirstWithFacts(rows, Failed);
    FirstWithFacts(rows, Running);
  }

  // ---- The whole table ----

  ghost predicate IsData(code: ErrorCode) {
    code in {SCHEMA_MISSING, SCHEMA_DRIFT, JOIN_UNSAFE, DATA_QUALITY_BLOCK, VALIDATION_FAIL, RECONCILIATION_FAIL,
             PREDICTION_UNSUPPORTED, EVIDENCE_INSUFFICIENT}
  }

  /** The code of the first failed record; None when it has no error on record. */
  ghost predicate FailedWith(rows: seq<StepRow>, code: Option<ErrorCode>) {
    exists i :: FirstAt(rows, i, Failed) && code == CodeOf(rows[i].record.error)
  }

  ghost predicate FirstAt(rows: seq<StepRow>, i: int, status: StepStatus) {
    && 0 <= i < |rows| && rows[i].record.status == status
    && forall k :: 0 <= k < i ==> rows[k].record.status != status
  }

  ghost predicate NoneWith(rows: seq<StepRow>, status: StepStatus) {
    forall i :: 0 <= i < |rows| ==> rows[i].record.status != status
  }

  lemma {:induction false} FirstWithAt(rows: seq<StepRow>, status: StepStatus) returns (i: nat)
    ensures NoneWith(rows, status) ==> FirstWith(rows, status).None?
    ensures !NoneWith(rows, status) ==> FirstAt(rows, i, status) && FirstWith(rows, status) == Some(rows[i])
  {
    i := 0;
    if rows != [] && rows[0].record.status != status {
      var n := FirstWithAt(rows[1..], status);
      i := n + 1;
      assert forall k :: 0 < k < |rows| ==> rows[k] == rows[1..][k - 1];
    }
  }

  lemma FirstIsUnique(rows: seq<StepRow>, status: StepStatus, i: int, k: int)
    requires FirstAt(rows, i, status) && FirstAt(rows, k, status)
    ensures i == k
  {
  }

  /** What is diagnosed, and what is to be done before anything has failed three times: a failure without an error
      escalates, a policy decision or a possible external write stops, unless a real policy rolls the write back, and
      any other failure quarantines; with no failure a stalled step is retried; with neither there is nothing to do.
      From the third failure on everything that can be diagnosed escalates. */
  lemma DiagnosisIs(rows: seq<StepRow>, priorFailures: int, rollbackPolicy: Option<string>, code: Option<ErrorCode>)
    ensures var d := Diagnose(rows, priorFailures, rollbackPolicy);
      var rollsBack := rollbackPolicy.Some? && rollbackPolicy.value !=
        "no compensating action defined for this automation's write-capable steps";
      && (FailedWith(rows, code) ==>
            && (d.failureClass == UNKNOWN <==> code == None)
            && (d.failureClass == SECURITY <==> code == Some(POLICY_DENIED))
            && (d.failureClass == EXTERNAL_SIDE_EFFECT <==> code == Some(EXTERNAL_WRITE_UNVERIFIED))
            && (d.failureClass == DATA <==> code.Some? && IsData(code.value))
            && d.failureClass != TRANSIENT
            && d.action == if priorFailures >= 3 || code == None then ESCALATE
                           else if code == Some(POLICY_DENIED) then SafeAction.STOP
                           else if code != Some(EXTERNAL_WRITE_UNVERIFIED) then SafeAction.QUARANTINE
                           else if rollsBack then ROLLBACK else SafeAction.STOP)
      && (NoneWith(rows, Failed) && NoneWith(rows, Running) ==> d == Diagnosis(UNKNOWN, SafeAction.STOP, None))
  {
    var i := FirstWithAt(rows, Failed);
    var n := FirstWithAt(rows, Running);
    if FailedWith(rows, code) {
      var k :| FirstAt(rows, k, Failed) && code == CodeOf(rows[k].record.error);
      FirstIsUnique(rows, Failed, i, k);
      ClassIs(rows[i].record.error);
      FailureIs(rows, priorFailures, rollbackPolicy, rows[i]);
    }
  }

  ghost function CodeOf(error: Option<PlatformError>): Option<ErrorCode> {
    match error
    case None => None
    case Some(e) => Some(e.code)
  }

  lemma ClassIs(error: Option<PlatformError>)
    ensures var failure, code := FailureOf(error), CodeOf(error);
      && (failure == UNKNOWN <==> code == None) && (failure == SECURITY <==> code == Some(POLICY_DENIED))
      && (failure == EXTERNAL_SIDE_EFFECT <==> code == Some(EXTERNAL_WRITE_UNVERIFIED))
      && (failure == DATA <==> code.Some? && IsData(code.value)) && failure != TRANSIENT
  {
  }

  lemma FailureIs(rows: seq<StepRow>, priorFailures: int, rollbackPolicy: Option<string>, row: StepRow)
    requires FirstWith(rows, Failed) == Some(row)
    ensures var d, once := Diagnose(rows, priorFailures, rollbackPolicy),
      DiagnoseFailedStep(row.record, rollbackPolicy);
      d.failureClass == FailureOf(row.record.error) && d.action == if priorFailures >= 3 then ESCALATE else once.action
  {
  }

  /** With no failure on record, the first stalled step is retried, until it has failed three times. */
  lemma StalledIsRetried(rows: seq<StepRow>, i: nat, priorFailures: int, rollbackPolicy: Option<string>)
    requires NoneWith(rows, Failed) && FirstAt(rows, i, Running)
    ensures Diagnose(rows, priorFailures, rollbackPolicy) ==
            if priorFailures >= 3 then Diagnosis(TRANSIENT, ESCALATE, None)
            else Diagnosis(TRANSIENT, RETRY, Some(rows[i].id))
  {
    var f := FirstWithAt(rows, Failed);
    var k := FirstWithAt(rows, Running);
    FirstIsUnique(rows, Running, i, k);
  }

  // ---- RETRY names the step the next call executes ----

  lemma {:induction false} FirstWithFacts(rows: seq<StepRow>, status: StepStatus)
    ensures FirstWith(rows, status).Some? <==> exists r :: r in rows && r.record.status == status
    ensures FirstWith(rows, status).Some? ==>
      FirstWith(rows, status).value in rows && FirstWith(rows, status).value.record.status == status
  {
    if rows != [] {
      FirstWithFacts(rows[1..], status);
      assert rows == [rows[0]] + rows[1..];
    }
  }

  /** The first `k` steps are COMPLETED and `id` is the step after them. */
  ghost predicate NextUnfinished(j: Job, d: Durable, k: nat, id: string) {
    Guarantees.Progress(j, d, k) && k < |j.steps| && j.steps[k].id == id
  }

  /** The next call on `d` executes `id` before anything else, executing nothing else meanwhile. */
  ghost predicate ExecutesFirst(j: Job, d: Durable, id: string) {
    exists n :: var c := Iterate(j, Call(Config(d, Idle, [])), n); c.pc.Executed? && c.log == [id]
  }

  ghost predicate Stalled(d: Durable) {
    exists id :: id in d.records && d.records[id].status == Running
  }

  /** Where a record that is not COMPLETED can be. */
  lemma UnfinishedRecord(j: Job, t: Script, k: nat, x: Delta, id: string)
    requires Sane(j, t) && Possible(j, t, k, x) && id in At(j, t, k, x).records
    requires At(j, t, k, x).records[id].status != Completed
    ensures k < |j.steps| && id == j.steps[k].id
    ensures At(j, t, k, x).records[id].status == Running <==> x.Started? || x.Stored?
    ensures At(j, t, k, x).records[id].status == Failed <==> x.Faulted? || x.Stopped?
  {
    IdealHolds(j, t, k);
    assert id in t.finished[k] ==> Settled(t.m, Ideal(j, t.fates, k), id);
  }

  lemma StartedIsRunning(j: Job, t: Script, k: nat, x: Delta)
    requires Sane(j, t) && Possible(j, t, k, x) && (x.Started? || x.Stored?)
    ensures j.steps[k].id in At(j, t, k, x).records && At(j, t, k, x).records[j.steps[k].id].status == Running
    ensures forall id :: id in At(j, t, k, x).records && At(j, t, k, x).records[id].status != Completed ==>
              id == j.steps[k].id
    ensures At(j, t, k, x).state == RUNNING
  {
    forall id | id in At(j, t, k, x).records && At(j, t, k, x).records[id].status != Completed
      ensures id == j.steps[k].id
    {
      UnfinishedRecord(j, t, k, x, id);
    }
    ShapeState(j, t, k, x);
  }

  lemma StalledShape(j: Job, t: Script, k: nat, x: Delta)
    requires Sane(j, t) && Possible(j, t, k, x)
    ensures Stalled(At(j, t, k, x)) <==> x.Started? || x.Stored?
  {
    var d := At(j, t, k, x);
    if Stalled(d) {
      var id :| id in d.records && d.records[id].status == Running;
      UnfinishedRecord(j, t, k, x, id);
    }
    if x.Started? || x.Stored? { StartedIsRunning(j, t, k, x); }
  }

  lemma {:induction false} SkipsTo(j: Job, d: Durable, i: nat)
    requires d.state == RUNNING && i <= |j.steps| && forall a :: 0 <= a < i ==> IsCompleted(d, j.steps[a].id)
    ensures Iterate(j, Call(Config(d, Idle, [])), i) == Config(d, AtStep(i), [])
  {
    if i > 0 { SkipsTo(j, d, i - 1); }
  }

  lemma NextCallExecutes(j: Job, t: Script, k: nat, x: Delta)
    requires Sane(j, t) && Possible(j, t, k, x) && (x.Started? || x.Stored?)
    ensures ExecutesFirst(j, At(j, t, k, x), j.steps[k].id)
  {
    var d, s, start := At(j, t, k, x), j.steps[k], Call(Config(At(j, t, k, x), Idle, []));
    ShapeState(j, t, k, x);
    forall a | 0 <= a < k ensures IsCompleted(d, j.steps[a].id) { SkipsFinished(j, t, k, x, a); }
    SkipsTo(j, d, k);
    FrontierNotCompleted(j, t, k, x);
    LoadsTrueInputs(j, t, k, x);
    var c := Iterate(j, start, k);
    var c1 := Iterate(j, start, k + 1);
    assert c1 == Begin(j, c, k, s) && c1.pc.Executing? && c1.log == [];
    var c2 := Iterate(j, start, k + 2);
    assert c2 == Advance(j, c1) && c2.pc.Executed? && c2.log == [] + [s.id];
    assert [] + [s.id] == [s.id];
  }

  lemma DiagnoseShape(j: Job, t: Script, k: nat, x: Delta, rows: seq<StepRow>, priorFailures: int,
                      rollbackPolicy: Option<string>)
    requires Sane(j, t) && Possible(j, t, k, x) && Lists(rows, At(j, t, k, x).records)
    ensures var d := Diagnose(rows, priorFailures, rollbackPolicy);
      && (d.action == RETRY <==> priorFailures < ESCALATION_THRESHOLD && (x.Started? || x.Stored?))
      && (d.action == RETRY ==> d.retryFrom == Some(j.steps[k].id))
  {
    var d := At(j, t, k, x);
    FirstWithFacts(rows, Failed);
    FirstWithFacts(rows, Running);
    if x.Started? || x.Stored? {
      StartedIsRunning(j, t, k, x);
      assert StepRow(j.steps[k].id, d.records[j.steps[k].id]) in rows;
    }
    if FirstWith(rows, Failed).Some? {
      UnfinishedRecord(j, t, k, x, FirstWith(rows, Failed).value.id);
    } else if FirstWith(rows, Running).Some? {
      UnfinishedRecord(j, t, k, x, FirstWith(rows, Running).value.id);
    }
  }

  /** RETRY and what it says about the durable state `d`. */
  ghost predicate RetrySound(j: Job, d: Durable, r: Diagnosis) {
    r.action == RETRY ==>
      && d.state == RUNNING && r.retryFrom.Some?
      && (exists k :: NextUnfinished(j, d, k, r.retryFrom.value))
      && (forall id :: id in d.records && d.records[id].status != Completed ==> id == r.retryFrom.value)
      && ExecutesFirst(j, d, r.retryFrom.value)
  }

  lemma ShapeRetry(j: Job, t: Script, c: Config, k: nat, x: Delta, rows: seq<StepRow>, priorFailures: int,
                   rollbackPolicy: Option<string>)
    requires Sane(j, t) && Shaped(j, t, c, k, x) && Lists(rows, c.d.records)
    ensures var r := Diagnose(rows, priorFailures, rollbackPolicy);
      (r.action == RETRY <==> priorFailures < ESCALATION_THRESHOLD && Stalled(c.d)) && RetrySound(j, c.d, r)
  {
    DiagnoseShape(j, t, k, x, rows, priorFailures, rollbackPolicy);
    StalledShape(j, t, k, x);
    if x.Started? || x.Stored? {
      StartedIsRunning(j, t, k, x);
      Guarantees.ShapeProgress(j, t, c, k, x);
      assert NextUnfinished(j, c.d, k, j.steps[k].id);
      NextCallExecutes(j, t, k, x);
    }
  }

  /** In every reachable state RETRY is proposed exactly when a step is stalled at RUNNING and it has failed fewer
      than three times. The run is then RUNNING, the step named is the first unfinished one in execution order
      and the only record that is not COMPLETED, and the next call executes it before anything else. */
  lemma RetryIsTheFrontier(j: Job, tr: seq<Config>, i: nat, rows: seq<StepRow>, priorFailures: int,
                           rollbackPolicy: Option<string>)
    requires JobOk(j) && IsTrace(j, tr) && i < |tr| && Lists(rows, tr[i].d.records)
    ensures var r := Diagnose(rows, priorFailures, rollbackPolicy);
      (r.action == RETRY <==> priorFailures < ESCALATION_THRESHOLD && Stalled(tr[i].d)) && RetrySound(j, tr[i].d, r)
  {
    ScriptIsSane(j);
    var t := ScriptOf(j);
    Reachable(j, t, tr, i);
    var k, x :| Shaped(j, t, tr[i], k, x);
    ShapeRetry(j, t, tr[i], k, x, rows, priorFailures, rollbackPolicy);
  }
}
