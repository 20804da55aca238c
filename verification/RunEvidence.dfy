/** What the step records of a run can say: their evidence was really produced by the registry, so the
    verifier's reconciliation branch can find nothing on a run driven only by `start_run` and `run`. */
module RunEvidence {
  import opened Values
  import opened Frames
  import opened Dsl
  import opened Denotation
  import opened Evidence
  import opened StateMachine
  import opened Protocol
  import opened Recovery
  import opened Safety
  import Guarantees
  import opened Verifier
  import opened StepRows
  import opened Seqs
  import opened Contract
  import Aggregate

  /** Evidence of a completed aggregate, whatever its second engine computed. */
  ghost predicate AggregateEvidence(evidence: Params) {
    exists f, p, dual :: Aggregate.Execute(f, p, dual).Ok? && Aggregate.Execute(f, p, dual).value.evidence == evidence
  }

  /** In the registry only the aggregate operation reports reconciliation entries. */
  ghost predicate OnlyAggregatesReconcile(e: Engine) {
    forall op, version, inputs, params ::
      var done := e.execute(op, version, inputs, params);
      done.Done? && ReconciliationEntries(done.evidence) != [] ==> AggregateEvidence(done.evidence)
  }

  lemma GenuinePasses(e: Engine, op: string, version: string, inputs: seq<Frame>, params: Params)
    requires OnlyAggregatesReconcile(e) && e.execute(op, version, inputs, params).Done?
    ensures NoFailedEntry(e.execute(op, version, inputs, params).evidence)
  {
    var evidence := e.execute(op, version, inputs, params).evidence;
    if ReconciliationEntries(evidence) != [] {
      var f, p, dual :| Aggregate.Execute(f, p, dual).Ok? && Aggregate.Execute(f, p, dual).value.evidence == evidence;
      Aggregate.CompletedEvidencePasses(f, p, dual);
    }
  }

  lemma UpsertPasses(d: Durable, id: string, r: StepRecord)
    requires NoFailedRecord(d.records) && NoFailedEntry(r.evidence)
    ensures NoFailedRecord(Upsert(d, id, r).records)
  {
  }

  lemma SourceEvidencePasses(runId: string, ref: string, snapshot: string)
    ensures NoFailedEntry(SourceRecord(runId, ref, snapshot).evidence)
  {
    assert Get(SourceRecord(runId, ref, snapshot).evidence, "reconciliation") == Null;
    assert Get(SourceRecord(runId, ref, snapshot).evidence, "external_reconciliation") == Null;
  }

  lemma SeedPasses(d: Durable, runId: string, ref: string, f: Frame, snapshot: string)
    requires NoFailedRecord(d.records)
    ensures NoFailedRecord(Upsert(Save(d, ref, f), ref, SourceRecord(runId, ref, snapshot)).records)
  {
    SourceEvidencePasses(runId, ref, snapshot);
    UpsertPasses(Save(d, ref, f), ref, SourceRecord(runId, ref, snapshot));
  }

  lemma {:induction false} SeededPasses(j: Job, n: nat)
    requires n <= |j.w.sources|
    ensures NoFailedRecord(Seeded(j, n).records)
  {
    if n > 0 {
      SeededPasses(j, n - 1);
      var name := j.w.sources[n - 1];
      SeedPasses(Seeded(j, n - 1), j.runId, SourceRef(name), j.sources(name), j.snapshots(name));
    }
  }

  lemma FatePasses(j: Job, t: Script, i: nat)
    requires Sane(j, t) && OnlyAggregatesReconcile(j.engine) && i < |j.steps| && t.fates[i].Done?
    ensures NoFailedEntry(t.fates[i].evidence)
  {
    assert FateIsTrue(j, t.m, t.fates, i);
    var s := j.steps[i];
    var kind := j.engine.kind(s.operationId, s.operationVersion).value;
    GenuinePasses(j.engine, s.operationId, s.operationVersion, Prepared(j.engine, kind, s, InputFrames(s, t.m)),
      s.params);
  }

  lemma {:induction false} IdealPasses(j: Job, t: Script, k: nat)
    requires Sane(j, t) && OnlyAggregatesReconcile(j.engine) && DoneBefore(t.fates, k)
    ensures NoFailedRecord(Ideal(j, t.fates, k).records)
  {
    if k == 0 {
      SeededPasses(j, |j.w.sources|);
    } else {
      IdealPasses(j, t, k - 1);
      FatePasses(j, t, k - 1);
      var d, s, fate := Ideal(j, t.fates, k - 1), j.steps[k - 1], t.fates[k - 1];
      UpsertPasses(Save(d, s.id, fate.output), s.id, CompletedRecord(j.runId, s, fate.evidence));
    }
  }

  lemma ShapePasses(j: Job, t: Script, k: nat, x: Delta)
    requires Sane(j, t) && OnlyAggregatesReconcile(j.engine) && Possible(j, t, k, x)
    ensures NoFailedRecord(At(j, t, k, x).records)
  {
    IdealPasses(j, t, k);
    assert NoFailedEntry(map[]);
  }

  lemma RecordsPass(j: Job, tr: seq<Config>, i: nat)
    requires JobOk(j) && IsTrace(j, tr) && i < |tr| && OnlyAggregatesReconcile(j.engine)
    ensures NoFailedRecord(tr[i].d.records)
  {
    ScriptIsSane(j);
    Reachable(j, ScriptOf(j), tr, i);
    var k, x :| Shaped(j, ScriptOf(j), tr[i], k, x);
    ShapePasses(j, ScriptOf(j), k, x);
  }

  /** In every state reached by calls, steps and crashes, no record of the run reports a failed reconciliation:
      the verifier's branch for it never adds a defect. */
  lemma ReconciliationNeverFails(j: Job, tr: seq<Config>, i: nat, rows: seq<StepRow>)
    requires JobOk(j) && IsTrace(j, tr) && i < |tr| && OnlyAggregatesReconcile(j.engine)
    requires Lists(rows, tr[i].d.records)
    ensures FlatMap(rows, RowDefects) == []
  {
    RecordsPass(j, tr, i);
    RowsClean(rows, tr[i].d.records);
  }

  // ---- The verdict on a run that finished ----

  /** Every step's operation reports some evidence. */
  ghost predicate AlwaysEvidence(e: Engine) {
    forall op, version, inputs, params ::
      e.execute(op, version, inputs, params).Done? ==> e.execute(op, version, inputs, params).evidence != map[]
  }

  /** What the contract and the plan must agree on before anything has run. */
  ghost predicate PlanCovers(t: Terms, w: Workflow) {
    AllNamed(t, w) && TestsKept(t, w) && NothingProhibited(t, w) && t.clarifications == []
  }

  lemma FinishedStepHasEvidence(j: Job, tr: seq<Config>, i: nat, s: WorkflowStep)
    requires JobOk(j) && IsTrace(j, tr) && i < |tr| && tr[i].d.state == VERIFYING && AlwaysEvidence(j.engine)
    requires s in j.w.steps
    ensures HasCompleted(tr[i].d.records, s.id) && tr[i].d.records[s.id].evidence != map[]
  {
    Guarantees.VerifyingHoldsMeaning(j, tr, i, s.id);
    Guarantees.EvidenceIsGenuine(j, tr, i, s);
  }

  lemma VerdictOfEvidenced(t: Terms, w: Workflow, snapshots: map<string, string>, rows: seq<StepRow>, records: Records)
    requires Lists(rows, records) && AllLocked(w, snapshots) && AllEvidenced(w, records) && NoFailedRecord(records)
    ensures Verifier.Verified(t, w, snapshots, rows).verdict == PASS <==> PlanCovers(t, w) && SumsReconciled(t, records)
  {
    PassIff(t, w, snapshots, rows, records);
  }

  lemma FinishedRunIsEvidenced(j: Job, tr: seq<Config>, i: nat, records: Records)
    requires JobOk(j) && IsTrace(j, tr) && i < |tr| && tr[i].d.state == VERIFYING && AlwaysEvidence(j.engine)
    requires records == tr[i].d.records
    ensures AllEvidenced(j.w, records)
  {
    forall s | s in j.w.steps ensures HasCompleted(records, s.id) && records[s.id].evidence != map[] {
      FinishedStepHasEvidence(j, tr, i, s);
    }
  }

  /** A run that reached VERIFYING can fail verification only for what was already wrong between the contract
      and the plan, or for a sum no aggregate reconciled: nothing about its execution can. */
  lemma VerdictOfFinishedRun(j: Job, tr: seq<Config>, i: nat, t: Terms, snapshots: map<string, string>,
                             rows: seq<StepRow>)
    requires JobOk(j) && IsTrace(j, tr) && i < |tr| && tr[i].d.state == VERIFYING
    requires OnlyAggregatesReconcile(j.engine) && AlwaysEvidence(j.engine)
    requires Lists(rows, tr[i].d.records) && AllLocked(j.w, snapshots)
    ensures Verifier.Verified(t, j.w, snapshots, rows).verdict == PASS <==>
            PlanCovers(t, j.w) && SumsReconciled(t, tr[i].d.records)
  {
    RecordsPass(j, tr, i);
    FinishedRunIsEvidenced(j, tr, i, tr[i].d.records);
    VerdictOfEvidenced(t, j.w, snapshots, rows, tr[i].d.records);
  }
}
