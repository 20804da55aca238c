/** The independent recomputation on a run that really happened: on a run that reached VERIFYING, the grouped
    sums of an aggregate step always add up to the total of its input. */
module RunReconciliation {
  import opened Values
  import opened Frames
  import opened Dsl
  import opened Denotation
  import opened StateMachine
  import opened Protocol
  import opened Recovery
  import opened Reconciliation
  import Aggregate
  import Assessment
  import Guarantees

  /** On the input `f`, step `s` returns what the aggregate operation computes for `p`, its rows in any order. */
  ghost predicate Aggregates(e: Engine, s: WorkflowStep, p: Aggregate.AggParams, f: Frame) {
    var done := e.execute(s.operationId, s.operationVersion, [f], s.params);
    done.Done? ==> exists dual :: AggregatedBy(done.output, p, f, dual)
  }

  ghost predicate AggregatedBy(output: Frame, p: Aggregate.AggParams, f: Frame, dual: seq<Cell> -> real) {
    var computed := Aggregate.Execute(f, p, dual);
    computed.Ok? && output.columns == computed.value.output.columns
    && multiset(output.rows) == multiset(computed.value.output.rows)
  }

  /** A step that is not an export has its operation's output on the value of its input as its value. */
  lemma UnaryStepValue(j: Job, s: WorkflowStep, input: Frame, output: Frame)
    requires JobOk(j) && s in j.w.steps && |s.inputs| == 1 && s.operationId != "export"
    requires j.engine.kind(s.operationId, s.operationVersion) == Some(Unary)
    requires s.inputs[0] in Meaning(j) && Meaning(j)[s.inputs[0]] == Some(input)
    requires s.id in Meaning(j) && Meaning(j)[s.id] == Some(output)
    ensures j.engine.execute(s.operationId, s.operationVersion, [input], s.params).Done?
    ensures j.engine.execute(s.operationId, s.operationVersion, [input], s.params).output == output
  {
    MeaningSolves(j);
    var m := Meaning(j);
    assert m[s.id] == StepValue(j.engine, s, m);
    assert InputFrames(s, m) == [input];
  }

  /** The test sees the two frames only. */
  lemma SubtotalOf(s: WorkflowStep, artifacts: Artifacts, p: Aggregate.AggParams, i: nat)
    requires |s.inputs| == 1 && s.inputs[0] in artifacts && s.id in artifacts && Spells(s.params, p)
    requires p.groupBy != [] && Aggregate.NamesDistinct(p) && i < |p.metrics| && p.metrics[i].fn.Sum?
    requires exists dual :: AggregatedBy(artifacts[s.id], p, artifacts[s.inputs[0]], dual)
    ensures var total := Aggregate.SumCells(artifacts[s.inputs[0]].Cells(p.metrics[i].column));
      GroupSubtotalTest(p.metrics[i].name, s, artifacts) ==
      Some(Test(GroupSubtotals(p.metrics[i].name), total, total, Some(0.0), true))
  {
    var dual :| AggregatedBy(artifacts[s.id], p, artifacts[s.inputs[0]], dual);
    SubtotalsReconcile(s, artifacts, p, dual, i);
  }

  lemma StoredValue(j: Job, tr: seq<Config>, i: nat, s: WorkflowStep, node: string)
    requires JobOk(j) && IsTrace(j, tr) && i < |tr| && tr[i].d.state == VERIFYING
    requires s in j.w.steps && node in s.inputs + [s.id]
    ensures node in Assessment.Artifacts(Assessment.Needed(j.w), tr[i].d.files)
    ensures node in Meaning(j)
    ensures Meaning(j)[node] == Some(Assessment.Artifacts(Assessment.Needed(j.w), tr[i].d.files)[node])
  {
    assert node in Nodes(j.w) by {
      if node in s.inputs { assert RefsKnown(j.w); }
    }
    Guarantees.VerifyingHoldsMeaning(j, tr, i, node);
    assert node in Assessment.Needed(j.w);
  }

  /** On every run that reached VERIFYING, however often it crashed, the subtotal test of a grouped sum finds
      difference zero on the artifacts `release` loads. */
  lemma FinishedSubtotalsReconcile(j: Job, tr: seq<Config>, i: nat, s: WorkflowStep, p: Aggregate.AggParams, m: nat)
    requires JobOk(j) && IsTrace(j, tr) && i < |tr| && tr[i].d.state == VERIFYING
    requires s in j.w.steps && |s.inputs| == 1 && s.operationId == "aggregate" && Spells(s.params, p)
    requires j.engine.kind(s.operationId, s.operationVersion) == Some(Unary)
    requires forall f :: Aggregates(j.engine, s, p, f)
    requires p.groupBy != [] && Aggregate.NamesDistinct(p) && m < |p.metrics| && p.metrics[m].fn.Sum?
    ensures var artifacts := Assessment.Artifacts(Assessment.Needed(j.w), tr[i].d.files);
      && s.inputs[0] in artifacts
      && var total := Aggregate.SumCells(artifacts[s.inputs[0]].Cells(p.metrics[m].column));
         GroupSubtotalTest(p.metrics[m].name, s, artifacts) ==
         Some(Test(GroupSubtotals(p.metrics[m].name), total, total, Some(0.0), true))
  {
    var artifacts := Assessment.Artifacts(Assessment.Needed(j.w), tr[i].d.files);
    StoredValue(j, tr, i, s, s.inputs[0]);
    StoredValue(j, tr, i, s, s.id);
    UnaryStepValue(j, s, artifacts[s.inputs[0]], artifacts[s.id]);
    assert Aggregates(j.engine, s, p, artifacts[s.inputs[0]]);
    SubtotalOf(s, artifacts, p, m);
  }
}
