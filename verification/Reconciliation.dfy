/** Independent recomputation over the stored artifacts: row counts of row-conserving steps, and group
    subtotals of sum metrics against the ungrouped total. */
module Reconciliation {
  import opened Values
  import opened Seqs
  import opened Frames
  import opened Dsl
  import opened Contract
  import Aggregate

  datatype Status = Pass | Fail | Unavailable

  datatype TestName = RowCount(step: string) | GroupSubtotals(metric: string)

  datatype Test = Test(name: TestName, expected: real, observed: real, difference: Option<real>, passed: bool)

  datatype Blocking = NoAnchor(metric: string) | DataUnavailable(metric: string)

  datatype Report = Report(status: Status, tests: seq<Test>, blockingReasons: seq<Blocking>)

  type Artifacts = map<string, Frame>

  const TOLERANCE := 0.01

  predicate RowConserving(operationId: string) {
    operationId in ["cast", "derive", "export"]
  }

  // ---- Row counts ----

  function RowConservationTest(s: WorkflowStep, artifacts: Artifacts): Option<Test> {
    if |s.inputs| != 1 || s.inputs[0] !in artifacts || s.id !in artifacts then None
    else
      var before, after := artifacts[s.inputs[0]].Height(), artifacts[s.id].Height();
      Some(Test(RowCount(s.id), before as real, after as real, None, after >= before))
  }

  // ---- Sum metrics ----

  /** `m.get("column")` of the first metric called `name` in the step's parameters. */
  function MetricColumn(params: Params, name: string): Option<string> {
    var metrics := Get(params, "metrics");
    if metrics.List? then ColumnOf(metrics.items, name) else None
  }

  function ColumnOf(items: seq<Value>, name: string): Option<string> {
    if items == [] then None
    else if items[0].Dict? && Get(items[0].fields, "name") == Str(name) then
      var column := Get(items[0].fields, "column");
      if column.Str? then Some(column.s) else None
    else ColumnOf(items[1..], name)
  }

  function GroupSubtotalTest(metric: string, s: WorkflowStep, artifacts: Artifacts): Option<Test> {
    if |s.inputs| != 1 || s.inputs[0] !in artifacts || s.id !in artifacts then None
    else
      var input, output := artifacts[s.inputs[0]], artifacts[s.id];
      match MetricColumn(s.params, metric)
      case None => None
      case Some(column) =>
        if !input.Has(column) || !output.Has(metric) then None
        else
          var total, subtotals := Aggregate.SumCells(input.Cells(column)), Aggregate.SumCells(output.Cells(metric));
          var difference := Aggregate.Abs(subtotals - total);
          Some(Test(GroupSubtotals(metric), total, subtotals, Some(difference), difference <= TOLERANCE))
  }

  /** `{ref: step for step in steps for ref in step.requirement_refs}`: the last step naming a requirement. */
  function CoveringStep(steps: seq<WorkflowStep>, ref: string): Option<WorkflowStep> {
    if steps == [] then None
    else
      var last := steps[|steps| - 1];
      if ref in last.requirementRefs then Some(last) else CoveringStep(steps[..|steps| - 1], ref)
  }

  /** The tests one step gives rise to. */
  function RowTest(artifacts: Artifacts): WorkflowStep -> seq<Test> {
    (s: WorkflowStep) =>
      var test := RowConservationTest(s, artifacts);
      if RowConserving(s.operationId) && test.Some? then [test.value] else []
  }

  function RowTests(steps: seq<WorkflowStep>, artifacts: Artifacts): seq<Test> {
    FlatMap(steps, RowTest(artifacts))
  }

  datatype Finding = Nothing | Tested(test: Test) | Blocks(reason: Blocking)

  function MetricFinding(m: ContractMetric, w: Workflow, artifacts: Artifacts): Finding {
    if !IsSumFormula(m.formula) then Nothing
    else
      match CoveringStep(w.steps, m.name)
      case None => Nothing
      case Some(s) =>
        if s.operationId != "aggregate" then Nothing
        else if Names(Get(s.params, "group_by")) == [] then Blocks(NoAnchor(m.name))
        else
          match GroupSubtotalTest(m.name, s, artifacts)
          case Some(test) => Tested(test)
          case None => Blocks(DataUnavailable(m.name))
  }

  function MetricTests(metrics: seq<ContractMetric>, w: Workflow, artifacts: Artifacts): seq<Test> {
    if metrics == [] then []
    else
      var f := MetricFinding(metrics[|metrics| - 1], w, artifacts);
      MetricTests(metrics[..|metrics| - 1], w, artifacts) + (if f.Tested? then [f.test] else [])
  }

  function MetricBlocks(metrics: seq<ContractMetric>, w: Workflow, artifacts: Artifacts): seq<Blocking> {
    if metrics == [] then []
    else
      var f := MetricFinding(metrics[|metrics| - 1], w, artifacts);
      MetricBlocks(metrics[..|metrics| - 1], w, artifacts) + (if f.Blocks? then [f.reason] else [])
  }

  predicate AllPassed(tests: seq<Test>) {
    forall t :: t in tests ==> t.passed
  }

  function Reconciled(t: Terms, w: Workflow, artifacts: Artifacts): Report {
    var tests := RowTests(w.steps, artifacts) + MetricTests(t.metrics, w, artifacts);
    var blocking := MetricBlocks(t.metrics, w, artifacts);
    Report(if !AllPassed(tests) then Fail else if blocking != [] then Unavailable else Pass, tests, blocking)
  }

  method RunRowTests(steps: seq<WorkflowStep>, artifacts: Artifacts) returns (tests: seq<Test>)
    ensures tests == RowTests(steps, artifacts)
  {
    tests := [];
    for i := 0 to |steps|
      invariant tests == RowTests(steps[..i], artifacts)
    {
      FlatMapStep(steps, RowTest(artifacts), i);
      if RowConserving(steps[i].operationId) {
        var test := RowConservationTest(steps[i], artifacts);
        if test.Some? { tests := tests + [test.value]; }
      }
    }
    assert steps[..|steps|] == steps;
  }

  method RunMetricTests(metrics: seq<ContractMetric>, w: Workflow, artifacts: Artifacts)
    returns (tests: seq<Test>, blockingReasons: seq<Blocking>)
    ensures tests == MetricTests(metrics, w, artifacts) && blockingReasons == MetricBlocks(metrics, w, artifacts)
  {
    tests, blockingReasons := [], [];
    for i := 0 to |metrics|
      invariant tests == MetricTests(metrics[..i], w, artifacts)
      invariant blockingReasons == MetricBlocks(metrics[..i], w, artifacts)
    {
      assert metrics[..i + 1][..i] == metrics[..i];
      var finding := MetricFinding(metrics[i], w, artifacts);
      match finding {
        case Nothing =>
        case Tested(test) => tests := tests + [test];
        case Blocks(reason) => blockingReasons := blockingReasons + [reason];
      }
    }
    assert metrics[..|metrics|] == metrics;
  }

  method Reconcile(t: Terms, w: Workflow, artifacts: Artifacts) returns (r: Report)
    ensures r == Reconciled(t, w, artifacts)
  {
    var tests := RunRowTests(w.steps, artifacts);
    var more, blockingReasons := RunMetricTests(t.metrics, w, artifacts);
    tests := tests + more;
    var status := if !AllPassed(tests) then Fail else if blockingReasons != [] then Unavailable else Pass;
    return Report(status, tests, blockingReasons);
  }

  // ---- Rows lost are found, rows added are not ----

  /** A row-conserving step with its frames at hand. */
  predicate Comparable(s: WorkflowStep, artifacts: Artifacts) {
    && s.operationId in {"cast", "derive", "export"}
    && |s.inputs| == 1 && s.inputs[0] in artifacts && s.id in artifacts
  }

  /** Fewer rows came out than went in. */
  predicate LosesRows(s: WorkflowStep, artifacts: Artifacts) {
    Comparable(s, artifacts) && artifacts[s.id].Height() < artifacts[s.inputs[0]].Height()
  }

  predicate AddsRows(s: WorkflowStep, artifacts: Artifacts) {
    Comparable(s, artifacts) && artifacts[s.inputs[0]].Height() < artifacts[s.id].Height()
  }

  lemma RowTestPasses(s: WorkflowStep, artifacts: Artifacts)
    ensures AllPassed(RowTest(artifacts)(s)) <==> !LosesRows(s, artifacts)
  {
    if RowConserving(s.operationId) && RowConservationTest(s, artifacts).Some? {
      var test := RowConservationTest(s, artifacts).value;
      assert RowTest(artifacts)(s) == [test] && test in [test];
    }
  }

  ghost predicate SomeStepLosesRows(steps: seq<WorkflowStep>, artifacts: Artifacts) {
    exists s :: s in steps && LosesRows(s, artifacts)
  }

  lemma FlatMapPasses<T>(items: seq<T>, tests: T -> seq<Test>)
    ensures AllPassed(FlatMap(items, tests)) <==> forall x :: x in items ==> AllPassed(tests(x))
  {
    forall t { FlatMapMember(items, tests, t); }
  }

  lemma RowTestsPassIff(steps: seq<WorkflowStep>, artifacts: Artifacts)
    ensures AllPassed(RowTests(steps, artifacts)) <==> !SomeStepLosesRows(steps, artifacts)
  {
    FlatMapPasses(steps, RowTest(artifacts));
    forall s | s in steps ensures AllPassed(RowTest(artifacts)(s)) <==> !LosesRows(s, artifacts) {
      RowTestPasses(s, artifacts);
    }
  }

  lemma AllPassedConcat(a: seq<Test>, b: seq<Test>)
    ensures AllPassed(a + b) <==> AllPassed(a) && AllPassed(b)
  {
    assert forall t :: t in a || t in b ==> t in a + b;
  }

  // ---- Sums that do not add up are found ----

  function ColumnTotal(f: Frame, column: string): real {
    Aggregate.SumCells(f.Cells(column))
  }

  /** Both frames are at hand, with the column that `metric` sums up and the column of its subtotals. */
  predicate Available(s: WorkflowStep, metric: string, artifacts: Artifacts) {
    && |s.inputs| == 1 && s.inputs[0] in artifacts && s.id in artifacts
    && MetricColumn(s.params, metric).Some?
    && artifacts[s.inputs[0]].Has(MetricColumn(s.params, metric).value) && artifacts[s.id].Has(metric)
  }

  /** The subtotals `s` stored for `metric` are no further from the total of the column they came from than the
      tolerance. */
  predicate AddsUp(s: WorkflowStep, metric: string, artifacts: Artifacts)
    requires Available(s, metric, artifacts)
  {
    var total := ColumnTotal(artifacts[s.inputs[0]], MetricColumn(s.params, metric).value);
    total - 0.01 <= ColumnTotal(artifacts[s.id], metric) <= total + 0.01
  }

  predicate TotalsDiffer(s: WorkflowStep, metric: string, artifacts: Artifacts) {
    Available(s, metric, artifacts) && !AddsUp(s, metric, artifacts)
  }

  predicate IsGrouped(s: WorkflowStep) {
    Names(Get(s.params, "group_by")) != []
  }

  /** Of the steps that name `ref`, the one at `i` is the last. */
  ghost predicate LastNaming(steps: seq<WorkflowStep>, i: int, ref: string) {
    && 0 <= i < |steps| && ref in steps[i].requirementRefs
    && forall k :: i < k < |steps| ==> ref !in steps[k].requirementRefs
  }

  /** The last step that names the sum metric `m` is a grouped aggregate whose subtotals do not add up to the total. */
  ghost predicate SumDiffers(m: ContractMetric, steps: seq<WorkflowStep>, artifacts: Artifacts) {
    && IsSumFormula(m.formula)
    && exists i :: LastNaming(steps, i, m.name)
         && steps[i].operationId == "aggregate" && IsGrouped(steps[i]) && TotalsDiffer(steps[i], m.name, artifacts)
  }

  /** If the last step that names the sum metric `m` is an aggregate, it is grouped, and its subtotals add up. */
  ghost predicate SumStands(m: ContractMetric, steps: seq<WorkflowStep>, artifacts: Artifacts) {
    IsSumFormula(m.formula) ==>
      forall i :: LastNaming(steps, i, m.name) && steps[i].operationId == "aggregate" ==>
        IsGrouped(steps[i]) && Available(steps[i], m.name, artifacts) && AddsUp(steps[i], m.name, artifacts)
  }

  ghost predicate SomeSumDiffers(metrics: seq<ContractMetric>, steps: seq<WorkflowStep>, artifacts: Artifacts) {
    exists m :: m in metrics && SumDiffers(m, steps, artifacts)
  }

  lemma {:induction false} CoveringIsLast(steps: seq<WorkflowStep>, i: int, ref: string)
    requires LastNaming(steps, i, ref)
    ensures CoveringStep(steps, ref) == Some(steps[i])
  {
    var n := |steps| - 1;
    if i < n {
      CoveringIsLast(steps[..n], i, ref);
    }
  }

  lemma {:induction false} CoveringIsFound(steps: seq<WorkflowStep>, ref: string) returns (i: nat)
    ensures CoveringStep(steps, ref).Some? ==> LastNaming(steps, i, ref)
  {
    i := 0;
    if steps != [] {
      var n := |steps| - 1;
      if ref in steps[n].requirementRefs { i := n; } else { i := CoveringIsFound(steps[..n], ref); }
    }
  }

  lemma SubtotalTestIs(s: WorkflowStep, metric: string, artifacts: Artifacts)
    ensures GroupSubtotalTest(metric, s, artifacts).Some? <==> Available(s, metric, artifacts)
    ensures Available(s, metric, artifacts) ==>
      (GroupSubtotalTest(metric, s, artifacts).value.passed <==> AddsUp(s, metric, artifacts))
  {
  }

  predicate Fails(f: Finding) {
    f.Tested? && !f.test.passed
  }

  lemma FindingIs(m: ContractMetric, w: Workflow, artifacts: Artifacts)
    ensures Fails(MetricFinding(m, w, artifacts)) <==> SumDiffers(m, w.steps, artifacts)
    ensures Fails(MetricFinding(m, w, artifacts)) || MetricFinding(m, w, artifacts).Blocks? <==>
            !SumStands(m, w.steps, artifacts)
  {
    var i := CoveringIsFound(w.steps, m.name);
    forall k | LastNaming(w.steps, k, m.name) ensures CoveringStep(w.steps, m.name) == Some(w.steps[k]) {
      CoveringIsLast(w.steps, k, m.name);
    }
    if CoveringStep(w.steps, m.name).Some? {
      assert LastNaming(w.steps, i, m.name);
      SubtotalTestIs(w.steps[i], m.name, artifacts);
    }
  }

  lemma {:induction false} MetricTestsPassIff(metrics: seq<ContractMetric>, w: Workflow, artifacts: Artifacts)
    ensures AllPassed(MetricTests(metrics, w, artifacts)) <==> !SomeSumDiffers(metrics, w.steps, artifacts)
  {
    if metrics != [] {
      var n := |metrics| - 1;
      var rest, last := metrics[..n], metrics[n];
      MetricTestsPassIff(rest, w, artifacts);
      FindingIs(last, w, artifacts);
      assert metrics == rest + [last];
      var f := MetricFinding(last, w, artifacts);
      var own := if f.Tested? then [f.test] else [];
      AllPassedConcat(MetricTests(rest, w, artifacts), own);
      assert AllPassed(own) <==> !SumDiffers(last, w.steps, artifacts) by {
        if f.Tested? { assert own[0] in own; }
      }
    }
  }

  /** For every contract, workflow and artifacts: the agent reports FAIL exactly when some cast, derive or export
      lost rows, or the grouped subtotals of some sum metric are not within 0.01 of the total of the column they came
      from. */
  lemma FailsIffRowsLostOrSumsDiffer(t: Terms, w: Workflow, artifacts: Artifacts)
    ensures Reconciled(t, w, artifacts).status == Fail <==>
            SomeStepLosesRows(w.steps, artifacts) || SomeSumDiffers(t.metrics, w.steps, artifacts)
  {
    RowTestsPassIff(w.steps, artifacts);
    MetricTestsPassIff(t.metrics, w, artifacts);
    AllPassedConcat(RowTests(w.steps, artifacts), MetricTests(t.metrics, w, artifacts));
  }

  lemma {:induction false} MetricBlocksIff(metrics: seq<ContractMetric>, w: Workflow, artifacts: Artifacts)
    ensures MetricBlocks(metrics, w, artifacts) == [] <==>
            forall m :: m in metrics ==> !MetricFinding(m, w, artifacts).Blocks?
  {
    if metrics != [] {
      var n := |metrics| - 1;
      MetricBlocksIff(metrics[..n], w, artifacts);
      assert metrics == metrics[..n] + [metrics[n]];
    }
  }

  /** Why a sum metric cannot be reconciled: its aggregate is not grouped, or a frame or a column is not at hand. */
  lemma BlockedBecause(m: ContractMetric, w: Workflow, artifacts: Artifacts)
    ensures MetricFinding(m, w, artifacts) == Blocks(NoAnchor(m.name)) <==>
      && IsSumFormula(m.formula)
      && exists i :: LastNaming(w.steps, i, m.name) && w.steps[i].operationId == "aggregate" && !IsGrouped(w.steps[i])
    ensures MetricFinding(m, w, artifacts) == Blocks(DataUnavailable(m.name)) <==>
      && IsSumFormula(m.formula)
      && exists i :: LastNaming(w.steps, i, m.name) && w.steps[i].operationId == "aggregate" && IsGrouped(w.steps[i])
           && !Available(w.steps[i], m.name, artifacts)
  {
    var i := CoveringIsFound(w.steps, m.name);
    forall k | LastNaming(w.steps, k, m.name) ensures CoveringStep(w.steps, m.name) == Some(w.steps[k]) {
      CoveringIsLast(w.steps, k, m.name);
    }
    if CoveringStep(w.steps, m.name).Some? {
      assert LastNaming(w.steps, i, m.name);
      SubtotalTestIs(w.steps[i], m.name, artifacts);
    }
  }

  lemma {:induction false} BlocksAre(metrics: seq<ContractMetric>, w: Workflow, artifacts: Artifacts, b: Blocking)
    ensures b in MetricBlocks(metrics, w, artifacts) <==>
            exists m :: m in metrics && MetricFinding(m, w, artifacts) == Blocks(b)
  {
    if metrics != [] {
      var n := |metrics| - 1;
      BlocksAre(metrics[..n], w, artifacts, b);
      assert metrics == metrics[..n] + [metrics[n]];
    }
  }

  /** It reports PASS exactly when no such step lost rows and every sum metric whose last step is an aggregate is
      grouped there, with both frames and columns at hand and subtotals that add up. */
  lemma PassesIff(t: Terms, w: Workflow, artifacts: Artifacts)
    ensures Reconciled(t, w, artifacts).status == Pass <==>
            !SomeStepLosesRows(w.steps, artifacts) && forall m :: m in t.metrics ==> SumStands(m, w.steps, artifacts)
  {
    FailsIffRowsLostOrSumsDiffer(t, w, artifacts);
    MetricBlocksIff(t.metrics, w, artifacts);
    forall m | m in t.metrics
      ensures SumStands(m, w.steps, artifacts) <==>
              !SumDiffers(m, w.steps, artifacts) && !MetricFinding(m, w, artifacts).Blocks?
    {
      FindingIs(m, w, artifacts);
    }
  }

  /** A step changed the number of rows and its test passed exactly when it added rows. */
  lemma PassesThoughChangedIffRowsAdded(s: WorkflowStep, artifacts: Artifacts)
    requires Comparable(s, artifacts)
    ensures RowConservationTest(s, artifacts).Some?
    ensures var test := RowConservationTest(s, artifacts).value;
      && test.name == RowCount(s.id) && test.difference == None
      && test.expected == artifacts[s.inputs[0]].Height() as real && test.observed == artifacts[s.id].Height() as real
      && (test.passed && test.expected != test.observed <==> AddsRows(s, artifacts))
  {
    assert artifacts[s.id].Height() as real == artifacts[s.inputs[0]].Height() as real <==>
           artifacts[s.id].Height() == artifacts[s.inputs[0]].Height();
  }

  /** So "must conserve row count exactly" is not what decides: whatever rows the row-conserving steps add, to any
      frames, a report that was not FAIL stays not FAIL for it. */
  lemma AddedRowsNeverFail(t: Terms, w: Workflow, artifacts: Artifacts)
    requires forall s :: s in w.steps && Comparable(s, artifacts) ==>
      AddsRows(s, artifacts) || artifacts[s.id].Height() == artifacts[s.inputs[0]].Height()
    ensures Reconciled(t, w, artifacts).status == Fail <==> SomeSumDiffers(t.metrics, w.steps, artifacts)
  {
    FailsIffRowsLostOrSumsDiffer(t, w, artifacts);
    assert !SomeStepLosesRows(w.steps, artifacts);
  }

  // ---- Which column a metric sums up ----

  ghost predicate NamedAt(items: seq<Value>, k: int, name: string) {
    0 <= k < |items| && items[k].Dict? && Get(items[k].fields, "name") == Str(name)
  }

  ghost predicate FirstNamed(items: seq<Value>, k: int, name: string) {
    NamedAt(items, k, name) && forall a :: 0 <= a < k ==> !NamedAt(items, a, name)
  }

  /** The first metric of that name among the parameters has that column. */
  ghost predicate SpellsColumn(params: Params, name: string, column: string) {
    var metrics := Get(params, "metrics");
    metrics.List? && exists k ::
      FirstNamed(metrics.items, k, name) && Get(metrics.items[k].fields, "column") == Str(column)
  }

  lemma {:induction false} FirstNamedColumn(items: seq<Value>, k: nat, name: string)
    requires FirstNamed(items, k, name)
    ensures ColumnOf(items, name) ==
      match Get(items[k].fields, "column") case Str(column) => Some(column) case _ => None
  {
    if k > 0 {
      assert !NamedAt(items, 0, name);
      forall a | 0 <= a < k - 1 ensures !NamedAt(items[1..], a, name) { assert !NamedAt(items, a + 1, name); }
      FirstNamedColumn(items[1..], k - 1, name);
    }
  }

  lemma {:induction false} FindFirstNamed(items: seq<Value>, name: string) returns (k: nat)
    ensures ColumnOf(items, name).Some? ==> FirstNamed(items, k, name)
  {
    k := 0;
    if items != [] && !NamedAt(items, 0, name) {
      var n := FindFirstNamed(items[1..], name);
      k := n + 1;
      if ColumnOf(items, name).Some? {
        forall a | 0 <= a < k ensures !NamedAt(items, a, name) {
          if a > 0 { assert !NamedAt(items[1..], a - 1, name); }
        }
        assert NamedAt(items[1..], n, name);
      }
    }
  }

  lemma MetricColumnIff(params: Params, name: string, column: string)
    ensures MetricColumn(params, name) == Some(column) <==> SpellsColumn(params, name, column)
  {
    var metrics := Get(params, "metrics");
    if metrics.List? {
      var k := FindFirstNamed(metrics.items, name);
      if MetricColumn(params, name).Some? { FirstNamedColumn(metrics.items, k, name); }
      if SpellsColumn(params, name, column) {
        var n :| FirstNamed(metrics.items, n, name) && Get(metrics.items[n].fields, "column") == Str(column);
        FirstNamedColumn(metrics.items, n, name);
      }
    }
  }

  // ---- Subtotals of a completed aggregate always reconcile ----

  /** The step's JSON parameters spell out `p`. */
  ghost predicate Spells(params: Params, p: Aggregate.AggParams) {
    && Names(Get(params, "group_by")) == p.groupBy
    && Get(params, "metrics").List?
    && SpellsMetrics(Get(params, "metrics").items, p.metrics)
  }

  ghost predicate SpellsMetrics(items: seq<Value>, metrics: seq<Aggregate.Metric>) {
    && |items| == |metrics|
    && forall i :: 0 <= i < |items| ==>
         items[i].Dict? && Get(items[i].fields, "name") == Str(metrics[i].name)
         && Get(items[i].fields, "column") == Str(metrics[i].column)
  }

  lemma {:induction false} ColumnOfMetric(items: seq<Value>, metrics: seq<Aggregate.Metric>, i: nat)
    requires SpellsMetrics(items, metrics) && i < |metrics|
    requires forall a, b :: 0 <= a < b < |metrics| ==> metrics[a].name != metrics[b].name
    ensures ColumnOf(items, metrics[i].name) == Some(metrics[i].column)
  {
    if i > 0 { ColumnOfMetric(items[1..], metrics[1..], i - 1); }
  }

  lemma OutputHasMetric(f: Frame, p: Aggregate.AggParams, i: nat)
    requires i < |p.metrics|
    ensures Aggregate.OutputFrame(f, p).Has(p.metrics[i].name)
  {
    var out := Aggregate.OutputFrame(f, p);
    assert out.columns[|p.groupBy| + i].name == p.metrics[i].name;
  }

  /** On a completed aggregate step with a grouped sum metric, in whatever order the engine returned its
      rows, the independent subtotal test finds difference zero and passes. */
  lemma SubtotalsReconcile(s: WorkflowStep, artifacts: Artifacts, p: Aggregate.AggParams, dual: seq<Cell> -> real,
                           i: nat)
    requires |s.inputs| == 1 && s.inputs[0] in artifacts && s.id in artifacts && Spells(s.params, p)
    requires p.groupBy != [] && Aggregate.NamesDistinct(p) && i < |p.metrics| && p.metrics[i].fn.Sum?
    requires var done := Aggregate.Execute(artifacts[s.inputs[0]], p, dual);
      done.Ok? && artifacts[s.id].columns == done.value.output.columns
      && multiset(artifacts[s.id].rows) == multiset(done.value.output.rows)
    ensures var total := Aggregate.SumCells(artifacts[s.inputs[0]].Cells(p.metrics[i].column));
      GroupSubtotalTest(p.metrics[i].name, s, artifacts) ==
      Some(Test(GroupSubtotals(p.metrics[i].name), total, total, Some(0.0), true))
  {
    var input, output, m := artifacts[s.inputs[0]], artifacts[s.id], p.metrics[i];
    ColumnOfMetric(Get(s.params, "metrics").items, p.metrics, i);
    assert m in p.metrics;
    ExecutedOutput(input, p, dual);
    OutputHasMetric(input, p, i);
    SubtotalsAddUp(input, output, p, i);
  }

  lemma ExecutedOutput(f: Frame, p: Aggregate.AggParams, dual: seq<Cell> -> real)
    requires Aggregate.Execute(f, p, dual).Ok?
    ensures Aggregate.PreconditionsHold(f, p)
    ensures Aggregate.Execute(f, p, dual).value.output == Aggregate.OutputFrame(f, p)
    ensures Aggregate.OutputFrame(f, p).rows == Aggregate.OutputRows(f, p)
  {
  }

  lemma SubtotalsAddUp(input: Frame, output: Frame, p: Aggregate.AggParams, i: nat)
    requires p.groupBy != [] && Aggregate.NamesDistinct(p) && i < |p.metrics| && p.metrics[i].fn.Sum?
    requires multiset(output.rows) == multiset(Aggregate.OutputRows(input, p))
    ensures Aggregate.SumCells(output.Cells(p.metrics[i].name)) == Aggregate.SumCells(input.Cells(p.metrics[i].column))
  {
    var name := p.metrics[i].name;
    Aggregate.GroupedSumsAddUp(input, p, i);
    Aggregate.TotalIgnoresOrder(output.rows, Aggregate.OutputRows(input, p), name);
    Aggregate.ColumnTotal(output, name);
  }
}
