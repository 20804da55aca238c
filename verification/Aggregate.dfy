/** The aggregate operation: grouped metrics, the dual computation of every sum, and the external control total. */
module Aggregate {
  import opened Values
  import opened Seqs
  import opened Frames
  import opened CellOrder
  import opened Evidence

  datatype AggFn = Sum | Mean | Count | Min | Max | NUnique

  datatype Metric = Metric(name: string, column: string, fn: AggFn)

  datatype AggParams = AggParams(groupBy: seq<string>, metrics: seq<Metric>, reconcileTo: Option<real>, tolerance: real)

  // ---- The metrics ----

  function NumberOf(c: Cell): real {
    if c.Number? then c.r else 0.0
  }

  /** Sum of a column, skipping nulls; an empty column sums to zero. */
  function SumCells(cells: seq<Cell>): real {
    if cells == [] then 0.0 else SumCells(cells[..|cells| - 1]) + NumberOf(cells[|cells| - 1])
  }

  function Present(cells: seq<Cell>): seq<Cell> {
    Filter(cells, c => c != Absent)
  }

  function ValueOr(v: Option<Cell>, otherwise: Cell): Cell {
    if v.Some? then v.value else otherwise
  }

  function Evaluate(fn: AggFn, cells: seq<Cell>): Cell {
    var present := Present(cells);
    match fn
    case Sum => Number(SumCells(cells))
    case Mean => if present == [] then Absent else Number(SumCells(cells) / |present| as real)
    case Count => Number(|present| as real)
    case Min => ValueOr(Extreme(cells, CellLeq), Absent)
    case Max => ValueOr(Extreme(cells, CellGeq), Absent)
    case NUnique => Number(|Elements(cells)| as real)
  }

  // ---- Grouping ----

  /** The distinct keys of the rows; a null groups like any other value. */
  function Groups(rows: seq<Row>, keys: seq<string>): seq<seq<Cell>> {
    FirstSeen(KeysOf(rows, keys))
  }

  /** The cells of `column` in the rows of group `k`. */
  function GroupCells(rows: seq<Row>, keys: seq<string>, k: seq<Cell>, column: string): seq<Cell> {
    if rows == [] then []
    else
      var last := rows[|rows| - 1];
      GroupCells(rows[..|rows| - 1], keys, k, column) + (if Key(last, keys) == k then [CellAt(last, column)] else [])
  }

  function WithMetrics(base: Row, metrics: seq<Metric>, cells: string -> seq<Cell>): Row {
    if metrics == [] then base
    else
      var m := metrics[|metrics| - 1];
      WithMetrics(base, metrics[..|metrics| - 1], cells)[m.name := Evaluate(m.fn, cells(m.column))]
  }

  function GroupRow(rows: seq<Row>, p: AggParams, k: seq<Cell>): Row
    requires |k| == |p.groupBy|
  {
    WithMetrics(KeyCells(p.groupBy, k), p.metrics, column => GroupCells(rows, p.groupBy, k, column))
  }

  function TotalRow(f: Frame, p: AggParams): Row {
    WithMetrics(map[], p.metrics, column => f.Cells(column))
  }

  lemma GroupKeyLengths(rows: seq<Row>, keys: seq<string>)
    ensures forall k :: k in Groups(rows, keys) ==> |k| == |keys|
  {
    FirstSeenFacts(KeysOf(rows, keys));
  }

  function OutputRows(f: Frame, p: AggParams): seq<Row> {
    if p.groupBy == [] then [TotalRow(f, p)]
    else
      var groups := Groups(f.rows, p.groupBy);
      GroupKeyLengths(f.rows, p.groupBy);
      seq(|groups|, i requires 0 <= i < |groups| => GroupRow(f.rows, p, groups[i]))
  }

  function MetricDtype(f: Frame, m: Metric): string {
    match m.fn
    case Mean => "Float64"
    case Count => "UInt32"
    case NUnique => "UInt32"
    case _ => if f.Has(m.column) then f.Dtype(m.column) else ""
  }

  function OutputFrame(f: Frame, p: AggParams): Frame {
    Frame(
      seq(|p.groupBy|, i requires 0 <= i < |p.groupBy| =>
        Column(p.groupBy[i], if f.Has(p.groupBy[i]) then f.Dtype(p.groupBy[i]) else "")) +
      seq(|p.metrics|, i requires 0 <= i < |p.metrics| => Column(p.metrics[i].name, MetricDtype(f, p.metrics[i]))),
      OutputRows(f, p))
  }

  // ---- Dual computation ----

  function Abs(x: real): real {
    if x < 0.0 then -x else x
  }

  function Entry(m: Metric, observed: real, other: real, tolerance: real): Value {
    Dict(map["metric" := Str(m.name), "polars_value" := Num(observed), "duckdb_value" := Num(other),
             "difference" := Num(Abs(observed - other)), "tolerance" := Num(tolerance),
             "passed" := Bool(Abs(observed - other) <= tolerance)])
  }

  /** Each sum metric's total against an independent computation `dual`; the first disagreement fails. */
  function DualChecks(f: Frame, metrics: seq<Metric>, tolerance: real,
                      dual: seq<Cell> -> real): Result<seq<Value>, PlatformError> {
    if metrics == [] then Ok([])
    else
      match DualChecks(f, metrics[..|metrics| - 1], tolerance, dual)
      case Err(e) => Err(e)
      case Ok(entries) =>
        var m := metrics[|metrics| - 1];
        if !m.fn.Sum? then Ok(entries)
        else
          var cells := f.Cells(m.column);
          if Abs(SumCells(cells) - dual(cells)) <= tolerance
          then Ok(entries + [Entry(m, SumCells(cells), dual(cells), tolerance)])
          else Err(PlatformError(RECONCILIATION_FAIL, [m.name]))
  }

  function ExternalEntry(m: Metric, expected: real, observed: real, tolerance: real): Value {
    Dict(map["metric" := Str(m.name), "expected" := Num(expected), "observed" := Num(observed),
             "difference" := Num(Abs(observed - expected)), "tolerance" := Num(tolerance),
             "passed" := Bool(Abs(observed - expected) <= tolerance)])
  }

  /** The first sum metric against the caller's control total. */
  function ExternalCheck(f: Frame, p: AggParams): Result<Value, PlatformError> {
    match p.reconcileTo
    case None => Ok(Null)
    case Some(expected) =>
      var sums := Filter(p.metrics, (m: Metric) => m.fn.Sum?);
      if sums == [] then Err(PlatformError(RECONCILIATION_FAIL, []))
      else
        var observed := SumCells(f.Cells(sums[0].column));
        if Abs(observed - expected) <= p.tolerance then Ok(ExternalEntry(sums[0], expected, observed, p.tolerance))
        else Err(PlatformError(RECONCILIATION_FAIL, [sums[0].name]))
  }

  // ---- Execution ----

  datatype AggResult = AggResult(output: Frame, evidence: Params)

  predicate PreconditionsHold(f: Frame, p: AggParams) {
    && p.metrics != []
    && (forall c :: c in p.groupBy ==> f.Has(c))
    && (forall m :: m in p.metrics ==> f.Has(m.column))
  }

  function AggEvidence(f: Frame, p: AggParams, output: Frame, entries: seq<Value>, external: Value): Params {
    map["group_by" := TextList(p.groupBy), "group_count" := Num(output.Height() as real),
        "rows_covered" := Num(f.Height() as real), "reconciliation" := List(entries),
        "external_reconciliation" := external]
  }

  function Execute(f: Frame, p: AggParams, dual: seq<Cell> -> real): Result<AggResult, PlatformError> {
    if !PreconditionsHold(f, p) then Err(PlatformError(VALIDATION_FAIL, []))
    else
      match DualChecks(f, p.metrics, p.tolerance, dual)
      case Err(e) => Err(e)
      case Ok(entries) =>
        match ExternalCheck(f, p)
        case Err(e) => Err(e)
        case Ok(external) =>
          var output := OutputFrame(f, p);
          Ok(AggResult(output, AggEvidence(f, p, output, entries, external)))
  }

  lemma {:induction false} DualPrefixFails(f: Frame, metrics: seq<Metric>, tolerance: real, dual: seq<Cell> -> real,
                                           n: nat)
    requires n <= |metrics| && DualChecks(f, metrics[..n], tolerance, dual).Err?
    ensures DualChecks(f, metrics, tolerance, dual) == DualChecks(f, metrics[..n], tolerance, dual)
  {
    if n < |metrics| {
      var init := metrics[..|metrics| - 1];
      assert init[..n] == metrics[..n];
      DualPrefixFails(f, init, tolerance, dual, n);
    } else {
      assert metrics[..n] == metrics;
    }
  }

  lemma DualNext(f: Frame, metrics: seq<Metric>, i: nat, tolerance: real, dual: seq<Cell> -> real)
    requires i < |metrics| && DualChecks(f, metrics[..i], tolerance, dual).Ok?
    ensures var m, entries := metrics[i], DualChecks(f, metrics[..i], tolerance, dual).value;
      var cells := f.Cells(m.column);
      DualChecks(f, metrics[..i + 1], tolerance, dual) ==
        if !m.fn.Sum? then Ok(entries)
        else if Abs(SumCells(cells) - dual(cells)) <= tolerance
        then Ok(entries + [Entry(m, SumCells(cells), dual(cells), tolerance)])
        else Err(PlatformError(RECONCILIATION_FAIL, [m.name]))
  {
    assert metrics[..i + 1][..i] == metrics[..i];
  }

  method Run(f: Frame, p: AggParams, dual: seq<Cell> -> real) returns (r: Result<AggResult, PlatformError>)
    requires PreconditionsHold(f, p)
    ensures r == Execute(f, p, dual)
  {
    var result := OutputFrame(f, p);
    var reconciliation: seq<Value> := [];
    for i := 0 to |p.metrics|
      invariant DualChecks(f, p.metrics[..i], p.tolerance, dual) == Ok(reconciliation)
    {
      var m := p.metrics[i];
      DualNext(f, p.metrics, i, p.tolerance, dual);
      if !m.fn.Sum? {
        continue;
      }
      var total, other := SumCells(f.Cells(m.column)), dual(f.Cells(m.column));
      var passed := Abs(total - other) <= p.tolerance;
      if !passed {
        DualPrefixFails(f, p.metrics, p.tolerance, dual, i + 1);
        return Err(PlatformError(RECONCILIATION_FAIL, [m.name]));
      }
      reconciliation := reconciliation + [Entry(m, total, other, p.tolerance)];
    }
    assert p.metrics[..|p.metrics|] == p.metrics;
    var external := ExternalCheck(f, p);
    if external.Err? {
      return Err(external.error);
    }
    return Ok(AggResult(result, AggEvidence(f, p, result, reconciliation, external.value)));
  }

  // ---- Evidence of a completed aggregate never reports a failure ----

  lemma {:induction false} DualEntriesPass(f: Frame, metrics: seq<Metric>, tolerance: real, dual: seq<Cell> -> real)
    requires DualChecks(f, metrics, tolerance, dual).Ok?
    ensures forall v :: v in DualChecks(f, metrics, tolerance, dual).value ==> v.Dict? && !EntryFailed(v.fields)
  {
    if metrics != [] { DualEntriesPass(f, metrics[..|metrics| - 1], tolerance, dual); }
  }

  /** Whatever the second engine computes, an aggregate that completes reports only passed checks. */
  lemma CompletedEvidencePasses(f: Frame, p: AggParams, dual: seq<Cell> -> real)
    requires Execute(f, p, dual).Ok?
    ensures NoFailedEntry(Execute(f, p, dual).value.evidence)
  {
    var e := Execute(f, p, dual).value.evidence;
    DualEntriesPass(f, p.metrics, p.tolerance, dual);
    var entries := DualChecks(f, p.metrics, p.tolerance, dual).value;
    assert Get(e, "reconciliation") == List(entries);
    assert Get(e, "external_reconciliation") == ExternalCheck(f, p).value;
    forall x | x in ReconciliationEntries(e) ensures !EntryFailed(x) {
      if x in Dicts(entries) { DictsMembers(entries, x); }
    }
  }

  lemma {:induction false} DualAgrees(f: Frame, metrics: seq<Metric>, tolerance: real, dual: seq<Cell> -> real)
    requires forall cells :: dual(cells) == SumCells(cells)
    ensures DualChecks(f, metrics, tolerance, dual).Ok? <==> 0.0 <= tolerance || forall m :: m in metrics ==> !m.fn.Sum?
  {
    if metrics != [] {
      var n := |metrics| - 1;
      DualAgrees(f, metrics[..n], tolerance, dual);
      assert metrics == metrics[..n] + [metrics[n]];
    }
  }

  /** When both engines compute the mathematical sum and no control total is given, the operation fails its
      own dual check exactly if some sum is asked for with a negative tolerance. */
  lemma ExactEnginesAgree(f: Frame, p: AggParams, dual: seq<Cell> -> real)
    requires PreconditionsHold(f, p) && p.reconcileTo == None && forall cells :: dual(cells) == SumCells(cells)
    ensures Execute(f, p, dual).Ok? <==> 0.0 <= p.tolerance || forall m :: m in p.metrics ==> !m.fn.Sum?
  {
    DualAgrees(f, p.metrics, p.tolerance, dual);
  }

  ghost predicate Agrees(a: real, b: real, tolerance: real) {
    b - tolerance <= a <= b + tolerance
  }

  lemma {:induction false} DualPassesIff(f: Frame, metrics: seq<Metric>, tolerance: real, dual: seq<Cell> -> real)
    ensures DualChecks(f, metrics, tolerance, dual).Ok? <==>
            forall m :: m in metrics && m.fn == Sum ==>
              Agrees(SumCells(f.Cells(m.column)), dual(f.Cells(m.column)), tolerance)
  {
    if metrics != [] {
      var n := |metrics| - 1;
      DualPassesIff(f, metrics[..n], tolerance, dual);
      assert metrics == metrics[..n] + [metrics[n]];
    }
  }

  /** `i` is the first metric that is a sum. */
  ghost predicate FirstSum(metrics: seq<Metric>, i: int) {
    0 <= i < |metrics| && metrics[i].fn == Sum && forall k :: 0 <= k < i ==> metrics[k].fn != Sum
  }

  lemma {:induction false} FirstOfSums(metrics: seq<Metric>) returns (i: nat)
    ensures var sums := Filter(metrics, (m: Metric) => m.fn.Sum?);
      if sums == [] then forall k :: 0 <= k < |metrics| ==> metrics[k].fn != Sum
      else FirstSum(metrics, i) && sums[0] == metrics[i]
  {
    i := 0;
    if metrics != [] && metrics[0].fn != Sum {
      var n := FirstOfSums(metrics[1..]);
      i := n + 1;
      assert forall k :: 0 < k < |metrics| ==> metrics[k] == metrics[1..][k - 1];
    }
  }

  /** The control total, if there is one, is met by the first sum metric, if there is one. */
  ghost predicate MeetsControl(f: Frame, p: AggParams) {
    p.reconcileTo.Some? ==> exists i ::
      FirstSum(p.metrics, i) && Agrees(SumCells(f.Cells(p.metrics[i].column)), p.reconcileTo.value, p.tolerance)
  }

  lemma ControlIff(f: Frame, p: AggParams)
    ensures ExternalCheck(f, p).Ok? <==> MeetsControl(f, p)
  {
    if p.reconcileTo.Some? {
      var i := FirstOfSums(p.metrics);
      forall k | FirstSum(p.metrics, k) ensures k == i {}
    }
  }

  /** It completes exactly when its preconditions hold, both engines agree within the tolerance on every sum, and the
      first sum meets the control total, if one is given. */
  lemma CompletesIff(f: Frame, p: AggParams, dual: seq<Cell> -> real)
    ensures Execute(f, p, dual).Ok? <==>
      && p.metrics != [] && (forall c :: c in p.groupBy ==> f.Has(c))
         && (forall m :: m in p.metrics ==> f.Has(m.column))
      && (forall m :: m in p.metrics && m.fn == Sum ==>
            Agrees(SumCells(f.Cells(m.column)), dual(f.Cells(m.column)), p.tolerance))
      && MeetsControl(f, p)
  {
    DualPassesIff(f, p.metrics, p.tolerance, dual);
    ControlIff(f, p);
  }

  /** `v` reports the check of the sum metric `m`: what each engine computed, and that they agree within the
      tolerance. */
  ghost predicate ReportsSum(v: Value, f: Frame, m: Metric, tolerance: real, dual: seq<Cell> -> real) {
    var a, b := SumCells(f.Cells(m.column)), dual(f.Cells(m.column));
    v == Dict(map["metric" := Str(m.name), "polars_value" := Num(a), "duckdb_value" := Num(b),
                  "difference" := Num(if a < b then b - a else a - b), "tolerance" := Num(tolerance),
                  "passed" := Bool(true)])
  }

  lemma {:induction false} EntriesReport(f: Frame, metrics: seq<Metric>, tolerance: real, dual: seq<Cell> -> real)
    requires DualChecks(f, metrics, tolerance, dual).Ok?
    ensures |DualChecks(f, metrics, tolerance, dual).value| == CountIf(metrics, (m: Metric) => m.fn == Sum)
    ensures forall m :: m in metrics && m.fn == Sum ==>
      exists v :: v in DualChecks(f, metrics, tolerance, dual).value && ReportsSum(v, f, m, tolerance, dual)
  {
    if metrics != [] {
      var n := |metrics| - 1;
      EntriesReport(f, metrics[..n], tolerance, dual);
      var before, all :=
        DualChecks(f, metrics[..n], tolerance, dual).value, DualChecks(f, metrics, tolerance, dual).value;
      assert metrics == metrics[..n] + [metrics[n]];
      forall m | m in metrics && m.fn == Sum ensures exists v :: v in all && ReportsSum(v, f, m, tolerance, dual) {
        if m == metrics[n] {
          assert all[|before|] in all && ReportsSum(all[|before|], f, m, tolerance, dual);
        } else {
          var v :| v in before && ReportsSum(v, f, m, tolerance, dual);
          assert v in all;
        }
      }
    }
  }

  ghost predicate ReportsControl(v: Value, f: Frame, p: AggParams, m: Metric) {
    p.reconcileTo.Some? &&
    var a, b := SumCells(f.Cells(m.column)), p.reconcileTo.value;
    v == Dict(map["metric" := Str(m.name), "expected" := Num(b), "observed" := Num(a),
                  "difference" := Num(if a < b then b - a else a - b), "tolerance" := Num(p.tolerance),
                  "passed" := Bool(true)])
  }

  ghost predicate ReportsSums(v: Value, f: Frame, p: AggParams, dual: seq<Cell> -> real) {
    && v.List? && |v.items| == CountIf(p.metrics, (m: Metric) => m.fn == Sum)
    && forall m :: m in p.metrics && m.fn == Sum ==> exists x :: x in v.items && ReportsSum(x, f, m, p.tolerance, dual)
  }

  ghost predicate ReportsExternal(v: Value, f: Frame, p: AggParams) {
    if p.reconcileTo.None? then v == Null
    else exists i :: FirstSum(p.metrics, i) && ReportsControl(v, f, p, p.metrics[i])
  }

  lemma ExternalReports(f: Frame, p: AggParams)
    requires ExternalCheck(f, p).Ok?
    ensures ReportsExternal(ExternalCheck(f, p).value, f, p)
  {
    if p.reconcileTo.Some? {
      var i := FirstOfSums(p.metrics);
      assert ReportsControl(ExternalCheck(f, p).value, f, p, p.metrics[i]);
    }
  }

  lemma SumsReported(f: Frame, p: AggParams, dual: seq<Cell> -> real)
    requires DualChecks(f, p.metrics, p.tolerance, dual).Ok?
    ensures ReportsSums(List(DualChecks(f, p.metrics, p.tolerance, dual).value), f, p, dual)
  {
    EntriesReport(f, p.metrics, p.tolerance, dual);
  }

  /** The evidence of a completed aggregate: its grouping, the rows out and in, one report for each sum metric, and
      one for the control total, if one is given. */
  lemma EvidenceReports(f: Frame, p: AggParams, dual: seq<Cell> -> real)
    requires Execute(f, p, dual).Ok?
    ensures var AggResult(output, e) := Execute(f, p, dual).value;
      && Get(e, "group_by") == TextList(p.groupBy)
      && Get(e, "group_count") == Num(|output.rows| as real) && Get(e, "rows_covered") == Num(|f.rows| as real)
      && ReportsSums(Get(e, "reconciliation"), f, p, dual)
      && ReportsExternal(Get(e, "external_reconciliation"), f, p)
  {
    SumsReported(f, p, dual);
    ExternalReports(f, p);
    var entries, external := DualChecks(f, p.metrics, p.tolerance, dual).value, ExternalCheck(f, p).value;
    ReadsBack(f, p, OutputFrame(f, p), entries, external);
  }

  lemma ReadsBack(f: Frame, p: AggParams, output: Frame, entries: seq<Value>, external: Value)
    ensures var e := AggEvidence(f, p, output, entries, external);
      && Get(e, "group_by") == TextList(p.groupBy)
      && Get(e, "group_count") == Num(|output.rows| as real) && Get(e, "rows_covered") == Num(|f.rows| as real)
      && Get(e, "reconciliation") == List(entries) && Get(e, "external_reconciliation") == external
  {
  }

  // ---- Partition sums ----

  lemma GroupsDistinct(rows: seq<Row>, keys: seq<string>)
    ensures Distinct(Groups(rows, keys))
    ensures forall r :: r in rows ==> Key(r, keys) in Groups(rows, keys)
  {
    var ks := KeysOf(rows, keys);
    FirstSeenFacts(ks);
    forall r | r in rows ensures Key(r, keys) in ks {
      var i :| 0 <= i < |rows| && rows[i] == r;
      assert ks[i] == Key(r, keys);
    }
  }

  /** Sum of the groups `ks`. */
  ghost function GroupTotal(rows: seq<Row>, keys: seq<string>, ks: seq<seq<Cell>>, column: string): real {
    if ks == [] then 0.0
    else GroupTotal(rows, keys, ks[..|ks| - 1], column) + SumCells(GroupCells(rows, keys, ks[|ks| - 1], column))
  }

  ghost function RowTotal(rows: seq<Row>, column: string): real {
    if rows == [] then 0.0 else RowTotal(rows[..|rows| - 1], column) + NumberOf(CellAt(rows[|rows| - 1], column))
  }

  lemma {:induction false} EmptyTotal(keys: seq<string>, ks: seq<seq<Cell>>, column: string)
    ensures GroupTotal([], keys, ks, column) == 0.0
  {
    if ks != [] { EmptyTotal(keys, ks[..|ks| - 1], column); }
  }

  /** One more row adds its number to its own group and to no other. */
  lemma {:induction false} OneMoreRow(rows: seq<Row>, r: Row, keys: seq<string>, ks: seq<seq<Cell>>, column: string)
    requires Distinct(ks)
    ensures GroupTotal(rows + [r], keys, ks, column) ==
            GroupTotal(rows, keys, ks, column) + (if Key(r, keys) in ks then NumberOf(CellAt(r, column)) else 0.0)
  {
    if ks != [] {
      var n := |ks| - 1;
      OneMoreRow(rows, r, keys, ks[..n], column);
      assert (rows + [r])[..|rows|] == rows;
      assert ks == ks[..n] + [ks[n]];
      var cells := GroupCells(rows, keys, ks[n], column);
      if Key(r, keys) == ks[n] {
        assert (cells + [CellAt(r, column)])[..|cells|] == cells;
        assert forall i :: 0 <= i < n ==> ks[..n][i] != ks[n];
      } else {
        assert cells + [] == cells;
      }
    }
  }

  lemma {:induction false} GroupsCoverTotal(rows: seq<Row>, keys: seq<string>, ks: seq<seq<Cell>>, column: string)
    requires Distinct(ks) && forall r :: r in rows ==> Key(r, keys) in ks
    ensures GroupTotal(rows, keys, ks, column) == RowTotal(rows, column)
  {
    if rows == [] {
      EmptyTotal(keys, ks, column);
    } else {
      var n := |rows| - 1;
      assert rows == rows[..n] + [rows[n]];
      GroupsCoverTotal(rows[..n], keys, ks, column);
      OneMoreRow(rows[..n], rows[n], keys, ks, column);
    }
  }

  lemma {:induction false} RowTotalIsSum(f: Frame, n: nat, column: string)
    requires n <= |f.rows|
    ensures RowTotal(f.rows[..n], column) == SumCells(f.Cells(column)[..n])
  {
    if n > 0 {
      RowTotalIsSum(f, n - 1, column);
      assert f.rows[..n][..n - 1] == f.rows[..n - 1];
      assert f.Cells(column)[..n][..n - 1] == f.Cells(column)[..n - 1];
    }
  }

  // ---- What each metric is ----

  /** The number of cells that hold a value. */
  function Filled(cells: seq<Cell>): nat {
    if cells == [] then 0 else Filled(cells[..|cells| - 1]) + if cells[|cells| - 1].Absent? then 0 else 1
  }

  lemma {:induction false} SumSplits(a: seq<Cell>, b: seq<Cell>)
    ensures SumCells(a + b) == SumCells(a) + SumCells(b)
  {
    if b == [] {
      assert a + b == a;
    } else {
      assert (a + b)[..|a + b| - 1] == a + b[..|b| - 1];
      SumSplits(a, b[..|b| - 1]);
    }
  }

  /** A sum is the total of its numbers: nulls add nothing, and parts add up. */
  lemma SumIsTotal(a: seq<Cell>, r: real, b: seq<Cell>)
    ensures SumCells([]) == 0.0 && SumCells(a + [Number(r)] + b) == SumCells(a) + r + SumCells(b)
    ensures SumCells(a + [Absent] + b) == SumCells(a) + SumCells(b)
  {
    SumSplits(a + [Number(r)], b);
    SumSplits(a, [Number(r)]);
    SumSplits(a + [Absent], b);
    SumSplits(a, [Absent]);
    assert [Number(r)][..0] == [] && [Absent][..0] == [];
  }

  /** `out` is what `fn` makes of `cells`: the mean, the least and the greatest of no value are null. */
  ghost predicate IsMetric(fn: AggFn, cells: seq<Cell>, out: Cell) {
    match fn
    case Sum => out == Number(SumCells(cells))
    case Mean =>
      if Filled(cells) == 0 then out == Absent else out.Number? && out.r * Filled(cells) as real == SumCells(cells)
    case Count => out == Number(Filled(cells) as real)
    case Min => IsExtreme(if out.Absent? then None else Some(out), cells, CellLeq)
    case Max => IsExtreme(if out.Absent? then None else Some(out), cells, CellGeq)
    case NUnique => out == Number(|set c | c in cells| as real)
  }

  lemma {:induction false} PresentCount(cells: seq<Cell>)
    ensures |Present(cells)| == |cells| - multiset(cells)[Absent]
  {
    if cells != [] {
      PresentCount(cells[1..]);
      assert cells == [cells[0]] + cells[1..];
    }
  }

  lemma {:induction false} FilledCount(cells: seq<Cell>)
    ensures Filled(cells) == |cells| - multiset(cells)[Absent]
  {
    if cells != [] {
      var n := |cells| - 1;
      FilledCount(cells[..n]);
      assert cells == cells[..n] + [cells[n]];
    }
  }

  lemma Quotient(total: real, n: nat)
    requires n > 0
    ensures total / n as real * n as real == total
  {
  }

  lemma CountsPresent(cells: seq<Cell>)
    ensures |Present(cells)| == Filled(cells)
  {
    PresentCount(cells);
    FilledCount(cells);
  }

  lemma MeanIs(cells: seq<Cell>)
    ensures IsMetric(Mean, cells, Evaluate(Mean, cells))
  {
    CountsPresent(cells);
    if Present(cells) != [] { Quotient(SumCells(cells), |Present(cells)|); }
  }

  lemma ExtremesAre(cells: seq<Cell>)
    ensures IsMetric(Min, cells, Evaluate(Min, cells)) && IsMetric(Max, cells, Evaluate(Max, cells))
  {
    BothOrders();
    ExtremeIs(cells, CellLeq);
    ExtremeIs(cells, CellGeq);
  }

  lemma EvaluateIs(fn: AggFn, cells: seq<Cell>)
    ensures IsMetric(fn, cells, Evaluate(fn, cells))
  {
    match fn
    case Sum =>
    case Mean => MeanIs(cells);
    case Count => CountsPresent(cells);
    case Min => ExtremesAre(cells);
    case Max => ExtremesAre(cells);
    case NUnique => assert Elements(cells) == set c | c in cells;
  }

  // ---- What each row of the result is ----

  /** The rows that agree with `r` on the grouping columns. */
  function SameGroup(r: Row, keys: seq<string>): Row -> bool {
    (x: Row) => Key(x, keys) == Key(r, keys)
  }

  lemma {:induction false} GroupCellsPicked(rows: seq<Row>, keys: seq<string>, r: Row, column: string)
    ensures PickedFrom(rows, SameGroup(r, keys), column, GroupCells(rows, keys, Key(r, keys), column))
  {
    if rows == [] {
      NonePicked(SameGroup(r, keys), column);
    } else {
      var n := |rows| - 1;
      GroupCellsPicked(rows[..n], keys, r, column);
      OneMorePicked(rows, SameGroup(r, keys), column, GroupCells(rows[..n], keys, Key(r, keys), column));
    }
  }

  /** `out` is the row of the group of `r`: its grouping cells, and each metric over the cells of its group. */
  ghost predicate IsGroupRow(f: Frame, p: AggParams, r: Row, out: Row) {
    && (forall c :: c in p.groupBy ==> c in out && out[c] == CellAt(r, c))
    && forall i :: 0 <= i < |p.metrics| ==> IsGroupMetric(f, p, r, p.metrics[i], out)
  }

  ghost predicate IsGroupMetric(f: Frame, p: AggParams, r: Row, m: Metric, out: Row) {
    && m.name in out
    && exists cells ::
         PickedFrom(f.rows, SameGroup(r, p.groupBy), m.column, cells) && IsMetric(m.fn, cells, out[m.name])
  }

  lemma {:induction false} MetricsLeaveOthers(base: Row, metrics: seq<Metric>, cells: string -> seq<Cell>, c: string)
    requires c in base && forall m :: m in metrics ==> m.name != c
    ensures c in WithMetrics(base, metrics, cells) && WithMetrics(base, metrics, cells)[c] == base[c]
  {
    if metrics != [] {
      var n := |metrics| - 1;
      assert metrics == metrics[..n] + [metrics[n]];
      MetricsLeaveOthers(base, metrics[..n], cells, c);
    }
  }

  lemma GroupRowIs(f: Frame, p: AggParams, r: Row)
    requires NamesDistinct(p)
    ensures IsGroupRow(f, p, r, GroupRow(f.rows, p, Key(r, p.groupBy)))
  {
    var k := Key(r, p.groupBy);
    var out := GroupRow(f.rows, p, k);
    var cells := column => GroupCells(f.rows, p.groupBy, k, column);
    KeyCellsRead(r, p.groupBy);
    forall c | c in p.groupBy ensures c in out && out[c] == CellAt(r, c) {
      MetricsLeaveOthers(KeyCells(p.groupBy, k), p.metrics, cells, c);
    }
    forall i | 0 <= i < |p.metrics| ensures IsGroupMetric(f, p, r, p.metrics[i], out) {
      var m := p.metrics[i];
      MetricCell(KeyCells(p.groupBy, k), p.metrics, cells, i);
      GroupCellsPicked(f.rows, p.groupBy, r, m.column);
      EvaluateIs(m.fn, cells(m.column));
    }
  }

  /** A grouped aggregate has one row for each group of rows that agree on the grouping columns, nulls counted as
      equal: `of` names a row of each group, and no group twice. */
  lemma OneRowPerGroup(f: Frame, p: AggParams) returns (of: seq<Row>)
    requires p.groupBy != [] && NamesDistinct(p)
    ensures |of| == |OutputRows(f, p)| && Distinct(KeysOf(of, p.groupBy))
    ensures forall r :: r in f.rows ==> Key(r, p.groupBy) in KeysOf(of, p.groupBy)
    ensures forall g :: 0 <= g < |of| ==> of[g] in f.rows && IsGroupRow(f, p, of[g], OutputRows(f, p)[g])
  {
    var groups := Groups(f.rows, p.groupBy);
    GroupKeyLengths(f.rows, p.groupBy);
    GroupsDistinct(f.rows, p.groupBy);
    FirstSeenFacts(KeysOf(f.rows, p.groupBy));
    of := RowsWithKeys(f.rows, p.groupBy, groups);
    forall g | 0 <= g < |of| ensures of[g] in f.rows && IsGroupRow(f, p, of[g], OutputRows(f, p)[g]) {
      GroupRowIs(f, p, of[g]);
    }
  }

  /** Without grouping there is one row, of each metric over the whole column. */
  lemma TotalRowIs(f: Frame, p: AggParams, i: nat)
    requires p.groupBy == [] && NamesDistinct(p) && i < |p.metrics|
    ensures |OutputRows(f, p)| == 1 && p.metrics[i].name in OutputRows(f, p)[0]
    ensures IsMetric(p.metrics[i].fn, f.Cells(p.metrics[i].column), OutputRows(f, p)[0][p.metrics[i].name])
  {
    MetricCell(map[], p.metrics, column => f.Cells(column), i);
    EvaluateIs(p.metrics[i].fn, f.Cells(p.metrics[i].column));
  }

  // ---- Reading a metric back from the output ----

  /** Metric names are new columns: distinct, and none of them a grouping column. */
  ghost predicate NamesDistinct(p: AggParams) {
    && (forall i, j :: 0 <= i < j < |p.metrics| ==> p.metrics[i].name != p.metrics[j].name)
    && (forall m :: m in p.metrics ==> m.name !in p.groupBy)
  }

  lemma {:induction false} MetricCell(base: Row, metrics: seq<Metric>, cells: string -> seq<Cell>, i: nat)
    requires i < |metrics| && forall a, b :: 0 <= a < b < |metrics| ==> metrics[a].name != metrics[b].name
    ensures metrics[i].name in WithMetrics(base, metrics, cells)
    ensures WithMetrics(base, metrics, cells)[metrics[i].name] == Evaluate(metrics[i].fn, cells(metrics[i].column))
  {
    var n := |metrics| - 1;
    if i < n {
      var init := metrics[..n];
      assert forall a, b :: 0 <= a < b < n ==> init[a].name != init[b].name;
      MetricCell(base, init, cells, i);
    }
  }

  lemma GroupRowMetric(rows: seq<Row>, p: AggParams, k: seq<Cell>, i: nat)
    requires |k| == |p.groupBy| && NamesDistinct(p) && i < |p.metrics| && p.metrics[i].fn.Sum?
    ensures CellAt(GroupRow(rows, p, k), p.metrics[i].name) ==
            Number(SumCells(GroupCells(rows, p.groupBy, k, p.metrics[i].column)))
  {
    MetricCell(KeyCells(p.groupBy, k), p.metrics, column => GroupCells(rows, p.groupBy, k, column), i);
  }

  lemma {:induction false} OutputTotal(f: Frame, p: AggParams, i: nat, groups: seq<seq<Cell>>, rows: seq<Row>)
    requires NamesDistinct(p) && i < |p.metrics| && p.metrics[i].fn.Sum? && |rows| == |groups|
    requires forall g :: 0 <= g < |groups| ==> |groups[g]| == |p.groupBy| && rows[g] == GroupRow(f.rows, p, groups[g])
    ensures RowTotal(rows, p.metrics[i].name) == GroupTotal(f.rows, p.groupBy, groups, p.metrics[i].column)
  {
    if groups != [] {
      var n := |groups| - 1;
      OutputTotal(f, p, i, groups[..n], rows[..n]);
      GroupRowMetric(f.rows, p, groups[n], i);
    }
  }

  /** The grouped sums add up to the ungrouped total, for every frame and grouping. */
  lemma GroupedSumsAddUp(f: Frame, p: AggParams, i: nat)
    requires p.groupBy != [] && NamesDistinct(p) && i < |p.metrics| && p.metrics[i].fn.Sum?
    ensures RowTotal(OutputRows(f, p), p.metrics[i].name) == SumCells(f.Cells(p.metrics[i].column))
  {
    var groups, rows := Groups(f.rows, p.groupBy), OutputRows(f, p);
    GroupKeyLengths(f.rows, p.groupBy);
    assert forall g :: 0 <= g < |groups| ==> groups[g] in groups;
    OutputTotal(f, p, i, groups, rows);
    GroupsDistinct(f.rows, p.groupBy);
    GroupsCoverTotal(f.rows, p.groupBy, groups, p.metrics[i].column);
    ColumnTotal(f, p.metrics[i].column);
  }

  lemma ColumnTotal(f: Frame, column: string)
    ensures RowTotal(f.rows, column) == SumCells(f.Cells(column))
  {
    RowTotalIsSum(f, |f.rows|, column);
    assert f.rows[..|f.rows|] == f.rows && f.Cells(column)[..|f.rows|] == f.Cells(column);
  }

  lemma {:induction false} TotalSplits(a: seq<Row>, b: seq<Row>, column: string)
    ensures RowTotal(a + b, column) == RowTotal(a, column) + RowTotal(b, column)
  {
    if b == [] {
      assert a + b == a;
    } else {
      var n := |b| - 1;
      assert (a + b)[..|a + b| - 1] == a + b[..n];
      TotalSplits(a, b[..n], column);
    }
  }

  /** Taking one row out takes its number off the total. */
  lemma TotalWithout(b: seq<Row>, i: nat, column: string)
    requires i < |b|
    ensures RowTotal(b, column) == RowTotal(b[..i] + b[i + 1..], column) + NumberOf(CellAt(b[i], column))
  {
    TotalSplits(b[..i], b[i..], column);
    TotalSplits(b[i..i + 1], b[i + 1..], column);
    TotalSplits(b[..i], b[i + 1..], column);
    assert b == b[..i] + b[i..] && b[i..] == b[i..i + 1] + b[i + 1..];
    assert RowTotal(b[i..i + 1], column) == NumberOf(CellAt(b[i], column)) by { assert b[i..i + 1][..0] == []; }
  }

  lemma RemoveMatching(a: seq<Row>, b: seq<Row>) returns (i: nat)
    requires a != [] && multiset(a) == multiset(b)
    ensures i < |b| && b[i] == a[|a| - 1] && multiset(a[..|a| - 1]) == multiset(b[..i] + b[i + 1..])
  {
    var n, r := |a| - 1, a[|a| - 1];
    assert r in multiset(b);
    i :| 0 <= i < |b| && b[i] == r;
    assert a == a[..n] + [r];
    assert b == b[..i] + [r] + b[i + 1..];
    assert multiset(a[..n]) == multiset(a) - multiset{r};
    assert multiset(b[..i] + b[i + 1..]) == multiset(b) - multiset{r};
  }

  /** A total does not depend on the order of the rows. */
  lemma {:induction false} TotalIgnoresOrder(a: seq<Row>, b: seq<Row>, column: string)
    requires multiset(a) == multiset(b)
    ensures RowTotal(a, column) == RowTotal(b, column)
  {
    if a == [] {
      assert |multiset(b)| == 0;
      assert b == [];
    } else {
      var i := RemoveMatching(a, b);
      TotalIgnoresOrder(a[..|a| - 1], b[..i] + b[i + 1..], column);
      TotalWithout(b, i, column);
    }
  }
}
