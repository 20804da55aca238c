/** The independent verifier: it re-derives, from the step records alone, whether a run satisfies its contract. */
module Verifier {
  import opened Values
  import opened Ids
  import opened Seqs
  import opened Dsl
  import opened Contract
  import opened Evidence
  import opened Protocol
  import opened StepRows
  import PolicyGate

  datatype Defect =
    | NotLocked(source: string)
    | NoRecord(step: string)
    | NotCompleted(step: string, status: StepStatus)
    | NoEvidence(step: string)
    | NotCovered(metric: string)
    | TestDropped(test: string)
    | FailedEntry(step: string, entry: map<string, Value>)
    | ProhibitedUsed(operation: string)
    | OpenClarifications

  datatype Claim = SumsNotReconciled

  datatype Verdict = PASS | FAIL | NEEDS_REVIEW

  datatype Coverage = Coverage(metric: string, covered: bool, evidenceRefs: seq<string>)

  datatype VerifierResult = VerifierResult(
    verdict: Verdict,
    coverage: seq<Coverage>,
    defects: seq<Defect>,
    unverifiedClaims: seq<Claim>,
    recommendsRelease: bool)

  type Records = map<string, StepRecord>

  predicate HasCompleted(records: Records, id: string) {
    id in records && records[id].status.Completed?
  }

  // ---- Defects, dimension by dimension ----

  function SourceDefects(snapshots: map<string, string>): string -> seq<Defect> {
    source => if source in snapshots then [] else [NotLocked(source)]
  }

  function StepDefects(records: Records): WorkflowStep -> seq<Defect> {
    (s: WorkflowStep) =>
      if s.id !in records then [NoRecord(s.id)]
      else if !records[s.id].status.Completed? then [NotCompleted(s.id, records[s.id].status)]
      else if records[s.id].evidence == map[] then [NoEvidence(s.id)]
      else []
  }

  function CoveringSteps(w: Workflow, records: Records, metric: string): seq<WorkflowStep> {
    Filter(w.steps, (s: WorkflowStep) => metric in s.requirementRefs && HasCompleted(records, s.id))
  }

  function CoverageOf(w: Workflow, records: Records, m: ContractMetric): Coverage {
    var steps := CoveringSteps(w, records, m.name);
    Coverage(m.name, steps != [], StepIds(steps))
  }

  function MetricDefects(w: Workflow, records: Records): ContractMetric -> seq<Defect> {
    (m: ContractMetric) => if CoverageOf(w, records, m).covered then [] else [NotCovered(m.name)]
  }

  function TestDefects(w: Workflow): string -> seq<Defect> {
    test => if test in w.finalAcceptanceTests then [] else [TestDropped(test)]
  }

  function EntryDefects(id: string): map<string, Value> -> seq<Defect> {
    (e: map<string, Value>) => if EntryFailed(e) then [FailedEntry(id, e)] else []
  }

  function RowDefects(r: StepRow): seq<Defect> {
    FlatMap(ReconciliationEntries(r.record.evidence), EntryDefects(r.id))
  }

  predicate Reconciles(rows: seq<StepRow>) {
    exists r :: r in rows && ReconciliationEntries(r.record.evidence) != []
  }

  predicate DeclaresSum(t: Terms) {
    exists m :: m in t.metrics && IsSumFormula(m.formula)
  }

  function ProhibitedUse(t: Terms, w: Workflow): seq<Defect> {
    var used := SortedSeq(Elements(t.prohibitedActions) * PolicyGate.Operations(w.steps));
    seq(|used|, i requires 0 <= i < |used| => ProhibitedUsed(used[i]))
  }

  function CoverageEntry(w: Workflow, records: Records): ContractMetric -> seq<Coverage> {
    (m: ContractMetric) => [CoverageOf(w, records, m)]
  }

  function Defects(t: Terms, w: Workflow, snapshots: map<string, string>, rows: seq<StepRow>): seq<Defect> {
    var records := ById(rows);
    FlatMap(w.sources, SourceDefects(snapshots))
    + FlatMap(w.steps, StepDefects(records))
    + FlatMap(t.metrics, MetricDefects(w, records))
    + FlatMap(t.acceptanceTests, TestDefects(w))
    + FlatMap(rows, RowDefects)
    + ProhibitedUse(t, w)
    + (if t.clarifications != [] then [OpenClarifications] else [])
  }

  function Verified(t: Terms, w: Workflow, snapshots: map<string, string>, rows: seq<StepRow>): VerifierResult {
    var defects := Defects(t, w, snapshots, rows);
    var claims := if DeclaresSum(t) && !Reconciles(rows) then [SumsNotReconciled] else [];
    var verdict := if defects != [] then FAIL else if claims != [] then NEEDS_REVIEW else PASS;
    VerifierResult(verdict, FlatMap(t.metrics, CoverageEntry(w, ById(rows))), defects, claims, verdict == PASS)
  }

  method CheckSources(sources: seq<string>, snapshots: map<string, string>) returns (defects: seq<Defect>)
    ensures defects == FlatMap(sources, SourceDefects(snapshots))
  {
    defects := [];
    for i := 0 to |sources|
      invariant defects == FlatMap(sources[..i], SourceDefects(snapshots))
    {
      FlatMapStep(sources, SourceDefects(snapshots), i);
      if sources[i] !in snapshots { defects := defects + [NotLocked(sources[i])]; }
    }
    assert sources[..|sources|] == sources;
  }

  method CheckSteps(steps: seq<WorkflowStep>, records: Records) returns (defects: seq<Defect>)
    ensures defects == FlatMap(steps, StepDefects(records))
  {
    defects := [];
    for i := 0 to |steps|
      invariant defects == FlatMap(steps[..i], StepDefects(records))
    {
      FlatMapStep(steps, StepDefects(records), i);
      var s := steps[i];
      if s.id !in records {
        defects := defects + [NoRecord(s.id)];
      } else if !records[s.id].status.Completed? {
        defects := defects + [NotCompleted(s.id, records[s.id].status)];
      } else if records[s.id].evidence == map[] {
        defects := defects + [NoEvidence(s.id)];
      }
    }
    assert steps[..|steps|] == steps;
  }

  method CheckMetrics(metrics: seq<ContractMetric>, w: Workflow, records: Records)
    returns (defects: seq<Defect>, coverage: seq<Coverage>)
    ensures defects == FlatMap(metrics, MetricDefects(w, records))
    ensures coverage == FlatMap(metrics, CoverageEntry(w, records))
  {
    defects, coverage := [], [];
    for i := 0 to |metrics|
      invariant defects == FlatMap(metrics[..i], MetricDefects(w, records))
      invariant coverage == FlatMap(metrics[..i], CoverageEntry(w, records))
    {
      FlatMapStep(metrics, MetricDefects(w, records), i);
      FlatMapStep(metrics, CoverageEntry(w, records), i);
      var c := CoverageOf(w, records, metrics[i]);
      defects := defects + (if c.covered then [] else [NotCovered(metrics[i].name)]);
      coverage := coverage + [c];
    }
    assert metrics[..|metrics|] == metrics;
  }

  method CheckTests(tests: seq<string>, w: Workflow) returns (defects: seq<Defect>)
    ensures defects == FlatMap(tests, TestDefects(w))
  {
    defects := [];
    for i := 0 to |tests|
      invariant defects == FlatMap(tests[..i], TestDefects(w))
    {
      FlatMapStep(tests, TestDefects(w), i);
      if tests[i] !in w.finalAcceptanceTests { defects := defects + [TestDropped(tests[i])]; }
    }
    assert tests[..|tests|] == tests;
  }

  method CheckEntries(id: string, entries: seq<map<string, Value>>) returns (defects: seq<Defect>, any: bool)
    ensures defects == FlatMap(entries, EntryDefects(id)) && any == (entries != [])
  {
    defects, any := [], false;
    for i := 0 to |entries|
      invariant defects == FlatMap(entries[..i], EntryDefects(id)) && any == (0 < i)
    {
      FlatMapStep(entries, EntryDefects(id), i);
      any := true;
      if EntryFailed(entries[i]) { defects := defects + [FailedEntry(id, entries[i])]; }
    }
    assert entries[..|entries|] == entries;
  }

  method CheckRecords(rows: seq<StepRow>) returns (defects: seq<Defect>, reconciles: bool)
    ensures defects == FlatMap(rows, RowDefects) && reconciles == Reconciles(rows)
  {
    defects, reconciles := [], false;
    for i := 0 to |rows|
      invariant defects == FlatMap(rows[..i], RowDefects)
      invariant reconciles <==> exists k :: 0 <= k < i && ReconciliationEntries(rows[k].record.evidence) != []
    {
      FlatMapStep(rows, RowDefects, i);
      var more, any := CheckEntries(rows[i].id, ReconciliationEntries(rows[i].record.evidence));
      defects := defects + more;
      reconciles := reconciles || any;
    }
    assert rows[..|rows|] == rows;
  }

  method Verify(t: Terms, w: Workflow, snapshots: map<string, string>, rows: seq<StepRow>) returns (v: VerifierResult)
    ensures v == Verified(t, w, snapshots, rows)
  {
    var records := ById(rows);
    var sources := CheckSources(w.sources, snapshots);
    var steps := CheckSteps(w.steps, records);
    var metrics, coverage := CheckMetrics(t.metrics, w, records);
    var tests := CheckTests(t.acceptanceTests, w);
    var reported, reconciles := CheckRecords(rows);
    var defects := sources + steps + metrics + tests + reported + ProhibitedUse(t, w);
    var claims := if DeclaresSum(t) && !reconciles then [SumsNotReconciled] else [];
    defects := defects + (if t.clarifications != [] then [OpenClarifications] else []);
    var verdict := if defects != [] then FAIL else if claims != [] then NEEDS_REVIEW else PASS;
    return VerifierResult(verdict, coverage, defects, claims, verdict == PASS);
  }

  // ---- What a verdict means ----

  ghost predicate AllLocked(w: Workflow, snapshots: map<string, string>) {
    forall s :: s in w.sources ==> s in snapshots
  }

  ghost predicate AllEvidenced(w: Workflow, records: Records) {
    forall s :: s in w.steps ==> HasCompleted(records, s.id) && records[s.id].evidence != map[]
  }

  ghost predicate NamedBy(w: Workflow, metric: string) {
    exists s :: s in w.steps && metric in s.requirementRefs
  }

  ghost predicate AllNamed(t: Terms, w: Workflow) {
    forall m :: m in t.metrics ==> NamedBy(w, m.name)
  }

  ghost predicate TestsKept(t: Terms, w: Workflow) {
    forall test :: test in t.acceptanceTests ==> test in w.finalAcceptanceTests
  }

  ghost predicate NothingProhibited(t: Terms, w: Workflow) {
    forall s :: s in w.steps ==> s.operationId !in t.prohibitedActions
  }

  /** Every source is locked, every step COMPLETED with evidence, every metric named by a step, no acceptance
      test dropped, no prohibited operation used, no question left open. */
  ghost predicate PlanSatisfied(t: Terms, w: Workflow, snapshots: map<string, string>, records: Records) {
    && AllLocked(w, snapshots) && AllEvidenced(w, records) && AllNamed(t, w) && TestsKept(t, w)
    && NothingProhibited(t, w) && t.clarifications == []
  }

  ghost predicate NoFailedRecord(records: Records) {
    forall id :: id in records ==> NoFailedEntry(records[id].evidence)
  }

  /** Some step reports reconciliation evidence if the contract asks for any sum. */
  ghost predicate SumsReconciled(t: Terms, records: Records) {
    DeclaresSum(t) ==> exists id :: id in records && ReconciliationEntries(records[id].evidence) != []
  }

  lemma StepsClean(w: Workflow, records: Records)
    ensures FlatMap(w.steps, StepDefects(records)) == [] <==> AllEvidenced(w, records)
  {
    FlatMapEmpty(w.steps, StepDefects(records));
    forall s | s in w.steps
      ensures StepDefects(records)(s) == [] <==> HasCompleted(records, s.id) && records[s.id].evidence != map[]
    {
    }
  }

  lemma {:induction false} FilterEmpty<T>(s: seq<T>, keep: T -> bool)
    ensures Filter(s, keep) == [] <==> forall x :: x in s ==> !keep(x)
  {
    if s != [] {
      FilterEmpty(s[1..], keep);
      assert s == [s[0]] + s[1..];
    }
  }

  lemma Covers(w: Workflow, records: Records, m: ContractMetric)
    ensures CoverageOf(w, records, m).covered <==>
            exists s :: s in w.steps && m.name in s.requirementRefs && HasCompleted(records, s.id)
  {
    FilterEmpty(w.steps, (s: WorkflowStep) => m.name in s.requirementRefs && HasCompleted(records, s.id));
  }

  lemma MetricsClean(t: Terms, w: Workflow, records: Records)
    requires AllEvidenced(w, records)
    ensures FlatMap(t.metrics, MetricDefects(w, records)) == [] <==> AllNamed(t, w)
  {
    FlatMapEmpty(t.metrics, MetricDefects(w, records));
    forall m | m in t.metrics ensures MetricDefects(w, records)(m) == [] <==> NamedBy(w, m.name) {
      Covers(w, records, m);
    }
  }

  lemma RowClean(r: StepRow)
    ensures RowDefects(r) == [] <==> NoFailedEntry(r.record.evidence)
  {
    FlatMapEmpty(ReconciliationEntries(r.record.evidence), EntryDefects(r.id));
    forall e | e in ReconciliationEntries(r.record.evidence) ensures EntryDefects(r.id)(e) == [] <==> !EntryFailed(e) {
    }
  }

  lemma RowsClean(rows: seq<StepRow>, records: Records)
    requires Lists(rows, records)
    ensures FlatMap(rows, RowDefects) == [] <==> NoFailedRecord(records)
    ensures Reconciles(rows) <==> exists id :: id in records && ReconciliationEntries(records[id].evidence) != []
  {
    FlatMapEmpty(rows, RowDefects);
    forall r { RowClean(r); }
    if FlatMap(rows, RowDefects) == [] {
      forall id | id in records ensures NoFailedEntry(records[id].evidence) {
        assert StepRow(id, records[id]) in rows;
      }
    }
    if id :| id in records && ReconciliationEntries(records[id].evidence) != [] {
      assert StepRow(id, records[id]) in rows;
    }
  }

  lemma RestClean(t: Terms, w: Workflow, snapshots: map<string, string>)
    ensures FlatMap(w.sources, SourceDefects(snapshots)) == [] <==> AllLocked(w, snapshots)
    ensures FlatMap(t.acceptanceTests, TestDefects(w)) == [] <==> TestsKept(t, w)
    ensures ProhibitedUse(t, w) == [] <==> NothingProhibited(t, w)
  {
    FlatMapEmpty(w.sources, SourceDefects(snapshots));
    forall s | s in w.sources ensures SourceDefects(snapshots)(s) == [] <==> s in snapshots {}
    FlatMapEmpty(t.acceptanceTests, TestDefects(w));
    forall s | s in t.acceptanceTests ensures TestDefects(w)(s) == [] <==> s in w.finalAcceptanceTests {}
    var used := Elements(t.prohibitedActions) * PolicyGate.Operations(w.steps);
    assert |ProhibitedUse(t, w)| == |SortedSeq(used)|;
    assert used == {} <==> SortedSeq(used) == [];
    forall s | s in w.steps ensures s.operationId in t.prohibitedActions <==> s.operationId in used {}
  }

  lemma DefectParts(t: Terms, w: Workflow, snapshots: map<string, string>, rows: seq<StepRow>)
    ensures Defects(t, w, snapshots, rows) == [] <==>
      && FlatMap(w.sources, SourceDefects(snapshots)) == [] && FlatMap(w.steps, StepDefects(ById(rows))) == []
      && FlatMap(t.metrics, MetricDefects(w, ById(rows))) == [] && FlatMap(t.acceptanceTests, TestDefects(w)) == []
      && FlatMap(rows, RowDefects) == [] && ProhibitedUse(t, w) == [] && t.clarifications == []
  {
    AllEmpty(FlatMap(w.sources, SourceDefects(snapshots)), FlatMap(w.steps, StepDefects(ById(rows))),
             FlatMap(t.metrics, MetricDefects(w, ById(rows))), FlatMap(t.acceptanceTests, TestDefects(w)),
             FlatMap(rows, RowDefects), ProhibitedUse(t, w),
             if t.clarifications != [] then [OpenClarifications] else []);
  }

  lemma NoDefectsIff(t: Terms, w: Workflow, snapshots: map<string, string>, rows: seq<StepRow>, records: Records)
    requires Lists(rows, records)
    ensures Defects(t, w, snapshots, rows) == [] <==>
      PlanSatisfied(t, w, snapshots, records) && NoFailedRecord(records)
  {
    ListedById(rows, records);
    DefectParts(t, w, snapshots, rows);
    StepsClean(w, records);
    if FlatMap(w.steps, StepDefects(records)) == [] { MetricsClean(t, w, records); }
    RowsClean(rows, records);
    RestClean(t, w, snapshots);
  }

  lemma AllEmpty<T>(a: seq<T>, b: seq<T>, c: seq<T>, d: seq<T>, e: seq<T>, f: seq<T>, g: seq<T>)
    ensures a + b + c + d + e + f + g == [] <==>
            a == [] && b == [] && c == [] && d == [] && e == [] && f == [] && g == []
  {
    assert |a + b + c + d + e + f + g| == |a| + |b| + |c| + |d| + |e| + |f| + |g|;
  }

  /** The verdict is PASS exactly when every source is locked, the plan is satisfied by completed and evidenced
      steps, no recorded reconciliation failed, and every sum is reconciled somewhere. The order in which
      the records are listed does not matter. */
  lemma PassIff(t: Terms, w: Workflow, snapshots: map<string, string>, rows: seq<StepRow>, records: Records)
    requires Lists(rows, records)
    ensures Verified(t, w, snapshots, rows).verdict == PASS <==>
      PlanSatisfied(t, w, snapshots, records) && NoFailedRecord(records) && SumsReconciled(t, records)
    ensures Verified(t, w, snapshots, rows).verdict == NEEDS_REVIEW <==>
      PlanSatisfied(t, w, snapshots, records) && NoFailedRecord(records) && !SumsReconciled(t, records)
  {
    NoDefectsIff(t, w, snapshots, rows, records);
    RowsClean(rows, records);
  }

  /** In whatever order the records are listed, the verdict, the coverage and the claims are the same. */
  lemma VerdictIgnoresOrder(t: Terms, w: Workflow, snapshots: map<string, string>, rows: seq<StepRow>,
                            other: seq<StepRow>, records: Records)
    requires Lists(rows, records) && Lists(other, records)
    ensures var v, u := Verified(t, w, snapshots, rows), Verified(t, w, snapshots, other);
      && v.verdict == u.verdict && v.recommendsRelease == u.recommendsRelease && v.coverage == u.coverage
      && v.unverifiedClaims == u.unverifiedClaims && (v.defects == [] <==> u.defects == [])
  {
    ListedById(rows, records);
    ListedById(other, records);
    NoDefectsIff(t, w, snapshots, rows, records);
    NoDefectsIff(t, w, snapshots, other, records);
    RowsClean(rows, records);
    RowsClean(other, records);
  }

  // ---- Every defect, and what it means ----

  /** When `d` is a defect of a run with these records. */
  ghost predicate IsDefect(t: Terms, w: Workflow, snapshots: map<string, string>, records: Records, d: Defect) {
    match d
    case NotLocked(source) => source in w.sources && source !in snapshots
    case NoRecord(id) => id in IdSet(w) && id !in records
    case NotCompleted(id, status) =>
      id in IdSet(w) && id in records && records[id].status == status && status != Completed
    case NoEvidence(id) =>
      id in IdSet(w) && id in records && records[id].status == Completed && records[id].evidence == map[]
    case NotCovered(metric) => (exists m :: m in t.metrics && m.name == metric) && !IsCovered(w, records, metric)
    case TestDropped(test) => test in t.acceptanceTests && test !in w.finalAcceptanceTests
    case FailedEntry(id, entry) => id in records && IsEntry(records[id].evidence, entry)
      && Get(entry, "passed") == Bool(false)
    case ProhibitedUsed(operation) =>
      operation in t.prohibitedActions && exists s :: s in w.steps && s.operationId == operation
    case OpenClarifications => t.clarifications != []
  }

  /** Some completed step names the metric. */
  ghost predicate IsCovered(w: Workflow, records: Records, metric: string) {
    exists s :: s in w.steps && metric in s.requirementRefs && s.id in records && records[s.id].status == Completed
  }

  lemma StepDefectIs(w: Workflow, records: Records, d: Defect)
    ensures d in FlatMap(w.steps, StepDefects(records)) <==>
      match d
      case NoRecord(id) => id in IdSet(w) && id !in records
      case NotCompleted(id, status) =>
        id in IdSet(w) && id in records && records[id].status == status && status != Completed
      case NoEvidence(id) =>
        id in IdSet(w) && id in records && records[id].status == Completed && records[id].evidence == map[]
      case _ => false
  {
    FlatMapMember(w.steps, StepDefects(records), d);
    if d.NoRecord? || d.NotCompleted? || d.NoEvidence? {
      if s :| s in w.steps && s.id == d.step { assert d in StepDefects(records)(s) <==>
        StepDefects(records)(s) == [d]; }
    }
  }

  lemma MetricDefectIs(t: Terms, w: Workflow, records: Records, d: Defect)
    ensures d in FlatMap(t.metrics, MetricDefects(w, records)) <==>
      d.NotCovered? && (exists m :: m in t.metrics && m.name == d.metric) && !IsCovered(w, records, d.metric)
  {
    FlatMapMember(t.metrics, MetricDefects(w, records), d);
    forall m: ContractMetric ensures CoverageOf(w, records, m).covered <==> IsCovered(w, records, m.name) {
      Covers(w, records, m);
    }
    if d.NotCovered? && !IsCovered(w, records, d.metric) {
      if m :| m in t.metrics && m.name == d.metric { assert MetricDefects(w, records)(m) == [d]; }
    }
  }

  lemma EntryDefectIs(rows: seq<StepRow>, records: Records, d: Defect)
    requires Lists(rows, records)
    ensures d in FlatMap(rows, RowDefects) <==>
      d.FailedEntry? && d.step in records && IsEntry(records[d.step].evidence, d.entry)
      && Get(d.entry, "passed") == Bool(false)
  {
    FlatMapMember(rows, RowDefects, d);
    forall r: StepRow
      ensures d in RowDefects(r) <==>
        d.FailedEntry? && d.step == r.id && IsEntry(r.record.evidence, d.entry) && Get(d.entry, "passed") == Bool(false)
    {
      FlatMapMember(ReconciliationEntries(r.record.evidence), EntryDefects(r.id), d);
      if d.FailedEntry? { EntriesAre(r.record.evidence, d.entry); }
    }
    if d.FailedEntry? && d.step in records { assert StepRow(d.step, records[d.step]) in rows; }
  }

  lemma OtherDefectsAre(t: Terms, w: Workflow, snapshots: map<string, string>, d: Defect)
    ensures d in FlatMap(w.sources, SourceDefects(snapshots)) <==>
            d.NotLocked? && d.source in w.sources && d.source !in snapshots
    ensures d in FlatMap(t.acceptanceTests, TestDefects(w)) <==>
            d.TestDropped? && d.test in t.acceptanceTests && d.test !in w.finalAcceptanceTests
    ensures d in ProhibitedUse(t, w) <==>
            d.ProhibitedUsed? && d.operation in t.prohibitedActions
            && exists s :: s in w.steps && s.operationId == d.operation
  {
    FlatMapMember(w.sources, SourceDefects(snapshots), d);
    FlatMapMember(t.acceptanceTests, TestDefects(w), d);
    if d.ProhibitedUsed? {
      var used := SortedSeq(Elements(t.prohibitedActions) * PolicyGate.Operations(w.steps));
      if d.operation in used {
        var i :| 0 <= i < |used| && used[i] == d.operation;
        assert ProhibitedUse(t, w)[i] == d;
      }
    }
  }

  /** The defects reported are exactly those there are. */
  lemma DefectsAre(t: Terms, w: Workflow, snapshots: map<string, string>, rows: seq<StepRow>, records: Records,
                   d: Defect)
    requires Lists(rows, records)
    ensures d in Verified(t, w, snapshots, rows).defects <==> IsDefect(t, w, snapshots, records, d)
  {
    ListedById(rows, records);
    StepDefectIs(w, records, d);
    MetricDefectIs(t, w, records, d);
    EntryDefectIs(rows, records, d);
    OtherDefectsAre(t, w, snapshots, d);
  }

  /** Each metric is reported once, in order, as covered exactly when some completed step names it, with the
      completed steps that name it as evidence. */
  lemma CoverageIs(t: Terms, w: Workflow, snapshots: map<string, string>, rows: seq<StepRow>, records: Records, i: nat)
    requires Lists(rows, records) && i < |t.metrics|
    ensures var v := Verified(t, w, snapshots, rows);
      && |v.coverage| == |t.metrics| && v.coverage[i].metric == t.metrics[i].name
      && (v.coverage[i].covered <==> IsCovered(w, records, t.metrics[i].name))
      && forall id :: id in v.coverage[i].evidenceRefs <==> IsReference(w, records, t.metrics[i].name, id)
  {
    ListedById(rows, records);
    OneEach(t.metrics, w, records);
    Covers(w, records, t.metrics[i]);
    forall id ensures id in CoverageOf(w, records, t.metrics[i]).evidenceRefs <==>
      IsReference(w, records, t.metrics[i].name, id)
    {
      ReferencesAre(w, records, t.metrics[i], id);
    }
  }

  /** `id` is a completed step that names the metric. */
  ghost predicate IsReference(w: Workflow, records: Records, metric: string, id: string) {
    && id in records && records[id].status == Completed
    && exists s :: s in w.steps && s.id == id && metric in s.requirementRefs
  }

  lemma ReferencesAre(w: Workflow, records: Records, m: ContractMetric, id: string)
    ensures id in CoverageOf(w, records, m).evidenceRefs <==> IsReference(w, records, m.name, id)
  {
    var keep := (s: WorkflowStep) => m.name in s.requirementRefs && HasCompleted(records, s.id);
    var steps := Filter(w.steps, keep);
    FilterKeeps(w.steps, keep);
    assert CoveringSteps(w, records, m.name) == steps;
    if id in StepIds(steps) {
      var k :| 0 <= k < |steps| && StepIds(steps)[k] == id;
      assert steps[k] in steps && steps[k].id == id;
    }
    if s :| s in w.steps && s.id == id && keep(s) {
      assert s in steps;
      var k :| 0 <= k < |steps| && steps[k] == s;
      assert StepIds(steps)[k] == id;
    }
  }

  lemma {:induction false} OneEach(metrics: seq<ContractMetric>, w: Workflow, records: Records)
    ensures |FlatMap(metrics, CoverageEntry(w, records))| == |metrics|
    ensures forall i :: 0 <= i < |metrics| ==>
      FlatMap(metrics, CoverageEntry(w, records))[i] == CoverageOf(w, records, metrics[i])
  {
    if metrics != [] { OneEach(metrics[..|metrics| - 1], w, records); }
  }
}
