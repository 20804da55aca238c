/** The release gate and the confidence scores: when a result may be called released, and what that implies. */
module Release {
  import opened Values
  import opened Seqs
  import opened Dsl
  import opened Contract
  import opened Protocol
  import opened StepRows
  import opened StateMachine
  import Reconciliation
  import Validation
  import Verifier

  datatype Verdict = RELEASE | QUARANTINE

  datatype ReasonCode =
    | NotVerifying(state: RunState)
    | NotApproved(status: RequirementStatus)
    | NotReady
    | NotPassed(verdict: Verifier.Verdict)
    | NotRecommended
    | ChecksFailed
    | NotReconciled(outcome: Reconciliation.Status)

  datatype Remedy =
    | Repair(defect: Verifier.Defect)
    | FixCheck(checkId: string)
    | FixTest(name: Reconciliation.TestName)
    | Unblock(reason: Reconciliation.Blocking)

  datatype ReleaseDecision = ReleaseDecision(decision: Verdict, reasonCodes: seq<ReasonCode>, remediation: seq<Remedy>)

  /** Everything the gate looks at; the two reports are optional. */
  datatype Case = Case(
    contract: Contract,
    state: RunState,
    verified: Verifier.VerifierResult,
    checks: Option<seq<Validation.CheckResult>>,
    reconciled: Option<Reconciliation.Report>)

  function FailedChecks(results: seq<Validation.CheckResult>): seq<Remedy> {
    var failed := Filter(results, (r: Validation.CheckResult) => r.severity == Validation.BLOCKING && !r.passed);
    seq(|failed|, i requires 0 <= i < |failed| => FixCheck(failed[i].checkId))
  }

  function Unreconciled(report: Reconciliation.Report): seq<Remedy> {
    var failed := Filter(report.tests, (t: Reconciliation.Test) => !t.passed);
    seq(|failed|, i requires 0 <= i < |failed| => FixTest(failed[i].name))
    + seq(|report.blockingReasons|, i requires 0 <= i < |report.blockingReasons| => Unblock(report.blockingReasons[i]))
  }

  function Repairs(defects: seq<Verifier.Defect>): seq<Remedy> {
    seq(|defects|, i requires 0 <= i < |defects| => Repair(defects[i]))
  }

  /** All the conditions for release. */
  predicate Releasable(c: Case) {
    && c.state == VERIFYING
    && c.contract.status == Approved && c.contract.readyForPlanning
    && c.verified.verdict == Verifier.PASS && c.verified.recommendsRelease
    && (c.checks.Some? ==> Validation.ReportPassed(c.checks.value))
    && (c.reconciled.Some? ==> c.reconciled.value.status == Reconciliation.Pass)
  }

  /** What a quarantined result needs: the verifier's defects, then failed checks, then failed reconciliation. */
  function Remediation(c: Case): seq<Remedy> {
    Repairs(c.verified.defects)
    + (if c.checks.Some? && !Validation.ReportPassed(c.checks.value) then FailedChecks(c.checks.value) else [])
    + (if c.reconciled.Some? && c.reconciled.value.status != Reconciliation.Pass
       then Unreconciled(c.reconciled.value) else [])
  }

  /** When a reason is among those a case is quarantined for. */
  predicate Applies(r: ReasonCode, c: Case) {
    match r
    case NotVerifying(state) => state == c.state && state != VERIFYING
    case NotApproved(status) => status == c.contract.status && status != Approved
    case NotReady => !c.contract.readyForPlanning
    case NotPassed(verdict) => verdict == c.verified.verdict && verdict != Verifier.PASS
    case NotRecommended => !c.verified.recommendsRelease
    case ChecksFailed => c.checks.Some? && !Validation.ReportPassed(c.checks.value)
    case NotReconciled(outcome) =>
      c.reconciled.Some? && outcome == c.reconciled.value.status && outcome != Reconciliation.Pass
  }

  ghost predicate Explains(reasons: seq<ReasonCode>, c: Case) {
    forall r :: r in reasons <==> Applies(r, c)
  }

  lemma NoReasonIff(reasons: seq<ReasonCode>, c: Case)
    requires Explains(reasons, c)
    ensures reasons == [] <==> Releasable(c)
  {
    if reasons == [] {
      assert !Applies(NotVerifying(c.state), c) && !Applies(NotApproved(c.contract.status), c) && !Applies(NotReady, c);
      assert !Applies(NotPassed(c.verified.verdict), c) && !Applies(NotRecommended, c) && !Applies(ChecksFailed, c);
      assert c.reconciled.Some? ==> !Applies(NotReconciled(c.reconciled.value.status), c);
    } else {
      assert Applies(reasons[0], c);
    }
  }

  /** The reasons that do not come from a report. */
  method Standing(c: Case) returns (reasonCodes: seq<ReasonCode>)
    ensures forall r :: r in reasonCodes <==> Applies(r, c) && !r.ChecksFailed? && !r.NotReconciled?
  {
    reasonCodes := [];
    if c.state != VERIFYING { reasonCodes := reasonCodes + [NotVerifying(c.state)]; }
    if c.contract.status != Approved { reasonCodes := reasonCodes + [NotApproved(c.contract.status)]; }
    if !c.contract.readyForPlanning { reasonCodes := reasonCodes + [NotReady]; }
    assert forall r :: r in reasonCodes <==> Applies(r, c) && (r.NotVerifying? || r.NotApproved? || r.NotReady?);
    if c.verified.verdict != Verifier.PASS { reasonCodes := reasonCodes + [NotPassed(c.verified.verdict)]; }
    if !c.verified.recommendsRelease { reasonCodes := reasonCodes + [NotRecommended]; }
  }

  /** RELEASE exactly when every condition holds; otherwise the reasons are exactly the failed conditions, and
      the remediation lists what each of them needs. */
  method Decide(c: Case) returns (d: ReleaseDecision)
    ensures d.decision == RELEASE <==> Releasable(c)
    ensures Explains(d.reasonCodes, c)
    ensures d.remediation == if Releasable(c) then [] else Remediation(c)
  {
    var reasonCodes := Standing(c);
    var remediation: seq<Remedy> := [];
    if c.checks.Some? && !Validation.ReportPassed(c.checks.value) {
      reasonCodes := reasonCodes + [ChecksFailed];
      remediation := FailedChecks(c.checks.value);
    }
    if c.reconciled.Some? && c.reconciled.value.status != Reconciliation.Pass {
      reasonCodes := reasonCodes + [NotReconciled(c.reconciled.value.status)];
      remediation := remediation + Unreconciled(c.reconciled.value);
    }
    NoReasonIff(reasonCodes, c);
    var decision := if reasonCodes != [] then Verdict.QUARANTINE else RELEASE;
    remediation := if decision == Verdict.QUARANTINE then Repairs(c.verified.defects) + remediation else [];
    return ReleaseDecision(decision, reasonCodes, remediation);
  }

  /** What a quarantined case asks for: every defect of the verifier; if a blocking check failed, every such check; if
      reconciliation did not pass, every test that failed and every reason that blocked it; and nothing else. */
  ghost predicate Needs(c: Case, r: Remedy) {
    match r
    case Repair(d) => d in c.verified.defects
    case FixCheck(id) =>
      c.checks.Some? && exists x ::
        x in c.checks.value && x.checkId == id && x.severity == Validation.BLOCKING && !x.passed
    case FixTest(name) =>
      c.reconciled.Some? && c.reconciled.value.status != Reconciliation.Pass
      && exists x :: x in c.reconciled.value.tests && x.name == name && !x.passed
    case Unblock(reason) =>
      c.reconciled.Some? && c.reconciled.value.status != Reconciliation.Pass
        && reason in c.reconciled.value.blockingReasons
  }

  lemma RepairsAre(defects: seq<Verifier.Defect>, r: Remedy)
    ensures r in Repairs(defects) <==> r.Repair? && r.defect in defects
  {
    if r.Repair? && r.defect in defects {
      var i :| 0 <= i < |defects| && defects[i] == r.defect;
      assert Repairs(defects)[i] == r;
    }
  }

  lemma FailedChecksAre(results: seq<Validation.CheckResult>, r: Remedy)
    ensures r in FailedChecks(results) <==> r.FixCheck? && exists x ::
      x in results && x.checkId == r.checkId && x.severity == Validation.BLOCKING && !x.passed
  {
    var keep := (r: Validation.CheckResult) => r.severity == Validation.BLOCKING && !r.passed;
    var failed := Filter(results, keep);
    FilterKeeps(results, keep);
    if r in FailedChecks(results) {
      var i :| 0 <= i < |failed| && FailedChecks(results)[i] == r;
      assert failed[i] in failed;
    }
    if r.FixCheck? {
      if x :| x in results && x.checkId == r.checkId && x.severity == Validation.BLOCKING && !x.passed {
        assert x in failed;
        var i :| 0 <= i < |failed| && failed[i] == x;
        assert FailedChecks(results)[i] == r;
      }
    }
  }

  lemma UnreconciledAre(report: Reconciliation.Report, r: Remedy)
    ensures r in Unreconciled(report) <==>
      || (r.FixTest? && exists x :: x in report.tests && x.name == r.name && !x.passed)
      || (r.Unblock? && r.reason in report.blockingReasons)
  {
    var keep := (t: Reconciliation.Test) => !t.passed;
    var failed := Filter(report.tests, keep);
    FilterKeeps(report.tests, keep);
    var tests := seq(|failed|, i requires 0 <= i < |failed| => FixTest(failed[i].name));
    var reasons := seq(|report.blockingReasons|,
                       i requires 0 <= i < |report.blockingReasons| => Unblock(report.blockingReasons[i]));
    assert Unreconciled(report) == tests + reasons;
    if r in tests {
      var i :| 0 <= i < |failed| && tests[i] == r;
      assert failed[i] in failed;
    }
    if r.FixTest? {
      if x :| x in report.tests && x.name == r.name && !x.passed {
        assert x in failed;
        var i :| 0 <= i < |failed| && failed[i] == x;
        assert tests[i] == r;
      }
    }
    if r.Unblock? && r.reason in report.blockingReasons {
      var i :| 0 <= i < |report.blockingReasons| && report.blockingReasons[i] == r.reason;
      assert reasons[i] == r;
    }
  }

  lemma RemediationIs(c: Case, r: Remedy)
    ensures r in Remediation(c) <==> Needs(c, r)
  {
    RepairsAre(c.verified.defects, r);
    if c.checks.Some? { FailedChecksAre(c.checks.value, r); }
    if c.reconciled.Some? { UnreconciledAre(c.reconciled.value, r); }
  }

  // ---- Scores ----

  datatype Scores = Scores(
    requirements: real,
    semantics: real,
    dataQuality: real,
    execution: real,
    validation: real,
    reconciliation: real,
    verification: real)

  /** The share of `xs` that satisfies `p`; everything, of nothing. */
  function Share<T>(xs: seq<T>, p: T -> bool): (r: real)
    ensures 0.0 <= r <= 1.0
  {
    if xs == [] then 1.0
    else
      var n := CountIf(xs, p);
      assert 0.0 <= n as real / |xs| as real <= 1.0 by { RatioBounds(n, |xs|); }
      n as real / |xs| as real
  }

  lemma RatioBounds(n: nat, total: nat)
    requires n <= total && 0 < total
    ensures 0.0 <= n as real / total as real <= 1.0
    ensures n as real / total as real == 1.0 <==> n == total
  {
    var q := n as real / total as real;
    assert q * total as real == n as real;
  }

  /** A share is one exactly when nothing falls short. */
  lemma ShareIsOneIff<T>(xs: seq<T>, p: T -> bool)
    ensures Share(xs, p) == 1.0 <==> forall x :: x in xs ==> p(x)
  {
    if xs != [] {
      CountsAll(xs, p);
      RatioBounds(CountIf(xs, p), |xs|);
    }
  }

  function Weight(s: DefinitionStatus): real {
    match s
    case GOVERNED => 1.0
    case EXPLICIT => 0.85
    case INFERRED_UNIQUE => 0.7
    case AMBIGUOUS => 0.0
    case MISSING => 0.0
  }

  function TotalWeight(metrics: seq<ContractMetric>): real {
    if metrics == [] then 0.0
    else TotalWeight(metrics[..|metrics| - 1]) + Weight(metrics[|metrics| - 1].definitionStatus)
  }

  function RequirementsScore(t: Terms): real {
    if t.clarifications != [] || t.sources == [] then 0.0
    else Share(t.metrics, (m: ContractMetric) => !IsBlocking(m.definitionStatus))
  }

  function SemanticsScore(t: Terms): real {
    if t.metrics == [] then 1.0 else TotalWeight(t.metrics) / |t.metrics| as real
  }

  predicate IsDataQuality(r: Validation.CheckResult) {
    "null_rate:" <= r.checkId || "unique:" <= r.checkId || "required_column:" <= r.checkId
  }

  function DataQualityScore(results: seq<Validation.CheckResult>): real {
    Share(Filter(results, IsDataQuality), (r: Validation.CheckResult) => r.passed)
  }

  function ValidationScore(results: seq<Validation.CheckResult>): real {
    Share(results, (r: Validation.CheckResult) => r.passed)
  }

  function ExecutionScore(w: Workflow, rows: seq<StepRow>): real {
    Share(w.steps, (s: WorkflowStep) => exists r :: r in rows && r.id == s.id && r.record.status.Completed?)
  }

  function ReconciliationScore(report: Reconciliation.Report): real {
    var total := |report.tests| + |report.blockingReasons|;
    if total == 0 then 1.0
    else CountIf(report.tests, (t: Reconciliation.Test) => t.passed) as real / total as real
  }

  function VerificationScore(v: Verifier.VerifierResult): real {
    if v.defects != [] then 0.0 else Share(v.coverage, (c: Verifier.Coverage) => c.covered)
  }

  function Score(t: Terms, w: Workflow, rows: seq<StepRow>, results: seq<Validation.CheckResult>,
                 report: Reconciliation.Report, v: Verifier.VerifierResult): Scores {
    Scores(RequirementsScore(t), SemanticsScore(t), DataQualityScore(results), ExecutionScore(w, rows),
           ValidationScore(results), ReconciliationScore(report), VerificationScore(v))
  }

  ghost predicate InUnit(x: real) {
    0.0 <= x <= 1.0
  }

  /** `low` added up once per metric. */
  function Repeated(low: real, n: nat): (r: real)
    ensures r == low * n as real
  {
    if n == 0 then 0.0 else Repeated(low, n - 1) + low
  }

  lemma {:induction false} WeightBounds(metrics: seq<ContractMetric>, low: real)
    requires forall m :: m in metrics ==> low <= Weight(m.definitionStatus)
    ensures Repeated(low, |metrics|) <= TotalWeight(metrics) <= |metrics| as real
  {
    if metrics != [] {
      var n := |metrics| - 1;
      assert forall m :: m in metrics[..n] ==> m in metrics;
      assert metrics[n] in metrics;
      WeightBounds(metrics[..n], low);
    }
  }

  lemma QuotientBounds(a: real, n: real, low: real)
    requires 0.0 < n && low * n <= a <= n
    ensures low <= a / n <= 1.0
  {
    var q := a / n;
    assert q * n == a;
  }

  lemma AverageBounds(metrics: seq<ContractMetric>, low: real)
    requires metrics != [] && forall m :: m in metrics ==> low <= Weight(m.definitionStatus)
    ensures low <= TotalWeight(metrics) / |metrics| as real <= 1.0
  {
    WeightBounds(metrics, low);
    QuotientBounds(TotalWeight(metrics), |metrics| as real, low);
  }

  /** All seven scores always lie between 0 and 1. */
  lemma ScoresAreBounded(t: Terms, w: Workflow, rows: seq<StepRow>, results: seq<Validation.CheckResult>,
                         report: Reconciliation.Report, v: Verifier.VerifierResult)
    ensures var s := Score(t, w, rows, results, report, v);
      InUnit(s.requirements) && InUnit(s.semantics) && InUnit(s.dataQuality) && InUnit(s.execution)
      && InUnit(s.validation) && InUnit(s.reconciliation) && InUnit(s.verification)
  {
    if t.metrics != [] { AverageBounds(t.metrics, 0.0); }
    var total := |report.tests| + |report.blockingReasons|;
    if total != 0 { RatioBounds(CountIf(report.tests, (t: Reconciliation.Test) => t.passed), total); }
  }

  lemma {:induction false} SameCount<T>(xs: seq<T>, p: T -> bool, q: T -> bool)
    requires forall x :: x in xs ==> p(x) == q(x)
    ensures CountIf(xs, p) == CountIf(xs, q)
  {
    if xs != [] {
      var n := |xs| - 1;
      assert forall x :: x in xs[..n] ==> x in xs;
      SameCount(xs[..n], p, q);
    }
  }

  lemma ExecutionIgnoresOrder(w: Workflow, rows: seq<StepRow>, other: seq<StepRow>, records: map<string, StepRecord>)
    requires Lists(rows, records) && Lists(other, records)
    ensures ExecutionScore(w, rows) == ExecutionScore(w, other)
  {
    var p := (s: WorkflowStep) => exists r :: r in rows && r.id == s.id && r.record.status.Completed?;
    var q := (s: WorkflowStep) => exists r :: r in other && r.id == s.id && r.record.status.Completed?;
    forall s | s in w.steps ensures p(s) == q(s) {
      assert p(s) <==> s.id in records && records[s.id].status.Completed? by {
        assert s.id in records ==> StepRow(s.id, records[s.id]) in rows;
      }
      assert q(s) <==> s.id in records && records[s.id].status.Completed? by {
        assert s.id in records ==> StepRow(s.id, records[s.id]) in other;
      }
    }
    SameCount(w.steps, p, q);
  }

  /** In whatever order the records are listed, the scores are the same. */
  lemma ScoresIgnoreOrder(t: Terms, w: Workflow, snapshots: map<string, string>, rows: seq<StepRow>,
                          other: seq<StepRow>, records: map<string, StepRecord>,
                          results: seq<Validation.CheckResult>, report: Reconciliation.Report)
    requires Lists(rows, records) && Lists(other, records)
    ensures Score(t, w, rows, results, report, Verifier.Verified(t, w, snapshots, rows)) ==
            Score(t, w, other, results, report, Verifier.Verified(t, w, snapshots, other))
  {
    ExecutionIgnoresOrder(w, rows, other, records);
    Verifier.VerdictIgnoresOrder(t, w, snapshots, rows, other, records);
  }

  // ---- What each score is ----

  /** `score` is `n` out of `total`, and one of none. */
  ghost predicate IsShare(score: real, n: nat, total: nat) {
    if total == 0 then score == 1.0 else score * total as real == n as real
  }

  lemma ShareIs<T>(xs: seq<T>, p: T -> bool)
    ensures IsShare(Share(xs, p), |Positions(xs, p)|, |xs|)
  {
    CountIfIs(xs, p);
    if xs != [] { DivideBack(CountIf(xs, p), |xs|); }
  }

  lemma DivideBack(n: nat, total: nat)
    requires total > 0
    ensures (n as real / total as real) * total as real == n as real
  {
  }

  /** Requirements: none with an open question or without a source, else the share of metrics that are defined. */
  lemma RequirementsScoreIs(t: Terms)
    ensures if t.clarifications != [] || t.sources == [] then RequirementsScore(t) == 0.0
            else IsShare(RequirementsScore(t),
                         |set i: nat | i < |t.metrics|
                           && t.metrics[i].definitionStatus !in {AMBIGUOUS, MISSING}|, |t.metrics|)
  {
    var defined := (m: ContractMetric) => !IsBlocking(m.definitionStatus);
    ShareIs(t.metrics, defined);
    assert Positions(t.metrics, defined) ==
           set i: nat | i < |t.metrics| && t.metrics[i].definitionStatus !in {AMBIGUOUS, MISSING};
  }

  ghost function HowMany(metrics: seq<ContractMetric>, status: DefinitionStatus): nat {
    CountIf(metrics, (m: ContractMetric) => m.definitionStatus == status)
  }

  /** 1 for each governed, 0.85 for each explicit, 0.7 for each inferred and 0 for any other metric. */
  ghost function WeighedTotal(metrics: seq<ContractMetric>): real {
    HowMany(metrics, GOVERNED) as real + 0.85 * HowMany(metrics, EXPLICIT) as real
    + 0.7 * HowMany(metrics, INFERRED_UNIQUE) as real
  }

  /** Semantics: the average weight of the metrics, and one without any. */
  lemma SemanticsScoreIs(t: Terms)
    ensures t.metrics == [] ==> SemanticsScore(t) == 1.0
    ensures t.metrics != [] ==> SemanticsScore(t) * |t.metrics| as real == WeighedTotal(t.metrics)
  {
    WeightsAre(t.metrics);
    if t.metrics != [] { DivideTotal(TotalWeight(t.metrics), |t.metrics|); }
  }

  lemma DivideTotal(a: real, n: nat)
    requires n > 0
    ensures (a / n as real) * n as real == a
  {
  }

  lemma {:induction false} WeightsAre(metrics: seq<ContractMetric>)
    ensures TotalWeight(metrics) == WeighedTotal(metrics)
  {
    if metrics != [] { WeightsAre(metrics[..|metrics| - 1]); }
  }

  /** A null, uniqueness or required-column check. */
  ghost predicate AboutQuality(r: Validation.CheckResult) {
    "null_rate:" <= r.checkId || "unique:" <= r.checkId || "required_column:" <= r.checkId
  }

  /** Data quality: the share of passed results among the checks about it. */
  lemma DataQualityScoreIs(results: seq<Validation.CheckResult>)
    ensures IsShare(DataQualityScore(results),
                    |set i: nat | i < |results| && AboutQuality(results[i]) && results[i].passed|,
                    |set i: nat | i < |results| && AboutQuality(results[i])|)
  {
    var both := (r: Validation.CheckResult) => IsDataQuality(r) && r.passed;
    QualityShare(results, both);
    assert Positions(results, IsDataQuality) == set i: nat | i < |results| && AboutQuality(results[i]);
    assert Positions(results, both) == set i: nat | i < |results| && AboutQuality(results[i]) && results[i].passed;
  }

  lemma QualityShare(results: seq<Validation.CheckResult>, both: Validation.CheckResult -> bool)
    requires forall r :: both(r) <==> IsDataQuality(r) && r.passed
    ensures IsShare(DataQualityScore(results), |Positions(results, both)|, |Positions(results, IsDataQuality)|)
  {
    var passed := (r: Validation.CheckResult) => r.passed;
    FilteredCounts(results, IsDataQuality, passed, both);
    ShareIs(Filter(results, IsDataQuality), passed);
  }

  lemma FilteredCounts<T>(xs: seq<T>, keep: T -> bool, p: T -> bool, both: T -> bool)
    requires forall x :: both(x) <==> keep(x) && p(x)
    ensures |Positions(Filter(xs, keep), p)| == |Positions(xs, both)| && |Filter(xs, keep)| == |Positions(xs, keep)|
  {
    FilterCount(xs, keep, p);
    SameCount(xs, x => keep(x) && p(x), both);
    CountIfIs(Filter(xs, keep), p);
    CountIfIs(xs, keep);
    CountIfIs(xs, both);
  }

  /** Validation: the share of passed results. */
  lemma ValidationScoreIs(results: seq<Validation.CheckResult>)
    ensures IsShare(ValidationScore(results), |set i: nat | i < |results| && results[i].passed|, |results|)
  {
    var passed := (r: Validation.CheckResult) => r.passed;
    ShareIs(results, passed);
    assert Positions(results, passed) == set i: nat | i < |results| && results[i].passed;
  }

  /** Execution: the share of steps with a COMPLETED record. */
  lemma ExecutionScoreIs(w: Workflow, rows: seq<StepRow>, records: map<string, StepRecord>)
    requires Lists(rows, records)
    ensures IsShare(ExecutionScore(w, rows),
                    |set i: nat | i < |w.steps| && IsCompletedIn(records, w.steps[i].id)|, |w.steps|)
  {
    var done := (s: WorkflowStep) => exists r :: r in rows && r.id == s.id && r.record.status.Completed?;
    ShareIs(w.steps, done);
    forall i | 0 <= i < |w.steps| ensures done(w.steps[i]) <==> IsCompletedIn(records, w.steps[i].id) {
      var id := w.steps[i].id;
      if id in records { assert StepRow(id, records[id]) in rows; }
    }
    assert Positions(w.steps, done) == set i: nat | i < |w.steps| && IsCompletedIn(records, w.steps[i].id);
  }

  ghost predicate IsCompletedIn(records: map<string, StepRecord>, id: string) {
    id in records && records[id].status == Completed
  }

  /** Reconciliation: passed tests out of all tests and blocking reasons. */
  lemma ReconciliationScoreIs(report: Reconciliation.Report)
    ensures IsShare(ReconciliationScore(report), |set i: nat | i < |report.tests| && report.tests[i].passed|,
                    |report.tests| + |report.blockingReasons|)
  {
    var passed := (t: Reconciliation.Test) => t.passed;
    CountIfIs(report.tests, passed);
    assert Positions(report.tests, passed) == set i: nat | i < |report.tests| && report.tests[i].passed;
    var total := |report.tests| + |report.blockingReasons|;
    if total > 0 { DivideBack(CountIf(report.tests, passed), total); }
  }

  /** Verification: none with a defect, else the share of metrics covered. */
  lemma VerificationScoreIs(v: Verifier.VerifierResult)
    ensures if v.defects != [] then VerificationScore(v) == 0.0
            else IsShare(VerificationScore(v), |set i: nat | i < |v.coverage| && v.coverage[i].covered|, |v.coverage|)
  {
    var covered := (c: Verifier.Coverage) => c.covered;
    ShareIs(v.coverage, covered);
    assert Positions(v.coverage, covered) == set i: nat | i < |v.coverage| && v.coverage[i].covered;
  }

  // ---- What a release implies ----

  lemma RequirementsFull(c: Contract)
    requires Validated(c) && c.status == Approved
    ensures RequirementsScore(c.terms) == 1.0 && 0.7 <= SemanticsScore(c.terms)
  {
    var t := c.terms;
    assert !Undefined(t);
    ShareIsOneIff(t.metrics, (m: ContractMetric) => !IsBlocking(m.definitionStatus));
    if t.metrics != [] { AverageBounds(t.metrics, 0.7); }
  }

  lemma ChecksFull(results: seq<Validation.CheckResult>)
    requires forall r :: r in results ==> r.passed
    ensures DataQualityScore(results) == 1.0 && ValidationScore(results) == 1.0
  {
    var passed := (r: Validation.CheckResult) => r.passed;
    FilterKeeps(results, IsDataQuality);
    ShareIsOneIff(Filter(results, IsDataQuality), passed);
    ShareIsOneIff(results, passed);
  }

  lemma ExecutionFull(w: Workflow, rows: seq<StepRow>, records: map<string, StepRecord>)
    requires Lists(rows, records) && Verifier.AllEvidenced(w, records)
    ensures ExecutionScore(w, rows) == 1.0
  {
    var done := (s: WorkflowStep) => exists r :: r in rows && r.id == s.id && r.record.status.Completed?;
    forall s | s in w.steps ensures done(s) {
      assert StepRow(s.id, records[s.id]) in rows;
    }
    ShareIsOneIff(w.steps, done);
  }

  lemma ReconciliationFull(t: Terms, w: Workflow, artifacts: Reconciliation.Artifacts)
    requires Reconciliation.Reconciled(t, w, artifacts).status == Reconciliation.Pass
    ensures ReconciliationScore(Reconciliation.Reconciled(t, w, artifacts)) == 1.0
  {
    var report := Reconciliation.Reconciled(t, w, artifacts);
    CountsAll(report.tests, (t: Reconciliation.Test) => t.passed);
    if report.tests != [] { RatioBounds(|report.tests|, |report.tests|); }
  }

  lemma VerificationFull(t: Terms, w: Workflow, snapshots: map<string, string>, rows: seq<StepRow>,
                         records: map<string, StepRecord>)
    requires Lists(rows, records) && Verifier.Verified(t, w, snapshots, rows).verdict == Verifier.PASS
    ensures VerificationScore(Verifier.Verified(t, w, snapshots, rows)) == 1.0
  {
    var v := Verifier.Verified(t, w, snapshots, rows);
    Verifier.PassIff(t, w, snapshots, rows, records);
    ListedById(rows, records);
    forall c | c in v.coverage ensures c.covered { CoveredMetric(t, w, records, c); }
    ShareIsOneIff(v.coverage, (c: Verifier.Coverage) => c.covered);
  }

  lemma CoveredMetric(t: Terms, w: Workflow, records: map<string, StepRecord>, c: Verifier.Coverage)
    requires Verifier.AllEvidenced(w, records) && Verifier.AllNamed(t, w)
    requires c in FlatMap(t.metrics, Verifier.CoverageEntry(w, records))
    ensures c.covered
  {
    FlatMapMember(t.metrics, Verifier.CoverageEntry(w, records), c);
    var m :| m in t.metrics && c in Verifier.CoverageEntry(w, records)(m);
    assert Verifier.NamedBy(w, m.name);
    Verifier.Covers(w, records, m);
  }
}
