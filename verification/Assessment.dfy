/** Everything `release` computes about a run before it moves it: validation, reconciliation, verification,
    the gate's decision and the scores. */
module Assessment {
  import opened Values
  import opened Frames
  import opened Dsl
  import opened Contract
  import opened StateMachine
  import opened Protocol
  import opened StepRows
  import Reconciliation
  import Validation
  import Verifier
  import Release

  datatype Assessment = Assessment(
    results: seq<Validation.CheckResult>,
    report: Reconciliation.Report,
    verified: Verifier.VerifierResult,
    decision: Release.ReleaseDecision,
    scores: Release.Scores)

  /** What a release is judged on besides the stores. */
  datatype Brief = Brief(w: Workflow, contract: Contract, snapshots: map<string, string>, checks: Validation.Checks)

  /** Every node some step reads or writes. */
  function Needed(w: Workflow): set<string> {
    set s, ref | s in w.steps && ref in s.inputs + [s.id] :: ref
  }

  function Artifacts(nodes: set<string>, files: map<string, Frame>): map<string, Frame> {
    map ref | ref in nodes && Path(ref) in files :: files[Path(ref)]
  }

  ghost predicate AllStored(nodes: set<string>, files: map<string, Frame>) {
    forall ref :: ref in nodes ==> Path(ref) in files
  }

  /** Every read of an assessment finds its file; a single missing one raises an untyped error. */
  ghost predicate Readable(b: Brief, files: map<string, Frame>) {
    && AllStored(Needed(b.w), files)
    && !Validation.SomeUnreadable(Validation.Manifest(b.contract.terms, b.w, b.checks), b.w, files)
  }

  lemma StepsAreNeeded(w: Workflow, id: string)
    requires id in IdSet(w)
    ensures id in Needed(w)
  {
    var s :| s in w.steps && s.id == id;
    assert id in s.inputs + [s.id];
  }

  /** An assessment reads exactly the artifacts of the nodes that some step reads or writes, whatever the contract. */
  lemma ReadableIffStored(b: Brief, files: map<string, Frame>)
    ensures Readable(b, files) <==> AllStored(Needed(b.w), files)
  {
    if AllStored(Needed(b.w), files) {
      forall rule | rule in Validation.Manifest(b.contract.terms, b.w, b.checks) && rule.checkFunction.Some?
        ensures !Validation.Unreadable(b.w, files, rule)
      {
        StageIsStored(b, files, rule);
      }
    }
  }

  lemma StageIsStored(b: Brief, files: map<string, Frame>, rule: Validation.CheckSpec)
    requires AllStored(Needed(b.w), files)
    requires rule in Validation.Manifest(b.contract.terms, b.w, b.checks) && rule.checkFunction.Some?
    ensures !Validation.Unreadable(b.w, files, rule)
  {
    Validation.CheckedStages(b.contract.terms, b.w, b.checks, rule);
    Validation.TerminalIsNode(b.w);
    var node := Validation.StageNode(b.w, rule.stage);
    if node.Some? {
      if node.value in IdSet(b.w) {
        StepsAreNeeded(b.w, node.value);
      } else {
        SourceStage(b.w, rule.stage);
      }
      assert node.value in Needed(b.w);
    }
  }

  /** The contract's stage is never the name of a source. */
  lemma SourceStage(w: Workflow, stage: string)
    requires stage in SourceRefs(w)
    ensures stage != "contract"
  {
    assert SOURCE_PREFIX <= stage && stage[0] == 's';
  }

  ghost function CaseOf(b: Brief, d: Durable, rows: seq<StepRow>): Release.Case {
    Release.Case(
      b.contract, d.state,
      Verifier.Verified(b.contract.terms, b.w, b.snapshots, rows),
      Some(Validation.Results(Validation.Manifest(b.contract.terms, b.w, b.checks), b.w, d.files, b.checks)),
      Some(Reconciliation.Reconciled(b.contract.terms, b.w, Artifacts(Needed(b.w), d.files))))
  }

  /** `a` is the assessment of the stores `d` whose records are listed as `rows`. */
  ghost predicate Assesses(b: Brief, d: Durable, rows: seq<StepRow>, a: Assessment) {
    var c := CaseOf(b, d, rows);
    && Readable(b, d.files) && Lists(rows, d.records)
    && a.results == c.checks.value && a.report == c.reconciled.value && a.verified == c.verified
    && (a.decision.decision == Release.RELEASE <==> Release.Releasable(c))
    && Release.Explains(a.decision.reasonCodes, c)
    && a.decision.remediation == (if Release.Releasable(c) then [] else Release.Remediation(c))
    && a.scores == Release.Score(b.contract.terms, b.w, rows, a.results, a.report, a.verified)
  }

  predicate Terminal(state: RunState) {
    state.RELEASED? || state.QUARANTINED? || state.ROLLED_BACK?
  }

  /** Where `release` takes a run; a terminal run stays, and an illegal edge raises and changes nothing. */
  function Destination(state: RunState, decision: Release.Verdict): RunState {
    if Terminal(state) then state
    else
      var target := if decision == Release.RELEASE then RELEASED else QUARANTINED;
      if Transition(state, target).None? then target else state
  }

  // ---- What a release means ----

  /** All scores of a released result, except how well its metrics are defined, are full. */
  ghost predicate FullScores(s: Release.Scores) {
    && s.requirements == 1.0 && 0.7 <= s.semantics <= 1.0 && s.dataQuality == 1.0 && s.execution == 1.0
    && s.validation == 1.0 && s.reconciliation == 1.0 && s.verification == 1.0
  }

  /** Every rule of the manifest that has a check function was run on the frame of its stage, and held. */
  ghost predicate EveryRuleHolds(b: Brief, files: map<string, Frame>) {
    forall rule :: rule in Validation.Manifest(b.contract.terms, b.w, b.checks) && rule.checkFunction.Some? ==>
      Validation.RuleHolds(rule, b.w, files, b.checks)
  }

  ghost predicate EverySumStands(b: Brief, files: map<string, Frame>) {
    forall m :: m in b.contract.terms.metrics ==>
      Reconciliation.SumStands(m, b.w.steps, Artifacts(Needed(b.w), files))
  }

  ghost predicate NoRowsLost(w: Workflow, files: map<string, Frame>) {
    !Reconciliation.SomeStepLosesRows(w.steps, Artifacts(Needed(w), files))
  }

  lemma CaseIsReleasable(b: Brief, d: Durable, rows: seq<StepRow>, a: Assessment)
    requires Assesses(b, d, rows, a) && a.decision.decision == Release.RELEASE
    ensures d.state == VERIFYING && b.contract.status == Approved && Lists(rows, d.records)
    ensures a.verified == Verifier.Verified(b.contract.terms, b.w, b.snapshots, rows)
    ensures a.verified.verdict == Verifier.PASS
    ensures a.results == Validation.Results(Validation.Manifest(b.contract.terms, b.w, b.checks), b.w, d.files,
      b.checks)
    ensures Validation.ReportPassed(a.results)
    ensures a.report == Reconciliation.Reconciled(b.contract.terms, b.w, Artifacts(Needed(b.w), d.files))
    ensures a.report.status == Reconciliation.Pass
    ensures a.scores == Release.Score(b.contract.terms, b.w, rows, a.results, a.report, a.verified)
  {
  }

  /** Whenever a run is decided RELEASE, it is VERIFYING, the contract approved, the plan satisfied by completed and
      evidenced steps, every check held on its frame, every sum adds up, and no cast, derive or export lost a row. */
  lemma ReleaseImplies(b: Brief, d: Durable, rows: seq<StepRow>, a: Assessment)
    requires Assesses(b, d, rows, a) && a.decision.decision == Release.RELEASE
    ensures d.state == VERIFYING && b.contract.status == Approved
    ensures Verifier.PlanSatisfied(b.contract.terms, b.w, b.snapshots, d.records)
    ensures (forall r :: r in a.results ==> r.passed) && EveryRuleHolds(b, d.files)
    ensures EverySumStands(b, d.files) && NoRowsLost(b.w, d.files)
  {
    var t := b.contract.terms;
    CaseIsReleasable(b, d, rows, a);
    Reconciliation.PassesIff(t, b.w, Artifacts(Needed(b.w), d.files));
    Verifier.PassIff(t, b.w, b.snapshots, rows, d.records);
    Validation.PassedIffAllPassed(t, b.w, d.files, b.checks);
    var rules := Validation.Manifest(t, b.w, b.checks);
    forall rule | rule in rules && rule.checkFunction.Some? ensures Validation.RuleHolds(rule, b.w, d.files, b.checks) {
      Validation.PassedRulesHold(rules, b.w, d.files, b.checks, rule);
    }
  }

  /** If the contract is validated besides, six scores are exactly one and the semantics score is at least 0.7. */
  lemma ReleaseHasFullScores(b: Brief, d: Durable, rows: seq<StepRow>, a: Assessment)
    requires Validated(b.contract) && Assesses(b, d, rows, a) && a.decision.decision == Release.RELEASE
    ensures FullScores(a.scores)
  {
    var t := b.contract.terms;
    CaseIsReleasable(b, d, rows, a);
    ReleaseImplies(b, d, rows, a);
    Release.RequirementsFull(b.contract);
    Release.ChecksFull(a.results);
    Release.ExecutionFull(b.w, rows, d.records);
    Release.ReconciliationFull(t, b.w, Artifacts(Needed(b.w), d.files));
    Release.VerificationFull(t, b.w, b.snapshots, rows, d.records);
    Release.ScoresAreBounded(t, b.w, rows, a.results, a.report, a.verified);
  }
}
