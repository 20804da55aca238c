/** Validation: the check manifest generated from a contract and a workflow, and its execution against the
    stored artifacts of a run. */
module Validation {
  import opened Values
  import opened Seqs
  import opened Frames
  import opened Ids
  import opened Dsl
  import opened Contract
  import Protocol
  import Reconciliation

  datatype Severity = BLOCKING | WARNING

  datatype CheckSpec = CheckSpec(
    checkId: string,
    stage: string,
    checkFunction: Option<string>,
    checkArgs: Params,
    severity: Severity,
    requirementRef: Option<string>)

  datatype CheckResult = CheckResult(checkId: string, passed: bool, severity: Severity)

  /** An iteration visits every key of a dictionary, each once. */
  ghost predicate Iterates(order: map<string, Value> -> seq<string>) {
    forall m: map<string, Value> :: Distinct(order(m)) && Elements(order(m)) == m.Keys
  }

  function KeysInOrder(m: map<string, Value>): (keys: seq<string>)
    ensures Distinct(keys) && Elements(keys) == m.Keys
  {
    SortedHasNoDuplicates(SortedSeq(m.Keys));
    SortedSeq(m.Keys)
  }

  /** The order in which a dictionary of parameters is iterated. */
  type KeyOrder = order: map<string, Value> -> seq<string> | Iterates(order) witness KeysInOrder

  /** What validation does not decide itself: a check function on one frame, None when it raises, and the order in which
      a dictionary of parameters is iterated. */
  datatype Checks = Checks(run: (string, Frame, Params) -> Option<bool>, keys: KeyOrder)

  const SINGLE_FRAME_CHECKS := {"check_null_rate", "check_no_duplicate_rows", "check_dual_computation"}

  const DEFAULT_TOLERANCE := 0.01

  // ---- Generating the manifest ----

  function Decimal(n: nat): string {
    if n < 10 then [('0' as int + n) as char] else Decimal(n / 10) + Decimal(n % 10)
  }

  function CommaSeparated(names: seq<string>): string {
    if names == [] then ""
    else if |names| == 1 then names[0]
    else names[0] + "," + CommaSeparated(names[1..])
  }

  function NullRate(checkId: string, stage: string, column: string, maxRate: Value, ref: Option<string>): CheckSpec {
    CheckSpec(checkId, stage, Some("check_null_rate"), map["column" := Str(column), "max_rate" := maxRate], BLOCKING,
      ref)
  }

  function NullPolicyRule(policy: (string, string)): seq<CheckSpec> {
    if policy.1 != "error" then []
    else [NullRate("null_rate:" + policy.0, "contract", policy.0, Num(0.0), Some(policy.0))]
  }

  /** A sum metric is recomputed on the single input of the last step that names it. */
  function ReconciliationRule(t: Terms, w: Workflow, m: ContractMetric): seq<CheckSpec> {
    if !IsSumFormula(m.formula) then []
    else
      match Reconciliation.CoveringStep(w.steps, m.name)
      case None => []
      case Some(s) =>
        match Reconciliation.MetricColumn(s.params, m.name)
        case None => []
        case Some(column) =>
          if |s.inputs| != 1 then []
          else
            var tolerance := if m.name in t.tolerances then t.tolerances[m.name] else DEFAULT_TOLERANCE;
            [CheckSpec("reconciliation:" + m.name, s.inputs[0], Some("check_dual_computation"),
                       map["column" := Str(column), "agg" := Str("sum"), "tolerance" := Num(tolerance)],
                       BLOCKING, Some(m.name))]
  }

  function JoinRule(s: WorkflowStep): seq<CheckSpec> {
    if s.operationId != "join" then []
    else
      var expected := if "expected_cardinality" in s.params then s.params["expected_cardinality"] else Str("unknown");
      [CheckSpec("join_cardinality:" + s.id, s.id, None, map["expected_cardinality" := expected], BLOCKING, None)]
  }

  function RequiredColumnRule(s: WorkflowStep, column: string): CheckSpec {
    CheckSpec("required_column:" + s.id + ":" + column, s.id, None, map["column" := Str(column)], BLOCKING, None)
  }

  function StepNullRule(s: WorkflowStep, column: string, maxRate: Value): CheckSpec {
    NullRate("null_rate:" + s.id + ":" + column, s.id, column, maxRate, None)
  }

  function UniqueRule(s: WorkflowStep, keys: seq<string>): seq<CheckSpec> {
    if keys == [] then []
    else [CheckSpec("unique:" + s.id + ":" + CommaSeparated(keys), s.id, Some("check_no_duplicate_rows"),
                    map["subset" := TextList(keys)], BLOCKING, None)]
  }

  function RequiredColumnRules(s: WorkflowStep, columns: seq<string>): seq<CheckSpec> {
    seq(|columns|, i requires 0 <= i < |columns| => RequiredColumnRule(s, columns[i]))
  }

  function StepNullRules(s: WorkflowStep, policy: map<string, Value>, columns: seq<string>): seq<CheckSpec> {
    seq(|columns|, i requires 0 <= i < |columns| => StepNullRule(s, columns[i], Get(policy, columns[i])))
  }

  function SchemaRulesOf(s: WorkflowStep, checks: Checks): seq<CheckSpec> {
    if s.operationId != "validate_schema" then []
    else
      var policy := Get(s.params, "null_policy");
      RequiredColumnRules(s, Names(Get(s.params, "required_columns")))
      + UniqueRule(s, Names(Get(s.params, "unique_keys")))
      + (if policy.Dict? then StepNullRules(s, policy.fields, checks.keys(policy.fields)) else [])
  }

  function SchemaRules(checks: Checks): WorkflowStep -> seq<CheckSpec> {
    (s: WorkflowStep) => SchemaRulesOf(s, checks)
  }

  function AcceptanceRule(i: nat, test: string): CheckSpec {
    CheckSpec("acceptance:" + Decimal(i), "release", None, map[], BLOCKING, Some(test))
  }

  function AcceptanceRules(t: Terms): seq<CheckSpec> {
    seq(|t.acceptanceTests|, i requires 0 <= i < |t.acceptanceTests| => AcceptanceRule(i, t.acceptanceTests[i]))
  }

  function ReconciliationRules(t: Terms, w: Workflow): ContractMetric -> seq<CheckSpec> {
    m => ReconciliationRule(t, w, m)
  }

  function Manifest(t: Terms, w: Workflow, checks: Checks): seq<CheckSpec> {
    FlatMap(t.nullPolicy, NullPolicyRule)
    + FlatMap(t.metrics, ReconciliationRules(t, w))
    + FlatMap(w.steps, JoinRule)
    + FlatMap(w.steps, SchemaRules(checks))
    + AcceptanceRules(t)
  }

  method CollectRules<T>(items: seq<T>, rules: T -> seq<CheckSpec>) returns (r: seq<CheckSpec>)
    ensures r == FlatMap(items, rules)
  {
    r := [];
    for i := 0 to |items|
      invariant r == FlatMap(items[..i], rules)
    {
      assert items[..i + 1][..i] == items[..i];
      r := r + rules(items[i]);
    }
    assert items[..|items|] == items;
  }

  method Generate(t: Terms, w: Workflow, checks: Checks) returns (rules: seq<CheckSpec>)
    ensures rules == Manifest(t, w, checks)
  {
    rules := CollectRules(t.nullPolicy, NullPolicyRule);
    var part := CollectRules(t.metrics, ReconciliationRules(t, w));
    rules := rules + part;
    part := CollectRules(w.steps, JoinRule);
    rules := rules + part;
    part := CollectRules(w.steps, SchemaRules(checks));
    rules := rules + part;
    rules := rules + AcceptanceRules(t);
  }

  // ---- Executing it ----

  predicate Supported(rule: CheckSpec) {
    rule.checkFunction.Some? ==> rule.checkFunction.value in SINGLE_FRAME_CHECKS
  }

  /** The outcome of a supported check on the frame of its stage, if there is one. */
  function Judged(rule: CheckSpec, frame: Option<Frame>, checks: Checks): CheckResult {
    var passed :=
      match rule.checkFunction
      case None => true
      case Some(name) => frame.Some? && checks.run(name, frame.value, rule.checkArgs) == Some(true);
    CheckResult(rule.checkId, passed, rule.severity)
  }

  /** What the executor is given for a stage. */
  function FrameAt(frames: map<string, Frame>, stage: string): Option<Frame> {
    if stage in frames then Some(frames[stage]) else None
  }

  method RunOne(rule: CheckSpec, frames: map<string, Frame>, checks: Checks)
    returns (r: Result<CheckResult, PlatformError>)
    ensures r == if Supported(rule)
                 then Ok(Judged(rule, FrameAt(frames, rule.stage), checks))
                 else Err(PlatformError(NO_SAFE_OPERATION, [rule.checkId]))
  {
    if rule.checkFunction.None? {
      return Ok(CheckResult(rule.checkId, true, rule.severity));
    }
    if rule.checkFunction.value !in SINGLE_FRAME_CHECKS {
      return Err(PlatformError(NO_SAFE_OPERATION, [rule.checkId]));
    }
    if rule.stage !in frames {
      return Ok(CheckResult(rule.checkId, false, rule.severity));
    }
    match checks.run(rule.checkFunction.value, frames[rule.stage], rule.checkArgs) {
      case Some(passed) => return Ok(CheckResult(rule.checkId, passed, rule.severity));
      case None => return Ok(CheckResult(rule.checkId, false, rule.severity));
    }
  }

  /** One result per rule, in order; the first unsupported rule stops everything. */
  method Execute(rules: seq<CheckSpec>, frames: map<string, Frame>, checks: Checks)
    returns (r: Result<seq<CheckResult>, PlatformError>)
    ensures r.Ok? <==> forall rule :: rule in rules ==> Supported(rule)
    ensures r.Err? ==> r.error.code == NO_SAFE_OPERATION
    ensures r.Ok? ==> |r.value| == |rules| && forall i :: 0 <= i < |rules| ==>
      r.value[i] == Judged(rules[i], FrameAt(frames, rules[i].stage), checks)
  {
    var results: seq<CheckResult> := [];
    for i := 0 to |rules|
      invariant |results| == i && forall k :: 0 <= k < i ==> Supported(rules[k])
      invariant forall k :: 0 <= k < i ==>
        results[k] == Judged(rules[k], FrameAt(frames, rules[k].stage), checks)
    {
      var one := RunOne(rules[i], frames, checks);
      if one.Err? {
        assert !Supported(rules[i]);
        return Err(one.error);
      }
      results := results + [one.value];
    }
    return Ok(results);
  }

  // ---- Which artifact a check sees ----

  type Files = map<string, Frame>

  /** The last step in execution order. */
  function Terminal(w: Workflow): Option<string> {
    match ExecutionOrder(w)
    case Ok(order) => if order == [] then None else Some(order[|order| - 1])
    case Err(_) => None
  }

  lemma TerminalOf(w: Workflow, order: seq<string>)
    requires ExecutionOrder(w) == Ok(order)
    ensures Terminal(w) == if order == [] then None else Some(order[|order| - 1])
  {
  }

  /** A stage that is a node of the run is that node; any other stage means the release candidate. */
  function StageNode(w: Workflow, stage: string): Option<string> {
    if stage in Nodes(w) then Some(stage) else Terminal(w)
  }

  function StageFrame(w: Workflow, files: Files, stage: string): Option<Frame> {
    match StageNode(w, stage)
    case None => None
    case Some(node) => if Protocol.Path(node) in files then Some(files[Protocol.Path(node)]) else None
  }

  /** The file a rule reads is missing, so that reading it raises. */
  predicate Unreadable(w: Workflow, files: Files, rule: CheckSpec) {
    rule.checkFunction.Some? && StageNode(w, rule.stage).Some? && StageFrame(w, files, rule.stage).None?
  }

  lemma TerminalIsNode(w: Workflow)
    ensures Terminal(w).Some? ==> Terminal(w).value in IdSet(w)
  {
    if Terminal(w).Some? {
      var order := ExecutionOrder(w).value;
      DepsOfKeys(w.steps, IdSet(w));
      Graph.KahnIsCanonical(DepGraph(w), order);
      assert order[|order| - 1] in order;
    }
  }

  /** Every frame loaded so far is the one its stage means. */
  ghost predicate Faithful(w: Workflow, files: Files, frames: map<string, Frame>) {
    forall stage :: stage in frames ==> StageFrame(w, files, stage) == Some(frames[stage])
  }

  /** A rule that needs a frame, and whose stage means some node, has its frame loaded. */
  ghost predicate Served(w: Workflow, frames: map<string, Frame>, rule: CheckSpec) {
    rule.checkFunction.Some? && StageNode(w, rule.stage).Some? ==> rule.stage in frames
  }

  method LoadStage(rule: CheckSpec, w: Workflow, files: Files, frames: map<string, Frame>)
    returns (r: Option<map<string, Frame>>)
    requires Faithful(w, files, frames)
    ensures r.None? <==> Unreadable(w, files, rule)
    ensures r.Some? ==> Faithful(w, files, r.value) && frames.Keys <= r.value.Keys && Served(w, r.value, rule)
  {
    if rule.checkFunction.None? || rule.stage in frames {
      return Some(frames);
    }
    var node := if rule.stage in Nodes(w) then Some(rule.stage) else Terminal(w);
    if node.None? {
      return Some(frames);
    }
    var source := node.value;
    TerminalIsNode(w);
    assert StageNode(w, source) == Some(source) == StageNode(w, rule.stage);
    if source !in frames && Protocol.Path(source) !in files {
      return None;
    }
    var frame := if source in frames then frames[source] else files[Protocol.Path(source)];
    return Some(frames[source := frame][rule.stage := frame]);
  }

  /** The rule's read does not raise, and its frame is loaded if it needs one. */
  ghost predicate Handled(w: Workflow, files: Files, frames: map<string, Frame>, rule: CheckSpec) {
    !Unreadable(w, files, rule) && Served(w, frames, rule)
  }

  ghost predicate AllHandled(rules: seq<CheckSpec>, w: Workflow, files: Files, frames: map<string, Frame>) {
    forall rule :: rule in rules ==> Handled(w, files, frames, rule)
  }

  lemma OneMoreHandled(rules: seq<CheckSpec>, i: nat, w: Workflow, files: Files, frames: map<string, Frame>,
                       more: map<string, Frame>)
    requires i < |rules| && AllHandled(rules[..i], w, files, frames) && frames.Keys <= more.Keys
    requires Handled(w, files, more, rules[i])
    ensures AllHandled(rules[..i + 1], w, files, more)
  {
    forall rule | rule in rules[..i + 1] ensures Handled(w, files, more, rule) {
      if rule != rules[i] { assert rule in rules[..i] && Handled(w, files, frames, rule); }
    }
  }

  lemma HandledFinds(w: Workflow, files: Files, frames: map<string, Frame>, rule: CheckSpec)
    requires Faithful(w, files, frames) && Handled(w, files, frames, rule) && rule.checkFunction.Some?
    ensures FrameAt(frames, rule.stage) == StageFrame(w, files, rule.stage)
  {
  }

  ghost predicate SomeUnreadable(rules: seq<CheckSpec>, w: Workflow, files: Files) {
    exists rule :: rule in rules && Unreadable(w, files, rule)
  }

  /** Every check function finds under its stage the frame that the stage means. */
  ghost predicate AllFind(rules: seq<CheckSpec>, w: Workflow, files: Files, frames: map<string, Frame>) {
    forall rule :: rule in rules && rule.checkFunction.Some? ==>
      FrameAt(frames, rule.stage) == StageFrame(w, files, rule.stage)
  }

  lemma AllHandledFind(rules: seq<CheckSpec>, w: Workflow, files: Files, frames: map<string, Frame>)
    requires Faithful(w, files, frames) && AllHandled(rules, w, files, frames)
    ensures !SomeUnreadable(rules, w, files) && AllFind(rules, w, files, frames)
  {
    forall rule | rule in rules && rule.checkFunction.Some?
      ensures FrameAt(frames, rule.stage) == StageFrame(w, files, rule.stage)
    {
      HandledFinds(w, files, frames, rule);
    }
    forall rule | rule in rules ensures !Unreadable(w, files, rule) { assert Handled(w, files, frames, rule); }
  }

  /** Loads each needed artifact once; None when a read raises. */
  method LoadStages(rules: seq<CheckSpec>, w: Workflow, files: Files) returns (r: Option<map<string, Frame>>)
    ensures r.None? <==> SomeUnreadable(rules, w, files)
    ensures r.Some? ==> AllFind(rules, w, files, r.value)
  {
    var frames: map<string, Frame> := map[];
    for i := 0 to |rules|
      invariant Faithful(w, files, frames) && AllHandled(rules[..i], w, files, frames)
    {
      var more := LoadStage(rules[i], w, files, frames);
      if more.None? {
        assert rules[i] in rules && Unreadable(w, files, rules[i]);
        return None;
      }
      OneMoreHandled(rules, i, w, files, frames, more.value);
      frames := more.value;
    }
    assert rules[..|rules|] == rules;
    AllHandledFind(rules, w, files, frames);
    return Some(frames);
  }

  lemma {:induction false} CoveringStepNames(steps: seq<WorkflowStep>, ref: string)
    ensures Reconciliation.CoveringStep(steps, ref).None? <==> forall s :: s in steps ==> ref !in s.requirementRefs
    ensures Reconciliation.CoveringStep(steps, ref).Some? ==>
      var s := Reconciliation.CoveringStep(steps, ref).value; s in steps && ref in s.requirementRefs
  {
    if steps != [] {
      var n := |steps| - 1;
      CoveringStepNames(steps[..n], ref);
      assert steps == steps[..n] + [steps[n]];
    }
  }

  /** The recomputation of a sum metric reads the very input, before aggregation, of a step that covers the
      metric; on a workflow with known references it never falls back to the release candidate. */
  lemma ReconciliationReadsInput(t: Terms, w: Workflow, m: ContractMetric, rule: CheckSpec)
    requires RefsKnown(w) && rule in ReconciliationRule(t, w, m)
    ensures StageNode(w, rule.stage) == Some(rule.stage)
    ensures exists s :: s in w.steps && m.name in s.requirementRefs && s.inputs == [rule.stage]
  {
    CoveringStepNames(w.steps, m.name);
    var s := Reconciliation.CoveringStep(w.steps, m.name).value;
    assert s.inputs == [rule.stage] && rule.stage in s.inputs;
  }

  /** The rule runs a check at most at the contract's stage or on a node that some step reads or writes. */
  ghost predicate StageKnown(w: Workflow, rule: CheckSpec) {
    rule.checkFunction.Some? ==> rule.stage == "contract" || exists s :: s in w.steps && rule.stage in s.inputs + [s.id]
  }

  lemma SchemaStagesKnown(w: Workflow, s: WorkflowStep, checks: Checks, rule: CheckSpec)
    requires s in w.steps && rule in SchemaRulesOf(s, checks)
    ensures StageKnown(w, rule)
  {
    assert rule.stage == s.id && s.id in s.inputs + [s.id];
  }

  lemma ReconciliationStagesKnown(t: Terms, w: Workflow, m: ContractMetric, rule: CheckSpec)
    requires rule in ReconciliationRule(t, w, m)
    ensures StageKnown(w, rule)
  {
    CoveringStepNames(w.steps, m.name);
    var s := Reconciliation.CoveringStep(w.steps, m.name).value;
    assert rule.stage == s.inputs[0] && s.inputs[0] in s.inputs + [s.id];
  }

  lemma CheckedStages(t: Terms, w: Workflow, checks: Checks, rule: CheckSpec)
    requires rule in Manifest(t, w, checks)
    ensures StageKnown(w, rule)
  {
    FlatMapMember(t.nullPolicy, NullPolicyRule, rule);
    FlatMapMember(w.steps, JoinRule, rule);
    if rule in FlatMap(t.metrics, ReconciliationRules(t, w)) {
      FlatMapMember(t.metrics, ReconciliationRules(t, w), rule);
      var m :| m in t.metrics && rule in ReconciliationRules(t, w)(m);
      ReconciliationStagesKnown(t, w, m, rule);
    } else if rule in FlatMap(w.steps, SchemaRules(checks)) {
      FlatMapMember(w.steps, SchemaRules(checks), rule);
      var s :| s in w.steps && rule in SchemaRules(checks)(s);
      SchemaStagesKnown(w, s, checks, rule);
    }
  }

  /** What each rule finds in the run's own files. */
  function Results(rules: seq<CheckSpec>, w: Workflow, files: Files, checks: Checks): seq<CheckResult> {
    seq(|rules|, i requires 0 <= i < |rules| => Judged(rules[i], StageFrame(w, files, rules[i].stage), checks))
  }

  // ---- Every generated rule is blocking and runnable ----

  ghost predicate Strict(rule: CheckSpec) {
    rule.severity == BLOCKING && Supported(rule)
  }

  ghost predicate AllStrict(rules: seq<CheckSpec>) {
    forall rule :: rule in rules ==> Strict(rule)
  }

  lemma FlatMapStrict<T>(items: seq<T>, rules: T -> seq<CheckSpec>)
    requires forall x :: x in items ==> AllStrict(rules(x))
    ensures AllStrict(FlatMap(items, rules))
  {
    forall rule | rule in FlatMap(items, rules) ensures Strict(rule) { FlatMapMember(items, rules, rule); }
  }

  lemma NullRulesStrict(policy: (string, string))
    ensures AllStrict(NullPolicyRule(policy))
  {
  }

  lemma ReconciliationRulesStrict(t: Terms, w: Workflow, m: ContractMetric)
    ensures AllStrict(ReconciliationRules(t, w)(m))
  {
    var rules := ReconciliationRule(t, w, m);
    assert forall rule :: rule in rules ==> rule == rules[0];
  }

  lemma JoinRulesStrict(s: WorkflowStep)
    ensures AllStrict(JoinRule(s))
  {
  }

  lemma AppendStrict(a: seq<CheckSpec>, b: seq<CheckSpec>)
    requires AllStrict(a) && AllStrict(b)
    ensures AllStrict(a + b)
  {
  }

  lemma StepSchemaRulesStrict(s: WorkflowStep, policy: map<string, Value>, columns: seq<string>)
    ensures AllStrict(RequiredColumnRules(s, columns)) && AllStrict(StepNullRules(s, policy, columns))
    ensures AllStrict(UniqueRule(s, columns))
  {
  }

  lemma SchemaRulesStrict(s: WorkflowStep, checks: Checks)
    ensures AllStrict(SchemaRulesOf(s, checks))
  {
    var policy := Get(s.params, "null_policy");
    var required, unique := Names(Get(s.params, "required_columns")), Names(Get(s.params, "unique_keys"));
    StepSchemaRulesStrict(s, map[], required);
    StepSchemaRulesStrict(s, map[], unique);
    AppendStrict(RequiredColumnRules(s, required), UniqueRule(s, unique));
    var nulls := if policy.Dict? then StepNullRules(s, policy.fields, checks.keys(policy.fields)) else [];
    if policy.Dict? { StepSchemaRulesStrict(s, policy.fields, checks.keys(policy.fields)); }
    AppendStrict(RequiredColumnRules(s, required) + UniqueRule(s, unique), nulls);
  }

  /** Every rule the generator emits is BLOCKING and one the executor can run. */
  lemma ManifestIsStrict(t: Terms, w: Workflow, checks: Checks)
    ensures AllStrict(Manifest(t, w, checks))
  {
    forall x { NullRulesStrict(x); }
    var a := FlatMap(t.nullPolicy, NullPolicyRule);
    FlatMapStrict(t.nullPolicy, NullPolicyRule);
    forall m { ReconciliationRulesStrict(t, w, m); }
    var b := FlatMap(t.metrics, ReconciliationRules(t, w));
    FlatMapStrict(t.metrics, ReconciliationRules(t, w));
    StepRulesStrict(w.steps, checks);
    var c, d := FlatMap(w.steps, JoinRule), FlatMap(w.steps, SchemaRules(checks));
    var e := AcceptanceRules(t);
    assert AllStrict(e);
    AppendStrict(a, b);
    AppendStrict(a + b, c);
    AppendStrict(a + b + c, d);
    AppendStrict(a + b + c + d, e);
  }

  lemma StepRulesStrict(steps: seq<WorkflowStep>, checks: Checks)
    ensures AllStrict(FlatMap(steps, JoinRule)) && AllStrict(FlatMap(steps, SchemaRules(checks)))
  {
    forall s | s in steps ensures AllStrict(JoinRule(s)) { JoinRulesStrict(s); }
    forall s | s in steps ensures AllStrict(SchemaRules(checks)(s)) { SchemaRulesStrict(s, checks); }
    FlatMapStrict(steps, JoinRule);
    FlatMapStrict(steps, SchemaRules(checks));
  }

  // ---- Every declared null rate is checked ----

  /** `s` declares the greatest null rate `column` may have. */
  predicate DeclaresNullRate(s: WorkflowStep, column: string) {
    && s.operationId == "validate_schema"
    && Get(s.params, "null_policy").Dict? && column in Get(s.params, "null_policy").fields
  }

  function DeclaredNullRule(s: WorkflowStep, column: string): CheckSpec
    requires DeclaresNullRate(s, column)
  {
    StepNullRule(s, column, Get(s.params, "null_policy").fields[column])
  }

  /** The null rules of a policy are one for each of its columns, in the order of iteration. */
  lemma NullRulesAreThePolicy(s: WorkflowStep, policy: map<string, Value>, checks: Checks)
    ensures var rules := StepNullRules(s, policy, checks.keys(policy));
      && |rules| == |policy|
      && forall column :: column in policy <==> StepNullRule(s, column, Get(policy, column)) in rules
  {
    var keys := checks.keys(policy);
    var rules := StepNullRules(s, policy, keys);
    DistinctIffCardinality(keys);
    assert |policy.Keys| == |policy|;
    forall column ensures column in policy <==> StepNullRule(s, column, Get(policy, column)) in rules {
      var rule := StepNullRule(s, column, Get(policy, column));
      if column in policy {
        assert column in Elements(keys);
        var i :| 0 <= i < |keys| && keys[i] == column;
        assert rules[i] == rule;
      }
      if rule in rules {
        var i :| 0 <= i < |rules| && rules[i] == rule;
        assert keys[i] in Elements(keys) && rule.checkArgs["column"] == Str(keys[i]);
      }
    }
  }

  lemma SchemaRulesAreIncluded(t: Terms, w: Workflow, checks: Checks, s: WorkflowStep, rule: CheckSpec)
    requires s in w.steps && rule in SchemaRulesOf(s, checks)
    ensures rule in Manifest(t, w, checks)
  {
    assert rule in SchemaRules(checks)(s);
    FlatMapMember(w.steps, SchemaRules(checks), rule);
  }

  /** Every null rate that a step declares has its rule in the manifest, on the step's own frame. */
  lemma DeclaredNullRatesAreChecked(t: Terms, w: Workflow, checks: Checks, s: WorkflowStep, column: string)
    requires s in w.steps && DeclaresNullRate(s, column)
    ensures DeclaredNullRule(s, column) in Manifest(t, w, checks)
    ensures DeclaredNullRule(s, column).checkFunction == Some("check_null_rate")
    ensures StageNode(w, DeclaredNullRule(s, column).stage) == Some(s.id)
  {
    var policy := Get(s.params, "null_policy").fields;
    NullRulesAreThePolicy(s, policy, checks);
    SchemaRulesAreIncluded(t, w, checks, s, DeclaredNullRule(s, column));
    assert s.id in IdSet(w);
  }

  /** The rule's check function, called on the frame its stage means, says that it holds. */
  ghost predicate RuleHolds(rule: CheckSpec, w: Workflow, files: Files, checks: Checks) {
    && rule.checkFunction.Some? && StageFrame(w, files, rule.stage).Some?
    && checks.run(rule.checkFunction.value, StageFrame(w, files, rule.stage).value, rule.checkArgs) == Some(true)
  }

  /** When every result passed, every rule with a check function was run on its frame, and held. */
  lemma PassedRulesHold(rules: seq<CheckSpec>, w: Workflow, files: Files, checks: Checks, rule: CheckSpec)
    requires forall r :: r in Results(rules, w, files, checks) ==> r.passed
    requires rule in rules && rule.checkFunction.Some?
    ensures RuleHolds(rule, w, files, checks)
  {
    var i :| 0 <= i < |rules| && rules[i] == rule;
    assert Results(rules, w, files, checks)[i] in Results(rules, w, files, checks);
  }

  // ---- The validation stage of a release ----

  predicate ReportPassed(results: seq<CheckResult>) {
    forall r :: r in results ==> r.passed || r.severity != BLOCKING
  }

  /** Generate, load and execute; None when a read raises. Never raises NO_SAFE_OPERATION. */
  method Validate(t: Terms, w: Workflow, files: Files, checks: Checks) returns (r: Option<seq<CheckResult>>)
    ensures r.None? <==> SomeUnreadable(Manifest(t, w, checks), w, files)
    ensures r.Some? ==> r.value == Results(Manifest(t, w, checks), w, files, checks)
  {
    var rules := Generate(t, w, checks);
    ManifestIsStrict(t, w, checks);
    var frames := LoadStages(rules, w, files);
    if frames.None? {
      return None;
    }
    var results := Execute(rules, frames.value, checks);
    assert results.Ok? by { assert forall rule :: rule in rules ==> Strict(rule); }
    assert forall i :: 0 <= i < |rules| ==> rules[i] in rules;
    assert results.value == Results(rules, w, files, checks);
    return Some(results.value);
  }

  /** A report on generated rules passes exactly when every single check passed: nothing is downgraded. */
  lemma PassedIffAllPassed(t: Terms, w: Workflow, files: Files, checks: Checks)
    ensures ReportPassed(Results(Manifest(t, w, checks), w, files, checks)) <==>
            forall r :: r in Results(Manifest(t, w, checks), w, files, checks) ==> r.passed
  {
    ManifestIsStrict(t, w, checks);
    var rules := Manifest(t, w, checks);
    forall r | r in Results(rules, w, files, checks) ensures r.severity == BLOCKING {
      var i :| 0 <= i < |rules| && Results(rules, w, files, checks)[i] == r;
      assert Strict(rules[i]);
    }
  }

  // ---- Ids ----

  /** What a numeral is worth. */
  ghost function Worth(digits: string): int {
    if digits == "" then 0 else 10 * Worth(digits[..|digits| - 1]) + (digits[|digits| - 1] as int - '0' as int)
  }

  /** A number is written in its decimal digits, so no two acceptance tests share an id. */
  lemma {:induction false} DecimalIsWorth(n: nat)
    ensures Worth(Decimal(n)) == n && Decimal(n) != ""
    ensures forall c :: c in Decimal(n) ==> '0' <= c <= '9'
  {
    if n < 10 {
      var d := [('0' as int + n) as char];
      assert d[..0] == "";
      assert Decimal(n) == d;
    } else {
      DecimalIsWorth(n / 10);
      DecimalIsWorth(n % 10);
      WorthAppends(Decimal(n / 10), Decimal(n % 10));
    }
  }

  lemma WorthAppends(a: string, b: string)
    requires |b| == 1
    ensures Worth(a + b) == 10 * Worth(a) + Worth(b)
  {
    assert (a + b)[..|a + b| - 1] == a && b[..0] == "";
  }

  /** The names one after the other, with a comma between. */
  lemma {:induction false} CommaSeparatedIs(a: seq<string>, b: seq<string>)
    ensures a != [] && b != [] ==> CommaSeparated(a + b) == CommaSeparated(a) + "," + CommaSeparated(b)
    ensures |a| == 1 ==> CommaSeparated(a) == a[0]
  {
    if |a| > 1 && b != [] {
      CommaSeparatedIs(a[1..], b);
      assert (a + b)[1..] == a[1..] + b;
    } else if |a| == 1 && b != [] {
      assert (a + b)[1..] == b;
    }
  }

  // ---- Each result ----

  /** Each rule has its result, in order: it passes exactly if it has no check function, or the function was run on
      the frame its stage means, and held. A missing frame and a check that raises fail. */
  lemma ResultsAre(rules: seq<CheckSpec>, w: Workflow, files: Files, checks: Checks, i: nat)
    requires i < |rules|
    ensures var results := Results(rules, w, files, checks);
      && |results| == |rules| && results[i].checkId == rules[i].checkId && results[i].severity == rules[i].severity
      && (results[i].passed <==> rules[i].checkFunction == None || RuleHolds(rules[i], w, files, checks))
  {
  }
}
