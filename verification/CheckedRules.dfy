/** Exactly which checks a contract and a workflow give rise to. */
module CheckedRules {
  import opened Values
  import opened Seqs
  import opened Dsl
  import opened Contract
  import opened Reconciliation
  import opened Validation

  // ---- The seven kinds of rule, field by field ----

  /** The contract wants an error for a null in some column: no null at all, at the contract's stage. */
  ghost predicate ChecksContractNulls(t: Terms, rule: CheckSpec) {
    exists c :: (c, "error") in t.nullPolicy && rule == ContractNullCheck(c)
  }

  function ContractNullCheck(column: string): CheckSpec {
    CheckSpec("null_rate:" + column, "contract", Some("check_null_rate"),
              map["column" := Str(column), "max_rate" := Num(0.0)], BLOCKING, Some(column))
  }

  function SumCheck(metric: string, stage: string, column: string, tolerance: real): CheckSpec {
    CheckSpec("reconciliation:" + metric, stage, Some("check_dual_computation"),
              map["column" := Str(column), "agg" := Str("sum"), "tolerance" := Num(tolerance)], BLOCKING, Some(metric))
  }

  /** `tolerance` is what the contract grants the metric, 0.01 if it says nothing. */
  ghost predicate Tolerates(t: Terms, metric: string, tolerance: real) {
    if metric in t.tolerances then tolerance == t.tolerances[metric] else tolerance == 0.01
  }

  /** The last step that names the sum metric `m` reads `stage` alone and sums up `column` for it. */
  ghost predicate SumsUp(m: ContractMetric, steps: seq<WorkflowStep>, stage: string, column: string) {
    && IsSumFormula(m.formula)
    && exists i :: LastNaming(steps, i, m.name) && steps[i].inputs == [stage]
         && SpellsColumn(steps[i].params, m.name, column)
  }

  ghost predicate ChecksSum(t: Terms, w: Workflow, rule: CheckSpec) {
    exists m, stage, column, tolerance ::
      && m in t.metrics && SumsUp(m, w.steps, stage, column) && Tolerates(t, m.name, tolerance)
      && rule == SumCheck(m.name, stage, column, tolerance)
  }

  ghost predicate ChecksJoin(w: Workflow, rule: CheckSpec) {
    exists s :: s in w.steps && s.operationId == "join" && rule ==
      CheckSpec("join_cardinality:" + s.id, s.id, None,
                map["expected_cardinality" :=
                  if "expected_cardinality" in s.params then s.params["expected_cardinality"] else Str("unknown")],
                BLOCKING, None)
  }

  ghost predicate StepColumn(s: WorkflowStep, rule: CheckSpec) {
    exists c :: s.operationId == "validate_schema" && c in Names(Get(s.params, "required_columns")) && rule ==
      CheckSpec("required_column:" + s.id + ":" + c, s.id, None, map["column" := Str(c)], BLOCKING, None)
  }

  ghost predicate ChecksColumn(w: Workflow, rule: CheckSpec) {
    exists s :: s in w.steps && StepColumn(s, rule)
  }

  /** The arguments of a uniqueness check on exactly these keys. */
  function OnKeys(keys: seq<string>): Params {
    map["subset" := List(seq(|keys|, i requires 0 <= i < |keys| => Str(keys[i])))]
  }

  function UniqueCheck(s: WorkflowStep, keys: seq<string>): CheckSpec {
    CheckSpec("unique:" + s.id + ":" + CommaSeparated(keys), s.id, Some("check_no_duplicate_rows"),
              OnKeys(keys), BLOCKING, None)
  }

  /** The step wants its rows unique on `keys`. */
  ghost predicate WantsUnique(s: WorkflowStep, keys: seq<string>) {
    s.operationId == "validate_schema" && keys == Names(Get(s.params, "unique_keys")) && keys != []
  }

  ghost predicate StepUnique(s: WorkflowStep, rule: CheckSpec) {
    exists keys :: WantsUnique(s, keys) && rule == UniqueCheck(s, keys)
  }

  ghost predicate ChecksUnique(w: Workflow, rule: CheckSpec) {
    exists s :: s in w.steps && StepUnique(s, rule)
  }

  ghost predicate StepNulls(s: WorkflowStep, rule: CheckSpec) {
    exists c :: DeclaresNullRate(s, c) && rule ==
      CheckSpec("null_rate:" + s.id + ":" + c, s.id, Some("check_null_rate"),
                map["column" := Str(c), "max_rate" := Get(s.params, "null_policy").fields[c]], BLOCKING, None)
  }

  ghost predicate ChecksStepNulls(w: Workflow, rule: CheckSpec) {
    exists s :: s in w.steps && StepNulls(s, rule)
  }

  ghost predicate AcceptanceAt(t: Terms, i: int, rule: CheckSpec) {
    0 <= i < |t.acceptanceTests| && rule ==
      CheckSpec("acceptance:" + Decimal(i), "release", None, map[], BLOCKING, Some(t.acceptanceTests[i]))
  }

  ghost predicate ChecksAcceptance(t: Terms, rule: CheckSpec) {
    exists i :: AcceptanceAt(t, i, rule)
  }

  // ---- The manifest holds these and no others ----

  lemma ContractNullsIff(t: Terms, rule: CheckSpec)
    ensures rule in FlatMap(t.nullPolicy, NullPolicyRule) <==> ChecksContractNulls(t, rule)
  {
    FlatMapMember(t.nullPolicy, NullPolicyRule, rule);
    if x :| x in t.nullPolicy && rule in NullPolicyRule(x) { assert (x.0, "error") in t.nullPolicy; }
    if c :| (c, "error") in t.nullPolicy && rule == ContractNullCheck(c) {
      assert rule in NullPolicyRule((c, "error"));
    }
  }

  lemma SumsUpIff(m: ContractMetric, steps: seq<WorkflowStep>, stage: string, column: string)
    ensures SumsUp(m, steps, stage, column) <==>
      && IsSumFormula(m.formula) && CoveringStep(steps, m.name).Some?
      && CoveringStep(steps, m.name).value.inputs == [stage]
      && MetricColumn(CoveringStep(steps, m.name).value.params, m.name) == Some(column)
  {
    var i := CoveringIsFound(steps, m.name);
    forall k | LastNaming(steps, k, m.name) ensures CoveringStep(steps, m.name) == Some(steps[k]) {
      CoveringIsLast(steps, k, m.name);
    }
    if CoveringStep(steps, m.name).Some? {
      assert LastNaming(steps, i, m.name);
      MetricColumnIff(steps[i].params, m.name, column);
    }
  }

  lemma SumRuleIff(t: Terms, w: Workflow, m: ContractMetric, rule: CheckSpec)
    ensures rule in ReconciliationRule(t, w, m) <==> exists stage, column, tolerance ::
      SumsUp(m, w.steps, stage, column) && Tolerates(t, m.name, tolerance)
      && rule == SumCheck(m.name, stage, column, tolerance)
  {
    forall stage, column { SumsUpIff(m, w.steps, stage, column); }
    if rule in ReconciliationRule(t, w, m) {
      var s := CoveringStep(w.steps, m.name).value;
      var column := MetricColumn(s.params, m.name).value;
      assert s.inputs == [s.inputs[0]];
      assert SumsUp(m, w.steps, s.inputs[0], column);
      var tolerance := if m.name in t.tolerances then t.tolerances[m.name] else 0.01;
      assert Tolerates(t, m.name, tolerance) && rule == SumCheck(m.name, s.inputs[0], column, tolerance);
    }
  }

  lemma SumsIff(t: Terms, w: Workflow, rule: CheckSpec)
    ensures rule in FlatMap(t.metrics, ReconciliationRules(t, w)) <==> ChecksSum(t, w, rule)
  {
    FlatMapMember(t.metrics, ReconciliationRules(t, w), rule);
    forall m ensures rule in ReconciliationRules(t, w)(m) <==> exists stage, column, tolerance ::
      SumsUp(m, w.steps, stage, column) && Tolerates(t, m.name, tolerance)
      && rule == SumCheck(m.name, stage, column, tolerance)
    {
      SumRuleIff(t, w, m, rule);
    }
  }

  lemma JoinsIff(w: Workflow, rule: CheckSpec)
    ensures rule in FlatMap(w.steps, JoinRule) <==> ChecksJoin(w, rule)
  {
    FlatMapMember(w.steps, JoinRule, rule);
  }

  lemma RequiredIff(s: WorkflowStep, columns: seq<string>, rule: CheckSpec)
    requires s.operationId == "validate_schema" && columns == Names(Get(s.params, "required_columns"))
    ensures rule in RequiredColumnRules(s, columns) <==> StepColumn(s, rule)
  {
    var rules := RequiredColumnRules(s, columns);
    if StepColumn(s, rule) {
      var c :| c in columns && rule ==
        CheckSpec("required_column:" + s.id + ":" + c, s.id, None, map["column" := Str(c)], BLOCKING, None);
      var i :| 0 <= i < |columns| && columns[i] == c;
      assert rules[i] == rule;
    }
  }

  lemma StepNullsIff(s: WorkflowStep, checks: Checks, rule: CheckSpec)
    requires s.operationId == "validate_schema" && Get(s.params, "null_policy").Dict?
    ensures var policy := Get(s.params, "null_policy").fields;
      rule in StepNullRules(s, policy, checks.keys(policy)) <==> StepNulls(s, rule)
  {
    var policy := Get(s.params, "null_policy").fields;
    var keys := checks.keys(policy);
    var rules := StepNullRules(s, policy, keys);
    if rule in rules {
      var i :| 0 <= i < |rules| && rules[i] == rule;
      assert keys[i] in Elements(keys) && DeclaresNullRate(s, keys[i]);
    }
    if StepNulls(s, rule) {
      var c :| DeclaresNullRate(s, c) && rule ==
        CheckSpec("null_rate:" + s.id + ":" + c, s.id, Some("check_null_rate"),
                  map["column" := Str(c), "max_rate" := policy[c]], BLOCKING, None);
      assert c in Elements(keys);
      var i :| 0 <= i < |keys| && keys[i] == c;
      assert rules[i] == rule;
    }
  }

  lemma SchemaIff(s: WorkflowStep, checks: Checks, rule: CheckSpec)
    ensures rule in SchemaRulesOf(s, checks) <==> StepColumn(s, rule) || StepUnique(s, rule) || StepNulls(s, rule)
  {
    var keys := Names(Get(s.params, "unique_keys"));
    if s.operationId == "validate_schema" {
      RequiredIff(s, Names(Get(s.params, "required_columns")), rule);
      assert rule in UniqueRule(s, keys) <==> WantsUnique(s, keys) && rule == UniqueCheck(s, keys);
      if Get(s.params, "null_policy").Dict? { StepNullsIff(s, checks, rule); }
    }
  }

  lemma SchemasIff(w: Workflow, checks: Checks, rule: CheckSpec)
    ensures rule in FlatMap(w.steps, SchemaRules(checks)) <==>
      ChecksColumn(w, rule) || ChecksUnique(w, rule) || ChecksStepNulls(w, rule)
  {
    FlatMapMember(w.steps, SchemaRules(checks), rule);
    forall s: WorkflowStep
      ensures rule in SchemaRules(checks)(s) <==> StepColumn(s, rule) || StepUnique(s, rule) || StepNulls(s, rule)
    {
      SchemaIff(s, checks, rule);
    }
  }

  lemma AcceptanceIff(t: Terms, rule: CheckSpec)
    ensures rule in AcceptanceRules(t) <==> ChecksAcceptance(t, rule)
  {
    if i :| AcceptanceAt(t, i, rule) { assert AcceptanceRules(t)[i] == rule; }
    if rule in AcceptanceRules(t) {
      var i :| 0 <= i < |AcceptanceRules(t)| && AcceptanceRules(t)[i] == rule;
      assert AcceptanceAt(t, i, rule);
    }
  }

  /** The manifest of a contract and a workflow consists of exactly these rules: a null check for each column for
      which the contract wants an error, a recomputation for each sum metric whose last step has one input and a
      plain column, a cardinality rule for each join, and for each schema step its required columns, its unique keys
      and its null rates, and the contract's acceptance tests. */
  lemma ManifestIff(t: Terms, w: Workflow, checks: Checks, rule: CheckSpec)
    ensures rule in Manifest(t, w, checks) <==>
      || ChecksContractNulls(t, rule) || ChecksSum(t, w, rule) || ChecksJoin(w, rule)
      || ChecksColumn(w, rule) || ChecksUnique(w, rule) || ChecksStepNulls(w, rule)
      || ChecksAcceptance(t, rule)
  {
    ContractNullsIff(t, rule);
    SumsIff(t, w, rule);
    JoinsIff(w, rule);
    SchemasIff(w, checks, rule);
    AcceptanceIff(t, rule);
  }

  /** The rule checks the nulls of `column` at the contract's stage, on its behalf. */
  ghost predicate ContractNulls(rule: CheckSpec, column: string, maxRate: Value) {
    && rule.requirementRef == Some(column) && rule.stage == "contract" && rule.checkFunction == Some("check_null_rate")
    && rule.checkArgs == map["column" := Str(column), "max_rate" := maxRate]
  }

  /** In particular, the manifest checks at the contract's stage the nulls of exactly the columns for which the contract
      wants an error, and none is tolerated. */
  lemma ContractColumnsChecked(t: Terms, w: Workflow, checks: Checks, column: string, maxRate: Value)
    ensures (exists rule :: rule in Manifest(t, w, checks) && ContractNulls(rule, column, maxRate)) <==>
            (column, "error") in t.nullPolicy && maxRate == Num(0.0)
  {
    if (column, "error") in t.nullPolicy {
      ManifestIff(t, w, checks, ContractNullCheck(column));
      assert ContractNulls(ContractNullCheck(column), column, Num(0.0));
    }
    if rule :| rule in Manifest(t, w, checks) && ContractNulls(rule, column, maxRate) {
      ManifestIff(t, w, checks, rule);
      OtherNullChecks(t, w, rule);
      var c :| (c, "error") in t.nullPolicy && rule == ContractNullCheck(c);
      assert rule.checkArgs["max_rate"] == Num(0.0);
    }
  }

  /** A null check that names a requirement comes from the contract. */
  lemma OtherNullChecks(t: Terms, w: Workflow, rule: CheckSpec)
    requires rule.requirementRef.Some? && rule.checkFunction == Some("check_null_rate")
    ensures !ChecksSum(t, w, rule) && !ChecksJoin(w, rule) && !ChecksColumn(w, rule) && !ChecksUnique(w, rule)
    ensures !ChecksStepNulls(w, rule) && !ChecksAcceptance(t, rule)
  {
  }
}
