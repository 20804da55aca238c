/** What has been checked of the stored frames whenever a run is RELEASED. */
module ReleasedChecks {
  import opened Values
  import opened Frames
  import opened Dsl
  import opened StateMachine
  import opened Protocol
  import opened CheckedRules
  import opened Lifecycle
  import Contract
  import Reconciliation
  import Validation
  import Assessment

  /** The check function was run on the stored frame of `node`, and held. */
  ghost predicate HeldOn(x: Setting, d: Durable, node: string, check: string, args: Params) {
    Path(node) in d.files && x.checks.run(check, d.files[Path(node)], args) == Some(true)
  }

  /** Where the contract's own null checks are run: the last step in the order of execution, unless a step is called
      "contract". */
  ghost predicate IsContractStage(j: Job, node: string) {
    if "contract" in IdSet(j.w) then node == "contract" else j.steps != [] && node == j.steps[|j.steps| - 1].id
  }

  /** `column` was found to hold no null at the contract's stage. */
  ghost predicate FreeOfNulls(x: Setting, d: Durable, column: string) {
    exists node ::
      && IsContractStage(x.j, node)
      && HeldOn(x, d, node, "check_null_rate", map["column" := Str(column), "max_rate" := Num(0.0)])
  }

  ghost predicate ContractNullsHeld(x: Setting, d: Durable, t: Contract.Terms) {
    forall c :: (c, "error") in t.nullPolicy ==> FreeOfNulls(x, d, c)
  }

  ghost predicate SumsHeld(x: Setting, d: Durable, t: Contract.Terms) {
    forall m, stage, column, tolerance ::
      m in t.metrics && SumsUp(m, x.j.w.steps, stage, column) && Tolerates(t, m.name, tolerance) ==>
        HeldOn(x, d, stage, "check_dual_computation",
               map["column" := Str(column), "agg" := Str("sum"), "tolerance" := Num(tolerance)])
  }

  lemma RuleHeld(x: Setting, contract: Contract.Contract, d: Durable, rule: Validation.CheckSpec)
    requires Sound(x, contract, d) && rule.checkFunction.Some?
    requires rule in Validation.Manifest(contract.terms, x.j.w, x.checks)
    ensures Validation.RuleHolds(rule, x.j.w, d.files, x.checks)
  {
  }

  lemma HeldOnNode(x: Setting, contract: Contract.Contract, d: Durable, rule: Validation.CheckSpec)
    requires Sound(x, contract, d) && rule.checkFunction.Some? && rule.stage in Nodes(x.j.w)
    requires rule in Validation.Manifest(contract.terms, x.j.w, x.checks)
    ensures HeldOn(x, d, rule.stage, rule.checkFunction.value, rule.checkArgs)
  {
    RuleHeld(x, contract, d, rule);
  }

  lemma SummedIsNode(w: Workflow, m: Contract.ContractMetric, stage: string, column: string)
    requires RefsKnown(w) && SumsUp(m, w.steps, stage, column)
    ensures stage in Nodes(w)
  {
    var i :| Reconciliation.LastNaming(w.steps, i, m.name) && w.steps[i].inputs == [stage];
    var s := w.steps[i];
    assert s in w.steps && stage in s.inputs;
  }

  lemma LastStepIsTerminal(j: Job)
    requires ExecutionOrder(j.w) == Ok(StepIds(j.steps))
    ensures Validation.Terminal(j.w) == if j.steps == [] then None else Some(j.steps[|j.steps| - 1].id)
  {
    Validation.TerminalOf(j.w, StepIds(j.steps));
  }

  lemma ContractStage(j: Job, files: map<string, Frame>)
    requires JobOk(j) && Validation.StageFrame(j.w, files, "contract").Some?
    ensures exists node ::
      && IsContractStage(j, node) && Path(node) in files
      && Validation.StageFrame(j.w, files, "contract") == Some(files[Path(node)])
  {
    var node := Validation.StageNode(j.w, "contract").value;
    if "contract" in SourceRefs(j.w) {
      Assessment.SourceStage(j.w, "contract");
    } else if "contract" !in IdSet(j.w) {
      LastStepIsTerminal(j);
    }
    assert IsContractStage(j, node);
  }

  lemma ContractNullHeld(x: Setting, contract: Contract.Contract, d: Durable, c: string)
    requires JobOk(x.j) && Sound(x, contract, d) && (c, "error") in contract.terms.nullPolicy
    ensures FreeOfNulls(x, d, c)
  {
    var rule := ContractNullCheck(c);
    ManifestIff(contract.terms, x.j.w, x.checks, rule);
    RuleHeld(x, contract, d, rule);
    ContractStage(x.j, d.files);
  }

  lemma SumHeld(x: Setting, contract: Contract.Contract, d: Durable, m: Contract.ContractMetric, stage: string,
                column: string, tolerance: real)
    requires JobOk(x.j) && Sound(x, contract, d) && m in contract.terms.metrics
    requires SumsUp(m, x.j.w.steps, stage, column) && Tolerates(contract.terms, m.name, tolerance)
    ensures HeldOn(x, d, stage, "check_dual_computation",
                   map["column" := Str(column), "agg" := Str("sum"), "tolerance" := Num(tolerance)])
  {
    var rule := SumCheck(m.name, stage, column, tolerance);
    ManifestIff(contract.terms, x.j.w, x.checks, rule);
    SummedIsNode(x.j.w, m, stage, column);
    HeldOnNode(x, contract, d, rule);
  }

  /** Whenever a run is RELEASED there is one approved contract it was released on, and: every column for which this
      contract wants an error was found to hold no null in the frame of the last step, and every sum metric that a
      step with one input computes from a plain column was recomputed on that input within the contract's tolerance. */
  lemma ReleasedRunsMeetContract(x: Setting, h: seq<Life>, i: nat) returns (contract: Contract.Contract)
    requires JobOk(x.j) && IsLife(x, h) && i < |h| && h[i].Live? && h[i].c.d.state == RELEASED
    ensures Sound(x, contract, h[i].c.d)
    ensures ContractNullsHeld(x, h[i].c.d, contract.terms) && SumsHeld(x, h[i].c.d, contract.terms)
  {
    var d := h[i].c.d;
    var c0 := ReleasedIsDecided(x, h, i);
    contract := DecidedIsSound(x, c0, h[i].c);
    AllNullsHeld(x, contract, d);
    AllSumsHeld(x, contract, d);
  }

  lemma AllNullsHeld(x: Setting, contract: Contract.Contract, d: Durable)
    requires JobOk(x.j) && Sound(x, contract, d)
    ensures ContractNullsHeld(x, d, contract.terms)
  {
    forall c | (c, "error") in contract.terms.nullPolicy ensures FreeOfNulls(x, d, c) {
      ContractNullHeld(x, contract, d, c);
    }
  }

  lemma AllSumsHeld(x: Setting, contract: Contract.Contract, d: Durable)
    requires JobOk(x.j) && Sound(x, contract, d)
    ensures SumsHeld(x, d, contract.terms)
  {
    forall m, stage, column, tolerance |
      m in contract.terms.metrics && SumsUp(m, x.j.w.steps, stage, column)
        && Tolerates(contract.terms, m.name, tolerance)
      ensures HeldOn(x, d, stage, "check_dual_computation",
                     map["column" := Str(column), "agg" := Str("sum"), "tolerance" := Num(tolerance)])
    {
      SumHeld(x, contract, d, m, stage, column, tolerance);
    }
  }

  lemma UniqueHeld(x: Setting, contract: Contract.Contract, d: Durable, s: WorkflowStep, keys: seq<string>)
    requires JobOk(x.j) && Sound(x, contract, d) && s in x.j.w.steps && WantsUnique(s, keys)
    ensures HeldOn(x, d, s.id, "check_no_duplicate_rows", OnKeys(keys))
  {
    var rule := UniqueCheck(s, keys);
    assert StepUnique(s, rule) && ChecksUnique(x.j.w, rule);
    ManifestIff(contract.terms, x.j.w, x.checks, rule);
    HeldOnNode(x, contract, d, rule);
  }

  /** In a RELEASED run the rows of every schema step were found to be unique on exactly the keys it asks for. */
  lemma ReleasedRunsAreUnique(x: Setting, h: seq<Life>, i: nat, s: WorkflowStep, keys: seq<string>)
    requires JobOk(x.j) && IsLife(x, h) && i < |h| && h[i].Live? && h[i].c.d.state == RELEASED
    requires s in x.j.w.steps && WantsUnique(s, keys)
    ensures HeldOn(x, h[i].c.d, s.id, "check_no_duplicate_rows", OnKeys(keys))
  {
    var c0 := ReleasedIsDecided(x, h, i);
    var contract := DecidedIsSound(x, c0, h[i].c);
    UniqueHeld(x, contract, h[i].c.d, s, keys);
  }
}
