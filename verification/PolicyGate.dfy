/** The policy and approval gate: which approvals a workflow needs, and what can never be approved. */
module PolicyGate {
  import opened Values
  import opened Seqs
  import opened Ids
  import opened Dsl
  import opened Contract

  datatype Verdict = PROCEED | BLOCKED

  datatype RiskLevel = LOW | MEDIUM | HIGH | CRITICAL

  datatype Blocker = Prohibited(name: string) | NotGranted(name: string)

  datatype PolicyDecision = PolicyDecision(
    verdict: Verdict, risk: RiskLevel, required: seq<string>, blockers: seq<Blocker>)

  /** The approvals, side effects and prohibitions of a contract, all empty without one. */
  function Approvals(c: Option<Terms>): set<string> { if c.Some? then Elements(c.value.requiredApprovals) else {} }
  function SideEffects(c: Option<Terms>): set<string> { if c.Some? then Elements(c.value.sideEffects) else {} }
  function Prohibitions(c: Option<Terms>): set<string> { if c.Some? then Elements(c.value.prohibitedActions) else {} }

  function Operations(steps: seq<WorkflowStep>): set<string> {
    set s | s in steps :: s.operationId
  }

  /** Every name the workflow and the contract bring before the gate. */
  function GateNames(w: Workflow, c: Option<Terms>): set<string> {
    Approvals(c) + SideEffects(c) + Elements(w.approvalGates) + Operations(w.steps)
  }

  function Required(w: Workflow, c: Option<Terms>, gated: set<string>): set<string> {
    (Operations(w.steps) * gated) + Approvals(c) + SideEffects(c) + Elements(w.approvalGates)
  }

  function ProhibitedBlockers(names: seq<string>): seq<Blocker> {
    seq(|names|, i requires 0 <= i < |names| => Prohibited(names[i]))
  }

  function MissingBlockers(names: seq<string>): seq<Blocker> {
    seq(|names|, i requires 0 <= i < |names| => NotGranted(names[i]))
  }

  method GatedOperations(steps: seq<WorkflowStep>, gated: set<string>) returns (required: set<string>)
    ensures required == Operations(steps) * gated
  {
    required := {};
    for i := 0 to |steps|
      invariant required == Operations(steps[..i]) * gated
    {
      assert steps[..i + 1] == steps[..i] + [steps[i]];
      assert Operations(steps[..i + 1]) == Operations(steps[..i]) + {steps[i].operationId};
      if steps[i].operationId in gated {
        required := required + {steps[i].operationId};
      }
    }
    assert steps[..|steps|] == steps;
  }

  method Report(hits: seq<string>, missing: seq<string>) returns (blockers: seq<Blocker>)
    ensures blockers == ProhibitedBlockers(hits) + MissingBlockers(missing)
  {
    blockers := [];
    for i := 0 to |hits|
      invariant blockers == ProhibitedBlockers(hits[..i])
    {
      blockers := blockers + [Prohibited(hits[i])];
    }
    assert hits[..|hits|] == hits;
    for i := 0 to |missing|
      invariant blockers == ProhibitedBlockers(hits) + MissingBlockers(missing[..i])
    {
      blockers := blockers + [NotGranted(missing[i])];
    }
    assert missing[..|missing|] == missing;
  }

  method Evaluate(w: Workflow, c: Option<Terms>, gated: set<string>, granted: set<string>) returns (d: PolicyDecision)
    ensures d == Evaluated(w, c, gated, granted)
  {
    var hits := SortedSeq(Prohibitions(c) * GateNames(w, c));
    var required := GatedOperations(w.steps, gated);
    required := required + Approvals(c);
    required := required + SideEffects(c);
    required := required + Elements(w.approvalGates);
    var missing := SortedSeq(required - granted);
    var blockers := Report(hits, missing);
    var risk := if hits != [] then CRITICAL else if required != {} then HIGH else if SideEffects(c) != {} then MEDIUM
      else LOW;
    return PolicyDecision(if blockers != [] then BLOCKED else PROCEED, risk, SortedSeq(required), blockers);
  }

  function Evaluated(w: Workflow, c: Option<Terms>, gated: set<string>, granted: set<string>): PolicyDecision {
    var hits := SortedSeq(Prohibitions(c) * GateNames(w, c));
    var required := Required(w, c, gated);
    var blockers := ProhibitedBlockers(hits) + MissingBlockers(SortedSeq(required - granted));
    PolicyDecision(
      if blockers != [] then BLOCKED else PROCEED,
      if hits != [] then CRITICAL else if required != {} then HIGH else if SideEffects(c) != {} then MEDIUM else LOW,
      SortedSeq(required), blockers)
  }

  // ---- What it asks, name by name ----

  /** Some step's operation is called `name`. */
  ghost predicate Performs(w: Workflow, name: string) {
    exists s :: s in w.steps && s.operationId == name
  }

  /** `name` is an approval or a side effect that the contract declares, or a gate of the workflow. */
  ghost predicate Declares(w: Workflow, c: Option<Terms>, name: string) {
    || name in w.approvalGates
    || (c.Some? && (name in c.value.requiredApprovals || name in c.value.sideEffects))
  }

  /** `name` has to be approved: an operation on the approval list that some step performs, or a declared name. */
  ghost predicate Asks(w: Workflow, c: Option<Terms>, gated: set<string>, name: string) {
    (name in gated && Performs(w, name)) || Declares(w, c, name)
  }

  /** `name` is prohibited, and performed or declared all the same. */
  ghost predicate Forbidden(w: Workflow, c: Option<Terms>, name: string) {
    c.Some? && name in c.value.prohibitedActions && (Performs(w, name) || Declares(w, c, name))
  }

  ghost predicate AllGranted(w: Workflow, c: Option<Terms>, gated: set<string>, granted: set<string>) {
    && (forall s :: s in w.steps && s.operationId in gated ==> s.operationId in granted)
    && (forall name :: name in w.approvalGates ==> name in granted)
    && (c.Some? ==> forall name :: name in c.value.requiredApprovals ==> name in granted)
    && (c.Some? ==> forall name :: name in c.value.sideEffects ==> name in granted)
  }

  ghost predicate NothingForbidden(w: Workflow, c: Option<Terms>) {
    c.Some? ==> forall name :: name in c.value.prohibitedActions ==>
      && (forall s :: s in w.steps ==> s.operationId != name)
      && name !in w.approvalGates && name !in c.value.requiredApprovals && name !in c.value.sideEffects
  }

  lemma RequiredIff(w: Workflow, c: Option<Terms>, gated: set<string>, name: string)
    ensures name in Required(w, c, gated) <==> Asks(w, c, gated, name)
    ensures name in GateNames(w, c) <==> Performs(w, name) || Declares(w, c, name)
    ensures name in Prohibitions(c) * GateNames(w, c) <==> Forbidden(w, c, name)
  {
  }

  lemma GrantedIff(w: Workflow, c: Option<Terms>, gated: set<string>, granted: set<string>)
    ensures Required(w, c, gated) <= granted <==> AllGranted(w, c, gated, granted)
    ensures Prohibitions(c) !! GateNames(w, c) <==> NothingForbidden(w, c)
  {
    forall name { RequiredIff(w, c, gated, name); }
    if AllGranted(w, c, gated, granted) {
      forall name | name in Required(w, c, gated) ensures name in granted { assert Asks(w, c, gated, name); }
    }
    if Required(w, c, gated) <= granted {
      forall s | s in w.steps && s.operationId in gated ensures s.operationId in granted {
        assert Asks(w, c, gated, s.operationId);
      }
      forall name | Declares(w, c, name) ensures name in granted { assert Asks(w, c, gated, name); }
    }
    if NothingForbidden(w, c) && c.Some? {
      forall name | name in Prohibitions(c) ensures name !in GateNames(w, c) {}
    }
    if Prohibitions(c) !! GateNames(w, c) && c.Some? {
      forall name | name in c.value.prohibitedActions ensures !Performs(w, name) && !Declares(w, c, name) {
        assert name in Prohibitions(c);
      }
    }
  }

  /** The gate lets a workflow pass exactly when every operation of a step that is on the approval list, every gate
      of the workflow, and every approval and side effect of the contract is granted, and none of the contract's
      prohibited actions is an operation of a step, a gate, an approval or a side effect. */
  lemma ProceedsIff(w: Workflow, c: Option<Terms>, gated: set<string>, granted: set<string>)
    ensures Evaluated(w, c, gated, granted).verdict == PROCEED <==>
      AllGranted(w, c, gated, granted) && NothingForbidden(w, c)
  {
    NoBlockersIff(Prohibitions(c), GateNames(w, c), Required(w, c, gated), granted);
    GrantedIff(w, c, gated, granted);
  }

  /** The approvals it lists are exactly the names asked for, once each and sorted. */
  lemma ListsWhatItAsks(w: Workflow, c: Option<Terms>, gated: set<string>, granted: set<string>)
    ensures var required := Evaluated(w, c, gated, granted).required;
      && StrictlySorted(required) && Distinct(required)
      && forall name :: name in required <==> Asks(w, c, gated, name)
  {
    forall name { RequiredIff(w, c, gated, name); }
    SortedHasNoDuplicates(SortedSeq(Required(w, c, gated)));
  }

  /** Its blockers are exactly the forbidden names and the names asked for but not granted. */
  lemma BlocksFor(w: Workflow, c: Option<Terms>, gated: set<string>, granted: set<string>, name: string)
    ensures Prohibited(name) in Evaluated(w, c, gated, granted).blockers <==> Forbidden(w, c, name)
    ensures NotGranted(name) in Evaluated(w, c, gated, granted).blockers <==>
            Asks(w, c, gated, name) && name !in granted
  {
    RequiredIff(w, c, gated, name);
    BlockersName(SortedSeq(Prohibitions(c) * GateNames(w, c)), SortedSeq(Required(w, c, gated) - granted), name);
  }

  lemma BlockersName(hits: seq<string>, missing: seq<string>, name: string)
    ensures Prohibited(name) in ProhibitedBlockers(hits) + MissingBlockers(missing) <==> name in hits
    ensures NotGranted(name) in ProhibitedBlockers(hits) + MissingBlockers(missing) <==> name in missing
  {
    var a, b := ProhibitedBlockers(hits), MissingBlockers(missing);
    if name in hits {
      var i :| 0 <= i < |hits| && hits[i] == name;
      assert a[i] == Prohibited(name);
    }
    if name in missing {
      var i :| 0 <= i < |missing| && missing[i] == name;
      assert b[i] == NotGranted(name);
    }
  }

  /** A forbidden name makes the risk CRITICAL, else a name asked for HIGH, else it is LOW. It is never MEDIUM: a side
      effect, which was to be MEDIUM, is asked for itself. */
  lemma RiskIs(w: Workflow, c: Option<Terms>, gated: set<string>, granted: set<string>)
    ensures var risk := Evaluated(w, c, gated, granted).risk;
      && (risk == CRITICAL <==> exists name :: Forbidden(w, c, name))
      && (risk == HIGH <==> (exists name :: Asks(w, c, gated, name)) && !exists name :: Forbidden(w, c, name))
      && risk != MEDIUM
  {
    forall name { RequiredIff(w, c, gated, name); }
    var hits, required := Prohibitions(c) * GateNames(w, c), Required(w, c, gated);
    assert SortedSeq(hits) == [] <==> hits == {} by { assert |SortedSeq(hits)| == |hits|; }
    if hits != {} {
      var name :| name in hits;
      assert Forbidden(w, c, name);
    }
    if required != {} {
      var name :| name in required;
      assert Asks(w, c, gated, name);
    }
    assert SideEffects(c) <= required;
  }

  lemma NoBlockersIff(prohibited: set<string>, names: set<string>, required: set<string>, granted: set<string>)
    ensures ProhibitedBlockers(SortedSeq(prohibited * names)) + MissingBlockers(SortedSeq(required - granted)) == []
            <==>
            required <= granted && prohibited !! names
  {
    BlockersEmpty(SortedSeq(prohibited * names), SortedSeq(required - granted));
    NoneShared(prohibited, names);
    NoneMissing(required, granted);
  }

  lemma NoneShared(a: set<string>, b: set<string>)
    ensures SortedSeq(a * b) == [] <==> a !! b
  {
    assert |SortedSeq(a * b)| == |a * b|;
    if a * b == {} {
      forall x | x in a ensures x !in b { assert x !in a * b; }
    }
  }

  lemma NoneMissing(a: set<string>, b: set<string>)
    ensures SortedSeq(a - b) == [] <==> a <= b
  {
    assert |SortedSeq(a - b)| == |a - b|;
    EmptyDifference(a, b);
  }

  lemma BlockersEmpty(hits: seq<string>, missing: seq<string>)
    ensures ProhibitedBlockers(hits) + MissingBlockers(missing) == [] <==> hits == [] && missing == []
  {
    assert |ProhibitedBlockers(hits) + MissingBlockers(missing)| == |hits| + |missing|;
  }

  lemma EmptyDifference<T>(a: set<T>, b: set<T>)
    ensures a - b == {} <==> a <= b
  {
    if a - b == {} {
      forall x | x in a ensures x in b { assert x !in a - b; }
    }
  }

  /** Granting more never blocks what passed, and no grant lifts a prohibition. */
  lemma MoreGrantsNeverBlock(w: Workflow, c: Option<Terms>, gated: set<string>, granted: set<string>, more: set<string>)
    ensures Evaluated(w, c, gated, granted).verdict == PROCEED ==>
            Evaluated(w, c, gated, granted + more).verdict == PROCEED
    ensures !NothingForbidden(w, c) ==> Evaluated(w, c, gated, granted + more).verdict == BLOCKED
  {
    ProceedsIff(w, c, gated, granted);
    ProceedsIff(w, c, gated, granted + more);
  }
}
