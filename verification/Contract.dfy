/** The requirement contract and its readiness rule: nothing ambiguous, missing or unresolved may be planned. */
module Contract {
  import opened Values

  datatype DefinitionStatus = EXPLICIT | GOVERNED | INFERRED_UNIQUE | AMBIGUOUS | MISSING

  predicate IsBlocking(s: DefinitionStatus) {
    s.AMBIGUOUS? || s.MISSING?
  }

  datatype RequirementStatus = Draft | Approved | Blocked

  datatype ContractMetric = ContractMetric(name: string, formula: Option<string>, definitionStatus: DefinitionStatus)

  /** What the contract says; none of it changes when it is validated. */
  datatype Terms = Terms(
    sources: seq<string>,
    metrics: seq<ContractMetric>,
    nullPolicy: seq<(string, string)>,
    tolerances: map<string, real>,
    sideEffects: seq<string>,
    requiredApprovals: seq<string>,
    prohibitedActions: seq<string>,
    acceptanceTests: seq<string>,
    clarifications: seq<string>)

  datatype Contract = Contract(terms: Terms, status: RequirementStatus, readyForPlanning: bool)

  /** Some metric is ambiguous or missing, a question is open, or there is no source. */
  ghost predicate Undefined(t: Terms) {
    || (exists m :: m in t.metrics && (m.definitionStatus == AMBIGUOUS || m.definitionStatus == MISSING))
    || t.clarifications != [] || t.sources == []
  }

  /** Ready exactly when approved and nothing blocks. */
  ghost predicate Validated(c: Contract) {
    && (Undefined(c.terms) ==> c.status == Blocked)
    && (c.readyForPlanning <==> c.status == Approved)
  }

  class RequirementContract {
    const terms: Terms
    var status: RequirementStatus
    var readyForPlanning: bool

    function Snapshot(): Contract
      reads this
    {
      Contract(terms, status, readyForPlanning)
    }

    /** Constructing a contract validates it, whatever flags the caller passed in. */
    constructor (terms: Terms, status: RequirementStatus, readyForPlanning: bool)
      ensures this.terms == terms && Validated(Snapshot())
      ensures this.status == if Undefined(terms) then Blocked else status
    {
      this.terms := terms;
      this.status := status;
      this.readyForPlanning := readyForPlanning;
      new;
      EnforceNoGuessing();
    }

    method EnforceNoGuessing()
      modifies this
      ensures status == if Undefined(terms) then Blocked else old(status)
      ensures readyForPlanning == (status == Approved)
      ensures Validated(Snapshot())
    {
      var blockingMetrics := set m | m in terms.metrics && IsBlocking(m.definitionStatus);
      var isBlocked := blockingMetrics != {} || |terms.clarifications| > 0 || |terms.sources| == 0;
      assert isBlocked == Undefined(terms) by {
        if m :| m in terms.metrics && IsBlocking(m.definitionStatus) { assert m in blockingMetrics; }
      }
      if isBlocked {
        status := Blocked;
        readyForPlanning := false;
      } else if status == Blocked {
        readyForPlanning := false;
      } else {
        readyForPlanning := status == Approved;
      }
    }
  }

  // ---- Reasons ----

  datatype Reason = MetricUndefined(name: string) | Unresolved(question: string) | NoSources

  function MetricReasons(metrics: seq<ContractMetric>): seq<Reason> {
    if metrics == [] then []
    else
      (if IsBlocking(metrics[0].definitionStatus) then [MetricUndefined(metrics[0].name)] else [])
      + MetricReasons(metrics[1..])
  }

  function BlockingReasons(t: Terms): seq<Reason> {
    MetricReasons(t.metrics)
    + seq(|t.clarifications|, i requires 0 <= i < |t.clarifications| => Unresolved(t.clarifications[i]))
    + (if t.sources == [] then [NoSources] else [])
  }

  lemma {:induction false} MetricReasonsEmpty(metrics: seq<ContractMetric>)
    ensures MetricReasons(metrics) == [] <==> forall m :: m in metrics ==> !IsBlocking(m.definitionStatus)
  {
    if metrics != [] {
      MetricReasonsEmpty(metrics[1..]);
      assert metrics == [metrics[0]] + metrics[1..];
    }
  }

  /** A contract is blocked exactly when it can say why. */
  lemma ReasonsIffBlocked(t: Terms)
    ensures BlockingReasons(t) != [] <==> Undefined(t)
  {
    MetricReasonsEmpty(t.metrics);
    assert |BlockingReasons(t)| == |MetricReasons(t.metrics)| + |t.clarifications| + (if t.sources == [] then 1 else 0);
    if Undefined(t) && t.clarifications == [] && t.sources != [] {
      var m :| m in t.metrics && IsBlocking(m.definitionStatus);
      assert MetricReasons(t.metrics) != [];
    }
  }

  /** The reasons are exactly the metrics whose definition is ambiguous or missing, the open questions, and a missing
      source. */
  lemma ReasonsAre(t: Terms, name: string)
    ensures MetricUndefined(name) in BlockingReasons(t) <==>
            exists m :: m in t.metrics && m.name == name
              && (m.definitionStatus == AMBIGUOUS || m.definitionStatus == MISSING)
    ensures Unresolved(name) in BlockingReasons(t) <==> name in t.clarifications
    ensures NoSources in BlockingReasons(t) <==> t.sources == []
  {
    MetricReasonsAre(t.metrics, name);
    var questions := seq(|t.clarifications|, i requires 0 <= i < |t.clarifications| => Unresolved(t.clarifications[i]));
    if name in t.clarifications {
      var i :| 0 <= i < |t.clarifications| && t.clarifications[i] == name;
      assert questions[i] == Unresolved(name);
    }
  }

  lemma {:induction false} MetricReasonsAre(metrics: seq<ContractMetric>, name: string)
    ensures forall r :: r in MetricReasons(metrics) ==> r.MetricUndefined?
    ensures MetricUndefined(name) in MetricReasons(metrics) <==>
            exists m :: m in metrics && m.name == name
              && (m.definitionStatus == AMBIGUOUS || m.definitionStatus == MISSING)
  {
    if metrics != [] {
      MetricReasonsAre(metrics[1..], name);
      assert metrics == [metrics[0]] + metrics[1..];
    }
  }

  // ---- Formulas ----

  predicate IsSpace(c: char) {
    c == ' ' || c == '\t' || c == '\n' || c == '\r' || c == '\U{000B}' || c == '\U{000C}'
  }

  function StripLeft(s: string): string {
    if s != "" && IsSpace(s[0]) then StripLeft(s[1..]) else s
  }

  /** `(formula or "").strip().lower().startswith("sum(")`. */
  predicate IsSumFormula(formula: Option<string>) {
    match formula
    case None => false
    case Some(text) =>
      var s := StripLeft(text);
      && |s| >= 4
      && (s[0] == 's' || s[0] == 'S') && (s[1] == 'u' || s[1] == 'U') && (s[2] == 'm' || s[2] == 'M') && s[3] == '('
  }

  ghost predicate SpacesUpTo(text: string, i: nat) {
    i <= |text| && forall k :: 0 <= k < i ==> IsSpace(text[k])
  }

  ghost predicate SumAt(text: string, i: nat) {
    && i + 4 <= |text|
    && text[i] in {'s', 'S'} && text[i + 1] in {'u', 'U'} && text[i + 2] in {'m', 'M'} && text[i + 3] == '('
  }

  lemma {:induction false} StripLeftIs(text: string) returns (i: nat)
    ensures SpacesUpTo(text, i) && StripLeft(text) == text[i..] && (i < |text| ==> !IsSpace(text[i]))
  {
    i := 0;
    if text != "" && IsSpace(text[0]) {
      var n := StripLeftIs(text[1..]);
      i := n + 1;
      assert text[1..][n..] == text[i..];
    }
  }

  /** A formula is a sum exactly if "sum(", in letters of any case, stands in it after white space only. */
  lemma IsSumFormulaIff(text: string)
    ensures IsSumFormula(Some(text)) <==> exists i: nat :: SpacesUpTo(text, i) && SumAt(text, i)
    ensures !IsSumFormula(None)
  {
    var i := StripLeftIs(text);
    if IsSumFormula(Some(text)) { assert SpacesUpTo(text, i) && SumAt(text, i); }
    if n: nat :| SpacesUpTo(text, n) && SumAt(text, n) {
      assert !IsSpace(text[n]);
      assert n == i;
    }
  }
}
