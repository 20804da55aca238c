/** Applying approved cleaning rules: new steps on top of the sources they clean, and every original
    step rewired to the cleaned output. */
module Cleaning {
  import opened Values
  import opened Frames
  import opened Ids
  import opened Graph
  import opened Dsl
  import opened Denotation

  const TEXT_CLEAN := "text_clean:"
  const DEDUP := "dedup:"

  /** The step an approved rule stands for: its source, and everything but its input. */
  datatype RuleStep = RuleStep(ruleId: string, ref: string, id: string, operation: string, params: Params)

  type Rule = r: RuleStep | !(SOURCE_PREFIX <= r.id)
    witness RuleStep("", "", "step", "", map[])

  // ---- Reading a rule id ----

  /** `s.partition(".")`: what precedes and what follows the first dot. */
  function Partition(s: string): (string, string) {
    if s == "" then ("", "")
    else if s[0] == '.' then ("", s[1..])
    else
      var (before, after) := Partition(s[1..]);
      ([s[0]] + before, after)
  }

  function TextCleanRule(ruleId: string, dataset: string, column: string): Rule {
    var id := "cleaning_text_clean_" + dataset + "_" + column;
    assert id[0] == 'c' && SOURCE_PREFIX[0] == 's';
    RuleStep(ruleId, SourceRef(dataset), id, "text_clean",
             map["normalize" := List([Dict(map["column" := Str(column), "steps" := TextList(["trim", "lower"])])]),
                 "allow_identity_collapse" := Bool(true)])
  }

  function DedupRule(ruleId: string, dataset: string, keys: seq<string>): Rule {
    var id := "cleaning_dedup_" + dataset;
    assert id[0] == 'c' && SOURCE_PREFIX[0] == 's';
    RuleStep(ruleId, SourceRef(dataset), id, "deduplicate", map["keys" := TextList(keys), "keep" := Str("first")])
  }

  function ParseRule(ruleId: string, profiles: map<string, seq<string>>): Result<Rule, PlatformError> {
    if TEXT_CLEAN <= ruleId then
      var (dataset, column) := Partition(ruleId[|TEXT_CLEAN|..]);
      Ok(TextCleanRule(ruleId, dataset, column))
    else if DEDUP <= ruleId then
      var dataset := ruleId[|DEDUP|..];
      if dataset in profiles then Ok(DedupRule(ruleId, dataset, profiles[dataset]))
      else Err(PlatformError(VALIDATION_FAIL, [ruleId]))
    else Err(PlatformError(NO_SAFE_OPERATION, [ruleId]))
  }

  // ---- Building the steps ----

  function CleaningStep(r: Rule, input: string): WorkflowStep {
    Step(r.id, r.operation, "1.0", [input], r.params, STOP, [r.ruleId])
  }

  type Rewrite = map<string, string>

  /** `rewrite.get(ref, ref)`. */
  function Redirect(rw: Rewrite, ref: string): string {
    if ref in rw then rw[ref] else ref
  }

  function RewriteOf(rules: seq<Rule>): Rewrite {
    if rules == [] then map[]
    else
      var last := rules[|rules| - 1];
      RewriteOf(rules[..|rules| - 1])[last.ref := last.id]
  }

  /** Each rule's step reads what the rules before it made of its source. */
  function NewSteps(rules: seq<Rule>): (steps: seq<WorkflowStep>)
    ensures |steps| == |rules|
  {
    if rules == [] then []
    else
      var init, last := rules[..|rules| - 1], rules[|rules| - 1];
      NewSteps(init) + [CleaningStep(last, Redirect(RewriteOf(init), last.ref))]
  }

  function Rewired(s: WorkflowStep, rw: Rewrite): WorkflowStep {
    s.(inputs := seq(|s.inputs|, i requires 0 <= i < |s.inputs| => Redirect(rw, s.inputs[i])))
  }

  function RewiredSteps(steps: seq<WorkflowStep>, rw: Rewrite): seq<WorkflowStep> {
    seq(|steps|, i requires 0 <= i < |steps| => Rewired(steps[i], rw))
  }

  /** The rewritten workflow, before it is validated. */
  function Rewritten(w: Workflow, rules: seq<Rule>): Workflow {
    w.(steps := NewSteps(rules) + RewiredSteps(w.steps, RewriteOf(rules)))
  }

  // ---- The method ----

  function Unproposed(approved: seq<string>, proposed: seq<string>): seq<string> {
    if approved == [] then []
    else (if approved[0] in proposed then [] else [approved[0]]) + Unproposed(approved[1..], proposed)
  }

  /** The rules of the first approved ids, or the first that cannot be applied. */
  function ParseAll(approved: seq<string>, profiles: map<string, seq<string>>): (r: Result<seq<Rule>, PlatformError>)
    ensures r.Ok? ==> |r.value| == |approved|
  {
    if approved == [] then Ok([])
    else
      match ParseAll(approved[..|approved| - 1], profiles)
      case Err(e) => Err(e)
      case Ok(rules) =>
        match ParseRule(approved[|approved| - 1], profiles)
        case Err(e) => Err(e)
        case Ok(rule) => Ok(rules + [rule])
  }

  function Apply(w: Workflow, proposed: seq<string>, approved: seq<string>,
                 profiles: map<string, seq<string>>): Result<Workflow, PlatformError> {
    var unknown := Unproposed(approved, proposed);
    if unknown != [] then Err(PlatformError(VALIDATION_FAIL, unknown))
    else
      match ParseAll(approved, profiles)
      case Err(e) => Err(e)
      case Ok(rules) =>
        if rules == [] then Ok(w)
        else
          match ValidateDag(Rewritten(w, rules))
          case Some(e) => Err(e)
          case None => Ok(Rewritten(w, rules))
  }

  lemma {:induction false} ParsePrefixFails(approved: seq<string>, profiles: map<string, seq<string>>, n: nat)
    requires n <= |approved| && ParseAll(approved[..n], profiles).Err?
    ensures ParseAll(approved, profiles) == ParseAll(approved[..n], profiles)
  {
    if n < |approved| {
      var init := approved[..|approved| - 1];
      assert init[..n] == approved[..n];
      ParsePrefixFails(init, profiles, n);
    } else {
      assert approved[..n] == approved;
    }
  }

  lemma ParseNext(approved: seq<string>, profiles: map<string, seq<string>>, i: nat)
    requires i < |approved|
    ensures ParseAll(approved[..i + 1], profiles) ==
      match ParseAll(approved[..i], profiles)
      case Err(e) => Err(e)
      case Ok(rules) =>
        match ParseRule(approved[i], profiles)
        case Err(e) => Err(e)
        case Ok(rule) => Ok(rules + [rule])
  {
    assert approved[..i + 1][..i] == approved[..i];
  }

  /** The loop: one new step per approved rule, each on top of the last one for its source. */
  method BuildSteps(approved: seq<string>, profiles: map<string, seq<string>>)
    returns (r: Result<(seq<WorkflowStep>, Rewrite), PlatformError>)
    ensures r == match ParseAll(approved, profiles)
                 case Err(e) => Err(e)
                 case Ok(rules) => Ok((NewSteps(rules), RewriteOf(rules)))
  {
    var newSteps: seq<WorkflowStep> := [];
    var rewrite: Rewrite := map[];
    ghost var rules: seq<Rule> := [];
    for i := 0 to |approved|
      invariant ParseAll(approved[..i], profiles) == Ok(rules)
      invariant newSteps == NewSteps(rules) && rewrite == RewriteOf(rules)
    {
      var parsed := ParseRule(approved[i], profiles);
      ParseNext(approved, profiles, i);
      match parsed {
        case Err(e) =>
          ParsePrefixFails(approved, profiles, i + 1);
          return Err(e);
        case Ok(rule) =>
          newSteps := newSteps + [CleaningStep(rule, Redirect(rewrite, rule.ref))];
          rewrite := rewrite[rule.ref := rule.id];
          assert (rules + [rule])[..|rules|] == rules;
          rules := rules + [rule];
      }
    }
    assert approved[..|approved|] == approved;
    return Ok((newSteps, rewrite));
  }

  method ApplyCleaningRules(w: Workflow, proposed: seq<string>, approved: seq<string>,
                            profiles: map<string, seq<string>>)
    returns (r: Result<Workflow, PlatformError>)
    ensures r == Apply(w, proposed, approved, profiles)
  {
    var unknown := Unproposed(approved, proposed);
    if unknown != [] {
      return Err(PlatformError(VALIDATION_FAIL, unknown));
    }
    var built := BuildSteps(approved, profiles);
    match built {
      case Err(e) => return Err(e);
      case Ok((newSteps, rewrite)) =>
        if newSteps == [] {
          return Ok(w);
        }
        var result := w.(steps := newSteps + RewiredSteps(w.steps, rewrite));
        var invalid := ValidateDag(result);
        if invalid.Some? {
          return Err(invalid.value);
        }
        return Ok(result);
    }
  }

  // ---- What the rewrite means ----

  /** One cleaning operation on one value; a failed clean has no value. */
  ghost function CleanOnce(e: Engine, r: Rule, v: Option<Frame>): Option<Frame> {
    match v
    case None => None
    case Some(f) =>
      match Attempt(e, CleaningStep(r, ""), [f])
      case Done(output, _) => Some(output)
      case _ => None
  }

  /** A source after the rules for it, composed in approval order. */
  ghost function CleanedSource(e: Engine, rules: seq<Rule>, ref: string, v: Option<Frame>): Option<Frame> {
    if rules == [] then v
    else
      var last := rules[|rules| - 1];
      var before := CleanedSource(e, rules[..|rules| - 1], ref, v);
      if last.ref == ref then CleanOnce(e, last, before) else before
  }

  ghost function CleanedSources(e: Engine, w: Workflow, rules: seq<Rule>, src: Valuation): Valuation
    requires SourceRefs(w) <= src.Keys
  {
    map ref | ref in SourceRefs(w) :: CleanedSource(e, rules, ref, src[ref])
  }

  lemma CleaningStepValue(e: Engine, r: Rule, input: string, v: Valuation)
    requires input in v
    ensures StepValue(e, CleaningStep(r, input), v) == CleanOnce(e, r, v[input])
  {
    var s, t := CleaningStep(r, input), CleaningStep(r, "");
    assert s == t.(inputs := [input]);
    if v[input].Some? {
      assert InputFrames(s, v) == [v[input].value];
    }
  }

  /** After any prefix of the rules, the node a source is redirected to holds the source cleaned so far. */
  lemma {:induction false} RedirectHoldsCleaned(e: Engine, rules: seq<Rule>, n: nat, v: Valuation, ref: string,
                                                base: Option<Frame>)
    requires n <= |rules| && ref in v && v[ref] == base
    requires NewStepsSolved(e, rules, v)
    ensures Redirect(RewriteOf(rules[..n]), ref) in v
    ensures v[Redirect(RewriteOf(rules[..n]), ref)] == CleanedSource(e, rules[..n], ref, base)
  {
    if n > 0 {
      RedirectHoldsCleaned(e, rules, n - 1, v, ref, base);
      var init, last := rules[..n - 1], rules[n - 1];
      assert rules[..n][..n - 1] == init;
      if last.ref == ref {
        var s := CleaningStep(last, Redirect(RewriteOf(init), ref));
        NewStepAt(rules, n - 1);
        CleaningStepValue(e, last, Redirect(RewriteOf(init), ref), v);
      }
    }
  }

  lemma {:induction false} NewStepAt(rules: seq<Rule>, i: nat)
    requires i < |rules|
    ensures NewSteps(rules)[i] == CleaningStep(rules[i], Redirect(RewriteOf(rules[..i]), rules[i].ref))
    ensures NewSteps(rules)[i] in NewSteps(rules)
  {
    var n := |rules| - 1;
    if i < n {
      NewStepAt(rules[..n], i);
      assert rules[..n][..i] == rules[..i];
    }
  }

  lemma {:induction false} RewriteKeys(rules: seq<Rule>)
    requires forall r :: r in rules ==> SOURCE_PREFIX <= r.ref
    ensures forall k :: k in RewriteOf(rules) ==> SOURCE_PREFIX <= k && !(SOURCE_PREFIX <= RewriteOf(rules)[k])
  {
    if rules != [] {
      var last := rules[|rules| - 1];
      RewriteKeys(rules[..|rules| - 1]);
    }
  }

  lemma ReadyByIndex(s: WorkflowStep, v: Valuation)
    ensures InputsReady(s, v) <==> forall i :: 0 <= i < |s.inputs| ==> s.inputs[i] in v && v[s.inputs[i]].Some?
  {
  }

  lemma RewiredValue(e: Engine, s: WorkflowStep, rw: Rewrite, u: Valuation, v: Valuation)
    requires forall ref :: ref in s.inputs ==> ref in u && Redirect(rw, ref) in v && u[ref] == v[Redirect(rw, ref)]
    ensures StepValue(e, s, u) == StepValue(e, Rewired(s, rw), v)
  {
    var t := Rewired(s, rw);
    assert forall i :: 0 <= i < |s.inputs| ==> u[s.inputs[i]] == v[t.inputs[i]];
    ReadyByIndex(s, u);
    ReadyByIndex(t, v);
    if InputsReady(s, u) {
      assert InputFrames(s, u) == InputFrames(t, v);
    }
  }

  /** `u` gives the original workflow's sources their cleaned values and its steps what they are worth
      in the rewritten workflow. */
  ghost predicate Projection(e: Engine, w: Workflow, rules: seq<Rule>, src: Valuation, v: Valuation, u: Valuation)
    requires SourceRefs(w) <= src.Keys && IdSet(w) <= v.Keys
  {
    && u.Keys == Nodes(w)
    && (forall ref :: ref in SourceRefs(w) ==> u[ref] == CleanedSource(e, rules, ref, src[ref]))
    && (forall id :: id in IdSet(w) ==> u[id] == v[id])
  }

  lemma RewrittenMembers(w: Workflow, rules: seq<Rule>, s: WorkflowStep)
    requires s in w.steps
    ensures Rewired(s, RewriteOf(rules)) in Rewritten(w, rules).steps
  {
    var i :| 0 <= i < |w.steps| && w.steps[i] == s;
    assert RewiredSteps(w.steps, RewriteOf(rules))[i] == Rewired(s, RewriteOf(rules));
    assert Rewritten(w, rules).steps[|rules| + i] == Rewired(s, RewriteOf(rules));
  }

  /** All steps of the rewritten workflow have the values of a solution. */
  ghost predicate NewStepsSolved(e: Engine, rules: seq<Rule>, v: Valuation) {
    forall s :: s in NewSteps(rules) ==>
      (forall x :: x in s.inputs ==> x in v) && s.id in v && v[s.id] == StepValue(e, s, v)
  }

  lemma SolutionSolvesNewSteps(e: Engine, w: Workflow, rules: seq<Rule>, src: Valuation, v: Valuation)
    requires RefsKnown(Rewritten(w, rules)) && Solves(e, Rewritten(w, rules), src, v)
    ensures NewStepsSolved(e, rules, v)
  {
    var w' := Rewritten(w, rules);
    forall s | s in NewSteps(rules)
      ensures (forall x :: x in s.inputs ==> x in v) && s.id in v && v[s.id] == StepValue(e, s, v)
    {
      assert s in w'.steps;
      assert forall x :: x in s.inputs ==> x in Nodes(w');
    }
  }

  lemma ProjectedInput(e: Engine, w: Workflow, rules: seq<Rule>, src: Valuation, v: Valuation, u: Valuation,
                       ref: string)
    requires SourceRefs(w) <= src.Keys && IdSet(w) <= v.Keys && Projection(e, w, rules, src, v, u)
    requires NewStepsSolved(e, rules, v) && (forall x :: x in SourceRefs(w) ==> x in v && v[x] == src[x])
    requires (forall r :: r in rules ==> SOURCE_PREFIX <= r.ref) && ref in Nodes(w)
    ensures ref in u && Redirect(RewriteOf(rules), ref) in v && u[ref] == v[Redirect(RewriteOf(rules), ref)]
  {
    if ref in SourceRefs(w) {
      assert rules[..|rules|] == rules;
      RedirectHoldsCleaned(e, rules, |rules|, v, ref, src[ref]);
    } else {
      RewriteKeys(rules);
      StepIdsUnprefixed(w, ref);
    }
  }

  lemma StepIdsUnprefixed(w: Workflow, id: string)
    requires id in IdSet(w)
    ensures !(SOURCE_PREFIX <= id)
  {
    var t :| t in w.steps && t.id == id;
  }

  lemma ProjectionSolves(e: Engine, w: Workflow, rules: seq<Rule>, src: Valuation, v: Valuation, u: Valuation)
    requires SourceRefs(w) <= src.Keys && IdSet(w) <= v.Keys && Projection(e, w, rules, src, v, u)
    requires RefsKnown(w) && RefsKnown(Rewritten(w, rules)) && Solves(e, Rewritten(w, rules), src, v)
    requires forall r :: r in rules ==> SOURCE_PREFIX <= r.ref
    ensures Solves(e, w, CleanedSources(e, w, rules, src), u)
  {
    SolutionSolvesNewSteps(e, w, rules, src, v);
    assert SourceRefs(Rewritten(w, rules)) == SourceRefs(w);
    forall s | s in w.steps ensures u[s.id] == StepValue(e, s, u) {
      forall ref | ref in s.inputs
        ensures ref in u && Redirect(RewriteOf(rules), ref) in v && u[ref] == v[Redirect(RewriteOf(rules), ref)]
      {
        ProjectedInput(e, w, rules, src, v, u, ref);
      }
      RewiredValue(e, s, RewriteOf(rules), u, v);
      RewrittenMembers(w, rules, s);
    }
  }

  lemma {:induction false} RulesReadSources(approved: seq<string>, profiles: map<string, seq<string>>)
    requires ParseAll(approved, profiles).Ok?
    ensures forall r :: r in ParseAll(approved, profiles).value ==> SOURCE_PREFIX <= r.ref
  {
    if approved != [] { RulesReadSources(approved[..|approved| - 1], profiles); }
  }

  lemma RewrittenIds(w: Workflow, rules: seq<Rule>)
    ensures IdSet(w) <= IdSet(Rewritten(w, rules)) && SourceRefs(Rewritten(w, rules)) == SourceRefs(w)
  {
    forall id | id in IdSet(w) ensures id in IdSet(Rewritten(w, rules)) {
      var s :| s in w.steps && s.id == id;
      RewrittenMembers(w, rules, s);
    }
  }

  lemma SolutionProjects(e: Engine, w: Workflow, rules: seq<Rule>, src: Valuation, v: Valuation, cleaned: Valuation,
                         id: string)
    requires ValidDag(w) && SourceRefs(w) <= src.Keys && id in IdSet(w) && IdSet(w) <= v.Keys
    requires cleaned == CleanedSources(e, w, rules, src)
    requires RefsKnown(Rewritten(w, rules)) && (forall r :: r in rules ==> SOURCE_PREFIX <= r.ref)
    requires Solves(e, Rewritten(w, rules), src, v)
    ensures id in Denote(e, w, cleaned) && v[id] == Denote(e, w, cleaned)[id]
  {
    var u := cleaned + (map x | x in IdSet(w) :: v[x]);
    SourcesAreNotSteps(w);
    assert Projection(e, w, rules, src, v, u);
    ProjectionSolves(e, w, rules, src, v, u);
    MeaningIsUnique(e, w, cleaned, u);
  }

  lemma RewrittenMeans(e: Engine, w: Workflow, rules: seq<Rule>, src: Valuation, id: string)
    requires ValidDag(w) && SourceRefs(w) <= src.Keys && id in IdSet(w)
    requires ValidDag(Rewritten(w, rules)) && (forall r :: r in rules ==> SOURCE_PREFIX <= r.ref)
    requires SourceRefs(Rewritten(w, rules)) == SourceRefs(w) && IdSet(w) <= IdSet(Rewritten(w, rules))
    ensures id in Denote(e, Rewritten(w, rules), src) && id in Denote(e, w, CleanedSources(e, w, rules, src))
    ensures Denote(e, Rewritten(w, rules), src)[id] == Denote(e, w, CleanedSources(e, w, rules, src))[id]
  {
    DenoteSolves(e, Rewritten(w, rules), src);
    SolutionProjects(e, w, rules, src, Denote(e, Rewritten(w, rules), src), CleanedSources(e, w, rules, src), id);
  }

  lemma NothingCleaned(e: Engine, w: Workflow, src: Valuation)
    requires ValidDag(w) && SourceRefs(w) <= src.Keys
    ensures Denote(e, w, CleanedSources(e, w, [], src)) == Denote(e, w, src)
  {
    var cleaned, v := CleanedSources(e, w, [], src), Denote(e, w, src);
    DenoteSolves(e, w, src);
    assert Solves(e, w, cleaned, v);
    MeaningIsUnique(e, w, cleaned, v);
  }

  /** What `Apply` returned and from which rules. */
  ghost predicate AppliedTo(w: Workflow, proposed: seq<string>, approved: seq<string>,
                            profiles: map<string, seq<string>>,
                            rules: seq<Rule>, w': Workflow)
  {
    && Apply(w, proposed, approved, profiles) == Ok(w')
    && ParseAll(approved, profiles) == Ok(rules)
  }

  lemma AppliedShape(w: Workflow, proposed: seq<string>, approved: seq<string>, profiles: map<string, seq<string>>,
                     rules: seq<Rule>, w': Workflow)
    requires ValidDag(w) && AppliedTo(w, proposed, approved, profiles, rules, w')
    ensures ValidDag(w') && w' == (if rules == [] then w else Rewritten(w, rules))
    ensures forall r :: r in rules ==> SOURCE_PREFIX <= r.ref
  {
    RulesReadSources(approved, profiles);
    ValidateDagIff(w');
  }

  /** The rewrite preserves meaning: whatever the operations do, every original step is worth in the
      returned workflow what it was worth in the old one with each source replaced by the approved rules
      for it, composed in approval order. */
  lemma RewritePreservesMeaning(e: Engine, w: Workflow, proposed: seq<string>, approved: seq<string>,
                                profiles: map<string, seq<string>>, rules: seq<Rule>, w': Workflow, src: Valuation,
                                id: string)
    requires ValidDag(w) && SourceRefs(w) <= src.Keys && id in IdSet(w)
    requires AppliedTo(w, proposed, approved, profiles, rules, w')
    ensures ValidDag(w') && SourceRefs(w') == SourceRefs(w)
    ensures id in Denote(e, w', src) && id in Denote(e, w, CleanedSources(e, w, rules, src))
    ensures Denote(e, w', src)[id] == Denote(e, w, CleanedSources(e, w, rules, src))[id]
  {
    AppliedShape(w, proposed, approved, profiles, rules, w');
    RewrittenIds(w, rules);
    if rules == [] {
      NothingCleaned(e, w, src);
      DenoteSolves(e, w, src);
    } else {
      RewrittenMeans(e, w, rules, src, id);
    }
  }
}
