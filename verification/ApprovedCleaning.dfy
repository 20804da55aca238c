/** What approving a cleaning rule does, from the approved id and the returned workflow alone: which step it adds, what
    that step reads, and what the sources are worth after it. */
module ApprovedCleaning {
  import opened Values
  import opened Frames
  import opened Dsl
  import opened Denotation
  import opened Cleaning
  import opened CleaningValidity
  import opened Profiling
  import opened TextClean
  import opened Deduplicate

  // ---- What an id says ----

  /** `id` asks for cleaning the text in `column` of `dataset`; without a dot it names no column. */
  ghost predicate IsTextRule(id: string, dataset: string, column: string) {
    && '.' !in dataset
    && (id == "text_clean:" + dataset + "." + column || (id == "text_clean:" + dataset && column == ""))
  }

  ghost predicate IsDedupRule(id: string, dataset: string) {
    id == "dedup:" + dataset
  }

  ghost predicate IsRuleFor(id: string, dataset: string) {
    IsDedupRule(id, dataset) || exists column :: IsTextRule(id, dataset, column)
  }

  lemma {:induction false} PartitionSplits(s: string)
    ensures var (before, after) := Partition(s);
      '.' !in before && (s == before + "." + after || (s == before && after == ""))
  {
    if s != "" && s[0] != '.' {
      PartitionSplits(s[1..]);
      assert s == [s[0]] + s[1..];
    } else if s != "" {
      assert s == "" + "." + s[1..];
    }
  }

  lemma {:induction false} PartitionUndotted(s: string)
    requires '.' !in s
    ensures Partition(s) == (s, "")
  {
    if s != "" {
      PartitionUndotted(s[1..]);
      assert s == [s[0]] + s[1..];
    }
  }

  lemma TextRuleIsRead(id: string, dataset: string, column: string)
    requires IsTextRule(id, dataset, column)
    ensures TEXT_CLEAN <= id && Partition(id[|TEXT_CLEAN|..]) == (dataset, column)
  {
    if id == "text_clean:" + dataset + "." + column {
      assert id[|TEXT_CLEAN|..] == dataset + "." + column;
      PartitionJoins(dataset, column);
    } else {
      assert id[|TEXT_CLEAN|..] == dataset;
      PartitionUndotted(dataset);
    }
  }

  lemma DedupRuleIsRead(id: string, dataset: string)
    requires IsDedupRule(id, dataset)
    ensures !(TEXT_CLEAN <= id) && DEDUP <= id && id[|DEDUP|..] == dataset
  {
    assert id[0] == 'd' && TEXT_CLEAN[0] == 't';
  }

  lemma TextIdSplits(id: string)
    requires TEXT_CLEAN <= id
    ensures var (dataset, column) := Partition(id[|TEXT_CLEAN|..]); IsTextRule(id, dataset, column)
  {
    var rest := id[|TEXT_CLEAN|..];
    var (dataset, column) := Partition(rest);
    PartitionSplits(rest);
    assert id == "text_clean:" + rest;
    if rest == dataset + "." + column {
      assert "text_clean:" + (dataset + "." + column) == "text_clean:" + dataset + "." + column;
    } else {
      assert rest == dataset && column == "";
    }
  }

  /** Only rules of these two kinds can be applied. */
  lemma RuleKinds(id: string, profiles: map<string, seq<string>>)
    requires ParseRule(id, profiles).Ok?
    ensures exists dataset :: IsRuleFor(id, dataset)
  {
    if TEXT_CLEAN <= id {
      TextIdSplits(id);
      var (dataset, column) := Partition(id[|TEXT_CLEAN|..]);
      assert IsRuleFor(id, dataset);
    } else {
      assert id == DEDUP + id[|DEDUP|..];
      assert IsRuleFor(id, id[|DEDUP|..]);
    }
  }

  // ---- Parameters as the operations read them ----

  function StepName(step: NormalizeStep): string {
    match step
    case Trim => "trim"
    case CollapseWhitespace => "collapse_whitespace"
    case Lower => "lower"
    case Upper => "upper"
    case Title => "title"
  }

  ghost predicate SpellsSpec(v: Value, spec: NormalizeSpec) {
    && v.Dict? && Get(v.fields, "column") == Str(spec.column)
    && Get(v.fields, "steps") == List(seq(|spec.steps|,
       i requires 0 <= i < |spec.steps| => Str(StepName(spec.steps[i]))))
  }

  /** The parameters of a `text_clean` that normalizes and nothing else. */
  ghost predicate SpellsNormalize(params: Params, specs: seq<NormalizeSpec>, allowCollapse: bool) {
    && Get(params, "normalize").List? && |Get(params, "normalize").items| == |specs|
    && (forall i :: 0 <= i < |specs| ==> SpellsSpec(Get(params, "normalize").items[i], specs[i]))
    && Get(params, "allow_identity_collapse") == Bool(allowCollapse)
    && Get(params, "regex_extract") == Null && Get(params, "regex_replace") == Null
  }

  ghost predicate SpellsDedup(params: Params, p: DedupParams) {
    && Get(params, "keys") == List(seq(|p.keys|, i requires 0 <= i < |p.keys| => Str(p.keys[i])))
    && Get(params, "keep") == Str(if p.keep.KeepFirst? then "first" else "last")
    && Get(params, "order_by") == if p.orderBy.Some? then Str(p.orderBy.value) else Null
  }

  // ---- The step a rule adds ----

  /** A `text_clean` that trims and then lower-cases the one column, whatever that merges. */
  ghost predicate CleansText(s: WorkflowStep, id: string, dataset: string, column: string) {
    && s.id == "cleaning_text_clean_" + dataset + "_" + column && s.requirementRefs == [id]
    && s.operationId == "text_clean" && s.operationVersion == "1.0" && s.onFailure == STOP
    && SpellsNormalize(s.params, [NormalizeSpec(column, [Trim, Lower])], true)
  }

  /** A `deduplicate` on exactly the columns of the profile that keeps the first row. */
  ghost predicate CleansRows(s: WorkflowStep, id: string, dataset: string, columns: seq<string>) {
    && s.id == "cleaning_dedup_" + dataset && s.requirementRefs == [id]
    && s.operationId == "deduplicate" && s.operationVersion == "1.0" && s.onFailure == STOP
    && SpellsDedup(s.params, DedupParams(columns, KeepFirst, None))
  }

  ghost predicate StepsUp(s: WorkflowStep, id: string, profiles: map<string, seq<string>>) {
    && (forall dataset, column :: IsTextRule(id, dataset, column) ==> CleansText(s, id, dataset, column))
    && (forall dataset :: IsDedupRule(id, dataset) ==>
          dataset in profiles && CleansRows(s, id, dataset, profiles[dataset]))
  }

  lemma TextStep(id: string, dataset: string, column: string, profiles: map<string, seq<string>>, input: string)
    requires IsTextRule(id, dataset, column)
    ensures ParseRule(id, profiles).Ok? && ParseRule(id, profiles).value.ref == "source:" + dataset
    ensures CleansText(CleaningStep(ParseRule(id, profiles).value, input), id, dataset, column)
  {
    TextRuleIsRead(id, dataset, column);
    var params := ParseRule(id, profiles).value.params;
    var spec := Get(params, "normalize").items[0];
    assert Get(spec.fields, "steps").items == [Str("trim"), Str("lower")];
    assert SpellsSpec(spec, NormalizeSpec(column, [Trim, Lower]));
  }

  lemma DedupStep(id: string, dataset: string, profiles: map<string, seq<string>>, input: string)
    requires IsDedupRule(id, dataset) && ParseRule(id, profiles).Ok?
    ensures dataset in profiles && ParseRule(id, profiles).value.ref == "source:" + dataset
    ensures CleansRows(CleaningStep(ParseRule(id, profiles).value, input), id, dataset, profiles[dataset])
  {
    DedupRuleIsRead(id, dataset);
  }

  lemma RuleStepsUp(id: string, profiles: map<string, seq<string>>, input: string)
    requires ParseRule(id, profiles).Ok?
    ensures StepsUp(CleaningStep(ParseRule(id, profiles).value, input), id, profiles)
  {
    var s := CleaningStep(ParseRule(id, profiles).value, input);
    forall dataset, column | IsTextRule(id, dataset, column) ensures CleansText(s, id, dataset, column) {
      TextStep(id, dataset, column, profiles, input);
    }
    forall dataset | IsDedupRule(id, dataset)
      ensures dataset in profiles && CleansRows(s, id, dataset, profiles[dataset])
    {
      DedupStep(id, dataset, profiles, input);
    }
  }

  lemma RuleReads(id: string, profiles: map<string, seq<string>>, dataset: string)
    requires ParseRule(id, profiles).Ok?
    ensures ParseRule(id, profiles).value.ref == "source:" + dataset <==> IsRuleFor(id, dataset)
  {
    if IsRuleFor(id, dataset) {
      if IsDedupRule(id, dataset) {
        DedupStep(id, dataset, profiles, "");
      } else {
        var column :| IsTextRule(id, dataset, column);
        TextStep(id, dataset, column, profiles, "");
      }
    }
    RuleKinds(id, profiles);
    var other :| IsRuleFor(id, other);
    if IsDedupRule(id, other) {
      DedupStep(id, other, profiles, "");
    } else {
      var column :| IsTextRule(id, other, column);
      TextStep(id, other, column, profiles, "");
    }
    SameSource(dataset, other);
  }

  lemma SameSource(a: string, b: string)
    ensures "source:" + a == "source:" + b <==> a == b
  {
    assert ("source:" + a)[|"source:"|..] == a && ("source:" + b)[|"source:"|..] == b;
  }

  // ---- What the steps read ----

  lemma {:induction false} ParsedAt(approved: seq<string>, profiles: map<string, seq<string>>, rules: seq<Rule>, k: nat)
    requires ParseAll(approved, profiles) == Ok(rules) && k < |approved|
    ensures |rules| == |approved| && ParseRule(approved[k], profiles) == Ok(rules[k])
  {
    var n := |approved| - 1;
    if k < n { ParsedAt(approved[..n], profiles, rules[..n], k); }
  }

  /** Of the first `n` approved rules the one at `k` is the last for `dataset`. */
  ghost predicate LatestFor(approved: seq<string>, n: nat, dataset: string, k: int) {
    && n <= |approved| && 0 <= k < n && IsRuleFor(approved[k], dataset)
    && forall m :: k < m < n ==> !IsRuleFor(approved[m], dataset)
  }

  ghost predicate NoneFor(approved: seq<string>, n: nat, dataset: string) {
    n <= |approved| && forall m :: 0 <= m < n ==> !IsRuleFor(approved[m], dataset)
  }

  /** `ref` is the step of the last of the first `n` approved rules for `dataset`, or the source if there is none. */
  ghost predicate ReadsLatest(steps: seq<WorkflowStep>, approved: seq<string>, n: nat, dataset: string, ref: string) {
    || (NoneFor(approved, n, dataset) && ref == "source:" + dataset)
    || exists k :: LatestFor(approved, n, dataset, k) && k < |steps| && ref == steps[k].id
  }

  /** A source is redirected to the step of the last rule for it, at `k`, or not at all. */
  lemma {:induction false} RedirectsToLast(rules: seq<Rule>, n: nat, ref: string) returns (k: int)
    requires n <= |rules|
    ensures -1 <= k < n && forall m :: k < m < n ==> rules[m].ref != ref
    ensures if k == -1 then Redirect(RewriteOf(rules[..n]), ref) == ref
            else rules[k].ref == ref && Redirect(RewriteOf(rules[..n]), ref) == rules[k].id
  {
    if n == 0 {
      k := -1;
    } else {
      assert rules[..n][..n - 1] == rules[..n - 1];
      if rules[n - 1].ref == ref { k := n - 1; } else { k := RedirectsToLast(rules, n - 1, ref); }
    }
  }

  lemma RulesFor(approved: seq<string>, profiles: map<string, seq<string>>, rules: seq<Rule>, dataset: string)
    requires ParseAll(approved, profiles) == Ok(rules)
    ensures |rules| == |approved|
    ensures forall m :: 0 <= m < |approved| ==>
      (rules[m].ref == "source:" + dataset <==> IsRuleFor(approved[m], dataset))
  {
    forall m | 0 <= m < |approved| ensures rules[m].ref == "source:" + dataset <==> IsRuleFor(approved[m], dataset) {
      ParsedAt(approved, profiles, rules, m);
      RuleReads(approved[m], profiles, dataset);
    }
  }

  lemma RedirectIsLatest(approved: seq<string>, profiles: map<string, seq<string>>, rules: seq<Rule>, n: nat,
                         dataset: string, steps: seq<WorkflowStep>)
    requires ParseAll(approved, profiles) == Ok(rules) && n <= |approved| <= |steps|
    requires forall k :: 0 <= k < |rules| ==> steps[k].id == rules[k].id
    ensures ReadsLatest(steps, approved, n, dataset, Redirect(RewriteOf(rules[..n]), "source:" + dataset))
  {
    RulesFor(approved, profiles, rules, dataset);
    var k := RedirectsToLast(rules, n, "source:" + dataset);
    if k == -1 {
      assert NoneFor(approved, n, dataset);
    } else {
      assert LatestFor(approved, n, dataset, k);
    }
  }

  /** The step added for the rule at `i` is what the rule asks for, and cleans what the rules before it made of its
      source. */
  ghost predicate AddedFor(w': Workflow, approved: seq<string>, profiles: map<string, seq<string>>, i: nat)
    requires i < |approved| <= |w'.steps|
  {
    && StepsUp(w'.steps[i], approved[i], profiles)
    && |w'.steps[i].inputs| == 1
    && forall dataset :: IsRuleFor(approved[i], dataset) ==>
         ReadsLatest(w'.steps, approved, i, dataset, w'.steps[i].inputs[0])
  }

  /** `t` is the step `s`, reading cleaned sources instead of the sources themselves. */
  ghost predicate ReadsCleaned(w': Workflow, approved: seq<string>, s: WorkflowStep, t: WorkflowStep) {
    && t == s.(inputs := t.inputs) && |t.inputs| == |s.inputs|
    && forall n :: 0 <= n < |s.inputs| ==> Redirected(w'.steps, approved, s.inputs[n], t.inputs[n])
  }

  lemma AddedStep(w: Workflow, approved: seq<string>, profiles: map<string, seq<string>>, rules: seq<Rule>, i: nat)
    requires ParseAll(approved, profiles) == Ok(rules) && i < |approved|
    ensures |approved| <= |Rewritten(w, rules).steps| && AddedFor(Rewritten(w, rules), approved, profiles, i)
  {
    var w' := Rewritten(w, rules);
    ParsedAt(approved, profiles, rules, i);
    NewStepAt(rules, i);
    RewrittenStepIds(w, rules);
    RuleStepsUp(approved[i], profiles, Redirect(RewriteOf(rules[..i]), rules[i].ref));
    forall dataset | IsRuleFor(approved[i], dataset)
      ensures ReadsLatest(w'.steps, approved, i, dataset, w'.steps[i].inputs[0])
    {
      RuleReads(approved[i], profiles, dataset);
      RedirectIsLatest(approved, profiles, rules, i, dataset, w'.steps);
    }
  }

  /** `ref` became `ref'`. */
  ghost predicate Redirected(steps: seq<WorkflowStep>, approved: seq<string>, ref: string, ref': string) {
    && (!("source:" <= ref) ==> ref' == ref)
    && forall dataset :: ref == "source:" + dataset ==> ReadsLatest(steps, approved, |approved|, dataset, ref')
  }

  lemma RewiredInputIs(approved: seq<string>, profiles: map<string, seq<string>>, rules: seq<Rule>, ref: string,
                       steps: seq<WorkflowStep>)
    requires ParseAll(approved, profiles) == Ok(rules) && |approved| <= |steps|
    requires forall k :: 0 <= k < |rules| ==> steps[k].id == rules[k].id
    ensures Redirected(steps, approved, ref, Redirect(RewriteOf(rules), ref))
  {
    RulesReadSources(approved, profiles);
    RewriteKeys(rules);
    assert rules[..|rules|] == rules;
    forall dataset | ref == "source:" + dataset
      ensures ReadsLatest(steps, approved, |approved|, dataset, Redirect(RewriteOf(rules), ref))
    {
      RedirectIsLatest(approved, profiles, rules, |approved|, dataset, steps);
    }
  }

  lemma RewiredAt(w: Workflow, rules: seq<Rule>, i: nat)
    requires i < |w.steps|
    ensures |Rewritten(w, rules).steps| == |rules| + |w.steps|
    ensures Rewritten(w, rules).steps[|rules| + i] == Rewired(w.steps[i], RewriteOf(rules))
  {
    var rewired := RewiredSteps(w.steps, RewriteOf(rules));
    assert Rewritten(w, rules).steps == NewSteps(rules) + rewired
      && rewired[i] == Rewired(w.steps[i], RewriteOf(rules));
  }

  lemma RewiredStep(w: Workflow, approved: seq<string>, profiles: map<string, seq<string>>, rules: seq<Rule>, i: nat)
    requires ParseAll(approved, profiles) == Ok(rules) && i < |w.steps|
    ensures |Rewritten(w, rules).steps| == |approved| + |w.steps|
    ensures ReadsCleaned(Rewritten(w, rules), approved, w.steps[i], Rewritten(w, rules).steps[|approved| + i])
  {
    var w', s := Rewritten(w, rules), w.steps[i];
    RewrittenStepIds(w, rules);
    RewiredAt(w, rules, i);
    forall n | 0 <= n < |s.inputs|
      ensures Redirected(w'.steps, approved, s.inputs[n], Redirect(RewriteOf(rules), s.inputs[n]))
    {
      RewiredInputIs(approved, profiles, rules, s.inputs[n], w'.steps);
    }
    RewiredReads(w', approved, s, RewriteOf(rules));
  }

  lemma RewiredReads(w': Workflow, approved: seq<string>, s: WorkflowStep, rw: Rewrite)
    requires forall n :: 0 <= n < |s.inputs| ==>
      Redirected(w'.steps, approved, s.inputs[n], Redirect(rw, s.inputs[n]))
    ensures ReadsCleaned(w', approved, s, Rewired(s, rw))
  {
  }

  /** The returned workflow, step by step: first one step for each approved rule, in approval order, doing what the rule
      asks for on top of what the rules before it made of its source;
        then the original steps in their order, each reading
      the last cleaned form of every source it read. Nothing else has changed. */
  lemma AppliedStepByStep(w: Workflow, proposed: seq<string>, approved: seq<string>, profiles: map<string, seq<string>>,
                          w': Workflow)
    requires Apply(w, proposed, approved, profiles) == Ok(w')
    ensures forall id :: id in approved ==> id in proposed
    ensures w' == w.(steps := w'.steps) && |w'.steps| == |approved| + |w.steps|
    ensures forall i :: 0 <= i < |approved| ==> AddedFor(w', approved, profiles, i)
    ensures forall i :: 0 <= i < |w.steps| ==> ReadsCleaned(w', approved, w.steps[i], w'.steps[|approved| + i])
  {
    AllProposed(approved, proposed);
    var rules := ParseAll(approved, profiles).value;
    if approved == [] {
      assert w' == w;
    } else {
      assert w' == Rewritten(w, rules);
      RewrittenStepIds(w, rules);
    }
    forall i | 0 <= i < |approved| ensures AddedFor(w', approved, profiles, i) {
      AddedStep(w, approved, profiles, rules, i);
    }
    forall i | 0 <= i < |w.steps| ensures ReadsCleaned(w', approved, w.steps[i], w'.steps[|approved| + i]) {
      RewiredStep(w, approved, profiles, rules, i);
    }
  }

  lemma {:induction false} AllProposed(approved: seq<string>, proposed: seq<string>)
    ensures Unproposed(approved, proposed) == [] <==> forall id :: id in approved ==> id in proposed
  {
    if approved != [] {
      AllProposed(approved[1..], proposed);
      assert approved == [approved[0]] + approved[1..];
    }
  }

  // ---- What the rules make of a source ----

  function TrimmedLower(text: (NormalizeStep, string) -> string, c: Cell): Cell {
    match c
    case Text(s) => Text(text(Lower, text(Trim, s)))
    case _ => c
  }

  /** `g` is `f` with the text in `column` trimmed and lower-cased cell by cell, and everything else as it was. */
  ghost predicate Trimmed(text: (NormalizeStep, string) -> string, f: Frame, g: Frame, column: string) {
    && g.columns == f.columns && |g.rows| == |f.rows|
    && forall i :: 0 <= i < |f.rows| ==>
         && g.rows[i].Keys == f.rows[i].Keys
         && forall name :: name in f.rows[i] ==>
              g.rows[i][name] == if name == column then TrimmedLower(text, f.rows[i][name]) else f.rows[i][name]
  }

  /** `g` has the rows of `f` that no earlier row agrees with on all of `keys`, in their order. */
  ghost predicate FirstOfEach(f: Frame, g: Frame, keys: seq<string>) {
    && g.columns == f.columns
    && exists positions :: SubsequenceAt(g.rows, f.rows, positions) && AreFirst(f.rows, keys, positions)
  }

  ghost predicate IsFirst(rows: seq<Row>, keys: seq<string>, q: nat) {
    q < |rows| && forall r :: 0 <= r < q ==> Key(rows[r], keys) != Key(rows[q], keys)
  }

  ghost predicate AreFirst(rows: seq<Row>, keys: seq<string>, positions: seq<nat>) {
    forall q :: q in positions <==> IsFirst(rows, keys, q)
  }

  /** A text column is trimmed and lower-cased; a column that is missing or no text fails. */
  ghost predicate TextCleaned(text: (NormalizeStep, string) -> string, column: string, v: Option<Frame>,
                              v': Option<Frame>)
  {
    if v.Some? && v.value.Has(column) && v.value.Dtype(column) == "String"
    then v'.Some? && Trimmed(text, v.value, v'.value, column)
    else v'.None?
  }

  /** Only the first row of each group that agrees on all `columns` stays; without columns, or with one missing, it
      fails. */
  ghost predicate RowsCleaned(columns: seq<string>, v: Option<Frame>, v': Option<Frame>) {
    if v.Some? && columns != [] && forall c :: c in columns ==> v.value.Has(c)
    then v'.Some? && FirstOfEach(v.value, v'.value, columns)
    else v'.None?
  }

  /** What applying one approved rule makes of the source `ref`. */
  ghost predicate RuleCleans(text: (NormalizeStep, string) -> string, profiles: map<string, seq<string>>, id: string,
                             ref: string, v: Option<Frame>, v': Option<Frame>)
  {
    && (forall dataset, column :: IsTextRule(id, dataset, column) && ref == "source:" + dataset ==>
          TextCleaned(text, column, v, v'))
    && (forall dataset :: IsDedupRule(id, dataset) && ref == "source:" + dataset ==>
          dataset in profiles && RowsCleaned(profiles[dataset], v, v'))
    && ((forall dataset :: IsRuleFor(id, dataset) ==> ref != "source:" + dataset) ==> v' == v)
  }

  /** `vs` are the values of `ref` before, between and after the approved rules. */
  ghost predicate CleansAlong(text: (NormalizeStep, string) -> string, profiles: map<string, seq<string>>,
                              approved: seq<string>, ref: string, vs: seq<Option<Frame>>)
  {
    && |vs| == |approved| + 1
    && forall i :: 0 <= i < |approved| ==> RuleCleans(text, profiles, approved[i], ref, vs[i], vs[i + 1])
  }

  // ---- Engines that run the two operations ----

  ghost predicate AllText(f: Frame, specs: seq<NormalizeSpec>) {
    forall spec :: spec in specs && f.Has(spec.column) ==> f.Dtype(spec.column) == "String"
  }

  /** `o` is the outcome of normalizing `f`; the data-frame engine raises on a column that is no text. */
  ghost predicate RunsNormalize(o: Outcome, f: Frame, specs: seq<NormalizeSpec>, allowCollapse: bool,
                                text: (NormalizeStep, string) -> string)
  {
    if !AllText(f, specs) then !o.Done?
    else
      match ExecuteNormalize(f, specs, allowCollapse, text)
      case Ok(g) => o.Done? && o.output == g
      case Err(e) => o == Rejected(e)
  }

  ghost predicate RunsDedup(o: Outcome, f: Frame, p: DedupParams) {
    exists order :: LegalOrder(f.rows, p.orderBy, order) && DedupOutcome(o, Execute(f, p, order))
  }

  ghost predicate DedupOutcome(o: Outcome, r: Result<DedupResult, PlatformError>) {
    match r
    case Ok(done) => o.Done? && o.output == done.output
    case Err(e) => o == Rejected(e)
  }

  /** `text_clean` and `deduplicate` are registered and do what their modules say, on parameters that spell it out. */
  ghost predicate RunsCleaning(e: Engine, text: (NormalizeStep, string) -> string) {
    && e.kind("text_clean", "1.0") == Some(Unary) && e.kind("deduplicate", "1.0") == Some(Unary)
    && (forall f, params, specs, allow :: SpellsNormalize(params, specs, allow) ==>
          RunsNormalize(e.execute("text_clean", "1.0", [f], params), f, specs, allow, text))
    && (forall f, params, p :: SpellsDedup(params, p) ==>
          RunsDedup(e.execute("deduplicate", "1.0", [f], params), f, p))
  }

  lemma FoldIsTrimmed(text: (NormalizeStep, string) -> string, f: Frame, column: string)
    ensures Trimmed(text, f, FoldColumn(f, column, FoldOf(text, [Trim, Lower])), column)
  {
    var g := FoldColumn(f, column, FoldOf(text, [Trim, Lower]));
    forall i, name | 0 <= i < |f.rows| && name in f.rows[i]
      ensures g.rows[i][name] == if name == column then TrimmedLower(text, f.rows[i][name]) else f.rows[i][name]
    {
      if f.rows[i][name].Text? { TrimLowerIs(text, f.rows[i][name].s); }
    }
  }

  lemma NormalizedTrims(text: (NormalizeStep, string) -> string, f: Frame, column: string)
    ensures var r := ExecuteNormalize(f, [NormalizeSpec(column, [Trim, Lower])], true, text);
      if f.Has(column) then r.Ok? && Trimmed(text, f, r.value, column) else r.Err?
  {
    var spec := NormalizeSpec(column, [Trim, Lower]);
    assert [spec][..0] == [] && spec in [spec];
    assert Normalized(f, [], true, text) == Ok(f);
    assert Normalized(f, [spec], true, text) == NormalizeOne(f, spec, true, text);
    FoldIsTrimmed(text, f, column);
  }

  lemma TextOutcome(e: Engine, text: (NormalizeStep, string) -> string, s: WorkflowStep, id: string, dataset: string,
                    column: string, f: Frame)
    requires RunsCleaning(e, text) && CleansText(s, id, dataset, column) && |s.inputs| == 1
    ensures var o := Attempt(e, s, [f]);
      TextCleaned(text, column, Some(f), if o.Done? then Some(o.output) else None)
  {
    var specs := [NormalizeSpec(column, [Trim, Lower])];
    assert RunsNormalize(e.execute("text_clean", "1.0", [f], s.params), f, specs, true, text);
    assert specs[0] in specs;
    NormalizedTrims(text, f, column);
  }

  lemma FirstRowsSurvive(f: Frame, p: DedupParams, order: seq<nat>)
    requires p.orderBy == None && p.keep == KeepFirst && Execute(f, p, order).Ok? && LegalOrder(f.rows, None, order)
    ensures FirstOfEach(f, Execute(f, p, order).value.output, p.keys)
  {
    var rows, kept := f.rows, Kept(f.rows, p.keys, p.keep, order);
    var positions := Ascending(kept, |rows|);
    AscendingFacts(kept, |rows|);
    forall q: nat ensures q in positions <==> IsFirst(rows, p.keys, q) {
      if q < |rows| {
        KeptIffLeads(rows, p.keys, KeepFirst, order, q);
        forall r | 0 <= r < q ensures SameKey(rows, p.keys, order[r], order[q]) <==>
          Key(rows[r], p.keys) == Key(rows[q], p.keys) {}
      }
    }
    assert AreFirst(rows, p.keys, positions);
    assert SubsequenceAt(Execute(f, p, order).value.output.rows, rows, positions);
  }

  lemma RowsOutcome(e: Engine, text: (NormalizeStep, string) -> string, s: WorkflowStep, id: string, dataset: string,
                    columns: seq<string>, f: Frame)
    requires RunsCleaning(e, text) && CleansRows(s, id, dataset, columns) && |s.inputs| == 1
    ensures var o := Attempt(e, s, [f]);
      RowsCleaned(columns, Some(f), if o.Done? then Some(o.output) else None)
  {
    var p := DedupParams(columns, KeepFirst, None);
    var o := e.execute("deduplicate", "1.0", [f], s.params);
    assert RunsDedup(o, f, p);
    var order :| LegalOrder(f.rows, p.orderBy, order) && DedupOutcome(o, Execute(f, p, order));
    if Execute(f, p, order).Ok? { FirstRowsSurvive(f, p, order); }
  }

  // ---- Main result ----

  lemma OnceCleans(e: Engine, text: (NormalizeStep, string) -> string, id: string, profiles: map<string, seq<string>>,
                   rule: Rule, ref: string, v: Option<Frame>)
    requires RunsCleaning(e, text) && ParseRule(id, profiles) == Ok(rule) && rule.ref == ref
    ensures RuleCleans(text, profiles, id, ref, v, CleanOnce(e, rule, v))
  {
    var s, v' := CleaningStep(rule, ""), CleanOnce(e, rule, v);
    RuleStepsUp(id, profiles, "");
    forall dataset, column | IsTextRule(id, dataset, column) ensures TextCleaned(text, column, v, v') {
      if v.Some? { TextOutcome(e, text, s, id, dataset, column, v.value); }
    }
    forall dataset | IsDedupRule(id, dataset) ensures dataset in profiles && RowsCleaned(profiles[dataset], v, v') {
      if v.Some? { RowsOutcome(e, text, s, id, dataset, profiles[dataset], v.value); }
    }
    RuleKinds(id, profiles);
    var dataset :| IsRuleFor(id, dataset);
    RuleReads(id, profiles, dataset);
  }

  lemma OtherSourceStays(text: (NormalizeStep, string) -> string, id: string, profiles: map<string, seq<string>>,
                         rule: Rule, ref: string, v: Option<Frame>)
    requires ParseRule(id, profiles) == Ok(rule) && rule.ref != ref
    ensures RuleCleans(text, profiles, id, ref, v, v)
  {
    forall dataset | IsRuleFor(id, dataset) ensures ref != "source:" + dataset { RuleReads(id, profiles, dataset); }
  }

  lemma {:induction false} SourceCleansAlong(e: Engine, text: (NormalizeStep, string) -> string, approved: seq<string>,
                                             profiles: map<string, seq<string>>, rules: seq<Rule>, ref: string,
                                             v: Option<Frame>)
    returns (vs: seq<Option<Frame>>)
    requires RunsCleaning(e, text) && ParseAll(approved, profiles) == Ok(rules)
    ensures CleansAlong(text, profiles, approved, ref, vs)
    ensures vs[0] == v && vs[|approved|] == CleanedSource(e, rules, ref, v)
  {
    if approved == [] {
      vs := [v];
    } else {
      var n := |approved| - 1;
      ParsedAt(approved, profiles, rules, n);
      var before := SourceCleansAlong(e, text, approved[..n], profiles, rules[..n], ref, v);
      if rules[n].ref == ref {
        OnceCleans(e, text, approved[n], profiles, rules[n], ref, before[n]);
      } else {
        OtherSourceStays(text, approved[n], profiles, rules[n], ref, before[n]);
      }
      vs := before + [CleanedSource(e, rules, ref, v)];
      OneMoreCleans(text, profiles, approved, ref, before, CleanedSource(e, rules, ref, v));
    }
  }

  lemma OneMoreCleans(text: (NormalizeStep, string) -> string, profiles: map<string, seq<string>>,
                      approved: seq<string>, ref: string, before: seq<Option<Frame>>, last: Option<Frame>)
    requires approved != [] && CleansAlong(text, profiles, approved[..|approved| - 1], ref, before)
    requires RuleCleans(text, profiles, approved[|approved| - 1], ref, before[|approved| - 1], last)
    ensures CleansAlong(text, profiles, approved, ref, before + [last])
  {
    var n, vs := |approved| - 1, before + [last];
    forall i | 0 <= i < |approved| ensures RuleCleans(text, profiles, approved[i], ref, vs[i], vs[i + 1]) {
      if i < n { assert RuleCleans(text, profiles, approved[..n][i], ref, before[i], before[i + 1]); }
    }
  }

  /** The sources `cleaned` are the sources `src` taken through the approved rules, in approval order. */
  ghost predicate CleansSources(text: (NormalizeStep, string) -> string, profiles: map<string, seq<string>>,
                                approved: seq<string>, w: Workflow, src: Valuation, cleaned: Valuation)
  {
    && cleaned.Keys == SourceRefs(w) <= src.Keys
    && forall ref :: ref in SourceRefs(w) ==> exists vs ::
         CleansAlong(text, profiles, approved, ref, vs) && vs[0] == src[ref] && vs[|approved|] == cleaned[ref]
  }

  /** On an engine that runs the two operations, every original step of the returned workflow is worth what it was
      worth in the old one on cleaned sources: through the approved rules in approval order, a text rule trims and
      lower-cases its one column cell by cell and leaves all else, a dedup rule keeps the first row of each group
      that agrees on all columns of the profile, and other sources stay as they are. */
  lemma ApprovedRulesClean(e: Engine, text: (NormalizeStep, string) -> string, w: Workflow, proposed: seq<string>,
                           approved: seq<string>, profiles: map<string, seq<string>>, w': Workflow, src: Valuation)
    returns (cleaned: Valuation)
    requires ValidDag(w) && SourceRefs(w) <= src.Keys && RunsCleaning(e, text)
    requires Apply(w, proposed, approved, profiles) == Ok(w')
    ensures ValidDag(w') && SourceRefs(w') == SourceRefs(w)
    ensures CleansSources(text, profiles, approved, w, src, cleaned)
    ensures forall id :: id in IdSet(w) ==>
      id in Denote(e, w', src) && id in Denote(e, w, cleaned) && Denote(e, w', src)[id] == Denote(e, w, cleaned)[id]
  {
    var rules := ParseAll(approved, profiles).value;
    AppliedShape(w, proposed, approved, profiles, rules, w');
    RewrittenIds(w, rules);
    cleaned := CleanedSources(e, w, rules, src);
    forall ref | ref in SourceRefs(w)
      ensures exists vs ::
        CleansAlong(text, profiles, approved, ref, vs) && vs[0] == src[ref] && vs[|approved|] == cleaned[ref]
    {
      var vs := SourceCleansAlong(e, text, approved, profiles, rules, ref, src[ref]);
    }
    forall id | id in IdSet(w)
      ensures id in Denote(e, w', src) && id in Denote(e, w, cleaned)
      ensures Denote(e, w', src)[id] == Denote(e, w, cleaned)[id]
    {
      RewritePreservesMeaning(e, w, proposed, approved, profiles, rules, w', src, id);
    }
  }

  // ---- Such engines exist ----

  lemma StepNamesDiffer(a: NormalizeStep, b: NormalizeStep)
    ensures StepName(a) == StepName(b) <==> a == b
  {
  }

  lemma SpecReadOneWay(v: Value, a: NormalizeSpec, b: NormalizeSpec)
    requires SpellsSpec(v, a) && SpellsSpec(v, b)
    ensures a == b
  {
    var items := Get(v.fields, "steps").items;
    assert |items| == |a.steps| == |b.steps|;
    forall i | 0 <= i < |items| ensures a.steps[i] == b.steps[i] {
      assert items[i] == Str(StepName(a.steps[i])) == Str(StepName(b.steps[i]));
      StepNamesDiffer(a.steps[i], b.steps[i]);
    }
    assert a.steps == b.steps;
  }

  lemma NormalizeReadOneWay(params: Params, a: seq<NormalizeSpec>, x: bool, b: seq<NormalizeSpec>, y: bool)
    requires SpellsNormalize(params, a, x) && SpellsNormalize(params, b, y)
    ensures a == b && x == y
  {
    forall i | 0 <= i < |a| ensures a[i] == b[i] {
      SpecReadOneWay(Get(params, "normalize").items[i], a[i], b[i]);
    }
  }

  lemma DedupReadOneWay(params: Params, p: DedupParams, q: DedupParams)
    requires SpellsDedup(params, p) && SpellsDedup(params, q)
    ensures p.keys == q.keys && p.orderBy == q.orderBy && p.keep == q.keep
  {
    var items := Get(params, "keys").items;
    assert |items| == |p.keys| == |q.keys|;
    forall i | 0 <= i < |items| ensures p.keys[i] == q.keys[i] {
      assert items[i] == Str(p.keys[i]) == Str(q.keys[i]);
    }
    assert "first" != "last";
  }

  ghost function NormalizeOutcome(f: Frame, params: Params, text: (NormalizeStep, string) -> string): Outcome {
    if specs, allow :| SpellsNormalize(params, specs, allow) then
      if !AllText(f, specs) then Escapes
      else
        match ExecuteNormalize(f, specs, allow, text)
        case Ok(g) => Done(g, map[])
        case Err(e) => Rejected(e)
    else Escapes
  }

  ghost function SomeOrder(f: Frame, p: DedupParams): (order: seq<nat>)
    ensures LegalOrder(f.rows, p.orderBy, order)
  {
    LegalOrderExists(f.rows, p.orderBy);
    var order :| LegalOrder(f.rows, p.orderBy, order);
    order
  }

  ghost function RowsOf(f: Frame, params: Params): Outcome {
    if p :| SpellsDedup(params, p) then
      match Execute(f, p, SomeOrder(f, p))
      case Ok(done) => Done(done.output, map[])
      case Err(e) => Rejected(e)
    else Escapes
  }

  lemma NormalizeOutcomeRuns(f: Frame, params: Params, specs: seq<NormalizeSpec>, allow: bool,
                             text: (NormalizeStep, string) -> string)
    requires SpellsNormalize(params, specs, allow)
    ensures RunsNormalize(NormalizeOutcome(f, params, text), f, specs, allow, text)
  {
    forall a, x | SpellsNormalize(params, a, x) ensures a == specs && x == allow {
      NormalizeReadOneWay(params, a, x, specs, allow);
    }
  }

  lemma RowsOfRuns(f: Frame, params: Params, p: DedupParams)
    requires SpellsDedup(params, p)
    ensures RunsDedup(RowsOf(f, params), f, p)
  {
    forall q | SpellsDedup(params, q) ensures q == p { DedupReadOneWay(params, q, p); }
    assert DedupOutcome(RowsOf(f, params), Execute(f, p, SomeOrder(f, p)));
  }

  /** Whatever trimming and lower-casing do, there is an engine that runs the two operations. */
  lemma SomeEngineCleans(text: (NormalizeStep, string) -> string) returns (e: Engine)
    ensures RunsCleaning(e, text)
  {
    e := Engine(
      (op, version) => Some(Unary),
      (op, version, inputs, params) =>
        if inputs == [] then Escapes
        else if op == "text_clean" then NormalizeOutcome(inputs[0], params, text)
        else RowsOf(inputs[0], params),
      params => false, f => f);
    forall f, params, specs, allow | SpellsNormalize(params, specs, allow)
      ensures RunsNormalize(e.execute("text_clean", "1.0", [f], params), f, specs, allow, text)
    {
      NormalizeOutcomeRuns(f, params, specs, allow, text);
    }
    forall f, params, p | SpellsDedup(params, p) ensures RunsDedup(e.execute("deduplicate", "1.0", [f], params), f, p) {
      RowsOfRuns(f, params, p);
    }
  }
}
