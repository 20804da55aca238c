/** The typed workflow: steps that name their inputs, structural validation, and execution order. */
module Dsl {
  import opened Values
  import opened Ids
  import opened Seqs
  import opened Graph

  const SOURCE_PREFIX := "source:"

  datatype OnFailure = STOP | QUARANTINE

  datatype Step = Step(
    id: string,
    operationId: string,
    operationVersion: string,
    inputs: seq<string>,
    params: Params,
    onFailure: OnFailure,
    requirementRefs: seq<string>)

  /** A step whose id passed the field validator: the source prefix is reserved. */
  type WorkflowStep = s: Step | !(SOURCE_PREFIX <= s.id)
    witness Step("step", "", "", [], map[], STOP, [])

  datatype Workflow = Workflow(
    version: int,
    contractId: string,
    sources: seq<string>,
    steps: seq<WorkflowStep>,
    finalAcceptanceTests: seq<string>,
    approvalGates: seq<string>)

  function SourceRef(name: string): string {
    SOURCE_PREFIX + name
  }

  function StepIds(steps: seq<WorkflowStep>): seq<string> {
    seq(|steps|, i requires 0 <= i < |steps| => steps[i].id)
  }

  function SourceRefs(w: Workflow): set<string> {
    set s | s in w.sources :: SourceRef(s)
  }

  function IdSet(w: Workflow): set<string> {
    set s | s in w.steps :: s.id
  }

  /** Every node of the run: the declared sources and the steps. */
  function Nodes(w: Workflow): set<string> {
    SourceRefs(w) + IdSet(w)
  }

  // ---- Dependencies ----

  function StepDeps(s: WorkflowStep, ids: set<string>): set<string> {
    set ref | ref in s.inputs && ref in ids
  }

  /** The dependency dictionary; a repeated id keeps its last step. */
  function DepsOf(steps: seq<WorkflowStep>, ids: set<string>): Deps {
    if steps == [] then map[]
    else
      var last := steps[|steps| - 1];
      DepsOf(steps[..|steps| - 1], ids)[last.id := StepDeps(last, ids)]
  }

  function DepGraph(w: Workflow): Deps {
    DepsOf(w.steps, IdSet(w))
  }

  function ExecutionOrder(w: Workflow): Result<seq<string>, PlatformError> {
    match Kahn(DepGraph(w))
    case Ok(order) => Ok(order)
    case Err(left) => Err(PlatformError(VALIDATION_FAIL, left))
  }

  /** Rounds of ready steps, each round sorted by id. */
  method TopologicalOrder(w: Workflow) returns (r: Result<seq<string>, PlatformError>)
    ensures r == ExecutionOrder(w)
  {
    var dependencies := DepGraph(w);
    var ordered: seq<string> := [];
    var remaining := dependencies.Keys;
    PrependNothing(Kahn(dependencies));
    while remaining != {}
      invariant remaining <= dependencies.Keys
      invariant Kahn(dependencies) == Prepend(ordered, KahnFrom(dependencies, remaining))
      decreases |remaining|
    {
      var ready := Ready(dependencies, remaining);
      if ready == {} {
        return Err(PlatformError(VALIDATION_FAIL, SortedSeq(remaining)));
      }
      ReadyShrinks(dependencies, remaining);
      RoundStep(dependencies, remaining, ordered);
      ordered := ordered + SortedSeq(ready);
      remaining := remaining - ready;
    }
    assert KahnFrom(dependencies, {}) == Ok([]) && ordered + [] == ordered;
    return Ok(ordered);
  }

  // ---- Structural validation ----

  function StepById(w: Workflow, id: string): Result<WorkflowStep, PlatformError> {
    FindStep(w.steps, id)
  }

  function FindStep(steps: seq<WorkflowStep>, id: string): Result<WorkflowStep, PlatformError> {
    if steps == [] then Err(PlatformError(SCHEMA_MISSING, [id]))
    else if steps[0].id == id then Ok(steps[0])
    else FindStep(steps[1..], id)
  }

  function DuplicateIds(w: Workflow): set<string> {
    var ids := StepIds(w.steps);
    set x | x in ids && multiset(ids)[x] > 1
  }

  function Unknown(refs: seq<string>, valid: set<string>): seq<string> {
    if refs == [] then []
    else (if refs[0] in valid then [] else [refs[0]]) + Unknown(refs[1..], valid)
  }

  /** The first step, in list order, with an input nobody declares. */
  function FirstUnknown(steps: seq<WorkflowStep>, valid: set<string>): Option<seq<string>> {
    if steps == [] then None
    else
      var unknown := Unknown(steps[0].inputs, valid);
      if unknown != [] then Some([steps[0].id] + unknown) else FirstUnknown(steps[1..], valid)
  }

  /** None when the workflow is structurally valid, otherwise the first violation found. */
  function ValidateDag(w: Workflow): Option<PlatformError> {
    if DuplicateIds(w) != {} then Some(PlatformError(VALIDATION_FAIL, SortedSeq(DuplicateIds(w))))
    else
      match FirstUnknown(w.steps, Nodes(w))
      case Some(names) => Some(PlatformError(SCHEMA_MISSING, names))
      case None =>
        match ExecutionOrder(w)
        case Err(e) => Some(e)
        case Ok(_) => None
  }

  // ---- What validation means ----

  ghost predicate UniqueIds(w: Workflow) {
    forall i, j :: 0 <= i < j < |w.steps| ==> w.steps[i].id != w.steps[j].id
  }

  ghost predicate RefsKnown(w: Workflow) {
    forall s, ref :: s in w.steps && ref in s.inputs ==> ref in Nodes(w)
  }

  ghost predicate ValidDag(w: Workflow) {
    UniqueIds(w) && RefsKnown(w) && !Cyclic(DepGraph(w))
  }

  lemma UniqueIsDistinct(w: Workflow)
    ensures UniqueIds(w) <==> Distinct(StepIds(w.steps))
  {
    var ids := StepIds(w.steps);
    if Distinct(ids) {
      forall i, j | 0 <= i < j < |w.steps| ensures w.steps[i].id != w.steps[j].id { assert ids[i] != ids[j]; }
    }
  }

  lemma NoDuplicatesIffUnique(w: Workflow)
    ensures DuplicateIds(w) == {} <==> UniqueIds(w)
  {
    var ids := StepIds(w.steps);
    UniqueIsDistinct(w);
    DistinctIffCounted(ids);
    if DuplicateIds(w) == {} {
      forall x | x in ids ensures multiset(ids)[x] <= 1 { assert x !in DuplicateIds(w); }
    }
  }

  lemma {:induction false} UnknownEmpty(refs: seq<string>, valid: set<string>)
    ensures Unknown(refs, valid) == [] <==> forall ref :: ref in refs ==> ref in valid
  {
    if refs != [] {
      UnknownEmpty(refs[1..], valid);
      assert refs == [refs[0]] + refs[1..];
    }
  }

  lemma {:induction false} FirstUnknownNone(steps: seq<WorkflowStep>, valid: set<string>)
    ensures FirstUnknown(steps, valid).None? <==>
      forall s, ref :: s in steps && ref in s.inputs ==> ref in valid
  {
    if steps != [] {
      UnknownEmpty(steps[0].inputs, valid);
      FirstUnknownNone(steps[1..], valid);
      assert steps == [steps[0]] + steps[1..];
    }
  }

  lemma {:induction false} DepsOfKeys(steps: seq<WorkflowStep>, ids: set<string>)
    ensures DepsOf(steps, ids).Keys == set s | s in steps :: s.id
  {
    if steps != [] {
      var init, last := steps[..|steps| - 1], steps[|steps| - 1];
      DepsOfKeys(init, ids);
      assert steps == init + [last];
      assert (set s | s in steps :: s.id) == (set s | s in init :: s.id) + {last.id};
    }
  }

  lemma {:induction false} DepsOfStep(steps: seq<WorkflowStep>, ids: set<string>, i: nat)
    requires i < |steps|
    requires forall j :: i < j < |steps| ==> steps[j].id != steps[i].id
    ensures steps[i].id in DepsOf(steps, ids) && DepsOf(steps, ids)[steps[i].id] == StepDeps(steps[i], ids)
  {
    var n := |steps| - 1;
    if i < n { DepsOfStep(steps[..n], ids, i); }
  }

  /** With unique ids, the graph maps each step's id to the step ids among its inputs. */
  lemma GraphOfUnique(w: Workflow)
    requires UniqueIds(w)
    ensures DepGraph(w).Keys == IdSet(w)
    ensures forall s :: s in w.steps ==> DepGraph(w)[s.id] == StepDeps(s, IdSet(w))
  {
    DepsOfKeys(w.steps, IdSet(w));
    forall s | s in w.steps ensures DepGraph(w)[s.id] == StepDeps(s, IdSet(w)) {
      var i :| 0 <= i < |w.steps| && w.steps[i] == s;
      DepsOfStep(w.steps, IdSet(w), i);
    }
  }

  /** Validation raises nothing exactly for a duplicate-free, closed, acyclic workflow, and the
      code it raises says which of the three failed. */
  lemma ValidateDagIff(w: Workflow)
    ensures ValidateDag(w).None? <==> ValidDag(w)
    ensures ValidateDag(w).Some? ==>
      ValidateDag(w).value.code == (if UniqueIds(w) && !RefsKnown(w) then SCHEMA_MISSING else VALIDATION_FAIL)
  {
    NoDuplicatesIffUnique(w);
    FirstUnknownNone(w.steps, Nodes(w));
    KahnFailsIffCyclic(DepGraph(w));
  }

  lemma {:induction false} FindStepFirst(steps: seq<WorkflowStep>, i: nat)
    requires i < |steps| && forall j :: 0 <= j < i ==> steps[j].id != steps[i].id
    ensures FindStep(steps, steps[i].id) == Ok(steps[i])
  {
    if i > 0 { FindStepFirst(steps[1..], i - 1); }
  }

  /** `step_by_id` returns the step of that id. */
  lemma StepByIdFinds(w: Workflow, s: WorkflowStep)
    requires UniqueIds(w) && s in w.steps
    ensures StepById(w, s.id) == Ok(s)
  {
    var i :| 0 <= i < |w.steps| && w.steps[i] == s;
    FindStepFirst(w.steps, i);
  }

  /** The steps that `s` reads are among the first `i` of `o`. */
  ghost predicate ReadsBefore(w: Workflow, s: WorkflowStep, o: seq<string>, i: nat)
    requires i <= |o|
  {
    forall ref :: ref in s.inputs && ref in IdSet(w) ==> ref in o[..i]
  }

  /** `o` lists every step id exactly once, each after all the steps it reads. */
  ghost predicate TopologicallySorted(w: Workflow, o: seq<string>) {
    && |o| == |w.steps|
    && (forall x :: x in o <==> x in IdSet(w))
    && Distinct(o)
    && (forall s, i :: s in w.steps && 0 <= i < |o| && s.id == o[i] ==> ReadsBefore(w, s, o, i))
  }

  lemma IdSetSize(w: Workflow)
    requires UniqueIds(w)
    ensures |IdSet(w)| == |w.steps|
  {
    var ids := StepIds(w.steps);
    forall x | x in IdSet(w) ensures x in ids {
      var i :| 0 <= i < |w.steps| && w.steps[i].id == x;
      assert ids[i] == x;
    }
    DistinctLength(ids, IdSet(w));
  }

  lemma OrderIsTopological(w: Workflow, o: seq<string>)
    requires UniqueIds(w) && ExecutionOrder(w) == Ok(o)
    ensures TopologicallySorted(w, o) && Canonical(DepGraph(w), o)
  {
    var g := DepGraph(w);
    GraphOfUnique(w);
    KahnIsCanonical(g, o);
    CanonicalHasNoDuplicates(g, o);
    assert forall x :: x in o <==> x in IdSet(w);
    DistinctLength(o, IdSet(w));
    IdSetSize(w);
    forall s, i | s in w.steps && 0 <= i < |o| && s.id == o[i] ensures ReadsBefore(w, s, o, i) {
      forall ref | ref in s.inputs && ref in IdSet(w) ensures ref in o[..i] {
        EarlierInPrefix(g, o, i, ref);
      }
    }
  }

  lemma EarlierInPrefix(g: Deps, o: seq<string>, i: nat, ref: string)
    requires Canonical(g, o) && i < |o| && o[i] in g && ref in g[o[i]] && ref in g
    ensures ref in o[..i]
  {
    CanonicalRespectsDependencies(g, o, i, ref);
    var j :| 0 <= j < i && o[j] == ref;
    assert o[..i][j] == ref;
  }

  /** A valid workflow always has an execution order. */
  lemma ValidHasOrder(w: Workflow)
    requires ValidDag(w)
    ensures ExecutionOrder(w).Ok? && TopologicallySorted(w, ExecutionOrder(w).value)
  {
    KahnFailsIffCyclic(DepGraph(w));
    OrderIsTopological(w, ExecutionOrder(w).value);
  }

  /** Some step of `w` has the id of `s` and reads the same set of nodes. */
  ghost predicate Mirrors(w: Workflow, s: WorkflowStep) {
    exists t :: t in w.steps && t.id == s.id && Elements(t.inputs) == Elements(s.inputs)
  }

  lemma MirroredStep(v: Workflow, w: Workflow, s: WorkflowStep)
    requires UniqueIds(v) && UniqueIds(w) && s in v.steps && IdSet(v) == IdSet(w) && Mirrors(w, s)
    ensures s.id in DepGraph(v) && s.id in DepGraph(w) && DepGraph(v)[s.id] == DepGraph(w)[s.id]
  {
    GraphOfUnique(v);
    GraphOfUnique(w);
    var t :| t in w.steps && t.id == s.id && Elements(t.inputs) == Elements(s.inputs);
    assert forall ref :: ref in s.inputs <==> ref in Elements(s.inputs);
    assert forall ref :: ref in t.inputs <==> ref in Elements(t.inputs);
    assert StepDeps(s, IdSet(v)) == StepDeps(t, IdSet(w));
  }

  lemma MirroredIds(v: Workflow, w: Workflow)
    requires forall s :: s in v.steps ==> Mirrors(w, s)
    ensures IdSet(v) <= IdSet(w)
  {
    forall x | x in IdSet(v) ensures x in IdSet(w) {
      var s :| s in v.steps && s.id == x;
      var t :| t in w.steps && t.id == s.id && Elements(t.inputs) == Elements(s.inputs);
    }
  }

  /** The order depends only on which (id, inputs) pairs there are: not on the position of a step
      in the list, the order of its inputs, or anything else about it. */
  lemma OrderIgnoresPosition(v: Workflow, w: Workflow)
    requires UniqueIds(v) && UniqueIds(w)
    requires forall s :: s in v.steps ==> Mirrors(w, s)
    requires forall s :: s in w.steps ==> Mirrors(v, s)
    ensures ExecutionOrder(v) == ExecutionOrder(w)
  {
    MirroredIds(v, w);
    MirroredIds(w, v);
    forall s | s in v.steps ensures s.id in DepGraph(v) && s.id in DepGraph(w)
      && DepGraph(v)[s.id] == DepGraph(w)[s.id] {
      MirroredStep(v, w, s);
    }
    SameGraph(v, w, DepGraph(v), DepGraph(w));
  }

  lemma SameGraph(v: Workflow, w: Workflow, g: Deps, h: Deps)
    requires g == DepGraph(v) && h == DepGraph(w) && IdSet(v) == IdSet(w)
    requires forall s :: s in v.steps ==> s.id in g && s.id in h && g[s.id] == h[s.id]
    ensures g == h
  {
    DepsOfKeys(v.steps, IdSet(v));
    DepsOfKeys(w.steps, IdSet(w));
    assert g.Keys == IdSet(v) && h.Keys == IdSet(w);
    forall x | x in g ensures g[x] == h[x] {
      var s :| s in v.steps && s.id == x;
    }
  }

  // ---- What an error names ----

  /** The first step in list order with an input that nobody declares. */
  ghost predicate FirstAstray(steps: seq<WorkflowStep>, valid: set<string>, i: int) {
    && 0 <= i < |steps| && (exists ref :: ref in steps[i].inputs && ref !in valid)
    && forall k, ref :: 0 <= k < i && ref in steps[k].inputs ==> ref in valid
  }

  lemma {:induction false} UnknownAre(refs: seq<string>, valid: set<string>)
    ensures forall ref :: ref in Unknown(refs, valid) <==> ref in refs && ref !in valid
  {
    if refs != [] {
      UnknownAre(refs[1..], valid);
      assert refs == [refs[0]] + refs[1..];
    }
  }

  lemma {:induction false} FirstUnknownIs(steps: seq<WorkflowStep>, valid: set<string>) returns (i: nat)
    requires FirstUnknown(steps, valid).Some?
    ensures FirstAstray(steps, valid, i)
    ensures FirstUnknown(steps, valid).value == [steps[i].id] + Unknown(steps[i].inputs, valid)
  {
    UnknownAre(steps[0].inputs, valid);
    if Unknown(steps[0].inputs, valid) != [] {
      i := 0;
      assert Unknown(steps[0].inputs, valid)[0] in Unknown(steps[0].inputs, valid);
    } else {
      var n := FirstUnknownIs(steps[1..], valid);
      i := n + 1;
      forall k, ref | 0 <= k < i && ref in steps[k].inputs ensures ref in valid {
        if k > 0 { assert steps[1..][k - 1] == steps[k]; }
      }
    }
  }

  ghost predicate RepeatedId(w: Workflow, id: string) {
    exists a, b :: 0 <= a < b < |w.steps| && w.steps[a].id == id && w.steps[b].id == id
  }

  lemma DuplicateIff(w: Workflow, id: string)
    ensures id in DuplicateIds(w) <==> RepeatedId(w, id)
  {
    var ids := StepIds(w.steps);
    CountedTwice(ids, id);
    if RepeatedId(w, id) {
      var a, b :| 0 <= a < b < |w.steps| && w.steps[a].id == id && w.steps[b].id == id;
      assert ids[a] == id && ids[b] == id;
    }
    if a, b :| 0 <= a < b < |ids| && ids[a] == id && ids[b] == id {
      assert w.steps[a].id == id && w.steps[b].id == id;
    }
  }

  /** With repeated ids the error names exactly these. */
  lemma RepeatedIdsAreNamed(w: Workflow)
    requires !UniqueIds(w)
    ensures ValidateDag(w).Some? && forall id :: id in ValidateDag(w).value.names <==> RepeatedId(w, id)
  {
    NoDuplicatesIffUnique(w);
    forall id { DuplicateIff(w, id); }
  }

  /** With unknown inputs it names the first step that has any, and then them. */
  lemma UnknownInputsAreNamed(w: Workflow) returns (i: nat)
    requires UniqueIds(w) && !RefsKnown(w)
    ensures FirstAstray(w.steps, Nodes(w), i) && ValidateDag(w).Some?
    ensures NamesAstray(ValidateDag(w).value.names, w.steps[i], Nodes(w))
  {
    NoDuplicatesIffUnique(w);
    FirstUnknownNone(w.steps, Nodes(w));
    i := FirstUnknownIs(w.steps, Nodes(w));
    UnknownAre(w.steps[i].inputs, Nodes(w));
    var unknown := Unknown(w.steps[i].inputs, Nodes(w));
    assert ([w.steps[i].id] + unknown)[1..] == unknown;
  }

  ghost predicate NamesAstray(names: seq<string>, s: WorkflowStep, valid: set<string>) {
    names != [] && names[0] == s.id && forall ref :: ref in names[1..] <==> ref in s.inputs && ref !in valid
  }
}
