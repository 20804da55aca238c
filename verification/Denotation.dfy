/** What a workflow means, independently of how it is run: an assignment of a value to every node
    in which each source has its given value and each step the value its operation gives its inputs. */
module Denotation {
  import opened Values
  import opened Frames
  import opened Seqs
  import opened Graph
  import opened Dsl

  datatype OpKind = Unary | Binary

  /** One call of an operation: a result with evidence, a typed rejection, or any other exception. */
  datatype Outcome = Done(output: Frame, evidence: Params) | Rejected(error: PlatformError) | Escapes

  /** The registry and the security guard, as deterministic functions the engine only calls. */
  datatype Engine = Engine(
    kind: (string, string) -> Option<OpKind>,
    execute: (string, string, seq<Frame>, Params) -> Outcome,
    destinationBlocked: Params -> bool,
    defuse: Frame -> Frame)

  function Arity(k: OpKind): nat {
    if k.Binary? then 2 else 1
  }

  predicate IsExport(k: OpKind, s: WorkflowStep) {
    k.Unary? && s.operationId == "export"
  }

  /** Data on its way into an export is defused first. */
  function Prepared(e: Engine, k: OpKind, s: WorkflowStep, inputs: seq<Frame>): seq<Frame> {
    if IsExport(k, s) then seq(|inputs|, i requires 0 <= i < |inputs| => e.defuse(inputs[i])) else inputs
  }

  /** The whole fate of one step given its loaded inputs. */
  function Attempt(e: Engine, s: WorkflowStep, inputs: seq<Frame>): Outcome {
    match e.kind(s.operationId, s.operationVersion)
    case None => Escapes
    case Some(k) =>
      if |s.inputs| != Arity(k) then Rejected(PlatformError(VALIDATION_FAIL, []))
      else if IsExport(k, s) && e.destinationBlocked(s.params) then Rejected(PlatformError(POLICY_DENIED, []))
      else e.execute(s.operationId, s.operationVersion, Prepared(e, k, s, inputs), s.params)
  }

  /** A node that fails, or reads a node that fails, has no value. */
  type Valuation = map<string, Option<Frame>>

  predicate InputsReady(s: WorkflowStep, v: Valuation) {
    forall ref :: ref in s.inputs ==> ref in v && v[ref].Some?
  }

  function InputFrames(s: WorkflowStep, v: Valuation): seq<Frame>
    requires InputsReady(s, v)
  {
    seq(|s.inputs|, i requires 0 <= i < |s.inputs| => v[s.inputs[i]].value)
  }

  function StepValue(e: Engine, s: WorkflowStep, v: Valuation): Option<Frame> {
    if !InputsReady(s, v) then None
    else
      match Attempt(e, s, InputFrames(s, v))
      case Done(output, _) => Some(output)
      case _ => None
  }

  /** `v` is a meaning of `w` over the sources `src`. */
  ghost predicate Solves(e: Engine, w: Workflow, src: Valuation, v: Valuation) {
    && v.Keys == Nodes(w)
    && (forall ref :: ref in SourceRefs(w) ==> ref in src && v[ref] == src[ref])
    && (forall s :: s in w.steps ==> v[s.id] == StepValue(e, s, v))
  }

  lemma SourcesAreNotSteps(w: Workflow)
    ensures SourceRefs(w) !! IdSet(w)
  {
    assert forall ref :: ref in SourceRefs(w) ==> SOURCE_PREFIX <= ref;
    assert forall s: WorkflowStep :: s in w.steps ==> !(SOURCE_PREFIX <= s.id);
  }

  lemma StepValueLocal(e: Engine, s: WorkflowStep, u: Valuation, v: Valuation)
    requires forall ref :: ref in s.inputs ==> ref in u && ref in v && u[ref] == v[ref]
    ensures StepValue(e, s, u) == StepValue(e, s, v)
  {
    if InputsReady(s, u) { assert InputFrames(s, u) == InputFrames(s, v); }
  }

  function StepNamed(w: Workflow, id: string): (s: WorkflowStep)
    requires id in IdSet(w)
    ensures s in w.steps && s.id == id
  {
    FindStepExists(w.steps, id);
    FindStep(w.steps, id).value
  }

  lemma {:induction false} FindStepExists(steps: seq<WorkflowStep>, id: string)
    requires exists s :: s in steps && s.id == id
    ensures FindStep(steps, id).Ok? && FindStep(steps, id).value in steps && FindStep(steps, id).value.id == id
  {
    if steps[0].id != id {
      var s :| s in steps && s.id == id;
      assert s in steps[1..];
      FindStepExists(steps[1..], id);
    }
  }

  /** Values of the sources and of the first `n` steps of `order`, computed in that order. */
  ghost function EvalPrefix(e: Engine, w: Workflow, src: Valuation, order: seq<string>, n: nat): Valuation
    requires n <= |order| && (forall x :: x in order ==> x in IdSet(w))
    requires SourceRefs(w) <= src.Keys
  {
    if n == 0 then map ref | ref in SourceRefs(w) :: src[ref]
    else
      var v := EvalPrefix(e, w, src, order, n - 1);
      v[order[n - 1] := StepValue(e, StepNamed(w, order[n - 1]), v)]
  }

  ghost function Denote(e: Engine, w: Workflow, src: Valuation): Valuation
    requires ValidDag(w) && SourceRefs(w) <= src.Keys
  {
    ValidHasOrder(w);
    var order := ExecutionOrder(w).value;
    EvalPrefix(e, w, src, order, |order|)
  }

  lemma {:induction false} PrefixKeys(e: Engine, w: Workflow, src: Valuation, order: seq<string>, n: nat)
    requires n <= |order| && (forall x :: x in order ==> x in IdSet(w)) && SourceRefs(w) <= src.Keys
    ensures EvalPrefix(e, w, src, order, n).Keys == SourceRefs(w) + Elements(order[..n])
  {
    if n > 0 {
      PrefixKeys(e, w, src, order, n - 1);
      assert order[..n] == order[..n - 1] + [order[n - 1]];
    }
  }

  /** Later steps do not disturb earlier values. */
  lemma {:induction false} PrefixStable(e: Engine, w: Workflow, src: Valuation, order: seq<string>, m: nat, n: nat,
                                        x: string)
    requires m <= n <= |order| && (forall y :: y in order ==> y in IdSet(w)) && SourceRefs(w) <= src.Keys
    requires forall i, j :: 0 <= i < j < |order| ==> order[i] != order[j]
    requires x in EvalPrefix(e, w, src, order, m)
    ensures x in EvalPrefix(e, w, src, order, n)
    ensures EvalPrefix(e, w, src, order, n)[x] == EvalPrefix(e, w, src, order, m)[x]
    decreases n
  {
    if m < n {
      PrefixStable(e, w, src, order, m, n - 1, x);
      PrefixKeys(e, w, src, order, m);
      SourcesAreNotSteps(w);
      assert order[n - 1] in order;
    }
  }

  lemma InputsInPrefix(e: Engine, w: Workflow, src: Valuation, order: seq<string>, i: nat, s: WorkflowStep)
    requires ValidDag(w) && SourceRefs(w) <= src.Keys && TopologicallySorted(w, order) && i < |order|
    requires s in w.steps && s.id == order[i]
    ensures forall ref :: ref in s.inputs ==> ref in EvalPrefix(e, w, src, order, i)
  {
    PrefixKeys(e, w, src, order, i);
    assert ReadsBefore(w, s, order, i);
    assert forall ref :: ref in s.inputs ==> ref in Nodes(w);
  }

  /** The value computed for a step is the value of its operation on the final values of its inputs. */
  lemma PrefixStepValue(e: Engine, w: Workflow, src: Valuation, order: seq<string>, i: nat)
    requires ValidDag(w) && SourceRefs(w) <= src.Keys && TopologicallySorted(w, order) && i < |order|
    ensures order[i] in EvalPrefix(e, w, src, order, |order|)
    ensures EvalPrefix(e, w, src, order, |order|)[order[i]] ==
            StepValue(e, StepNamed(w, order[i]), EvalPrefix(e, w, src, order, |order|))
    ensures EvalPrefix(e, w, src, order, |order|)[order[i]] ==
            StepValue(e, StepNamed(w, order[i]), EvalPrefix(e, w, src, order, i))
  {
    var s := StepNamed(w, order[i]);
    var before, all := EvalPrefix(e, w, src, order, i), EvalPrefix(e, w, src, order, |order|);
    InputsInPrefix(e, w, src, order, i, s);
    forall ref | ref in s.inputs ensures ref in all && before[ref] == all[ref] {
      PrefixStable(e, w, src, order, i, |order|, ref);
    }
    StepValueLocal(e, s, before, all);
    PrefixStable(e, w, src, order, i + 1, |order|, order[i]);
  }

  lemma DenoteSolves(e: Engine, w: Workflow, src: Valuation)
    requires ValidDag(w) && SourceRefs(w) <= src.Keys
    ensures Solves(e, w, src, Denote(e, w, src))
  {
    ValidHasOrder(w);
    var order := ExecutionOrder(w).value;
    var v := Denote(e, w, src);
    PrefixKeys(e, w, src, order, |order|);
    assert order[..|order|] == order;
    assert v.Keys == Nodes(w);
    forall ref | ref in SourceRefs(w) ensures v[ref] == src[ref] {
      PrefixStable(e, w, src, order, 0, |order|, ref);
    }
    forall s | s in w.steps ensures v[s.id] == StepValue(e, s, v) {
      var i := Position(order, s.id);
      PrefixStepValue(e, w, src, order, i);
      StepByIdFinds(w, s);
    }
  }

  /** `v` gives every node of `u` the value `u` gives it. */
  ghost predicate Extends(v: Valuation, u: Valuation) {
    forall x :: x in u ==> x in v && v[x] == u[x]
  }

  lemma SolutionExtendsStep(e: Engine, w: Workflow, src: Valuation, u: Valuation, s: WorkflowStep, v: Valuation)
    requires Solves(e, w, src, v) && Extends(v, u) && s in w.steps && forall ref :: ref in s.inputs ==> ref in u
    ensures Extends(v, u[s.id := StepValue(e, s, u)])
  {
    StepValueLocal(e, s, u, v);
    assert s.id in IdSet(w);
  }

  /** If `v` extends the first `i` steps it extends one more. */
  ghost predicate ExtendsOneMore(e: Engine, w: Workflow, src: Valuation, order: seq<string>, i: nat, v: Valuation)
    requires i < |order| && (forall x :: x in order ==> x in IdSet(w)) && SourceRefs(w) <= src.Keys
  {
    Extends(v, EvalPrefix(e, w, src, order, i)) ==> Extends(v, EvalPrefix(e, w, src, order, i + 1))
  }

  lemma SolutionExtendsNext(e: Engine, w: Workflow, src: Valuation, order: seq<string>, i: nat, v: Valuation)
    requires ValidDag(w) && SourceRefs(w) <= src.Keys && TopologicallySorted(w, order) && i < |order|
    requires Solves(e, w, src, v)
    ensures ExtendsOneMore(e, w, src, order, i, v)
  {
    var u, s := EvalPrefix(e, w, src, order, i), StepNamed(w, order[i]);
    InputsInPrefix(e, w, src, order, i, s);
    if Extends(v, u) { SolutionExtendsStep(e, w, src, u, s, v); }
  }

  lemma {:induction false} SolutionExtendsPrefix(e: Engine, w: Workflow, src: Valuation, order: seq<string>, n: nat,
                                                 v: Valuation)
    requires n <= |order| && (forall x :: x in order ==> x in IdSet(w)) && SourceRefs(w) <= src.Keys
    requires Extends(v, EvalPrefix(e, w, src, order, 0)) && forall i :: 0 <= i < n ==>
      ExtendsOneMore(e, w, src, order, i, v)
    ensures Extends(v, EvalPrefix(e, w, src, order, n))
  {
    if n > 0 {
      SolutionExtendsPrefix(e, w, src, order, n - 1, v);
      assert ExtendsOneMore(e, w, src, order, n - 1, v);
    }
  }

  /** A valid workflow has exactly one meaning, whatever its operations do, and evaluating the steps
      in execution order finds it. */
  lemma MeaningIsUnique(e: Engine, w: Workflow, src: Valuation, v: Valuation)
    requires ValidDag(w) && SourceRefs(w) <= src.Keys
    ensures Solves(e, w, src, v) <==> v == Denote(e, w, src)
  {
    DenoteSolves(e, w, src);
    if Solves(e, w, src, v) {
      ValidHasOrder(w);
      var order := ExecutionOrder(w).value;
      forall i | 0 <= i < |order| ensures ExtendsOneMore(e, w, src, order, i, v) {
        SolutionExtendsNext(e, w, src, order, i, v);
      }
      SolutionExtendsPrefix(e, w, src, order, |order|, v);
      assert v.Keys == Denote(e, w, src).Keys;
    }
  }
}
