/** Why distinct artifact paths are needed: the file name of a node is not injective. */
module Collisions {
  import opened Values
  import opened Frames
  import opened Seqs
  import opened Graph
  import opened Dsl
  import opened Denotation
  import opened StateMachine
  import opened Protocol
  import opened Recovery

  /** Saving `a` leaves the artifact of `b` alone, in every store and whatever is saved. */
  ghost predicate SaveKeeps(a: string, b: string) {
    forall d: Durable, f: Frame :: Path(b) in d.files ==> Save(d, a, f).files[Path(b)] == d.files[Path(b)]
  }

  /** The ids are the same, but for ':' in one where there is '_' in the other. */
  ghost predicate SameButForColons(a: string, b: string) {
    |a| == |b| && forall i :: 0 <= i < |a| ==> a[i] == b[i] || (a[i] in {':', '_'} && b[i] in {':', '_'})
  }

  lemma SamePathIff(a: string, b: string)
    ensures Path(a) == Path(b) <==> SameButForColons(a, b)
    ensures |Path(a)| == |a| && forall i :: 0 <= i < |a| ==> Path(a)[i] == if a[i] == ':' then '_' else a[i]
  {
    if Path(a) == Path(b) {
      forall i | 0 <= i < |a| ensures a[i] == b[i] || (a[i] in {':', '_'} && b[i] in {':', '_'}) {
        assert Path(a)[i] == Path(b)[i];
      }
    }
    if SameButForColons(a, b) { assert Path(a) == Path(b); }
  }

  /** Two nodes can overwrite each other exactly when their ids agree up to ':' and '_'. */
  lemma SaveKeepsIff(a: string, b: string)
    ensures SaveKeeps(a, b) <==> Path(a) != Path(b)
    ensures SaveKeeps(a, b) <==> !SameButForColons(a, b)
  {
    SamePathIff(a, b);
    if Path(a) == Path(b) {
      var f, g := Frame([], []), Frame([], [map[]]);
      var d := Durable(RUNNING, map[], map[Path(b) := f]);
      assert Save(d, a, g).files[Path(b)] == g != d.files[Path(b)];
    }
  }

  function Rows(n: nat): Frame {
    Frame([], seq(n, _ => map[]))
  }

  /** One source `name`, without rows, and one step `id` that reads it; every operation has the outcome `outcome`. */
  function OneStepJob(name: string, id: string, outcome: Outcome): Job
    requires !(SOURCE_PREFIX <= id)
  {
    var s: WorkflowStep := Dsl.Step(id, "derive", "1.0", [SourceRef(name)], map[], STOP, []);
    Job("run", Workflow(1, "rc", [name], [s], [], []), [s],
        Engine((op, version) => Some(Unary), (op, version, inputs, params) => outcome, p => false, f => f),
        n => Rows(0), n => "v1")
  }

  lemma OneStepJobIsValid(name: string, id: string, outcome: Outcome)
    requires !(SOURCE_PREFIX <= id)
    ensures ValidDag(OneStepJob(name, id, outcome).w) && ExecutionOrder(OneStepJob(name, id, outcome).w) == Ok([id])
  {
    var w := OneStepJob(name, id, outcome).w;
    var s := w.steps[0];
    SourcesAreNotSteps(w);
    assert SourceRef(name) in SourceRefs(w);
    assert IdSet(w) == {id};
    GraphOfUnique(w);
    assert DepGraph(w)[s.id] == {};
    assert DepGraph(w) == map[id := {}];
    OneNodeOrder(id);
    KahnFailsIffCyclic(DepGraph(w));
  }

  lemma OneNodeOrder(id: string)
    ensures Kahn(map[id := {}]) == Ok([id])
  {
    var g: Deps := map[id := {}];
    assert AtDepth(g, id, 0);
    KahnIffCanonical(g, [id]);
  }

  /** One uninterrupted call that has one unary step to execute. */
  lemma OneStepRun(j: Job, s: WorkflowStep, d: Durable, input: Frame, output: Frame, evidence: Params)
    requires j.steps == [s] && |s.inputs| == 1 && s.operationId != "export" && s.id !in d.records
    requires j.engine.kind(s.operationId, s.operationVersion) == Some(Unary)
    requires d.state == RUNNING && Load(d, s.inputs) == Some([input])
    requires j.engine.execute(s.operationId, s.operationVersion, [input], s.params) == Done(output, evidence)
    ensures Complete(j, Config(d, AtStep(0), [])).d ==
            Upsert(Save(Upsert(d, s.id, RUNNING_RECORD), s.id, output), s.id,
                   CompletedRecord(j.runId, s, evidence)).(state := VERIFYING)
  {
    var d1 := Upsert(d, s.id, RUNNING_RECORD);
    var d2 := Save(d1, s.id, output);
    var d3 := Upsert(d2, s.id, CompletedRecord(j.runId, s, evidence));
    var c0, c1 := Config(d, AtStep(0), []), Config(d1, Executing(0, [input]), []);
    var c2, c3 := Config(d1, Executed(0, Done(output, evidence)), [s.id]), Config(d2, Saved(0, evidence), [s.id]);
    var c4, c5 := Config(d3, AtStep(1), [s.id]), Config(d3.(state := VERIFYING), Idle, [s.id]);
    assert Begin(j, c0, 0, s) == c1;
    assert Complete(j, c5) == c5;
    assert Complete(j, c4) == Complete(j, Advance(j, c4)) == c5;
    assert Complete(j, c3) == Complete(j, Advance(j, c3)) == c5;
    assert Complete(j, c2) == Complete(j, Advance(j, c2)) == c5;
    assert c1.log + [s.id] == [s.id] && Advance(j, c1) == c2;
    assert Complete(j, c1) == Complete(j, c2) == c5;
    assert Complete(j, c0) == Complete(j, Advance(j, c0)) == c5;
  }

  /** One uninterrupted call whose one step is rejected. */
  lemma OneStepRejected(j: Job, s: WorkflowStep, d: Durable, input: Frame, e: PlatformError)
    requires j.steps == [s] && |s.inputs| == 1 && s.operationId != "export" && s.id !in d.records
    requires j.engine.kind(s.operationId, s.operationVersion) == Some(Unary)
    requires d.state == RUNNING && Load(d, s.inputs) == Some([input])
    requires j.engine.execute(s.operationId, s.operationVersion, [input], s.params) == Rejected(e)
    ensures Complete(j, Config(d, AtStep(0), [])).d ==
            Upsert(Upsert(d, s.id, RUNNING_RECORD), s.id, FailedRecord(s, e)).(state := QUARANTINED)
  {
    var d1 := Upsert(d, s.id, RUNNING_RECORD);
    var d2 := Upsert(d1, s.id, FailedRecord(s, e));
    var c0, c1 := Config(d, AtStep(0), []), Config(d1, Executing(0, [input]), []);
    var c2, c3 := Config(d1, Executed(0, Rejected(e)), [s.id]), Config(d2, Quarantining, [s.id]);
    var c4 := Config(d2.(state := QUARANTINED), Idle, [s.id]);
    assert Begin(j, c0, 0, s) == c1;
    assert Complete(j, c4) == c4;
    assert Complete(j, c3) == Complete(j, Advance(j, c3)) == c4;
    assert Complete(j, c2) == Complete(j, Advance(j, c2)) == c4;
    assert c1.log + [s.id] == [s.id] && Advance(j, c1) == c2;
    assert Complete(j, c1) == Complete(j, c2) == c4;
    assert Complete(j, c0) == Complete(j, Advance(j, c0)) == c4;
  }

  /** Whenever a step may share its file with a source it reads, there is a run of a workflow that passes
      validation, and reaches VERIFYING, in which the step's output has overwritten the locked source. */
  lemma StepOverwritesSource(name: string, id: string)
    requires !(SOURCE_PREFIX <= id) && Path(id) == Path(SourceRef(name))
    ensures ValidDag(OneStepJob(name, id, Done(Rows(1), map[])).w)
    ensures var j := OneStepJob(name, id, Done(Rows(1), map[]));
      var d := Complete(j, Call(Start(j))).d;
      d.state == VERIFYING && Path(SourceRef(name)) in d.files && d.files[Path(SourceRef(name))] != j.sources(name)
  {
    OneStepJobIsValid(name, id, Done(Rows(1), map[]));
    var j, ref := OneStepJob(name, id, Done(Rows(1), map[])), SourceRef(name);
    var d := Seeded(j, 1);
    assert Seeded(j, 0) == Durable(RUNNING, map[], map[]);
    assert id != ref by { assert SOURCE_PREFIX <= ref; }
    assert Load(d, [ref]).value == [Rows(0)];
    OneStepRun(j, j.steps[0], d, Rows(0), Rows(1), map[]);
    assert |Rows(1).rows| != |Rows(0).rows|;
  }

  /** An instance: the step id `source_orders` next to the source `orders`. */
  lemma SourceOrdersCollides()
    ensures !(SOURCE_PREFIX <= "source_orders") && Path("source_orders") == Path(SourceRef("orders"))
  {
    assert "source_orders"[6] != SOURCE_PREFIX[6];
    assert SourceRef("orders") == "source:orders";
  }
}
