/** Every durable state a run can be in, however often it crashed: some number of steps completed with
    their true values, plus at most a trace of one further attempt. */
module Recovery {
  import opened Values
  import opened Frames
  import opened Seqs
  import opened Graph
  import opened Dsl
  import opened Denotation
  import opened StateMachine
  import opened Protocol

  // ---- Completed prefix ----

  /** The first `k` steps all succeed, given the fate of every step. */
  ghost predicate DoneBefore(fates: seq<Outcome>, k: nat) {
    k <= |fates| && forall i :: 0 <= i < k ==> fates[i].Done?
  }

  /** The stores when exactly the first `k` steps have completed. */
  ghost function Ideal(j: Job, fates: seq<Outcome>, k: nat): Durable
    requires k <= |j.steps| && DoneBefore(fates, k)
  {
    if k == 0 then Seeded(j, |j.w.sources|)
    else
      var d, s, fate := Ideal(j, fates, k - 1), j.steps[k - 1], fates[k - 1];
      Upsert(Save(d, s.id, fate.output), s.id, CompletedRecord(j.runId, s, fate.evidence))
  }

  /** `id` is recorded as COMPLETED and its file holds its value under `m`. */
  ghost predicate Settled(m: Valuation, d: Durable, id: string) {
    IsCompleted(d, id) && Path(id) in d.files && id in m && m[id] == Some(d.files[Path(id)])
  }

  ghost function Paths(ids: set<string>): set<string> {
    set x | x in ids :: Path(x)
  }

  /** Exactly the nodes `ids` have records and files, and all are settled. */
  ghost predicate Holds(m: Valuation, d: Durable, ids: set<string>) {
    d.records.Keys == ids && d.files.Keys == Paths(ids) && forall x :: x in ids ==> Settled(m, d, x)
  }

  lemma AddSettled(m: Valuation, d: Durable, ids: set<string>, x: string, f: Frame, r: StepRecord)
    requires Holds(m, d, ids) && r.status == Completed
    requires forall y :: y in ids && y != x ==> Path(y) != Path(x)
    requires x in m && m[x] == Some(f)
    ensures Holds(m, Upsert(Save(d, x, f), x, r), ids + {x})
  {
    var d' := Upsert(Save(d, x, f), x, r);
    assert Paths(ids + {x}) == Paths(ids) + {Path(x)};
    forall y | y in ids + {x} ensures Settled(m, d', y) {
      if y != x { assert Settled(m, d, y); }
    }
  }

  ghost function Refs(names: seq<string>): set<string> {
    set s | s in names :: SourceRef(s)
  }

  /** The sources have their locked frames as values. */
  ghost predicate SourcesValued(j: Job, m: Valuation) {
    forall n :: n in j.w.sources ==> SourceRef(n) in m && m[SourceRef(n)] == Some(j.sources(n))
  }

  lemma {:induction false} SeededHolds(j: Job, m: Valuation, n: nat)
    requires n <= |j.w.sources| && SourcesValued(j, m) && DistinctPaths(Refs(j.w.sources))
    ensures Holds(m, Seeded(j, n), Refs(j.w.sources[..n])) && Seeded(j, n).state == RUNNING
  {
    if n > 0 {
      var name := j.w.sources[n - 1];
      var before := Refs(j.w.sources[..n - 1]);
      SeededHolds(j, m, n - 1);
      RefsGrow(j.w.sources, n - 1);
      AddSettled(m, Seeded(j, n - 1), before, SourceRef(name), j.sources(name),
                 SourceRecord(j.runId, SourceRef(name), j.snapshots(name)));
    }
  }

  lemma RefsGrow(names: seq<string>, n: nat)
    requires n < |names|
    ensures Refs(names[..n + 1]) == Refs(names[..n]) + {SourceRef(names[n])}
    ensures Refs(names[..n + 1]) <= Refs(names)
  {
    assert names[..n + 1] == names[..n] + [names[n]];
  }

  ghost function IdsOf(steps: seq<WorkflowStep>): set<string> {
    set s | s in steps :: s.id
  }

  /** The nodes finished once the first `k` steps are. */
  ghost function Finished(j: Job, k: nat): set<string>
    requires k <= |j.steps|
  {
    SourceRefs(j.w) + IdsOf(j.steps[..k])
  }

  lemma FinishedGrows(j: Job, k: nat)
    requires k < |j.steps|
    ensures Finished(j, k + 1) == Finished(j, k) + {j.steps[k].id}
  {
    assert j.steps[..k + 1] == j.steps[..k] + [j.steps[k]];
  }

  // ---- What the proofs need to know about a job ----

  /** The meaning of a job spelled out along its execution order: every node's value, the fate of each
      step, and the nodes finished before each step. */
  datatype Script = Script(m: Valuation, fates: seq<Outcome>, finished: seq<set<string>>)

  /** `x` is not among `ids` and shares no file with them. */
  ghost predicate Fresh(ids: set<string>, x: string) {
    x !in ids && forall y :: y in ids ==> Path(y) != Path(x)
  }

  ghost predicate ReadsOnly(s: WorkflowStep, ids: set<string>) {
    forall ref :: ref in s.inputs ==> ref in ids
  }

  ghost predicate FateIsTrue(j: Job, m: Valuation, fates: seq<Outcome>, i: nat)
    requires i < |j.steps| && i < |fates|
  {
    fates[i] == Fate(j, m, i)
  }

  /** The value of step `i` is the output its fate names. */
  ghost predicate FateIsValue(m: Valuation, s: WorkflowStep, fate: Outcome) {
    fate.Done? ==> s.id in m && m[s.id] == Some(fate.output)
  }

  ghost predicate Sane(j: Job, t: Script) {
    && |t.fates| == |j.steps| && |t.finished| == |j.steps| + 1
    && Holds(t.m, Seeded(j, |j.w.sources|), t.finished[0])
    && Seeded(j, |j.w.sources|).state == RUNNING
    && (forall i :: 0 <= i < |j.steps| ==> t.finished[i + 1] == t.finished[i] + {j.steps[i].id})
    && (forall i :: 0 <= i < |j.steps| ==> Fresh(t.finished[i], j.steps[i].id))
    && (forall i :: 0 <= i < |j.steps| ==> ReadsOnly(j.steps[i], t.finished[i]))
    && (forall i :: 0 <= i < |j.steps| ==> FateIsTrue(j, t.m, t.fates, i))
    && (forall i :: 0 <= i < |j.steps| ==> FateIsValue(t.m, j.steps[i], t.fates[i]))
  }

  lemma FinishedAreNodes(j: Job, i: nat)
    requires JobOk(j) && i <= |j.steps|
    ensures Finished(j, i) <= Nodes(j.w)
  {
    forall x | x in IdsOf(j.steps[..i]) ensures x in IdSet(j.w) {
      var s :| s in j.steps[..i] && s.id == x;
      assert s in j.steps;
    }
  }

  lemma StepsDistinct(j: Job)
    requires Planned(j)
    ensures forall a, b :: 0 <= a < b < |j.steps| ==> j.steps[a].id != j.steps[b].id
  {
    var order := StepIds(j.steps);
    OrderIsTopological(j.w, order);
    forall a, b | 0 <= a < b < |j.steps| ensures j.steps[a].id != j.steps[b].id {
      assert order[a] != order[b];
    }
  }

  lemma NotFinishedBefore(j: Job, i: nat)
    requires JobOk(j) && i < |j.steps|
    ensures j.steps[i].id in Nodes(j.w) && j.steps[i].id !in Finished(j, i)
  {
    StepsDistinct(j);
    SourcesAreNotSteps(j.w);
    assert j.steps[i] in j.steps;
    assert forall a :: 0 <= a < i ==> j.steps[..i][a] == j.steps[a];
  }

  lemma OrderIsFresh(j: Job, i: nat, ids: set<string>, nodes: set<string>)
    requires JobOk(j) && i < |j.steps| && ids == Finished(j, i) && nodes == Nodes(j.w)
    ensures Fresh(ids, j.steps[i].id)
  {
    FinishedAreNodes(j, i);
    NotFinishedBefore(j, i);
    FreshAmong(nodes, ids, j.steps[i].id);
  }

  lemma FreshAmong(nodes: set<string>, ids: set<string>, x: string)
    requires DistinctPaths(nodes) && ids <= nodes && x in nodes && x !in ids
    ensures Fresh(ids, x)
  {
  }

  lemma OrderReadsFinished(j: Job, i: nat)
    requires JobOk(j) && i < |j.steps|
    ensures ReadsOnly(j.steps[i], Finished(j, i))
  {
    var order, s := StepIds(j.steps), j.steps[i];
    OrderIsTopological(j.w, order);
    assert ReadsBefore(j.w, s, order, i);
    forall ref | ref in s.inputs ensures ref in Finished(j, i) {
      assert ref in Nodes(j.w);
      if ref in order[..i] {
        var a :| 0 <= a < i && order[a] == ref;
        assert j.steps[..i][a].id == ref;
      }
    }
  }

  lemma MeaningSolves(j: Job)
    requires JobOk(j)
    ensures Solves(j.engine, j.w, Locked(j), Meaning(j))
  {
    assert SourceRefs(j.w) <= Locked(j).Keys;
    DenoteSolves(j.engine, j.w, Locked(j));
  }

  lemma SolutionGivesFate(j: Job, m: Valuation, i: nat)
    requires Solves(j.engine, j.w, Locked(j), m) && i < |j.steps| && j.steps[i] in j.w.steps
    ensures Fate(j, m, i).Done? ==> j.steps[i].id in m && m[j.steps[i].id] == Some(Fate(j, m, i).output)
  {
  }

  lemma SolutionGivesSources(j: Job, m: Valuation)
    requires Solves(j.engine, j.w, Locked(j), m)
    ensures SourcesValued(j, m)
  {
    forall n | n in j.w.sources ensures SourceRef(n) in m && m[SourceRef(n)] == Some(j.sources(n)) {
      assert SourceRef(n) in SourceRefs(j.w);
      assert SourceRef(n)[|SOURCE_PREFIX|..] == n;
    }
  }

  ghost function ScriptOf(j: Job): Script
    requires JobOk(j)
  {
    Script(Meaning(j),
           seq(|j.steps|, i requires 0 <= i < |j.steps| => Fate(j, Meaning(j), i)),
           seq(|j.steps| + 1, i requires 0 <= i < |j.steps| + 1 => Finished(j, i)))
  }

  lemma SourcesSeeded(j: Job)
    requires JobOk(j)
    ensures Holds(Meaning(j), Seeded(j, |j.w.sources|), SourceRefs(j.w)) && Seeded(j, |j.w.sources|).state == RUNNING
  {
    var m := Meaning(j);
    MeaningSolves(j);
    SolutionGivesSources(j, m);
    assert Refs(j.w.sources) == SourceRefs(j.w) <= Nodes(j.w);
    SeededHolds(j, m, |j.w.sources|);
    assert j.w.sources[..|j.w.sources|] == j.w.sources;
  }

  lemma ScriptIsSane(j: Job)
    requires JobOk(j)
    ensures Sane(j, ScriptOf(j))
  {
    var t := ScriptOf(j);
    SourcesSeeded(j);
    assert t.finished[0] == SourceRefs(j.w);
    forall i | 0 <= i < |j.steps| ensures t.finished[i + 1] == t.finished[i] + {j.steps[i].id} { FinishedGrows(j, i); }
    forall i | 0 <= i < |j.steps| ensures Fresh(t.finished[i], j.steps[i].id) {
      OrderIsFresh(j, i, t.finished[i], Nodes(j.w));
    }
    forall i | 0 <= i < |j.steps| ensures ReadsOnly(j.steps[i], t.finished[i]) { OrderReadsFinished(j, i); }
    assert forall i :: 0 <= i < |j.steps| ==> FateIsTrue(j, t.m, t.fates, i);
    forall i | 0 <= i < |j.steps| ensures FateIsValue(t.m, j.steps[i], t.fates[i]) {
      MeaningSolves(j);
      SolutionGivesFate(j, t.m, i);
    }
  }

  // ---- The ideal states ----

  lemma IdealStep(j: Job, t: Script, k: nat, d: Durable)
    requires Sane(j, t) && k < |j.steps| && t.fates[k].Done? && Holds(t.m, d, t.finished[k])
    ensures var s, fate := j.steps[k], t.fates[k];
      Holds(t.m, Upsert(Save(d, s.id, fate.output), s.id, CompletedRecord(j.runId, s, fate.evidence)),
        t.finished[k + 1])
  {
    var s, fate := j.steps[k], t.fates[k];
    assert Fresh(t.finished[k], s.id) && FateIsValue(t.m, s, fate);
    AddSettled(t.m, d, t.finished[k], s.id, fate.output, CompletedRecord(j.runId, s, fate.evidence));
  }

  lemma {:induction false} IdealHolds(j: Job, t: Script, k: nat)
    requires Sane(j, t) && DoneBefore(t.fates, k)
    ensures Holds(t.m, Ideal(j, t.fates, k), t.finished[k]) && Ideal(j, t.fates, k).state == RUNNING
  {
    if k > 0 {
      IdealHolds(j, t, k - 1);
      IdealStep(j, t, k - 1, Ideal(j, t.fates, k - 1));
    }
  }

  lemma {:induction false} FinishedKeeps(j: Job, t: Script, i: nat, k: nat)
    requires Sane(j, t) && i < k <= |j.steps|
    ensures j.steps[i].id in t.finished[k]
  {
    assert t.finished[k - 1 + 1] == t.finished[k - 1] + {j.steps[k - 1].id};
    if i < k - 1 { FinishedKeeps(j, t, i, k - 1); }
  }

  /** No step between `i` and `k` has the id of the one at `i`. */
  ghost predicate LastOfItsId(j: Job, i: nat, k: nat)
    requires i < k <= |j.steps|
  {
    forall a :: i < a < k ==> j.steps[a].id != j.steps[i].id
  }

  lemma {:induction false} IdealKeepsRecord(j: Job, fates: seq<Outcome>, k: nat, i: nat)
    requires k <= |j.steps| && DoneBefore(fates, k) && i < k && LastOfItsId(j, i, k)
    ensures j.steps[i].id in Ideal(j, fates, k).records
    ensures Ideal(j, fates, k).records[j.steps[i].id] == CompletedRecord(j.runId, j.steps[i], fates[i].evidence)
  {
    if i < k - 1 { IdealKeepsRecord(j, fates, k - 1, i); }
  }

  /** The record of a finished step is the one its own completion wrote. */
  lemma IdealRecord(j: Job, t: Script, k: nat, i: nat)
    requires Sane(j, t) && DoneBefore(t.fates, k) && i < k
    ensures j.steps[i].id in Ideal(j, t.fates, k).records
    ensures Ideal(j, t.fates, k).records[j.steps[i].id] == CompletedRecord(j.runId, j.steps[i], t.fates[i].evidence)
  {
    forall a | i < a < k ensures j.steps[a].id != j.steps[i].id {
      FinishedKeeps(j, t, i, a);
      assert Fresh(t.finished[a], j.steps[a].id);
    }
    IdealKeepsRecord(j, t.fates, k, i);
  }

  /** With all earlier steps done, step `k` finds nothing of its own and all of its inputs. */
  lemma Frontier(j: Job, t: Script, k: nat)
    requires Sane(j, t) && DoneBefore(t.fates, k) && k < |j.steps|
    ensures Ideal(j, t.fates, k).state == RUNNING
    ensures j.steps[k].id !in Ideal(j, t.fates, k).records && Path(j.steps[k].id) !in Ideal(j, t.fates, k).files
    ensures forall ref :: ref in j.steps[k].inputs ==>
      Path(ref) != Path(j.steps[k].id) && Settled(t.m, Ideal(j, t.fates, k), ref)
  {
    IdealHolds(j, t, k);
    assert Fresh(t.finished[k], j.steps[k].id) && ReadsOnly(j.steps[k], t.finished[k]);
  }
}
