/** The durable stores: the `runs` and `step_runs` tables, and the artifact files. Every method is one
    committed write or one read. */
module Store {
  import opened Values
  import opened Frames
  import opened Ids
  import opened StateMachine
  import opened Protocol
  import opened StepRows

  datatype RunRecord = RunRecord(
    workflowVersion: int,
    contractId: string,
    state: RunState,
    snapshots: map<string, string>)

  /** The entries of one run in a table keyed by run and node. */
  function OfRun<V>(table: map<(string, string), V>, runId: string): map<string, V> {
    map k | k in table.Keys && k.0 == runId :: k.1 := table[k]
  }

  /** The entries of all other runs. */
  function Without<V>(table: map<(string, string), V>, runId: string): map<(string, string), V> {
    map k | k in table.Keys && k.0 != runId :: table[k]
  }

  lemma UpdateOne<V>(table: map<(string, string), V>, runId: string, id: string, v: V)
    ensures OfRun(table[(runId, id) := v], runId) == OfRun(table, runId)[id := v]
    ensures Without(table[(runId, id) := v], runId) == Without(table, runId)
  {
    var t' := table[(runId, id) := v];
    forall x ensures x in OfRun(t', runId) <==> (runId, x) in t' {}
    forall x ensures x in OfRun(table, runId) <==> (runId, x) in table {}
    assert OfRun(t', runId).Keys == OfRun(table, runId)[id := v].Keys;
    assert Without(t', runId).Keys == Without(table, runId).Keys;
  }

  /** Tables that agree outside one run agree on every other run. */
  lemma OtherRunsKept<V>(a: map<(string, string), V>, b: map<(string, string), V>, runId: string, other: string)
    requires Without(a, runId) == Without(b, runId) && other != runId
    ensures OfRun(a, other) == OfRun(b, other)
  {
    forall x ensures (other, x) in a <==> (other, x) in b {
      assert (other, x) in Without(a, runId) <==> (other, x) in a;
      assert (other, x) in Without(b, runId) <==> (other, x) in b;
    }
    forall x ensures x in OfRun(a, other) <==> (other, x) in a {}
    forall x ensures x in OfRun(b, other) <==> (other, x) in b {}
    assert OfRun(a, other).Keys == OfRun(b, other).Keys;
    forall x | x in OfRun(a, other) ensures OfRun(a, other)[x] == OfRun(b, other)[x] {
      assert Without(a, runId)[(other, x)] == Without(b, runId)[(other, x)];
    }
  }

  class RunStore {
    var runs: map<string, RunRecord>
    var stepRuns: map<(string, string), StepRecord>

    constructor ()
      ensures runs == map[] && stepRuns == map[]
    {
      runs, stepRuns := map[], map[];
    }

    ghost function Records(runId: string): map<string, StepRecord>
      reads this
    {
      OfRun(stepRuns, runId)
    }

    /** INSERT: refused when the id is taken. */
    method CreateRun(runId: string, run: RunRecord) returns (ok: bool)
      modifies this`runs
      ensures ok == (runId !in old(runs))
      ensures runs == if ok then old(runs)[runId := run] else old(runs)
    {
      ok := runId !in runs;
      if ok { runs := runs[runId := run]; }
    }

    method GetRun(runId: string) returns (r: Option<RunRecord>)
      ensures r == if runId in runs then Some(runs[runId]) else None
    {
      r := if runId in runs then Some(runs[runId]) else None;
    }

    /** Moves a run along a legal edge and nothing else; unknown runs and illegal edges raise. */
    method UpdateRunState(runId: string, target: RunState) returns (r: Result<RunRecord, PlatformError>)
      modifies this`runs
      ensures runId !in old(runs) ==> r == Err(PlatformError(SCHEMA_MISSING, [runId])) && runs == old(runs)
      ensures runId in old(runs) && Transition(old(runs)[runId].state, target).Some? ==>
        r == Err(Transition(old(runs)[runId].state, target).value) && runs == old(runs)
      ensures runId in old(runs) && Transition(old(runs)[runId].state, target).None? ==>
        r == Ok(old(runs)[runId].(state := target)) && runs == old(runs)[runId := r.value]
    {
      if runId !in runs {
        return Err(PlatformError(SCHEMA_MISSING, [runId]));
      }
      var illegal := Transition(runs[runId].state, target);
      if illegal.Some? {
        return Err(illegal.value);
      }
      runs := runs[runId := runs[runId].(state := target)];
      return Ok(runs[runId]);
    }

    /** INSERT or overwrite the row of one step of one run; every other row stays. */
    method UpsertStepRun(runId: string, id: string, record: StepRecord)
      modifies this`stepRuns
      ensures stepRuns == old(stepRuns)[(runId, id) := record]
      ensures Records(runId) == old(Records(runId))[id := record]
      ensures Without(stepRuns, runId) == old(Without(stepRuns, runId))
    {
      UpdateOne(stepRuns, runId, id, record);
      stepRuns := stepRuns[(runId, id) := record];
    }

    method GetStepRun(runId: string, id: string) returns (r: Option<StepRecord>)
      ensures r == if id in Records(runId) then Some(Records(runId)[id]) else None
    {
      r := if (runId, id) in stepRuns then Some(stepRuns[(runId, id)]) else None;
    }

    /** The rows of one run, once each. */
    method ListStepRuns(runId: string) returns (rows: seq<StepRow>)
      ensures Lists(rows, Records(runId))
    {
      var table := OfRun(stepRuns, runId);
      var ids := SortedSeq(table.Keys);
      SortedHasNoDuplicates(ids);
      assert forall i :: 0 <= i < |ids| ==> ids[i] in ids;
      rows := seq(|ids|, i requires 0 <= i < |ids| && ids[i] in table => StepRow(ids[i], table[ids[i]]));
      forall id | id in table ensures StepRow(id, table[id]) in rows {
        assert id in ids;
        var i :| 0 <= i < |ids| && ids[i] == id;
        assert rows[i] == StepRow(id, table[id]);
      }
    }
  }

  class ArtifactStore {
    var files: map<(string, string), Frame>

    constructor ()
      ensures files == map[]
    {
      files := map[];
    }

    function Files(runId: string): map<string, Frame>
      reads this
    {
      OfRun(files, runId)
    }

    /** Writes the file of a node, over whatever shares its path; the files of other runs stay. */
    method Save(runId: string, node: string, f: Frame) returns (artifactId: string)
      modifies this
      ensures artifactId == ArtifactId(runId, node)
      ensures Files(runId) == old(Files(runId))[Path(node) := f]
      ensures Without(files, runId) == old(Without(files, runId))
    {
      UpdateOne(files, runId, Path(node), f);
      files := files[(runId, Path(node)) := f];
      artifactId := ArtifactId(runId, node);
    }

    /** None when there is no file: the read raises. */
    method LoadByIds(runId: string, node: string) returns (f: Option<Frame>)
      ensures f == if Path(node) in Files(runId) then Some(Files(runId)[Path(node)]) else None
    {
      f := if (runId, Path(node)) in files then Some(files[(runId, Path(node))]) else None;
    }
  }

  /** What the stores hold about one run. */
  ghost function View(store: RunStore, artifacts: ArtifactStore, runId: string): Durable
    requires runId in store.runs
    reads store, artifacts
  {
    Durable(store.runs[runId].state, store.Records(runId), artifacts.Files(runId))
  }
}
