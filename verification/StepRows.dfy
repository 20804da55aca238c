/** Step records as `list_step_runs` returns them: one row each, in no particular order. */
module StepRows {
  import opened Protocol

  datatype StepRow = StepRow(id: string, record: StepRecord)

  /** `rows` holds exactly the records, each once. */
  ghost predicate Lists(rows: seq<StepRow>, records: map<string, StepRecord>) {
    && (forall i, j :: 0 <= i < j < |rows| ==> rows[i].id != rows[j].id)
    && (forall r :: r in rows ==> r.id in records && records[r.id] == r.record)
    && (forall id :: id in records ==> StepRow(id, records[id]) in rows)
  }

  /** `{s.step_id: s for s in step_runs}`. */
  function ById(rows: seq<StepRow>): map<string, StepRecord> {
    if rows == [] then map[]
    else
      var last := rows[|rows| - 1];
      ById(rows[..|rows| - 1])[last.id := last.record]
  }

  lemma {:induction false} ByIdKeys(rows: seq<StepRow>)
    ensures forall id :: id in ById(rows) <==> exists r :: r in rows && r.id == id
    ensures forall id :: id in ById(rows) ==> StepRow(id, ById(rows)[id]) in rows
  {
    if rows != [] {
      var n := |rows| - 1;
      ByIdKeys(rows[..n]);
      assert rows == rows[..n] + [rows[n]];
    }
  }

  lemma ListedById(rows: seq<StepRow>, records: map<string, StepRecord>)
    requires Lists(rows, records)
    ensures ById(rows) == records
  {
    ByIdKeys(rows);
    forall id | id in records ensures id in ById(rows) && ById(rows)[id] == records[id] {
      assert StepRow(id, records[id]) in rows;
      assert StepRow(id, ById(rows)[id]) in rows;
    }
  }
}
