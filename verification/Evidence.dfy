/** Reconciliation entries inside a step's recorded evidence. */
module Evidence {
  import opened Values

  function Dicts(items: seq<Value>): seq<map<string, Value>> {
    if items == [] then []
    else (if items[0].Dict? then [items[0].fields] else []) + Dicts(items[1..])
  }

  /** The dictionaries under `reconciliation` when that is a list, and `external_reconciliation` when that
      is a dictionary. */
  function ReconciliationEntries(evidence: Params): seq<map<string, Value>> {
    var listed := Get(evidence, "reconciliation");
    var external := Get(evidence, "external_reconciliation");
    (if listed.List? then Dicts(listed.items) else []) + (if external.Dict? then [external.fields] else [])
  }

  /** `entry.get("passed") is False`. */
  predicate EntryFailed(entry: map<string, Value>) {
    Get(entry, "passed") == Bool(false)
  }

  ghost predicate NoFailedEntry(evidence: Params) {
    forall e :: e in ReconciliationEntries(evidence) ==> !EntryFailed(e)
  }

  lemma {:induction false} DictsMembers(items: seq<Value>, e: map<string, Value>)
    ensures e in Dicts(items) <==> Dict(e) in items
  {
    if items != [] {
      DictsMembers(items[1..], e);
      assert items == [items[0]] + items[1..];
    }
  }

  /** `e` is a dictionary listed under `reconciliation`, or the one under `external_reconciliation`. */
  ghost predicate IsEntry(evidence: Params, e: map<string, Value>) {
    || ("reconciliation" in evidence && evidence["reconciliation"].List? && Dict(e) in evidence["reconciliation"].items)
    || ("external_reconciliation" in evidence && evidence["external_reconciliation"] == Dict(e))
  }

  lemma EntriesAre(evidence: Params, e: map<string, Value>)
    ensures e in ReconciliationEntries(evidence) <==> IsEntry(evidence, e)
  {
    var listed := Get(evidence, "reconciliation");
    if listed.List? { DictsMembers(listed.items, e); }
  }
}
