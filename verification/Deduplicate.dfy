/** The deduplicate operation: one row per key, first or last in the processing order, in original row order. */
module Deduplicate {
  import opened Values
  import opened Seqs
  import opened Frames
  import opened CellOrder
  import opened Join

  datatype Keep = KeepFirst | KeepLast

  datatype DedupParams = DedupParams(keys: seq<string>, keep: Keep, orderBy: Option<string>)

  datatype DedupResult = DedupResult(output: Frame, duplicateGroups: nat, removed: nat)

  // ---- The processing order ----

  ghost predicate Permutation(order: seq<nat>, n: nat) {
    && Distinct(order)
    && (forall i :: 0 <= i < |order| ==> order[i] < n)
    && (forall p :: 0 <= p < n ==> p in order)
  }

  /** Row order without `order_by`; otherwise any order sorted by that column, since the engine's sort
      does not promise to keep ties in place. */
  ghost predicate LegalOrder(rows: seq<Row>, orderBy: Option<string>, order: seq<nat>) {
    && Permutation(order, |rows|)
    && match orderBy
       case None => |order| == |rows| && forall a :: 0 <= a < |order| ==> order[a] == a
       case Some(c) => forall a, b :: 0 <= a < b < |order| ==>
         CellLeq(CellAt(rows[order[a]], c), CellAt(rows[order[b]], c))
  }

  // ---- Legal orders exist ----

  ghost predicate SortedBy(rows: seq<Row>, c: string, order: seq<nat>) {
    && (forall i :: 0 <= i < |order| ==> order[i] < |rows|)
    && forall a, b :: 0 <= a < b < |order| ==> CellLeq(CellAt(rows[order[a]], c), CellAt(rows[order[b]], c))
  }

  ghost predicate ListsBelow(order: seq<nat>, n: nat) {
    Distinct(order) && forall p: nat :: p in order <==> p < n
  }

  ghost function Inserted(rows: seq<Row>, c: string, order: seq<nat>, p: nat): seq<nat>
    requires SortedBy(rows, c, order) && p < |rows|
  {
    if order == [] then [p]
    else if CellLeq(CellAt(rows[p], c), CellAt(rows[order[0]], c)) then [p] + order
    else [order[0]] + Inserted(rows, c, order[1..], p)
  }

  lemma {:induction false} InsertedHolds(rows: seq<Row>, c: string, order: seq<nat>, p: nat)
    requires SortedBy(rows, c, order) && p < |rows|
    ensures forall q :: q in Inserted(rows, c, order, p) <==> q == p || q in order
    ensures Distinct(order) && p !in order ==> Distinct(Inserted(rows, c, order, p))
  {
    if order != [] {
      var rest := order[1..];
      assert order == [order[0]] + rest;
      InsertedHolds(rows, c, rest, p);
      if Distinct(order) && p !in order { DistinctTail(order); }
    }
  }

  lemma DistinctTail(order: seq<nat>)
    requires order != [] && Distinct(order)
    ensures Distinct(order[1..]) && order[0] !in order[1..]
  {
    var rest := order[1..];
    forall i, j | 0 <= i < j < |rest| ensures rest[i] != rest[j] { assert order[i + 1] != order[j + 1]; }
    forall i | 0 <= i < |rest| ensures rest[i] != order[0] { assert order[i + 1] != order[0]; }
  }

  lemma {:induction false} InsertedIsSorted(rows: seq<Row>, c: string, order: seq<nat>, p: nat)
    requires SortedBy(rows, c, order) && p < |rows|
    ensures SortedBy(rows, c, Inserted(rows, c, order, p))
  {
    if order != [] {
      var rest := order[1..];
      var cell := (q: nat) requires q < |rows| => CellAt(rows[q], c);
      if CellLeq(cell(p), cell(order[0])) {
        forall b | 0 <= b < |order| ensures CellLeq(cell(p), cell(order[b])) {
          if b > 0 { CellLeqTransitive(cell(p), cell(order[0]), cell(order[b])); }
        }
      } else {
        InsertedIsSorted(rows, c, rest, p);
        InsertedHolds(rows, c, rest, p);
        CellLeqTotal(cell(p), cell(order[0]));
        var tail := Inserted(rows, c, rest, p);
        forall b | 0 <= b < |tail| ensures CellLeq(cell(order[0]), cell(tail[b])) {
          assert tail[b] in tail;
          if tail[b] != p {
            var k :| 0 <= k < |rest| && rest[k] == tail[b];
            assert order[k + 1] == rest[k];
          }
        }
      }
    }
  }

  lemma {:induction false} SortedExists(rows: seq<Row>, c: string, n: nat) returns (order: seq<nat>)
    requires n <= |rows|
    ensures SortedBy(rows, c, order) && ListsBelow(order, n)
  {
    if n == 0 {
      order := [];
    } else {
      var before := SortedExists(rows, c, n - 1);
      InsertedHolds(rows, c, before, n - 1);
      InsertedIsSorted(rows, c, before, n - 1);
      order := Inserted(rows, c, before, n - 1);
      assert n - 1 !in before;
      forall p: nat ensures p in order <==> p < n { assert p in order <==> p == n - 1 || p in before; }
    }
  }

  /** Every frame can be processed in some legal order, whatever the ordering column. */
  lemma LegalOrderExists(rows: seq<Row>, orderBy: Option<string>)
    ensures exists order :: LegalOrder(rows, orderBy, order)
  {
    match orderBy
    case None =>
      var order: seq<nat> := seq(|rows|, i => i);
      forall p | 0 <= p < |rows| ensures p in order { assert order[p] == p; }
      assert LegalOrder(rows, orderBy, order);
    case Some(c) =>
      var order := SortedExists(rows, c, |rows|);
      assert LegalOrder(rows, orderBy, order);
  }

  // ---- The operation ----

  predicate SameKey(rows: seq<Row>, keys: seq<string>, p: nat, q: nat) {
    p < |rows| && q < |rows| && Key(rows[p], keys) == Key(rows[q], keys)
  }

  /** `unique(subset=keys, keep=keep, maintain_order=True)` over the positions in processing order. */
  function Kept(rows: seq<Row>, keys: seq<string>, keep: Keep, order: seq<nat>): seq<nat> {
    if order == [] then []
    else
      match keep
      case KeepFirst =>
        var init, last := order[..|order| - 1], order[|order| - 1];
        Kept(rows, keys, keep, init) + (if exists p :: p in init && SameKey(rows, keys, p, last) then [] else [last])
      case KeepLast =>
        var rest := order[1..];
        (if exists p :: p in rest && SameKey(rows, keys, p, order[0]) then [] else [order[0]])
          + Kept(rows, keys, keep, rest)
  }

  /** The kept positions below `n`, ascending: sorted by row index. */
  function Ascending(kept: seq<nat>, n: nat): seq<nat> {
    if n == 0 then [] else Ascending(kept, n - 1) + (if n - 1 in kept then [n - 1] else [])
  }

  /** The positions below `n` that were not kept. */
  function Removed(kept: seq<nat>, n: nat): seq<nat> {
    if n == 0 then [] else Removed(kept, n - 1) + (if n - 1 in kept then [] else [n - 1])
  }

  function RowsAt(rows: seq<Row>, positions: seq<nat>): seq<Row>
    requires forall i :: 0 <= i < |positions| ==> positions[i] < |rows|
  {
    seq(|positions|, i requires 0 <= i < |positions| => rows[positions[i]])
  }

  lemma {:induction false} AscendingFacts(kept: seq<nat>, n: nat)
    ensures forall p :: p in Ascending(kept, n) <==> p < n && p in kept
    ensures forall i :: 0 <= i < |Ascending(kept, n)| ==> Ascending(kept, n)[i] < n
    ensures forall i, j :: 0 <= i < j < |Ascending(kept, n)| ==> Ascending(kept, n)[i] < Ascending(kept, n)[j]
  {
    if n > 0 { AscendingFacts(kept, n - 1); }
  }

  function Violated(f: Frame, p: DedupParams): bool {
    || p.keys == []
    || (exists k :: k in p.keys && !f.Has(k))
    || (p.orderBy.Some? && !f.Has(p.orderBy.value))
  }

  function Execute(f: Frame, p: DedupParams, order: seq<nat>): Result<DedupResult, PlatformError> {
    if Violated(f, p) then Err(PlatformError(VALIDATION_FAIL, []))
    else
      var kept := Kept(f.rows, p.keys, p.keep, order);
      var survivors := Ascending(kept, |f.rows|);
      AscendingFacts(kept, |f.rows|);
      Ok(DedupResult(
        Frame(f.columns, RowsAt(f.rows, survivors)),
        |DuplicateGroups(f, p.keys)|,
        |Removed(kept, |f.rows|)|))
  }

  // ---- Which rows survive ----

  /** No row of the group of `order[a]` comes before it (or, keeping the last, after it). */
  ghost predicate Leads(rows: seq<Row>, keys: seq<string>, keep: Keep, order: seq<nat>, a: nat)
    requires a < |order|
  {
    match keep
    case KeepFirst => forall b :: 0 <= b < a ==> !SameKey(rows, keys, order[b], order[a])
    case KeepLast => forall b :: a < b < |order| ==> !SameKey(rows, keys, order[b], order[a])
  }

  lemma {:induction false} KeptFirst(rows: seq<Row>, keys: seq<string>, order: seq<nat>, a: nat)
    requires Distinct(order) && a < |order|
    ensures order[a] in Kept(rows, keys, KeepFirst, order) <==> Leads(rows, keys, KeepFirst, order, a)
  {
    var n := |order| - 1;
    var init := order[..n];
    if a < n {
      KeptFirst(rows, keys, init, a);
      assert order[a] != order[n];
      assert forall b :: 0 <= b < a ==> init[b] == order[b];
    } else {
      KeptSubset(rows, keys, KeepFirst, init);
      assert order[n] !in init;
      assert forall b :: 0 <= b < n ==> init[b] in init;
    }
  }

  lemma {:induction false} KeptLast(rows: seq<Row>, keys: seq<string>, order: seq<nat>, a: nat)
    requires Distinct(order) && a < |order|
    ensures order[a] in Kept(rows, keys, KeepLast, order) <==> Leads(rows, keys, KeepLast, order, a)
  {
    var rest := order[1..];
    if a > 0 {
      KeptLast(rows, keys, rest, a - 1);
      assert order[a] != order[0];
      assert forall b :: a < b < |order| ==> rest[b - 1] == order[b];
      assert forall b :: a - 1 < b < |rest| ==> order[b + 1] == rest[b];
    } else {
      KeptSubset(rows, keys, KeepLast, rest);
      assert order[0] !in rest;
      assert forall b :: 0 < b < |order| ==> order[b] == rest[b - 1] && rest[b - 1] in rest;
    }
  }

  lemma {:induction false} KeptSubset(rows: seq<Row>, keys: seq<string>, keep: Keep, order: seq<nat>)
    ensures forall p :: p in Kept(rows, keys, keep, order) ==> p in order
  {
    if order != [] {
      if keep.KeepFirst? {
        KeptSubset(rows, keys, keep, order[..|order| - 1]);
      } else {
        KeptSubset(rows, keys, keep, order[1..]);
      }
    }
  }

  lemma KeptIffLeads(rows: seq<Row>, keys: seq<string>, keep: Keep, order: seq<nat>, a: nat)
    requires Distinct(order) && a < |order|
    ensures order[a] in Kept(rows, keys, keep, order) <==> Leads(rows, keys, keep, order, a)
  {
    if keep.KeepFirst? { KeptFirst(rows, keys, order, a); } else { KeptLast(rows, keys, order, a); }
  }

  /** Every group has a survivor. */
  lemma {:induction false} GroupSurvives(rows: seq<Row>, keys: seq<string>, keep: Keep, order: seq<nat>, p: nat)
    requires p in order && p < |rows|
    ensures exists q :: q in Kept(rows, keys, keep, order) && SameKey(rows, keys, q, p)
  {
    match keep
    case KeepFirst =>
      var init, last := order[..|order| - 1], order[|order| - 1];
      assert order == init + [last];
      if p in init {
        GroupSurvives(rows, keys, keep, init, p);
      } else if q :| q in init && SameKey(rows, keys, q, last) {
        GroupSurvives(rows, keys, keep, init, q);
        var r :| r in Kept(rows, keys, keep, init) && SameKey(rows, keys, r, q);
        assert SameKey(rows, keys, r, p);
      } else {
        assert SameKey(rows, keys, p, p);
      }
    case KeepLast =>
      var rest := order[1..];
      assert order == [order[0]] + rest;
      if p in rest {
        GroupSurvives(rows, keys, keep, rest, p);
      } else if q :| q in rest && SameKey(rows, keys, q, order[0]) {
        GroupSurvives(rows, keys, keep, rest, q);
        var r :| r in Kept(rows, keys, keep, rest) && SameKey(rows, keys, r, q);
        assert SameKey(rows, keys, r, p);
      } else {
        assert SameKey(rows, keys, p, p);
      }
  }

  lemma OneSurvivorPerGroup(rows: seq<Row>, keys: seq<string>, keep: Keep, order: seq<nat>, p: nat, q: nat)
    requires Distinct(order) && SameKey(rows, keys, p, q)
    requires p in Kept(rows, keys, keep, order) && q in Kept(rows, keys, keep, order)
    ensures p == q
  {
    KeptSubset(rows, keys, keep, order);
    var a :| 0 <= a < |order| && order[a] == p;
    var b :| 0 <= b < |order| && order[b] == q;
    KeptIffLeads(rows, keys, keep, order, a);
    KeptIffLeads(rows, keys, keep, order, b);
  }

  // ---- Main results ----

  /** The output is the input's rows at some strictly increasing positions. */
  ghost predicate SubsequenceAt(out: seq<Row>, rows: seq<Row>, positions: seq<nat>) {
    && |out| == |positions|
    && (forall i :: 0 <= i < |positions| ==> positions[i] < |rows| && out[i] == rows[positions[i]])
    && (forall i, j :: 0 <= i < j < |positions| ==> positions[i] < positions[j])
  }

  /** The survivor of a group leads it: first or last in row order, or extremal in the ordering column. */
  ghost predicate Survivor(rows: seq<Row>, p: DedupParams, q: nat)
    requires q < |rows|
  {
    forall r :: 0 <= r < |rows| && SameKey(rows, p.keys, r, q) ==>
      match (p.orderBy, p.keep)
      case (None, KeepFirst) => q <= r
      case (None, KeepLast) => r <= q
      case (Some(c), KeepFirst) => CellLeq(CellAt(rows[q], c), CellAt(rows[r], c))
      case (Some(c), KeepLast) => CellLeq(CellAt(rows[r], c), CellAt(rows[q], c))
  }

  lemma LeaderSurvives(rows: seq<Row>, p: DedupParams, order: seq<nat>, a: nat)
    requires LegalOrder(rows, p.orderBy, order) && a < |order| && order[a] < |rows|
      && Leads(rows, p.keys, p.keep, order, a)
    ensures Survivor(rows, p, order[a])
  {
    forall r | 0 <= r < |rows| && SameKey(rows, p.keys, r, order[a])
      ensures match (p.orderBy, p.keep)
              case (None, KeepFirst) => order[a] <= r
              case (None, KeepLast) => r <= order[a]
              case (Some(c), KeepFirst) => CellLeq(CellAt(rows[order[a]], c), CellAt(rows[r], c))
              case (Some(c), KeepLast) => CellLeq(CellAt(rows[r], c), CellAt(rows[order[a]], c))
    {
      assert r in order;
      var b :| 0 <= b < |order| && order[b] == r;
      if p.orderBy.Some? { CellLeqTotal(CellAt(rows[r], p.orderBy.value), CellAt(rows[r], p.orderBy.value)); }
    }
  }

  lemma RowsAtKeys(rows: seq<Row>, positions: seq<nat>, keys: seq<string>, i: nat)
    requires (forall i :: 0 <= i < |positions| ==> positions[i] < |rows|) && i < |positions|
    ensures KeysOf(RowsAt(rows, positions), keys)[i] == Key(rows[positions[i]], keys)
  {
  }

  /** The positions of the surviving rows, ascending. */
  ghost predicate Surviving(rows: seq<Row>, p: DedupParams, order: seq<nat>, positions: seq<nat>) {
    forall q :: q in positions <==> q < |rows| && q in Kept(rows, p.keys, p.keep, order)
  }

  lemma SurvivorsDiffer(rows: seq<Row>, p: DedupParams, order: seq<nat>, positions: seq<nat>, i: nat, j: nat)
    requires Permutation(order, |rows|) && Surviving(rows, p, order, positions) && i < j < |positions|
    requires forall a :: 0 <= a < |positions| ==> positions[a] < |rows|
    requires positions[i] != positions[j]
    ensures KeysOf(RowsAt(rows, positions), p.keys)[i] != KeysOf(RowsAt(rows, positions), p.keys)[j]
  {
    assert positions[i] in positions && positions[j] in positions;
    RowsAtKeys(rows, positions, p.keys, i);
    RowsAtKeys(rows, positions, p.keys, j);
    if SameKey(rows, p.keys, positions[i], positions[j]) {
      OneSurvivorPerGroup(rows, p.keys, p.keep, order, positions[i], positions[j]);
    }
  }

  lemma SurvivorLeads(rows: seq<Row>, p: DedupParams, order: seq<nat>, positions: seq<nat>, i: nat)
    requires LegalOrder(rows, p.orderBy, order) && Surviving(rows, p, order, positions) && i < |positions|
    ensures positions[i] < |rows| && Survivor(rows, p, positions[i])
  {
    KeptSubset(rows, p.keys, p.keep, order);
    assert positions[i] in positions;
    var a :| 0 <= a < |order| && order[a] == positions[i];
    KeptIffLeads(rows, p.keys, p.keep, order, a);
    LeaderSurvives(rows, p, order, a);
  }

  lemma SurvivorKeyIsOld(rows: seq<Row>, positions: seq<nat>, keys: seq<string>, k: seq<Cell>)
    requires (forall a :: 0 <= a < |positions| ==> positions[a] < |rows|) && k in KeysOf(RowsAt(rows, positions), keys)
    ensures k in KeysOf(rows, keys)
  {
    var i :| 0 <= i < |positions| && KeysOf(RowsAt(rows, positions), keys)[i] == k;
    RowsAtKeys(rows, positions, keys, i);
    assert KeysOf(rows, keys)[positions[i]] == k;
  }

  /** Whatever legal order the rows are processed in: the output is a subsequence of the input, no key
      repeats, every key of the input is still there, and each surviving row leads its group. */
  lemma KeepsOneLeaderPerKey(f: Frame, p: DedupParams, order: seq<nat>) returns (positions: seq<nat>)
    requires Execute(f, p, order).Ok? && LegalOrder(f.rows, p.orderBy, order)
    ensures SubsequenceAt(Execute(f, p, order).value.output.rows, f.rows, positions)
    ensures UniqueOn(Execute(f, p, order).value.output, p.keys)
    ensures forall k :: k in KeysOf(f.rows, p.keys) <==> k in KeysOf(Execute(f, p, order).value.output.rows, p.keys)
    ensures forall i :: 0 <= i < |positions| ==> positions[i] < |f.rows| && Survivor(f.rows, p, positions[i])
  {
    var rows, keys := f.rows, p.keys;
    var kept := Kept(rows, keys, p.keep, order);
    positions := Ascending(kept, |rows|);
    AscendingFacts(kept, |rows|);
    assert Surviving(rows, p, order, positions);
    forall i | 0 <= i < |positions| ensures positions[i] < |rows| && Survivor(rows, p, positions[i]) {
      SurvivorLeads(rows, p, order, positions, i);
    }
    var out := RowsAt(rows, positions);
    forall i, j | 0 <= i < j < |out| ensures KeysOf(out, keys)[i] != KeysOf(out, keys)[j] {
      SurvivorsDiffer(rows, p, order, positions, i, j);
    }
    forall k ensures k in KeysOf(rows, keys) <==> k in KeysOf(out, keys) {
      if k in KeysOf(rows, keys) { KeySurvives(rows, keys, p.keep, order, positions, k); }
      if k in KeysOf(out, keys) { SurvivorKeyIsOld(rows, positions, keys, k); }
    }
  }

  lemma KeySurvives(rows: seq<Row>, keys: seq<string>, keep: Keep, order: seq<nat>, positions: seq<nat>, k: seq<Cell>)
    requires Permutation(order, |rows|) && k in KeysOf(rows, keys)
      && (forall i :: 0 <= i < |positions| ==> positions[i] < |rows|)
    requires forall q :: q in positions <==> q < |rows| && q in Kept(rows, keys, keep, order)
    ensures k in KeysOf(RowsAt(rows, positions), keys)
  {
    var r: nat :| r < |rows| && KeysOf(rows, keys)[r] == k;
    assert r in order;
    GroupSurvives(rows, keys, keep, order, r);
    var q :| q in Kept(rows, keys, keep, order) && SameKey(rows, keys, q, r);
    assert q in positions;
    var i :| 0 <= i < |positions| && positions[i] == q;
    RowsAtKeys(rows, positions, keys, i);
  }

  /** The rows in are the rows out plus the rows reported as removed. */
  lemma RowsAccountedFor(f: Frame, p: DedupParams, order: seq<nat>)
    requires Execute(f, p, order).Ok?
    ensures var r := Execute(f, p, order).value; f.Height() == r.output.Height() + r.removed
  {
    SplitCount(Kept(f.rows, p.keys, p.keep, order), |f.rows|);
  }

  lemma {:induction false} SplitCount(kept: seq<nat>, n: nat)
    ensures n == |Ascending(kept, n)| + |Removed(kept, n)|
  {
    if n > 0 { SplitCount(kept, n - 1); }
  }

  lemma {:induction false} AscendingAll(kept: seq<nat>, n: nat)
    requires forall i :: 0 <= i < n ==> i in kept
    ensures Ascending(kept, n) == seq(n, i => i)
  {
    if n > 0 { AscendingAll(kept, n - 1); }
  }

  /** A frame whose keys are already unique comes back unchanged, so deduplicating twice is deduplicating once. */
  lemma UniqueIsUnchanged(f: Frame, p: DedupParams, order: seq<nat>)
    requires Execute(f, p, order).Ok? && LegalOrder(f.rows, p.orderBy, order) && UniqueOn(f, p.keys)
    ensures Execute(f, p, order).value.output == f && Execute(f, p, order).value.removed == 0
  {
    var kept := Kept(f.rows, p.keys, p.keep, order);
    forall i | 0 <= i < |f.rows| ensures i in kept {
      assert i in order;
      var a :| 0 <= a < |order| && order[a] == i;
      forall b | 0 <= b < |order| && b != a ensures !SameKey(f.rows, p.keys, order[b], order[a]) {
        assert order[b] != order[a] by {
          if b < a { assert order[b] != order[a]; } else { assert order[a] != order[b]; }
        }
        UniqueKeysDiffer(f, p.keys, order[a], order[b]);
      }
      KeptIffLeads(f.rows, p.keys, p.keep, order, a);
    }
    AscendingAll(kept, |f.rows|);
    assert RowsAt(f.rows, seq(|f.rows|, i => i)) == f.rows;
    RowsAccountedFor(f, p, order);
  }

  lemma UniqueKeysDiffer(f: Frame, keys: seq<string>, p: nat, q: nat)
    requires UniqueOn(f, keys) && p != q
    ensures !SameKey(f.rows, keys, p, q)
  {
    if p < |f.rows| && q < |f.rows| {
      var ks := KeysOf(f.rows, keys);
      if p < q { assert ks[p] != ks[q]; } else { assert ks[q] != ks[p]; }
    }
  }

  /** Deduplicating the output again, in any legal order, changes nothing, and a join that declares this
      side unique on these keys finds no duplicate group. */
  lemma DeduplicatedStaysUnique(f: Frame, p: DedupParams, order: seq<nat>, again: seq<nat>)
    requires Execute(f, p, order).Ok? && LegalOrder(f.rows, p.orderBy, order)
    requires LegalOrder(Execute(f, p, order).value.output.rows, p.orderBy, again)
    ensures var out := Execute(f, p, order).value.output;
      && Execute(out, p, again).Ok? && Execute(out, p, again).value.output == out
      && DuplicateGroups(out, p.keys) == {}
  {
    var out := Execute(f, p, order).value.output;
    var positions := KeepsOneLeaderPerKey(f, p, order);
    assert forall name :: out.Has(name) == f.Has(name);
    UniqueIsUnchanged(out, p, again);
    NoGroupsIffUnique(out, p.keys);
  }

  /** Two rows have the key `k`. */
  ghost predicate Repeated(rows: seq<Row>, keys: seq<string>, k: seq<Cell>) {
    exists i, j :: 0 <= i < j < |rows| && Key(rows[i], keys) == k && Key(rows[j], keys) == k
  }

  /** The groups it reports are the keys that two rows have. */
  lemma ReportsRepeatedKeys(f: Frame, p: DedupParams, order: seq<nat>)
    requires Execute(f, p, order).Ok?
    ensures Execute(f, p, order).value.duplicateGroups ==
            |set k | k in KeysOf(f.rows, p.keys) && Repeated(f.rows, p.keys, k)|
  {
    var ks := KeysOf(f.rows, p.keys);
    forall k ensures multiset(ks)[k] > 1 <==> Repeated(f.rows, p.keys, k) {
      CountedTwice(ks, k);
      if Repeated(f.rows, p.keys, k) {
        var i, j :| 0 <= i < j < |f.rows| && Key(f.rows[i], p.keys) == k && Key(f.rows[j], p.keys) == k;
        assert ks[i] == k && ks[j] == k;
      }
      if i, j :| 0 <= i < j < |ks| && ks[i] == k && ks[j] == k { assert Key(f.rows[i], p.keys) == ks[i]; }
    }
    assert DuplicateGroups(f, p.keys) == set k | k in ks && Repeated(f.rows, p.keys, k);
  }
}
