/** Unpivot (wide to long) and pivot (long to wide), and when one undoes the other. */
module Reshape {
  import opened Values
  import opened Seqs
  import opened Frames
  import opened Join

  // ---- Unpivot ----

  datatype UnpivotParams = UnpivotParams(index: seq<string>, on: seq<string>, variableName: string, valueName: string)

  /** One long row: the index cells of a wide row, a column name, and the cell under it. */
  function LongRow(r: Row, p: UnpivotParams, column: string): Row {
    KeyCells(p.index, Key(r, p.index))[p.variableName := Text(column)][p.valueName := CellAt(r, column)]
  }

  function LongBlock(rows: seq<Row>, p: UnpivotParams, column: string): seq<Row> {
    seq(|rows|, i requires 0 <= i < |rows| => LongRow(rows[i], p, column))
  }

  /** All rows for the first value column, then all rows for the second, and so on. */
  function LongRows(rows: seq<Row>, p: UnpivotParams, on: seq<string>): seq<Row> {
    if on == [] then []
    else LongRows(rows, p, on[..|on| - 1]) + LongBlock(rows, p, on[|on| - 1])
  }

  function IndexColumns(f: Frame, names: seq<string>): seq<Column> {
    seq(|names|, i requires 0 <= i < |names| => Column(names[i], if f.Has(names[i]) then f.Dtype(names[i]) else ""))
  }

  predicate UnpivotViolated(f: Frame, p: UnpivotParams) {
    || (exists c :: c in p.index + p.on && !f.Has(c))
    || f.Has(p.variableName) || f.Has(p.valueName)
  }

  /** The value columns share a dtype, which the value column keeps. */
  function Unpivot(f: Frame, p: UnpivotParams): Result<Frame, PlatformError> {
    if UnpivotViolated(f, p) then Err(PlatformError(VALIDATION_FAIL, []))
    else Ok(Frame(
      IndexColumns(f, p.index) + [Column(p.variableName, "String"),
                                  Column(p.valueName, if p.on != [] && f.Has(p.on[0]) then f.Dtype(p.on[0]) else "")],
      LongRows(f.rows, p, p.on)))
  }

  // ---- Pivot ----

  /** `aggregate` is None when no aggregate function was declared. */
  datatype PivotParams = PivotParams(
    index: seq<string>, on: string, values: string, aggregate: Option<seq<Cell> -> Cell>)

  predicate PivotViolated(f: Frame, p: PivotParams) {
    exists c :: c in p.index + [p.on, p.values] && !f.Has(c)
  }

  /** The new column a cell of the `on` column stands for. */
  function NamesOf(rows: seq<Row>, on: string, render: Cell -> string): seq<string> {
    seq(|rows|, i requires 0 <= i < |rows| => render(CellAt(rows[i], on)))
  }

  /** The values of one output cell: those of the rows with this index key and this column name. */
  function CellsFor(rows: seq<Row>, p: PivotParams, k: seq<Cell>, name: string, render: Cell -> string): seq<Cell> {
    if rows == [] then []
    else
      var last := rows[|rows| - 1];
      CellsFor(rows[..|rows| - 1], p, k, name, render) +
      (if Key(last, p.index) == k && render(CellAt(last, p.on)) == name then [CellAt(last, p.values)] else [])
  }

  function Collapse(p: PivotParams, cells: seq<Cell>): Cell {
    if cells == [] then Absent
    else
      match p.aggregate
      case None => cells[0]
      case Some(f) => f(cells)
  }

  function WideRow(rows: seq<Row>, p: PivotParams, k: seq<Cell>, names: seq<string>, render: Cell -> string): Row
    requires |k| == |p.index|
  {
    if names == [] then KeyCells(p.index, k)
    else
      var last := names[|names| - 1];
      WideRow(rows, p, k, names[..|names| - 1], render)[last := Collapse(p, CellsFor(rows, p, k, last, render))]
  }

  lemma PivotKeyLengths(rows: seq<Row>, index: seq<string>)
    ensures forall i :: 0 <= i < |FirstSeen(KeysOf(rows, index))| ==> |FirstSeen(KeysOf(rows, index))[i]| == |index|
  {
    var ks := KeysOf(rows, index);
    FirstSeenFacts(ks);
    forall i | 0 <= i < |FirstSeen(ks)| ensures |FirstSeen(ks)[i]| == |index| {
      assert FirstSeen(ks)[i] in ks;
    }
  }

  function WideRows(f: Frame, p: PivotParams, render: Cell -> string): seq<Row> {
    var ks := FirstSeen(KeysOf(f.rows, p.index));
    PivotKeyLengths(f.rows, p.index);
    seq(|ks|, i requires 0 <= i < |ks| => WideRow(f.rows, p, ks[i], FirstSeen(NamesOf(f.rows, p.on, render)), render))
  }

  function NewColumns(f: Frame, names: seq<string>, values: string): seq<Column> {
    seq(|names|, i requires 0 <= i < |names| => Column(names[i], if f.Has(values) then f.Dtype(values) else ""))
  }

  function Pivot(f: Frame, p: PivotParams, render: Cell -> string): Result<Frame, PlatformError> {
    if PivotViolated(f, p) then Err(PlatformError(VALIDATION_FAIL, []))
    else if p.aggregate.None? && DuplicateGroups(f, p.index + [p.on]) != {}
      then Err(PlatformError(DATA_QUALITY_BLOCK, p.index + [p.on]))
    else
      var names := FirstSeen(NamesOf(f.rows, p.on, render));
      Ok(Frame(IndexColumns(f, p.index) + NewColumns(f, names, p.values), WideRows(f, p, render)))
  }

  // ---- The long frame seen by pivot ----

  /** A frame whose columns are exactly `index` and `on`, and names that are new to it. */
  ghost predicate Wide(f: Frame, p: UnpivotParams) {
    && f.Valid() && p.on != []
    && Distinct(p.index) && Distinct(p.on) && (forall c :: c in p.index ==> c !in p.on)
    && (forall c :: f.Has(c) <==> c in p.index || c in p.on)
    && !f.Has(p.variableName) && !f.Has(p.valueName) && p.variableName != p.valueName
    && (forall c :: c in p.on ==> f.Has(c) && f.Has(p.on[0]) && f.Dtype(c) == f.Dtype(p.on[0]))
  }

  function Back(p: UnpivotParams): PivotParams {
    PivotParams(p.index, p.variableName, p.valueName, None)
  }

  lemma {:induction false} KeyCellsHas(keys: seq<string>, k: seq<Cell>)
    requires |keys| == |k|
    ensures forall c :: c in KeyCells(keys, k) <==> c in keys
  {
    if keys != [] {
      var n := |keys| - 1;
      KeyCellsHas(keys[..n], k[..n]);
      assert keys == keys[..n] + [keys[n]];
    }
  }

  lemma {:induction false} KeyCellsAt(keys: seq<string>, k: seq<Cell>, i: nat)
    requires |keys| == |k| && Distinct(keys) && i < |keys|
    ensures keys[i] in KeyCells(keys, k) && KeyCells(keys, k)[keys[i]] == k[i]
  {
    var n := |keys| - 1;
    if i < n {
      assert Distinct(keys[..n]);
      KeyCellsAt(keys[..n], k[..n], i);
      assert keys[i] != keys[n];
    }
  }

  /** A long row keeps its index key and reads back its column name and value. */
  lemma LongRowReads(r: Row, p: UnpivotParams, column: string)
    requires Distinct(p.index) && p.variableName !in p.index && p.valueName !in p.index && p.variableName != p.valueName
    ensures Key(LongRow(r, p, column), p.index) == Key(r, p.index)
    ensures CellAt(LongRow(r, p, column), p.variableName) == Text(column)
    ensures CellAt(LongRow(r, p, column), p.valueName) == CellAt(r, column)
  {
    var k := Key(r, p.index);
    forall i | 0 <= i < |p.index| ensures CellAt(LongRow(r, p, column), p.index[i]) == k[i] {
      KeyCellsAt(p.index, k, i);
      assert p.index[i] in p.index;
    }
  }

  ghost predicate NamesApart(p: UnpivotParams) {
    Distinct(p.index) && p.variableName !in p.index && p.valueName !in p.index && p.variableName != p.valueName
  }

  lemma BlockKeys(rows: seq<Row>, p: UnpivotParams, column: string)
    requires NamesApart(p)
    ensures KeysOf(LongBlock(rows, p, column), p.index) == KeysOf(rows, p.index)
  {
    forall i | 0 <= i < |rows| ensures KeysOf(LongBlock(rows, p, column), p.index)[i] == KeysOf(rows, p.index)[i] {
      LongRowReads(rows[i], p, column);
    }
  }

  lemma BlockNames(rows: seq<Row>, p: UnpivotParams, column: string, render: Cell -> string)
    requires NamesApart(p) && forall s :: render(Text(s)) == s
    ensures forall x :: x in NamesOf(LongBlock(rows, p, column), p.variableName, render) ==> x == column
    ensures |NamesOf(LongBlock(rows, p, column), p.variableName, render)| == |rows|
  {
    forall i | 0 <= i < |rows| ensures NamesOf(LongBlock(rows, p, column), p.variableName, render)[i] == column {
      LongRowReads(rows[i], p, column);
    }
  }

  lemma KeysOfConcat(a: seq<Row>, b: seq<Row>, keys: seq<string>)
    ensures KeysOf(a + b, keys) == KeysOf(a, keys) + KeysOf(b, keys)
  {
  }

  lemma NamesOfConcat(a: seq<Row>, b: seq<Row>, on: string, render: Cell -> string)
    ensures NamesOf(a + b, on, render) == NamesOf(a, on, render) + NamesOf(b, on, render)
  {
  }

  /** Over the whole long frame each index key is first seen where it is in the wide frame. */
  lemma {:induction false} LongKeys(rows: seq<Row>, p: UnpivotParams, on: seq<string>)
    requires NamesApart(p) && Distinct(KeysOf(rows, p.index)) && on != []
    ensures FirstSeen(KeysOf(LongRows(rows, p, on), p.index)) == KeysOf(rows, p.index)
  {
    var n := |on| - 1;
    var before, block := LongRows(rows, p, on[..n]), LongBlock(rows, p, on[n]);
    BlockKeys(rows, p, on[n]);
    KeysOfConcat(before, block, p.index);
    if n == 0 {
      assert before + block == block;
      FirstSeenOfDistinct(KeysOf(rows, p.index));
    } else {
      LongKeys(rows, p, on[..n]);
      FirstSeenFacts(KeysOf(before, p.index));
      FirstSeenAppendSeen(KeysOf(before, p.index), KeysOf(block, p.index));
    }
  }

  /** Over the whole long frame the new column names are `on`, in order. */
  lemma {:induction false} LongNames(rows: seq<Row>, p: UnpivotParams, on: seq<string>, render: Cell -> string)
    requires NamesApart(p) && rows != [] && Distinct(on) && forall s :: render(Text(s)) == s
    ensures FirstSeen(NamesOf(LongRows(rows, p, on), p.variableName, render)) == on
  {
    if on != [] {
      var n := |on| - 1;
      var before, block := LongRows(rows, p, on[..n]), LongBlock(rows, p, on[n]);
      DistinctInit(on);
      LongNames(rows, p, on[..n], render);
      BlockNames(rows, p, on[n], render);
      NamesOfConcat(before, block, p.variableName, render);
      FirstSeenExtends(NamesOf(before, p.variableName, render), NamesOf(block, p.variableName, render), on);
    }
  }

  lemma {:induction false} CellsForConcat(a: seq<Row>, b: seq<Row>, p: PivotParams, k: seq<Cell>, name: string,
                                          render: Cell -> string)
    ensures CellsFor(a + b, p, k, name, render) == CellsFor(a, p, k, name, render) + CellsFor(b, p, k, name, render)
  {
    if b == [] {
      assert a + b == a;
    } else {
      var n := |b| - 1;
      assert (a + b)[..|a + b| - 1] == a + b[..n];
      CellsForConcat(a, b[..n], p, k, name, render);
    }
  }

  /** Within one block exactly the row of index key `k` contributes, if the block is for that column. */
  lemma {:induction false} BlockCells(rows: seq<Row>, p: UnpivotParams, column: string, i: nat, name: string,
                                      render: Cell -> string, n: nat)
    requires NamesApart(p) && Distinct(KeysOf(rows, p.index)) && i < |rows| && n <= |rows|
    requires forall s :: render(Text(s)) == s
    ensures CellsFor(LongBlock(rows[..n], p, column), Back(p), Key(rows[i], p.index), name, render) ==
            if i < n && column == name then [CellAt(rows[i], column)] else []
  {
    if n > 0 {
      BlockCells(rows, p, column, i, name, render, n - 1);
      assert LongBlock(rows[..n], p, column)[..n - 1] == LongBlock(rows[..n - 1], p, column);
      LongRowReads(rows[n - 1], p, column);
      var ks := KeysOf(rows, p.index);
      if n - 1 < i { assert ks[n - 1] != ks[i]; }
      if i < n - 1 { assert ks[i] != ks[n - 1]; }
      assert ks[i] == Key(rows[i], p.index) && ks[n - 1] == Key(rows[n - 1], p.index);
    }
  }

  lemma {:induction false} LongCells(rows: seq<Row>, p: UnpivotParams, on: seq<string>, i: nat, name: string,
                                     render: Cell -> string)
    requires NamesApart(p) && Distinct(KeysOf(rows, p.index)) && i < |rows| && Distinct(on)
    requires forall s :: render(Text(s)) == s
    ensures CellsFor(LongRows(rows, p, on), Back(p), Key(rows[i], p.index), name, render) ==
            if name in on then [CellAt(rows[i], name)] else []
  {
    if on != [] {
      var n := |on| - 1;
      DistinctInit(on);
      assert on == on[..n] + [on[n]];
      LongCells(rows, p, on[..n], i, name, render);
      assert rows[..|rows|] == rows;
      BlockCells(rows, p, on[n], i, name, render, |rows|);
      CellsForConcat(LongRows(rows, p, on[..n]), LongBlock(rows, p, on[n]), Back(p), Key(rows[i], p.index), name,
        render);
    }
  }

  /** The rebuilt row has the index cells and, under each of `names`, the original cell. */
  lemma {:induction false} RebuiltRow(rows: seq<Row>, p: UnpivotParams, i: nat, names: seq<string>,
                                      render: Cell -> string)
    requires NamesApart(p) && Distinct(KeysOf(rows, p.index)) && i < |rows| && Distinct(p.on) && Distinct(names)
    requires (forall c :: c in names ==> c in p.on && c !in p.index) && forall s :: render(Text(s)) == s
    ensures var r := WideRow(LongRows(rows, p, p.on), Back(p), Key(rows[i], p.index), names, render);
      && (forall c :: c in r <==> c in p.index || c in names)
      && (forall c :: c in names ==> r[c] == CellAt(rows[i], c))
      && (forall a :: 0 <= a < |p.index| ==> r[p.index[a]] == CellAt(rows[i], p.index[a]))
  {
    if names == [] {
      KeyCellsHas(p.index, Key(rows[i], p.index));
      forall a | 0 <= a < |p.index| ensures KeyCells(p.index, Key(rows[i], p.index))[p.index[a]] ==
        CellAt(rows[i], p.index[a]) {
        KeyCellsAt(p.index, Key(rows[i], p.index), a);
      }
    } else {
      var n := |names| - 1;
      DistinctInit(names);
      assert names == names[..n] + [names[n]];
      RebuiltRow(rows, p, i, names[..n], render);
      LongCells(rows, p, p.on, i, names[n], render);
      assert names[n] in names;
      assert forall a :: 0 <= a < |p.index| ==> p.index[a] in p.index;
    }
  }

  // ---- When the pivot blocks ----

  /** The key pivot checks for duplicates: index cells and column name. */
  lemma LongRowKey(r: Row, p: UnpivotParams, column: string)
    requires NamesApart(p)
    ensures Key(LongRow(r, p, column), p.index + [p.variableName]) == Key(r, p.index) + [Text(column)]
  {
    LongRowReads(r, p, column);
    var row := LongRow(r, p, column);
    assert forall a :: 0 <= a < |p.index| ==> Key(row, p.index + [p.variableName])[a] == Key(row, p.index)[a];
  }

  /** The `c`-th block's `i`-th row is row `c * |rows| + i`; told by its key instead of its position. */
  lemma {:induction false} LongRowsMembers(rows: seq<Row>, p: UnpivotParams, on: seq<string>, a: nat)
    returns (i: nat, c: nat)
    requires a < |LongRows(rows, p, on)|
    ensures i < |rows| && c < |on| && a == |LongRows(rows, p, on[..c])| + i
    ensures LongRows(rows, p, on)[a] == LongRow(rows[i], p, on[c])
  {
    var n := |on| - 1;
    var before := LongRows(rows, p, on[..n]);
    if a < |before| {
      i, c := LongRowsMembers(rows, p, on[..n], a);
      assert on[..n][..c] == on[..c];
    } else {
      i, c := a - |before|, n;
    }
  }

  lemma UniqueIndexNeverBlocks(rows: seq<Row>, p: UnpivotParams)
    requires NamesApart(p) && Distinct(p.on) && Distinct(KeysOf(rows, p.index))
    ensures Distinct(KeysOf(LongRows(rows, p, p.on), p.index + [p.variableName]))
  {
    var long := LongRows(rows, p, p.on);
    var keys := p.index + [p.variableName];
    forall a, b | 0 <= a < b < |long| ensures KeysOf(long, keys)[a] != KeysOf(long, keys)[b] {
      var i, c := LongRowsMembers(rows, p, p.on, a);
      var k, d := LongRowsMembers(rows, p, p.on, b);
      LongRowKey(rows[i], p, p.on[c]);
      LongRowKey(rows[k], p, p.on[d]);
      KeysDiffer(rows, p, i, c, k, d);
    }
  }

  lemma KeysDiffer(rows: seq<Row>, p: UnpivotParams, i: nat, c: nat, k: nat, d: nat)
    requires Distinct(p.on) && Distinct(KeysOf(rows, p.index)) && i < |rows| && k < |rows| && c < |p.on| && d < |p.on|
    requires i != k || c != d
    ensures Key(rows[i], p.index) + [Text(p.on[c])] != Key(rows[k], p.index) + [Text(p.on[d])]
  {
    var x, y := Key(rows[i], p.index) + [Text(p.on[c])], Key(rows[k], p.index) + [Text(p.on[d])];
    var n := |p.index|;
    if i != k {
      var ks := KeysOf(rows, p.index);
      assert ks[i] != ks[k] by { if i < k { assert ks[i] != ks[k]; } else { assert ks[k] != ks[i]; } }
      assert x[..n] == ks[i] && y[..n] == ks[k];
    } else {
      assert p.on[c] != p.on[d] by { if c < d { assert p.on[c] != p.on[d]; } else { assert p.on[d] != p.on[c]; } }
      assert x[n] != y[n];
    }
  }

  lemma {:induction false} FirstBlockIsThere(rows: seq<Row>, p: UnpivotParams, on: seq<string>, i: nat)
    requires on != [] && i < |rows|
    ensures i < |LongRows(rows, p, on)| && LongRows(rows, p, on)[i] == LongRow(rows[i], p, on[0])
  {
    if |on| > 1 {
      FirstBlockIsThere(rows, p, on[..|on| - 1], i);
    } else {
      assert LongRows(rows, p, on[..0]) == [];
    }
  }

  lemma RepeatedIndexBlocks(rows: seq<Row>, p: UnpivotParams)
    requires NamesApart(p) && p.on != [] && !Distinct(KeysOf(rows, p.index))
    ensures !Distinct(KeysOf(LongRows(rows, p, p.on), p.index + [p.variableName]))
  {
    var ks, long := KeysOf(rows, p.index), LongRows(rows, p, p.on);
    var i, j :| 0 <= i < j < |ks| && ks[i] == ks[j];
    FirstBlockIsThere(rows, p, p.on, i);
    FirstBlockIsThere(rows, p, p.on, j);
    LongRowKey(rows[i], p, p.on[0]);
    LongRowKey(rows[j], p, p.on[0]);
    var keys := KeysOf(long, p.index + [p.variableName]);
    assert keys[i] == keys[j];
  }

  // ---- Round trip ----

  lemma UnpivotFacts(f: Frame, p: UnpivotParams)
    requires Wide(f, p)
    ensures NamesApart(p) && Unpivot(f, p).Ok?
    ensures Unpivot(f, p).value.rows == LongRows(f.rows, p, p.on)
    ensures !PivotViolated(Unpivot(f, p).value, Back(p))
  {
    var g := Frame(
      IndexColumns(f, p.index) + [Column(p.variableName, "String"),
                                  Column(p.valueName, if p.on != [] && f.Has(p.on[0]) then f.Dtype(p.on[0]) else "")],
      LongRows(f.rows, p, p.on));
    assert Unpivot(f, p) == Ok(g);
    var n := |p.index|;
    forall c | c in p.index + [p.variableName, p.valueName] ensures g.Has(c) {
      if c in p.index {
        var i :| 0 <= i < n && p.index[i] == c;
        assert g.columns[i].name == c;
      } else if c == p.variableName {
        assert g.columns[n].name == c;
      } else {
        assert g.columns[n + 1].name == c;
      }
    }
  }

  lemma RebuiltRowEqual(f: Frame, p: UnpivotParams, i: nat, render: Cell -> string)
    requires Wide(f, p) && NamesApart(p) && UniqueOn(f, p.index) && i < |f.rows| && forall s :: render(Text(s)) == s
    ensures WideRow(LongRows(f.rows, p, p.on), Back(p), Key(f.rows[i], p.index), p.on, render) == f.rows[i]
  {
    RebuiltRow(f.rows, p, i, p.on, render);
    var r, row := WideRow(LongRows(f.rows, p, p.on), Back(p), Key(f.rows[i], p.index), p.on, render), f.rows[i];
    assert row in f.rows;
    forall c | c in row ensures c in r && r[c] == row[c] {
      assert f.Has(c);
      if c in p.index { var a :| 0 <= a < |p.index| && p.index[a] == c; }
    }
    assert forall c :: c in r ==> f.Has(c);
  }

  lemma WideRowsAre(g: Frame, p: PivotParams, ks: seq<seq<Cell>>, names: seq<string>, rows: seq<Row>,
                    render: Cell -> string)
    requires FirstSeen(KeysOf(g.rows, p.index)) == ks && FirstSeen(NamesOf(g.rows, p.on, render)) == names
    requires |rows| == |ks| && forall i :: 0 <= i < |ks| ==>
      |ks[i]| == |p.index| && WideRow(g.rows, p, ks[i], names, render) == rows[i]
    ensures WideRows(g, p, render) == rows
  {
  }

  lemma RebuiltRows(f: Frame, p: UnpivotParams, g: Frame, render: Cell -> string)
    requires Wide(f, p) && NamesApart(p) && UniqueOn(f, p.index) && forall s :: render(Text(s)) == s
    requires g.rows == LongRows(f.rows, p, p.on)
    ensures WideRows(g, Back(p), render) == f.rows
  {
    LongKeys(f.rows, p, p.on);
    if f.rows != [] {
      LongNames(f.rows, p, p.on, render);
      var ks := KeysOf(f.rows, p.index);
      forall i | 0 <= i < |ks| ensures WideRow(g.rows, Back(p), ks[i], p.on, render) == f.rows[i] {
        RebuiltRowEqual(f, p, i, render);
      }
      WideRowsAre(g, Back(p), ks, p.on, f.rows, render);
    }
  }

  /** Pivoting the unpivoted frame blocks exactly when the index does not identify the rows. */
  lemma RoundTripBlocksIff(f: Frame, p: UnpivotParams, render: Cell -> string)
    requires Wide(f, p)
    ensures Unpivot(f, p).Ok?
    ensures Pivot(Unpivot(f, p).value, Back(p), render).Ok? <==> UniqueOn(f, p.index)
  {
    UnpivotFacts(f, p);
    var g := Unpivot(f, p).value;
    NoGroupsIffUnique(g, p.index + [p.variableName]);
    if UniqueOn(f, p.index) {
      UniqueIndexNeverBlocks(f.rows, p);
    } else {
      RepeatedIndexBlocks(f.rows, p);
    }
  }

  /** And when it does not block it returns the original rows, in order. */
  lemma RoundTripRows(f: Frame, p: UnpivotParams, render: Cell -> string)
    requires Wide(f, p) && UniqueOn(f, p.index) && forall s :: render(Text(s)) == s
    ensures Unpivot(f, p).Ok? && Pivot(Unpivot(f, p).value, Back(p), render).Ok?
    ensures Pivot(Unpivot(f, p).value, Back(p), render).value.rows == f.rows
  {
    UnpivotFacts(f, p);
    RoundTripBlocksIff(f, p, render);
    RebuiltRows(f, p, Unpivot(f, p).value, render);
  }

  // ---- Columns of the round trip ----

  lemma {:induction false} DtypeAtPosition(columns: seq<Column>, i: nat)
    requires i < |columns| && forall j :: 0 <= j < i ==> columns[j].name != columns[i].name
    ensures DtypeIn(columns, columns[i].name) == columns[i].dtype
  {
    assert columns[i] in columns;
    if i > 0 {
      assert columns[1..][i - 1] == columns[i];
      DtypeAtPosition(columns[1..], i - 1);
    }
  }

  /** In a valid frame a column is known by its name. */
  lemma ColumnIffNamed(f: Frame, c: Column)
    requires f.Valid()
    ensures c in f.columns <==> f.Has(c.name) && c.dtype == f.Dtype(c.name)
  {
    if c in f.columns {
      var i :| 0 <= i < |f.columns| && f.columns[i] == c;
      DtypeAtPosition(f.columns, i);
    }
    if f.Has(c.name) && c.dtype == f.Dtype(c.name) {
      var d :| d in f.columns && d.name == c.name;
      var i :| 0 <= i < |f.columns| && f.columns[i] == d;
      DtypeAtPosition(f.columns, i);
    }
  }

  ghost predicate LongFrameOf(f: Frame, p: UnpivotParams, g: Frame) {
    Wide(f, p) && Unpivot(f, p) == Ok(g)
  }

  lemma LongDtypes(f: Frame, p: UnpivotParams, g: Frame)
    requires LongFrameOf(f, p, g)
    ensures forall c :: c in p.index ==> f.Has(c) && g.Has(c) && g.Dtype(c) == f.Dtype(c)
    ensures f.Has(p.on[0]) && g.Has(p.valueName) && g.Dtype(p.valueName) == f.Dtype(p.on[0])
  {
    var n := |p.index|;
    assert p.on[0] in p.on;
    forall c | c in p.index ensures f.Has(c) && g.Has(c) && g.Dtype(c) == f.Dtype(c) {
      var i :| 0 <= i < n && p.index[i] == c;
      LongIndexDtype(f, p, g, i);
    }
    assert g.columns[n + 1] == Column(p.valueName, f.Dtype(p.on[0]));
    assert forall j :: 0 <= j < n ==> g.columns[j].name == p.index[j] && p.index[j] in p.index;
    assert g.columns[n].name == p.variableName;
    DtypeAtPosition(g.columns, n + 1);
  }

  lemma LongIndexDtype(f: Frame, p: UnpivotParams, g: Frame, i: nat)
    requires LongFrameOf(f, p, g) && i < |p.index|
    ensures f.Has(p.index[i]) && g.Has(p.index[i]) && g.Dtype(p.index[i]) == f.Dtype(p.index[i])
  {
    assert p.index[i] in p.index;
    assert g.columns[i] == Column(p.index[i], f.Dtype(p.index[i]));
    assert forall j :: 0 <= j < i ==> g.columns[j].name == p.index[j];
    DtypeAtPosition(g.columns, i);
  }

  lemma IndexColumnsMembers(f: Frame, p: UnpivotParams, g: Frame, c: Column)
    requires LongFrameOf(f, p, g)
    ensures c in IndexColumns(g, p.index) <==> c.name in p.index && f.Has(c.name) && c.dtype == f.Dtype(c.name)
  {
    LongDtypes(f, p, g);
    var cs := IndexColumns(g, p.index);
    if c in cs {
      var i :| 0 <= i < |cs| && cs[i] == c;
      assert p.index[i] in p.index;
    }
    if c.name in p.index && c.dtype == f.Dtype(c.name) {
      var i :| 0 <= i < |p.index| && p.index[i] == c.name;
      assert cs[i] == c;
    }
  }

  lemma NewColumnsMembers(f: Frame, p: UnpivotParams, g: Frame, c: Column)
    requires LongFrameOf(f, p, g)
    ensures c in NewColumns(g, p.on, p.valueName) <==> c.name in p.on && f.Has(c.name) && c.dtype == f.Dtype(c.name)
  {
    LongDtypes(f, p, g);
    var cs := NewColumns(g, p.on, p.valueName);
    if c in cs {
      var i :| 0 <= i < |cs| && cs[i] == c;
      assert p.on[i] in p.on;
    }
    if c.name in p.on && c.dtype == f.Dtype(c.name) {
      var i :| 0 <= i < |p.on| && p.on[i] == c.name;
      assert cs[i] == c;
    }
  }

  /** The round trip returns the original columns, up to order, exactly when the frame has a row: from an
      empty frame pivot has no column names to restore. */
  lemma RoundTripColumnsIff(f: Frame, p: UnpivotParams, render: Cell -> string)
    requires Wide(f, p) && UniqueOn(f, p.index) && forall s :: render(Text(s)) == s
    ensures Unpivot(f, p).Ok? && Pivot(Unpivot(f, p).value, Back(p), render).Ok?
    ensures Elements(Pivot(Unpivot(f, p).value, Back(p), render).value.columns) == Elements(f.columns) <==> f.rows != []
  {
    UnpivotFacts(f, p);
    RoundTripBlocksIff(f, p, render);
    var g := Unpivot(f, p).value;
    var back := Pivot(g, Back(p), render).value;
    if f.rows != [] {
      LongNames(f.rows, p, p.on, render);
      assert back.columns == IndexColumns(g, p.index) + NewColumns(g, p.on, p.valueName);
      forall c: Column ensures c in back.columns <==> c in f.columns {
        IndexColumnsMembers(f, p, g, c);
        NewColumnsMembers(f, p, g, c);
        ColumnIffNamed(f, c);
      }
    } else {
      NoRows(p, p.on);
      assert back.columns == IndexColumns(g, p.index);
      assert p.on[0] in p.on;
      var lost := Column(p.on[0], f.Dtype(p.on[0]));
      ColumnIffNamed(f, lost);
      IndexColumnsMembers(f, p, g, lost);
      assert lost in Elements(f.columns) && lost !in Elements(back.columns);
    }
  }

  lemma {:induction false} NoRows(p: UnpivotParams, on: seq<string>)
    ensures LongRows([], p, on) == []
  {
    if on != [] { NoRows(p, on[..|on| - 1]); }
  }

  // ---- Every pivot, with an aggregate or without ----

  /** The rows of the group of `r` that stand for the new column `name`. */
  function InCell(p: PivotParams, r: Row, name: string, render: Cell -> string): Row -> bool {
    (x: Row) => Key(x, p.index) == Key(r, p.index) && render(CellAt(x, p.on)) == name
  }

  lemma {:induction false} CellsForPicked(rows: seq<Row>, p: PivotParams, r: Row, name: string, render: Cell -> string)
    ensures PickedFrom(rows, InCell(p, r, name, render), p.values, CellsFor(rows, p, Key(r, p.index), name, render))
  {
    if rows == [] {
      NonePicked(InCell(p, r, name, render), p.values);
    } else {
      var n := |rows| - 1;
      CellsForPicked(rows[..n], p, r, name, render);
      OneMorePicked(rows, InCell(p, r, name, render), p.values, CellsFor(rows[..n], p, Key(r, p.index), name, render));
    }
  }

  /** `out` is what becomes of `cells`: null of none, the aggregate of some, and without an aggregate the only one. */
  ghost predicate IsCollapsed(p: PivotParams, cells: seq<Cell>, out: Cell) {
    if cells == [] then out == Absent
    else if p.aggregate.Some? then out == p.aggregate.value(cells)
    else cells == [out]
  }

  lemma TwoPicked(rows: seq<Row>, keep: Row -> bool, positions: seq<nat>)
    requires Picks(rows, keep, positions) && |positions| > 1
    ensures positions[0] < positions[1] < |rows| && keep(rows[positions[0]]) && keep(rows[positions[1]])
  {
    assert positions[0] in positions && positions[1] in positions;
  }

  lemma PickedAtMostOne(rows: seq<Row>, keep: Row -> bool, column: string, cells: seq<Cell>)
    requires PickedFrom(rows, keep, column, cells)
    requires forall a, b :: 0 <= a < b < |rows| ==> !(keep(rows[a]) && keep(rows[b]))
    ensures |cells| <= 1
  {
    var positions :| Picks(rows, keep, positions) && ReadsAt(rows, positions, column, cells);
    if |positions| > 1 { TwoPicked(rows, keep, positions); }
  }

  /** Different cells of the `on` column stand for different names. */
  ghost predicate TellsApart(f: Frame, p: PivotParams, render: Cell -> string) {
    forall a, b :: a in f.rows && b in f.rows && render(CellAt(a, p.on)) == render(CellAt(b, p.on)) ==>
      CellAt(a, p.on) == CellAt(b, p.on)
  }

  lemma CellIsCollapsed(f: Frame, p: PivotParams, r: Row, name: string, render: Cell -> string)
    requires Pivot(f, p, render).Ok? && TellsApart(f, p, render)
    ensures var cells := CellsFor(f.rows, p, Key(r, p.index), name, render); IsCollapsed(p, cells, Collapse(p, cells))
  {
    CellsForPicked(f.rows, p, r, name, render);
    if p.aggregate.None? {
      NoGroupsIffUnique(f, p.index + [p.on]);
      forall a, b | 0 <= a < b < |f.rows|
        ensures !(InCell(p, r, name, render)(f.rows[a]) && InCell(p, r, name, render)(f.rows[b]))
      {
        var ks := KeysOf(f.rows, p.index + [p.on]);
        assert ks[a] != ks[b] && f.rows[a] in f.rows && f.rows[b] in f.rows;
        KeyOfBoth(f.rows[a], f.rows[b], p.index, p.on);
      }
      PickedAtMostOne(f.rows, InCell(p, r, name, render), p.values, CellsFor(f.rows, p, Key(r, p.index), name, render));
    }
  }

  lemma KeyOfBoth(a: Row, b: Row, index: seq<string>, on: string)
    ensures Key(a, index + [on]) == Key(b, index + [on]) <==>
            Key(a, index) == Key(b, index) && CellAt(a, on) == CellAt(b, on)
  {
    var ka, kb := Key(a, index + [on]), Key(b, index + [on]);
    assert ka == Key(a, index) + [CellAt(a, on)] && kb == Key(b, index) + [CellAt(b, on)];
    assert ka[..|index|] == Key(a, index) && kb[..|index|] == Key(b, index);
    assert ka[|index|] == CellAt(a, on) && kb[|index|] == CellAt(b, on);
  }

  /** `out` is the row of the group of `r`: its index cells, and under each new name what becomes of the cells of the
      rows of the group that stand for it. */
  ghost predicate IsPivotRow(f: Frame, p: PivotParams, render: Cell -> string, r: Row, names: seq<string>, out: Row) {
    && (forall c :: c in p.index && c !in names ==> c in out && out[c] == CellAt(r, c))
    && forall name :: name in names ==> IsPivotCell(f, p, render, r, name, out)
  }

  ghost predicate IsPivotCell(f: Frame, p: PivotParams, render: Cell -> string, r: Row, name: string, out: Row) {
    && name in out
    && exists cells ::
         PickedFrom(f.rows, InCell(p, r, name, render), p.values, cells) && IsCollapsed(p, cells, out[name])
  }

  lemma {:induction false} WideRowIs(f: Frame, p: PivotParams, render: Cell -> string, r: Row, names: seq<string>)
    requires Pivot(f, p, render).Ok? && TellsApart(f, p, render)
    ensures IsPivotRow(f, p, render, r, names, WideRow(f.rows, p, Key(r, p.index), names, render))
  {
    if names == [] {
      KeyCellsRead(r, p.index);
    } else {
      var n := |names| - 1;
      WideRowIs(f, p, render, r, names[..n]);
      CellsForPicked(f.rows, p, r, names[n], render);
      CellIsCollapsed(f, p, r, names[n], render);
      assert names == names[..n] + [names[n]];
      var before := WideRow(f.rows, p, Key(r, p.index), names[..n], render);
      var out := WideRow(f.rows, p, Key(r, p.index), names, render);
      assert IsPivotCell(f, p, render, r, names[n], out);
      forall name | name in names[..n] && name != names[n] ensures IsPivotCell(f, p, render, r, name, out) {
        assert IsPivotCell(f, p, render, r, name, before) && out[name] == before[name];
      }
    }
  }

  /** A pivot that completes has one row for each group of rows that agree on the index columns; its new columns are the
      different names that the cells of the `on` column stand for, in order of first appearance. */
  lemma PivotIs(f: Frame, p: PivotParams, render: Cell -> string) returns (of: seq<Row>, names: seq<string>)
    requires Pivot(f, p, render).Ok? && TellsApart(f, p, render)
    ensures Distinct(names) && forall name :: name in names <==>
      exists r :: r in f.rows && render(CellAt(r, p.on)) == name
    ensures var g := Pivot(f, p, render).value;
      && |of| == |g.rows| && Distinct(KeysOf(of, p.index))
      && (forall r :: r in f.rows ==> Key(r, p.index) in KeysOf(of, p.index))
      && (forall i :: 0 <= i < |of| ==> of[i] in f.rows && IsPivotRow(f, p, render, of[i], names, g.rows[i]))
  {
    names := FirstSeen(NamesOf(f.rows, p.on, render));
    FirstSeenFacts(NamesOf(f.rows, p.on, render));
    NamesAre(f.rows, p.on, render);
    var groups := FirstSeen(KeysOf(f.rows, p.index));
    FirstSeenFacts(KeysOf(f.rows, p.index));
    PivotKeyLengths(f.rows, p.index);
    of := RowsWithKeys(f.rows, p.index, groups);
    forall r | r in f.rows ensures Key(r, p.index) in groups {
      var i :| 0 <= i < |f.rows| && f.rows[i] == r;
      assert KeysOf(f.rows, p.index)[i] == Key(r, p.index);
    }
    forall i | 0 <= i < |of| ensures of[i] in f.rows
      && IsPivotRow(f, p, render, of[i], names, WideRows(f, p, render)[i]) {
      WideRowIs(f, p, render, of[i], names);
    }
  }

  lemma NamesAre(rows: seq<Row>, on: string, render: Cell -> string)
    ensures forall name :: name in NamesOf(rows, on, render) <==> exists r :: r in rows && render(CellAt(r, on)) == name
  {
    var names := NamesOf(rows, on, render);
    forall name | exists r :: r in rows && render(CellAt(r, on)) == name ensures name in names {
      var r :| r in rows && render(CellAt(r, on)) == name;
      var i :| 0 <= i < |rows| && rows[i] == r;
      assert names[i] == name;
    }
  }


  /** A pivot completes exactly when all its columns exist and, without an aggregate, no two rows share index and
      name. */
  lemma PivotsIff(f: Frame, p: PivotParams, render: Cell -> string)
    ensures Pivot(f, p, render).Ok? <==>
      && (forall c :: c in p.index ==> f.Has(c)) && f.Has(p.on) && f.Has(p.values)
      && (p.aggregate == None ==> forall a, b :: 0 <= a < b < |f.rows| ==>
            Key(f.rows[a], p.index) != Key(f.rows[b], p.index) || CellAt(f.rows[a], p.on) != CellAt(f.rows[b], p.on))
  {
    var keys := p.index + [p.on];
    NoGroupsIffUnique(f, keys);
    var ks := KeysOf(f.rows, keys);
    forall a, b | 0 <= a < b < |f.rows|
      ensures ks[a] == ks[b] <==>
        Key(f.rows[a], p.index) == Key(f.rows[b], p.index) && CellAt(f.rows[a], p.on) == CellAt(f.rows[b], p.on)
    {
      KeyOfBoth(f.rows[a], f.rows[b], p.index, p.on);
    }
    assert PivotViolated(f, p) <==> !((forall c :: c in p.index ==> f.Has(c)) && f.Has(p.on) && f.Has(p.values)) by {
      assert forall c :: c in p.index + [p.on, p.values] <==> c in p.index || c == p.on || c == p.values;
    }
  }

  /** An unpivot completes exactly when all its columns exist and neither new name is taken. */
  lemma UnpivotsIff(f: Frame, p: UnpivotParams)
    ensures Unpivot(f, p).Ok? <==>
      && (forall c :: c in p.index || c in p.on ==> f.Has(c)) && !f.Has(p.variableName) && !f.Has(p.valueName)
  {
    assert forall c :: c in p.index + p.on <==> c in p.index || c in p.on;
  }

  /** Its rows are, for each value column in turn, each row of the frame in turn, with its index cells, the name of
      the column and the cell under it. */
  lemma {:induction false} LongRowAt(rows: seq<Row>, p: UnpivotParams, on: seq<string>, c: nat, i: nat)
    requires c < |on| && i < |rows| && p.variableName != p.valueName
    ensures |LongRows(rows, p, on)| == |on| * |rows| && c * |rows| + i < |on| * |rows|
    ensures var out := LongRows(rows, p, on)[c * |rows| + i];
      && p.variableName in out && out[p.variableName] == Text(on[c])
      && p.valueName in out && out[p.valueName] == CellAt(rows[i], on[c])
      && forall k :: k in p.index && k != p.variableName && k != p.valueName ==>
         k in out && out[k] == CellAt(rows[i], k)
  {
    var n := |on| - 1;
    LongRowsSize(rows, p, on);
    LongRowsSize(rows, p, on[..n]);
    RowWithin(c, n, i, |rows|);
    if c < n {
      LongRowAt(rows, p, on[..n], c, i);
    } else {
      KeyCellsRead(rows[i], p.index);
      assert LongRows(rows, p, on)[n * |rows| + i] == LongBlock(rows, p, on[n])[i] == LongRow(rows[i], p, on[n]);
    }
  }

  lemma {:induction false} LongRowsSize(rows: seq<Row>, p: UnpivotParams, on: seq<string>)
    ensures |LongRows(rows, p, on)| == |on| * |rows|
  {
    if on != [] { LongRowsSize(rows, p, on[..|on| - 1]); }
  }

  lemma TimesGrows(a: nat, b: nat, height: nat)
    requires a <= b
    ensures a * height <= b * height
  {
  }

  lemma RowWithin(c: nat, n: nat, i: nat, height: nat)
    requires c <= n && i < height
    ensures c * height + i < (n + 1) * height && (c < n ==> c * height + i < n * height)
  {
    assert (c + 1) * height == c * height + height;
    TimesGrows(c + 1, n + 1, height);
    if c < n { TimesGrows(c + 1, n, height); }
  }
}
