/** Data frames: named, typed columns and rows that map a column name to a cell.
    A null is a cell of its own; numbers are exact. */
module Frames {

  datatype Cell = Absent | Number(r: real) | Text(s: string)

  datatype Column = Column(name: string, dtype: string)

  type Row = map<string, Cell>

  datatype Frame = Frame(columns: seq<Column>, rows: seq<Row>) {
    function Height(): nat { |rows| }

    predicate Has(name: string) {
      exists c :: c in columns && c.name == name
    }

    /** The dtype of the first column called `name`. */
    function Dtype(name: string): string
      requires Has(name)
    {
      DtypeIn(columns, name)
    }

    /** Column names are distinct and every row has exactly these columns. */
    ghost predicate Valid() {
      && (forall i, j :: 0 <= i < j < |columns| ==> columns[i].name != columns[j].name)
      && (forall r :: r in rows ==> forall name :: name in r <==> Has(name))
    }

    /** The cells of one column, top to bottom; a row without the column reads as null. */
    function Cells(name: string): seq<Cell> {
      seq(|rows|, i requires 0 <= i < |rows| => CellAt(rows[i], name))
    }
  }

  function DtypeIn(columns: seq<Column>, name: string): string
    requires exists c :: c in columns && c.name == name
  {
    if columns[0].name == name then columns[0].dtype
    else
      assert exists c :: c in columns[1..] && c.name == name by {
        var c :| c in columns && c.name == name;
        assert c in columns[1..];
      }
      DtypeIn(columns[1..], name)
  }

  function CellAt(row: Row, name: string): Cell {
    if name in row then row[name] else Absent
  }

  /** The key of a row: its cells under `keys`, in that order. */
  function Key(row: Row, keys: seq<string>): seq<Cell> {
    seq(|keys|, i requires 0 <= i < |keys| => CellAt(row, keys[i]))
  }

  function KeysOf(rows: seq<Row>, keys: seq<string>): seq<seq<Cell>> {
    seq(|rows|, i requires 0 <= i < |rows| => Key(rows[i], keys))
  }

  /** The row that has exactly the key columns, with the cells of `k`. */
  function KeyCells(keys: seq<string>, k: seq<Cell>): Row
    requires |keys| == |k|
  {
    if keys == [] then map[]
    else KeyCells(keys[..|keys| - 1], k[..|k| - 1])[keys[|keys| - 1] := k[|k| - 1]]
  }

  /** `positions` are the rows that `keep` wants, in their order. */
  ghost predicate Picks(rows: seq<Row>, keep: Row -> bool, positions: seq<nat>) {
    && (forall i, j :: 0 <= i < j < |positions| ==> positions[i] < positions[j])
    && (forall i :: 0 <= i < |positions| ==> positions[i] < |rows|)
    && forall q: nat :: q < |rows| ==> (q in positions <==> keep(rows[q]))
  }

  /** `cells` are the cells under `column` of exactly the rows that `keep` wants, in their order. */
  ghost predicate PickedFrom(rows: seq<Row>, keep: Row -> bool, column: string, cells: seq<Cell>) {
    exists positions :: Picks(rows, keep, positions) && ReadsAt(rows, positions, column, cells)
  }

  ghost predicate ReadsAt(rows: seq<Row>, positions: seq<nat>, column: string, cells: seq<Cell>) {
    |cells| == |positions| && forall i :: 0 <= i < |positions| ==>
      positions[i] < |rows| && cells[i] == CellAt(rows[positions[i]], column)
  }

  lemma NonePicked(keep: Row -> bool, column: string)
    ensures PickedFrom([], keep, column, [])
  {
    assert Picks([], keep, []) && ReadsAt([], [], column, []);
  }

  lemma PicksNext(rows: seq<Row>, keep: Row -> bool, before: seq<nat>, after: seq<nat>)
    requires rows != [] && Picks(rows[..|rows| - 1], keep, before)
    requires after == if keep(rows[|rows| - 1]) then before + [|rows| - 1] else before
    ensures Picks(rows, keep, after)
  {
    var n := |rows| - 1;
    forall q: nat | q < |rows| ensures q in after <==> keep(rows[q]) {
      if q < n {
        assert rows[..n][q] == rows[q];
        assert q in after <==> q in before;
      } else {
        assert q !in before;
      }
    }
  }

  lemma OneMorePicked(rows: seq<Row>, keep: Row -> bool, column: string, cells: seq<Cell>)
    requires rows != [] && PickedFrom(rows[..|rows| - 1], keep, column, cells)
    ensures PickedFrom(rows, keep, column,
                       cells + if keep(rows[|rows| - 1]) then [CellAt(rows[|rows| - 1], column)] else [])
  {
    var n := |rows| - 1;
    var before :| Picks(rows[..n], keep, before) && ReadsAt(rows[..n], before, column, cells);
    if keep(rows[n]) {
      PicksNext(rows, keep, before, before + [n]);
      assert ReadsAt(rows, before + [n], column, cells + [CellAt(rows[n], column)]);
    } else {
      PicksNext(rows, keep, before, before);
      assert ReadsAt(rows, before, column, cells) && cells + [] == cells;
    }
  }

  lemma {:induction false} KeyCellsRead(r: Row, keys: seq<string>)
    ensures KeyCells(keys, Key(r, keys)).Keys == set c | c in keys
    ensures forall c :: c in keys ==> KeyCells(keys, Key(r, keys))[c] == CellAt(r, c)
  {
    if keys != [] {
      var n := |keys| - 1;
      KeyCellsRead(r, keys[..n]);
      assert Key(r, keys)[..n] == Key(r, keys[..n]);
      assert keys == keys[..n] + [keys[n]];
    }
  }

  /** For every key of some row, such a row. */
  lemma {:induction false} RowsWithKeys(rows: seq<Row>, keys: seq<string>, ks: seq<seq<Cell>>) returns (of: seq<Row>)
    requires forall k :: k in ks ==> k in KeysOf(rows, keys)
    ensures |of| == |ks| && forall g :: 0 <= g < |ks| ==> of[g] in rows && Key(of[g], keys) == ks[g]
    ensures KeysOf(of, keys) == ks
  {
    of := [];
    if ks != [] {
      var n := |ks| - 1;
      var before := RowsWithKeys(rows, keys, ks[..n]);
      assert ks[n] in ks;
      var i :| 0 <= i < |rows| && KeysOf(rows, keys)[i] == ks[n];
      of := before + [rows[i]];
      assert forall g :: 0 <= g < n ==> ks[..n][g] == ks[g];
      assert KeysOf(of, keys) == ks;
    }
  }
}
