/** Column facts observed from a frame: nulls, distinct counts, candidate keys, and the distinct count
    after trimming and lower-casing. */
module Profiling {
  import opened Values
  import opened Seqs
  import opened Frames
  import opened CellOrder

  datatype ColumnProfile = ColumnProfile(
    name: string,
    dtype: string,
    nullCount: nat,
    nullRate: real,
    distinctCount: nat,
    isCandidateKey: bool,
    least: Option<Cell>,
    greatest: Option<Cell>,
    foldedDistinctCount: Option<nat>)

  datatype DatasetProfile = DatasetProfile(
    rowCount: nat,
    columnCount: nat,
    columns: seq<ColumnProfile>,
    duplicateRowCount: nat,
    candidateKeyColumns: seq<string>)
  {
    /** The profile of the first column of that name. */
    function Column(name: string): Option<ColumnProfile> {
      ColumnIn(columns, name)
    }
  }

  function ColumnIn(columns: seq<ColumnProfile>, name: string): Option<ColumnProfile> {
    if columns == [] then None
    else if columns[0].name == name then Some(columns[0])
    else ColumnIn(columns[1..], name)
  }

  const STRING_DTYPE := "String"

  function NullCount(cells: seq<Cell>): nat {
    multiset(cells)[Absent]
  }

  /** `n_unique()`: a null counts as one value. */
  function DistinctCount(cells: seq<Cell>): nat {
    |Elements(cells)|
  }

  /** A text function on a cell: a null stays null. */
  function FoldCell(fold: string -> string, c: Cell): Cell {
    match c
    case Text(s) => Text(fold(s))
    case _ => c
  }

  function FoldCells(fold: string -> string, cells: seq<Cell>): seq<Cell> {
    seq(|cells|, i requires 0 <= i < |cells| => FoldCell(fold, cells[i]))
  }

  const NUMERIC_DTYPES :=
    {"Int8", "Int16", "Int32", "Int64", "UInt8", "UInt16", "UInt32", "UInt64", "Float32", "Float64"}

  /** Numbers, dates and times; a datetime is written with its unit and zone. */
  predicate IsOrdered(dtype: string) {
    dtype in NUMERIC_DTYPES || dtype == "Date" || dtype == "Time" || "Datetime" <= dtype
  }

  /** `trimLower` is trim followed by lower-casing. */
  function ProfileColumn(f: Frame, c: Column, trimLower: string -> string): ColumnProfile {
    var cells := f.Cells(c.name);
    var nulls, distinct := NullCount(cells), DistinctCount(cells);
    ColumnProfile(
      c.name, c.dtype, nulls,
      if f.Height() > 0 then nulls as real / f.Height() as real else 0.0,
      distinct,
      f.Height() > 0 && nulls == 0 && distinct == f.Height(),
      if IsOrdered(c.dtype) && nulls < f.Height() then Extreme(cells, CellLeq) else None,
      if IsOrdered(c.dtype) && nulls < f.Height() then Extreme(cells, CellGeq) else None,
      if c.dtype == STRING_DTYPE && nulls < f.Height() then Some(DistinctCount(FoldCells(trimLower, cells))) else None)
  }

  function ColumnProfiles(f: Frame, columns: seq<Column>, trimLower: string -> string): seq<ColumnProfile> {
    seq(|columns|, i requires 0 <= i < |columns| => ProfileColumn(f, columns[i], trimLower))
  }

  function CandidateKeys(columns: seq<ColumnProfile>): seq<string> {
    if columns == [] then []
    else
      var last := columns[|columns| - 1];
      CandidateKeys(columns[..|columns| - 1]) + (if last.isCandidateKey then [last.name] else [])
  }

  function Profile(f: Frame, trimLower: string -> string): DatasetProfile {
    var columns := ColumnProfiles(f, f.columns, trimLower);
    ElementsBound(f.rows);
    DatasetProfile(
      f.Height(), |f.columns|, columns,
      if f.Height() > 0 && f.columns != [] then f.Height() - |Elements(f.rows)| else 0,
      CandidateKeys(columns))
  }

  method ProfileDataset(f: Frame, trimLower: string -> string) returns (r: DatasetProfile)
    ensures r == Profile(f, trimLower)
  {
    var columns: seq<ColumnProfile> := [];
    var candidateKeys: seq<string> := [];
    for i := 0 to |f.columns|
      invariant columns == ColumnProfiles(f, f.columns[..i], trimLower)
      invariant candidateKeys == CandidateKeys(columns)
    {
      var column := ProfileColumn(f, f.columns[i], trimLower);
      assert (columns + [column])[..i] == columns;
      columns := columns + [column];
      if column.isCandidateKey {
        candidateKeys := candidateKeys + [column.name];
      }
    }
    assert f.columns[..|f.columns|] == f.columns;
    var duplicates := 0;
    if f.Height() > 0 && f.columns != [] {
      duplicates := f.Height() - |Elements(f.rows)|;
    }
    ElementsBound(f.rows);
    return DatasetProfile(f.Height(), |f.columns|, columns, duplicates, candidateKeys);
  }

  /** A profile knows exactly the columns of its frame, with their dtypes and facts. */
  lemma {:induction false} ProfiledColumn(f: Frame, columns: seq<Column>, trimLower: string -> string, name: string)
    ensures ColumnIn(ColumnProfiles(f, columns, trimLower), name).Some? <==> exists c :: c in columns && c.name == name
    ensures ColumnIn(ColumnProfiles(f, columns, trimLower), name).Some? ==>
      ColumnIn(ColumnProfiles(f, columns, trimLower), name) ==
        Some(ProfileColumn(f, Column(name, DtypeIn(columns, name)), trimLower))
  {
    var ps := ColumnProfiles(f, columns, trimLower);
    if columns != [] {
      assert ps[1..] == ColumnProfiles(f, columns[1..], trimLower);
      assert columns == [columns[0]] + columns[1..];
      ProfiledColumn(f, columns[1..], trimLower, name);
      if columns[0].name == name { assert columns[0] in columns; }
    }
  }

  lemma NoNulls(cells: seq<Cell>)
    ensures NullCount(cells) == 0 <==> Absent !in cells
  {
    assert Absent in multiset(cells) <==> Absent in cells;
  }

  /** A column is reported as a candidate key exactly when it is non-empty, has no null and no repetition. */
  lemma CandidateKeyIff(f: Frame, c: Column, trimLower: string -> string)
    ensures ProfileColumn(f, c, trimLower).isCandidateKey <==>
      f.rows != [] && Absent !in f.Cells(c.name) && Distinct(f.Cells(c.name))
  {
    NoNulls(f.Cells(c.name));
    DistinctIffCardinality(f.Cells(c.name));
  }

  /** Integers of eight to sixty-four bits, signed or not, floats of two sizes, dates, times, and datetimes of any
      unit. */
  ghost predicate NumericOrTemporal(dtype: string) {
    || (exists kind, bits :: kind in {"Int", "UInt"} && bits in {"8", "16", "32", "64"} && dtype == kind + bits)
    || dtype in {"Float32", "Float64", "Date", "Time"} || "Datetime" <= dtype
  }

  lemma OrderedIff(dtype: string)
    ensures IsOrdered(dtype) <==> NumericOrTemporal(dtype)
  {
    assert "Int" + "8" == "Int8" && "Int" + "16" == "Int16" && "Int" + "32" == "Int32" && "Int" + "64" == "Int64";
    assert "UInt" + "8" == "UInt8" && "UInt" + "16" == "UInt16" && "UInt" + "32" == "UInt32"
      && "UInt" + "64" == "UInt64";
  }

  /** Of a numeric or temporal column the profile reports a least and a greatest value of the column, between which
      all its values lie, exactly if it has a value at all; of any other column it reports none. */
  lemma RangeIsTight(f: Frame, c: Column, trimLower: string -> string)
    ensures var p, cells := ProfileColumn(f, c, trimLower), f.Cells(c.name);
      if NumericOrTemporal(c.dtype) then IsExtreme(p.least, cells, CellLeq) && IsExtreme(p.greatest, cells, CellGeq)
      else p.least.None? && p.greatest.None?
  {
    var cells := f.Cells(c.name);
    OrderedIff(c.dtype);
    BothOrders();
    ExtremeIs(cells, CellLeq);
    ExtremeIs(cells, CellGeq);
    SomeValueIff(cells);
  }

  lemma {:induction false} SomeValueIff(cells: seq<Cell>)
    ensures NullCount(cells) <= |cells|
    ensures NullCount(cells) == |cells| <==> forall c :: c in cells ==> c.Absent?
  {
    if cells != [] {
      var n := |cells| - 1;
      SomeValueIff(cells[..n]);
      assert cells == cells[..n] + [cells[n]];
      assert cells[n] in cells && NullCount(cells) == NullCount(cells[..n]) + if cells[n] == Absent then 1 else 0;
    }
  }

  /** The counts of a column: its nulls, their rate, and its different values, nulls being one, as they are and
      folded. */
  lemma ColumnCountsAre(f: Frame, c: Column, trimLower: string -> string)
    ensures var p, cells := ProfileColumn(f, c, trimLower), f.Cells(c.name);
      && p.nullCount == |Positions(cells, (x: Cell) => x == Absent)|
      && (if f.rows == [] then p.nullRate == 0.0 else p.nullRate * |f.rows| as real == p.nullCount as real)
      && p.distinctCount == |set x | x in cells|
      && (p.foldedDistinctCount.Some? <==> c.dtype == "String" && exists x :: x in cells && x != Absent)
      && (p.foldedDistinctCount.Some? ==>
            p.foldedDistinctCount.value ==
            |set x | x in cells :: match x case Text(s) => Text(trimLower(s)) case _ => x|)
  {
    var cells := f.Cells(c.name);
    NullsAre(cells);
    SomeValueIff(cells);
    if f.rows != [] { RateBack(NullCount(cells), |f.rows|); }
    assert Elements(cells) == set x | x in cells;
    FoldedElements(cells, trimLower);
  }

  lemma {:induction false} NullsAre(cells: seq<Cell>)
    ensures NullCount(cells) == |Positions(cells, (x: Cell) => x == Absent)|
  {
    var isNull := (x: Cell) => x == Absent;
    CountIfIs(cells, isNull);
    NullsCounted(cells);
  }

  lemma {:induction false} NullsCounted(cells: seq<Cell>)
    ensures NullCount(cells) == CountIf(cells, (x: Cell) => x == Absent)
  {
    if cells != [] {
      var n := |cells| - 1;
      NullsCounted(cells[..n]);
      assert cells == cells[..n] + [cells[n]];
    }
  }

  lemma RateBack(n: nat, total: nat)
    requires total > 0
    ensures (n as real / total as real) * total as real == n as real
  {
  }

  lemma FoldedElements(cells: seq<Cell>, fold: string -> string)
    ensures Elements(FoldCells(fold, cells)) ==
            set x | x in cells :: match x case Text(s) => Text(fold(s)) case _ => x
  {
    var folded := FoldCells(fold, cells);
    forall x | x in cells ensures FoldCell(fold, x) in folded {
      var i :| 0 <= i < |cells| && cells[i] == x;
      assert folded[i] == FoldCell(fold, x);
    }
    forall y | y in folded ensures exists x :: x in cells && FoldCell(fold, x) == y {
      var i :| 0 <= i < |folded| && folded[i] == y;
      assert FoldCell(fold, cells[i]) == y;
    }
    assert forall x :: FoldCell(fold, x) == match x case Text(s) => Text(fold(s)) case _ => x;
  }

  /** The counts of a frame: its rows, its columns, and the rows beyond the first of each kind. */
  lemma FrameCountsAre(f: Frame, trimLower: string -> string)
    ensures var p := Profile(f, trimLower);
      && p.rowCount == |f.rows| && p.columnCount == |f.columns| == |p.columns|
      && (f.columns == [] ==> p.duplicateRowCount == 0)
      && (f.columns != [] ==> p.duplicateRowCount + |set r | r in f.rows| == |f.rows|)
      && forall i :: 0 <= i < |f.columns| ==>
           p.columns[i] == ProfileColumn(f, f.columns[i], trimLower)
           && p.columns[i].name == f.columns[i].name && p.columns[i].dtype == f.columns[i].dtype
  {
    ElementsBound(f.rows);
    assert Elements(f.rows) == set r | r in f.rows;
  }

  /** The candidate keys of a profile are the names of the columns that are, in their order. */
  lemma {:induction false} CandidateKeysAre(columns: seq<ColumnProfile>)
    ensures forall name :: name in CandidateKeys(columns) <==>
      exists c :: c in columns && c.isCandidateKey && c.name == name
    ensures |CandidateKeys(columns)| == CountIf(columns, (c: ColumnProfile) => c.isCandidateKey)
  {
    if columns != [] {
      var n := |columns| - 1;
      CandidateKeysAre(columns[..n]);
      assert columns == columns[..n] + [columns[n]];
    }
  }
}
