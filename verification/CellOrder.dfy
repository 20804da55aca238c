/** The order in which cells sort: nulls first, then numbers, then text by code point. */
module CellOrder {
  import opened Values
  import opened Frames
  import opened Ids

  predicate CellLess(a: Cell, b: Cell) {
    match (a, b)
    case (Absent, Absent) => false
    case (Absent, _) => true
    case (Number(x), Number(y)) => x < y
    case (Number(_), Text(_)) => true
    case (Text(s), Text(t)) => Less(s, t)
    case _ => false
  }

  predicate CellLeq(a: Cell, b: Cell) {
    !CellLess(b, a)
  }

  lemma CellLeqTransitive(a: Cell, b: Cell, c: Cell)
    requires CellLeq(a, b) && CellLeq(b, c)
    ensures CellLeq(a, c)
  {
    if a.Text? && b.Text? && c.Text? {
      LessTotal(a.s, b.s);
      LessTotal(b.s, c.s);
      if Less(a.s, b.s) && Less(b.s, c.s) { LessTransitive(a.s, b.s, c.s); }
      if Less(c.s, a.s) { LessAsymmetric(c.s, a.s); }
    }
  }

  lemma CellLeqTotal(a: Cell, b: Cell)
    ensures CellLeq(a, b) || CellLeq(b, a)
  {
    if CellLess(a, b) && a.Text? { LessAsymmetric(a.s, b.s); }
  }

  /** A null comes before all else, numbers before texts; numbers compare by size, texts by their first different
      character. */
  lemma CellLessIff(a: Cell, b: Cell)
    ensures CellLess(a, b) <==>
      || (a == Absent && b != Absent)
      || (a.Number? && b.Number? && a.r < b.r)
      || (a.Number? && b.Text?)
      || (a.Text? && b.Text? && Precedes(a.s, b.s))
  {
    if a.Text? && b.Text? { LessIff(a.s, b.s); }
  }

  predicate CellGeq(a: Cell, b: Cell) {
    CellLeq(b, a)
  }

  /** The first of the values that stands `before` all others, nulls aside. */
  function Extreme(cells: seq<Cell>, before: (Cell, Cell) -> bool): Option<Cell> {
    if cells == [] then None
    else
      var n := |cells| - 1;
      var rest := Extreme(cells[..n], before);
      if cells[n].Absent? || (rest.Some? && before(rest.value, cells[n])) then rest else Some(cells[n])
  }

  /** `m` is one of the values and stands before each of them; it is None exactly if there is none. */
  ghost predicate IsExtreme(m: Option<Cell>, cells: seq<Cell>, before: (Cell, Cell) -> bool) {
    && (m.None? <==> forall c :: c in cells ==> c.Absent?)
    && (m.Some? ==> m.value in cells && !m.value.Absent? && forall c :: c in cells && !c.Absent? ==> before(m.value, c))
  }

  ghost predicate OrdersCells(before: (Cell, Cell) -> bool) {
    && (forall a, b :: before(a, b) || before(b, a))
    && (forall a, b, c :: before(a, b) && before(b, c) ==> before(a, c))
  }

  lemma {:induction false} ExtremeIs(cells: seq<Cell>, before: (Cell, Cell) -> bool)
    requires OrdersCells(before)
    ensures IsExtreme(Extreme(cells, before), cells, before)
  {
    if cells != [] {
      var n := |cells| - 1;
      ExtremeIs(cells[..n], before);
      assert cells == cells[..n] + [cells[n]];
    }
  }

  lemma BothOrders()
    ensures OrdersCells(CellLeq) && OrdersCells(CellGeq)
  {
    forall a, b ensures CellLeq(a, b) || CellLeq(b, a) { CellLeqTotal(a, b); }
    forall a, b, c | CellLeq(a, b) && CellLeq(b, c) ensures CellLeq(a, c) { CellLeqTransitive(a, b, c); }
  }
}
