/** The normalize loop of text_clean, its guard against folding different values together, and how it
    agrees with what profiling predicted. */
module TextClean {
  import opened Values
  import opened Seqs
  import opened Frames
  import opened Profiling

  datatype NormalizeStep = Trim | CollapseWhitespace | Lower | Upper | Title

  datatype NormalizeSpec = NormalizeSpec(column: string, steps: seq<NormalizeStep>)

  datatype NormalizedColumn = NormalizedColumn(column: string, distinctBefore: nat, distinctAfter: nat)

  /** `text` is what each single step does to a string. */
  function ApplySteps(text: (NormalizeStep, string) -> string, steps: seq<NormalizeStep>, s: string): string {
    if steps == [] then s
    else text(steps[|steps| - 1], ApplySteps(text, steps[..|steps| - 1], s))
  }

  function FoldOf(text: (NormalizeStep, string) -> string, steps: seq<NormalizeStep>): string -> string {
    s => ApplySteps(text, steps, s)
  }

  function FoldRow(r: Row, column: string, fold: string -> string): Row {
    if column in r then r[column := FoldCell(fold, r[column])] else r
  }

  function FoldColumn(f: Frame, column: string, fold: string -> string): Frame {
    Frame(f.columns, seq(|f.rows|, i requires 0 <= i < |f.rows| => FoldRow(f.rows[i], column, fold)))
  }

  /** One spec: fold the column in place, unless that merges values and nobody opted in. */
  function NormalizeOne(f: Frame, spec: NormalizeSpec, allowCollapse: bool,
                        text: (NormalizeStep, string) -> string): Result<Frame, PlatformError> {
    var result := FoldColumn(f, spec.column, FoldOf(text, spec.steps));
    if DistinctCount(result.Cells(spec.column)) < DistinctCount(f.Cells(spec.column)) && !allowCollapse
    then Err(PlatformError(DATA_QUALITY_BLOCK, [spec.column]))
    else Ok(result)
  }

  function Normalized(f: Frame, specs: seq<NormalizeSpec>, allowCollapse: bool,
                      text: (NormalizeStep, string) -> string): Result<Frame, PlatformError> {
    if specs == [] then Ok(f)
    else
      match Normalized(f, specs[..|specs| - 1], allowCollapse, text)
      case Err(e) => Err(e)
      case Ok(g) => NormalizeOne(g, specs[|specs| - 1], allowCollapse, text)
  }

  lemma {:induction false} NormalizedPrefixFails(f: Frame, specs: seq<NormalizeSpec>, allowCollapse: bool,
                                                text: (NormalizeStep, string) -> string, n: nat)
    requires n <= |specs| && Normalized(f, specs[..n], allowCollapse, text).Err?
    ensures Normalized(f, specs, allowCollapse, text) == Normalized(f, specs[..n], allowCollapse, text)
  {
    if n < |specs| {
      var init := specs[..|specs| - 1];
      assert init[..n] == specs[..n];
      NormalizedPrefixFails(f, init, allowCollapse, text, n);
    } else {
      assert specs[..n] == specs;
    }
  }

  /** The steps of one spec, applied one after the other to the whole column. */
  method FoldInSteps(steps: seq<NormalizeStep>, text: (NormalizeStep, string) -> string)
    returns (expr: string -> string)
    ensures forall s :: expr(s) == FoldOf(text, steps)(s)
  {
    expr := s => s;
    for i := 0 to |steps|
      invariant forall s :: expr(s) == ApplySteps(text, steps[..i], s)
    {
      var before, step := expr, steps[i];
      assert steps[..i + 1][..i] == steps[..i];
      expr := s => text(step, before(s));
    }
    assert steps[..|steps|] == steps;
  }

  lemma SameFold(f: Frame, column: string, g: string -> string, h: string -> string)
    requires forall s :: g(s) == h(s)
    ensures FoldColumn(f, column, g) == FoldColumn(f, column, h)
  {
  }

  /** What the loop reports of the spec at position `i`: the distinct values of its column just before and just after
      it. */
  function Reported(f: Frame, specs: seq<NormalizeSpec>, i: nat,
                    text: (NormalizeStep, string) -> string): NormalizedColumn
    requires i < |specs|
  {
    var column := specs[i].column;
    NormalizedColumn(column, DistinctCount(Folded(f, specs[..i], text).Cells(column)),
                     DistinctCount(Folded(f, specs[..i + 1], text).Cells(column)))
  }

  /** The frame after some specs, guard aside. */
  function Folded(f: Frame, specs: seq<NormalizeSpec>, text: (NormalizeStep, string) -> string): Frame {
    if specs == [] then f
    else
      var last := specs[|specs| - 1];
      FoldColumn(Folded(f, specs[..|specs| - 1], text), last.column, FoldOf(text, last.steps))
  }

  lemma {:induction false} NormalizedIsFolded(f: Frame, specs: seq<NormalizeSpec>, allowCollapse: bool,
                                              text: (NormalizeStep, string) -> string)
    requires Normalized(f, specs, allowCollapse, text).Ok?
    ensures Normalized(f, specs, allowCollapse, text).value == Folded(f, specs, text)
  {
    if specs != [] { NormalizedIsFolded(f, specs[..|specs| - 1], allowCollapse, text); }
  }

  lemma NormalizedNext(f: Frame, specs: seq<NormalizeSpec>, i: nat, allowCollapse: bool,
                       text: (NormalizeStep, string) -> string)
    requires i < |specs| && Normalized(f, specs[..i], allowCollapse, text).Ok?
    ensures Normalized(f, specs[..i + 1], allowCollapse, text) ==
            NormalizeOne(Normalized(f, specs[..i], allowCollapse, text).value, specs[i], allowCollapse, text)
  {
    assert specs[..i + 1][..i] == specs[..i];
  }

  /** One spec on the whole column, with the counts the guard compares. */
  method NormalizeColumn(f: Frame, spec: NormalizeSpec, allowCollapse: bool, text: (NormalizeStep, string) -> string)
    returns (r: Result<Frame, PlatformError>, evidence: NormalizedColumn)
    ensures r == NormalizeOne(f, spec, allowCollapse, text)
    ensures evidence.column == spec.column && evidence.distinctBefore == DistinctCount(f.Cells(spec.column))
    ensures r.Ok? ==> evidence.distinctAfter == DistinctCount(r.value.Cells(spec.column))
    ensures r.Ok? && !allowCollapse ==> evidence.distinctBefore <= evidence.distinctAfter
  {
    var before := DistinctCount(f.Cells(spec.column));
    var expr := FoldInSteps(spec.steps, text);
    SameFold(f, spec.column, expr, FoldOf(text, spec.steps));
    var result := FoldColumn(f, spec.column, expr);
    var after := DistinctCount(result.Cells(spec.column));
    evidence := NormalizedColumn(spec.column, before, after);
    r := if after < before && !allowCollapse then Err(PlatformError(DATA_QUALITY_BLOCK, [spec.column])) else Ok(result);
  }

  lemma ReportedNext(f: Frame, specs: seq<NormalizeSpec>, i: nat, allowCollapse: bool,
                     text: (NormalizeStep, string) -> string)
    requires i < |specs| && Normalized(f, specs[..i + 1], allowCollapse, text).Ok?
      && Normalized(f, specs[..i], allowCollapse, text).Ok?
    ensures Reported(f, specs, i, text) ==
            NormalizedColumn(
              specs[i].column,
              DistinctCount(Normalized(f, specs[..i], allowCollapse, text).value.Cells(specs[i].column)),
              DistinctCount(Normalized(f, specs[..i + 1], allowCollapse, text).value.Cells(specs[i].column)))
  {
    NormalizedIsFolded(f, specs[..i], allowCollapse, text);
    NormalizedIsFolded(f, specs[..i + 1], allowCollapse, text);
  }

  method Normalize(f: Frame, specs: seq<NormalizeSpec>, allowCollapse: bool, text: (NormalizeStep, string) -> string)
    returns (r: Result<Frame, PlatformError>, evidence: seq<NormalizedColumn>)
    ensures r == Normalized(f, specs, allowCollapse, text)
    ensures r.Ok? ==> |evidence| == |specs| && forall i :: 0 <= i < |specs| ==>
      evidence[i] == Reported(f, specs, i, text)
    ensures r.Ok? && !allowCollapse ==> forall i :: 0 <= i < |evidence| ==>
      evidence[i].distinctBefore <= evidence[i].distinctAfter
  {
    var result := f;
    evidence := [];
    for i := 0 to |specs|
      invariant Normalized(f, specs[..i], allowCollapse, text) == Ok(result)
      invariant |evidence| == i && forall k :: 0 <= k < i ==> evidence[k] == Reported(f, specs, k, text)
      invariant !allowCollapse ==> forall k :: 0 <= k < i ==> evidence[k].distinctBefore <= evidence[k].distinctAfter
    {
      NormalizedNext(f, specs, i, allowCollapse, text);
      var next, counts := NormalizeColumn(result, specs[i], allowCollapse, text);
      if next.Err? {
        NormalizedPrefixFails(f, specs, allowCollapse, text, i + 1);
        return next, [];
      }
      ReportedNext(f, specs, i, allowCollapse, text);
      result := next.value;
      evidence := evidence + [counts];
    }
    assert specs[..|specs|] == specs;
    r := Ok(result);
  }

  /** The operation, with neither extraction nor replacement: every column named has to exist. */
  function ExecuteNormalize(f: Frame, specs: seq<NormalizeSpec>, allowCollapse: bool,
                            text: (NormalizeStep, string) -> string): Result<Frame, PlatformError> {
    if exists spec :: spec in specs && !f.Has(spec.column) then Err(PlatformError(VALIDATION_FAIL, []))
    else Normalized(f, specs, allowCollapse, text)
  }

  // ---- Counting detects exactly the collisions ----

  /** Two different values of the column that fold to the same value. */
  ghost predicate Collides(cells: seq<Cell>, fold: string -> string) {
    exists a, b :: a in cells && b in cells && a != b && FoldCell(fold, a) == FoldCell(fold, b)
  }

  ghost function Image(s: set<Cell>, fold: string -> string): set<Cell> {
    set c | c in s :: FoldCell(fold, c)
  }

  lemma {:induction false} ImageSize(s: set<Cell>, fold: string -> string)
    ensures |Image(s, fold)| <= |s|
    ensures |Image(s, fold)| == |s| <==>
            forall a, b :: a in s && b in s && FoldCell(fold, a) == FoldCell(fold, b) ==> a == b
    decreases |s|
  {
    if s != {} {
      var x :| x in s;
      var rest := s - {x};
      ImageSize(rest, fold);
      assert Image(s, fold) == Image(rest, fold) + {FoldCell(fold, x)};
      if FoldCell(fold, x) in Image(rest, fold) {
        var y :| y in rest && FoldCell(fold, y) == FoldCell(fold, x);
        assert Image(s, fold) == Image(rest, fold);
        assert y in s && x in s && y != x;
      } else {
        assert |Image(s, fold)| == |Image(rest, fold)| + 1;
        assert forall b :: b in rest ==> FoldCell(fold, b) in Image(rest, fold);
      }
    }
  }

  /** Fewer distinct values after folding exactly when two different ones fold together. */
  lemma CountDropsIffCollides(cells: seq<Cell>, fold: string -> string)
    ensures DistinctCount(FoldCells(fold, cells)) < DistinctCount(cells) <==> Collides(cells, fold)
    ensures DistinctCount(FoldCells(fold, cells)) <= DistinctCount(cells)
  {
    var s := Elements(cells);
    ImageSize(s, fold);
    assert Elements(FoldCells(fold, cells)) == Image(s, fold) by {
      forall c | c in Image(s, fold) ensures c in FoldCells(fold, cells) {
        var d :| d in s && FoldCell(fold, d) == c;
        var i :| 0 <= i < |cells| && cells[i] == d;
        assert FoldCells(fold, cells)[i] == c;
      }
    }
    if Collides(cells, fold) {
      var a, b :| a in cells && b in cells && a != b && FoldCell(fold, a) == FoldCell(fold, b);
      assert a in s && b in s;
    }
    if |Image(s, fold)| != |s| {
      var a, b :| a in s && b in s && FoldCell(fold, a) == FoldCell(fold, b) && a != b;
      assert a in cells && b in cells;
    }
  }

  lemma FoldColumnCells(f: Frame, column: string, fold: string -> string, other: string)
    ensures FoldColumn(f, column, fold).Height() == f.Height()
    ensures FoldColumn(f, column, fold).Cells(column) == FoldCells(fold, f.Cells(column))
    ensures other != column ==> FoldColumn(f, column, fold).Cells(other) == f.Cells(other)
  {
  }

  /** Without opt-in a spec is refused exactly when two different values of its column fold together;
      otherwise the column is folded cell by cell and every other column is untouched. */
  lemma GuardFiresIff(f: Frame, spec: NormalizeSpec, allowCollapse: bool, text: (NormalizeStep, string) -> string,
                      other: string)
    ensures NormalizeOne(f, spec, allowCollapse, text).Err? <==>
            !allowCollapse && Collides(f.Cells(spec.column), FoldOf(text, spec.steps))
    ensures NormalizeOne(f, spec, allowCollapse, text).Ok? ==>
      var g := NormalizeOne(f, spec, allowCollapse, text).value;
      && g.columns == f.columns && g.Height() == f.Height()
      && g.Cells(spec.column) == FoldCells(FoldOf(text, spec.steps), f.Cells(spec.column))
      && (other != spec.column ==> g.Cells(other) == f.Cells(other))
  {
    CountDropsIffCollides(f.Cells(spec.column), FoldOf(text, spec.steps));
    FoldColumnCells(f, spec.column, FoldOf(text, spec.steps), other);
  }

  // ---- Agreement with profiling ----

  /** The profile says that trimming and lower-casing would merge values. */
  predicate ReportsVariants(c: ColumnProfile) {
    c.foldedDistinctCount.Some? && c.foldedDistinctCount.value < c.distinctCount
  }

  lemma AllNull(cells: seq<Cell>)
    requires NullCount(cells) >= |cells|
    ensures forall c :: c in cells ==> c == Absent
  {
    assert |multiset(cells)| == |cells|;
    forall c | c in cells ensures c == Absent {
      if c != Absent { TwoCounts(multiset(cells), Absent, c); }
    }
  }

  lemma TwoCounts(m: multiset<Cell>, a: Cell, b: Cell)
    requires a != b
    ensures m[a] + m[b] <= |m|
  {
    var rest := m[a := 0][b := 0];
    assert m == rest + multiset{}[a := m[a]] + multiset{}[b := m[b]];
  }

  /** For a text column the profile's trim-and-lower count drops in exactly the case in which the guard of
      text_clean would fire for the steps trim, lower. */
  lemma ProfileDropsIffGuardFires(f: Frame, column: Column, text: (NormalizeStep, string) -> string)
    requires column.dtype == STRING_DTYPE
    ensures ReportsVariants(ProfileColumn(f, column, FoldOf(text, [Trim, Lower]))) <==>
            NormalizeOne(f, NormalizeSpec(column.name, [Trim, Lower]), false, text).Err?
  {
    var cells, fold := f.Cells(column.name), FoldOf(text, [Trim, Lower]);
    CountDropsIffCollides(cells, fold);
    GuardFiresIff(f, NormalizeSpec(column.name, [Trim, Lower]), false, text, column.name);
    if NullCount(cells) >= f.Height() { AllNull(cells); }
  }

  // ---- After the approved clean ----

  /** What a single trim removes: white space from both ends. */
  function Strip(space: char -> bool, s: string): string {
    if s != "" && space(s[0]) then Strip(space, s[1..])
    else if s != "" && space(s[|s| - 1]) then Strip(space, s[..|s| - 1])
    else s
  }

  /** No white space at either end. */
  predicate Bare(space: char -> bool, s: string) {
    s == "" || (!space(s[0]) && !space(s[|s| - 1]))
  }

  lemma {:induction false} StripBares(space: char -> bool, s: string)
    ensures Bare(space, Strip(space, s))
  {
    if s != "" && space(s[0]) {
      StripBares(space, s[1..]);
    } else if s != "" && space(s[|s| - 1]) {
      StripBares(space, s[..|s| - 1]);
    }
  }

  /** What is assumed of the single steps: trimming strips white space; lower-casing twice is lower-casing once, and it
      puts no white space at the ends of a text that has none there. */
  ghost predicate Plain(text: (NormalizeStep, string) -> string, space: char -> bool) {
    && (forall s :: text(Trim, s) == Strip(space, s))
    && (forall s :: text(Lower, text(Lower, s)) == text(Lower, s))
    && (forall s :: Bare(space, s) ==> Bare(space, text(Lower, s)))
  }

  lemma TrimLowerIs(text: (NormalizeStep, string) -> string, s: string)
    ensures FoldOf(text, [Trim, Lower])(s) == text(Lower, text(Trim, s))
  {
    assert [Trim, Lower][..1] == [Trim] && [Trim][..0] == [];
    assert ApplySteps(text, [Trim], s) == text(Trim, ApplySteps(text, [], s));
  }

  /** Trimming and lower-casing twice is doing it once. */
  lemma TrimLowerIsIdempotent(text: (NormalizeStep, string) -> string, space: char -> bool, s: string)
    requires Plain(text, space)
    ensures FoldOf(text, [Trim, Lower])(FoldOf(text, [Trim, Lower])(s)) == FoldOf(text, [Trim, Lower])(s)
  {
    var once := text(Lower, text(Trim, s));
    TrimLowerIs(text, s);
    TrimLowerIs(text, once);
    StripBares(space, s);
    assert Bare(space, text(Trim, s)) && Bare(space, once);
    assert text(Trim, once) == Strip(space, once) == once;
  }

  /** A fold that changes nothing the second time leaves nothing to fold together. */
  lemma FoldedDoesNotCollide(cells: seq<Cell>, fold: string -> string)
    requires forall s :: fold(fold(s)) == fold(s)
    ensures FoldCells(fold, FoldCells(fold, cells)) == FoldCells(fold, cells) && !Collides(FoldCells(fold, cells), fold)
  {
    var folded := FoldCells(fold, cells);
    forall c | c in folded ensures FoldCell(fold, c) == c {
      var i :| 0 <= i < |folded| && folded[i] == c;
      assert c == FoldCell(fold, cells[i]);
    }
    assert FoldCells(fold, folded) == folded;
  }

  /** A null stays a null, and nothing else becomes one. */
  lemma {:induction false} NullsStay(cells: seq<Cell>, fold: string -> string)
    ensures NullCount(FoldCells(fold, cells)) == NullCount(cells)
  {
    if cells != [] {
      var n := |cells| - 1;
      NullsStay(cells[..n], fold);
      assert FoldCells(fold, cells) == FoldCells(fold, cells[..n]) + [FoldCell(fold, cells[n])];
      assert cells == cells[..n] + [cells[n]];
    }
  }

  /** Whatever the steps do, after the approved clean a fresh profile counts exactly the values the old one
      predicted. */
  lemma CleanCountsPrediction(f: Frame, column: Column, text: (NormalizeStep, string) -> string)
    requires column.dtype == STRING_DTYPE
    requires ProfileColumn(f, column, FoldOf(text, [Trim, Lower])).foldedDistinctCount.Some?
    ensures var fold := FoldOf(text, [Trim, Lower]);
      var cleaned := NormalizeOne(f, NormalizeSpec(column.name, [Trim, Lower]), true, text);
      && cleaned.Ok? && ProfileColumn(cleaned.value, column, fold).foldedDistinctCount.Some?
      && ProfileColumn(cleaned.value, column, fold).distinctCount ==
         ProfileColumn(f, column, fold).foldedDistinctCount.value
  {
    GuardFiresIff(f, NormalizeSpec(column.name, [Trim, Lower]), true, text, column.name);
    NullsStay(f.Cells(column.name), FoldOf(text, [Trim, Lower]));
  }

  /** When trimming and lower-casing a second time changes nothing, no variants remain. */
  lemma IdempotentFoldLeavesNoVariants(f: Frame, column: Column, text: (NormalizeStep, string) -> string)
    requires column.dtype == STRING_DTYPE
    requires ProfileColumn(f, column, FoldOf(text, [Trim, Lower])).foldedDistinctCount.Some?
    requires forall s :: FoldOf(text, [Trim, Lower])(FoldOf(text, [Trim, Lower])(s)) == FoldOf(text, [Trim, Lower])(s)
    ensures var cleaned := NormalizeOne(f, NormalizeSpec(column.name, [Trim, Lower]), true, text);
      cleaned.Ok? && !ReportsVariants(ProfileColumn(cleaned.value, column, FoldOf(text, [Trim, Lower])))
  {
    GuardFiresIff(f, NormalizeSpec(column.name, [Trim, Lower]), true, text, column.name);
    FoldedDoesNotCollide(f.Cells(column.name), FoldOf(text, [Trim, Lower]));
  }

  /** After the approved clean a fresh profile counts exactly the values the old one predicted, its two counts are
      equal, and it reports no variants. */
  lemma ReprofileAfterClean(f: Frame, column: Column, text: (NormalizeStep, string) -> string, space: char -> bool)
    requires Plain(text, space) && column.dtype == STRING_DTYPE
    requires ProfileColumn(f, column, FoldOf(text, [Trim, Lower])).foldedDistinctCount.Some?
    ensures var fold := FoldOf(text, [Trim, Lower]);
      var cleaned := NormalizeOne(f, NormalizeSpec(column.name, [Trim, Lower]), true, text);
      && cleaned.Ok?
      && var p := ProfileColumn(cleaned.value, column, fold);
         && p.distinctCount == ProfileColumn(f, column, fold).foldedDistinctCount.value
         && p.foldedDistinctCount == Some(p.distinctCount) && !ReportsVariants(p)
  {
    var fold := FoldOf(text, [Trim, Lower]);
    forall s ensures fold(fold(s)) == fold(s) { TrimLowerIsIdempotent(text, space, s); }
    CleanCountsPrediction(f, column, text);
    IdempotentFoldLeavesNoVariants(f, column, text);
    GuardFiresIff(f, NormalizeSpec(column.name, [Trim, Lower]), true, text, column.name);
    FoldedDoesNotCollide(f.Cells(column.name), fold);
  }

  // ---- The assumptions on the single steps can be met ----

  function LowerAscii(s: string): string {
    seq(|s|, i requires 0 <= i < |s| => if 'A' <= s[i] <= 'Z' then ((s[i] as int) + 32) as char else s[i])
  }

  function AsciiText(space: char -> bool): (NormalizeStep, string) -> string {
    (step, s) => if step == Trim then Strip(space, s) else if step == Lower then LowerAscii(s) else s
  }

  /** Lower-casing ASCII letters is such a step, whatever counts as white space among the other characters. */
  lemma AsciiIsPlain(space: char -> bool)
    requires forall c :: space(c) ==> !('A' <= c <= 'Z') && !('a' <= c <= 'z')
    ensures Plain(AsciiText(space), space)
  {
    forall s ensures LowerAscii(LowerAscii(s)) == LowerAscii(s) {}
    forall s | Bare(space, s) ensures Bare(space, LowerAscii(s)) {}
  }
}
