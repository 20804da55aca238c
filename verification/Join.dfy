/** The join operation: preconditions, the block on unexpected duplicate keys, the joins themselves,
    and the accounting of every row. */
module Join {
  import opened Values
  import opened Seqs
  import opened Frames

  datatype How = Inner | Left | Right | Outer

  datatype Cardinality = OneToOne | OneToMany | ManyToOne | ManyToMany

  datatype JoinSettings = JoinSettings(
    leftKeys: seq<string>,
    rightKeys: seq<string>,
    how: How,
    cardinality: Cardinality,
    allowManyToMany: bool)

  /** The parameter model rejects key lists of different lengths. */
  type JoinParams = p: JoinSettings | |p.leftKeys| == |p.rightKeys|
    witness JoinSettings([], [], Inner, OneToOne, false)

  datatype Violation =
    | LeftKeysMissing(names: seq<string>)
    | RightKeysMissing(names: seq<string>)
    | DtypeMismatch(left: string, right: string)
    | ManyToManyNotAllowed

  // ---- Keys and duplicate groups ----

  /** Groups with more than one row; a null key cell groups like any other value. */
  function DuplicateGroups(f: Frame, keys: seq<string>): set<seq<Cell>> {
    var ks := KeysOf(f.rows, keys);
    set k | k in ks && multiset(ks)[k] > 1
  }

  ghost predicate UniqueOn(f: Frame, keys: seq<string>) {
    Distinct(KeysOf(f.rows, keys))
  }

  lemma NoGroupsIffUnique(f: Frame, keys: seq<string>)
    ensures DuplicateGroups(f, keys) == {} <==> UniqueOn(f, keys)
  {
    var ks := KeysOf(f.rows, keys);
    DistinctIffCounted(ks);
    if DuplicateGroups(f, keys) == {} {
      forall k | k in ks ensures multiset(ks)[k] <= 1 { assert k !in DuplicateGroups(f, keys); }
    }
  }

  // ---- Preconditions ----

  function MissingKeys(f: Frame, keys: seq<string>): seq<string> {
    Filter(keys, k => !f.Has(k))
  }

  function DtypeViolations(left: Frame, right: Frame, lks: seq<string>, rks: seq<string>): seq<Violation>
    requires |lks| == |rks| && (forall k :: k in lks ==> left.Has(k)) && (forall k :: k in rks ==> right.Has(k))
  {
    if lks == [] then []
    else
      var n := |lks| - 1;
      DtypeViolations(left, right, lks[..n], rks[..n]) +
      (if left.Dtype(lks[n]) != right.Dtype(rks[n]) then [DtypeMismatch(lks[n], rks[n])] else [])
  }

  lemma {:induction false} NoneMissing(f: Frame, keys: seq<string>)
    ensures MissingKeys(f, keys) == [] <==> forall k :: k in keys ==> f.Has(k)
  {
    if keys != [] {
      NoneMissing(f, keys[1..]);
      assert keys == [keys[0]] + keys[1..];
    }
  }

  function Violations(left: Frame, right: Frame, p: JoinParams): seq<Violation> {
    var lm, rm := MissingKeys(left, p.leftKeys), MissingKeys(right, p.rightKeys);
    NoneMissing(left, p.leftKeys);
    NoneMissing(right, p.rightKeys);
    (if lm != [] then [LeftKeysMissing(lm)] else []) +
    (if rm != [] then [RightKeysMissing(rm)] else []) +
    (if lm == [] && rm == [] then DtypeViolations(left, right, p.leftKeys, p.rightKeys) else []) +
    (if p.cardinality.ManyToMany? && !p.allowManyToMany then [ManyToManyNotAllowed] else [])
  }

  method CheckPreconditions(left: Frame, right: Frame, p: JoinParams) returns (violations: seq<Violation>)
    ensures violations == Violations(left, right, p)
  {
    violations := [];
    var leftMissing, rightMissing := MissingKeys(left, p.leftKeys), MissingKeys(right, p.rightKeys);
    NoneMissing(left, p.leftKeys);
    NoneMissing(right, p.rightKeys);
    if leftMissing != [] { violations := violations + [LeftKeysMissing(leftMissing)]; }
    if rightMissing != [] { violations := violations + [RightKeysMissing(rightMissing)]; }
    if leftMissing == [] && rightMissing == [] {
      ghost var before := violations;
      for i := 0 to |p.leftKeys|
        invariant violations == before + DtypeViolations(left, right, p.leftKeys[..i], p.rightKeys[..i])
      {
        assert p.leftKeys[..i + 1][..i] == p.leftKeys[..i] && p.rightKeys[..i + 1][..i] == p.rightKeys[..i];
        if left.Dtype(p.leftKeys[i]) != right.Dtype(p.rightKeys[i]) {
          violations := violations + [DtypeMismatch(p.leftKeys[i], p.rightKeys[i])];
        }
      }
      assert p.leftKeys[..|p.leftKeys|] == p.leftKeys && p.rightKeys[..|p.leftKeys|] == p.rightKeys;
    }
    if p.cardinality.ManyToMany? && !p.allowManyToMany {
      violations := violations + [ManyToManyNotAllowed];
    }
  }

  lemma {:induction false} NoDtypeViolations(left: Frame, right: Frame, lks: seq<string>, rks: seq<string>)
    requires |lks| == |rks| && (forall k :: k in lks ==> left.Has(k)) && (forall k :: k in rks ==> right.Has(k))
    ensures DtypeViolations(left, right, lks, rks) == [] <==>
            forall i :: 0 <= i < |lks| ==> left.Dtype(lks[i]) == right.Dtype(rks[i])
  {
    if lks != [] {
      var n := |lks| - 1;
      NoDtypeViolations(left, right, lks[..n], rks[..n]);
      assert forall i :: 0 <= i < n ==> lks[..n][i] == lks[i] && rks[..n][i] == rks[i];
    }
  }

  /** Both sides have their keys, pairwise of one dtype. */
  ghost predicate KeysAgree(left: Frame, right: Frame, lks: seq<string>, rks: seq<string>) {
    && |lks| == |rks|
    && (forall k :: k in lks ==> left.Has(k)) && (forall k :: k in rks ==> right.Has(k))
    && (forall i :: 0 <= i < |lks| ==> left.Dtype(lks[i]) == right.Dtype(rks[i]))
  }

  lemma PreconditionsIff(left: Frame, right: Frame, p: JoinParams)
    ensures Violations(left, right, p) == [] <==>
      KeysAgree(left, right, p.leftKeys, p.rightKeys) && (p.cardinality.ManyToMany? ==> p.allowManyToMany)
  {
    NoneMissing(left, p.leftKeys);
    NoneMissing(right, p.rightKeys);
    if MissingKeys(left, p.leftKeys) == [] && MissingKeys(right, p.rightKeys) == [] {
      NoDtypeViolations(left, right, p.leftKeys, p.rightKeys);
    }
  }

  /** What each violation says: the keys a side lacks, a pair of keys of different dtypes, or the missing opt-in. */
  ghost predicate IsViolation(left: Frame, right: Frame, p: JoinParams, v: Violation) {
    match v
    case LeftKeysMissing(names) => names != [] && forall k :: k in names <==> k in p.leftKeys && !left.Has(k)
    case RightKeysMissing(names) => names != [] && forall k :: k in names <==> k in p.rightKeys && !right.Has(k)
    case DtypeMismatch(a, b) =>
      && (forall k :: k in p.leftKeys ==> left.Has(k)) && (forall k :: k in p.rightKeys ==> right.Has(k))
      && exists i :: Mismatch(left, right, p.leftKeys, p.rightKeys, i, v)
    case ManyToManyNotAllowed => p.cardinality == ManyToMany && !p.allowManyToMany
  }

  lemma MissingAre(f: Frame, keys: seq<string>)
    ensures forall k :: k in MissingKeys(f, keys) <==> k in keys && !f.Has(k)
  {
    FilterKeeps(keys, k => !f.Has(k));
  }

  ghost predicate Mismatch(left: Frame, right: Frame, lks: seq<string>, rks: seq<string>, i: int, v: Violation) {
    && 0 <= i < |lks| && i < |rks| && v == DtypeMismatch(lks[i], rks[i])
    && left.Has(lks[i]) && right.Has(rks[i]) && left.Dtype(lks[i]) != right.Dtype(rks[i])
  }

  lemma {:induction false} DtypeViolationsAre(left: Frame, right: Frame, lks: seq<string>, rks: seq<string>,
                                              v: Violation)
    requires |lks| == |rks| && (forall k :: k in lks ==> left.Has(k)) && (forall k :: k in rks ==> right.Has(k))
    ensures v in DtypeViolations(left, right, lks, rks) <==> exists i :: Mismatch(left, right, lks, rks, i, v)
  {
    if lks != [] {
      var n := |lks| - 1;
      DtypeViolationsAre(left, right, lks[..n], rks[..n], v);
      assert lks[n] in lks && rks[n] in rks;
      if i :| Mismatch(left, right, lks[..n], rks[..n], i, v) { assert Mismatch(left, right, lks, rks, i, v); }
      if i :| Mismatch(left, right, lks, rks, i, v) {
        if i < n { assert Mismatch(left, right, lks[..n], rks[..n], i, v); }
      }
      if left.Dtype(lks[n]) != right.Dtype(rks[n]) && v == DtypeMismatch(lks[n], rks[n]) {
        assert Mismatch(left, right, lks, rks, n, v);
      }
    }
  }

  lemma {:induction false} OnlyMismatches(left: Frame, right: Frame, lks: seq<string>, rks: seq<string>)
    requires |lks| == |rks| && (forall k :: k in lks ==> left.Has(k)) && (forall k :: k in rks ==> right.Has(k))
    ensures forall v :: v in DtypeViolations(left, right, lks, rks) ==> v.DtypeMismatch?
  {
    if lks != [] { OnlyMismatches(left, right, lks[..|lks| - 1], rks[..|lks| - 1]); }
  }

  /** Every violation reported is one, and every one there is is reported. */
  lemma ViolationsAre(left: Frame, right: Frame, p: JoinParams, v: Violation)
    ensures v in Violations(left, right, p) ==> IsViolation(left, right, p, v)
    ensures (v.DtypeMismatch? || v.ManyToManyNotAllowed?) && IsViolation(left, right, p, v) ==>
            v in Violations(left, right, p)
    ensures (exists k :: k in p.leftKeys && !left.Has(k)) ==>
            LeftKeysMissing(MissingKeys(left, p.leftKeys)) in Violations(left, right, p)
    ensures (exists k :: k in p.rightKeys && !right.Has(k)) ==>
            RightKeysMissing(MissingKeys(right, p.rightKeys)) in Violations(left, right, p)
  {
    var lm, rm := MissingKeys(left, p.leftKeys), MissingKeys(right, p.rightKeys);
    MissingAre(left, p.leftKeys);
    MissingAre(right, p.rightKeys);
    NoneMissing(left, p.leftKeys);
    NoneMissing(right, p.rightKeys);
    if lm == [] && rm == [] {
      DtypeViolationsAre(left, right, p.leftKeys, p.rightKeys, v);
      OnlyMismatches(left, right, p.leftKeys, p.rightKeys);
    }
  }

  // ---- The joins, by provenance: each output row names the rows it came from ----

  datatype JoinRow = JoinRow(left: Option<Row>, right: Option<Row>)

  /** Keys match cell by cell, and a null matches nothing. */
  predicate Matches(l: Row, r: Row, p: JoinParams) {
    Key(l, p.leftKeys) == Key(r, p.rightKeys) && Absent !in Key(l, p.leftKeys)
  }

  function RightMatches(l: Row, rights: seq<Row>, p: JoinParams): seq<JoinRow> {
    if rights == [] then []
    else
      (if Matches(l, rights[0], p) then [JoinRow(Some(l), Some(rights[0]))] else [])
      + RightMatches(l, rights[1..], p)
  }

  function LeftMatches(lefts: seq<Row>, r: Row, p: JoinParams): seq<JoinRow> {
    if lefts == [] then []
    else (if Matches(lefts[0], r, p) then [JoinRow(Some(lefts[0]), Some(r))] else []) + LeftMatches(lefts[1..], r, p)
  }

  function InnerJoin(lefts: seq<Row>, rights: seq<Row>, p: JoinParams): seq<JoinRow> {
    if lefts == [] then [] else RightMatches(lefts[0], rights, p) + InnerJoin(lefts[1..], rights, p)
  }

  /** Every left row, with its matches or alone. */
  function LeftJoin(lefts: seq<Row>, rights: seq<Row>, p: JoinParams): seq<JoinRow> {
    if lefts == [] then []
    else
      var matches := RightMatches(lefts[0], rights, p);
      (if matches == [] then [JoinRow(Some(lefts[0]), None)] else matches) + LeftJoin(lefts[1..], rights, p)
  }

  /** Every right row, with its matches or alone. */
  function RightJoin(lefts: seq<Row>, rights: seq<Row>, p: JoinParams): seq<JoinRow> {
    if rights == [] then []
    else
      var matches := LeftMatches(lefts, rights[0], p);
      (if matches == [] then [JoinRow(None, Some(rights[0]))] else matches) + RightJoin(lefts, rights[1..], p)
  }

  function AntiLeft(lefts: seq<Row>, rights: seq<Row>, p: JoinParams): seq<Row> {
    if lefts == [] then []
    else (if RightMatches(lefts[0], rights, p) == [] then [lefts[0]] else []) + AntiLeft(lefts[1..], rights, p)
  }

  function AntiRight(lefts: seq<Row>, rights: seq<Row>, p: JoinParams): seq<Row> {
    if rights == [] then []
    else (if LeftMatches(lefts, rights[0], p) == [] then [rights[0]] else []) + AntiRight(lefts, rights[1..], p)
  }

  /** Every row of both sides: the left join, then the right rows nothing matched. */
  function OuterJoin(lefts: seq<Row>, rights: seq<Row>, p: JoinParams): seq<JoinRow> {
    var alone := AntiRight(lefts, rights, p);
    LeftJoin(lefts, rights, p) + seq(|alone|, i requires 0 <= i < |alone| => JoinRow(None, Some(alone[i])))
  }

  function Joined(lefts: seq<Row>, rights: seq<Row>, p: JoinParams): seq<JoinRow> {
    match p.how
    case Inner => InnerJoin(lefts, rights, p)
    case Left => LeftJoin(lefts, rights, p)
    case Right => RightJoin(lefts, rights, p)
    case Outer => OuterJoin(lefts, rights, p)
  }

  // ---- Execution ----

  datatype Factor = Finite(r: real) | Infinite

  datatype JoinEvidence = JoinEvidence(
    leftRowsIn: nat, rightRowsIn: nat,
    matched: nat, unmatchedLeft: nat, unmatchedRight: nat,
    matchRateLeft: real, matchRateRight: real, multiplication: Factor)

  datatype JoinResult = JoinResult(rows: seq<JoinRow>, evidence: JoinEvidence)

  function Rate(total: nat, unmatched: nat): real {
    if total == 0 then 1.0 else (total - unmatched) as real / total as real
  }

  function Multiplication(rowsIn: nat, rowsOut: nat): Factor {
    if rowsIn > 0 then Finite(rowsOut as real / rowsIn as real)
    else if rowsOut == 0 then Finite(0.0)
    else Infinite
  }

  function LeftMustBeUnique(c: Cardinality): bool {
    c.OneToOne? || c.OneToMany?
  }

  function RightMustBeUnique(c: Cardinality): bool {
    c.OneToOne? || c.ManyToOne?
  }

  function RunJoin(left: Frame, right: Frame, p: JoinParams): Result<JoinResult, PlatformError> {
    if LeftMustBeUnique(p.cardinality) && DuplicateGroups(left, p.leftKeys) != {} then
      Err(PlatformError(DATA_QUALITY_BLOCK, ["left"] + p.leftKeys))
    else if RightMustBeUnique(p.cardinality) && DuplicateGroups(right, p.rightKeys) != {} then
      Err(PlatformError(DATA_QUALITY_BLOCK, ["right"] + p.rightKeys))
    else
      var rows := Joined(left.rows, right.rows, p);
      var unmatchedLeft, unmatchedRight := |AntiLeft(left.rows, right.rows, p)|, |AntiRight(left.rows, right.rows, p)|;
      Ok(JoinResult(rows, JoinEvidence(
        left.Height(), right.Height(),
        |InnerJoin(left.rows, right.rows, p)|, unmatchedLeft, unmatchedRight,
        Rate(left.Height(), unmatchedLeft), Rate(right.Height(), unmatchedRight),
        Multiplication(left.Height(), |rows|))))
  }

  function ExecuteJoin(left: Frame, right: Frame, p: JoinParams): Result<JoinResult, PlatformError> {
    if Violations(left, right, p) != [] then Err(PlatformError(VALIDATION_FAIL, []))
    else RunJoin(left, right, p)
  }

  /** The join runs exactly when the keys exist with equal dtypes, many-to-many is opted into, and every
      side declared unique is unique. */
  lemma ExecutesIff(left: Frame, right: Frame, p: JoinParams)
    ensures ExecuteJoin(left, right, p).Ok? <==>
      && KeysAgree(left, right, p.leftKeys, p.rightKeys)
      && (p.cardinality.ManyToMany? ==> p.allowManyToMany)
      && (LeftMustBeUnique(p.cardinality) ==> UniqueOn(left, p.leftKeys))
      && (RightMustBeUnique(p.cardinality) ==> UniqueOn(right, p.rightKeys))
  {
    PreconditionsIff(left, right, p);
    NoGroupsIffUnique(left, p.leftKeys);
    NoGroupsIffUnique(right, p.rightKeys);
  }

  // ---- Which rows come out, and how often ----

  /** `l` and `r` agree on every pair of key columns, none of them null. */
  ghost predicate KeysMatch(l: Row, r: Row, p: JoinParams) {
    forall k :: 0 <= k < |p.leftKeys| ==>
      CellAt(l, p.leftKeys[k]) == CellAt(r, p.rightKeys[k]) && CellAt(l, p.leftKeys[k]) != Absent
  }

  lemma MatchesIff(l: Row, r: Row, p: JoinParams)
    ensures Matches(l, r, p) <==> KeysMatch(l, r, p)
  {
    var a, b := Key(l, p.leftKeys), Key(r, p.rightKeys);
    if Matches(l, r, p) {
      forall k | 0 <= k < |p.leftKeys|
        ensures CellAt(l, p.leftKeys[k]) == CellAt(r, p.rightKeys[k]) && CellAt(l, p.leftKeys[k]) != Absent
      {
        assert a[k] == b[k] && a[k] in a;
      }
    }
    if KeysMatch(l, r, p) { assert a == b; }
  }

  /** No row of the other side matches. */
  ghost predicate LeftAlone(l: Row, rights: seq<Row>, p: JoinParams) {
    forall r :: r in rights ==> !KeysMatch(l, r, p)
  }

  ghost predicate RightAlone(lefts: seq<Row>, r: Row, p: JoinParams) {
    forall l :: l in lefts ==> !KeysMatch(l, r, p)
  }

  /** How often `x` comes out of a join: a matching pair once for each occurrence of its two rows, and a row that
      nothing matches, if the join keeps its side, once for each of its own. */
  ghost function Occurrences(lefts: seq<Row>, rights: seq<Row>, p: JoinParams, x: JoinRow): nat {
    match (x.left, x.right)
    case (Some(l), Some(r)) => MatchingPairs(lefts, rights, p, x)
    case (Some(l), None) =>
      if (p.how.Left? || p.how.Outer?) && LeftAlone(l, rights, p) then multiset(lefts)[l] else 0
    case (None, Some(r)) =>
      if (p.how.Right? || p.how.Outer?) && RightAlone(lefts, r, p) then multiset(rights)[r] else 0
    case (None, None) => 0
  }

  lemma ConsCount<T>(x: T, kept: bool, rest: seq<T>, r: T)
    ensures multiset((if kept then [x] else []) + rest)[r] == multiset(rest)[r] + if kept && r == x then 1 else 0
  {
  }

  lemma {:induction false} NoRightMatch(l: Row, rights: seq<Row>, p: JoinParams)
    ensures RightMatches(l, rights, p) == [] <==> LeftAlone(l, rights, p)
  {
    if rights != [] {
      NoRightMatch(l, rights[1..], p);
      MatchesIff(l, rights[0], p);
      assert rights == [rights[0]] + rights[1..];
    }
  }

  lemma {:induction false} NoLeftMatch(lefts: seq<Row>, r: Row, p: JoinParams)
    ensures LeftMatches(lefts, r, p) == [] <==> RightAlone(lefts, r, p)
  {
    if lefts != [] {
      NoLeftMatch(lefts[1..], r, p);
      MatchesIff(lefts[0], r, p);
      assert lefts == [lefts[0]] + lefts[1..];
    }
  }

  lemma HeadCount<T>(s: seq<T>, x: T)
    requires s != []
    ensures multiset(s)[x] == multiset(s[1..])[x] + if x == s[0] then 1 else 0
  {
    assert s == [s[0]] + s[1..];
  }

  /** `x` pairs `l` with a right row that matches it. */
  ghost predicate PairsLeftRow(l: Row, x: JoinRow, p: JoinParams) {
    x.left == Some(l) && x.right.Some? && Matches(l, x.right.value, p)
  }

  ghost predicate PairsRightRow(r: Row, x: JoinRow, p: JoinParams) {
    x.right == Some(r) && x.left.Some? && Matches(x.left.value, r, p)
  }

  lemma {:induction false} RightMatchesCount(l: Row, rights: seq<Row>, p: JoinParams, x: JoinRow)
    ensures multiset(RightMatches(l, rights, p))[x] ==
            if PairsLeftRow(l, x, p) then multiset(rights)[x.right.value] else 0
  {
    if rights != [] {
      var rest := RightMatches(l, rights[1..], p);
      RightMatchesCount(l, rights[1..], p, x);
      ConsCount(JoinRow(Some(l), Some(rights[0])), Matches(l, rights[0], p), rest, x);
      if x.right.Some? { HeadCount(rights, x.right.value); }
    }
  }

  lemma {:induction false} LeftMatchesCount(lefts: seq<Row>, r: Row, p: JoinParams, x: JoinRow)
    ensures multiset(LeftMatches(lefts, r, p))[x] ==
            if PairsRightRow(r, x, p) then multiset(lefts)[x.left.value] else 0
  {
    if lefts != [] {
      var rest := LeftMatches(lefts[1..], r, p);
      LeftMatchesCount(lefts[1..], r, p, x);
      ConsCount(JoinRow(Some(lefts[0]), Some(r)), Matches(lefts[0], r, p), rest, x);
      if x.left.Some? { HeadCount(lefts, x.left.value); }
    }
  }

  /** Pairs of an inner join. */
  ghost function Pairs(lefts: seq<Row>, rights: seq<Row>, p: JoinParams, x: JoinRow): nat {
    if x.left.Some? && x.right.Some? && Matches(x.left.value, x.right.value, p)
    then multiset(lefts)[x.left.value] * multiset(rights)[x.right.value] else 0
  }

  /** Rows of the left side that come out alone. */
  ghost function Singles(lefts: seq<Row>, rights: seq<Row>, p: JoinParams, x: JoinRow): nat {
    if x.left.Some? && x.right.None? && LeftAlone(x.left.value, rights, p) then multiset(lefts)[x.left.value] else 0
  }

  ghost function RightSingles(lefts: seq<Row>, rights: seq<Row>, p: JoinParams, x: JoinRow): nat {
    if x.left.None? && x.right.Some? && RightAlone(lefts, x.right.value, p) then multiset(rights)[x.right.value] else 0
  }

  /** How often `x`, if it is a matching pair, can be made of the two sides. */
  ghost function MatchingPairs(lefts: seq<Row>, rights: seq<Row>, p: JoinParams, x: JoinRow): nat {
    if x.left.Some? && x.right.Some? && KeysMatch(x.left.value, x.right.value, p)
    then multiset(lefts)[x.left.value] * multiset(rights)[x.right.value] else 0
  }

  lemma MatchingPairsAre(lefts: seq<Row>, rights: seq<Row>, p: JoinParams, x: JoinRow)
    ensures MatchingPairs(lefts, rights, p, x) == Pairs(lefts, rights, p, x)
  {
    if x.left.Some? && x.right.Some? { MatchesIff(x.left.value, x.right.value, p); }
  }

  lemma OneMoreTimes(rest: nat, n: nat)
    ensures (rest + 1) * n == rest * n + n
  {
  }

  /** The pairs that the first left row adds. */
  lemma PairsLeft(lefts: seq<Row>, rights: seq<Row>, p: JoinParams, x: JoinRow)
    requires lefts != []
    ensures Pairs(lefts, rights, p, x) == Pairs(lefts[1..], rights, p, x) +
            if PairsLeftRow(lefts[0], x, p) then multiset(rights)[x.right.value] else 0
  {
    assert lefts == [lefts[0]] + lefts[1..];
    if x.left.Some? && x.right.Some? && Matches(x.left.value, x.right.value, p) {
      var rest, n := multiset(lefts[1..])[x.left.value], multiset(rights)[x.right.value];
      if x.left.value == lefts[0] {
        OneMoreTimes(rest, n);
        assert multiset(lefts)[x.left.value] == rest + 1;
      } else {
        assert multiset(lefts)[x.left.value] == rest;
      }
    }
  }

  /** The pairs that the first right row adds. */
  lemma PairsRight(lefts: seq<Row>, rights: seq<Row>, p: JoinParams, x: JoinRow)
    requires rights != []
    ensures Pairs(lefts, rights, p, x) == Pairs(lefts, rights[1..], p, x) +
            if PairsRightRow(rights[0], x, p) then multiset(lefts)[x.left.value] else 0
  {
    assert rights == [rights[0]] + rights[1..];
    if x.left.Some? && x.right.Some? && Matches(x.left.value, x.right.value, p) {
      var n, rest := multiset(lefts)[x.left.value], multiset(rights[1..])[x.right.value];
      if x.right.value == rights[0] {
        OneMoreTimes(rest, n);
        assert multiset(rights)[x.right.value] == rest + 1;
        assert n * (rest + 1) == (rest + 1) * n && n * rest == rest * n;
      } else {
        assert multiset(rights)[x.right.value] == rest;
      }
    }
  }

  lemma SinglesLeft(lefts: seq<Row>, rights: seq<Row>, p: JoinParams, x: JoinRow)
    requires lefts != []
    ensures Singles(lefts, rights, p, x) == Singles(lefts[1..], rights, p, x) +
            if x == JoinRow(Some(lefts[0]), None) && LeftAlone(lefts[0], rights, p) then 1 else 0
  {
    assert lefts == [lefts[0]] + lefts[1..];
  }

  lemma RightSinglesRight(lefts: seq<Row>, rights: seq<Row>, p: JoinParams, x: JoinRow)
    requires rights != []
    ensures RightSingles(lefts, rights, p, x) == RightSingles(lefts, rights[1..], p, x) +
            if x == JoinRow(None, Some(rights[0])) && RightAlone(lefts, rights[0], p) then 1 else 0
  {
    assert rights == [rights[0]] + rights[1..];
  }

  lemma {:induction false} InnerCount(lefts: seq<Row>, rights: seq<Row>, p: JoinParams, x: JoinRow)
    ensures multiset(InnerJoin(lefts, rights, p))[x] == Pairs(lefts, rights, p, x)
  {
    if lefts != [] {
      InnerCount(lefts[1..], rights, p, x);
      RightMatchesCount(lefts[0], rights, p, x);
      PairsLeft(lefts, rights, p, x);
    }
  }

  lemma {:induction false} LeftCount(lefts: seq<Row>, rights: seq<Row>, p: JoinParams, x: JoinRow)
    ensures multiset(LeftJoin(lefts, rights, p))[x] == Pairs(lefts, rights, p, x) + Singles(lefts, rights, p, x)
  {
    if lefts != [] {
      LeftCount(lefts[1..], rights, p, x);
      RightMatchesCount(lefts[0], rights, p, x);
      NoRightMatch(lefts[0], rights, p);
      PairsLeft(lefts, rights, p, x);
      SinglesLeft(lefts, rights, p, x);
    }
  }

  lemma {:induction false} RightCount(lefts: seq<Row>, rights: seq<Row>, p: JoinParams, x: JoinRow)
    ensures multiset(RightJoin(lefts, rights, p))[x] == Pairs(lefts, rights, p, x) + RightSingles(lefts, rights, p, x)
  {
    if rights != [] {
      RightCount(lefts, rights[1..], p, x);
      LeftMatchesCount(lefts, rights[0], p, x);
      NoLeftMatch(lefts, rights[0], p);
      PairsRight(lefts, rights, p, x);
      RightSinglesRight(lefts, rights, p, x);
    }
  }

  lemma {:induction false} AntiRightCount(lefts: seq<Row>, rights: seq<Row>, p: JoinParams, r: Row)
    ensures multiset(AntiRight(lefts, rights, p))[r] == if RightAlone(lefts, r, p) then multiset(rights)[r] else 0
  {
    if rights != [] {
      AntiRightCount(lefts, rights[1..], p, r);
      NoLeftMatch(lefts, rights[0], p);
      ConsCount(rights[0], LeftMatches(lefts, rights[0], p) == [], AntiRight(lefts, rights[1..], p), r);
      ConsCount(rights[0], true, rights[1..], r);
      assert rights == [rights[0]] + rights[1..];
    }
  }

  lemma {:induction false} AntiLeftCount(lefts: seq<Row>, rights: seq<Row>, p: JoinParams, l: Row)
    ensures multiset(AntiLeft(lefts, rights, p))[l] == if LeftAlone(l, rights, p) then multiset(lefts)[l] else 0
  {
    if lefts != [] {
      AntiLeftCount(lefts[1..], rights, p, l);
      NoRightMatch(lefts[0], rights, p);
      ConsCount(lefts[0], RightMatches(lefts[0], rights, p) == [], AntiLeft(lefts[1..], rights, p), l);
      ConsCount(lefts[0], true, lefts[1..], l);
      assert lefts == [lefts[0]] + lefts[1..];
    }
  }

  lemma {:induction false} AloneCount(rows: seq<Row>, x: JoinRow)
    ensures multiset(seq(|rows|, i requires 0 <= i < |rows| => JoinRow(None, Some(rows[i]))))[x] ==
            if x.left.None? && x.right.Some? then multiset(rows)[x.right.value] else 0
  {
    if rows != [] {
      var n := |rows| - 1;
      var all := seq(|rows|, i requires 0 <= i < |rows| => JoinRow(None, Some(rows[i])));
      AloneCount(rows[..n], x);
      assert rows == rows[..n] + [rows[n]];
      assert all == seq(n, i requires 0 <= i < n => JoinRow(None, Some(rows[..n][i]))) + [JoinRow(None, Some(rows[n]))];
    }
  }

  /** For each of the four joins, every row comes out exactly as often as it should, and no other row at all. */
  lemma JoinedRowsAre(lefts: seq<Row>, rights: seq<Row>, p: JoinParams, x: JoinRow)
    ensures multiset(Joined(lefts, rights, p))[x] == Occurrences(lefts, rights, p, x)
  {
    MatchingPairsAre(lefts, rights, p, x);
    match p.how
    case Inner => InnerCount(lefts, rights, p, x);
    case Left => LeftCount(lefts, rights, p, x);
    case Right => RightCount(lefts, rights, p, x);
    case Outer =>
      var alone := AntiRight(lefts, rights, p);
      LeftCount(lefts, rights, p, x);
      AloneCount(alone, x);
      if x.right.Some? { AntiRightCount(lefts, rights, p, x.right.value); }
  }

  /** So a row comes out exactly if it is a matching pair of rows of the two sides, or a row of a side the join keeps
      that no row of the other side matches. */
  lemma JoinedMembers(lefts: seq<Row>, rights: seq<Row>, p: JoinParams, x: JoinRow)
    ensures x in Joined(lefts, rights, p) <==>
      || (x.left.Some? && x.right.Some? && x.left.value in lefts && x.right.value in rights
          && KeysMatch(x.left.value, x.right.value, p))
      || ((p.how.Left? || p.how.Outer?) && x.right.None? && x.left.Some? && x.left.value in lefts
          && LeftAlone(x.left.value, rights, p))
      || ((p.how.Right? || p.how.Outer?) && x.left.None? && x.right.Some? && x.right.value in rights
          && RightAlone(lefts, x.right.value, p))
  {
    JoinedRowsAre(lefts, rights, p, x);
    assert x in Joined(lefts, rights, p) <==> multiset(Joined(lefts, rights, p))[x] > 0;
    if x.left.Some? { assert x.left.value in lefts <==> multiset(lefts)[x.left.value] > 0; }
    if x.right.Some? { assert x.right.value in rights <==> multiset(rights)[x.right.value] > 0; }
    if x.left.Some? && x.right.Some? { PositiveProduct(multiset(lefts)[x.left.value],
      multiset(rights)[x.right.value]); }
  }

  lemma PositiveProduct(a: nat, b: nat)
    ensures a * b > 0 <==> a > 0 && b > 0
  {
  }

  // ---- Accounting ----

  lemma {:induction false} LeftAccounting(lefts: seq<Row>, rights: seq<Row>, p: JoinParams)
    ensures |LeftJoin(lefts, rights, p)| == |InnerJoin(lefts, rights, p)| + |AntiLeft(lefts, rights, p)|
    ensures |AntiLeft(lefts, rights, p)| <= |lefts|
  {
    if lefts != [] { LeftAccounting(lefts[1..], rights, p); }
  }

  /** Matches counted from the right side. */
  ghost function RightMajor(lefts: seq<Row>, rights: seq<Row>, p: JoinParams): seq<JoinRow> {
    if rights == [] then [] else LeftMatches(lefts, rights[0], p) + RightMajor(lefts, rights[1..], p)
  }

  lemma {:induction false} RightMajorCons(lefts: seq<Row>, rights: seq<Row>, p: JoinParams)
    requires lefts != []
    ensures multiset(RightMajor(lefts, rights, p)) == multiset(RightMatches(lefts[0], rights, p))
      + multiset(RightMajor(lefts[1..], rights, p))
  {
    if rights != [] { RightMajorCons(lefts, rights[1..], p); }
  }

  lemma {:induction false} RightMajorEmpty(rights: seq<Row>, p: JoinParams)
    ensures RightMajor([], rights, p) == []
  {
    if rights != [] { RightMajorEmpty(rights[1..], p); }
  }

  /** The matched pairs are the same, with multiplicities, from whichever side they are enumerated. */
  lemma {:induction false} PairsEitherWay(lefts: seq<Row>, rights: seq<Row>, p: JoinParams)
    ensures multiset(InnerJoin(lefts, rights, p)) == multiset(RightMajor(lefts, rights, p))
  {
    if lefts == [] {
      RightMajorEmpty(rights, p);
    } else {
      PairsEitherWay(lefts[1..], rights, p);
      RightMajorCons(lefts, rights, p);
    }
  }

  lemma {:induction false} RightAccounting(lefts: seq<Row>, rights: seq<Row>, p: JoinParams)
    ensures |RightJoin(lefts, rights, p)| == |RightMajor(lefts, rights, p)| + |AntiRight(lefts, rights, p)|
    ensures |AntiRight(lefts, rights, p)| <= |rights|
  {
    if rights != [] { RightAccounting(lefts, rights[1..], p); }
  }

  lemma SameSize(a: seq<JoinRow>, b: seq<JoinRow>)
    requires multiset(a) == multiset(b)
    ensures |a| == |b|
  {
    assert |multiset(a)| == |a| && |multiset(b)| == |b|;
  }

  /** No row is created or lost unseen: the rows out are the matched pairs plus the unmatched rows of the
      sides the join keeps, and all rates are proper fractions. */
  lemma JoinAccounting(left: Frame, right: Frame, p: JoinParams)
    requires ExecuteJoin(left, right, p).Ok?
    ensures var JoinResult(rows, e) := ExecuteJoin(left, right, p).value;
      && |rows| == e.matched + (if p.how.Left? || p.how.Outer? then e.unmatchedLeft else 0)
                             + (if p.how.Right? || p.how.Outer? then e.unmatchedRight else 0)
      && e.unmatchedLeft <= left.Height() && e.unmatchedRight <= right.Height()
      && 0.0 <= e.matchRateLeft <= 1.0 && 0.0 <= e.matchRateRight <= 1.0
  {
    LeftAccounting(left.rows, right.rows, p);
    RightAccounting(left.rows, right.rows, p);
    PairsEitherWay(left.rows, right.rows, p);
    SameSize(InnerJoin(left.rows, right.rows, p), RightMajor(left.rows, right.rows, p));
    RateBounds(left.Height(), |AntiLeft(left.rows, right.rows, p)|);
    RateBounds(right.Height(), |AntiRight(left.rows, right.rows, p)|);
  }

  /** `n` of the left rows, counted as often as they occur, match no right row. */
  ghost predicate CountsLeftAlone(n: nat, lefts: seq<Row>, rights: seq<Row>, p: JoinParams) {
    exists m: multiset<Row> :: |m| == n && forall l :: m[l] == if LeftAlone(l, rights, p) then multiset(lefts)[l] else 0
  }

  ghost predicate CountsRightAlone(n: nat, lefts: seq<Row>, rights: seq<Row>, p: JoinParams) {
    exists m: multiset<Row> :: |m| == n && forall r :: m[r] == if RightAlone(lefts, r, p) then multiset(rights)[r]
      else 0
  }

  ghost predicate CountsPairs(n: nat, lefts: seq<Row>, rights: seq<Row>, p: JoinParams) {
    exists m: multiset<JoinRow> :: |m| == n && forall x :: m[x] == MatchingPairs(lefts, rights, p, x)
  }

  /** `rate` is the share of the `total` rows that are matched; of no rows, all are. */
  ghost predicate IsMatchRate(rate: real, total: nat, unmatched: nat) {
    if total == 0 then rate == 1.0 else rate * total as real == (total - unmatched) as real
  }

  ghost predicate IsFactor(f: Factor, rowsIn: nat, rowsOut: nat) {
    if rowsIn > 0 then f.Finite? && f.r * rowsIn as real == rowsOut as real
    else if rowsOut == 0 then f == Finite(0.0)
    else f == Infinite
  }

  /** The evidence counts what it says it counts. */
  lemma EvidenceCounts(left: Frame, right: Frame, p: JoinParams)
    requires ExecuteJoin(left, right, p).Ok?
    ensures var JoinResult(rows, e) := ExecuteJoin(left, right, p).value;
      && e.leftRowsIn == left.Height() && e.rightRowsIn == right.Height()
      && CountsPairs(e.matched, left.rows, right.rows, p)
      && CountsLeftAlone(e.unmatchedLeft, left.rows, right.rows, p)
      && CountsRightAlone(e.unmatchedRight, left.rows, right.rows, p)
      && IsMatchRate(e.matchRateLeft, left.Height(), e.unmatchedLeft)
      && IsMatchRate(e.matchRateRight, right.Height(), e.unmatchedRight)
      && IsFactor(e.multiplication, left.Height(), |rows|)
  {
    var lefts, rights := left.rows, right.rows;
    MatchedAreCounted(lefts, rights, p);
    LeftAloneAreCounted(lefts, rights, p);
    RightAloneAreCounted(lefts, rights, p);
    LeftAccounting(lefts, rights, p);
    RightAccounting(lefts, rights, p);
    RateIs(left.Height(), |AntiLeft(lefts, rights, p)|);
    RateIs(right.Height(), |AntiRight(lefts, rights, p)|);
    FactorIs(left.Height(), |Joined(lefts, rights, p)|);
  }

  lemma FactorIs(rowsIn: nat, rowsOut: nat)
    ensures IsFactor(Multiplication(rowsIn, rowsOut), rowsIn, rowsOut)
  {
  }

  lemma MatchedAreCounted(lefts: seq<Row>, rights: seq<Row>, p: JoinParams)
    ensures CountsPairs(|InnerJoin(lefts, rights, p)|, lefts, rights, p)
  {
    var m := multiset(InnerJoin(lefts, rights, p));
    forall x ensures m[x] == MatchingPairs(lefts, rights, p, x) {
      InnerCount(lefts, rights, p, x);
      MatchingPairsAre(lefts, rights, p, x);
    }
    assert |m| == |InnerJoin(lefts, rights, p)|;
  }

  lemma LeftAloneAreCounted(lefts: seq<Row>, rights: seq<Row>, p: JoinParams)
    ensures CountsLeftAlone(|AntiLeft(lefts, rights, p)|, lefts, rights, p)
  {
    var m := multiset(AntiLeft(lefts, rights, p));
    forall l ensures m[l] == if LeftAlone(l, rights, p) then multiset(lefts)[l] else 0 {
      AntiLeftCount(lefts, rights, p, l);
    }
    assert |m| == |AntiLeft(lefts, rights, p)|;
  }

  lemma RightAloneAreCounted(lefts: seq<Row>, rights: seq<Row>, p: JoinParams)
    ensures CountsRightAlone(|AntiRight(lefts, rights, p)|, lefts, rights, p)
  {
    var m := multiset(AntiRight(lefts, rights, p));
    forall r ensures m[r] == if RightAlone(lefts, r, p) then multiset(rights)[r] else 0 {
      AntiRightCount(lefts, rights, p, r);
    }
    assert |m| == |AntiRight(lefts, rights, p)|;
  }

  lemma RateIs(total: nat, unmatched: nat)
    requires unmatched <= total
    ensures IsMatchRate(Rate(total, unmatched), total, unmatched)
  {
  }

  lemma RateBounds(total: nat, unmatched: nat)
    requires unmatched <= total
    ensures 0.0 <= Rate(total, unmatched) <= 1.0
  {
  }

  // ---- Cardinality ----

  lemma {:induction false} UniqueRightMatchesOnce(l: Row, rights: seq<Row>, p: JoinParams)
    requires Distinct(KeysOf(rights, p.rightKeys))
    ensures |RightMatches(l, rights, p)| <= 1
  {
    if rights != [] {
      var ks := KeysOf(rights, p.rightKeys);
      assert KeysOf(rights[1..], p.rightKeys) == ks[1..];
      assert forall i, j :: 0 <= i < j < |rights| - 1 ==> ks[1..][i] != ks[1..][j];
      UniqueRightMatchesOnce(l, rights[1..], p);
      if Matches(l, rights[0], p) {
        assert forall i :: 0 < i < |ks| ==> ks[i] != ks[0];
        assert forall i :: 0 <= i < |rights| - 1 ==> Key(rights[1..][i], p.rightKeys) == ks[i + 1];
        NoRightMatches(l, rights[1..], p);
      }
    }
  }

  lemma {:induction false} NoRightMatches(l: Row, rights: seq<Row>, p: JoinParams)
    requires forall i :: 0 <= i < |rights| ==> Key(rights[i], p.rightKeys) != Key(l, p.leftKeys)
    ensures RightMatches(l, rights, p) == []
  {
    if rights != [] { NoRightMatches(l, rights[1..], p); }
  }

  lemma {:induction false} UniqueLeftMatchesOnce(lefts: seq<Row>, r: Row, p: JoinParams)
    requires Distinct(KeysOf(lefts, p.leftKeys))
    ensures |LeftMatches(lefts, r, p)| <= 1
  {
    if lefts != [] {
      var ks := KeysOf(lefts, p.leftKeys);
      assert KeysOf(lefts[1..], p.leftKeys) == ks[1..];
      assert forall i, j :: 0 <= i < j < |lefts| - 1 ==> ks[1..][i] != ks[1..][j];
      UniqueLeftMatchesOnce(lefts[1..], r, p);
      if Matches(lefts[0], r, p) {
        assert forall i :: 0 < i < |ks| ==> ks[i] != ks[0];
        assert forall i :: 0 <= i < |lefts| - 1 ==> Key(lefts[1..][i], p.leftKeys) == ks[i + 1];
        NoLeftMatches(lefts[1..], r, p);
      }
    }
  }

  lemma {:induction false} NoLeftMatches(lefts: seq<Row>, r: Row, p: JoinParams)
    requires forall i :: 0 <= i < |lefts| ==> Key(lefts[i], p.leftKeys) != Key(r, p.rightKeys)
    ensures LeftMatches(lefts, r, p) == []
  {
    if lefts != [] { NoLeftMatches(lefts[1..], r, p); }
  }

  lemma {:induction false} UniqueRightKeepsHeight(lefts: seq<Row>, rights: seq<Row>, p: JoinParams)
    requires Distinct(KeysOf(rights, p.rightKeys))
    ensures |LeftJoin(lefts, rights, p)| == |lefts|
  {
    if lefts != [] {
      UniqueRightMatchesOnce(lefts[0], rights, p);
      UniqueRightKeepsHeight(lefts[1..], rights, p);
    }
  }

  lemma {:induction false} UniqueLeftKeepsHeight(lefts: seq<Row>, rights: seq<Row>, p: JoinParams)
    requires Distinct(KeysOf(lefts, p.leftKeys))
    ensures |RightJoin(lefts, rights, p)| == |rights|
  {
    if rights != [] {
      UniqueLeftMatchesOnce(lefts, rights[0], p);
      UniqueLeftKeepsHeight(lefts, rights[1..], p);
    }
  }

  /** A declared cardinality bounds what comes out: with unique right keys a left join has exactly the left
      rows and an inner join no more, and symmetrically with unique left keys. */
  lemma CardinalityBoundsOutput(left: Frame, right: Frame, p: JoinParams)
    requires ExecuteJoin(left, right, p).Ok?
    ensures var n := |ExecuteJoin(left, right, p).value.rows|;
      && (RightMustBeUnique(p.cardinality) && p.how.Left? ==> n == left.Height())
      && (RightMustBeUnique(p.cardinality) && p.how.Inner? ==> n <= left.Height())
      && (LeftMustBeUnique(p.cardinality) && p.how.Right? ==> n == right.Height())
      && (LeftMustBeUnique(p.cardinality) && p.how.Inner? ==> n <= right.Height())
  {
    ExecutesIff(left, right, p);
    JoinAccounting(left, right, p);
    if RightMustBeUnique(p.cardinality) {
      UniqueRightKeepsHeight(left.rows, right.rows, p);
      LeftAccounting(left.rows, right.rows, p);
    }
    if LeftMustBeUnique(p.cardinality) {
      UniqueLeftKeepsHeight(left.rows, right.rows, p);
      RightAccounting(left.rows, right.rows, p);
      PairsEitherWay(left.rows, right.rows, p);
      SameSize(InnerJoin(left.rows, right.rows, p), RightMajor(left.rows, right.rows, p));
    }
  }

  /** The inner join holds exactly the matching pairs. */
  lemma {:induction false} InnerJoinPairs(lefts: seq<Row>, rights: seq<Row>, p: JoinParams, row: JoinRow)
    ensures row in InnerJoin(lefts, rights, p) <==>
      row.left.Some? && row.right.Some? && row.left.value in lefts && row.right.value in rights &&
      Matches(row.left.value, row.right.value, p)
  {
    if lefts != [] {
      InnerJoinPairs(lefts[1..], rights, p, row);
      RightMatchesPairs(lefts[0], rights, p, row);
      assert lefts == [lefts[0]] + lefts[1..];
    }
  }

  lemma {:induction false} RightMatchesPairs(l: Row, rights: seq<Row>, p: JoinParams, row: JoinRow)
    ensures row in RightMatches(l, rights, p) <==>
      row.left == Some(l) && row.right.Some? && row.right.value in rights && Matches(l, row.right.value, p)
  {
    if rights != [] {
      RightMatchesPairs(l, rights[1..], p, row);
      assert rights == [rights[0]] + rights[1..];
    }
  }
}
