/** Layered Kahn sort of a dependency graph, with an independent account of what
    it computes: ids ordered by the length of their longest dependency path, then by id. */
module Graph {
  import opened Values
  import opened Ids
  import opened Seqs

  /** Each id with the ids it depends on. Dependencies outside the graph do not count. */
  type Deps = map<string, set<string>>

  // ---- Walks and cycles ----

  ghost predicate IsWalk(g: Deps, p: seq<string>) {
    && p != []
    && (forall i :: 0 <= i < |p| ==> p[i] in g)
    && (forall i :: 0 <= i < |p| - 1 ==> p[i + 1] in g[p[i]])
  }

  ghost predicate IsCycle(g: Deps, p: seq<string>) {
    IsWalk(g, p) && p[0] in g[p[|p| - 1]]
  }

  ghost predicate Cyclic(g: Deps) {
    exists p :: IsCycle(g, p)
  }

  /** Some dependency path of `k` edges starts at `x`. */
  ghost predicate Reaches(g: Deps, x: string, k: nat)
    decreases k
  {
    x in g && (k == 0 || exists y :: y in g[x] && Reaches(g, y, k - 1))
  }

  /** The longest dependency path from `x` has exactly `k` edges. */
  ghost predicate AtDepth(g: Deps, x: string, k: nat) {
    Reaches(g, x, k) && !Reaches(g, x, k + 1)
  }

  ghost predicate StartsWalk(g: Deps, x: string, k: nat, p: seq<string>) {
    IsWalk(g, p) && p[0] == x && |p| == k + 1
  }

  lemma {:induction false} ReachesIffWalk(g: Deps, x: string, k: nat)
    ensures Reaches(g, x, k) <==> exists p :: StartsWalk(g, x, k, p)
    decreases k
  {
    if k == 0 {
      if Reaches(g, x, 0) { assert StartsWalk(g, x, 0, [x]); }
    } else {
      if Reaches(g, x, k) {
        var y :| y in g[x] && Reaches(g, y, k - 1);
        ReachesIffWalk(g, y, k - 1);
        var q :| StartsWalk(g, y, k - 1, q);
        var p := [x] + q;
        assert forall i :: 0 <= i < |p| - 1 ==> p[i + 1] in g[p[i]];
        assert StartsWalk(g, x, k, p);
      }
      if p :| StartsWalk(g, x, k, p) {
        ReachesIffWalk(g, p[1], k - 1);
        assert StartsWalk(g, p[1], k - 1, p[1..]);
      }
    }
  }

  lemma {:induction false} ReachesLess(g: Deps, x: string, j: nat, k: nat)
    requires j <= k && Reaches(g, x, k)
    ensures Reaches(g, x, j)
    decreases k
  {
    if j > 0 {
      var y :| y in g[x] && Reaches(g, y, k - 1);
      ReachesLess(g, y, j - 1, k - 1);
    }
  }

  ghost predicate HasDepth(g: Deps, x: string) {
    exists d: nat :: AtDepth(g, x, d)
  }

  lemma DepthUnique(g: Deps, x: string, j: nat, k: nat)
    requires AtDepth(g, x, j) && AtDepth(g, x, k)
    ensures j == k
  {
    if j < k { ReachesLess(g, x, j + 1, k); }
    if k < j { ReachesLess(g, x, k + 1, j); }
  }

  lemma DependencyIsShallower(g: Deps, x: string, y: string, j: nat, k: nat)
    requires x in g && y in g[x] && AtDepth(g, y, j) && AtDepth(g, x, k)
    ensures j < k
  {
    if k <= j { ReachesLess(g, x, k + 1, j + 1); }
  }

  lemma {:induction false} CycleReaches(g: Deps, p: seq<string>, i: nat, k: nat)
    requires IsCycle(g, p) && i < |p|
    ensures Reaches(g, p[i], k)
    decreases k
  {
    if k > 0 {
      CycleReaches(g, p, if i + 1 < |p| then i + 1 else 0, k - 1);
    }
  }

  ghost predicate Ranked(g: Deps, rank: map<string, int>) {
    forall x, y :: x in g && y in g[x] && y in g ==> x in rank && y in rank && rank[y] < rank[x]
  }

  lemma {:induction false} WalkDescends(g: Deps, rank: map<string, int>, p: seq<string>)
    requires Ranked(g, rank) && IsWalk(g, p) && p[0] in rank
    ensures p[|p| - 1] in rank && rank[p[|p| - 1]] <= rank[p[0]]
  {
    if |p| > 1 {
      assert p[1] in g[p[0]];
      assert IsWalk(g, p[1..]);
      WalkDescends(g, rank, p[1..]);
    }
  }

  /** A graph whose edges all go down some ranking has no cycle. */
  lemma RankedIsAcyclic(g: Deps, rank: map<string, int>)
    requires Ranked(g, rank)
    ensures !Cyclic(g)
  {
    if p :| IsCycle(g, p) {
      assert p[0] in g[p[|p| - 1]];
      WalkDescends(g, rank, p);
    }
  }

  // ---- Pigeonhole: a set in which everyone has a dependency inside the set contains a cycle ----

  ghost predicate Stuck(g: Deps, r: set<string>) {
    r <= g.Keys && forall x :: x in r ==> g[x] * r != {}
  }

  lemma {:induction false} StuckWalk(g: Deps, r: set<string>, x: string, k: nat)
    requires Stuck(g, r) && x in r
    ensures exists p :: StartsWalk(g, x, k, p) && forall i :: 0 <= i < |p| ==> p[i] in r
    decreases k
  {
    if k == 0 {
      assert StartsWalk(g, x, 0, [x]);
    } else {
      var y :| y in g[x] * r;
      StuckWalk(g, r, y, k - 1);
      var q :| StartsWalk(g, y, k - 1, q) && forall i :: 0 <= i < |q| ==> q[i] in r;
      var p := [x] + q;
      assert forall i :: 0 <= i < |p| - 1 ==> p[i + 1] in g[p[i]];
      assert StartsWalk(g, x, k, p);
    }
  }

  lemma {:induction false} Pigeonhole(p: seq<string>, r: set<string>)
    requires (forall i :: 0 <= i < |p| ==> p[i] in r) && |p| > |r|
    ensures exists i, j :: 0 <= i < j < |p| && p[i] == p[j]
  {
    var q, last := p[..|p| - 1], p[|p| - 1];
    if last in q {
      var i :| 0 <= i < |q| && q[i] == last;
      assert p[i] == p[|p| - 1];
    } else {
      Pigeonhole(q, r - {last});
      var i, j :| 0 <= i < j < |q| && q[i] == q[j];
      assert p[i] == p[j];
    }
  }

  lemma StuckImpliesCycle(g: Deps, r: set<string>)
    requires Stuck(g, r) && r != {}
    ensures exists p :: IsCycle(g, p) && forall i :: 0 <= i < |p| ==> p[i] in r
  {
    var x :| x in r;
    StuckWalk(g, r, x, |r|);
    var p :| StartsWalk(g, x, |r|, p) && forall i :: 0 <= i < |p| ==> p[i] in r;
    Pigeonhole(p, r);
    var i, j :| 0 <= i < j < |p| && p[i] == p[j];
    var c := p[i..j];
    assert p[j] in g[p[j - 1]];
    assert c[0] == p[j] && c[|c| - 1] == p[j - 1];
    assert IsCycle(g, c);
  }

  // ---- The sort ----

  /** One round: the ids none of whose dependencies remain. */
  function Ready(g: Deps, remaining: set<string>): set<string>
    requires remaining <= g.Keys
  {
    set x | x in remaining && g[x] * remaining == {}
  }

  /** Rounds until nothing remains; a round that frees no id fails with what is left. */
  function KahnFrom(g: Deps, remaining: set<string>): Result<seq<string>, seq<string>>
    requires remaining <= g.Keys
    decreases |remaining|
  {
    if remaining == {} then Ok([])
    else
      var ready := Ready(g, remaining);
      if ready == {} then Err(SortedSeq(remaining))
      else
        ReadyShrinks(g, remaining);
        match KahnFrom(g, remaining - ready)
        case Ok(rest) => Ok(SortedSeq(ready) + rest)
        case Err(left) => Err(left)
  }

  function Kahn(g: Deps): Result<seq<string>, seq<string>> {
    KahnFrom(g, g.Keys)
  }

  lemma {:induction false} SubsetCardinality(a: set<string>, b: set<string>)
    requires a <= b
    ensures |a| <= |b|
  {
    if a != {} {
      var x :| x in a;
      SubsetCardinality(a - {x}, b - {x});
    }
  }

  ghost function Prepend(done: seq<string>, r: Result<seq<string>, seq<string>>): Result<seq<string>, seq<string>> {
    match r
    case Ok(rest) => Ok(done + rest)
    case Err(left) => Err(left)
  }

  lemma PrependNothing(r: Result<seq<string>, seq<string>>)
    ensures Prepend([], r) == r
  {
    if r.Ok? { assert [] + r.value == r.value; }
  }

  lemma PrependTwice(a: seq<string>, b: seq<string>, r: Result<seq<string>, seq<string>>)
    ensures Prepend(a, Prepend(b, r)) == Prepend(a + b, r)
  {
    if r.Ok? { assert a + (b + r.value) == (a + b) + r.value; }
  }

  lemma RoundStep(g: Deps, remaining: set<string>, done: seq<string>)
    requires remaining <= g.Keys && Ready(g, remaining) != {}
    ensures Prepend(done, KahnFrom(g, remaining)) ==
            Prepend(done + SortedSeq(Ready(g, remaining)), KahnFrom(g, remaining - Ready(g, remaining)))
  {
    var ready := Ready(g, remaining);
    ReadyShrinks(g, remaining);
    var rest := KahnFrom(g, remaining - ready);
    assert KahnFrom(g, remaining) == Prepend(SortedSeq(ready), rest);
    PrependTwice(done, SortedSeq(ready), rest);
  }

  /** What remains after `k` rounds: the ids from which a path of `k` edges starts. */
  ghost function AfterRounds(g: Deps, k: nat): set<string> {
    set x | x in g && Reaches(g, x, k)
  }

  lemma RoundRemovesLayer(g: Deps, k: nat)
    ensures AfterRounds(g, k) - Ready(g, AfterRounds(g, k)) == AfterRounds(g, k + 1)
    ensures forall x :: x in Ready(g, AfterRounds(g, k)) ==> AtDepth(g, x, k)
  {
    var r := AfterRounds(g, k);
    forall x | x in g ensures x in r - Ready(g, r) <==> x in AfterRounds(g, k + 1) {
      if x in r - Ready(g, r) {
        var y :| y in g[x] * r;
        assert Reaches(g, x, k + 1);
      }
      if x in AfterRounds(g, k + 1) {
        ReachesLess(g, x, k, k + 1);
        var y :| y in g[x] && Reaches(g, y, k);
        assert y in g[x] * r;
      }
    }
  }

  /** `x` comes before `y` in the order by (longest dependency path, id). */
  ghost predicate Before(g: Deps, x: string, y: string) {
    forall d: nat, e: nat :: AtDepth(g, x, d) && AtDepth(g, y, e) ==> d < e || (d == e && Less(x, y))
  }

  lemma BeforeAt(g: Deps, x: string, y: string, j: nat, k: nat)
    requires AtDepth(g, x, j) && AtDepth(g, y, k) && (j < k || (j == k && Less(x, y)))
    ensures Before(g, x, y)
  {
    forall d: nat, e: nat | AtDepth(g, x, d) && AtDepth(g, y, e) ensures d < e || (d == e && Less(x, y)) {
      DepthUnique(g, x, d, j);
      DepthUnique(g, y, e, k);
    }
  }

  lemma BeforeAsymmetric(g: Deps, x: string, y: string)
    requires HasDepth(g, x) && HasDepth(g, y) && Before(g, x, y)
    ensures !Before(g, y, x) && x != y
  {
    var d: nat :| AtDepth(g, x, d);
    var e: nat :| AtDepth(g, y, e);
    if Less(x, y) { LessAsymmetric(x, y); }
  }

  /** Every id of the graph exactly once, ordered by (longest dependency path, id). */
  ghost predicate Canonical(g: Deps, o: seq<string>) {
    && (forall x :: x in o <==> x in g)
    && (forall x :: x in o ==> HasDepth(g, x))
    && Ordered(g, o)
  }

  ghost predicate DepthFrom(g: Deps, x: string, k: nat) {
    exists d: nat :: d >= k && AtDepth(g, x, d)
  }

  ghost predicate Ordered(g: Deps, o: seq<string>) {
    forall i, j :: 0 <= i < j < |o| ==> Before(g, o[i], o[j])
  }

  lemma LayerOrdered(g: Deps, k: nat, layer: set<string>)
    requires forall x :: x in layer ==> AtDepth(g, x, k)
    ensures Ordered(g, SortedSeq(layer))
  {
    var o := SortedSeq(layer);
    forall i, j | 0 <= i < j < |o| ensures Before(g, o[i], o[j]) {
      assert o[i] in layer && o[j] in layer;
      BeforeAt(g, o[i], o[j], k, k);
    }
  }

  lemma DeeperIsLater(g: Deps, k: nat, x: string, y: string)
    requires AtDepth(g, x, k) && DepthFrom(g, y, k + 1)
    ensures Before(g, x, y)
  {
    var d: nat :| d >= k + 1 && AtDepth(g, y, d);
    BeforeAt(g, x, y, k, d);
  }

  lemma OrderedConcat(g: Deps, a: seq<string>, b: seq<string>)
    requires Ordered(g, a) && Ordered(g, b)
    requires forall x, y :: x in a && y in b ==> Before(g, x, y)
    ensures Ordered(g, a + b)
  {
  }

  lemma ReadyShrinks(g: Deps, r: set<string>)
    requires r <= g.Keys && Ready(g, r) != {}
    ensures |r - Ready(g, r)| < |r|
  {
    var x :| x in Ready(g, r);
    SubsetCardinality(r - Ready(g, r), r - {x});
  }

  lemma {:induction false} KahnFromLayers(g: Deps, k: nat, o: seq<string>)
    requires KahnFrom(g, AfterRounds(g, k)) == Ok(o)
    ensures forall x :: x in o <==> x in AfterRounds(g, k)
    ensures forall x :: x in o ==> DepthFrom(g, x, k)
    ensures Ordered(g, o)
    decreases |AfterRounds(g, k)|
  {
    var r := AfterRounds(g, k);
    if r != {} {
      var ready := Ready(g, r);
      ReadyShrinks(g, r);
      RoundRemovesLayer(g, k);
      var first, rest := SortedSeq(ready), KahnFrom(g, r - ready).value;
      KahnFromLayers(g, k + 1, rest);
      LayerOrdered(g, k, ready);
      forall x, y | x in first && y in rest ensures Before(g, x, y) {
        DeeperIsLater(g, k, x, y);
      }
      OrderedConcat(g, first, rest);
    }
  }

  lemma NoneReadyIsStuck(g: Deps, r: set<string>)
    requires r <= g.Keys && Ready(g, r) == {}
    ensures Stuck(g, r)
  {
    forall x | x in r ensures g[x] * r != {} { assert x !in Ready(g, r); }
  }

  lemma SortedElements(s: set<string>)
    ensures Elements(SortedSeq(s)) == s && (SortedSeq(s) == [] <==> s == {})
  {
  }

  lemma {:induction false} KahnFailureIsStuck(g: Deps, remaining: set<string>, left: seq<string>)
    requires remaining <= g.Keys && KahnFrom(g, remaining) == Err(left)
    ensures left != [] && Stuck(g, Elements(left))
    decreases |remaining|
  {
    var ready := Ready(g, remaining);
    if ready == {} {
      NoneReadyIsStuck(g, remaining);
      SortedElements(remaining);
    } else {
      ReadyShrinks(g, remaining);
      assert KahnFrom(g, remaining - ready) == Err(left);
      KahnFailureIsStuck(g, remaining - ready, left);
    }
  }

  // ---- Main results ----

  lemma KahnIsCanonical(g: Deps, o: seq<string>)
    requires Kahn(g) == Ok(o)
    ensures Canonical(g, o)
  {
    assert AfterRounds(g, 0) == g.Keys;
    KahnFromLayers(g, 0, o);
  }

  lemma CanonicalIsAcyclic(g: Deps, o: seq<string>)
    requires Canonical(g, o)
    ensures !Cyclic(g)
  {
    if p :| IsCycle(g, p) {
      assert p[0] in o;
      var d: nat :| AtDepth(g, p[0], d);
      CycleReaches(g, p, 0, d + 1);
    }
  }

  /** A cycle all of whose ids are in `r`. */
  ghost predicate CycleWithin(g: Deps, p: seq<string>, r: seq<string>) {
    IsCycle(g, p) && forall i :: 0 <= i < |p| ==> p[i] in r
  }

  lemma StuckReport(g: Deps, left: seq<string>)
    requires left != [] && Stuck(g, Elements(left))
    ensures exists p :: CycleWithin(g, p, left)
  {
    assert left[0] in Elements(left);
    StuckImpliesCycle(g, Elements(left));
    var p :| IsCycle(g, p) && forall i :: 0 <= i < |p| ==> p[i] in Elements(left);
    assert CycleWithin(g, p, left);
  }

  /** The sort fails exactly on cyclic graphs; what it then reports contains a cycle, and every
      reported id depends on a reported id. */
  lemma KahnFailsIffCyclic(g: Deps)
    ensures Kahn(g).Err? <==> Cyclic(g)
    ensures Kahn(g).Err? ==> Stuck(g, Elements(Kahn(g).error))
    ensures Kahn(g).Err? ==> exists p :: CycleWithin(g, p, Kahn(g).error)
  {
    match Kahn(g)
    case Err(left) =>
      KahnFailureIsStuck(g, g.Keys, left);
      StuckReport(g, left);
      var p :| CycleWithin(g, p, left);
      assert IsCycle(g, p);
    case Ok(o) =>
      KahnIsCanonical(g, o);
      CanonicalIsAcyclic(g, o);
  }

  lemma CanonicalHasNoDuplicates(g: Deps, o: seq<string>)
    requires Canonical(g, o)
    ensures Distinct(o)
  {
    forall i, j | 0 <= i < j < |o| ensures o[i] != o[j] {
      assert o[i] in o && o[j] in o;
      BeforeAsymmetric(g, o[i], o[j]);
    }
  }

  /** Every dependency comes strictly before its dependant. */
  lemma CanonicalRespectsDependencies(g: Deps, o: seq<string>, i: nat, y: string)
    requires Canonical(g, o) && i < |o| && o[i] in g && y in g[o[i]] && y in g
    ensures exists j :: 0 <= j < i && o[j] == y
  {
    assert y in o && o[i] in o;
    var j := Position(o, y);
    assert i < j ==> Before(g, o[i], o[j]);
    var d: nat :| AtDepth(g, o[i], d);
    var e: nat :| AtDepth(g, y, e);
    DependencyIsShallower(g, o[i], y, e, d);
  }

  lemma {:induction false} CanonicalUnique(g: Deps, a: seq<string>, b: seq<string>, n: nat)
    requires Canonical(g, a) && Canonical(g, b) && n <= |a| && n <= |b|
    ensures a[..n] == b[..n]
  {
    if n > 0 {
      var m := n - 1;
      CanonicalUnique(g, a, b, m);
      if a[m] != b[m] {
        CanonicalHasNoDuplicates(g, a);
        CanonicalHasNoDuplicates(g, b);
        assert a[m] in a && b[m] in b;
        var i, j := Position(b, a[m]), Position(a, b[m]);
        assert forall t :: 0 <= t < m ==> a[..m][t] == b[..m][t];
        assert forall t :: 0 <= t < m ==> a[t] == b[t];
        assert Before(g, a[m], a[j]) && Before(g, b[m], b[i]);
        BeforeAsymmetric(g, a[m], b[m]);
      }
      assert a[..n] == a[..m] + [a[m]] && b[..n] == b[..m] + [b[m]];
    }
  }

  ghost function Position(s: seq<string>, x: string): (i: nat)
    requires x in s
    ensures i < |s| && s[i] == x
  {
    var i :| 0 <= i < |s| && s[i] == x; i
  }

  lemma DistinctLength(o: seq<string>, s: set<string>)
    requires Distinct(o) && forall x :: x in o <==> x in s
    ensures |o| == |s|
  {
    assert Elements(o) == s;
    DistinctIffCardinality(o);
  }

  /** The sort returns `o` exactly when `o` lists every id once by (longest dependency path, id):
      nothing else about how the graph was written down can show in the order. */
  lemma KahnIffCanonical(g: Deps, o: seq<string>)
    ensures Kahn(g) == Ok(o) <==> Canonical(g, o)
  {
    if Kahn(g) == Ok(o) { KahnIsCanonical(g, o); }
    if Canonical(g, o) {
      CanonicalIsAcyclic(g, o);
      KahnFailsIffCyclic(g);
      var k := Kahn(g).value;
      KahnIsCanonical(g, k);
      CanonicalHasNoDuplicates(g, o);
      CanonicalHasNoDuplicates(g, k);
      DistinctLength(o, g.Keys);
      DistinctLength(k, g.Keys);
      CanonicalUnique(g, o, k, |o|);
      assert o == o[..|o|] && k == k[..|o|];
    }
  }
}
