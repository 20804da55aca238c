/** When the rewritten workflow is a valid DAG, and what the rewrite does to the inputs of the original steps. */
module CleaningValidity {
  import opened Values
  import opened Ids
  import opened Seqs
  import opened Graph
  import opened Dsl
  import opened Denotation
  import opened Cleaning

  /** Rules over declared sources whose generated ids are new and pairwise distinct. */
  ghost predicate Applicable(w: Workflow, rules: seq<Rule>) {
    && (forall r :: r in rules ==> r.ref in SourceRefs(w))
    && (forall r :: r in rules ==> r.id !in IdSet(w))
    && (forall i, j :: 0 <= i < j < |rules| ==> rules[i].id != rules[j].id)
  }

  lemma {:induction false} NewStepIds(rules: seq<Rule>)
    ensures forall i :: 0 <= i < |rules| ==> NewSteps(rules)[i].id == rules[i].id
  {
    if rules != [] { NewStepIds(rules[..|rules| - 1]); }
  }

  /** A redirected source goes to the last of the rules for it. */
  lemma {:induction false} RewriteEntry(rules: seq<Rule>, ref: string)
    ensures ref in RewriteOf(rules) <==> exists j :: 0 <= j < |rules| && rules[j].ref == ref
    ensures ref in RewriteOf(rules) ==>
      exists j :: 0 <= j < |rules| && rules[j].ref == ref && rules[j].id == RewriteOf(rules)[ref]
  {
    if rules != [] {
      var n := |rules| - 1;
      RewriteEntry(rules[..n], ref);
      if rules[n].ref == ref {
        assert ref in RewriteOf(rules);
      } else if ref in RewriteOf(rules) {
        var j :| 0 <= j < n && rules[..n][j].ref == ref && rules[..n][j].id == RewriteOf(rules[..n])[ref];
        assert rules[j].ref == ref;
      } else {
        assert forall j :: 0 <= j < n ==> rules[..n][j] == rules[j];
      }
    }
  }

  // ---- Ids ----

  lemma RewrittenStepIds(w: Workflow, rules: seq<Rule>)
    ensures |Rewritten(w, rules).steps| == |rules| + |w.steps|
    ensures forall i :: 0 <= i < |rules| ==> Rewritten(w, rules).steps[i].id == rules[i].id
    ensures forall i :: 0 <= i < |w.steps| ==> Rewritten(w, rules).steps[|rules| + i].id == w.steps[i].id
  {
    NewStepIds(rules);
  }

  lemma DistinctConcat(a: seq<string>, b: seq<string>)
    requires Distinct(b)
    ensures Distinct(a + b) <==> Distinct(a) && forall x :: x in a ==> x !in b
  {
    var c := a + b;
    if Distinct(c) {
      forall i, j | 0 <= i < j < |a| ensures a[i] != a[j] { assert c[i] != c[j]; }
      forall x | x in a ensures x !in b {
        var i :| 0 <= i < |a| && a[i] == x;
        forall k | 0 <= k < |b| ensures b[k] != x { assert c[i] != c[|a| + k]; }
      }
    }
    if Distinct(a) && forall x :: x in a ==> x !in b {
      forall i, j | 0 <= i < j < |c| ensures c[i] != c[j] {
        if i < |a| <= j { assert a[i] in a && b[j - |a|] in b; }
      }
    }
  }

  ghost function RuleIds(rules: seq<Rule>): seq<string> {
    seq(|rules|, i requires 0 <= i < |rules| => rules[i].id)
  }

  ghost predicate FreshIds(w: Workflow, rules: seq<Rule>) {
    && (forall r :: r in rules ==> r.id !in IdSet(w))
    && (forall i, j :: 0 <= i < j < |rules| ==> rules[i].id != rules[j].id)
  }

  lemma FreshIffDistinct(w: Workflow, rules: seq<Rule>)
    ensures FreshIds(w, rules) <==> Distinct(RuleIds(rules)) && forall x :: x in RuleIds(rules) ==>
      x !in StepIds(w.steps)
  {
    var ids, existing := RuleIds(rules), StepIds(w.steps);
    assert forall x :: x in existing <==> x in IdSet(w) by {
      forall x | x in IdSet(w) ensures x in existing {
        var i :| 0 <= i < |w.steps| && w.steps[i].id == x;
        assert existing[i] == x;
      }
    }
    if FreshIds(w, rules) {
      forall x | x in ids ensures x !in existing {
        var i :| 0 <= i < |ids| && ids[i] == x;
        assert rules[i] in rules;
      }
    }
    if Distinct(ids) && forall x :: x in ids ==> x !in existing {
      forall r | r in rules ensures r.id !in IdSet(w) {
        var i :| 0 <= i < |rules| && rules[i] == r;
        assert ids[i] in ids;
      }
      forall i, j | 0 <= i < j < |rules| ensures rules[i].id != rules[j].id { assert ids[i] != ids[j]; }
    }
  }

  lemma UniqueIffFresh(w: Workflow, rules: seq<Rule>)
    requires UniqueIds(w)
    ensures UniqueIds(Rewritten(w, rules)) <==> FreshIds(w, rules)
  {
    RewrittenStepIds(w, rules);
    UniqueIsDistinct(w);
    UniqueIsDistinct(Rewritten(w, rules));
    DistinctConcat(RuleIds(rules), StepIds(w.steps));
    SplitIds(w, rules);
    FreshIffDistinct(w, rules);
  }

  lemma SplitIds(w: Workflow, rules: seq<Rule>)
    ensures StepIds(Rewritten(w, rules).steps) == RuleIds(rules) + StepIds(w.steps)
  {
    var n := |rules|;
    RewrittenStepIds(w, rules);
    forall i | 0 <= i < n + |w.steps|
      ensures StepIds(Rewritten(w, rules).steps)[i] == (RuleIds(rules) + StepIds(w.steps))[i]
    {
      if i >= n { assert Rewritten(w, rules).steps[n + (i - n)].id == w.steps[i - n].id; }
    }
  }

  // ---- Inputs ----

  lemma RewrittenIdSet(w: Workflow, rules: seq<Rule>)
    ensures forall r :: r in rules ==> r.id in IdSet(Rewritten(w, rules))
  {
    forall r | r in rules ensures r.id in IdSet(Rewritten(w, rules)) {
      var i :| 0 <= i < |rules| && rules[i] == r;
      RewrittenStepIds(w, rules);
      assert Rewritten(w, rules).steps[i] in Rewritten(w, rules).steps;
    }
  }

  /** What a generated step reads. */
  lemma NewStepInput(w: Workflow, rules: seq<Rule>, i: nat, x: string)
    requires i < |rules| && x in Rewritten(w, rules).steps[i].inputs
    ensures x == Redirect(RewriteOf(rules[..i]), rules[i].ref)
  {
    NewStepAt(rules, i);
    assert Rewritten(w, rules).steps[i] == NewSteps(rules)[i];
  }

  /** What a rewired step reads. */
  lemma RewiredInput(w: Workflow, rules: seq<Rule>, i: nat, x: string) returns (ref: string)
    requires i < |w.steps| && x in Rewritten(w, rules).steps[|rules| + i].inputs
    ensures ref in w.steps[i].inputs && x == Redirect(RewriteOf(rules), ref)
  {
    var s := w.steps[i];
    assert Rewritten(w, rules).steps[|rules| + i] == RewiredSteps(w.steps, RewriteOf(rules))[i] ==
      Rewired(s, RewriteOf(rules));
    var k :| 0 <= k < |s.inputs| && Rewired(s, RewriteOf(rules)).inputs[k] == x;
    ref := s.inputs[k];
  }

  lemma {:induction false} RefDeclared(w: Workflow, rules: seq<Rule>, i: nat)
    requires RefsKnown(Rewritten(w, rules)) && i < |rules| && forall r :: r in rules ==> SOURCE_PREFIX <= r.ref
    ensures rules[i].ref in SourceRefs(w)
  {
    var w', ref := Rewritten(w, rules), rules[i].ref;
    NewStepAt(rules, i);
    RewriteEntry(rules[..i], ref);
    if ref in RewriteOf(rules[..i]) {
      var j :| 0 <= j < i && rules[..i][j].ref == ref;
      RefDeclared(w, rules, j);
    } else {
      var s := NewSteps(rules)[i];
      assert s in w'.steps && ref in s.inputs;
      assert ref in Nodes(w');
      if ref in IdSet(w') { StepIdsUnprefixed(w', ref); }
      RewrittenIds(w, rules);
    }
  }

  lemma RefsKnownWhenDeclared(w: Workflow, rules: seq<Rule>)
    requires RefsKnown(w) && forall r :: r in rules ==> r.ref in SourceRefs(w)
    ensures RefsKnown(Rewritten(w, rules))
  {
    var w' := Rewritten(w, rules);
    RewrittenIdSet(w, rules);
    RewrittenIds(w, rules);
    forall s, x | s in w'.steps && x in s.inputs ensures x in Nodes(w') {
      var i :| 0 <= i < |w'.steps| && w'.steps[i] == s;
      if i < |rules| {
        NewStepInput(w, rules, i, x);
        assert rules[i] in rules;
        RedirectKnown(w', rules[..i], rules[i].ref);
      } else {
        var ref := RewiredInput(w, rules, i - |rules|, x);
        assert w.steps[i - |rules|] in w.steps;
        assert ref in Nodes(w);
        RedirectKnown(w', rules, ref);
      }
    }
  }

  lemma RedirectKnown(w: Workflow, rules: seq<Rule>, ref: string)
    requires ref in Nodes(w) && forall r :: r in rules ==> r.id in IdSet(w)
    ensures Redirect(RewriteOf(rules), ref) in Nodes(w)
  {
    RewriteEntry(rules, ref);
  }

  // ---- Acyclicity ----

  /** Rank of a node of the rewritten workflow: generated steps in approval order, then the rest. */
  ghost function RankOf(rules: seq<Rule>, order: seq<string>, id: string): int
    requires id in order || exists j :: 0 <= j < |rules| && rules[j].id == id
  {
    if j :| 0 <= j < |rules| && rules[j].id == id then j else |rules| + Position(order, id)
  }

  lemma RankOfRule(rules: seq<Rule>, order: seq<string>, j: nat)
    requires j < |rules| && forall a, b :: 0 <= a < b < |rules| ==> rules[a].id != rules[b].id
    ensures RankOf(rules, order, rules[j].id) == j
  {
  }

  lemma RankOfOriginal(rules: seq<Rule>, order: seq<string>, k: nat)
    requires k < |order| && (forall a, b :: 0 <= a < b < |order| ==> order[a] != order[b])
    requires forall r :: r in rules ==> r.id != order[k]
    ensures RankOf(rules, order, order[k]) == |rules| + k
  {
    assert forall j :: 0 <= j < |rules| ==> rules[j] in rules;
  }

  /** A dependency on a redirected source ranks as the rule it is redirected to. */
  lemma RedirectRank(rules: seq<Rule>, order: seq<string>, i: nat, ref: string)
    requires i <= |rules| && ref in RewriteOf(rules[..i])
    requires forall a, b :: 0 <= a < b < |rules| ==> rules[a].id != rules[b].id
    ensures exists j :: 0 <= j < i && rules[j].id == RewriteOf(rules[..i])[ref]
    ensures RankOf(rules, order, RewriteOf(rules[..i])[ref]) < i
  {
    RewriteEntry(rules[..i], ref);
    var j :| 0 <= j < i && rules[..i][j].id == RewriteOf(rules[..i])[ref];
    assert rules[j].id == RewriteOf(rules[..i])[ref];
    RankOfRule(rules, order, j);
  }

  ghost predicate RankDefined(rules: seq<Rule>, order: seq<string>, id: string) {
    id in order || exists j :: 0 <= j < |rules| && rules[j].id == id
  }

  ghost predicate Descends(rules: seq<Rule>, order: seq<string>, x: string, y: string) {
    RankDefined(rules, order, x) && RankDefined(rules, order, y) && RankOf(rules, order, y) < RankOf(rules, order, x)
  }

  /** An inserted step reads what ranks below it. */
  lemma NewEdgeDescends(w: Workflow, rules: seq<Rule>, order: seq<string>, i: nat, y: string)
    requires Applicable(w, rules) && RefsKnown(w) && TopologicallySorted(w, order) && i < |rules|
    requires y in Rewritten(w, rules).steps[i].inputs && y in IdSet(Rewritten(w, rules))
    ensures Descends(rules, order, Rewritten(w, rules).steps[i].id, y)
  {
    RewrittenStepIds(w, rules);
    StepIdsUnprefixed(Rewritten(w, rules), y);
    NewStepInput(w, rules, i, y);
    assert rules[i] in rules;
    SourcesArePrefixed(w, rules[i].ref);
    RedirectRank(rules, order, i, rules[i].ref);
    RankOfRule(rules, order, i);
  }

  /** A rewired original step reads what ranks below it. */
  lemma OldEdgeDescends(w: Workflow, rules: seq<Rule>, order: seq<string>, i: nat, y: string)
    requires Applicable(w, rules) && RefsKnown(w) && TopologicallySorted(w, order) && |rules| <= i < |rules| + |w.steps|
    requires y in Rewritten(w, rules).steps[i].inputs && y in IdSet(Rewritten(w, rules))
    ensures Descends(rules, order, Rewritten(w, rules).steps[i].id, y)
  {
    var n := |rules|;
    RewrittenStepIds(w, rules);
    StepIdsUnprefixed(Rewritten(w, rules), y);
    var s := w.steps[i - n];
    var ref := RewiredInput(w, rules, i - n, y);
    assert s in w.steps && s.id in order;
    var k := Position(order, s.id);
    assert forall r :: r in rules ==> r.id != order[k];
    RankOfOriginal(rules, order, k);
    assert rules[..n] == rules;
    if ref in RewriteOf(rules) {
      RedirectRank(rules, order, n, ref);
    } else {
      assert ref in Nodes(w);
      if ref in SourceRefs(w) { SourcesArePrefixed(w, ref); }
      assert ReadsBefore(w, s, order, k);
      var m :| 0 <= m < k && order[m] == y;
      assert forall r :: r in rules ==> r.id != order[m];
      RankOfOriginal(rules, order, m);
    }
  }

  lemma EdgeDescends(w: Workflow, rules: seq<Rule>, order: seq<string>, i: nat, y: string)
    requires Applicable(w, rules) && RefsKnown(w) && TopologicallySorted(w, order)
    requires i < |rules| + |w.steps|
    requires y in Rewritten(w, rules).steps[i].inputs && y in IdSet(Rewritten(w, rules))
    ensures Descends(rules, order, Rewritten(w, rules).steps[i].id, y)
  {
    if i < |rules| { NewEdgeDescends(w, rules, order, i, y); } else { OldEdgeDescends(w, rules, order, i, y); }
  }

  lemma SourcesArePrefixed(w: Workflow, ref: string)
    requires ref in SourceRefs(w)
    ensures SOURCE_PREFIX <= ref
  {
  }

  lemma RewrittenEdge(w: Workflow, rules: seq<Rule>, order: seq<string>, x: string, y: string)
    requires Applicable(w, rules) && RefsKnown(w) && TopologicallySorted(w, order) && UniqueIds(Rewritten(w, rules))
    requires x in IdSet(Rewritten(w, rules)) && x in DepGraph(Rewritten(w, rules))
      && y in DepGraph(Rewritten(w, rules))[x]
    ensures Descends(rules, order, x, y)
  {
    var w' := Rewritten(w, rules);
    GraphOfUnique(w');
    RewrittenStepIds(w, rules);
    var s :| s in w'.steps && s.id == x;
    var i :| 0 <= i < |w'.steps| && w'.steps[i] == s;
    EdgeDescends(w, rules, order, i, y);
  }

  lemma DescendingIsAcyclic(g: Deps, rules: seq<Rule>, order: seq<string>)
    requires forall x, y :: x in g && y in g[x] && y in g ==> Descends(rules, order, x, y)
    ensures !Cyclic(g)
  {
    var rank := map id | id in g && RankDefined(rules, order, id) :: RankOf(rules, order, id);
    assert Ranked(g, rank) by {
      forall x, y | x in g && y in g[x] && y in g ensures x in rank && y in rank && rank[y] < rank[x] {
        assert Descends(rules, order, x, y);
      }
    }
    RankedIsAcyclic(g, rank);
  }

  lemma RewrittenAcyclic(w: Workflow, rules: seq<Rule>)
    requires ValidDag(w) && Applicable(w, rules)
    ensures !Cyclic(DepGraph(Rewritten(w, rules)))
  {
    ValidHasOrder(w);
    var order := ExecutionOrder(w).value;
    UniqueIffFresh(w, rules);
    GraphOfUnique(Rewritten(w, rules));
    var g := DepGraph(Rewritten(w, rules));
    forall x, y | x in g && y in g[x] && y in g ensures Descends(rules, order, x, y) {
      RewrittenEdge(w, rules, order, x, y);
    }
    DescendingIsAcyclic(g, rules, order);
  }

  // ---- Main results ----

  /** On a valid workflow the rewritten one is valid, so that the call does not raise, exactly when the
      rules are over declared sources and the generated ids are new and pairwise distinct. */
  lemma RewriteValidIff(w: Workflow, rules: seq<Rule>)
    requires ValidDag(w) && forall r :: r in rules ==> SOURCE_PREFIX <= r.ref
    ensures ValidDag(Rewritten(w, rules)) <==> Applicable(w, rules)
  {
    UniqueIffFresh(w, rules);
    if Applicable(w, rules) {
      RefsKnownWhenDeclared(w, rules);
      RewrittenAcyclic(w, rules);
    }
    if ValidDag(Rewritten(w, rules)) {
      forall r | r in rules ensures r.ref in SourceRefs(w) {
        var i :| 0 <= i < |rules| && rules[i] == r;
        RefDeclared(w, rules, i);
      }
    }
  }

  /** After the rewrite no original step reads a cleaned source. */
  lemma NoStepReadsCleanedSource(w: Workflow, rules: seq<Rule>, s: WorkflowStep, r: Rule)
    requires s in w.steps && r in rules && forall q :: q in rules ==> SOURCE_PREFIX <= q.ref
    ensures Rewired(s, RewriteOf(rules)) in Rewritten(w, rules).steps
    ensures r.ref !in Rewired(s, RewriteOf(rules)).inputs
  {
    var rw := RewriteOf(rules);
    RewrittenMembers(w, rules, s);
    RewriteKeys(rules);
    var j :| 0 <= j < |rules| && rules[j] == r;
    RewriteEntry(rules, r.ref);
    assert forall i :: 0 <= i < |s.inputs| ==> Redirect(rw, s.inputs[i]) != r.ref;
  }

  // ---- Reading the data set out of a rule id ----

  lemma {:induction false} PartitionJoins(before: string, after: string)
    requires '.' !in before
    ensures Partition(before + "." + after) == (before, after)
  {
    if before == "" {
      assert before + "." + after == "." + after;
    } else {
      var s := before + "." + after;
      assert s[1..] == before[1..] + "." + after && s[0] == before[0] && before[0] in before;
      assert [before[0]] + before[1..] == before;
      PartitionJoins(before[1..], after);
    }
  }

  lemma {:induction false} PartitionHasNoDot(s: string)
    ensures '.' !in Partition(s).0
  {
    if s != "" { PartitionHasNoDot(s[1..]); }
  }

  /** The id proposed for cleaning `column` of `dataset` is read back as that data set and column exactly
      when the data set's name contains no dot; otherwise another data set is cleaned, or none. */
  lemma RuleIdReadBackIff(dataset: string, column: string)
    ensures Partition((TEXT_CLEAN + (dataset + "." + column))[|TEXT_CLEAN|..]) == (dataset, column) <==> '.' !in dataset
  {
    assert (TEXT_CLEAN + (dataset + "." + column))[|TEXT_CLEAN|..] == dataset + "." + column;
    PartitionHasNoDot(dataset + "." + column);
    if '.' !in dataset { PartitionJoins(dataset, column); }
  }
}
