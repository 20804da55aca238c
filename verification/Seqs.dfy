/** Sequences without repetition, and how counting detects them. */
module Seqs {

  predicate Distinct<T(==)>(s: seq<T>) {
    forall i, j :: 0 <= i < j < |s| ==> s[i] != s[j]
  }

  function Elements<T>(s: seq<T>): set<T> {
    set x | x in s
  }

  lemma {:induction false} ElementsBound<T>(s: seq<T>)
    ensures |Elements(s)| <= |s|
  {
    if s != [] {
      var n := |s| - 1;
      ElementsBound(s[..n]);
      assert Elements(s) == Elements(s[..n]) + {s[n]};
    }
  }

  /** Nothing repeats exactly when nothing repeats before the last element and the last one is new. */
  lemma DistinctInit<T>(s: seq<T>)
    requires s != []
    ensures Distinct(s) <==> Distinct(s[..|s| - 1]) && s[|s| - 1] !in s[..|s| - 1]
  {
    var n := |s| - 1;
    var init := s[..n];
    assert forall i :: 0 <= i < n ==> init[i] == s[i];
    if Distinct(s) {
      forall i, j | 0 <= i < j < n ensures init[i] != init[j] { assert s[i] != s[j]; }
      forall i | 0 <= i < n ensures init[i] != s[n] { assert s[i] != s[n]; }
    }
    if Distinct(init) && s[n] !in init {
      forall i, j | 0 <= i < j < |s| ensures s[i] != s[j] {
        assert s[i] == init[i] && init[i] in init;
        if j < n { assert init[i] != init[j]; }
      }
    }
  }

  /** As many different elements as positions exactly when nothing repeats. */
  lemma {:induction false} DistinctIffCardinality<T>(s: seq<T>)
    ensures |Elements(s)| == |s| <==> Distinct(s)
  {
    if s != [] {
      var n := |s| - 1;
      DistinctInit(s);
      DistinctIffCardinality(s[..n]);
      ElementsBound(s[..n]);
      assert Elements(s) == Elements(s[..n]) + {s[n]};
      assert s[n] in s[..n] ==> Elements(s) == Elements(s[..n]);
    }
  }

  /** A repeated element is counted at least twice. */
  lemma CountsTwice<T>(s: seq<T>, i: nat, j: nat)
    requires i < j < |s| && s[i] == s[j]
    ensures multiset(s)[s[i]] > 1
  {
    var a, b := s[..j], s[j..];
    assert s == a + b;
    assert a[i] in multiset(a) && b[0] in multiset(b);
  }

  lemma {:induction false} CountsOnce<T>(s: seq<T>, x: T)
    requires Distinct(s)
    ensures multiset(s)[x] <= 1
  {
    if s != [] {
      assert s == [s[0]] + s[1..];
      CountsOnce(s[1..], x);
      assert x == s[0] ==> x !in s[1..];
    }
  }

  /** No element is counted more than once exactly when nothing repeats. */
  lemma DistinctIffCounted<T>(s: seq<T>)
    ensures (forall x :: x in s ==> multiset(s)[x] <= 1) <==> Distinct(s)
  {
    if Distinct(s) {
      forall x | x in s ensures multiset(s)[x] <= 1 { CountsOnce(s, x); }
    } else {
      var i, j :| 0 <= i < j < |s| && s[i] == s[j];
      CountsTwice(s, i, j);
      assert s[i] in s;
    }
  }

  /** The elements of `s` that `keep` accepts, in order. */
  function Filter<T>(s: seq<T>, keep: T -> bool): seq<T> {
    if s == [] then []
    else (if keep(s[0]) then [s[0]] else []) + Filter(s[1..], keep)
  }

  /** The different elements of `s`, in order of first appearance. */
  function FirstSeen<T(==)>(s: seq<T>): seq<T> {
    if s == [] then []
    else
      var before, last := FirstSeen(s[..|s| - 1]), s[|s| - 1];
      if last in before then before else before + [last]
  }

  lemma {:induction false} FirstSeenFacts<T>(s: seq<T>)
    ensures Distinct(FirstSeen(s)) && forall x :: x in FirstSeen(s) <==> x in s
  {
    if s != [] {
      FirstSeenFacts(s[..|s| - 1]);
      assert s == s[..|s| - 1] + [s[|s| - 1]];
    }
  }

  lemma {:induction false} FirstSeenOfDistinct<T>(s: seq<T>)
    requires Distinct(s)
    ensures FirstSeen(s) == s
  {
    if s != [] {
      var n := |s| - 1;
      DistinctInit(s);
      FirstSeenOfDistinct(s[..n]);
      assert s == s[..n] + [s[n]];
    }
  }

  /** Elements already seen add nothing. */
  lemma {:induction false} FirstSeenAppendSeen<T>(a: seq<T>, b: seq<T>)
    requires forall x :: x in b ==> x in a
    ensures FirstSeen(a + b) == FirstSeen(a)
  {
    if b == [] {
      assert a + b == a;
    } else {
      var n := |b| - 1;
      assert (a + b)[..|a + b| - 1] == a + b[..n];
      FirstSeenAppendSeen(a, b[..n]);
      FirstSeenFacts(a);
      assert b[n] in b;
    }
  }

  /** A new element, once or more, is appended once. */
  lemma FirstSeenAppendNew<T>(a: seq<T>, b: seq<T>, x: T)
    requires x !in a && b != [] && forall y :: y in b ==> y == x
    ensures FirstSeen(a + b) == FirstSeen(a) + [x]
  {
    assert b[0] in b;
    var ax := a + [x];
    assert ax[..|ax| - 1] == a;
    FirstSeenFacts(a);
    assert FirstSeen(ax) == FirstSeen(a) + [x];
    assert a + b == ax + b[1..] by { assert b == [x] + b[1..]; }
    assert forall y :: y in b[1..] ==> y in b;
    FirstSeenAppendSeen(ax, b[1..]);
  }

  /** After everything but the last of `all`, one or more copies of its last element complete it. */
  lemma FirstSeenExtends<T>(a: seq<T>, b: seq<T>, all: seq<T>)
    requires all != [] && FirstSeen(a) == all[..|all| - 1] && all[|all| - 1] !in all[..|all| - 1]
    requires b != [] && forall y :: y in b ==> y == all[|all| - 1]
    ensures FirstSeen(a + b) == all
  {
    FirstSeenFacts(a);
    FirstSeenAppendNew(a, b, all[|all| - 1]);
    assert all == all[..|all| - 1] + [all[|all| - 1]];
  }

  // ---- Mapping each element to a list ----

  function FlatMap<T, U>(s: seq<T>, f: T -> seq<U>): seq<U> {
    if s == [] then [] else FlatMap(s[..|s| - 1], f) + f(s[|s| - 1])
  }

  lemma FlatMapStep<T, U>(s: seq<T>, f: T -> seq<U>, i: nat)
    requires i < |s|
    ensures FlatMap(s[..i + 1], f) == FlatMap(s[..i], f) + f(s[i])
  {
    assert s[..i + 1][..i] == s[..i];
  }

  lemma {:induction false} FlatMapMember<T, U>(s: seq<T>, f: T -> seq<U>, y: U)
    ensures y in FlatMap(s, f) <==> exists x :: x in s && y in f(x)
  {
    if s != [] {
      var n := |s| - 1;
      FlatMapMember(s[..n], f, y);
      assert s == s[..n] + [s[n]];
    }
  }

  /** Nothing comes out exactly when every element maps to nothing. */
  lemma FlatMapEmpty<T, U>(s: seq<T>, f: T -> seq<U>)
    ensures FlatMap(s, f) == [] <==> forall x :: x in s ==> f(x) == []
  {
    forall y: U { FlatMapMember(s, f, y); }
    if FlatMap(s, f) == [] {
      forall x | x in s ensures f(x) == [] {
        if f(x) != [] { assert f(x)[0] in FlatMap(s, f); }
      }
    } else {
      assert FlatMap(s, f)[0] in FlatMap(s, f);
    }
  }

  // ---- Counting ----

  function CountIf<T>(s: seq<T>, p: T -> bool): (n: nat)
    ensures n <= |s|
  {
    if s == [] then 0 else CountIf(s[..|s| - 1], p) + (if p(s[|s| - 1]) then 1 else 0)
  }

  /** Everything is counted exactly when everything satisfies `p`. */
  lemma {:induction false} CountsAll<T>(s: seq<T>, p: T -> bool)
    ensures CountIf(s, p) == |s| <==> forall x :: x in s ==> p(x)
  {
    if s != [] {
      var n := |s| - 1;
      CountsAll(s[..n], p);
      assert s == s[..n] + [s[n]];
    }
  }

  /** The positions of the elements that satisfy `p`. */
  ghost function Positions<T>(s: seq<T>, p: T -> bool): set<nat> {
    set i: nat | i < |s| && p(s[i])
  }

  lemma {:induction false} CountIfIs<T>(s: seq<T>, p: T -> bool)
    ensures CountIf(s, p) == |Positions(s, p)|
  {
    if s != [] {
      var n: nat := |s| - 1;
      CountIfIs(s[..n], p);
      var before := Positions(s[..n], p);
      assert Positions(s, p) == if p(s[n]) then before + {n} else before;
    }
  }

  lemma {:induction false} FilterCount<T>(s: seq<T>, keep: T -> bool, p: T -> bool)
    ensures CountIf(Filter(s, keep), p) == CountIf(s, x => keep(x) && p(x))
    ensures |Filter(s, keep)| == CountIf(s, keep)
  {
    if s != [] {
      FilterCount(s[1..], keep, p);
      CountIfCons(s, x => keep(x) && p(x));
      CountIfCons(s, keep);
      var rest := Filter(s[1..], keep);
      if keep(s[0]) {
        assert Filter(s, keep) == [s[0]] + rest;
        CountIfCons([s[0]] + rest, p);
        assert ([s[0]] + rest)[1..] == rest;
      } else {
        assert Filter(s, keep) == rest;
      }
    }
  }

  lemma {:induction false} CountIfCons<T>(s: seq<T>, p: T -> bool)
    requires s != []
    ensures CountIf(s, p) == CountIf(s[1..], p) + if p(s[0]) then 1 else 0
  {
    if |s| > 1 {
      var n := |s| - 1;
      CountIfCons(s[..n], p);
      assert s[..n][1..] == s[1..][..n - 1] && s[1..][|s[1..]| - 1] == s[n];
    }
  }

  lemma {:induction false} FilterKeeps<T>(s: seq<T>, keep: T -> bool)
    ensures forall x :: x in Filter(s, keep) <==> x in s && keep(x)
  {
    if s != [] {
      FilterKeeps(s[1..], keep);
      assert s == [s[0]] + s[1..];
    }
  }

  lemma {:induction false} CountedTwice<T>(ks: seq<T>, k: T)
    ensures multiset(ks)[k] > 1 <==> exists i, j :: 0 <= i < j < |ks| && ks[i] == k && ks[j] == k
  {
    if ks != [] {
      var n := |ks| - 1;
      CountedTwice(ks[..n], k);
      assert ks == ks[..n] + [ks[n]];
      assert multiset(ks[..n])[k] > 0 <==> k in ks[..n];
      if i, j :| 0 <= i < j < n && ks[..n][i] == k && ks[..n][j] == k { assert ks[i] == k && ks[j] == k; }
      if i, j :| 0 <= i < j < |ks| && ks[i] == k && ks[j] == k {
        assert ks[..n][i] == k;
        if j < n { assert ks[..n][j] == k; }
      }
      if k in ks[..n] && ks[n] == k {
        var i :| 0 <= i < n && ks[..n][i] == k;
        assert ks[i] == k && ks[n] == k;
      }
    }
  }
}
