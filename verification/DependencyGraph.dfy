/** Dependency graphs: topological orders, cycles, and the least order under the string ordering. */
module DependencyGraph {
  import opened Prelude

  /** Each node's declared dependencies; repetitions are allowed. */
  type Graph = map<string, seq<string>>

  ghost predicate Closed(g: Graph) {
    forall x, d :: x in g && d in g[x] ==> d in g
  }

  ghost function Elements(s: seq<string>): set<string> {
    set x | x in s
  }

  /** A permutation of the nodes in which every node comes after its dependencies. */
  ghost predicate IsTopo(g: Graph, order: seq<string>) {
    && Distinct(order)
    && (forall x :: x in order <==> x in g)
    && (forall i, d :: 0 <= i < |order| && order[i] in g && d in g[order[i]] ==> d in order[..i])
  }

  /** A closed walk along dependencies. */
  ghost predicate IsCycle(g: Graph, c: seq<string>) {
    && |c| >= 2 && c[0] == c[|c| - 1]
    && (forall i :: 0 <= i < |c| - 1 ==> c[i] in g && c[i + 1] in g[c[i]])
  }

  ghost predicate Acyclic(g: Graph) {
    forall c :: !IsCycle(g, c)
  }

  /** Nodes not yet done whose dependencies are all done. */
  ghost function Ready(g: Graph, done: set<string>): set<string> {
    set x | x in g && x !in done && forall d :: d in g[x] ==> d in done
  }

  // ----- orders and cycles exclude each other

  lemma TopoPrecedes(g: Graph, order: seq<string>, x: string, d: string)
    requires IsTopo(g, order) && x in g && d in g[x]
    ensures d in order && IndexOf(order, d) < IndexOf(order, x)
  {
    var i := IndexOf(order, x);
    assert d in order[..i];
    var j :| 0 <= j < i && order[..i][j] == d;
    assert order[j] == d;
  }

  lemma {:induction false} WalkDescends(g: Graph, order: seq<string>, c: seq<string>, n: nat)
    requires IsTopo(g, order) && IsCycle(g, c) && 0 < n < |c|
    ensures c[n] in order && c[0] in order && IndexOf(order, c[n]) < IndexOf(order, c[0])
    decreases n
  {
    assert c[n - 1] in g && c[n - 1 + 1] in g[c[n - 1]];
    TopoPrecedes(g, order, c[n - 1], c[n]);
    if n > 1 {
      WalkDescends(g, order, c, n - 1);
    }
  }

  /** A graph with a topological order has no cycle. */
  lemma TopoIsAcyclic(g: Graph, order: seq<string>)
    requires IsTopo(g, order)
    ensures Acyclic(g)
  {
    forall c
      ensures !IsCycle(g, c)
    {
      if IsCycle(g, c) {
        WalkDescends(g, order, c, |c| - 1);
      }
    }
  }

  /** If some order exists, then whenever nodes remain one of them is ready. */
  lemma SomeReady(g: Graph, order: seq<string>, done: set<string>, x: string)
    requires IsTopo(g, order) && x in g && x !in done
    ensures Ready(g, done) != {}
  {
    FirstUndone(g, order, done, IndexOf(order, x));
  }

  lemma {:induction false} FirstUndone(g: Graph, order: seq<string>, done: set<string>, i: nat)
    requires IsTopo(g, order) && i < |order| && order[i] !in done
    ensures Ready(g, done) != {}
    decreases i
  {
    assert order[i] in g;
    if forall d :: d in g[order[i]] ==> d in done {
      assert order[i] in Ready(g, done);
    } else {
      var d :| d in g[order[i]] && d !in done;
      assert d in order[..i];
      var j :| 0 <= j < i && order[..i][j] == d;
      FirstUndone(g, order, done, j);
    }
  }

  // ----- the string ordering

  /** Lexicographic order on characters, as sort.Strings compares ASCII identifiers. */
  predicate Leq(a: string, b: string, from: nat := 0)
    requires from <= |a| && from <= |b|
    decreases |a| - from
  {
    if from == |a| then true
    else if from == |b| then false
    else if a[from] == b[from] then Leq(a, b, from + 1)
    else a[from] < b[from]
  }

  lemma {:induction false} LeqTotal(a: string, b: string, from: nat)
    requires from <= |a| && from <= |b|
    ensures Leq(a, b, from) || Leq(b, a, from)
    decreases |a| - from
  {
    if from < |a| && from < |b| && a[from] == b[from] {
      LeqTotal(a, b, from + 1);
    }
  }

  lemma {:induction false} LeqAntisymmetric(a: string, b: string, from: nat)
    requires from <= |a| && from <= |b| && Leq(a, b, from) && Leq(b, a, from)
    ensures a[from..] == b[from..]
    decreases |a| - from
  {
    if from < |a| && from < |b| {
      LeqAntisymmetric(a, b, from + 1);
      assert a[from..] == [a[from]] + a[from + 1..] && b[from..] == [b[from]] + b[from + 1..];
    }
  }

  /** Names are compared as a dictionary does: by the first difference, and a beginning comes before the whole. */
  lemma {:induction false} LeqMeans(a: string, b: string, from: nat)
    requires from <= |a| && from <= |b| && a[..from] == b[..from]
    ensures Leq(a, b, from) <==> a <= b || exists k :: from <= k < |a| && k < |b| && a[..k] == b[..k] && a[k] < b[k]
    decreases |a| - from
  {
    if from < |a| && from < |b| {
      if a[from] == b[from] {
        assert a[..from + 1] == a[..from] + [a[from]] && b[..from + 1] == b[..from] + [b[from]];
        LeqMeans(a, b, from + 1);
      } else {
        assert forall k :: from < k < |a| && k < |b| ==> a[..k][from] != b[..k][from];
      }
    } else if from == |a| {
      assert a == a[..from] && a <= b;
    }
  }

  lemma LeqSame(a: string, b: string)
    requires Leq(a, b) && Leq(b, a)
    ensures a == b
  {
    LeqAntisymmetric(a, b, 0);
    assert a == a[0..] && b == b[0..];
  }

  lemma {:induction false} LeqTransitive(a: string, b: string, c: string, from: nat)
    requires from <= |a| && from <= |b| && from <= |c| && Leq(a, b, from) && Leq(b, c, from)
    ensures Leq(a, c, from)
    decreases |a| - from
  {
    if from < |a| && a[from] == b[from] && b[from] == c[from] {
      LeqTransitive(a, b, c, from + 1);
    }
  }

  ghost predicate Ascending(s: seq<string>) {
    forall i, j :: 0 <= i < j < |s| ==> Leq(s[i], s[j])
  }

  /** s with x put in at its sorted place. */
  function Insert(s: seq<string>, x: string): (r: seq<string>)
    requires Ascending(s)
    ensures Ascending(r) && multiset(r) == multiset(s) + multiset{x}
  {
    if s == [] then [x]
    else
      var n := |s| - 1;
      if Leq(s[n], x) then
        AppendAscending(s, x);
        s + [x]
      else
        var r := Insert(s[..n], x);
        assert s == s[..n] + [s[n]];
        LastIsLargest(s, x, r);
        r + [s[n]]
  }

  lemma AppendAscending(s: seq<string>, x: string)
    requires Ascending(s) && (s != [] ==> Leq(s[|s| - 1], x))
    ensures Ascending(s + [x])
  {
    forall i | 0 <= i < |s|
      ensures Leq(s[i], x)
    {
      if i < |s| - 1 {
        LeqTransitive(s[i], s[|s| - 1], x, 0);
      }
    }
  }

  lemma LastIsLargest(s: seq<string>, x: string, r: seq<string>)
    requires Ascending(s) && |s| > 0 && !Leq(s[|s| - 1], x)
    requires Ascending(r) && multiset(r) == multiset(s[..|s| - 1]) + multiset{x}
    ensures Ascending(r + [s[|s| - 1]])
  {
    var last := s[|s| - 1];
    LeqTotal(last, x, 0);
    forall i | 0 <= i < |r|
      ensures Leq(r[i], last)
    {
      assert r[i] in multiset(r);
      if r[i] != x {
        assert r[i] in s[..|s| - 1];
        var j :| 0 <= j < |s| - 1 && s[..|s| - 1][j] == r[i];
        assert Leq(s[j], s[|s| - 1]);
      }
    }
  }

  /** sort.Strings. */
  function Sort(s: seq<string>): (r: seq<string>)
    ensures Ascending(r) && multiset(r) == multiset(s)
  {
    if s == [] then []
    else
      var n := |s| - 1;
      assert s == s[..n] + [s[n]];
      Insert(Sort(s[..n]), s[n])
  }

  lemma SortMembers(s: seq<string>)
    ensures forall x :: x in Sort(s) <==> x in s
    ensures |Sort(s)| == |s|
    ensures Distinct(s) ==> Distinct(Sort(s))
  {
    hide Sort;
    var r := Sort(s);
    forall x
      ensures x in r <==> x in s
    {
      assert x in r <==> x in multiset(r);
      assert x in s <==> x in multiset(s);
    }
    assert |r| == |multiset(r)| == |multiset(s)| == |s|;
    if Distinct(s) {
      DistinctCounts(s);
      CountsDistinct(r);
    }
  }

  lemma {:induction false} DistinctCounts<T>(s: seq<T>)
    requires Distinct(s)
    ensures forall x :: x in s ==> multiset(s)[x] <= 1
    decreases |s|
  {
    if s != [] {
      var n := |s| - 1;
      DistinctCounts(s[..n]);
      assert s == s[..n] + [s[n]];
      assert s[n] !in s[..n];
    }
  }

  lemma CountsDistinct<T>(s: seq<T>)
    requires forall x :: x in s ==> multiset(s)[x] <= 1
    ensures Distinct(s)
  {
    forall i, j | 0 <= i < j < |s|
      ensures s[i] != s[j]
    {
      assert s == s[..j] + s[j..];
      assert s[..j][i] == s[i] && s[j..][0] == s[j];
      assert multiset(s[..j])[s[i]] >= 1 && multiset(s[j..])[s[j]] >= 1;
      assert multiset(s)[s[i]] == multiset(s[..j])[s[i]] + multiset(s[j..])[s[i]];
    }
  }

  // ----- the least order

  /** Each element is the least ready one given its prefix. */
  ghost predicate IsGreedy(g: Graph, order: seq<string>) {
    forall i :: 0 <= i < |order| ==>
      && order[i] in Ready(g, Elements(order[..i]))
      && (forall x :: x in Ready(g, Elements(order[..i])) ==> Leq(order[i], x))
  }

  /** a is a no later than b: equal, or smaller at the first place they differ. */
  ghost predicate LexLeq(a: seq<string>, b: seq<string>) {
    a == b || exists i :: 0 <= i < |a| && i < |b| && a[..i] == b[..i] && a[i] != b[i] && Leq(a[i], b[i])
  }

  lemma TopoReady(g: Graph, order: seq<string>, i: nat)
    requires IsTopo(g, order) && i < |order|
    ensures order[i] in Ready(g, Elements(order[..i]))
  {
    assert order[i] in g;
    assert order[i] !in order[..i];
  }

  /** A complete greedy order is no later than any topological order. */
  lemma GreedyIsLeast(g: Graph, order: seq<string>, other: seq<string>)
    requires IsTopo(g, order) && IsGreedy(g, order) && IsTopo(g, other)
    ensures LexLeq(order, other)
  {
    SameLength(g, order, other);
    if order != other {
      var i := FirstDifference(order, other);
      TopoReady(g, other, i);
    }
  }

  lemma SameLength(g: Graph, a: seq<string>, b: seq<string>)
    requires IsTopo(g, a) && IsTopo(g, b)
    ensures |a| == |b|
  {
    DistinctSize(a);
    DistinctSize(b);
    assert Elements(a) == Elements(b);
  }

  lemma {:induction false} DistinctSize(s: seq<string>)
    requires Distinct(s)
    ensures |Elements(s)| == |s|
    decreases |s|
  {
    if s != [] {
      var n := |s| - 1;
      DistinctSize(s[..n]);
      assert Elements(s) == Elements(s[..n]) + {s[n]};
    }
  }

  lemma FirstDifference(a: seq<string>, b: seq<string>) returns (i: nat)
    requires |a| == |b| && a != b
    ensures i < |a| && a[..i] == b[..i] && a[i] != b[i]
  {
    var d: nat :| d < |a| && a[d] != b[d];
    i := 0;
    while a[i] == b[i]
      invariant i <= d && a[..i] == b[..i]
      decreases d - i
    {
      i := i + 1;
    }
  }

  /** There is only one least order, so the result cannot depend on how it was computed. */
  lemma LeastIsUnique(g: Graph, a: seq<string>, b: seq<string>)
    requires IsTopo(g, a) && IsGreedy(g, a) && IsTopo(g, b) && IsGreedy(g, b)
    ensures a == b
  {
    SameLength(g, a, b);
    if a != b {
      var i := FirstDifference(a, b);
      assert Elements(a[..i]) == Elements(b[..i]);
      LeqSame(a[i], b[i]);
    }
  }

  // ----- first in, first out

  /** Where the line completes a dependency list: the position of its last entry, or -1 for an empty list. */
  ghost function LastDep(ds: seq<string>, line: seq<string>): int {
    if ds == [] then -1
    else
      var n := |ds| - 1;
      var before, at := LastDep(ds[..n], line), if ds[n] in line then IndexOf(line, ds[n]) as int else -1;
      if at > before then at else before
  }

  lemma {:induction false} LastDepFits(ds: seq<string>, line: seq<string>)
    ensures -1 <= LastDep(ds, line) < |line|
    decreases |ds|
  {
    if ds != [] {
      LastDepFits(ds[..|ds| - 1], line);
    }
  }

  lemma IndexInPrefix(p: seq<string>, rest: seq<string>, x: string)
    requires x in p
    ensures IndexOf(p + rest, x) == IndexOf(p, x)
  {
    var i := IndexOf(p, x);
    assert (p + rest)[i] == x;
    assert forall k :: 0 <= k < i ==> (p + rest)[k] == p[k];
  }

  /** What comes later in the line does not matter once the list is complete. */
  lemma {:induction false} LastDepPrefix(ds: seq<string>, p: seq<string>, rest: seq<string>)
    requires forall d :: d in ds ==> d in p
    ensures LastDep(ds, p + rest) == LastDep(ds, p)
    decreases |ds|
  {
    if ds != [] {
      var n := |ds| - 1;
      LastDepPrefix(ds[..n], p, rest);
      assert ds[n] in p;
      IndexInPrefix(p, rest, ds[n]);
    }
  }

  lemma {:induction false} LastDepAt(ds: seq<string>, p: seq<string>, c: string)
    requires c in ds && c !in p
    ensures LastDep(ds, p + [c]) == |p|
    decreases |ds|
  {
    var n := |ds| - 1;
    assert ds == ds[..n] + [ds[n]];
    LastDepFits(ds[..n], p + [c]);
    if ds[n] == c {
      assert (p + [c])[|p|] == c;
      assert forall k :: 0 <= k < |p| ==> (p + [c])[k] == p[k];
    } else {
      LastDepAt(ds[..n], p, c);
    }
  }

  /** x was completed before y, or together with it and has the smaller name. */
  ghost predicate CompletesFirst(g: Graph, line: seq<string>, x: string, y: string)
    requires x in g && y in g
  {
    var tx, ty := LastDep(g[x], line), LastDep(g[y], line);
    tx < ty || (tx == ty && Leq(x, y))
  }

  /** Nodes stand in the order in which their dependencies were completed, names deciding ties. */
  ghost predicate IsFifo(g: Graph, order: seq<string>) {
    forall i, j :: 0 <= i < j < |order| ==>
      order[i] in g && order[j] in g && CompletesFirst(g, order, order[i], order[j])
  }

  lemma TopoLastDep(g: Graph, order: seq<string>, i: nat)
    requires IsTopo(g, order) && i < |order|
    ensures order[i] in g && LastDep(g[order[i]], order) == LastDep(g[order[i]], order[..i])
  {
    assert order[i] in g;
    assert order == order[..i] + order[i..];
    LastDepPrefix(g[order[i]], order[..i], order[i..]);
  }

  /** There is only one such order. */
  lemma FifoIsUnique(g: Graph, a: seq<string>, b: seq<string>)
    requires IsTopo(g, a) && IsFifo(g, a) && IsTopo(g, b) && IsFifo(g, b)
    ensures a == b
  {
    hide LastDep, Leq;
    SameLength(g, a, b);
    if a != b {
      var i := FirstDifference(a, b);
      LaterIn(g, a, b, i);
      LaterIn(g, b, a, i);
      LeqSame(a[i], b[i]);
    }
  }

  lemma LaterIn(g: Graph, a: seq<string>, b: seq<string>, i: nat)
    requires IsTopo(g, a) && IsFifo(g, a) && IsTopo(g, b) && i < |a| && i < |b| && a[..i] == b[..i] && a[i] != b[i]
    ensures a[i] in g && b[i] in g
    ensures var tx, ty := LastDep(g[a[i]], a[..i]), LastDep(g[b[i]], a[..i]); tx < ty || (tx == ty && Leq(a[i], b[i]))
  {
    hide LastDep, Leq;
    assert b[i] in g && b[i] in a;
    var j :| 0 <= j < |a| && a[j] == b[i];
    assert b[i] !in a[..i] by { assert b[i] !in b[..i]; }
    assert forall k :: 0 <= k < i ==> a[k] in a[..i];
    assert i < j;
    assert CompletesFirst(g, a, a[i], a[j]);
    TopoLastDep(g, a, i);
    TopoLastDep(g, b, i);
    assert a == a[..i] + a[i..];
    LastDepPrefix(g[b[i]], a[..i], a[i..]);
  }
}
