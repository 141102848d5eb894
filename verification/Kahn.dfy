/** In-degree bookkeeping and the main loop shared by the two dependency resolvers. */
module Kahn {
  import opened Prelude
  import opened DependencyGraph

  type Degrees = map<string, int>

  /** How many of the listed dependencies are not done, counting repetitions. */
  ghost function Missing(ds: seq<string>, done: set<string>): nat {
    if ds == [] then 0 else Missing(ds[..|ds| - 1], done) + (if ds[|ds| - 1] in done then 0 else 1)
  }

  lemma {:induction false} MissingZero(ds: seq<string>, done: set<string>)
    ensures Missing(ds, done) == 0 <==> forall d :: d in ds ==> d in done
    decreases |ds|
  {
    if ds != [] {
      MissingZero(ds[..|ds| - 1], done);
      assert ds == ds[..|ds| - 1] + [ds[|ds| - 1]];
    }
  }

  lemma {:induction false} MissingStep(ds: seq<string>, done: set<string>, c: string)
    requires c !in done
    ensures Missing(ds, done + {c}) == Missing(ds, done) - multiset(ds)[c]
    decreases |ds|
  {
    if ds != [] {
      MissingStep(ds[..|ds| - 1], done, c);
      assert ds == ds[..|ds| - 1] + [ds[|ds| - 1]];
    }
  }

  lemma {:induction false} MissingAll(ds: seq<string>)
    ensures Missing(ds, {}) == |ds|
    decreases |ds|
  {
    if ds != [] {
      MissingAll(ds[..|ds| - 1]);
    }
  }

  ghost predicate DegreesOk(g: Graph, degrees: Degrees, done: set<string>) {
    degrees.Keys == g.Keys && forall x :: x in g ==> degrees[x] == Missing(g[x], done)
  }

  /** adj[d] lists each dependent of d as often as it names d. */
  ghost predicate EdgesOk(g: Graph, adj: Graph) {
    adj.Keys == g.Keys && forall d, x :: d in g && x in g ==> multiset(adj[d])[x] == multiset(g[x])[d]
  }

  ghost predicate OnlyNodes(g: Graph, adj: Graph) {
    forall d, x :: d in adj && x in adj[d] ==> x in g
  }

  // ----- building the edges

  /** How often d's list must name x once the first k ids and j dependencies of the next are processed. */
  ghost function Expected(g: Graph, ids: seq<string>, k: nat, j: nat, d: string, x: string): nat
    requires k <= |ids| && x in g
  {
    if x in ids[..k] then multiset(g[x])[d]
    else if k < |ids| && x == ids[k] && j <= |g[x]| then multiset(g[x][..j])[d]
    else 0
  }

  ghost predicate EdgesSoFar(g: Graph, adj: Graph, ids: seq<string>, k: nat, j: nat)
    requires k <= |ids|
  {
    && adj.Keys == g.Keys && OnlyNodes(g, adj)
    && (forall d, x :: d in g && x in g ==> multiset(adj[d])[x] == Expected(g, ids, k, j, d, x))
  }

  method BuildEdges(ids: seq<string>, g: Graph) returns (degrees: Degrees, adj: Graph)
    requires Closed(g) && Distinct(ids) && forall x :: x in ids <==> x in g
    ensures DegreesOk(g, degrees, {}) && EdgesOk(g, adj) && OnlyNodes(g, adj)
  {
    hide EdgesSoFar, OnlyNodes;
    degrees := map x | x in g :: |g[x]|;
    forall x | x in g
      ensures degrees[x] == Missing(g[x], {})
    {
      MissingAll(g[x]);
    }
    adj := map x | x in g :: [];
    EdgesStart(g, adj, ids);
    var k := 0;
    while k < |ids|
      invariant k <= |ids| && EdgesSoFar(g, adj, ids, k, 0)
    {
      var id, j := ids[k], 0;
      while j < |g[id]|
        invariant j <= |g[id]| && EdgesSoFar(g, adj, ids, k, j)
      {
        EdgesStep(g, adj, ids, k, j);
        adj := adj[g[id][j] := adj[g[id][j]] + [id]];
        j := j + 1;
      }
      EdgesNext(g, adj, ids, k);
      k := k + 1;
    }
    EdgesDone(g, adj, ids);
  }

  lemma EdgesStart(g: Graph, adj: Graph, ids: seq<string>)
    requires adj == map x | x in g :: []
    ensures EdgesSoFar(g, adj, ids, 0, 0)
  {
    forall d, x | d in g && x in g
      ensures multiset(adj[d])[x] == Expected(g, ids, 0, 0, d, x)
    {
      assert adj[d] == [] && g[x][..0] == [];
    }
  }

  lemma EdgesDone(g: Graph, adj: Graph, ids: seq<string>)
    requires EdgesSoFar(g, adj, ids, |ids|, 0) && forall x :: x in ids <==> x in g
    ensures EdgesOk(g, adj) && OnlyNodes(g, adj)
  {
    assert ids[..|ids|] == ids;
  }

  lemma ExpectedStep(g: Graph, ids: seq<string>, k: nat, j: nat, d: string, x: string)
    requires Distinct(ids) && k < |ids| && ids[k] in g && j < |g[ids[k]]| && x in g
    ensures Expected(g, ids, k, j + 1, d, x) ==
            Expected(g, ids, k, j, d, x) + (if x == ids[k] && d == g[ids[k]][j] then 1 else 0)
  {
    assert ids[k] !in ids[..k];
    if x == ids[k] {
      assert g[x][..j + 1] == g[x][..j] + [g[x][j]];
    }
  }

  lemma ExpectedNext(g: Graph, ids: seq<string>, k: nat, d: string, x: string)
    requires Distinct(ids) && k < |ids| && ids[k] in g && x in g
    ensures Expected(g, ids, k + 1, 0, d, x) == Expected(g, ids, k, |g[ids[k]]|, d, x)
  {
    assert ids[..k + 1] == ids[..k] + [ids[k]];
    if x == ids[k] {
      assert g[x][..|g[x]|] == g[x];
    }
    assert multiset(g[x][..0])[d] == 0;
  }

  lemma EdgesStep(g: Graph, adj: Graph, ids: seq<string>, k: nat, j: nat)
    requires Closed(g) && Distinct(ids) && k < |ids| && ids[k] in g && j < |g[ids[k]]|
    requires EdgesSoFar(g, adj, ids, k, j)
    ensures var e := g[ids[k]][j]; e in g && e in adj && EdgesSoFar(g, adj[e := adj[e] + [ids[k]]], ids, k, j + 1)
  {
    hide Expected;
    var id, e := ids[k], g[ids[k]][j];
    var adj' := adj[e := adj[e] + [id]];
    assert e in g;
    assert multiset(adj[e] + [id]) == multiset(adj[e]) + multiset{id};
    forall d, x | d in g && x in g
      ensures multiset(adj'[d])[x] == Expected(g, ids, k, j + 1, d, x)
    {
      ExpectedStep(g, ids, k, j, d, x);
    }
  }

  lemma EdgesNext(g: Graph, adj: Graph, ids: seq<string>, k: nat)
    requires Distinct(ids) && k < |ids| && ids[k] in g && EdgesSoFar(g, adj, ids, k, |g[ids[k]]|)
    ensures EdgesSoFar(g, adj, ids, k + 1, 0)
  {
    hide Expected;
    forall d, x | d in g && x in g
      ensures multiset(adj[d])[x] == Expected(g, ids, k + 1, 0, d, x)
    {
      ExpectedNext(g, ids, k, d, x);
    }
  }

  // ----- removing one finished node

  lemma PrefixCount(s: seq<string>, k: nat)
    requires k < |s|
    ensures multiset(s[..k + 1]) == multiset(s[..k]) + multiset{s[k]}
    ensures multiset(s)[s[k]] >= multiset(s[..k])[s[k]] + 1
  {
    assert s[..k + 1] == s[..k] + [s[k]];
    assert s == s[..k + 1] + s[k + 1..];
  }

  /** The first k edges have been counted off. */
  ghost predicate Relaxed(neighbors: seq<string>, k: nat, before: Degrees, degrees: Degrees, eligible: seq<string>)
    requires k <= |neighbors|
  {
    && degrees.Keys == before.Keys
    && (forall x :: x in before ==> degrees[x] == before[x] - multiset(neighbors[..k])[x])
    && Distinct(eligible)
    && (forall x :: x in eligible <==> x in neighbors[..k] && x in degrees && degrees[x] == 0)
  }

  lemma RelaxStart(neighbors: seq<string>, before: Degrees)
    ensures Relaxed(neighbors, 0, before, before, [])
  {
  }

  lemma RelaxNext(neighbors: seq<string>, k: nat, before: Degrees, degrees: Degrees, eligible: seq<string>)
    requires k < |neighbors| && Relaxed(neighbors, k, before, degrees, eligible)
    requires neighbors[k] in before && before[neighbors[k]] >= multiset(neighbors)[neighbors[k]]
    ensures neighbors[k] in degrees
    ensures var x := neighbors[k];
            var left := degrees[x] - 1;
            Relaxed(neighbors, k + 1, before, degrees[x := left], if left == 0 then eligible + [x] else eligible)
  {
    PrefixCount(neighbors, k);
    assert neighbors[..k + 1] == neighbors[..k] + [neighbors[k]];
  }

  lemma RelaxEnd(neighbors: seq<string>, before: Degrees, degrees: Degrees, eligible: seq<string>)
    requires Relaxed(neighbors, |neighbors|, before, degrees, eligible)
    ensures degrees.Keys == before.Keys && forall x :: x in before ==> degrees[x] == before[x] - multiset(neighbors)[x]
    ensures Distinct(eligible) && forall x :: x in eligible <==> x in neighbors && x in degrees && degrees[x] == 0
  {
    assert neighbors[..|neighbors|] == neighbors;
  }

  /** Decrements each dependent once per edge and collects those that reach zero. */
  method Relax(neighbors: seq<string>, before: Degrees) returns (degrees: Degrees, eligible: seq<string>)
    requires forall x :: x in neighbors ==> x in before && before[x] >= multiset(neighbors)[x]
    ensures degrees.Keys == before.Keys && forall x :: x in before ==> degrees[x] == before[x] - multiset(neighbors)[x]
    ensures Distinct(eligible) && forall x :: x in eligible <==> x in neighbors && degrees[x] == 0
  {
    hide Relaxed;
    degrees, eligible := before, [];
    var k := 0;
    RelaxStart(neighbors, before);
    while k < |neighbors|
      invariant k <= |neighbors| && Relaxed(neighbors, k, before, degrees, eligible)
    {
      var x := neighbors[k];
      RelaxNext(neighbors, k, before, degrees, eligible);
      degrees := degrees[x := degrees[x] - 1];
      if degrees[x] == 0 {
        eligible := eligible + [x];
      }
      k := k + 1;
    }
    RelaxEnd(neighbors, before, degrees, eligible);
  }

  // ----- the loop invariant

  /** `result` is a dependency-closed prefix, and the queue holds exactly the nodes ready after it. */
  ghost predicate KahnInv(g: Graph, degrees: Degrees, result: seq<string>, queue: seq<string>) {
    && Distinct(result) && (forall x :: x in result ==> x in g)
    && (forall i, d :: 0 <= i < |result| && d in g[result[i]] ==> d in result[..i])
    && DegreesOk(g, degrees, Elements(result))
    && Distinct(queue) && (forall x :: x in queue <==> x in Ready(g, Elements(result)))
  }

  ghost predicate InitialQueue(g: Graph, queue: seq<string>) {
    Distinct(queue) && forall x :: x in queue <==> x in g && g[x] == []
  }

  lemma KahnStart(g: Graph, degrees: Degrees, queue: seq<string>)
    requires DegreesOk(g, degrees, {}) && InitialQueue(g, queue)
    ensures KahnInv(g, degrees, [], queue)
  {
    assert Elements([]) == {};
    forall x | x in g
      ensures (g[x] == [] <==> forall d :: d in g[x] ==> d in {})
    {
      if g[x] != [] {
        assert g[x][0] in g[x];
      }
    }
  }

  lemma ClosedResult(g: Graph, result: seq<string>, x: string, d: string)
    requires forall i, d :: 0 <= i < |result| && result[i] in g && d in g[result[i]] ==> d in result[..i]
    requires x in result && x in g && d in g[x]
    ensures d in result
  {
    var i :| 0 <= i < |result| && result[i] == x;
    assert d in result[..i];
  }

  /** The dependents of the next node have enough in-degree left for Relax. */
  lemma RelaxReady(g: Graph, adj: Graph, degrees: Degrees, result: seq<string>, queue: seq<string>)
    requires KahnInv(g, degrees, result, queue) && EdgesOk(g, adj) && OnlyNodes(g, adj) && |queue| > 0
    ensures queue[0] in adj
    ensures forall x :: x in adj[queue[0]] ==> x in degrees && degrees[x] >= multiset(adj[queue[0]])[x]
  {
    var c := queue[0];
    assert c in Ready(g, Elements(result));
    forall x | x in adj[c]
      ensures x in degrees && degrees[x] >= multiset(adj[c])[x]
    {
      assert x in g;
      MissingStep(g[x], Elements(result), c);
    }
  }

  /** Moving the head of the queue to the result and queueing the newly eligible keeps the invariant. */
  lemma KahnStep(g: Graph, adj: Graph, degrees: Degrees, result: seq<string>, queue: seq<string>,
                 degrees': Degrees, eligible: seq<string>, queue': seq<string>)
    requires KahnInv(g, degrees, result, queue) && EdgesOk(g, adj) && OnlyNodes(g, adj) && |queue| > 0 && queue[0] in adj
    requires degrees'.Keys == degrees.Keys && forall x :: x in degrees ==> degrees'[x] == degrees[x] - multiset(adj[queue[0]])[x]
    requires Distinct(eligible) && forall x :: x in eligible <==> x in adj[queue[0]] && degrees'[x] == 0
    requires Distinct(queue') && forall x :: x in queue' <==> x in queue[1..] || x in eligible
    ensures KahnInv(g, degrees', result + [queue[0]], queue')
  {
    hide Ready, Missing, DegreesOk;
    var c := queue[0];
    HeadReady(g, result, c);
    DegreesStep(g, adj, degrees, result, c, degrees');
    DegreesForm(g, degrees', Elements(result + [c]));
    ResultStep(g, result, c);
    forall x
      ensures x in queue' <==> x in Ready(g, Elements(result + [c]))
    {
      QueueMember(g, adj, result, queue, degrees', eligible, x);
    }
  }

  lemma HeadReady(g: Graph, result: seq<string>, c: string)
    requires c in Ready(g, Elements(result))
    ensures c in g && c !in result && forall d :: d in g[c] ==> d in result
  {
  }

  lemma DegreesStep(g: Graph, adj: Graph, degrees: Degrees, result: seq<string>, c: string, degrees': Degrees)
    requires DegreesOk(g, degrees, Elements(result)) && EdgesOk(g, adj) && c in adj && c !in result
    requires degrees'.Keys == degrees.Keys && forall x :: x in degrees ==> degrees'[x] == degrees[x] - multiset(adj[c])[x]
    ensures DegreesOk(g, degrees', Elements(result + [c]))
  {
    hide Missing;
    assert Elements(result + [c]) == Elements(result) + {c};
    forall x | x in g
      ensures degrees'[x] == Missing(g[x], Elements(result + [c]))
    {
      MissingStep(g[x], Elements(result), c);
    }
  }

  lemma DegreesForm(g: Graph, degrees: Degrees, done: set<string>)
    requires DegreesOk(g, degrees, done)
    ensures forall y :: y in g ==> y in degrees && degrees[y] == Missing(g[y], done)
  {
  }

  lemma ResultStep(g: Graph, result: seq<string>, c: string)
    requires Distinct(result) && (forall x :: x in result ==> x in g) && c in g && c !in result
    requires forall i, d :: 0 <= i < |result| && d in g[result[i]] ==> d in result[..i]
    requires forall d :: d in g[c] ==> d in result
    ensures var r := result + [c];
            && Distinct(r) && (forall x :: x in r ==> x in g)
            && (forall i, d :: 0 <= i < |r| && d in g[r[i]] ==> d in r[..i])
  {
    var r := result + [c];
    forall i, d | 0 <= i < |r| && d in g[r[i]]
      ensures d in r[..i]
    {
      assert r[..i] == if i == |result| then result else result[..i];
    }
  }

  lemma QueueMember(g: Graph, adj: Graph, result: seq<string>, queue: seq<string>, degrees': Degrees, eligible: seq<string>, x: string)
    requires |queue| > 0 && queue[0] in adj && queue[0] in Ready(g, Elements(result))
    requires EdgesOk(g, adj) && OnlyNodes(g, adj) && Distinct(queue)
    requires forall i, d :: 0 <= i < |result| && result[i] in g && d in g[result[i]] ==> d in result[..i]
    requires forall y :: y in queue <==> y in Ready(g, Elements(result))
    requires forall y :: y in g ==> y in degrees' && degrees'[y] == Missing(g[y], Elements(result + [queue[0]]))
    requires forall y :: y in eligible <==> y in adj[queue[0]] && degrees'[y] == 0
    ensures (x in queue[1..] || x in eligible) <==> x in Ready(g, Elements(result + [queue[0]]))
  {
    var c := queue[0];
    var done, done' := Elements(result), Elements(result + [c]);
    assert done' == done + {c};
    assert queue == [c] + queue[1..];
    assert x in queue[1..] <==> x in queue && x != c;
    if x in g {
      MissingZero(g[x], done');
      assert x in adj[c] <==> multiset(adj[c])[x] > 0;
      assert c in g[x] <==> multiset(g[x])[c] > 0;
      if c in g[x] {
        if x in result { ClosedResult(g, result, x, c); }
        assert x !in done && x != c && x !in queue;
        assert x in eligible <==> x in Ready(g, done');
      } else {
        assert x in Ready(g, done') <==> x in Ready(g, done) && x != c;
        assert x !in eligible;
      }
    }
  }

  /** A finished run over a graph that has some order lists every node. */
  lemma KahnComplete(g: Graph, degrees: Degrees, result: seq<string>, order: seq<string>)
    requires KahnInv(g, degrees, result, []) && IsTopo(g, order)
    ensures IsTopo(g, result) && |result| == |g|
  {
    assert Ready(g, Elements(result)) == {};
    forall x | x in g
      ensures x in result
    {
      if x !in result {
        SomeReady(g, order, Elements(result), x);
      }
    }
    assert Elements(result) == g.Keys;
    DistinctSize(result);
  }

  /** Listing as many nodes as there are means listing them all, in a topological order. */
  lemma KahnFull(g: Graph, degrees: Degrees, result: seq<string>, queue: seq<string>)
    requires KahnInv(g, degrees, result, queue) && |result| == |g|
    ensures IsTopo(g, result)
  {
    DistinctSize(result);
    SubsetFull(Elements(result), g.Keys);
  }

  lemma SubsetFull(a: set<string>, b: set<string>)
    requires a <= b && |a| == |b|
    ensures a == b
  {
    assert b == a + (b - a);
    assert |b| == |a| + |b - a|;
  }

  lemma WalkBack(g: Graph, path: seq<string>, i: nat)
    requires i < |path| && path[|path| - 1] in g && path[i] in g[path[|path| - 1]]
    requires forall k :: 0 <= k < |path| - 1 ==> path[k] in g && path[k + 1] in g[path[k]]
    ensures IsCycle(g, path[i..] + [path[i]])
  {
    var c := path[i..] + [path[i]];
    forall k | 0 <= k < |c| - 1
      ensures c[k] in g && c[k + 1] in g[c[k]]
    {
      assert c[k] == path[i + k];
    }
  }

  ghost predicate DependsOn(g: Graph, x: string, rest: set<string>) {
    x in g && exists d :: d in g[x] && d in rest
  }

  /** Each of these nodes depends on another of them. */
  ghost predicate EachDepends(g: Graph, rest: set<string>) {
    forall x :: x in rest ==> DependsOn(g, x, rest)
  }

  lemma DependsOnOne(g: Graph, rest: set<string>, x: string) returns (d: string)
    requires DependsOn(g, x, rest)
    ensures x in g && d in g[x] && d in rest
  {
    d :| d in g[x] && d in rest;
  }

  lemma DependsOnAnother(g: Graph, rest: set<string>, x: string) returns (d: string)
    requires EachDepends(g, rest) && x in rest
    ensures x in g && d in g[x] && d in rest
  {
    hide DependsOn;
    d := DependsOnOne(g, rest, x);
  }

  /** A walk among nodes that each depend on another of them must close. */
  lemma WalkCloses(g: Graph, rest: set<string>, path: seq<string>) returns (c: seq<string>)
    requires |path| > 0 && Distinct(path) && forall x :: x in path ==> x in rest
    requires forall i :: 0 <= i < |path| - 1 ==> path[i] in g && path[i + 1] in g[path[i]]
    requires EachDepends(g, rest)
    ensures IsCycle(g, c)
    decreases |rest| - |path|
  {
    hide EachDepends, IsCycle;
    var d := DependsOnAnother(g, rest, path[|path| - 1]);
    if d in path {
      var i :| 0 <= i < |path| && path[i] == d;
      WalkBack(g, path, i);
      c := path[i..] + [d];
    } else {
      DistinctSize(path + [d]);
      SubsetSize(Elements(path + [d]), rest);
      c := WalkCloses(g, rest, path + [d]);
    }
  }

  lemma SubsetLeaves(a: set<string>, b: set<string>)
    requires a <= b && |a| != |b|
    ensures b - a != {}
  {
    assert b == a + (b - a);
  }

  /** What a finished run missed is not ready, so each missed node waits for another. */
  lemma StuckWaits(g: Graph, degrees: Degrees, result: seq<string>)
    requires Closed(g) && KahnInv(g, degrees, result, [])
    ensures Elements(result) <= g.Keys && EachDepends(g, g.Keys - Elements(result))
  {
    hide DegreesOk;
    assert Ready(g, Elements(result)) == {};
    forall x | x in g.Keys - Elements(result)
      ensures DependsOn(g, x, g.Keys - Elements(result))
    {
      assert x !in Ready(g, Elements(result));
      var d :| d in g[x] && d !in Elements(result);
    }
  }

  /** A finished run that missed some node leaves a cycle among those it missed. */
  lemma StuckHasCycle(g: Graph, degrees: Degrees, result: seq<string>) returns (c: seq<string>)
    requires Closed(g) && KahnInv(g, degrees, result, []) && |result| != |g|
    ensures IsCycle(g, c)
  {
    hide IsCycle, EachDepends, Closed, DegreesOk, Ready;
    DistinctSize(result);
    StuckWaits(g, degrees, result);
    SubsetLeaves(Elements(result), g.Keys);
    var x :| x in g.Keys - Elements(result);
    c := WalkCloses(g, g.Keys - Elements(result), [x]);
  }

  // ----- what both resolvers do around the loop

  /** Looks for a listed name that is (or is not) a node. */
  method FindListed(ids: seq<string>, lists: Graph, known: Graph, wanted: bool) returns (hit: Option<(string, string)>)
    requires forall x :: x in ids <==> x in lists
    ensures hit.None? ==> forall x, d :: x in lists && d in lists[x] ==> (d in known) != wanted
    ensures hit.Some? ==> hit.value.0 in lists && hit.value.1 in lists[hit.value.0] && (hit.value.1 in known) == wanted
  {
    var k := 0;
    while k < |ids|
      invariant k <= |ids|
      invariant forall i, d :: 0 <= i < k && d in lists[ids[i]] ==> (d in known) != wanted
    {
      var list, j := lists[ids[k]], 0;
      while j < |list|
        invariant j <= |list| && forall i :: 0 <= i < j ==> (list[i] in known) != wanted
      {
        if (list[j] in known) == wanted {
          return Some((ids[k], list[j]));
        }
        j := j + 1;
      }
      k := k + 1;
    }
    hit := None;
    forall x, d | x in lists && d in lists[x]
      ensures (d in known) != wanted
    {
      assert x in ids;
    }
  }

  /** The ready nodes among the ids. */
  method Roots(ids: seq<string>, g: Graph, degrees: Degrees) returns (queue: seq<string>)
    requires Distinct(ids) && (forall x :: x in ids <==> x in g) && DegreesOk(g, degrees, {})
    ensures InitialQueue(g, queue)
  {
    queue := [];
    var k := 0;
    while k < |ids|
      invariant k <= |ids| && Distinct(queue)
      invariant forall x :: x in queue <==> x in ids[..k] && g[x] == []
    {
      assert ids[..k + 1] == ids[..k] + [ids[k]];
      MissingAll(g[ids[k]]);
      if degrees[ids[k]] == 0 {
        queue := queue + [ids[k]];
      }
      k := k + 1;
    }
    assert ids[..k] == ids;
  }

  lemma QueueFacts(g: Graph, degrees: Degrees, result: seq<string>, queue: seq<string>)
    requires KahnInv(g, degrees, result, queue)
    ensures Distinct(queue) && forall x :: x in queue <==> x in Ready(g, Elements(result))
  {
  }

  lemma ResultFits(g: Graph, degrees: Degrees, result: seq<string>, queue: seq<string>)
    requires KahnInv(g, degrees, result, queue)
    ensures |result| <= |g|
  {
    DistinctSize(result);
    SubsetSize(Elements(result), g.Keys);
  }

  /** Newly eligible nodes were not queued before. */
  lemma FreshEligible(g: Graph, adj: Graph, degrees: Degrees, result: seq<string>, queue: seq<string>, relaxed: Degrees, eligible: seq<string>)
    requires KahnInv(g, degrees, result, queue) && EdgesOk(g, adj) && OnlyNodes(g, adj) && |queue| > 0 && queue[0] in adj
    requires Distinct(eligible) && forall x :: x in eligible <==> x in adj[queue[0]] && x in relaxed && relaxed[x] == 0
    ensures Distinct(queue[1..] + eligible) && forall x :: x in queue[1..] + eligible <==> x in queue[1..] || x in eligible
  {
    var c := queue[0];
    assert c in Ready(g, Elements(result));
    forall x | x in eligible
      ensures x !in queue
    {
      assert multiset(adj[c])[x] > 0;
      assert multiset(g[x])[c] > 0;
      assert c in g[x];
    }
    assert queue == [c] + queue[1..];
    DistinctConcat(queue[1..], eligible);
  }

  lemma DistinctConcat(a: seq<string>, b: seq<string>)
    requires Distinct(a) && Distinct(b) && forall x :: x in b ==> x !in a
    ensures Distinct(a + b)
  {
    forall i, j | 0 <= i < j < |a + b|
      ensures (a + b)[i] != (a + b)[j]
    {
      if i < |a| <= j {
        assert (a + b)[j] in b;
      }
    }
  }
}
