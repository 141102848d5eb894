/** Plugin startup order: Kahn's algorithm alone, over possibly repeated dependencies. */
module PluginOrder {
  import opened Prelude
  import opened Text
  import opened DependencyGraph
  import opened Kahn

  datatype Manifest = Manifest(id: string, name: string, dependencies: seq<string>, conflicts: seq<string>)

  datatype Error =
    | InvalidManifest
    | DuplicatePlugin(id: string)
    | PluginConflict(id: string, other: string)
    | MissingDependency(id: string, dep: string)
    | CyclicDependency

  predicate ManifestOk(m: Manifest) {
    Trim(m.id) != "" && Trim(m.name) != ""
  }

  ghost predicate PluginsOk(ms: seq<Manifest>) {
    && (forall i :: 0 <= i < |ms| ==> ManifestOk(ms[i]))
    && (forall i, j :: 0 <= i < j < |ms| ==> ms[i].id != ms[j].id)
  }

  /** The dependency graph the manifests declare. */
  ghost function GraphOf(ms: seq<Manifest>): Graph {
    if ms == [] then map[]
    else GraphOf(ms[..|ms| - 1])[ms[|ms| - 1].id := ms[|ms| - 1].dependencies]
  }

  lemma GraphStep(ms: seq<Manifest>, k: nat)
    requires k < |ms|
    ensures GraphOf(ms[..k + 1]) == GraphOf(ms[..k])[ms[k].id := ms[k].dependencies]
  {
    assert ms[..k + 1][..k] == ms[..k];
  }

  lemma {:induction false} GraphLookup(ms: seq<Manifest>, k: nat)
    requires k <= |ms|
    ensures forall x :: x in GraphOf(ms[..k]) <==> exists i :: 0 <= i < k && ms[i].id == x
    ensures (forall i, j :: 0 <= i < j < k ==> ms[i].id != ms[j].id) ==>
              forall i :: 0 <= i < k ==> ms[i].id in GraphOf(ms[..k]) && GraphOf(ms[..k])[ms[i].id] == ms[i].dependencies
    decreases k
  {
    hide GraphOf;
    if k == 0 {
      EmptyGraph(ms);
    } else {
      GraphLookup(ms, k - 1);
      GraphStep(ms, k - 1);
    }
  }

  lemma EmptyGraph(ms: seq<Manifest>)
    ensures GraphOf(ms[..0]) == map[]
  {
    assert ms[..0] == [];
  }

  ghost predicate NoActiveConflict(ms: seq<Manifest>) {
    forall i, c :: 0 <= i < |ms| && c in ms[i].conflicts ==> c !in GraphOf(ms)
  }

  ghost predicate Startable(ms: seq<Manifest>) {
    PluginsOk(ms) && NoActiveConflict(ms) && Closed(GraphOf(ms)) && Acyclic(GraphOf(ms))
  }

  /** The error is true of the manifests. */
  ghost predicate Explains(ms: seq<Manifest>, e: Error) {
    match e
    case InvalidManifest => exists i :: 0 <= i < |ms| && !ManifestOk(ms[i])
    case DuplicatePlugin(id) => exists i, j :: 0 <= i < j < |ms| && ms[i].id == id == ms[j].id
    case PluginConflict(id, other) =>
      && (exists i :: 0 <= i < |ms| && ms[i].id == id && other in ms[i].conflicts)
      && (exists j :: 0 <= j < |ms| && ms[j].id == other)
    case MissingDependency(id, dep) =>
      && (exists i :: 0 <= i < |ms| && ms[i].id == id && dep in ms[i].dependencies)
      && (forall j :: 0 <= j < |ms| ==> ms[j].id != dep)
    case CyclicDependency => exists c :: IsCycle(GraphOf(ms), c)
  }

  lemma GraphMeans(ms: seq<Manifest>)
    ensures forall x :: x in GraphOf(ms) <==> exists i :: 0 <= i < |ms| && ms[i].id == x
    ensures PluginsOk(ms) ==> forall i :: 0 <= i < |ms| ==> ms[i].id in GraphOf(ms) && GraphOf(ms)[ms[i].id] == ms[i].dependencies
  {
    hide GraphOf, ManifestOk;
    GraphLookup(ms, |ms|);
    assert ms[..|ms|] == ms;
  }

  lemma MissingMeans(ms: seq<Manifest>, id: string, dep: string)
    requires PluginsOk(ms) && id in GraphOf(ms) && dep in GraphOf(ms)[id] && dep !in GraphOf(ms)
    ensures Explains(ms, MissingDependency(id, dep))
  {
    hide GraphOf, ManifestOk;
    GraphMeans(ms);
    var i :| 0 <= i < |ms| && ms[i].id == id;
    assert GraphOf(ms)[ms[i].id] == ms[i].dependencies;
  }

  /** The order lists every plugin once, each after all its dependencies, and no two of them are in conflict. */
  lemma OrderMeans(ms: seq<Manifest>, order: seq<string>, i: nat)
    requires Startable(ms) && IsTopo(GraphOf(ms), order) && i < |ms|
    ensures Distinct(order) && ms[i].id in order && forall x :: x in order ==> exists j :: 0 <= j < |ms| && ms[j].id == x
    ensures forall b, d :: 0 <= b < |order| && order[b] == ms[i].id && d in ms[i].dependencies ==> d in order[..b]
    ensures forall j :: 0 <= j < |ms| ==> ms[j].id !in ms[i].conflicts
  {
    hide GraphOf, ManifestOk, Acyclic;
    GraphMeans(ms);
  }

  method EnterPlugins(ms: seq<Manifest>) returns (fault: Option<Error>, g: Graph, ids: seq<string>)
    ensures fault.None? <==> PluginsOk(ms)
    ensures fault.None? ==> g == GraphOf(ms) && Distinct(ids) && (forall x :: x in ids <==> x in g) && |ids| == |ms|
    ensures fault.Some? ==> (fault.value.InvalidManifest? || fault.value.DuplicatePlugin?) && Explains(ms, fault.value)
  {
    hide GraphOf, ManifestOk;
    g, ids := map[], [];
    EmptyGraph(ms);
    var k := 0;
    while k < |ms|
      invariant k <= |ms| == |ms| && g == GraphOf(ms[..k]) && |ids| == k
      invariant forall i :: 0 <= i < k ==> ManifestOk(ms[i]) && ids[i] == ms[i].id
      invariant forall i, j :: 0 <= i < j < k ==> ms[i].id != ms[j].id
    {
      GraphLookup(ms, k);
      GraphStep(ms, k);
      if !ManifestOk(ms[k]) {
        return Some(InvalidManifest), g, ids;
      }
      if ms[k].id in g {
        return Some(DuplicatePlugin(ms[k].id)), g, ids;
      }
      g, ids := g[ms[k].id := ms[k].dependencies], ids + [ms[k].id];
      k := k + 1;
    }
    GraphLookup(ms, k);
    assert ms[..k] == ms;
    fault := None;
    forall x
      ensures x in ids <==> x in g
    {
      if x in g {
        var i :| 0 <= i < k && ms[i].id == x;
        assert ids[i] == x;
      }
    }
  }

  /** Looks for a conflict with a registered plugin. */
  method FindConflict(ms: seq<Manifest>, g: Graph) returns (hit: Option<(string, string)>)
    requires g == GraphOf(ms)
    ensures hit.None? <==> NoActiveConflict(ms)
    ensures hit.Some? ==> Explains(ms, PluginConflict(hit.value.0, hit.value.1))
  {
    hide GraphOf;
    GraphMeans(ms);
    var k := 0;
    while k < |ms|
      invariant k <= |ms| && forall i, c :: 0 <= i < k && c in ms[i].conflicts ==> c !in g
    {
      var j := 0;
      while j < |ms[k].conflicts|
        invariant j <= |ms[k].conflicts| && forall i :: 0 <= i < j ==> ms[k].conflicts[i] !in g
      {
        if ms[k].conflicts[j] in g {
          assert ms[k].conflicts[j] in ms[k].conflicts;
          return Some((ms[k].id, ms[k].conflicts[j]));
        }
        j := j + 1;
      }
      k := k + 1;
    }
    hit := None;
  }

  /** Everything listed or queued stands in the order of completion, judged by what is listed. */
  ghost predicate InLine(g: Graph, result: seq<string>, queue: seq<string>) {
    var line := result + queue;
    && (forall i :: 0 <= i < |line| ==> line[i] in g && forall d :: d in g[line[i]] ==> d in result)
    && (forall i, j :: 0 <= i < j < |line| ==> CompletesFirst(g, result, line[i], line[j]))
  }

  lemma RootsInLine(g: Graph, queue: seq<string>)
    requires InitialQueue(g, queue) && Ascending(queue)
    ensures InLine(g, [], queue)
  {
    hide Leq, LastDep;
    var line := [] + queue;
    assert line == queue;
    NoDeps([]);
    forall i | 0 <= i < |line|
      ensures line[i] in g && g[line[i]] == []
    {
      assert line[i] in queue;
    }
    forall i, j | 0 <= i < j < |line|
      ensures CompletesFirst(g, [], line[i], line[j])
    {
      assert Leq(queue[i], queue[j]);
    }
  }

  lemma NoDeps(line: seq<string>)
    ensures LastDep([], line) == -1
  {
  }

  lemma LineIsFifo(g: Graph, order: seq<string>)
    requires InLine(g, order, [])
    ensures IsFifo(g, order)
  {
    assert order + [] == order;
  }

  /** A node the head completes has the head as its last dependency. */
  lemma BatchCompletes(g: Graph, adj: Graph, result: seq<string>, c: string, x: string)
    requires EdgesOk(g, adj) && OnlyNodes(g, adj) && c in adj && c !in result && x in adj[c]
    ensures x in g && c in g[x] && LastDep(g[x], result + [c]) == |result|
  {
    assert multiset(adj[c])[x] > 0;
    assert multiset(g[x])[c] > 0;
    LastDepAt(g[x], result, c);
  }

  lemma LineStays(g: Graph, result: seq<string>, queue: seq<string>, c: string, i: nat)
    requires InLine(g, result, queue) && i < |result + queue|
    ensures var x := (result + queue)[i];
            && x in g && LastDep(g[x], result + [c]) == LastDep(g[x], result) < |result|
            && forall d :: d in g[x] ==> d in result + [c]
  {
    hide LastDep;
    var x := (result + queue)[i];
    LastDepPrefix(g[x], result, [c]);
    LastDepFits(g[x], result);
  }

  lemma BatchInLine(g: Graph, adj: Graph, degrees: Degrees, relaxed: Degrees, result: seq<string>, queue: seq<string>, batch: seq<string>)
    requires KahnInv(g, degrees, result, queue) && InLine(g, result, queue) && |queue| > 0 && queue[0] in adj
    requires EdgesOk(g, adj) && OnlyNodes(g, adj) && Ascending(batch) && forall x :: x in batch ==> x in adj[queue[0]]
    requires KahnInv(g, relaxed, result + [queue[0]], queue[1..] + batch)
    ensures InLine(g, result + [queue[0]], queue[1..] + batch)
  {
    hide KahnInv, EdgesOk, OnlyNodes, LastDep, Leq;
    var c := queue[0];
    QueueFacts(g, degrees, result, queue);
    HeadReady(g, result, c);
    QueueFacts(g, relaxed, result + [c], queue[1..] + batch);
    var line, longer := result + queue, result + [c] + (queue[1..] + batch);
    assert longer == line + batch;
    forall i | 0 <= i < |longer|
      ensures longer[i] in g && forall d :: d in g[longer[i]] ==> d in result + [c]
      ensures i < |line| ==> LastDep(g[longer[i]], result + [c]) == LastDep(g[longer[i]], result) < |result|
      ensures i >= |line| ==> LastDep(g[longer[i]], result + [c]) == |result|
    {
      if i < |line| {
        LineStays(g, result, queue, c, i);
      } else {
        assert longer[i] in batch;
        BatchCompletes(g, adj, result, c, longer[i]);
        HeadReady(g, result + [c], longer[i]);
      }
    }
    forall i, j | 0 <= i < j < |longer|
      ensures CompletesFirst(g, result + [c], longer[i], longer[j])
    {
      if j < |line| {
        assert CompletesFirst(g, result, line[i], line[j]);
      } else if i >= |line| {
        assert Leq(batch[i - |line|], batch[j - |line|]);
      }
    }
  }

  /** First-in first-out, each batch of newly ready plugins sorted. */
  method KahnFifo(ids: seq<string>, g: Graph) returns (order: seq<string>, ghost degrees: Degrees)
    requires Closed(g) && Distinct(ids) && forall x :: x in ids <==> x in g
    ensures KahnInv(g, degrees, order, []) && IsFifo(g, order)
  {
    hide KahnInv, EdgesOk, OnlyNodes, Sort, InLine;
    var inDegree, adj := BuildEdges(ids, g);
    var queue := Roots(ids, g, inDegree);
    SortMembers(queue);
    queue := Sort(queue);
    KahnStart(g, inDegree, queue);
    RootsInLine(g, queue);
    order := [];
    while queue != []
      invariant KahnInv(g, inDegree, order, queue) && InLine(g, order, queue)
      decreases |g| - |order|
    {
      var curr := queue[0];
      RelaxReady(g, adj, inDegree, order, queue);
      var relaxed, eligible := Relax(adj[curr], inDegree);
      SortMembers(eligible);
      var batch := Sort(eligible);
      FreshEligible(g, adj, inDegree, order, queue, relaxed, batch);
      KahnStep(g, adj, inDegree, order, queue, relaxed, batch, queue[1..] + batch);
      BatchInLine(g, adj, inDegree, relaxed, order, queue, batch);
      ResultFits(g, relaxed, order + [curr], queue[1..] + batch);
      order, inDegree, queue := order + [curr], relaxed, queue[1..] + batch;
    }
    degrees := inDegree;
    LineIsFifo(g, order);
  }

  /** The startup order: a permutation with dependencies first; after the checks it fails exactly on cycles. */
  method ResolveOrder(ms: seq<Manifest>) returns (r: Result<seq<string>, Error>, ghost cycle: seq<string>)
    ensures r.Ok? <==> Startable(ms)
    ensures r.Ok? ==> IsTopo(GraphOf(ms), r.value) && IsFifo(GraphOf(ms), r.value)
    ensures r.Err? ==> Explains(ms, r.error)
    ensures r.Err? && r.error.CyclicDependency? ==> IsCycle(GraphOf(ms), cycle)
  {
    hide PluginsOk, ManifestOk, NoActiveConflict, GraphOf, IsTopo, IsFifo, IsCycle, KahnInv, Sort;
    cycle := [];
    var fault, g, ids := EnterPlugins(ms);
    if fault.Some? {
      r := Err(fault.value);
      return;
    }
    var clash := FindConflict(ms, g);
    if clash.Some? {
      r := Err(PluginConflict(clash.value.0, clash.value.1));
      return;
    }
    var missing := FindListed(ids, g, g, false);
    if missing.Some? {
      MissingMeans(ms, missing.value.0, missing.value.1);
      r := Err(MissingDependency(missing.value.0, missing.value.1));
      return;
    }
    var order, degrees := KahnFifo(ids, g);
    IdsAreNodes(ids, g);
    if |order| != |ids| {
      r := Err(CyclicDependency);
      cycle := StuckHasCycle(g, degrees, order);
      return;
    }
    KahnFull(g, degrees, order, []);
    TopoIsAcyclic(g, order);
    r := Ok(order);
  }

  lemma IdsAreNodes(ids: seq<string>, g: Graph)
    requires Distinct(ids) && forall x :: x in ids <==> x in g
    ensures |ids| == |g|
  {
    DistinctSize(ids);
    assert Elements(ids) == g.Keys;
  }

  // ----- the result does not depend on the input order

  lemma SamePluginsOk(ms: seq<Manifest>, ms': seq<Manifest>)
    requires multiset(ms) == multiset(ms') && PluginsOk(ms)
    ensures PluginsOk(ms')
  {
    hide ManifestOk;
    assert Distinct(ms);
    DistinctCounts(ms);
    forall x | x in ms'
      ensures x in multiset(ms') && x in ms
    {
      assert x in multiset(ms);
    }
    CountsDistinct(ms');
    forall i | 0 <= i < |ms'|
      ensures ManifestOk(ms'[i])
    {
      assert ms'[i] in ms;
    }
    forall i, j | 0 <= i < j < |ms'|
      ensures ms'[i].id != ms'[j].id
    {
      assert ms'[i] in ms && ms'[j] in ms;
      var a :| 0 <= a < |ms| && ms[a] == ms'[i];
      var b :| 0 <= b < |ms| && ms[b] == ms'[j];
    }
  }

  lemma SameGraph(ms: seq<Manifest>, ms': seq<Manifest>)
    requires multiset(ms) == multiset(ms') && PluginsOk(ms) && PluginsOk(ms')
    ensures forall x :: x in GraphOf(ms) ==> x in GraphOf(ms') && GraphOf(ms)[x] == GraphOf(ms')[x]
  {
    hide GraphOf, ManifestOk;
    GraphLookup(ms, |ms|);
    GraphLookup(ms', |ms'|);
    assert ms[..|ms|] == ms && ms'[..|ms'|] == ms';
    forall x | x in GraphOf(ms)
      ensures x in GraphOf(ms') && GraphOf(ms)[x] == GraphOf(ms')[x]
    {
      var i :| 0 <= i < |ms| && ms[i].id == x;
      assert ms[i] in multiset(ms');
      var j :| 0 <= j < |ms'| && ms'[j] == ms[i];
    }
  }

  /** Permuting the manifests changes neither whether they resolve nor the graph they declare. */
  lemma SameResolution(ms: seq<Manifest>, ms': seq<Manifest>)
    requires multiset(ms) == multiset(ms') && Startable(ms)
    ensures Startable(ms') && GraphOf(ms') == GraphOf(ms)
  {
    hide PluginsOk, GraphOf, Closed, Acyclic;
    SamePluginsOk(ms, ms');
    SameGraph(ms, ms');
    SameGraph(ms', ms);
    assert GraphOf(ms) == GraphOf(ms');
    forall i, c | 0 <= i < |ms'| && c in ms'[i].conflicts
      ensures c !in GraphOf(ms')
    {
      assert ms'[i] in multiset(ms);
      var j :| 0 <= j < |ms| && ms[j] == ms'[i];
    }
  }

  /** So the startup order is a function of the set of plugins alone. */
  lemma InputOrderIrrelevant(ms: seq<Manifest>, ms': seq<Manifest>, a: seq<string>)
    requires multiset(ms) == multiset(ms') && Startable(ms)
    requires IsTopo(GraphOf(ms), a) && IsFifo(GraphOf(ms), a)
    ensures Startable(ms')
    ensures forall b :: IsTopo(GraphOf(ms'), b) && IsFifo(GraphOf(ms'), b) <==> b == a
  {
    hide Startable, GraphOf, IsTopo, IsFifo;
    SameResolution(ms, ms');
    forall b | IsTopo(GraphOf(ms'), b) && IsFifo(GraphOf(ms'), b)
      ensures b == a
    {
      FifoIsUnique(GraphOf(ms), a, b);
    }
  }
}
