/** Module initialization order: validation, depth-first cycle check, then a sorted Kahn pass. */
module ModuleOrder {
  import opened Prelude
  import opened Text
  import opened DependencyGraph
  import opened Kahn

  datatype Manifest = Manifest(id: string, version: string, dependencies: seq<string>, conflicts: seq<string>)

  datatype Error =
    | NilModule
    | EmptyModuleId
    | InvalidModuleId(id: string)
    | EmptyModuleVersion(id: string)
    | DuplicateModuleId(id: string)
    | SelfDependency(id: string)
    | DuplicateDependency(id: string)
    | SelfConflict(id: string)
    | DuplicateConflict(id: string)
    | UnknownDependency(id: string, dep: string)
    | ActiveConflict(id: string, other: string)
    | CycleDetected(path: seq<string>)
    | Unresolved

  // ----- names

  predicate LowerOrDigit(c: char) {
    'a' <= c <= 'z' || '0' <= c <= '9'
  }

  /** ^[a-z0-9][a-z0-9_-]*$ */
  predicate ValidId(id: string) {
    && |id| > 0 && LowerOrDigit(id[0])
    && forall i :: 0 <= i < |id| ==> LowerOrDigit(id[i]) || id[i] == '_' || id[i] == '-'
  }

  /** The trimmed, non-empty names, in order. */
  function Clean(names: seq<string>): seq<string> {
    if names == [] then []
    else
      var n := |names| - 1;
      Clean(names[..n]) + (if Trim(names[n]) == "" then [] else [Trim(names[n])])
  }

  datatype NameFault = NoFault | NamesSelf | Repeats

  /** Collects the clean names, stopping at a self-reference or a repetition. */
  method CollectNames(id: string, names: seq<string>) returns (clean: seq<string>, fault: NameFault)
    ensures fault.NoFault? <==> id !in Clean(names) && Distinct(Clean(names))
    ensures fault.NoFault? ==> clean == Clean(names)
    ensures fault.NamesSelf? ==> id in Clean(names)
    ensures fault.Repeats? ==> !Distinct(Clean(names))
  {
    hide Trim;
    clean := [];
    var k := 0;
    while k < |names|
      invariant k <= |names| && clean == Clean(names[..k]) && id !in clean && Distinct(clean)
    {
      var name := Trim(names[k]);
      CleanStep(names, k);
      if name != "" {
        if name == id || name in clean {
          CleanPrefix(names, k + 1);
          RepeatStays(clean, name, Clean(names));
          return clean, if name == id then NamesSelf else Repeats;
        }
        clean := clean + [name];
      }
      k := k + 1;
    }
    assert names[..k] == names;
    fault := NoFault;
  }

  lemma CleanStep(names: seq<string>, k: nat)
    requires k < |names|
    ensures Clean(names[..k + 1]) == Clean(names[..k]) + (if Trim(names[k]) == "" then [] else [Trim(names[k])])
  {
    assert names[..k + 1][..k] == names[..k];
  }

  lemma {:induction false} CleanPrefix(names: seq<string>, k: nat)
    requires k <= |names|
    ensures Clean(names[..k]) <= Clean(names)
    decreases |names| - k
  {
    if k == |names| {
      assert names[..k] == names;
    } else {
      CleanStep(names, k);
      CleanPrefix(names, k + 1);
    }
  }

  lemma RepeatStays(clean: seq<string>, name: string, all: seq<string>)
    requires clean + [name] <= all
    ensures name in all && (name in clean ==> !Distinct(all))
  {
    assert all[|clean|] == name;
    if name in clean {
      var i :| 0 <= i < |clean| && clean[i] == name;
      assert all[i] == name;
    }
  }

  // ----- what a valid module list is

  ghost predicate IdentityOk(m: Manifest) {
    ValidId(Trim(m.id)) && m.version != ""
  }

  ghost predicate NamesOk(m: Manifest) {
    && Trim(m.id) !in Clean(m.dependencies) && Distinct(Clean(m.dependencies))
    && Trim(m.id) !in Clean(m.conflicts) && Distinct(Clean(m.conflicts))
  }

  ghost predicate ManifestOk(m: Manifest) {
    IdentityOk(m) && NamesOk(m)
  }

  ghost predicate ModulesOk(ms: seq<Option<Manifest>>) {
    && (forall i :: 0 <= i < |ms| ==> ms[i].Some? && ManifestOk(ms[i].value))
    && (forall i, j :: 0 <= i < j < |ms| ==> Trim(ms[i].value.id) != Trim(ms[j].value.id))
  }

  /** The dependency graph a list of modules declares. */
  ghost function GraphOf(ms: seq<Option<Manifest>>): Graph {
    if ms == [] then map[]
    else
      var n := |ms| - 1;
      if ms[n].None? then GraphOf(ms[..n])
      else GraphOf(ms[..n])[Trim(ms[n].value.id) := Sort(Clean(ms[n].value.dependencies))]
  }

  ghost function ConflictsOf(ms: seq<Option<Manifest>>): Graph {
    if ms == [] then map[]
    else
      var n := |ms| - 1;
      if ms[n].None? then ConflictsOf(ms[..n])
      else ConflictsOf(ms[..n])[Trim(ms[n].value.id) := Sort(Clean(ms[n].value.conflicts))]
  }

  ghost predicate NoActiveConflict(ms: seq<Option<Manifest>>) {
    forall x, c :: x in ConflictsOf(ms) && c in ConflictsOf(ms)[x] ==> c !in GraphOf(ms)
  }

  /** Exactly when initialization order exists. */
  ghost predicate Resolvable(ms: seq<Option<Manifest>>) {
    ModulesOk(ms) && Closed(GraphOf(ms)) && NoActiveConflict(ms) && Acyclic(GraphOf(ms))
  }

  // ----- phase 1: validation

  lemma GraphStep(ms: seq<Option<Manifest>>, k: nat)
    requires k < |ms| && ms[k].Some?
    ensures GraphOf(ms[..k + 1]) == GraphOf(ms[..k])[Trim(ms[k].value.id) := Sort(Clean(ms[k].value.dependencies))]
    ensures ConflictsOf(ms[..k + 1]) == ConflictsOf(ms[..k])[Trim(ms[k].value.id) := Sort(Clean(ms[k].value.conflicts))]
  {
    hide Trim, Clean, Sort;
    assert ms[..k + 1][..k] == ms[..k];
  }

  lemma {:induction false} GraphKeys(ms: seq<Option<Manifest>>, k: nat)
    requires k <= |ms| && forall i :: 0 <= i < k ==> ms[i].Some?
    ensures GraphOf(ms[..k]).Keys == ConflictsOf(ms[..k]).Keys == (set i | 0 <= i < k :: Trim(ms[i].value.id))
    decreases k
  {
    hide Trim, Clean, Sort;
    if k > 0 {
      GraphKeys(ms, k - 1);
      GraphStep(ms, k - 1);
    }
  }

  /** The first k modules are valid and have been entered in both tables. */
  ghost predicate Entered(ms: seq<Option<Manifest>>, k: nat, deps: Graph, conflicts: Graph)
    requires k <= |ms|
  {
    && ModulesOk(ms[..k]) && deps == GraphOf(ms[..k]) && conflicts == ConflictsOf(ms[..k])
  }

  lemma EnterOk(ms: seq<Option<Manifest>>, k: nat, deps: Graph, conflicts: Graph)
    requires k < |ms| && Entered(ms, k, deps, conflicts) && ms[k].Some?
    ensures Trim(ms[k].value.id) !in deps && ManifestOk(ms[k].value) ==>
              Entered(ms, k + 1, deps[Trim(ms[k].value.id) := Sort(Clean(ms[k].value.dependencies))],
                      conflicts[Trim(ms[k].value.id) := Sort(Clean(ms[k].value.conflicts))])
    ensures Trim(ms[k].value.id) in deps ==> !ModulesOk(ms)
  {
    hide Trim, Clean, Sort, ManifestOk;
    var id := Trim(ms[k].value.id);
    assert forall i :: 0 <= i < k ==> ms[..k][i] == ms[i];
    GraphKeys(ms, k);
    GraphStep(ms, k);
    if id !in deps {
      assert forall i :: 0 <= i < k ==> Trim(ms[i].value.id) != id;
    } else {
      var i :| 0 <= i < k && Trim(ms[i].value.id) == id;
      assert !(Trim(ms[i].value.id) != Trim(ms[k].value.id));
    }
  }

  lemma BadModule(ms: seq<Option<Manifest>>, k: nat)
    requires k < |ms| && (ms[k].None? || !ManifestOk(ms[k].value))
    ensures !ModulesOk(ms)
  {
    hide ManifestOk;
    assert !(ms[k].Some? && ManifestOk(ms[k].value));
  }

  /** What an error says about one manifest. */
  ghost predicate Blames(m: Manifest, e: Error) {
    match e
    case EmptyModuleId => Trim(m.id) == ""
    case InvalidModuleId(id) => Trim(m.id) == id && id != "" && !ValidId(id)
    case EmptyModuleVersion(id) => Trim(m.id) == id && ValidId(id) && m.version == ""
    case SelfDependency(id) => Trim(m.id) == id && id in Clean(m.dependencies)
    case DuplicateDependency(id) => Trim(m.id) == id && !Distinct(Clean(m.dependencies))
    case SelfConflict(id) => Trim(m.id) == id && id in Clean(m.conflicts)
    case DuplicateConflict(id) => Trim(m.id) == id && !Distinct(Clean(m.conflicts))
    case _ => false
  }

  ghost predicate HasId(ms: seq<Option<Manifest>>, i: nat, id: string) {
    i < |ms| && ms[i].Some? && Trim(ms[i].value.id) == id
  }

  /** The error is true of the modules. */
  ghost predicate Explains(ms: seq<Option<Manifest>>, e: Error) {
    match e
    case NilModule => exists i :: 0 <= i < |ms| && ms[i].None?
    case DuplicateModuleId(id) => exists i, j :: 0 <= i < j && HasId(ms, i, id) && HasId(ms, j, id)
    case UnknownDependency(id, dep) =>
      && (exists i :: 0 <= i && HasId(ms, i, id) && dep in Clean(ms[i].value.dependencies))
      && (forall j :: 0 <= j ==> !HasId(ms, j, dep))
    case ActiveConflict(id, other) =>
      && (exists i :: 0 <= i && HasId(ms, i, id) && other in Clean(ms[i].value.conflicts))
      && (exists j :: 0 <= j && HasId(ms, j, other))
    case CycleDetected(path) => IsCycle(GraphOf(ms), path)
    case Unresolved => false
    case _ => exists i :: 0 <= i < |ms| && ms[i].Some? && Blames(ms[i].value, e)
  }

  predicate IsManifestError(e: Error) {
    !e.UnknownDependency? && !e.ActiveConflict? && !e.CycleDetected? && !e.Unresolved?
  }

  method CheckIdentity(m: Manifest) returns (fault: Option<Error>)
    ensures fault.None? <==> IdentityOk(m)
    ensures fault.Some? ==> IsManifestError(fault.value) && Blames(m, fault.value)
  {
    hide Clean;
    var id := Trim(m.id);
    if id == "" {
      return Some(EmptyModuleId);
    }
    if !ValidId(id) {
      return Some(InvalidModuleId(id));
    }
    if m.version == "" {
      return Some(EmptyModuleVersion(id));
    }
    return None;
  }

  /** Checks and sorts the dependency and conflict lists. */
  method CheckNames(m: Manifest) returns (fault: Option<Error>, deps: seq<string>, conflicts: seq<string>)
    ensures fault.None? <==> NamesOk(m)
    ensures fault.None? ==> deps == Sort(Clean(m.dependencies)) && conflicts == Sort(Clean(m.conflicts))
    ensures fault.Some? ==> IsManifestError(fault.value) && Blames(m, fault.value)
  {
    hide Trim, Clean, Sort;
    deps, conflicts := [], [];
    var id := Trim(m.id);
    var clean, nameFault := CollectNames(id, m.dependencies);
    if !nameFault.NoFault? {
      return Some(if nameFault.NamesSelf? then SelfDependency(id) else DuplicateDependency(id)), deps, conflicts;
    }
    deps := Sort(clean);
    clean, nameFault := CollectNames(id, m.conflicts);
    if !nameFault.NoFault? {
      return Some(if nameFault.NamesSelf? then SelfConflict(id) else DuplicateConflict(id)), deps, conflicts;
    }
    conflicts := Sort(clean);
    fault := None;
  }

  method EnterModules(ms: seq<Option<Manifest>>) returns (fault: Option<Error>, deps: Graph, conflicts: Graph)
    ensures fault.None? <==> ModulesOk(ms)
    ensures fault.None? ==> deps == GraphOf(ms) && conflicts == ConflictsOf(ms)
    ensures fault.Some? ==> IsManifestError(fault.value) && Explains(ms, fault.value)
  {
    hide IdentityOk, NamesOk, Trim, Clean, Sort, GraphOf, ConflictsOf, Blames;
    deps, conflicts := map[], map[];
    var k := 0;
    NothingEntered(ms);
    while k < |ms|
      invariant k <= |ms| && Entered(ms, k, deps, conflicts)
    {
      if ms[k].None? {
        BadModule(ms, k);
        return Some(NilModule), deps, conflicts;
      }
      var m := ms[k].value;
      var id, bad := Trim(m.id), None;
      EnterOk(ms, k, deps, conflicts);
      bad := CheckIdentity(m);
      if bad.Some? {
        BadModule(ms, k);
        BlamedModule(ms, k, bad.value);
        return bad, deps, conflicts;
      }
      if id in deps {
        RepeatedModule(ms, k, deps, conflicts);
        return Some(DuplicateModuleId(id)), deps, conflicts;
      }
      var d, c;
      bad, d, c := CheckNames(m);
      if bad.Some? {
        BadModule(ms, k);
        BlamedModule(ms, k, bad.value);
        return bad, deps, conflicts;
      }
      deps, conflicts := deps[id := d], conflicts[id := c];
      k := k + 1;
    }
    assert ms[..k] == ms;
    fault := None;
  }

  lemma BlamedModule(ms: seq<Option<Manifest>>, k: nat, e: Error)
    requires k < |ms| && ms[k].Some? && Blames(ms[k].value, e)
    ensures Explains(ms, e)
  {
    hide Trim, Clean;
  }

  lemma RepeatedModule(ms: seq<Option<Manifest>>, k: nat, deps: Graph, conflicts: Graph)
    requires k < |ms| && Entered(ms, k, deps, conflicts) && ms[k].Some? && Trim(ms[k].value.id) in deps
    ensures Explains(ms, DuplicateModuleId(Trim(ms[k].value.id)))
  {
    hide Trim, Clean, Sort, ManifestOk;
    var id := Trim(ms[k].value.id);
    assert forall i :: 0 <= i < k ==> ms[..k][i] == ms[i];
    GraphKeys(ms, k);
    var i :| 0 <= i < k && Trim(ms[i].value.id) == id;
    assert HasId(ms, i, id) && HasId(ms, k, id);
  }

  lemma NothingEntered(ms: seq<Option<Manifest>>)
    ensures Entered(ms, 0, map[], map[])
  {
    assert ms[..0] == [];
  }

  // ----- phase 3: depth-first cycle check

  datatype Mark = Visiting | Visited

  /** The path is a dependency walk of the nodes being visited; finished nodes come after their dependencies. */
  ghost predicate DfsInv(g: Graph, state: map<string, Mark>, path: seq<string>, finished: seq<string>) {
    && state.Keys <= g.Keys
    && (forall x :: x in path <==> x in state && state[x].Visiting?)
    && (forall x :: x in finished <==> x in state && state[x].Visited?)
    && Distinct(path) && Distinct(finished)
    && (forall i :: 0 <= i < |path| - 1 ==> path[i] in g && path[i + 1] in g[path[i]])
    && (forall i, d :: 0 <= i < |finished| && finished[i] in g && d in g[finished[i]] ==> d in finished[..i])
  }

  lemma DfsPush(g: Graph, state: map<string, Mark>, path: seq<string>, finished: seq<string>, curr: string)
    requires DfsInv(g, state, path, finished) && curr in g && curr !in state
    requires path != [] ==> path[|path| - 1] in g && curr in g[path[|path| - 1]]
    ensures DfsInv(g, state[curr := Visiting], path + [curr], finished)
  {
  }

  lemma DfsPop(g: Graph, state: map<string, Mark>, path: seq<string>, finished: seq<string>, curr: string)
    requires DfsInv(g, state, path + [curr], finished) && curr in g
    requires forall d :: d in g[curr] ==> d in state && state[d].Visited?
    ensures DfsInv(g, state[curr := Visited], path, finished + [curr])
  {
    var p := path + [curr];
    assert p[|path|] == curr && curr in p;
    assert curr !in finished;
    forall x
      ensures x in path <==> x in p && x != curr
    {
      if x in path {
        var i :| 0 <= i < |path| && path[i] == x;
        assert p[i] == x;
      }
    }
    forall i | 0 <= i < |path| - 1
      ensures path[i] in g && path[i + 1] in g[path[i]]
    {
      assert p[i] in g && p[i + 1] in g[p[i]];
    }
    forall i, j | 0 <= i < j < |path|
      ensures path[i] != path[j]
    {
      assert p[i] != p[j];
    }
    forall i, d | 0 <= i < |finished + [curr]| && (finished + [curr])[i] in g && d in g[(finished + [curr])[i]]
      ensures d in (finished + [curr])[..i]
    {
      assert (finished + [curr])[..i] == if i < |finished| then finished[..i] else finished;
    }
  }

  /** The walk from an earlier path node back to itself. */
  lemma DfsCycle(g: Graph, state: map<string, Mark>, path: seq<string>, finished: seq<string>, next: string, start: nat)
    requires DfsInv(g, state, path, finished) && start < |path| && path[start] == next
    requires path[|path| - 1] in g && next in g[path[|path| - 1]]
    ensures IsCycle(g, path[start..] + [next])
  {
    WalkBack(g, path, start);
  }

  /** Visits curr and everything below it; returns a cycle if it meets one. */
  method Dfs(g: Graph, curr: string, before: map<string, Mark>, path: seq<string>, ghost finishedBefore: seq<string>)
    returns (state: map<string, Mark>, cycle: Option<seq<string>>, ghost finished: seq<string>)
    requires Closed(g) && curr in g && curr !in before && DfsInv(g, before, path, finishedBefore)
    requires path != [] ==> path[|path| - 1] in g && curr in g[path[|path| - 1]]
    ensures cycle.Some? ==> IsCycle(g, cycle.value)
    ensures cycle.None? ==> DfsInv(g, state, path, finished) && curr in state && state[curr].Visited?
    ensures cycle.None? ==> before.Keys <= state.Keys && forall x :: x in before ==> state[x] == before[x]
    decreases g.Keys - before.Keys
  {
    hide DfsInv;
    DfsPush(g, before, path, finishedBefore, curr);
    state, finished := before[curr := Visiting], finishedBefore;
    var here := path + [curr];
    var k := 0;
    while k < |g[curr]|
      invariant k <= |g[curr]| && DfsInv(g, state, here, finished)
      invariant before.Keys + {curr} <= state.Keys && state[curr] == Visiting && forall x :: x in before ==> state[x] == before[x]
      invariant forall i :: 0 <= i < k ==> g[curr][i] in state && state[g[curr][i]].Visited?
    {
      var next := g[curr][k];
      assert next in g[curr];
      if next in state && state[next].Visiting? {
        OnPath(g, state, here, finished, next);
        var start := PathIndex(here, next);
        DfsCycle(g, state, here, finished, next, start);
        cycle := Some(here[start..] + [next]);
        return;
      }
      if next !in state {
        InGraph(g, state, here, finished);
        ghost var seen := state;
        state, cycle, finished := Dfs(g, next, state, here, finished);
        if cycle.Some? {
          return;
        }
      }
      k := k + 1;
    }
    DfsPop(g, state, path, finished, curr);
    state, finished := state[curr := Visited], finished + [curr];
    cycle := None;
  }

  lemma OnPath(g: Graph, state: map<string, Mark>, path: seq<string>, finished: seq<string>, x: string)
    requires DfsInv(g, state, path, finished) && x in state && state[x].Visiting?
    ensures x in path
  {
  }

  lemma InGraph(g: Graph, state: map<string, Mark>, path: seq<string>, finished: seq<string>)
    requires DfsInv(g, state, path, finished)
    ensures state.Keys <= g.Keys
  {
  }

  method PathIndex(path: seq<string>, x: string) returns (i: nat)
    requires x in path
    ensures i < |path| && path[i] == x
  {
    i := 0;
    while path[i] != x
      invariant i < |path| && x in path[i..]
      decreases |path| - i
    {
      assert path[i..] == [path[i]] + path[i + 1..];
      i := i + 1;
    }
  }

  /** Succeeds exactly on acyclic graphs; a failure comes with a cycle. */
  method CheckCycles(ids: seq<string>, g: Graph) returns (cycle: Option<seq<string>>, ghost order: seq<string>)
    requires Closed(g) && forall x :: x in ids <==> x in g
    ensures cycle.Some? ==> IsCycle(g, cycle.value)
    ensures cycle.None? ==> IsTopo(g, order)
  {
    var state: map<string, Mark> := map[];
    order := [];
    var k := 0;
    while k < |ids|
      invariant k <= |ids| && DfsInv(g, state, [], order)
      invariant forall i :: 0 <= i < k ==> ids[i] in state
    {
      if ids[k] !in state {
        state, cycle, order := Dfs(g, ids[k], state, [], order);
        if cycle.Some? {
          return;
        }
      }
      k := k + 1;
    }
    cycle := None;
    forall x
      ensures x in order <==> x in g
    {
      if x in g {
        assert x in ids;
        assert x !in [];
      }
    }
  }

  // ----- phase 4: Kahn with a sorted ready queue

  lemma SortedQueue(g: Graph, done: set<string>, queue: seq<string>)
    requires Ascending(queue) && |queue| > 0 && forall x :: x in queue <==> x in Ready(g, done)
    ensures queue[0] in Ready(g, done) && forall x :: x in Ready(g, done) ==> Leq(queue[0], x)
  {
    forall x | x in Ready(g, done)
      ensures Leq(queue[0], x)
    {
      var i :| 0 <= i < |queue| && queue[i] == x;
      LeqTotal(queue[0], queue[0], 0);
    }
  }

  lemma GreedyStep(g: Graph, result: seq<string>, c: string)
    requires IsGreedy(g, result) && c in Ready(g, Elements(result))
    requires forall x :: x in Ready(g, Elements(result)) ==> Leq(c, x)
    ensures IsGreedy(g, result + [c])
  {
    var r := result + [c];
    forall i | 0 <= i < |r|
      ensures r[i] in Ready(g, Elements(r[..i])) && forall x :: x in Ready(g, Elements(r[..i])) ==> Leq(r[i], x)
    {
      assert r[..i] == if i < |result| then result[..i] else result;
    }
  }

  method KahnSorted(ids: seq<string>, g: Graph) returns (result: seq<string>, ghost degrees: Degrees)
    requires Closed(g) && Distinct(ids) && forall x :: x in ids <==> x in g
    ensures KahnInv(g, degrees, result, []) && IsGreedy(g, result)
  {
    hide KahnInv, EdgesOk, OnlyNodes, IsGreedy, Sort;
    var inDegree, dependents := BuildEdges(ids, g);
    var queue := Roots(ids, g, inDegree);
    SortMembers(queue);
    queue := Sort(queue);
    KahnStart(g, inDegree, queue);
    result := [];
    EmptyGreedy(g);
    while queue != []
      invariant KahnInv(g, inDegree, result, queue) && IsGreedy(g, result) && Ascending(queue)
      decreases |g| - |result|
    {
      var curr := queue[0];
      QueueFacts(g, inDegree, result, queue);
      SortedQueue(g, Elements(result), queue);
      GreedyStep(g, result, curr);
      RelaxReady(g, dependents, inDegree, result, queue);
      var relaxed, eligible := Relax(dependents[curr], inDegree);
      FreshEligible(g, dependents, inDegree, result, queue, relaxed, eligible);
      var next := queue[1..] + eligible;
      SortMembers(next);
      KahnStep(g, dependents, inDegree, result, queue, relaxed, eligible, Sort(next));
      ResultFits(g, relaxed, result + [curr], Sort(next));
      result, inDegree, queue := result + [curr], relaxed, Sort(next);
    }
    degrees := inDegree;
  }

  lemma EmptyGreedy(g: Graph)
    ensures IsGreedy(g, [])
  {
  }

  // ----- the whole resolution

  /** The initialization order, or the first fault found. */
  method ResolveOrder(ms: seq<Option<Manifest>>) returns (r: Result<seq<string>, Error>)
    ensures r.Ok? <==> Resolvable(ms)
    ensures r.Ok? ==> IsTopo(GraphOf(ms), r.value) && IsGreedy(GraphOf(ms), r.value)
    ensures r.Err? ==> Explains(ms, r.error)
  {
    hide ModulesOk, GraphOf, ConflictsOf, IsTopo, IsGreedy, KahnInv, IsCycle, Sort, Trim, Clean, HasId;
    var fault, deps, conflicts := EnterModules(ms);
    if fault.Some? {
      return Err(fault.value);
    }
    SameKeys(ms);
    var ids := SortedKeys(deps);
    var missing := FindListed(ids, deps, deps, false);
    if missing.Some? {
      UnknownMeans(ms, missing.value.0, missing.value.1);
      return Err(UnknownDependency(missing.value.0, missing.value.1));
    }
    var clash := FindListed(ids, conflicts, deps, true);
    if clash.Some? {
      ConflictMeans(ms, clash.value.0, clash.value.1);
      return Err(ActiveConflict(clash.value.0, clash.value.1));
    }
    var cycle, order := CheckCycles(ids, deps);
    if cycle.Some? {
      return Err(CycleDetected(cycle.value));
    }
    TopoIsAcyclic(deps, order);
    var result, degrees := KahnSorted(ids, deps);
    KahnComplete(deps, degrees, result, order);
    if |result| != |deps| {
      return Err(Unresolved);
    }
    return Ok(result);
  }

  /** Where a node of the graph comes from. */
  lemma NodeMeans(ms: seq<Option<Manifest>>, x: string) returns (i: nat)
    requires ModulesOk(ms) && x in GraphOf(ms)
    ensures HasId(ms, i, x) && x in ConflictsOf(ms)
    ensures forall d :: d in GraphOf(ms)[x] <==> d in Clean(ms[i].value.dependencies)
    ensures forall d :: d in ConflictsOf(ms)[x] <==> d in Clean(ms[i].value.conflicts)
  {
    hide Trim, Clean, Sort, ManifestOk, GraphOf, ConflictsOf;
    GraphKeys(ms, |ms|);
    assert ms[..|ms|] == ms;
    i :| 0 <= i < |ms| && Trim(ms[i].value.id) == x;
    GraphLookup(ms, |ms|, i);
    SortMembers(Clean(ms[i].value.dependencies));
    SortMembers(Clean(ms[i].value.conflicts));
  }

  lemma ModuleIsNode(ms: seq<Option<Manifest>>, i: nat, x: string)
    requires ModulesOk(ms) && HasId(ms, i, x)
    ensures x in GraphOf(ms)
  {
    hide Trim, Clean, Sort, ManifestOk, GraphOf, ConflictsOf;
    GraphLookup(ms, |ms|, i);
    assert ms[..|ms|] == ms;
  }

  lemma UnknownMeans(ms: seq<Option<Manifest>>, id: string, dep: string)
    requires ModulesOk(ms) && id in GraphOf(ms) && dep in GraphOf(ms)[id] && dep !in GraphOf(ms)
    ensures Explains(ms, UnknownDependency(id, dep))
  {
    hide ModulesOk, Trim, Clean, Sort, GraphOf, ConflictsOf, HasId;
    var i := NodeMeans(ms, id);
    forall j: nat
      ensures !HasId(ms, j, dep)
    {
      if HasId(ms, j, dep) {
        ModuleIsNode(ms, j, dep);
      }
    }
  }

  lemma ConflictMeans(ms: seq<Option<Manifest>>, id: string, other: string)
    requires ModulesOk(ms) && id in ConflictsOf(ms) && other in ConflictsOf(ms)[id] && other in GraphOf(ms)
    ensures Explains(ms, ActiveConflict(id, other))
  {
    hide ModulesOk, Trim, Clean, Sort, GraphOf, ConflictsOf, HasId;
    SameKeys(ms);
    var i := NodeMeans(ms, id);
    var j := NodeMeans(ms, other);
  }

  /** A name occurs in a list, blanks around it aside. */
  ghost predicate Names(names: seq<string>, x: string) {
    x != "" && exists k :: 0 <= k < |names| && Trim(names[k]) == x
  }

  lemma {:induction false} CleanMeans(names: seq<string>, x: string)
    ensures x in Clean(names) <==> Names(names, x)
    decreases |names|
  {
    hide Trim;
    if names != [] {
      var n := |names| - 1;
      CleanMeans(names[..n], x);
      assert forall k :: 0 <= k < n ==> names[..n][k] == names[k];
      if Names(names, x) && Trim(names[n]) != x {
        var k :| 0 <= k < n && Trim(names[k]) == x;
        assert names[..n][k] == names[k];
      }
    }
  }

  /** The order lists every module once, and each after all the modules it names as dependencies. */
  lemma OrderMeans(ms: seq<Option<Manifest>>, order: seq<string>, i: nat)
    requires ModulesOk(ms) && IsTopo(GraphOf(ms), order) && i < |ms|
    ensures |order| == |ms| && Distinct(order) && Trim(ms[i].value.id) in order
    ensures forall b, d :: 0 <= b < |order| && order[b] == Trim(ms[i].value.id) && Names(ms[i].value.dependencies, d) ==> d in order[..b]
  {
    hide Trim, Clean, Sort, GraphOf, ManifestOk, Names;
    GraphLookup(ms, |ms|, i);
    assert ms[..|ms|] == ms;
    SortMembers(Clean(ms[i].value.dependencies));
    forall d
      ensures d in Clean(ms[i].value.dependencies) <==> Names(ms[i].value.dependencies, d)
    {
      CleanMeans(ms[i].value.dependencies, d);
    }
    OrderLength(ms, order);
  }

  lemma OrderLength(ms: seq<Option<Manifest>>, order: seq<string>)
    requires ModulesOk(ms) && IsTopo(GraphOf(ms), order)
    ensures |order| == |ms|
  {
    hide Trim, Clean, Sort, GraphOf, ManifestOk;
    GraphKeys(ms, |ms|);
    assert ms[..|ms|] == ms;
    var ids := seq(|ms|, i requires 0 <= i < |ms| => Trim(ms[i].value.id));
    assert Distinct(ids);
    DistinctSize(ids);
    DistinctSize(order);
    forall x
      ensures x in ids <==> x in order
    {
      if x in order {
        var i :| 0 <= i < |ms| && Trim(ms[i].value.id) == x;
        assert ids[i] == x;
      }
    }
    assert Elements(ids) == Elements(order);
  }

  /** No module of a resolvable list names another one of it as a conflict, and every dependency is there. */
  lemma ResolvableMeans(ms: seq<Option<Manifest>>, i: nat, d: string)
    requires Resolvable(ms) && i < |ms|
    ensures Names(ms[i].value.conflicts, d) ==> forall j :: 0 <= j < |ms| ==> Trim(ms[j].value.id) != d
    ensures Names(ms[i].value.dependencies, d) ==> exists j :: 0 <= j < |ms| && Trim(ms[j].value.id) == d
  {
    hide Trim, Clean, Sort, GraphOf, ConflictsOf, ManifestOk, Names, Acyclic;
    GraphLookup(ms, |ms|, i);
    GraphKeys(ms, |ms|);
    assert ms[..|ms|] == ms;
    SortMembers(Clean(ms[i].value.dependencies));
    SortMembers(Clean(ms[i].value.conflicts));
    CleanMeans(ms[i].value.conflicts, d);
    CleanMeans(ms[i].value.dependencies, d);
    var x := Trim(ms[i].value.id);
    assert Names(ms[i].value.conflicts, d) ==> x in ConflictsOf(ms) && d in ConflictsOf(ms)[x];
    assert Names(ms[i].value.dependencies, d) ==> x in GraphOf(ms) && d in GraphOf(ms)[x];
    assert d in GraphOf(ms).Keys <==> d in set j | 0 <= j < |ms| :: Trim(ms[j].value.id);
  }

  lemma SameKeys(ms: seq<Option<Manifest>>)
    requires ModulesOk(ms)
    ensures GraphOf(ms).Keys == ConflictsOf(ms).Keys
  {
    GraphKeys(ms, |ms|);
    assert ms[..|ms|] == ms;
  }

  /** The node names in sorted order. */
  method SortedKeys(g: Graph) returns (ids: seq<string>)
    ensures Ascending(ids) && Distinct(ids) && forall x :: x in ids <==> x in g
  {
    hide Sort;
    var todo := g.Keys;
    ids := [];
    while todo != {}
      invariant todo <= g.Keys && Distinct(ids) && forall x :: x in ids <==> x in g && x !in todo
      decreases todo
    {
      var x :| x in todo;
      ids, todo := ids + [x], todo - {x};
    }
    SortMembers(ids);
    ids := Sort(ids);
  }

  // ----- the result does not depend on the input order

  lemma {:induction false} GraphLookup(ms: seq<Option<Manifest>>, k: nat, i: nat)
    requires ModulesOk(ms) && i < k <= |ms|
    ensures Trim(ms[i].value.id) in GraphOf(ms[..k]) && Trim(ms[i].value.id) in ConflictsOf(ms[..k])
    ensures GraphOf(ms[..k])[Trim(ms[i].value.id)] == Sort(Clean(ms[i].value.dependencies))
    ensures ConflictsOf(ms[..k])[Trim(ms[i].value.id)] == Sort(Clean(ms[i].value.conflicts))
    decreases k
  {
    hide Trim, Clean, Sort, ManifestOk, GraphOf, ConflictsOf;
    GraphStep(ms, k - 1);
    if i < k - 1 {
      GraphLookup(ms, k - 1, i);
    }
  }

  lemma SameModulesOk(ms: seq<Option<Manifest>>, ms': seq<Option<Manifest>>)
    requires multiset(ms) == multiset(ms') && ModulesOk(ms)
    ensures ModulesOk(ms')
  {
    hide Trim, Clean, ManifestOk;
    assert Distinct(ms);
    DistinctCounts(ms);
    forall x | x in ms'
      ensures x in multiset(ms') && x in ms
    {
      assert x in multiset(ms);
    }
    CountsDistinct(ms');
    forall i | 0 <= i < |ms'|
      ensures ms'[i].Some? && ManifestOk(ms'[i].value)
    {
      assert ms'[i] in ms;
    }
    forall i, j | 0 <= i < j < |ms'|
      ensures Trim(ms'[i].value.id) != Trim(ms'[j].value.id)
    {
      assert ms'[i] in ms && ms'[j] in ms;
      var a :| 0 <= a < |ms| && ms[a] == ms'[i];
      var b :| 0 <= b < |ms| && ms[b] == ms'[j];
    }
  }

  lemma SameGraph(ms: seq<Option<Manifest>>, ms': seq<Option<Manifest>>)
    requires multiset(ms) == multiset(ms') && ModulesOk(ms) && ModulesOk(ms')
    ensures forall x :: x in GraphOf(ms) ==> x in GraphOf(ms') && GraphOf(ms)[x] == GraphOf(ms')[x]
    ensures forall x :: x in ConflictsOf(ms) ==> x in ConflictsOf(ms') && ConflictsOf(ms)[x] == ConflictsOf(ms')[x]
  {
    hide Trim, Clean, Sort, ManifestOk, GraphOf, ConflictsOf;
    GraphKeys(ms, |ms|);
    assert ms[..|ms|] == ms && ms'[..|ms'|] == ms';
    forall x | x in GraphOf(ms)
      ensures x in GraphOf(ms') && GraphOf(ms)[x] == GraphOf(ms')[x]
      ensures x in ConflictsOf(ms') && x in ConflictsOf(ms) && ConflictsOf(ms)[x] == ConflictsOf(ms')[x]
    {
      var i :| 0 <= i < |ms| && Trim(ms[i].value.id) == x;
      assert ms[i] in multiset(ms');
      var j :| 0 <= j < |ms'| && ms'[j] == ms[i];
      GraphLookup(ms, |ms|, i);
      GraphLookup(ms', |ms'|, j);
    }
  }

  /** Permuting the module list changes neither whether it resolves nor the graph it declares. */
  lemma SameResolution(ms: seq<Option<Manifest>>, ms': seq<Option<Manifest>>)
    requires multiset(ms) == multiset(ms') && Resolvable(ms)
    ensures Resolvable(ms') && GraphOf(ms') == GraphOf(ms)
  {
    hide ModulesOk, GraphOf, ConflictsOf, Closed, Acyclic;
    SameModulesOk(ms, ms');
    SameGraph(ms, ms');
    SameGraph(ms', ms);
    assert GraphOf(ms) == GraphOf(ms') && ConflictsOf(ms) == ConflictsOf(ms');
  }

  /** So the permuted list resolves too, and to the very same order. */
  lemma InputOrderIrrelevant(ms: seq<Option<Manifest>>, ms': seq<Option<Manifest>>, a: seq<string>)
    requires multiset(ms) == multiset(ms') && Resolvable(ms)
    requires IsTopo(GraphOf(ms), a) && IsGreedy(GraphOf(ms), a)
    ensures Resolvable(ms')
    ensures forall b :: IsTopo(GraphOf(ms'), b) && IsGreedy(GraphOf(ms'), b) <==> b == a
  {
    hide Resolvable, GraphOf, IsTopo, IsGreedy;
    SameResolution(ms, ms');
    forall b | IsTopo(GraphOf(ms'), b) && IsGreedy(GraphOf(ms'), b)
      ensures b == a
    {
      LeastIsUnique(GraphOf(ms), a, b);
    }
  }
}
