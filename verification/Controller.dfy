/**
 The admission controller as it runs: fields reassigned in place, scanning loops
 that drop empty owners and classes while they walk, and one deadline heap per
 pool.  Every method is proved to perform the corresponding model operation.
 */
module Controllers {
  import opened Prelude
  import opened Wheels
  import opened IndexedHeaps
  import opened AdmissionTypes
  import Model = AdmissionModel
  import opened AdmissionSchedule
  import opened AdmissionStore
  import opened AdmissionRuns

  type OwnerRing = Model.OwnerRing
  type Pool = Model.Pool
  type Gate = Model.Gate

  /** The first entry of q the gate lets run. */
  method FirstRunnable(g: Gate, q: seq<Entry>) returns (r: Option<nat>)
    ensures r == Model.FirstRunnable(g, q)
  {
    var i := 0;
    while i < |q| && !Model.Runnable(g, q[i])
      invariant i <= |q| && Model.FirstRunnable(g, q) == Model.FirstRunnable(g, q, i)
    {
      i := i + 1;
    }
    return if i < |q| then Some(i) else None;
  }

  lemma ChargedFacts(r: OwnerRing)
    requires |r.wheel.items| > 0
    ensures AtItem(Model.ChargedOwner(r)) && Current(Model.ChargedOwner(r)) in Model.ChargedOwner(r).credit
  {
  }

  /** Arriving at an owner: wrap the cursor and refill spent credit. */
  method ChargeOwner(r: OwnerRing) returns (w: Wheel<string>)
    requires |r.wheel.items| > 0
    ensures w == Model.ChargedOwner(r)
  {
    var owners, cursor, deficits := r.wheel.items, r.wheel.cursor, r.wheel.credit;
    if cursor >= |owners| {
      cursor := 0;
    }
    var owner := owners[cursor];
    var quantum := Get(r.quantums, owner);
    if quantum <= 0 {
      quantum := 1;
    }
    if Get(deficits, owner) <= 0 {
      deficits := deficits[owner := quantum];
    }
    return Wheel(owners, cursor, deficits);
  }

  /** One turn of the owner loop: refill, then drop, pass over or debit the owner under the cursor. */
  method VisitOwner(r: OwnerRing, g: Gate) returns (r': OwnerRing, visit: Model.Visit)
    requires |r.wheel.items| > 0
    ensures (r', visit) == Model.VisitOwner(r, g)
  {
    hide Model.FirstRunnable, Model.Runnable, Model.ChargedOwner;
    ChargedFacts(r);
    var w := ChargeOwner(r);
    var owners, cursor, deficits: map<string, int> := w.items, w.cursor, w.credit;
    var owner := owners[cursor];
    if owner !in r.queues || |r.queues[owner]| == 0 {
      owners := Without(owners, cursor);
      return Model.OwnerRing(Wheel(owners, cursor, deficits - {owner}), r.quantums - {owner}, r.queues - {owner}), Model.Vacant;
    }
    var q := r.queues[owner];
    var max := LimitsOf(g.limits, owner).maxActive;
    if max > 0 && Get(g.activeCount, owner) >= max {
      return r.(wheel := Wheel(owners, cursor + 1, deficits)), Model.Blocked;
    }
    var found := FirstRunnable(g, q);
    if found.None? {
      return r.(wheel := Wheel(owners, cursor + 1, deficits)), Model.Blocked;
    }
    var left := deficits[owner] - 1;
    if left <= 0 || |q| == 1 {
      cursor, left := cursor + 1, 0;
    }
    return r.(wheel := Wheel(owners, cursor, deficits[owner := left])), Model.Hit(q[found.value]);
  }

  /** Walks the owners of a class from the cursor, dropping empty ones, until one can dispatch. */
  method ScanOwners(r: OwnerRing, g: Gate) returns (r': OwnerRing, hit: Option<Entry>)
    ensures (r', hit) == Model.ScanOwners(r, g, |r.wheel.items|)
  {
    hide Model.VisitOwner;
    r' := r;
    var ownerCount, ownerTries := |r.wheel.items|, 0;
    while ownerTries < ownerCount && |r'.wheel.items| > 0
      invariant ownerTries <= ownerCount
      invariant Model.ScanOwners(r, g, |r.wheel.items|) == Model.ScanOwners(r', g, ownerCount - ownerTries)
    {
      var visit;
      r', visit := VisitOwner(r', g);
      if visit.Hit? {
        return r', Some(visit.entry);
      }
      ownerTries := ownerTries + 1;
    }
    hit := None;
  }

  /** One turn of the class loop: refill, then drop, pass over or debit the class under the cursor. */
  method VisitClass(p: Pool, g: Gate) returns (p': Pool, visit: Model.Visit)
    requires |p.wheel.items| > 0
    ensures (p', visit) == Model.VisitClass(p, g)
  {
    hide Model.ScanOwners;
    var classes, cursor, deficits: map<PriorityClass, int> := p.wheel.items, p.wheel.cursor, p.wheel.credit;
    if cursor >= |classes| {
      cursor := 0;
    }
    var cls := classes[cursor];
    if Get(deficits, cls) <= 0 {
      deficits := deficits[cls := ClassQuantum(cls)];
    }
    var ring := if cls in p.rings then p.rings[cls] else Model.EMPTY_RING;
    if |ring.wheel.items| == 0 {
      deficits := deficits[cls := 0];
      classes := Without(classes, cursor);
      return p.(wheel := Wheel(classes, cursor, deficits)), Model.Vacant;
    }
    var ring', found := ScanOwners(ring, g);
    if found.None? {
      return p.(rings := p.rings[cls := ring'], wheel := Wheel(classes, cursor + 1, deficits[cls := 0])), Model.Blocked;
    }
    var left := deficits[cls] - 1;
    if left <= 0 {
      cursor := cursor + 1;
    }
    return p.(rings := p.rings[cls := ring'], wheel := Wheel(classes, cursor, deficits[cls := left])), Model.Hit(found.value);
  }

  lemma SelectUnconfigured(s: Model.State, pool: string, now: Time, eligible: WorkSpec -> bool)
    requires pool !in s.pools
    ensures Model.Select(s, pool, now, eligible) == (s, None)
  {
  }

  /** What remains to be done once the rotation has been computed. */
  lemma SelectOutcome(s: Model.State, pool: string, now: Time, eligible: WorkSpec -> bool, p: Pool, found: Option<Entry>)
    requires StoreOk(s) && pool in s.pools
    requires (p, found) == Model.PickNext(s.pools[pool], Model.Gate(s.limits, s.activeCount, s.locks, now, eligible))
    ensures found.None? ==> Model.Select(s, pool, now, eligible) == (s.(pools := s.pools[pool := p]), None)
    ensures found.Some? ==>
      var (m, e) := (s.(pools := s.pools[pool := p]), found.value);
      && e.spec.pool in m.pools && e.spec.pool in m.deadlines
      && Model.Select(s, pool, now, eligible) == (Model.Activate(Model.Forget(m, e), e.spec), found)
  {
    hide StoreOk, Model.PickNext, Model.Select, Model.Forget, Model.Activate, RightChoice, Model.Runnable, Model.OwnerOpen;
    SelectForm(s, pool, now, eligible);
    if found.Some? {
      ChosenFacts(s, pool, Model.GateOf(s, now, eligible));
    }
  }

  /** Refreshes an owner's cached quantum in every pool. */
  method RefreshPools(before: map<string, Pool>, owner: string, weight: int) returns (pools: map<string, Pool>)
    ensures pools == map p | p in before :: Model.RefreshPool(before[p], owner, weight)
  {
    hide Model.RefreshPool;
    pools := before;
    var todo := pools.Keys;
    while todo != {}
      invariant todo <= pools.Keys && pools.Keys == before.Keys
      invariant forall p :: p in pools ==> pools[p] == if p in todo then before[p] else Model.RefreshPool(before[p], owner, weight)
      decreases todo
    {
      var p :| p in todo;
      pools := pools[p := Model.RefreshPool(pools[p], owner, weight)];
      todo := todo - {p};
    }
  }

  /** Walks the classes of a pool from the cursor, dropping vacant ones, until one can dispatch. */
  method PickNext(p: Pool, g: Gate) returns (p': Pool, hit: Option<Entry>)
    ensures (p', hit) == Model.PickNext(p, g)
  {
    hide Model.VisitClass;
    p' := p;
    var classCount, classTries := |p.wheel.items|, 0;
    while classTries < classCount && |p'.wheel.items| > 0
      invariant classTries <= classCount
      invariant Model.PickNext(p, g) == Model.Pick(p', g, classCount - classTries)
    {
      var visit;
      p', visit := VisitClass(p', g);
      if visit.Hit? {
        return p', Some(visit.entry);
      }
      classTries := classTries + 1;
    }
    hit := None;
  }

  /** One valid deadline heap per pool, none shared. */
  ghost predicate HeapsOk(indexes: map<string, IndexedHeap>)
    reads indexes.Values
  {
    && (forall p :: p in indexes ==> indexes[p].Valid())
    && (forall p, q :: p in indexes && q in indexes && p != q ==> indexes[p] != indexes[q])
  }

  ghost function Deadlines(indexes: map<string, IndexedHeap>): (d: map<string, map<string, Time>>)
    reads indexes.Values
    ensures d.Keys == indexes.Keys
  {
    map p | p in indexes :: indexes[p].contents
  }

  /** Taking an id off one pool's heap changes that pool's deadlines only. */
  method IndexRemove(indexes: map<string, IndexedHeap>, pool: string, id: string)
    requires HeapsOk(indexes) && pool in indexes
    modifies indexes[pool]
    ensures HeapsOk(indexes)
    ensures Deadlines(indexes) == old(Deadlines(indexes))[pool := old(Deadlines(indexes))[pool] - {id}]
  {
    hide IndexedHeap.Valid;
    indexes[pool].Remove(id);
  }

  /** Indexes an entry that has a deadline; the others stay out of the heap. */
  method IndexPut(indexes: map<string, IndexedHeap>, pool: string, spec: WorkSpec)
    requires HeapsOk(indexes) && pool in indexes
    modifies indexes[pool]
    ensures HeapsOk(indexes)
    ensures var d := old(Deadlines(indexes));
            Deadlines(indexes) == d[pool := if spec.deadline.Some? then d[pool][spec.id := spec.deadline.value] else d[pool]]
  {
    hide IndexedHeap.Valid;
    if spec.deadline.Some? {
      indexes[pool].Put(spec.id, spec.deadline.value);
    }
  }

  /** A fresh empty heap for each configured pool. */
  method NewIndexes(configs: map<string, PoolConfig>) returns (indexes: map<string, IndexedHeap>)
    ensures fresh(indexes.Values) && indexes.Keys == configs.Keys && HeapsOk(indexes)
    ensures Deadlines(indexes) == map p | p in configs :: map[]
  {
    hide IndexedHeap.Valid;
    indexes := map[];
    var todo := configs.Keys;
    while todo != {}
      invariant todo <= configs.Keys && indexes.Keys == configs.Keys - todo && HeapsOk(indexes)
      invariant forall p :: p in indexes ==> fresh(indexes[p]) && indexes[p].contents == map[]
      decreases todo
    {
      var p :| p in todo;
      todo := todo - {p};
      var index := new IndexedHeap();
      indexes := indexes[p := index];
    }
  }

  ghost function Ids(items: seq<Item>): (ids: seq<string>)
    ensures |ids| == |items| && forall i :: 0 <= i < |ids| ==> ids[i] == items[i].id
  {
    seq(|items|, i requires 0 <= i < |items| => items[i].id)
  }

  ghost function Prefix(ids: seq<string>, k: nat): set<string>
    requires k <= |ids|
  {
    set i | 0 <= i < k :: ids[i]
  }

  lemma PrefixStep(ids: seq<string>, k: nat)
    requires k < |ids| && Distinct(ids)
    ensures Prefix(ids, k + 1) == Prefix(ids, k) + {ids[k]} && ids[k] !in Prefix(ids, k) && ids[k] in ids
  {
  }

  lemma DueDistinct(due: map<string, Time>, now: Time, ids: seq<string>)
    requires DueList(due, now, ids)
    ensures Distinct(ids)
  {
  }

  /** m is the model state after the first k ids of a sweep of s were forgotten. */
  ghost predicate Sweeping(s: Model.State, m: Model.State, ids: seq<string>, k: nat, pool: string) {
    && k <= |ids| && pool in s.pools && pool in s.deadlines && m.pools.Keys == s.pools.Keys
    && m.deadlines == s.deadlines[pool := s.deadlines[pool] - Prefix(ids, k)]
    && m.taskById == s.taskById - Prefix(ids, k)
    && Model.ForgetAll(m, ids[k..]) == Model.ForgetAll(s, ids)
  }

  lemma SweepStart(s: Model.State, ids: seq<string>, pool: string)
    requires pool in s.pools && pool in s.deadlines
    ensures Sweeping(s, s, ids, 0, pool)
  {
    hide Model.ForgetAll;
    assert Prefix(ids, 0) == {} && ids[0..] == ids;
    assert s.deadlines[pool] - {} == s.deadlines[pool];
    assert s.taskById - {} == s.taskById;
  }

  lemma SweepStep(s: Model.State, m: Model.State, ids: seq<string>, k: nat, pool: string)
    requires Sweeping(s, m, ids, k, pool) && k < |ids| && Distinct(ids)
    requires ids[k] in s.taskById && s.taskById[ids[k]].spec.id == ids[k] && s.taskById[ids[k]].spec.pool == pool
    ensures ids[k] in m.taskById && m.taskById[ids[k]] == s.taskById[ids[k]] && pool in m.pools && pool in m.deadlines
    ensures Sweeping(s, Model.Forget(m, s.taskById[ids[k]]), ids, k + 1, pool)
  {
    hide Model.ForgetInPool;
    PrefixStep(ids, k);
    var m' := Model.Forget(m, s.taskById[ids[k]]);
    assert m.deadlines[pool] - {ids[k]} == s.deadlines[pool] - Prefix(ids, k + 1);
    assert m'.taskById == s.taskById - Prefix(ids, k + 1);
    assert ids[k..][0] == ids[k] && ids[k..][1..] == ids[k + 1..];
  }

  lemma SweepDone(s: Model.State, m: Model.State, ids: seq<string>, pool: string)
    requires Sweeping(s, m, ids, |ids|, pool)
    ensures m == Model.ForgetAll(s, ids)
    ensures m.deadlines == s.deadlines[pool := s.deadlines[pool] - Prefix(ids, |ids|)]
  {
  }

  lemma TasksNamed(s: Model.State, ids: seq<string>)
    requires StoreOk(s) && forall id :: id in ids ==> id in s.taskById
    ensures forall id :: id in ids ==> s.taskById[id].spec.id == id
  {
    hide StoreOk;
    forall id | id in ids
      ensures s.taskById[id].spec.id == id
    {
      StoreHasTasks(s, id);
    }
  }

  lemma NothingSwept(m: Model.State)
    ensures Model.ForgetAll(m, []) == m
  {
  }

  lemma PoppedIsDue(before: map<string, Time>, after: map<string, Time>, items: seq<Item>, now: Time)
    requires Popped(before, after, items, now) && forall id :: id in after ==> after[id] > now
    ensures DueList(before, now, Ids(items))
    ensures after == before - Prefix(Ids(items), |items|)
  {
    var ids := Ids(items);
    forall id | id in before && before[id] <= now
      ensures id in ids
    {
      assert Item(id, before[id]) in items;
      var i :| 0 <= i < |items| && items[i] == Item(id, before[id]);
      assert ids[i] == id;
    }
    forall id | id in ids
      ensures id in before && before[id] <= now && id !in after
    {
      var i :| 0 <= i < |ids| && ids[i] == id;
      assert items[i].id == id;
    }
    forall id
      ensures id in Prefix(ids, |items|) <==> id in ids
    {
    }
  }

  /** Pops the expired items of one pool's heap. */
  method PopHeap(indexes: map<string, IndexedHeap>, pool: string, now: Time) returns (items: seq<Item>)
    requires HeapsOk(indexes) && pool in indexes
    modifies indexes[pool]
    ensures HeapsOk(indexes)
    ensures DueList(old(Deadlines(indexes))[pool], now, Ids(items))
    ensures Deadlines(indexes)[pool] == old(Deadlines(indexes))[pool] - Prefix(Ids(items), |items|)
    ensures Deadlines(indexes) == old(Deadlines(indexes))[pool := Deadlines(indexes)[pool]]
  {
    hide IndexedHeap.Valid, Popped, DueList, Prefix;
    items := indexes[pool].PopExpired(now);
    PoppedIsDue(old(indexes[pool].contents), indexes[pool].contents, items, now);
  }

  class Controller {
    var pools: map<string, Pool>
    var indexes: map<string, IndexedHeap>
    var limits: map<string, OwnerLimits>
    var activeCount: map<string, int>
    var waitingCount: map<string, int>
    var waitingBytes: map<string, int>
    var locks: map<string, string>
    var taskById: map<string, Entry>

    ghost predicate Valid()
      reads this`indexes, this`pools, indexes.Values
    {
      indexes.Keys == pools.Keys && HeapsOk(indexes)
    }

    /** The model state this object stands for. */
    ghost function View(): Model.State
      reads this, indexes.Values
    {
      Model.State(pools, Deadlines(indexes), limits, activeCount, waitingCount, waitingBytes, locks, taskById)
    }

    constructor (configs: map<string, PoolConfig>)
      ensures Valid() && View() == Model.Initial(configs) && fresh(indexes.Values)
    {
      hide HeapsOk, Deadlines;
      var heaps := NewIndexes(configs);
      pools := map p | p in configs :: Model.EmptyPool(configs[p]);
      indexes := heaps;
      limits, activeCount, waitingCount, waitingBytes, locks, taskById := map[], map[], map[], map[], map[], map[];
    }

    /** Whether new work fits the pool's and the owner's quotas. */
    method CanAdmit(spec: WorkSpec, bytes: nat) returns (refusal: Option<Model.Refusal>)
      requires Valid()
      ensures refusal == Model.CanAdmit(View(), spec, bytes)
    {
      if spec.pool !in pools {
        return Some(Model.PoolBacklogFull);
      }
      var p := pools[spec.pool];
      if p.config.backlogLimit > 0 && p.totalWaiting >= p.config.backlogLimit {
        return Some(Model.PoolBacklogFull);
      }
      if p.config.payloadBudget > 0 && p.totalBytes + bytes > p.config.payloadBudget {
        return Some(Model.PayloadBudget);
      }
      var l := LimitsOf(limits, spec.owner);
      if l.maxWaiting > 0 && Get(waitingCount, spec.owner) >= l.maxWaiting {
        return Some(Model.OwnerQueueFull);
      }
      if l.maxPayload > 0 && Get(waitingBytes, spec.owner) + bytes > l.maxPayload {
        return Some(Model.PayloadBudget);
      }
      return None;
    }

    /** Queues the entry, counts it, and puts its class and owner in rotation. */
    method Register(e: Entry)
      requires e.spec.pool in pools
      modifies this`pools, this`waitingCount, this`waitingBytes, this`taskById
      ensures pools == old(pools)[e.spec.pool :=
                Model.EnqueueInPool(old(pools)[e.spec.pool], e, Model.EffectiveWeight(limits, e.spec.owner))]
      ensures waitingCount == Model.Add(old(waitingCount), e.spec.owner, 1)
      ensures waitingBytes == Model.Add(old(waitingBytes), e.spec.owner, e.payload)
      ensures taskById == old(taskById)[e.spec.id := e]
    {
      var p, cls, owner := pools[e.spec.pool], ClassOf(e.spec), e.spec.owner;
      var ring := if cls in p.rings then p.rings[cls] else Model.EMPTY_RING;
      var queue := if owner in ring.queues then ring.queues[owner] else [];
      ring := ring.(queues := ring.queues[owner := queue + [e]]);
      if owner !in ring.wheel.items {
        ring := ring.(wheel := ring.wheel.(items := ring.wheel.items + [owner]));
        if owner !in ring.quantums {
          var weight := LimitsOf(limits, owner).weight;
          if weight <= 0 {
            weight := 1;
          }
          ring := ring.(quantums := ring.quantums[owner := weight]);
        }
      }
      if cls !in p.wheel.items {
        p := p.(wheel := p.wheel.(items := p.wheel.items + [cls]));
      }
      p := p.(rings := p.rings[cls := ring], totalWaiting := p.totalWaiting + 1, totalBytes := p.totalBytes + e.payload);
      pools := pools[e.spec.pool := p];
      waitingCount := waitingCount[owner := Get(waitingCount, owner) + 1];
      waitingBytes := waitingBytes[owner := Get(waitingBytes, owner) + e.payload];
      taskById := taskById[e.spec.id := e];
    }

    /** Adds an admitted entry; work for an unconfigured pool is dropped. */
    method Enqueue(e: Entry)
      requires Valid()
      modifies this, indexes.Values
      ensures Valid() && indexes == old(indexes)
      ensures View() == Model.Enqueue(old(View()), e)
    {
      hide Model.EnqueueInPool, HeapsOk, Deadlines, Model.EffectiveWeight, Model.Add;
      if e.spec.pool !in pools {
        return;
      }
      Register(e);
      IndexPut(indexes, e.spec.pool, e.spec);
    }

    /** Counters that reach zero are deleted. */
    method CompactOwnerCounters(owner: string)
      modifies this`waitingCount, this`waitingBytes, this`activeCount
      ensures waitingCount == Model.Compact(old(waitingCount), owner)
      ensures waitingBytes == Model.Compact(old(waitingBytes), owner)
      ensures activeCount == Model.Compact(old(activeCount), owner)
    {
      if Get(waitingCount, owner) == 0 {
        waitingCount := waitingCount - {owner};
      }
      if Get(waitingBytes, owner) == 0 {
        waitingBytes := waitingBytes - {owner};
      }
      if Get(activeCount, owner) == 0 {
        activeCount := activeCount - {owner};
      }
    }

    /** Takes a waiting entry out of its queue, the totals, the counters and the id table. */
    method Discharge(e: Entry)
      requires e.spec.pool in pools
      modifies this`pools, this`waitingCount, this`waitingBytes, this`activeCount, this`taskById
      ensures pools == old(pools)[e.spec.pool := Model.ForgetInPool(old(pools)[e.spec.pool], e)]
      ensures waitingCount == Model.Compact(Model.Add(old(waitingCount), e.spec.owner, -1), e.spec.owner)
      ensures waitingBytes == Model.Compact(Model.Add(old(waitingBytes), e.spec.owner, 0 - e.payload), e.spec.owner)
      ensures activeCount == Model.Compact(old(activeCount), e.spec.owner)
      ensures taskById == old(taskById) - {e.spec.id}
    {
      hide Model.RemoveId;
      var p, cls, owner := pools[e.spec.pool], ClassOf(e.spec), e.spec.owner;
      var ring := Model.RingOf(p, cls);
      if owner in ring.queues {
        ring := ring.(queues := ring.queues[owner := Model.RemoveId(ring.queues[owner], e.spec.id)]);
      }
      pools := pools[e.spec.pool := p.(rings := p.rings[cls := ring],
                                       totalWaiting := p.totalWaiting - 1,
                                       totalBytes := p.totalBytes - e.payload)];
      waitingCount := waitingCount[owner := Get(waitingCount, owner) - 1];
      waitingBytes := waitingBytes[owner := Get(waitingBytes, owner) - e.payload];
      CompactOwnerCounters(owner);
      taskById := taskById - {e.spec.id};
    }

    /** Takes a waiting entry out of every index. */
    method Forget(e: Entry)
      requires Valid() && e.spec.pool in pools
      modifies this`pools, this`waitingCount, this`waitingBytes, this`activeCount, this`taskById, indexes.Values
      ensures Valid() && View() == Model.Forget(old(View()), e)
    {
      hide HeapsOk, Deadlines, Model.ForgetInPool, Model.Compact, Model.Add;
      Discharge(e);
      IndexRemove(indexes, e.spec.pool, e.spec.id);
    }

    /** Records a dispatch. */
    method Activate(spec: WorkSpec)
      requires Valid()
      modifies this`activeCount, this`locks
      ensures View() == Model.Activate(old(View()), spec)
    {
      hide HeapsOk, Deadlines;
      activeCount := activeCount[spec.owner := Get(activeCount, spec.owner) + 1];
      if spec.orderingKey != "" {
        locks := locks[spec.orderingKey := spec.id];
      }
    }

    /** Takes a waiting entry out of every index and records its dispatch. */
    method Dispatch(e: Entry)
      requires Valid() && e.spec.pool in pools
      modifies this`pools, this`waitingCount, this`waitingBytes, this`activeCount, this`locks, this`taskById, indexes.Values
      ensures e.spec.pool in old(View()).deadlines
      ensures Valid() && View() == Model.Activate(Model.Forget(old(View()), e), e.spec)
    {
      hide HeapsOk, Model.Forget, Model.Activate;
      Forget(e);
      Activate(e.spec);
    }

    /** Picks, removes and activates the next dispatchable entry of a pool. */
    method SelectCandidateEligible(pool: string, now: Time, eligible: WorkSpec -> bool) returns (hit: Option<Entry>)
      requires Valid() && StoreOk(View())
      modifies this`pools, this`waitingCount, this`waitingBytes, this`activeCount, this`locks, this`taskById, indexes.Values
      ensures Valid() && (View(), hit) == Model.Select(old(View()), pool, now, eligible)
    {
      hide StoreOk, HeapsOk, Deadlines, Model.PickNext, Model.Select, Model.Forget, Model.Activate;
      if pool !in pools {
        SelectUnconfigured(View(), pool, now, eligible);
        return None;
      }
      var p, found := PickNext(pools[pool], Model.Gate(limits, activeCount, locks, now, eligible));
      SelectOutcome(View(), pool, now, eligible, p, found);
      pools := pools[pool := p];
      if found.None? {
        return None;
      }
      Dispatch(found.value);
      hit := found;
    }

    /** Gives an ordering key back if the task is its holder. */
    method ReleaseKey(spec: WorkSpec)
      modifies this`locks
      ensures locks == if spec.orderingKey in old(locks) && spec.orderingKey != "" && old(locks)[spec.orderingKey] == spec.id
                       then old(locks) - {spec.orderingKey} else old(locks)
    {
      if spec.orderingKey != "" && spec.orderingKey in locks && locks[spec.orderingKey] == spec.id {
        locks := locks - {spec.orderingKey};
      }
    }

    /** One active task fewer for the owner. */
    method ReleaseSlot(owner: string)
      modifies this`waitingCount, this`waitingBytes, this`activeCount
      ensures waitingCount == Model.Compact(old(waitingCount), owner)
      ensures waitingBytes == Model.Compact(old(waitingBytes), owner)
      ensures activeCount == Model.Compact(
                if Get(old(activeCount), owner) > 0 then Model.Add(old(activeCount), owner, -1) else old(activeCount), owner)
    {
      hide Model.Compact, Get;
      if Get(activeCount, owner) > 0 {
        activeCount := activeCount[owner := Get(activeCount, owner) - 1];
      }
      CompactOwnerCounters(owner);
    }

    /** A dispatched task finished: free its owner slot and its ordering key. */
    method OnTaskTerminal(spec: WorkSpec)
      requires Valid()
      modifies this`activeCount, this`waitingCount, this`waitingBytes, this`locks
      ensures Valid() && View() == Model.Terminal(old(View()), spec)
    {
      hide HeapsOk, Deadlines, Model.Compact, Model.Add, Get;
      ReleaseKey(spec);
      ReleaseSlot(spec.owner);
    }

    /** Cancels a waiting task by id. */
    method RemoveTask(id: string) returns (gone: Option<Entry>)
      requires Valid() && StoreOk(View())
      modifies this`pools, this`waitingCount, this`waitingBytes, this`activeCount, this`taskById, indexes.Values
      ensures Valid() && (View(), gone) == Model.Cancel(old(View()), id)
    {
      hide StoreOk, HeapsOk, Deadlines, Model.Forget;
      if id !in taskById {
        return None;
      }
      StoreHasTasks(View(), id);
      gone := Some(taskById[id]);
      Forget(taskById[id]);
    }

    /** New quotas for an owner; cached quanta are refreshed in every ring that holds the owner. */
    method SetOwnerLimits(owner: string, newLimits: OwnerLimits)
      requires Valid()
      modifies this`limits, this`pools
      ensures Valid() && View() == Model.SetLimits(old(View()), owner, newLimits)
    {
      hide HeapsOk, Deadlines, Model.RefreshPool;
      var l := NormalizeLimits(newLimits);
      limits := limits[owner := l];
      pools := RefreshPools(pools, owner, l.weight);
    }

    /** Takes an entry out of everything but the heap that has already given it up. */
    method DischargeNext(e: Entry, ghost m: Model.State)
      requires Valid() && e.spec.pool in m.pools && e.spec.pool in m.deadlines
      requires View() == m.(deadlines := Deadlines(indexes))
      modifies this`pools, this`waitingCount, this`waitingBytes, this`activeCount, this`taskById
      ensures Valid() && View() == Model.Forget(m, e).(deadlines := Deadlines(indexes))
    {
      hide HeapsOk, Deadlines, Model.ForgetInPool, Model.Compact, Model.Add;
      Discharge(e);
    }

    /** Discharges the entries a heap has just given up. */
    method DischargeAll(items: seq<Item>, pool: string, ghost s: Model.State, ghost ids: seq<string>) returns (expired: seq<Entry>)
      requires Valid() && ids == Ids(items) && Distinct(ids) && Sweeping(s, s, ids, 0, pool)
      requires Deadlines(indexes) == s.deadlines[pool := s.deadlines[pool] - Prefix(ids, |ids|)]
      requires View() == s.(deadlines := Deadlines(indexes))
      requires forall id :: id in ids ==> id in s.taskById && s.taskById[id].spec.id == id && s.taskById[id].spec.pool == pool
      modifies this`pools, this`waitingCount, this`waitingBytes, this`activeCount, this`taskById
      ensures Valid() && View() == Model.ForgetAll(s, ids)
      ensures |expired| == |ids| && forall i :: 0 <= i < |ids| ==> ids[i] in s.taskById && expired[i] == s.taskById[ids[i]]
    {
      hide HeapsOk, Deadlines, Model.Forget, Model.ForgetAll, Sweeping, Prefix;
      expired := [];
      ghost var m := s;
      var k := 0;
      while k < |items|
        invariant k <= |items| && Valid()
        invariant View() == m.(deadlines := Deadlines(indexes)) && Sweeping(s, m, ids, k, pool)
        invariant |expired| == k && forall i :: 0 <= i < k ==> expired[i] == s.taskById[ids[i]]
      {
        SweepStep(s, m, ids, k, pool);
        var e := taskById[items[k].id];
        DischargeNext(e, m);
        m := Model.Forget(m, e);
        expired := expired + [e];
        k := k + 1;
      }
      SweepDone(s, m, ids, pool);
    }

    /** Removes and returns the pool's expired entries, earliest deadline first. */
    method PopExpired(pool: string, now: Time) returns (expired: seq<Entry>, ghost ids: seq<string>)
      requires Valid() && StoreOk(View())
      modifies this, indexes.Values
      ensures Valid() && indexes == old(indexes)
      ensures if pool in old(View()).deadlines then DueList(old(View()).deadlines[pool], now, ids) else ids == []
      ensures View() == Model.ForgetAll(old(View()), ids)
      ensures |expired| == |ids|
      ensures forall i :: 0 <= i < |ids| ==> ids[i] in old(taskById) && expired[i] == old(taskById)[ids[i]]
    {
      hide StoreOk, HeapsOk, Deadlines, DueList, Model.ForgetAll, Sweeping, Prefix;
      ids := [];
      expired := [];
      if pool !in pools {
        NothingSwept(View());
        return;
      }
      ghost var s := View();
      var items := PopHeap(indexes, pool, now);
      ids := Ids(items);
      DueAreWaiting(s, pool, now, ids);
      DueDistinct(s.deadlines[pool], now, ids);
      TasksNamed(s, ids);
      SweepStart(s, ids, pool);
      expired := DischargeAll(items, pool, s, ids);
    }
  }

  /** The earliest queue deadline over all pools. */
  method EarliestDeadline(indexes: map<string, IndexedHeap>) returns (r: Option<Time>)
    requires HeapsOk(indexes)
    ensures r.None? ==> forall p :: p in indexes ==> indexes[p].contents == map[]
    ensures r.Some? ==> exists p, id :: p in indexes && id in indexes[p].contents && indexes[p].contents[id] == r.value
    ensures r.Some? ==> forall p, id :: p in indexes && id in indexes[p].contents ==> r.value <= indexes[p].contents[id]
  {
    hide IndexedHeap.Valid;
    r := None;
    var todo := indexes.Keys;
    while todo != {}
      invariant todo <= indexes.Keys
      invariant r.None? ==> forall p :: p in indexes && p !in todo ==> indexes[p].contents == map[]
      invariant r.Some? ==> exists p, id :: p in indexes && id in indexes[p].contents && indexes[p].contents[id] == r.value
      invariant r.Some? ==> forall p, id :: p in indexes && p !in todo && id in indexes[p].contents ==> r.value <= indexes[p].contents[id]
      decreases todo
    {
      var p :| p in todo;
      todo := todo - {p};
      var top := indexes[p].Peek();
      if top.Some? && (r.None? || top.value.due < r.value) {
        assert top.value.id in indexes[p].contents;
        r := Some(top.value.due);
      }
    }
  }
}
