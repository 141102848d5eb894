/**
 How long an owner waits in all: the class is served at most as often as weight
 was granted to its other owners.  The bound is the only one there is: owners
 that keep arriving can keep a ready owner waiting for any number of selections.
 */
module AdmissionWaiting {
  import opened Prelude
  import opened Wheels
  import opened AdmissionTypes
  import opened AdmissionModel
  import opened AdmissionSchedule
  import opened AdmissionStore
  import opened AdmissionRuns
  import opened AdmissionTheorems
  import opened AdmissionFairness

  // ----- sums over owners

  ghost function Sum(m: map<string, int>): int {
    if |m| == 0 then 0
    else
      var k :| k in m;
      m[k] + Sum(m - {k})
  }

  lemma SumUnfold(m: map<string, int>) returns (k: string)
    requires |m| > 0
    ensures k in m && Sum(m) == m[k] + Sum(m - {k})
  {
    k :| k in m && Sum(m) == m[k] + Sum(m - {k});
  }

  lemma {:induction false} SumSplit(m: map<string, int>, k: string)
    requires k in m
    ensures Sum(m) == m[k] + Sum(m - {k})
    decreases |m|
  {
    hide Sum;
    var j := SumUnfold(m);
    if j != k {
      SumSplit(m - {j}, k);
      SumSplit(m - {k}, j);
      assert m - {j} - {k} == m - {k} - {j};
    }
  }

  lemma SumNone(m: map<string, int>)
    requires |m| == 0
    ensures Sum(m) == 0
  {
  }

  lemma SumAdd(m: map<string, int>, n: map<string, int>, k: string, d: int)
    requires k in m && n == m[k := m[k] + d]
    ensures Sum(n) == Sum(m) + d
  {
    hide Sum;
    SumSplit(m, k);
    SumSplit(n, k);
    assert n - {k} == m - {k};
  }

  /** Entry by entry no more, where what has no counterpart adds nothing. */
  lemma {:induction false} SumWithin(a: map<string, int>, b: map<string, int>)
    requires forall k :: k in a ==> a[k] <= if k in b then b[k] else 0
    requires forall k :: k in b ==> b[k] >= 0
    ensures Sum(a) <= Sum(b)
    decreases |a| + |b|
  {
    hide Sum;
    if |a| > 0 {
      var k :| k in a;
      SumSplit(a, k);
      if k in b {
        SumSplit(b, k);
      } else {
        assert b - {k} == b;
      }
      SumWithin(a - {k}, b - {k});
    } else if |b| > 0 {
      var k :| k in b;
      SumSplit(b, k);
      SumWithin(a, b - {k});
    } else {
      SumNone(a);
      SumNone(b);
    }
  }

  // ----- the class against its waiting owner

  /** The owner an operation may grant weight to. */
  function Beneficiary(op: Op): Option<string> {
    match op
    case OpEnqueue(e) => Some(e.spec.owner)
    case OpSetLimits(owner, _) => Some(owner)
    case _ => None
  }

  ghost function RingWeightsBut(w: World, pool: string, c: PriorityClass, o: string): map<string, int> {
    if pool !in w.ctl.pools then map[]
    else map y | y in RingOf(w.ctl.pools[pool], c).wheel.items && y != o :: EffectiveWeight(w.ctl.limits, y)
  }

  ghost function GrantOf(w: World, op: Op, w': World, pool: string, c: PriorityClass, o: string): int {
    var b := Beneficiary(op);
    if b.Some? && b.value != o && Grants(w, op, pool, c, b.value) then EffectiveWeight(w'.ctl.limits, b.value) else 0
  }

  /** The weights of the other owners in rotation at the start, and one weight for each grant since. */
  ghost function OthersGranted(ws: seq<World>, ops: seq<Op>, pool: string, c: PriorityClass, o: string, n: nat): int
    requires n <= |ops| < |ws|
  {
    if n == 0 then Sum(RingWeightsBut(ws[0], pool, c, o))
    else OthersGranted(ws, ops, pool, c, o, n - 1) + GrantOf(ws[n - 1], ops[n - 1], ws[n], pool, c, o)
  }

  ghost function GrantedTo(ws: seq<World>, ops: seq<Op>, pool: string, c: PriorityClass, owners: set<string>, n: nat): map<string, int>
    requires n <= |ops| < |ws|
  {
    map y | y in owners :: Granted(ws, ops, pool, c, y, n)
  }

  lemma SharesWithin(w: World, pool: string, c: PriorityClass, o: string, owners: set<string>)
    requires o !in owners
    ensures Sum(map y | y in owners :: Share(w, pool, c, y)) <= Sum(RingWeightsBut(w, pool, c, o))
  {
    hide Sum, EffectiveWeight, RingOf;
    forall y
      ensures EffectiveWeight(w.ctl.limits, y) >= 1
    {
      WeightPositive(w.ctl.limits, y);
    }
    SumWithin(map y | y in owners :: Share(w, pool, c, y), RingWeightsBut(w, pool, c, o));
  }

  lemma GrantsOne(w: World, op: Op, pool: string, c: PriorityClass, y: string)
    requires Grants(w, op, pool, c, y)
    ensures Beneficiary(op) == Some(y)
  {
    hide InRing;
  }

  /** Whatever owners are looked at, together they were granted no more than that. */
  lemma {:induction false} GrantedWithin(ws: seq<World>, ops: seq<Op>, pool: string, c: PriorityClass, o: string, owners: set<string>, n: nat)
    requires n <= |ops| < |ws| && o !in owners
    ensures Sum(GrantedTo(ws, ops, pool, c, owners, n)) <= OthersGranted(ws, ops, pool, c, o, n)
  {
    hide Sum, EffectiveWeight, InRing, Grants, RingWeightsBut;
    if n == 0 {
      SharesWithin(ws[0], pool, c, o, owners);
      assert GrantedTo(ws, ops, pool, c, owners, 0) == map y | y in owners :: Share(ws[0], pool, c, y);
    } else {
      GrantedWithin(ws, ops, pool, c, o, owners, n - 1);
      var w, op := ws[n - 1], ops[n - 1];
      var before, after := GrantedTo(ws, ops, pool, c, owners, n - 1), GrantedTo(ws, ops, pool, c, owners, n);
      forall y | Grants(w, op, pool, c, y)
        ensures Beneficiary(op) == Some(y)
      {
        GrantsOne(w, op, pool, c, y);
      }
      var b := Beneficiary(op);
      if b.Some? && b.value in owners && Grants(w, op, pool, c, b.value) {
        var d := EffectiveWeight(ws[n].ctl.limits, b.value);
        assert after == before[b.value := before[b.value] + d];
        SumAdd(before, after, b.value, d);
      } else {
        assert after == before;
        GrantNonNegative(w, op, ws[n], pool, c, o);
      }
    }
  }

  lemma GrantNonNegative(w: World, op: Op, w': World, pool: string, c: PriorityClass, o: string)
    ensures GrantOf(w, op, w', pool, c, o) >= 0
  {
    hide EffectiveWeight, Grants;
    var b := Beneficiary(op);
    if b.Some? {
      WeightPositive(w'.ctl.limits, b.value);
    }
  }

  /** The owners served from the class so far. */
  ghost function Servers(ws: seq<World>, ops: seq<Op>, pool: string, c: PriorityClass, n: nat): set<string>
    requires n <= |ops| < |ws|
  {
    if n == 0 then {}
    else Servers(ws, ops, pool, c, n - 1) +
         (if Serves(ws[n - 1], ops[n - 1], pool, c) then {Chosen(ws[n - 1], ops[n - 1]).value.spec.owner} else {})
  }

  ghost function ServedTo(ws: seq<World>, ops: seq<Op>, pool: string, c: PriorityClass, owners: set<string>, n: nat): map<string, int>
    requires n <= |ops| < |ws|
  {
    map y | y in owners :: OwnerServed(ws, ops, pool, c, y, n) as int
  }

  lemma SumZero(m: map<string, int>)
    requires forall k :: k in m ==> m[k] == 0
    ensures Sum(m) == 0
  {
    SumWithin(m, map[]);
    SumWithin(map[], m);
  }

  /** Every service of the class is a service of one of its owners. */
  lemma {:induction false} ServedByOwners(ws: seq<World>, ops: seq<Op>, pool: string, c: PriorityClass, owners: set<string>, n: nat)
    requires n <= |ops| < |ws| && Servers(ws, ops, pool, c, n) <= owners
    ensures Served(ws, ops, pool, c, n) == Sum(ServedTo(ws, ops, pool, c, owners, n))
  {
    hide Sum, Chosen;
    var after := ServedTo(ws, ops, pool, c, owners, n);
    if n == 0 {
      SumZero(after);
    } else {
      ServedByOwners(ws, ops, pool, c, owners, n - 1);
      var before := ServedTo(ws, ops, pool, c, owners, n - 1);
      if Serves(ws[n - 1], ops[n - 1], pool, c) {
        var y := Chosen(ws[n - 1], ops[n - 1]).value.spec.owner;
        assert after == before[y := before[y] + 1];
        SumAdd(before, after, y, 1);
      } else {
        assert after == before;
      }
    }
  }

  lemma {:induction false} WaiterNotServed(ws: seq<World>, ops: seq<Op>, pool: string, c: PriorityClass, o: string, n: nat)
    requires Run(ws, ops) && OwnerWaits(ws, ops, pool, c, o) && n <= |ops|
    ensures o !in Servers(ws, ops, pool, c, n)
  {
    hide WorldOk, Step, Allowed, ReadyOwner, Chosen;
    if n > 0 {
      WaiterNotServed(ws, ops, pool, c, o, n - 1);
      assert SelectsOn(ops[n - 1], pool) ==> !ServesOwner(ws[n - 1], ops[n - 1], pool, c, o);
    }
  }

  /**
   While owner o is ready at every selection of the pool but never chosen, its
   class is served at most as often as the weights of the other owners in rotation
   at the start, plus one weight for each time one joins or has its quotas renewed.
   */
  lemma OwnerServedInTime(ws: seq<World>, ops: seq<Op>, pool: string, c: PriorityClass, o: string)
    requires Run(ws, ops) && OwnerWaits(ws, ops, pool, c, o)
    ensures Served(ws, ops, pool, c, |ops|) <= OthersGranted(ws, ops, pool, c, o, |ops|)
  {
    hide WorldOk, Step, Allowed, OwnerWaits, Sum, Served, OthersGranted, Servers, Granted, OwnerServed;
    var owners := Servers(ws, ops, pool, c, |ops|);
    WaiterNotServed(ws, ops, pool, c, o, |ops|);
    ServedByOwners(ws, ops, pool, c, owners, |ops|);
    GrantedWithin(ws, ops, pool, c, o, owners, |ops|);
    forall y | y in owners
      ensures 0 <= OwnerServed(ws, ops, pool, c, y, |ops|) <= Granted(ws, ops, pool, c, y, |ops|)
    {
      OwnerBoundedWaiting(ws, ops, pool, c, o, y);
    }
    SumWithin(ServedTo(ws, ops, pool, c, owners, |ops|), GrantedTo(ws, ops, pool, c, owners, |ops|));
  }

  // ----- nothing else bounds the wait

  const POOL: string := "p"
  const WAITER: string := "o"

  function Anything(spec: WorkSpec): bool {
    true
  }

  function Task(id: string, owner: string): Entry {
    Entry(WorkSpec(id, POOL, None, owner, "", None), 0)
  }

  /** The owner and task name of the k-th newcomer. */
  function Newcomer(k: nat): string {
    seq(k + 1, _ => 'n')
  }

  lemma NewcomersDiffer(i: nat, k: nat)
    ensures Newcomer(i) == Newcomer(k) ==> i == k
    ensures Newcomer(i) != WAITER && Newcomer(i) != "o1" && Newcomer(i) != "o2"
  {
    assert |Newcomer(i)| == i + 1 && |Newcomer(k)| == k + 1;
    assert Newcomer(i)[0] == 'n';
  }

  const SELECTION: Op := OpSelect(POOL, 0, Anything)

  /** The owner under the cursor, with fresh credit of one, is served and passed. */
  lemma VisitServesHead(r: OwnerRing, g: Gate, y: string, e: Entry)
    requires AtItem(r.wheel) && Current(r.wheel) == y && OwnerQuantum(r, y) == 1 && Get(r.wheel.credit, y) <= 0
    requires |QueueOf(r, y)| > 0 && QueueOf(r, y)[0] == e && Runnable(g, e) && OwnerOpen(g, y)
    ensures var (r', visit) := VisitOwner(r, g);
            && visit == Hit(e) && r'.quantums == r.quantums && r'.queues == r.queues
            && r'.wheel.items == r.wheel.items && r'.wheel.cursor == r.wheel.cursor + 1
            && (forall k :: k != y ==> Get(r'.wheel.credit, k) == Get(r.wheel.credit, k)) && Get(r'.wheel.credit, y) == 0
  {
    hide Runnable, OwnerOpen;
    assert FirstRunnable(g, QueueOf(r, y)) == Some(0);
  }

  /** In a pool with one class in rotation, that owner's first entry is what a selection finds. */
  lemma PickServesHead(p: Pool, g: Gate, y: string, e: Entry)
    requires p.wheel.items == [Normal]
    requires var r := RingOf(p, Normal);
             && AtItem(r.wheel) && Current(r.wheel) == y && OwnerQuantum(r, y) == 1 && Get(r.wheel.credit, y) <= 0
             && |QueueOf(r, y)| > 0 && QueueOf(r, y)[0] == e && Runnable(g, e) && OwnerOpen(g, y)
    ensures var (p', hit) := PickNext(p, g);
            var (r, r') := (RingOf(p, Normal), RingOf(p', Normal));
            && hit == Some(e) && p'.wheel.items == [Normal]
            && r'.quantums == r.quantums && r'.queues == r.queues
            && r'.wheel.items == r.wheel.items && r'.wheel.cursor == r.wheel.cursor + 1
            && (forall k :: k != y ==> Get(r'.wheel.credit, k) == Get(r.wheel.credit, k)) && Get(r'.wheel.credit, y) == 0
  {
    hide VisitOwner, Runnable, OwnerOpen;
    VisitServesHead(RingOf(p, Normal), g, y, e);
  }

  /** What the world looks like to owners that have not come yet. */
  ghost predicate Unknown(w: World, y: string) {
    && y !in w.active && Get(w.ctl.activeCount, y) == 0
    && POOL in w.ctl.pools
    && var r := RingOf(w.ctl.pools[POOL], Normal);
       y !in r.wheel.items && y !in r.quantums && Get(r.wheel.credit, y) == 0 && |QueueOf(r, y)| == 0
  }

  /** The cursor has passed everybody, and the waiter's second task still waits. */
  ghost predicate Passed(w: World) {
    && POOL in w.ctl.pools && POOL in w.ctl.deadlines && w.ctl.pools[POOL].wheel.items == [Normal]
    && RingOf(w.ctl.pools[POOL], Normal).wheel.cursor == |RingOf(w.ctl.pools[POOL], Normal).wheel.items|
    && w.ctl.limits == map[] && w.ctl.locks == map[]
    && Get(w.ctl.activeCount, WAITER) <= 1
    && w.ctl.taskById == map["o2" := Task("o2", WAITER)]
  }

  ghost predicate Starving(w: World, k: nat) {
    WorldOk(w) && Passed(w) && forall i: nat :: i >= k ==> Unknown(w, Newcomer(i))
  }

  lemma WaiterReady(w: World)
    requires POOL in w.ctl.pools && w.ctl.limits == map[] && w.ctl.locks == map[] && Get(w.ctl.activeCount, WAITER) <= 1
    requires "o2" in w.ctl.taskById && w.ctl.taskById["o2"] == Task("o2", WAITER)
    ensures ReadyOwner(w, SELECTION, Normal, WAITER)
  {
    assert Dispatchable(w.ctl, w.ctl.taskById["o2"], 0, Anything);
  }

  ghost function Ring(w: World): OwnerRing {
    if POOL in w.ctl.pools then RingOf(w.ctl.pools[POOL], Normal) else EMPTY_RING
  }

  /** What enqueueing a task does to the pool's only ring. */
  lemma EnqueueFacts(w: World, id: string, owner: string)
    requires POOL in w.ctl.pools && POOL in w.ctl.deadlines && w.ctl.pools[POOL].wheel.items <= [Normal] && w.ctl.limits == map[]
    ensures var (w', r, e) := (Step(w, OpEnqueue(Task(id, owner))), Ring(w), Task(id, owner));
            && POOL in w'.ctl.pools && POOL in w'.ctl.deadlines && w'.ctl.pools[POOL].wheel.items == [Normal]
            && Ring(w').queues == r.queues[owner := QueueOf(r, owner) + [e]]
            && Ring(w').wheel == Join(r.wheel, owner)
            && Ring(w').quantums == (if owner in r.wheel.items || owner in r.quantums then r.quantums else r.quantums[owner := 1])
            && w'.ctl.limits == map[] && w'.ctl.locks == w.ctl.locks && w'.ctl.activeCount == w.ctl.activeCount
            && w'.ctl.taskById == w.ctl.taskById[id := e] && w'.active == w.active
  {
    hide EnqueueInPool;
    EnqueueRingFacts(w.ctl.pools[POOL], id, owner);
  }

  lemma EnqueueRingFacts(p: Pool, id: string, owner: string)
    requires p.wheel.items <= [Normal]
    ensures var (p', r, e) := (EnqueueInPool(p, Task(id, owner), 1), RingOf(p, Normal), Task(id, owner));
            && p'.wheel.items == [Normal] && RingOf(p', Normal).queues == r.queues[owner := QueueOf(r, owner) + [e]]
            && RingOf(p', Normal).wheel == Join(r.wheel, owner)
            && RingOf(p', Normal).quantums == (if owner in r.wheel.items || owner in r.quantums then r.quantums else r.quantums[owner := 1])
  {
    assert p.wheel.items == [] || p.wheel.items == [Normal];
  }

  /** What a selection does when the owner under the cursor is due one service. */
  lemma SelectFacts(w: World, y: string, e: Entry)
    requires POOL in w.ctl.pools && POOL in w.ctl.deadlines && w.ctl.pools[POOL].wheel.items == [Normal]
    requires w.ctl.limits == map[] && w.ctl.locks == map[] && Get(w.ctl.activeCount, y) == 0
    requires e == Task(e.spec.id, y)
    requires var r := Ring(w);
             && AtItem(r.wheel) && Current(r.wheel) == y && y in r.quantums && r.quantums[y] == 1 && Get(r.wheel.credit, y) <= 0
             && |QueueOf(r, y)| > 0 && QueueOf(r, y)[0] == e
    ensures Chosen(w, SELECTION) == Some(e)
    ensures var (w', r) := (Step(w, SELECTION), Ring(w));
            && POOL in w'.ctl.pools && POOL in w'.ctl.deadlines && w'.ctl.pools[POOL].wheel.items == [Normal]
            && Ring(w').wheel.items == r.wheel.items && Ring(w').wheel.cursor == r.wheel.cursor + 1
            && Ring(w').quantums == r.quantums
            && (forall k :: k != y ==> Get(Ring(w').wheel.credit, k) == Get(r.wheel.credit, k) && QueueOf(Ring(w'), k) == QueueOf(r, k))
            && w'.ctl.limits == map[] && w'.ctl.locks == map[]
            && (forall k :: k != y ==> Get(w'.ctl.activeCount, k) == Get(w.ctl.activeCount, k)) && Get(w'.ctl.activeCount, y) == 1
            && w'.ctl.taskById == w.ctl.taskById - {e.spec.id} && w'.active == w.active[e.spec.id := e.spec]
  {
    hide PickNext;
    PickServesHead(w.ctl.pools[POOL], GateOf(w.ctl, 0, Anything), y, e);
  }

  /** One more newcomer: it enters behind the cursor's last position and is served at once, the waiter is not. */
  lemma NewcomerServed(w: World, k: nat) returns (w1: World, w2: World)
    requires Starving(w, k)
    ensures Allowed(w, OpEnqueue(Task(Newcomer(k), Newcomer(k)))) && w1 == Step(w, OpEnqueue(Task(Newcomer(k), Newcomer(k))))
    ensures Allowed(w1, SELECTION) && w2 == Step(w1, SELECTION) && Starving(w2, k + 1)
    ensures ReadyOwner(w1, SELECTION, Normal, WAITER) && !ServesOwner(w1, SELECTION, POOL, Normal, WAITER)
  {
    hide WorldOk, Step, Chosen, RingOf, ReadyOwner, QueueOf;
    var y, e := Newcomer(k), Task(Newcomer(k), Newcomer(k));
    NewcomersDiffer(k, k);
    assert Unknown(w, y);
    w1 := Step(w, OpEnqueue(e));
    EnqueueFacts(w, y, y);
    StepOk(w, OpEnqueue(e));
    HeadAfterJoin(Ring(w), Ring(w1), y, e);
    WaiterReady(w1);
    w2 := Step(w1, SELECTION);
    SelectFacts(w1, y, e);
    StepOk(w1, SELECTION);
    assert w2.ctl.taskById == map["o2" := Task("o2", WAITER)];
    forall i: nat | i >= k + 1
      ensures Unknown(w2, Newcomer(i))
    {
      NewcomersDiffer(i, k);
      assert Unknown(w, Newcomer(i));
      SameQueue(Ring(w), Ring(w1), y, Newcomer(i));
    }
  }

  lemma HeadAfterJoin(r: OwnerRing, r': OwnerRing, y: string, e: Entry)
    requires y !in r.wheel.items && y !in r.quantums && r.wheel.cursor == |r.wheel.items| && |QueueOf(r, y)| == 0
    requires r'.wheel == Join(r.wheel, y) && r'.queues == r.queues[y := QueueOf(r, y) + [e]] && r'.quantums == r.quantums[y := 1]
    ensures AtItem(r'.wheel) && Current(r'.wheel) == y && |QueueOf(r', y)| > 0 && QueueOf(r', y)[0] == e
    ensures r'.wheel.items == r.wheel.items + [y] && r'.wheel.cursor == |r'.wheel.items| - 1 && r'.wheel.credit == r.wheel.credit
  {
  }

  lemma SameQueue(r: OwnerRing, r': OwnerRing, y: string, z: string)
    requires z != y && y in r'.queues && r'.queues == r.queues[y := r'.queues[y]]
    ensures QueueOf(r', z) == QueueOf(r, z)
  {
  }

  /** The waiter has two tasks and has just been served one of them. */
  ghost function Served1(): World {
    var w0 := Start(map[POOL := PoolConfig(0, 0)]);
    Step(Step(Step(w0, OpEnqueue(Task("o1", WAITER))), OpEnqueue(Task("o2", WAITER))), SELECTION)
  }

  lemma FirstStarving()
    ensures Starving(Served1(), 0)
  {
    hide WorldOk, Step, Chosen, ClassOf, RingOf;
    var w2 := TwoQueued();
    SelectFacts(w2, WAITER, Task("o1", WAITER));
    StepOk(w2, SELECTION);
    assert Served1().ctl.taskById == map["o2" := Task("o2", WAITER)];
    forall i: nat
      ensures Unknown(Served1(), Newcomer(i))
    {
      NewcomersDiffer(i, 0);
    }
  }

  lemma TwoQueued() returns (w2: World)
    ensures WorldOk(w2) && Served1() == Step(w2, SELECTION)
    ensures POOL in w2.ctl.pools && POOL in w2.ctl.deadlines && w2.ctl.pools[POOL].wheel.items == [Normal]
    ensures Ring(w2) == OwnerRing(Wheel([WAITER], 0, map[]), map[WAITER := 1], map[WAITER := [Task("o1", WAITER), Task("o2", WAITER)]])
    ensures w2.ctl.limits == map[] && w2.ctl.locks == map[] && w2.ctl.activeCount == map[] && w2.active == map[]
    ensures w2.ctl.taskById == map["o1" := Task("o1", WAITER), "o2" := Task("o2", WAITER)]
  {
    hide WorldOk, Step, ClassOf;
    var w0 := Start(map[POOL := PoolConfig(0, 0)]);
    var w1 := Step(w0, OpEnqueue(Task("o1", WAITER)));
    w2 := Step(w1, OpEnqueue(Task("o2", WAITER)));
    StartOk(map[POOL := PoolConfig(0, 0)]);
    EnqueueFacts(w0, "o1", WAITER);
    StepOk(w0, OpEnqueue(Task("o1", WAITER)));
    EnqueueFacts(w1, "o2", WAITER);
    StepOk(w1, OpEnqueue(Task("o2", WAITER)));
    assert Ring(w2).queues[WAITER] == [Task("o1", WAITER), Task("o2", WAITER)];
    assert Ring(w2).wheel.items == [WAITER];
  }

  lemma {:induction false} SelectionsPrefix(ops: seq<Op>, more: seq<Op>, n: nat)
    requires n <= |ops|
    ensures Selections(ops + more, POOL, n) == Selections(ops, POOL, n)
  {
    if n > 0 {
      SelectionsPrefix(ops, more, n - 1);
    }
  }

  /**
   For every n there is a run, three operations after the controller's start, with n
   selections of the pool at which owner o has a dispatchable entry, none choosing it.
   */
  lemma {:induction false} Starvation(n: nat) returns (ws: seq<World>, ops: seq<Op>)
    ensures Run(ws, ops) && ws[0] == Served1() && Starving(ws[|ops|], n)
    ensures OwnerWaits(ws, ops, POOL, Normal, WAITER) && Selections(ops, POOL, |ops|) == n
  {
    hide WorldOk, Step, Allowed, ReadyOwner, ServesOwner, Passed, Unknown;
    if n == 0 {
      FirstStarving();
      ws, ops := [Served1()], [];
    } else {
      ws, ops := Starvation(n - 1);
      var k := |ops|;
      var arrive := OpEnqueue(Task(Newcomer(n - 1), Newcomer(n - 1)));
      var w1, w2 := NewcomerServed(ws[k], n - 1);
      SelectionsPrefix(ops, [arrive, SELECTION], k);
      ws, ops := ws + [w1, w2], ops + [arrive, SELECTION];
      assert ops[k] == arrive && ops[k + 1] == SELECTION && ws[k + 1] == w1 && ws[k + 2] == w2;
      assert Selections(ops, POOL, k + 1) == n - 1;
    }
  }
}
