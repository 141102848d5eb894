/**
 The admission controller's state and operations as values.

 `Select` is split in two: `Pick` rotates the two scheduling levels and names
 the entry to dispatch without touching any queue, and `Forget` takes an entry
 out of every index.  The class Controller performs both in place and is proved
 equal to this model.
 */
module AdmissionModel {
  import opened Prelude
  import opened Wheels
  import opened AdmissionTypes

  /** One class of one pool: the active owners, their quanta, and their FIFO queues. */
  datatype OwnerRing = OwnerRing(
    wheel: Wheel<string>,
    quantums: map<string, int>,
    queues: map<string, seq<Entry>>)

  datatype Pool = Pool(
    config: PoolConfig,
    wheel: Wheel<PriorityClass>,
    rings: map<PriorityClass, OwnerRing>,
    totalWaiting: int,
    totalBytes: int)

  datatype State = State(
    pools: map<string, Pool>,
    deadlines: map<string, map<string, Time>>,
    limits: map<string, OwnerLimits>,
    activeCount: map<string, int>,
    waitingCount: map<string, int>,
    waitingBytes: map<string, int>,
    locks: map<string, string>,
    taskById: map<string, Entry>)

  const EMPTY_RING := OwnerRing(Wheel([], 0, map[]), map[], map[])

  function EmptyPool(config: PoolConfig): Pool {
    Pool(config, Wheel([], 0, map[]), map[], 0, 0)
  }

  function Initial(configs: map<string, PoolConfig>): State {
    State(map p | p in configs :: EmptyPool(configs[p]), map p | p in configs :: map[],
          map[], map[], map[], map[], map[], map[])
  }

  function RingOf(p: Pool, c: PriorityClass): OwnerRing {
    if c in p.rings then p.rings[c] else EMPTY_RING
  }

  function QueueOf(r: OwnerRing, owner: string): seq<Entry> {
    if owner in r.queues then r.queues[owner] else []
  }

  function Queue(s: State, pool: string, c: PriorityClass, owner: string): seq<Entry> {
    if pool in s.pools then QueueOf(RingOf(s.pools[pool], c), owner) else []
  }

  // ----- what makes an entry dispatchable

  datatype Gate = Gate(
    limits: map<string, OwnerLimits>,
    activeCount: map<string, int>,
    locks: map<string, string>,
    now: Time,
    eligible: WorkSpec -> bool)

  predicate PastDeadline(spec: WorkSpec, now: Time) {
    spec.deadline.Some? && now > spec.deadline.value
  }

  predicate Runnable(g: Gate, e: Entry) {
    && !PastDeadline(e.spec, g.now)
    && (e.spec.orderingKey != "" ==> e.spec.orderingKey !in g.locks)
    && g.eligible(e.spec)
  }

  predicate OwnerOpen(g: Gate, owner: string) {
    var max := LimitsOf(g.limits, owner).maxActive;
    !(max > 0 && Get(g.activeCount, owner) >= max)
  }

  /** The earliest FIFO position, from `from` on, holding a runnable entry. */
  function FirstRunnable(g: Gate, q: seq<Entry>, from: nat := 0): (r: Option<nat>)
    requires from <= |q|
    ensures r.Some? ==> from <= r.value < |q| && Runnable(g, q[r.value])
    ensures r.Some? ==> forall k :: from <= k < r.value ==> !Runnable(g, q[k])
    ensures r.None? ==> forall k :: from <= k < |q| ==> !Runnable(g, q[k])
    decreases |q| - from
  {
    if from == |q| then None
    else if Runnable(g, q[from]) then Some(from)
    else FirstRunnable(g, q, from + 1)
  }

  // ----- owner level

  function OwnerQuantum(r: OwnerRing, owner: string): int {
    if Get(r.quantums, owner) <= 0 then 1 else Get(r.quantums, owner)
  }

  /** An owner whose queue is empty leaves the ring and gives up its quantum and credit. */
  function RetireOwner(r: OwnerRing): OwnerRing
    requires AtItem(r.wheel)
  {
    var o := Current(r.wheel);
    var w := DropCurrent(r.wheel);
    OwnerRing(w.(credit := w.credit - {o}), r.quantums - {o}, r.queues - {o})
  }

  /** What one visit found: an empty queue, nothing dispatchable, or an entry. */
  datatype Visit = Vacant | Blocked | Hit(entry: Entry)

  /** Arriving at an owner: wrap the cursor and refill spent credit. */
  function ChargedOwner(r: OwnerRing): Wheel<string>
    requires |r.wheel.items| > 0
  {
    var w := Wrap(r.wheel);
    Refill(w, Current(w), OwnerQuantum(r, Current(w)))
  }

  /** One visit of the owner under the cursor. */
  function VisitOwner(r: OwnerRing, g: Gate): (OwnerRing, Visit)
    requires |r.wheel.items| > 0
  {
    var v := r.(wheel := ChargedOwner(r));
    var o := Current(v.wheel);
    var q := QueueOf(r, o);
    if |q| == 0 then (RetireOwner(v), Vacant)
    else
      var hit := if OwnerOpen(g, o) then FirstRunnable(g, q) else None;
      if hit.None? then (v.(wheel := Advance(v.wheel)), Blocked)
      else (v.(wheel := Serve(v.wheel, |q| == 1)), Hit(q[hit.value]))
  }

  /** Visit up to `tries` owners; stop at the first that can dispatch. */
  function ScanOwners(r: OwnerRing, g: Gate, tries: nat): (OwnerRing, Option<Entry>)
    decreases tries
  {
    if tries == 0 || |r.wheel.items| == 0 then (r, None)
    else
      var (r', visit) := VisitOwner(r, g);
      if visit.Hit? then (r', Some(visit.entry)) else ScanOwners(r', g, tries - 1)
  }

  // ----- class level

  /** Arriving at a class: wrap the cursor and refill spent credit. */
  function ChargedClass(p: Pool): Wheel<PriorityClass>
    requires |p.wheel.items| > 0
  {
    var w := Wrap(p.wheel);
    Refill(w, Current(w), ClassQuantum(Current(w)))
  }

  /** One visit of the class under the cursor. */
  function VisitClass(p: Pool, g: Gate): (Pool, Visit)
    requires |p.wheel.items| > 0
  {
    var w := ChargedClass(p);
    var c := Current(w);
    var r := RingOf(p, c);
    if |r.wheel.items| == 0 then (p.(wheel := DropCurrent(SetCredit(w, c, 0))), Vacant)
    else
      var (r', hit) := ScanOwners(r, g, |r.wheel.items|);
      var p' := p.(rings := p.rings[c := r']);
      if hit.None? then (p'.(wheel := Advance(SetCredit(w, c, 0))), Blocked)
      else (p'.(wheel := Serve(w, false)), Hit(hit.value))
  }

  /** Visit up to `tries` classes; stop at the first whose owners can dispatch. */
  function Pick(p: Pool, g: Gate, tries: nat): (Pool, Option<Entry>)
    decreases tries
  {
    if tries == 0 || |p.wheel.items| == 0 then (p, None)
    else
      var (p', visit) := VisitClass(p, g);
      if visit.Hit? then (p', Some(visit.entry)) else Pick(p', g, tries - 1)
  }

  function PickNext(p: Pool, g: Gate): (Pool, Option<Entry>) {
    Pick(p, g, |p.wheel.items|)
  }

  // ----- taking an entry out of every index

  /** The position of the entry with this id, from `from` on. */
  function Position(q: seq<Entry>, id: string, from: nat := 0): (r: Option<nat>)
    requires from <= |q|
    ensures r.Some? ==> from <= r.value < |q| && q[r.value].spec.id == id
    ensures r.Some? ==> forall k :: from <= k < r.value ==> q[k].spec.id != id
    ensures r.None? ==> forall k :: from <= k < |q| ==> q[k].spec.id != id
    decreases |q| - from
  {
    if from == |q| then None
    else if q[from].spec.id == id then Some(from)
    else Position(q, id, from + 1)
  }

  function RemoveId(q: seq<Entry>, id: string): seq<Entry> {
    var i := Position(q, id);
    if i.None? then q else Without(q, i.value)
  }

  /** Counters are dropped when they reach zero. */
  function Compact(m: map<string, int>, k: string): map<string, int> {
    if Get(m, k) == 0 then m - {k} else m
  }

  function Add(m: map<string, int>, k: string, d: int): map<string, int> {
    m[k := Get(m, k) + d]
  }

  function ForgetInPool(p: Pool, e: Entry): Pool {
    var c := ClassOf(e.spec);
    var r := RingOf(p, c);
    var o := e.spec.owner;
    var r' := if o in r.queues then r.(queues := r.queues[o := RemoveId(r.queues[o], e.spec.id)]) else r;
    p.(rings := p.rings[c := r'],
       totalWaiting := p.totalWaiting - 1,
       totalBytes := p.totalBytes - e.payload)
  }

  function Forget(s: State, e: Entry): State
    requires e.spec.pool in s.pools && e.spec.pool in s.deadlines
  {
    var o := e.spec.owner;
    s.(pools := s.pools[e.spec.pool := ForgetInPool(s.pools[e.spec.pool], e)],
       deadlines := s.deadlines[e.spec.pool := s.deadlines[e.spec.pool] - {e.spec.id}],
       waitingCount := Compact(Add(s.waitingCount, o, -1), o),
       waitingBytes := Compact(Add(s.waitingBytes, o, 0 - e.payload), o),
       activeCount := Compact(s.activeCount, o),
       taskById := s.taskById - {e.spec.id})
  }

  // ----- operations

  datatype Refusal = PoolBacklogFull | PayloadBudget | OwnerQueueFull

  function CanAdmit(s: State, spec: WorkSpec, bytes: nat): Option<Refusal> {
    if spec.pool !in s.pools then Some(PoolBacklogFull)
    else
      var p := s.pools[spec.pool];
      var l := LimitsOf(s.limits, spec.owner);
      if p.config.backlogLimit > 0 && p.totalWaiting >= p.config.backlogLimit then Some(PoolBacklogFull)
      else if p.config.payloadBudget > 0 && p.totalBytes + bytes > p.config.payloadBudget then Some(PayloadBudget)
      else if l.maxWaiting > 0 && Get(s.waitingCount, spec.owner) >= l.maxWaiting then Some(OwnerQueueFull)
      else if l.maxPayload > 0 && Get(s.waitingBytes, spec.owner) + bytes > l.maxPayload then Some(PayloadBudget)
      else None
  }

  function EffectiveWeight(limits: map<string, OwnerLimits>, owner: string): int {
    if LimitsOf(limits, owner).weight <= 0 then 1 else LimitsOf(limits, owner).weight
  }

  function JoinOwner(r: OwnerRing, owner: string, weight: int): OwnerRing {
    if owner in r.wheel.items then r
    else r.(wheel := Join(r.wheel, owner),
            quantums := if owner in r.quantums then r.quantums else r.quantums[owner := weight])
  }

  function EnqueueInPool(p: Pool, e: Entry, weight: int): Pool {
    var c := ClassOf(e.spec);
    var r := RingOf(p, c);
    var o := e.spec.owner;
    var r' := r.(queues := r.queues[o := QueueOf(r, o) + [e]]);
    p.(wheel := Join(p.wheel, c),
       rings := p.rings[c := JoinOwner(r', o, weight)],
       totalWaiting := p.totalWaiting + 1,
       totalBytes := p.totalBytes + e.payload)
  }

  /** Work for an unconfigured pool is silently dropped, as the original does. */
  function Enqueue(s: State, e: Entry): State {
    if e.spec.pool !in s.pools || e.spec.pool !in s.deadlines then s
    else
      var o := e.spec.owner;
      var d := s.deadlines[e.spec.pool];
      s.(pools := s.pools[e.spec.pool := EnqueueInPool(s.pools[e.spec.pool], e, EffectiveWeight(s.limits, o))],
         deadlines := s.deadlines[e.spec.pool :=
           if e.spec.deadline.Some? then d[e.spec.id := e.spec.deadline.value] else d],
         waitingCount := Add(s.waitingCount, o, 1),
         waitingBytes := Add(s.waitingBytes, o, e.payload),
         taskById := s.taskById[e.spec.id := e])
  }

  function GateOf(s: State, now: Time, eligible: WorkSpec -> bool): Gate {
    Gate(s.limits, s.activeCount, s.locks, now, eligible)
  }

  /** Record a dispatch: one more active task of the owner, and its ordering key locked. */
  function Activate(s: State, spec: WorkSpec): State {
    s.(activeCount := Add(s.activeCount, spec.owner, 1),
       locks := if spec.orderingKey != "" then s.locks[spec.orderingKey := spec.id] else s.locks)
  }

  function Select(s: State, pool: string, now: Time, eligible: WorkSpec -> bool): (State, Option<Entry>) {
    if pool !in s.pools then (s, None)
    else
      var (p, hit) := PickNext(s.pools[pool], GateOf(s, now, eligible));
      var s' := s.(pools := s.pools[pool := p]);
      if hit.None? || hit.value.spec.pool !in s'.pools || hit.value.spec.pool !in s'.deadlines then (s', None)
      else (Activate(Forget(s', hit.value), hit.value.spec), hit)
  }

  function Terminal(s: State, spec: WorkSpec): State {
    var o := spec.owner;
    var a := if Get(s.activeCount, o) > 0 then Add(s.activeCount, o, -1) else s.activeCount;
    s.(activeCount := Compact(a, o),
       waitingCount := Compact(s.waitingCount, o),
       waitingBytes := Compact(s.waitingBytes, o),
       locks := if spec.orderingKey in s.locks && spec.orderingKey != "" && s.locks[spec.orderingKey] == spec.id
                then s.locks - {spec.orderingKey} else s.locks)
  }

  function Cancel(s: State, id: string): (State, Option<Entry>) {
    if id !in s.taskById || s.taskById[id].spec.pool !in s.pools || s.taskById[id].spec.pool !in s.deadlines then (s, None)
    else (Forget(s, s.taskById[id]), Some(s.taskById[id]))
  }

  /** Forget each of a list of waiting ids, in order. */
  function ForgetAll(s: State, ids: seq<string>): State
    decreases |ids|
  {
    if ids == [] then s
    else ForgetAll(Cancel(s, ids[0]).0, ids[1..])
  }

  function RefreshRing(r: OwnerRing, owner: string, weight: int): OwnerRing {
    if owner !in r.quantums || r.quantums[owner] == weight then r
    else r.(quantums := r.quantums[owner := weight], wheel := SetCredit(r.wheel, owner, 0))
  }

  function RefreshPool(p: Pool, owner: string, weight: int): Pool {
    p.(rings := map c | c in p.rings :: RefreshRing(p.rings[c], owner, weight))
  }

  /** New quotas take effect at once: cached quanta are refreshed and old credit is discarded. */
  function SetLimits(s: State, owner: string, limits: OwnerLimits): State {
    var l := NormalizeLimits(limits);
    s.(limits := s.limits[owner := l],
       pools := map p | p in s.pools :: RefreshPool(s.pools[p], owner, l.weight))
  }
}
