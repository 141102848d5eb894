/**
 Bounded waiting.  While a class stays dispatchable, each other class is served
 at most its quantum of times before it.  While an owner stays dispatchable,
 each other owner of its class is served at most its weight of times for being
 in the rotation at the start and as often again for each time it joins or gets
 new quotas, so the wait is bounded by the weights granted meanwhile.
 `AdmissionWaiting.Starvation` shows that it is bounded by nothing else.
 */
module AdmissionFairness {
  import opened Prelude
  import opened Wheels
  import opened AdmissionTypes
  import opened AdmissionModel
  import opened AdmissionSchedule
  import opened AdmissionStore
  import opened AdmissionRuns
  import opened AdmissionTheorems

  // ----- bounded waiting of classes

  ghost predicate SelectsOn(op: Op, pool: string) {
    op.OpSelect? && op.pool == pool
  }

  ghost function Chosen(w: World, op: Op): Option<Entry>
    requires op.OpSelect?
  {
    Select(w.ctl, op.pool, op.now, op.eligible).1
  }

  /** Some waiting entry of this pool and class could be dispatched now. */
  ghost predicate ReadyClass(w: World, op: Op, c: PriorityClass)
    requires op.OpSelect?
  {
    exists id :: id in w.ctl.taskById && w.ctl.taskById[id].spec.pool == op.pool && ClassOf(w.ctl.taskById[id].spec) == c &&
                 Dispatchable(w.ctl, w.ctl.taskById[id], op.now, op.eligible)
  }

  /** At every selection on the pool, class c is ready but not chosen. */
  ghost predicate Waits(ws: seq<World>, ops: seq<Op>, pool: string, c: PriorityClass)
    requires |ws| == |ops| + 1
  {
    forall i :: 0 <= i < |ops| && SelectsOn(ops[i], pool) ==>
      && ReadyClass(ws[i], ops[i], c)
      && (Chosen(ws[i], ops[i]).Some? ==> ClassOf(Chosen(ws[i], ops[i]).value.spec) != c)
  }

  ghost predicate Serves(w: World, op: Op, pool: string, x: PriorityClass) {
    SelectsOn(op, pool) && Chosen(w, op).Some? && ClassOf(Chosen(w, op).value.spec) == x
  }

  /** How many of the first n operations dispatched an entry of class x from the pool. */
  ghost function Served(ws: seq<World>, ops: seq<Op>, pool: string, x: PriorityClass, n: nat): nat
    requires n <= |ops| < |ws|
  {
    if n == 0 then 0
    else Served(ws, ops, pool, x, n - 1) + (if Serves(ws[n - 1], ops[n - 1], pool, x) then 1 else 0)
  }

  ghost predicate InRotation(w: World, pool: string, c: PriorityClass) {
    pool in w.ctl.pools && c in w.ctl.pools[pool].wheel.items
  }

  ghost function ClassBudget(w: World, pool: string, c: PriorityClass, x: PriorityClass): int
    requires InRotation(w, pool, c)
  {
    Budget(w.ctl.pools[pool].wheel, c, x, ClassQuantum(x), true)
  }

  // ----- how other steps move a pool's wheels

  /** The class wheel and every owner wheel of a pool are unchanged. */
  ghost predicate SameWheels(s: State, s': State, pool: string) {
    && pool in s.pools && pool in s'.pools && s'.pools[pool].wheel == s.pools[pool].wheel
    && (forall c :: RingOf(s'.pools[pool], c).wheel == RingOf(s.pools[pool], c).wheel)
  }

  lemma ForgetWheels(s: State, e: Entry, pool: string)
    requires StoreOk(s) && Waiting(s, e) && pool in s.pools
    ensures SameWheels(s, Forget(s, e), pool)
  {
    hide StoreOk, Forget, RingOf;
    ForgetOk(s, e);
    ForgetTasks(s, e);
  }

  lemma CancelWheels(s: State, id: string, pool: string)
    requires StoreOk(s) && pool in s.pools
    ensures SameWheels(s, Cancel(s, id).0, pool) && StoreOk(Cancel(s, id).0)
  {
    hide StoreOk, Forget, RingOf;
    if id in s.taskById {
      StoreHasTasks(s, id);
      ForgetWheels(s, s.taskById[id], pool);
      ForgetOk(s, s.taskById[id]);
    }
  }

  lemma {:induction false} ForgetAllWheels(s: State, ids: seq<string>, pool: string)
    requires StoreOk(s) && pool in s.pools
    ensures SameWheels(s, ForgetAll(s, ids), pool)
    decreases |ids|
  {
    hide StoreOk, Cancel, RingOf;
    if ids != [] {
      CancelWheels(s, ids[0], pool);
      ForgetAllWheels(Cancel(s, ids[0]).0, ids[1..], pool);
    }
  }

  lemma OtherSelectWheels(s: State, q: string, now: Time, eligible: WorkSpec -> bool, pool: string)
    requires StoreOk(s) && pool in s.pools && q in s.pools && q != pool
    ensures SameWheels(s, Select(s, q, now, eligible).0, pool)
  {
    hide StoreOk, Select, Pick, Forget, RingOf, RightChoice;
    var g := GateOf(s, now, eligible);
    SelectForm(s, q, now, eligible);
    TurnedOk(s, q, g);
    if PickNext(s.pools[q], g).1.Some? {
      ChosenFacts(s, q, g);
      ForgetWheels(Turned(s, q, g), PickNext(s.pools[q], g).1.value, pool);
    }
  }

  /** After a successful selection the pool's wheels are those the rotation left. */
  lemma SelectWheels(s: State, pool: string, now: Time, eligible: WorkSpec -> bool)
    requires StoreOk(s) && pool in s.pools && Select(s, pool, now, eligible).1.Some?
    ensures var p := PickNext(s.pools[pool], GateOf(s, now, eligible));
            var s' := Select(s, pool, now, eligible).0;
            && Select(s, pool, now, eligible).1 == p.1
            && pool in s'.pools && s'.pools[pool].wheel == p.0.wheel
            && forall c :: RingOf(s'.pools[pool], c).wheel == RingOf(p.0, c).wheel
  {
    hide StoreOk, Select, Pick, Forget, RingOf, RightChoice;
    var g := GateOf(s, now, eligible);
    SelectForm(s, pool, now, eligible);
    TurnedOk(s, pool, g);
    ChosenFacts(s, pool, g);
    ForgetWheels(Turned(s, pool, g), PickNext(s.pools[pool], g).1.value, pool);
  }

  lemma EnqueueWheels(s: State, e: Entry, pool: string)
    requires pool in s.pools && s.deadlines.Keys == s.pools.Keys
    ensures pool in Enqueue(s, e).pools
    ensures e.spec.pool != pool ==> SameWheels(s, Enqueue(s, e), pool)
    ensures e.spec.pool == pool ==>
              && Enqueue(s, e).pools[pool].wheel == Join(s.pools[pool].wheel, ClassOf(e.spec))
              && (forall c :: c != ClassOf(e.spec) ==> RingOf(Enqueue(s, e).pools[pool], c) == RingOf(s.pools[pool], c))
              && RingOf(Enqueue(s, e).pools[pool], ClassOf(e.spec)).wheel ==
                 Join(RingOf(s.pools[pool], ClassOf(e.spec)).wheel, e.spec.owner)
  {
    hide EnqueueInPool, RingOf, QueueOf;
    if e.spec.pool == pool {
      var weight := EffectiveWeight(s.limits, e.spec.owner);
      EnqueueForm(s.pools[pool], e, weight);
      EnqueueRingForm(RingOf(s.pools[pool], ClassOf(e.spec)), e, weight);
    }
  }

  lemma SetLimitsWheels(s: State, owner: string, limits: OwnerLimits, pool: string)
    requires pool in s.pools
    ensures pool in SetLimits(s, owner, limits).pools
    ensures SetLimits(s, owner, limits).pools[pool].wheel == s.pools[pool].wheel
  {
  }

  /** A step that is not a selection on the pool leaves its class wheel alone, or adds a class to it. */
  lemma QuietClassWheel(w: World, op: Op, pool: string)
    requires WorldOk(w) && Allowed(w, op) && !SelectsOn(op, pool) && pool in w.ctl.pools
    ensures pool in Step(w, op).ctl.pools
    ensures Step(w, op).ctl.pools[pool].wheel == w.ctl.pools[pool].wheel ||
            (op.OpEnqueue? && Step(w, op).ctl.pools[pool].wheel == Join(w.ctl.pools[pool].wheel, ClassOf(op.entry.spec)))
  {
    hide StoreOk, ActiveOk, Conserved, Select, Enqueue, Cancel, ForgetAll, SetLimits, RingOf, ExpiredEvents, DueList;
    match op
    case OpEnqueue(e) =>
      StoreDeadlineKeys(w.ctl);
      EnqueueWheels(w.ctl, e, pool);
    case OpSelect(q, now, eligible) =>
      if q in w.ctl.pools {
        OtherSelectWheels(w.ctl, q, now, eligible, pool);
      } else {
        SelectUnknown(w.ctl, q, now, eligible);
      }
    case OpTerminal(spec) =>
    case OpCancel(id) =>
      CancelWheels(w.ctl, id, pool);
    case OpExpire(q, now, ids) =>
      ForgetAllWheels(w.ctl, ids, pool);
    case OpSetLimits(owner, limits) =>
      SetLimitsWheels(w.ctl, owner, limits, pool);
  }

  // ----- bounded waiting, class level

  lemma ReadyFromWorld(w: World, op: Op, c: PriorityClass)
    requires WorldOk(w) && op.OpSelect? && ReadyClass(w, op, c)
    ensures InRotation(w, op.pool, c) && PoolOk(w.ctl.pools[op.pool])
    ensures ClassReady(w.ctl.pools[op.pool], GateOf(w.ctl, op.now, op.eligible), c)
    ensures Chosen(w, op).Some?
  {
    hide StoreOk, ActiveOk, Conserved, PoolOk, ClassReady, Select, OwnerReady;
    var s := w.ctl;
    var id :| id in s.taskById && s.taskById[id].spec.pool == op.pool && ClassOf(s.taskById[id].spec) == c &&
              Dispatchable(s, s.taskById[id], op.now, op.eligible);
    StoreHasTasks(s, id);
    WaitingIsReady(s, s.taskById[id], op.now, op.eligible);
    StorePoolOk(s, op.pool);
    ReadyIsActive(s.pools[op.pool], GateOf(s, op.now, op.eligible), c);
    WorkConserving(s, op.pool, op.now, op.eligible);
  }

  lemma BudgetBound(p: Pool, c: PriorityClass, x: PriorityClass)
    requires PoolOk(p) && c in p.wheel.items
    ensures 0 <= Budget(p.wheel, c, x, ClassQuantum(x), true) <= ClassQuantum(x)
  {
    hide RingOk, RingHomed;
  }

  /** One step spends the budget it serves from, and never raises it. */
  lemma StepClassBudget(w: World, op: Op, pool: string, c: PriorityClass, x: PriorityClass)
    requires WorldOk(w) && Allowed(w, op) && InRotation(w, pool, c) && x != c
    requires SelectsOn(op, pool) ==> ReadyClass(w, op, c) && !Serves(w, op, pool, c)
    ensures InRotation(Step(w, op), pool, c)
    ensures ClassBudget(Step(w, op), pool, c, x) <= ClassBudget(w, pool, c, x) - (if Serves(w, op, pool, x) then 1 else 0)
  {
    hide StoreOk, ActiveOk, Conserved, PoolOk, Select, Pick, Budget, ReadyClass, ClassReady, Enqueue, Cancel, ForgetAll, SetLimits, Terminal;
    if SelectsOn(op, pool) {
      ReadyFromWorld(w, op, c);
      SelectWheels(w.ctl, pool, op.now, op.eligible);
      PickBudget(w.ctl.pools[pool], GateOf(w.ctl, op.now, op.eligible), |w.ctl.pools[pool].wheel.items|, c, x);
    } else {
      QuietClassWheel(w, op, pool);
      StorePoolOk(w.ctl, pool);
      PoolWheelOk(w.ctl.pools[pool]);
      if op.OpEnqueue? {
        JoinBudget(w.ctl.pools[pool].wheel, ClassOf(op.entry.spec), c, x, ClassQuantum(x), true);
      }
    }
  }

  lemma PoolWheelOk(p: Pool)
    requires PoolOk(p)
    ensures WheelOk(p.wheel)
  {
    hide RingOk, RingHomed;
  }

  /** Until c is in rotation nothing was served; from then on services and remaining budget stay within a quantum. */
  lemma {:induction false} ServedWithinBudget(ws: seq<World>, ops: seq<Op>, pool: string, c: PriorityClass, x: PriorityClass, n: nat)
    requires Run(ws, ops) && Waits(ws, ops, pool, c) && x != c && n <= |ops|
    ensures !InRotation(ws[n], pool, c) ==> Served(ws, ops, pool, x, n) == 0
    ensures InRotation(ws[n], pool, c) ==> Served(ws, ops, pool, x, n) + ClassBudget(ws[n], pool, c, x) <= ClassQuantum(x)
  {
    hide WorldOk, Step, Allowed, ReadyClass, ClassBudget, InRotation, Serves;
    RunOk(ws, ops, n);
    if n == 0 {
      FirstBudget(ws[0], pool, c, x);
    } else {
      ServedWithinBudget(ws, ops, pool, c, x, n - 1);
      RunOk(ws, ops, n - 1);
      var w, op := ws[n - 1], ops[n - 1];
      if SelectsOn(op, pool) {
        ReadyFromWorld(w, op, c);
        NotServed(w, op, pool, c);
      }
      if InRotation(w, pool, c) {
        StepClassBudget(w, op, pool, c, x);
      } else {
        NotServedQuiet(w, op, pool, x);
        FirstBudget(ws[n], pool, c, x);
      }
    }
  }

  lemma NotServed(w: World, op: Op, pool: string, c: PriorityClass)
    requires SelectsOn(op, pool) && (Chosen(w, op).Some? ==> ClassOf(Chosen(w, op).value.spec) != c)
    ensures !Serves(w, op, pool, c)
  {
  }

  lemma NotServedQuiet(w: World, op: Op, pool: string, x: PriorityClass)
    requires !SelectsOn(op, pool)
    ensures !Serves(w, op, pool, x)
  {
  }

  lemma FirstBudget(w: World, pool: string, c: PriorityClass, x: PriorityClass)
    requires WorldOk(w)
    ensures InRotation(w, pool, c) ==> 0 <= ClassBudget(w, pool, c, x) <= ClassQuantum(x)
  {
    hide StoreOk, ActiveOk, Conserved, PoolOk, Budget;
    if InRotation(w, pool, c) {
      StorePoolOk(w.ctl, pool);
      BudgetBound(w.ctl.pools[pool], c, x);
    }
  }

  /**
   Bounded waiting: in any run in which class c is ready at every selection of a
   pool but never chosen, each other class x is chosen at most its quantum of times.
   */
  lemma BoundedWaiting(ws: seq<World>, ops: seq<Op>, pool: string, c: PriorityClass, x: PriorityClass)
    requires Run(ws, ops) && Waits(ws, ops, pool, c) && x != c
    ensures Served(ws, ops, pool, x, |ops|) <= ClassQuantum(x)
  {
    hide Waits, Served, WorldOk, Step, Allowed;
    ServedWithinBudget(ws, ops, pool, c, x, |ops|);
    RunOk(ws, ops, |ops|);
    FirstBudget(ws[|ops|], pool, c, x);
  }

  ghost function Selections(ops: seq<Op>, pool: string, n: nat): nat
    requires n <= |ops|
  {
    if n == 0 then 0 else Selections(ops, pool, n - 1) + (if SelectsOn(ops[n - 1], pool) then 1 else 0)
  }

  lemma {:induction false} SelectionsAreServed(ws: seq<World>, ops: seq<Op>, pool: string, c: PriorityClass, n: nat)
    requires Run(ws, ops) && Waits(ws, ops, pool, c) && n <= |ops|
    ensures Selections(ops, pool, n) ==
            Served(ws, ops, pool, Interactive, n) + Served(ws, ops, pool, Normal, n) +
            Served(ws, ops, pool, Background, n) + Served(ws, ops, pool, Maintenance, n)
    ensures Served(ws, ops, pool, c, n) == 0
  {
    hide WorldOk, Step, Allowed, ReadyClass, Chosen;
    if n > 0 {
      SelectionsAreServed(ws, ops, pool, c, n - 1);
      if SelectsOn(ops[n - 1], pool) {
        RunOk(ws, ops, n - 1);
        ReadyFromWorld(ws[n - 1], ops[n - 1], c);
      }
    }
  }

  /** So a class that stays ready is chosen within 16 minus its quantum selections of the pool. */
  lemma ClassServedInTime(ws: seq<World>, ops: seq<Op>, pool: string, c: PriorityClass)
    requires Run(ws, ops) && Waits(ws, ops, pool, c)
    ensures Selections(ops, pool, |ops|) <= 15 - ClassQuantum(c)
  {
    hide Waits, Served, Selections, WorldOk, Step, Allowed;
    SelectionsAreServed(ws, ops, pool, c, |ops|);
    forall x | x != c
      ensures Served(ws, ops, pool, x, |ops|) <= ClassQuantum(x)
    {
      BoundedWaiting(ws, ops, pool, c, x);
    }
    match c
    case Interactive =>
    case Normal =>
    case Background =>
    case Maintenance =>
  }

  // ----- bounded waiting, owner level

  /** Some waiting entry of this pool, class and owner could be dispatched now. */
  ghost predicate ReadyOwner(w: World, op: Op, c: PriorityClass, o: string)
    requires op.OpSelect?
  {
    exists id :: id in w.ctl.taskById && w.ctl.taskById[id].spec.pool == op.pool && ClassOf(w.ctl.taskById[id].spec) == c &&
                 w.ctl.taskById[id].spec.owner == o && Dispatchable(w.ctl, w.ctl.taskById[id], op.now, op.eligible)
  }

  ghost predicate ServesOwner(w: World, op: Op, pool: string, c: PriorityClass, y: string) {
    Serves(w, op, pool, c) && Chosen(w, op).value.spec.owner == y
  }

  ghost predicate OwnerWaits(ws: seq<World>, ops: seq<Op>, pool: string, c: PriorityClass, o: string)
    requires |ws| == |ops| + 1
  {
    forall i :: 0 <= i < |ops| && SelectsOn(ops[i], pool) ==>
      ReadyOwner(ws[i], ops[i], c, o) && !ServesOwner(ws[i], ops[i], pool, c, o)
  }

  ghost predicate InRing(w: World, pool: string, c: PriorityClass, o: string) {
    pool in w.ctl.pools && o in RingOf(w.ctl.pools[pool], c).wheel.items
  }

  /** The operation neither brings owner y into the class's rotation nor changes its quotas. */
  ghost predicate Leaves(w: World, op: Op, pool: string, c: PriorityClass, y: string) {
    && (op.OpEnqueue? && op.entry.spec.pool == pool && ClassOf(op.entry.spec) == c && op.entry.spec.owner == y ==>
          InRing(w, pool, c, y))
    && (op.OpSetLimits? ==> op.owner != y)
  }

  ghost function OwnerServed(ws: seq<World>, ops: seq<Op>, pool: string, c: PriorityClass, y: string, n: nat): nat
    requires n <= |ops| < |ws|
  {
    if n == 0 then 0
    else OwnerServed(ws, ops, pool, c, y, n - 1) + (if ServesOwner(ws[n - 1], ops[n - 1], pool, c, y) then 1 else 0)
  }

  ghost function OwnerBudget(w: World, pool: string, c: PriorityClass, o: string, y: string): int
    requires InRing(w, pool, c, o)
  {
    Budget(RingOf(w.ctl.pools[pool], c).wheel, o, y, EffectiveWeight(w.ctl.limits, y), false)
  }

  lemma StepLimits(w: World, op: Op, y: string)
    requires WorldOk(w) && (op.OpSetLimits? ==> op.owner != y)
    ensures EffectiveWeight(Step(w, op).ctl.limits, y) == EffectiveWeight(w.ctl.limits, y)
  {
    hide WorldOk, Select, Enqueue, Cancel, ForgetAll, RefreshPool;
    match op
    case OpEnqueue(e) => EnqueueActive(w.ctl, e);
    case OpSelect(pool, now, eligible) => SelectActive(w, pool, now, eligible);
    case OpTerminal(spec) =>
    case OpCancel(id) => CancelLimits(w.ctl, id);
    case OpExpire(pool, now, ids) => ForgetAllLimits(w.ctl, ids);
    case OpSetLimits(owner, limits) =>
  }

  lemma StoreRing(s: State, pool: string, c: PriorityClass)
    requires StoreOk(s) && pool in s.pools
    ensures RingOk(RingOf(s.pools[pool], c)) && RingHomed(RingOf(s.pools[pool], c), c)
    ensures RingWeights(RingOf(s.pools[pool], c), s.limits)
  {
    hide QueuesAgree, DeadlinesAgree, TotalsAgree, CountersAgree, RingOk, RingHomed, RingWeights;
    assert PoolOk(s.pools[pool]);
  }

  /** How a step that is not a selection on the pool may change the wheel of one ring. */
  ghost predicate QuietRing(v: Wheel<string>, v': Wheel<string>, op: Op) {
    || v' == v
    || (op.OpEnqueue? && v' == Join(v, op.entry.spec.owner))
    || (op.OpSetLimits? && v' == SetCredit(v, op.owner, 0))
  }

  lemma QuietOwnerWheel(w: World, op: Op, pool: string, c: PriorityClass)
    requires WorldOk(w) && Allowed(w, op) && !SelectsOn(op, pool) && pool in w.ctl.pools
    ensures pool in Step(w, op).ctl.pools
    ensures QuietRing(RingOf(w.ctl.pools[pool], c).wheel, RingOf(Step(w, op).ctl.pools[pool], c).wheel, op)
    ensures op.OpEnqueue? && !(op.entry.spec.pool == pool && ClassOf(op.entry.spec) == c) ==>
              RingOf(Step(w, op).ctl.pools[pool], c).wheel == RingOf(w.ctl.pools[pool], c).wheel
  {
    hide StoreOk, ActiveOk, Conserved, Select, Enqueue, Cancel, ForgetAll, SetLimits, RingOf, ExpiredEvents, DueList;
    match op
    case OpEnqueue(e) =>
      StoreDeadlineKeys(w.ctl);
      EnqueueWheels(w.ctl, e, pool);
    case OpSelect(q, now, eligible) =>
      if q in w.ctl.pools {
        OtherSelectWheels(w.ctl, q, now, eligible, pool);
      } else {
        SelectUnknown(w.ctl, q, now, eligible);
      }
    case OpTerminal(spec) =>
    case OpCancel(id) =>
      CancelWheels(w.ctl, id, pool);
    case OpExpire(q, now, ids) =>
      ForgetAllWheels(w.ctl, ids, pool);
    case OpSetLimits(owner, limits) =>
      SetLimitsRing(w.ctl, owner, limits, pool, c);
  }

  lemma SetLimitsRing(s: State, owner: string, limits: OwnerLimits, pool: string, c: PriorityClass)
    requires pool in s.pools
    ensures pool in SetLimits(s, owner, limits).pools
    ensures var (v, v') := (RingOf(s.pools[pool], c).wheel, RingOf(SetLimits(s, owner, limits).pools[pool], c).wheel);
            v' == v || v' == SetCredit(v, owner, 0)
  {
    RefreshRingOf(s.pools[pool], owner, NormalizeLimits(limits).weight, c);
  }

  lemma QuietRingBudget(v: Wheel<string>, v': Wheel<string>, op: Op, o: string, y: string, quantum: int)
    requires WheelOk(v) && QuietRing(v, v', op) && o in v.items && y != o && quantum >= 0
    requires op.OpEnqueue? && v' != v ==> op.entry.spec.owner != y || y in v.items
    requires op.OpSetLimits? ==> op.owner != y
    ensures o in v'.items && Budget(v', o, y, quantum, false) <= Budget(v, o, y, quantum, false)
  {
    hide WheelOk;
    if op.OpEnqueue? && v' != v {
      JoinBudget(v, op.entry.spec.owner, o, y, quantum, false);
    }
  }

  lemma OwnerReadyFromWorld(w: World, op: Op, c: PriorityClass, o: string)
    requires WorldOk(w) && op.OpSelect? && ReadyOwner(w, op, c, o)
    ensures InRing(w, op.pool, c, o) && ReadyClass(w, op, c)
    ensures OwnerReady(RingOf(w.ctl.pools[op.pool], c), GateOf(w.ctl, op.now, op.eligible), o)
  {
    hide StoreOk, ActiveOk, Conserved, RingOf, OwnerReady, Dispatchable;
    var s := w.ctl;
    var id :| id in s.taskById && s.taskById[id].spec.pool == op.pool && ClassOf(s.taskById[id].spec) == c &&
              s.taskById[id].spec.owner == o && Dispatchable(s, s.taskById[id], op.now, op.eligible);
    StoreHasTasks(s, id);
    WaitingIsReady(s, s.taskById[id], op.now, op.eligible);
    StoreRing(s, op.pool, c);
    ReadyInRing(RingOf(s.pools[op.pool], c), GateOf(s, op.now, op.eligible), o);
  }

  lemma ReadyInRing(r: OwnerRing, g: Gate, o: string)
    requires RingOk(r) && OwnerReady(r, g, o)
    ensures o in r.wheel.items
  {
    assert |QueueOf(r, o)| > 0;
  }

  lemma RingBudgetBound(r: OwnerRing, limits: map<string, OwnerLimits>, o: string, y: string)
    requires RingOk(r) && RingWeights(r, limits) && o in r.wheel.items && y != o
    ensures 0 <= Budget(r.wheel, o, y, EffectiveWeight(limits, y), false) <= EffectiveWeight(limits, y)
  {
    hide QueueOf;
    assert Get(r.wheel.credit, y) <= OwnerQuantum(r, y);
  }

  lemma SelectOwnerBudget(w: World, op: Op, pool: string, c: PriorityClass, o: string, y: string)
    requires WorldOk(w) && SelectsOn(op, pool) && y != o
    requires ReadyOwner(w, op, c, o) && !ServesOwner(w, op, pool, c, o)
    ensures InRing(w, pool, c, o) && InRing(Step(w, op), pool, c, o)
    ensures Budget(RingOf(Step(w, op).ctl.pools[pool], c).wheel, o, y, EffectiveWeight(w.ctl.limits, y), false) <=
            OwnerBudget(w, pool, c, o, y) - (if ServesOwner(w, op, pool, c, y) then 1 else 0)
  {
    hide StoreOk, ActiveOk, Conserved, PoolOk, Select, Pick, Budget, ReadyOwner, ReadyClass, ClassReady, OwnerReady, RingOf, RingOk, RingHomed, ScanOwners;
    OwnerReadyFromWorld(w, op, c, o);
    ReadyFromWorld(w, op, c);
    var p, g := w.ctl.pools[pool], GateOf(w.ctl, op.now, op.eligible);
    SelectWheels(w.ctl, pool, op.now, op.eligible);
    PickRing(p, g, |p.wheel.items|, c);
    StoreRing(w.ctl, pool, c);
    var r := RingOf(p, c);
    RingQuantum(r, w.ctl.limits, y);
    if ClassOf(Chosen(w, op).value.spec) == c {
      ScanBudget(r, g, |r.wheel.items|, c, o, y, EffectiveWeight(w.ctl.limits, y));
    }
  }

  lemma RingQuantum(r: OwnerRing, limits: map<string, OwnerLimits>, y: string)
    requires RingWeights(r, limits)
    ensures y in r.wheel.items ==> OwnerQuantum(r, y) == EffectiveWeight(limits, y) && y in r.quantums
    ensures EffectiveWeight(limits, y) >= 1
  {
  }

  lemma StepOwnerBudget(w: World, op: Op, pool: string, c: PriorityClass, o: string, y: string)
    requires WorldOk(w) && Allowed(w, op) && InRing(w, pool, c, o) && y != o && Leaves(w, op, pool, c, y)
    requires SelectsOn(op, pool) ==> ReadyOwner(w, op, c, o) && !ServesOwner(w, op, pool, c, o)
    ensures InRing(Step(w, op), pool, c, o)
    ensures OwnerBudget(Step(w, op), pool, c, o, y) <= OwnerBudget(w, pool, c, o, y) - (if ServesOwner(w, op, pool, c, y) then 1 else 0)
  {
    hide StoreOk, ActiveOk, Conserved, Budget, ReadyOwner, Step, RingOf, Allowed, EffectiveWeight, QuietRing, RingOk, RingHomed, Chosen;
    StepLimits(w, op, y);
    if SelectsOn(op, pool) {
      SelectOwnerBudget(w, op, pool, c, o, y);
    } else {
      QuietOwnerWheel(w, op, pool, c);
      StoreRing(w.ctl, pool, c);
      RingQuantum(RingOf(w.ctl.pools[pool], c), w.ctl.limits, y);
      RingWheelOk(RingOf(w.ctl.pools[pool], c));
      QuietRingBudget(RingOf(w.ctl.pools[pool], c).wheel, RingOf(Step(w, op).ctl.pools[pool], c).wheel, op, o, y,
                      EffectiveWeight(w.ctl.limits, y));
    }
  }

  lemma RingWheelOk(r: OwnerRing)
    requires RingOk(r)
    ensures WheelOk(r.wheel)
  {
    hide QueueOf;
  }

  lemma FirstOwnerBudget(w: World, pool: string, c: PriorityClass, o: string, y: string)
    requires WorldOk(w) && y != o
    ensures InRing(w, pool, c, o) ==> 0 <= OwnerBudget(w, pool, c, o, y) <= EffectiveWeight(w.ctl.limits, y)
  {
    hide StoreOk, ActiveOk, Conserved, Budget, RingOf, RingOk, RingHomed, RingWeights, EffectiveWeight;
    if InRing(w, pool, c, o) {
      StoreRing(w.ctl, pool, c);
      RingBudgetBound(RingOf(w.ctl.pools[pool], c), w.ctl.limits, o, y);
    }
  }

  // ----- what an owner is granted while another one waits

  /** The operation brings y into the rotation, or renews its quotas while it is in. */
  ghost predicate Grants(w: World, op: Op, pool: string, c: PriorityClass, y: string) {
    || (op.OpEnqueue? && op.entry.spec.pool == pool && ClassOf(op.entry.spec) == c && op.entry.spec.owner == y &&
        pool in w.ctl.pools && !InRing(w, pool, c, y))
    || (op.OpSetLimits? && op.owner == y && InRing(w, pool, c, y))
  }

  ghost function Granted(ws: seq<World>, ops: seq<Op>, pool: string, c: PriorityClass, y: string, n: nat): int
    requires n <= |ops| < |ws|
  {
    if n == 0 then (if InRing(ws[0], pool, c, y) then EffectiveWeight(ws[0].ctl.limits, y) else 0)
    else Granted(ws, ops, pool, c, y, n - 1) +
         (if Grants(ws[n - 1], ops[n - 1], pool, c, y) then EffectiveWeight(ws[n].ctl.limits, y) else 0)
  }

  /** What y could take right now before o's turn. */
  ghost function Share(w: World, pool: string, c: PriorityClass, y: string): int {
    if InRing(w, pool, c, y) then EffectiveWeight(w.ctl.limits, y) else 0
  }

  lemma BudgetWithinShare(w: World, pool: string, c: PriorityClass, o: string, y: string)
    requires WorldOk(w) && y != o && InRing(w, pool, c, o)
    ensures 0 <= OwnerBudget(w, pool, c, o, y) <= Share(w, pool, c, y)
  {
    hide WorldOk, EffectiveWeight;
    FirstOwnerBudget(w, pool, c, o, y);
  }

  /** While nothing is selected from the pool, an owner's share grows only by what it is granted. */
  lemma QuietShare(w: World, op: Op, pool: string, c: PriorityClass, y: string)
    requires WorldOk(w) && Allowed(w, op) && !SelectsOn(op, pool)
    ensures Share(Step(w, op), pool, c, y) <=
            Share(w, pool, c, y) + (if Grants(w, op, pool, c, y) then EffectiveWeight(Step(w, op).ctl.limits, y) else 0)
  {
    hide WorldOk, Step, Allowed, EffectiveWeight, RingOf;
    WeightPositive(Step(w, op).ctl.limits, y);
    WeightPositive(w.ctl.limits, y);
    if pool in w.ctl.pools {
      QuietOwnerWheel(w, op, pool, c);
    } else {
      PoolsFixed(w, op, pool);
    }
    if !(op.OpSetLimits? && op.owner == y) {
      StepLimits(w, op, y);
    }
  }

  lemma PoolsFixed(w: World, op: Op, pool: string)
    requires WorldOk(w) && pool !in w.ctl.pools
    ensures pool !in Step(w, op).ctl.pools
  {
    hide StoreOk, ActiveOk, Conserved, Pick, ForgetInPool, RefreshPool, EnqueueInPool;
    match op
    case OpExpire(q, now, ids) => ForgetAllPools(w.ctl, ids, pool);
    case _ =>
  }

  lemma {:induction false} ForgetAllPools(s: State, ids: seq<string>, pool: string)
    requires pool !in s.pools
    ensures pool !in ForgetAll(s, ids).pools
    decreases |ids|
  {
    hide ForgetInPool;
    if ids != [] {
      ForgetAllPools(Cancel(s, ids[0]).0, ids[1..], pool);
    }
  }

  /** Served and still possible services together never exceed what was granted. */
  lemma {:induction false} OwnerServedWithinGrants(ws: seq<World>, ops: seq<Op>, pool: string, c: PriorityClass, o: string, y: string, n: nat)
    requires Run(ws, ops) && OwnerWaits(ws, ops, pool, c, o) && y != o && n <= |ops|
    ensures !InRing(ws[n], pool, c, o) ==>
              OwnerServed(ws, ops, pool, c, y, n) == 0 && Share(ws[n], pool, c, y) <= Granted(ws, ops, pool, c, y, n)
    ensures InRing(ws[n], pool, c, o) ==>
              OwnerServed(ws, ops, pool, c, y, n) + OwnerBudget(ws[n], pool, c, o, y) <= Granted(ws, ops, pool, c, y, n)
  {
    hide WorldOk, Step, Allowed, ReadyOwner, OwnerBudget, InRing, Serves, EffectiveWeight, ReadyClass, Share, Grants;
    RunOk(ws, ops, n);
    if n == 0 {
      StartsWithShare(ws[0], pool, c, o, y);
    } else {
      OwnerServedWithinGrants(ws, ops, pool, c, o, y, n - 1);
      RunOk(ws, ops, n - 1);
      var w, op := ws[n - 1], ops[n - 1];
      WeightPositive(ws[n].ctl.limits, y);
      if SelectsOn(op, pool) {
        OwnerReadyFromWorld(w, op, c, o);
      }
      if InRing(w, pool, c, o) {
        GrantStep(w, op, pool, c, o, y);
      } else {
        NotServedQuiet(w, op, pool, c);
        QuietShare(w, op, pool, c, y);
        if InRing(ws[n], pool, c, o) {
          BudgetWithinShare(ws[n], pool, c, o, y);
        }
      }
    }
  }

  lemma StartsWithShare(w: World, pool: string, c: PriorityClass, o: string, y: string)
    requires WorldOk(w) && y != o
    ensures Share(w, pool, c, y) == if InRing(w, pool, c, y) then EffectiveWeight(w.ctl.limits, y) else 0
    ensures InRing(w, pool, c, o) ==> OwnerBudget(w, pool, c, o, y) <= Share(w, pool, c, y)
  {
    hide WorldOk, EffectiveWeight;
    if InRing(w, pool, c, o) {
      BudgetWithinShare(w, pool, c, o, y);
    }
  }

  lemma GrantStep(w: World, op: Op, pool: string, c: PriorityClass, o: string, y: string)
    requires WorldOk(w) && Allowed(w, op) && InRing(w, pool, c, o) && y != o && WorldOk(Step(w, op))
    requires SelectsOn(op, pool) ==> ReadyOwner(w, op, c, o) && !ServesOwner(w, op, pool, c, o)
    ensures InRing(Step(w, op), pool, c, o)
    ensures OwnerBudget(Step(w, op), pool, c, o, y) + (if ServesOwner(w, op, pool, c, y) then 1 else 0) <=
            OwnerBudget(w, pool, c, o, y) + (if Grants(w, op, pool, c, y) then EffectiveWeight(Step(w, op).ctl.limits, y) else 0)
  {
    hide WorldOk, Step, Allowed, ReadyOwner, OwnerBudget, Serves, EffectiveWeight, RingOf;
    if Leaves(w, op, pool, c, y) {
      StepOwnerBudget(w, op, pool, c, o, y);
      WeightPositive(Step(w, op).ctl.limits, y);
    } else {
      NotServedQuiet(w, op, pool, c);
      RingStays(w, op, pool, c, o);
      BudgetWithinShare(w, pool, c, o, y);
      BudgetWithinShare(Step(w, op), pool, c, o, y);
      ShareIfGranted(w, op, pool, c, y);
    }
  }

  lemma RingStays(w: World, op: Op, pool: string, c: PriorityClass, o: string)
    requires WorldOk(w) && Allowed(w, op) && InRing(w, pool, c, o) && !SelectsOn(op, pool)
    ensures InRing(Step(w, op), pool, c, o)
  {
    hide WorldOk, Step, Allowed, RingOf;
    QuietOwnerWheel(w, op, pool, c);
  }

  /** An owner that was absent and only got new quotas is still absent. */
  lemma ShareIfGranted(w: World, op: Op, pool: string, c: PriorityClass, y: string)
    requires WorldOk(w) && Allowed(w, op) && pool in w.ctl.pools && !Leaves(w, op, pool, c, y)
    ensures Share(Step(w, op), pool, c, y) <= if Grants(w, op, pool, c, y) then EffectiveWeight(Step(w, op).ctl.limits, y) else 0
  {
    hide WorldOk, Step, Allowed, EffectiveWeight, RingOf;
    WeightPositive(Step(w, op).ctl.limits, y);
    QuietOwnerWheel(w, op, pool, c);
  }

  /**
   Bounded waiting inside a class, for every run: while owner o is ready at every
   selection of the pool but never chosen, each other owner y is chosen at most as
   often as its weight grants it, once if it is in the rotation at the start and
   once more for every time it joins or has its quotas renewed.
   */
  lemma OwnerBoundedWaiting(ws: seq<World>, ops: seq<Op>, pool: string, c: PriorityClass, o: string, y: string)
    requires Run(ws, ops) && OwnerWaits(ws, ops, pool, c, o) && y != o
    ensures OwnerServed(ws, ops, pool, c, y, |ops|) <= Granted(ws, ops, pool, c, y, |ops|)
  {
    hide OwnerWaits, OwnerServed, WorldOk, Step, Allowed, Granted, OwnerBudget, InRing, EffectiveWeight;
    OwnerServedWithinGrants(ws, ops, pool, c, o, y, |ops|);
    RunOk(ws, ops, |ops|);
    if InRing(ws[|ops|], pool, c, o) {
      BudgetWithinShare(ws[|ops|], pool, c, o, y);
    } else {
      ShareNonNegative(ws[|ops|], pool, c, y);
    }
  }

  lemma ShareNonNegative(w: World, pool: string, c: PriorityClass, y: string)
    ensures Share(w, pool, c, y) >= 0
  {
    hide InRing, EffectiveWeight;
    WeightPositive(w.ctl.limits, y);
  }

  /** An owner that is granted nothing meanwhile is held to its weight. */
  lemma {:induction false} NoGrantsNoMore(ws: seq<World>, ops: seq<Op>, pool: string, c: PriorityClass, y: string, n: nat)
    requires n <= |ops| < |ws|
    requires forall i :: 0 <= i < n ==> !Grants(ws[i], ops[i], pool, c, y)
    ensures Granted(ws, ops, pool, c, y, n) == Share(ws[0], pool, c, y)
  {
    hide Grants, InRing, EffectiveWeight;
    if n > 0 {
      NoGrantsNoMore(ws, ops, pool, c, y, n - 1);
    }
  }
}
