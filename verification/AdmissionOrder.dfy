/** FIFO order per key, exact expiry, and quotas that admission never lets a run exceed. */
module AdmissionOrder {
  import opened Prelude
  import opened AdmissionTypes
  import opened AdmissionModel
  import opened AdmissionSchedule
  import opened AdmissionStore
  import opened AdmissionRuns
  import opened AdmissionTheorems

  // ----- FIFO

  ghost predicate Before(q: seq<Entry>, a: Entry, b: Entry) {
    exists i, j :: 0 <= i < j < |q| && q[i] == a && q[j] == b
  }

  lemma BeforeRemove(q: seq<Entry>, id: string, a: Entry, b: Entry)
    requires Before(q, a, b) && a.spec.id != id && b.spec.id != id
    ensures Before(RemoveId(q, id), a, b)
  {
    var i, j :| 0 <= i < j < |q| && q[i] == a && q[j] == b;
    var k := Position(q, id);
    if k.Some? {
      var r := Without(q, k.value);
      var i', j' := if i < k.value then i else i - 1, if j < k.value then j else j - 1;
      assert r[i'] == a && r[j'] == b;
    }
  }

  lemma BeforeAppend(q: seq<Entry>, e: Entry, a: Entry, b: Entry)
    requires Before(q, a, b)
    ensures Before(q + [e], a, b)
  {
    var i, j :| 0 <= i < j < |q| && q[i] == a && q[j] == b;
    assert (q + [e])[i] == a && (q + [e])[j] == b;
  }

  /** a precedes b in this queue. */
  ghost predicate QueuedBefore(s: State, p: string, c: PriorityClass, o: string, a: Entry, b: Entry) {
    Before(Queue(s, p, c, o), a, b)
  }

  lemma ForgetOrder(s: State, e: Entry, p: string, c: PriorityClass, o: string, a: Entry, b: Entry)
    requires StoreOk(s) && Waiting(s, e) && QueuedBefore(s, p, c, o, a, b)
    requires a.spec.id != e.spec.id && b.spec.id != e.spec.id
    ensures QueuedBefore(Forget(s, e), p, c, o, a, b)
  {
    hide StoreOk, Forget, RemoveId, Queue, Before;
    QueueAfterForget(s, e, p, c, o);
    BeforeRemove(Queue(s, p, c, o), e.spec.id, a, b);
  }

  lemma {:induction false} ForgetAllOrder(s: State, ids: seq<string>, p: string, c: PriorityClass, o: string, a: Entry, b: Entry)
    requires StoreOk(s) && QueuedBefore(s, p, c, o, a, b)
    requires a.spec.id !in ids && b.spec.id !in ids
    ensures QueuedBefore(ForgetAll(s, ids), p, c, o, a, b)
    decreases |ids|
  {
    hide StoreOk, Forget, QueuedBefore;
    if ids != [] {
      if ids[0] in s.taskById {
        StoreHasTasks(s, ids[0]);
        ForgetOrder(s, s.taskById[ids[0]], p, c, o, a, b);
        ForgetOk(s, s.taskById[ids[0]]);
      }
      ForgetAllOrder(Cancel(s, ids[0]).0, ids[1..], p, c, o, a, b);
    }
  }

  lemma {:induction false} ForgetAllTasks(s: State, ids: seq<string>, id: string)
    requires StoreOk(s) && id in ids
    ensures id !in ForgetAll(s, ids).taskById
    decreases |ids|
  {
    hide StoreOk, Forget;
    if ids[0] in s.taskById {
      StoreHasTasks(s, ids[0]);
      ForgetOk(s, s.taskById[ids[0]]);
      ForgetTasks(s, s.taskById[ids[0]]);
    }
    if id == ids[0] {
      ForgetAllShrinks(Cancel(s, ids[0]).0, ids[1..], id);
    } else {
      ForgetAllTasks(Cancel(s, ids[0]).0, ids[1..], id);
    }
  }

  lemma {:induction false} ForgetAllShrinks(s: State, ids: seq<string>, id: string)
    requires id !in s.taskById
    ensures id !in ForgetAll(s, ids).taskById
    decreases |ids|
  {
    hide ForgetInPool;
    if ids != [] {
      ForgetAllShrinks(Cancel(s, ids[0]).0, ids[1..], id);
    }
  }

  lemma EnqueueOrder(s: State, e: Entry, p: string, c: PriorityClass, o: string, a: Entry, b: Entry)
    requires s.deadlines.Keys == s.pools.Keys && QueuedBefore(s, p, c, o, a, b)
    ensures QueuedBefore(Enqueue(s, e), p, c, o, a, b)
  {
    hide Before;
    if e.spec.pool in s.pools {
      QueueAfterEnqueue(s, e, p, c, o);
      BeforeAppend(Queue(s, p, c, o), e, a, b);
    }
  }

  lemma SelectOrder(s: State, pool: string, now: Time, eligible: WorkSpec -> bool,
                    p: string, c: PriorityClass, o: string, a: Entry, b: Entry)
    requires StoreOk(s) && pool in s.pools && QueuedBefore(s, p, c, o, a, b)
    requires a.spec.id in Select(s, pool, now, eligible).0.taskById && b.spec.id in Select(s, pool, now, eligible).0.taskById
    ensures QueuedBefore(Select(s, pool, now, eligible).0, p, c, o, a, b)
  {
    hide StoreOk, Select, Pick, Forget, RightChoice, Before, Runnable, OwnerOpen, RingOf, QueueOf;
    var g := GateOf(s, now, eligible);
    SelectForm(s, pool, now, eligible);
    TurnedOk(s, pool, g);
    var m := Turned(s, pool, g);
    assert QueuedBefore(m, p, c, o, a, b);
    if PickNext(s.pools[pool], g).1.Some? {
      var e := PickNext(s.pools[pool], g).1.value;
      ChosenFacts(s, pool, g);
      ForgetTasks(m, e);
      ForgetOrder(m, e, p, c, o, a, b);
    }
  }

  /** No step reorders two entries that stay in the same queue. */
  lemma StepOrder(w: World, op: Op, p: string, c: PriorityClass, o: string, a: Entry, b: Entry)
    requires WorldOk(w) && Allowed(w, op) && QueuedBefore(w.ctl, p, c, o, a, b)
    requires a.spec.id in Step(w, op).ctl.taskById && b.spec.id in Step(w, op).ctl.taskById
    ensures QueuedBefore(Step(w, op).ctl, p, c, o, a, b)
  {
    hide StoreOk, ActiveOk, Conserved, Select, Enqueue, ForgetAll, SetLimits, Before, Queue, ExpiredEvents, DueList, Forget;
    match op
    case OpEnqueue(e) =>
      StoreDeadlineKeys(w.ctl);
      EnqueueOrder(w.ctl, e, p, c, o, a, b);
    case OpSelect(pool, now, eligible) =>
      if pool in w.ctl.pools {
        SelectOrder(w.ctl, pool, now, eligible, p, c, o, a, b);
      } else {
        SelectUnknown(w.ctl, pool, now, eligible);
      }
    case OpTerminal(spec) =>
      TerminalQueue(w.ctl, spec, p, c, o);
    case OpCancel(id) =>
      if id in w.ctl.taskById {
        StoreHasTasks(w.ctl, id);
        ForgetTasks(w.ctl, w.ctl.taskById[id]);
        ForgetOrder(w.ctl, w.ctl.taskById[id], p, c, o, a, b);
      }
    case OpExpire(pool, now, ids) =>
      if a.spec.id in ids { ForgetAllTasks(w.ctl, ids, a.spec.id); }
      if b.spec.id in ids { ForgetAllTasks(w.ctl, ids, b.spec.id); }
      ForgetAllOrder(w.ctl, ids, p, c, o, a, b);
    case OpSetLimits(owner, limits) =>
      SetLimitsOk(w.ctl, owner, limits);
  }

  lemma TerminalQueue(s: State, spec: WorkSpec, p: string, c: PriorityClass, o: string)
    ensures Queue(Terminal(s, spec), p, c, o) == Queue(s, p, c, o)
  {
  }

  ghost predicate StaysWaiting(ws: seq<World>, from: nat, n: nat, e: Entry)
    requires n < |ws|
  {
    forall k :: from < k <= n ==> IsWaiting(ws[k].ctl.taskById, e)
  }

  /** Once a is enqueued before b in the same queue, it stays before b while both wait. */
  lemma {:induction false} OrderKept(ws: seq<World>, ops: seq<Op>, j: nat, n: nat, a: Entry, b: Entry)
    requires Run(ws, ops) && j < n <= |ops|
    requires ops[j] == OpEnqueue(b) && IsWaiting(ws[j].ctl.taskById, a)
    requires StaysWaiting(ws, j, n, a) && StaysWaiting(ws, j, n, b)
    requires a.spec.pool == b.spec.pool && ClassOf(a.spec) == ClassOf(b.spec) && a.spec.owner == b.spec.owner
    ensures QueuedBefore(ws[n].ctl, b.spec.pool, ClassOf(b.spec), b.spec.owner, a, b)
    decreases n
  {
    hide WorldOk, Step, Allowed, QueuedBefore, IsWaiting;
    RunOk(ws, ops, n - 1);
    assert IsWaiting(ws[n].ctl.taskById, a) && IsWaiting(ws[n].ctl.taskById, b);
    if n == j + 1 {
      EnqueuedLast(ws[j], a, b);
    } else {
      OrderKept(ws, ops, j, n - 1, a, b);
      WaitingIds(ws[n], a);
      WaitingIds(ws[n], b);
      StepOrder(ws[n - 1], ops[n - 1], b.spec.pool, ClassOf(b.spec), b.spec.owner, a, b);
    }
  }

  lemma WaitingIds(w: World, e: Entry)
    requires IsWaiting(w.ctl.taskById, e)
    ensures e.spec.id in w.ctl.taskById
  {
  }

  lemma EnqueuedLast(w: World, a: Entry, b: Entry)
    requires WorldOk(w) && Allowed(w, OpEnqueue(b)) && IsWaiting(w.ctl.taskById, a)
    requires a.spec.pool == b.spec.pool && ClassOf(a.spec) == ClassOf(b.spec) && a.spec.owner == b.spec.owner
    ensures QueuedBefore(Step(w, OpEnqueue(b)).ctl, b.spec.pool, ClassOf(b.spec), b.spec.owner, a, b)
  {
    hide StoreOk, ActiveOk, Conserved, Enqueue, Queue;
    StoreHasTasks(w.ctl, a.spec.id);
    StoreQueued(w.ctl, a);
    QueueAfterEnqueue(w.ctl, b, b.spec.pool, ClassOf(b.spec), b.spec.owner);
    var q := Queue(w.ctl, b.spec.pool, ClassOf(b.spec), b.spec.owner);
    var i :| 0 <= i < |q| && q[i] == a;
    assert (q + [b])[i] == a && (q + [b])[|q|] == b;
  }

  lemma StoreQueued(s: State, e: Entry)
    requires StoreOk(s) && Waiting(s, e)
    ensures e in Queue(s, e.spec.pool, ClassOf(e.spec), e.spec.owner)
    ensures DistinctIds(Queue(s, e.spec.pool, ClassOf(e.spec), e.spec.owner))
  {
    hide QueuesAgree, DeadlinesAgree, TotalsAgree, CountersAgree, PoolsOk, WeightsOk, Queue, DistinctIds;
    WaitingIsQueued(s, e);
  }

  lemma FirstOfKey(q: seq<Entry>, g: Gate, a: Entry, b: Entry)
    requires DistinctIds(q) && Before(q, a, b) && FirstRunnable(g, q).Some? && q[FirstRunnable(g, q).value] == b
    requires a.spec.orderingKey == b.spec.orderingKey && (forall s :: g.eligible(s))
    ensures PastDeadline(a.spec, g.now)
  {
    var i, j :| 0 <= i < j < |q| && q[i] == a && q[j] == b;
    assert j == FirstRunnable(g, q).value;
    assert !Runnable(g, q[i]) && Runnable(g, q[j]);
  }

  /**
   FIFO per key: of two entries of the same pool, class, owner and ordering key,
   the one enqueued later is dispatched while the earlier one still waits only if
   the earlier one has passed its queue deadline.  (No resource predicate.)
   */
  lemma FifoPerKey(ws: seq<World>, ops: seq<Op>, j: nat, n: nat, a: Entry, b: Entry)
    requires Run(ws, ops) && j < n < |ops|
    requires ops[j] == OpEnqueue(b) && IsWaiting(ws[j].ctl.taskById, a)
    requires StaysWaiting(ws, j, n, a) && StaysWaiting(ws, j, n, b)
    requires a.spec.pool == b.spec.pool && ClassOf(a.spec) == ClassOf(b.spec) && a.spec.owner == b.spec.owner
    requires a.spec.orderingKey == b.spec.orderingKey
    requires ops[n].OpSelect? && (forall s :: ops[n].eligible(s))
    requires Select(ws[n].ctl, ops[n].pool, ops[n].now, ops[n].eligible).1 == Some(b)
    ensures PastDeadline(a.spec, ops[n].now)
  {
    hide Step, Allowed, StoreOk, ActiveOk, Conserved, Select, Pick, IsWaiting, Before, DistinctIds, Runnable, OwnerOpen, PastDeadline;
    OrderKept(ws, ops, j, n, a, b);
    RunOk(ws, ops, n);
    var op, s := ops[n], ws[n].ctl;
    var g := GateOf(s, op.now, op.eligible);
    if op.pool !in s.pools {
      SelectUnknown(s, op.pool, op.now, op.eligible);
    } else {
      SelectForm(s, op.pool, op.now, op.eligible);
      ChosenFacts(s, op.pool, g);
      StoreQueued(s, b);
      FirstOfKey(Queue(s, b.spec.pool, ClassOf(b.spec), b.spec.owner), g, a, b);
    }
  }

  // ----- exact expiry

  ghost predicate DueIn(spec: WorkSpec, pool: string, now: Time) {
    spec.pool == pool && spec.deadline.Some? && spec.deadline.value <= now
  }

  /** A sweep removes exactly the pool's waiting entries whose deadline is not after now, and nothing else. */
  lemma SweepExact(w: World, pool: string, now: Time, ids: seq<string>)
    requires WorldOk(w) && pool in w.ctl.deadlines && Allowed(w, OpExpire(pool, now, ids))
    ensures var t' := Step(w, OpExpire(pool, now, ids)).ctl.taskById;
            && (forall id :: id in t' <==> (id in w.ctl.taskById && !DueIn(w.ctl.taskById[id].spec, pool, now)))
            && (forall id :: id in t' ==> t'[id] == w.ctl.taskById[id])
  {
    hide StoreOk, ActiveOk, Conserved, ForgetAll, ExpiredEvents;
    DueAreWaiting(w.ctl, pool, now, ids);
    ExpireOk(w.ctl, w.active, w.log, ids);
  }

  // ----- quotas

  /** Pool backlogs and budgets, and each owner's waiting count and bytes, are within their limits. */
  ghost predicate WithinQuotas(s: State) {
    && (forall p :: p in s.pools ==>
          && (s.pools[p].config.backlogLimit > 0 ==> s.pools[p].totalWaiting <= s.pools[p].config.backlogLimit)
          && (s.pools[p].config.payloadBudget > 0 ==> s.pools[p].totalBytes <= s.pools[p].config.payloadBudget))
    && (forall o :: Get(s.waitingCount, o) <= LimitsOf(s.limits, o).maxWaiting)
    && (forall o :: Get(s.waitingBytes, o) <= LimitsOf(s.limits, o).maxPayload)
  }

  /** Enqueue only what CanAdmit accepted; do not lower an owner's limits. */
  ghost predicate Guarded(w: World, op: Op) {
    match op
    case OpEnqueue(e) => CanAdmit(w.ctl, e.spec, e.payload).None?
    case OpSetLimits(owner, limits) =>
      && LimitsOf(w.ctl.limits, owner).maxWaiting <= NormalizeLimits(limits).maxWaiting
      && LimitsOf(w.ctl.limits, owner).maxPayload <= NormalizeLimits(limits).maxPayload
    case _ => true
  }

  lemma ForgetQuotas(s: State, e: Entry)
    requires WithinQuotas(s) && Waiting(s, e)
    requires forall o :: LimitsOf(s.limits, o).maxWaiting > 0 && LimitsOf(s.limits, o).maxPayload > 0
    ensures WithinQuotas(Forget(s, e))
  {
    hide RemoveId, LimitsOf;
    var s' := Forget(s, e);
    forall o
      ensures Get(s'.waitingCount, o) <= LimitsOf(s.limits, o).maxWaiting
      ensures Get(s'.waitingBytes, o) <= LimitsOf(s.limits, o).maxPayload
    {
      assert Get(s.waitingCount, o) <= LimitsOf(s.limits, o).maxWaiting;
      assert Get(s.waitingBytes, o) <= LimitsOf(s.limits, o).maxPayload;
    }
  }

  lemma LimitsPositive(s: State)
    requires StoreOk(s)
    ensures forall o :: LimitsOf(s.limits, o).maxWaiting > 0 && LimitsOf(s.limits, o).maxPayload > 0
  {
    hide QueuesAgree, DeadlinesAgree, TotalsAgree, CountersAgree, PoolsOk, RingWeights;
  }

  lemma CancelQuotas(s: State, id: string)
    requires StoreOk(s) && WithinQuotas(s)
    ensures WithinQuotas(Cancel(s, id).0) && StoreOk(Cancel(s, id).0)
  {
    hide StoreOk, Forget, WithinQuotas;
    if id in s.taskById {
      StoreHasTasks(s, id);
      LimitsPositive(s);
      ForgetQuotas(s, s.taskById[id]);
      ForgetOk(s, s.taskById[id]);
    }
  }

  lemma {:induction false} ForgetAllQuotas(s: State, ids: seq<string>)
    requires StoreOk(s) && WithinQuotas(s)
    ensures WithinQuotas(ForgetAll(s, ids))
    decreases |ids|
  {
    hide StoreOk, Cancel, WithinQuotas;
    if ids != [] {
      CancelQuotas(s, ids[0]);
      ForgetAllQuotas(Cancel(s, ids[0]).0, ids[1..]);
    }
  }

  lemma EnqueueQuotas(s: State, e: Entry)
    requires WithinQuotas(s) && s.deadlines.Keys == s.pools.Keys && CanAdmit(s, e.spec, e.payload).None?
    requires forall o :: LimitsOf(s.limits, o).maxWaiting > 0 && LimitsOf(s.limits, o).maxPayload > 0
    ensures WithinQuotas(Enqueue(s, e))
  {
    hide JoinOwner, RingOf, QueueOf, LimitsOf;
    var s' := Enqueue(s, e);
    forall o
      ensures Get(s'.waitingCount, o) <= LimitsOf(s.limits, o).maxWaiting
      ensures Get(s'.waitingBytes, o) <= LimitsOf(s.limits, o).maxPayload
    {
      assert Get(s.waitingCount, o) <= LimitsOf(s.limits, o).maxWaiting;
      assert Get(s.waitingBytes, o) <= LimitsOf(s.limits, o).maxPayload;
    }
  }

  lemma TurnedQuotas(s: State, pool: string, g: Gate)
    requires StoreOk(s) && pool in s.pools && WithinQuotas(s)
    ensures WithinQuotas(Turned(s, pool, g))
  {
    hide QueuesAgree, DeadlinesAgree, TotalsAgree, CountersAgree, WeightsOk, PoolOk, Pick, LimitsOf, RingKept;
    PickKeeps(s.pools[pool], g, |s.pools[pool].wheel.items|);
  }

  lemma SelectQuotas(s: State, pool: string, now: Time, eligible: WorkSpec -> bool)
    requires StoreOk(s) && pool in s.pools && WithinQuotas(s)
    ensures WithinQuotas(Select(s, pool, now, eligible).0)
  {
    hide StoreOk, Select, Pick, Forget, RightChoice, Runnable, OwnerOpen, LimitsOf;
    var g := GateOf(s, now, eligible);
    SelectForm(s, pool, now, eligible);
    TurnedQuotas(s, pool, g);
    if PickNext(s.pools[pool], g).1.Some? {
      ChosenFacts(s, pool, g);
      LimitsPositive(s);
      ForgetQuotas(Turned(s, pool, g), PickNext(s.pools[pool], g).1.value);
    }
  }

  lemma TerminalQuotas(s: State, spec: WorkSpec)
    requires WithinQuotas(s)
    ensures WithinQuotas(Terminal(s, spec))
  {
    hide LimitsOf;
    var s' := Terminal(s, spec);
    forall o
      ensures Get(s'.waitingCount, o) <= LimitsOf(s.limits, o).maxWaiting
      ensures Get(s'.waitingBytes, o) <= LimitsOf(s.limits, o).maxPayload
    {
      assert Get(s.waitingCount, o) <= LimitsOf(s.limits, o).maxWaiting;
      assert Get(s.waitingBytes, o) <= LimitsOf(s.limits, o).maxPayload;
    }
  }

  lemma SetLimitsQuotas(s: State, owner: string, limits: OwnerLimits)
    requires WithinQuotas(s)
    requires LimitsOf(s.limits, owner).maxWaiting <= NormalizeLimits(limits).maxWaiting
    requires LimitsOf(s.limits, owner).maxPayload <= NormalizeLimits(limits).maxPayload
    ensures WithinQuotas(SetLimits(s, owner, limits))
  {
    hide RefreshRing;
    var s' := SetLimits(s, owner, limits);
    forall o
      ensures Get(s'.waitingCount, o) <= LimitsOf(s'.limits, o).maxWaiting
      ensures Get(s'.waitingBytes, o) <= LimitsOf(s'.limits, o).maxPayload
    {
      assert Get(s.waitingCount, o) <= LimitsOf(s.limits, o).maxWaiting;
      assert Get(s.waitingBytes, o) <= LimitsOf(s.limits, o).maxPayload;
    }
  }

  lemma StepQuotas(w: World, op: Op)
    requires WorldOk(w) && Allowed(w, op) && Guarded(w, op) && WithinQuotas(w.ctl)
    ensures WithinQuotas(Step(w, op).ctl)
  {
    hide StoreOk, ActiveOk, Conserved, WithinQuotas, Select, Enqueue, Cancel, ForgetAll, SetLimits, Terminal, LimitsOf, ExpiredEvents, DueList;
    match op
    case OpEnqueue(e) =>
      StoreDeadlineKeys(w.ctl);
      LimitsPositive(w.ctl);
      EnqueueQuotas(w.ctl, e);
    case OpSelect(pool, now, eligible) =>
      if pool in w.ctl.pools {
        SelectQuotas(w.ctl, pool, now, eligible);
      } else {
        SelectUnknown(w.ctl, pool, now, eligible);
      }
    case OpTerminal(spec) =>
      TerminalQuotas(w.ctl, spec);
    case OpCancel(id) =>
      CancelQuotas(w.ctl, id);
    case OpExpire(pool, now, ids) =>
      ForgetAllQuotas(w.ctl, ids);
    case OpSetLimits(owner, limits) =>
      SetLimitsQuotas(w.ctl, owner, limits);
  }

  /** Runs that ask CanAdmit before each Enqueue never exceed a limit that is not lowered. */
  lemma {:induction false} QuotasHold(ws: seq<World>, ops: seq<Op>, n: nat)
    requires Run(ws, ops) && n <= |ops| && WithinQuotas(ws[0].ctl)
    requires forall i :: 0 <= i < n ==> Guarded(ws[i], ops[i])
    ensures WithinQuotas(ws[n].ctl)
  {
    hide WithinQuotas, WorldOk, Step, Allowed, Guarded;
    if n > 0 {
      QuotasHold(ws, ops, n - 1);
      RunOk(ws, ops, n - 1);
      StepQuotas(ws[n - 1], ops[n - 1]);
    }
  }
}
