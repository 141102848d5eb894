/**
 Whole runs of the admission controller: any sequence of enqueues, selections,
 completions, cancellations, deadline sweeps and quota changes, in any order
 and on any pools.  A world is the controller's state together with the tasks
 it has dispatched and not yet seen finish, and a log of arrivals and departures.
 */
module AdmissionRuns {
  import opened Prelude
  import opened Wheels
  import opened AdmissionTypes
  import opened AdmissionModel
  import opened AdmissionSchedule
  import opened AdmissionStore

  datatype Event = Enqueued(entry: Entry) | Dispatched(entry: Entry) | Cancelled(entry: Entry) | Expired(entry: Entry)

  datatype World = World(ctl: State, active: map<string, WorkSpec>, log: seq<Event>)

  datatype Op =
    | OpEnqueue(entry: Entry)
    | OpSelect(pool: string, now: Time, eligible: WorkSpec -> bool)
    | OpTerminal(spec: WorkSpec)
    | OpCancel(id: string)
    | OpExpire(pool: string, now: Time, ids: seq<string>)
    | OpSetLimits(owner: string, limits: OwnerLimits)

  /** `ids` is the list a deadline index may return: the entries due by now, earliest first. */
  ghost predicate DueList(due: map<string, Time>, now: Time, ids: seq<string>) {
    && Distinct(ids)
    && (forall id :: id in ids <==> id in due && due[id] <= now)
    && (forall i, j :: 0 <= i < j < |ids| ==> ids[i] in due && ids[j] in due && due[ids[i]] <= due[ids[j]])
  }

  /** What callers owe: fresh ids, and completion reported once for each dispatched task. */
  ghost predicate Allowed(w: World, op: Op) {
    match op
    case OpEnqueue(e) => e.spec.id !in w.ctl.taskById && e.spec.id !in w.active
    case OpTerminal(spec) => spec.id in w.active && w.active[spec.id] == spec
    case OpExpire(pool, now, ids) =>
      if pool in w.ctl.deadlines then DueList(w.ctl.deadlines[pool], now, ids) else ids == []
    case _ => true
  }

  ghost function ExpiredEvents(t: map<string, Entry>, ids: seq<string>): seq<Event> {
    if ids == [] then [] else
      (if ids[0] in t then [Expired(t[ids[0]])] else []) + ExpiredEvents(t, ids[1..])
  }

  ghost function Step(w: World, op: Op): World {
    match op
    case OpEnqueue(e) =>
      if e.spec.pool in w.ctl.pools
      then World(Enqueue(w.ctl, e), w.active, w.log + [Enqueued(e)]) else w
    case OpSelect(pool, now, eligible) =>
      var (s', hit) := Select(w.ctl, pool, now, eligible);
      if hit.None? then w.(ctl := s')
      else World(s', w.active[hit.value.spec.id := hit.value.spec], w.log + [Dispatched(hit.value)])
    case OpTerminal(spec) =>
      w.(ctl := Terminal(w.ctl, spec), active := w.active - {spec.id})
    case OpCancel(id) =>
      var (s', gone) := Cancel(w.ctl, id);
      if gone.None? then w else World(s', w.active, w.log + [Cancelled(gone.value)])
    case OpExpire(pool, now, ids) =>
      World(ForgetAll(w.ctl, ids), w.active, w.log + ExpiredEvents(w.ctl.taskById, ids))
    case OpSetLimits(owner, limits) =>
      w.(ctl := SetLimits(w.ctl, owner, limits))
  }

  // ----- invariants over dispatched tasks and the log

  ghost function ActiveOf(active: map<string, WorkSpec>, owner: string): set<string> {
    set id | id in active && active[id].owner == owner
  }

  /** Locks and owner counts describe exactly the tasks in flight. */
  ghost predicate ActiveOk(s: State, active: map<string, WorkSpec>) {
    && (forall id :: id in active ==> active[id].id == id && id !in s.taskById)
    && (forall k :: k in s.locks ==> k != "" && s.locks[k] in active && active[s.locks[k]].orderingKey == k)
    && (forall id :: id in active && active[id].orderingKey != "" ==>
          active[id].orderingKey in s.locks && s.locks[active[id].orderingKey] == id)
    && (forall o :: Get(s.activeCount, o) == |ActiveOf(active, o)| && (o in s.activeCount <==> ActiveOf(active, o) != {}))
  }

  ghost function Departures(log: seq<Event>, e: Entry): nat {
    multiset(log)[Dispatched(e)] + multiset(log)[Cancelled(e)] + multiset(log)[Expired(e)]
  }

  ghost predicate IsWaiting(t: map<string, Entry>, e: Entry) {
    e.spec.id in t && t[e.spec.id] == e
  }

  /** Each arrival is matched by one departure, or is still waiting. */
  ghost predicate Conserved(t: map<string, Entry>, log: seq<Event>) {
    forall e :: multiset(log)[Enqueued(e)] == Departures(log, e) + (if IsWaiting(t, e) then 1 else 0)
  }

  ghost predicate WorldOk(w: World) {
    StoreOk(w.ctl) && ActiveOk(w.ctl, w.active) && Conserved(w.ctl.taskById, w.log)
  }

  ghost function Start(configs: map<string, PoolConfig>): World {
    World(Initial(configs), map[], [])
  }

  lemma StartOk(configs: map<string, PoolConfig>)
    ensures WorldOk(Start(configs))
  {
    InitialOk(configs);
    hide StoreOk;
    assert forall o :: ActiveOf(map[], o) == {};
  }

  // ----- one step at a time

  lemma StoreHasTasks(s: State, id: string)
    requires StoreOk(s) && id in s.taskById
    ensures Waiting(s, s.taskById[id]) && s.taskById[id].spec.id == id
  {
    hide DeadlinesAgree, TotalsAgree, CountersAgree, PoolsOk, WeightsOk, Queue, AtHome, DistinctIds;
    assert Queued(s, s.taskById[id]);
    StoreDeadlineKeys(s);
  }

  lemma StoreDeadlineKeys(s: State)
    requires StoreOk(s)
    ensures s.deadlines.Keys == s.pools.Keys
  {
    hide QueuesAgree, TotalsAgree, CountersAgree, PoolsOk, WeightsOk;
  }

  lemma ConservedAfterExit(t: map<string, Entry>, log: seq<Event>, e: Entry, ev: Event)
    requires Conserved(t, log) && IsWaiting(t, e) && ev in {Dispatched(e), Cancelled(e), Expired(e)}
    ensures Conserved(t - {e.spec.id}, log + [ev])
  {
    var t' := t - {e.spec.id};
    forall x
      ensures multiset(log + [ev])[Enqueued(x)] == Departures(log + [ev], x) + (if IsWaiting(t', x) then 1 else 0)
    {
      assert multiset(log + [ev]) == multiset(log) + multiset{ev};
      assert multiset(log)[Enqueued(x)] == Departures(log, x) + (if IsWaiting(t, x) then 1 else 0);
    }
  }

  lemma EnqueueStepOk(w: World, e: Entry)
    requires WorldOk(w) && Allowed(w, OpEnqueue(e))
    ensures WorldOk(Step(w, OpEnqueue(e)))
  {
    hide StoreOk, Enqueue, Conserved, ActiveOf;
    if e.spec.pool in w.ctl.pools {
      StoreDeadlineKeys(w.ctl);
      EnqueueOk(w.ctl, e);
      EnqueueTasks(w.ctl, e);
      EnqueueActive(w.ctl, e);
      EnqueueLog(w.ctl.taskById, w.log, e);
    }
  }

  lemma EnqueueActive(s: State, e: Entry)
    ensures Enqueue(s, e).activeCount == s.activeCount && Enqueue(s, e).locks == s.locks && Enqueue(s, e).limits == s.limits
  {
    hide EnqueueInPool;
  }

  lemma EnqueueLog(t: map<string, Entry>, log: seq<Event>, e: Entry)
    requires Conserved(t, log) && e.spec.id !in t
    ensures Conserved(t[e.spec.id := e], log + [Enqueued(e)])
  {
    var log' := log + [Enqueued(e)];
    forall x
      ensures multiset(log')[Enqueued(x)] == Departures(log', x) + (if IsWaiting(t[e.spec.id := e], x) then 1 else 0)
    {
      assert multiset(log') == multiset(log) + multiset{Enqueued(e)};
      assert multiset(log)[Enqueued(x)] == Departures(log, x) + (if IsWaiting(t, x) then 1 else 0);
    }
  }

  /** Forgetting a waiting entry leaves the dispatched tasks' bookkeeping alone. */
  lemma ForgetActive(s: State, active: map<string, WorkSpec>, e: Entry)
    requires ActiveOk(s, active) && Waiting(s, e)
    ensures ActiveOk(Forget(s, e), active)
    ensures Forget(s, e).limits == s.limits && Forget(s, e).locks == s.locks
  {
    hide ForgetInPool, ActiveOf;
    var s' := Forget(s, e);
    forall o
      ensures Get(s'.activeCount, o) == |ActiveOf(active, o)| && (o in s'.activeCount <==> ActiveOf(active, o) != {})
    {
      assert Get(s.activeCount, o) == |ActiveOf(active, o)|;
    }
  }

  lemma CancelStepOk(w: World, id: string)
    requires WorldOk(w)
    ensures WorldOk(Step(w, OpCancel(id)))
  {
    if id in w.ctl.taskById {
      CancelKnownOk(w, id);
    }
  }

  lemma CancelKnownOk(w: World, id: string)
    requires WorldOk(w) && id in w.ctl.taskById
    ensures WorldOk(Step(w, OpCancel(id)))
  {
    hide StoreOk, Forget, Conserved, ActiveOk;
    var e := w.ctl.taskById[id];
    StoreHasTasks(w.ctl, id);
    ForgetOk(w.ctl, e);
    ForgetTasks(w.ctl, e);
    ForgetActive(w.ctl, w.active, e);
    ConservedAfterExit(w.ctl.taskById, w.log, e, Cancelled(e));
  }

  lemma TerminalStepOk(w: World, spec: WorkSpec)
    requires WorldOk(w) && Allowed(w, OpTerminal(spec))
    ensures WorldOk(Step(w, OpTerminal(spec)))
  {
    hide StoreOk, Conserved;
    TerminalStore(w.ctl, spec);
    TerminalActive(w.ctl, w.active, spec);
  }

  lemma TerminalStore(s: State, spec: WorkSpec)
    requires StoreOk(s)
    ensures StoreOk(Terminal(s, spec)) && Terminal(s, spec).taskById == s.taskById
  {
    hide QueuesAgree, DeadlinesAgree, TotalsAgree, CountersAgree, PoolsOk, WeightsOk;
    TerminalCounters(s, spec);
    FrameOk(s, Terminal(s, spec));
  }

  lemma TerminalCounters(s: State, spec: WorkSpec)
    requires CountersAgree(s)
    ensures CountersAgree(Terminal(s, spec))
  {
    hide BytesOf, OwnerTasks;
    var s' := Terminal(s, spec);
    forall o
      ensures Get(s'.waitingCount, o) == |OwnerTasks(s.taskById, o)|
      ensures Get(s'.waitingBytes, o) == BytesOf(s.taskById, OwnerTasks(s.taskById, o))
      ensures o in s'.waitingCount <==> OwnerTasks(s.taskById, o) != {}
    {
      assert Get(s.waitingCount, o) == |OwnerTasks(s.taskById, o)|;
    }
  }

  lemma ActiveOfRemove(active: map<string, WorkSpec>, id: string, o: string)
    requires id in active
    ensures ActiveOf(active - {id}, o) == ActiveOf(active, o) - {id}
    ensures |ActiveOf(active - {id}, o)| == |ActiveOf(active, o)| - (if active[id].owner == o then 1 else 0)
  {
    if active[id].owner != o {
      assert ActiveOf(active, o) - {id} == ActiveOf(active, o);
    }
  }

  lemma ActiveOfAdd(active: map<string, WorkSpec>, spec: WorkSpec, o: string)
    requires spec.id !in active
    ensures |ActiveOf(active[spec.id := spec], o)| == |ActiveOf(active, o)| + (if spec.owner == o then 1 else 0)
  {
    var a := active[spec.id := spec];
    assert ActiveOf(a, o) == if spec.owner == o then ActiveOf(active, o) + {spec.id} else ActiveOf(active, o);
  }

  lemma TerminalActive(s: State, active: map<string, WorkSpec>, spec: WorkSpec)
    requires ActiveOk(s, active) && spec.id in active && active[spec.id] == spec
    ensures ActiveOk(Terminal(s, spec), active - {spec.id})
  {
    hide ActiveOf, Compact, Add;
    var s', a := Terminal(s, spec), active - {spec.id};
    forall o
      ensures Get(s'.activeCount, o) == |ActiveOf(a, o)| && (o in s'.activeCount <==> ActiveOf(a, o) != {})
    {
      assert Get(s.activeCount, o) == |ActiveOf(active, o)| && (o in s.activeCount <==> ActiveOf(active, o) != {});
      ActiveOfRemove(active, spec.id, o);
      ActiveOfRemove(active, spec.id, spec.owner);
      assert Get(s.activeCount, spec.owner) == |ActiveOf(active, spec.owner)|;
      OneFewer(s.activeCount, spec.owner, o);
    }
  }

  /** A counter that loses one disappears exactly when it reaches zero. */
  lemma OneFewer(m: map<string, int>, k: string, o: string)
    requires Get(m, k) > 0
    ensures var n := Compact(Add(m, k, -1), k);
            && Get(n, o) == Get(m, o) - (if o == k then 1 else 0)
            && (o in n <==> if o == k then Get(m, k) > 1 else o in m)
  {
  }

  lemma ActivateActive(s: State, active: map<string, WorkSpec>, spec: WorkSpec)
    requires ActiveOk(s, active) && spec.id !in active && spec.id !in s.taskById
    requires spec.orderingKey != "" ==> spec.orderingKey !in s.locks
    ensures ActiveOk(Activate(s, spec), active[spec.id := spec])
  {
    hide ActiveOf;
    var s', a := Activate(s, spec), active[spec.id := spec];
    forall o
      ensures Get(s'.activeCount, o) == |ActiveOf(a, o)| && (o in s'.activeCount <==> ActiveOf(a, o) != {})
    {
      assert Get(s.activeCount, o) == |ActiveOf(active, o)|;
      ActiveOfAdd(active, spec, o);
    }
  }

  // ----- selection

  ghost function Turned(s: State, pool: string, g: Gate): State
    requires pool in s.pools
  {
    s.(pools := s.pools[pool := PickNext(s.pools[pool], g).0])
  }

  lemma TurnedOk(s: State, pool: string, g: Gate)
    requires StoreOk(s) && pool in s.pools
    ensures StoreOk(Turned(s, pool, g))
    ensures forall p, c, o :: Queue(Turned(s, pool, g), p, c, o) == Queue(s, p, c, o)
  {
    hide QueuesAgree, DeadlinesAgree, TotalsAgree, CountersAgree, WeightsOk, PoolOk, PoolKept, Pick, Queue;
    PickKeeps(s.pools[pool], g, |s.pools[pool].wheel.items|);
    RotateOk(s, pool, PickNext(s.pools[pool], g).0);
  }

  /** The entry a selection returns waits in that pool, is dispatchable, and is the first such of its owner. */
  lemma ChosenFacts(s: State, pool: string, g: Gate)
    requires StoreOk(s) && pool in s.pools && PickNext(s.pools[pool], g).1.Some?
    ensures var e := PickNext(s.pools[pool], g).1.value;
            && Waiting(s, e) && e.spec.pool == pool
            && RightChoice(RingOf(s.pools[pool], ClassOf(e.spec)), g, e)
            && Runnable(g, e) && OwnerOpen(g, e.spec.owner)
  {
    hide DeadlinesAgree, TotalsAgree, CountersAgree, WeightsOk, PoolOk, Pick, OwnerOpen, Runnable;
    var p := s.pools[pool];
    var e := PickNext(p, g).1.value;
    StoreDeadlineKeys(s);
    PickChoice(p, g, |p.wheel.items|);
    var q := QueueOf(RingOf(p, ClassOf(e.spec)), e.spec.owner);
    assert q == Queue(s, pool, ClassOf(e.spec), e.spec.owner);
    assert AtHome(s, pool, ClassOf(e.spec), e.spec.owner, q[FirstRunnable(g, q).value]);
  }

  lemma SelectForm(s: State, pool: string, now: Time, eligible: WorkSpec -> bool)
    requires StoreOk(s) && pool in s.pools
    ensures var g := GateOf(s, now, eligible);
            var hit := PickNext(s.pools[pool], g).1;
            Select(s, pool, now, eligible) ==
            if hit.None? then (Turned(s, pool, g), None)
            else
              assert hit.value.spec.pool in s.pools && hit.value.spec.pool in s.deadlines by {
                ChosenFacts(s, pool, g);
              }
              (Activate(Forget(Turned(s, pool, g), hit.value), hit.value.spec), hit)
  {
    hide StoreOk, Pick, Forget, Activate, RightChoice, Runnable, OwnerOpen;
    var g := GateOf(s, now, eligible);
    if PickNext(s.pools[pool], g).1.Some? {
      ChosenFacts(s, pool, g);
    }
  }

  lemma SelectStepOk(w: World, pool: string, now: Time, eligible: WorkSpec -> bool)
    requires WorldOk(w)
    ensures WorldOk(Step(w, OpSelect(pool, now, eligible)))
  {
    if pool in w.ctl.pools {
      SelectKnownOk(w, pool, now, eligible);
    }
  }

  lemma SelectKnownOk(w: World, pool: string, now: Time, eligible: WorkSpec -> bool)
    requires WorldOk(w) && pool in w.ctl.pools
    ensures WorldOk(Step(w, OpSelect(pool, now, eligible)))
  {
    hide StoreOk, Forget, Activate, Conserved, Pick, Select, RightChoice, ActiveOk;
    var s := w.ctl;
    var g := GateOf(s, now, eligible);
    TurnedOk(s, pool, g);
    SelectForm(s, pool, now, eligible);
    var hit := PickNext(s.pools[pool], g).1;
    var m := Turned(s, pool, g);
    SameActive(s, m, w.active);
    if hit.Some? {
      var e := hit.value;
      ChosenFacts(s, pool, g);
      ForgetOk(m, e);
      ForgetTasks(m, e);
      ForgetActive(m, w.active, e);
      ChosenIsNew(s, w.active, e);
      ActivateActive(Forget(m, e), w.active, e.spec);
      ActivateStore(Forget(m, e), e.spec);
      ConservedAfterExit(s.taskById, w.log, e, Dispatched(e));
    }
  }

  lemma ChosenIsNew(s: State, active: map<string, WorkSpec>, e: Entry)
    requires ActiveOk(s, active) && Waiting(s, e)
    ensures e.spec.id !in active
  {
  }

  lemma SameActive(s: State, m: State, active: map<string, WorkSpec>)
    requires ActiveOk(s, active)
    requires m.taskById == s.taskById && m.locks == s.locks && m.activeCount == s.activeCount
    ensures ActiveOk(m, active)
  {
  }

  lemma ActivateStore(s: State, spec: WorkSpec)
    requires StoreOk(s)
    ensures StoreOk(Activate(s, spec)) && Activate(s, spec).taskById == s.taskById
  {
    hide QueuesAgree, DeadlinesAgree, TotalsAgree, CountersAgree, PoolsOk, WeightsOk;
    FrameOk(s, Activate(s, spec));
    SameCounters(s, Activate(s, spec));
  }

  // ----- deadline sweep

  lemma {:induction false} ExpireOk(s: State, active: map<string, WorkSpec>, log: seq<Event>, ids: seq<string>)
    requires StoreOk(s) && ActiveOk(s, active) && Conserved(s.taskById, log)
    requires Distinct(ids) && forall id :: id in ids ==> id in s.taskById
    ensures StoreOk(ForgetAll(s, ids)) && ActiveOk(ForgetAll(s, ids), active)
    ensures Conserved(ForgetAll(s, ids).taskById, log + ExpiredEvents(s.taskById, ids))
    ensures ForgetAll(s, ids).taskById == s.taskById - (set id | id in ids)
    decreases |ids|
  {
    hide StoreOk, Forget, Conserved, ActiveOk;
    if ids == [] {
      assert log + [] == log;
    } else {
      var e := s.taskById[ids[0]];
      StoreHasTasks(s, ids[0]);
      ForgetOk(s, e);
      ForgetTasks(s, e);
      ForgetActive(s, active, e);
      ConservedAfterExit(s.taskById, log, e, Expired(e));
      var s' := Forget(s, e);
      assert forall id :: id in ids[1..] ==> id in ids && id != ids[0];
      ExpireOk(s', active, log + [Expired(e)], ids[1..]);
      ExpiredFrame(s.taskById, s'.taskById, ids[1..]);
      assert log + [Expired(e)] + ExpiredEvents(s'.taskById, ids[1..]) == log + ExpiredEvents(s.taskById, ids);
      assert (set id | id in ids) == {ids[0]} + (set id | id in ids[1..]);
    }
  }

  lemma {:induction false} ExpiredFrame(t: map<string, Entry>, t': map<string, Entry>, ids: seq<string>)
    requires forall id :: id in ids ==> id in t && id in t' && t[id] == t'[id]
    ensures ExpiredEvents(t, ids) == ExpiredEvents(t', ids)
    decreases |ids|
  {
    if ids != [] {
      ExpiredFrame(t, t', ids[1..]);
    }
  }

  lemma DueAreWaiting(s: State, pool: string, now: Time, ids: seq<string>)
    requires StoreOk(s) && pool in s.deadlines && DueList(s.deadlines[pool], now, ids)
    ensures forall id :: id in ids <==> id in s.taskById && s.taskById[id].spec.pool == pool &&
                                        s.taskById[id].spec.deadline.Some? && s.taskById[id].spec.deadline.value <= now
  {
    hide QueuesAgree, TotalsAgree, CountersAgree, PoolsOk, WeightsOk;
  }

  lemma ExpireStepOk(w: World, pool: string, now: Time, ids: seq<string>)
    requires WorldOk(w) && Allowed(w, OpExpire(pool, now, ids))
    ensures WorldOk(Step(w, OpExpire(pool, now, ids)))
  {
    hide StoreOk, Conserved, ActiveOk, ForgetAll, ExpiredEvents;
    if pool in w.ctl.deadlines {
      DueAreWaiting(w.ctl, pool, now, ids);
    }
    ExpireOk(w.ctl, w.active, w.log, ids);
  }

  lemma SetLimitsStepOk(w: World, owner: string, limits: OwnerLimits)
    requires WorldOk(w)
    ensures WorldOk(Step(w, OpSetLimits(owner, limits)))
  {
    hide StoreOk, Conserved, RefreshPool, Queue;
    SetLimitsOk(w.ctl, owner, limits);
  }

  /** Every operation keeps all indexes, locks, counters and the log in agreement. */
  lemma StepOk(w: World, op: Op)
    requires WorldOk(w) && Allowed(w, op)
    ensures WorldOk(Step(w, op))
  {
    hide WorldOk, Step;
    match op
    case OpEnqueue(e) => EnqueueStepOk(w, e);
    case OpSelect(pool, now, eligible) => SelectStepOk(w, pool, now, eligible);
    case OpTerminal(spec) => TerminalStepOk(w, spec);
    case OpCancel(id) => CancelStepOk(w, id);
    case OpExpire(pool, now, ids) => ExpireStepOk(w, pool, now, ids);
    case OpSetLimits(owner, limits) => SetLimitsStepOk(w, owner, limits);
  }

  // ----- runs

  ghost predicate Run(ws: seq<World>, ops: seq<Op>) {
    && |ws| == |ops| + 1
    && WorldOk(ws[0])
    && (forall i :: 0 <= i < |ops| ==> Allowed(ws[i], ops[i]) && ws[i + 1] == Step(ws[i], ops[i]))
  }

  lemma {:induction false} RunOk(ws: seq<World>, ops: seq<Op>, n: nat)
    requires Run(ws, ops) && n <= |ops|
    ensures WorldOk(ws[n])
  {
    hide WorldOk, Step, Allowed;
    if n > 0 {
      RunOk(ws, ops, n - 1);
      StepOk(ws[n - 1], ops[n - 1]);
    }
  }
}
