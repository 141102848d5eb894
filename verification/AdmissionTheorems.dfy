/** What the admission controller promises over every run. */
module AdmissionTheorems {
  import opened Prelude
  import opened Wheels
  import opened AdmissionTypes
  import opened AdmissionModel
  import opened AdmissionSchedule
  import opened AdmissionStore
  import opened AdmissionRuns

  // ----- work conservation

  ghost predicate Dispatchable(s: State, e: Entry, now: Time, eligible: WorkSpec -> bool) {
    && (e.spec.deadline.Some? ==> now <= e.spec.deadline.value)
    && (e.spec.orderingKey != "" ==> e.spec.orderingKey !in s.locks)
    && Get(s.activeCount, e.spec.owner) < LimitsOf(s.limits, e.spec.owner).maxActive
    && eligible(e.spec)
  }

  lemma MaxActivePositive(s: State, owner: string)
    requires StoreOk(s)
    ensures LimitsOf(s.limits, owner).maxActive > 0
  {
    hide QueuesAgree, DeadlinesAgree, TotalsAgree, CountersAgree, PoolsOk, RingWeights;
  }

  lemma WaitingIsReady(s: State, e: Entry, now: Time, eligible: WorkSpec -> bool)
    requires StoreOk(s) && Waiting(s, e) && Dispatchable(s, e, now, eligible)
    ensures ClassReady(s.pools[e.spec.pool], GateOf(s, now, eligible), ClassOf(e.spec))
    ensures OwnerReady(RingOf(s.pools[e.spec.pool], ClassOf(e.spec)), GateOf(s, now, eligible), e.spec.owner)
  {
    hide DeadlinesAgree, TotalsAgree, CountersAgree, PoolsOk, WeightsOk, AtHome, DistinctIds;
    var g := GateOf(s, now, eligible);
    WaitingIsQueued(s, e);
    var r := RingOf(s.pools[e.spec.pool], ClassOf(e.spec));
    var i :| 0 <= i < |QueueOf(r, e.spec.owner)| && QueueOf(r, e.spec.owner)[i] == e;
    assert Runnable(g, QueueOf(r, e.spec.owner)[i]);
    assert OwnerReady(r, g, e.spec.owner);
  }

  /**
   Selection on a configured pool finds a candidate exactly when some waiting
   entry of that pool is within its deadline, has an unlocked key, belongs to an
   owner below its active limit and passes the resource predicate; the candidate
   is itself such an entry.
   */
  lemma WorkConserving(s: State, pool: string, now: Time, eligible: WorkSpec -> bool)
    requires StoreOk(s) && pool in s.pools
    ensures Select(s, pool, now, eligible).1.Some? <==>
            exists id :: id in s.taskById && s.taskById[id].spec.pool == pool && Dispatchable(s, s.taskById[id], now, eligible)
    ensures Select(s, pool, now, eligible).1.Some? ==>
            var e := Select(s, pool, now, eligible).1.value;
            e.spec.id in s.taskById && s.taskById[e.spec.id] == e && e.spec.pool == pool && Dispatchable(s, e, now, eligible)
  {
    hide StoreOk, Select, Pick, Forget, Activate, RightChoice, ClassReady, OwnerReady;
    var g := GateOf(s, now, eligible);
    SelectForm(s, pool, now, eligible);
    var hit := PickNext(s.pools[pool], g).1;
    if hit.Some? {
      ChosenFacts(s, pool, g);
      MaxActivePositive(s, hit.value.spec.owner);
      assert Dispatchable(s, s.taskById[hit.value.spec.id], now, eligible);
    } else {
      forall id | id in s.taskById && s.taskById[id].spec.pool == pool
        ensures !Dispatchable(s, s.taskById[id], now, eligible)
      {
        if Dispatchable(s, s.taskById[id], now, eligible) {
          StoreHasTasks(s, id);
          WaitingIsReady(s, s.taskById[id], now, eligible);
          StorePoolOk(s, pool);
          PickComplete(s.pools[pool], g, ClassOf(s.taskById[id].spec));
        }
      }
    }
  }

  lemma StorePoolOk(s: State, pool: string)
    requires StoreOk(s) && pool in s.pools
    ensures PoolOk(s.pools[pool])
  {
    hide QueuesAgree, DeadlinesAgree, TotalsAgree, CountersAgree, WeightsOk, PoolOk;
  }

  lemma SelectUnknown(s: State, q: string, now: Time, eligible: WorkSpec -> bool)
    requires q !in s.pools
    ensures Select(s, q, now, eligible) == (s, None)
  {
  }

  // ----- exclusion and concurrency limits

  /** Two distinct tasks in flight never share an ordering key, in whatever pools they run. */
  lemma OrderingExclusion(ws: seq<World>, ops: seq<Op>, n: nat, a: string, b: string)
    requires Run(ws, ops) && n <= |ops|
    requires a in ws[n].active && b in ws[n].active && a != b
    ensures ws[n].active[a].orderingKey != "" ==> ws[n].active[a].orderingKey != ws[n].active[b].orderingKey
  {
    hide StoreOk, Conserved, Run, ActiveOf;
    RunOk(ws, ops, n);
  }

  /** The controller's active counter of an owner is the number of its tasks in flight. */
  lemma ActiveCountExact(ws: seq<World>, ops: seq<Op>, n: nat, o: string)
    requires Run(ws, ops) && n <= |ops|
    ensures Get(ws[n].ctl.activeCount, o) == |ActiveOf(ws[n].active, o)|
  {
    hide StoreOk, Conserved, Run;
    RunOk(ws, ops, n);
  }

  ghost predicate WithinActive(w: World) {
    forall o :: |ActiveOf(w.active, o)| <= LimitsOf(w.ctl.limits, o).maxActive
  }

  lemma ForgetAllLimits(s: State, ids: seq<string>)
    ensures ForgetAll(s, ids).limits == s.limits
    decreases |ids|
  {
    hide ForgetInPool;
    if ids != [] {
      ForgetAllLimits(Cancel(s, ids[0]).0, ids[1..]);
    }
  }

  lemma SelectActive(w: World, pool: string, now: Time, eligible: WorkSpec -> bool)
    requires WorldOk(w)
    ensures var (s', hit) := Select(w.ctl, pool, now, eligible);
            && s'.limits == w.ctl.limits
            && (hit.Some? ==>
                  && hit.value.spec.id !in w.active
                  && |ActiveOf(w.active, hit.value.spec.owner)| < LimitsOf(w.ctl.limits, hit.value.spec.owner).maxActive)
  {
    if pool in w.ctl.pools {
      SelectActiveKnown(w, pool, now, eligible);
    }
  }

  lemma SelectActiveKnown(w: World, pool: string, now: Time, eligible: WorkSpec -> bool)
    requires WorldOk(w) && pool in w.ctl.pools
    ensures var (s', hit) := Select(w.ctl, pool, now, eligible);
            && s'.limits == w.ctl.limits
            && (hit.Some? ==>
                  && hit.value.spec.id !in w.active
                  && |ActiveOf(w.active, hit.value.spec.owner)| < LimitsOf(w.ctl.limits, hit.value.spec.owner).maxActive)
  {
    hide StoreOk, Conserved, PickNext, Select, ActiveOf, RightChoice, ActiveOk, Waiting, LimitsOf, OwnerOpen, Runnable;
    var g := GateOf(w.ctl, now, eligible);
    SelectLimits(w.ctl, pool, now, eligible);
    if PickNext(w.ctl.pools[pool], g).1.Some? {
      ChosenFacts(w.ctl, pool, g);
      var e := PickNext(w.ctl.pools[pool], g).1.value;
      MaxActivePositive(w.ctl, e.spec.owner);
      OpenOwner(w, g, e);
    }
  }

  lemma SelectLimits(s: State, pool: string, now: Time, eligible: WorkSpec -> bool)
    requires StoreOk(s) && pool in s.pools
    ensures Select(s, pool, now, eligible).0.limits == s.limits
    ensures Select(s, pool, now, eligible).1 == PickNext(s.pools[pool], GateOf(s, now, eligible)).1
  {
    hide StoreOk, PickNext, Select, Forget;
    SelectForm(s, pool, now, eligible);
    var g := GateOf(s, now, eligible);
    if PickNext(s.pools[pool], g).1.Some? {
      ChosenFacts(s, pool, g);
      ForgetLimits(Turned(s, pool, g), PickNext(s.pools[pool], g).1.value);
    }
  }

  lemma ForgetLimits(s: State, e: Entry)
    requires e.spec.pool in s.pools && e.spec.pool in s.deadlines
    ensures Forget(s, e).limits == s.limits
  {
    hide ForgetInPool;
  }

  /** A waiting entry is not active, and an open owner has a slot left. */
  lemma OpenOwner(w: World, g: Gate, e: Entry)
    requires ActiveOk(w.ctl, w.active) && Waiting(w.ctl, e) && OwnerOpen(g, e.spec.owner)
    requires g.limits == w.ctl.limits && g.activeCount == w.ctl.activeCount
    requires LimitsOf(w.ctl.limits, e.spec.owner).maxActive > 0
    ensures e.spec.id !in w.active
    ensures |ActiveOf(w.active, e.spec.owner)| < LimitsOf(w.ctl.limits, e.spec.owner).maxActive
  {
    hide ActiveOf, LimitsOf;
    assert Get(w.ctl.activeCount, e.spec.owner) == |ActiveOf(w.active, e.spec.owner)|;
  }

  lemma StepWithinActive(w: World, op: Op)
    requires WorldOk(w) && Allowed(w, op) && !op.OpSetLimits? && WithinActive(w)
    ensures WithinActive(Step(w, op)) && Step(w, op).ctl.limits == w.ctl.limits
  {
    hide WorldOk, Select, Enqueue, Cancel, ForgetAll, ActiveOf, DueList;
    match op
    case OpEnqueue(e) =>
      EnqueueActive(w.ctl, e);
    case OpSelect(pool, now, eligible) =>
      SelectActive(w, pool, now, eligible);
      forall o
        ensures |ActiveOf(Step(w, op).active, o)| <= LimitsOf(w.ctl.limits, o).maxActive
      {
        var hit := Select(w.ctl, pool, now, eligible).1;
        if hit.Some? {
          ActiveOfAdd(w.active, hit.value.spec, o);
        }
      }
    case OpTerminal(spec) =>
      forall o
        ensures |ActiveOf(Step(w, op).active, o)| <= LimitsOf(w.ctl.limits, o).maxActive
      {
        ActiveOfRemove(w.active, spec.id, o);
      }
    case OpCancel(id) =>
      CancelLimits(w.ctl, id);
    case OpExpire(pool, now, ids) =>
      ForgetAllLimits(w.ctl, ids);
    case OpSetLimits(owner, limits) =>
  }

  lemma CancelLimits(s: State, id: string)
    ensures Cancel(s, id).0.limits == s.limits
  {
    hide ForgetInPool;
  }

  /** With fixed quotas, no owner ever has more tasks in flight than its active limit. */
  lemma {:induction false} MaxActiveHolds(ws: seq<World>, ops: seq<Op>, n: nat)
    requires Run(ws, ops) && n <= |ops| && WithinActive(ws[0])
    requires forall i :: 0 <= i < n ==> !ops[i].OpSetLimits?
    ensures WithinActive(ws[n])
  {
    hide WithinActive, WorldOk, Step, Allowed;
    if n > 0 {
      MaxActiveHolds(ws, ops, n - 1);
      RunOk(ws, ops, n - 1);
      StepWithinActive(ws[n - 1], ops[n - 1]);
    }
  }
}
