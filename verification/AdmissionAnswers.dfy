/**
 What the controller answers, read from the waiting tasks themselves: when work
 is admitted and why it is refused, what a cancellation reports, and which
 quotas are in force after any run.
 */
module AdmissionAnswers {
  import opened Prelude
  import opened AdmissionTypes
  import opened AdmissionModel
  import opened AdmissionSchedule
  import opened AdmissionStore
  import opened AdmissionRuns
  import opened AdmissionTheorems

  // ----- admission

  /** One more entry keeps the pool's backlog limit; a limit that is not positive is none. */
  ghost predicate BacklogRoom(s: State, pool: string)
    requires pool in s.pools
  {
    var limit := s.pools[pool].config.backlogLimit;
    limit > 0 ==> |PoolTasks(s.taskById, pool)| + 1 <= limit
  }

  /** So many more bytes keep the pool's payload budget. */
  ghost predicate BudgetRoom(s: State, pool: string, bytes: nat)
    requires pool in s.pools
  {
    var budget := s.pools[pool].config.payloadBudget;
    budget > 0 ==> BytesOf(s.taskById, PoolTasks(s.taskById, pool)) + bytes <= budget
  }

  /** One more entry keeps the owner's waiting limit, over all pools. */
  ghost predicate OwnerRoom(s: State, owner: string) {
    |OwnerTasks(s.taskById, owner)| + 1 <= LimitsOf(s.limits, owner).maxWaiting
  }

  /** So many more bytes keep the owner's payload limit, over all pools. */
  ghost predicate OwnerBytesRoom(s: State, owner: string, bytes: nat) {
    BytesOf(s.taskById, OwnerTasks(s.taskById, owner)) + bytes <= LimitsOf(s.limits, owner).maxPayload
  }

  /**
   Work is admitted exactly when its pool is configured and the waiting tasks together with
   it keep all four limits; a refusal names the first limit, in this order, that it would break.
   */
  lemma AdmitsExactly(s: State, spec: WorkSpec, bytes: nat)
    requires StoreOk(s)
    ensures CanAdmit(s, spec, bytes).None? <==>
            && spec.pool in s.pools && BacklogRoom(s, spec.pool) && BudgetRoom(s, spec.pool, bytes)
            && OwnerRoom(s, spec.owner) && OwnerBytesRoom(s, spec.owner, bytes)
    ensures CanAdmit(s, spec, bytes) == Some(PoolBacklogFull) <==> spec.pool !in s.pools || !BacklogRoom(s, spec.pool)
    ensures CanAdmit(s, spec, bytes) == Some(OwnerQueueFull) <==>
            && spec.pool in s.pools && BacklogRoom(s, spec.pool) && BudgetRoom(s, spec.pool, bytes)
            && !OwnerRoom(s, spec.owner)
    ensures CanAdmit(s, spec, bytes) == Some(PayloadBudget) <==>
            && spec.pool in s.pools && BacklogRoom(s, spec.pool)
            && (!BudgetRoom(s, spec.pool, bytes) || (OwnerRoom(s, spec.owner) && !OwnerBytesRoom(s, spec.owner, bytes)))
  {
    hide QueuesAgree, DeadlinesAgree, PoolsOk, RingWeights, BytesOf, PoolTasks, OwnerTasks;
    assert Get(s.waitingCount, spec.owner) == |OwnerTasks(s.taskById, spec.owner)|;
  }

  /** Work without a class is normal work, and work with one is of that class. */
  lemma ClassInForce(spec: WorkSpec, c: PriorityClass)
    ensures ClassOf(spec) == c <==> spec.cls == Some(c) || (spec.cls.None? && c == Normal)
  {
  }

  // ----- cancellation

  /** A cancellation reports the entry exactly when the id was waiting, and then only that one waits no more. */
  lemma CancelsExactly(s: State, id: string)
    requires StoreOk(s)
    ensures var (s', gone) := Cancel(s, id);
            && gone == (if id in s.taskById then Some(s.taskById[id]) else None)
            && s'.taskById == s.taskById - {id}
            && (id !in s.taskById ==> s' == s)
  {
    hide StoreOk, Forget;
    if id in s.taskById {
      StoreHasTasks(s, id);
      ForgetTasks(s, s.taskById[id]);
    } else {
      assert s.taskById - {id} == s.taskById;
    }
  }

  // ----- quotas in force

  /** What an owner's quota becomes where the one asked for is not positive. */
  ghost function OrElse(asked: int, standard: int): int {
    if asked > 0 then asked else standard
  }

  /** The owner's quotas as the first n operations last set them. */
  ghost function LastSet(ops: seq<Op>, owner: string, n: nat): OwnerLimits
    requires n <= |ops|
  {
    if n == 0 then OwnerLimits(50, 10, 1, 50 * 1024 * 1024)
    else if ops[n - 1].OpSetLimits? && ops[n - 1].owner == owner then
      var l := ops[n - 1].limits;
      OwnerLimits(OrElse(l.maxWaiting, 50), OrElse(l.maxActive, 10), OrElse(l.weight, 1), OrElse(l.maxPayload, 50 * 1024 * 1024))
    else LastSet(ops, owner, n - 1)
  }

  lemma OnlySettingChanges(w: World, op: Op, owner: string)
    requires WorldOk(w) && !(op.OpSetLimits? && op.owner == owner)
    ensures LimitsOf(Step(w, op).ctl.limits, owner) == LimitsOf(w.ctl.limits, owner)
  {
    hide WorldOk, Select, Enqueue, Cancel, ForgetAll, RefreshPool;
    match op
    case OpEnqueue(e) => EnqueueActive(w.ctl, e);
    case OpSelect(pool, now, eligible) => SelectActive(w, pool, now, eligible);
    case OpTerminal(spec) =>
    case OpCancel(id) => CancelLimits(w.ctl, id);
    case OpExpire(pool, now, ids) => ForgetAllLimits(w.ctl, ids);
    case OpSetLimits(other, limits) =>
  }

  /** After any run from the start, the quotas in force are those last set, weights included. */
  lemma {:induction false} QuotasInForce(configs: map<string, PoolConfig>, ws: seq<World>, ops: seq<Op>, owner: string, n: nat)
    requires Run(ws, ops) && ws[0] == Start(configs) && n <= |ops|
    ensures LimitsOf(ws[n].ctl.limits, owner) == LastSet(ops, owner, n)
    ensures EffectiveWeight(ws[n].ctl.limits, owner) == LastSet(ops, owner, n).weight
  {
    hide WorldOk, Allowed, RefreshPool, Select, Enqueue, Cancel, ForgetAll, Terminal;
    if n > 0 {
      QuotasInForce(configs, ws, ops, owner, n - 1);
      RunOk(ws, ops, n - 1);
      if !(ops[n - 1].OpSetLimits? && ops[n - 1].owner == owner) {
        OnlySettingChanges(ws[n - 1], ops[n - 1], owner);
      }
    }
  }

  // ----- pool configuration

  ghost predicate SameConfigs(s: State, s': State) {
    s'.pools.Keys == s.pools.Keys && forall p :: p in s.pools ==> s'.pools[p].config == s.pools[p].config
  }

  lemma ForgetConfigs(s: State, e: Entry)
    requires e.spec.pool in s.pools && e.spec.pool in s.deadlines
    ensures SameConfigs(s, Forget(s, e))
  {
    hide RemoveId;
  }

  lemma {:induction false} ForgetAllConfigs(s: State, ids: seq<string>)
    ensures SameConfigs(s, ForgetAll(s, ids))
    decreases |ids|
  {
    hide Forget;
    if ids != [] {
      var id := ids[0];
      if id in s.taskById && s.taskById[id].spec.pool in s.pools && s.taskById[id].spec.pool in s.deadlines {
        ForgetConfigs(s, s.taskById[id]);
      }
      ForgetAllConfigs(Cancel(s, id).0, ids[1..]);
    }
  }

  lemma SelectConfigs(s: State, pool: string, now: Time, eligible: WorkSpec -> bool)
    requires StoreOk(s) && pool in s.pools
    ensures SameConfigs(s, Select(s, pool, now, eligible).0)
  {
    hide StoreOk, Select, Pick, Forget, PoolOk, RingKept, RightChoice, Runnable, OwnerOpen, SameConfigs, Turned;
    var g := GateOf(s, now, eligible);
    SelectForm(s, pool, now, eligible);
    TurnedConfigs(s, pool, g);
    if PickNext(s.pools[pool], g).1.Some? {
      ChosenFacts(s, pool, g);
      var m, e := Turned(s, pool, g), PickNext(s.pools[pool], g).1.value;
      TurnedPools(s, pool, g);
      ForgetConfigs(m, e);
      SameConfigsTrans(s, m, Forget(m, e), Activate(Forget(m, e), e.spec));
    }
  }

  lemma TurnedPools(s: State, pool: string, g: Gate)
    requires pool in s.pools
    ensures Turned(s, pool, g).pools.Keys == s.pools.Keys && Turned(s, pool, g).deadlines == s.deadlines
  {
    hide Pick;
  }

  lemma TurnedConfigs(s: State, pool: string, g: Gate)
    requires StoreOk(s) && pool in s.pools
    ensures SameConfigs(s, Turned(s, pool, g))
  {
    hide StoreOk, Pick, PoolOk, RingKept;
    StorePoolOk(s, pool);
    PickKeeps(s.pools[pool], g, |s.pools[pool].wheel.items|);
  }

  lemma SameConfigsTrans(s: State, m: State, f: State, a: State)
    requires SameConfigs(s, m) && SameConfigs(m, f) && a.pools == f.pools
    ensures SameConfigs(s, a)
  {
  }

  lemma EnqueueConfigs(s: State, e: Entry)
    ensures SameConfigs(s, Enqueue(s, e))
  {
    hide JoinOwner, RingOf, QueueOf;
  }

  lemma StepConfigs(w: World, op: Op)
    requires WorldOk(w)
    ensures SameConfigs(w.ctl, Step(w, op).ctl)
  {
    hide StoreOk, ActiveOk, Conserved, Select, Enqueue, Forget, ForgetAll, RefreshRing, ExpiredEvents;
    match op
    case OpEnqueue(e) => EnqueueConfigs(w.ctl, e);
    case OpSelect(pool, now, eligible) =>
      if pool in w.ctl.pools {
        SelectConfigs(w.ctl, pool, now, eligible);
      } else {
        SelectUnknown(w.ctl, pool, now, eligible);
      }
    case OpTerminal(spec) =>
    case OpCancel(id) =>
      if id in w.ctl.taskById {
        StoreHasTasks(w.ctl, id);
        ForgetConfigs(w.ctl, w.ctl.taskById[id]);
      }
    case OpExpire(pool, now, ids) => ForgetAllConfigs(w.ctl, ids);
    case OpSetLimits(owner, limits) =>
  }

  /** The pools and their limits are those the controller was built with. */
  lemma {:induction false} ConfigsInForce(configs: map<string, PoolConfig>, ws: seq<World>, ops: seq<Op>, n: nat)
    requires Run(ws, ops) && ws[0] == Start(configs) && n <= |ops|
    ensures ws[n].ctl.pools.Keys == configs.Keys
    ensures forall p :: p in configs ==> ws[n].ctl.pools[p].config == configs[p]
  {
    hide WorldOk, Allowed, Step;
    if n > 0 {
      ConfigsInForce(configs, ws, ops, n - 1);
      RunOk(ws, ops, n - 1);
      StepConfigs(ws[n - 1], ops[n - 1]);
    }
  }
}
