/**
 Index agreement: the queues, the id table, the deadline indexes, the pool
 totals and the per-owner counters all describe the same set of waiting tasks,
 and every operation keeps it so.
 */
module AdmissionStore {
  import opened Prelude
  import opened Wheels
  import opened AdmissionTypes
  import opened AdmissionModel
  import opened AdmissionSchedule

  // ----- what the indexes must agree on

  ghost function PoolTasks(t: map<string, Entry>, pool: string): (ids: set<string>)
    ensures ids <= t.Keys
  {
    set id | id in t && t[id].spec.pool == pool
  }

  ghost function OwnerTasks(t: map<string, Entry>, owner: string): (ids: set<string>)
    ensures ids <= t.Keys
  {
    set id | id in t && t[id].spec.owner == owner
  }

  ghost function BytesOf(t: map<string, Entry>, ids: set<string>): nat
    requires ids <= t.Keys
  {
    if ids == {} then 0
    else
      var id :| id in ids;
      t[id].payload + BytesOf(t, ids - {id})
  }

  ghost function DueTimes(t: map<string, Entry>, pool: string): map<string, Time> {
    map id | id in t && t[id].spec.pool == pool && t[id].spec.deadline.Some? :: t[id].spec.deadline.value
  }

  ghost predicate DistinctIds(q: seq<Entry>) {
    forall i, j :: 0 <= i < j < |q| ==> q[i].spec.id != q[j].spec.id
  }

  /** e is in the queue of its own pool, class and owner, and registered under its id. */
  ghost predicate AtHome(s: State, pool: string, c: PriorityClass, owner: string, e: Entry) {
    && e.spec.pool == pool && ClassOf(e.spec) == c && e.spec.owner == owner
    && e.spec.id in s.taskById && s.taskById[e.spec.id] == e
  }

  ghost predicate Queued(s: State, e: Entry) {
    e.spec.pool in s.pools && e in Queue(s, e.spec.pool, ClassOf(e.spec), e.spec.owner)
  }

  ghost predicate QueuesAgree(s: State) {
    && (forall p, c, o, i :: 0 <= i < |Queue(s, p, c, o)| ==> AtHome(s, p, c, o, Queue(s, p, c, o)[i]))
    && (forall p, c, o :: DistinctIds(Queue(s, p, c, o)))
    && (forall id :: id in s.taskById ==> s.taskById[id].spec.id == id && Queued(s, s.taskById[id]))
  }

  ghost predicate DeadlinesAgree(s: State) {
    && s.deadlines.Keys == s.pools.Keys
    && (forall p :: p in s.pools ==> s.deadlines[p] == DueTimes(s.taskById, p))
  }

  ghost predicate TotalsAgree(s: State) {
    forall p :: p in s.pools ==>
      && s.pools[p].totalWaiting == |PoolTasks(s.taskById, p)|
      && s.pools[p].totalBytes == BytesOf(s.taskById, PoolTasks(s.taskById, p))
  }

  ghost predicate CountersAgree(s: State) {
    forall o ::
      && Get(s.waitingCount, o) == |OwnerTasks(s.taskById, o)|
      && Get(s.waitingBytes, o) == BytesOf(s.taskById, OwnerTasks(s.taskById, o))
      && (o in s.waitingCount <==> OwnerTasks(s.taskById, o) != {})
  }

  ghost predicate PoolsOk(s: State) {
    forall p :: p in s.pools ==> PoolOk(s.pools[p])
  }

  /** Every owner in rotation has a cached quantum, and it is the owner's current weight. */
  ghost predicate RingWeights(r: OwnerRing, limits: map<string, OwnerLimits>) {
    && (forall o :: o in r.wheel.items ==> o in r.quantums)
    && (forall o :: o in r.quantums ==> r.quantums[o] == EffectiveWeight(limits, o))
  }

  ghost predicate WeightsOk(s: State) {
    && (forall o :: o in s.limits ==>
          s.limits[o].weight > 0 && s.limits[o].maxActive > 0 && s.limits[o].maxWaiting > 0 && s.limits[o].maxPayload > 0)
    && (forall p, c :: p in s.pools ==> RingWeights(RingOf(s.pools[p], c), s.limits))
  }

  ghost predicate StoreOk(s: State) {
    QueuesAgree(s) && DeadlinesAgree(s) && TotalsAgree(s) && CountersAgree(s) && PoolsOk(s) && WeightsOk(s)
  }

  lemma InitialOk(configs: map<string, PoolConfig>)
    ensures StoreOk(Initial(configs))
  {
    var s := Initial(configs);
    forall p | p in s.pools
      ensures PoolOk(s.pools[p])
      ensures forall c :: RingWeights(RingOf(s.pools[p], c), s.limits)
    {
    }
    assert forall p :: PoolTasks(s.taskById, p) == {};
    assert forall o :: OwnerTasks(s.taskById, o) == {};
  }

  // ----- sums over sets of tasks

  lemma {:induction false} BytesRemove(t: map<string, Entry>, ids: set<string>, id: string)
    requires ids <= t.Keys && id in ids
    ensures BytesOf(t, ids) == t[id].payload + BytesOf(t, ids - {id})
    decreases ids
  {
    var x :| x in ids && BytesOf(t, ids) == t[x].payload + BytesOf(t, ids - {x});
    if x != id {
      BytesRemove(t, ids - {x}, id);
      BytesRemove(t, ids - {id}, x);
      assert ids - {x} - {id} == ids - {id} - {x};
    }
  }

  lemma {:induction false} BytesFrame(t: map<string, Entry>, t': map<string, Entry>, ids: set<string>)
    requires ids <= t.Keys && ids <= t'.Keys && forall id :: id in ids ==> t[id] == t'[id]
    ensures BytesOf(t, ids) == BytesOf(t', ids)
    decreases ids
  {
    if ids != {} {
      var x :| x in ids && BytesOf(t, ids) == t[x].payload + BytesOf(t, ids - {x});
      BytesFrame(t, t', ids - {x});
      BytesRemove(t', ids, x);
    }
  }

  /** How the task sets of one pool, or one owner, change when a task leaves. */
  lemma TasksAfterRemove(t: map<string, Entry>, id: string, ids: set<string>, ids': set<string>, mine: bool)
    requires id in t && ids <= t.Keys
    requires mine == (id in ids) && ids' == ids - {id}
    ensures |ids'| == |ids| - (if mine then 1 else 0)
    ensures BytesOf(t - {id}, ids') == BytesOf(t, ids) - (if mine then t[id].payload else 0)
  {
    BytesFrame(t, t - {id}, ids');
    if mine {
      BytesRemove(t, ids, id);
    } else {
      assert ids' == ids;
    }
  }

  lemma TasksAfterAdd(t: map<string, Entry>, e: Entry, ids: set<string>, ids': set<string>, mine: bool)
    requires e.spec.id !in t && ids <= t.Keys
    requires ids' == if mine then ids + {e.spec.id} else ids
    ensures |ids'| == |ids| + (if mine then 1 else 0)
    ensures BytesOf(t[e.spec.id := e], ids') == BytesOf(t, ids) + (if mine then e.payload else 0)
  {
    var t' := t[e.spec.id := e];
    BytesFrame(t, t', ids);
    if mine {
      BytesRemove(t', ids', e.spec.id);
      assert ids' - {e.spec.id} == ids;
    }
  }

  lemma PoolTasksRemove(t: map<string, Entry>, id: string, x: string)
    requires id in t
    ensures |PoolTasks(t - {id}, x)| == |PoolTasks(t, x)| - (if t[id].spec.pool == x then 1 else 0)
    ensures BytesOf(t - {id}, PoolTasks(t - {id}, x)) ==
            BytesOf(t, PoolTasks(t, x)) - (if t[id].spec.pool == x then t[id].payload else 0)
  {
    hide BytesOf;
    assert PoolTasks(t - {id}, x) == PoolTasks(t, x) - {id};
    TasksAfterRemove(t, id, PoolTasks(t, x), PoolTasks(t - {id}, x), t[id].spec.pool == x);
  }

  lemma PoolTasksAdd(t: map<string, Entry>, e: Entry, x: string)
    requires e.spec.id !in t
    ensures |PoolTasks(t[e.spec.id := e], x)| == |PoolTasks(t, x)| + (if e.spec.pool == x then 1 else 0)
    ensures BytesOf(t[e.spec.id := e], PoolTasks(t[e.spec.id := e], x)) ==
            BytesOf(t, PoolTasks(t, x)) + (if e.spec.pool == x then e.payload else 0)
  {
    hide BytesOf;
    var t' := t[e.spec.id := e];
    assert PoolTasks(t', x) == if e.spec.pool == x then PoolTasks(t, x) + {e.spec.id} else PoolTasks(t, x);
    TasksAfterAdd(t, e, PoolTasks(t, x), PoolTasks(t', x), e.spec.pool == x);
  }

  lemma OwnerTasksRemove(t: map<string, Entry>, id: string, x: string)
    requires id in t
    ensures |OwnerTasks(t - {id}, x)| == |OwnerTasks(t, x)| - (if t[id].spec.owner == x then 1 else 0)
    ensures BytesOf(t - {id}, OwnerTasks(t - {id}, x)) ==
            BytesOf(t, OwnerTasks(t, x)) - (if t[id].spec.owner == x then t[id].payload else 0)
  {
    hide BytesOf;
    assert OwnerTasks(t - {id}, x) == OwnerTasks(t, x) - {id};
    TasksAfterRemove(t, id, OwnerTasks(t, x), OwnerTasks(t - {id}, x), t[id].spec.owner == x);
  }

  lemma OwnerTasksAdd(t: map<string, Entry>, e: Entry, x: string)
    requires e.spec.id !in t
    ensures |OwnerTasks(t[e.spec.id := e], x)| == |OwnerTasks(t, x)| + (if e.spec.owner == x then 1 else 0)
    ensures BytesOf(t[e.spec.id := e], OwnerTasks(t[e.spec.id := e], x)) ==
            BytesOf(t, OwnerTasks(t, x)) + (if e.spec.owner == x then e.payload else 0)
  {
    hide BytesOf;
    var t' := t[e.spec.id := e];
    assert OwnerTasks(t', x) == if e.spec.owner == x then OwnerTasks(t, x) + {e.spec.id} else OwnerTasks(t, x);
    TasksAfterAdd(t, e, OwnerTasks(t, x), OwnerTasks(t', x), e.spec.owner == x);
  }

  // ----- Forget

  lemma RemoveIdFacts(q: seq<Entry>, e: Entry)
    requires DistinctIds(q) && e in q
    ensures DistinctIds(RemoveId(q, e.spec.id))
    ensures forall x :: x in RemoveId(q, e.spec.id) <==> x in q && x != e
    ensures |RemoveId(q, e.spec.id)| == |q| - 1
  {
    var k := Position(q, e.spec.id).value;
    var i :| 0 <= i < |q| && q[i] == e;
    assert i == k;
    WithoutMembers(q, k);
  }

  lemma QueueAfterForget(s: State, e: Entry, p: string, c: PriorityClass, o: string)
    requires e.spec.pool in s.pools && e.spec.pool in s.deadlines
    ensures Queue(Forget(s, e), p, c, o) ==
            if p == e.spec.pool && c == ClassOf(e.spec) && o == e.spec.owner
            then RemoveId(Queue(s, p, c, o), e.spec.id) else Queue(s, p, c, o)
  {
    hide RemoveId, ForgetInPool, RingOf, QueueOf;
    if p == e.spec.pool {
      RingAfterForget(s.pools[p], e, c, o);
    }
  }

  lemma RingAfterForget(p: Pool, e: Entry, c: PriorityClass, o: string)
    ensures QueueOf(RingOf(ForgetInPool(p, e), c), o) ==
            if c == ClassOf(e.spec) && o == e.spec.owner
            then RemoveId(QueueOf(RingOf(p, c), o), e.spec.id) else QueueOf(RingOf(p, c), o)
  {
    hide RemoveId;
    if c == ClassOf(e.spec) && o == e.spec.owner && o !in RingOf(p, c).queues {
      RemoveIdEmpty(e.spec.id);
    }
  }

  lemma RemoveIdEmpty(id: string)
    ensures RemoveId([], id) == []
  {
  }

  /** e is registered and sits in its queue. */
  ghost predicate Waiting(s: State, e: Entry) {
    && e.spec.id in s.taskById && s.taskById[e.spec.id] == e
    && e.spec.pool in s.pools && e.spec.pool in s.deadlines
  }

  lemma WaitingIsQueued(s: State, e: Entry)
    requires QueuesAgree(s) && Waiting(s, e)
    ensures DistinctIds(Queue(s, e.spec.pool, ClassOf(e.spec), e.spec.owner))
    ensures e in Queue(s, e.spec.pool, ClassOf(e.spec), e.spec.owner)
  {
    hide Queue, DistinctIds;
    assert Queued(s, e);
  }

  lemma ForgetTasks(s: State, e: Entry)
    requires e.spec.pool in s.pools && e.spec.pool in s.deadlines
    ensures Forget(s, e).taskById == s.taskById - {e.spec.id} && Forget(s, e).pools.Keys == s.pools.Keys
  {
    hide ForgetInPool;
  }

  /** One queue after Forget: what it holds is still registered, and repeats no id. */
  lemma ForgetOneQueue(s: State, e: Entry, p: string, c: PriorityClass, o: string)
    requires QueuesAgree(s) && Waiting(s, e)
    ensures DistinctIds(Queue(Forget(s, e), p, c, o))
    ensures forall i :: 0 <= i < |Queue(Forget(s, e), p, c, o)| ==>
              AtHome(Forget(s, e), p, c, o, Queue(Forget(s, e), p, c, o)[i])
  {
    hide Forget, RemoveId, Queue;
    var s' := Forget(s, e);
    ForgetTasks(s, e);
    WaitingIsQueued(s, e);
    RemoveIdFacts(Queue(s, e.spec.pool, ClassOf(e.spec), e.spec.owner), e);
    QueueAfterForget(s, e, p, c, o);
    forall i | 0 <= i < |Queue(s', p, c, o)|
      ensures AtHome(s', p, c, o, Queue(s', p, c, o)[i])
    {
      var x := Queue(s', p, c, o)[i];
      assert x in Queue(s, p, c, o);
      var j :| 0 <= j < |Queue(s, p, c, o)| && Queue(s, p, c, o)[j] == x;
      assert AtHome(s, p, c, o, Queue(s, p, c, o)[j]);
    }
  }

  lemma ForgetQueues(s: State, e: Entry)
    requires QueuesAgree(s) && Waiting(s, e)
    ensures QueuesAgree(Forget(s, e))
  {
    hide Forget, RemoveId, Queue, AtHome, DistinctIds;
    var s' := Forget(s, e);
    ForgetTasks(s, e);
    WaitingIsQueued(s, e);
    RemoveIdFacts(Queue(s, e.spec.pool, ClassOf(e.spec), e.spec.owner), e);
    forall p, c, o
      ensures DistinctIds(Queue(s', p, c, o))
      ensures forall i :: 0 <= i < |Queue(s', p, c, o)| ==> AtHome(s', p, c, o, Queue(s', p, c, o)[i])
    {
      ForgetOneQueue(s, e, p, c, o);
    }
    forall id | id in s'.taskById
      ensures s'.taskById[id].spec.id == id && Queued(s', s'.taskById[id])
    {
      var x := s.taskById[id];
      assert Queued(s, x);
      QueueAfterForget(s, e, x.spec.pool, ClassOf(x.spec), x.spec.owner);
    }
  }

  lemma ForgetDeadlines(s: State, e: Entry)
    requires DeadlinesAgree(s) && Waiting(s, e)
    ensures DeadlinesAgree(Forget(s, e))
  {
    hide ForgetInPool, DueTimes;
    var s' := Forget(s, e);
    forall p | p in s'.pools
      ensures s'.deadlines[p] == DueTimes(s'.taskById, p)
    {
      DueTimesRemove(s.taskById, e.spec.id, p);
    }
  }

  lemma DueTimesRemove(t: map<string, Entry>, id: string, pool: string)
    requires id in t
    ensures DueTimes(t - {id}, pool) == if t[id].spec.pool == pool then DueTimes(t, pool) - {id} else DueTimes(t, pool)
  {
  }

  lemma ForgetTotals(s: State, e: Entry)
    requires TotalsAgree(s) && Waiting(s, e)
    ensures TotalsAgree(Forget(s, e))
  {
    hide BytesOf, PoolTasks, RemoveId;
    forall p | p in s.pools
      ensures Forget(s, e).pools[p].totalWaiting == |PoolTasks(Forget(s, e).taskById, p)|
      ensures Forget(s, e).pools[p].totalBytes == BytesOf(Forget(s, e).taskById, PoolTasks(Forget(s, e).taskById, p))
    {
      PoolTasksRemove(s.taskById, e.spec.id, p);
    }
  }

  lemma ForgetCounters(s: State, e: Entry)
    requires CountersAgree(s) && Waiting(s, e)
    ensures CountersAgree(Forget(s, e))
  {
    hide BytesOf, OwnerTasks, ForgetInPool;
    var s', t := Forget(s, e), s.taskById;
    forall o
      ensures Get(s'.waitingCount, o) == |OwnerTasks(s'.taskById, o)|
      ensures Get(s'.waitingBytes, o) == BytesOf(s'.taskById, OwnerTasks(s'.taskById, o))
      ensures o in s'.waitingCount <==> OwnerTasks(s'.taskById, o) != {}
    {
      assert Get(s.waitingCount, o) == |OwnerTasks(t, o)|;
      OwnerTasksRemove(t, e.spec.id, o);
    }
  }

  lemma ForgetRingOk(r: OwnerRing, c: PriorityClass, o0: string, q': seq<Entry>)
    requires RingOk(r) && RingHomed(r, c) && o0 in r.queues
    requires forall x :: x in q' ==> x in r.queues[o0]
    ensures RingOk(r.(queues := r.queues[o0 := q'])) && RingHomed(r.(queues := r.queues[o0 := q']), c)
  {
    var r' := r.(queues := r.queues[o0 := q']);
    assert forall o :: QueueOf(r', o) == if o == o0 then q' else QueueOf(r, o);
    assert |q'| > 0 ==> q'[0] in r.queues[o0];
    forall o
      ensures Get(r'.wheel.credit, o) <= OwnerQuantum(r', o)
    {
      assert Get(r.wheel.credit, o) <= OwnerQuantum(r, o);
    }
    forall o, i | 0 <= i < |QueueOf(r', o)|
      ensures QueueOf(r', o)[i].spec.owner == o && ClassOf(QueueOf(r', o)[i].spec) == c
    {
      assert QueueOf(r', o)[i] in QueueOf(r, o);
    }
  }

  lemma ForgetPool(p: Pool, e: Entry)
    requires PoolOk(p)
    requires DistinctIds(QueueOf(RingOf(p, ClassOf(e.spec)), e.spec.owner))
    requires e in QueueOf(RingOf(p, ClassOf(e.spec)), e.spec.owner)
    ensures PoolOk(ForgetInPool(p, e))
    ensures forall c :: RingOf(ForgetInPool(p, e), c).wheel == RingOf(p, c).wheel &&
                        RingOf(ForgetInPool(p, e), c).quantums == RingOf(p, c).quantums
    ensures ForgetInPool(p, e).wheel == p.wheel && ForgetInPool(p, e).config == p.config
  {
    hide RemoveId, RingOk, RingHomed, DistinctIds;
    var c0 := ClassOf(e.spec);
    var r := RingOf(p, c0);
    var q := QueueOf(r, e.spec.owner);
    RemoveIdFacts(q, e);
    assert RingOk(r) && RingHomed(r, c0);
    ForgetRingOk(r, c0, e.spec.owner, RemoveId(q, e.spec.id));
    assert forall c :: c != c0 ==> RingOf(ForgetInPool(p, e), c) == RingOf(p, c);
  }

  lemma ForgetPools(s: State, e: Entry)
    requires QueuesAgree(s) && PoolsOk(s) && WeightsOk(s) && Waiting(s, e)
    ensures PoolsOk(Forget(s, e)) && WeightsOk(Forget(s, e))
    ensures forall p :: p in s.pools ==> Forget(s, e).pools[p].wheel == s.pools[p].wheel
    ensures forall p, c :: p in s.pools ==> RingOf(Forget(s, e).pools[p], c).wheel == RingOf(s.pools[p], c).wheel
  {
    hide QueuesAgree, PoolOk, ForgetInPool, RingOf, DistinctIds;
    WaitingIsQueued(s, e);
    ForgetPool(s.pools[e.spec.pool], e);
  }

  /** Taking a waiting entry out of every index keeps them in agreement. */
  lemma ForgetOk(s: State, e: Entry)
    requires StoreOk(s) && Waiting(s, e)
    ensures StoreOk(Forget(s, e))
    ensures forall p :: p in s.pools ==> Forget(s, e).pools[p].wheel == s.pools[p].wheel
    ensures forall p, c :: p in s.pools ==> RingOf(Forget(s, e).pools[p], c).wheel == RingOf(s.pools[p], c).wheel
  {
    hide QueuesAgree, DeadlinesAgree, TotalsAgree, CountersAgree, PoolsOk, WeightsOk, Forget, RingOf;
    ForgetTasks(s, e);
    ForgetQueues(s, e);
    ForgetDeadlines(s, e);
    ForgetTotals(s, e);
    ForgetCounters(s, e);
    ForgetPools(s, e);
  }

  // ----- Enqueue

  lemma QueueAfterEnqueue(s: State, e: Entry, p: string, c: PriorityClass, o: string)
    requires e.spec.pool in s.pools && e.spec.pool in s.deadlines
    ensures Queue(Enqueue(s, e), p, c, o) ==
            if p == e.spec.pool && c == ClassOf(e.spec) && o == e.spec.owner
            then Queue(s, p, c, o) + [e] else Queue(s, p, c, o)
  {
  }

  ghost predicate Fresh(s: State, e: Entry) {
    e.spec.id !in s.taskById && e.spec.pool in s.pools && e.spec.pool in s.deadlines
  }

  lemma EnqueueTasks(s: State, e: Entry)
    requires e.spec.pool in s.pools && e.spec.pool in s.deadlines
    ensures Enqueue(s, e).taskById == s.taskById[e.spec.id := e] && Enqueue(s, e).pools.Keys == s.pools.Keys
    ensures Enqueue(s, e).waitingCount == Add(s.waitingCount, e.spec.owner, 1)
    ensures Enqueue(s, e).waitingBytes == Add(s.waitingBytes, e.spec.owner, e.payload)
    ensures Enqueue(s, e).deadlines.Keys == s.deadlines.Keys
    ensures forall p :: p in s.pools && p != e.spec.pool ==> Enqueue(s, e).pools[p] == s.pools[p]
    ensures forall p :: p in s.deadlines && p != e.spec.pool ==> Enqueue(s, e).deadlines[p] == s.deadlines[p]
    ensures Enqueue(s, e).deadlines[e.spec.pool] ==
            if e.spec.deadline.Some? then s.deadlines[e.spec.pool][e.spec.id := e.spec.deadline.value]
            else s.deadlines[e.spec.pool]
    ensures Enqueue(s, e).pools[e.spec.pool].totalWaiting == s.pools[e.spec.pool].totalWaiting + 1
    ensures Enqueue(s, e).pools[e.spec.pool].totalBytes == s.pools[e.spec.pool].totalBytes + e.payload
  {
    hide JoinOwner, QueueOf, RingOf;
  }

  /** One queue after Enqueue: what it holds is registered, and repeats no id. */
  lemma EnqueueOneQueue(s: State, e: Entry, p: string, c: PriorityClass, o: string)
    requires QueuesAgree(s) && Fresh(s, e)
    ensures DistinctIds(Queue(Enqueue(s, e), p, c, o))
    ensures forall i :: 0 <= i < |Queue(Enqueue(s, e), p, c, o)| ==>
              AtHome(Enqueue(s, e), p, c, o, Queue(Enqueue(s, e), p, c, o)[i])
  {
    hide Enqueue, Queue, Queued;
    EnqueueTasks(s, e);
    QueueAfterEnqueue(s, e, p, c, o);
    assert DistinctIds(Queue(s, p, c, o));
    assert forall i :: 0 <= i < |Queue(s, p, c, o)| ==> AtHome(s, p, c, o, Queue(s, p, c, o)[i]);
  }

  lemma EnqueueRegistered(s: State, e: Entry, id: string)
    requires QueuesAgree(s) && Fresh(s, e) && id in Enqueue(s, e).taskById
    ensures var x := Enqueue(s, e).taskById[id]; x.spec.id == id && Queued(Enqueue(s, e), x)
  {
    hide Enqueue, Queue, AtHome, DistinctIds;
    EnqueueTasks(s, e);
    var x := Enqueue(s, e).taskById[id];
    if id != e.spec.id {
      assert Queued(s, x);
    }
    QueueAfterEnqueue(s, e, x.spec.pool, ClassOf(x.spec), x.spec.owner);
  }

  lemma EnqueueQueues(s: State, e: Entry)
    requires QueuesAgree(s) && Fresh(s, e)
    ensures QueuesAgree(Enqueue(s, e))
  {
    hide Enqueue, Queue, AtHome, DistinctIds, Queued;
    var s' := Enqueue(s, e);
    forall p, c, o
      ensures DistinctIds(Queue(s', p, c, o))
      ensures forall i :: 0 <= i < |Queue(s', p, c, o)| ==> AtHome(s', p, c, o, Queue(s', p, c, o)[i])
    {
      EnqueueOneQueue(s, e, p, c, o);
    }
    forall id | id in s'.taskById
      ensures s'.taskById[id].spec.id == id && Queued(s', s'.taskById[id])
    {
      EnqueueRegistered(s, e, id);
    }
  }

  lemma DueTimesAdd(t: map<string, Entry>, e: Entry, p: string)
    requires e.spec.id !in t
    ensures DueTimes(t[e.spec.id := e], p) ==
            if e.spec.pool == p && e.spec.deadline.Some? then DueTimes(t, p)[e.spec.id := e.spec.deadline.value]
            else DueTimes(t, p)
  {
  }

  lemma EnqueueDeadlines(s: State, e: Entry)
    requires DeadlinesAgree(s) && Fresh(s, e)
    ensures DeadlinesAgree(Enqueue(s, e))
  {
    hide Enqueue, DueTimes;
    EnqueueTasks(s, e);
    forall p | p in s.pools
      ensures Enqueue(s, e).deadlines[p] == DueTimes(Enqueue(s, e).taskById, p)
    {
      DueTimesAdd(s.taskById, e, p);
    }
  }

  lemma EnqueueTotals(s: State, e: Entry)
    requires TotalsAgree(s) && Fresh(s, e)
    ensures TotalsAgree(Enqueue(s, e))
  {
    hide BytesOf, Enqueue, PoolTasks;
    EnqueueTasks(s, e);
    forall p | p in s.pools
      ensures Enqueue(s, e).pools[p].totalWaiting == |PoolTasks(Enqueue(s, e).taskById, p)|
      ensures Enqueue(s, e).pools[p].totalBytes == BytesOf(Enqueue(s, e).taskById, PoolTasks(Enqueue(s, e).taskById, p))
    {
      PoolTasksAdd(s.taskById, e, p);
    }
  }

  lemma EnqueueCounters(s: State, e: Entry)
    requires CountersAgree(s) && Fresh(s, e)
    ensures CountersAgree(Enqueue(s, e))
  {
    hide BytesOf, Enqueue, OwnerTasks;
    var s', t := Enqueue(s, e), s.taskById;
    EnqueueTasks(s, e);
    forall o
      ensures Get(s'.waitingCount, o) == |OwnerTasks(s'.taskById, o)|
      ensures Get(s'.waitingBytes, o) == BytesOf(s'.taskById, OwnerTasks(s'.taskById, o))
      ensures o in s'.waitingCount <==> OwnerTasks(s'.taskById, o) != {}
    {
      assert Get(s.waitingCount, o) == |OwnerTasks(t, o)|;
      OwnerTasksAdd(t, e, o);
    }
  }

  function EnqueueRing(r: OwnerRing, e: Entry, weight: int): OwnerRing {
    JoinOwner(r.(queues := r.queues[e.spec.owner := QueueOf(r, e.spec.owner) + [e]]), e.spec.owner, weight)
  }

  lemma EnqueueRingForm(r: OwnerRing, e: Entry, weight: int)
    ensures var (r', o0) := (EnqueueRing(r, e, weight), e.spec.owner);
            && r'.wheel == Join(r.wheel, o0)
            && r'.quantums == (if o0 in r.wheel.items || o0 in r.quantums then r.quantums else r.quantums[o0 := weight])
            && forall o :: QueueOf(r', o) == if o == o0 then QueueOf(r, o) + [e] else QueueOf(r, o)
  {
  }

  lemma EnqueueRingHomed(r: OwnerRing, e: Entry, weight: int)
    requires RingHomed(r, ClassOf(e.spec))
    ensures RingHomed(EnqueueRing(r, e, weight), ClassOf(e.spec))
  {
    hide EnqueueRing, QueueOf;
    EnqueueRingForm(r, e, weight);
  }

  lemma EnqueueRingWheel(r: OwnerRing, e: Entry, weight: int)
    requires RingOk(r)
    ensures WheelOk(Join(r.wheel, e.spec.owner))
    ensures forall o :: |QueueOf(EnqueueRing(r, e, weight), o)| > 0 ==> o in Join(r.wheel, e.spec.owner).items
  {
    hide EnqueueRing, QueueOf;
    EnqueueRingForm(r, e, weight);
  }

  /** An owner that joins with a quantum of its own has had at most one unit of credit. */
  lemma EnqueueRingCredit(r: OwnerRing, e: Entry, weight: int, o: string)
    requires Get(r.wheel.credit, o) <= OwnerQuantum(r, o) && weight >= 1
    ensures Get(EnqueueRing(r, e, weight).wheel.credit, o) <= OwnerQuantum(EnqueueRing(r, e, weight), o)
  {
    hide EnqueueRing, QueueOf;
    EnqueueRingForm(r, e, weight);
  }

  lemma EnqueueRingOk(r: OwnerRing, e: Entry, limits: map<string, OwnerLimits>)
    requires RingOk(r) && RingHomed(r, ClassOf(e.spec)) && RingWeights(r, limits)
    ensures var r' := EnqueueRing(r, e, EffectiveWeight(limits, e.spec.owner));
            && RingOk(r') && RingHomed(r', ClassOf(e.spec)) && RingWeights(r', limits)
            && r'.wheel == Join(r.wheel, e.spec.owner)
  {
    hide EnqueueRing, QueueOf, EffectiveWeight, RingHomed, OwnerQuantum, WheelOk;
    var weight := EffectiveWeight(limits, e.spec.owner);
    var r' := EnqueueRing(r, e, weight);
    assert weight >= 1 by { WeightPositive(limits, e.spec.owner); }
    EnqueueRingForm(r, e, weight);
    EnqueueRingHomed(r, e, weight);
    EnqueueRingWheel(r, e, weight);
    forall o
      ensures Get(r'.wheel.credit, o) <= OwnerQuantum(r', o)
    {
      EnqueueRingCredit(r, e, weight, o);
    }
  }

  lemma WeightPositive(limits: map<string, OwnerLimits>, owner: string)
    ensures EffectiveWeight(limits, owner) >= 1
  {
  }

  lemma EnqueueForm(p: Pool, e: Entry, weight: int)
    ensures var p' := EnqueueInPool(p, e, weight);
            && p'.wheel == Join(p.wheel, ClassOf(e.spec))
            && RingOf(p', ClassOf(e.spec)) == EnqueueRing(RingOf(p, ClassOf(e.spec)), e, weight)
            && forall c :: c != ClassOf(e.spec) ==> RingOf(p', c) == RingOf(p, c)
  {
    hide JoinOwner, QueueOf;
  }

  lemma EnqueuePool(p: Pool, e: Entry, limits: map<string, OwnerLimits>)
    requires PoolOk(p) && forall c :: RingWeights(RingOf(p, c), limits)
    ensures PoolOk(EnqueueInPool(p, e, EffectiveWeight(limits, e.spec.owner)))
    ensures forall c :: RingWeights(RingOf(EnqueueInPool(p, e, EffectiveWeight(limits, e.spec.owner)), c), limits)
  {
    hide RingOk, RingHomed, RingWeights, EnqueueInPool, EnqueueRing, RingOf;
    var c0 := ClassOf(e.spec);
    EnqueueForm(p, e, EffectiveWeight(limits, e.spec.owner));
    assert RingOk(RingOf(p, c0)) && RingHomed(RingOf(p, c0), c0) && RingWeights(RingOf(p, c0), limits);
    EnqueueRingOk(RingOf(p, c0), e, limits);
  }

  lemma EnqueuePools(s: State, e: Entry)
    requires PoolsOk(s) && WeightsOk(s) && Fresh(s, e)
    ensures PoolsOk(Enqueue(s, e)) && WeightsOk(Enqueue(s, e))
  {
    hide PoolOk, EnqueueInPool, RingWeights, RingOf;
    EnqueuePool(s.pools[e.spec.pool], e, s.limits);
  }

  /** Adding a fresh entry to every index keeps them in agreement. */
  lemma EnqueueOk(s: State, e: Entry)
    requires StoreOk(s) && e.spec.id !in s.taskById
    ensures StoreOk(Enqueue(s, e))
  {
    if e.spec.pool in s.pools && e.spec.pool in s.deadlines {
      EnqueueFreshOk(s, e);
    }
  }

  lemma EnqueueFreshOk(s: State, e: Entry)
    requires StoreOk(s) && Fresh(s, e)
    ensures StoreOk(Enqueue(s, e))
  {
    hide QueuesAgree, DeadlinesAgree, TotalsAgree, CountersAgree, PoolsOk, WeightsOk, Enqueue;
    EnqueueQueues(s, e);
    EnqueueDeadlines(s, e);
    EnqueueTotals(s, e);
    EnqueueCounters(s, e);
    EnqueuePools(s, e);
  }

  // ----- rotating the rings of one pool

  lemma RotateSameQueues(s: State, pool: string, p': Pool)
    requires pool in s.pools && PoolKept(s.pools[pool], p')
    ensures forall p, c, o :: Queue(s.(pools := s.pools[pool := p']), p, c, o) == Queue(s, p, c, o)
  {
    hide RingOf, QueueOf, QuantaKept;
    forall p, c, o
      ensures Queue(s.(pools := s.pools[pool := p']), p, c, o) == Queue(s, p, c, o)
    {
      assert RingKept(RingOf(s.pools[pool], c), RingOf(p', c));
    }
  }

  lemma KeptWeights(r: OwnerRing, r': OwnerRing, limits: map<string, OwnerLimits>)
    requires RingWeights(r, limits) && RingKept(r, r')
    ensures RingWeights(r', limits)
  {
    hide QueueOf;
  }

  lemma RotateRest(s: State, pool: string, p': Pool)
    requires StoreOk(s) && pool in s.pools && PoolOk(p') && PoolKept(s.pools[pool], p')
    ensures var s' := s.(pools := s.pools[pool := p']);
            DeadlinesAgree(s') && TotalsAgree(s') && CountersAgree(s') && PoolsOk(s') && WeightsOk(s')
  {
    hide QueuesAgree, DeadlinesAgree, TotalsAgree, PoolOk, PoolKept, WeightsOk, CountersAgree;
    var s' := s.(pools := s.pools[pool := p']);
    RotateTotals(s, pool, p');
    RotateWeights(s, pool, p');
    SameCounters(s, s');
  }

  lemma RotateTotals(s: State, pool: string, p': Pool)
    requires DeadlinesAgree(s) && TotalsAgree(s) && pool in s.pools && PoolKept(s.pools[pool], p')
    ensures var s' := s.(pools := s.pools[pool := p']); DeadlinesAgree(s') && TotalsAgree(s')
  {
    hide RingKept, RingOf, BytesOf, PoolTasks, DueTimes;
  }

  lemma RotateWeights(s: State, pool: string, p': Pool)
    requires WeightsOk(s) && pool in s.pools && PoolKept(s.pools[pool], p')
    ensures WeightsOk(s.(pools := s.pools[pool := p']))
  {
    hide RingWeights, RingOf, RingKept;
    var s' := s.(pools := s.pools[pool := p']);
    forall p, c | p in s'.pools
      ensures RingWeights(RingOf(s'.pools[p], c), s'.limits)
    {
      assert RingWeights(RingOf(s.pools[p], c), s.limits);
      if p == pool {
        KeptWeights(RingOf(s.pools[pool], c), RingOf(p', c), s.limits);
      }
    }
  }

  lemma RotateOk(s: State, pool: string, p': Pool)
    requires StoreOk(s) && pool in s.pools && PoolOk(p') && PoolKept(s.pools[pool], p')
    ensures StoreOk(s.(pools := s.pools[pool := p']))
    ensures forall p, c, o :: Queue(s.(pools := s.pools[pool := p']), p, c, o) == Queue(s, p, c, o)
  {
    hide QueuesAgree, DeadlinesAgree, TotalsAgree, CountersAgree, PoolsOk, WeightsOk, PoolOk, PoolKept, Queue;
    RotateSameQueues(s, pool, p');
    RotateQueues(s, s.(pools := s.pools[pool := p']));
    RotateRest(s, pool, p');
  }

  /** Agreement of the queues depends only on their contents. */
  lemma RotateQueues(s: State, s': State)
    requires QueuesAgree(s) && s'.taskById == s.taskById && s'.pools.Keys == s.pools.Keys
    requires forall p, c, o :: Queue(s', p, c, o) == Queue(s, p, c, o)
    ensures QueuesAgree(s')
  {
    hide Queue;
    forall p, c, o, i | 0 <= i < |Queue(s', p, c, o)|
      ensures AtHome(s', p, c, o, Queue(s', p, c, o)[i])
    {
      assert Queue(s', p, c, o) == Queue(s, p, c, o);
      assert AtHome(s, p, c, o, Queue(s, p, c, o)[i]);
    }
    forall id | id in s'.taskById
      ensures Queued(s', s'.taskById[id])
    {
      assert Queued(s, s.taskById[id]);
    }
  }

  // ----- steps that leave pools, deadlines, quotas and the id table alone

  ghost predicate SameFrame(s: State, s': State) {
    s'.pools == s.pools && s'.deadlines == s.deadlines && s'.limits == s.limits && s'.taskById == s.taskById
  }

  lemma FrameQueues(s: State, s': State)
    requires QueuesAgree(s) && SameFrame(s, s')
    ensures QueuesAgree(s')
  {
    hide QueuesAgree;
    RotateQueues(s, s');
  }

  lemma FrameDeadlines(s: State, s': State)
    requires DeadlinesAgree(s) && SameFrame(s, s')
    ensures DeadlinesAgree(s')
  {
    hide DueTimes;
  }

  lemma FrameTotals(s: State, s': State)
    requires TotalsAgree(s) && SameFrame(s, s')
    ensures TotalsAgree(s')
  {
    hide BytesOf, PoolTasks;
  }

  lemma FramePools(s: State, s': State)
    requires PoolsOk(s) && SameFrame(s, s')
    ensures PoolsOk(s')
  {
    hide PoolOk;
  }

  lemma FrameWeights(s: State, s': State)
    requires WeightsOk(s) && SameFrame(s, s')
    ensures WeightsOk(s')
  {
    hide RingWeights, RingOf;
  }

  lemma FrameOk(s: State, s': State)
    requires StoreOk(s) && SameFrame(s, s')
    ensures QueuesAgree(s') && DeadlinesAgree(s') && TotalsAgree(s') && PoolsOk(s') && WeightsOk(s')
  {
    hide QueuesAgree, DeadlinesAgree, TotalsAgree, CountersAgree, PoolsOk, WeightsOk, SameFrame;
    FrameQueues(s, s');
    FrameDeadlines(s, s');
    FrameTotals(s, s');
    FramePools(s, s');
    FrameWeights(s, s');
  }

  lemma SameCounters(s: State, s': State)
    requires CountersAgree(s) && s'.taskById == s.taskById
    requires s'.waitingCount == s.waitingCount && s'.waitingBytes == s.waitingBytes
    ensures CountersAgree(s')
  {
    hide BytesOf, OwnerTasks;
  }

  // ----- new quotas

  lemma RefreshRingOk(r: OwnerRing, c: PriorityClass, owner: string, limits: map<string, OwnerLimits>, l: OwnerLimits)
    requires RingOk(r) && RingHomed(r, c) && RingWeights(r, limits) && l.weight > 0
    ensures var r' := RefreshRing(r, owner, l.weight);
            RingOk(r') && RingHomed(r', c) && RingWeights(r', limits[owner := l]) && SameQueues(r, r') && r'.wheel.items == r.wheel.items
  {
    var r' := RefreshRing(r, owner, l.weight);
    assert SameQueues(r, r');
    HomedFrame(r, r', c);
    forall o
      ensures Get(r'.wheel.credit, o) <= OwnerQuantum(r', o)
    {
      assert Get(r.wheel.credit, o) <= OwnerQuantum(r, o);
    }
  }

  lemma RefreshRingOf(p: Pool, owner: string, weight: int, c: PriorityClass)
    ensures RingOf(RefreshPool(p, owner, weight), c) == RefreshRing(RingOf(p, c), owner, weight)
  {
  }

  lemma RefreshPoolOk(p: Pool, owner: string, limits: map<string, OwnerLimits>, l: OwnerLimits)
    requires PoolOk(p) && l.weight > 0 && forall c :: RingWeights(RingOf(p, c), limits)
    ensures PoolOk(RefreshPool(p, owner, l.weight))
    ensures forall c :: RingWeights(RingOf(RefreshPool(p, owner, l.weight), c), limits[owner := l])
    ensures forall c :: SameQueues(RingOf(p, c), RingOf(RefreshPool(p, owner, l.weight), c))
    ensures RefreshPool(p, owner, l.weight).wheel == p.wheel
  {
    hide RingOk, RingHomed, RingWeights, SameQueues, RefreshRing, RingOf;
    var p' := RefreshPool(p, owner, l.weight);
    forall c
      ensures RingOk(RingOf(p', c)) && RingHomed(RingOf(p', c), c) && RingWeights(RingOf(p', c), limits[owner := l])
      ensures SameQueues(RingOf(p, c), RingOf(p', c)) && RingOf(p', c).wheel.items == RingOf(p, c).wheel.items
    {
      assert RingOk(RingOf(p, c)) && RingHomed(RingOf(p, c), c) && RingWeights(RingOf(p, c), limits);
      RefreshRingOk(RingOf(p, c), c, owner, limits, l);
      RefreshRingOf(p, owner, l.weight, c);
    }
  }

  lemma SetLimitsPools(s: State, owner: string, limits: OwnerLimits)
    requires PoolsOk(s) && WeightsOk(s)
    ensures PoolsOk(SetLimits(s, owner, limits)) && WeightsOk(SetLimits(s, owner, limits))
    ensures forall p, c, o :: Queue(SetLimits(s, owner, limits), p, c, o) == Queue(s, p, c, o)
  {
    hide PoolOk, RingWeights, RefreshPool, RingOf, QueueOf;
    var l := NormalizeLimits(limits);
    var s' := SetLimits(s, owner, limits);
    forall p | p in s.pools
      ensures PoolOk(s'.pools[p]) && forall c :: RingWeights(RingOf(s'.pools[p], c), s'.limits)
      ensures forall c, o :: QueueOf(RingOf(s'.pools[p], c), o) == QueueOf(RingOf(s.pools[p], c), o)
    {
      assert forall c :: RingWeights(RingOf(s.pools[p], c), s.limits);
      RefreshPoolOk(s.pools[p], owner, s.limits, l);
    }
  }

  lemma SetLimitsRest(s: State, owner: string, limits: OwnerLimits)
    requires DeadlinesAgree(s) && TotalsAgree(s) && CountersAgree(s)
    ensures var s' := SetLimits(s, owner, limits); DeadlinesAgree(s') && TotalsAgree(s') && CountersAgree(s')
  {
    hide RefreshRing, BytesOf;
  }

  lemma SetLimitsOk(s: State, owner: string, limits: OwnerLimits)
    requires StoreOk(s)
    ensures StoreOk(SetLimits(s, owner, limits))
    ensures forall p, c, o :: Queue(SetLimits(s, owner, limits), p, c, o) == Queue(s, p, c, o)
  {
    hide QueuesAgree, DeadlinesAgree, TotalsAgree, CountersAgree, PoolsOk, WeightsOk, Queue, RefreshPool;
    SetLimitsPools(s, owner, limits);
    RotateQueues(s, SetLimits(s, owner, limits));
    SetLimitsRest(s, owner, limits);
  }
}
