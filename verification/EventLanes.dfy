/**
 The event bus's ordered lanes as a transition system: producers that enqueue
 and then make sure a worker exists, workers that retire when idle, and a
 closing step after which workers drain and leave.  Each step is one critical
 section or one channel operation; steps of different goroutines interleave
 freely.
 */
module EventLanes {
  import opened Prelude

  const PARTITIONS := 4
  const LANE_CAPACITY := 256
  const WORD := 0x1_0000_0000

  datatype Job = Job(key: string, event: int)

  // ----- partition choice

  /** The 32-bit rolling hash of the first n characters. */
  function Hash(key: string, n: nat): (h: nat)
    requires n <= |key|
    ensures h < WORD
  {
    if n == 0 then 0 else (31 * Hash(key, n - 1) + key[n - 1] as int) % WORD
  }

  function PartitionIndex(key: string, n: nat): (i: nat)
    ensures n > 0 ==> i < n
  {
    if n <= 1 then 0 else Hash(key, |key|) % n
  }

  function Power31(k: nat): nat {
    if k == 0 then 1 else 31 * Power31(k - 1)
  }

  /** The sum of each character times 31 to its distance from the end. */
  function Polynomial(key: string): nat {
    if key == "" then 0 else key[0] as int * Power31(|key| - 1) + Polynomial(key[1..])
  }

  lemma {:induction false} PolynomialAppend(key: string, c: char)
    ensures Polynomial(key + [c]) == 31 * Polynomial(key) + c as int
    decreases |key|
  {
    var longer := key + [c];
    if key != "" {
      assert longer[1..] == key[1..] + [c];
      PolynomialAppend(key[1..], c);
      var x, p := key[0] as int, Power31(|key| - 1);
      assert x * (31 * p) == 31 * (x * p);
    } else {
      assert longer[1..] == "";
    }
  }

  lemma WordWraps(p: nat, c: nat)
    ensures (31 * (p % WORD) + c) % WORD == (31 * p + c) % WORD
  {
    var q, r := p / WORD, 31 * (p % WORD) + c;
    assert p == WORD * q + p % WORD;
    ModIs(31 * p + c, 31 * q + r / WORD, r % WORD);
  }

  lemma ModIs(x: int, words: int, rest: int)
    requires x == WORD * words + rest && 0 <= rest < WORD
    ensures x % WORD == rest
  {
  }

  /** The hash wraps at every step as the whole sum does at the end. */
  lemma {:induction false} HashIsPolynomial(key: string, n: nat)
    requires n <= |key|
    ensures Hash(key, n) == Polynomial(key[..n]) % WORD
  {
    if n > 0 {
      HashIsPolynomial(key, n - 1);
      assert key[..n] == key[..n - 1] + [key[n - 1]];
      PolynomialAppend(key[..n - 1], key[n - 1]);
      WordWraps(Polynomial(key[..n - 1]), key[n - 1] as int);
    }
  }

  method ComputePartition(key: string, n: nat) returns (i: nat)
    ensures i == PartitionIndex(key, n)
    ensures i == if n <= 1 then 0 else Polynomial(key) % 0x1_0000_0000 % n
  {
    if n <= 1 {
      return 0;
    }
    var h, k := 0, 0;
    while k < |key|
      invariant k <= |key| && h == Hash(key, k)
    {
      h := (31 * h + key[k] as int) % WORD;
      k := k + 1;
    }
    HashIsPolynomial(key, k);
    assert key[..k] == key;
    return h % n;
  }

  function LaneOf(key: string): (i: nat)
    ensures i < PARTITIONS
  {
    PartitionIndex(key, PARTITIONS)
  }

  // ----- state

  /** Where an ordered worker is; Drain* after it saw the stop signal, Leaving before its deferred release. */
  datatype Worker = Idle | Holding(job: Job) | Draining | DrainHolding(job: Job) | Leaving | Gone

  /** Outside the read lock, inside it, or inside it between enqueue and ensure on a lane. */
  datatype Producer = Outside | Inside | Pending(lane: nat)

  datatype Lane = Lane(queue: seq<Job>, running: bool, workers: seq<Worker>, accepted: seq<Job>, handed: seq<Job>)

  datatype Bus = Bus(
    started: bool,
    closed: bool,
    stopped: bool,
    lanes: seq<Lane>,
    producers: map<nat, Producer>,
    accepted: seq<Job>,
    handed: seq<Job>)

  datatype Step =
    | StartBus
    | Enter(p: nat)
    | Send(p: nat, job: Job)
    | Ensure(p: nat)
    | Leave(p: nat)
    | Close
    | Work(lane: nat, worker: nat, action: Action)

  datatype Action = Receive | Hand | Timeout | SeeStop | DrainEmpty | Release

  function PhaseOf(b: Bus, p: nat): Producer {
    if p in b.producers then b.producers[p] else Outside
  }

  ghost predicate WorkEnabled(b: Bus, l: Lane, w: Worker, action: Action) {
    match action
    case Receive => (w.Idle? || w.Draining?) && |l.queue| > 0
    case Hand => w.Holding? || w.DrainHolding?
    case Timeout => w.Idle?
    case SeeStop => w.Idle? && b.stopped
    case DrainEmpty => w.Draining? && |l.queue| == 0
    case Release => w.Leaving?
  }

  ghost predicate Enabled(b: Bus, s: Step) {
    match s
    case StartBus => !b.closed
    case Enter(p) => PhaseOf(b, p).Outside? && b.started && !b.closed
    case Send(p, job) => PhaseOf(b, p).Inside? && job.key != ""
    case Ensure(p) => PhaseOf(b, p).Pending?
    case Leave(p) => PhaseOf(b, p).Inside?
    case Close => !b.closed && forall p :: PhaseOf(b, p).Outside?
    case Work(i, w, action) => i < |b.lanes| && w < |b.lanes[i].workers| && WorkEnabled(b, b.lanes[i], b.lanes[i].workers[w], action)
  }

  function SetWorker(l: Lane, w: nat, to: Worker): Lane
    requires w < |l.workers|
  {
    l.(workers := l.workers[w := to])
  }

  /** What one worker action does to its lane. */
  function WorkOn(l: Lane, w: nat, action: Action): Lane
    requires w < |l.workers|
  {
    var me := l.workers[w];
    match action
    case Receive =>
      if |l.queue| == 0 then l
      else SetWorker(l.(queue := l.queue[1..]), w, if me.Idle? then Holding(l.queue[0]) else DrainHolding(l.queue[0]))
    case Hand =>
      if me.Holding? then SetWorker(l.(handed := l.handed + [me.job]), w, Idle)
      else if me.DrainHolding? then SetWorker(l.(handed := l.handed + [me.job]), w, Draining)
      else l
    case Timeout =>
      if |l.queue| == 0 then SetWorker(l.(running := false), w, Gone) else l
    case SeeStop => SetWorker(l, w, Draining)
    case DrainEmpty => SetWorker(l, w, Leaving)
    case Release => SetWorker(l.(running := false), w, Gone)
  }

  /** What an action hands over, if anything. */
  function HandedBy(w: Worker, action: Action): seq<Job> {
    if action.Hand? && (w.Holding? || w.DrainHolding?) then [w.job] else []
  }

  function EnsureWorker(l: Lane): Lane {
    if l.running then l else l.(running := true, workers := l.workers + [Idle])
  }

  ghost function Apply(b: Bus, s: Step): Bus
    requires |b.lanes| == PARTITIONS && Enabled(b, s)
  {
    match s
    case StartBus => b.(started := true)
    case Enter(p) => b.(producers := b.producers[p := Inside])
    case Send(p, job) =>
      var i := LaneOf(job.key);
      var l := b.lanes[i];
      if |l.queue| >= LANE_CAPACITY then b
      else b.(lanes := b.lanes[i := l.(queue := l.queue + [job], accepted := l.accepted + [job])],
              producers := b.producers[p := Pending(i)],
              accepted := b.accepted + [job])
    case Ensure(p) =>
      var i := PhaseOf(b, p).lane;
      if i < |b.lanes|
      then b.(lanes := b.lanes[i := EnsureWorker(b.lanes[i])], producers := b.producers[p := Inside])
      else b.(producers := b.producers[p := Inside])
    case Leave(p) => b.(producers := b.producers[p := Outside])
    case Close => b.(closed := true, stopped := b.started)
    case Work(i, w, action) =>
      b.(lanes := b.lanes[i := WorkOn(b.lanes[i], w, action)],
         handed := b.handed + HandedBy(b.lanes[i].workers[w], action))
  }

  const EMPTY_LANE := Lane([], false, [], [], [])

  const NEW_BUS := Bus(false, false, false, [EMPTY_LANE, EMPTY_LANE, EMPTY_LANE, EMPTY_LANE], map[], [], [])

  // ----- invariants

  /** A worker that may still take jobs. */
  predicate Consuming(w: Worker) {
    w.Idle? || w.Holding? || w.Draining? || w.DrainHolding?
  }

  function Held(w: Worker): seq<Job> {
    if w.Holding? || w.DrainHolding? then [w.job] else []
  }

  /** At most one worker is not gone, and the running flag says whether there is one. */
  ghost predicate OneWorker(l: Lane) {
    && (forall i, j :: 0 <= i < j < |l.workers| ==> l.workers[i].Gone? || l.workers[j].Gone?)
    && (l.running <==> exists i :: 0 <= i < |l.workers| && !l.workers[i].Gone?)
  }

  /** Everything accepted was handed over, is in a worker's hands, or is queued, in that order. */
  ghost predicate InOrder(l: Lane) {
    && (forall i :: 0 <= i < |l.workers| && !l.workers[i].Gone? ==> l.accepted == l.handed + Held(l.workers[i]) + l.queue)
    && (!l.running ==> l.accepted == l.handed + l.queue)
  }

  /** Stop-time states occur only after stop, and a leaving worker left nothing behind. */
  ghost predicate StopStates(b: Bus, l: Lane) {
    forall i :: 0 <= i < |l.workers| ==>
      && (l.workers[i].Draining? || l.workers[i].DrainHolding? ==> b.stopped)
      && (l.workers[i].Leaving? ==> b.stopped && |l.queue| == 0)
  }

  /** Queued work has a live worker, or a producer about to ensure one. */
  ghost predicate Attended(b: Bus, i: nat)
    requires i < |b.lanes|
  {
    |b.lanes[i].queue| > 0 ==> b.lanes[i].running || exists p :: PhaseOf(b, p) == Pending(i)
  }

  ghost predicate LaneOk(b: Bus, i: nat)
    requires i < |b.lanes|
  {
    OneWorker(b.lanes[i]) && InOrder(b.lanes[i]) && StopStates(b, b.lanes[i]) && Attended(b, i)
  }

  ghost predicate ProducersOk(b: Bus) {
    && (b.stopped ==> b.closed)
    && (b.closed ==> forall p :: PhaseOf(b, p).Outside?)
  }

  ghost function OnLane(log: seq<Job>, i: nat): seq<Job> {
    if log == [] then [] else
      var n := |log| - 1;
      OnLane(log[..n], i) + (if LaneOf(log[n].key) == i then [log[n]] else [])
  }

  ghost function WithKey(log: seq<Job>, key: string): seq<Job> {
    if log == [] then [] else
      var n := |log| - 1;
      WithKey(log[..n], key) + (if log[n].key == key then [log[n]] else [])
  }

  /** The lanes' own histories are the bus history split by partition. */
  ghost predicate Split(b: Bus) {
    forall i :: 0 <= i < |b.lanes| ==> b.lanes[i].accepted == OnLane(b.accepted, i) && b.lanes[i].handed == OnLane(b.handed, i)
  }

  ghost predicate BusOk(b: Bus) {
    && |b.lanes| == PARTITIONS && ProducersOk(b) && Split(b)
    && forall i :: 0 <= i < |b.lanes| ==> LaneOk(b, i)
  }

  lemma NewBusOk()
    ensures BusOk(NEW_BUS)
  {
    assert forall i :: 0 <= i < 4 ==> NEW_BUS.lanes[i] == EMPTY_LANE;
  }

  // ----- a worker action on its own lane

  lemma WorkKeepsOne(l: Lane, w: nat, action: Action)
    requires OneWorker(l) && w < |l.workers| && !l.workers[w].Gone?
    requires action.Timeout? || action.Release? || !WorkOn(l, w, action).workers[w].Gone?
    ensures OneWorker(WorkOn(l, w, action))
  {
    var l' := WorkOn(l, w, action);
    assert forall i :: 0 <= i < |l.workers| && i != w ==> l.workers[i].Gone? && l'.workers[i] == l.workers[i];
    if !l'.workers[w].Gone? {
      assert l'.running;
    }
  }

  lemma WorkKeepsOrder(b: Bus, l: Lane, w: nat, action: Action)
    requires OneWorker(l) && InOrder(l) && w < |l.workers| && WorkEnabled(b, l, l.workers[w], action)
    ensures InOrder(WorkOn(l, w, action))
    ensures WorkOn(l, w, action).accepted == l.accepted
    ensures WorkOn(l, w, action).handed == l.handed + HandedBy(l.workers[w], action)
  {
    var l' := WorkOn(l, w, action);
    assert l.accepted == l.handed + Held(l.workers[w]) + l.queue;
    assert forall i :: 0 <= i < |l.workers| && i != w ==> l.workers[i].Gone? && l'.workers[i] == l.workers[i];
    if action.Receive? {
      assert l.queue == [l.queue[0]] + l'.queue;
    }
    assert l'.accepted == l'.handed + Held(l'.workers[w]) + l'.queue;
  }

  lemma WorkKeepsStops(b: Bus, l: Lane, w: nat, action: Action)
    requires StopStates(b, l) && OneWorker(l) && w < |l.workers| && WorkEnabled(b, l, l.workers[w], action)
    ensures StopStates(b, WorkOn(l, w, action))
  {
  }

  lemma WorkAttends(b: Bus, l: Lane, w: nat, action: Action)
    requires OneWorker(l) && StopStates(b, l) && w < |l.workers| && WorkEnabled(b, l, l.workers[w], action)
    ensures |WorkOn(l, w, action).queue| > 0 ==> WorkOn(l, w, action).running
  {
  }

  // ----- histories

  lemma OnLaneAppend(log: seq<Job>, job: Job, i: nat)
    ensures OnLane(log + [job], i) == OnLane(log, i) + (if LaneOf(job.key) == i then [job] else [])
  {
    assert (log + [job])[..|log|] == log;
  }

  lemma WithKeyAppend(log: seq<Job>, job: Job, key: string)
    ensures WithKey(log + [job], key) == WithKey(log, key) + (if job.key == key then [job] else [])
  {
    assert (log + [job])[..|log|] == log;
  }

  lemma {:induction false} OnLaneKeys(log: seq<Job>, i: nat, job: Job)
    requires job in OnLane(log, i)
    ensures LaneOf(job.key) == i
    decreases |log|
  {
    var n := |log| - 1;
    if job in OnLane(log[..n], i) {
      OnLaneKeys(log[..n], i, job);
    }
  }

  /** A lane sees every job of the keys that map to it. */
  lemma {:induction false} KeyOnLane(log: seq<Job>, key: string)
    ensures WithKey(OnLane(log, LaneOf(key)), key) == WithKey(log, key)
    decreases |log|
  {
    if log != [] {
      var n := |log| - 1;
      KeyOnLane(log[..n], key);
      if LaneOf(log[n].key) == LaneOf(key) {
        WithKeyAppend(OnLane(log[..n], LaneOf(key)), log[n], key);
      } else {
        assert OnLane(log, LaneOf(key)) == OnLane(log[..n], LaneOf(key));
      }
    }
  }

  lemma {:induction false} WithKeyPrefix(a: seq<Job>, b: seq<Job>, key: string)
    ensures WithKey(a, key) <= WithKey(a + b, key)
    decreases |b|
  {
    if b == [] {
      assert a + b == a;
    } else {
      var n := |b| - 1;
      WithKeyPrefix(a, b[..n], key);
      assert a + b == (a + b[..n]) + [b[n]];
      WithKeyAppend(a + b[..n], b[n], key);
    }
  }

  // ----- steps

  lemma HeldIsOurs(b: Bus, i: nat, w: nat)
    requires BusOk(b) && i < |b.lanes| && w < |b.lanes[i].workers|
    requires b.lanes[i].workers[w].Holding? || b.lanes[i].workers[w].DrainHolding?
    ensures LaneOf(b.lanes[i].workers[w].job.key) == i
  {
    hide OnLane, LaneOf;
    var l := b.lanes[i];
    assert LaneOk(b, i);
    var job := l.workers[w].job;
    assert l.accepted == l.handed + [job] + l.queue;
    assert l.accepted[|l.handed|] == job;
    OnLaneKeys(b.accepted, i, job);
  }

  lemma HandedSplit(b: Bus, i: nat, w: nat, action: Action)
    requires BusOk(b) && Enabled(b, Work(i, w, action))
    ensures Split(Apply(b, Work(i, w, action)))
  {
    hide OnLane, LaneOf, OneWorker, StopStates, Attended;
    var me := b.lanes[i].workers[w];
    assert LaneOk(b, i);
    if HandedBy(me, action) != [] {
      HeldIsOurs(b, i, w);
      forall j | 0 <= j < |b.lanes|
        ensures OnLane(b.handed + [me.job], j) == OnLane(b.handed, j) + (if j == i then [me.job] else [])
      {
        OnLaneAppend(b.handed, me.job, j);
      }
    } else {
      assert b.handed + [] == b.handed;
    }
    WorkHanded(b.lanes[i], w, action);
  }

  lemma WorkHanded(l: Lane, w: nat, action: Action)
    requires w < |l.workers|
    ensures WorkOn(l, w, action).accepted == l.accepted
    ensures WorkOn(l, w, action).handed == l.handed + HandedBy(l.workers[w], action)
  {
  }

  lemma WorkStep(b: Bus, i: nat, w: nat, action: Action)
    requires BusOk(b) && Enabled(b, Work(i, w, action))
    ensures BusOk(Apply(b, Work(i, w, action)))
  {
    hide OneWorker, InOrder, WorkOn, Split, StopStates;
    var b' := Apply(b, Work(i, w, action));
    var l := b.lanes[i];
    assert LaneOk(b, i);
    WorkLive(b, l, w, action);
    WorkKeepsOrder(b, l, w, action);
    WorkKeepsStops(b, l, w, action);
    WorkAttends(b, l, w, action);
    SameProducers(b, b');
    forall j | 0 <= j < |b'.lanes|
      ensures LaneOk(b', j)
    {
      assert LaneOk(b, j);
      SameStops(b, b', b'.lanes[j]);
    }
    HandedSplit(b, i, w, action);
  }

  lemma SameProducers(b: Bus, b': Bus)
    requires ProducersOk(b) && b'.producers == b.producers && b'.stopped == b.stopped && b'.closed == b.closed
    ensures ProducersOk(b') && forall p :: PhaseOf(b', p) == PhaseOf(b, p)
  {
    forall p
      ensures PhaseOf(b', p) == PhaseOf(b, p)
    {
    }
  }

  lemma WorkLive(b: Bus, l: Lane, w: nat, action: Action)
    requires OneWorker(l) && w < |l.workers| && WorkEnabled(b, l, l.workers[w], action)
    ensures OneWorker(WorkOn(l, w, action))
  {
    WorkKeepsOne(l, w, action);
  }

  lemma SameStops(b: Bus, b': Bus, l: Lane)
    requires StopStates(b, l) && (b.stopped ==> b'.stopped)
    ensures StopStates(b', l)
  {
  }

  lemma SendStep(b: Bus, p: nat, job: Job)
    requires BusOk(b) && Enabled(b, Send(p, job))
    ensures BusOk(Apply(b, Send(p, job)))
  {
    hide OneWorker, LaneOf;
    var b' := Apply(b, Send(p, job));
    var i := LaneOf(job.key);
    if |b.lanes[i].queue| < LANE_CAPACITY {
      assert !b.closed;
      assert PhaseOf(b', p) == Pending(i);
      forall j | 0 <= j < |b'.lanes|
        ensures LaneOk(b', j)
      {
        assert LaneOk(b, j);
        SendLane(b, b', p, job, j);
      }
      SendSplit(b, p, job);
    }
  }

  lemma SendLane(b: Bus, b': Bus, p: nat, job: Job, j: nat)
    requires j < |b.lanes| == |b'.lanes| && LaneOk(b, j) && PhaseOf(b, p).Inside? && !b.stopped && !b'.stopped
    requires b'.producers == b.producers[p := Pending(LaneOf(job.key))]
    requires var l := b.lanes[j];
             b'.lanes[j] == if j == LaneOf(job.key) then l.(queue := l.queue + [job], accepted := l.accepted + [job]) else l
    ensures LaneOk(b', j)
  {
    hide LaneOf;
    var l, l' := b.lanes[j], b'.lanes[j];
    assert OneWorker(l');
    if j == LaneOf(job.key) {
      assert PhaseOf(b', p) == Pending(j);
      forall i | 0 <= i < |l.workers| && !l.workers[i].Gone?
        ensures l'.accepted == l'.handed + Held(l'.workers[i]) + l'.queue
      {
        assert l.accepted == l.handed + Held(l.workers[i]) + l.queue;
      }
    } else if exists q :: PhaseOf(b, q) == Pending(j) {
      var q :| PhaseOf(b, q) == Pending(j);
      assert PhaseOf(b', q) == Pending(j);
    }
  }

  lemma SendSplit(b: Bus, p: nat, job: Job)
    requires BusOk(b) && Enabled(b, Send(p, job)) && |b.lanes[LaneOf(job.key)].queue| < LANE_CAPACITY
    ensures Split(Apply(b, Send(p, job)))
  {
    hide LaneOk, OnLane;
    var b' := Apply(b, Send(p, job));
    forall j | 0 <= j < |b'.lanes|
      ensures b'.lanes[j].accepted == OnLane(b'.accepted, j) && b'.lanes[j].handed == OnLane(b'.handed, j)
    {
      OnLaneAppend(b.accepted, job, j);
    }
  }

  lemma EnsureStep(b: Bus, p: nat)
    requires BusOk(b) && Enabled(b, Ensure(p))
    ensures BusOk(Apply(b, Ensure(p)))
  {
    hide Split, EnsureWorker;
    var b' := Apply(b, Ensure(p));
    var i := PhaseOf(b, p).lane;
    forall j | 0 <= j < |b'.lanes|
      ensures LaneOk(b', j)
    {
      assert LaneOk(b, j);
      EnsureLane(b, b', p, j);
    }
    EnsureSplit(b, b');
  }

  lemma EnsureSplit(b: Bus, b': Bus)
    requires Split(b) && b'.accepted == b.accepted && b'.handed == b.handed && |b'.lanes| == |b.lanes|
    requires forall j :: 0 <= j < |b.lanes| ==> b'.lanes[j] == b.lanes[j] || b'.lanes[j] == EnsureWorker(b.lanes[j])
    ensures Split(b')
  {
  }

  lemma EnsureLane(b: Bus, b': Bus, p: nat, j: nat)
    requires j < |b.lanes| == |b'.lanes| && LaneOk(b, j) && PhaseOf(b, p).Pending? && b'.stopped == b.stopped
    requires b'.producers == b.producers[p := Inside]
    requires b'.lanes[j] == if j == PhaseOf(b, p).lane then EnsureWorker(b.lanes[j]) else b.lanes[j]
    ensures LaneOk(b', j)
  {
    var l, l' := b.lanes[j], b'.lanes[j];
    if j == PhaseOf(b, p).lane {
      if !l.running {
        assert forall i :: 0 <= i < |l.workers| ==> l.workers[i].Gone?;
        assert !l'.workers[|l.workers|].Gone?;
      }
    } else if exists q :: PhaseOf(b, q) == Pending(j) {
      var q :| PhaseOf(b, q) == Pending(j);
      assert PhaseOf(b', q) == Pending(j);
    }
  }

  /** Entering or leaving the read lock, starting and closing do not touch the lanes. */
  lemma QuietStep(b: Bus, s: Step)
    requires BusOk(b) && Enabled(b, s) && (s.StartBus? || s.Enter? || s.Leave? || s.Close?)
    ensures BusOk(Apply(b, s))
  {
    hide Split, OneWorker, InOrder, StopStates;
    var b' := Apply(b, s);
    if b'.closed {
      forall p
        ensures PhaseOf(b', p).Outside?
      {
        assert PhaseOf(b, p).Outside?;
      }
    }
    forall j | 0 <= j < |b'.lanes|
      ensures LaneOk(b', j)
    {
      assert LaneOk(b, j);
      SameStops(b, b', b.lanes[j]);
      if exists q :: PhaseOf(b, q) == Pending(j) {
        var q :| PhaseOf(b, q) == Pending(j);
        assert PhaseOf(b', q) == Pending(j);
      }
    }
    EnsureSplit(b, b');
  }

  /** Every step keeps the bus consistent. */
  lemma StepOk(b: Bus, s: Step)
    requires BusOk(b) && Enabled(b, s)
    ensures BusOk(Apply(b, s))
  {
    hide BusOk, Enabled, Apply;
    match s
    case Work(i, w, action) => WorkStep(b, i, w, action);
    case Send(p, job) => SendStep(b, p, job);
    case Ensure(p) => EnsureStep(b, p);
    case StartBus => QuietStep(b, s);
    case Enter(p) => QuietStep(b, s);
    case Leave(p) => QuietStep(b, s);
    case Close => QuietStep(b, s);
  }

  // ----- runs

  ghost predicate Run(bs: seq<Bus>, steps: seq<Step>) {
    && |bs| == |steps| + 1 && bs[0] == NEW_BUS
    && forall i :: 0 <= i < |steps| ==>
         |bs[i].lanes| == PARTITIONS && Enabled(bs[i], steps[i]) && bs[i + 1] == Apply(bs[i], steps[i])
  }

  lemma {:induction false} RunOk(bs: seq<Bus>, steps: seq<Step>, n: nat)
    requires Run(bs, steps) && n <= |steps|
    ensures BusOk(bs[n])
  {
    hide BusOk, Enabled, Apply;
    if n == 0 {
      NewBusOk();
    } else {
      RunOk(bs, steps, n - 1);
      StepOk(bs[n - 1], steps[n - 1]);
    }
  }

  /** No two live workers on one lane, ever. */
  lemma SingleConsumer(bs: seq<Bus>, steps: seq<Step>, n: nat, i: nat, v: nat, w: nat)
    requires Run(bs, steps) && n <= |steps| && i < |bs[n].lanes|
    requires v < |bs[n].lanes[i].workers| && w < |bs[n].lanes[i].workers|
    requires !bs[n].lanes[i].workers[v].Gone? && !bs[n].lanes[i].workers[w].Gone?
    ensures v == w
  {
    hide Apply, Enabled;
    RunOk(bs, steps, n);
    assert LaneOk(bs[n], i);
  }

  /** Events with equal keys are handed over in the order they were accepted. */
  lemma KeyOrder(bs: seq<Bus>, steps: seq<Step>, n: nat, key: string)
    requires Run(bs, steps) && n <= |steps|
    ensures WithKey(bs[n].handed, key) <= WithKey(bs[n].accepted, key)
  {
    hide Apply, Enabled, LaneOf, OnLane, WithKey;
    RunOk(bs, steps, n);
    var b, i := bs[n], LaneOf(key);
    var l := b.lanes[i];
    assert LaneOk(b, i);
    var rest := Behind(l);
    WithKeyPrefix(l.handed, rest, key);
    KeyOnLane(b.accepted, key);
    KeyOnLane(b.handed, key);
  }

  /** What a lane accepted beyond what it handed over. */
  lemma Behind(l: Lane) returns (rest: seq<Job>)
    requires OneWorker(l) && InOrder(l)
    ensures l.accepted == l.handed + rest
  {
    if l.running {
      var i :| 0 <= i < |l.workers| && !l.workers[i].Gone?;
      rest := Held(l.workers[i]) + l.queue;
      assert l.handed + Held(l.workers[i]) + l.queue == l.handed + rest;
    } else {
      rest := l.queue;
    }
  }

  /** With no producer between enqueue and ensure, queued work has a worker that will take it. */
  lemma NoStrandedWork(bs: seq<Bus>, steps: seq<Step>, n: nat, i: nat)
    requires Run(bs, steps) && n <= |steps| && i < |bs[n].lanes| && |bs[n].lanes[i].queue| > 0
    requires forall p :: PhaseOf(bs[n], p) != Pending(i)
    ensures exists w :: 0 <= w < |bs[n].lanes[i].workers| && Consuming(bs[n].lanes[i].workers[w])
  {
    hide Apply, Enabled;
    RunOk(bs, steps, n);
    var l := bs[n].lanes[i];
    assert LaneOk(bs[n], i);
    var w :| 0 <= w < |l.workers| && !l.workers[w].Gone?;
    assert Consuming(l.workers[w]);
  }

  /** When every worker has exited after close, every accepted job has been handed over, in lane order. */
  lemma DrainedAfterClose(bs: seq<Bus>, steps: seq<Step>, n: nat, i: nat)
    requires Run(bs, steps) && n <= |steps| && bs[n].closed && i < |bs[n].lanes|
    requires forall w :: 0 <= w < |bs[n].lanes[i].workers| ==> bs[n].lanes[i].workers[w].Gone?
    ensures bs[n].lanes[i].handed == bs[n].lanes[i].accepted
  {
    hide Apply, Enabled;
    RunOk(bs, steps, n);
    assert LaneOk(bs[n], i);
    if |bs[n].lanes[i].queue| > 0 {
      NoStrandedWork(bs, steps, n, i);
    }
  }
}
