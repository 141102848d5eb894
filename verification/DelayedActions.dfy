/**
 The delayed-action scheduler as a transition system, up to shutdown: callers
 reserve, hand a request to the current coordinator generation and leave; the
 coordinator queues requests, fires due ones and retires when idle.  Each step
 is one critical section or one channel operation.
 */
module DelayedActions {
  import opened Prelude

  const OVERHEAD_BYTES := 256
  const REQUEST_CAPACITY := 256

  /** One scheduled action and the bytes reserved for it. */
  datatype Request = Request(id: nat, charge: nat)

  datatype Pc = Evaluating | Selecting | Firing | Freeing(item: Request) | Exited

  /** One coordinator generation with its channels. */
  datatype Coordinator = Coordinator(pc: Pc, heap: seq<Request>, requests: seq<Request>, wake: bool)

  /** Where a Schedule call is; `owned` once its request is in a channel. */
  datatype Caller =
    | Reserved(gen: nat, request: Request)
    | Sent(gen: nat)
    | Finishing(gen: nat, request: Request, owned: bool)
    | Waking(gen: nat, request: Request, owned: bool, shouldWake: bool)
    | Releasing(request: Request)
    | Returned

  datatype State = State(
    maxPending: nat,
    maxBytes: nat,
    current: Option<nat>,
    gens: seq<Coordinator>,
    admissions: nat,
    pending: int,
    pendingBytes: int,
    callers: map<nat, Caller>,
    sent: multiset<Request>,
    submitted: multiset<Request>)

  datatype Step =
    | Schedule(c: nat, id: nat, retained: nat)
    | Send(c: nat)
    | Abort(c: nat)
    | Acknowledged(c: nat)
    | Finish(c: nat)
    | Wake(c: nat)
    | Release(c: nat)
    | Coordinate(g: nat, action: Action)

  datatype Action = Evaluate | TakeWake | TakeRequest | Fire | Pop(i: nat) | Free | FireDone

  function Start(maxPending: nat, maxBytes: nat): State {
    State(maxPending, maxBytes, None, [], 0, 0, 0, map[], multiset{}, multiset{})
  }

  const NEW_COORDINATOR := Coordinator(Evaluating, [], [], false)

  // ----- callers

  predicate CanReserve(s: State, retained: nat) {
    && s.pending < s.maxPending
    && (s.maxBytes > 0 ==>
          s.maxBytes - s.pendingBytes >= OVERHEAD_BYTES && retained <= s.maxBytes - s.pendingBytes - OVERHEAD_BYTES)
  }

  predicate CallerEnabled(s: State, step: Step) {
    match step
    case Schedule(c, id, retained) => c !in s.callers && CanReserve(s, retained)
    case Send(c) =>
      c in s.callers && s.callers[c].Reserved? && s.callers[c].gen < |s.gens| &&
      |s.gens[s.callers[c].gen].requests| < REQUEST_CAPACITY
    case Abort(c) => c in s.callers && s.callers[c].Reserved?
    case Acknowledged(c) => c in s.callers && s.callers[c].Sent?
    case Finish(c) => c in s.callers && s.callers[c].Finishing?
    case Wake(c) => c in s.callers && s.callers[c].Waking?
    case Release(c) => c in s.callers && s.callers[c].Releasing?
    case Coordinate(_, _) => false
  }

  /** Reuse the current generation, or start the next one. */
  function EnsureCoordinator(s: State): State {
    if s.current.Some? then s
    else s.(current := Some(|s.gens|), gens := s.gens + [NEW_COORDINATOR])
  }

  function Free1(s: State, charge: nat): State {
    var left := s.pendingBytes - charge;
    s.(pending := if s.pending > 0 then s.pending - 1 else s.pending,
       pendingBytes := if left < 0 then 0 else left)
  }

  ghost function CallerStep(s: State, step: Step): State
    requires CallerEnabled(s, step)
  {
    match step
    case Schedule(c, id, retained) =>
      var e := EnsureCoordinator(s);
      var request := Request(id, retained + OVERHEAD_BYTES);
      e.(pending := s.pending + 1, pendingBytes := s.pendingBytes + request.charge, admissions := s.admissions + 1,
         callers := s.callers[c := Reserved(e.current.value, request)])
    case Send(c) =>
      var Reserved(g, request) := s.callers[c];
      s.(gens := s.gens[g := s.gens[g].(requests := s.gens[g].requests + [request])],
         callers := s.callers[c := Sent(g)], sent := s.sent + multiset{request})
    case Abort(c) => s.(callers := s.callers[c := Finishing(s.callers[c].gen, s.callers[c].request, false)])
    case Acknowledged(c) => s.(callers := s.callers[c := Finishing(s.callers[c].gen, Request(0, 0), true)])
    case Finish(c) =>
      var Finishing(g, request, owned) := s.callers[c];
      var left := if s.admissions > 0 then s.admissions - 1 else 0;
      s.(admissions := left, callers := s.callers[c := Waking(g, request, owned, left == 0 && s.current == Some(g))])
    case Wake(c) =>
      var Waking(g, request, owned, shouldWake) := s.callers[c];
      s.(gens := if shouldWake && g < |s.gens| then s.gens[g := s.gens[g].(wake := true)] else s.gens,
         callers := s.callers[c := if owned then Returned else Releasing(request)])
    case Release(c) => Free1(s, s.callers[c].request.charge).(callers := s.callers[c := Returned])
  }

  // ----- coordinators

  predicate ActionEnabled(k: Coordinator, action: Action) {
    match action
    case Evaluate => k.pc.Evaluating?
    case TakeWake => k.pc.Selecting? && k.wake
    case TakeRequest => k.pc.Selecting? && |k.requests| > 0
    case Fire => k.pc.Selecting? && |k.heap| > 0
    case Pop(i) => k.pc.Firing? && i < |k.heap|
    case Free => k.pc.Freeing?
    case FireDone => k.pc.Firing?
  }

  predicate MayRetire(s: State, g: nat)
    requires g < |s.gens|
  {
    |s.gens[g].heap| == 0 && s.current == Some(g) && s.admissions == 0 && |s.gens[g].requests| == 0
  }

  function CoordinatorStep(s: State, g: nat, action: Action): State
    requires g < |s.gens| && ActionEnabled(s.gens[g], action)
  {
    var k := s.gens[g];
    match action
    case Evaluate =>
      if MayRetire(s, g) then s.(current := None, gens := s.gens[g := k.(pc := Exited)])
      else s.(gens := s.gens[g := k.(pc := Selecting)])
    case TakeWake => s.(gens := s.gens[g := k.(pc := Evaluating, wake := false)])
    case TakeRequest =>
      s.(gens := s.gens[g := k.(pc := Evaluating, heap := k.heap + [k.requests[0]], requests := k.requests[1..])])
    case Fire => s.(gens := s.gens[g := k.(pc := Firing)])
    case Pop(i) => s.(gens := s.gens[g := k.(pc := Freeing(k.heap[i]), heap := Without(k.heap, i))])
    case Free =>
      Free1(s, k.pc.item.charge).(gens := s.gens[g := k.(pc := Firing)], submitted := s.submitted + multiset{k.pc.item})
    case FireDone => s.(gens := s.gens[g := k.(pc := Evaluating)])
  }

  ghost predicate Enabled(s: State, step: Step) {
    if step.Coordinate? then step.g < |s.gens| && ActionEnabled(s.gens[step.g], step.action) else CallerEnabled(s, step)
  }

  ghost function Apply(s: State, step: Step): State
    requires Enabled(s, step)
  {
    if step.Coordinate? then CoordinatorStep(s, step.g, step.action) else CallerStep(s, step)
  }

  // ----- who owns which reservation

  /** The request a caller still has to release itself. */
  function CallerOwns(c: Caller): seq<Request> {
    match c
    case Reserved(_, r) => [r]
    case Finishing(_, r, owned) => if owned then [] else [r]
    case Waking(_, r, owned, _) => if owned then [] else [r]
    case Releasing(r) => [r]
    case _ => []
  }

  predicate Admitted(c: Caller) {
    c.Reserved? || c.Sent? || c.Finishing?
  }

  ghost function Owned(callers: map<nat, Caller>): multiset<Request> {
    if callers.Keys == {} then multiset{}
    else
      var c :| c in callers;
      multiset(CallerOwns(callers[c])) + Owned(callers - {c})
  }

  ghost function AdmittedCallers(callers: map<nat, Caller>): set<nat> {
    set c | c in callers && Admitted(callers[c])
  }

  function PcHolds(pc: Pc): seq<Request> {
    if pc.Freeing? then [pc.item] else []
  }

  /** What a coordinator is responsible for: queued, heaped, or just popped. */
  ghost function CoordinatorOwns(k: Coordinator): multiset<Request> {
    multiset(k.requests) + multiset(k.heap) + multiset(PcHolds(k.pc))
  }

  ghost function CurrentOwns(s: State): multiset<Request> {
    if s.current.Some? && s.current.value < |s.gens| then CoordinatorOwns(s.gens[s.current.value]) else multiset{}
  }

  ghost function Bytes(m: multiset<Request>): nat
    decreases |m|
  {
    if m == multiset{} then 0
    else
      var r :| r in m;
      r.charge + Bytes(m - multiset{r})
  }

  // ----- invariants

  /** Retired generations have exited and left nothing in their channel or heap. */
  ghost predicate GenerationsOk(s: State) {
    && (s.current.Some? ==> s.current.value < |s.gens| && !s.gens[s.current.value].pc.Exited?)
    && (forall g :: 0 <= g < |s.gens| && s.current != Some(g) ==>
          s.gens[g].pc.Exited? && s.gens[g].requests == [] && s.gens[g].heap == [])
  }

  /** Every counted admission belongs to the current generation. */
  ghost predicate AdmissionsOk(s: State) {
    && s.admissions == |AdmittedCallers(s.callers)|
    && (forall c :: c in s.callers && Admitted(s.callers[c]) ==> s.current == Some(s.callers[c].gen))
  }

  ghost predicate WakeInFlight(s: State, g: nat) {
    exists c :: c in s.callers && s.callers[c].Waking? && s.callers[c].gen == g && s.callers[c].shouldWake
  }

  /** A coordinator that could retire but is blocked has a wake pending or on its way. */
  ghost predicate WakeOk(s: State) {
    s.current.Some? && s.current.value < |s.gens| ==>
      var k := s.gens[s.current.value];
      k.pc.Selecting? && k.heap == [] && k.requests == [] && s.admissions == 0 ==>
        k.wake || WakeInFlight(s, s.current.value)
  }

  /** The counters are the reservations of callers plus those of the current coordinator, within both budgets. */
  ghost predicate BudgetOk(s: State) {
    var all := Owned(s.callers) + CurrentOwns(s);
    && s.pending == |all| && s.pendingBytes == Bytes(all)
    && s.pending <= s.maxPending && (s.maxBytes > 0 ==> s.pendingBytes <= s.maxBytes)
  }

  /** Each request sent is with the coordinator or was submitted, exactly once. */
  ghost predicate Delivered(s: State) {
    s.sent == CurrentOwns(s) + s.submitted
  }

  ghost predicate Ok(s: State) {
    GenerationsOk(s) && AdmissionsOk(s) && WakeOk(s) && BudgetOk(s) && Delivered(s)
  }

  lemma StartOk(maxPending: nat, maxBytes: nat)
    ensures Ok(Start(maxPending, maxBytes))
  {
  }

  // ----- sums

  lemma {:induction false} BytesRemove(m: multiset<Request>, r: Request)
    requires r in m
    ensures Bytes(m) == r.charge + Bytes(m - multiset{r})
    decreases |m|
  {
    var x :| x in m && Bytes(m) == x.charge + Bytes(m - multiset{x});
    if x != r {
      BytesRemove(m - multiset{x}, r);
      BytesRemove(m - multiset{r}, x);
      assert m - multiset{x} - multiset{r} == m - multiset{r} - multiset{x};
    }
  }

  lemma BytesAdd(m: multiset<Request>, r: Request)
    ensures Bytes(m + multiset{r}) == Bytes(m) + r.charge
  {
    BytesRemove(m + multiset{r}, r);
    assert m + multiset{r} - multiset{r} == m;
  }

  lemma OwnedUnfold(callers: map<nat, Caller>) returns (c: nat)
    requires callers.Keys != {}
    ensures c in callers && Owned(callers) == multiset(CallerOwns(callers[c])) + Owned(callers - {c})
  {
    hide CallerOwns;
    c :| c in callers && Owned(callers) == multiset(CallerOwns(callers[c])) + Owned(callers - {c});
  }

  lemma {:induction false} OwnedRemove(callers: map<nat, Caller>, c: nat)
    requires c in callers
    ensures Owned(callers) == multiset(CallerOwns(callers[c])) + Owned(callers - {c})
    decreases |callers|
  {
    hide CallerOwns, Owned;
    var x := OwnedUnfold(callers);
    if x != c {
      OwnedRemove(callers - {x}, c);
      OwnedRemove(callers - {c}, x);
      assert callers - {x} - {c} == callers - {c} - {x};
    }
  }

  lemma OwnedUpdate(callers: map<nat, Caller>, c: nat, to: Caller)
    ensures c in callers && CallerOwns(to) == CallerOwns(callers[c]) ==> Owned(callers[c := to]) == Owned(callers)
    ensures c in callers && CallerOwns(to) == [] ==>
              Owned(callers) == Owned(callers[c := to]) + multiset(CallerOwns(callers[c]))
    ensures c !in callers ==> Owned(callers[c := to]) == Owned(callers) + multiset(CallerOwns(to))
  {
    hide CallerOwns;
    OwnedRemove(callers[c := to], c);
    assert callers[c := to] - {c} == callers - {c};
    if c in callers {
      OwnedRemove(callers, c);
    } else {
      assert callers - {c} == callers;
    }
  }

  lemma AdmittedUpdate(callers: map<nat, Caller>, c: nat, to: Caller)
    ensures |AdmittedCallers(callers[c := to])| ==
            |AdmittedCallers(callers)| - (if c in callers && Admitted(callers[c]) then 1 else 0) + (if Admitted(to) then 1 else 0)
  {
    var a, b := AdmittedCallers(callers), AdmittedCallers(callers[c := to]);
    assert a - {c} == b - {c};
    assert |a - {c}| == |a| - (if c in a then 1 else 0);
    assert |b - {c}| == |b| - (if c in b then 1 else 0);
  }

  lemma SplitFirst(q: seq<Request>)
    requires |q| > 0
    ensures multiset(q) == multiset{q[0]} + multiset(q[1..])
  {
    assert q == [q[0]] + q[1..];
  }

  lemma WithoutMultiset(q: seq<Request>, i: nat)
    requires i < |q|
    ensures multiset(q) == multiset{q[i]} + multiset(Without(q, i))
  {
    assert q == q[..i] + [q[i]] + q[i + 1..];
    assert Without(q, i) == q[..i] + q[i + 1..];
  }

  // ----- caller steps

  lemma ScheduleOk(s: State, c: nat, id: nat, retained: nat)
    requires Ok(s) && CallerEnabled(s, Schedule(c, id, retained))
    ensures Ok(CallerStep(s, Schedule(c, id, retained)))
  {
    hide BudgetOk, Delivered, AdmittedCallers, WakeOk;
    var s' := CallerStep(s, Schedule(c, id, retained));
    AdmittedUpdate(s.callers, c, s'.callers[c]);
    AdmittedBlocksRetirement(s');
    ScheduleBudget(s, c, id, retained);
  }

  lemma AdmittedBlocksRetirement(s: State)
    requires s.admissions > 0
    ensures WakeOk(s)
  {
  }

  lemma EnsureOwnsSame(s: State, s': State)
    requires GenerationsOk(s) && s'.current == EnsureCoordinator(s).current && s'.gens == EnsureCoordinator(s).gens
    ensures CurrentOwns(s') == CurrentOwns(s)
  {
    assert CoordinatorOwns(NEW_COORDINATOR) == multiset{};
  }

  lemma ScheduleBudget(s: State, c: nat, id: nat, retained: nat)
    requires Ok(s) && CallerEnabled(s, Schedule(c, id, retained))
    ensures var s' := CallerStep(s, Schedule(c, id, retained)); BudgetOk(s') && Delivered(s')
  {
    hide Bytes, Owned, CurrentOwns, AdmissionsOk, WakeOk, GenerationsOk;
    var s' := CallerStep(s, Schedule(c, id, retained));
    var request := Request(id, retained + OVERHEAD_BYTES);
    OwnedUpdate(s.callers, c, s'.callers[c]);
    EnsureOwnsSame(s, s');
    var before := Owned(s.callers) + CurrentOwns(s);
    BytesAdd(before, request);
    assert Owned(s'.callers) + CurrentOwns(s') == before + multiset{request};
  }

  lemma SendOk(s: State, c: nat)
    requires Ok(s) && CallerEnabled(s, Send(c))
    ensures Ok(CallerStep(s, Send(c)))
  {
    hide BudgetOk, Delivered, AdmittedCallers, WakeOk;
    var s' := CallerStep(s, Send(c));
    AdmittedUpdate(s.callers, c, s'.callers[c]);
    HasAdmitted(s', c);
    AdmittedBlocksRetirement(s');
    SendBudget(s, c);
  }

  lemma HasAdmitted(s: State, c: nat)
    requires c in s.callers && Admitted(s.callers[c])
    ensures |AdmittedCallers(s.callers)| > 0
  {
    assert c in AdmittedCallers(s.callers);
  }

  lemma SendBudget(s: State, c: nat)
    requires Ok(s) && CallerEnabled(s, Send(c))
    ensures BudgetOk(CallerStep(s, Send(c))) && Delivered(CallerStep(s, Send(c)))
  {
    hide Bytes, Owned, WakeOk, GenerationsOk, AdmittedCallers;
    var s' := CallerStep(s, Send(c));
    var r := s.callers[c].request;
    OwnedUpdate(s.callers, c, s'.callers[c]);
    assert CurrentOwns(s') == CurrentOwns(s) + multiset{r};
    assert Owned(s.callers) == Owned(s'.callers) + multiset{r};
    assert Owned(s'.callers) + CurrentOwns(s') == Owned(s.callers) + CurrentOwns(s);
  }

  lemma SameCurrent(s: State, s': State)
    requires s'.gens == s.gens && s'.current == s.current
    ensures CurrentOwns(s') == CurrentOwns(s)
  {
  }

  /** A caller moving on takes no wake away that the coordinator still needs. */
  lemma WakeKept(s: State, c: nat, to: Caller)
    requires WakeOk(s) && c in s.callers
    requires s.callers[c].Waking? && s.callers[c].shouldWake && s.current == Some(s.callers[c].gen) && s.callers[c].gen < |s.gens| ==>
               s.gens[s.callers[c].gen].wake
    ensures WakeOk(s.(callers := s.callers[c := to]))
  {
    var s' := s.(callers := s.callers[c := to]);
    if s.current.Some? && WakeInFlight(s, s.current.value) {
      var w :| w in s.callers && s.callers[w].Waking? && s.callers[w].gen == s.current.value && s.callers[w].shouldWake;
      if w != c {
        assert s'.callers[w] == s.callers[w];
      }
    }
  }

  /** Steps that only move a caller along: nothing changes hands. */
  lemma PassOk(s: State, c: nat, to: Caller)
    requires Ok(s) && c in s.callers && CallerOwns(to) == CallerOwns(s.callers[c])
    requires Admitted(to) == Admitted(s.callers[c]) && (Admitted(to) ==> to.gen == s.callers[c].gen)
    requires s.callers[c].Waking? && s.callers[c].shouldWake && s.current == Some(s.callers[c].gen) && s.callers[c].gen < |s.gens| ==>
               s.gens[s.callers[c].gen].wake
    ensures Ok(s.(callers := s.callers[c := to]))
  {
    hide Bytes, Owned, AdmittedCallers, CallerOwns, WakeOk, CurrentOwns;
    var s' := s.(callers := s.callers[c := to]);
    OwnedUpdate(s.callers, c, to);
    AdmittedUpdate(s.callers, c, to);
    SameCurrent(s, s');
    WakeKept(s, c, to);
  }

  lemma FinishOk(s: State, c: nat)
    requires Ok(s) && CallerEnabled(s, Finish(c))
    ensures Ok(CallerStep(s, Finish(c)))
  {
    hide Bytes, Owned, AdmittedCallers, CurrentOwns;
    var s' := CallerStep(s, Finish(c));
    OwnedUpdate(s.callers, c, s'.callers[c]);
    AdmittedUpdate(s.callers, c, s'.callers[c]);
    SameCurrent(s, s');
    assert Owned(s'.callers) == Owned(s.callers);
    assert s.current == Some(s.callers[c].gen);
    if s'.admissions == 0 {
      assert s'.callers[c].shouldWake;
      assert WakeInFlight(s', s'.current.value);
    }
  }

  lemma SetWakeOk(s: State, g: nat)
    requires Ok(s) && g < |s.gens|
    ensures Ok(s.(gens := s.gens[g := s.gens[g].(wake := true)]))
  {
    hide Bytes, Owned, AdmittedCallers, CoordinatorOwns;
    var s' := s.(gens := s.gens[g := s.gens[g].(wake := true)]);
    WakeOwnsNothing(s.gens[g]);
    if s.current.Some? && WakeInFlight(s, s.current.value) {
      assert WakeInFlight(s', s.current.value);
    }
  }

  lemma WakeOwnsNothing(k: Coordinator)
    ensures CoordinatorOwns(k.(wake := true)) == CoordinatorOwns(k)
  {
  }

  lemma WakeStepOk(s: State, c: nat)
    requires Ok(s) && CallerEnabled(s, Wake(c))
    ensures Ok(CallerStep(s, Wake(c)))
  {
    hide Ok;
    var Waking(g, request, owned, shouldWake) := s.callers[c];
    var to := if owned then Returned else Releasing(request);
    if shouldWake && g < |s.gens| {
      SetWakeOk(s, g);
      PassOk(s.(gens := s.gens[g := s.gens[g].(wake := true)]), c, to);
    } else {
      PassOk(s, c, to);
    }
  }

  /** Freeing one held reservation keeps the counters exact. */
  lemma FreeExact(s: State, all: multiset<Request>, r: Request)
    requires r in all && s.pending == |all| && s.pendingBytes == Bytes(all)
    ensures Free1(s, r.charge).pending == |all - multiset{r}| && Free1(s, r.charge).pendingBytes == Bytes(all - multiset{r})
  {
    BytesRemove(all, r);
  }

  lemma ReleaseBudget(s: State, c: nat)
    requires BudgetOk(s) && Delivered(s) && CallerEnabled(s, Release(c))
    ensures BudgetOk(CallerStep(s, Release(c))) && Delivered(CallerStep(s, Release(c)))
  {
    hide Bytes, Owned, CurrentOwns;
    var s' := CallerStep(s, Release(c));
    var r := s.callers[c].request;
    OwnedUpdate(s.callers, c, Returned);
    SameCurrent(s, s');
    var all := Owned(s.callers) + CurrentOwns(s);
    FreeExact(s, all, r);
    assert Owned(s'.callers) + CurrentOwns(s') == all - multiset{r};
  }

  lemma ReleaseOk(s: State, c: nat)
    requires Ok(s) && CallerEnabled(s, Release(c))
    ensures Ok(CallerStep(s, Release(c)))
  {
    hide AdmittedCallers, WakeOk, BudgetOk, Delivered;
    var s' := CallerStep(s, Release(c));
    AdmittedUpdate(s.callers, c, Returned);
    WakeKept(s, c, Returned);
    SameWake(s.(callers := s'.callers), s');
    ReleaseBudget(s, c);
  }

  lemma SameWake(s: State, s': State)
    requires WakeOk(s) && s'.gens == s.gens && s'.current == s.current && s'.callers == s.callers && s'.admissions == s.admissions
    ensures WakeOk(s')
  {
    if s.current.Some? && WakeInFlight(s, s.current.value) {
      assert WakeInFlight(s', s.current.value);
    }
  }

  // ----- coordinator steps

  /** Only the current generation can act. */
  lemma ActorIsCurrent(s: State, g: nat, action: Action)
    requires GenerationsOk(s) && g < |s.gens| && ActionEnabled(s.gens[g], action)
    ensures s.current == Some(g)
  {
  }

  lemma ActionOwns(s: State, g: nat, action: Action)
    requires g < |s.gens| && ActionEnabled(s.gens[g], action) && s.current == Some(g)
    ensures CurrentOwns(s) == CurrentOwns(CoordinatorStep(s, g, action)) +
                              (if action.Free? then multiset{s.gens[g].pc.item} else multiset{})
  {
    hide CoordinatorOwns;
    var k := s.gens[g];
    match action
    case Evaluate =>
      SameOwns(k, k.(pc := Selecting));
      if MayRetire(s, g) {
        IdleOwnsNothing(k);
      }
    case TakeWake => SameOwns(k, k.(pc := Evaluating, wake := false));
    case TakeRequest => TakeOwns(k);
    case Fire => SameOwns(k, k.(pc := Firing));
    case Pop(i) => PopOwns(k, i);
    case Free => FreeOwns(k);
    case FireDone => SameOwns(k, k.(pc := Evaluating));
  }

  lemma SameOwns(k: Coordinator, k': Coordinator)
    requires k'.requests == k.requests && k'.heap == k.heap && !k.pc.Freeing? && !k'.pc.Freeing?
    ensures CoordinatorOwns(k') == CoordinatorOwns(k)
  {
  }

  lemma IdleOwnsNothing(k: Coordinator)
    requires |k.requests| == 0 && |k.heap| == 0 && !k.pc.Freeing?
    ensures CoordinatorOwns(k) == multiset{}
  {
  }

  lemma TakeOwns(k: Coordinator)
    requires |k.requests| > 0 && k.pc.Selecting?
    ensures CoordinatorOwns(k.(pc := Evaluating, heap := k.heap + [k.requests[0]], requests := k.requests[1..]))
         == CoordinatorOwns(k)
  {
    SplitFirst(k.requests);
  }

  lemma PopOwns(k: Coordinator, i: nat)
    requires i < |k.heap| && k.pc.Firing?
    ensures CoordinatorOwns(k.(pc := Freeing(k.heap[i]), heap := Without(k.heap, i))) == CoordinatorOwns(k)
  {
    WithoutMultiset(k.heap, i);
  }

  lemma FreeOwns(k: Coordinator)
    requires k.pc.Freeing?
    ensures CoordinatorOwns(k) == CoordinatorOwns(k.(pc := Firing)) + multiset{k.pc.item}
  {
  }

  lemma FreeActionOk(s: State, g: nat)
    requires Ok(s) && g < |s.gens| && ActionEnabled(s.gens[g], Free)
    ensures Ok(CoordinatorStep(s, g, Free))
  {
    hide Bytes, Owned, AdmittedCallers, CoordinatorOwns;
    ActorIsCurrent(s, g, Free);
    ActionOwns(s, g, Free);
    var s', r := CoordinatorStep(s, g, Free), s.gens[g].pc.item;
    var all := Owned(s.callers) + CurrentOwns(s);
    FreeExact(s, all, r);
    assert Owned(s'.callers) + CurrentOwns(s') == all - multiset{r};
    assert GenerationsOk(s') && AdmissionsOk(s') && WakeOk(s');
  }

  lemma OtherActionOk(s: State, g: nat, action: Action)
    requires Ok(s) && g < |s.gens| && ActionEnabled(s.gens[g], action) && !action.Free?
    ensures Ok(CoordinatorStep(s, g, action))
  {
    hide Bytes, Owned, AdmittedCallers, CurrentOwns;
    ActorIsCurrent(s, g, action);
    ActionOwns(s, g, action);
    var s' := CoordinatorStep(s, g, action);
    assert CurrentOwns(s) == CurrentOwns(s');
    if action.Evaluate? && MayRetire(s, g) {
      NobodyAdmitted(s);
    }
  }

  lemma NobodyAdmitted(s: State)
    requires AdmissionsOk(s) && s.admissions == 0
    ensures forall c :: c in s.callers ==> !Admitted(s.callers[c])
  {
    forall c | c in s.callers
      ensures !Admitted(s.callers[c])
    {
      assert AdmittedCallers(s.callers) == {};
      assert c !in AdmittedCallers(s.callers);
    }
  }

  /** Every step, of any caller or coordinator, keeps the scheduler consistent. */
  lemma StepOk(s: State, step: Step)
    requires Ok(s) && Enabled(s, step)
    ensures Ok(Apply(s, step))
  {
    hide Ok, CanReserve;
    match step
    case Schedule(c, id, retained) => ScheduleOk(s, c, id, retained);
    case Send(c) => SendOk(s, c);
    case Abort(c) => PassOk(s, c, Finishing(s.callers[c].gen, s.callers[c].request, false));
    case Acknowledged(c) => PassOk(s, c, Finishing(s.callers[c].gen, Request(0, 0), true));
    case Finish(c) => FinishOk(s, c);
    case Wake(c) => WakeStepOk(s, c);
    case Release(c) => ReleaseOk(s, c);
    case Coordinate(g, action) =>
      if action.Free? {
        FreeActionOk(s, g);
      } else {
        OtherActionOk(s, g, action);
      }
  }

  // ----- runs

  ghost predicate Run(ss: seq<State>, steps: seq<Step>, maxPending: nat, maxBytes: nat) {
    && |ss| == |steps| + 1 && ss[0] == Start(maxPending, maxBytes)
    && forall i :: 0 <= i < |steps| ==> Enabled(ss[i], steps[i]) && ss[i + 1] == Apply(ss[i], steps[i])
  }

  lemma {:induction false} RunOk(ss: seq<State>, steps: seq<Step>, maxPending: nat, maxBytes: nat, n: nat)
    requires Run(ss, steps, maxPending, maxBytes) && n <= |steps|
    ensures Ok(ss[n])
  {
    hide Ok, Enabled, Apply;
    if n == 0 {
      StartOk(maxPending, maxBytes);
    } else {
      RunOk(ss, steps, maxPending, maxBytes, n - 1);
      StepOk(ss[n - 1], steps[n - 1]);
    }
  }

  /** A retired generation holds no request, and nobody is left who could still send it one. */
  lemma NothingStranded(ss: seq<State>, steps: seq<Step>, maxPending: nat, maxBytes: nat, n: nat, g: nat)
    requires Run(ss, steps, maxPending, maxBytes) && n <= |steps| && g < |ss[n].gens| && ss[n].current != Some(g)
    ensures ss[n].gens[g].requests == [] && ss[n].gens[g].heap == [] && ss[n].gens[g].pc.Exited?
    ensures forall c :: c in ss[n].callers && ss[n].callers[c].Reserved? ==> ss[n].callers[c].gen != g
  {
    hide Enabled, Apply, BudgetOk, Delivered, WakeOk;
    RunOk(ss, steps, maxPending, maxBytes, n);
  }

  /** An idle, blocked coordinator always has a wake pending or in flight, so it will retire. */
  lemma IdleIsWoken(ss: seq<State>, steps: seq<Step>, maxPending: nat, maxBytes: nat, n: nat, g: nat)
    requires Run(ss, steps, maxPending, maxBytes) && n <= |steps| && ss[n].current == Some(g) && g < |ss[n].gens|
    requires ss[n].gens[g].pc.Selecting? && ss[n].gens[g].heap == [] && ss[n].gens[g].requests == []
    requires forall c :: c in ss[n].callers ==> !Admitted(ss[n].callers[c])
    ensures ss[n].gens[g].wake || WakeInFlight(ss[n], g)
  {
    hide Enabled, Apply, BudgetOk, Delivered;
    RunOk(ss, steps, maxPending, maxBytes, n);
    assert AdmittedCallers(ss[n].callers) == {};
  }

  /** The pending counters are exactly the outstanding reservations and never exceed either budget. */
  lemma BudgetsHold(ss: seq<State>, steps: seq<Step>, maxPending: nat, maxBytes: nat, n: nat)
    requires Run(ss, steps, maxPending, maxBytes) && n <= |steps|
    ensures ss[n].pending == |Owned(ss[n].callers) + CurrentOwns(ss[n])|
    ensures ss[n].pendingBytes == Bytes(Owned(ss[n].callers) + CurrentOwns(ss[n]))
    ensures ss[n].pending <= maxPending && (maxBytes > 0 ==> ss[n].pendingBytes <= maxBytes)
    ensures ss[n].sent == CurrentOwns(ss[n]) + ss[n].submitted
  {
    hide Ok, Enabled, Apply;
    RunOk(ss, steps, maxPending, maxBytes, n);
    LimitsFixed(ss, steps, maxPending, maxBytes, n);
    OkBudget(ss[n]);
  }

  /**
   A call is admitted exactly when the outstanding reservations together with its own, 256 bytes of overhead included,
   keep both budgets, and its reservation is then of that size.
   */
  lemma ReservesExactly(ss: seq<State>, steps: seq<Step>, maxPending: nat, maxBytes: nat, n: nat, c: nat, id: nat, retained: nat)
    requires Run(ss, steps, maxPending, maxBytes) && n <= |steps| && c !in ss[n].callers
    ensures var (s, all) := (ss[n], Owned(ss[n].callers) + CurrentOwns(ss[n]));
            && (Enabled(s, Schedule(c, id, retained)) <==>
                  |all| + 1 <= maxPending && (maxBytes > 0 ==> Bytes(all) + retained + 256 <= maxBytes))
            && (Enabled(s, Schedule(c, id, retained)) ==>
                  var s' := Apply(s, Schedule(c, id, retained));
                  s'.pending == |all| + 1 && s'.pendingBytes == Bytes(all) + retained + 256)
  {
    hide Owned, CurrentOwns, Bytes, Run;
    BudgetsHold(ss, steps, maxPending, maxBytes, n);
    LimitsFixed(ss, steps, maxPending, maxBytes, n);
  }

  lemma OkBudget(s: State)
    requires Ok(s)
    ensures BudgetOk(s) && Delivered(s)
  {
  }

  lemma {:induction false} LimitsFixed(ss: seq<State>, steps: seq<Step>, maxPending: nat, maxBytes: nat, n: nat)
    requires Run(ss, steps, maxPending, maxBytes) && n <= |steps|
    ensures ss[n].maxPending == maxPending && ss[n].maxBytes == maxBytes
  {
    if n > 0 {
      LimitsFixed(ss, steps, maxPending, maxBytes, n - 1);
      LimitsKept(ss[n - 1], steps[n - 1]);
      hide Enabled, Apply;
    }
  }

  lemma LimitsKept(s: State, step: Step)
    requires Enabled(s, step)
    ensures Apply(s, step).maxPending == s.maxPending && Apply(s, step).maxBytes == s.maxBytes
  {
  }
}
