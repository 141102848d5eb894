/**
 Turns: what quanta and weights buy.  A class that starts a turn and stays ready
 is chosen at every selection of its pool until it has been chosen its quantum
 of times, and then gives way; an owner likewise inside its class, up to its
 weight or until its queue runs empty.  Where all four classes are ready, any
 15 selections in a row go to them 8, 4, 2 and 1 times.
 */
module AdmissionTurns {
  import opened Prelude
  import opened Wheels
  import opened AdmissionTypes
  import opened AdmissionModel
  import opened AdmissionSchedule
  import opened AdmissionStore
  import opened AdmissionRuns
  import opened AdmissionTheorems
  import opened AdmissionFairness

  // ----- one selection, class level

  lemma VisitClassTurn(p: Pool, g: Gate)
    requires PoolOk(p) && |p.wheel.items| > 0 && VisitClass(p, g).1.Hit?
    ensures var c := Current(Wrap(p.wheel));
            && InTurn(VisitClass(p, g).0.wheel, c, Avail(p.wheel, c, ClassQuantum(c)) - 1)
            && VisitClass(p, g).0.wheel.items == p.wheel.items
            && VisitClass(p, g).0.wheel.cursor == Wrap(p.wheel).cursor + (if Avail(p.wheel, c, ClassQuantum(c)) > 1 then 0 else 1)
  {
    hide VisitClass, ScanOwners, RingOk, RingHomed;
    VisitClassForm(p, g);
    ChargedClassCredit(p);
    ServeTurn(ChargedClass(p), false);
  }

  lemma VisitClassAvail(p: Pool, g: Gate, c: PriorityClass)
    requires PoolOk(p) && |p.wheel.items| > 0 && ClassReady(p, g, c) && !VisitClass(p, g).1.Hit?
    ensures Get(VisitClass(p, g).0.wheel.credit, c) == Get(p.wheel.credit, c)
  {
    hide VisitClass, ScanOwners, RingOk, RingHomed, ClassReady, PoolOk;
    VisitClassMiss(p, g);
    VisitClassForm(p, g);
  }

  /** A ready class that is chosen enters its turn, or goes on with it. */
  lemma {:induction false} PickTurn(p: Pool, g: Gate, tries: nat, c: PriorityClass)
    requires PoolOk(p) && ClassReady(p, g, c) && Pick(p, g, tries).1.Some? && ClassOf(Pick(p, g, tries).1.value.spec) == c
    ensures InTurn(Pick(p, g, tries).0.wheel, c, Avail(p.wheel, c, ClassQuantum(c)) - 1)
    decreases tries
  {
    hide VisitClass, RingOk, RingHomed, ClassReady, InTurn;
    VisitClassKeeps(p, g);
    var (v, visit) := VisitClass(p, g);
    if visit.Hit? {
      VisitClassHit(p, g);
      VisitClassTurn(p, g);
    } else {
      VisitClassAvail(p, g, c);
      assert RingKept(RingOf(p, c), RingOf(v, c));
      ClassReadyFrame(p, v, g, c);
      PickTurn(v, g, tries - 1, c);
    }
  }

  /** The class under the cursor is chosen if it is ready. */
  lemma PickCurrent(p: Pool, g: Gate)
    requires PoolOk(p) && |p.wheel.items| > 0 && ClassReady(p, g, Current(Wrap(p.wheel)))
    ensures VisitClass(p, g).1.Hit? && PickNext(p, g) == (VisitClass(p, g).0, Some(VisitClass(p, g).1.entry))
    ensures ClassOf(PickNext(p, g).1.value.spec) == Current(Wrap(p.wheel))
  {
    hide VisitClass, RingOk, RingHomed, ClassReady, PoolOk;
    if !VisitClass(p, g).1.Hit? {
      VisitClassMiss(p, g);
    } else {
      VisitClassHit(p, g);
    }
  }

  lemma PickInTurn(p: Pool, g: Gate, c: PriorityClass, left: int)
    requires PoolOk(p) && ClassReady(p, g, c) && InTurn(p.wheel, c, left) && left > 0
    ensures PickNext(p, g).1.Some? && ClassOf(PickNext(p, g).1.value.spec) == c
  {
    hide Pick, ClassReady, PoolOk;
    PickCurrent(p, g);
  }

  /** A class whose turn is over waits for every other ready class. */
  lemma PickAfterTurn(p: Pool, g: Gate, c: PriorityClass, x: PriorityClass)
    requires PoolOk(p) && ClassReady(p, g, x) && InTurn(p.wheel, c, 0) && x != c
    requires PickNext(p, g).1.Some?
    ensures ClassOf(PickNext(p, g).1.value.spec) != c
  {
    hide Pick, ClassReady, RingOk, RingHomed, Budget, InTurn;
    ReadyIsActive(p, g, x);
    PassedBudget(p.wheel, c, x, ClassQuantum(c), true);
    if ClassOf(PickNext(p, g).1.value.spec) != x {
      PickBudget(p, g, |p.wheel.items|, x, c);
      PickKeeps(p, g, |p.wheel.items|);
      BudgetBound(PickNext(p, g).0, x, c);
    }
  }

  /** After a selection only the class it chose may have credit left. */
  lemma {:induction false} PickSpends(p: Pool, g: Gate, tries: nat, c: PriorityClass)
    requires PoolOk(p) && (tries > 0 || Get(p.wheel.credit, c) <= 0)
    requires Pick(p, g, tries).1.Some? ==> ClassOf(Pick(p, g, tries).1.value.spec) != c
    ensures Get(Pick(p, g, tries).0.wheel.credit, c) <= 0
    decreases tries
  {
    hide VisitClass, RingOk, RingHomed;
    if tries > 0 && |p.wheel.items| > 0 {
      VisitClassKeeps(p, g);
      VisitClassWheel(p, g);
      var (v, visit) := VisitClass(p, g);
      if visit.Hit? {
        VisitClassHit(p, g);
      } else {
        PickSpends(v, g, tries - 1, c);
      }
    }
  }

  // ----- turns of a class over runs

  ghost function ClassCredit(w: World, pool: string, c: PriorityClass): int {
    if pool in w.ctl.pools then Get(w.ctl.pools[pool].wheel.credit, c) else 0
  }

  ghost predicate InClassTurn(w: World, pool: string, c: PriorityClass, left: int) {
    pool in w.ctl.pools && InTurn(w.ctl.pools[pool].wheel, c, left)
  }

  /** Selections from the pool among the operations i up to n. */
  ghost function SelectionsFrom(ops: seq<Op>, pool: string, i: nat, n: nat): nat
    requires i <= n <= |ops|
  {
    if n == i then 0 else SelectionsFrom(ops, pool, i, n - 1) + (if SelectsOn(ops[n - 1], pool) then 1 else 0)
  }

  /** The class has not been chosen by the last selection before n: its next turn is a new one. */
  ghost predicate TurnIsNew(ws: seq<World>, ops: seq<Op>, pool: string, c: PriorityClass, n: nat)
    requires n <= |ops| < |ws|
  {
    if n == 0 then ClassCredit(ws[0], pool, c) <= 0
    else if SelectsOn(ops[n - 1], pool) then !Serves(ws[n - 1], ops[n - 1], pool, c)
    else TurnIsNew(ws, ops, pool, c, n - 1)
  }

  ghost predicate ReadyFrom(ws: seq<World>, ops: seq<Op>, pool: string, c: PriorityClass, i: nat, n: nat)
    requires n <= |ops| < |ws|
  {
    forall k :: i <= k < n && SelectsOn(ops[k], pool) ==> ReadyClass(ws[k], ops[k], c)
  }

  lemma StartIsNew(configs: map<string, PoolConfig>, pool: string, c: PriorityClass)
    ensures ClassCredit(Start(configs), pool, c) <= 0
  {
  }

  lemma SelectSpends(w: World, op: Op, pool: string, c: PriorityClass)
    requires WorldOk(w) && SelectsOn(op, pool) && !Serves(w, op, pool, c)
    ensures ClassCredit(Step(w, op), pool, c) <= 0
  {
    hide StoreOk, ActiveOk, Conserved, PoolOk, Select, Pick, RingOf, Forget, Activate;
    var s := w.ctl;
    if pool in s.pools {
      var g := GateOf(s, op.now, op.eligible);
      StorePoolOk(s, pool);
      SelectForm(s, pool, op.now, op.eligible);
      if |s.pools[pool].wheel.items| == 0 {
        NoItemsNoCredit(s.pools[pool], c);
      }
      PickSpends(s.pools[pool], g, |s.pools[pool].wheel.items|, c);
      if Select(s, pool, op.now, op.eligible).1.Some? {
        SelectWheels(s, pool, op.now, op.eligible);
      }
    } else {
      SelectUnknown(s, pool, op.now, op.eligible);
    }
  }

  lemma NoItemsNoCredit(p: Pool, c: PriorityClass)
    requires PoolOk(p) && |p.wheel.items| == 0
    ensures Get(p.wheel.credit, c) <= 0
  {
    hide RingOk, RingHomed;
  }

  lemma QuietCredit(w: World, op: Op, pool: string, c: PriorityClass)
    requires WorldOk(w) && Allowed(w, op) && !SelectsOn(op, pool)
    ensures ClassCredit(Step(w, op), pool, c) == ClassCredit(w, pool, c)
  {
    hide WorldOk, Step, Allowed;
    if pool in w.ctl.pools {
      QuietClassWheel(w, op, pool);
    } else {
      PoolsFixed(w, op, pool);
    }
  }

  lemma {:induction false} NewTurnHoldsNothing(ws: seq<World>, ops: seq<Op>, pool: string, c: PriorityClass, n: nat)
    requires Run(ws, ops) && n <= |ops| && TurnIsNew(ws, ops, pool, c, n)
    ensures ClassCredit(ws[n], pool, c) <= 0
  {
    hide WorldOk, Step, Allowed, Serves, ClassCredit;
    if n > 0 {
      RunOk(ws, ops, n - 1);
      if SelectsOn(ops[n - 1], pool) {
        SelectSpends(ws[n - 1], ops[n - 1], pool, c);
      } else {
        NewTurnHoldsNothing(ws, ops, pool, c, n - 1);
        QuietCredit(ws[n - 1], ops[n - 1], pool, c);
      }
    }
  }

  lemma QuietTurn(w: World, op: Op, pool: string, c: PriorityClass, left: int)
    requires WorldOk(w) && Allowed(w, op) && !SelectsOn(op, pool) && InClassTurn(w, pool, c, left)
    ensures InClassTurn(Step(w, op), pool, c, left)
  {
    hide StoreOk, ActiveOk, Conserved, Step, Allowed, InTurn, PoolOk;
    QuietClassWheel(w, op, pool);
    StorePoolOk(w.ctl, pool);
    PoolWheelOk(w.ctl.pools[pool]);
    if op.OpEnqueue? {
      JoinTurn(w.ctl.pools[pool].wheel, ClassOf(op.entry.spec), c, left);
    }
  }

  lemma SelectTurn(w: World, op: Op, pool: string, c: PriorityClass)
    requires WorldOk(w) && SelectsOn(op, pool) && ReadyClass(w, op, c) && Serves(w, op, pool, c)
    ensures var credit := ClassCredit(w, pool, c);
            InClassTurn(Step(w, op), pool, c, (if credit > 0 then credit else ClassQuantum(c)) - 1)
  {
    hide StoreOk, ActiveOk, Conserved, PoolOk, Select, Pick, ReadyClass, ClassReady, InTurn;
    ReadyFromWorld(w, op, c);
    SelectWheels(w.ctl, pool, op.now, op.eligible);
    PickTurn(w.ctl.pools[pool], GateOf(w.ctl, op.now, op.eligible), |w.ctl.pools[pool].wheel.items|, c);
  }

  lemma SelectInTurn(w: World, op: Op, pool: string, c: PriorityClass, left: int)
    requires WorldOk(w) && SelectsOn(op, pool) && ReadyClass(w, op, c) && InClassTurn(w, pool, c, left) && left > 0
    ensures Serves(w, op, pool, c) && InClassTurn(Step(w, op), pool, c, left - 1)
  {
    hide StoreOk, ActiveOk, Conserved, PoolOk, Select, Pick, ReadyClass, ClassReady;
    ReadyFromWorld(w, op, c);
    SelectWheels(w.ctl, pool, op.now, op.eligible);
    PickInTurn(w.ctl.pools[pool], GateOf(w.ctl, op.now, op.eligible), c, left);
    SelectTurn(w, op, pool, c);
  }

  lemma {:induction false} TurnAlong(ws: seq<World>, ops: seq<Op>, pool: string, c: PriorityClass, i: nat, n: nat)
    requires Run(ws, ops) && i < n <= |ops| && Serves(ws[i], ops[i], pool, c) && ClassCredit(ws[i], pool, c) <= 0
    requires ReadyFrom(ws, ops, pool, c, i, n) && SelectionsFrom(ops, pool, i, n) <= ClassQuantum(c)
    ensures 1 <= SelectionsFrom(ops, pool, i, n)
    ensures InClassTurn(ws[n], pool, c, ClassQuantum(c) - SelectionsFrom(ops, pool, i, n))
    ensures forall k :: i <= k < n && SelectsOn(ops[k], pool) ==> Serves(ws[k], ops[k], pool, c)
    decreases n
  {
    hide WorldOk, Step, Allowed, ReadyClass, InClassTurn, ClassCredit, Chosen;
    RunOk(ws, ops, n - 1);
    var w, op := ws[n - 1], ops[n - 1];
    if n == i + 1 {
      SelectTurn(w, op, pool, c);
    } else {
      TurnAlong(ws, ops, pool, c, i, n - 1);
      var left := ClassQuantum(c) - SelectionsFrom(ops, pool, i, n - 1);
      if SelectsOn(op, pool) {
        SelectInTurn(w, op, pool, c, left);
      } else {
        QuietTurn(w, op, pool, c, left);
      }
    }
  }

  /**
   A turn lasts: a class chosen after a selection that went elsewhere, and ready ever
   since, is chosen at every selection until it has been chosen its quantum of times.
   */
  lemma ClassTurn(ws: seq<World>, ops: seq<Op>, pool: string, c: PriorityClass, i: nat, j: nat)
    requires Run(ws, ops) && i <= j < |ops| && Serves(ws[i], ops[i], pool, c) && TurnIsNew(ws, ops, pool, c, i)
    requires SelectsOn(ops[j], pool) && ReadyFrom(ws, ops, pool, c, i, j + 1)
    requires SelectionsFrom(ops, pool, i, j) < ClassQuantum(c)
    ensures Serves(ws[j], ops[j], pool, c)
  {
    hide WorldOk, Step, Allowed, ReadyClass, InClassTurn, ClassCredit, Serves, TurnIsNew;
    NewTurnHoldsNothing(ws, ops, pool, c, i);
    TurnAlong(ws, ops, pool, c, i, j + 1);
  }

  /** And it ends: after that the next selection goes to another class if one is ready. */
  lemma ClassTurnEnds(ws: seq<World>, ops: seq<Op>, pool: string, c: PriorityClass, x: PriorityClass, i: nat, j: nat)
    requires Run(ws, ops) && i < j < |ops| && Serves(ws[i], ops[i], pool, c) && TurnIsNew(ws, ops, pool, c, i)
    requires SelectsOn(ops[j], pool) && ReadyFrom(ws, ops, pool, c, i, j) && ReadyClass(ws[j], ops[j], x) && x != c
    requires SelectionsFrom(ops, pool, i, j) == ClassQuantum(c)
    ensures Chosen(ws[j], ops[j]).Some? && !Serves(ws[j], ops[j], pool, c)
  {
    hide StoreOk, ActiveOk, Conserved, Step, Allowed, ReadyClass, InTurn, ClassCredit, TurnIsNew, PoolOk, Select, Pick, ClassReady, ReadyFrom;
    NewTurnHoldsNothing(ws, ops, pool, c, i);
    TurnAlong(ws, ops, pool, c, i, j);
    RunOk(ws, ops, j);
    var s, op := ws[j].ctl, ops[j];
    ReadyFromWorld(ws[j], op, x);
    SelectWheels(s, pool, op.now, op.eligible);
    PickAfterTurn(s.pools[pool], GateOf(s, op.now, op.eligible), c, x);
  }

  // ----- shares of the classes

  /** The services the classes before position i get in one round. */
  ghost function Before(items: seq<PriorityClass>, i: nat): int
    requires i <= |items|
  {
    if i == 0 then 0 else Before(items, i - 1) + ClassQuantum(items[i - 1])
  }

  lemma {:induction false} BeforeGrows(items: seq<PriorityClass>, i: nat, j: nat)
    requires i < j <= |items|
    ensures 0 <= Before(items, i) && Before(items, i) + ClassQuantum(items[i]) <= Before(items, j)
    decreases j
  {
    if i + 1 < j {
      BeforeGrows(items, i, j - 1);
    } else {
      BeforePositive(items, i);
    }
  }

  lemma {:induction false} BeforePositive(items: seq<PriorityClass>, i: nat)
    requires i <= |items|
    ensures 0 <= Before(items, i)
  {
    if i > 0 {
      BeforePositive(items, i - 1);
    }
  }

  ghost predicate AllFour(items: seq<PriorityClass>) {
    |items| == 4 && Distinct(items) && forall c: PriorityClass :: c in items
  }

  lemma RoundIs15(items: seq<PriorityClass>)
    requires AllFour(items)
    ensures Before(items, 4) == 15
  {
    var a, b, c, d := items[0], items[1], items[2], items[3];
    assert a != b && a != c && a != d && b != c && b != d && c != d;
    assert Before(items, 1) == ClassQuantum(a);
    assert Before(items, 2) == ClassQuantum(a) + ClassQuantum(b);
    assert Before(items, 3) == ClassQuantum(a) + ClassQuantum(b) + ClassQuantum(c);
    FourQuanta(a, b, c, d);
  }

  lemma FourQuanta(a: PriorityClass, b: PriorityClass, c: PriorityClass, d: PriorityClass)
    requires a != b && a != c && a != d && b != c && b != d && c != d
    ensures ClassQuantum(a) + ClassQuantum(b) + ClassQuantum(c) + ClassQuantum(d) == 15
  {
  }

  lemma AllInItems(items: seq<PriorityClass>)
    requires Distinct(items) && forall c: PriorityClass :: c in items
    ensures AllFour(items)
  {
    var i, n, b, m := IndexOf(items, Interactive), IndexOf(items, Normal), IndexOf(items, Background), IndexOf(items, Maintenance);
    if |items| > 4 {
      FiveClasses(items[0], items[1], items[2], items[3], items[4]);
    }
  }

  lemma FiveClasses(a: PriorityClass, b: PriorityClass, c: PriorityClass, d: PriorityClass, e: PriorityClass)
    ensures a == b || a == c || a == d || a == e || b == c || b == d || b == e || c == d || c == e || d == e
  {
  }

  /** How often x is served in the first n services of endless rounds in this order. */
  ghost function InRounds(items: seq<PriorityClass>, x: PriorityClass, n: int): int
    requires x in items
  {
    var into := n % 15 - Before(items, IndexOf(items, x));
    ClassQuantum(x) * (n / 15) + (if into <= 0 then 0 else if into >= ClassQuantum(x) then ClassQuantum(x) else into)
  }

  lemma NextInRounds(items: seq<PriorityClass>, j: nat, x: PriorityClass, n: int)
    requires AllFour(items) && j < 4 && n >= 0
    requires Before(items, j) <= n % 15 < Before(items, j) + ClassQuantum(items[j])
    ensures InRounds(items, x, n + 1) == InRounds(items, x, n) + if x == items[j] then 1 else 0
  {
    hide Before;
    RoundIs15(items);
    var i := IndexOf(items, x);
    BeforeGrows(items, i, 4);
    BeforeGrows(items, j, 4);
    if i < j {
      BeforeGrows(items, i, j);
    } else if j < i {
      BeforeGrows(items, j, i);
    } else {
      IndexUnique(items, j);
    }
    Round(n, ClassQuantum(x));
  }

  lemma Round(n: int, q: int)
    requires n >= 0
    ensures if n % 15 == 14 then (n + 1) % 15 == 0 && q * ((n + 1) / 15) == q * (n / 15) + q
            else (n + 1) % 15 == n % 15 + 1 && (n + 1) / 15 == n / 15
  {
    if n % 15 == 14 {
      assert (n + 1) / 15 == n / 15 + 1;
    }
  }

  lemma WholeRounds(items: seq<PriorityClass>, x: PriorityClass, n: int, k: int)
    requires x in items && n >= 0 && k >= 0
    ensures InRounds(items, x, n + 15 * k) == InRounds(items, x, n) + ClassQuantum(x) * k
  {
    assert (n + 15 * k) / 15 == n / 15 + k && (n + 15 * k) % 15 == n % 15;
    match x
    case Interactive =>
    case Normal =>
    case Background =>
    case Maintenance =>
  }

  /** The wheel stands where n services of endless rounds leave it. */
  ghost predicate Stands(w: Wheel<PriorityClass>, n: int) {
    && AllFour(w.items) && n >= 0
    && var c := Current(Wrap(w));
       && n % 15 == Before(w.items, Wrap(w).cursor) + ClassQuantum(c) - Avail(w, c, ClassQuantum(c))
       && 1 <= Avail(w, c, ClassQuantum(c)) <= ClassQuantum(c)
  }

  lemma SomewhereStands(p: Pool) returns (n: int)
    requires PoolOk(p) && AllFour(p.wheel.items)
    ensures Stands(p.wheel, n)
  {
    hide RingOk, RingHomed, Before;
    var i, c := Wrap(p.wheel).cursor, Current(Wrap(p.wheel));
    n := Before(p.wheel.items, i) + ClassQuantum(c) - Avail(p.wheel, c, ClassQuantum(c));
    RoundIs15(p.wheel.items);
    BeforeGrows(p.wheel.items, i, 4);
  }

  ghost predicate AllClassesReady(p: Pool, g: Gate) {
    forall c: PriorityClass :: ClassReady(p, g, c)
  }

  /** With all four classes ready, a selection serves the current one and moves on by one. */
  lemma PickStands(p: Pool, g: Gate, n: int)
    requires PoolOk(p) && AllClassesReady(p, g) && Stands(p.wheel, n)
    ensures PickNext(p, g).1.Some? && PickNext(p, g).0.wheel.items == p.wheel.items
    ensures var c := Current(Wrap(p.wheel));
            && ClassOf(PickNext(p, g).1.value.spec) == c
            && Before(p.wheel.items, Wrap(p.wheel).cursor) <= n % 15 < Before(p.wheel.items, Wrap(p.wheel).cursor) + ClassQuantum(c)
    ensures Stands(PickNext(p, g).0.wheel, n + 1)
  {
    hide Pick, VisitClass, RingOk, RingHomed, ClassReady, Before, AllFour;
    assert |p.wheel.items| == 4 by { FourLong(p.wheel.items); }
    var c := Current(Wrap(p.wheel));
    PickCurrent(p, g);
    VisitClassTurn(p, g);
    var w := PickNext(p, g).0.wheel;
    if Avail(p.wheel, c, ClassQuantum(c)) == 1 {
      NextStands(p, g, n);
    } else {
      RoundIs15(p.wheel.items);
      BeforeGrows(p.wheel.items, Wrap(p.wheel).cursor, 4);
      Round(n, 1);
    }
  }

  lemma FourLong(items: seq<PriorityClass>)
    requires AllFour(items)
    ensures |items| == 4
  {
  }

  lemma NextStands(p: Pool, g: Gate, n: int)
    requires PoolOk(p) && AllClassesReady(p, g) && Stands(p.wheel, n)
    requires var c := Current(Wrap(p.wheel));
             && Avail(p.wheel, c, ClassQuantum(c)) == 1 && PickNext(p, g).1.Some? && ClassOf(PickNext(p, g).1.value.spec) == c
    requires PickNext(p, g).0.wheel.items == p.wheel.items && PickNext(p, g).0.wheel.cursor == Wrap(p.wheel).cursor + 1
    ensures Stands(PickNext(p, g).0.wheel, n + 1)
  {
    hide Pick, RingOk, RingHomed, ClassReady;
    var w, i := PickNext(p, g).0.wheel, Wrap(p.wheel).cursor;
    var next := Current(Wrap(w));
    assert next != p.wheel.items[i];
    PickSpends(p, g, |p.wheel.items|, next);
    RoundIs15(p.wheel.items);
    Round(n, 1);
    if i < 3 {
      BeforeGrows(p.wheel.items, i + 1, 4);
    }
  }

  /** Every class is ready at every selection of the pool. */
  ghost predicate AllReady(ws: seq<World>, ops: seq<Op>, pool: string)
    requires |ws| == |ops| + 1
  {
    forall i, c: PriorityClass :: 0 <= i < |ops| && SelectsOn(ops[i], pool) ==> ReadyClass(ws[i], ops[i], c)
  }

  lemma AllReadyHere(w: World, op: Op, pool: string)
    requires WorldOk(w) && SelectsOn(op, pool) && forall c: PriorityClass :: ReadyClass(w, op, c)
    ensures pool in w.ctl.pools && PoolOk(w.ctl.pools[pool]) && AllFour(w.ctl.pools[pool].wheel.items)
    ensures AllClassesReady(w.ctl.pools[pool], GateOf(w.ctl, op.now, op.eligible)) && Chosen(w, op).Some?
  {
    hide WorldOk, PoolOk, ReadyClass, ClassReady, AllFour, Chosen;
    forall c: PriorityClass
      ensures pool in w.ctl.pools && c in w.ctl.pools[pool].wheel.items && PoolOk(w.ctl.pools[pool]) && Chosen(w, op).Some?
      ensures ClassReady(w.ctl.pools[pool], GateOf(w.ctl, op.now, op.eligible), c)
    {
      ReadyFromWorld(w, op, c);
    }
    ReadyFromWorld(w, op, Normal);
    PoolWheelOk(w.ctl.pools[pool]);
    AllInItems(w.ctl.pools[pool].wheel.items);
  }

  /** The pool's class wheel stands at n, in the order of these items. */
  ghost predicate PoolStands(w: World, pool: string, items: seq<PriorityClass>, n: int) {
    pool in w.ctl.pools && w.ctl.pools[pool].wheel.items == items && Stands(w.ctl.pools[pool].wheel, n)
  }

  lemma SelectStands(w: World, op: Op, pool: string, items: seq<PriorityClass>, n: int, x: PriorityClass)
    requires WorldOk(w) && SelectsOn(op, pool) && (forall c: PriorityClass :: ReadyClass(w, op, c)) && PoolStands(w, pool, items, n)
    ensures PoolStands(Step(w, op), pool, items, n + 1) && x in items
    ensures InRounds(items, x, n + 1) == InRounds(items, x, n) + if Serves(w, op, pool, x) then 1 else 0
  {
    hide StoreOk, ActiveOk, Conserved, PoolOk, Select, Pick, ReadyClass, ClassReady, InRounds, Before;
    AllReadyHere(w, op, pool);
    SelectWheels(w.ctl, pool, op.now, op.eligible);
    var p := w.ctl.pools[pool];
    PickStands(p, GateOf(w.ctl, op.now, op.eligible), n);
    NextInRounds(items, Wrap(p.wheel).cursor, x, n);
  }

  lemma QuietStands(w: World, op: Op, pool: string, items: seq<PriorityClass>, n: int)
    requires WorldOk(w) && Allowed(w, op) && !SelectsOn(op, pool) && PoolStands(w, pool, items, n)
    ensures PoolStands(Step(w, op), pool, items, n)
  {
    hide WorldOk, Step, Allowed, Before, Wrap;
    QuietClassWheel(w, op, pool);
  }

  /** From the first selection on, services follow the rounds. */
  lemma {:induction false} ServedInRounds(ws: seq<World>, ops: seq<Op>, pool: string, n: nat) returns (items: seq<PriorityClass>, from: int)
    requires Run(ws, ops) && AllReady(ws, ops, pool) && n <= |ops|
    ensures Selections(ops, pool, n) == 0 ==> forall x :: Served(ws, ops, pool, x, n) == 0
    ensures Selections(ops, pool, n) > 0 ==>
              && PoolStands(ws[n], pool, items, from + Selections(ops, pool, n)) && from >= 0 && AllFour(items)
              && forall x :: Served(ws, ops, pool, x, n) == InRounds(items, x, from + Selections(ops, pool, n)) - InRounds(items, x, from)
  {
    hide WorldOk, Step, Allowed, ReadyClass, Serves, PoolStands, AllFour, InRounds;
    if n == 0 {
      items, from := [], 0;
    } else {
      items, from := ServedInRounds(ws, ops, pool, n - 1);
      RunOk(ws, ops, n - 1);
      var w, op := ws[n - 1], ops[n - 1];
      if SelectsOn(op, pool) {
        if Selections(ops, pool, n - 1) == 0 {
          items, from := FirstStand(w, op, pool);
        }
        StandsOn(w, op, pool, items, from + Selections(ops, pool, n - 1));
      } else {
        forall x
          ensures !Serves(w, op, pool, x)
        {
          NotServedQuiet(w, op, pool, x);
        }
        if Selections(ops, pool, n) > 0 {
          QuietStands(w, op, pool, items, from + Selections(ops, pool, n));
        }
      }
    }
  }

  lemma FirstStand(w: World, op: Op, pool: string) returns (items: seq<PriorityClass>, from: int)
    requires WorldOk(w) && SelectsOn(op, pool) && forall c: PriorityClass :: ReadyClass(w, op, c)
    ensures PoolStands(w, pool, items, from) && from >= 0 && AllFour(items)
  {
    hide WorldOk, PoolOk, ReadyClass, AllClassesReady;
    AllReadyHere(w, op, pool);
    items := w.ctl.pools[pool].wheel.items;
    from := SomewhereStands(w.ctl.pools[pool]);
  }

  lemma StandsOn(w: World, op: Op, pool: string, items: seq<PriorityClass>, n: int)
    requires WorldOk(w) && SelectsOn(op, pool) && (forall c: PriorityClass :: ReadyClass(w, op, c))
    requires PoolStands(w, pool, items, n) && AllFour(items)
    ensures PoolStands(Step(w, op), pool, items, n + 1)
    ensures forall x :: InRounds(items, x, n + 1) == InRounds(items, x, n) + if Serves(w, op, pool, x) then 1 else 0
  {
    hide WorldOk, Step, ReadyClass, Serves, PoolStands, InRounds;
    SelectStands(w, op, pool, items, n, Normal);
    forall x
      ensures InRounds(items, x, n + 1) == InRounds(items, x, n) + if Serves(w, op, pool, x) then 1 else 0
    {
      SelectStands(w, op, pool, items, n, x);
    }
  }

  /**
   While all four classes are ready, every 15 selections of the pool in a row, whatever
   happens between them, go to the classes 8, 4, 2 and 1 times.
   */
  lemma ClassShares(ws: seq<World>, ops: seq<Op>, pool: string, k: nat)
    requires Run(ws, ops) && AllReady(ws, ops, pool) && Selections(ops, pool, |ops|) == 15 * k
    ensures Served(ws, ops, pool, Interactive, |ops|) == 8 * k && Served(ws, ops, pool, Normal, |ops|) == 4 * k
    ensures Served(ws, ops, pool, Background, |ops|) == 2 * k && Served(ws, ops, pool, Maintenance, |ops|) == k
  {
    hide WorldOk, Step, Allowed, AllReady, Served, Selections, PoolStands, InRounds;
    var items, from := ServedInRounds(ws, ops, pool, |ops|);
    if k > 0 {
      forall x: PriorityClass
        ensures Served(ws, ops, pool, x, |ops|) == ClassQuantum(x) * k
      {
        WholeRounds(items, x, from, k);
      }
    }
  }

  // ----- one scan of a class, owner level

  /** What a service leaves the owner, given what it could spend and whether its queue is now empty. */
  ghost function Remaining(r: OwnerRing, o: string): int {
    if |QueueOf(r, o)| == 1 then 0 else Avail(r.wheel, o, OwnerQuantum(r, o)) - 1
  }

  lemma VisitOwnerTurn(r: OwnerRing, g: Gate)
    requires RingOk(r) && |r.wheel.items| > 0 && VisitOwner(r, g).1.Hit?
    ensures InTurn(VisitOwner(r, g).0.wheel, Current(Wrap(r.wheel)), Remaining(r, Current(Wrap(r.wheel))))
  {
    hide VisitOwner, QueueOf;
    VisitForm(r, g);
    ServeTurn(ChargedOwner(r), |QueueOf(r, Current(Wrap(r.wheel)))| == 1);
  }

  /** A visit in vain to another owner leaves o's credit, quantum and queue alone. */
  lemma VisitOwnerFrame(r: OwnerRing, g: Gate, o: string)
    requires RingOk(r) && |r.wheel.items| > 0 && OwnerReady(r, g, o) && !VisitOwner(r, g).1.Hit?
    ensures Remaining(VisitOwner(r, g).0, o) == Remaining(r, o)
  {
    hide VisitOwner, RingOk, OwnerReady, QueueOf, Rotated;
    VisitMiss(r, g);
    RingWheelOk(r);
    RotatedMoves(r.wheel);
    RotatedMoves(Wrap(r.wheel));
    VisitForm(r, g);
    VisitSameQueues(r, g);
    assert QueueOf(VisitOwner(r, g).0, o) == QueueOf(r, o);
  }

  lemma {:induction false} ScanTurn(r: OwnerRing, g: Gate, tries: nat, c: PriorityClass, o: string)
    requires RingOk(r) && RingHomed(r, c) && OwnerReady(r, g, o)
    requires ScanOwners(r, g, tries).1.Some? && ScanOwners(r, g, tries).1.value.spec.owner == o
    ensures InTurn(ScanOwners(r, g, tries).0.wheel, o, Remaining(r, o))
    decreases tries
  {
    hide VisitOwner, InTurn, Remaining, RingOk, OwnerReady;
    VisitKeeps(r, g);
    var (v, visit) := VisitOwner(r, g);
    if visit.Hit? {
      VisitChoice(r, g, c);
      VisitOwnerTurn(r, g);
    } else {
      VisitOwnerFrame(r, g, o);
      HomedFrame(r, v, c);
      ReadyFrame(r, v, g, o);
      ScanTurn(v, g, tries - 1, c, o);
    }
  }

  lemma ScanInTurn(r: OwnerRing, g: Gate, c: PriorityClass, o: string, left: int)
    requires RingOk(r) && RingHomed(r, c) && OwnerReady(r, g, o) && InTurn(r.wheel, o, left) && left > 0
    ensures var scan := ScanOwners(r, g, |r.wheel.items|); scan.1.Some? && scan.1.value.spec.owner == o
  {
    hide VisitOwner, RingOk, RingHomed, OwnerReady;
    if VisitOwner(r, g).1.Hit? {
      VisitChoice(r, g, c);
    } else {
      VisitMiss(r, g);
    }
  }

  lemma ScanAfterTurn(r: OwnerRing, g: Gate, c: PriorityClass, o: string, y: string, weight: int)
    requires RingOk(r) && RingHomed(r, c) && OwnerReady(r, g, y) && InTurn(r.wheel, o, 0) && y != o && weight >= 1
    requires OwnerQuantum(r, o) == weight && o in r.quantums
    ensures var scan := ScanOwners(r, g, |r.wheel.items|); scan.1.Some? ==> scan.1.value.spec.owner != o
  {
    hide ScanOwners, RingOk, RingHomed, OwnerReady, Budget, InTurn;
    var scan := ScanOwners(r, g, |r.wheel.items|);
    if scan.1.Some? && scan.1.value.spec.owner != y {
      RingWheelOk(r);
      ScanBudget(r, g, |r.wheel.items|, c, y, o, weight);
      PassedBudget(r.wheel, o, y, weight, false);
      BudgetNonNegative(scan.0.wheel, y, o, weight, false);
    }
  }

  lemma BudgetNonNegative(w: Wheel<string>, c: string, x: string, quantum: int, joins: bool)
    requires c in w.items && quantum >= 0
    ensures Budget(w, c, x, quantum, joins) >= 0
  {
  }

  // ----- turns of an owner over runs

  ghost predicate InOwnerTurn(w: World, pool: string, c: PriorityClass, o: string, left: int) {
    pool in w.ctl.pools && InTurn(RingOf(w.ctl.pools[pool], c).wheel, o, left)
  }

  ghost predicate HasWork(w: World, pool: string, c: PriorityClass, o: string) {
    exists id :: id in w.ctl.taskById && w.ctl.taskById[id].spec.pool == pool && ClassOf(w.ctl.taskById[id].spec) == c &&
                 w.ctl.taskById[id].spec.owner == o
  }

  /** What the owner may still be served in its turn: its weight where it has not begun one. */
  ghost function OwnerLeft(w: World, pool: string, c: PriorityClass, o: string): int {
    var weight := EffectiveWeight(w.ctl.limits, o);
    if pool in w.ctl.pools then Avail(RingOf(w.ctl.pools[pool], c).wheel, o, weight) else weight
  }

  lemma HasWorkQueued(s: State, pool: string, c: PriorityClass, o: string)
    requires QueuesAgree(s)
    ensures |Queue(s, pool, c, o)| > 0 <==>
            exists id :: id in s.taskById && s.taskById[id].spec.pool == pool && ClassOf(s.taskById[id].spec) == c && s.taskById[id].spec.owner == o
  {
    hide Queue, DistinctIds;
    if |Queue(s, pool, c, o)| > 0 {
      assert AtHome(s, pool, c, o, Queue(s, pool, c, o)[0]);
    }
    forall id | id in s.taskById && s.taskById[id].spec.pool == pool && ClassOf(s.taskById[id].spec) == c && s.taskById[id].spec.owner == o
      ensures |Queue(s, pool, c, o)| > 0
    {
      assert Queued(s, s.taskById[id]);
    }
  }

  /** A dispatch takes one entry off the owner's queue. */
  lemma SelectShortens(s: State, pool: string, now: Time, eligible: WorkSpec -> bool)
    requires StoreOk(s) && pool in s.pools && Select(s, pool, now, eligible).1.Some?
    ensures var e := Select(s, pool, now, eligible).1.value;
            |Queue(Select(s, pool, now, eligible).0, pool, ClassOf(e.spec), e.spec.owner)| == |Queue(s, pool, ClassOf(e.spec), e.spec.owner)| - 1
  {
    hide StoreOk, Select, Pick, Forget, RightChoice, Queue, RemoveId, Runnable, OwnerOpen;
    var g := GateOf(s, now, eligible);
    SelectForm(s, pool, now, eligible);
    TurnedOk(s, pool, g);
    ChosenFacts(s, pool, g);
    var m, e := Turned(s, pool, g), PickNext(s.pools[pool], g).1.value;
    StoreQueues(m);
    WaitingIsQueued(m, e);
    RemoveIdFacts(Queue(m, pool, ClassOf(e.spec), e.spec.owner), e);
    QueueAfterForget(m, e, pool, ClassOf(e.spec), e.spec.owner);
    SamePools(Forget(m, e), Activate(Forget(m, e), e.spec), pool, ClassOf(e.spec), e.spec.owner);
  }

  lemma StoreQueues(s: State)
    requires StoreOk(s)
    ensures QueuesAgree(s)
  {
    hide QueuesAgree, DeadlinesAgree, TotalsAgree, CountersAgree, PoolsOk, WeightsOk;
  }

  lemma SamePools(s: State, s': State, pool: string, c: PriorityClass, o: string)
    requires s'.pools == s.pools
    ensures Queue(s', pool, c, o) == Queue(s, pool, c, o)
  {
  }

  /** A service leaves the owner one less to spend, or nothing when it took the last entry. */
  lemma SelectOwnerTurn(w: World, op: Op, pool: string, c: PriorityClass, o: string)
    requires WorldOk(w) && SelectsOn(op, pool) && ReadyOwner(w, op, c, o) && ServesOwner(w, op, pool, c, o)
    ensures InOwnerTurn(Step(w, op), pool, c, o, if HasWork(Step(w, op), pool, c, o) then OwnerLeft(w, pool, c, o) - 1 else 0)
  {
    hide StoreOk, ActiveOk, Conserved, PoolOk, Select, Pick, ReadyOwner, ReadyClass, ClassReady, OwnerReady, RingOf, RingOk, RingHomed, ScanOwners, InTurn, RingWeights, QueuesAgree;
    OwnerReadyFromWorld(w, op, c, o);
    ReadyFromWorld(w, op, c);
    var s, g := w.ctl, GateOf(w.ctl, op.now, op.eligible);
    var r := RingOf(s.pools[pool], c);
    SelectWheels(s, pool, op.now, op.eligible);
    PickRing(s.pools[pool], g, |s.pools[pool].wheel.items|, c);
    StoreRing(s, pool, c);
    RingQuantum(r, s.limits, o);
    ReadyInRing(r, g, o);
    ScanTurn(r, g, |r.wheel.items|, c, o);
    SelectShortens(s, pool, op.now, op.eligible);
    SelectStepOk(w, pool, op.now, op.eligible);
    StoreQueues(Step(w, op).ctl);
    HasWorkQueued(Step(w, op).ctl, pool, c, o);
  }

  /** While the owner stays ready, only services of its class touch its ring. */
  lemma OtherClassTurn(w: World, op: Op, pool: string, c: PriorityClass, o: string, left: int)
    requires WorldOk(w) && SelectsOn(op, pool) && ReadyOwner(w, op, c, o) && !Serves(w, op, pool, c)
    requires InOwnerTurn(w, pool, c, o, left)
    ensures InOwnerTurn(Step(w, op), pool, c, o, left)
  {
    hide StoreOk, ActiveOk, Conserved, PoolOk, Select, Pick, ReadyOwner, ReadyClass, ClassReady, OwnerReady, RingOf, ScanOwners, InTurn;
    OwnerReadyFromWorld(w, op, c, o);
    ReadyFromWorld(w, op, c);
    SelectWheels(w.ctl, pool, op.now, op.eligible);
    PickRing(w.ctl.pools[pool], GateOf(w.ctl, op.now, op.eligible), |w.ctl.pools[pool].wheel.items|, c);
  }

  lemma QuietOwnerTurn(w: World, op: Op, pool: string, c: PriorityClass, o: string, left: int)
    requires WorldOk(w) && Allowed(w, op) && !SelectsOn(op, pool) && (op.OpSetLimits? ==> op.owner != o)
    requires InOwnerTurn(w, pool, c, o, left)
    ensures InOwnerTurn(Step(w, op), pool, c, o, left)
  {
    hide StoreOk, ActiveOk, Conserved, Step, Allowed, RingOf, InTurn, RingOk, RingHomed, RingWeights;
    QuietOwnerWheel(w, op, pool, c);
    StoreRing(w.ctl, pool, c);
    var v := RingOf(w.ctl.pools[pool], c).wheel;
    RingWheelOk(RingOf(w.ctl.pools[pool], c));
    if op.OpEnqueue? {
      JoinTurn(v, op.entry.spec.owner, o, left);
    } else if op.OpSetLimits? {
      OtherCreditTurn(v, op.owner, o, left);
    }
  }

  lemma OtherCreditTurn(v: Wheel<string>, y: string, o: string, left: int)
    requires InTurn(v, o, left) && y != o
    ensures InTurn(SetCredit(v, y, 0), o, left)
  {
  }

  lemma SelectInOwnerTurn(w: World, op: Op, pool: string, c: PriorityClass, o: string, left: int)
    requires WorldOk(w) && Serves(w, op, pool, c) && ReadyOwner(w, op, c, o) && InOwnerTurn(w, pool, c, o, left) && left > 0
    ensures ServesOwner(w, op, pool, c, o) && OwnerLeft(w, pool, c, o) == left
  {
    hide StoreOk, ActiveOk, Conserved, PoolOk, Select, Pick, ReadyOwner, ReadyClass, ClassReady, OwnerReady, RingOf, ScanOwners, RingOk, RingHomed, RingWeights;
    OwnerReadyFromWorld(w, op, c, o);
    ReadyFromWorld(w, op, c);
    var p, g := w.ctl.pools[pool], GateOf(w.ctl, op.now, op.eligible);
    SelectWheels(w.ctl, pool, op.now, op.eligible);
    PickRing(p, g, |p.wheel.items|, c);
    StoreRing(w.ctl, pool, c);
    ScanInTurn(RingOf(p, c), g, c, o, left);
  }

  /** Services of the class among the operations i up to n. */
  ghost function ServedFrom(ws: seq<World>, ops: seq<Op>, pool: string, c: PriorityClass, i: nat, n: nat): nat
    requires i <= n <= |ops| < |ws|
  {
    if n == i then 0 else ServedFrom(ws, ops, pool, c, i, n - 1) + (if Serves(ws[n - 1], ops[n - 1], pool, c) then 1 else 0)
  }

  /** At every selection the owner is ready, its quotas stay, and no service takes its last entry. */
  ghost predicate OwnerStays(ws: seq<World>, ops: seq<Op>, pool: string, c: PriorityClass, o: string, i: nat, n: nat)
    requires n <= |ops| < |ws|
  {
    forall k :: i <= k < n ==>
      && (SelectsOn(ops[k], pool) ==> ReadyOwner(ws[k], ops[k], c, o))
      && (ops[k].OpSetLimits? ==> ops[k].owner != o)
      && (ServesOwner(ws[k], ops[k], pool, c, o) ==> HasWork(ws[k + 1], pool, c, o))
  }

  lemma {:induction false} OwnerTurnAlong(ws: seq<World>, ops: seq<Op>, pool: string, c: PriorityClass, o: string, i: nat, n: nat)
    requires Run(ws, ops) && i < n <= |ops| && ServesOwner(ws[i], ops[i], pool, c, o)
    requires OwnerStays(ws, ops, pool, c, o, i, n) && ServedFrom(ws, ops, pool, c, i, n) <= OwnerLeft(ws[i], pool, c, o)
    ensures 1 <= ServedFrom(ws, ops, pool, c, i, n)
    ensures InOwnerTurn(ws[n], pool, c, o, OwnerLeft(ws[i], pool, c, o) - ServedFrom(ws, ops, pool, c, i, n))
    ensures forall k :: i <= k < n && Serves(ws[k], ops[k], pool, c) ==> ServesOwner(ws[k], ops[k], pool, c, o)
    decreases n
  {
    hide WorldOk, Step, Allowed, ReadyOwner, InOwnerTurn, OwnerLeft, Chosen, HasWork;
    RunOk(ws, ops, n - 1);
    var w, op := ws[n - 1], ops[n - 1];
    if n == i + 1 {
      SelectOwnerTurn(w, op, pool, c, o);
    } else {
      OwnerTurnAlong(ws, ops, pool, c, o, i, n - 1);
      var left := OwnerLeft(ws[i], pool, c, o) - ServedFrom(ws, ops, pool, c, i, n - 1);
      if Serves(w, op, pool, c) {
        SelectInOwnerTurn(w, op, pool, c, o, left);
        SelectOwnerTurn(w, op, pool, c, o);
      } else if SelectsOn(op, pool) {
        OtherClassTurn(w, op, pool, c, o, left);
      } else {
        QuietOwnerTurn(w, op, pool, c, o, left);
      }
    }
  }

  /**
   An owner's turn lasts: once chosen, an owner that stays ready and is not served its last
   entry is chosen at every selection that goes to its class, until its turn is used up.
   */
  lemma OwnerTurn(ws: seq<World>, ops: seq<Op>, pool: string, c: PriorityClass, o: string, i: nat, j: nat)
    requires Run(ws, ops) && i <= j < |ops| && ServesOwner(ws[i], ops[i], pool, c, o)
    requires OwnerStays(ws, ops, pool, c, o, i, j) && Serves(ws[j], ops[j], pool, c) && ReadyOwner(ws[j], ops[j], c, o)
    requires ServedFrom(ws, ops, pool, c, i, j) < OwnerLeft(ws[i], pool, c, o)
    ensures ServesOwner(ws[j], ops[j], pool, c, o)
  {
    hide WorldOk, Step, Allowed, ReadyOwner, InOwnerTurn, OwnerLeft, Chosen, OwnerStays;
    if i < j {
      OwnerTurnAlong(ws, ops, pool, c, o, i, j);
      RunOk(ws, ops, j);
      SelectInOwnerTurn(ws[j], ops[j], pool, c, o, OwnerLeft(ws[i], pool, c, o) - ServedFrom(ws, ops, pool, c, i, j));
    }
  }

  /** And it ends: then the class serves another owner if one is ready, and the owner's next turn is a whole one. */
  lemma OwnerTurnEnds(ws: seq<World>, ops: seq<Op>, pool: string, c: PriorityClass, o: string, y: string, i: nat, j: nat)
    requires Run(ws, ops) && i < j < |ops| && ServesOwner(ws[i], ops[i], pool, c, o)
    requires OwnerStays(ws, ops, pool, c, o, i, j) && ServedFrom(ws, ops, pool, c, i, j) == OwnerLeft(ws[i], pool, c, o)
    ensures OwnerLeft(ws[j], pool, c, o) == EffectiveWeight(ws[j].ctl.limits, o)
    ensures SelectsOn(ops[j], pool) && ReadyOwner(ws[j], ops[j], c, y) && y != o ==> !ServesOwner(ws[j], ops[j], pool, c, o)
  {
    hide StoreOk, ActiveOk, Conserved, Step, Allowed, ReadyOwner, Chosen, OwnerStays, RingOf, EffectiveWeight;
    OwnerTurnAlong(ws, ops, pool, c, o, i, j);
    RunOk(ws, ops, j);
    if SelectsOn(ops[j], pool) && ReadyOwner(ws[j], ops[j], c, y) && y != o {
      SelectAfterOwnerTurn(ws[j], ops[j], pool, c, o, y);
    }
  }

  lemma SelectAfterOwnerTurn(w: World, op: Op, pool: string, c: PriorityClass, o: string, y: string)
    requires WorldOk(w) && SelectsOn(op, pool) && ReadyOwner(w, op, c, y) && y != o && InOwnerTurn(w, pool, c, o, 0)
    ensures !ServesOwner(w, op, pool, c, o)
  {
    hide StoreOk, ActiveOk, Conserved, PoolOk, Select, Pick, ReadyOwner, ReadyClass, ClassReady, OwnerReady, RingOf, ScanOwners, RingOk, RingHomed, RingWeights, EffectiveWeight;
    OwnerReadyFromWorld(w, op, c, y);
    ReadyFromWorld(w, op, c);
    var p, g := w.ctl.pools[pool], GateOf(w.ctl, op.now, op.eligible);
    SelectWheels(w.ctl, pool, op.now, op.eligible);
    PickRing(p, g, |p.wheel.items|, c);
    StoreRing(w.ctl, pool, c);
    RingQuantum(RingOf(p, c), w.ctl.limits, o);
    ScanAfterTurn(RingOf(p, c), g, c, o, y, EffectiveWeight(w.ctl.limits, o));
  }

  // ----- an owner that is not served keeps a whole turn

  /** Nothing to spend, or all of it. */
  ghost predicate Rested(v: Wheel<string>, o: string, weight: int) {
    Get(v.credit, o) <= 0 || (o in v.items && Get(v.credit, o) == weight)
  }

  ghost predicate OwnerRested(w: World, pool: string, c: PriorityClass, o: string) {
    pool in w.ctl.pools ==> Rested(RingOf(w.ctl.pools[pool], c).wheel, o, EffectiveWeight(w.ctl.limits, o))
  }

  ghost predicate Weighs(r: OwnerRing, o: string, weight: int) {
    weight >= 1 && (o in r.wheel.items ==> o in r.quantums && r.quantums[o] == weight)
  }

  /** What an owner has left while others are served: all of it while it has work, and a whole turn if it had one. */
  ghost predicate Spared(r: OwnerRing, r': OwnerRing, o: string, weight: int) {
    && (Rested(r.wheel, o, weight) ==> Rested(r'.wheel, o, weight))
    && (|QueueOf(r, o)| > 0 ==> Avail(r'.wheel, o, weight) == Avail(r.wheel, o, weight) && |QueueOf(r', o)| > 0)
  }

  lemma ChargedSpares(r: OwnerRing, o: string, weight: int)
    requires |r.wheel.items| > 0 && Weighs(r, o, weight)
    ensures var u := ChargedOwner(r);
            && u.items == r.wheel.items && Avail(u, o, weight) == Avail(r.wheel, o, weight)
            && (Rested(r.wheel, o, weight) ==> Rested(u, o, weight))
  {
  }

  /** Whatever happens to the current item's credit and place, another one keeps its own. */
  lemma OtherCredit(u: Wheel<string>, v: Wheel<string>, o: string, weight: int)
    requires Get(v.credit, o) == Get(u.credit, o) && (o in u.items ==> o in v.items)
    ensures Avail(v, o, weight) == Avail(u, o, weight) && (Rested(u, o, weight) ==> Rested(v, o, weight))
  {
  }

  lemma RetireCredit(r: OwnerRing, o: string)
    requires WheelOk(r.wheel) && AtItem(r.wheel)
    ensures var v := RetireOwner(r);
            if o == Current(r.wheel) then Get(v.wheel.credit, o) == 0
            else Get(v.wheel.credit, o) == Get(r.wheel.credit, o) && (o in r.wheel.items ==> o in v.wheel.items)
  {
    DropKeepsOk(r.wheel);
  }

  lemma VisitWheelSpares(r: OwnerRing, g: Gate, o: string, weight: int)
    requires RingOk(r) && |r.wheel.items| > 0 && Weighs(r, o, weight)
    requires VisitOwner(r, g).1.Hit? ==> Current(Wrap(r.wheel)) != o
    ensures var v := VisitOwner(r, g).0;
            && (Rested(r.wheel, o, weight) ==> Rested(v.wheel, o, weight))
            && (|QueueOf(r, o)| > 0 ==> Avail(v.wheel, o, weight) == Avail(r.wheel, o, weight))
  {
    hide VisitOwner, QueueOf, OwnerReady, ChargedOwner, RetireOwner, Rested, Avail, Weighs, RingOk;
    var u, v := ChargedOwner(r), VisitOwner(r, g).0;
    VisitForm(r, g);
    ChargedSpares(r, o, weight);
    ChargedWheelOk(r);
    if VisitOwner(r, g).1.Vacant? {
      RetireCredit(r.(wheel := u), o);
      if o == Current(u) {
        NothingLeft(v.wheel, o, weight);
      } else {
        OtherCredit(u, v.wheel, o, weight);
      }
    } else {
      OtherCredit(u, v.wheel, o, weight);
    }
  }

  lemma ChargedWheelOk(r: OwnerRing)
    requires RingOk(r) && |r.wheel.items| > 0
    ensures WheelOk(ChargedOwner(r)) && AtItem(ChargedOwner(r))
  {
    hide QueueOf;
  }

  lemma NothingLeft(v: Wheel<string>, o: string, weight: int)
    requires Get(v.credit, o) == 0
    ensures Rested(v, o, weight)
  {
  }

  lemma VisitWeighs(r: OwnerRing, g: Gate, o: string, weight: int)
    requires RingOk(r) && |r.wheel.items| > 0 && Weighs(r, o, weight)
    ensures Weighs(VisitOwner(r, g).0, o, weight)
  {
    hide VisitOwner, QueueOf;
    VisitQuanta(r, g);
  }

  lemma VisitSpares(r: OwnerRing, g: Gate, o: string, weight: int)
    requires RingOk(r) && |r.wheel.items| > 0 && Weighs(r, o, weight)
    requires VisitOwner(r, g).1.Hit? ==> Current(Wrap(r.wheel)) != o
    ensures Spared(r, VisitOwner(r, g).0, o, weight) && Weighs(VisitOwner(r, g).0, o, weight)
  {
    hide VisitOwner, QueueOf, Rested, Avail, Weighs, RingOk;
    VisitWheelSpares(r, g, o, weight);
    VisitWeighs(r, g, o, weight);
    VisitSameQueues(r, g);
    assert QueueOf(VisitOwner(r, g).0, o) == QueueOf(r, o);
  }

  lemma SparedTrans(r: OwnerRing, m: OwnerRing, z: OwnerRing, o: string, weight: int)
    requires Spared(r, m, o, weight) && Spared(m, z, o, weight)
    ensures Spared(r, z, o, weight)
  {
  }

  lemma SparedSelf(r: OwnerRing, o: string, weight: int)
    ensures Spared(r, r, o, weight)
  {
  }

  lemma {:induction false} ScanSpares(r: OwnerRing, g: Gate, tries: nat, c: PriorityClass, o: string, weight: int)
    requires RingOk(r) && RingHomed(r, c) && Weighs(r, o, weight)
    requires ScanOwners(r, g, tries).1.Some? ==> ScanOwners(r, g, tries).1.value.spec.owner != o
    ensures Spared(r, ScanOwners(r, g, tries).0, o, weight) && Weighs(ScanOwners(r, g, tries).0, o, weight)
    decreases tries
  {
    hide VisitOwner, RingOk, Spared, Weighs, QueueOf;
    SparedSelf(r, o, weight);
    if tries > 0 && |r.wheel.items| > 0 {
      VisitKeeps(r, g);
      var (v, visit) := VisitOwner(r, g);
      if visit.Hit? {
        VisitChoice(r, g, c);
      }
      VisitSpares(r, g, o, weight);
      if !visit.Hit? {
        HomedFrame(r, v, c);
        ScanSpares(v, g, tries - 1, c, o, weight);
        SparedTrans(r, v, ScanOwners(v, g, tries - 1).0, o, weight);
      }
    }
  }

  lemma VisitClassSpares(p: Pool, g: Gate, c: PriorityClass, o: string, weight: int)
    requires PoolOk(p) && |p.wheel.items| > 0 && Weighs(RingOf(p, c), o, weight)
    requires var visit := VisitClass(p, g).1; visit.Hit? ==> !(ClassOf(visit.entry.spec) == c && visit.entry.spec.owner == o)
    ensures var r := RingOf(VisitClass(p, g).0, c); Weighs(r, o, weight) && Spared(RingOf(p, c), r, o, weight)
  {
    hide VisitClass, ScanOwners, RingOk, RingHomed, Spared, Weighs;
    VisitClassForm(p, g);
    var r := RingOf(p, c);
    SparedSelf(r, o, weight);
    assert RingOk(r) && RingHomed(r, c);
    if Current(Wrap(p.wheel)) == c && !VisitClass(p, g).1.Vacant? {
      if VisitClass(p, g).1.Hit? {
        VisitClassHit(p, g);
      }
      ScanSpares(r, g, |r.wheel.items|, c, o, weight);
    }
  }

  lemma {:induction false} PickSpares(p: Pool, g: Gate, tries: nat, c: PriorityClass, o: string, weight: int)
    requires PoolOk(p) && Weighs(RingOf(p, c), o, weight)
    requires var hit := Pick(p, g, tries).1; hit.Some? ==> !(ClassOf(hit.value.spec) == c && hit.value.spec.owner == o)
    ensures Spared(RingOf(p, c), RingOf(Pick(p, g, tries).0, c), o, weight)
    decreases tries
  {
    hide VisitClass, PoolOk, Spared, Weighs, RingOf;
    SparedSelf(RingOf(p, c), o, weight);
    if tries > 0 && |p.wheel.items| > 0 {
      VisitClassKeeps(p, g);
      VisitClassSpares(p, g, c, o, weight);
      var (v, visit) := VisitClass(p, g);
      if !visit.Hit? {
        PickSpares(v, g, tries - 1, c, o, weight);
        SparedTrans(RingOf(p, c), RingOf(v, c), RingOf(Pick(v, g, tries - 1).0, c), o, weight);
      }
    }
  }

  lemma SelectSpares(w: World, op: Op, pool: string, c: PriorityClass, o: string)
    requires WorldOk(w) && SelectsOn(op, pool) && !ServesOwner(w, op, pool, c, o)
    ensures OwnerRested(w, pool, c, o) ==> OwnerRested(Step(w, op), pool, c, o)
    ensures |Queue(w.ctl, pool, c, o)| > 0 ==> OwnerLeft(Step(w, op), pool, c, o) == OwnerLeft(w, pool, c, o)
  {
    hide StoreOk, ActiveOk, Conserved, PoolOk, Select, Pick, RingOf, Rested, RingOk, RingHomed, EffectiveWeight, Forget, Activate, Avail;
    StepLimits(w, op, o);
    var s := w.ctl;
    if pool in s.pools {
      var p, g := s.pools[pool], GateOf(s, op.now, op.eligible);
      StorePoolOk(s, pool);
      StoreRing(s, pool, c);
      RingWeighs(RingOf(p, c), s.limits, o);
      SelectForm(s, pool, op.now, op.eligible);
      PickSpares(p, g, |p.wheel.items|, c, o, EffectiveWeight(s.limits, o));
      if Select(s, pool, op.now, op.eligible).1.Some? {
        SelectWheels(s, pool, op.now, op.eligible);
      }
    } else {
      SelectUnknown(s, pool, op.now, op.eligible);
    }
  }

  lemma RingWeighs(r: OwnerRing, limits: map<string, OwnerLimits>, o: string)
    requires RingWeights(r, limits)
    ensures Weighs(r, o, EffectiveWeight(limits, o))
  {
  }

  lemma QuietRested(w: World, op: Op, pool: string, c: PriorityClass, o: string)
    requires WorldOk(w) && Allowed(w, op) && !SelectsOn(op, pool) && OwnerRested(w, pool, c, o)
    ensures OwnerRested(Step(w, op), pool, c, o)
  {
    hide StoreOk, ActiveOk, Conserved, Step, Allowed, RingOf, RingOk, RingHomed, EffectiveWeight;
    if pool !in w.ctl.pools {
      PoolsFixed(w, op, pool);
    } else {
      QuietOwnerWheel(w, op, pool, c);
      if op.OpSetLimits? && op.owner == o {
        LimitsRested(w, pool, c, o, op.limits);
      } else {
        StepLimits(w, op, o);
      }
    }
  }

  /** New quotas either give the owner the same weight or take its credit away. */
  lemma LimitsRested(w: World, pool: string, c: PriorityClass, o: string, limits: OwnerLimits)
    requires WorldOk(w) && pool in w.ctl.pools && OwnerRested(w, pool, c, o)
    ensures OwnerRested(Step(w, OpSetLimits(o, limits)), pool, c, o)
  {
    hide StoreOk, ActiveOk, Conserved, RingOf, RingOk, RingHomed, RefreshPool;
    RefreshRingOf(w.ctl.pools[pool], o, NormalizeLimits(limits).weight, c);
    StoreRing(w.ctl, pool, c);
  }

  /** An owner whose turn is over, and not served since, has a whole turn before it. */
  lemma {:induction false} WholeTurnAhead(ws: seq<World>, ops: seq<Op>, pool: string, c: PriorityClass, o: string, i: nat, n: nat)
    requires Run(ws, ops) && i <= n <= |ops| && OwnerRested(ws[i], pool, c, o)
    requires forall k :: i <= k < n ==> !ServesOwner(ws[k], ops[k], pool, c, o)
    ensures OwnerRested(ws[n], pool, c, o) && OwnerLeft(ws[n], pool, c, o) == EffectiveWeight(ws[n].ctl.limits, o)
    decreases n
  {
    hide WorldOk, Step, Allowed, ServesOwner, EffectiveWeight, RingOf;
    if i < n {
      WholeTurnAhead(ws, ops, pool, c, o, i, n - 1);
      RunOk(ws, ops, n - 1);
      if SelectsOn(ops[n - 1], pool) {
        SelectSpares(ws[n - 1], ops[n - 1], pool, c, o);
      } else {
        QuietRested(ws[n - 1], ops[n - 1], pool, c, o);
      }
    }
  }

  /** An owner that is passed over while it has work keeps what is left of its turn. */
  lemma TurnIsKept(w: World, op: Op, pool: string, c: PriorityClass, o: string)
    requires WorldOk(w) && Allowed(w, op) && HasWork(w, pool, c, o) && !ServesOwner(w, op, pool, c, o)
    requires op.OpSetLimits? ==> op.owner != o
    ensures OwnerLeft(Step(w, op), pool, c, o) == OwnerLeft(w, pool, c, o)
  {
    hide StoreOk, ActiveOk, Conserved, Step, Allowed, RingOf, EffectiveWeight, Queue, QueuesAgree, Chosen;
    StepLimits(w, op, o);
    StoreQueues(w.ctl);
    HasWorkQueued(w.ctl, pool, c, o);
    if SelectsOn(op, pool) {
      SelectSpares(w, op, pool, c, o);
    } else if pool in w.ctl.pools {
      QuietOwnerWheel(w, op, pool, c);
    } else {
      PoolsFixed(w, op, pool);
    }
  }

  /** New quotas leave a turn alone if the weight stays, and start it over with the new weight if not. */
  lemma NewWeightStartsOver(w: World, pool: string, c: PriorityClass, o: string, limits: OwnerLimits)
    requires WorldOk(w) && InRing(w, pool, c, o)
    ensures var (w', weight) := (Step(w, OpSetLimits(o, limits)), if limits.weight > 0 then limits.weight else 1);
            OwnerLeft(w', pool, c, o) ==
            if weight == EffectiveWeight(w.ctl.limits, o) then OwnerLeft(w, pool, c, o) else weight
  {
    hide StoreOk, ActiveOk, Conserved, RingOf, RingOk, RingHomed, RefreshPool;
    RefreshRingOf(w.ctl.pools[pool], o, NormalizeLimits(limits).weight, c);
    StoreRing(w.ctl, pool, c);
  }

  lemma StartRested(configs: map<string, PoolConfig>, pool: string, c: PriorityClass, o: string)
    ensures OwnerRested(Start(configs), pool, c, o)
  {
  }

  /** Being served its last entry ends an owner's turn. */
  lemma LastEntryEndsTurn(w: World, op: Op, pool: string, c: PriorityClass, o: string)
    requires WorldOk(w) && SelectsOn(op, pool) && ReadyOwner(w, op, c, o) && ServesOwner(w, op, pool, c, o)
    requires !HasWork(Step(w, op), pool, c, o)
    ensures OwnerRested(Step(w, op), pool, c, o)
  {
    hide WorldOk, Step, ReadyOwner, Chosen, HasWork, RingOf, EffectiveWeight;
    SelectOwnerTurn(w, op, pool, c, o);
  }

  // ----- a selection in vain clears out idle owners

  ghost predicate Tidy(r: OwnerRing) {
    forall o :: o in r.wheel.items ==> |QueueOf(r, o)| > 0
  }

  /** After a scan in vain, an owner without work is one the scan did not come to. */
  lemma {:induction false} ScanTidies(r: OwnerRing, g: Gate, tries: nat, o: string)
    requires RingOk(r) && tries <= |r.wheel.items| && ScanOwners(r, g, tries).1.None?
    requires o in ScanOwners(r, g, tries).0.wheel.items
    ensures |QueueOf(r, o)| > 0 || o in Rotated(r.wheel)[tries..]
    decreases tries
  {
    hide VisitOwner, QueueOf;
    if tries == 0 {
      RotatedHasAll(r.wheel, o);
    } else {
      var v := VisitOwner(r, g).0;
      VisitKeeps(r, g);
      VisitRotates(r, g);
      ScanTidies(v, g, tries - 1, o);
      assert QueueOf(v, o) == QueueOf(r, o);
    }
  }

  lemma VisitRotates(r: OwnerRing, g: Gate)
    requires RingOk(r) && |r.wheel.items| > 0 && !VisitOwner(r, g).1.Hit?
    ensures var (v, k) := (VisitOwner(r, g).0, Current(Wrap(r.wheel)));
            && v.wheel.cursor <= |v.wheel.items|
            && (if |QueueOf(r, k)| == 0 then Rotated(v.wheel) == Rotated(r.wheel)[1..] else Rotated(v.wheel) == Rotated(r.wheel)[1..] + [k])
  {
    VisitForm(r, g);
    var u := ChargedOwner(r);
    RotatedMoves(r.wheel);
    assert Rotated(u) == Rotated(r.wheel) && WheelOk(u);
    RotatedMoves(u);
    hide VisitOwner, ChargedOwner, QueueOf, RingOk, Wrap, WheelOk;
  }

  lemma ScanLeavesTidy(r: OwnerRing, g: Gate)
    requires RingOk(r) && ScanOwners(r, g, |r.wheel.items|).1.None?
    ensures Tidy(ScanOwners(r, g, |r.wheel.items|).0)
  {
    hide QueueOf;
    var z := ScanOwners(r, g, |r.wheel.items|).0;
    ScanKeeps(r, g, |r.wheel.items|);
    forall o | o in z.wheel.items
      ensures |QueueOf(z, o)| > 0
    {
      ScanTidies(r, g, |r.wheel.items|, o);
      assert QueueOf(z, o) == QueueOf(r, o);
    }
  }

  /** A class in vain visited is left with busy owners only, and goes to the back. */
  lemma VisitClassTidies(p: Pool, g: Gate)
    requires PoolOk(p) && |p.wheel.items| > 0 && !VisitClass(p, g).1.Hit?
    ensures var (v, c) := (VisitClass(p, g).0, Current(Wrap(p.wheel)));
            && Tidy(RingOf(v, c)) && v.wheel.cursor <= |v.wheel.items|
            && (Rotated(v.wheel) == Rotated(p.wheel)[1..] || Rotated(v.wheel) == Rotated(p.wheel)[1..] + [c])
            && Rotated(p.wheel)[0] == c
  {
    hide VisitClass, ScanOwners, RingOk, RingHomed, Tidy, ChargedClass, WheelOk;
    VisitClassForm(p, g);
    var c := Current(Wrap(p.wheel));
    var r := RingOf(p, c);
    assert RingOk(r);
    if |r.wheel.items| == 0 {
      EmptyTidy(r);
    }
    if VisitClass(p, g).1.Blocked? {
      ScanLeavesTidy(r, g);
    }
    VisitClassRotates(p, g);
    ChargedRotates(p);
    RotatedMoves(SetCredit(ChargedClass(p), Current(ChargedClass(p)), 0));
  }

  lemma EmptyTidy(r: OwnerRing)
    requires |r.wheel.items| == 0
    ensures Tidy(r)
  {
  }

  lemma {:induction false} PickTidies(p: Pool, g: Gate, tries: nat, c: PriorityClass)
    requires PoolOk(p) && tries <= |p.wheel.items| && Pick(p, g, tries).1.None?
    requires c in Rotated(p.wheel)[..tries] || Tidy(RingOf(p, c))
    ensures Tidy(RingOf(Pick(p, g, tries).0, c))
    decreases tries
  {
    hide VisitClass, PoolOk, Tidy, RingOf, Rotated;
    if tries > 0 {
      var v := VisitClass(p, g).0;
      VisitClassKeeps(p, g);
      VisitClassTidies(p, g);
      VisitClassRing(p, g);
      PoolWheelOk(p);
      RotatedLength(p.wheel);
      RotatedLength(v.wheel);
      var k := Current(Wrap(p.wheel));
      if c != k && c in Rotated(p.wheel)[..tries] {
        assert Rotated(v.wheel)[..tries - 1] == Rotated(p.wheel)[1..tries];
        assert Rotated(p.wheel)[..tries] == [k] + Rotated(p.wheel)[1..tries];
      }
      PickTidies(v, g, tries - 1, c);
    }
  }

  lemma RotatedLength(w: Wheel<PriorityClass>)
    requires w.cursor <= |w.items|
    ensures |Rotated(w)| == |w.items|
  {
  }

  lemma PickAllTidy(p: Pool, g: Gate, c: PriorityClass)
    requires PoolOk(p) && PickNext(p, g).1.None?
    ensures Tidy(RingOf(PickNext(p, g).0, c))
  {
    hide Pick, RingOk, RingHomed, Tidy, Rotated;
    if c in p.wheel.items {
      RotatedHasAll(p.wheel, c);
      RotatedLength(p.wheel);
      assert Rotated(p.wheel)[..|p.wheel.items|] == Rotated(p.wheel);
    } else {
      EmptyTidy(RingOf(p, c));
    }
    PickTidies(p, g, |p.wheel.items|, c);
  }

  /** After a selection that finds nothing, only owners with waiting work are in rotation. */
  lemma IdleSelectionTidies(w: World, op: Op, pool: string, c: PriorityClass, o: string)
    requires WorldOk(w) && SelectsOn(op, pool) && Chosen(w, op).None? && InRing(Step(w, op), pool, c, o)
    ensures HasWork(Step(w, op), pool, c, o)
  {
    hide StoreOk, ActiveOk, Conserved, PoolOk, Select, Pick, RingOf, QueueOf, QueuesAgree, Forget, Activate;
    var s := w.ctl;
    if pool in s.pools {
      var g := GateOf(s, op.now, op.eligible);
      SelectForm(s, pool, op.now, op.eligible);
      StorePoolOk(s, pool);
      PickAllTidy(s.pools[pool], g, c);
      SelectStepOk(w, pool, op.now, op.eligible);
      StoreQueues(Step(w, op).ctl);
      HasWorkQueued(Step(w, op).ctl, pool, c, o);
    } else {
      SelectUnknown(s, pool, op.now, op.eligible);
    }
  }
}
