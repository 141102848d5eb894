/**
 Facts about one selection: what rotating the rings keeps, that the entry it
 names is the right one, that it finds one whenever there is one, and how far
 it moves the bounded-waiting budgets.
 */
module AdmissionSchedule {
  import opened Prelude
  import opened Wheels
  import opened AdmissionTypes
  import opened AdmissionModel

  // ----- well-formed rings and pools

  /** Owners with waiting work are in rotation, and nobody holds more credit than a quantum. */
  ghost predicate RingOk(r: OwnerRing) {
    && WheelOk(r.wheel)
    && (forall o :: |QueueOf(r, o)| > 0 ==> o in r.wheel.items)
    && (forall o :: Get(r.wheel.credit, o) <= OwnerQuantum(r, o))
  }

  /** Each entry sits in the queue of its own class and owner. */
  ghost predicate RingHomed(r: OwnerRing, c: PriorityClass) {
    forall o, i :: 0 <= i < |QueueOf(r, o)| ==> QueueOf(r, o)[i].spec.owner == o && ClassOf(QueueOf(r, o)[i].spec) == c
  }

  /** Only the class under the cursor holds unspent credit, and it has owners in rotation. */
  ghost predicate CreditAtCursor(p: Pool) {
    forall c :: Get(p.wheel.credit, c) > 0 ==>
      AtItem(p.wheel) && Current(p.wheel) == c && |RingOf(p, c).wheel.items| > 0
  }

  ghost predicate PoolOk(p: Pool) {
    && WheelOk(p.wheel)
    && (forall c :: RingOk(RingOf(p, c)) && RingHomed(RingOf(p, c), c))
    && (forall c :: |RingOf(p, c).wheel.items| > 0 ==> c in p.wheel.items)
    && (forall c :: Get(p.wheel.credit, c) <= ClassQuantum(c))
    && CreditAtCursor(p)
  }

  // ----- readiness

  ghost predicate OwnerReady(r: OwnerRing, g: Gate, o: string) {
    OwnerOpen(g, o) && exists i :: 0 <= i < |QueueOf(r, o)| && Runnable(g, QueueOf(r, o)[i])
  }

  ghost predicate ClassReady(p: Pool, g: Gate, c: PriorityClass) {
    exists o :: OwnerReady(RingOf(p, c), g, o)
  }

  // ----- one owner visit

  ghost predicate SameQueues(r: OwnerRing, r': OwnerRing) {
    forall o :: QueueOf(r', o) == QueueOf(r, o)
  }

  ghost predicate QuantaKept(r: OwnerRing, r': OwnerRing) {
    && (forall o :: o in r'.wheel.items ==> o in r.wheel.items)
    && (forall o :: o in r'.quantums ==> o in r.quantums && r'.quantums[o] == r.quantums[o])
    && (forall o :: o in r'.wheel.items && o in r.quantums ==> o in r'.quantums)
  }

  ghost predicate RingKept(r: OwnerRing, r': OwnerRing) {
    SameQueues(r, r') && QuantaKept(r, r')
  }

  /** The three shapes a visit can leave behind. */
  lemma VisitForm(r: OwnerRing, g: Gate)
    requires |r.wheel.items| > 0
    ensures var (v, u, k) := (VisitOwner(r, g).0, ChargedOwner(r), Current(Wrap(r.wheel)));
            && AtItem(u) && Current(u) == k && u.items == r.wheel.items
            && (VisitOwner(r, g).1.Vacant? ==>
                  |QueueOf(r, k)| == 0 && v == RetireOwner(r.(wheel := u)))
            && (VisitOwner(r, g).1.Blocked? ==>
                  |QueueOf(r, k)| > 0 && !OwnerReady(r, g, k) && v == r.(wheel := Advance(u)))
            && (VisitOwner(r, g).1.Hit? ==>
                  |QueueOf(r, k)| > 0 && v == r.(wheel := Serve(u, |QueueOf(r, k)| == 1)))
  {
  }

  lemma VisitSameQueues(r: OwnerRing, g: Gate)
    requires |r.wheel.items| > 0
    ensures SameQueues(r, VisitOwner(r, g).0)
  {
    VisitForm(r, g);
    hide VisitOwner, ChargedOwner, OwnerReady;
  }

  lemma VisitQuanta(r: OwnerRing, g: Gate)
    requires WheelOk(r.wheel) && |r.wheel.items| > 0
    ensures QuantaKept(r, VisitOwner(r, g).0) && WheelOk(VisitOwner(r, g).0.wheel)
    ensures forall o :: o in r.wheel.items && |QueueOf(r, o)| > 0 ==> o in VisitOwner(r, g).0.wheel.items
    ensures VisitOwner(r, g).1.Hit? ==> |VisitOwner(r, g).0.wheel.items| > 0
  {
    VisitForm(r, g);
    DropKeepsOk(ChargedOwner(r));
    hide VisitOwner, ChargedOwner, OwnerReady, QueueOf;
  }

  lemma VisitCredit(r: OwnerRing, g: Gate, k: string)
    requires |r.wheel.items| > 0 && Get(r.wheel.credit, k) <= OwnerQuantum(r, k)
    ensures Get(VisitOwner(r, g).0.wheel.credit, k) <= OwnerQuantum(VisitOwner(r, g).0, k)
  {
    VisitForm(r, g);
    hide VisitOwner, OwnerReady, QueueOf;
  }

  lemma VisitKeeps(r: OwnerRing, g: Gate)
    requires RingOk(r) && |r.wheel.items| > 0
    ensures RingOk(VisitOwner(r, g).0) && RingKept(r, VisitOwner(r, g).0)
    ensures VisitOwner(r, g).1.Hit? ==> |VisitOwner(r, g).0.wheel.items| > 0
  {
    hide VisitOwner;
    var v := VisitOwner(r, g).0;
    VisitSameQueues(r, g);
    VisitQuanta(r, g);
    forall k
      ensures Get(v.wheel.credit, k) <= OwnerQuantum(v, k)
    {
      VisitCredit(r, g, k);
    }
    forall o | |QueueOf(v, o)| > 0
      ensures o in v.wheel.items
    {
      assert QueueOf(v, o) == QueueOf(r, o);
    }
  }

  lemma KeptSelf(r: OwnerRing)
    ensures RingKept(r, r)
  {
  }

  lemma KeptTrans(r: OwnerRing, m: OwnerRing, z: OwnerRing)
    requires RingKept(r, m) && RingKept(m, z)
    ensures RingKept(r, z)
  {
    forall o
      ensures QueueOf(z, o) == QueueOf(r, o)
    {
      assert QueueOf(z, o) == QueueOf(m, o) == QueueOf(r, o);
    }
  }

  lemma {:induction false} ScanKeeps(r: OwnerRing, g: Gate, tries: nat)
    requires RingOk(r)
    ensures RingOk(ScanOwners(r, g, tries).0) && RingKept(r, ScanOwners(r, g, tries).0)
    ensures ScanOwners(r, g, tries).1.Some? ==> |ScanOwners(r, g, tries).0.wheel.items| > 0
    decreases tries
  {
    hide VisitOwner, RingOk, RingKept;
    KeptSelf(r);
    if tries > 0 && |r.wheel.items| > 0 {
      VisitKeeps(r, g);
      var (v, visit) := VisitOwner(r, g);
      if !visit.Hit? {
        ScanKeeps(v, g, tries - 1);
        KeptTrans(r, v, ScanOwners(v, g, tries - 1).0);
      }
    }
  }

  // ----- the owner level picks the right entry

  ghost predicate RightChoice(r: OwnerRing, g: Gate, e: Entry) {
    var q := QueueOf(r, e.spec.owner);
    && OwnerOpen(g, e.spec.owner)
    && FirstRunnable(g, q).Some?
    && q[FirstRunnable(g, q).value] == e
  }

  lemma HomedFrame(r: OwnerRing, r': OwnerRing, c: PriorityClass)
    requires RingHomed(r, c) && SameQueues(r, r')
    ensures RingHomed(r', c)
  {
    forall o, i | 0 <= i < |QueueOf(r', o)|
      ensures QueueOf(r', o)[i].spec.owner == o && ClassOf(QueueOf(r', o)[i].spec) == c
    {
      assert QueueOf(r', o) == QueueOf(r, o);
    }
  }

  lemma VisitChoice(r: OwnerRing, g: Gate, c: PriorityClass)
    requires |r.wheel.items| > 0 && RingHomed(r, c) && VisitOwner(r, g).1.Hit?
    ensures var e := VisitOwner(r, g).1.entry;
            e.spec.owner == Current(Wrap(r.wheel)) && ClassOf(e.spec) == c && RightChoice(r, g, e)
  {
    var o := Current(Wrap(r.wheel));
    var q := QueueOf(r, o);
  }

  lemma {:induction false} ScanChoice(r: OwnerRing, g: Gate, tries: nat, c: PriorityClass)
    requires RingOk(r) && RingHomed(r, c) && ScanOwners(r, g, tries).1.Some?
    ensures RightChoice(r, g, ScanOwners(r, g, tries).1.value) && ClassOf(ScanOwners(r, g, tries).1.value.spec) == c
    decreases tries
  {
    hide VisitOwner;
    VisitKeeps(r, g);
    var (v, visit) := VisitOwner(r, g);
    if visit.Hit? {
      VisitChoice(r, g, c);
    } else {
      HomedFrame(r, v, c);
      ScanChoice(v, g, tries - 1, c);
      var e := ScanOwners(v, g, tries - 1).1.value;
      assert QueueOf(v, e.spec.owner) == QueueOf(r, e.spec.owner);
    }
  }

  // ----- the owner level misses nobody

  lemma ReadyFrame(r: OwnerRing, r': OwnerRing, g: Gate, o: string)
    requires QueueOf(r', o) == QueueOf(r, o)
    ensures OwnerReady(r', g, o) == OwnerReady(r, g, o)
  {
  }

  lemma VisitMiss(r: OwnerRing, g: Gate)
    requires RingOk(r) && |r.wheel.items| > 0 && !VisitOwner(r, g).1.Hit?
    ensures !OwnerReady(r, g, Rotated(r.wheel)[0])
    ensures |VisitOwner(r, g).0.wheel.items| >= |r.wheel.items| - 1
    ensures VisitOwner(r, g).0.wheel.cursor <= |VisitOwner(r, g).0.wheel.items|
    ensures forall i :: 0 < i < |r.wheel.items| ==> Rotated(VisitOwner(r, g).0.wheel)[i - 1] == Rotated(r.wheel)[i]
  {
    VisitForm(r, g);
    var u := ChargedOwner(r);
    RotatedMoves(r.wheel);
    assert Rotated(u) == Rotated(r.wheel) && WheelOk(u);
    RotatedMoves(u);
    hide VisitOwner, ChargedOwner, QueueOf, RingOk, Wrap, WheelOk;
  }

  /** The next `tries` owners the cursor meets are all visited. */
  lemma {:induction false} ScanVisits(r: OwnerRing, g: Gate, tries: nat, i: nat)
    requires RingOk(r) && i < tries <= |r.wheel.items|
    requires ScanOwners(r, g, tries).1.None?
    ensures !OwnerReady(r, g, Rotated(r.wheel)[i])
    decreases tries
  {
    hide VisitOwner;
    VisitMiss(r, g);
    if i > 0 {
      VisitKeeps(r, g);
      var v := VisitOwner(r, g).0;
      ScanVisits(v, g, tries - 1, i - 1);
      ReadyFrame(r, v, g, Rotated(r.wheel)[i]);
    }
  }

  lemma ScanComplete(r: OwnerRing, g: Gate, o: string)
    requires RingOk(r) && ScanOwners(r, g, |r.wheel.items|).1.None?
    ensures !OwnerReady(r, g, o)
  {
    if o in r.wheel.items {
      RotatedHasAll(r.wheel, o);
      var i :| 0 <= i < |Rotated(r.wheel)| && Rotated(r.wheel)[i] == o;
      ScanVisits(r, g, |r.wheel.items|, i);
    }
  }

  // ----- the owner level's fairness step

  lemma VisitBudget(r: OwnerRing, g: Gate, c: PriorityClass, o: string, y: string, quantum: int)
    requires RingOk(r) && RingHomed(r, c) && OwnerReady(r, g, o) && y != o && quantum >= 1
    requires y in r.wheel.items ==> OwnerQuantum(r, y) == quantum
    requires |r.wheel.items| > 0
    requires VisitOwner(r, g).1.Hit? ==> VisitOwner(r, g).1.entry.spec.owner != o
    ensures o in r.wheel.items && o in VisitOwner(r, g).0.wheel.items
    ensures Budget(VisitOwner(r, g).0.wheel, o, y, quantum, false) <= Budget(r.wheel, o, y, quantum, false) -
            (if VisitOwner(r, g).1.Hit? && VisitOwner(r, g).1.entry.spec.owner == y then 1 else 0)
  {
    assert |QueueOf(r, o)| > 0;
    var w := Wrap(r.wheel);
    var k := Current(w);
    var u := ChargedOwner(r);
    var (v, visit) := VisitOwner(r, g);
    VisitForm(r, g);
    WrapBudget(r.wheel, o, y, quantum, false);
    RefillBudget(w, k, OwnerQuantum(r, k), o, y, quantum, false);
    assert WheelOk(u) && Get(u.credit, k) >= 1;
    hide VisitOwner, ChargedOwner, RingOk, Budget, OwnerQuantum;
    match visit
    case Vacant =>
      DropBudget(u, v.wheel, o, y, quantum, false);
    case Blocked =>
      PassBudget(u, v.wheel, o, y, quantum, false);
    case Hit(e) =>
      VisitChoice(r, g, c);
      ServeBudget(u, |QueueOf(r, k)| == 1, o, y, quantum, false);
  }

  /**
   While o is ready and some other owner is chosen, the budget of every third
   owner y against o does not grow, and shrinks when y is the one chosen.
   */
  lemma {:induction false} ScanBudget(r: OwnerRing, g: Gate, tries: nat, c: PriorityClass, o: string, y: string, quantum: int)
    requires RingOk(r) && RingHomed(r, c) && OwnerReady(r, g, o) && y != o && quantum >= 1
    requires y in r.wheel.items ==> OwnerQuantum(r, y) == quantum && y in r.quantums
    requires ScanOwners(r, g, tries).1.Some? && ScanOwners(r, g, tries).1.value.spec.owner != o
    ensures o in r.wheel.items && o in ScanOwners(r, g, tries).0.wheel.items
    ensures Budget(ScanOwners(r, g, tries).0.wheel, o, y, quantum, false) <=
            Budget(r.wheel, o, y, quantum, false) - (if ScanOwners(r, g, tries).1.value.spec.owner == y then 1 else 0)
    decreases tries
  {
    hide VisitOwner;
    VisitKeeps(r, g);
    VisitBudget(r, g, c, o, y, quantum);
    var (v, visit) := VisitOwner(r, g);
    if !visit.Hit? {
      HomedFrame(r, v, c);
      ReadyFrame(r, v, g, o);
      ScanBudget(v, g, tries - 1, c, o, y, quantum);
    }
  }

  // ----- one class visit

  ghost predicate PoolKept(p: Pool, p': Pool) {
    && (forall c :: RingKept(RingOf(p, c), RingOf(p', c)))
    && p'.totalWaiting == p.totalWaiting && p'.totalBytes == p.totalBytes && p'.config == p.config
  }

  lemma VisitClassForm(p: Pool, g: Gate)
    requires |p.wheel.items| > 0
    ensures var (v, w, c) := (VisitClass(p, g).0, ChargedClass(p), Current(Wrap(p.wheel)));
            var scan := ScanOwners(RingOf(p, c), g, |RingOf(p, c).wheel.items|);
            && AtItem(w) && Current(w) == c && w.items == p.wheel.items
            && (VisitClass(p, g).1.Vacant? ==>
                  |RingOf(p, c).wheel.items| == 0 && v == p.(wheel := DropCurrent(SetCredit(w, c, 0))))
            && (VisitClass(p, g).1.Blocked? ==>
                  scan.1.None? && v == p.(rings := p.rings[c := scan.0], wheel := Advance(SetCredit(w, c, 0))))
            && (VisitClass(p, g).1.Hit? ==>
                  scan.1 == Some(VisitClass(p, g).1.entry) && v == p.(rings := p.rings[c := scan.0], wheel := Serve(w, false)))
  {
    hide ScanOwners;
  }

  /** The class under the cursor keeps a well-formed ring; the other rings are untouched. */
  lemma VisitClassRing(p: Pool, g: Gate)
    requires PoolOk(p) && |p.wheel.items| > 0
    ensures var (p', c) := (VisitClass(p, g).0, Current(Wrap(p.wheel)));
            && (forall k :: k != c ==> RingOf(p', k) == RingOf(p, k))
            && RingOk(RingOf(p', c)) && RingHomed(RingOf(p', c), c) && RingKept(RingOf(p, c), RingOf(p', c))
            && (VisitClass(p, g).1.Hit? ==> |RingOf(p', c).wheel.items| > 0)
  {
    var c := Current(Wrap(p.wheel));
    var r := RingOf(p, c);
    assert RingOk(r) && RingHomed(r, c);
    ScanKeeps(r, g, |r.wheel.items|);
    HomedFrame(r, ScanOwners(r, g, |r.wheel.items|).0, c);
    KeptSelf(r);
    VisitClassForm(p, g);
    hide VisitClass, ScanOwners, ChargedClass, RingOk, RingHomed, RingKept, PoolOk;
  }

  lemma VisitClassWheel(p: Pool, g: Gate)
    requires PoolOk(p) && |p.wheel.items| > 0
    ensures var (p', c) := (VisitClass(p, g).0, Current(Wrap(p.wheel)));
            && WheelOk(p'.wheel)
            && (forall k :: k in p.wheel.items && k != c ==> k in p'.wheel.items)
            && (|RingOf(p', c).wheel.items| > 0 ==> c in p'.wheel.items)
            && (forall k :: Get(p'.wheel.credit, k) <= ClassQuantum(k))
            && (forall k :: Get(p'.wheel.credit, k) > 0 ==>
                  k == c && AtItem(p'.wheel) && Current(p'.wheel) == k && VisitClass(p, g).1.Hit?)
            && p'.totalWaiting == p.totalWaiting && p'.totalBytes == p.totalBytes && p'.config == p.config
  {
    hide VisitClass, ScanOwners, RingOk, RingHomed, ChargedClass, PoolOk;
    var w := ChargedClass(p);
    VisitClassForm(p, g);
    ChargedClassItems(p);
    ChargedClassCredit(p);
    DropKeepsOk(w);
  }

  lemma ChargedClassItems(p: Pool)
    requires |p.wheel.items| > 0
    ensures ChargedClass(p).items == p.wheel.items && ChargedClass(p).cursor == Wrap(p.wheel).cursor
  {
  }

  lemma ChargedClassCredit(p: Pool)
    requires PoolOk(p) && |p.wheel.items| > 0
    ensures WheelOk(ChargedClass(p)) && AtItem(ChargedClass(p))
    ensures Get(ChargedClass(p).credit, Current(Wrap(p.wheel))) >= 1
    ensures forall k :: Get(ChargedClass(p).credit, k) <= ClassQuantum(k)
    ensures forall k :: Get(ChargedClass(p).credit, k) > 0 ==> k == Current(Wrap(p.wheel))
    ensures |RingOf(p, Current(Wrap(p.wheel))).wheel.items| == 0 ==> Get(p.wheel.credit, Current(Wrap(p.wheel))) <= 0
  {
    hide RingOk, RingHomed;
  }

  lemma VisitClassKeeps(p: Pool, g: Gate)
    requires PoolOk(p) && |p.wheel.items| > 0
    ensures PoolOk(VisitClass(p, g).0) && PoolKept(p, VisitClass(p, g).0)
  {
    hide VisitClass, RingOk, RingHomed;
    var (p', visit) := VisitClass(p, g);
    VisitClassRing(p, g);
    VisitClassWheel(p, g);
    forall k
      ensures RingOk(RingOf(p', k)) && RingHomed(RingOf(p', k), k) && RingKept(RingOf(p, k), RingOf(p', k))
      ensures |RingOf(p', k).wheel.items| > 0 ==> k in p'.wheel.items
    {
      assert RingOk(RingOf(p, k)) && RingHomed(RingOf(p, k), k);
      KeptSelf(RingOf(p, k));
    }
  }

  lemma PoolKeptSelf(p: Pool)
    ensures PoolKept(p, p)
  {
  }

  lemma PoolKeptTrans(p: Pool, m: Pool, z: Pool)
    requires PoolKept(p, m) && PoolKept(m, z)
    ensures PoolKept(p, z)
  {
    forall c
      ensures RingKept(RingOf(p, c), RingOf(z, c))
    {
      KeptTrans(RingOf(p, c), RingOf(m, c), RingOf(z, c));
    }
  }

  lemma {:induction false} PickKeeps(p: Pool, g: Gate, tries: nat)
    requires PoolOk(p)
    ensures PoolOk(Pick(p, g, tries).0) && PoolKept(p, Pick(p, g, tries).0)
    decreases tries
  {
    hide VisitClass, PoolOk, PoolKept;
    PoolKeptSelf(p);
    if tries > 0 && |p.wheel.items| > 0 {
      VisitClassKeeps(p, g);
      var (v, visit) := VisitClass(p, g);
      if !visit.Hit? {
        PickKeeps(v, g, tries - 1);
        PoolKeptTrans(p, v, Pick(v, g, tries - 1).0);
      }
    }
  }

  // ----- the class level picks the right entry and misses nobody

  lemma ClassReadyFrame(p: Pool, p': Pool, g: Gate, c: PriorityClass)
    requires SameQueues(RingOf(p, c), RingOf(p', c))
    ensures ClassReady(p', g, c) == ClassReady(p, g, c)
  {
    assert forall o :: QueueOf(RingOf(p', c), o) == QueueOf(RingOf(p, c), o);
    assert forall o :: OwnerReady(RingOf(p', c), g, o) == OwnerReady(RingOf(p, c), g, o);
  }

  lemma VisitClassHit(p: Pool, g: Gate)
    requires PoolOk(p) && |p.wheel.items| > 0 && VisitClass(p, g).1.Hit?
    ensures var (e, c) := (VisitClass(p, g).1.entry, Current(Wrap(p.wheel)));
            && ClassOf(e.spec) == c && RightChoice(RingOf(p, c), g, e)
            && (RingOf(VisitClass(p, g).0, c), Some(e)) == ScanOwners(RingOf(p, c), g, |RingOf(p, c).wheel.items|)
  {
    var c := Current(Wrap(p.wheel));
    var r := RingOf(p, c);
    assert RingOk(r) && RingHomed(r, c);
    VisitClassForm(p, g);
    hide VisitClass, ScanOwners, RingOk, RingHomed;
    ScanChoice(r, g, |r.wheel.items|, c);
  }

  lemma VisitClassMiss(p: Pool, g: Gate)
    requires PoolOk(p) && |p.wheel.items| > 0 && !VisitClass(p, g).1.Hit?
    ensures !ClassReady(p, g, Current(Wrap(p.wheel)))
  {
    var c := Current(Wrap(p.wheel));
    var r := RingOf(p, c);
    assert RingOk(r);
    VisitClassForm(p, g);
    hide VisitClass, ScanOwners;
    if |r.wheel.items| == 0 {
      assert forall o :: |QueueOf(r, o)| == 0;
    } else {
      forall o
        ensures !OwnerReady(r, g, o)
      {
        ScanComplete(r, g, o);
      }
    }
  }

  lemma {:induction false} PickChoice(p: Pool, g: Gate, tries: nat)
    requires PoolOk(p) && Pick(p, g, tries).1.Some?
    ensures var e := Pick(p, g, tries).1.value; RightChoice(RingOf(p, ClassOf(e.spec)), g, e)
    decreases tries
  {
    hide VisitClass;
    VisitClassKeeps(p, g);
    var (v, visit) := VisitClass(p, g);
    if visit.Hit? {
      VisitClassHit(p, g);
    } else {
      PickChoice(v, g, tries - 1);
      var e := Pick(v, g, tries - 1).1.value;
      assert RingKept(RingOf(p, ClassOf(e.spec)), RingOf(v, ClassOf(e.spec)));
      assert QueueOf(RingOf(v, ClassOf(e.spec)), e.spec.owner) == QueueOf(RingOf(p, ClassOf(e.spec)), e.spec.owner);
    }
  }

  lemma VisitClassRotates(p: Pool, g: Gate)
    requires PoolOk(p) && |p.wheel.items| > 0 && !VisitClass(p, g).1.Hit?
    ensures Rotated(p.wheel)[0] == Current(Wrap(p.wheel))
    ensures VisitClass(p, g).0.wheel.cursor <= |VisitClass(p, g).0.wheel.items|
    ensures |p.wheel.items| - 1 <= |VisitClass(p, g).0.wheel.items|
    ensures forall i :: 0 < i < |p.wheel.items| ==> Rotated(VisitClass(p, g).0.wheel)[i - 1] == Rotated(p.wheel)[i]
  {
    hide VisitClass, ScanOwners, PoolOk, ChargedClass, Wrap, WheelOk, RingOf;
    VisitClassForm(p, g);
    var w := ChargedClass(p);
    ChargedRotates(p);
    RotatedMoves(SetCredit(w, Current(w), 0));
  }

  lemma ChargedRotates(p: Pool)
    requires PoolOk(p) && |p.wheel.items| > 0
    ensures var w := ChargedClass(p);
            WheelOk(SetCredit(w, Current(w), 0)) && Rotated(w) == Rotated(p.wheel) && AtItem(w) && w.cursor < |w.items|
  {
    hide RingOk, RingHomed, RingOf;
    RotatedMoves(p.wheel);
  }

  lemma {:induction false} PickVisits(p: Pool, g: Gate, tries: nat, i: nat)
    requires PoolOk(p) && i < tries <= |p.wheel.items|
    requires Pick(p, g, tries).1.None?
    ensures !ClassReady(p, g, Rotated(p.wheel)[i])
    decreases tries
  {
    hide VisitClass;
    VisitClassKeeps(p, g);
    VisitClassRotates(p, g);
    var v := VisitClass(p, g).0;
    if i == 0 {
      VisitClassMiss(p, g);
    } else {
      PickVisits(v, g, tries - 1, i - 1);
      var c := Rotated(p.wheel)[i];
      assert RingKept(RingOf(p, c), RingOf(v, c));
      ClassReadyFrame(p, v, g, c);
    }
  }

  /** Work conservation inside a pool: no candidate means no class has a dispatchable entry. */
  lemma PickComplete(p: Pool, g: Gate, c: PriorityClass)
    requires PoolOk(p) && PickNext(p, g).1.None?
    ensures !ClassReady(p, g, c)
  {
    if c in p.wheel.items {
      RotatedHasAll(p.wheel, c);
      var i :| 0 <= i < |Rotated(p.wheel)| && Rotated(p.wheel)[i] == c;
      PickVisits(p, g, |p.wheel.items|, i);
    } else if ClassReady(p, g, c) {
      ReadyIsActive(p, g, c);
    }
  }

  lemma ReadyIsActive(p: Pool, g: Gate, c: PriorityClass)
    requires PoolOk(p) && ClassReady(p, g, c)
    ensures c in p.wheel.items && |RingOf(p, c).wheel.items| > 0
  {
    var o :| OwnerReady(RingOf(p, c), g, o);
    assert |QueueOf(RingOf(p, c), o)| > 0;
    assert RingOk(RingOf(p, c));
  }

  // ----- the class level's fairness step

  lemma ChargedClassBudget(p: Pool, c: PriorityClass, x: PriorityClass)
    requires PoolOk(p) && c in p.wheel.items && x != c
    ensures Budget(ChargedClass(p), c, x, ClassQuantum(x), true) <= Budget(p.wheel, c, x, ClassQuantum(x), true)
    ensures var k := Current(Wrap(p.wheel));
            |RingOf(p, k).wheel.items| == 0 ==> Avail(ChargedClass(p), k, ClassQuantum(k)) == ClassQuantum(k)
  {
    hide RingOk, RingHomed, Budget;
    var w := Wrap(p.wheel);
    WrapBudget(p.wheel, c, x, ClassQuantum(x), true);
    RefillBudget(w, Current(w), ClassQuantum(Current(w)), c, x, ClassQuantum(x), true);
    ChargedClassCredit(p);
  }

  lemma VisitClassBudget(p: Pool, g: Gate, c: PriorityClass, x: PriorityClass)
    requires PoolOk(p) && ClassReady(p, g, c) && x != c && |p.wheel.items| > 0
    requires VisitClass(p, g).1.Hit? ==> ClassOf(VisitClass(p, g).1.entry.spec) != c
    ensures c in p.wheel.items && c in VisitClass(p, g).0.wheel.items
    ensures Budget(VisitClass(p, g).0.wheel, c, x, ClassQuantum(x), true) <=
            Budget(p.wheel, c, x, ClassQuantum(x), true) -
            (if VisitClass(p, g).1.Hit? && ClassOf(VisitClass(p, g).1.entry.spec) == x then 1 else 0)
  {
    hide VisitClass, ScanOwners, RingOk, RingHomed, ClassReady, PoolOk, ChargedClass, Budget;
    ReadyIsActive(p, g, c);
    var w := ChargedClass(p);
    var quantum := ClassQuantum(x);
    var (v, visit) := VisitClass(p, g);
    ChargedClassItems(p);
    ChargedClassBudget(p, c, x);
    VisitClassForm(p, g);
    ChargedClassCredit(p);
    match visit
    case Vacant =>
      DropBudget(w, v.wheel, c, x, quantum, true);
    case Blocked =>
      VisitClassMiss(p, g);
      PassBudget(w, v.wheel, c, x, quantum, true);
    case Hit(e) =>
      VisitClassHit(p, g);
      ServeBudget(w, false, c, x, quantum, true);
  }

  lemma {:induction false} PickBudget(p: Pool, g: Gate, tries: nat, c: PriorityClass, x: PriorityClass)
    requires PoolOk(p) && ClassReady(p, g, c) && x != c
    requires Pick(p, g, tries).1.Some? && ClassOf(Pick(p, g, tries).1.value.spec) != c
    ensures c in p.wheel.items && c in Pick(p, g, tries).0.wheel.items
    ensures Budget(Pick(p, g, tries).0.wheel, c, x, ClassQuantum(x), true) <=
            Budget(p.wheel, c, x, ClassQuantum(x), true) -
            (if ClassOf(Pick(p, g, tries).1.value.spec) == x then 1 else 0)
    decreases tries
  {
    hide VisitClass, RingOk, RingHomed, Budget, ClassReady;
    VisitClassKeeps(p, g);
    VisitClassBudget(p, g, c, x);
    var (v, visit) := VisitClass(p, g);
    if !visit.Hit? {
      assert RingKept(RingOf(p, c), RingOf(v, c));
      ClassReadyFrame(p, v, g, c);
      PickBudget(v, g, tries - 1, c, x);
    }
  }

  /** A selection touches the ring of a ready class only by one successful scan of it. */
  lemma {:induction false} PickRing(p: Pool, g: Gate, tries: nat, c: PriorityClass)
    requires PoolOk(p) && ClassReady(p, g, c) && Pick(p, g, tries).1.Some?
    ensures if ClassOf(Pick(p, g, tries).1.value.spec) == c
            then (RingOf(Pick(p, g, tries).0, c), Pick(p, g, tries).1) ==
                 ScanOwners(RingOf(p, c), g, |RingOf(p, c).wheel.items|)
            else RingOf(Pick(p, g, tries).0, c) == RingOf(p, c)
    decreases tries
  {
    hide VisitClass, ScanOwners, RingOk, RingHomed, ClassReady;
    VisitClassKeeps(p, g);
    VisitClassRing(p, g);
    var (v, visit) := VisitClass(p, g);
    if visit.Hit? {
      VisitClassHit(p, g);
    } else {
      VisitClassMiss(p, g);
      assert RingOf(v, c) == RingOf(p, c);
      ClassReadyFrame(p, v, g, c);
      PickRing(v, g, tries - 1, c);
    }
  }
}
