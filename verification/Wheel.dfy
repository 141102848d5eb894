/**
 The rotating list with credits that both scheduling levels of the admission
 controller use: active classes of a pool, and active owners of a class.
 A visit refills the current item's credit, then drops the item, passes over
 it, or serves it and spends one unit of credit.

 `Budget` is the number of times x can still be served before c's next turn.
 The lemmas say that no step raises it while c is not the current item, and
 that serving x lowers it; the bounded-waiting theorems follow.
 */
module Wheels {
  import opened Prelude

  datatype Wheel<K> = Wheel(items: seq<K>, cursor: nat, credit: map<K, int>)

  ghost predicate WheelOk<K>(w: Wheel<K>) {
    Distinct(w.items) && w.cursor <= |w.items|
  }

  function Wrap<K>(w: Wheel<K>): Wheel<K> {
    if w.cursor >= |w.items| then w.(cursor := 0) else w
  }

  predicate AtItem<K>(w: Wheel<K>) {
    w.cursor < |w.items|
  }

  function Current<K>(w: Wheel<K>): K
    requires AtItem(w)
  {
    w.items[w.cursor]
  }

  function SetCredit<K>(w: Wheel<K>, k: K, v: int): Wheel<K> {
    w.(credit := w.credit[k := v])
  }

  function Refill<K>(w: Wheel<K>, k: K, quantum: int): Wheel<K> {
    if Get(w.credit, k) <= 0 then SetCredit(w, k, quantum) else w
  }

  function Advance<K>(w: Wheel<K>): Wheel<K> {
    w.(cursor := w.cursor + 1)
  }

  function DropCurrent<K>(w: Wheel<K>): Wheel<K>
    requires AtItem(w)
  {
    w.(items := Without(w.items, w.cursor))
  }

  /** Spend one credit; move on when none is left or when told to leave. */
  function Serve<K>(w: Wheel<K>, leave: bool): Wheel<K>
    requires AtItem(w)
  {
    var k := Current(w);
    var left := Get(w.credit, k) - 1;
    if left <= 0 || leave then Advance(SetCredit(w, k, 0)) else SetCredit(w, k, left)
  }

  function Join<K(==)>(w: Wheel<K>, k: K): Wheel<K> {
    if k in w.items then w else w.(items := w.items + [k])
  }

  /** The items in the order the cursor will meet them. */
  function Rotated<K>(w: Wheel<K>): seq<K>
    requires w.cursor <= |w.items|
  {
    w.items[w.cursor..] + w.items[..w.cursor]
  }

  lemma RotatedMoves<K>(w: Wheel<K>)
    requires WheelOk(w)
    ensures Rotated(Wrap(w)) == Rotated(w)
    ensures AtItem(w) ==> Rotated(w) == [Current(w)] + Rotated(w)[1..]
    ensures AtItem(w) ==> Rotated(Advance(w)) == Rotated(w)[1..] + [Current(w)]
    ensures AtItem(w) ==> Rotated(DropCurrent(w)) == Rotated(w)[1..]
  {
  }

  lemma RotatedHasAll<K>(w: Wheel<K>, x: K)
    requires WheelOk(w) && x in w.items
    ensures x in Rotated(w)
  {
    assert w.items == w.items[..w.cursor] + w.items[w.cursor..];
  }

  lemma DropKeepsOk<K>(w: Wheel<K>)
    requires WheelOk(w) && AtItem(w)
    ensures WheelOk(DropCurrent(w))
    ensures forall x :: x in DropCurrent(w).items <==> x in w.items && x != Current(w)
  {
    WithoutMembers(w.items, w.cursor);
  }

  // ----- the potential argument

  /** What x may still spend at its next visit. */
  ghost function Avail<K>(w: Wheel<K>, x: K, quantum: int): int {
    if Get(w.credit, x) > 0 then Get(w.credit, x) else quantum
  }

  /**
   The cursor reaches x before c.  An absent x is ahead of c when it may still
   join (`joins`) and would be appended before c's turn.
   */
  ghost predicate Ahead<K>(w: Wheel<K>, c: K, x: K, joins: bool)
    requires c in w.items
  {
    var ic := IndexOf(w.items, c);
    if x !in w.items then joins && ic < w.cursor
    else
      var ix := IndexOf(w.items, x);
      if w.cursor <= ic then w.cursor <= ix < ic else ix < ic || w.cursor <= ix
  }

  ghost function Budget<K>(w: Wheel<K>, c: K, x: K, quantum: int, joins: bool): int
    requires c in w.items
  {
    if Ahead(w, c, x, joins) then Avail(w, x, quantum) else 0
  }

  lemma IndexUnique<K>(s: seq<K>, i: nat)
    requires Distinct(s) && i < |s|
    ensures IndexOf(s, s[i]) == i
  {
  }

  lemma WrapBudget<K>(w: Wheel<K>, c: K, x: K, quantum: int, joins: bool)
    requires c in w.items && quantum >= 0
    ensures Budget(Wrap(w), c, x, quantum, joins) <= Budget(w, c, x, quantum, joins)
  {
  }

  lemma RefillBudget<K>(w: Wheel<K>, k: K, qk: int, c: K, x: K, quantum: int, joins: bool)
    requires c in w.items && (k == x ==> qk == quantum)
    ensures Budget(Refill(w, k, qk), c, x, quantum, joins) == Budget(w, c, x, quantum, joins)
  {
  }

  /** Passing over the current item, whatever becomes of its credit. */
  lemma PassBudget<K>(w: Wheel<K>, v: Wheel<K>, c: K, x: K, quantum: int, joins: bool)
    requires WheelOk(w) && AtItem(w) && c in w.items && Current(w) != c && x != c && quantum >= 0
    requires v.items == w.items && v.cursor == w.cursor + 1
    requires x != Current(w) ==> Get(v.credit, x) == Get(w.credit, x)
    ensures Budget(v, c, x, quantum, joins) <= Budget(w, c, x, quantum, joins)
    ensures x == Current(w) ==> Budget(v, c, x, quantum, joins) == 0
    ensures x == Current(w) ==> Budget(w, c, x, quantum, joins) == Avail(w, x, quantum)
  {
    IndexUnique(w.items, w.cursor);
  }

  lemma IndexAfterDrop<K>(w: Wheel<K>, x: K)
    requires WheelOk(w) && AtItem(w) && x in w.items && x != Current(w)
    ensures x in DropCurrent(w).items
    ensures IndexOf(DropCurrent(w).items, x) ==
            if IndexOf(w.items, x) < w.cursor then IndexOf(w.items, x) else IndexOf(w.items, x) - 1
  {
    DropKeepsOk(w);
    var i := IndexOf(w.items, x);
    IndexUnique(DropCurrent(w).items, if i < w.cursor then i else i - 1);
  }

  /** Dropping the current item; if it may join again it must not gain credit by that. */
  lemma DropBudget<K>(w: Wheel<K>, v: Wheel<K>, c: K, x: K, quantum: int, joins: bool)
    requires WheelOk(w) && AtItem(w) && c in w.items && Current(w) != c && x != c && quantum >= 0
    requires v.items == DropCurrent(w).items && v.cursor == w.cursor
    requires x != Current(w) ==> Get(v.credit, x) == Get(w.credit, x)
    requires joins && x == Current(w) ==> Avail(v, x, quantum) <= Avail(w, x, quantum)
    ensures c in v.items
    ensures Budget(v, c, x, quantum, joins) <= Budget(w, c, x, quantum, joins)
  {
    DropKeepsOk(w);
    IndexUnique(w.items, w.cursor);
    IndexAfterDrop(w, c);
    if x in w.items && x != Current(w) {
      IndexAfterDrop(w, x);
    }
  }

  lemma ServeBudget<K>(w: Wheel<K>, leave: bool, c: K, x: K, quantum: int, joins: bool)
    requires WheelOk(w) && AtItem(w) && c in w.items && Current(w) != c && x != c && quantum >= 0
    requires Get(w.credit, Current(w)) >= 1
    ensures Budget(Serve(w, leave), c, x, quantum, joins) <=
            Budget(w, c, x, quantum, joins) - (if x == Current(w) then 1 else 0)
  {
    IndexUnique(w.items, w.cursor);
    PassBudget(w, Advance(SetCredit(w, Current(w), 0)), c, x, quantum, joins);
  }

  lemma JoinBudget<K>(w: Wheel<K>, k: K, c: K, x: K, quantum: int, joins: bool)
    requires WheelOk(w) && c in w.items && x != c && quantum >= 0
    requires joins || x != k || k in w.items
    ensures c in Join(w, k).items && WheelOk(Join(w, k))
    ensures Budget(Join(w, k), c, x, quantum, joins) <= Budget(w, c, x, quantum, joins)
  {
    var j := Join(w, k);
    IndexUnique(j.items, IndexOf(w.items, c));
    if x in w.items {
      IndexUnique(j.items, IndexOf(w.items, x));
    } else if x in j.items {
      IndexUnique(j.items, |w.items|);
    }
  }

  // ----- turns

  /** k is in its turn with `left` services to go: it is the current item, or has just been passed when none is left. */
  ghost predicate InTurn<K>(w: Wheel<K>, k: K, left: int) {
    if left > 0 then AtItem(w) && Current(w) == k && Get(w.credit, k) == left
    else k in w.items && w.cursor == IndexOf(w.items, k) + 1 && Get(w.credit, k) <= 0
  }

  lemma ServeTurn<K>(w: Wheel<K>, leave: bool)
    requires WheelOk(w) && AtItem(w) && Get(w.credit, Current(w)) >= 1
    ensures InTurn(Serve(w, leave), Current(w), if leave then 0 else Get(w.credit, Current(w)) - 1)
  {
    IndexUnique(w.items, w.cursor);
  }

  lemma JoinTurn<K>(w: Wheel<K>, j: K, k: K, left: int)
    requires WheelOk(w) && InTurn(w, k, left)
    ensures InTurn(Join(w, j), k, left)
  {
    if left <= 0 && j !in w.items {
      var v := Join(w, j);
      assert v.items[IndexOf(w.items, k)] == k;
      assert Distinct(v.items);
      IndexUnique(v.items, IndexOf(w.items, k));
    }
  }

  /** Once its turn is over, an item has nothing to spend before any other item's turn. */
  lemma PassedBudget<K>(w: Wheel<K>, k: K, c: K, quantum: int, joins: bool)
    requires WheelOk(w) && InTurn(w, k, 0) && c in w.items && c != k
    ensures Budget(w, c, k, quantum, joins) == 0
  {
  }
}
