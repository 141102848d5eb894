/**
 The indexed binary min-heap behind both the admission deadline index and the
 interaction expiry queue.  Each item remembers its own place in the heap; here
 those back pointers live in the map `pos`.  Sift-up and sift-down follow Go's
 container/heap, which both callers use.
 */
module IndexedHeaps {
  import opened Prelude

  datatype Item = Item(id: string, due: Time)

  function Parent(i: nat): nat
    requires 0 < i
  {
    (i - 1) / 2
  }

  ghost predicate EdgeOk(h: seq<Item>, i: nat)
    requires 0 < i < |h|
  {
    h[Parent(i)].due <= h[i].due
  }

  ghost predicate Ordered(h: seq<Item>, n: nat)
    requires n <= |h|
  {
    forall i :: 0 < i < n ==> EdgeOk(h, i)
  }

  /** Only the edge above j may be out of order. */
  ghost predicate OrderedButAbove(h: seq<Item>, n: nat, j: nat)
    requires n <= |h|
  {
    forall i :: 0 < i < n && i != j ==> EdgeOk(h, i)
  }

  /** Only the edges just below j may be out of order. */
  ghost predicate OrderedButBelow(h: seq<Item>, n: nat, j: nat)
    requires n <= |h|
  {
    forall i :: 0 < i < n && Parent(i) != j ==> EdgeOk(h, i)
  }

  /** Only edges touching j may be out of order. */
  ghost predicate OrderedButAt(h: seq<Item>, n: nat, j: nat)
    requires n <= |h|
  {
    forall i :: 0 < i < n && i != j && Parent(i) != j ==> EdgeOk(h, i)
  }

  /** The parent of j is no later than the children of j. */
  ghost predicate Bridged(h: seq<Item>, n: nat, j: nat)
    requires n <= |h|
  {
    forall i :: 0 < j && 0 < i < n && Parent(i) == j ==> h[Parent(j)].due <= h[i].due
  }

  lemma {:induction false} RootIsEarliest(h: seq<Item>, n: nat, i: nat)
    requires i < n <= |h| && Ordered(h, n)
    ensures h[0].due <= h[i].due
  {
    if i > 0 {
      RootIsEarliest(h, n, Parent(i));
      assert EdgeOk(h, i);
    }
  }

  function Swapped(h: seq<Item>, i: nat, j: nat): seq<Item>
    requires i < |h| && j < |h|
  {
    h[i := h[j]][j := h[i]]
  }

  lemma SiftUpStep(h: seq<Item>, n: nat, j: nat)
    requires 0 < j < n <= |h|
    requires OrderedButAbove(h, n, j) && Bridged(h, n, j)
    requires h[j].due < h[Parent(j)].due
    ensures OrderedButAbove(Swapped(h, Parent(j), j), n, Parent(j))
    ensures Bridged(Swapped(h, Parent(j), j), n, Parent(j))
  {
    var i := Parent(j);
    var g := Swapped(h, i, j);
    forall k | 0 < k < n && k != i
      ensures EdgeOk(g, k)
    {
      if k != j { assert EdgeOk(h, k); }
    }
    forall k | 0 < i && 0 < k < n && Parent(k) == i
      ensures g[Parent(i)].due <= g[k].due
    {
      assert EdgeOk(h, i);
      if k != j { assert EdgeOk(h, k); }
    }
  }

  /** j is a child of i no later than its sibling. */
  ghost predicate EarlierChild(h: seq<Item>, n: nat, i: nat, j: nat)
    requires n <= |h|
  {
    0 < j < n && Parent(j) == i && forall k :: 0 < k < n && Parent(k) == i ==> h[j].due <= h[k].due
  }

  /** The child of i that sift-down compares with i. */
  function EarlierOf(h: seq<Item>, n: nat, i: nat): (j: nat)
    requires 2 * i + 1 < n <= |h|
    ensures EarlierChild(h, n, i, j)
  {
    var left := 2 * i + 1;
    if left + 1 < n && h[left + 1].due < h[left].due then left + 1 else left
  }

  lemma SiftDownStep(h: seq<Item>, n: nat, i: nat, j: nat)
    requires n <= |h| && EarlierChild(h, n, i, j)
    requires OrderedButAt(h, n, i) && Bridged(h, n, i)
    requires h[j].due < h[i].due
    ensures OrderedButBelow(Swapped(h, i, j), n, j)
    ensures Bridged(Swapped(h, i, j), n, j)
  {
    var g := Swapped(h, i, j);
    forall k | 0 < k < n && Parent(k) != j
      ensures EdgeOk(g, k)
    {
      if k != i && Parent(k) != i { assert EdgeOk(h, k); }
    }
    forall k | 0 < k < n && Parent(k) == j
      ensures g[Parent(j)].due <= g[k].due
    {
      assert EdgeOk(h, k);
    }
  }

  /** Overwriting one slot of an ordered heap can only disturb the edges touching it. */
  lemma OverwriteAt(h: seq<Item>, n: nat, i: nat, x: Item)
    requires i < n <= |h| && Ordered(h, n)
    ensures OrderedButAt(h[i := x], n, i) && Bridged(h[i := x], n, i)
  {
    var g := h[i := x];
    forall k | 0 < k < n && k != i && Parent(k) != i
      ensures EdgeOk(g, k)
    {
      assert EdgeOk(h, k);
    }
    forall k | 0 < i && 0 < k < n && Parent(k) == i
      ensures g[Parent(i)].due <= g[k].due
    {
      assert EdgeOk(h, i) && EdgeOk(h, k);
    }
  }

  /** Swapping slot i with the last slot leaves the others in order, save for edges touching i. */
  lemma OrderedInit(h: seq<Item>)
    requires |h| > 0 && Ordered(h, |h|)
    ensures Ordered(h, |h| - 1)
  {
  }

  lemma SwapOutLast(h: seq<Item>, i: nat)
    requires i < |h| - 1 && Ordered(h, |h|)
    ensures OrderedButAt(Swapped(h, i, |h| - 1), |h| - 1, i) && Bridged(Swapped(h, i, |h| - 1), |h| - 1, i)
  {
    var n := |h| - 1;
    var g := Swapped(h, i, n);
    forall k | 0 < k < n && k != i && Parent(k) != i
      ensures EdgeOk(g, k)
    {
      assert EdgeOk(h, k);
    }
    forall k | 0 < i && 0 < k < n && Parent(k) == i
      ensures g[Parent(i)].due <= g[k].due
    {
      assert EdgeOk(h, i) && EdgeOk(h, k);
    }
  }

  /** `expired` lists, in order, exactly the items that left `before` to give `after`; all were due. */
  ghost predicate Popped(before: map<string, Time>, after: map<string, Time>, expired: seq<Item>, now: Time) {
    && (forall id :: id in after ==> id in before && after[id] == before[id])
    && (forall id :: id in before && id !in after ==> Item(id, before[id]) in expired)
    && (forall i :: 0 <= i < |expired| ==>
          expired[i].id in before && expired[i].id !in after && before[expired[i].id] == expired[i].due <= now)
    && (forall i, j :: 0 <= i < j < |expired| ==> expired[i].due <= expired[j].due && expired[i].id != expired[j].id)
    && (forall i, id :: 0 <= i < |expired| && id in after ==> expired[i].due <= after[id])
  }

  lemma PoppedStep(before: map<string, Time>, after: map<string, Time>, expired: seq<Item>, item: Item, now: Time)
    requires Popped(before, after, expired, now)
    requires item.id in after && after[item.id] == item.due <= now
    requires forall id :: id in after ==> item.due <= after[id]
    ensures Popped(before, after - {item.id}, expired + [item], now)
  {
    forall id | id in before && id !in after - {item.id}
      ensures Item(id, before[id]) in expired + [item]
    {
      if id != item.id { assert Item(id, before[id]) in expired; }
    }
  }

  class IndexedHeap {
    var h: seq<Item>
    var pos: map<string, nat>
    ghost var contents: map<string, Time>

    /** Heap slots, back pointers and the abstract contents describe the same items. */
    ghost predicate Placed()
      reads this
    {
      && pos.Keys == contents.Keys
      && (forall i :: 0 <= i < |h| ==> h[i].id in pos && pos[h[i].id] == i && contents[h[i].id] == h[i].due)
      && (forall id :: id in pos ==> pos[id] < |h| && h[pos[id]].id == id)
    }

    ghost predicate Valid()
      reads this
    {
      Placed() && Ordered(h, |h|)
    }

    constructor ()
      ensures Valid() && contents == map[]
    {
      h, pos, contents := [], map[], map[];
    }

    method Swap(i: nat, j: nat)
      requires Placed() && i < |h| && j < |h|
      modifies this
      ensures Placed() && contents == old(contents)
      ensures h == old(h)[i := old(h)[j]][j := old(h)[i]]
    {
      h := h[i := h[j]][j := h[i]];
      pos := pos[h[i].id := i][h[j].id := j];
    }

    method Up(j0: nat, n: nat)
      requires Placed() && j0 < n <= |h|
      requires OrderedButAbove(h, n, j0) && Bridged(h, n, j0)
      modifies this
      ensures Placed() && contents == old(contents)
      ensures |h| == old(|h|) && (n < |h| ==> h[n] == old(h)[n])
      ensures Ordered(h, n)
    {
      var j: nat := j0;
      while j != 0 && h[j].due < h[Parent(j)].due
        invariant Placed() && contents == old(contents)
        invariant j < n <= |h| && |h| == old(|h|) && (n < |h| ==> h[n] == old(h)[n])
        invariant OrderedButAbove(h, n, j) && Bridged(h, n, j)
        decreases j
      {
        SiftUpStep(h, n, j);
        Swap(Parent(j), j);
        j := Parent(j);
      }
    }

    /** Returns whether the item moved, as container/heap's down does. */
    method Down(i0: nat, n: nat) returns (moved: bool)
      requires Placed() && i0 < n <= |h|
      requires OrderedButAt(h, n, i0) && Bridged(h, n, i0)
      modifies this
      ensures Placed() && contents == old(contents)
      ensures |h| == old(|h|) && (n < |h| ==> h[n] == old(h)[n])
      ensures moved ==> Ordered(h, n)
      ensures !moved ==> h == old(h) && OrderedButAbove(h, n, i0)
    {
      var i: nat := i0;
      moved := false;
      while 2 * i + 1 < n
        invariant Placed() && contents == old(contents)
        invariant i0 <= i < n <= |h| && |h| == old(|h|) && (n < |h| ==> h[n] == old(h)[n])
        invariant moved == (i != i0)
        invariant !moved ==> h == old(h)
        invariant moved ==> OrderedButBelow(h, n, i)
        invariant OrderedButAt(h, n, i) && Bridged(h, n, i)
        decreases n - i
      {
        var j := EarlierOf(h, n, i);
        if !(h[j].due < h[i].due) {
          break;
        }
        SiftDownStep(h, n, i, j);
        Swap(i, j);
        i := j;
        moved := true;
      }
    }

    /** Restores order after slot i changed: container/heap's Fix on the first n slots. */
    method Fix(i: nat, n: nat)
      requires Placed() && i < n <= |h|
      requires OrderedButAt(h, n, i) && Bridged(h, n, i)
      modifies this
      ensures Placed() && contents == old(contents)
      ensures |h| == old(|h|) && (n < |h| ==> h[n] == old(h)[n])
      ensures Ordered(h, n)
    {
      var moved := Down(i, n);
      if !moved {
        Up(i, n);
      }
    }

    /** Drops the last slot: the heap's own Pop hook. */
    method DropLast() returns (item: Item)
      requires Placed() && |h| > 0 && Ordered(h, |h| - 1)
      modifies this
      ensures Valid()
      ensures item == old(h)[|old(h)| - 1] && |h| == |old(h)| - 1
      ensures contents == old(contents) - {item.id}
    {
      item := h[|h| - 1];
      ghost var h0 := h;
      h := h[..|h| - 1];
      pos := pos - {item.id};
      contents := contents - {item.id};
      forall k | 0 < k < |h|
        ensures EdgeOk(h, k)
      {
        assert EdgeOk(h0, k);
      }
    }

    /** Inserts an item, or moves it to a new due time if it is already on the heap. */
    method Put(id: string, due: Time)
      requires Valid()
      modifies this
      ensures Valid() && contents == old(contents)[id := due]
    {
      if id in pos {
        var i := pos[id];
        OverwriteAt(h, |h|, i, Item(id, due));
        h := h[i := Item(id, due)];
        contents := contents[id := due];
        Fix(i, |h|);
      } else {
        PushNew(id, due);
      }
    }

    method PushNew(id: string, due: Time)
      requires Valid() && id !in pos
      modifies this
      ensures Valid() && contents == old(contents)[id := due]
    {
      ghost var h0 := h;
      h := h + [Item(id, due)];
      pos := pos[id := |h| - 1];
      contents := contents[id := due];
      forall k | 0 < k < |h| && k != |h| - 1
        ensures EdgeOk(h, k)
      {
        assert EdgeOk(h0, k);
      }
      Up(|h| - 1, |h|);
    }

    /** Removes an arbitrary item; unknown ids are ignored. */
    method Remove(id: string)
      requires Valid()
      modifies this
      ensures Valid() && contents == old(contents) - {id}
      ensures |h| == old(if id in pos then |h| - 1 else |h|)
    {
      if id !in pos {
        return;
      }
      MoveToEnd(pos[id]);
      var dropped := DropLast();
    }

    /** Exchanges an item with the last one and restores order among the others. */
    method MoveToEnd(i: nat)
      requires Valid() && i < |h|
      modifies this
      ensures Placed() && contents == old(contents) && |h| == old(|h|)
      ensures Ordered(h, |h| - 1) && h[|h| - 1] == old(h)[i]
    {
      hide IndexedHeap.Placed, Ordered, OrderedButAt, Bridged;
      var n := |h| - 1;
      if n != i {
        SwapOutLast(h, i);
        Swap(i, n);
        Fix(i, n);
      } else {
        OrderedInit(h);
      }
    }

    /** The earliest item, without removing it. */
    method Peek() returns (r: Option<Item>)
      requires Valid()
      ensures r.None? <==> contents == map[]
      ensures r.Some? ==> r.value.id in contents && contents[r.value.id] == r.value.due
      ensures r.Some? ==> forall id :: id in contents ==> r.value.due <= contents[id]
    {
      if |h| == 0 {
        assert contents.Keys == {};
        return None;
      }
      assert h[0].id in contents;
      forall id | id in contents
        ensures h[0].due <= contents[id]
      {
        RootIsEarliest(h, |h|, pos[id]);
      }
      return Some(h[0]);
    }

    /** Removes and returns the earliest item. */
    method PopEarliest() returns (item: Item)
      requires Valid() && |h| > 0
      modifies this
      ensures Valid()
      ensures item == old(h)[0] && |h| == old(|h|) - 1
      ensures contents == old(contents) - {item.id}
    {
      item := h[0];
      Remove(item.id);
    }

    /** The earliest item, removed, if it is due; None when nothing is. */
    method PopDue(now: Time) returns (r: Option<Item>)
      requires Valid()
      modifies this
      ensures Valid()
      ensures r.None? ==> contents == old(contents) && forall id :: id in contents ==> contents[id] > now
      ensures r.Some? ==>
        && r.value.id in old(contents) && old(contents)[r.value.id] == r.value.due <= now
        && (forall id :: id in old(contents) ==> r.value.due <= old(contents)[id])
        && contents == old(contents) - {r.value.id}
    {
      var top := Peek();
      if top.None? || top.value.due > now {
        return None;
      }
      Remove(top.value.id);
      return top;
    }

    /** Exact expiry: returns precisely the items due by `now`, earliest first, and keeps the rest. */
    method PopExpired(now: Time) returns (expired: seq<Item>)
      requires Valid()
      modifies this
      ensures Valid()
      ensures Popped(old(contents), contents, expired, now)
      ensures forall id :: id in contents ==> contents[id] > now
    {
      expired := [];
      while |h| > 0
        invariant Valid()
        invariant Popped(old(contents), contents, expired, now)
        decreases |h|
      {
        forall id | id in contents
          ensures h[0].due <= contents[id]
        {
          RootIsEarliest(h, |h|, pos[id]);
        }
        if h[0].due > now {
          return;
        }
        PoppedStep(old(contents), contents, expired, h[0], now);
        var item := PopEarliest();
        expired := expired + [item];
      }
    }
  }
}
