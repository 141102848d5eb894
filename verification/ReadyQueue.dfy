/** The linked FIFO ready queue with an id table, proved to behave as the sequence the model uses. */
module ReadyQueues {
  import opened Prelude
  import opened AdmissionTypes
  import opened AdmissionModel

  class Node {
    const entry: Entry
    var prev: Node?
    var next: Node?

    constructor (e: Entry)
      ensures entry == e && prev == null && next == null
    {
      entry, prev, next := e, null, null;
    }
  }

  ghost function SumBytes(q: seq<Entry>): nat {
    if q == [] then 0 else SumBytes(q[..|q| - 1]) + q[|q| - 1].payload
  }

  lemma SumWith(q: seq<Entry>, e: Entry)
    ensures SumBytes(q + [e]) == SumBytes(q) + e.payload
  {
    assert (q + [e])[..|q|] == q;
  }

  lemma {:induction false} SumWithout(q: seq<Entry>, i: nat)
    requires i < |q|
    ensures SumBytes(Without(q, i)) == SumBytes(q) - q[i].payload
    decreases |q|
  {
    var r := Without(q, i);
    if i == |q| - 1 {
      assert r == q[..|q| - 1];
    } else {
      SumWithout(q[..|q| - 1], i);
      assert r[..|r| - 1] == Without(q[..|q| - 1], i);
    }
  }

  /** prev, next, head and tail link the spine in order. */
  ghost predicate Chain(spine: seq<Node>, head: Node?, tail: Node?)
    reads spine`prev, spine`next
  {
    && Distinct(spine)
    && (|spine| == 0 ==> head == null && tail == null)
    && (|spine| > 0 ==>
          && head == spine[0] && tail == spine[|spine| - 1]
          && spine[0].prev == null && spine[|spine| - 1].next == null)
    && (forall i {:trigger spine[i].prev} :: 1 <= i < |spine| ==> spine[i].prev == spine[i - 1])
    && (forall i {:trigger spine[i].next} :: 0 <= i < |spine| - 1 ==> spine[i].next == spine[i + 1])
  }

  ghost predicate Hold(spine: seq<Node>, contents: seq<Entry>) {
    |contents| == |spine| && forall i :: 0 <= i < |spine| ==> spine[i].entry == contents[i]
  }

  lemma HoldWith(spine: seq<Node>, contents: seq<Entry>, node: Node, e: Entry)
    requires Hold(spine, contents) && node.entry == e
    ensures Hold(spine + [node], contents + [e])
  {
  }

  lemma TableHolds(spine: seq<Node>, contents: seq<Entry>, nodes: map<string, Node>)
    requires Table(spine, contents, nodes)
    ensures Hold(spine, contents)
  {
  }

  /** The nodes hold the contents, and the id table maps exactly the queued ids to their nodes. */
  ghost predicate Table(spine: seq<Node>, contents: seq<Entry>, nodes: map<string, Node>) {
    && |contents| == |spine| == |nodes|
    && (forall i :: 0 <= i < |spine| ==>
          spine[i].entry == contents[i] && contents[i].spec.id in nodes && nodes[contents[i].spec.id] == spine[i])
    && (forall id :: id in nodes ==> nodes[id] in spine && nodes[id].entry.spec.id == id)
  }

  lemma TableWithout(spine: seq<Node>, contents: seq<Entry>, nodes: map<string, Node>, head: Node?, tail: Node?, k: nat)
    requires Chain(spine, head, tail) && Table(spine, contents, nodes) && k < |spine|
    ensures |contents| == |spine|
    ensures Table(Without(spine, k), Without(contents, k), nodes - {contents[k].spec.id})
    ensures spine[k] !in Without(spine, k) && forall n :: n in Without(spine, k) ==> n in spine
    ensures spine[k].entry == contents[k]
  {
    WithoutMembers(spine, k);
    var id := contents[k].spec.id;
    assert nodes.Keys == (nodes - {id}).Keys + {id};
    assert |nodes| == |nodes.Keys| && |nodes - {id}| == |(nodes - {id}).Keys|;
  }

  lemma TableWith(spine: seq<Node>, contents: seq<Entry>, nodes: map<string, Node>, node: Node, e: Entry)
    requires Table(spine, contents, nodes) && node !in spine && node.entry == e && e.spec.id !in nodes
    ensures Table(spine + [node], contents + [e], nodes[e.spec.id := node])
  {
  }

  /** A second node under one id leaves the table short of an entry. */
  lemma TableShort(spine: seq<Node>, contents: seq<Entry>, nodes: map<string, Node>, node: Node, e: Entry)
    requires Table(spine, contents, nodes) && e.spec.id in nodes
    ensures !Table(spine + [node], contents + [e], nodes[e.spec.id := node])
  {
    assert nodes[e.spec.id := node].Keys == nodes.Keys;
    assert |nodes[e.spec.id := node]| == |nodes.Keys|;
  }

  lemma Absent(spine: seq<Node>, contents: seq<Entry>, nodes: map<string, Node>, id: string)
    requires Table(spine, contents, nodes) && id !in nodes
    ensures Position(contents, id).None?
  {
  }

  lemma Locate(spine: seq<Node>, contents: seq<Entry>, nodes: map<string, Node>, id: string) returns (k: nat)
    requires Table(spine, contents, nodes) && id in nodes
    ensures k < |spine| == |contents| && spine[k] == nodes[id] && contents[k] == nodes[id].entry
    ensures Position(contents, id) == Some(k)
  {
    var i :| 0 <= i < |spine| && spine[i] == nodes[id];
    assert contents[i].spec.id == id;
    k := Position(contents, id).value;
  }

  class ReadyQueue {
    var head: Node?
    var tail: Node?
    var nodes: map<string, Node>
    var totalBytes: int
    ghost var spine: seq<Node>
    ghost var contents: seq<Entry>

    /** The linked nodes hold the contents, and their bytes are counted. */
    ghost predicate Linked()
      reads this, spine
    {
      Chain(spine, head, tail) && Hold(spine, contents) && totalBytes == SumBytes(contents)
    }

    ghost predicate Valid()
      reads this, spine
    {
      Linked() && Table(spine, contents, nodes)
    }

    constructor ()
      ensures Valid() && contents == [] && fresh(spine)
    {
      head, tail, nodes, totalBytes, spine, contents := null, null, map[], 0, [], [];
    }

    method LinkLast(node: Node)
      requires Chain(spine, head, tail) && node !in spine && node.prev == null && node.next == null
      modifies this`head, this`tail, this`spine, node`prev, spine`next
      ensures Chain(spine, head, tail) && spine == old(spine) + [node]
    {
      if tail == null {
        head := node;
        tail := node;
      } else {
        tail.next := node;
        node.prev := tail;
        tail := node;
      }
      spine := spine + [node];
    }

    /** Appends; the id table still describes the queue exactly if the id was not queued already. */
    method Push(e: Entry)
      requires Valid()
      modifies this, spine
      ensures Linked() && contents == old(contents) + [e] && nodes == old(nodes)[e.spec.id := spine[|spine| - 1]]
      ensures Valid() <==> e.spec.id !in old(nodes)
      ensures forall n :: n in spine ==> n in old(spine) || fresh(n)
    {
      hide Chain, Table, Hold, SumBytes;
      var node := new Node(e);
      HoldWith(spine, contents, node, e);
      SumWith(contents, e);
      if e.spec.id in nodes {
        TableShort(spine, contents, nodes, node, e);
      } else {
        TableWith(spine, contents, nodes, node, e);
      }
      Register(node);
      LinkLast(node);
    }

    method Register(node: Node)
      modifies this`nodes, this`totalBytes, this`contents
      ensures nodes == old(nodes)[node.entry.spec.id := node] && totalBytes == old(totalBytes) + node.entry.payload
      ensures contents == old(contents) + [node.entry]
    {
      nodes := nodes[node.entry.spec.id := node];
      totalBytes := totalBytes + node.entry.payload;
      contents := contents + [node.entry];
    }

    method Unlink(node: Node, ghost k: nat)
      requires Chain(spine, head, tail) && k < |spine| && spine[k] == node
      modifies this`head, this`tail, this`spine, spine`prev, spine`next
      ensures Chain(spine, head, tail) && spine == Without(old(spine), k)
    {
      if node.prev != null {
        assert k > 0 && node.prev == spine[k - 1];
        node.prev.next := node.next;
      } else {
        head := node.next;
      }
      if node.next != null {
        assert k < |spine| - 1 && node.next == spine[k + 1];
        node.next.prev := node.prev;
      } else {
        tail := node.prev;
      }
      spine := Without(spine, k);
      node.prev, node.next := null, null;
    }

    method RemoveNode(node: Node, ghost k: nat)
      requires Valid() && k < |spine| && spine[k] == node
      modifies this, spine
      ensures Valid() && |old(contents)| == |old(spine)|
      ensures contents == Without(old(contents), k) && spine == Without(old(spine), k)
    {
      hide Chain, Table, Hold, SumBytes;
      TableWithout(spine, contents, nodes, head, tail, k);
      SumWithout(contents, k);
      Deregister(node.entry, k);
      Unlink(node, k);
      TableHolds(spine, contents, nodes);
    }

    method Deregister(e: Entry, ghost k: nat)
      requires k < |contents|
      modifies this`nodes, this`totalBytes, this`contents
      ensures nodes == old(nodes) - {e.spec.id} && totalBytes == old(totalBytes) - e.payload
      ensures contents == Without(old(contents), k)
    {
      nodes := nodes - {e.spec.id};
      totalBytes := totalBytes - e.payload;
      contents := Without(contents, k);
    }

    /** Deletes by id; unknown ids return None and change nothing. */
    method Remove(id: string) returns (r: Option<Entry>)
      requires Valid()
      modifies this, spine
      ensures Valid() && contents == RemoveId(old(contents), id)
      ensures r.None? <==> Position(old(contents), id).None?
      ensures r.Some? ==> r.value == old(contents)[Position(old(contents), id).value]
    {
      hide Chain, Table, Hold, SumBytes;
      if id !in nodes {
        Absent(spine, contents, nodes, id);
        return None;
      }
      ghost var k := Locate(spine, contents, nodes, id);
      r := Some(nodes[id].entry);
      RemoveNode(nodes[id], k);
    }

    /** The earliest entry accepted by `matches`, without removing it. */
    method FirstMatching(matches: Entry -> bool) returns (r: Option<Entry>)
      requires Valid()
      ensures r.None? ==> forall k :: 0 <= k < |contents| ==> !matches(contents[k])
      ensures r.Some? ==>
                exists i :: 0 <= i < |contents| && contents[i] == r.value && matches(contents[i]) &&
                            (forall k :: 0 <= k < i ==> !matches(contents[k]))
    {
      var node := head;
      ghost var i := 0;
      while node != null
        invariant 0 <= i <= |spine|
        invariant if i == |spine| then node == null else node == spine[i]
        invariant forall k :: 0 <= k < i ==> !matches(contents[k])
        decreases |spine| - i
      {
        if matches(node.entry) {
          assert contents[i] == node.entry;
          return Some(node.entry);
        }
        assert spine[i].next == if i == |spine| - 1 then null else spine[i + 1];
        node := node.next;
        i := i + 1;
      }
      return None;
    }

    method Len() returns (n: nat)
      requires Valid()
      ensures n == |contents|
    {
      n := |nodes|;
    }
  }
}
