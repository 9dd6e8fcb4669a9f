/** The intrusive doubly linked list of Include/LinkedList.h. */
module LinkedLists {
  import opened Sequences

  /** A node is part of a record of its user: of a packet, say, that has an order. */
  class Node {
    var list: LinkedList?
    var next: Node?
    var prev: Node?
    const order: nat

    constructor (order: nat)
      ensures Loose() && this.order == order
    {
      this.order, list, next, prev := order, null, null, null;
    }

    /** The node is on no list. */
    predicate Loose()
      reads this
    {
      list == null && next == null && prev == null
    }
  }

  class LinkedList {
    var head: Node?
    var tail: Node?
    var count: nat
    ghost var nodes: seq<Node>

    /** The node in place k, null beyond the ends. */
    ghost function At(k: int): Node?
      reads this`nodes
    {
      if 0 <= k < |nodes| then nodes[k] else null
    }

    ghost predicate Linked(k: int)
      requires 0 <= k < |nodes|
      reads this`nodes, nodes`list, nodes`next, nodes`prev
    {
      nodes[k].list == this && nodes[k].next == At(k + 1) && nodes[k].prev == At(k - 1)
    }

    ghost predicate Valid()
      reads this, nodes`list, nodes`next, nodes`prev
    {
      && head == At(0) && tail == At(|nodes| - 1) && count == |nodes|
      && Distinct(nodes)
      && (forall k {:trigger Linked(k)} :: 0 <= k < |nodes| ==> Linked(k))
    }

    constructor ()
      ensures Valid() && nodes == []
    {
      head, tail, count, nodes := null, null, 0, [];
    }

    /** Takes the node, which is in place k, off the list. */
    method Remove(node: Node, ghost k: nat)
      requires Valid() && k < |nodes| && nodes[k] == node
      modifies this, nodes
      ensures Valid() && nodes == RemoveAt(old(nodes), k) && node.Loose()
    {
      assert Linked(k);
      assert (k > 0 ==> Linked(k - 1)) && (k + 1 < |nodes| ==> Linked(k + 1));
      node.list := null;
      if head == node {
        head := node.next;
      }
      if tail == node {
        tail := node.prev;
      }
      if node.next != null {
        node.next.prev := node.prev;
      }
      if node.prev != null {
        node.prev.next := node.next;
      }
      node.next, node.prev := null, null;
      count := count - 1;
      nodes := RemoveAt(nodes, k);
      forall i | 0 <= i < |nodes| ensures Linked(i) {
        if i < k {
          assert nodes[i] == old(nodes)[i] && old(Linked(i));
        } else {
          assert nodes[i] == old(nodes)[i + 1] && old(Linked(i + 1));
        }
      }
    }

    lemma LooseIsNew(node: Node)
      requires Valid() && node.Loose()
      ensures node !in nodes
    {
      forall i | 0 <= i < |nodes| ensures nodes[i] != node {
        assert Linked(i);
      }
    }

    method PushHead(node: Node)
      requires Valid() && node.Loose()
      modifies this, nodes, node
      ensures Valid() && nodes == [node] + old(nodes)
    {
      LooseIsNew(node);
      assert nodes != [] ==> Linked(0);
      node.list := this;
      if head != null {
        head.prev := node;
      }
      node.next := head;
      head := node;
      if tail == null {
        tail := node;
      }
      count := count + 1;
      nodes := [node] + nodes;
      forall i | 0 <= i < |nodes| ensures Linked(i) {
        assert i > 0 ==> old(Linked(i - 1));
      }
    }

    method PushTail(node: Node)
      requires Valid() && node.Loose()
      modifies this, nodes, node
      ensures Valid() && nodes == old(nodes) + [node]
    {
      LooseIsNew(node);
      assert nodes != [] ==> Linked(|nodes| - 1);
      node.list := this;
      if tail != null {
        tail.next := node;
      }
      node.prev := tail;
      tail := node;
      if head == null {
        head := node;
      }
      count := count + 1;
      nodes := nodes + [node];
      forall i | 0 <= i < |nodes| ensures Linked(i) {
        assert i + 1 < |nodes| ==> old(Linked(i));
      }
    }

    /** Puts the node behind that in place k, or in front of all if k is -1. */
    method PushAfter(node: Node, after: Node?, ghost k: int)
      requires Valid() && node.Loose() && -1 <= k < |nodes| && after == At(k)
      modifies this, nodes, node
      ensures Valid() && nodes == InsertAt(old(nodes), k + 1, node)
    {
      if after == tail {
        PushTail(node);
      } else if after == null {
        PushHead(node);
      } else {
        LooseIsNew(node);
        assert Linked(k) && Linked(k + 1);
        node.list := this;
        node.next := after.next;
        node.prev := after;
        if after.next != null {
          after.next.prev := node;
        }
        after.next := node;
        count := count + 1;
        nodes := InsertAt(nodes, k + 1, node);
        forall i | 0 <= i < |nodes| ensures Linked(i) {
          if i <= k {
            assert nodes[i] == old(nodes)[i] && old(Linked(i));
          } else if i > k + 1 {
            assert nodes[i] == old(nodes)[i - 1] && old(Linked(i - 1));
          }
        }
      }
    }

    /** Puts the node in front of that in place k, or behind all if k is the length. */
    method PushBefore(node: Node, before: Node?, ghost k: int)
      requires Valid() && node.Loose() && 0 <= k <= |nodes| && before == At(k)
      modifies this, nodes, node
      ensures Valid() && nodes == InsertAt(old(nodes), k, node)
    {
      if before == head {
        PushHead(node);
      } else if before == null {
        PushTail(node);
      } else {
        assert 0 < k < |nodes|;
        LooseIsNew(node);
        assert Linked(k) && Linked(k - 1);
        node.list := this;
        node.next := before;
        node.prev := before.prev;
        if before.prev != null {
          before.prev.next := node;
        }
        before.prev := node;
        count := count + 1;
        nodes := InsertAt(nodes, k, node);
        forall i | 0 <= i < |nodes| ensures Linked(i) {
          if i < k {
            assert nodes[i] == old(nodes)[i] && old(Linked(i));
          } else if i > k {
            assert nodes[i] == old(nodes)[i - 1] && old(Linked(i - 1));
          }
        }
      }
    }

    method PopHead() returns (node: Node?)
      requires Valid()
      modifies this, nodes
      ensures Valid() && node == old(At(0))
      ensures nodes == if node == null then [] else old(nodes)[1..]
      ensures node != null ==> node.Loose()
    {
      node := head;
      if node != null {
        Remove(node, 0);
      }
    }

    method PopTail() returns (node: Node?)
      requires Valid()
      modifies this, nodes
      ensures Valid() && node == old(At(|nodes| - 1))
      ensures nodes == if node == null then [] else old(nodes)[..|old(nodes)| - 1]
      ensures node != null ==> node.Loose()
    {
      node := tail;
      if node != null {
        Remove(node, |nodes| - 1);
      }
    }

    method RemoveAll()
      requires Valid()
      modifies this, nodes
      ensures Valid() && nodes == [] && forall node :: node in old(nodes) ==> node.Loose()
    {
      ghost var pool, gone := SetOf(nodes), {};
      while head != null
        invariant Valid() && gone + SetOf(nodes) == pool && gone !! SetOf(nodes)
        invariant forall node :: node in gone ==> node.Loose()
        modifies this, pool
        decreases |nodes|
      {
        WithoutFirst(nodes);
        gone := gone + {nodes[0]};
        Remove(head, 0);
      }
    }
  }

  /** An iterator: nextCursor is the node it will hand out next. */
  class Iterator {
    var cursor: Node?
    var nextCursor: Node?

    constructor ()
      ensures cursor == null == nextCursor
    {
      cursor, nextCursor := null, null;
    }

    method Begin(list: LinkedList) returns (node: Node?)
      requires list.Valid()
      modifies this`cursor, this`nextCursor
      ensures list.Valid() && node == cursor == list.At(0) && nextCursor == list.At(1)
    {
      nextCursor := list.head;
      node := Next(list, 0);
    }

    /** Goes on to place k. */
    method Next(ghost list: LinkedList, ghost k: nat) returns (node: Node?)
      requires list.Valid() && nextCursor == list.At(k)
      modifies this`cursor, this`nextCursor
      ensures list.Valid() && node == cursor == list.At(k) && nextCursor == list.At(k + 1)
    {
      cursor := nextCursor;
      if cursor == null {
        return null;
      }
      assert list.Linked(k);
      nextCursor := cursor.next;
      return cursor;
    }
  }

  class IteratorRev {
    var cursor: Node?
    var nextCursor: Node?

    constructor ()
      ensures cursor == null == nextCursor
    {
      cursor, nextCursor := null, null;
    }

    method Begin(list: LinkedList) returns (node: Node?)
      requires list.Valid()
      modifies this`cursor, this`nextCursor
      ensures list.Valid() && node == cursor == list.At(|list.nodes| - 1) && nextCursor == list.At(|list.nodes| - 2)
    {
      nextCursor := list.tail;
      node := Next(list, |list.nodes| - 1);
    }

    /** Goes back to place k. */
    method Next(ghost list: LinkedList, ghost k: int) returns (node: Node?)
      requires list.Valid() && k < |list.nodes| && nextCursor == list.At(k)
      modifies this`cursor, this`nextCursor
      ensures list.Valid() && node == cursor == list.At(k) && nextCursor == list.At(k - 1)
    {
      cursor := nextCursor;
      if cursor == null {
        return null;
      }
      assert list.Linked(k);
      nextCursor := cursor.prev;
      return cursor;
    }
  }

  /** Takes the node x, in place k, off the list if it is in drop. */
  method RemoveIf(list: LinkedList, x: Node, drop: set<Node>, ghost k: nat)
    requires list.Valid() && k < |list.nodes| && x == list.nodes[k]
    modifies list, list.nodes
    ensures list.Valid() && list.nodes == if x in drop then RemoveAt(old(list.nodes), k) else old(list.nodes)
  {
    if x in drop {
      list.Remove(x, k);
    }
  }

  /** Comes to the node x, takes it off if it is in drop, and goes on with the rest. */
  method SweepOnce(list: LinkedList, it: Iterator, x: Node, drop: set<Node>,
                   ghost kept: seq<Node>, ghost rest: seq<Node>, ghost pool: set<Node>)
    returns (next: Node?, ghost kept': seq<Node>)
    requires list.Valid() && list.nodes == kept + ([x] + rest) && it.nextCursor == list.At(|kept| + 1)
    requires forall node :: node in list.nodes ==> node in pool
    modifies list, pool, it`cursor, it`nextCursor
    ensures list.Valid() && list.nodes == kept' + rest && kept' == kept + if x in drop then [] else [x]
    ensures next == list.At(|kept'|) && it.nextCursor == list.At(|kept'| + 1)
    ensures forall node :: node in list.nodes ==> node in pool
  {
    SweepStep(kept, x, rest);
    kept' := kept + if x in drop then [] else [x];
    RemoveIf(list, x, drop, |kept|);
    next := it.Next(list, |kept'|);
  }

  /** A pass from the node x on, which is that in place n of all. */
  method SweepFrom(list: LinkedList, it: Iterator, x: Node?, drop: set<Node>,
                   ghost all: seq<Node>, ghost n: nat, ghost kept: seq<Node>, ghost pool: set<Node>)
    returns (visited: seq<Node>)
    requires list.Valid() && n <= |all| && list.nodes == kept + all[n..]
    requires x == list.At(|kept|) && it.nextCursor == list.At(|kept| + 1)
    requires forall node :: node in list.nodes ==> node in pool
    modifies list, pool, it`cursor, it`nextCursor
    ensures list.Valid() && visited == all[n..] && list.nodes == kept + Kept(all, n, drop)
    decreases |all| - n
  {
    if x == null {
      return [];
    }
    var y: Node := x;
    assert all[n..] == [y] + all[n + 1..];
    var next, kept' := SweepOnce(list, it, y, drop, kept, all[n + 1..], pool);
    KeptStep(kept, all, n, drop, kept');
    var later := SweepFrom(list, it, next, drop, all, n + 1, kept', pool);
    visited := [y] + later;
  }

  /** A pass over the list that takes some of the nodes off as it comes to them still comes to each node once, in
      order. */
  method Sweep(list: LinkedList, drop: set<Node>) returns (visited: seq<Node>)
    requires list.Valid()
    modifies list, list.nodes
    ensures list.Valid() && visited == old(list.nodes) && list.nodes == Kept(visited, 0, drop)
  {
    var it := new Iterator();
    var x := it.Begin(list);
    ghost var all, kept, pool := list.nodes, [], SetOf(list.nodes);
    assert all == kept + all[0..] && kept + Kept(all, 0, drop) == Kept(all, 0, drop);
    visited := SweepFrom(list, it, x, drop, all, 0, kept, pool);
  }

  /** Comes to the node x, takes it off if it is in drop, and goes on with what is in front of it. */
  method SweepBackOnce(list: LinkedList, it: IteratorRev, x: Node, drop: set<Node>,
                       ghost front: seq<Node>, ghost kept: seq<Node>, ghost pool: set<Node>)
    returns (next: Node?, ghost kept': seq<Node>)
    requires list.Valid() && list.nodes == front + ([x] + kept) && it.nextCursor == list.At(|front| - 1)
    requires forall node :: node in list.nodes ==> node in pool
    modifies list, pool, it`cursor, it`nextCursor
    ensures list.Valid() && list.nodes == front + kept' && kept' == (if x in drop then [] else [x]) + kept
    ensures next == list.At(|front| - 1) && it.nextCursor == list.At(|front| - 2)
    ensures forall node :: node in list.nodes ==> node in pool
  {
    SweepStep(front, x, kept);
    kept' := (if x in drop then [] else [x]) + kept;
    RemoveIf(list, x, drop, |front|);
    next := it.Next(list, |front| - 1);
  }

  /** A backward pass from the node x on, which is that in place n - 1 of all. */
  method SweepBackFrom(list: LinkedList, it: IteratorRev, x: Node?, drop: set<Node>,
                       ghost all: seq<Node>, ghost n: nat, ghost pool: set<Node>)
    returns (trail: seq<Node>)
    requires list.Valid() && n <= |all| && list.nodes == all[..n] + Kept(all, n, drop)
    requires x == list.At(n - 1) && it.nextCursor == list.At(n - 2)
    requires forall node :: node in list.nodes ==> node in pool
    modifies list, pool, it`cursor, it`nextCursor
    ensures list.Valid() && trail == all[..n] && list.nodes == Kept(all, 0, drop)
    decreases n
  {
    if x == null {
      return [];
    }
    var y: Node := x;
    SweepBackStep(all, n, drop);
    var next, kept := SweepBackOnce(list, it, y, drop, all[..n - 1], Kept(all, n, drop), pool);
    trail := SweepBackFrom(list, it, next, drop, all, n - 1, pool);
    trail := trail + [y];
  }

  /** The same from the tail; trail holds the nodes visited, the latest in front. */
  method SweepBack(list: LinkedList, drop: set<Node>) returns (trail: seq<Node>)
    requires list.Valid()
    modifies list, list.nodes
    ensures list.Valid() && trail == old(list.nodes) && list.nodes == Kept(trail, 0, drop)
  {
    var it := new IteratorRev();
    var x := it.Begin(list);
    ghost var all, pool := list.nodes, SetOf(list.nodes);
    assert all == all[..|all|] + Kept(all, |all|, drop);
    trail := SweepBackFrom(list, it, x, drop, all, |all|, pool);
  }
}
