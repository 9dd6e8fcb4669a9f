/** The circular, doubly linked lists that the memory manager keeps its chunks on. */
module SlabLists {
  import opened Sequences
  import opened SlabChunks

  /** Who is in place i of the circle: the head in 0 and behind the last. */
  ghost function Node(head: Header, items: seq<Header>, i: int): Header {
    if 0 < i <= |items| then items[i - 1] else head
  }

  ghost predicate Joined(a: Header, b: Header)
    reads a`next, b`prev
  {
    a.next == b && b.prev == a
  }

  ghost predicate JoinedAt(head: Header, items: seq<Header>, i: nat)
    reads head`next, head`prev, items`next, items`prev
  {
    Joined(Node(head, items, i), Node(head, items, i + 1))
  }

  /** The items, in this order, make a circle with the head. */
  ghost predicate Ring(head: Header, items: seq<Header>)
    reads head`next, head`prev, items`next, items`prev
  {
    && head !in items && Distinct(items)
    && forall i {:trigger JoinedAt(head, items, i)} :: 0 <= i <= |items| ==> JoinedAt(head, items, i)
  }

  method DlListInsertHead(list: Header, item: Header, ghost items: seq<Header>)
    requires Ring(list, items) && item != list && item !in items && item.next == item == item.prev
    modifies list`next, list`prev, item`next, item`prev, items`next, items`prev
    ensures Ring(list, [item] + items)
  {
    ghost var items' := [item] + items;
    assert JoinedAt(list, items, 0) && JoinedAt(list, items, |items|);
    item.next := list.next;
    item.prev := list;
    list.next.prev := item;
    list.next := item;
    forall i | 0 <= i <= |items'| ensures JoinedAt(list, items', i) {
      if i > 0 {
        assert old(JoinedAt(list, items, i - 1));
      }
    }
  }

  method DlListInsertTail(list: Header, item: Header, ghost items: seq<Header>)
    requires Ring(list, items) && item != list && item !in items && item.next == item == item.prev
    modifies list`next, list`prev, item`next, item`prev, items`next, items`prev
    ensures Ring(list, items + [item])
  {
    ghost var items' := items + [item];
    assert JoinedAt(list, items, 0) && JoinedAt(list, items, |items|);
    item.next := list;
    item.prev := list.prev;
    list.prev.next := item;
    list.prev := item;
    forall i | 0 <= i <= |items'| ensures JoinedAt(list, items', i) {
      if i <= |items| {
        assert old(JoinedAt(list, items, i));
      }
    }
  }

  method DlListRemove(item: Header, ghost list: Header, ghost items: seq<Header>, ghost k: nat)
    requires Ring(list, items) && k < |items| && items[k] == item
    modifies list`next, list`prev, items`next, items`prev
    ensures Ring(list, RemoveAt(items, k)) && item.next == item == item.prev
  {
    ghost var items' := RemoveAt(items, k);
    assert JoinedAt(list, items, k) && JoinedAt(list, items, k + 1);
    item.prev.next := item.next;
    item.next.prev := item.prev;
    item.next, item.prev := item, item;
    forall i | 0 <= i <= |items'| ensures JoinedAt(list, items', i) {
      assert old(JoinedAt(list, items, i)) && old(JoinedAt(list, items, i + 1));
    }
  }
}
