/** The packet list of Include/Comm/IpcCommon.h, which brings packets back into order. */
module PacketLists {
  import opened Sequences
  import opened LinkedLists

  function OrdersOf(nodes: seq<Node>): (s: seq<nat>)
    ensures |s| == |nodes|
  {
    seq(|nodes|, i requires 0 <= i < |nodes| => nodes[i].order)
  }

  /** Where a packet goes: behind the last that it comes after. */
  function PlaceFor(q: seq<nat>, order: nat): (k: nat)
    ensures k <= |q|
  {
    if q == [] then 0 else if order > q[|q| - 1] then |q| else PlaceFor(q[..|q| - 1], order)
  }

  function Queued(q: seq<nat>, order: nat): seq<nat> {
    InsertAt(q, PlaceFor(q, order), order)
  }

  class PacketList {
    const list: LinkedList

    ghost predicate Valid()
      reads list, list.nodes
    {
      list.Valid()
    }

    constructor ()
      ensures Valid() && list.nodes == [] && fresh(list)
    {
      list := new LinkedList();
    }

    method QueueFirst(packet: Node?)
      requires Valid() && (packet != null ==> packet.Loose())
      modifies list, list.nodes, packet
      ensures Valid() && list.nodes == (if packet == null then [] else [packet]) + old(list.nodes)
    {
      if packet != null {
        list.PushHead(packet);
      }
    }

    method QueueLast(packet: Node?)
      requires Valid() && (packet != null ==> packet.Loose())
      modifies list, list.nodes, packet
      ensures Valid() && list.nodes == old(list.nodes) + if packet == null then [] else [packet]
    {
      if packet != null {
        list.PushTail(packet);
      }
    }

    method DequeueFirst() returns (packet: Node?)
      requires Valid()
      modifies list, list.nodes
      ensures Valid() && packet == old(list.At(0)) && (packet != null ==> packet.Loose())
      ensures list.nodes == if packet == null then [] else old(list.nodes)[1..]
    {
      packet := list.PopHead();
    }

    /** Scans from the end for a packet that the new one comes after, and puts it behind that. */
    method QueueSorted(packet: Node)
      requires Valid() && packet.Loose()
      modifies list, list.nodes, packet
      ensures Valid() && OrdersOf(list.nodes) == Queued(OrdersOf(old(list.nodes)), packet.order)
      ensures list.nodes == InsertAt(old(list.nodes), PlaceFor(OrdersOf(old(list.nodes)), packet.order), packet)
    {
      ghost var nodes, orders := list.nodes, OrdersOf(list.nodes);
      var it := new IteratorRev();
      var node := it.Begin(list);
      ghost var k := |nodes|;
      assert orders[..k] == orders;
      while node != null && packet.order <= node.order
        invariant Valid() && packet.Loose() && list.nodes == nodes && 0 <= k <= |nodes| && node == list.At(k - 1)
                  && it.nextCursor == list.At(k - 2)
        invariant PlaceFor(orders, packet.order) == PlaceFor(orders[..k], packet.order)
        decreases k
      {
        k := k - 1;
        assert orders[..k + 1][..k] == orders[..k];
        node := it.Next(list, k - 1);
      }
      assert PlaceFor(orders[..k], packet.order) == k;
      if node != null {
        list.PushAfter(packet, node, k - 1);
      } else {
        list.PushHead(packet);
      }
    }

    /** Takes the first packet if it is the one asked for. */
    method Dequeue(order: nat) returns (packet: Node?)
      requires Valid()
      modifies list, list.nodes
      ensures Valid()
      ensures var all := old(list.nodes);
              if all != [] && all[0].order == order then packet == all[0] && list.nodes == all[1..] && all[0].Loose()
              else packet == null && list.nodes == all
    {
      var node := list.head;
      if node != null && node.order == order {
        list.Remove(node, 0);
        return node;
      }
      return null;
    }

    method Remove(packet: Node, ghost k: nat)
      requires Valid() && k < |list.nodes| && list.nodes[k] == packet
      modifies list, list.nodes
      ensures Valid() && list.nodes == RemoveAt(old(list.nodes), k) && packet.Loose()
    {
      list.Remove(packet, k);
    }

    method GetCount() returns (n: nat)
      requires Valid()
      ensures n == |list.nodes|
    {
      n := list.count;
    }

    method DiscardAll()
      requires Valid()
      modifies list, list.nodes
      ensures Valid() && list.nodes == []
    {
      ghost var all, n := list.nodes, 0;
      var packet := DequeueFirst();
      while packet != null
        invariant Valid() && n <= |all|
                  && (if packet == null then list.nodes == [] else n < |all| && list.nodes == all[n + 1..])
        decreases packet != null, |list.nodes|
      {
        n := n + 1;
        packet := DequeueFirst();
      }
    }
  }

  ghost predicate Increasing(q: seq<nat>) {
    forall i, j :: 0 <= i < j < |q| ==> q[i] < q[j]
  }

  /** In an increasing queue a new order goes between the lesser and the greater. */
  lemma {:induction false} PlaceSplits(q: seq<nat>, order: nat)
    requires Increasing(q)
    ensures forall i :: 0 <= i < PlaceFor(q, order) ==> q[i] < order
    ensures forall i :: PlaceFor(q, order) <= i < |q| ==> order <= q[i]
  {
    if q != [] && order <= q[|q| - 1] {
      PlaceSplits(q[..|q| - 1], order);
    }
  }

  lemma QueuedIncreasing(q: seq<nat>, order: nat)
    requires Increasing(q) && order !in q
    ensures Increasing(Queued(q, order)) && multiset(Queued(q, order)) == multiset(q) + multiset{order}
  {
    PlaceSplits(q, order);
    var k := PlaceFor(q, order);
    assert q == q[..k] + q[k..];
  }

  /** What happens to the list: a packet arrives, or the next is asked for. */
  datatype Event = Arrive(order: nat) | Ask

  /** The list, the order that is due, what has arrived and what has been handed out. */
  datatype State = State(queue: seq<nat>, next: nat, arrived: seq<nat>, out: seq<nat>)

  function Step(s: State, e: Event): State {
    match e
    case Arrive(order) => s.(queue := Queued(s.queue, order), arrived := s.arrived + [order])
    case Ask =>
      if s.queue != [] && s.queue[0] == s.next then
        s.(queue := s.queue[1..], next := s.next + 1, out := s.out + [s.next])
      else s
  }

  function Run(first: nat, events: seq<Event>): State {
    if events == [] then State([], first, [], []) else Step(Run(first, events[..|events| - 1]), events[|events| - 1])
  }

  /** Packets arrive in any order, but each order once, and none before the first. */
  ghost predicate DistinctOrders(first: nat, events: seq<Event>) {
    && (forall i :: 0 <= i < |events| && events[i].Arrive? ==> events[i].order >= first)
    && (forall i, j :: 0 <= i < j < |events| && events[i].Arrive? && events[j].Arrive? ==>
      events[i].order != events[j].order)
  }

  ghost predicate InOrder(first: nat, s: State) {
    && Increasing(s.queue) && (forall k :: 0 <= k < |s.queue| ==> s.queue[k] >= s.next)
    && s.next == first + |s.out| && (forall k :: 0 <= k < |s.out| ==> s.out[k] == first + k)
    && multiset(s.arrived) == multiset(s.queue) + multiset(s.out)
  }

  lemma {:induction false} ArrivedIs(first: nat, events: seq<Event>, order: nat)
    requires order in Run(first, events).arrived
    ensures exists i :: 0 <= i < |events| && events[i] == Arrive(order)
  {
    var n := |events| - 1;
    if n >= 0 {
      if order in Run(first, events[..n]).arrived {
        ArrivedIs(first, events[..n], order);
        var i :| 0 <= i < n && events[..n][i] == Arrive(order);
        assert events[i] == Arrive(order);
      } else {
        assert events[n] == Arrive(order);
      }
    }
  }

  lemma AskKeeps(first: nat, s: State)
    requires InOrder(first, s)
    ensures InOrder(first, Step(s, Ask))
  {
    if s.queue != [] && s.queue[0] == s.next {
      assert s.queue == [s.queue[0]] + s.queue[1..];
    }
  }

  lemma PastIsOut(first: nat, s: State, order: nat)
    requires InOrder(first, s) && first <= order < s.next
    ensures order in s.out
  {
    assert s.out[order - first] == order;
  }

  lemma ArriveKeeps(first: nat, s: State, order: nat)
    requires InOrder(first, s) && order !in s.arrived && order >= first
    ensures InOrder(first, Step(s, Arrive(order)))
  {
    assert order !in multiset(s.queue) + multiset(s.out);
    if order < s.next {
      PastIsOut(first, s, order);
    }
    QueuedIncreasing(s.queue, order);
    var after := Step(s, Arrive(order));
    assert multiset(after.arrived) == multiset(s.arrived) + multiset{order};
    forall k | 0 <= k < |after.queue| ensures after.queue[k] >= s.next {
      assert after.queue[k] in multiset(after.queue);
    }
  }

  /** In every run the packets come out with consecutive orders, and none is lost or repeated. */
  lemma {:induction false} ComesOutInOrder(first: nat, events: seq<Event>)
    requires DistinctOrders(first, events)
    ensures InOrder(first, Run(first, events))
  {
    var n := |events| - 1;
    if n >= 0 {
      var before, e := Run(first, events[..n]), events[n];
      ComesOutInOrder(first, events[..n]);
      if e.Ask? {
        AskKeeps(first, before);
      } else {
        if e.order in before.arrived {
          ArrivedIs(first, events[..n], e.order);
        }
        ArriveKeeps(first, before, e.order);
      }
    }
  }

  lemma FirstIsNextIff(first: nat, s: State)
    requires InOrder(first, s)
    ensures s.next in s.arrived <==> s.queue != [] && s.queue[0] == s.next
  {
    assert s.next !in s.out;
    assert s.next in s.arrived <==> s.next in multiset(s.queue) + multiset(s.out);
    if s.next in s.queue {
      var i :| 0 <= i < |s.queue| && s.queue[i] == s.next;
    }
  }

  /** The next packet is handed out exactly if it has arrived. */
  lemma AskSucceedsIff(first: nat, events: seq<Event>)
    requires DistinctOrders(first, events)
    ensures var s := Run(first, events);
            Run(first, events + [Ask]).out == (if s.next in s.arrived then s.out + [s.next] else s.out)
  {
    var s := Run(first, events);
    ComesOutInOrder(first, events);
    FirstIsNextIff(first, s);
    assert (events + [Ask])[..|events|] == events;
  }

  lemma OrdersOfRest(nodes: seq<Node>)
    requires nodes != []
    ensures OrdersOf(nodes)[0] == nodes[0].order && OrdersOf(nodes[1..]) == OrdersOf(nodes)[1..]
  {
  }

  lemma OrdersOfMore(nodes: seq<Node>, node: Node)
    ensures OrdersOf(nodes + [node]) == OrdersOf(nodes) + [node.order]
  {
  }

  /** One event at the list: its queue, the order that is due and the packets handed out go on as in a step. */
  method OneEvent(packets: PacketList, e: Event, due: nat, out: seq<Node>, ghost s: State)
    returns (due': nat, out': seq<Node>)
    requires packets.Valid() && OrdersOf(packets.list.nodes) == s.queue && due == s.next && OrdersOf(out) == s.out
    modifies packets.list, packets.list.nodes
    ensures packets.Valid() && OrdersOf(packets.list.nodes) == Step(s, e).queue
    ensures due' == Step(s, e).next && OrdersOf(out') == Step(s, e).out
    ensures forall k :: 0 <= k < |packets.list.nodes| ==>
              packets.list.nodes[k] in old(packets.list.nodes) || fresh(packets.list.nodes[k])
  {
    due', out' := due, out;
    match e
    case Arrive(order) =>
      var packet := new Node(order);
      packets.QueueSorted(packet);
    case Ask =>
      ghost var nodes := packets.list.nodes;
      if nodes != [] {
        OrdersOfRest(nodes);
      }
      var packet := packets.Dequeue(due);
      if packet != null {
        OrdersOfMore(out, packet);
        due', out' := due + 1, out + [packet];
      }
  }

  /** The events, one after another, at a list that is empty first: it does what Run says. */
  method Deliver(packets: PacketList, first: nat, events: seq<Event>) returns (out: seq<Node>)
    requires packets.Valid() && packets.list.nodes == []
    modifies packets.list
    ensures packets.Valid() && OrdersOf(packets.list.nodes) == Run(first, events).queue
            && OrdersOf(out) == Run(first, events).out
    ensures DistinctOrders(first, events) ==> forall k :: 0 <= k < |out| ==> out[k].order == first + k
  {
    var due;
    due, out := first, [];
    for n := 0 to |events|
      invariant packets.Valid() && forall k :: 0 <= k < |packets.list.nodes| ==> fresh(packets.list.nodes[k])
      invariant OrdersOf(packets.list.nodes) == Run(first, events[..n]).queue
      invariant due == Run(first, events[..n]).next && OrdersOf(out) == Run(first, events[..n]).out
    {
      assert events[..n + 1][..n] == events[..n];
      due, out := OneEvent(packets, events[n], due, out, Run(first, events[..n]));
    }
    assert events[..|events|] == events;
    if DistinctOrders(first, events) {
      ComesOutInOrder(first, events);
      forall k | 0 <= k < |out| ensures out[k].order == first + k {
        assert OrdersOf(out)[k] == first + k;
      }
    }
  }
}
