/** What any sequence of insertions and removals leaves of a tree. */
module RedBlackRuns {
  import opened Sequences
  import opened Powers
  import opened RedBlackTrees
  import opened RedBlackQueries
  import opened RedBlackChecks

  datatype Operation = Put(node: Node, allowDuplicates: bool) | Take(node: Node) | TakeAll

  /** The node is in no tree. */
  predicate Loose(x: Node)
    reads x
  {
    x.tree == null && x.left == null && x.right == null && x.parent == null
  }

  /** A valid tree of some of the nodes, sorted; the other nodes are in no tree. */
  ghost predicate Ordered(t: RedBlackTree, cmp: (Node, Node) -> int, all: set<Node>)
    reads t, t.repr, all
  {
    && t.Valid() && t.repr <= all && Sorted(t.nodes, cmp) && (forall i :: 0 <= i < |t.nodes| ==> t.nodes[i] in all)
    && forall x :: x in all && x !in t.repr ==> Loose(x)
  }

  /** The nodes, in order, that an operation leaves of s. */
  ghost function Left(s: seq<Node>, operation: Operation, cmp: (Node, Node) -> int): seq<Node> {
    match operation
    case Put(n, allowDuplicates) =>
      if n in s || (!allowDuplicates && exists x :: x in s && cmp(n, x) == 0) then s
      else InsertAt(s, UpperBound(s, Probe(cmp, n)), n)
    case Take(n) => Without(s, n)
    case TakeAll => []
  }

  /** And all of them, one after another. */
  ghost function LeftByAll(s: seq<Node>, operations: seq<Operation>, cmp: (Node, Node) -> int): seq<Node> {
    if operations == [] then s
    else Left(LeftByAll(s, operations[..|operations| - 1], cmp), operations[|operations| - 1], cmp)
  }

  /** Where a node is in the sequence of a tree. */
  lemma NodeAt(t: RedBlackTree, x: Node)
    requires t.Valid()
    ensures x in t.nodes <==> x in t.repr
    ensures x in t.repr ==> x.tree == t && IndexOf(t.nodes, x) == x.pos < |t.nodes|
  {
    if x in t.nodes {
      var i :| 0 <= i < |t.nodes| && t.nodes[i] == x;
      assert t.SeatOk(i);
    }
    if x in t.repr {
      assert t.Placed(x) && t.SeatOk(IndexOf(t.nodes, x));
    }
  }

  /** Inserts the node, if it is in no tree. */
  method PutIn(t: RedBlackTree, node: Node, cmp: (Node, Node) -> int, allowDuplicates: bool, ghost all: set<Node>)
    requires Ordered(t, cmp, all) && Orders(cmp, all) && node in all
    modifies t, all
    ensures Ordered(t, cmp, all) && t.nodes == Left(old(t.nodes), Put(node, allowDuplicates), cmp)
  {
    NodeAt(t, node);
    if node.tree != null {
      return;
    }
    SortedFalls(t.nodes, cmp, node, all);
    InsertKeepsSorted(t.nodes, cmp, node, all);
    ghost var nodes := t.nodes;
    var inserted, _ := t.Insert(node, Probe<Node>(cmp, node), allowDuplicates);
    if inserted {
      forall i | 0 <= i < |t.nodes| ensures t.nodes[i] in all {
        assert t.nodes[i] in InsertAt(nodes, UpperBound(nodes, Probe(cmp, node)), node);
      }
    }
  }

  method TakeOut(t: RedBlackTree, node: Node, ghost cmp: (Node, Node) -> int, ghost all: set<Node>)
    requires Ordered(t, cmp, all) && node in all
    modifies t, all
    ensures Ordered(t, cmp, all) && t.nodes == Left(old(t.nodes), Take(node), cmp)
  {
    NodeAt(t, node);
    if node.tree == null {
      return;
    }
    ghost var nodes := t.nodes;
    t.Remove(node);
    RemoveKeepsSorted(nodes, cmp, old(node.pos));
  }

  /** After any operations the tree is valid and sorted, and has exactly the nodes that they leave, in their order;
      every node in it has a place that a search finds, and its height is logarithmic. */
  method Operate(t: RedBlackTree, operations: seq<Operation>, cmp: (Node, Node) -> int, ghost all: set<Node>)
    requires Ordered(t, cmp, all) && Orders(cmp, all)
    requires forall i :: 0 <= i < |operations| ==> operations[i].TakeAll? || operations[i].node in all
    modifies t, all
    ensures Ordered(t, cmp, all) && t.nodes == LeftByAll(old(t.nodes), operations, cmp)
    ensures forall x :: x in all ==> Falling(t.nodes, Probe(cmp, x))
    ensures Pow2(Height(t, t.root)) <= (t.count + 1) * (t.count + 1)
  {
    for i := 0 to |operations|
      invariant Ordered(t, cmp, all) && t.nodes == LeftByAll(old(t.nodes), operations[..i], cmp)
    {
      assert operations[..i + 1][..i] == operations[..i];
      match operations[i]
      case Put(node, allowDuplicates) => PutIn(t, node, cmp, allowDuplicates, all);
      case Take(node) => TakeOut(t, node, cmp, all);
      case TakeAll => t.RemoveAll();
    }
    assert operations[..|operations|] == operations;
    forall x | x in all ensures Falling(t.nodes, Probe(cmp, x)) {
      SortedFalls(t.nodes, cmp, x, all);
    }
    HeightIsLogarithmic(t);
  }
}
