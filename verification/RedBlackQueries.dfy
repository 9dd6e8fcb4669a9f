/** Walks and searches in a red-black tree (Include/RedBlackTree.h), and what its
    debug checks and its height come to. */
module RedBlackQueries {
  import opened Sequences
  import opened RedBlackTrees

  /** The node at place k of the in-order sequence; null past either end. */
  ghost function Seat(t: RedBlackTree, k: int): Node?
    reads t`nodes
  {
    if 0 <= k < |t.nodes| then t.nodes[k] else null
  }

  /** The node that follows x, found by following links. */
  method GetNext(ghost t: RedBlackTree, x: Node) returns (s: Node?)
    requires t.Linked() && x in t.repr
    ensures s == Seat(t, x.pos + 1)
  {
    assert t.Placed(x) && t.ChildrenOk(x) && t.ParentOk(x);
    if x.right != null {
      s := x.right;
      assert t.Placed(s) && t.ChildrenOk(s);
      while s.left != null
        invariant s != null && s in t.repr && s.lo == x.pos + 1 && t.Placed(s) && t.ChildrenOk(s)
        decreases s.hi - s.lo
      {
        s := s.left;
        assert t.Placed(s) && t.ChildrenOk(s);
      }
    } else {
      s := x.parent;
      var n := x;
      while s != null && n == s.right
        invariant n in t.repr && s == n.parent && n.hi == x.pos + 1
        invariant t.Placed(n) && t.ParentOk(n) && (s != null ==> t.ChildrenOk(s) && t.Placed(s))
        decreases |t.nodes| - (n.hi - n.lo)
      {
        n := s;
        s := s.parent;
        assert t.ParentOk(n);
        assert s != null ==> t.ChildrenOk(s) && t.Placed(s);
      }
    }
  }

  /** The node that precedes x, found by following links. */
  method GetPrev(ghost t: RedBlackTree, x: Node) returns (s: Node?)
    requires t.Linked() && x in t.repr
    ensures s == Seat(t, x.pos - 1)
  {
    assert t.Placed(x) && t.ChildrenOk(x) && t.ParentOk(x);
    if x.left != null {
      s := x.left;
      assert t.Placed(s) && t.ChildrenOk(s);
      while s.right != null
        invariant s != null && s in t.repr && s.hi == x.pos && t.Placed(s) && t.ChildrenOk(s)
        decreases s.hi - s.lo
      {
        s := s.right;
        assert t.Placed(s) && t.ChildrenOk(s);
      }
    } else {
      s := x.parent;
      var n := x;
      while s != null && n == s.left
        invariant n in t.repr && s == n.parent && n.lo == x.pos
        invariant t.Placed(n) && t.ParentOk(n) && (s != null ==> t.ChildrenOk(s) && t.Placed(s))
        decreases |t.nodes| - (n.hi - n.lo)
      {
        n := s;
        s := s.parent;
        assert t.ParentOk(n);
        assert s != null ==> t.ChildrenOk(s) && t.Placed(s);
      }
    }
  }

  method GetFirst(t: RedBlackTree) returns (x: Node?)
    requires t.Linked()
    ensures x == Seat(t, 0)
  {
    if t.root == null {
      return null;
    }
    x := t.root;
    assert t.Placed(x) && t.ChildrenOk(x);
    while x.left != null
      invariant x != null && x in t.repr && x.lo == 0 && t.Placed(x) && t.ChildrenOk(x)
      decreases x.hi - x.lo
    {
      x := x.left;
      assert t.Placed(x) && t.ChildrenOk(x);
    }
  }

  method GetLast(t: RedBlackTree) returns (x: Node?)
    requires t.Linked()
    ensures x == Seat(t, |t.nodes| - 1)
  {
    if t.root == null {
      return null;
    }
    x := t.root;
    assert t.Placed(x) && t.ChildrenOk(x);
    while x.right != null
      invariant x != null && x in t.repr && x.hi == |t.nodes| && t.Placed(x) && t.ChildrenOk(x)
      decreases x.hi - x.lo
    {
      x := x.right;
      assert t.Placed(x) && t.ChildrenOk(x);
    }
  }

  /** The longest path from the link x down to a null link. */
  ghost function Height(t: RedBlackTree, x: Node?): nat
    requires t.Linked() && (x != null ==> x in t.repr)
    reads t, t.repr
    decreases if x == null then 0 else x.hi - x.lo
  {
    if x == null then 0
    else
      assert t.Placed(x) && t.ChildrenOk(x);
      assert (x.left != null ==> t.Placed(x.left)) && (x.right != null ==> t.Placed(x.right));
      var l, r := Height(t, x.left), Height(t, x.right);
      1 + if l >= r then l else r
  }

  /** A node that compares equal, if there is one; comparisons counts the calls of probe,
      the comparison of the sought key with a node. */
  method Find(t: RedBlackTree, probe: Node -> int) returns (x: Node?, ghost comparisons: nat)
    requires t.Linked() && Falling(t.nodes, probe)
    ensures x == null <==> forall y :: y in t.nodes ==> probe(y) != 0
    ensures x != null ==> x in t.nodes && probe(x) == 0
    ensures comparisons <= Height(t, t.root)
  {
    x := t.root;
    comparisons := 0;
    while x != null
      invariant x != null ==> x in t.repr && t.Placed(x)
      invariant comparisons + Height(t, x) <= Height(t, t.root)
      invariant forall i :: 0 <= i < (if x == null then |t.nodes| else x.lo) ==> probe(t.nodes[i]) != 0
      invariant forall i :: (if x == null then 0 else x.hi) <= i < |t.nodes| ==> probe(t.nodes[i]) != 0
      decreases if x == null then 0 else x.hi - x.lo
    {
      var c := probe(x);
      comparisons := comparisons + 1;
      if c == 0 {
        return;
      }
      assert t.ChildrenOk(x);
      assert (x.left != null ==> t.Placed(x.left)) && (x.right != null ==> t.Placed(x.right));
      x := if c < 0 then x.left else x.right;
    }
  }

  /** With no equal element, the key splits the sequence at k. */
  lemma BoundsAre(s: seq<Node>, cmp: Node -> int, k: nat)
    requires Splits(s, cmp, k, k)
    ensures LowerBound(s, cmp) == UpperBound(s, cmp) == k
    ensures forall y :: y in s ==> cmp(y) != 0
  {
    LowerBoundIs(s, cmp, k);
    UpperBoundIs(s, cmp, k);
  }

  /** The key is greater than what is in front of place lo, and less than what is behind place hi. */
  ghost predicate Splits(s: seq<Node>, cmp: Node -> int, lo: int, hi: int) {
    && 0 <= lo <= hi <= |s|
    && (forall i :: 0 <= i < lo ==> cmp(s[i]) > 0) && forall i :: hi <= i < |s| ==> cmp(s[i]) < 0
  }

  lemma SplitsAt(s: seq<Node>, cmp: Node -> int, lo: int, k: int, hi: int)
    requires Falling(s, cmp) && Splits(s, cmp, lo, hi) && lo <= k < hi
    ensures cmp(s[k]) > 0 ==> Splits(s, cmp, k + 1, hi)
    ensures cmp(s[k]) < 0 ==> Splits(s, cmp, lo, k)
  {
  }

  /** Where a search is: the key is greater than all before the subtree of x, and less than all behind it. */
  ghost predicate Searched(t: RedBlackTree, probe: Node -> int, x: Node)
    reads t, t.repr, x
  {
    x in t.repr && Splits(t.nodes, probe, x.lo, x.hi)
  }

  /** A search goes on to a child, or has found the place of a key that no node is equal to. */
  lemma SearchGoesOn(t: RedBlackTree, probe: Node -> int, x: Node)
    requires t.Linked() && Falling(t.nodes, probe) && Searched(t, probe, x)
    ensures t.Placed(x)
    ensures probe(x) > 0 && x.right != null ==> Searched(t, probe, x.right) && x.right.hi - x.right.lo < x.hi - x.lo
    ensures probe(x) < 0 && x.left != null ==> Searched(t, probe, x.left) && x.left.hi - x.left.lo < x.hi - x.lo
    ensures (probe(x) > 0 && x.right == null) || (probe(x) < 0 && x.left == null) ==>
              var k := if probe(x) > 0 then x.pos + 1 else x.pos;
              && LowerBound(t.nodes, probe) == k == UpperBound(t.nodes, probe)
              && forall y :: y in t.nodes ==> probe(y) != 0
  {
    assert t.Placed(x) && t.ChildrenOk(x);
    SplitsAt(t.nodes, probe, x.lo, x.pos, x.hi);
    if probe(x) > 0 && x.right == null {
      BoundsAre(t.nodes, probe, x.pos + 1);
    }
    if probe(x) < 0 && x.left == null {
      BoundsAre(t.nodes, probe, x.pos);
    }
  }

  /** A node that compares equal, if there is one, and else the first node the key is less than. */
  method GetCeiling(t: RedBlackTree, probe: Node -> int) returns (r: Node?)
    requires t.Linked() && Falling(t.nodes, probe)
    ensures (r != null && r in t.repr && probe(r) == 0)
            || ((forall y :: y in t.nodes ==> probe(y) != 0) && r == Seat(t, LowerBound(t.nodes, probe)))
  {
    var x := t.root;
    while x != null
      invariant x == null ==> t.nodes == []
      invariant x != null ==> Searched(t, probe, x)
      decreases if x == null then 0 else x.hi - x.lo
    {
      SearchGoesOn(t, probe, x);
      var c := probe(x);
      if c == 0 {
        return x;
      }
      if c < 0 {
        if x.left == null {
          return x;
        }
        x := x.left;
      } else {
        if x.right == null {
          r := GetNext(t, x);
          return;
        }
        x := x.right;
      }
    }
    return null;
  }

  /** A node that compares equal, if there is one, and else the last node the key is greater than. */
  method GetFloor(t: RedBlackTree, probe: Node -> int) returns (r: Node?)
    requires t.Linked() && Falling(t.nodes, probe)
    ensures (r != null && r in t.repr && probe(r) == 0)
            || ((forall y :: y in t.nodes ==> probe(y) != 0) && r == Seat(t, UpperBound(t.nodes, probe) - 1))
  {
    var x := t.root;
    while x != null
      invariant x == null ==> t.nodes == []
      invariant x != null ==> Searched(t, probe, x)
      decreases if x == null then 0 else x.hi - x.lo
    {
      SearchGoesOn(t, probe, x);
      var c := probe(x);
      if c == 0 {
        return x;
      }
      if c > 0 {
        if x.right == null {
          return x;
        }
        x := x.right;
      } else {
        if x.left == null {
          r := GetPrev(t, x);
          return;
        }
        x := x.left;
      }
    }
    return null;
  }

  /** The first node the key is less than. */
  method GetHigher(t: RedBlackTree, probe: Node -> int) returns (r: Node?)
    requires t.Linked() && Falling(t.nodes, probe)
    ensures r == Seat(t, UpperBound(t.nodes, probe))
  {
    var x := t.root;
    while x != null
      invariant x == null ==> t.nodes == []
      invariant x != null ==> x in t.repr && 0 <= x.lo <= x.hi <= |t.nodes|
      invariant x != null ==> forall i :: 0 <= i < x.lo ==> probe(t.nodes[i]) >= 0
      invariant x != null ==> forall i :: x.hi <= i < |t.nodes| ==> probe(t.nodes[i]) < 0
      decreases if x == null then 0 else x.hi - x.lo
    {
      assert t.Placed(x) && t.ChildrenOk(x);
      if probe(x) < 0 {
        if x.left == null {
          UpperBoundIs(t.nodes, probe, x.pos);
          return x;
        }
        x := x.left;
      } else {
        if x.right == null {
          UpperBoundIs(t.nodes, probe, x.pos + 1);
          r := GetNext(t, x);
          return;
        }
        x := x.right;
      }
    }
    return null;
  }

  /** The last node the key is greater than. */
  method GetLower(t: RedBlackTree, probe: Node -> int) returns (r: Node?)
    requires t.Linked() && Falling(t.nodes, probe)
    ensures r == Seat(t, LowerBound(t.nodes, probe) - 1)
  {
    var x := t.root;
    while x != null
      invariant x == null ==> t.nodes == []
      invariant x != null ==> x in t.repr && 0 <= x.lo <= x.hi <= |t.nodes|
      invariant x != null ==> forall i :: 0 <= i < x.lo ==> probe(t.nodes[i]) > 0
      invariant x != null ==> forall i :: x.hi <= i < |t.nodes| ==> probe(t.nodes[i]) <= 0
      decreases if x == null then 0 else x.hi - x.lo
    {
      assert t.Placed(x) && t.ChildrenOk(x);
      if probe(x) > 0 {
        if x.right == null {
          LowerBoundIs(t.nodes, probe, x.pos + 1);
          return x;
        }
        x := x.right;
      } else {
        if x.left == null {
          LowerBoundIs(t.nodes, probe, x.pos);
          r := GetPrev(t, x);
          return;
        }
        x := x.left;
      }
    }
    return null;
  }

  /** The forward iterator: it hands out a node only after it has saved the next one. */
  class Iterator {
    var next: Node?

    constructor ()
      ensures next == null
    {
      next := null;
    }

    method Begin(t: RedBlackTree) returns (x: Node?)
      requires t.Linked()
      modifies this
      ensures x == Seat(t, 0) && next == Seat(t, 1)
    {
      next := GetFirst(t);
      x := Next(t, 0);
    }

    method Next(ghost t: RedBlackTree, ghost k: nat) returns (x: Node?)
      requires t.Linked() && next == Seat(t, k)
      modifies this
      ensures x == Seat(t, k) && next == Seat(t, k + 1)
    {
      x := next;
      if x != null {
        assert t.SeatOk(k);
        next := GetNext(t, x);
      }
    }
  }

  /** The reverse iterator. */
  class ReverseIterator {
    var next: Node?

    constructor ()
      ensures next == null
    {
      next := null;
    }

    method Begin(t: RedBlackTree) returns (x: Node?)
      requires t.Linked()
      modifies this
      ensures x == Seat(t, |t.nodes| - 1) && next == Seat(t, |t.nodes| - 2)
    {
      next := GetLast(t);
      x := Next(t, |t.nodes| - 1);
    }

    method Next(ghost t: RedBlackTree, ghost k: int) returns (x: Node?)
      requires t.Linked() && next == Seat(t, k) && k < |t.nodes|
      modifies this
      ensures x == Seat(t, k) && next == Seat(t, k - 1)
    {
      x := next;
      if x != null {
        assert t.SeatOk(k);
        next := GetPrev(t, x);
      }
    }
  }

  /** Removes the node x at place k if it is in drop. */
  method RemoveIf(t: RedBlackTree, x: Node, drop: set<Node>, ghost k: nat)
    requires t.Valid() && k < |t.nodes| && x == t.nodes[k]
    modifies t, t.repr
    ensures t.Valid() && t.repr <= old(t.repr)
    ensures t.nodes == if x in drop then RemoveAt(old(t.nodes), k) else old(t.nodes)
  {
    assert t.SeatOk(k);
    if x in drop {
      t.Remove(x);
    }
  }

  /** Comes to the node x, removes it if it is in drop, and goes on with the rest. */
  method SweepOnce(t: RedBlackTree, it: Iterator, x: Node, drop: set<Node>, ghost kept: seq<Node>,
                   ghost rest: seq<Node>)
    returns (next: Node?, ghost kept': seq<Node>)
    requires t.Valid() && t.nodes == kept + ([x] + rest) && it.next == Seat(t, |kept| + 1)
    modifies t, t.repr, it
    ensures t.Valid() && t.repr <= old(t.repr)
    ensures t.nodes == kept' + rest && kept' == kept + if x in drop then [] else [x]
    ensures next == Seat(t, |kept'|) && it.next == Seat(t, |kept'| + 1)
  {
    SweepStep(kept, x, rest);
    kept' := kept + if x in drop then [] else [x];
    RemoveIf(t, x, drop, |kept|);
    next := it.Next(t, |kept'|);
  }

  /** A forward pass from the node x at place n of the sequence all on, when the nodes
      kept are what is left of those before it. */
  method SweepFrom(t: RedBlackTree, it: Iterator, x: Node?, drop: set<Node>,
                   ghost all: seq<Node>, ghost n: nat, ghost kept: seq<Node>)
    returns (visited: seq<Node>)
    requires t.Valid() && n <= |all| && t.nodes == kept + all[n..]
    requires x == Seat(t, |kept|) && it.next == Seat(t, |kept| + 1)
    modifies t, t.repr, it
    ensures t.Valid() && visited == all[n..] && t.nodes == kept + Kept(all, n, drop)
    decreases |all| - n
  {
    if x == null {
      return [];
    }
    var y: Node := x;
    assert all[n..] == [y] + all[n + 1..];
    var next, kept' := SweepOnce(t, it, y, drop, kept, all[n + 1..]);
    KeptStep(kept, all, n, drop, kept');
    var later := SweepFrom(t, it, next, drop, all, n + 1, kept');
    visited := [y] + later;
  }

  /** A pass over the tree that removes any of the nodes the iterator hands out still
      visits every node once, in order, and leaves exactly the others. */
  method Sweep(t: RedBlackTree, drop: set<Node>) returns (visited: seq<Node>)
    requires t.Valid()
    modifies t, t.repr
    ensures t.Valid() && visited == old(t.nodes) && t.nodes == Kept(visited, 0, drop)
  {
    var it := new Iterator();
    var x := it.Begin(t);
    visited := SweepFrom(t, it, x, drop, t.nodes, 0, []);
  }

  /** A backward pass from the node x at place n - 1 on. */
  method SweepBackFrom(t: RedBlackTree, it: ReverseIterator, x: Node?, drop: set<Node>,
                       ghost all: seq<Node>, ghost n: nat)
    returns (trail: seq<Node>)
    requires t.Valid() && n <= |all| && t.nodes == all[..n] + Kept(all, n, drop)
    requires x == Seat(t, n - 1) && it.next == Seat(t, n - 2)
    modifies t, t.repr, it
    ensures t.Valid() && trail == all[..n] && t.nodes == Kept(all, 0, drop)
    decreases n
  {
    if x == null {
      return [];
    }
    assert all[..n] == all[..n - 1] + [all[n - 1]];
    RemoveIf(t, x, drop, n - 1);
    var next := it.Next(t, n - 2);
    trail := SweepBackFrom(t, it, next, drop, all, n - 1);
    trail := trail + [x];
  }

  /** The same from the far end; trail holds the nodes visited, the latest in front. */
  method SweepBack(t: RedBlackTree, drop: set<Node>) returns (trail: seq<Node>)
    requires t.Valid()
    modifies t, t.repr
    ensures t.Valid() && trail == old(t.nodes) && t.nodes == Kept(trail, 0, drop)
  {
    var it := new ReverseIterator();
    var x := it.Begin(t);
    trail := SweepBackFrom(t, it, x, drop, t.nodes, |t.nodes|);
  }
}
