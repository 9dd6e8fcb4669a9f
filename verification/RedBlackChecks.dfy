/** What the invariant of the tree amounts to: the in-order walk over the real links,
    the debug checks of Include/RedBlackTree.h, and the bound on the height. */
module RedBlackChecks {
  import opened Powers
  import opened RedBlackTrees
  import opened RedBlackQueries
  import opened Sequences

  ghost function Size(x: Node?): nat
    reads {x}`lo, {x}`hi
  {
    if x == null || x.hi <= x.lo then 0 else x.hi - x.lo
  }

  ghost predicate Below(t: RedBlackTree, x: Node?)
    reads t, t.repr
  {
    t.Linked() && (x != null ==> x in t.repr)
  }

  lemma Links(t: RedBlackTree, x: Node)
    requires Below(t, x)
    ensures t.Placed(x) && t.ChildrenOk(x) && t.ParentOk(x)
    ensures Below(t, x.left) && Below(t, x.right) && Size(x.left) + Size(x.right) + 1 == Size(x)
  {
    assert t.Placed(x) && t.ChildrenOk(x) && t.ParentOk(x);
    assert x.left != null ==> t.Placed(x.left);
    assert x.right != null ==> t.Placed(x.right);
  }

  /** The in-order walk from the link x, by the links alone. */
  ghost function Walk(t: RedBlackTree, x: Node?): seq<Node>
    requires Below(t, x)
    reads t, t.repr
    decreases Size(x)
  {
    if x == null then [] else
      Links(t, x);
      Walk(t, x.left) + [x] + Walk(t, x.right)
  }

  lemma {:induction false} WalkIsSlice(t: RedBlackTree, x: Node)
    requires Below(t, x)
    ensures 0 <= x.lo <= x.hi <= |t.nodes| && Walk(t, x) == t.nodes[x.lo..x.hi]
    decreases Size(x)
  {
    Links(t, x);
    if x.left != null {
      WalkIsSlice(t, x.left);
    }
    if x.right != null {
      WalkIsSlice(t, x.right);
    }
    SliceSplits(t.nodes, x.lo, x.pos, x.hi);
  }

  /** The in-order sequence of a tree is what a walk over its links meets. */
  lemma {:induction false} WalkIsNodes(t: RedBlackTree)
    requires t.Valid()
    ensures Walk(t, t.root) == t.nodes && t.count == |Walk(t, t.root)|
  {
    if t.root != null {
      WalkIsSlice(t, t.root);
    }
  }

  /** The debug check on colours and links below x. */
  ghost predicate CheckRecursive(t: RedBlackTree, x: Node?)
    requires Below(t, x)
    reads t, t.repr
    decreases Size(x)
  {
    x != null ==>
      (Links(t, x);
       && (x == t.root || x.parent != null)
       && (x.red ==> !IsRed(x.left) && !IsRed(x.right) && x.parent != null && !x.parent.red)
       && (x.left != null ==> x.left != x.parent && x.left.parent == x)
       && (x.right != null ==> x.right != x.parent && x.right.parent == x && x.right != x.left)
       && CheckRecursive(t, x.left) && CheckRecursive(t, x.right))
  }

  /** The counts of black nodes with which the paths through x arrive at a null link. */
  ghost function BlackCounts(t: RedBlackTree, x: Node?, counter: int): set<int>
    requires Below(t, x)
    reads t, t.repr
    decreases Size(x)
  {
    if x == null then {counter} else
      Links(t, x);
      var c := if x.red then counter else counter + 1;
      BlackCounts(t, x.left, c) + BlackCounts(t, x.right, c)
  }

  lemma {:induction false} ColoursCheck(t: RedBlackTree, x: Node?)
    requires t.Valid() && Below(t, x)
    ensures CheckRecursive(t, x)
    decreases Size(x)
  {
    if x != null {
      Links(t, x);
      ColoursCheck(t, x.left);
      ColoursCheck(t, x.right);
      assert t.RedOk(x);
      if x.parent != null {
        Links(t, x.parent);
        assert t.RedOk(x.parent);
      }
    }
  }

  lemma {:induction false} BlacksCheck(t: RedBlackTree, x: Node?, counter: int)
    requires t.Valid() && Below(t, x)
    ensures BlackCounts(t, x, counter) == {counter + t.Bh(x)}
    decreases Size(x)
  {
    if x != null {
      Links(t, x);
      assert t.BlackOk(x);
      var c := if x.red then counter else counter + 1;
      BlacksCheck(t, x.left, c);
      BlacksCheck(t, x.right, c);
    }
  }

  /** CheckTree passes on every valid tree: the root is black and an orphan, no red node
      has a red child, and all paths hold the same number of black nodes. */
  lemma {:induction false} CheckTree(t: RedBlackTree)
    requires t.Valid() && t.root != null
    ensures !t.root.red && t.root.parent == null
    ensures CheckRecursive(t, t.root)
    ensures exists n :: BlackCounts(t, t.root, 1) == {n}
  {
    ColoursCheck(t, t.root);
    BlacksCheck(t, t.root, 1);
  }

  lemma {:induction false} HeightBound(t: RedBlackTree, x: Node?)
    requires t.Valid() && Below(t, x)
    ensures 0 <= t.Bh(x) && Pow2(t.Bh(x)) <= Size(x) + 1
    ensures Height(t, x) <= 2 * t.Bh(x) + if IsRed(x) then 1 else 0
    decreases Size(x)
  {
    if x != null {
      Links(t, x);
      assert t.BlackOk(x) && t.RedOk(x);
      HeightBound(t, x.left);
      HeightBound(t, x.right);
    }
  }

  lemma SquaresGrow(a: nat, b: nat)
    requires a <= b
    ensures a * a <= b * b
  {
    assert a * a <= a * b;
  }

  /** A tree of n nodes is at most 2 * log2(n + 1) high. */
  lemma {:induction false} HeightIsLogarithmic(t: RedBlackTree)
    requires t.Valid()
    ensures Pow2(Height(t, t.root)) <= (t.count + 1) * (t.count + 1)
  {
    HeightBound(t, t.root);
    var h, b := Height(t, t.root), t.Bh(t.root);
    if h < b + b {
      Pow2Grows(h, b + b);
    }
    Pow2Sum(b, b);
    SquaresGrow(Pow2(b), t.count + 1);
  }
}
