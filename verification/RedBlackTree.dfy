/** The intrusive red-black tree of Include/RedBlackTree.h: nodes with parent
    pointers that are recoloured, rotated and relinked in place. */
module RedBlackTrees {
  import opened Sequences

  /** An intrusive node. The ghost fields place the node in the in-order sequence
      of its tree: it is element pos, and its subtree is the stretch [lo, hi). The
      ghost field bh is the number of black nodes on a path from the node down to
      a null link. */
  class Node {
    var red: bool
    var tree: RedBlackTree?
    var left: Node?
    var right: Node?
    var parent: Node?
    ghost var pos: int
    ghost var lo: int
    ghost var hi: int
    ghost var bh: int

    constructor ()
      ensures !red && tree == null && left == null && right == null && parent == null
    {
      red := false;
      tree := null;
      left, right, parent := null, null, null;
      pos, lo, hi, bh := 0, 0, 1, 0;
    }
  }

  /** The colour of a link: a null link counts as black. */
  predicate IsRed(x: Node?)
    reads {x}`red
  {
    x != null && x.red
  }

  /** The key goes behind what is in front of place lo, and before what is behind place hi. */
  ghost predicate Between(s: seq<Node>, cmp: Node -> int, allowDuplicates: bool, lo: int, hi: int) {
    && 0 <= lo <= hi <= |s|
    && (forall i :: 0 <= i < lo ==> cmp(s[i]) >= 0 && (allowDuplicates || cmp(s[i]) > 0))
    && forall i :: hi <= i < |s| ==> cmp(s[i]) < 0
  }

  /** One comparison leaves half of the places, and the last one leaves the place of the key. */
  lemma BetweenHalves(s: seq<Node>, cmp: Node -> int, allowDuplicates: bool, lo: int, k: int, hi: int)
    requires Falling(s, cmp) && Between(s, cmp, allowDuplicates, lo, hi) && lo <= k < hi
    requires cmp(s[k]) != 0 || allowDuplicates
    ensures if cmp(s[k]) < 0 then Between(s, cmp, allowDuplicates, lo, k)
            else Between(s, cmp, allowDuplicates, k + 1, hi)
    ensures (if cmp(s[k]) < 0 then k == lo else k + 1 == hi) ==>
              && UpperBound(s, cmp) == (if cmp(s[k]) < 0 then k else k + 1)
              && (!allowDuplicates ==> forall x :: x in s ==> cmp(x) != 0)
  {
    if cmp(s[k]) < 0 && k == lo {
      UpperBoundIs(s, cmp, k);
    }
    if cmp(s[k]) >= 0 && k + 1 == hi {
      UpperBoundIs(s, cmp, k + 1);
    }
  }

  class RedBlackTree {
    var root: Node?
    var count: nat
    ghost var nodes: seq<Node>   // the in-order sequence
    ghost var repr: set<Node>    // the same nodes, as a set

    // What a running operation has left to repair; all three are null between calls.
    ghost var odd: Node?         // a red node that may hang below a red parent
    ghost var short: Node?       // the root of a subtree that is one black node short
    ghost var gone: Node?        // a leaf about to be unlinked, no longer counted as black

    /** x is in the tree, at the place its ghost fields say. */
    ghost predicate Placed(x: Node)
      reads this`nodes, x`tree, x`pos, x`lo, x`hi
    {
      && x.tree == this
      && 0 <= x.lo <= x.pos < x.hi <= |nodes|
      && nodes[x.pos] == x
    }

    /** The links of x agree with those of its children. */
    ghost predicate ChildrenOk(x: Node)
      reads this`repr, x`left, x`right, x`pos, x`lo, x`hi, repr`parent, repr`lo, repr`hi
    {
      && (if x.left == null then x.lo == x.pos
          else x.left in repr && x.left.parent == x && x.left.lo == x.lo && x.left.hi == x.pos)
      && (if x.right == null then x.hi == x.pos + 1
          else x.right in repr && x.right.parent == x && x.right.lo == x.pos + 1 && x.right.hi == x.hi)
    }

    /** The links of x agree with those of its parent. */
    ghost predicate ParentOk(x: Node)
      reads this`root, this`repr, x`parent, repr`left, repr`right
    {
      if x.parent == null then x == root
      else x.parent in repr && (x.parent.left == x || x.parent.right == x)
    }

    /** Place i of the in-order sequence is taken by a node of the tree that says so. */
    ghost predicate SeatOk(i: int)
      requires 0 <= i < |nodes|
      reads this`nodes, this`repr, repr`pos
    {
      nodes[i] in repr && nodes[i].pos == i
    }

    /** Every link of the tree is right; colours are free. */
    ghost predicate Linked()
      reads this`root, this`nodes, this`repr
      reads repr`tree, repr`left, repr`right, repr`parent, repr`pos, repr`lo, repr`hi
    {
      && (forall x {:trigger Placed(x)} :: x in repr ==> Placed(x))
      && (forall x {:trigger ChildrenOk(x)} :: x in repr ==> ChildrenOk(x))
      && (forall x {:trigger ParentOk(x)} :: x in repr ==> ParentOk(x))
      && (forall i {:trigger SeatOk(i)} :: 0 <= i < |nodes| ==> SeatOk(i))
      && (if root == null then nodes == []
          else root in repr && root.parent == null && root.lo == 0 && root.hi == |nodes|)
    }

    /** A red node has no red child. */
    ghost predicate RedOk(x: Node)
      reads this`odd, this`short, x`red, x`left, x`right, {x.left, x.right}`red
    {
      x.red && x != short ==> (x.left == odd || !IsRed(x.left)) && (x.right == odd || !IsRed(x.right))
    }

    ghost predicate RedsOk()
      reads this`odd, this`short, this`repr, repr`red, repr`left, repr`right, repr`parent, repr`pos, repr`lo, repr`hi
    {
      forall x {:trigger RedOk(x)} :: x in repr && ChildrenOk(x) ==> RedOk(x)
    }

    /** The black nodes below a link, as many as there will be when the repair is done. */
    ghost function Bh(x: Node?): int
      reads this`short, {x}`bh
    {
      if x == null then 0 else if x == short then x.bh + 1 else x.bh
    }

    ghost function Weight(x: Node): int
      reads this`gone, x`red
    {
      if x.red || x == gone then 0 else 1
    }

    /** Every path down from x to a null link has x.bh black nodes. */
    ghost predicate BlackOk(x: Node)
      reads this`short, this`gone, x`red, x`bh, x`left, x`right, {x.left, x.right}`bh
    {
      && x.bh == Bh(x.left) + Weight(x)
      && Bh(x.left) == Bh(x.right) >= 0
    }

    ghost predicate BlacksOk()
      reads this`short, this`gone, this`repr
      reads repr`red, repr`bh, repr`left, repr`right, repr`parent, repr`pos, repr`lo, repr`hi
    {
      forall x {:trigger BlackOk(x)} :: x in repr && ChildrenOk(x) ==> BlackOk(x)
    }

    /** The invariant that holds between calls. */
    ghost predicate Valid()
      reads this, repr
    {
      && Linked() && RedsOk() && BlacksOk()
      && odd == short == gone == null
      && !IsRed(root)
      && count == |nodes|
    }

    constructor ()
      ensures Valid() && nodes == [] && repr == {}
    {
      root := null;
      count := 0;
      nodes, repr := [], {};
      odd, short, gone := null, null, null;
    }

    /** Lets the parent link of the child c, if there is one, point to x. */
    static method AdoptChild(c: Node?, x: Node)
      modifies {c}`parent
      ensures c != null ==> c.parent == x
    {
      if c != null {
        c.parent := x;
      }
    }

    /** Lets the parent of x, or the root, point to y where it pointed to x. */
    method ReplaceChild(x: Node, y: Node?)
      modifies this`root, {x.parent}`left, {x.parent}`right
      ensures root == if x.parent == null then y else old(root)
      ensures x.parent != null ==>
                x.parent.left == (if old(x.parent.left) == x then y else old(x.parent.left)) &&
                x.parent.right == (if old(x.parent.left) == x then old(x.parent.right) else y)
    {
      if x.parent == null {
        root := y;
      } else if x == x.parent.left {
        x.parent.left := y;
      } else {
        x.parent.right := y;
      }
    }

    /** What a left rotation around x does to the fields of the tree. */
    twostate predicate LeftRotated(x: Node)
      requires old(x in repr && x.right != null && x.right in repr)
      requires old(x.parent != null ==> x.parent in repr)
      reads this, repr
    {
      var y, p, c := old(x.right), old(x.parent), old(x.right.left);
      && repr == old(repr) && nodes == old(nodes)
      && root == (if old(root) == x then y else old(root))
      && x.left == old(x.left) && x.right == c && x.parent == y
      && y.left == x && y.right == old(y.right) && y.parent == p
      && x.lo == old(x.lo) && x.hi == y.pos && y.lo == old(x.lo) && y.hi == old(y.hi)
      && (p != null ==> p.left == if old(p.left) == x then y else old(p.left))
      && (p != null ==> p.right == if old(p.left) == x then old(p.right) else y)
      && (forall z {:trigger z.left} {:trigger z.right} :: z in repr && z != x && z != y && z != p ==>
            z.left == old(z.left) && z.right == old(z.right))
      && (forall z {:trigger z.parent} :: z in repr && z != x && z != y ==>
            z.parent == if z == c then x else old(z.parent))
      && (forall z {:trigger z.lo} {:trigger z.hi} :: z in repr && z != x && z != y ==>
            z.lo == old(z.lo) && z.hi == old(z.hi))
      && (forall z {:trigger z.pos} {:trigger z.tree} :: z in repr ==> z.pos == old(z.pos) && z.tree == old(z.tree))
    }

    twostate lemma LeftRotatedPlaced(x: Node)
      requires old(Linked() && x in repr && x.right != null && ChildrenOk(x) && ParentOk(x))
      requires LeftRotated(x)
      ensures forall z {:trigger Placed(z)} :: z in repr ==> Placed(z)
    {
      var y := old(x.right);
      assert old(Placed(x) && Placed(y));
      forall z | z in repr ensures Placed(z) {
        assert old(Placed(z));
      }
    }

    twostate lemma LeftRotatedChildren(x: Node)
      requires old(Linked() && x in repr && x.right != null && ChildrenOk(x) && ParentOk(x))
      requires LeftRotated(x)
      ensures forall z {:trigger ChildrenOk(z)} :: z in repr ==> ChildrenOk(z)
    {
      var y := old(x.right);
      assert old(Placed(x) && Placed(y) && ChildrenOk(y));
      forall z | z in repr ensures ChildrenOk(z) {
        assert old(Placed(z) && ChildrenOk(z));
      }
    }

    twostate lemma LeftRotatedParent(x: Node)
      requires old(Linked() && x in repr && x.right != null && ChildrenOk(x) && ParentOk(x))
      requires LeftRotated(x)
      ensures forall z {:trigger ParentOk(z)} :: z in repr ==> ParentOk(z)
    {
      var y := old(x.right);
      assert old(Placed(x) && Placed(y) && ChildrenOk(y));
      forall z | z in repr ensures ParentOk(z) {
        assert old(Placed(z) && ParentOk(z) && ChildrenOk(z));
      }
    }

    method LeftRotate(x: Node)
      requires Linked() && x in repr && x.right != null && ChildrenOk(x) && ParentOk(x)
      modifies this`root, repr`left, repr`right, repr`parent, repr`lo, repr`hi
      ensures Linked() && LeftRotated(x)
    {
      var y := x.right;
      assert Placed(x) && Placed(y) && ChildrenOk(y);
      x.right := y.left;
      AdoptChild(y.left, x);
      y.parent := x.parent;
      ReplaceChild(x, y);
      y.left := x;
      x.parent := y;
      x.hi, y.lo := y.pos, x.lo;
      assert LeftRotated(x);
      LeftRotatedPlaced(x);
      LeftRotatedChildren(x);
      LeftRotatedParent(x);
    }

    /** After a rotation, colours and black counts differ only at the two nodes that
        turned and at the outer child of the upper one. */
    twostate predicate LeftColoursKept(x: Node)
      requires old(x in repr && x.right != null)
      reads this, repr
    {
      var y := old(x.right);
      var w := old(y.right);
      && gone == old(gone)
      && (short == old(short) || (short == null && (old(short) == x || old(x.left) == old(short))))
      && repr == old(repr)
      && (forall z {:trigger z.red} :: z in repr && z != x && z != y && z != w ==> z.red == old(z.red))
      && (forall z {:trigger z.bh} :: z in repr && z != x && z != y && z != w ==> z.bh == old(z.bh))
    }

    twostate lemma LeftRotatedBlacks(x: Node)
      requires old(Linked() && BlacksOk() && x in repr && x.right != null && ChildrenOk(x) && ParentOk(x))
      requires LeftRotated(x) && LeftColoursKept(x)
      requires BlackOk(x) && BlackOk(x.parent) && (x.parent.right != null ==> BlackOk(x.parent.right))
      requires Bh(x.parent) == old(Bh(x))
      ensures BlacksOk()
    {
      var y := old(x.right);
      assert old(Placed(x) && Placed(y) && ChildrenOk(y));
      forall z | z in repr ensures BlackOk(z) {
        assert old(Placed(z) && ChildrenOk(z) && ParentOk(z) && BlackOk(z));
      }
    }

    twostate lemma LeftRotatedReds(x: Node)
      requires old(Linked() && RedsOk() && x in repr && x.right != null && ChildrenOk(x) && ParentOk(x))
      requires LeftRotated(x) && LeftColoursKept(x)
      requires RedOk(x) && RedOk(x.parent) && (x.parent.right != null ==> RedOk(x.parent.right))
      requires x.parent.red ==> old(x.red)
      requires old(!IsRed(short) && (odd == null || odd.parent == x || odd.parent == x.right))
      ensures RedsOk()
    {
      var y := old(x.right);
      assert old(Placed(x) && Placed(y) && ChildrenOk(y));
      forall z | z in repr ensures RedOk(z) {
        assert old(Placed(z) && ChildrenOk(z) && ParentOk(z) && RedOk(z));
      }
    }

    /** What a right rotation around x does to the fields of the tree. */
    twostate predicate RightRotated(x: Node)
      requires old(x in repr && x.left != null && x.left in repr)
      requires old(x.parent != null ==> x.parent in repr)
      reads this, repr
    {
      var y, p, c := old(x.left), old(x.parent), old(x.left.right);
      && repr == old(repr) && nodes == old(nodes)
      && root == (if old(root) == x then y else old(root))
      && x.right == old(x.right) && x.left == c && x.parent == y
      && y.right == x && y.left == old(y.left) && y.parent == p
      && x.hi == old(x.hi) && x.lo == y.pos + 1 && y.hi == old(x.hi) && y.lo == old(y.lo)
      && (p != null ==> p.left == if old(p.left) == x then y else old(p.left))
      && (p != null ==> p.right == if old(p.left) == x then old(p.right) else y)
      && (forall z {:trigger z.left} {:trigger z.right} :: z in repr && z != x && z != y && z != p ==>
            z.left == old(z.left) && z.right == old(z.right))
      && (forall z {:trigger z.parent} :: z in repr && z != x && z != y ==>
            z.parent == if z == c then x else old(z.parent))
      && (forall z {:trigger z.lo} {:trigger z.hi} :: z in repr && z != x && z != y ==>
            z.lo == old(z.lo) && z.hi == old(z.hi))
      && (forall z {:trigger z.pos} {:trigger z.tree} :: z in repr ==> z.pos == old(z.pos) && z.tree == old(z.tree))
    }

    twostate lemma RightRotatedPlaced(x: Node)
      requires old(Linked() && x in repr && x.left != null && ChildrenOk(x) && ParentOk(x))
      requires RightRotated(x)
      ensures forall z {:trigger Placed(z)} :: z in repr ==> Placed(z)
    {
      var y := old(x.left);
      assert old(Placed(x) && Placed(y));
      forall z | z in repr ensures Placed(z) {
        assert old(Placed(z));
      }
    }

    twostate lemma RightRotatedChildren(x: Node)
      requires old(Linked() && x in repr && x.left != null && ChildrenOk(x) && ParentOk(x))
      requires RightRotated(x)
      ensures forall z {:trigger ChildrenOk(z)} :: z in repr ==> ChildrenOk(z)
    {
      var y := old(x.left);
      assert old(Placed(x) && Placed(y) && ChildrenOk(y));
      forall z | z in repr ensures ChildrenOk(z) {
        assert old(Placed(z) && ChildrenOk(z));
      }
    }

    twostate lemma RightRotatedParent(x: Node)
      requires old(Linked() && x in repr && x.left != null && ChildrenOk(x) && ParentOk(x))
      requires RightRotated(x)
      ensures forall z {:trigger ParentOk(z)} :: z in repr ==> ParentOk(z)
    {
      var y := old(x.left);
      assert old(Placed(x) && Placed(y) && ChildrenOk(y));
      forall z | z in repr ensures ParentOk(z) {
        assert old(Placed(z) && ParentOk(z) && ChildrenOk(z));
      }
    }

    method RightRotate(x: Node)
      requires Linked() && x in repr && x.left != null && ChildrenOk(x) && ParentOk(x)
      modifies this`root, repr`left, repr`right, repr`parent, repr`lo, repr`hi
      ensures Linked() && RightRotated(x)
    {
      var y := x.left;
      assert Placed(x) && Placed(y) && ChildrenOk(y);
      x.left := y.right;
      AdoptChild(y.right, x);
      y.parent := x.parent;
      ReplaceChild(x, y);
      y.right := x;
      x.parent := y;
      x.lo, y.hi := y.pos + 1, x.hi;
      assert RightRotated(x);
      RightRotatedPlaced(x);
      RightRotatedChildren(x);
      RightRotatedParent(x);
    }

    /** After a rotation, colours and black counts differ only at the two nodes that
        turned and at the outer child of the upper one. */
    twostate predicate RightColoursKept(x: Node)
      requires old(x in repr && x.left != null)
      reads this, repr
    {
      var y := old(x.left);
      var w := old(y.left);
      && gone == old(gone)
      && (short == old(short) || (short == null && (old(short) == x || old(x.right) == old(short))))
      && repr == old(repr)
      && (forall z {:trigger z.red} :: z in repr && z != x && z != y && z != w ==> z.red == old(z.red))
      && (forall z {:trigger z.bh} :: z in repr && z != x && z != y && z != w ==> z.bh == old(z.bh))
    }

    twostate lemma RightRotatedBlacks(x: Node)
      requires old(Linked() && BlacksOk() && x in repr && x.left != null && ChildrenOk(x) && ParentOk(x))
      requires RightRotated(x) && RightColoursKept(x)
      requires BlackOk(x) && BlackOk(x.parent) && (x.parent.left != null ==> BlackOk(x.parent.left))
      requires Bh(x.parent) == old(Bh(x))
      ensures BlacksOk()
    {
      var y := old(x.left);
      assert old(Placed(x) && Placed(y) && ChildrenOk(y));
      forall z | z in repr ensures BlackOk(z) {
        assert old(Placed(z) && ChildrenOk(z) && ParentOk(z) && BlackOk(z));
      }
    }

    twostate lemma RightRotatedReds(x: Node)
      requires old(Linked() && RedsOk() && x in repr && x.left != null && ChildrenOk(x) && ParentOk(x))
      requires RightRotated(x) && RightColoursKept(x)
      requires RedOk(x) && RedOk(x.parent) && (x.parent.left != null ==> RedOk(x.parent.left))
      requires x.parent.red ==> old(x.red)
      requires old(!IsRed(short) && (odd == null || odd.parent == x || odd.parent == x.left))
      ensures RedsOk()
    {
      var y := old(x.left);
      assert old(Placed(x) && Placed(y) && ChildrenOk(y));
      forall z | z in repr ensures RedOk(z) {
        assert old(Placed(z) && ChildrenOk(z) && ParentOk(z) && RedOk(z));
      }
    }

    /** The node up turns black and the node down red, as when up takes the place of down. */
    method TradeColours(up: Node, down: Node)
      requires up != down
      modifies {up, down}`red, {up, down}`bh
      ensures !up.red && down.red && up.bh == old(up.bh) + 1 && down.bh == old(down.bh) - 1
    {
      up.red := false;
      down.red := true;
      up.bh, down.bh := up.bh + 1, down.bh - 1;
    }

    /** The repair after an insertion is at the red node odd; everything else is right. */
    ghost predicate RedAtOdd()
      reads this, repr
    {
      && Linked() && RedsOk() && BlacksOk()
      && short == gone == null
      && odd != null && odd in repr && odd.red
      && (IsRed(root) ==> root == odd)
    }

    /** odd hangs below the red node p, which hangs below the black node g. */
    ghost predicate RedChain(p: Node, g: Node)
      reads this, repr
    {
      && odd != null && odd in repr && p in repr && g in repr
      && odd.parent == p && p.parent == g && p.red && !g.red
      && ParentOk(odd) && ParentOk(p) && ParentOk(g) && ChildrenOk(odd) && ChildrenOk(p) && ChildrenOk(g)
    }

    lemma RedParentHasParent()
      requires RedAtOdd() && odd != root
      ensures odd.parent != null && odd.parent in repr && odd.hi - odd.lo <= |nodes|
      ensures odd.parent.red ==> odd.parent.parent != null && RedChain(odd.parent, odd.parent.parent)
      ensures odd.parent.red ==> odd.parent.parent.left != odd.parent.parent.right
    {
      assert ParentOk(odd) && ParentOk(odd.parent) && Placed(odd);
      assert ChildrenOk(odd) && ChildrenOk(odd.parent);
      if odd.parent.red {
        var g := odd.parent.parent;
        assert ParentOk(g) && ChildrenOk(g) && RedOk(g) && Placed(g) && Placed(odd.parent);
      }
    }

    /** No link changes, only colours may. */
    twostate predicate SameLinks()
      reads this, repr
    {
      && unchanged(`root, `nodes, `repr)
      && unchanged(repr`tree, repr`left, repr`right, repr`parent, repr`pos, repr`lo, repr`hi)
    }

    /** Both children of the grandparent g turn black, and g turns red. */
    twostate predicate FamilyRecoloured(g: Node)
      requires old(g in repr && g.left != null && g.right != null && g.left in repr && g.right in repr)
      reads this, repr
    {
      && SameLinks()
      && unchanged(`short, `gone) && odd == g
      && (forall z {:trigger z.red} :: z in repr ==>
            z.red == if z == g then true else if z == old(g.left) || z == old(g.right) then false else old(z.red))
      && (forall z {:trigger z.bh} :: z in repr ==>
            z.bh == if z == old(g.left) || z == old(g.right) then old(z.bh) + 1 else old(z.bh))
    }

    twostate lemma FamilyRecolouredRedAtOdd(g: Node)
      requires old(RedAtOdd() && g in repr && ChildrenOk(g) && !g.red && IsRed(g.left) && IsRed(g.right))
      requires old(odd.parent == g.left || odd.parent == g.right)
      requires FamilyRecoloured(g)
      ensures RedAtOdd()
    {
      var l, r := old(g.left), old(g.right);
      assert old(Placed(g) && Placed(l) && Placed(r) && ChildrenOk(g) && BlackOk(g));
      assert Linked();
      forall z | z in repr ensures RedOk(z) && BlackOk(z) {
        assert old(Placed(z) && ChildrenOk(z) && ParentOk(z) && RedOk(z) && BlackOk(z));
      }
    }

    /** Parent and uncle turn black, the grandparent red. */
    method Recolour(p: Node, g: Node, uncle: Node)
      requires {p, g, uncle} <= repr && p != g && p != uncle && g != uncle && {g.left, g.right} == {p, uncle}
      modifies this`odd, {p, uncle, g}`red, {p, uncle}`bh
      ensures FamilyRecoloured(g)
    {
      p.red := false;
      uncle.red := false;
      g.red := true;
      p.bh, uncle.bh, odd := p.bh + 1, uncle.bh + 1, g;
    }

    /** First case: the uncle is red too. */
    method RecolourFamily(p: Node, g: Node, uncle: Node)
      requires RedAtOdd() && RedChain(p, g)
      requires uncle.red && (uncle == g.left || uncle == g.right) && uncle != p
      modifies this`odd, {p, uncle, g}`red, {p, uncle}`bh
      ensures RedAtOdd() && odd == g && odd.hi - odd.lo > old(odd.hi - odd.lo)
    {
      assert Placed(p) && Placed(g) && Placed(uncle);
      Recolour(p, g, uncle);
      FamilyRecolouredRedAtOdd(g);
    }

    twostate lemma LeftStraightened(p: Node)
      requires old(RedAtOdd() && odd.parent == p && p.parent != null && RedChain(p, p.parent) && odd == p.right)
      requires LeftRotated(p) && unchanged(`short, `gone) && unchanged(repr`red, repr`bh) && odd == p
      requires Linked()
      ensures RedAtOdd()
      ensures RedChain(old(odd), old(p.parent)) && odd.parent == old(odd)
    {
      var v, g := old(odd), old(p.parent);
      assert old(Placed(p) && Placed(v) && Placed(g) && ChildrenOk(v));
      assert old(RedOk(p) && RedOk(v) && RedOk(g) && BlackOk(p) && BlackOk(v));
      assert v.right != null ==> old(RedOk(v.right) && BlackOk(v.right) && ChildrenOk(v.right));
      assert v.right != null ==> ChildrenOk(v.right);
      LeftRotatedBlacks(p);
      LeftRotatedReds(p);
      assert ChildrenOk(p) && ChildrenOk(v) && ChildrenOk(g) && ParentOk(p) && ParentOk(v) && ParentOk(g);
    }

    /** Second case: the uncle is black and odd is an inner grandchild. A rotation makes it an outer one. */
    method StraightenLeft(p: Node, g: Node)
      requires RedAtOdd() && RedChain(p, g) && odd == p.right
      modifies this`root, this`odd, repr`left, repr`right, repr`parent, repr`lo, repr`hi
      ensures RedAtOdd() && odd == p && RedChain(old(odd), g) && p.parent == old(odd) && p == old(odd).left
      ensures g.left == (if old(g.left) == p then old(odd) else old(g.left))
      ensures g.right == (if old(g.left) == p then old(g.right) else old(odd))
    {
      LeftRotate(p);
      odd := p;
      LeftStraightened(p);
    }

    twostate lemma RightStraightened(p: Node)
      requires old(RedAtOdd() && odd.parent == p && p.parent != null && RedChain(p, p.parent) && odd == p.left)
      requires RightRotated(p) && unchanged(`short, `gone) && unchanged(repr`red, repr`bh) && odd == p
      requires Linked()
      ensures RedAtOdd()
      ensures RedChain(old(odd), old(p.parent)) && odd.parent == old(odd)
    {
      var v, g := old(odd), old(p.parent);
      assert old(Placed(p) && Placed(v) && Placed(g) && ChildrenOk(v));
      assert old(RedOk(p) && RedOk(v) && RedOk(g) && BlackOk(p) && BlackOk(v));
      assert v.left != null ==> old(RedOk(v.left) && BlackOk(v.left) && ChildrenOk(v.left));
      assert v.left != null ==> ChildrenOk(v.left);
      RightRotatedBlacks(p);
      RightRotatedReds(p);
      assert ChildrenOk(p) && ChildrenOk(v) && ChildrenOk(g) && ParentOk(p) && ParentOk(v) && ParentOk(g);
    }

    /** Second case: the uncle is black and odd is an inner grandchild. A rotation makes it an outer one. */
    method StraightenRight(p: Node, g: Node)
      requires RedAtOdd() && RedChain(p, g) && odd == p.left
      modifies this`root, this`odd, repr`left, repr`right, repr`parent, repr`lo, repr`hi
      ensures RedAtOdd() && odd == p && RedChain(old(odd), g) && p.parent == old(odd) && p == old(odd).right
      ensures g.left == (if old(g.left) == p then old(odd) else old(g.left))
      ensures g.right == (if old(g.left) == p then old(g.right) else old(odd))
    {
      RightRotate(p);
      odd := p;
      RightStraightened(p);
    }

    twostate lemma RightLifted(g: Node)
      requires old(RedAtOdd() && g in repr && g.left != null && RedChain(g.left, g) && odd == g.left.left
                 && !IsRed(g.right))
      requires RightRotated(g) && RightColoursKept(g) && unchanged(`short, `odd)
               && unchanged({old(odd)}`red, {old(odd)}`bh)
      requires g.red && !g.parent.red && g.bh == old(g.bh) - 1 && g.parent.bh == old(g.left.bh) + 1
      requires Linked()
      ensures RedAtOdd()
    {
      var v, p := old(odd), old(g.left);
      assert old(Placed(p) && Placed(v) && Placed(g));
      assert old(RedOk(p) && RedOk(v) && RedOk(g) && BlackOk(p) && BlackOk(v) && BlackOk(g));
      assert ChildrenOk(p) && ChildrenOk(v) && ChildrenOk(g);
      RightRotatedBlacks(g);
      RightRotatedReds(g);
    }

    /** Third case: the uncle is black and odd an outer grandchild. The parent turns
        black, the grandparent red, and the parent takes the place of the grandparent. */
    method LiftRight(p: Node, g: Node)
      requires RedAtOdd() && RedChain(p, g) && p == g.left && odd == p.left && !IsRed(g.right)
      modifies this`root, {p, g}`red, {p, g}`bh, repr`left, repr`right, repr`parent, repr`lo, repr`hi
      ensures RedAtOdd() && odd.parent == p && !p.red
    {
      assert Placed(p) && Placed(g) && Placed(odd);
      TradeColours(p, g);
      assert Linked();
      RightRotate(g);
      RightLifted(g);
    }

    twostate lemma LeftLifted(g: Node)
      requires old(RedAtOdd() && g in repr && g.right != null && RedChain(g.right, g) && odd == g.right.right
                 && !IsRed(g.left))
      requires LeftRotated(g) && LeftColoursKept(g) && unchanged(`short, `odd)
               && unchanged({old(odd)}`red, {old(odd)}`bh)
      requires g.red && !g.parent.red && g.bh == old(g.bh) - 1 && g.parent.bh == old(g.right.bh) + 1
      requires Linked()
      ensures RedAtOdd()
    {
      var v, p := old(odd), old(g.right);
      assert old(Placed(p) && Placed(v) && Placed(g));
      assert old(RedOk(p) && RedOk(v) && RedOk(g) && BlackOk(p) && BlackOk(v) && BlackOk(g));
      assert ChildrenOk(p) && ChildrenOk(v) && ChildrenOk(g);
      LeftRotatedBlacks(g);
      LeftRotatedReds(g);
    }

    /** Third case: the uncle is black and odd an outer grandchild. The parent turns
        black, the grandparent red, and the parent takes the place of the grandparent. */
    method LiftLeft(p: Node, g: Node)
      requires RedAtOdd() && RedChain(p, g) && p == g.right && odd == p.right && !IsRed(g.left)
      modifies this`root, {p, g}`red, {p, g}`bh, repr`left, repr`right, repr`parent, repr`lo, repr`hi
      ensures RedAtOdd() && odd.parent == p && !p.red
    {
      assert Placed(p) && Placed(g) && Placed(odd);
      TradeColours(p, g);
      assert Linked();
      LeftRotate(g);
      LeftLifted(g);
    }

    /** A new red leaf hangs to the left of p; the places behind it move up by one. */
    twostate predicate HookedLeft(p: Node)
      requires old(p in repr)
      reads this, repr, p, p.left
    {
      var n, k := p.left, old(p.pos);
      && n != null && n !in old(repr) && repr == old(repr) + {n}
      && 0 <= k < |old(nodes)| && nodes == old(nodes)[..k] + [n] + old(nodes)[k..]
      && n.tree == this && n.parent == p && n.left == n.right == null && n.pos == n.lo == k && n.hi == k + 1
      && unchanged(`root) && unchanged(old(repr)`tree, old(repr)`parent, old(repr)`right)
      && unchanged((old(repr) - {p})`left)
      && (forall z {:trigger z.pos} :: z in old(repr) ==> z.pos == old(z.pos) + if old(z.pos) >= k then 1 else 0)
      && (forall z {:trigger z.lo} :: z in old(repr) ==> z.lo == old(z.lo) + if old(z.lo) > k then 1 else 0)
      && (forall z {:trigger z.hi} :: z in old(repr) ==> z.hi == old(z.hi) + if old(z.hi) > k then 1 else 0)
    }

    twostate lemma HookedLeftPlaced(p: Node)
      requires old(Linked() && p in repr && p.left == null && ChildrenOk(p))
      requires HookedLeft(p)
      ensures forall z {:trigger Placed(z)} :: z in repr ==> Placed(z)
      ensures forall i {:trigger SeatOk(i)} :: 0 <= i < |nodes| ==> SeatOk(i)
    {
      assert old(Placed(p));
      forall z | z in repr ensures Placed(z) {
        if z in old(repr) {
          assert old(Placed(z));
        }
      }
      forall i | 0 <= i < |nodes| ensures SeatOk(i) {
        var j := if i > old(p.pos) then i - 1 else i;
        assert i != old(p.pos) ==> nodes[i] == old(nodes)[j] && old(SeatOk(j));
      }
    }

    twostate lemma HookedLeftChildren(p: Node)
      requires old(Linked() && p in repr && p.left == null && ChildrenOk(p))
      requires HookedLeft(p)
      ensures forall z {:trigger ChildrenOk(z)} :: z in repr ==> ChildrenOk(z)
      ensures forall z {:trigger ParentOk(z)} :: z in repr ==> ParentOk(z)
    {
      assert old(Placed(p));
      forall z | z in repr ensures ChildrenOk(z) {
        if z in old(repr) {
          assert old(Placed(z) && ChildrenOk(z));
        }
      }
      forall z | z in repr ensures ParentOk(z) {
        if z in old(repr) {
          assert old(ParentOk(z));
        }
      }
    }

    /** A new red leaf hangs to the right of p; the places behind it move up by one. */
    twostate predicate HookedRight(p: Node)
      requires old(p in repr)
      reads this, repr, p, p.right
    {
      var n, k := p.right, old(p.pos) + 1;
      && n != null && n !in old(repr) && repr == old(repr) + {n}
      && 0 <= k <= |old(nodes)| && nodes == old(nodes)[..k] + [n] + old(nodes)[k..]
      && n.tree == this && n.parent == p && n.left == n.right == null && n.pos == n.lo == k && n.hi == k + 1
      && unchanged(`root) && unchanged(old(repr)`tree, old(repr)`parent, old(repr)`left)
      && unchanged((old(repr) - {p})`right)
      && (forall z {:trigger z.pos} :: z in old(repr) ==> z.pos == old(z.pos) + if old(z.pos) >= k then 1 else 0)
      && (forall z {:trigger z.lo} :: z in old(repr) ==> z.lo == old(z.lo) + if old(z.lo) >= k then 1 else 0)
      && (forall z {:trigger z.hi} :: z in old(repr) ==> z.hi == old(z.hi) + if old(z.hi) >= k then 1 else 0)
    }

    twostate lemma HookedRightPlaced(p: Node)
      requires old(Linked() && p in repr && p.right == null && ChildrenOk(p))
      requires HookedRight(p)
      ensures forall z {:trigger Placed(z)} :: z in repr ==> Placed(z)
      ensures forall i {:trigger SeatOk(i)} :: 0 <= i < |nodes| ==> SeatOk(i)
    {
      assert old(Placed(p));
      forall z | z in repr ensures Placed(z) {
        if z in old(repr) {
          assert old(Placed(z));
        }
      }
      forall i | 0 <= i < |nodes| ensures SeatOk(i) {
        var j := if i > old(p.pos) + 1 then i - 1 else i;
        assert i != old(p.pos) + 1 ==> nodes[i] == old(nodes)[j] && old(SeatOk(j));
      }
    }

    twostate lemma HookedRightChildren(p: Node)
      requires old(Linked() && p in repr && p.right == null && ChildrenOk(p))
      requires HookedRight(p)
      ensures forall z {:trigger ChildrenOk(z)} :: z in repr ==> ChildrenOk(z)
      ensures forall z {:trigger ParentOk(z)} :: z in repr ==> ParentOk(z)
    {
      assert old(Placed(p));
      forall z | z in repr ensures ChildrenOk(z) {
        if z in old(repr) {
          assert old(Placed(z) && ChildrenOk(z));
        }
      }
      forall z | z in repr ensures ParentOk(z) {
        if z in old(repr) {
          assert old(ParentOk(z));
        }
      }
    }

    twostate lemma HookedColours(p: Node)
      requires old(Valid() && p in repr && ChildrenOk(p))
      requires (old(p.left) == null && HookedLeft(p) && odd == p.left)
               || (old(p.right) == null && HookedRight(p) && odd == p.right)
      requires unchanged(old(repr)`red, old(repr)`bh) && unchanged(`short, `gone)
      requires Linked() && odd.red && odd.bh == 0
      ensures RedAtOdd()
    {
      assert old(Placed(p));
      forall z | z in repr ensures RedOk(z) && BlackOk(z) {
        if z in old(repr) {
          assert old(Placed(z) && ChildrenOk(z) && RedOk(z) && BlackOk(z));
        }
      }
    }

    /** Makes n a red leaf below p, at place k. */
    method InitLeaf(n: Node, p: Node, ghost k: int)
      modifies n
      ensures n.left == n.right == null && n.parent == p && n.tree == this && n.red
      ensures n.pos == n.lo == k && n.hi == k + 1 && n.bh == 0
    {
      n.left, n.right := null, null;
      n.parent := p;
      n.tree := this;
      n.red := true;
      n.pos, n.lo, n.hi, n.bh := k, k, k + 1, 0;
    }

    /** Moves up the places of the in-order sequence from k on, to let in a new node;
        a subtree that starts at k moves up if below is set, else it grows. */
    ghost method MakeRoom(k: int, below: bool)
      modifies repr`pos, repr`lo, repr`hi
      ensures forall z {:trigger z.pos} :: z in repr ==> z.pos == old(z.pos) + if old(z.pos) >= k then 1 else 0
      ensures forall z {:trigger z.lo} :: z in repr ==> z.lo == old(z.lo) + if old(z.lo) > k
              || (below && old(z.lo) == k) then 1 else 0
      ensures forall z {:trigger z.hi} :: z in repr ==> z.hi == old(z.hi) + if old(z.hi) > k
              || (below && old(z.hi) == k) then 1 else 0
    {
      forall z | z in repr {
        z.pos := z.pos + if z.pos >= k then 1 else 0;
      }
      forall z | z in repr {
        z.lo := z.lo + if z.lo > k || (below && z.lo == k) then 1 else 0;
      }
      forall z | z in repr {
        z.hi := z.hi + if z.hi > k || (below && z.hi == k) then 1 else 0;
      }
    }

    twostate lemma HookedLeftRedAtOdd(p: Node)
      requires old(Valid() && p in repr && p.left == null)
      requires HookedLeft(p) && odd == p.left && unchanged(old(repr)`red, old(repr)`bh) && unchanged(`short, `gone)
      requires odd.red && odd.bh == 0
      ensures RedAtOdd()
    {
      assert old(ChildrenOk(p) && Placed(p));
      assert old(root != null && Placed(root));
      HookedLeftPlaced(p);
      HookedLeftChildren(p);
      HookedColours(p);
    }

    method HookLeft(n: Node, p: Node)
      requires Valid() && p in repr && p.left == null && n !in repr && 0 <= p.pos < |nodes|
      modifies this`nodes, this`repr, this`odd, n, p`left, repr`pos, repr`lo, repr`hi
      ensures RedAtOdd() && odd == n && nodes == InsertAt(old(nodes), old(p.pos), n) && repr == old(repr) + {n}
    {
      assert Placed(p) && ChildrenOk(p);
      ghost var k := p.pos;
      MakeRoom(k, false);
      InitLeaf(n, p, k);
      p.left := n;
      odd, repr, nodes := n, repr + {n}, nodes[..k] + [n] + nodes[k..];
      HookedLeftRedAtOdd(p);
    }

    twostate lemma HookedRightRedAtOdd(p: Node)
      requires old(Valid() && p in repr && p.right == null)
      requires HookedRight(p) && odd == p.right && unchanged(old(repr)`red, old(repr)`bh) && unchanged(`short, `gone)
      requires odd.red && odd.bh == 0
      ensures RedAtOdd()
    {
      assert old(ChildrenOk(p) && Placed(p));
      assert old(root != null && Placed(root));
      HookedRightPlaced(p);
      HookedRightChildren(p);
      HookedColours(p);
    }

    method HookRight(n: Node, p: Node)
      requires Valid() && p in repr && p.right == null && n !in repr && 0 <= p.pos < |nodes|
      modifies this`nodes, this`repr, this`odd, n, p`right, repr`pos, repr`lo, repr`hi
      ensures RedAtOdd() && odd == n && nodes == InsertAt(old(nodes), old(p.pos) + 1, n) && repr == old(repr) + {n}
    {
      assert Placed(p) && ChildrenOk(p);
      ghost var k := p.pos + 1;
      MakeRoom(k, true);
      InitLeaf(n, p, k);
      p.right := n;
      odd, repr, nodes := n, repr + {n}, nodes[..k] + [n] + nodes[k..];
      HookedRightRedAtOdd(p);
    }

    twostate lemma RootPainted()
      requires old(RedAtOdd() && (odd == root || !IsRed(odd.parent)) && root != null && ParentOk(odd) && root in repr)
      requires SameLinks() && unchanged(`short, `gone) && odd == null
      requires unchanged((repr - {root})`red, (repr - {root})`bh) && !root.red
      requires root.bh == old(root.bh) + old(if root.red then 1 else 0)
      ensures Linked() && RedsOk() && BlacksOk()
    {
      assert old(Placed(root));
      assert Linked();
      forall z | z in repr ensures RedOk(z) && BlackOk(z) {
        assert old(Placed(z) && ChildrenOk(z) && ParentOk(z) && RedOk(z) && BlackOk(z));
      }
    }

    /** The first node is always black. */
    method BlackenRoot()
      requires RedAtOdd() && (odd == root || !IsRed(odd.parent))
      modifies this`odd, {root}`red, {root}`bh
      ensures Linked() && RedsOk() && BlacksOk() && odd == short == gone == null && !IsRed(root)
    {
      assert Placed(odd) && ParentOk(odd);
      ghost var b := if root.red then 1 else 0;
      root.red := false;
      root.bh, odd := root.bh + b, null;
      RootPainted();
    }

    /** One round of the repair: the red node v hangs below the red p. Either the
        violation moves up to the grandparent g, or a rotation ends it. */
    method InsertStep(v: Node, p: Node, g: Node) returns (next: Node)
      requires RedAtOdd() && odd == v && RedChain(p, g) && g.left != g.right
      modifies this`root, this`odd, repr`red, repr`bh, repr`left, repr`right, repr`parent, repr`lo, repr`hi
      ensures RedAtOdd() && odd == next
      ensures IsRed(odd.parent) ==> odd.hi - odd.lo > old(odd.hi - odd.lo)
    {
      if p == g.left {
        var uncle := g.right;
        if IsRed(uncle) {
          RecolourFamily(p, g, uncle);
          next := g;
        } else if v == p.right {
          StraightenLeft(p, g);
          LiftRight(v, g);
          next := p;
        } else {
          LiftRight(p, g);
          next := v;
        }
      } else {
        var uncle := g.left;
        if IsRed(uncle) {
          RecolourFamily(p, g, uncle);
          next := g;
        } else if v == p.left {
          StraightenRight(p, g);
          LiftLeft(v, g);
          next := p;
        } else {
          LiftLeft(p, g);
          next := v;
        }
      }
    }

    /** Repairs the colours above a new red leaf, from the leaf towards the root. */
    method InsertFixup(n: Node)
      requires RedAtOdd() && odd == n
      modifies this`root, this`odd, repr`red, repr`bh, repr`left, repr`right, repr`parent, repr`lo, repr`hi
      ensures Linked() && RedsOk() && BlacksOk() && odd == short == gone == null && !IsRed(root)
    {
      var v := n;
      while v != root && IsRed(v.parent)
        invariant RedAtOdd() && odd == v
        decreases if v == root || !IsRed(v.parent) then 0 else 1 + |nodes| - (v.hi - v.lo)
      {
        RedParentHasParent();
        v := InsertStep(v, v.parent, v.parent.parent);
        assert Placed(v);
      }
      BlackenRoot();
    }

    /** Makes n the only node. */
    method InsertFirst(n: Node)
      requires Valid() && root == null
      modifies this, n
      ensures Valid() && nodes == [n] && repr == {n}
    {
      n.parent := null;
      n.left, n.right := null, null;
      n.tree := this;
      n.red := false;
      root := n;
      count := count + 1;
      nodes, repr := [n], {n};
      n.pos, n.lo, n.hi, n.bh := 0, 0, 1, 1;
      assert Placed(n) && ChildrenOk(n) && ParentOk(n) && RedOk(n) && BlackOk(n) && SeatOk(0);
    }

    /** Walks down from the root to the node p below which a new node belongs, to the
        left if c < 0; without duplicates it stops at a node that compares equal. */
    method FindLeaf(cmp: Node -> int, allowDuplicates: bool) returns (p: Node, c: int)
      requires Linked() && root != null && Falling(nodes, cmp)
      ensures p in repr && c == cmp(p) && Placed(p)
      ensures (c == 0 && !allowDuplicates) || (if c < 0 then p.left == null else p.right == null)
      ensures c != 0 || allowDuplicates ==> UpperBound(nodes, cmp) == if c < 0 then p.pos else p.pos + 1
      ensures c != 0 && !allowDuplicates ==> forall x :: x in nodes ==> cmp(x) != 0
    {
      var x: Node? := root;
      while true
        invariant x != null && x in repr && Placed(x) && Between(nodes, cmp, allowDuplicates, x.lo, x.hi)
        decreases x.hi - x.lo
      {
        p := x;
        c := cmp(x);
        assert ChildrenOk(p);
        if c == 0 && !allowDuplicates {
          return;
        }
        BetweenHalves(nodes, cmp, allowDuplicates, x.lo, x.pos, x.hi);
        x := if c < 0 then x.left else x.right;
        if x == null {
          return;
        }
        assert Placed(x);
      }
    }

    /** Puts n into the tree, directly after every node that it does not compare less
        than. cmp(x) is the comparison of n with x. Without duplicates, a node that
        compares equal is reported instead and nothing changes. */
    method Insert(n: Node, cmp: Node -> int, allowDuplicates: bool) returns (inserted: bool, matching: Node?)
      requires Valid() && n !in repr && n.parent == null && n.left == null && n.right == null
      requires Falling(nodes, cmp)
      modifies this, repr, n
      ensures Valid()
      ensures inserted <==> allowDuplicates || forall x :: x in old(nodes) ==> cmp(x) != 0
      ensures inserted ==> nodes == InsertAt(old(nodes), UpperBound(old(nodes), cmp), n) && repr == old(repr) + {n}
      ensures inserted ==> matching == null
      ensures !inserted ==> matching != null && matching in old(nodes) && cmp(matching) == 0
      ensures !inserted ==> unchanged(this) && unchanged(repr) && unchanged(n)
    {
      if root == null {
        assert forall x :: x in repr ==> !Placed(x);
        InsertFirst(n);
        return true, null;
      }
      var p, c := FindLeaf(cmp, allowDuplicates);
      if c == 0 && !allowDuplicates {
        assert Placed(p);
        return false, p;
      }
      if c < 0 {
        HookLeft(n, p);
      } else {
        HookRight(n, p);
      }
      InsertFixup(n);
      count := count + 1;
      return true, null;
    }

    /** The repair after a removal is at the node short, whose subtree is one black node
        short; the leaf gone, if there is one to unlink, lies in that subtree. */
    ghost predicate ShortAt()
      reads this, repr
    {
      && Linked() && RedsOk() && BlacksOk()
      && short != null && short in repr && (IsRed(root) ==> root == short)
      && (odd != null ==> odd == short && short.red)
      && GoneOk()
      && (gone != null ==> short.lo <= gone.pos < short.hi)
    }

    ghost predicate GoneOk()
      reads this, repr
    {
      gone != null ==> gone in repr && gone.left == gone.right == null && !gone.red
    }

    /** short is a black child of p, and s is its sibling. */
    ghost predicate Siblings(p: Node, s: Node)
      reads this, repr
    {
      && short != null && short in repr && !short.red && p in repr && s in repr && p != s
      && short.parent == p && s.parent == p && short != s
      && ((p.left == short && p.right == s) || (p.left == s && p.right == short))
      && ChildrenOk(p) && ChildrenOk(s) && ParentOk(p) && ParentOk(s)
      && Placed(p) && Placed(s) && Placed(short)
    }

    lemma ShortHasSibling()
      requires ShortAt() && short != root && !short.red
      ensures short.parent != null && short.parent in repr && short.hi - short.lo < short.parent.hi - short.parent.lo
      ensures short == short.parent.left ==> short.parent.right != null && Siblings(short.parent, short.parent.right)
      ensures short != short.parent.left ==> short.parent.left != null && Siblings(short.parent, short.parent.left)
    {
      assert ParentOk(short) && Placed(short) && ChildrenOk(short) && BlackOk(short);
      var p := short.parent;
      assert ParentOk(p) && ChildrenOk(p) && Placed(p) && BlackOk(p);
      var s := if short == p.left then p.right else p.left;
      assert s != null ==> Placed(s) && ChildrenOk(s) && ParentOk(s);
    }

    twostate lemma LeftSiblingTurned(p: Node)
      requires old(ShortAt() && p in repr && p.left == short && p.right != null && p.right.red && Siblings(p, p.right))
      requires LeftRotated(p) && LeftColoursKept(p) && unchanged(`odd, `short) && Linked()
      requires p.red && !p.parent.red && p.bh == old(p.bh) - 1 && p.parent.bh == old(p.right.bh) + 1
      requires p.parent.right != null ==>
              p.parent.right.red == old(p.right.right.red)
              && p.parent.right.bh == old(p.right.right.bh)
      ensures ShortAt()
      ensures p.right != null && Siblings(p, p.right) && !p.right.red
    {
      var s := old(p.right);
      assert old(RedOk(p) && RedOk(s) && BlackOk(p) && BlackOk(s) && BlackOk(short));
      assert s.right != null ==> old(RedOk(s.right) && BlackOk(s.right) && ChildrenOk(s.right)) && ChildrenOk(s.right);
      LeftRotatedBlacks(p);
      LeftRotatedReds(p);
      assert ChildrenOk(p) && ParentOk(p) && Placed(p) && Placed(s) && BlackOk(p);
      var t := p.right;
      assert t != null && Placed(t) && ChildrenOk(t) && ParentOk(t);
    }

    /** First case: the sibling is red. A rotation gives short a black sibling. */
    method TurnSiblingLeft(p: Node, s: Node)
      requires ShortAt() && Siblings(p, s) && p.left == short && s.red
      modifies this`root, {p, s}`red, {p, s}`bh, repr`left, repr`right, repr`parent, repr`lo, repr`hi
      ensures ShortAt() && p.right != null && Siblings(p, p.right) && !p.right.red && p.left == short
      ensures p.red
    {
      TradeColours(s, p);
      assert Linked();
      LeftRotate(p);
      LeftSiblingTurned(p);
    }

    twostate lemma RightSiblingTurned(p: Node)
      requires old(ShortAt() && p in repr && p.right == short && p.left != null && p.left.red && Siblings(p, p.left))
      requires RightRotated(p) && RightColoursKept(p) && unchanged(`odd, `short) && Linked()
      requires p.red && !p.parent.red && p.bh == old(p.bh) - 1 && p.parent.bh == old(p.left.bh) + 1
      requires p.parent.left != null ==>
              p.parent.left.red == old(p.left.left.red)
              && p.parent.left.bh == old(p.left.left.bh)
      ensures ShortAt()
      ensures p.left != null && Siblings(p, p.left) && !p.left.red
    {
      var s := old(p.left);
      assert old(RedOk(p) && RedOk(s) && BlackOk(p) && BlackOk(s) && BlackOk(short));
      assert s.left != null ==> old(RedOk(s.left) && BlackOk(s.left) && ChildrenOk(s.left)) && ChildrenOk(s.left);
      RightRotatedBlacks(p);
      RightRotatedReds(p);
      assert ChildrenOk(p) && ParentOk(p) && Placed(p) && Placed(s) && BlackOk(p);
      var t := p.left;
      assert t != null && Placed(t) && ChildrenOk(t) && ParentOk(t);
    }

    /** First case: the sibling is red. A rotation gives short a black sibling. */
    method TurnSiblingRight(p: Node, s: Node)
      requires ShortAt() && Siblings(p, s) && p.right == short && s.red
      modifies this`root, {p, s}`red, {p, s}`bh, repr`left, repr`right, repr`parent, repr`lo, repr`hi
      ensures ShortAt() && p.left != null && Siblings(p, p.left) && !p.left.red && p.right == short
      ensures p.red
    {
      TradeColours(s, p);
      assert Linked();
      RightRotate(p);
      RightSiblingTurned(p);
    }

    twostate lemma SiblingPainted(s: Node)
      requires old(ShortAt() && short.parent != null && s in repr && Siblings(short.parent, s))
      requires old(!s.red && !IsRed(s.left) && !IsRed(s.right))
      requires SameLinks() && unchanged(`odd, `gone) && short == old(short.parent)
      requires unchanged((repr - {s})`red) && unchanged((repr - {s, old(short.parent)})`bh) && s.red
      requires s.bh == old(s.bh) - 1 && short.bh == old(short.parent.bh) - 1
      ensures ShortAt()
    {
      var v, p := old(short), old(short.parent);
      assert old(BlackOk(p) && BlackOk(s));
      assert Linked();
      forall z | z in repr ensures RedOk(z) && BlackOk(z) {
        assert old(Placed(z) && ChildrenOk(z) && ParentOk(z) && RedOk(z) && BlackOk(z));
      }
    }

    /** Second case: the sibling and its children are black. The sibling turns red and
        the parent is the next node to look at. */
    method PaintSibling(p: Node, s: Node)
      requires ShortAt() && Siblings(p, s) && !s.red && !IsRed(s.left) && !IsRed(s.right)
      modifies this`short, {s}`red, {p, s}`bh
      ensures ShortAt() && short == p
    {
      s.red := true;
      s.bh, p.bh, short := s.bh - 1, p.bh - 1, p;
      SiblingPainted(s);
    }

    twostate lemma RightNephewBent(s: Node)
      requires old(ShortAt() && s in repr && s.parent != null && Siblings(s.parent, s) && s.parent.left == short)
      requires old(!s.red && s.left != null && s.left.red && !IsRed(s.right))
      requires RightRotated(s) && RightColoursKept(s) && unchanged(`odd, `short) && Linked()
      requires s.red && !s.parent.red && s.bh == old(s.bh) - 1 && s.parent.bh == old(s.left.bh) + 1
      requires s.parent.left != null ==>
              s.parent.left.red == old(s.left.left.red)
              && s.parent.left.bh == old(s.left.left.bh)
      ensures ShortAt()
      ensures s.parent.parent == old(s.parent) && s.parent.parent.right == s.parent
              && Siblings(s.parent.parent, s.parent)
      ensures s.parent.right == s && !s.parent.red
    {
      var p, y := old(s.parent), old(s.left);
      assert old(ChildrenOk(y) && Placed(y) && RedOk(y) && BlackOk(y) && RedOk(s) && BlackOk(s));
      assert y.left != null ==> old(RedOk(y.left) && BlackOk(y.left) && ChildrenOk(y.left)) && ChildrenOk(y.left);
      RightRotatedBlacks(s);
      RightRotatedReds(s);
      assert ChildrenOk(p) && ParentOk(p) && Placed(p) && Placed(y) && ChildrenOk(y) && ParentOk(y) && Placed(short);
    }

    /** Third case: the red nephew is the inner one. A rotation makes it the outer one. */
    method BendNephewRight(p: Node, s: Node)
      requires ShortAt() && Siblings(p, s) && p.left == short && !s.red
      requires s.left != null && s.left in repr && s.left.red && !IsRed(s.right)
      modifies this`root, {s, s.left}`red, {s, s.left}`bh, repr`left, repr`right, repr`parent, repr`lo, repr`hi
      ensures ShortAt() && p.left == short && p.right == old(s.left) && Siblings(p, p.right) && !p.right.red
              && IsRed(p.right.right)
      ensures s in repr && p.right.right == s && s != p && s.red
    {
      assert Placed(s.left) && ChildrenOk(s.left);
      assert s.left.left != null ==> Placed(s.left.left);
      TradeColours(s.left, s);
      assert Linked();
      RightRotate(s);
      RightNephewBent(s);
    }

    twostate lemma LeftNephewBent(s: Node)
      requires old(ShortAt() && s in repr && s.parent != null && Siblings(s.parent, s) && s.parent.right == short)
      requires old(!s.red && s.right != null && s.right.red && !IsRed(s.left))
      requires LeftRotated(s) && LeftColoursKept(s) && unchanged(`odd, `short) && Linked()
      requires s.red && !s.parent.red && s.bh == old(s.bh) - 1 && s.parent.bh == old(s.right.bh) + 1
      requires s.parent.right != null ==>
              s.parent.right.red == old(s.right.right.red)
              && s.parent.right.bh == old(s.right.right.bh)
      ensures ShortAt()
      ensures s.parent.parent == old(s.parent) && s.parent.parent.left == s.parent
              && Siblings(s.parent.parent, s.parent)
      ensures s.parent.left == s && !s.parent.red
    {
      var p, y := old(s.parent), old(s.right);
      assert old(ChildrenOk(y) && Placed(y) && RedOk(y) && BlackOk(y) && RedOk(s) && BlackOk(s));
      assert y.right != null ==> old(RedOk(y.right) && BlackOk(y.right) && ChildrenOk(y.right)) && ChildrenOk(y.right);
      LeftRotatedBlacks(s);
      LeftRotatedReds(s);
      assert ChildrenOk(p) && ParentOk(p) && Placed(p) && Placed(y) && ChildrenOk(y) && ParentOk(y) && Placed(short);
    }

    /** Third case: the red nephew is the inner one. A rotation makes it the outer one. */
    method BendNephewLeft(p: Node, s: Node)
      requires ShortAt() && Siblings(p, s) && p.right == short && !s.red
      requires s.right != null && s.right in repr && s.right.red && !IsRed(s.left)
      modifies this`root, {s, s.right}`red, {s, s.right}`bh, repr`left, repr`right, repr`parent, repr`lo, repr`hi
      ensures ShortAt() && p.right == short && p.left == old(s.right) && Siblings(p, p.left) && !p.left.red
              && IsRed(p.left.left)
      ensures s in repr && p.left.left == s && s != p && s.red
    {
      assert Placed(s.right) && ChildrenOk(s.right);
      assert s.right.right != null ==> Placed(s.right.right);
      TradeColours(s.right, s);
      assert Linked();
      LeftRotate(s);
      LeftNephewBent(s);
    }

    twostate lemma LeftSettled(p: Node)
      requires old(ShortAt() && p in repr && p.left == short && p.right != null && Siblings(p, p.right))
      requires old(!p.right.red && IsRed(p.right.right))
      requires LeftRotated(p) && LeftColoursKept(p) && unchanged(`odd) && short == null && Linked()
      requires p.parent.red == old(p.red) && !p.red && p.parent.right != null && !p.parent.right.red
      requires p.bh == old(p.right.bh) && p.parent.bh == old(p.bh) && p.parent.right.bh == old(p.right.right.bh) + 1
      ensures RedsOk() && BlacksOk() && GoneOk() && !IsRed(root)
    {
      var s, w := old(p.right), old(p.right.right);
      assert old(RedOk(p) && RedOk(s) && BlackOk(p) && BlackOk(s) && BlackOk(short));
      assert old(RedOk(w) && BlackOk(w) && ChildrenOk(w) && Placed(w));
      assert ChildrenOk(w);
      LeftRotatedBlacks(p);
      LeftRotatedReds(p);
    }

    twostate lemma RightSettled(p: Node)
      requires old(ShortAt() && p in repr && p.right == short && p.left != null && Siblings(p, p.left))
      requires old(!p.left.red && IsRed(p.left.left))
      requires RightRotated(p) && RightColoursKept(p) && unchanged(`odd) && short == null && Linked()
      requires p.parent.red == old(p.red) && !p.red && p.parent.left != null && !p.parent.left.red
      requires p.bh == old(p.left.bh) && p.parent.bh == old(p.bh) && p.parent.left.bh == old(p.left.left.bh) + 1
      ensures RedsOk() && BlacksOk() && GoneOk() && !IsRed(root)
    {
      var s, w := old(p.left), old(p.left.left);
      assert old(RedOk(p) && RedOk(s) && BlackOk(p) && BlackOk(s) && BlackOk(short));
      assert old(RedOk(w) && BlackOk(w) && ChildrenOk(w) && Placed(w));
      assert ChildrenOk(w);
      RightRotatedBlacks(p);
      RightRotatedReds(p);
    }

    /** The sibling s takes the colour of the parent p, and p and the outer nephew w turn black. */
    method PassColours(p: Node, s: Node, w: Node)
      requires p != s && p != w && s != w
      modifies {p, s, w}`red, {p, s, w}`bh
      ensures s.red == old(p.red) && !p.red && !w.red
      ensures p.bh == old(s.bh) && s.bh == old(p.bh) && w.bh == old(w.bh) + 1
    {
      s.red := p.red;
      p.red := false;
      w.red := false;
      p.bh, s.bh, w.bh := s.bh, p.bh, w.bh + 1;
    }

    /** Fourth case: the outer nephew is red. A rotation supplies the missing black node. */
    method SettleLeft(p: Node, s: Node)
      requires ShortAt() && Siblings(p, s) && p.left == short && !s.red && IsRed(s.right) && s.right in repr
      modifies this`root, this`short, {p, s, s.right}`red, {p, s, s.right}`bh
      modifies repr`left, repr`right, repr`parent, repr`lo, repr`hi
      ensures Linked() && RedsOk() && BlacksOk() && GoneOk() && !IsRed(root)
      ensures short == null && !old(short).red
    {
      assert Placed(s.right);
      PassColours(p, s, s.right);
      short := null;
      assert Linked();
      LeftRotate(p);
      LeftSettled(p);
    }

    /** Fourth case: the outer nephew is red. A rotation supplies the missing black node. */
    method SettleRight(p: Node, s: Node)
      requires ShortAt() && Siblings(p, s) && p.right == short && !s.red && IsRed(s.left) && s.left in repr
      modifies this`root, this`short, {p, s, s.left}`red, {p, s, s.left}`bh
      modifies repr`left, repr`right, repr`parent, repr`lo, repr`hi
      ensures Linked() && RedsOk() && BlacksOk() && GoneOk() && !IsRed(root)
      ensures short == null && !old(short).red
    {
      assert Placed(s.left);
      PassColours(p, s, s.left);
      short := null;
      assert Linked();
      RightRotate(p);
      RightSettled(p);
    }

    /** A nephew is red: the shortage ends. */
    method PatchLeft(p: Node)
      requires ShortAt() && p.left == short && p.right != null && Siblings(p, p.right) && !p.right.red
      requires IsRed(p.right.left) || IsRed(p.right.right)
      modifies this`root, this`short, repr`red, repr`bh, repr`left, repr`right, repr`parent, repr`lo, repr`hi
      ensures Linked() && RedsOk() && BlacksOk() && GoneOk() && !IsRed(root) && odd == short == null && !old(short).red
    {
      if !IsRed(p.right.right) {
        BendNephewRight(p, p.right);
      }
      SettleLeft(p, p.right);
    }

    /** One round of the repair: short is the left child of p. Either p is short now,
        or nothing is. */
    method DeleteStepLeft(p: Node) returns (done: bool)
      requires ShortAt() && p.left == short && p.right != null && Siblings(p, p.right)
      modifies this`root, this`short, repr`red, repr`bh, repr`left, repr`right, repr`parent, repr`lo, repr`hi
      ensures done ==>
              Linked() && RedsOk() && BlacksOk() && GoneOk() && !IsRed(root) && odd == short == null
              && !old(short).red
      ensures !done ==> ShortAt() && short == p
      ensures !done && !p.red ==> p.lo == old(p.lo) && p.hi == old(p.hi)
    {
      if p.right.red {
        TurnSiblingLeft(p, p.right);
      }
      var s := p.right;
      if !IsRed(s.right) && !IsRed(s.left) {
        PaintSibling(p, s);
        return false;
      }
      PatchLeft(p);
      return true;
    }

    /** A nephew is red: the shortage ends. */
    method PatchRight(p: Node)
      requires ShortAt() && p.right == short && p.left != null && Siblings(p, p.left) && !p.left.red
      requires IsRed(p.left.left) || IsRed(p.left.right)
      modifies this`root, this`short, repr`red, repr`bh, repr`left, repr`right, repr`parent, repr`lo, repr`hi
      ensures Linked() && RedsOk() && BlacksOk() && GoneOk() && !IsRed(root) && odd == short == null && !old(short).red
    {
      if !IsRed(p.left.left) {
        BendNephewLeft(p, p.left);
      }
      SettleRight(p, p.left);
    }

    /** One round of the repair: short is the right child of p. */
    method DeleteStepRight(p: Node) returns (done: bool)
      requires ShortAt() && p.right == short && p.left != null && Siblings(p, p.left)
      modifies this`root, this`short, repr`red, repr`bh, repr`left, repr`right, repr`parent, repr`lo, repr`hi
      ensures done ==>
              Linked() && RedsOk() && BlacksOk() && GoneOk() && !IsRed(root) && odd == short == null
              && !old(short).red
      ensures !done ==> ShortAt() && short == p
      ensures !done && !p.red ==> p.lo == old(p.lo) && p.hi == old(p.hi)
    {
      if p.left.red {
        TurnSiblingRight(p, p.left);
      }
      var s := p.left;
      if !IsRed(s.right) && !IsRed(s.left) {
        PaintSibling(p, s);
        return false;
      }
      PatchRight(p);
      return true;
    }

    twostate lemma ShortBlackened()
      requires old(ShortAt() && (short == root || short.red))
      requires SameLinks() && unchanged(`gone) && odd == short == null
      requires unchanged((repr - {old(short)})`red, (repr - {old(short)})`bh) && !old(short).red
      requires old(short).bh == old(short.bh) + old(if short.red then 1 else 0)
      ensures Linked() && RedsOk() && BlacksOk() && GoneOk() && !IsRed(root)
    {
      assert old(Placed(short) && ParentOk(short));
      assert Linked();
      forall z | z in repr ensures RedOk(z) && BlackOk(z) {
        assert old(Placed(z) && ChildrenOk(z) && ParentOk(z) && RedOk(z) && BlackOk(z));
      }
    }

    /** Paints the last node looked at black. */
    method BlackenLast(v: Node)
      requires short == v ==> ShortAt() && (v == root || v.red)
      requires short != v ==>
              Linked() && RedsOk() && BlacksOk() && GoneOk() && !IsRed(root) && odd == short == null
              && !v.red
      modifies this`odd, this`short, v`red, v`bh
      ensures Linked() && RedsOk() && BlacksOk() && GoneOk() && !IsRed(root) && odd == short == null
    {
      ghost var b := if v.red then 1 else 0;
      v.red := false;
      v.bh := v.bh + b;
      if short != null {
        odd, short := null, null;
        ShortBlackened();
      }
    }

    /** Restores the colours after a black node has gone from the subtree of n. */
    method DeleteFixup(n: Node)
      requires ShortAt() && short == n
      modifies this`root, this`odd, this`short, repr`red, repr`bh, repr`left, repr`right, repr`parent, repr`lo, repr`hi
      ensures Linked() && RedsOk() && BlacksOk() && GoneOk() && !IsRed(root) && odd == short == null
    {
      var v := n;
      while v != root && !v.red
        invariant ShortAt() && short == v
        decreases if v.red then 0 else 1, |nodes| - (v.hi - v.lo)
      {
        ShortHasSibling();
        var p := v.parent;
        var done: bool;
        if v == p.left {
          done := DeleteStepLeft(p);
        } else {
          done := DeleteStepRight(p);
        }
        if done {
          break;
        }
        v := p;
      }
      BlackenLast(v);
    }

    /** d and its successor s, the leftmost node to the right of d, trade places. */
    twostate predicate Swapped(d: Node)
      requires old(Linked() && d in repr && d.left != null && d.right != null && 0 <= d.pos < |nodes| - 1
                 && SeatOk(d.pos + 1))
      requires old(ChildrenOk(d) && ParentOk(d) && ChildrenOk(nodes[d.pos + 1]) && ParentOk(nodes[d.pos + 1]))
      reads this, repr
    {
      var k := old(d.pos);
      var s := old(nodes[k + 1]);
      var l, r, p, c, q := old(d.left), old(d.right), old(d.parent), old(s.right), old(s.parent);
      && s != d && repr == old(repr) && nodes == old(nodes)[k := s][k + 1 := d]
      && root == (if old(root) == d then s else old(root))
      && unchanged(`odd, `short, `gone) && unchanged(repr`tree)
      && s.pos == k && s.lo == old(d.lo) && s.hi == old(d.hi) && s.red == old(d.red) && s.bh == old(d.bh)
      && d.pos == k + 1 && d.lo == old(s.lo) && d.hi == old(s.hi) && d.red == old(s.red) && d.bh == old(s.bh)
      && s.left == l && s.right == (if r == s then d else r) && s.parent == p
      && d.left == null && d.right == c && d.parent == (if q == d then s else q)
      && (p != null ==> p.left == if old(p.left) == d then s else old(p.left))
      && (p != null ==> p.right == if old(p.left) == d then old(p.right) else s)
      && (q != null && q != d ==> q.left == d && q.right == old(q.right))
      && unchanged((repr - {d, s, p, q})`left, (repr - {d, s, p, q})`right)
      && (forall z {:trigger z.parent} :: z in repr && z != d && z != s ==>
            z.parent == if z == l || z == r then s else if z == c then d else old(z.parent))
      && unchanged((repr - {d, s})`pos, (repr - {d, s})`lo, (repr - {d, s})`hi, (repr - {d, s})`red, (repr - {d, s})`bh)
    }

    ghost predicate HasSuccessorBelow(d: Node)
      reads this, repr, d
    {
      && Linked() && d in repr && d.left != null && d.right != null && 0 <= d.pos < |nodes| - 1 && SeatOk(d.pos + 1)
      && ChildrenOk(d) && ParentOk(d) && Placed(d)
      && var s := nodes[d.pos + 1];
         s != d && ChildrenOk(s) && ParentOk(s) && Placed(s) && s.left == null && s.parent != null
         && (s == d.right || (s.parent != d && s.parent.left == s && s.parent in repr && Placed(s.parent)))
    }

    twostate lemma SwappedPlaced(d: Node)
      requires old(HasSuccessorBelow(d)) && Swapped(d)
      ensures forall z {:trigger Placed(z)} :: z in repr ==> Placed(z)
      ensures forall i {:trigger SeatOk(i)} :: 0 <= i < |nodes| ==> SeatOk(i)
    {
      forall z | z in repr ensures Placed(z) {
        assert old(Placed(z));
      }
      forall i | 0 <= i < |nodes| ensures SeatOk(i) {
        assert old(SeatOk(i));
      }
    }

    twostate lemma SwappedChildren(d: Node)
      requires old(HasSuccessorBelow(d)) && Swapped(d)
      ensures forall z {:trigger ChildrenOk(z)} :: z in repr ==> ChildrenOk(z)
    {
      forall z | z in repr ensures ChildrenOk(z) {
        assert old(Placed(z) && ChildrenOk(z) && ParentOk(z));
      }
    }

    twostate lemma SwappedParent(d: Node)
      requires old(HasSuccessorBelow(d)) && Swapped(d)
      ensures forall z {:trigger ParentOk(z)} :: z in repr ==> ParentOk(z)
      ensures Linked()
    {
      assert old(Placed(root));
      SwappedPlaced(d);
      SwappedChildren(d);
      forall z | z in repr ensures ParentOk(z) {
        assert old(Placed(z) && ChildrenOk(z) && ParentOk(z));
      }
    }

    twostate lemma SwappedReds(d: Node)
      requires old(HasSuccessorBelow(d) && RedsOk() && odd == short == null) && Swapped(d) && Linked()
      ensures RedsOk()
    {
      assert old(RedOk(d) && RedOk(nodes[d.pos + 1]));
      forall z | z in repr ensures RedOk(z) {
        assert old(Placed(z) && ChildrenOk(z) && ParentOk(z) && RedOk(z));
      }
    }

    twostate lemma SwappedBlacks(d: Node)
      requires old(HasSuccessorBelow(d) && BlacksOk() && short == gone == null) && Swapped(d) && Linked()
      ensures BlacksOk()
    {
      var s := old(nodes[d.pos + 1]);
      assert old(BlackOk(d) && BlackOk(s));
      assert BlackOk(d) && BlackOk(s);
      forall z | z in repr && z != d && z != s ensures BlackOk(z) {
        assert old(Placed(z) && ChildrenOk(z) && BlackOk(z));
      }
    }

    /** The first half of the exchange: colours, left children and the link from above. */
    method SwapAbove(d: Node, s: Node)
      requires d != s && d.left != null && s.left == null && d.left != s && d.left != d
      requires d.parent != s && d.parent != d && d.parent != d.left
      modifies this`root, {d, s}`red, {d, s}`left, {d.left}`parent, {d.parent}`left, {d.parent}`right
      ensures s.red == old(d.red) && d.red == old(s.red)
      ensures s.left == old(d.left) && d.left == null && s.left.parent == s
      ensures root == if old(d.parent) == null then s else old(root)
      ensures d.parent != null ==>
                d.parent.left == (if old(d.parent.left) == d then s else old(d.parent.left)) &&
                d.parent.right == (if old(d.parent.left) == d then old(d.parent.right) else s)
    {
      s.red, d.red := d.red, s.red;
      s.left := d.left;
      d.left := null;
      AdoptChild(s.left, s);
      ReplaceChild(d, s);
    }

    /** The second half, when the successor is the right child of d. */
    method SwapAdjacent(d: Node, s: Node)
      requires d != s && s == d.right && s.right != s && s.right != d
      modifies {d, s}`right, {d, s}`parent, {s.right}`parent
      ensures d.right == old(s.right) && s.right == d && s.parent == old(d.parent) && d.parent == s
      ensures d.right != null ==> d.right.parent == d
    {
      d.right := s.right;
      s.right := d;
      s.parent := d.parent;
      d.parent := s;
      AdoptChild(d.right, d);
    }

    /** The second half, when the successor q.left lies deeper below d. */
    method SwapApart(d: Node, s: Node, q: Node)
      requires d != s && s.parent == q && q.left == s && q != d && q != s
      requires d.right != null && d.right != s.right && d.right != s && d.right != d && s.right != d && s.right != s
      modifies {d, s}`right, {d, s}`parent, {d.right, s.right}`parent, q`left
      ensures d.right == old(s.right) && s.right == old(d.right) && s.parent == old(d.parent) && d.parent == q
      ensures d.right != null ==> d.right.parent == d
      ensures s.right.parent == s && q.left == d
    {
      s.right, d.right := d.right, s.right;
      s.parent, d.parent := d.parent, s.parent;
      AdoptChild(d.right, d);
      AdoptChild(s.right, s);
      if d.parent.left == s {
        d.parent.left := d;
      } else {
        assert false;
      }
    }

    ghost method SwapPlaces(d: Node, s: Node)
      requires d != s && 0 <= d.pos < |nodes| && 0 <= s.pos < |nodes|
      modifies this`nodes, {d, s}`pos, {d, s}`lo, {d, s}`hi, {d, s}`bh
      ensures s.pos == old(d.pos) && s.lo == old(d.lo) && s.hi == old(d.hi) && s.bh == old(d.bh)
      ensures d.pos == old(s.pos) && d.lo == old(s.lo) && d.hi == old(s.hi) && d.bh == old(s.bh)
      ensures nodes == old(nodes)[old(d.pos) := s][old(s.pos) := d]
    {
      nodes := nodes[d.pos := s][s.pos := d];
      s.pos, s.lo, s.hi, s.bh, d.pos, d.lo, d.hi, d.bh := d.pos, d.lo, d.hi, d.bh, s.pos, s.lo, s.hi, s.bh;
    }

    /** Lets d and its successor s trade places and colours, so that d has at most one child. */
    method SwapWithSuccessor(d: Node, s: Node)
      requires HasSuccessorBelow(d) && s == nodes[d.pos + 1] && s in repr
      modifies this`root, this`nodes, repr`left, repr`right, repr`parent, repr`pos, repr`lo, repr`hi, repr`red, repr`bh
      ensures Swapped(d)
    {
      assert Placed(d.left) && Placed(d.right) && ParentOk(d.left) && ParentOk(d.right);
      assert d.parent != null ==> Placed(d.parent) && ChildrenOk(d.parent);
      assert s.right != null ==> Placed(s.right);
      assert ChildrenOk(s.parent);
      SwapPlaces(d, s);
      SwapAbove(d, s);
      if s == d.right {
        SwapAdjacent(d, s);
      } else {
        SwapApart(d, s, s.parent);
      }
    }

    /** The child of a node that has at most one. */
    ghost function OnlyChild(d: Node): Node?
      reads d
    {
      if d.left == null then d.right else d.left
    }

    /** d, which has at most one child, is out of the tree: the child has its place, and
        the places behind d move down by one. */
    twostate predicate Unlinked(d: Node)
      requires old(d in repr && (d.left == null || d.right == null))
      requires old(d.parent != null ==> d.parent in repr)
      reads this, repr
    {
      var k, p, c := old(d.pos), old(d.parent), old(OnlyChild(d));
      && 0 <= k < |old(nodes)| && nodes == RemoveAt(old(nodes), k) && repr == old(repr) - {d} && p != d
      && root == (if p == null then c else old(root))
      && unchanged(repr`tree)
      && (p != null ==> p.left == if old(p.left) == d then c else old(p.left))
      && (p != null ==> p.right == if old(p.left) == d then old(p.right) else c)
      && unchanged((repr - {p})`left, (repr - {p})`right)
      && (forall z {:trigger z.parent} :: z in repr ==> z.parent == if z == c then p else old(z.parent))
      && (forall z {:trigger z.pos} :: z in repr ==> z.pos == old(z.pos) - if old(z.pos) > k then 1 else 0)
      && (forall z {:trigger z.lo} :: z in repr ==> z.lo == old(z.lo) - if old(z.lo) > k then 1 else 0)
      && (forall z {:trigger z.hi} :: z in repr ==> z.hi == old(z.hi) - if old(z.hi) > k then 1 else 0)
    }

    twostate lemma UnlinkedPlaced(d: Node)
      requires old(Linked() && d in repr && (d.left == null || d.right == null) && ParentOk(d) && ChildrenOk(d)
                 && Placed(d))
      requires Unlinked(d)
      ensures forall z {:trigger Placed(z)} :: z in repr ==> Placed(z)
      ensures forall i {:trigger SeatOk(i)} :: 0 <= i < |nodes| ==> SeatOk(i)
    {
      forall z | z in repr ensures Placed(z) {
        assert old(Placed(z) && SeatOk(d.pos));
      }
      forall i | 0 <= i < |nodes| ensures SeatOk(i) {
        var j := if i >= old(d.pos) then i + 1 else i;
        assert nodes[i] == old(nodes)[j] && old(SeatOk(j));
      }
    }

    twostate lemma UnlinkedChildren(d: Node)
      requires old(Linked() && d in repr && (d.left == null || d.right == null) && ParentOk(d) && ChildrenOk(d)
                 && Placed(d))
      requires Unlinked(d)
      ensures forall z {:trigger ChildrenOk(z)} :: z in repr ==> ChildrenOk(z)
    {
      forall z | z in repr ensures ChildrenOk(z) {
        assert old(Placed(z) && ChildrenOk(z) && ParentOk(z));
      }
    }

    twostate lemma UnlinkedLinked(d: Node)
      requires old(Linked() && d in repr && (d.left == null || d.right == null) && ParentOk(d) && ChildrenOk(d)
                 && Placed(d))
      requires Unlinked(d)
      ensures Linked()
    {
      assert old(root != null && Placed(root));
      assert old(d.parent != null ==> Placed(d.parent) && ChildrenOk(d.parent));
      UnlinkedPlaced(d);
      UnlinkedChildren(d);
      forall z | z in repr ensures ParentOk(z) {
        assert old(Placed(z) && ChildrenOk(z) && ParentOk(z));
      }
    }

    /** d has one child, which is red, so d is black. */
    ghost predicate HasRedChild(d: Node)
      reads this, repr, d
    {
      && (d.left == null || d.right == null) && ParentOk(d) && ChildrenOk(d) && Placed(d)
      && OnlyChild(d) != null && OnlyChild(d) in repr && OnlyChild(d) != d && OnlyChild(d).red && OnlyChild(d).bh == 0
        && d.bh == 1 && !d.red
      && (d.parent != null ==> d.parent != OnlyChild(d) && d.parent != d)
    }

    lemma OnlyChildIsRed(d: Node)
      requires Valid() && d in repr && (d.left == null || d.right == null) && OnlyChild(d) != null
      ensures OnlyChild(d) in repr && HasRedChild(d)
    {
      assert ParentOk(d) && ChildrenOk(d) && Placed(d) && RedOk(d) && BlackOk(d);
      var c := OnlyChild(d);
      assert BlackOk(c) && ChildrenOk(c) && Placed(c);
      assert d.parent != null ==> Placed(d.parent) && ChildrenOk(d.parent);
    }

    twostate lemma UnlinkedColours(d: Node)
      requires old(Linked() && RedsOk() && BlacksOk() && odd == short == null && (gone == null || gone == d))
      requires old(d in repr && (d.left == null || d.right == null) && ParentOk(d) && ChildrenOk(d) && Placed(d))
      requires Unlinked(d) && Linked() && unchanged(repr`red, repr`bh)
      requires gone == null && short == odd == old(OnlyChild(d)) && Bh(short) == old(d.bh)
               && (short != null ==> short.red)
      ensures RedsOk() && BlacksOk()
    {
      forall z | z in repr ensures RedOk(z) && BlackOk(z) {
        assert old(Placed(z) && ChildrenOk(z) && ParentOk(z) && RedOk(z) && BlackOk(z));
      }
    }

    twostate lemma SplicedShortAt(d: Node)
      requires old(Valid() && d in repr && HasRedChild(d))
      requires Unlinked(d) && unchanged(repr`red, repr`bh) && unchanged(`gone) && short == odd == old(OnlyChild(d))
      ensures ShortAt()
    {
      assert old(root != null && ParentOk(root));
      UnlinkedLinked(d);
      UnlinkedColours(d);
    }

    /** Closes the gap at place k of the in-order sequence. */
    ghost method CloseGap(k: int)
      modifies repr`pos, repr`lo, repr`hi
      ensures forall z {:trigger z.pos} :: z in repr ==> z.pos == old(z.pos) - if old(z.pos) > k then 1 else 0
      ensures forall z {:trigger z.lo} :: z in repr ==> z.lo == old(z.lo) - if old(z.lo) > k then 1 else 0
      ensures forall z {:trigger z.hi} :: z in repr ==> z.hi == old(z.hi) - if old(z.hi) > k then 1 else 0
    {
      forall z | z in repr {
        z.pos := z.pos - if z.pos > k then 1 else 0;
      }
      forall z | z in repr {
        z.lo := z.lo - if z.lo > k then 1 else 0;
      }
      forall z | z in repr {
        z.hi := z.hi - if z.hi > k then 1 else 0;
      }
    }

    /** The links past d, and the places without it. */
    method Excise(d: Node, c: Node)
      requires d in repr && HasRedChild(d) && c == OnlyChild(d)
      modifies this`root, this`nodes, this`repr, this`odd, this`short
      modifies repr`left, repr`right, repr`parent, repr`pos, repr`lo, repr`hi
      ensures Unlinked(d) && short == odd == c
    {
      ghost var k := d.pos;
      CloseGap(k);
      c.parent := d.parent;
      ReplaceChild(d, c);
      odd, short, repr, nodes := c, c, repr - {d}, RemoveAt(nodes, k);
    }

    /** The only child c takes the place of d; the repair starts there. */
    method SpliceOut(d: Node, c: Node)
      requires Valid() && d in repr && HasRedChild(d) && c == OnlyChild(d)
      modifies this`root, this`nodes, this`repr, this`odd, this`short
      modifies repr`left, repr`right, repr`parent, repr`pos, repr`lo, repr`hi
      ensures ShortAt() && short == c && 0 <= old(d.pos) < |old(nodes)|
      ensures nodes == RemoveAt(old(nodes), old(d.pos)) && repr == old(repr) - {d} && gone == null
    {
      Excise(d, c);
      SplicedShortAt(d);
    }

    twostate lemma CutDone(d: Node)
      requires old(Linked() && RedsOk() && BlacksOk() && !IsRed(root) && odd == short == null)
      requires old(d in repr && d.left == d.right == null && ParentOk(d) && d.parent != null)
      requires old(gone == if d.red then null else d)
      requires Unlinked(d) && unchanged(repr`red, repr`bh) && unchanged(`odd, `short) && gone == null
      ensures Linked() && RedsOk() && BlacksOk() && !IsRed(root)
    {
      assert old(Placed(d) && ChildrenOk(d) && BlackOk(d));
      UnlinkedLinked(d);
      UnlinkedColours(d);
    }

    /** Cuts the leaf d off its parent. */
    method CutLeaf(d: Node)
      requires Linked() && RedsOk() && BlacksOk() && GoneOk() && !IsRed(root) && odd == short == null
      requires d in repr && d.left == d.right == null && d.parent != null && d.parent in repr
      requires gone == if d.red then null else d
      modifies this`nodes, this`repr, this`gone, repr`left, repr`right, repr`pos, repr`lo, repr`hi
      ensures Linked() && RedsOk() && BlacksOk() && !IsRed(root) && gone == null && 0 <= old(d.pos) < |old(nodes)|
      ensures nodes == RemoveAt(old(nodes), old(d.pos)) && repr == old(repr) - {d}
    {
      assert Placed(d) && ParentOk(d) && Placed(d.parent);
      ghost var k := d.pos;
      CloseGap(k);
      if d.parent.left == d {
        d.parent.left := null;
      } else if d.parent.right == d {
        d.parent.right := null;
      }
      gone, repr, nodes := null, repr - {d}, RemoveAt(nodes, k);
      CutDone(d);
    }

    twostate lemma GoneMarked(d: Node)
      requires old(Valid() && d in repr && d.left == d.right == null && !d.red)
      requires SameLinks() && unchanged(repr`red) && unchanged((repr - {d})`bh) && unchanged(`odd)
      requires gone == short == d && d.bh == 0
      ensures ShortAt()
    {
      assert old(BlackOk(d) && ChildrenOk(d) && Placed(d));
      assert Linked();
      forall z | z in repr ensures RedOk(z) && BlackOk(z) {
        assert old(Placed(z) && ChildrenOk(z) && RedOk(z) && BlackOk(z));
      }
    }

    /** Restores the colours for a black leaf d that is about to go, while it is still in place. */
    method FixupBeforeCut(d: Node)
      requires Valid() && d in repr && d.left == d.right == null && !d.red
      modifies this`root, this`odd, this`short, this`gone
      modifies repr`red, repr`bh, repr`left, repr`right, repr`parent, repr`lo, repr`hi
      ensures Linked() && RedsOk() && BlacksOk() && GoneOk() && !IsRed(root) && odd == short == null && gone == d
    {
      gone, short := d, d;
      d.bh := 0;
      GoneMarked(d);
      DeleteFixup(d);
    }

    /** Removes d, which has at most one child. */
    method RemoveTop(d: Node)
      requires Valid() && d in repr && (d.left == null || d.right == null)
      modifies this, repr
      ensures Linked() && RedsOk() && BlacksOk() && !IsRed(root) && odd == short == gone == null && count == old(count)
      ensures 0 <= old(d.pos) < |old(nodes)| && nodes == RemoveAt(old(nodes), old(d.pos)) && repr == old(repr) - {d}
    {
      assert Placed(d) && ParentOk(d) && ChildrenOk(d);
      var n := if d.left == null then d.right else d.left;
      if n != null {
        OnlyChildIsRed(d);
        SpliceOut(d, n);
        if !d.red {
          DeleteFixup(n);
        }
      } else if d.parent == null {
        assert forall z :: z in repr ==> z == d || !Placed(z);
        root := null;
        nodes, repr := [], {};
      } else {
        assert Placed(d.parent) && |nodes| >= 2;
        if !d.red {
          FixupBeforeCut(d);
        }
        assert Placed(d) && ParentOk(d) && ChildrenOk(d);
        CutLeaf(d);
      }
    }

    /** The leftmost node to the right of d follows d in order. */
    method FindSuccessorBelow(d: Node) returns (s: Node)
      requires Linked() && d in repr && d.left != null && d.right != null
      ensures HasSuccessorBelow(d) && s in repr && s == nodes[d.pos + 1]
    {
      assert Placed(d) && ChildrenOk(d) && ParentOk(d);
      s := d.right;
      assert Placed(s) && ChildrenOk(s) && ParentOk(s);
      while s.left != null
        invariant s in repr && s != d && s.lo == d.pos + 1 && Placed(s) && ChildrenOk(s) && ParentOk(s)
        invariant s.parent != null
                  && (s == d.right || (s.parent != d && s.parent.left == s && s.parent in repr && Placed(s.parent)))
        decreases s.hi - s.lo
      {
        s := s.left;
        assert Placed(s) && ChildrenOk(s) && ParentOk(s);
      }
      assert SeatOk(d.pos + 1);
    }

    twostate lemma SwappedValid(d: Node)
      requires old(Valid() && HasSuccessorBelow(d)) && Swapped(d) && unchanged(`count)
      ensures Valid() && d.left == null && 0 <= d.pos < |nodes|
      ensures RemoveAt(nodes, d.pos) == RemoveAt(old(nodes), old(d.pos))
    {
      SwappedParent(d);
      SwappedReds(d);
      SwappedBlacks(d);
    }

    /** Brings d to a place where it has at most one child. */
    method PrepareRemove(d: Node)
      requires Valid() && d in repr
      modifies this`root, this`nodes, repr`left, repr`right, repr`parent, repr`pos, repr`lo, repr`hi, repr`red, repr`bh
      ensures Valid() && (d.left == null || d.right == null)
      ensures 0 <= old(d.pos) < |old(nodes)| && 0 <= d.pos < |nodes|
      ensures RemoveAt(nodes, d.pos) == RemoveAt(old(nodes), old(d.pos))
    {
      assert Placed(d);
      if d.left != null && d.right != null {
        var s := FindSuccessorBelow(d);
        SwapWithSuccessor(d, s);
        SwappedValid(d);
      }
    }

    /** Clears the links of d, which is out of the tree. */
    method ClearLinks(d: Node)
      requires Linked() && RedsOk() && BlacksOk() && !IsRed(root) && d !in repr
      modifies d`tree, d`left, d`right, d`parent
      ensures Linked() && RedsOk() && BlacksOk() && !IsRed(root)
      ensures d.left == d.right == d.parent == null && d.tree == null
    {
      d.tree := null;
      d.left, d.right := null, null;
      d.parent := null;
    }

    method Detach(d: Node)
      requires Linked() && RedsOk() && BlacksOk() && !IsRed(root) && odd == short == gone == null
      requires d !in repr && count == |nodes| + 1
      modifies this`count, d`tree, d`left, d`right, d`parent
      ensures Valid() && d.left == d.right == d.parent == null && d.tree == null
    {
      ClearLinks(d);
      count := count - 1;
    }

    /** Removes d, whatever its place: the in-order sequence loses exactly d. */
    method Remove(d: Node)
      requires Valid() && d in repr
      modifies this, repr
      ensures Valid()
      ensures 0 <= old(d.pos) < |old(nodes)| && old(nodes)[old(d.pos)] == d
      ensures nodes == RemoveAt(old(nodes), old(d.pos)) && repr == old(repr) - {d}
      ensures d.left == d.right == d.parent == null && d.tree == null
    {
      assert Placed(d);
      PrepareRemove(d);
      RemoveTop(d);
      Detach(d);
    }

    /** Empties the tree. */
    method RemoveAll()
      requires Valid()
      modifies this, repr
      ensures Valid() && nodes == [] && repr == {}
      ensures forall x :: x in old(repr) ==> x.tree == null && x.left == x.right == x.parent == null
    {
      while root != null
        invariant Valid() && repr <= old(repr)
        invariant forall x :: x in old(repr) - repr ==> x.tree == null && x.left == x.right == x.parent == null
        decreases |nodes|
      {
        Remove(root);
      }
      assert forall x :: x in repr ==> !Placed(x);
    }
  }
}
