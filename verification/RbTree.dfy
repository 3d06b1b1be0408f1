/**
  The red-black tree of src/struct/rbtree.c: heap nodes with parent links and a
  cached head (the leftmost node).

  Besides the fields of the source every node carries ghost coordinates. A node
  stands at position `pos` of the in-order sequence `contents`, its subtree is
  the stretch `contents[lo..hi]`, and `bh` is the number of black nodes on the way
  from it down to a missing child. With these, every invariant of the tree is a
  fact about one node and its neighbours, so a rotation or a recolouring is proved
  correct by looking at the handful of nodes it touches.
 */
module RbTree {

  datatype Color = Red | Black

  datatype Side = Left | Right {
    function Other(): Side {
      if Left? then Right else Left
    }
  }

  class Node<K> {
    var data: K
    var color: Color
    var left: Node?<K>
    var right: Node?<K>
    var parent: Node?<K>
    ghost var lo: int
    ghost var pos: int
    ghost var hi: int
    ghost var bh: int

    constructor (data: K)
      ensures this.data == data
    {
      this.data := data;
      color := Red;
      left, right, parent := null, null, null;
    }

    function Child(s: Side): Node?<K>
      reads this`left, this`right
    {
      if s.Left? then left else right
    }
  }

  ghost function Bh<K>(n: Node?<K>): int
    reads (if n == null then {} else {n})`bh
  {
    if n == null then 0 else n.bh
  }

  predicate IsRed<K>(n: Node?<K>)
    reads (if n == null then {} else {n})`color
  {
    n != null && n.color == Red
  }

  class Tree<K> {
    var root: Node?<K>
    var head: Node?<K>
    var size: nat
    const compare: (K, K) -> int
    const hasDelete: bool
    ghost var contents: seq<Node<K>>
    ghost var repr: set<Node<K>>

    // ------------------------------------------------------------------
    // Links
    // ------------------------------------------------------------------

    ghost predicate LinkedLeft(n: Node<K>)
      reads this`root, this`contents, this`repr, repr`left, repr`right, repr`parent, repr`lo, repr`pos, repr`hi
    {
      && n in repr
      && (n.left == null <==> n.lo == n.pos)
      && (n.left != null ==>
            n.left in repr && n.left.parent == n && n.left.lo == n.lo && n.left.hi == n.pos)
    }

    ghost predicate LinkedRight(n: Node<K>)
      reads this`root, this`contents, this`repr, repr`left, repr`right, repr`parent, repr`lo, repr`pos, repr`hi
    {
      && n in repr
      && (n.right == null <==> n.pos + 1 == n.hi)
      && (n.right != null ==>
            n.right in repr && n.right.parent == n && n.right.lo == n.pos + 1 && n.right.hi == n.hi)
    }

    ghost predicate LinkedUp(n: Node<K>)
      reads this`root, this`contents, this`repr, repr`left, repr`right, repr`parent, repr`lo, repr`pos, repr`hi
    {
      && n in repr
      && 0 <= n.lo <= n.pos < n.hi <= |contents|
      && contents[n.pos] == n
      && (n.parent == null ==> n == root && n.lo == 0 && n.hi == |contents|)
      && (n.parent != null ==> n.parent in repr && (n.parent.left == n || n.parent.right == n))
    }

    ghost predicate Linked(n: Node<K>)
      reads this`root, this`contents, this`repr, repr`left, repr`right, repr`parent, repr`lo, repr`pos, repr`hi
    {
      LinkedLeft(n) && LinkedRight(n) && LinkedUp(n)
    }

    ghost predicate Links()
      reads this`root, this`contents, this`repr, repr`left, repr`right, repr`parent, repr`lo, repr`pos, repr`hi
    {
      && (root == null <==> contents == [])
      && (root != null ==> root in repr && root.parent == null)
      && (forall i :: 0 <= i < |contents| ==> contents[i] in repr && contents[i].pos == i)
      && (forall n {:trigger Linked(n)} :: n in repr ==> Linked(n))
    }

    // ------------------------------------------------------------------
    // Colours
    // ------------------------------------------------------------------

    /** Black height below `n` on side `s`; the slot `(p, d)` is credited with one
        missing black node (no slot is, when `p` is null). */
    ghost function Height(n: Node<K>, s: Side, p: Node?<K>, d: Side): int
      requires n in repr && (n.Child(s) == null || n.Child(s) in repr)
      reads this`repr, repr`left, repr`right, repr`color, repr`bh
    {
      Bh(n.Child(s)) + if n == p && s == d then 1 else 0
    }

    ghost predicate Balanced(n: Node<K>, p: Node?<K>, d: Side)
      reads this`repr, repr`left, repr`right, repr`color, repr`bh
    {
      && n in repr
      && (n.left == null || n.left in repr)
      && (n.right == null || n.right in repr)
      && 0 <= n.bh
      && Height(n, Left, p, d) == Height(n, Right, p, d)
      && n.bh == Height(n, Left, p, d) + if n.color == Black then 1 else 0
    }

    ghost predicate Balance(p: Node?<K>, d: Side)
      reads this`repr, repr`left, repr`right, repr`color, repr`bh
    {
      forall n {:trigger Balanced(n, p, d)} :: n in repr ==> Balanced(n, p, d)
    }

    /** No red edge leaves `n`, except below `top` or into `bottom`. */
    ghost predicate Calm(n: Node<K>, top: Node?<K>, bottom: Node?<K>)
      reads this`repr, repr`left, repr`right, repr`color, repr`bh
    {
      && n in repr
      && (n.left == null || n.left in repr)
      && (n.right == null || n.right in repr)
      && (n.color == Red && n != top ==>
            (IsRed(n.left) ==> n.left == bottom) && (IsRed(n.right) ==> n.right == bottom))
    }

    ghost predicate NoRedRed(top: Node?<K>, bottom: Node?<K>)
      reads this`repr, repr`left, repr`right, repr`color, repr`bh
    {
      forall n {:trigger Calm(n, top, bottom)} :: n in repr ==> Calm(n, top, bottom)
    }

    ghost predicate Ordered()
      reads this`root, this`repr, repr`left, repr`right, repr`color, repr`bh
    {
      Balance(null, Left) && NoRedRed(null, null) && (root == null || root in repr) && !IsRed(root)
    }

    ghost predicate Valid()
      reads this, repr
    {
      && Links()
      && Ordered()
      && head == (if contents == [] then null else contents[0])
      && size == |contents|
    }

    constructor (compare: (K, K) -> int, hasDelete: bool)
      ensures Valid() && contents == [] && repr == {}
      ensures this.compare == compare && this.hasDelete == hasDelete
    {
      root, head, size := null, null, 0;
      this.compare, this.hasDelete := compare, hasDelete;
      contents, repr := [], {};
    }

    // ------------------------------------------------------------------
    // Rotations
    // ------------------------------------------------------------------

    /** What `RotateLeft(x)` does; `y` is the right child of `x`. */
    twostate predicate TurnedLeft(x: Node<K>, y: Node<K>)
      reads this, repr
    {
      && repr == old(repr) && contents == old(contents)
      && x in repr && y in repr && old(x.right) == y && x != y
      && root == (if old(root) == x then y else old(root))
      && (forall z {:trigger z.left} :: z in repr ==>
            z.left == if z == y then x else if old(z.left) == x then y else old(z.left))
      && (forall z {:trigger z.right} :: z in repr ==>
            z.right == if z == x then old(y.left) else if old(z.right) == x then y else old(z.right))
      && (forall z {:trigger z.parent} :: z in repr ==>
            z.parent == if z == x then y else if z == y then old(x.parent)
                        else if z == old(y.left) then x else old(z.parent))
      && (forall z {:trigger z.lo} :: z in repr ==> z.lo == if z == y then old(x.lo) else old(z.lo))
      && (forall z {:trigger z.hi} :: z in repr ==> z.hi == if z == x then old(y.pos) else old(z.hi))
      && (forall z {:trigger z.pos} :: z in repr ==> z.pos == old(z.pos))
    }

    /** What `RotateRight(x)` does; `y` is the left child of `x`. */
    twostate predicate TurnedRight(x: Node<K>, y: Node<K>)
      reads this, repr
    {
      && repr == old(repr) && contents == old(contents)
      && x in repr && y in repr && old(x.left) == y && x != y
      && root == (if old(root) == x then y else old(root))
      && (forall z {:trigger z.right} :: z in repr ==>
            z.right == if z == y then x else if old(z.right) == x then y else old(z.right))
      && (forall z {:trigger z.left} :: z in repr ==>
            z.left == if z == x then old(y.right) else if old(z.left) == x then y else old(z.left))
      && (forall z {:trigger z.parent} :: z in repr ==>
            z.parent == if z == x then y else if z == y then old(x.parent)
                        else if z == old(y.right) then x else old(z.parent))
      && (forall z {:trigger z.lo} :: z in repr ==> z.lo == if z == x then old(y.pos) + 1 else old(z.lo))
      && (forall z {:trigger z.hi} :: z in repr ==> z.hi == if z == y then old(x.hi) else old(z.hi))
      && (forall z {:trigger z.pos} :: z in repr ==> z.pos == old(z.pos))
    }

    twostate lemma TurnedLeftKeepsLeft(x: Node<K>, new y: Node<K>, new n: Node<K>)
      requires y in old(repr) && n in old(repr) && old(Links()) && TurnedLeft(x, y)
      ensures LinkedLeft(n)
    {
      assert old(Linked(x)) && old(Linked(y)) && old(Linked(n));
      var m := old(n.left);
      assert m != null ==> old(Linked(m));
    }

    twostate lemma TurnedLeftKeepsRight(x: Node<K>, new y: Node<K>, new n: Node<K>)
      requires y in old(repr) && n in old(repr) && old(Links()) && TurnedLeft(x, y)
      ensures LinkedRight(n)
    {
      assert old(Linked(x)) && old(Linked(y)) && old(Linked(n));
      var m := old(n.right);
      assert m != null ==> old(Linked(m));
    }

    twostate lemma TurnedLeftKeepsUp(x: Node<K>, new y: Node<K>, new n: Node<K>)
      requires y in old(repr) && n in old(repr) && old(Links()) && TurnedLeft(x, y)
      ensures LinkedUp(n)
    {
      assert old(Linked(x)) && old(Linked(y)) && old(Linked(n));
      var m := old(n.parent);
      assert m != null ==> old(Linked(m));
    }

    twostate lemma TurnedLeftLinked(x: Node<K>, new y: Node<K>, new n: Node<K>)
      requires y in old(repr) && n in old(repr) && old(Links()) && TurnedLeft(x, y)
      ensures Linked(n)
    {
      TurnedLeftKeepsLeft(x, y, n);
      TurnedLeftKeepsRight(x, y, n);
      TurnedLeftKeepsUp(x, y, n);
    }

    twostate lemma TurnedRightKeepsLeft(x: Node<K>, new y: Node<K>, new n: Node<K>)
      requires y in old(repr) && n in old(repr) && old(Links()) && TurnedRight(x, y)
      ensures LinkedLeft(n)
    {
      assert old(Linked(x)) && old(Linked(y)) && old(Linked(n));
      var m := old(n.left);
      assert m != null ==> old(Linked(m));
    }

    twostate lemma TurnedRightKeepsRight(x: Node<K>, new y: Node<K>, new n: Node<K>)
      requires y in old(repr) && n in old(repr) && old(Links()) && TurnedRight(x, y)
      ensures LinkedRight(n)
    {
      assert old(Linked(x)) && old(Linked(y)) && old(Linked(n));
      var m := old(n.right);
      assert m != null ==> old(Linked(m));
    }

    twostate lemma TurnedRightKeepsUp(x: Node<K>, new y: Node<K>, new n: Node<K>)
      requires y in old(repr) && n in old(repr) && old(Links()) && TurnedRight(x, y)
      ensures LinkedUp(n)
    {
      assert old(Linked(x)) && old(Linked(y)) && old(Linked(n));
      var m := old(n.parent);
      assert m != null ==> old(Linked(m));
    }

    twostate lemma TurnedRightLinked(x: Node<K>, new y: Node<K>, new n: Node<K>)
      requires y in old(repr) && n in old(repr) && old(Links()) && TurnedRight(x, y)
      ensures Linked(n)
    {
      TurnedRightKeepsLeft(x, y, n);
      TurnedRightKeepsRight(x, y, n);
      TurnedRightKeepsUp(x, y, n);
    }

    twostate lemma TurnedLinks(x: Node<K>, new y: Node<K>)
      requires y in old(repr) && old(Links()) && (TurnedLeft(x, y) || TurnedRight(x, y))
      ensures Links()
    {
      assert old(Linked(x)) && old(Linked(y));
      if old(root) != null { assert old(Linked(root)); }
      forall n | n in repr
        ensures Linked(n)
      {
        if TurnedLeft(x, y) { TurnedLeftLinked(x, y, n); } else { TurnedRightLinked(x, y, n); }
      }
    }

    lemma OnlyParent(z: Node<K>, x: Node<K>)
      requires Links() && z in repr && x in repr
      ensures z.left == x || z.right == x ==> x.parent == z && z.left != z.right
    {
      assert Linked(z);
    }

    /** Whatever held `x` (its parent `p`, or the tree) now holds `y`. */
    method Relink(p: Node?<K>, x: Node<K>, y: Node?<K>)
      requires p == null ==> root == x
      requires p != null ==> p in repr && root != x && (p.left == x || p.right == x)
      requires forall z :: z in repr && (z.left == x || z.right == x) ==> z == p && z.left != z.right
      modifies this`root, repr`left, repr`right
      ensures root == if old(root) == x then y else old(root)
      ensures forall z {:trigger z.left} :: z in repr ==> z.left == if old(z.left) == x then y else old(z.left)
      ensures forall z {:trigger z.right} :: z in repr ==> z.right == if old(z.right) == x then y else old(z.right)
    {
      if p != null {
        if x == p.left {
          p.left := y;
        } else {
          p.right := y;
        }
      } else {
        root := y;
      }
    }

    /** The same for a node of the tree. */
    method Replace(x: Node<K>, y: Node?<K>)
      requires Links() && x in repr
      modifies this`root, repr`left, repr`right
      ensures root == if old(root) == x then y else old(root)
      ensures forall z {:trigger z.left} :: z in repr ==> z.left == if old(z.left) == x then y else old(z.left)
      ensures forall z {:trigger z.right} :: z in repr ==> z.right == if old(z.right) == x then y else old(z.right)
    {
      assert Linked(x);
      assert x.parent != null ==> Linked(x.parent);
      forall z | z in repr
        ensures z.left == x || z.right == x ==> x.parent == z && z.left != z.right
      {
        OnlyParent(z, x);
      }
      Relink(x.parent, x, y);
    }

    method LiftRight(x: Node<K>)
      requires Links() && x in repr && x.right != null
      modifies this`root, repr`left, repr`right, repr`parent, repr`lo, repr`hi
      ensures TurnedLeft(x, old(x.right))
    {
      assert Linked(x);
      var y := x.right;
      assert Linked(y);
      Replace(x, y);
      x.right := y.left;
      if x.right != null {
        y.left.parent := x;
      }
      y.parent := x.parent;
      y.left := x;
      x.parent := y;
      y.lo, x.hi := x.lo, y.pos;
    }

    method LiftLeft(x: Node<K>)
      requires Links() && x in repr && x.left != null
      modifies this`root, repr`left, repr`right, repr`parent, repr`lo, repr`hi
      ensures TurnedRight(x, old(x.left))
    {
      assert Linked(x);
      var y := x.left;
      assert Linked(y);
      Replace(x, y);
      x.left := y.right;
      if x.left != null {
        y.right.parent := x;
      }
      y.parent := x.parent;
      y.right := x;
      x.parent := y;
      y.hi, x.lo := x.hi, y.pos + 1;
    }

    method RotateLeft(x: Node<K>)
      requires Links() && x in repr && x.right != null
      modifies this`root, repr`left, repr`right, repr`parent, repr`lo, repr`hi
      ensures Links() && TurnedLeft(x, old(x.right))
    {
      ghost var y := x.right;
      assert Linked(x);
      LiftRight(x);
      TurnedLinks(x, y);
    }

    method RotateRight(x: Node<K>)
      requires Links() && x in repr && x.left != null
      modifies this`root, repr`left, repr`right, repr`parent, repr`lo, repr`hi
      ensures Links() && TurnedRight(x, old(x.left))
    {
      ghost var y := x.left;
      assert Linked(x);
      LiftLeft(x);
      TurnedLinks(x, y);
    }

    /** Either rotation, without regard to its direction: `x` sinks to side `d` below `y`. */
    twostate predicate Turned(d: Side, x: Node<K>, y: Node<K>)
      reads this, repr
    {
      var e := d.Other();
      && repr == old(repr)
      && x in repr && y in repr && old(x.Child(e)) == y && x != y
      && root == (if old(root) == x then y else old(root))
      && (forall z {:trigger z.Child(d)} :: z in repr ==>
            z.Child(d) == if z == y then x else if old(z.Child(d)) == x then y else old(z.Child(d)))
      && (forall z {:trigger z.Child(e)} :: z in repr ==>
            z.Child(e) == if z == x then old(y.Child(d)) else if old(z.Child(e)) == x then y else old(z.Child(e)))
    }

    method Rotate(d: Side, x: Node<K>)
      requires Links() && x in repr && x.Child(d.Other()) != null
      modifies this`root, repr`left, repr`right, repr`parent, repr`lo, repr`hi
      ensures Links() && Turned(d, x, old(x.Child(d.Other())))
      ensures x.parent == old(x.Child(d.Other())) && old(x.Child(d.Other())).parent == old(x.parent)
      ensures forall z :: z in repr && z != x && z != old(x.Child(d.Other())) ==> z.lo == old(z.lo) && z.hi == old(z.hi)
    {
      assert Linked(x);
      match d {
        case Left => RotateLeft(x);
        case Right => RotateRight(x);
      }
    }

    // ------------------------------------------------------------------
    // Insertion
    // ------------------------------------------------------------------

    /** Everything is in order except that the red node `n` may have a red parent. */
    ghost predicate RedAt(n: Node<K>)
      reads this, repr
    {
      && Links()
      && Balance(null, Left)
      && NoRedRed(null, n)
      && n in repr && n.color == Red
      && (root == n || !IsRed(root))
    }

    twostate predicate SameLinks()
      reads this, repr
    {
      && repr == old(repr) && contents == old(contents) && root == old(root)
      && (forall z {:trigger z.left} :: z in repr ==> z.left == old(z.left))
      && (forall z {:trigger z.right} :: z in repr ==> z.right == old(z.right))
      && (forall z {:trigger z.parent} :: z in repr ==> z.parent == old(z.parent))
      && (forall z {:trigger z.lo} :: z in repr ==> z.lo == old(z.lo))
      && (forall z {:trigger z.pos} :: z in repr ==> z.pos == old(z.pos))
      && (forall z {:trigger z.hi} :: z in repr ==> z.hi == old(z.hi))
    }

    twostate lemma RaisedOrder(n: Node<K>, new p: Node<K>, new u: Node<K>, new g: Node<K>, new z: Node<K>)
      requires {p, u, g, z} <= old(repr) && old(RedAt(n)) && SameLinks()
      requires old(n.parent == p && p.parent == g && u.parent == g && u != p)
      requires old(p.color == Red && u.color == Red)
      requires forall y {:trigger y.color} :: y in repr ==>
        y.color == if y == p || y == u then Black else if y == g then Red else old(y.color)
      requires forall y {:trigger y.bh} :: y in repr ==> y.bh == old(y.bh) + if y == p || y == u then 1 else 0
      ensures Balanced(z, null, Left) && Calm(z, null, g)
    {
      assert old(Linked(n)) && old(Linked(p)) && old(Linked(u)) && old(Linked(g)) && old(Linked(z));
      assert old(Balanced(p, null, Left)) && old(Balanced(u, null, Left)) && old(Balanced(g, null, Left));
      assert old(Balanced(z, null, Left)) && old(Calm(z, null, n)) && old(Calm(g, null, n));
    }

    /** Red parent and red uncle: both turn black, the red node moves up to the grandparent. */
    method RaiseRed(ghost n: Node<K>, p: Node<K>, u: Node<K>, g: Node<K>)
      requires RedAt(n) && {p, u, g} <= repr
      requires n.parent == p && p.parent == g && u.parent == g && u != p
      requires p.color == Red && u.color == Red
      modifies repr`color, repr`bh
      ensures RedAt(g)
    {
      assert Linked(n) && Linked(p) && Linked(g);
      PaintUp(p, u, g);
      forall z | z in repr
        ensures Balanced(z, null, Left) && Calm(z, null, g)
      {
        RaisedOrder(n, p, u, g, z);
      }
    }

    method PaintUp(p: Node<K>, u: Node<K>, g: Node<K>)
      requires {p, u, g} <= repr && p != g && u != g && u != p
      modifies repr`color, repr`bh
      ensures SameLinks()
      ensures forall y {:trigger y.color} :: y in repr ==>
        y.color == if y == p || y == u then Black else if y == g then Red else old(y.color)
      ensures forall y {:trigger y.bh} :: y in repr ==> y.bh == old(y.bh) + if y == p || y == u then 1 else 0
    {
      u.color := Black;
      p.color := Black;
      g.color := Red;
      p.bh, u.bh := p.bh + 1, u.bh + 1;
    }

    twostate lemma StraightenedOrder(d: Side, new p: Node<K>, new n: Node<K>, new z: Node<K>)
      requires {p, n, z} <= old(repr) && old(RedAt(n)) && Turned(d, p, n)
      requires old(p.color == Red)
      requires forall y {:trigger y.color} :: y in repr ==> y.color == old(y.color)
      requires forall y {:trigger y.bh} :: y in repr ==> y.bh == old(y.bh)
      ensures Balanced(z, null, Left) && Calm(z, null, p)
    {
      assert old(Linked(n)) && old(Linked(p)) && old(Linked(z));
      assert old(Balanced(p, null, Left)) && old(Balanced(n, null, Left)) && old(Balanced(z, null, Left));
      assert old(Calm(n, null, n)) && old(Calm(p, null, n)) && old(Calm(z, null, n));
      if d == Left {
        assert z.left == z.Child(d) && z.right == z.Child(d.Other());
      } else {
        assert z.right == z.Child(d) && z.left == z.Child(d.Other());
      }
    }

    /** The red node is its red parent's inner child: after the rotation the old parent
        is the outer child, still red below red. */
    method Straighten(d: Side, p: Node<K>, n: Node<K>)
      requires RedAt(n) && p in repr && p.color == Red && p.Child(d.Other()) == n && p.parent != null
      modifies this`root, repr`left, repr`right, repr`parent, repr`lo, repr`hi
      ensures RedAt(p) && p.parent == n && n.parent == old(p.parent) && n.Child(d) == p
      ensures n.parent in repr && n.parent.left == (if old(p.parent.left) == p then n else old(p.parent.left))
      ensures n.parent.right == (if old(p.parent.right) == p then n else old(p.parent.right))
    {
      assert Linked(p) && Linked(p.parent);
      Rotate(d, p);
      forall z | z in repr
        ensures Balanced(z, null, Left) && Calm(z, null, p)
      {
        StraightenedOrder(d, p, n, z);
      }
    }

    twostate lemma LiftedOrder(d: Side, new g: Node<K>, new q: Node<K>, new n: Node<K>, new z: Node<K>)
      requires {g, q, n, z} <= old(repr) && old(RedAt(n)) && Turned(d, g, q)
      requires old(g.color == Black && q.color == Red && q.Child(d.Other()) == n && !IsRed(g.Child(d)))
      requires forall y {:trigger y.color} :: y in repr ==>
        y.color == if y == q then Black else if y == g then Red else old(y.color)
      requires forall y {:trigger y.bh} :: y in repr ==>
        y.bh == old(y.bh) + if y == q then 1 else if y == g then -1 else 0
      ensures Balanced(z, null, Left) && Calm(z, null, n)
    {
      assert old(Linked(g)) && old(Linked(q)) && old(Linked(z));
      assert old(Balanced(g, null, Left)) && old(Balanced(q, null, Left)) && old(Balanced(z, null, Left));
      assert old(Calm(g, null, n)) && old(Calm(q, null, n)) && old(Calm(z, null, n));
      if d == Left {
        assert z.left == z.Child(d) && z.right == z.Child(d.Other());
      } else {
        assert z.right == z.Child(d) && z.left == z.Child(d.Other());
      }
    }

    method PaintAndRotate(d: Side, g: Node<K>, q: Node<K>)
      requires Links() && g in repr && q in repr && g.Child(d.Other()) == q
      modifies this`root, repr`left, repr`right, repr`parent, repr`lo, repr`hi, repr`color, repr`bh
      ensures Links() && Turned(d, g, q)
      ensures forall z :: z in repr && z != g && z != q ==> z.lo == old(z.lo) && z.hi == old(z.hi)
      ensures forall y {:trigger y.color} :: y in repr ==>
        y.color == if y == q then Black else if y == g then Red else old(y.color)
      ensures forall y {:trigger y.bh} :: y in repr ==>
        y.bh == old(y.bh) + if y == q then 1 else if y == g then -1 else 0
    {
      assert Linked(g) && Linked(q);
      q.color := Black;
      g.color := Red;
      q.bh, g.bh := q.bh + 1, g.bh - 1;
      Rotate(d, g);
    }

    /** Black uncle and outer red child: `q` turns black and takes the place of `g`. */
    method Lift(d: Side, g: Node<K>, q: Node<K>, ghost n: Node<K>)
      requires RedAt(n) && g in repr && q in repr && g.Child(d.Other()) == q && q.Child(d.Other()) == n
      requires g.color == Black && q.color == Red && !IsRed(g.Child(d))
      modifies this`root, repr`left, repr`right, repr`parent, repr`lo, repr`hi, repr`color, repr`bh
      ensures RedAt(n) && n.parent == q && q.color == Black
    {
      assert Linked(q);
      PaintAndRotate(d, g, q);
      forall z | z in repr
        ensures Balanced(z, null, Left) && Calm(z, null, n)
      {
        LiftedOrder(d, g, q, n, z);
      }
      assert q.Child(d.Other()) == n;
      assert Linked(q);
    }

    method InsertColor(node: Node<K>)
      requires RedAt(node)
      modifies this`root, repr`left, repr`right, repr`parent, repr`lo, repr`hi, repr`color, repr`bh
      ensures Links() && Ordered()
    {
      var n: Node<K> := node;
      assert Linked(n);
      assert n.parent != null ==> Linked(n.parent);
      while n.parent != null && n.parent.color == Red && n.parent.parent != null
        invariant RedAt(n)
        decreases if n.parent != null && n.parent.color == Red then 1 + |contents| - (n.hi - n.lo) else 0
      {
        var p := n.parent;
        assert Linked(n) && Linked(p);
        var g := p.parent;
        assert Linked(g);
        var d := if p == g.left then Left else Right;
        var u := g.Child(d.Other());
        assert u != null ==> Linked(u);
        if u != null && u.color == Red {
          RaiseRed(n, p, u, g);
          n := g;
        } else {
          n := Settle(d, g, p, n);
        }
      }
      PaintRoot(n);
    }

    /** The rotations when the uncle is black: one that brings the red nodes on one side, and the last. */
    method Settle(d: Side, g: Node<K>, p: Node<K>, n: Node<K>) returns (m: Node<K>)
      requires RedAt(n) && {g, p} <= repr && n.parent == p && p.parent == g && p.color == Red
      requires g.Child(d) == p && !IsRed(g.Child(d.Other()))
      modifies this`root, repr`left, repr`right, repr`parent, repr`lo, repr`hi, repr`color, repr`bh
      ensures RedAt(m) && m.parent != null && m.parent in repr && m.parent.color == Black
    {
      assert Linked(n) && Linked(p) && Linked(g);
      assert Calm(g, null, n);
      var q := p;
      m := n;
      if p.Child(d.Other()) == n {
        Straighten(d, p, n);
        m, q := p, n;
      }
      Lift(d.Other(), g, q, m);
    }

    twostate lemma PaintedOrder(n: Node<K>, new z: Node<K>)
      requires z in old(repr) && old(RedAt(n)) && SameLinks()
      requires old(n.parent == null || n.parent.color == Black || n.parent.parent == null)
      requires forall y {:trigger y.color} :: y in repr ==> y.color == if y == root then Black else old(y.color)
      requires forall y {:trigger y.bh} :: y in repr ==>
        y.bh == old(y.bh) + if y == root && old(y.color) == Red then 1 else 0
      ensures Balanced(z, null, Left) && Calm(z, null, null)
    {
      assert old(Linked(z)) && old(Linked(root)) && old(Linked(n));
      var p := old(n.parent);
      assert p != null ==> old(Linked(p));
      assert old(Balanced(z, null, Left)) && old(Calm(z, null, n));
    }

    method PaintRoot(ghost n: Node<K>)
      requires RedAt(n) && (n.parent == null || n.parent.color == Black || n.parent.parent == null)
      modifies repr`color, repr`bh
      ensures Links() && Ordered()
    {
      assert Linked(n);
      if root.color == Red { root.bh := root.bh + 1; }
      root.color := Black;
      forall z | z in repr
        ensures Balanced(z, null, Left) && Calm(z, null, null)
      {
        PaintedOrder(n, z);
      }
    }

    // ---- attaching a leaf ----

    ghost function Shift(x: int, k: int, d: Side): int {
      if d.Left? then (if x > k then x + 1 else x) else (if x >= k then x + 1 else x)
    }

    /** The leaf `n` now hangs on side `d` of `p` (or is the root) and stands at position `k`. */
    twostate predicate Attached(new n: Node<K>, p: Node?<K>, d: Side, k: int)
      reads this, repr
    {
      && n !in old(repr) && repr == old(repr) + {n}
      && 0 <= k <= |old(contents)|
      && contents == old(contents)[..k] + [n] + old(contents)[k..]
      && (p == null ==> old(root) == null && root == n && k == 0)
      && (p != null ==>
            && p in old(repr) && root == old(root) && old(p.Child(d)) == null
            && k == if d.Left? then old(p.pos) else old(p.pos) + 1)
      && n.left == null && n.right == null && n.parent == p
      && n.lo == k && n.pos == k && n.hi == k + 1
      && (forall z {:trigger z.left} :: z in old(repr) ==> z.left == if z == p && d == Left then n else old(z.left))
      && (forall z {:trigger z.right} :: z in old(repr) ==> z.right == if z == p && d == Right then n else old(z.right))
      && (forall z {:trigger z.parent} :: z in old(repr) ==> z.parent == old(z.parent))
      && (forall z {:trigger z.lo} :: z in old(repr) ==> z.lo == Shift(old(z.lo), k, d))
      && (forall z {:trigger z.hi} :: z in old(repr) ==> z.hi == Shift(old(z.hi), k, d))
      && (forall z {:trigger z.pos} :: z in old(repr) ==> z.pos == Shift(old(z.pos), k, Right))
    }

    twostate lemma AttachedLeft(new n: Node<K>, p: Node?<K>, new d: Side, new k: int, new z: Node<K>)
      requires old(Links()) && (p == null || p in old(repr)) && Attached(n, p, d, k) && z in old(repr)
      ensures LinkedLeft(z)
    {
      assert p != null ==> old(Linked(p));
      assert old(Linked(z));
      var l := old(z.left);
      assert l != null ==> old(Linked(l));
    }

    twostate lemma AttachedRight(new n: Node<K>, p: Node?<K>, new d: Side, new k: int, new z: Node<K>)
      requires old(Links()) && (p == null || p in old(repr)) && Attached(n, p, d, k) && z in old(repr)
      ensures LinkedRight(z)
    {
      assert p != null ==> old(Linked(p));
      assert old(Linked(z));
      var r := old(z.right);
      assert r != null ==> old(Linked(r));
    }

    twostate lemma AttachedUp(new n: Node<K>, p: Node?<K>, new d: Side, new k: int, new z: Node<K>)
      requires old(Links()) && (p == null || p in old(repr)) && Attached(n, p, d, k) && z in old(repr)
      ensures LinkedUp(z)
    {
      assert p != null ==> old(Linked(p));
      assert old(Linked(z));
      var q := old(z.parent);
      assert q != null ==> old(Linked(q));
    }

    twostate lemma AttachedLeaf(new n: Node<K>, p: Node?<K>, new d: Side, new k: int)
      requires old(Links()) && (p == null || p in old(repr)) && Attached(n, p, d, k)
      ensures Linked(n)
    {
      assert p != null ==> old(Linked(p));
    }

    twostate lemma AttachedLinked(new n: Node<K>, p: Node?<K>, new d: Side, new k: int, new z: Node<K>)
      requires old(Links()) && (p == null || p in old(repr)) && Attached(n, p, d, k) && z in repr
      ensures Linked(z)
    {
      if z == n {
        AttachedLeaf(n, p, d, k);
      } else {
        AttachedLeft(n, p, d, k, z);
        AttachedRight(n, p, d, k, z);
        AttachedUp(n, p, d, k, z);
      }
    }

    twostate lemma AttachedAt(new n: Node<K>, p: Node?<K>, new d: Side, new k: int, new i: int)
      requires old(Links()) && (p == null || p in old(repr)) && Attached(n, p, d, k) && 0 <= i < |contents|
      ensures contents[i] in repr && contents[i].pos == i
    {
      if i < k {
        assert contents[i] == old(contents)[i];
      } else if i > k {
        assert contents[i] == old(contents)[i - 1];
      }
    }

    twostate lemma AttachedLinks(new n: Node<K>, p: Node?<K>, new d: Side, new k: int)
      requires old(Links()) && (p == null || p in old(repr)) && Attached(n, p, d, k)
      ensures Links()
    {
      forall z | z in repr
        ensures Linked(z)
      {
        AttachedLinked(n, p, d, k, z);
      }
      forall i | 0 <= i < |contents|
        ensures contents[i] in repr && contents[i].pos == i
      {
        AttachedAt(n, p, d, k, i);
      }
    }

    ghost method MakeRoom(k: int, d: Side)
      modifies repr`lo, repr`pos, repr`hi
      ensures forall z {:trigger z.lo} :: z in repr ==> z.lo == Shift(old(z.lo), k, d)
      ensures forall z {:trigger z.hi} :: z in repr ==> z.hi == Shift(old(z.hi), k, d)
      ensures forall z {:trigger z.pos} :: z in repr ==> z.pos == Shift(old(z.pos), k, Right)
    {
      forall z | z in repr { z.lo := Shift(z.lo, k, d); }
      forall z | z in repr { z.hi := Shift(z.hi, k, d); }
      forall z | z in repr { z.pos := Shift(z.pos, k, Right); }
    }

    /** The link from above to a leaf. */
    method Hang(n: Node<K>, p: Node?<K>, d: Side)
      requires n !in repr && (p != null ==> p in repr)
      modifies this`root, n`left, n`right, n`parent, n`color, repr`left, repr`right
      ensures n.left == null && n.right == null && n.parent == p && n.color == Red
      ensures root == if p == null then n else old(root)
      ensures forall z {:trigger z.left} :: z in repr ==> z.left == if z == p && d == Left then n else old(z.left)
      ensures forall z {:trigger z.right} :: z in repr ==> z.right == if z == p && d == Right then n else old(z.right)
    {
      n.left, n.right, n.parent, n.color := null, null, p, Red;
      if p != null {
        if d.Left? { p.left := n; } else { p.right := n; }
      } else {
        root := n;
      }
    }

    method Attach(n: Node<K>, p: Node?<K>, d: Side, ghost k: int)
      requires Links() && n !in repr
      requires p == null ==> root == null && k == 0
      requires p != null ==> p in repr && p.Child(d) == null && k == if d.Left? then p.pos else p.pos + 1
      modifies this`root, this`repr, this`contents, n`left, n`right, n`parent, n`color, n`lo, n`pos, n`hi, n`bh
      modifies repr`left, repr`right, repr`lo, repr`pos, repr`hi
      ensures Attached(n, p, d, k)
      ensures n.color == Red && n.bh == 0
    {
      assert p != null ==> Linked(p);
      Hang(n, p, d);
      MakeRoom(k, d);
      n.lo, n.pos, n.hi, n.bh := k, k, k + 1, 0;
      contents := contents[..k] + [n] + contents[k..];
      repr := repr + {n};
    }

    twostate lemma AttachedOrder(new n: Node<K>, p: Node?<K>, new d: Side, new k: int, new z: Node<K>)
      requires old(Links() && Balance(null, Left) && NoRedRed(null, null))
      requires (p == null || p in old(repr)) && Attached(n, p, d, k) && z in repr && n.color == Red && n.bh == 0
      requires forall y {:trigger y.color} :: y in old(repr) ==> y.color == old(y.color)
      requires forall y {:trigger y.bh} :: y in old(repr) ==> y.bh == old(y.bh)
      ensures Balanced(z, null, Left) && Calm(z, null, n)
    {
      if z != n {
        assert old(Linked(z)) && old(Balanced(z, null, Left)) && old(Calm(z, null, null));
      }
    }

    /** Hangs the new red leaf and leaves only its own colour to repair. */
    method Grow(n: Node<K>, p: Node?<K>, d: Side, ghost k: int)
      requires Links() && Ordered() && n !in repr
      requires p == null ==> root == null && k == 0
      requires p != null ==> p in repr && p.Child(d) == null && k == if d.Left? then p.pos else p.pos + 1
      modifies this`root, this`repr, this`contents, n`left, n`right, n`parent, n`color, n`lo, n`pos, n`hi, n`bh
      modifies repr`left, repr`right, repr`lo, repr`pos, repr`hi
      ensures RedAt(n) && repr == old(repr) + {n} && 0 <= k <= |old(contents)|
      ensures contents == old(contents)[..k] + [n] + old(contents)[k..]
    {
      Attach(n, p, d, k);
      AttachedLinks(n, p, d, k);
      forall z | z in repr
        ensures Balanced(z, null, Left) && Calm(z, null, n)
      {
        AttachedOrder(n, p, d, k, z);
      }
    }

    /** Along the in-order sequence `data` compares greater first, then equal to at most
        one element, then smaller. Every comparator that orders the tree has this. */
    ghost predicate Cuts(data: K)
      requires Links()
      reads this`root, this`contents, this`repr, repr`left, repr`right, repr`parent, repr`lo, repr`pos, repr`hi, repr`data
    {
      forall i, j :: 0 <= i < j < |contents| && compare(data, contents[j].data) >= 0 ==> compare(data, contents[i].data) > 0
    }

    /** `data` compares greater than everything before `lo` and smaller than everything from `hi` on. */
    ghost predicate Between(data: K, lo: int, hi: int)
      requires Links()
      reads this`root, this`contents, this`repr, repr`left, repr`right, repr`parent, repr`lo, repr`pos, repr`hi, repr`data
    {
      && 0 <= lo <= hi <= |contents|
      && (forall i :: 0 <= i < lo ==> compare(data, contents[i].data) > 0)
      && (forall i :: hi <= i < |contents| ==> compare(data, contents[i].data) < 0)
    }

    lemma CutAt(data: K, lo: int, hi: int, n: Node<K>)
      requires Links() && Cuts(data) && Between(data, lo, hi) && n in repr && n.lo == lo && n.hi == hi
      ensures compare(data, n.data) < 0 ==> Between(data, lo, n.pos)
      ensures compare(data, n.data) > 0 ==> Between(data, n.pos + 1, hi)
    {
      assert Linked(n);
    }

    /** The descent of rn_rbtree_put: `found` if it meets equal data, else the place of the new leaf. */
    method Descend(data: K) returns (found: bool, p: Node?<K>, d: Side, first: bool, ghost k: int)
      requires Links()
      ensures found ==> p != null && p in repr && compare(data, p.data) == 0
      ensures !found ==>
        && 0 <= k <= |contents|
        && (p == null ==> root == null && k == 0)
        && (p != null ==> p in repr && p.Child(d) == null && k == if d.Left? then p.pos else p.pos + 1)
        && (first <==> k == 0)
        && (Cuts(data) ==> Between(data, k, k))
    {
      var current := root;
      ghost var lo, hi := 0, |contents|;
      found, p, d, first, k := false, null, Left, true, 0;
      if root != null { assert Linked(root); }
      while current != null
        invariant 0 <= lo <= hi <= |contents|
        invariant !found && (first <==> lo == 0)
        invariant current != null ==> current in repr && current.lo == lo && current.hi == hi
        invariant current == null ==> lo == hi
        invariant p == null ==> current == root
        invariant p != null ==> p in repr && p.Child(d) == current && (if d.Left? then hi == p.pos else lo == p.pos + 1)
        invariant Cuts(data) ==> Between(data, lo, hi)
        decreases hi - lo
      {
        assert Linked(current);
        p := current;
        var cmp := compare(data, p.data);
        if Cuts(data) { CutAt(data, lo, hi, p); }
        if cmp < 0 {
          current := p.left;
          d := Left;
          hi := p.pos;
        } else if cmp > 0 {
          current := p.right;
          d := Right;
          first := false;
          lo := p.pos + 1;
        } else {
          found := true;
          return;
        }
      }
      k := lo;
    }

    method PutAt(node: Node<K>, p: Node?<K>, d: Side, first: bool, ghost k: nat)
      requires Valid() && node !in repr
      requires p == null ==> root == null && k == 0
      requires p != null ==> p in repr && p.Child(d) == null && k == if d.Left? then p.pos else p.pos + 1
      requires first <==> k == 0
      modifies this`root, this`head, this`size, this`contents, this`repr
      modifies node`left, node`right, node`parent, node`color, node`lo, node`pos, node`hi, node`bh
      modifies repr`left, repr`right, repr`parent, repr`color, repr`lo, repr`pos, repr`hi, repr`bh
      ensures Valid() && repr == old(repr) + {node} && k <= |old(contents)|
      ensures contents == old(contents)[..k] + [node] + old(contents)[k..]
    {
      Grow(node, p, d, k);
      if first {
        head := node;
      }
      InsertColor(node);
      size := size + 1;
    }

    /** Inserts `node` in order; -1, with nothing changed, if the descent meets equal data. */
    method Put(node: Node<K>) returns (r: int, ghost k: nat)
      requires Valid() && node !in repr
      modifies this`root, this`head, this`size, this`contents, this`repr
      modifies node`left, node`right, node`parent, node`color, node`lo, node`pos, node`hi, node`bh
      modifies repr`left, repr`right, repr`parent, repr`color, repr`lo, repr`pos, repr`hi, repr`bh
      ensures Valid()
      ensures r == 0 || r == -1
      ensures r == -1 ==> unchanged(this) && unchanged(repr) && unchanged(node)
      ensures r == -1 ==> exists n :: n in repr && compare(node.data, n.data) == 0
      ensures r == 0 ==> repr == old(repr) + {node} && k <= |old(contents)|
      ensures r == 0 ==> contents == old(contents)[..k] + [node] + old(contents)[k..]
      ensures r == 0 && old(Cuts(node.data)) ==> old(Between(node.data, k, k))
    {
      var found, p, d, first, place := Descend(node.data);
      if found {
        return -1, 0;
      }
      PutAt(node, p, d, first, place);
      return 0, place;
    }

    // ------------------------------------------------------------------
    // Removal: links
    // ------------------------------------------------------------------

    ghost function Drop(x: int, k: int): int {
      if x > k then x - 1 else x
    }

    /** `s`, which had no child but `c`, is gone and `c` hangs in its place. */
    twostate predicate Unlinked(s: Node<K>, c: Node?<K>)
      reads this, repr
    {
      && s in old(repr) && repr == old(repr) - {s}
      && (c != null ==> c in repr)
      && 0 <= old(s.pos) < |old(contents)|
      && contents == old(contents)[..old(s.pos)] + old(contents)[old(s.pos) + 1..]
      && root == (if old(root) == s then c else old(root))
      && (forall z {:trigger z.left} :: z in repr ==> z.left == if old(z.left) == s then c else old(z.left))
      && (forall z {:trigger z.right} :: z in repr ==> z.right == if old(z.right) == s then c else old(z.right))
      && (forall z {:trigger z.parent} :: z in repr ==> z.parent == if z == c then old(s.parent) else old(z.parent))
      && (forall z {:trigger z.lo} :: z in repr ==> z.lo == Drop(old(z.lo), old(s.pos)))
      && (forall z {:trigger z.hi} :: z in repr ==> z.hi == Drop(old(z.hi), old(s.pos)))
      && (forall z {:trigger z.pos} :: z in repr ==> z.pos == Drop(old(z.pos), old(s.pos)))
    }

    ghost predicate OnlyChild(s: Node<K>, c: Node?<K>)
      reads s
    {
      (s.left == null && s.right == c) || (s.right == null && s.left == c)
    }

    twostate lemma UnlinkedDown(s: Node<K>, new c: Node?<K>, new z: Node<K>)
      requires s in old(repr) && old(Links()) && (c == null || c in old(repr)) && old(OnlyChild(s, c))
      requires Unlinked(s, c) && z in repr
      ensures LinkedLeft(z) && LinkedRight(z)
    {
      assert old(Linked(s)) && old(Linked(z));
      assert c != null ==> old(Linked(c));
      var l, r := old(z.left), old(z.right);
      assert l != null ==> old(Linked(l));
      assert r != null ==> old(Linked(r));
    }

    twostate lemma UnlinkedUp(s: Node<K>, new c: Node?<K>, new z: Node<K>)
      requires s in old(repr) && old(Links()) && (c == null || c in old(repr)) && old(OnlyChild(s, c))
      requires Unlinked(s, c) && z in repr
      ensures LinkedUp(z)
    {
      assert old(Linked(s)) && old(Linked(z));
      assert c != null ==> old(Linked(c));
    }

    twostate lemma UnlinkedAt(s: Node<K>, new c: Node?<K>, new i: int)
      requires s in old(repr) && old(Links()) && (c == null || c in old(repr)) && Unlinked(s, c) && 0 <= i < |contents|
      ensures contents[i] in repr && contents[i].pos == i
    {
      assert old(Linked(s));
      if i < old(s.pos) {
        assert contents[i] == old(contents)[i];
      } else {
        assert contents[i] == old(contents)[i + 1];
      }
    }

    twostate lemma UnlinkedLinks(s: Node<K>, new c: Node?<K>)
      requires s in old(repr) && old(Links()) && (c == null || c in old(repr)) && old(OnlyChild(s, c))
      requires Unlinked(s, c)
      ensures Links()
    {
      assert old(Linked(s));
      assert c != null ==> old(Linked(c));
      if old(root) != null { assert old(Linked(root)); }
      forall z | z in repr
        ensures Linked(z)
      {
        UnlinkedDown(s, c, z);
        UnlinkedUp(s, c, z);
      }
      forall i | 0 <= i < |contents|
        ensures contents[i] in repr && contents[i].pos == i
      {
        UnlinkedAt(s, c, i);
      }
    }

    ghost method CloseGap(k: int)
      modifies repr`lo, repr`pos, repr`hi
      ensures forall z {:trigger z.lo} :: z in repr ==> z.lo == Drop(old(z.lo), k)
      ensures forall z {:trigger z.hi} :: z in repr ==> z.hi == Drop(old(z.hi), k)
      ensures forall z {:trigger z.pos} :: z in repr ==> z.pos == Drop(old(z.pos), k)
    {
      forall z | z in repr { z.lo := Drop(z.lo, k); }
      forall z | z in repr { z.hi := Drop(z.hi, k); }
      forall z | z in repr { z.pos := Drop(z.pos, k); }
    }

    method Unlink(s: Node<K>, c: Node?<K>)
      requires Links() && s in repr && OnlyChild(s, c)
      modifies this`root, this`repr, this`contents
      modifies repr`left, repr`right, repr`parent, repr`lo, repr`pos, repr`hi
      ensures Unlinked(s, c)
      ensures s.left == old(s.left) && s.right == old(s.right) && s.parent == old(s.parent)
    {
      assert Linked(s);
      assert c != null ==> Linked(c);
      ghost var k := s.pos;
      Replace(s, c);
      if c != null {
        c.parent := s.parent;
      }
      repr := repr - {s};
      contents := contents[..k] + contents[k + 1..];
      CloseGap(k);
    }

    /** `s`, a node outside the tree, stands where `o` stood. */
    twostate predicate Replaced(new s: Node<K>, o: Node<K>)
      reads this, repr
    {
      && o in old(repr) && s !in old(repr) && repr == old(repr) - {o} + {s}
      && 0 <= old(o.pos) < |old(contents)|
      && contents == old(contents)[old(o.pos) := s]
      && root == (if old(root) == o then s else old(root))
      && s.left == old(o.left) && s.right == old(o.right) && s.parent == old(o.parent)
      && s.lo == old(o.lo) && s.pos == old(o.pos) && s.hi == old(o.hi)
      && (forall z {:trigger z.left} :: z in old(repr) && z != o ==> z.left == if old(z.left) == o then s else old(z.left))
      && (forall z {:trigger z.right} :: z in old(repr) && z != o ==> z.right == if old(z.right) == o then s else old(z.right))
      && (forall z {:trigger z.parent} :: z in old(repr) && z != o ==> z.parent == if old(z.parent) == o then s else old(z.parent))
      && (forall z {:trigger z.lo} :: z in old(repr) && z != o ==> z.lo == old(z.lo))
      && (forall z {:trigger z.hi} :: z in old(repr) && z != o ==> z.hi == old(z.hi))
      && (forall z {:trigger z.pos} :: z in old(repr) && z != o ==> z.pos == old(z.pos))
    }

    twostate lemma ReplacedLinked(new s: Node<K>, o: Node<K>, new z: Node<K>)
      requires o in old(repr) && old(Links()) && Replaced(s, o) && z in repr
      ensures Linked(z)
    {
      assert old(Linked(o));
      var y := if z == s then o else z;
      assert old(Linked(y));
      var l, r, q := old(y.left), old(y.right), old(y.parent);
      assert l != null ==> old(Linked(l));
      assert r != null ==> old(Linked(r));
      assert q != null ==> old(Linked(q));
    }

    twostate lemma ReplacedLinks(new s: Node<K>, o: Node<K>)
      requires o in old(repr) && old(Links()) && Replaced(s, o)
      ensures Links()
    {
      assert old(Linked(o));
      if old(root) != null { assert old(Linked(root)); }
      forall z | z in repr
        ensures Linked(z)
      {
        ReplacedLinked(s, o, z);
      }
      assert forall i :: 0 <= i < |contents| && i != old(o.pos) ==> contents[i] == old(contents)[i];
    }

    /** The children of `o` get the parent `s`. */
    method Adopt(o: Node<K>, s: Node<K>)
      requires o in repr && o.left != null && o.left in repr && (o.right == null || o.right in repr)
      requires forall z :: z in repr ==> (z.parent == o <==> z == o.left || z == o.right)
      modifies repr`parent
      ensures forall z {:trigger z.parent} :: z in repr ==> z.parent == if old(z.parent) == o then s else old(z.parent)
    {
      o.left.parent := s;
      if o.right != null {
        o.right.parent := s;
      }
    }

    lemma OnlyChildren(o: Node<K>, z: Node<K>)
      requires Links() && o in repr && z in repr
      ensures z.parent == o <==> z == o.left || z == o.right
    {
      assert Linked(o) && Linked(z);
    }

    /** Every neighbour of `o` becomes a neighbour of `s`. */
    method Rehang(s: Node<K>, o: Node<K>)
      requires Links() && o in repr && s !in repr && o.left != null
      modifies this`root, repr`left, repr`right, repr`parent
      ensures root == (if old(root) == o then s else old(root))
      ensures forall z {:trigger z.left} :: z in repr ==> z.left == if old(z.left) == o then s else old(z.left)
      ensures forall z {:trigger z.right} :: z in repr ==> z.right == if old(z.right) == o then s else old(z.right)
      ensures forall z {:trigger z.parent} :: z in repr ==> z.parent == if old(z.parent) == o then s else old(z.parent)
    {
      assert Linked(o);
      assert o.parent != null ==> Linked(o.parent);
      forall z | z in repr
        ensures z.left == o || z.right == o ==> o.parent == z && z.left != z.right
        ensures z.parent == o <==> z == o.left || z == o.right
      {
        OnlyParent(z, o);
        OnlyChildren(o, z);
      }
      Relink(o.parent, o, s);
      Adopt(o, s);
    }

    method Copy(s: Node<K>, o: Node<K>)
      requires s != o
      modifies s`left, s`right, s`parent, s`color, s`lo, s`pos, s`hi, s`bh
      ensures s.color == o.color && s.left == o.left && s.right == o.right && s.parent == o.parent
      ensures s.lo == o.lo && s.pos == o.pos && s.hi == o.hi && s.bh == o.bh
    {
      s.color, s.left, s.right, s.parent := o.color, o.left, o.right, o.parent;
      s.lo, s.pos, s.hi, s.bh := o.lo, o.pos, o.hi, o.bh;
    }

    /** `*s = *o`, and `s` stands in the tree where `o` stood. */
    method CopyOver(s: Node<K>, o: Node<K>)
      requires Links() && o in repr && s !in repr && o.left != null
      modifies this`root, this`repr, this`contents, repr`left, repr`right, repr`parent
      modifies s`left, s`right, s`parent, s`color, s`lo, s`pos, s`hi, s`bh
      ensures Replaced(s, o) && s.color == o.color && s.bh == o.bh
    {
      assert Linked(o);
      Copy(s, o);
      Rehang(s, o);
      contents := contents[o.pos := s];
      repr := repr - {o} + {s};
    }

    // ------------------------------------------------------------------
    // Removal: colours
    // ------------------------------------------------------------------

    /** Everything is in order except that the slot on side `d` of `p`, where `x` hangs, lacks
        one black node, and that `x`, if red, may have red neighbours. With `p` null, `x` is
        the root and nothing is lacking. */
    ghost predicate Lacking(p: Node?<K>, d: Side, x: Node?<K>)
      reads this`root, this`contents, this`repr
      reads repr`left, repr`right, repr`parent, repr`lo, repr`pos, repr`hi, repr`color, repr`bh
    {
      && Links()
      && Balance(p, d)
      && NoRedRed(x, x)
      && (p == null ==> x == root)
      && (p != null ==> p in repr && p.Child(d) == x)
      && (x != null ==> x in repr && x.parent == p)
      && (root == x || !IsRed(root))
    }

    /** The sibling of a slot that lacks a black node exists. */
    lemma SiblingExists(p: Node<K>, d: Side, x: Node?<K>)
      requires Lacking(p, d, x)
      ensures p.Child(d.Other()) != null && p.Child(d.Other()) in repr && p.Child(d.Other()) != x
    {
      assert Balanced(p, p, d) && Linked(p);
      assert x != null ==> Balanced(x, p, d);
    }

    ghost function Reach(x: Node?<K>): int
      reads x
    {
      if x == null then 0 else x.hi - x.lo
    }

    // Sibling red

    twostate lemma RedSiblingOrder(d: Side, new p: Node<K>, new w: Node<K>, new x: Node?<K>, new z: Node<K>)
      requires {p, w, z} <= old(repr) && (x == null || x in old(repr)) && old(Lacking(p, d, x)) && Turned(d, p, w)
      requires old(!IsRed(x) && w.color == Red)
      requires forall y {:trigger y.color} :: y in repr ==>
        y.color == if y == w then Black else if y == p then Red else old(y.color)
      requires forall y {:trigger y.bh} :: y in repr ==>
        y.bh == old(y.bh) + if y == w then 1 else if y == p then -1 else 0
      ensures Balanced(z, p, d) && Calm(z, x, x)
    {
      assert old(Linked(p)) && old(Linked(w)) && old(Linked(z));
      assert old(Balanced(p, p, d)) && old(Balanced(w, p, d)) && old(Balanced(z, p, d));
      assert old(Calm(p, x, x)) && old(Calm(w, x, x)) && old(Calm(z, x, x));
      if d == Left {
        assert z.left == z.Child(d) && z.right == z.Child(d.Other());
      } else {
        assert z.right == z.Child(d) && z.left == z.Child(d.Other());
      }
    }

    method RedSibling(d: Side, p: Node<K>, w: Node<K>, ghost x: Node?<K>)
      requires Lacking(p, d, x) && !IsRed(x) && w in repr && p.Child(d.Other()) == w && w.color == Red
      modifies this`root, repr`left, repr`right, repr`parent, repr`lo, repr`hi, repr`color, repr`bh
      ensures Lacking(p, d, x) && p.color == Red && p.Child(d.Other()) == old(w.Child(d))
      ensures !IsRed(x) && !IsRed(p.Child(d.Other())) && Reach(x) == old(Reach(x))
    {
      assert Calm(w, x, x) && Linked(p) && Linked(w);
      PaintAndRotate(d, p, w);
      forall z | z in repr
        ensures Balanced(z, p, d) && Calm(z, x, x)
      {
        RedSiblingOrder(d, p, w, x, z);
      }
      assert p.Child(d) == x && p.Child(d.Other()) == old(w.Child(d));
      assert Linked(p);
    }

    // Sibling black with black children

    twostate lemma RecolorNear(d: Side, new p: Node<K>, new w: Node<K>, new x: Node?<K>, new f: Side, new z: Node<K>)
      requires {p, w, z} <= old(repr) && (x == null || x in old(repr)) && old(Lacking(p, d, x)) && SameLinks()
      requires old(p.Child(d.Other()) == w && w.color == Black) && (z == p || z == w)
      requires forall y {:trigger y.color} :: y in repr ==> y.color == if y == w then Red else old(y.color)
      requires forall y {:trigger y.bh} :: y in repr ==> y.bh == old(y.bh) - if y == w || y == p then 1 else 0
      requires p.parent != null ==> p.parent in repr && p.parent.Child(f) == p
      ensures Balanced(z, p.parent, f)
    {
      assert old(Linked(p)) && old(Linked(w));
      assert old(Balanced(p, p, d)) && old(Balanced(w, p, d));
      var l := old(w.left);
      assert l != null ==> old(Balanced(l, p, d));
    }

    twostate lemma RecolorFar(d: Side, new p: Node<K>, new w: Node<K>, new x: Node?<K>, new f: Side, new z: Node<K>)
      requires {p, w, z} <= old(repr) && (x == null || x in old(repr)) && old(Lacking(p, d, x)) && SameLinks()
      requires old(p.Child(d.Other()) == w && w.color == Black) && z != p && z != w
      requires forall y {:trigger y.color} :: y in repr ==> y.color == if y == w then Red else old(y.color)
      requires forall y {:trigger y.bh} :: y in repr ==> y.bh == old(y.bh) - if y == w || y == p then 1 else 0
      requires p.parent != null ==> p.parent in repr && p.parent.Child(f) == p
      ensures Balanced(z, p.parent, f)
    {
      assert old(Linked(p)) && old(Linked(w)) && old(Linked(z));
      assert old(Balanced(z, p, d));
    }

    twostate lemma RecolorCalm(d: Side, new p: Node<K>, new w: Node<K>, new x: Node?<K>, new z: Node<K>)
      requires {p, w, z} <= old(repr) && (x == null || x in old(repr)) && old(Lacking(p, d, x)) && SameLinks()
      requires old(!IsRed(x) && p.Child(d.Other()) == w && !IsRed(w.left) && !IsRed(w.right))
      requires forall y {:trigger y.color} :: y in repr ==> y.color == if y == w then Red else old(y.color)
      ensures Calm(z, p, p)
    {
      assert old(Linked(p)) && old(Linked(w)) && old(Linked(z));
      assert old(Calm(z, x, x));
    }

    method PaintSibling(p: Node<K>, w: Node<K>)
      requires p in repr && w in repr && p != w
      modifies repr`color, repr`bh
      ensures SameLinks()
      ensures forall y {:trigger y.color} :: y in repr ==> y.color == if y == w then Red else old(y.color)
      ensures forall y {:trigger y.bh} :: y in repr ==> y.bh == old(y.bh) - if y == w || y == p then 1 else 0
    {
      w.color := Red;
      w.bh, p.bh := w.bh - 1, p.bh - 1;
    }

    method Recolor(d: Side, p: Node<K>, w: Node<K>, ghost x: Node?<K>) returns (ghost f: Side)
      requires Lacking(p, d, x) && !IsRed(x) && w in repr && p.Child(d.Other()) == w
      requires w.color == Black && !IsRed(w.left) && !IsRed(w.right)
      modifies repr`color, repr`bh
      ensures Lacking(p.parent, f, p)
    {
      assert Linked(p);
      f := if p.parent != null && p.parent.left == p then Left else Right;
      PaintSibling(p, w);
      forall z | z in repr
        ensures Balanced(z, p.parent, f) && Calm(z, p, p)
      {
        if z == p || z == w { RecolorNear(d, p, w, x, f, z); } else { RecolorFar(d, p, w, x, f, z); }
        RecolorCalm(d, p, w, x, z);
      }
    }

    // Sibling black, outer nephew black, inner nephew red

    twostate lemma InnerNephewBalance(d: Side, new p: Node<K>, new w: Node<K>, new r: Node<K>, new x: Node?<K>, new z: Node<K>)
      requires {p, w, r, z} <= old(repr) && (x == null || x in old(repr)) && old(Lacking(p, d, x))
      requires Turned(d.Other(), w, r)
      requires old(p.Child(d.Other()) == w && w.color == Black && r.color == Red && !IsRed(w.Child(d.Other())) && !IsRed(x))
      requires forall y {:trigger y.color} :: y in repr ==>
        y.color == if y == r then Black else if y == w then Red else old(y.color)
      requires forall y {:trigger y.bh} :: y in repr ==>
        y.bh == old(y.bh) + if y == r then 1 else if y == w then -1 else 0
      ensures Balanced(z, p, d)
    {
      assert old(Linked(p)) && old(Linked(w)) && old(Linked(r)) && old(Linked(z));
      assert old(Balanced(w, p, d)) && old(Balanced(r, p, d)) && old(Balanced(z, p, d));
      if d == Left {
        assert z.left == z.Child(d) && z.right == z.Child(d.Other());
      } else {
        assert z.right == z.Child(d) && z.left == z.Child(d.Other());
      }
    }

    twostate lemma InnerNephewCalm(d: Side, new p: Node<K>, new w: Node<K>, new r: Node<K>, new x: Node?<K>, new z: Node<K>)
      requires {p, w, r, z} <= old(repr) && (x == null || x in old(repr)) && old(Lacking(p, d, x))
      requires Turned(d.Other(), w, r)
      requires old(p.Child(d.Other()) == w && w.color == Black && r.color == Red && !IsRed(w.Child(d.Other())) && !IsRed(x))
      requires forall y {:trigger y.color} :: y in repr ==>
        y.color == if y == r then Black else if y == w then Red else old(y.color)
      requires forall y {:trigger y.bh} :: y in repr ==>
        y.bh == old(y.bh) + if y == r then 1 else if y == w then -1 else 0
      ensures Calm(z, x, x)
    {
      assert old(Linked(p)) && old(Linked(w)) && old(Linked(r)) && old(Linked(z));
      assert old(Calm(r, x, x)) && old(Calm(z, x, x));
      if d == Left {
        assert z.left == z.Child(d) && z.right == z.Child(d.Other());
      } else {
        assert z.right == z.Child(d) && z.left == z.Child(d.Other());
      }
    }

    twostate lemma InnerNephewOrder(d: Side, new p: Node<K>, new w: Node<K>, new r: Node<K>, new x: Node?<K>, new z: Node<K>)
      requires {p, w, r, z} <= old(repr) && (x == null || x in old(repr)) && old(Lacking(p, d, x))
      requires Turned(d.Other(), w, r)
      requires old(p.Child(d.Other()) == w && w.color == Black && r.color == Red && !IsRed(w.Child(d.Other())) && !IsRed(x))
      requires forall y {:trigger y.color} :: y in repr ==>
        y.color == if y == r then Black else if y == w then Red else old(y.color)
      requires forall y {:trigger y.bh} :: y in repr ==>
        y.bh == old(y.bh) + if y == r then 1 else if y == w then -1 else 0
      ensures Balanced(z, p, d) && Calm(z, x, x)
    {
      InnerNephewBalance(d, p, w, r, x, z);
      InnerNephewCalm(d, p, w, r, x, z);
    }

    method InnerNephew(d: Side, p: Node<K>, w: Node<K>, r: Node<K>, ghost x: Node?<K>)
      requires Lacking(p, d, x) && !IsRed(x) && w in repr && r in repr && p.Child(d.Other()) == w && w.Child(d) == r
      requires w.color == Black && r.color == Red && !IsRed(w.Child(d.Other()))
      modifies this`root, repr`left, repr`right, repr`parent, repr`lo, repr`hi, repr`color, repr`bh
      ensures Lacking(p, d, x) && !IsRed(x) && p.Child(d.Other()) == r && r.Child(d.Other()) == w
      ensures r.color == Black && w.color == Red
    {
      assert Linked(p) && Linked(w);
      PaintAndRotate(d.Other(), w, r);
      forall z | z in repr
        ensures Balanced(z, p, d) && Calm(z, x, x)
      {
        InnerNephewOrder(d, p, w, r, x, z);
      }
      assert p.Child(d) == x && p.Child(d.Other()) == r;
      assert Linked(p);
    }

    // Sibling black, outer nephew red

    twostate lemma OuterNephewNear(d: Side, new p: Node<K>, new w: Node<K>, new v: Node<K>, new x: Node?<K>, new z: Node<K>)
      requires {p, w, v, z} <= old(repr) && (x == null || x in old(repr)) && old(Lacking(p, d, x)) && Turned(d, p, w)
      requires old(w.Child(d.Other()) == v && w.color == Black && v.color == Red && !IsRed(x))
      requires forall y {:trigger y.color} :: y in repr ==>
        y.color == if y == p || y == v then Black else if y == w then old(p.color) else old(y.color)
      requires forall y {:trigger y.bh} :: y in repr ==>
        y.bh == if y == p then old(w.bh) else if y == w then old(p.bh) else if y == v then old(v.bh) + 1 else old(y.bh)
      requires z == p || z == w || z == v
      ensures Balanced(z, null, Left)
    {
      assert old(Linked(p)) && old(Linked(w)) && old(Linked(v));
      assert old(Balanced(p, p, d)) && old(Balanced(w, p, d)) && old(Balanced(v, p, d));
      if d == Left {
        assert z.left == z.Child(d) && z.right == z.Child(d.Other());
      } else {
        assert z.right == z.Child(d) && z.left == z.Child(d.Other());
      }
    }

    twostate lemma OuterNephewFar(d: Side, new p: Node<K>, new w: Node<K>, new v: Node<K>, new x: Node?<K>, new z: Node<K>)
      requires {p, w, v, z} <= old(repr) && (x == null || x in old(repr)) && old(Lacking(p, d, x)) && Turned(d, p, w)
      requires old(w.Child(d.Other()) == v && w.color == Black && v.color == Red && !IsRed(x))
      requires forall y {:trigger y.color} :: y in repr ==>
        y.color == if y == p || y == v then Black else if y == w then old(p.color) else old(y.color)
      requires forall y {:trigger y.bh} :: y in repr ==>
        y.bh == if y == p then old(w.bh) else if y == w then old(p.bh) else if y == v then old(v.bh) + 1 else old(y.bh)
      requires z != p && z != w && z != v
      ensures Balanced(z, null, Left)
    {
      assert old(Linked(p)) && old(Linked(w)) && old(Linked(v)) && old(Linked(z));
      assert old(Balanced(p, p, d)) && old(Balanced(w, p, d)) && old(Balanced(v, p, d)) && old(Balanced(z, p, d));
      if d == Left {
        assert z.left == z.Child(d) && z.right == z.Child(d.Other());
      } else {
        assert z.right == z.Child(d) && z.left == z.Child(d.Other());
      }
    }

    twostate lemma OuterNephewCalm(d: Side, new p: Node<K>, new w: Node<K>, new v: Node<K>, new x: Node?<K>, new z: Node<K>)
      requires {p, w, v, z} <= old(repr) && (x == null || x in old(repr)) && old(Lacking(p, d, x)) && Turned(d, p, w)
      requires old(w.Child(d.Other()) == v && w.color == Black && v.color == Red && !IsRed(x))
      requires forall y {:trigger y.color} :: y in repr ==>
        y.color == if y == p || y == v then Black else if y == w then old(p.color) else old(y.color)
      requires forall y {:trigger y.bh} :: y in repr ==>
        y.bh == if y == p then old(w.bh) else if y == w then old(p.bh) else if y == v then old(v.bh) + 1 else old(y.bh)
      ensures Calm(z, root, root)
    {
      assert old(Linked(p)) && old(Linked(w)) && old(Linked(v)) && old(Linked(z));
      assert old(Calm(p, x, x)) && old(Calm(w, x, x)) && old(Calm(v, x, x)) && old(Calm(z, x, x));
      if d == Left {
        assert z.left == z.Child(d) && z.right == z.Child(d.Other());
      } else {
        assert z.right == z.Child(d) && z.left == z.Child(d.Other());
      }
    }

    method PaintThree(p: Node<K>, w: Node<K>, v: Node<K>)
      requires {p, w, v} <= repr && p != w && p != v && w != v
      modifies repr`color, repr`bh
      ensures forall y {:trigger y.color} :: y in repr ==>
        y.color == if y == p || y == v then Black else if y == w then old(p.color) else old(y.color)
      ensures forall y {:trigger y.bh} :: y in repr ==>
        y.bh == if y == p then old(w.bh) else if y == w then old(p.bh) else if y == v then old(v.bh) + 1 else old(y.bh)
    {
      w.color := p.color;
      p.color := Black;
      v.color := Black;
      w.bh, p.bh, v.bh := p.bh, w.bh, v.bh + 1;
    }

    method PaintThreeAndRotate(d: Side, p: Node<K>, w: Node<K>, v: Node<K>)
      requires Links() && {p, w, v} <= repr && p.Child(d.Other()) == w && w.Child(d.Other()) == v
      modifies this`root, repr`left, repr`right, repr`parent, repr`lo, repr`hi, repr`color, repr`bh
      ensures Links() && Turned(d, p, w)
      ensures forall y {:trigger y.color} :: y in repr ==>
        y.color == if y == p || y == v then Black else if y == w then old(p.color) else old(y.color)
      ensures forall y {:trigger y.bh} :: y in repr ==>
        y.bh == if y == p then old(w.bh) else if y == w then old(p.bh) else if y == v then old(v.bh) + 1 else old(y.bh)
    {
      assert Linked(p) && Linked(w) && Linked(v);
      PaintThree(p, w, v);
      Rotate(d, p);
    }

    method OuterNephew(d: Side, p: Node<K>, w: Node<K>, v: Node<K>, ghost x: Node?<K>)
      requires Lacking(p, d, x) && !IsRed(x) && w in repr && v in repr && p.Child(d.Other()) == w && w.Child(d.Other()) == v
      requires w.color == Black && v.color == Red
      modifies this`root, repr`left, repr`right, repr`parent, repr`lo, repr`hi, repr`color, repr`bh
      ensures Lacking(null, Left, root)
    {
      assert Linked(p);
      PaintThreeAndRotate(d, p, w, v);
      forall z | z in repr
        ensures Balanced(z, null, Left) && Calm(z, root, root)
      {
        if z == p || z == w || z == v {
          OuterNephewNear(d, p, w, v, x, z);
        } else {
          OuterNephewFar(d, p, w, v, x, z);
        }
        OuterNephewCalm(d, p, w, v, x, z);
      }
    }

    // The fix-up loop

    twostate lemma BlackenedOrder(p: Node?<K>, new d: Side, new x: Node<K>, new z: Node<K>)
      requires (p == null || p in old(repr)) && x in old(repr) && z in old(repr) && old(Lacking(p, d, x)) && SameLinks()
      requires p != null ==> old(x.color) == Red
      requires forall y {:trigger y.color} :: y in repr ==> y.color == if y == x then Black else old(y.color)
      requires forall y {:trigger y.bh} :: y in repr ==> y.bh == old(y.bh) + if y == x && old(x.color) == Red then 1 else 0
      ensures Balanced(z, null, Left) && Calm(z, null, null)
    {
      assert old(Linked(x)) && old(Linked(z));
      assert old(Balanced(x, p, d)) && old(Balanced(z, p, d)) && old(Calm(z, x, x));
      assert p != null ==> old(Linked(p));
    }

    lemma NodeMeansRoot(z: Node<K>)
      requires Links() && z in repr
      ensures root != null
    {
      assert Linked(z);
    }

    lemma NoNodes()
      requires Links() && root == null
      ensures repr == {}
    {
      if z :| z in repr {
        NodeMeansRoot(z);
      }
    }

    method Blacken(ghost p: Node?<K>, ghost d: Side, x: Node?<K>)
      requires Lacking(p, d, x) && (p != null ==> IsRed(x))
      modifies repr`color, repr`bh
      ensures Links() && Ordered()
    {
      if x != null {
        x.bh := if x.color == Red then x.bh + 1 else x.bh;
        x.color := Black;
        forall z | z in repr
          ensures Balanced(z, null, Left) && Calm(z, null, null)
        {
          BlackenedOrder(p, d, x, z);
        }
      } else {
        NoNodes();
      }
    }

    /** Sibling black: recolour and move up, or rotate and be done. */
    method BlackSibling(d: Side, p: Node<K>, w: Node<K>, x: Node?<K>) returns (done: bool, ghost f: Side)
      requires Lacking(p, d, x) && !IsRed(x) && w in repr && p.Child(d.Other()) == w && w.color == Black
      modifies this`root, repr`left, repr`right, repr`parent, repr`lo, repr`hi, repr`color, repr`bh
      ensures !done ==> Lacking(p.parent, f, p) && Reach(p) > old(Reach(x))
      ensures done ==> Lacking(null, Left, root)
    {
      assert Linked(p) && Linked(w);
      assert x != null ==> Linked(x);
      f := Left;
      var current := w;
      if !IsRed(w.left) && !IsRed(w.right) {
        f := Recolor(d, p, w, x);
        done := false;
      } else {
        if !IsRed(w.Child(d.Other())) {
          current := w.Child(d);
          InnerNephew(d, p, w, w.Child(d), x);
        }
        OuterNephew(d, p, current, current.Child(d.Other()), x);
        done := true;
      }
    }

    method RemoveColor(parent: Node?<K>, node: Node?<K>, ghost side: Side)
      requires Lacking(parent, side, node)
      modifies this`root, repr`left, repr`right, repr`parent, repr`lo, repr`hi, repr`color, repr`bh
      ensures Links() && Ordered()
    {
      var p, x := parent, node;
      ghost var d := side;
      while !IsRed(x) && x != root && p != null
        invariant Lacking(p, d, x)
        decreases |contents| - Reach(x)
      {
        SiblingExists(p, d, x);
        var e := if p.left == x then Left else Right;
        assert e == d;
        var w := p.Child(e.Other());
        assert Linked(p) && Linked(w);
        if w.color == Red {
          assert Linked(w);
          RedSibling(e, p, w, x);
          SiblingExists(p, d, x);
          w := p.Child(e.Other());
        }
        var done, f := BlackSibling(e, p, w, x);
        if done {
          p, x, d := null, root, Left;
          break;
        }
        x := p;
        p := x.parent;
        d := f;
      }
      assert p != null ==> Linked(p);
      Blacken(p, d, x);
    }

    // ------------------------------------------------------------------
    // Removal
    // ------------------------------------------------------------------

    lemma BlackCounts(n: Node?<K>)
      requires Balance(null, Left) && (n == null || n in repr)
      ensures 0 <= Bh(n) && (n != null && n.color == Black ==> 1 <= Bh(n))
    {
      if n != null {
        assert Balanced(n, null, Left);
        assert n.left != null ==> Balanced(n.left, null, Left);
      }
    }

    /** A node with a missing child has at most a red leaf on the other side. */
    lemma OnlyChildIsRedLeaf(s: Node<K>, c: Node?<K>)
      requires Links() && Ordered() && s in repr && OnlyChild(s, c)
      ensures c != null ==> s.color == Black && c.color == Red && c.left == null && c.right == null
    {
      assert Linked(s) && Balanced(s, null, Left) && Calm(s, null, null);
      if c != null {
        assert Linked(c) && Balanced(c, null, Left) && Calm(c, null, null);
        BlackCounts(c.left);
        BlackCounts(c.right);
      }
    }

    twostate lemma UnlinkedOrder(s: Node<K>, new c: Node?<K>, new p: Node?<K>, new d: Side, new z: Node<K>)
      requires s in old(repr) && old(Links() && Ordered()) && (c == null || c in old(repr)) && old(OnlyChild(s, c))
      requires Unlinked(s, c) && z in repr
      requires c != null ==> old(s.color == Black && c.color == Red)
      requires p == if old(s.color) == Black then old(s.parent) else null
      requires p != null ==> p in repr && old(p.Child(d)) == s
      requires forall y {:trigger y.color} :: y in repr ==> y.color == old(y.color)
      requires forall y {:trigger y.bh} :: y in repr ==> y.bh == old(y.bh)
      ensures Balanced(z, p, d) && Calm(z, c, c)
    {
      assert old(Linked(s)) && old(Linked(z));
      assert old(Balanced(s, null, Left)) && old(Balanced(z, null, Left));
      assert old(Calm(s, null, null)) && old(Calm(z, null, null));
      assert c != null ==> old(Balanced(c, null, Left));
    }

    /** Unlinks a node with at most one child; a black one leaves a slot lacking. */
    method Detach(s: Node<K>, c: Node?<K>) returns (ghost p: Node?<K>, ghost d: Side)
      requires Links() && Ordered() && s in repr && OnlyChild(s, c)
      modifies this`root, this`repr, this`contents
      modifies repr`left, repr`right, repr`parent, repr`lo, repr`pos, repr`hi
      ensures Links() && Unlinked(s, c) && s.color == old(s.color)
      ensures p == if s.color == Black then old(s.parent) else null
      ensures s.color == Black ==> Lacking(p, d, c)
      ensures s.color == Red ==> Ordered() && c == null
      ensures s.left == old(s.left) && s.right == old(s.right) && s.parent == old(s.parent)
    {
      p := if s.color == Black then s.parent else null;
      d := if p != null && p.left == s then Left else Right;
      assert Linked(s);
      assert c != null ==> Linked(c);
      assert s.parent != null ==> Linked(s.parent);
      OnlyChildIsRedLeaf(s, c);
      Unlink(s, c);
      UnlinkedLinks(s, c);
      forall z | z in repr
        ensures Balanced(z, p, d) && Calm(z, c, c)
      {
        UnlinkedOrder(s, c, p, d, z);
      }
    }

    twostate lemma ReplacedBalanced(new s: Node<K>, o: Node<K>, new p: Node?<K>, new d: Side, new z: Node<K>)
      requires o in old(repr) && (p == null || p in old(repr)) && old(Links() && Balance(p, d))
      requires Replaced(s, o) && z in repr
      requires s.color == old(o.color) && s.bh == old(o.bh)
      requires forall y {:trigger y.color} :: y in old(repr) && y != o ==> y.color == old(y.color)
      requires forall y {:trigger y.bh} :: y in old(repr) && y != o ==> y.bh == old(y.bh)
      ensures Balanced(z, if p == o then s else p, d)
    {
      var y := if z == s then o else z;
      assert old(Linked(y)) && old(Balanced(y, p, d));
    }

    twostate lemma ReplacedCalm(new s: Node<K>, o: Node<K>, new x: Node?<K>, new z: Node<K>)
      requires o in old(repr) && (x == null || x in old(repr)) && old(Links() && NoRedRed(x, x)) && x != o
      requires Replaced(s, o) && z in repr
      requires s.color == old(o.color)
      requires forall y {:trigger y.color} :: y in old(repr) && y != o ==> y.color == old(y.color)
      ensures Calm(z, x, x)
    {
      var y := if z == s then o else z;
      assert old(Linked(y)) && old(Calm(y, x, x));
    }

    /** `s` takes the place of `o`; the slot on side `d` of `p`, where `x` hangs, may be lacking. */
    method TakePlace(s: Node<K>, o: Node<K>, ghost p: Node?<K>, ghost d: Side, ghost x: Node?<K>)
      requires Links() && o in repr && s !in repr && o.left != null && x != o
      requires Lacking(p, d, x) || (Ordered() && p == null && x == null && d == Left)
      modifies this`root, this`repr, this`contents, repr`left, repr`right, repr`parent
      modifies s`left, s`right, s`parent, s`color, s`lo, s`pos, s`hi, s`bh
      ensures Links() && Replaced(s, o)
      ensures old(Lacking(p, d, x)) ==> Lacking(if p == o then s else p, d, x)
      ensures old(Ordered()) && p == null && x == null && d == Left ==> Ordered()
    {
      CopyOver(s, o);
      ReplacedLinks(s, o);
      forall z | z in repr
        ensures Balanced(z, if p == o then s else p, d) && Calm(z, x, x)
      {
        ReplacedBalanced(s, o, p, d, z);
        ReplacedCalm(s, o, x, z);
      }
    }

    method Leftmost(n: Node<K>) returns (m: Node<K>)
      requires Links() && n in repr
      ensures m in repr && m.left == null && m.lo == m.pos == n.lo
    {
      m := n;
      assert Linked(m);
      while m.left != null
        invariant m in repr && m.lo == n.lo && Linked(m)
        decreases m.hi - m.lo
      {
        assert Linked(m.left);
        m := m.left;
      }
    }

    lemma PromoteNext(c: seq<Node<K>>, k: nat)
      requires k + 1 < |c|
      ensures (c[..k + 1] + c[k + 2..])[k := c[k + 1]] == c[..k] + c[k + 1..]
    {
    }

    /** The node after one with two children has no left child and hangs below it. */
    method Successor(o: Node<K>) returns (s: Node<K>)
      requires Links() && o in repr && o.left != null && o.right != null
      ensures s in repr && s != o && s.left == null && s.pos == o.pos + 1 && 0 < o.pos && s.pos < |contents|
      ensures s.parent != null && s.parent in repr && (s.right == null || s.right in repr)
      ensures OnlyChild(s, s.right) && s.right != o && o.left != s && contents[s.pos] == s && contents[o.pos] == o
    {
      assert Linked(o) && Linked(o.right) && Linked(o.left);
      s := Leftmost(o.right);
      assert Linked(s);
      assert s.right != null ==> Linked(s.right);
    }

    /** Removal of a node with two children: its in-order successor is unlinked and takes its place. */
    method RemoveInner(o: Node<K>) returns (parent: Node?<K>, child: Node?<K>, color: Color, ghost d: Side)
      requires Links() && Ordered() && o in repr && o.left != null && o.right != null
      modifies this`root, this`repr, this`contents
      modifies repr`left, repr`right, repr`parent, repr`color, repr`lo, repr`pos, repr`hi, repr`bh
      ensures Links() && repr == old(repr) - {o} && 0 < old(o.pos) < |old(contents)|
      ensures contents == old(contents)[..old(o.pos)] + old(contents)[old(o.pos) + 1..]
      ensures color == Black ==> Lacking(parent, d, child)
      ensures color == Red ==> Ordered()
    {
      ghost var before, k := contents, o.pos;
      var s := Successor(o);
      child, parent, color := s.right, s.parent, s.color;
      ghost var p;
      p, d := Detach(s, child);
      if s.parent == o {
        parent := s;
      }
      if color == Red { d := Left; }
      TakePlace(s, o, p, d, child);
      PromoteNext(before, k);
    }

    lemma SecondNode(n: Node<K>, c: Node?<K>)
      requires Links() && Ordered() && n in repr && n.pos == 0 && OnlyChild(n, c)
      ensures n.parent != null ==> n.parent in repr && n.parent.left == n && n.parent.right != n
      ensures |contents| == 1 <==> c == null && n.parent == null
      ensures |contents| > 1 ==> contents[1] == if c != null then c else n.parent
    {
      assert Linked(n);
      OnlyChildIsRedLeaf(n, c);
      if c != null { assert Linked(c); }
      if n.parent != null { assert Linked(n.parent); }
    }

    /** Removal of a node with at most one child, with the repair of the cached head. */
    method RemoveOuter(n: Node<K>) returns (parent: Node?<K>, child: Node?<K>, color: Color, ghost d: Side)
      requires Links() && Ordered() && n in repr && (n.left == null || n.right == null)
      requires contents != [] && head == contents[0]
      modifies this`root, this`head, this`repr, this`contents
      modifies repr`left, repr`right, repr`parent, repr`lo, repr`pos, repr`hi
      ensures Links() && repr == old(repr) - {n} && 0 <= old(n.pos) < |old(contents)|
      ensures contents == old(contents)[..old(n.pos)] + old(contents)[old(n.pos) + 1..]
      ensures color == Black ==> Lacking(parent, d, child)
      ensures color == Red ==> Ordered()
      ensures head == if contents == [] then null else contents[0]
    {
      assert Linked(n);
      if n.left == null {
        child := n.right;
      } else {
        child := n.left;
      }
      parent, color := n.parent, n.color;
      if n.pos == 0 { SecondNode(n, child); }
      assert n == head <==> n.pos == 0;
      ghost var p;
      p, d := Detach(n, child);
      if n == head {
        if parent != null && parent.left == null {
          head := parent;
        } else {
          head := child;
        }
      }
    }

    method Remove(node: Node<K>) returns (freed: seq<Node<K>>)
      requires Valid() && node in repr
      modifies this`root, this`head, this`size, this`repr, this`contents
      modifies repr`left, repr`right, repr`parent, repr`color, repr`lo, repr`pos, repr`hi, repr`bh
      ensures Valid() && repr == old(repr) - {node} && 0 <= old(node.pos) < |old(contents)|
      ensures contents == old(contents)[..old(node.pos)] + old(contents)[old(node.pos) + 1..]
      ensures freed == if hasDelete then [node] else []
    {
      var parent, child, color;
      ghost var d;
      assert Linked(node);
      if node.left == null || node.right == null {
        parent, child, color, d := RemoveOuter(node);
      } else {
        parent, child, color, d := RemoveInner(node);
      }
      if color == Black {
        RemoveColor(parent, child, d);
      }
      freed := if hasDelete then [node] else [];
      size := size - 1;
    }

    // ------------------------------------------------------------------
    // Walks
    // ------------------------------------------------------------------

    /** The nodes standing in the stretch of `a` have their own stretches inside it. */
    lemma Nested(a: Node<K>, i: int)
      requires Links() && a in repr && a.lo <= i < a.hi && 0 <= i < |contents|
      ensures contents[i] in repr && a.lo <= contents[i].lo && contents[i].hi <= a.hi
      decreases a.hi - a.lo
    {
      assert Linked(a);
      if i < a.pos {
        assert Linked(a.left);
        Nested(a.left, i);
      } else if i > a.pos {
        assert Linked(a.right);
        Nested(a.right, i);
      }
    }

    /** If the stretch of `a` covers another node, it covers that node's parent. */
    lemma CoversParent(a: Node<K>, c: Node<K>)
      requires Links() && a in repr && c in repr && c != a && a.lo <= c.pos < a.hi
      ensures c.parent != null && c.parent in repr && a.lo <= c.parent.pos < a.hi
      decreases a.hi - a.lo
    {
      assert Linked(a) && Linked(c);
      if c.pos < a.pos {
        assert Linked(a.left);
        if c != a.left { CoversParent(a.left, c); }
      } else {
        assert Linked(a.right);
        if c != a.right { CoversParent(a.right, c); }
      }
    }

    method Next(node: Node<K>) returns (m: Node?<K>)
      requires Valid() && node in repr
      ensures 0 <= node.pos < |contents|
      ensures m == if node.pos + 1 < |contents| then contents[node.pos + 1] else null
    {
      assert Linked(node);
      var n: Node<K> := node;
      if n.right != null {
        assert Linked(n.right);
        m := Leftmost(n.right);
        assert Linked(m);
      } else {
        while n.parent != null && n == n.parent.right
          invariant n in repr && Linked(n) && n.hi == node.pos + 1
          decreases |contents| - (n.hi - n.lo)
        {
          assert Linked(n.parent);
          n := n.parent;
        }
        m := n.parent;
        assert m != null ==> Linked(m);
      }
    }

    method Find(data: K) returns (m: Node?<K>)
      requires Valid()
      ensures m != null ==> m in repr && compare(data, m.data) == 0
      ensures m == null && Cuts(data) ==> forall n :: n in repr ==> compare(data, n.data) != 0
    {
      var found, p, d, first;
      ghost var k;
      found, p, d, first, k := Descend(data);
      m := if found then p else null;
      if m == null {
        forall n | n in repr
          ensures Cuts(data) ==> compare(data, n.data) != 0
        {
          assert Linked(n);
        }
      }
    }

    // ------------------------------------------------------------------
    // Flush
    // ------------------------------------------------------------------

    /** The stretch of `n` ends by `b` and does not cover position `c`. */
    ghost predicate Past(n: Node<K>, b: int, c: int)
      reads n
    {
      n.hi <= b && !(n.lo <= c < n.hi)
    }

    /** Each node once, children before their parent. */
    ghost predicate PostOrder(freed: seq<Node<K>>)
      reads freed
    {
      && (forall i, j :: 0 <= i < j < |freed| ==> freed[i] != freed[j])
      && (forall i :: 0 <= i < |freed| ==> freed[i].left == null || freed[i].left in freed[..i])
      && (forall i :: 0 <= i < |freed| ==> freed[i].right == null || freed[i].right in freed[..i])
    }

    ghost predicate Freed(freed: seq<Node<K>>, b: int, c: int)
      reads this`repr, repr, freed
    {
      && (forall n {:trigger n in freed} :: n in freed ==> n in repr)
      && (forall n {:trigger Past(n, b, c)} :: n in repr ==> (n in freed <==> Past(n, b, c)))
      && PostOrder(freed)
    }

    lemma FreeOne(freed: seq<Node<K>>, n: Node<K>)
      requires PostOrder(freed) && n !in freed
      requires (n.left == null || n.left in freed) && (n.right == null || n.right in freed)
      ensures PostOrder(freed + [n])
    {
      var f := freed + [n];
      forall i | 0 <= i < |f|
        ensures f[i].left == null || f[i].left in f[..i]
        ensures f[i].right == null || f[i].right in f[..i]
      {
        assert f[..i] == if i < |freed| then freed[..i] else freed;
      }
    }

    lemma PastWhenDescending(a: Node<K>, n: Node<K>)
      requires Links() && a in repr && n in repr && a.right != null
      ensures Past(n, a.pos, a.pos) <==> Past(n, a.pos + 1, a.pos + 1)
    {
      assert Linked(a) && Linked(n);
      if n.hi == a.pos + 1 {
        Nested(n, a.pos);
      }
    }

    lemma PastWhenLeaf(a: Node<K>, n: Node<K>)
      requires Links() && a in repr && n in repr && a.right == null
      ensures Past(n, a.pos, a.pos) <==> Past(n, a.hi, a.pos)
    {
      assert Linked(a) && Linked(n);
    }

    lemma PastWhenClimbing(a: Node<K>, n: Node<K>)
      requires Links() && a in repr && n in repr && a.parent != null && a.parent in repr && a == a.parent.right
      ensures (Past(n, a.hi, a.pos) || n == a) <==> Past(n, a.parent.hi, a.parent.pos)
    {
      var p := a.parent;
      assert Linked(a) && Linked(n) && Linked(p);
      if n != a && n.lo <= a.pos < n.hi { CoversParent(n, a); }
      if n.lo <= p.pos < n.hi { Nested(n, p.pos); }
    }

    lemma PastWhenCrossing(a: Node<K>, n: Node<K>)
      requires Links() && a in repr && n in repr && (a.parent == null || (a.parent in repr && a == a.parent.left))
      ensures a.parent != null ==> ((Past(n, a.hi, a.pos) || n == a) <==> Past(n, a.parent.pos, a.parent.pos))
      ensures a.parent == null ==> (Past(n, a.hi, a.pos) || n == a)
    {
      assert Linked(a) && Linked(n);
      if a.parent != null { assert Linked(a.parent); }
      if n != a && n.lo <= a.pos < n.hi { CoversParent(n, a); }
    }

    lemma MayFree(freed: seq<Node<K>>, a: Node<K>)
      requires Links() && a in repr && Freed(freed, a.hi, a.pos)
      ensures a !in freed && (a.parent == null || a.parent !in freed) && PostOrder(freed + [a])
    {
      assert Linked(a) && !Past(a, a.hi, a.pos);
      if a.parent != null {
        assert Linked(a.parent) && !Past(a.parent, a.hi, a.pos);
      }
      if a.left != null {
        assert Linked(a.left) && Past(a.left, a.hi, a.pos);
      }
      if a.right != null {
        assert Linked(a.right) && Past(a.right, a.hi, a.pos);
      }
      FreeOne(freed, a);
    }

    lemma FreedAtLeaf(a: Node<K>, freed: seq<Node<K>>)
      requires Links() && a in repr && a.right == null && Freed(freed, a.pos, a.pos)
      ensures Freed(freed, a.hi, a.pos)
    {
      forall n | n in repr
        ensures Past(n, a.pos, a.pos) <==> Past(n, a.hi, a.pos)
      {
        PastWhenLeaf(a, n);
      }
    }

    lemma FreedClimbing(c: Node<K>, p: Node<K>, freed: seq<Node<K>>)
      requires Links() && c in repr && p in repr && c.parent == p && p.right == c && Freed(freed, c.hi, c.pos)
      ensures Linked(p) && Freed(freed + [c], p.hi, p.pos) && c.hi == p.hi && p.lo < c.lo
    {
      MayFree(freed, c);
      assert Linked(p) && Linked(c);
      forall n | n in repr
        ensures (Past(n, c.hi, c.pos) || n == c) <==> Past(n, p.hi, p.pos)
      {
        PastWhenClimbing(c, n);
      }
    }

    // Reads guarded by the nodes already handed to the delete callback.
    function LeftOf(n: Node<K>, freed: seq<Node<K>>): Node?<K>
      requires n !in freed
      reads n`left
    { n.left }

    function RightOf(n: Node<K>, freed: seq<Node<K>>): Node?<K>
      requires n !in freed
      reads n`right
    { n.right }

    function ParentOf(n: Node<K>, freed: seq<Node<K>>): Node?<K>
      requires n !in freed
      reads n`parent
    { n.parent }

    /** The descent of the flush: from a node with a right child to the next node in order. */
    method FlushDown(a: Node<K>, freed: seq<Node<K>>) returns (m: Node<K>)
      requires Links() && a in repr && Freed(freed, a.pos, a.pos) && a.right != null
      ensures m in repr && m.pos == a.pos + 1 && Freed(freed, m.pos, m.pos)
    {
      assert Linked(a) && Linked(a.right);
      m := a.right;
      while true
        invariant m in repr && Linked(m) && m.lo == a.pos + 1
        decreases m.hi - m.lo
      {
        assert !Past(m, a.pos, a.pos);
        if LeftOf(m, freed) == null { break; }
        assert Linked(m.left);
        m := m.left;
      }
      forall n | n in repr
        ensures Past(n, a.pos, a.pos) <==> Past(n, m.pos, m.pos)
      {
        PastWhenDescending(a, n);
      }
    }

    /** The climb of the flush: frees the node and every ancestor it closes. */
    method FlushUp(a: Node<K>, freed0: seq<Node<K>>) returns (m: Node?<K>, freed: seq<Node<K>>)
      requires Links() && a in repr && Freed(freed0, a.pos, a.pos) && a.right == null
      ensures m != null ==> m in repr && m.pos > a.pos && Freed(freed, m.pos, m.pos)
      ensures m == null ==> PostOrder(freed) && forall n :: n in freed <==> n in repr
    {
      assert Linked(a);
      var c := a;
      freed := freed0;
      FreedAtLeaf(a, freed);
      while true
        invariant c in repr && Linked(c) && Freed(freed, c.hi, c.pos) && c.hi > a.pos
        decreases |contents| - (c.hi - c.lo)
      {
        MayFree(freed, c);
        var p := ParentOf(c, freed);
        if p == null || RightOf(p, freed) != c { break; }
        FreedClimbing(c, p, freed);
        freed := freed + [c];
        c := p;
      }
      m := ParentOf(c, freed);
      assert m != null ==> Linked(m);
      forall n | n in repr
        ensures m != null ==> ((Past(n, c.hi, c.pos) || n == c) <==> Past(n, m.pos, m.pos))
        ensures m == null ==> (Past(n, c.hi, c.pos) || n == c)
      {
        PastWhenCrossing(c, n);
      }
      freed := freed + [c];
    }

    method FreeAll() returns (freed: seq<Node<K>>)
      requires Valid() && root != null
      ensures PostOrder(freed) && forall n :: n in freed <==> n in repr
    {
      freed := [];
      var current := head;
      forall n | n in repr
        ensures !Past(n, current.pos, current.pos)
      {
        assert Linked(n);
      }
      while current != null
        invariant current != null ==> current in repr && Linked(current) && Freed(freed, current.pos, current.pos)
        invariant current == null ==> PostOrder(freed) && forall n :: n in freed <==> n in repr
        decreases if current == null then 0 else 1 + |contents| - current.pos
      {
        assert !Past(current, current.pos, current.pos);
        if RightOf(current, freed) != null {
          current := FlushDown(current, freed);
        } else {
          current, freed := FlushUp(current, freed);
        }
        assert current != null ==> Linked(current);
      }
    }

    method Flush() returns (freed: seq<Node<K>>)
      requires Valid()
      modifies this`root, this`head, this`size, this`repr, this`contents
      ensures Valid() && contents == [] && repr == {}
      ensures !hasDelete ==> freed == []
      ensures hasDelete ==> PostOrder(freed) && forall n :: n in freed <==> n in old(repr)
    {
      freed := [];
      if root != null && hasDelete {
        freed := FreeAll();
      } else if root == null {
        NoNodes();
      }
      size, root, head := 0, null, null;
      contents, repr := [], {};
    }

    // ------------------------------------------------------------------
    // What the coordinates mean
    // ------------------------------------------------------------------

    ghost function InOrder(n: Node?<K>): seq<Node<K>>
      requires Links() && (n == null || n in repr)
      reads this`root, this`contents, this`repr, repr`left, repr`right, repr`parent, repr`lo, repr`pos, repr`hi
      decreases if n == null then 0 else n.hi - n.lo
    {
      if n == null then [] else
      assert Linked(n);
      assert n.left != null ==> Linked(n.left);
      assert n.right != null ==> Linked(n.right);
      InOrder(n.left) + [n] + InOrder(n.right)
    }

    lemma SplitStretch(lo: int, i: int, hi: int)
      requires 0 <= lo <= i < hi <= |contents|
      ensures contents[lo..hi] == contents[lo..i] + [contents[i]] + contents[i + 1..hi]
    {
    }

    lemma {:induction false} InOrderStretch(n: Node<K>)
      requires Links() && n in repr
      ensures 0 <= n.lo <= n.hi <= |contents| && InOrder(n) == contents[n.lo..n.hi]
      decreases n.hi - n.lo
    {
      assert Linked(n);
      if n.left != null {
        assert Linked(n.left);
        InOrderStretch(n.left);
      }
      if n.right != null {
        assert Linked(n.right);
        InOrderStretch(n.right);
      }
      SplitStretch(n.lo, n.pos, n.hi);
    }

    /** Following the links from the root in order yields `contents`. */
    lemma InOrderIsContents()
      requires Valid()
      ensures InOrder(root) == contents
    {
      if root != null {
        assert Linked(root);
        InOrderStretch(root);
      }
    }

    /** `path` leads from `n` to a missing child. */
    ghost predicate LeadsOut(n: Node?<K>, path: seq<Side>)
      requires Links() && (n == null || n in repr)
      reads this`root, this`contents, this`repr, repr`left, repr`right, repr`parent, repr`lo, repr`pos, repr`hi
      decreases path
    {
      if n == null then path == [] else
      assert Linked(n);
      path != [] && LeadsOut(n.Child(path[0]), path[1..])
    }

    ghost function Blacks(n: Node?<K>, path: seq<Side>): nat
      requires Links() && (n == null || n in repr) && LeadsOut(n, path)
      reads this`root, this`contents, this`repr
      reads repr`left, repr`right, repr`parent, repr`lo, repr`pos, repr`hi, repr`color
      decreases path
    {
      if n == null then 0 else
      assert Linked(n);
      Blacks(n.Child(path[0]), path[1..]) + if n.color == Black then 1 else 0
    }

    lemma {:induction false} PathMeasures(n: Node?<K>, path: seq<Side>)
      requires Links() && Ordered() && (n == null || n in repr) && LeadsOut(n, path)
      ensures Blacks(n, path) == Bh(n)
      ensures Bh(n) <= |path| <= 2 * Bh(n) + if IsRed(n) then 1 else 0
      decreases path
    {
      if n != null {
        assert Linked(n) && Balanced(n, null, Left) && Calm(n, null, null);
        PathMeasures(n.Child(path[0]), path[1..]);
      }
    }

    /** Every way out of the tree passes the same number of black nodes, so no way out is
        more than twice as long as another. */
    lemma PathsBalanced(p: seq<Side>, q: seq<Side>)
      requires Valid() && LeadsOut(root, p) && LeadsOut(root, q)
      ensures Blacks(root, p) == Blacks(root, q)
      ensures |p| <= 2 * |q|
    {
      PathMeasures(root, p);
      PathMeasures(root, q);
    }
  }
}
