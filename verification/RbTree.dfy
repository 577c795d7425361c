/** The red-black tree of ngx_rbtree.c: rotations, insertion and deletion over linked nodes. */
module RbTree {
  import opened RbShape
  import opened RbMem
  import opened RbRotate
  import opened RbOrder
  import opened RbDelete

  lemma PaintFocus(m: Mem, m': Mem, root: Node, s: Node, c: Ctx, t: Tree, red: bool)
    requires Laid(m, root, s, c, t) && t.Br? && m'.Keys == m.Keys
    requires t.n in m && m'[t.n] == m[t.n].(red := red)
    requires forall p :: p in m && p != t.n ==> m'[p] == m[p]
    ensures Laid(m', root, s, c, t.(red := red))
  {
    assert Open(0);
    RepKept(m, m', t.l, s);
    RepKept(m, m', t.r, s);
    assert t.n in Ids(t);
    CtxRepKept(m, m', c, t.n, s);
  }

  class RbTree {
    var root: Node
    const sentinel: Node
    const timer: bool
    ghost var repr: set<Node>
    ghost var shape: Tree

    /** ngx_rbtree_init: an empty tree over a caller-supplied sentinel. */
    constructor (s: Node, timer: bool)
      modifies s`red
      ensures Valid() && shape == Leaf && sentinel == s && this.timer == timer
    {
      s.red := false;
      root, sentinel, this.timer := s, s, timer;
      repr, shape := {s}, Leaf;
      assert Balanced(Leaf, 0);
    }

    ghost predicate Valid()
      reads this, repr
    {
      At(Top, shape) && RedBlack(shape) && repr == Ids(shape) + {sentinel}
    }

    /** The nodes hold Plug(c, t), seen from the subtree `t`. */
    ghost predicate At(c: Ctx, t: Tree)
      reads this`root, this`repr, repr`left, repr`right, repr`parent, repr`red
    {
      sentinel in repr && forall k :: Open(k) ==> Focus(Snap(repr), root, sentinel, c, t)
    }

    lemma Hide(c: Ctx, t: Tree)
      ensures At(c, t) <==> Laid(Snap(repr), root, sentinel, c, t)
    {}

    lemma Lift(c: Ctx, t: Tree)
      requires At(c, t) && !c.Top?
      ensures c.InLeft? ==> At(c.up, Br(t, c.n, c.red, c.r))
      ensures c.InRight? ==> At(c.up, Br(c.l, c.n, c.red, t))
    {
      assert Open(0);
      Up(Snap(repr), root, sentinel, c, t);
    }

    lemma Lower(c: Ctx, t: Tree)
      requires At(c, t) && t.Br?
      ensures At(InLeft(c, t.n, t.red, t.r), t.l) && At(InRight(c, t.l, t.n, t.red), t.r)
    {
      assert Open(0);
      Down(Snap(repr), root, sentinel, c, t);
    }

    /** Where the root of the subtree in focus hangs, in terms of the links the code follows. */
    lemma Side(c: Ctx, t: Tree)
      requires At(c, t) && t.Br?
      ensures t.n in repr && t.n != sentinel && t.n.red == t.red
      ensures if c.Top? then root == t.n else
                && root != t.n && c.n in repr && c.n != sentinel && t.n.parent == c.n
                && (c.n.left == t.n <==> c.InLeft?) && (c.n.right == t.n <==> c.InRight?)
                && c.n.red == c.red
    {
      assert Open(0);
      ChildSide(Snap(repr), root, sentinel, c, t);
    }

    lemma Children(c: Ctx, t: Tree)
      requires At(c, t) && t.Br?
      ensures t.n in repr && t.n.left == Root(t.l, sentinel) && t.n.right == Root(t.r, sentinel)
      ensures t.l.Br? ==> t.l.n in repr && t.l.n != sentinel
      ensures t.r.Br? ==> t.r.n in repr && t.r.n != sentinel
    {
      assert Open(0);
      assert Rep(Snap(repr), t.l, sentinel) && Rep(Snap(repr), t.r, sentinel);
    }

    lemma Empty(t: Tree)
      requires At(Top, t) && root == sentinel
      ensures t == Leaf
    {
      assert Open(0);
    }

    lemma Full(t: Tree)
      requires At(Top, t) && root != sentinel
      ensures t.Br?
    {
      assert Open(0);
    }

    /** The node at the focus: the subtree's root, or the sentinel. */
    lemma Spot(c: Ctx, t: Tree)
      requires At(c, t)
      ensures Root(t, sentinel) in repr && Root(t, sentinel).red == Red(t)
      ensures root == Root(t, sentinel) <==> c.Top?
    {
      assert Open(0);
      CtxInMem(Snap(repr), c, Root(t, sentinel), sentinel);
      if t.Br? { assert t.n in Ids(t); }
      if !c.Top? { TopIdIn(c, Root(t, sentinel)); }
    }

    /** With a sibling that is no leaf, the test for a left child is right even at the sentinel. */
    lemma HoleSide(c: Ctx, t: Tree)
      requires At(c, t) && !c.Top? && (c.InLeft? ==> c.r.Br?) && (c.InRight? ==> c.l.Br?)
      ensures c.n in repr && (c.n.left == Root(t, sentinel) <==> c.InLeft?)
    {
      assert Open(0);
      ghost var m := Snap(repr);
      if c.InRight? {
        assert Rep(m, c.l, sentinel) && c.l.n in Ids(c.l) && c.l.n in CtxIds(c);
        if t.Br? { assert t.n in Ids(t); }
      }
    }

    lemma SiblingChildren(c: Ctx, t: Tree)
      requires At(c, t) && !c.Top?
      ensures c.InLeft? && c.r.Br? ==>
        && c.r.n.left == Root(c.r.l, sentinel) && Root(c.r.l, sentinel) in repr
          && Root(c.r.l, sentinel).red == Red(c.r.l)
        && c.r.n.right == Root(c.r.r, sentinel) && Root(c.r.r, sentinel) in repr
          && Root(c.r.r, sentinel).red == Red(c.r.r)
      ensures c.InRight? && c.l.Br? ==>
        && c.l.n.left == Root(c.l.l, sentinel) && Root(c.l.l, sentinel) in repr
          && Root(c.l.l, sentinel).red == Red(c.l.l)
        && c.l.n.right == Root(c.l.r, sentinel) && Root(c.l.r, sentinel) in repr
          && Root(c.l.r, sentinel).red == Red(c.l.r)
    {
      assert Open(0);
      ghost var m := Snap(repr);
      if c.InLeft? && c.r.Br? {
        assert Rep(m, c.r, sentinel) && Rep(m, c.r.l, sentinel) && Rep(m, c.r.r, sentinel);
      } else if c.InRight? && c.l.Br? {
        assert Rep(m, c.l, sentinel) && Rep(m, c.l.l, sentinel) && Rep(m, c.l.r, sentinel);
      }
    }

    /** The children of a node differ from it and from its parent. */
    lemma Beside(c: Ctx, t: Tree)
      requires At(c, t) && t.Br? && !c.Top?
      ensures {Root(t.l, sentinel), Root(t.r, sentinel), t.n, c.n} <= repr
      ensures c.n != t.n && Root(t.l, sentinel) != t.n && Root(t.r, sentinel) != t.n && Root(t.l, sentinel) != c.n
        && Root(t.r, sentinel) != c.n
    {
      Side(c, t);
      assert Open(0);
      assert Rep(Snap(repr), t.l, sentinel) && Rep(Snap(repr), t.r, sentinel);
      assert c.n in CtxIds(c) && t.n in Ids(t);
      if t.l.Br? { assert t.l.n in Ids(t.l) && t.l.n in Ids(t); }
      if t.r.Br? { assert t.r.n in Ids(t.r) && t.r.n in Ids(t); }
    }

    lemma NoRepeats(t: Tree)
      requires At(Top, t)
      ensures Distinct(t)
    {
      assert Open(0);
    }

    lemma Hole(c: Ctx)
      requires At(c, Leaf) && !c.Top?
      ensures c.n in repr && c.n != sentinel
    {
      assert Open(0);
    }

    lemma Sibling(c: Ctx, t: Tree)
      requires At(c, t) && !c.Top?
      ensures c.n in repr && sentinel in repr && !sentinel.red
      ensures c.InLeft? ==>
        c.n.right == Root(c.r, sentinel) && Root(c.r, sentinel) in repr && Root(c.r, sentinel).red == Red(c.r)
      ensures c.InRight? ==>
        c.n.left == Root(c.l, sentinel) && Root(c.l, sentinel) in repr && Root(c.l, sentinel).red == Red(c.l)
    {
      assert Open(0);
      SiblingOf(Snap(repr), root, sentinel, c, t);
    }

    lemma Whole(c: Ctx, t: Tree)
      requires At(c, t)
      ensures At(Top, Plug(c, t))
    {
      assert Open(0);
      Unzip(Snap(repr), root, sentinel, c, t);
    }

    method LeftRotate(node: Node)
      requires node in repr && node.right != null && node.right in repr && node.right != node
      requires var b := node.right.left; b != null && b in repr && (b != sentinel ==> b != node && b != node.right)
      requires node != root ==>
                 && node.parent != null && node.parent in repr && node.parent != node
                 && node.parent != node.right && node.parent != node.right.left
      modifies this`root, repr`left, repr`right, repr`parent
      ensures var m, m' := old(Snap(repr)), Snap(repr);
        var y := old(node.right); var b, p := m[y].left, m[node].parent;
        && (forall q ::
          q in repr && q != node && q != y && (b != sentinel ==> q != b) && (old(root) != node ==> q != p) ==>
          m'[q] == m[q])
        && m'[node] == m[node].(right := b, parent := y)
        && m'[y] == m[y].(left := node, parent := p)
        && (b != sentinel ==> m'[b] == m[b].(parent := node))
        && (if old(root) == node then root == y
            else root == old(root) && m'[p] == if m[p].left == node then m[p].(left := y) else m[p].(right := y))
    {
      var temp := node.right;
      node.right := temp.left;
      if temp.left != sentinel {
        temp.left.parent := node;
      }
      temp.parent := node.parent;
      if node == root {
        root := temp;
      } else if node == node.parent.left {
        node.parent.left := temp;
      } else {
        node.parent.right := temp;
      }
      temp.left := node;
      node.parent := temp;
    }

    method RightRotate(node: Node)
      requires node in repr && node.left != null && node.left in repr && node.left != node
      requires var b := node.left.right; b != null && b in repr && (b != sentinel ==> b != node && b != node.left)
      requires node != root ==>
                 && node.parent != null && node.parent in repr && node.parent != node
                 && node.parent != node.left && node.parent != node.left.right
      modifies this`root, repr`left, repr`right, repr`parent
      ensures var m, m' := old(Snap(repr)), Snap(repr);
        var x := old(node.left); var b, p := m[x].right, m[node].parent;
        && (forall q ::
          q in repr && q != node && q != x && (b != sentinel ==> q != b) && (old(root) != node ==> q != p) ==>
          m'[q] == m[q])
        && m'[node] == m[node].(left := b, parent := x)
        && m'[x] == m[x].(right := node, parent := p)
        && (b != sentinel ==> m'[b] == m[b].(parent := node))
        && (if old(root) == node then root == x
            else root == old(root) && m'[p] == if m[p].right == node then m[p].(right := x) else m[p].(left := x))
    {
      var temp := node.left;
      node.left := temp.right;
      if temp.right != sentinel {
        temp.right.parent := node;
      }
      temp.parent := node.parent;
      if node == root {
        root := temp;
      } else if node == node.parent.right {
        node.parent.right := temp;
      } else {
        node.parent.left := temp;
      }
      temp.right := node;
      node.parent := temp;
    }

    method LeftRotateAt(node: Node, ghost c: Ctx, ghost t: Tree)
      requires At(c, t) && t.Br? && t.n == node && t.r.Br?
      modifies this`root, repr`left, repr`right, repr`parent
      ensures At(c, Br(Br(t.l, t.n, t.red, t.r.l), t.r.n, t.r.red, t.r.r))
      ensures sentinel.parent == old(sentinel.parent)
    {
      Hide(c, t);
      ghost var m := Snap(repr);
      ghost var r := root;
      ghost var y := t.r;
      assert t == Br(t.l, node, t.red, Br(y.l, y.n, y.red, y.r));
      RotLParts(m, root, sentinel, c, t.l, node, t.red, y.l, y.n, y.red, y.r);
      LeftRotate(node);
      RotLFocus(m, Snap(repr), r, root, sentinel, c, t.l, node, t.red, y.l, y.n, y.red, y.r);
      Hide(c, Br(Br(t.l, t.n, t.red, t.r.l), t.r.n, t.r.red, t.r.r));
    }
    
    method RightRotateAt(node: Node, ghost c: Ctx, ghost t: Tree)
      requires At(c, t) && t.Br? && t.n == node && t.l.Br?
      modifies this`root, repr`left, repr`right, repr`parent
      ensures At(c, Br(t.l.l, t.l.n, t.l.red, Br(t.l.r, t.n, t.red, t.r)))
      ensures sentinel.parent == old(sentinel.parent)
    {
      Hide(c, t);
      ghost var m := Snap(repr);
      ghost var r := root;
      ghost var x := t.l;
      assert t == Br(Br(x.l, x.n, x.red, x.r), node, t.red, t.r);
      RotRParts(m, root, sentinel, c, x.l, x.n, x.red, x.r, node, t.red, t.r);
      RightRotate(node);
      RotRFocus(m, Snap(repr), r, root, sentinel, c, x.l, x.n, x.red, x.r, node, t.red, t.r);
      Hide(c, Br(t.l.l, t.l.n, t.l.red, Br(t.l.r, t.n, t.red, t.r)));
    }

    /** ngx_rbt_red / ngx_rbt_black on the root of the subtree in focus. */
    method Paint(node: Node, red: bool, ghost c: Ctx, ghost t: Tree)
      requires At(c, t) && t.Br? && t.n == node
      modifies repr`red
      ensures At(c, t.(red := red))
    {
      Spot(c, t);
      Hide(c, t);
      ghost var m := Snap(repr);
      node.red := red;
      PaintFocus(m, Snap(repr), root, sentinel, c, t, red);
      Hide(c, t.(red := red));
    }

    /** The red-uncle case below a left-child parent (ngx_rbtree.c:54-58). */
    method InsertRecolorLeft(z: Node, temp: Node, ghost c: Ctx, ghost pt: Tree)
      requires At(c, pt) && pt.Br? && z.parent == pt.n
      requires c.InLeft? && c.r.Br? && temp == c.r.n
      modifies repr`red
      ensures At(c.up, Br(pt.(red := false), c.n, true, c.r.(red := false)))
    {
      ghost var g, up, u := c.n, c.up, c.r;
      ghost var pt' := pt.(red := false);
      Paint(z.parent, false, c, pt);
      Lift(c, pt');
      Side(c, pt');
      Lower(up, Br(pt', g, c.red, u));
      Paint(temp, false, InRight(up, pt', g, c.red), u);
      Lift(InRight(up, pt', g, c.red), u.(red := false));
      Paint(z.parent.parent, true, up, Br(pt', g, c.red, u.(red := false)));
    }

    /** The inner-child case below a left-child parent: rotate it outside (ngx_rbtree.c:61-64). */
    method InsertStraightenLeft(z: Node, ghost c: Ctx, ghost t: Tree)
      returns (node: Node, ghost c': Ctx, ghost t': Tree)
      requires At(c, t) && !c.Top? && t.Br? && t.n == z
      modifies this`root, repr`left, repr`right, repr`parent
      ensures At(c', t') && t'.Br? && t'.n == node
      ensures c.InLeft? ==> c' == c && t' == t
      ensures c.InRight? ==> c' == InLeft(c.up, z, t.red, t.r) && t' == Br(c.l, c.n, c.red, t.l)
    {
      node, c', t' := z, c, t;
      Side(c, t);
      if z == z.parent.right {
        node := z.parent;
        Lift(c, t);
        LeftRotateAt(node, c.up, Br(c.l, c.n, c.red, t));
        c', t' := InLeft(c.up, z, t.red, t.r), Br(c.l, c.n, c.red, t.l);
        Lower(c.up, Br(t', z, t.red, t.r));
      }
    }

    /** The outer-child case below a left-child parent (ngx_rbtree.c:66-68). */
    method InsertRotateLeft(node: Node, ghost c: Ctx, ghost t: Tree)
      requires At(c, t) && t.Br? && t.n == node && c.InLeft? && c.up.InLeft?
      modifies this`root, repr`left, repr`right, repr`parent, repr`red
      ensures At(InLeft(c.up.up, c.n, false, Br(c.r, c.up.n, true, c.up.r)), t)
    {
      ghost var p, g, up, u := c.n, c.up.n, c.up.up, c.up.r;
      ghost var pt := Br(t, p, false, c.r);
      Side(c, t);
      Lift(c, t);
      Paint(node.parent, false, c.up, Br(t, p, c.red, c.r));
      Side(c.up, pt);
      Lift(c.up, pt);
      Paint(node.parent.parent, true, up, Br(pt, g, c.up.red, u));
      RightRotateAt(node.parent.parent, up, Br(pt, g, true, u));
      Lower(up, Br(t, p, false, Br(c.r, g, true, u)));
    }

    /** The red-uncle case below a right-child parent (ngx_rbtree.c:74-78). */
    method InsertRecolorRight(z: Node, temp: Node, ghost c: Ctx, ghost pt: Tree)
      requires At(c, pt) && pt.Br? && z.parent == pt.n
      requires c.InRight? && c.l.Br? && temp == c.l.n
      modifies repr`red
      ensures At(c.up, Br(c.l.(red := false), c.n, true, pt.(red := false)))
    {
      ghost var g, up, u := c.n, c.up, c.l;
      ghost var pt' := pt.(red := false);
      Paint(z.parent, false, c, pt);
      Lift(c, pt');
      Side(c, pt');
      Lower(up, Br(u, g, c.red, pt'));
      Paint(temp, false, InLeft(up, g, c.red, pt'), u);
      Lift(InLeft(up, g, c.red, pt'), u.(red := false));
      Paint(z.parent.parent, true, up, Br(u.(red := false), g, c.red, pt'));
    }

    /** The inner-child case below a right-child parent: rotate it outside (ngx_rbtree.c:81-84). */
    method InsertStraightenRight(z: Node, ghost c: Ctx, ghost t: Tree)
      returns (node: Node, ghost c': Ctx, ghost t': Tree)
      requires At(c, t) && !c.Top? && t.Br? && t.n == z
      modifies this`root, repr`left, repr`right, repr`parent
      ensures At(c', t') && t'.Br? && t'.n == node
      ensures c.InRight? ==> c' == c && t' == t
      ensures c.InLeft? ==> c' == InRight(c.up, t.l, z, t.red) && t' == Br(t.r, c.n, c.red, c.r)
    {
      node, c', t' := z, c, t;
      Side(c, t);
      if z == z.parent.left {
        node := z.parent;
        Lift(c, t);
        RightRotateAt(node, c.up, Br(t, c.n, c.red, c.r));
        c', t' := InRight(c.up, t.l, z, t.red), Br(t.r, c.n, c.red, c.r);
        Lower(c.up, Br(t.l, z, t.red, t'));
      }
    }

    /** The outer-child case below a right-child parent (ngx_rbtree.c:86-88). */
    method InsertRotateRight(node: Node, ghost c: Ctx, ghost t: Tree)
      requires At(c, t) && t.Br? && t.n == node && c.InRight? && c.up.InRight?
      modifies this`root, repr`left, repr`right, repr`parent, repr`red
      ensures At(InRight(c.up.up, Br(c.up.l, c.up.n, true, c.l), c.n, false), t)
    {
      ghost var p, g, up, u := c.n, c.up.n, c.up.up, c.up.l;
      ghost var pt := Br(c.l, p, false, t);
      Side(c, t);
      Lift(c, t);
      Paint(node.parent, false, c.up, Br(c.l, p, c.red, t));
      Side(c.up, pt);
      Lift(c.up, pt);
      Paint(node.parent.parent, true, up, Br(u, g, c.up.red, pt));
      LeftRotateAt(node.parent.parent, up, Br(u, g, true, pt));
      Lower(up, Br(Br(u, g, true, c.l), p, false, t));
    }

    /** One turn of the loop when the parent is a left child (ngx_rbtree.c:51-69). */
    method InsertTurnLeft(z: Node, ghost c: Ctx, ghost t: Tree, ghost h: nat)
      returns (node: Node, ghost c': Ctx, ghost t': Tree, ghost h': nat)
      requires At(c, t) && Red(t) && t.n == z && Balanced(t, h) && CtxBalanced(c, h)
      requires RedCtx(c) && c.up.InLeft?
      modifies this`root, repr`left, repr`right, repr`parent, repr`red
      ensures At(c', t') && Red(t') && t'.n == node && Balanced(t', h') && CtxBalanced(c', h')
      ensures InOrder(Plug(c', t')) == InOrder(Plug(c, t))
      ensures RedCtx(c') ==> Depth(c') < Depth(c)
    {
      ghost var pt := if c.InLeft? then Br(t, c.n, c.red, c.r) else Br(c.l, c.n, c.red, t);
      Side(c, t);
      Lift(c, t);
      Side(c.up, pt);
      Sibling(c.up, pt);
      InsertLeftLaw(c, t, h);
      InsertLeftOrder(c, t);
      var temp := z.parent.parent.right;
      if temp.red {
        InsertRecolorLeft(z, temp, c.up, pt);
        node := z.parent.parent;
        c', t', h' := c.up.up, Br(pt.(red := false), c.up.n, true, c.up.r.(red := false)), h + 1;
      } else {
        ghost var c1, t1;
        node, c1, t1 := InsertStraightenLeft(z, c, t);
        InsertRotateLeft(node, c1, t1);
        c', t', h' := InLeft(c.up.up, c1.n, false, Br(c1.r, c.up.n, true, c.up.r)), t1, h;
      }
    }

    /** One turn of the loop when the parent is a right child (ngx_rbtree.c:71-90). */
    method InsertTurnRight(z: Node, ghost c: Ctx, ghost t: Tree, ghost h: nat)
      returns (node: Node, ghost c': Ctx, ghost t': Tree, ghost h': nat)
      requires At(c, t) && Red(t) && t.n == z && Balanced(t, h) && CtxBalanced(c, h)
      requires RedCtx(c) && c.up.InRight?
      modifies this`root, repr`left, repr`right, repr`parent, repr`red
      ensures At(c', t') && Red(t') && t'.n == node && Balanced(t', h') && CtxBalanced(c', h')
      ensures InOrder(Plug(c', t')) == InOrder(Plug(c, t))
      ensures RedCtx(c') ==> Depth(c') < Depth(c)
    {
      ghost var pt := if c.InLeft? then Br(t, c.n, c.red, c.r) else Br(c.l, c.n, c.red, t);
      Side(c, t);
      Lift(c, t);
      Side(c.up, pt);
      Sibling(c.up, pt);
      InsertRightLaw(c, t, h);
      InsertRightOrder(c, t);
      var temp := z.parent.parent.left;
      if temp.red {
        InsertRecolorRight(z, temp, c.up, pt);
        node := z.parent.parent;
        c', t', h' := c.up.up, Br(c.up.l.(red := false), c.up.n, true, pt.(red := false)), h + 1;
      } else {
        ghost var c1, t1;
        node, c1, t1 := InsertStraightenRight(z, c, t);
        InsertRotateRight(node, c1, t1);
        c', t', h' := InRight(c.up.up, Br(c.up.l, c.up.n, true, c1.l), c1.n, false), t1, h;
      }
    }

    /** Re-balancing after the new red leaf is in place (ngx_rbtree.c:49-93). */
    method InsertFix(z: Node, ghost c0: Ctx, ghost t0: Tree, ghost h0: nat) returns (ghost t': Tree)
      requires At(c0, t0) && Red(t0) && t0.n == z && Balanced(t0, h0) && CtxBalanced(c0, h0)
      modifies this`root, repr`left, repr`right, repr`parent, repr`red
      ensures At(Top, t') && RedBlack(t')
      ensures InOrder(t') == InOrder(Plug(c0, t0))
    {
      var node := z;
      ghost var c, t, h := c0, t0, h0;
      Side(c, t);
      while node != root && node.parent.red
        invariant At(c, t) && Red(t) && t.n == node && Balanced(t, h) && CtxBalanced(c, h)
        invariant InOrder(Plug(c, t)) == InOrder(Plug(c0, t0))
        invariant if c.Top? then node == root else node != root && node.parent == c.n && c.n.red == c.red
        decreases if RedCtx(c) then Depth(c) else 0
      {
        ghost var pt := if c.InLeft? then Br(t, c.n, c.red, c.r) else Br(c.l, c.n, c.red, t);
        Lift(c, t);
        Side(c.up, pt);
        if node.parent == node.parent.parent.left {
          node, c, t, h := InsertTurnLeft(node, c, t, h);
        } else {
          node, c, t, h := InsertTurnRight(node, c, t, h);
        }
        Side(c, t);
      }
      t' := Plug(c, t);
      Whole(c, t);
      if c.Top? {
        assert Balanced(t.(red := false), h + 1);
      } else {
        PlugBalanced(c, t, h);
      }
      PlugIsBr(c, t);
      Side(Top, t');
      Paint(root, false, Top, t');
      t' := t'.(red := false);
    }

    /** Hang `node` as a red leaf below `temp`, on the side the hole of `c` is (ngx_rbtree.c:114-118). */
    method Hang(temp: Node, node: Node, onLeft: bool, ghost c: Ctx)
      requires At(c, Leaf) && !c.Top? && c.n == temp && onLeft == c.InLeft? && node !in repr
      modifies this`repr, temp, node`left, node`right, node`parent, node`red
      ensures repr == old(repr) + {node} && At(c, Br(Leaf, node, true, Leaf))
      ensures temp.key == old(temp.key)
    {
      Hide(c, Leaf);
      ghost var m := Snap(repr);
      Hole(c);
      if onLeft { temp.left := node; } else { temp.right := node; }
      node.parent := temp;
      node.left := sentinel;
      node.right := sentinel;
      node.red := true;
      repr := repr + {node};
      HangLeaf(m, Snap(repr), root, sentinel, c, node);
      Hide(c, Br(Leaf, node, true, Leaf));
    }

    /** ngx_rbtree_insert_value and ngx_rbtree_insert_timer_value (ngx_rbtree.c:97-154). */
    method InsertLeaf(node: Node) returns (ghost c: Ctx)
      requires Valid() && shape.Br? && node !in repr
      modifies this`repr, repr, node`left, node`right, node`parent, node`red
      ensures repr == old(repr) + {node}
      ensures At(c, Br(Leaf, node, true, Leaf)) && CtxBalanced(c, 0)
      ensures Plug(c, Leaf) == shape && Path(old(Keys(repr)), timer, node.key, c)
      ensures root == old(root) && forall n :: n in repr ==> n.key == old(n.key)
    {
      ghost var ks := Keys(repr);
      ghost var t, h := shape, BlackHeight(shape);
      c := Top;
      Side(Top, shape);
      var temp := root;
      var onLeft;
      while true
        invariant At(c, t) && t.Br? && t.n == temp && temp in repr
        invariant Plug(c, t) == shape && ks == Keys(repr) && Path(ks, timer, node.key, c)
        invariant Balanced(t, h) && CtxBalanced(c, h) && (Red(t) ==> !c.Top? && !RedCtx(c))
        decreases t
      {
        Lower(c, t);
        Children(c, t);
        onLeft := Precedes(timer, node.key, temp.key);
        c, t, h := if onLeft then InLeft(c, t.n, t.red, t.r) else InRight(c, t.l, t.n, t.red),
          if onLeft then t.l else t.r, if t.red then h else h - 1;
        if (if onLeft then temp.left else temp.right) == sentinel {
          break;
        }
        temp := if onLeft then temp.left else temp.right;
      }
      Hang(temp, node, onLeft, c);
    }

    /** The empty-tree case of ngx_rbtree_insert (ngx_rbtree.c:35-43). */
    method InsertFirst(node: Node)
      requires Valid() && node !in repr && root == sentinel
      modifies this`root, this`repr, this`shape, node`left, node`right, node`parent, node`red
      ensures Valid() && repr == old(repr) + {node}
      ensures old(shape) == Leaf && shape == Br(Leaf, node, false, Leaf)
    {
      Empty(shape);
      assert Open(0);
      node.parent := null;
      node.left := sentinel;
      node.right := sentinel;
      node.red := false;
      root := node;
      repr, shape := repr + {node}, Br(Leaf, node, false, Leaf);
      assert Balanced(Leaf, 0) && Balanced(shape, 1);
      assert Ids(Leaf) == {};
      assert Ids(shape) == {node};
      ghost var m := Snap(repr);
      assert sentinel in m && !m[sentinel].red;
      assert Distinct(Leaf);
      assert Apart(Top, shape);
      assert Rep(m, Leaf, sentinel);
      assert Rep(m, shape, sentinel);
      assert CtxRep(m, Top, Root(shape, sentinel), sentinel);
    }

    /** ngx_rbtree_insert (ngx_rbtree.c:24-94). The new node goes to place `k` of the in-order sequence. */
    method Insert(node: Node, ghost base: int) returns (ghost k: nat)
      requires Valid() && node !in repr
      modifies this`root, this`repr, this`shape, repr, node`left, node`right, node`parent, node`red
      ensures Valid() && repr == old(repr) + {node}
      ensures forall n :: n in repr ==> n.key == old(n.key)
      ensures Placed(old(Keys(repr)), timer, base, old(InOrder(shape)), node, node.key, k, InOrder(shape))
    {
      ghost var ks, order := Keys(repr), InOrder(shape);
      if root == sentinel {
        InsertFirst(node);
        k := 0;
        return;
      }
      Full(shape);
      ghost var c := InsertLeaf(node);
      k := |Pre(c)|;
      LeafPlaced(ks, timer, base, c, node, node.key);
      shape := InsertFix(node, c, Br(Leaf, node, true, Leaf), 0);
      LeafIds(c, node, shape);
    }

    /** `subst` takes over the links and colour of `node` (ngx_rbtree.c:222-244). */
    method TakePlace(node: Node, subst: Node)
      requires {node, subst, sentinel} <= repr && node != subst && node != sentinel && subst != sentinel
      requires node.left in repr && node.left != node && node.left != subst && node.left != sentinel
      requires node.right in repr && node.right != node && node.right != subst && node.right != node.left
      requires node != root ==>
        && node.parent in repr && node.parent != node && node.parent != subst
        && node.parent != node.left && node.parent != node.right
      modifies this`root, repr`left, repr`right, repr`parent, repr`red
      ensures TookPlace(old(Snap(repr)), Snap(repr), old(root), root, sentinel, node, subst)
    {
      subst.left := node.left;
      subst.right := node.right;
      subst.parent := node.parent;
      subst.red := node.red;
      if node == root {
        root := subst;
      } else if node == node.parent.left {
        node.parent.left := subst;
      } else {
        node.parent.right := subst;
      }
      if subst.left != sentinel {
        subst.left.parent := subst;
      }
      if subst.right != sentinel {
        subst.right.parent := subst;
      }
    }

    /** The links the splice follows, and that the nodes it writes differ. */
    ghost predicate CanSplice(node: Node, subst: Node, temp: Node)
      reads this`root, this`repr, repr`left, repr`right, repr`parent
    {
      && {node, subst, temp, sentinel} <= repr && node != subst && node != sentinel && subst != sentinel
        && temp != node && temp != subst
      && subst.parent in repr && subst.parent != subst && subst.parent != sentinel && subst.parent != temp
      && (subst.parent != node ==> subst.parent.left == subst)
      && node.left in repr && node.left != node && node.left != subst && node.left != sentinel && node.left != temp
        && node.left != subst.parent
      && node.right in repr && node.right != node && node.right != sentinel && node.right != temp
        && node.right != node.left
      && (node.right == subst <==> subst.parent == node)
      && (node != root ==>
        && node.parent in repr && node.parent != sentinel && node.parent != node && node.parent != subst
          && node.parent != temp
        && node.parent != node.left && node.parent != node.right && node.parent != subst.parent)
    }

    lemma SpliceFits(node: Node, subst: Node, temp: Node, base: Ctx, c: Ctx, t: Tree)
      requires At(c, t) && t.Br? && t.n == subst && t.l == Leaf && temp == Root(t.r, sentinel)
      requires Spine(base, c) && base.InRight? && base.n == node && base.l.Br?
      ensures CanSplice(node, subst, temp)
    {
      Hide(c, t);
      assert t == Br(Leaf, subst, t.red, t.r);
      SpliceReady(Snap(repr), root, sentinel, base, c, subst, t.red, t.r);
    }

    /** Put `subst`, the successor of `node`, in the place of `node` (ngx_rbtree.c:202-245, two-child case). */
    method Splice(node: Node, subst: Node, temp: Node)
      requires CanSplice(node, subst, temp)
      modifies this`root, repr`left, repr`right, repr`parent, repr`red
      ensures Spliced(old(Snap(repr)), Snap(repr), old(root), root, sentinel, node, subst, temp)
    {
      if subst == subst.parent.left {
        subst.parent.left := temp;
      } else {
        subst.parent.right := temp;
      }
      if subst.parent == node {
        temp.parent := subst;
      } else {
        temp.parent := subst.parent;
      }
      TakePlace(node, subst);
    }

    /** ngx_rbt_black on the node in focus, which may be the sentinel. */
    method Blacken(temp: Node, ghost c: Ctx, ghost t: Tree)
      requires At(c, t) && temp == Root(t, sentinel)
      modifies repr`red
      ensures At(c, Black(t))
    {
      Hide(c, t);
      assert Open(0);
      ghost var m := Snap(repr);
      Spot(c, t);
      temp.red := false;
      if t.Br? {
        PaintFocus(m, Snap(repr), root, sentinel, c, t, false);
      } else {
        assert Snap(repr) == m;
      }
      Hide(c, Black(t));
    }

    // The cases of the delete fixup. `t` is one black node short; `temp` is its root or the sentinel,
    // whose parent link points to c.n.

    /** Left child, red sibling: make the sibling black (ngx_rbtree.c:264-269). */
    method DeleteRedRight(temp: Node, w: Node, ghost c: Ctx, ghost t: Tree)
      requires At(c, t) && c.InLeft? && c.r.Br? && c.r.n == w && temp == Root(t, sentinel) && temp.parent == c.n
      modifies this`root, repr`left, repr`right, repr`parent, repr`red
      ensures At(InLeft(InLeft(c.up, w, false, c.r.r), c.n, true, c.r.l), t)
      ensures temp.parent == c.n
    {
      ghost var up, p, wt := c.up, c.n, c.r.(red := false);
      Lift(c, t);
      Lower(up, Br(t, p, c.red, c.r));
      Paint(w, false, InRight(up, t, p, c.red), c.r);
      Lift(InRight(up, t, p, c.red), wt);
      Paint(temp.parent, true, up, Br(t, p, c.red, wt));
      LeftRotateAt(temp.parent, up, Br(t, p, true, wt));
      Lower(up, Br(Br(t, p, true, wt.l), w, false, wt.r));
      Lower(InLeft(up, w, false, wt.r), Br(t, p, true, wt.l));
      if t.Br? { Side(InLeft(InLeft(up, w, false, wt.r), p, true, wt.l), t); }
    }

    /** Left child, black sibling with black children (ngx_rbtree.c:271-273). */
    method DeleteRecolorRight(w: Node, ghost c: Ctx, ghost t: Tree)
      requires At(c, t) && c.InLeft? && c.r.Br? && c.r.n == w
      modifies repr`red
      ensures At(c.up, Br(t, c.n, c.red, c.r.(red := true)))
    {
      Lift(c, t);
      Lower(c.up, Br(t, c.n, c.red, c.r));
      Paint(w, true, InRight(c.up, t, c.n, c.red), c.r);
      Lift(InRight(c.up, t, c.n, c.red), c.r.(red := true));
    }

    /** Left child, sibling with a red inner child: turn it into a red outer child (ngx_rbtree.c:276-280). */
    method DeleteInnerRight(temp: Node, w: Node, ghost c: Ctx, ghost t: Tree)
      requires At(c, t) && c.InLeft? && c.r.Br? && c.r.n == w && c.r.l.Br? && temp == Root(t, sentinel)
        && temp.parent == c.n
      modifies this`root, repr`left, repr`right, repr`parent, repr`red
      ensures At(InLeft(c.up, c.n, c.red, Br(c.r.l.l, c.r.l.n, false, Br(c.r.l.r, w, true, c.r.r))), t)
      ensures temp.parent == c.n
    {
      ghost var up, p, wt := c.up, c.n, c.r;
      ghost var cw := InRight(up, t, p, c.red);
      Lift(c, t);
      Lower(up, Br(t, p, c.red, wt));
      Children(cw, wt);
      Lower(cw, wt);
      Paint(w.left, false, InLeft(cw, w, wt.red, wt.r), wt.l);
      Lift(InLeft(cw, w, wt.red, wt.r), wt.l.(red := false));
      Paint(w, true, cw, Br(wt.l.(red := false), w, wt.red, wt.r));
      RightRotateAt(w, cw, Br(wt.l.(red := false), w, true, wt.r));
      ghost var wt' := Br(wt.l.l, wt.l.n, false, Br(wt.l.r, w, true, wt.r));
      Lift(cw, wt');
      Lower(up, Br(t, p, c.red, wt'));
      if t.Br? { Side(InLeft(up, p, c.red, wt'), t); }
    }

    /** Left child, sibling with a red outer child: one rotation restores the height (ngx_rbtree.c:283-286). */
    method DeleteOuterRight(temp: Node, w: Node, ghost c: Ctx, ghost t: Tree)
      requires At(c, t) && c.InLeft? && c.r.Br? && c.r.n == w && c.r.r.Br? && temp == Root(t, sentinel)
        && temp.parent == c.n
      modifies this`root, repr`left, repr`right, repr`parent, repr`red
      ensures At(c.up, Br(Br(t, c.n, false, c.r.l), w, c.red, c.r.r.(red := false)))
    {
      ghost var up, p, wt := c.up, c.n, c.r.(red := c.red);
      ghost var out := wt.r.(red := false);
      Sibling(c, t);
      Lift(c, t);
      Side(up, Br(t, p, c.red, c.r));
      Lower(up, Br(t, p, c.red, c.r));
      Paint(w, temp.parent.red, InRight(up, t, p, c.red), c.r);
      Lift(InRight(up, t, p, c.red), wt);
      Paint(temp.parent, false, up, Br(t, p, c.red, wt));
      Lower(up, Br(t, p, false, wt));
      ghost var cw := InRight(up, t, p, false);
      Children(cw, wt);
      Lower(cw, wt);
      Paint(w.right, false, InRight(cw, wt.l, w, c.red), wt.r);
      Lift(InRight(cw, wt.l, w, c.red), out);
      Lift(cw, Br(wt.l, w, c.red, out));
      LeftRotateAt(temp.parent, up, Br(t, p, false, Br(wt.l, w, c.red, out)));
    }

    /** Right child, red sibling: make the sibling black (ngx_rbtree.c:293-298). */
    method DeleteRedLeft(temp: Node, w: Node, ghost c: Ctx, ghost t: Tree)
      requires At(c, t) && c.InRight? && c.l.Br? && c.l.n == w && temp == Root(t, sentinel) && temp.parent == c.n
      modifies this`root, repr`left, repr`right, repr`parent, repr`red
      ensures At(InRight(InRight(c.up, c.l.l, w, false), c.l.r, c.n, true), t)
      ensures temp.parent == c.n
    {
      ghost var up, p, wt := c.up, c.n, c.l.(red := false);
      Lift(c, t);
      Lower(up, Br(c.l, p, c.red, t));
      Paint(w, false, InLeft(up, p, c.red, t), c.l);
      Lift(InLeft(up, p, c.red, t), wt);
      Paint(temp.parent, true, up, Br(wt, p, c.red, t));
      RightRotateAt(temp.parent, up, Br(wt, p, true, t));
      Lower(up, Br(wt.l, w, false, Br(wt.r, p, true, t)));
      Lower(InRight(up, wt.l, w, false), Br(wt.r, p, true, t));
      if t.Br? { Side(InRight(InRight(up, wt.l, w, false), wt.r, p, true), t); }
    }

    /** Right child, black sibling with black children (ngx_rbtree.c:300-302). */
    method DeleteRecolorLeft(w: Node, ghost c: Ctx, ghost t: Tree)
      requires At(c, t) && c.InRight? && c.l.Br? && c.l.n == w
      modifies repr`red
      ensures At(c.up, Br(c.l.(red := true), c.n, c.red, t))
    {
      Lift(c, t);
      Lower(c.up, Br(c.l, c.n, c.red, t));
      Paint(w, true, InLeft(c.up, c.n, c.red, t), c.l);
      Lift(InLeft(c.up, c.n, c.red, t), c.l.(red := true));
    }

    /** Right child, sibling with a red inner child: turn it into a red outer child (ngx_rbtree.c:305-309). */
    method DeleteInnerLeft(temp: Node, w: Node, ghost c: Ctx, ghost t: Tree)
      requires At(c, t) && c.InRight? && c.l.Br? && c.l.n == w && c.l.r.Br? && temp == Root(t, sentinel)
        && temp.parent == c.n
      modifies this`root, repr`left, repr`right, repr`parent, repr`red
      ensures At(InRight(c.up, Br(Br(c.l.l, w, true, c.l.r.l), c.l.r.n, false, c.l.r.r), c.n, c.red), t)
      ensures temp.parent == c.n
    {
      ghost var up, p, wt := c.up, c.n, c.l;
      ghost var cw := InLeft(up, p, c.red, t);
      Lift(c, t);
      Lower(up, Br(wt, p, c.red, t));
      Children(cw, wt);
      Lower(cw, wt);
      Paint(w.right, false, InRight(cw, wt.l, w, wt.red), wt.r);
      Lift(InRight(cw, wt.l, w, wt.red), wt.r.(red := false));
      Paint(w, true, cw, Br(wt.l, w, wt.red, wt.r.(red := false)));
      LeftRotateAt(w, cw, Br(wt.l, w, true, wt.r.(red := false)));
      ghost var wt' := Br(Br(wt.l, w, true, wt.r.l), wt.r.n, false, wt.r.r);
      Lift(cw, wt');
      Lower(up, Br(wt', p, c.red, t));
      if t.Br? { Side(InRight(up, wt', p, c.red), t); }
    }

    /** Right child, sibling with a red outer child: one rotation restores the height (ngx_rbtree.c:312-315). */
    method DeleteOuterLeft(temp: Node, w: Node, ghost c: Ctx, ghost t: Tree)
      requires At(c, t) && c.InRight? && c.l.Br? && c.l.n == w && c.l.l.Br? && temp == Root(t, sentinel)
        && temp.parent == c.n
      modifies this`root, repr`left, repr`right, repr`parent, repr`red
      ensures At(c.up, Br(c.l.l.(red := false), w, c.red, Br(c.l.r, c.n, false, t)))
    {
      ghost var up, p, wt := c.up, c.n, c.l.(red := c.red);
      ghost var out := wt.l.(red := false);
      Sibling(c, t);
      Lift(c, t);
      Side(up, Br(c.l, p, c.red, t));
      Lower(up, Br(c.l, p, c.red, t));
      Paint(w, temp.parent.red, InLeft(up, p, c.red, t), c.l);
      Lift(InLeft(up, p, c.red, t), wt);
      Paint(temp.parent, false, up, Br(wt, p, c.red, t));
      Lower(up, Br(wt, p, false, t));
      ghost var cw := InLeft(up, p, false, t);
      Children(cw, wt);
      Lower(cw, wt);
      Paint(w.left, false, InLeft(cw, w, c.red, wt.r), wt.l);
      Lift(InLeft(cw, w, c.red, wt.r), out);
      Lift(cw, Br(out, w, c.red, wt.r));
      RightRotateAt(temp.parent, up, Br(Br(out, w, c.red, wt.r), p, false, t));
    }

    /** One turn of the fixup when `temp` is a left child (ngx_rbtree.c:261-288). */
    method DeleteTurnLeft(temp0: Node, ghost c0: Ctx, ghost t: Tree, ghost k: nat)
      returns (temp: Node, ghost c': Ctx, ghost t': Tree, ghost k': nat)
      requires At(c0, t) && c0.InLeft? && temp0 == Root(t, sentinel) && temp0.parent == c0.n && !Red(t)
        && Short(c0, t, k)
      modifies this`root, repr`left, repr`right, repr`parent, repr`red
      ensures At(c', t') && temp == Root(t', sentinel) && (!c'.Top? ==> temp.parent == c'.n) && Short(c', t', k')
      ensures InOrder(Plug(c', t')) == InOrder(Plug(c0, t))
      ensures c'.Top? || Red(t') || Depth(c') < Depth(c0)
    {
      ghost var c := c0;
      Sibling(c, t);
      RedRightLaw(c, t, k);
      var w := temp0.parent.right;
      if w.red {
        DeleteRedRight(temp0, w, c, t);
        c := InLeft(InLeft(c.up, w, false, c.r.r), c.n, true, c.r.l);
        Sibling(c, t);
        w := temp0.parent.right;
      }
      SiblingChildren(c, t);
      if !w.left.red && !w.right.red {
        RecolorRightLaw(c, t, k);
        DeleteRecolorRight(w, c, t);
        temp := temp0.parent;
        c', t', k' := c.up, Br(t, c.n, c.red, c.r.(red := true)), if c.red then k else k + 1;
        Side(c', t');
      } else {
        if !w.right.red {
          InnerRightLaw(c, t, k);
          DeleteInnerRight(temp0, w, c, t);
          c := InLeft(c.up, c.n, c.red, Br(c.r.l.l, c.r.l.n, false, Br(c.r.l.r, w, true, c.r.r)));
          Sibling(c, t);
          w := temp0.parent.right;
        }
        OuterRightLaw(c, t, k);
        DeleteOuterRight(temp0, w, c, t);
        ghost var x := Br(Br(t, c.n, false, c.r.l), w, c.red, c.r.r.(red := false));
        Whole(c.up, x);
        c', t' := Top, Plug(c.up, x);
        k' := BlackHeight(t') + 1;
        Side(c', t');
        temp := root;
      }
    }

    /** One turn of the fixup when `temp` is a right child (ngx_rbtree.c:290-317). */
    method DeleteTurnRight(temp0: Node, ghost c0: Ctx, ghost t: Tree, ghost k: nat)
      returns (temp: Node, ghost c': Ctx, ghost t': Tree, ghost k': nat)
      requires At(c0, t) && c0.InRight? && temp0 == Root(t, sentinel) && temp0.parent == c0.n && !Red(t)
        && Short(c0, t, k)
      modifies this`root, repr`left, repr`right, repr`parent, repr`red
      ensures At(c', t') && temp == Root(t', sentinel) && (!c'.Top? ==> temp.parent == c'.n) && Short(c', t', k')
      ensures InOrder(Plug(c', t')) == InOrder(Plug(c0, t))
      ensures c'.Top? || Red(t') || Depth(c') < Depth(c0)
    {
      ghost var c := c0;
      Sibling(c, t);
      RedLeftLaw(c, t, k);
      var w := temp0.parent.left;
      if w.red {
        DeleteRedLeft(temp0, w, c, t);
        c := InRight(InRight(c.up, c.l.l, w, false), c.l.r, c.n, true);
        Sibling(c, t);
        w := temp0.parent.left;
      }
      SiblingChildren(c, t);
      if !w.left.red && !w.right.red {
        RecolorLeftLaw(c, t, k);
        DeleteRecolorLeft(w, c, t);
        temp := temp0.parent;
        c', t', k' := c.up, Br(c.l.(red := true), c.n, c.red, t), if c.red then k else k + 1;
        Side(c', t');
      } else {
        if !w.left.red {
          InnerLeftLaw(c, t, k);
          DeleteInnerLeft(temp0, w, c, t);
          c := InRight(c.up, Br(Br(c.l.l, w, true, c.l.r.l), c.l.r.n, false, c.l.r.r), c.n, c.red);
          Sibling(c, t);
          w := temp0.parent.left;
        }
        OuterLeftLaw(c, t, k);
        DeleteOuterLeft(temp0, w, c, t);
        ghost var x := Br(c.l.l.(red := false), w, c.red, Br(c.l.r, c.n, false, t));
        Whole(c.up, x);
        c', t' := Top, Plug(c.up, x);
        k' := BlackHeight(t') + 1;
        Side(c', t');
        temp := root;
      }
    }

    /** The delete fixup (ngx_rbtree.c:259-321). */
    method DeleteFix(temp0: Node, ghost c0: Ctx, ghost t0: Tree, ghost k0: nat) returns (ghost t': Tree)
      requires At(c0, t0) && temp0 == Root(t0, sentinel) && (!c0.Top? ==> temp0.parent == c0.n) && Short(c0, t0, k0)
      modifies this`root, repr`left, repr`right, repr`parent, repr`red
      ensures At(Top, t') && RedBlack(t') && InOrder(t') == InOrder(Plug(c0, t0))
    {
      var temp := temp0;
      ghost var c, t, k := c0, t0, k0;
      Spot(c, t);
      while temp != root && !temp.red
        invariant At(c, t) && temp == Root(t, sentinel) && temp in repr && (!c.Top? ==> temp.parent == c.n)
          && Short(c, t, k)
        invariant (temp == root <==> c.Top?) && temp.red == Red(t)
        invariant InOrder(Plug(c, t)) == InOrder(Plug(c0, t0))
        decreases if c.Top? || Red(t) then 0 else Depth(c)
      {
        if c.InLeft? { RedRightLaw(c, t, k); } else { RedLeftLaw(c, t, k); }
        HoleSide(c, t);
        if temp == temp.parent.left {
          temp, c, t, k := DeleteTurnLeft(temp, c, t, k);
        } else {
          temp, c, t, k := DeleteTurnRight(temp, c, t, k);
        }
        Spot(c, t);
      }
      ShortDone(c, t, k);
      Blacken(temp, c, t);
      t := Black(t);
      Whole(c, t);
      t' := Plug(c, t);
    }

    /** The subtree a node of the tree heads, and its place. */
    lemma Locate(x: Node, c: Ctx, t: Tree, h: nat) returns (c': Ctx, t': Tree, h': nat)
      requires At(c, t) && x in Ids(t) && Balanced(t, h) && CtxBalanced(c, h) && (Red(t) ==> !c.Top? && !RedCtx(c))
      ensures At(c', t') && t'.Br? && t'.n == x && Plug(c', t') == Plug(c, t)
      ensures Balanced(t', h') && CtxBalanced(c', h') && (Red(t') ==> !c'.Top? && !RedCtx(c'))
      decreases t
    {
      if t.n == x {
        c', t', h' := c, t, h;
      } else {
        Lower(c, t);
        ghost var h1 := if t.red then h else h - 1;
        if x in Ids(t.l) {
          c', t', h' := Locate(x, InLeft(c, t.n, t.red, t.r), t.l, h1);
        } else {
          c', t', h' := Locate(x, InRight(c, t.l, t.n, t.red), t.r, h1);
        }
      }
    }

    /** ngx_rbtree_min (ngx_rbtree.h). */
    method Min(node: Node, ghost c: Ctx, ghost t: Tree, ghost h: nat)
      returns (x: Node, ghost c': Ctx, ghost t': Tree, ghost h': nat)
      requires At(c, t) && t.Br? && t.n == node && Balanced(t, h) && CtxBalanced(c, h)
        && (Red(t) ==> !c.Top? && !RedCtx(c))
      ensures At(c', t') && t'.Br? && t'.n == x && t'.l == Leaf && Plug(c', t') == Plug(c, t) && Spine(c, c')
      ensures Balanced(t', h') && CtxBalanced(c', h') && x in repr
    {
      x, c', t', h' := node, c, t, h;
      Children(c', t');
      while x.left != sentinel
        invariant At(c', t') && t'.Br? && t'.n == x && x in repr && x.left == Root(t'.l, sentinel)
          && Plug(c', t') == Plug(c, t) && Spine(c, c')
        invariant Balanced(t', h') && CtxBalanced(c', h') && (Red(t') ==> !c'.Top? && !RedCtx(c'))
        invariant t'.l.Br? ==> t'.l.n in repr && t'.l.n != sentinel
        decreases t'
      {
        Lower(c', t');
        x, c', t', h' := x.left, InLeft(c', t'.n, t'.red, t'.r), t'.l, if t'.red then h' else h' - 1;
        Children(c', t');
      }
    }

    /** Hang `temp` in the place of `node` (ngx_rbtree.c:202-211). */
    method Bypass(node: Node, temp: Node)
      requires {node, temp} <= repr && node.parent in repr && node.parent != node && node.parent != temp && node != temp
      modifies repr`left, repr`right, repr`parent
      ensures var m, m', p := old(Snap(repr)), Snap(repr), old(node.parent);
        && m'[p] == (if m[p].left == node then m[p].(left := temp) else m[p].(right := temp))
        && m'[temp] == m[temp].(parent := p)
        && forall q :: q in repr && q != p && q != temp ==> m'[q] == m[q]
    {
      if node == node.parent.left {
        node.parent.left := temp;
      } else {
        node.parent.right := temp;
      }
      temp.parent := node.parent;
    }

    /** Unlink a node with at most one child that is not the root. */
    method Unlink(node: Node, temp: Node, ghost c: Ctx, ghost t: Tree)
      requires At(c, t) && t.Br? && t.n == node && (t.l == Leaf || t.r == Leaf) && !c.Top?
        && temp == Root(Only(t), sentinel)
      modifies this`repr, repr`left, repr`right, repr`parent
      ensures repr == old(repr) - {node} && At(c, Only(t)) && temp.parent == c.n
    {
      Hide(c, t);
      Side(c, t);
      Beside(c, t);
      ghost var m := Snap(repr);
      Bypass(node, temp);
      UnlinkFocus(m, Snap(repr), root, sentinel, c, t);
      SnapWithout(repr, node);
      repr := repr - {node};
      Hide(c, Only(t));
    }

    /** Unlink the root when it has at most one child (ngx_rbtree.c:187-189). */
    method UnlinkRoot(node: Node, temp: Node, ghost t: Tree)
      requires At(Top, t) && t.Br? && t.n == node && (t.l == Leaf || t.r == Leaf) && temp == Root(Only(t), sentinel)
      modifies this`root, this`repr, repr`red
      ensures repr == old(repr) - {node} && At(Top, Black(Only(t)))
    {
      Hide(Top, t);
      Side(Top, t);
      Children(Top, t);
      ghost var m, r := Snap(repr), root;
      root := temp;
      temp.red := false;
      UnlinkRootFocus(m, Snap(repr), r, sentinel, t);
      SnapWithout(repr, node);
      repr := repr - {node};
      Hide(Top, Black(Only(t)));
    }

    /** Put the successor in the place of a node with two children. */
    method SpliceAt(node: Node, subst: Node, temp: Node, ghost base: Ctx, ghost c: Ctx, ghost t: Tree)
      requires At(c, t) && t.Br? && t.n == subst && t.l == Leaf && temp == Root(t.r, sentinel)
      requires Spine(base, c) && base.InRight? && base.n == node && base.l.Br?
      modifies this`root, this`repr, repr`left, repr`right, repr`parent, repr`red
      ensures var c' := Graft(base, InRight(base.up, base.l, subst, base.red), c);
        repr == old(repr) - {node} && At(c', t.r) && !c'.Top? && temp.parent == c'.n
    {
      Hide(c, t);
      ghost var m, r := Snap(repr), root;
      ghost var base' := InRight(base.up, base.l, subst, base.red);
      assert t == Br(Leaf, subst, t.red, t.r);
      SpliceFits(node, subst, temp, base, c, t);
      Splice(node, subst, temp);
      SpliceLaid(m, Snap(repr), r, root, sentinel, base, base', c, subst, t.red, t.r);
      SnapWithout(repr, node);
      repr := repr - {node};
      Hide(Graft(base, base', c), t.r);
    }

    /** Deletion when the node has at most one child. */
    method DeleteSimple(node: Node, temp: Node, ghost c: Ctx, ghost t: Tree, ghost h: nat) returns (ghost t': Tree)
      requires At(c, t) && t.Br? && t.n == node && (t.l == Leaf || t.r == Leaf) && temp == Root(Only(t), sentinel)
      requires Balanced(t, h) && CtxBalanced(c, h) && (Red(t) ==> !c.Top? && !RedCtx(c))
      modifies this`root, this`repr, repr`left, repr`right, repr`parent, repr`red, node
      ensures repr == old(repr) - {node} && At(Top, t') && RedBlack(t') && InOrder(t') == InOrder(Plug(c, Only(t)))
      ensures node.left == null && node.right == null && node.parent == null && node.key == 0
    {
      UnlinkLaw(c, t, h);
      Side(c, t);
      if node == root {
        UnlinkRoot(node, temp, t);
        Clear(node);
        t' := Black(Only(t));
        return;
      }
      var red := node.red;
      Unlink(node, temp, c, t);
      Spot(c, Only(t));
      Clear(node);
      if red {
        Whole(c, Only(t));
        PlugBalanced(c, Only(t), h);
        t' := Plug(c, Only(t));
      } else {
        t' := DeleteFix(temp, c, Only(t), h);
      }
    }

    /** Deletion when the node has two children: the successor takes its place. */
    method DeleteInner(node: Node, ghost c: Ctx, ghost t: Tree, ghost h: nat) returns (ghost t': Tree)
      requires At(c, t) && t.Br? && t.n == node && t.l.Br? && t.r.Br?
      requires Balanced(t, h) && CtxBalanced(c, h) && (Red(t) ==> !c.Top? && !RedCtx(c))
      modifies this`root, this`repr, repr`left, repr`right, repr`parent, repr`red, node
      ensures repr == old(repr) - {node} && At(Top, t') && RedBlack(t')
      ensures Removed(InOrder(Plug(c, t)), |Pre(c)| + |InOrder(t.l)|, node, InOrder(t'))
      ensures node.left == null && node.right == null && node.parent == null && node.key == 0
    {
      ghost var base := InRight(c, t.l, node, t.red);
      Lower(c, t);
      Children(c, t);
      var subst;
      ghost var c2, t2, h2;
      subst, c2, t2, h2 := Min(node.right, base, t.r, if t.red then h else h - 1);
      Children(c2, t2);
      Side(c2, t2);
      var left := subst.left;
      var temp: Node? := if left != sentinel then left else subst.right;
      var red := subst.red;
      ghost var base' := InRight(c, t.l, subst, t.red);
      ghost var c3 := Graft(base, base', c2);
      UnlinkLaw(c2, t2, h2);
      SpliceOrder(c, t, base, base', c2, t2);
      GraftBalanced(base, base', c2, subst, h2);
      SpliceAt(node, subst, temp, base, c2, t2);
      Spot(c3, t2.r);
      Clear(node);
      if red {
        Whole(c3, t2.r);
        PlugBalanced(c3, t2.r, h2);
        t' := Plug(c3, t2.r);
      } else {
        t' := DeleteFix(temp, c3, t2.r, h2);
      }
    }

    /** The "DEBUG stuff" on the node taken out (ngx_rbtree.c:247-251). */
    method Clear(node: Node)
      requires node !in repr
      modifies node
      ensures node.left == null && node.right == null && node.parent == null && node.key == 0
    {
      node.left := null;
      node.right := null;
      node.parent := null;
      node.key := 0;
    }

    /** ngx_rbtree_delete (ngx_rbtree.c:157-322): the node at place `k` of the in-order sequence goes. */
    method Delete(node: Node) returns (ghost k: nat)
      requires Valid() && node in Ids(shape)
      modifies this`root, this`repr, this`shape, repr`left, repr`right, repr`parent, repr`red, node
      ensures Valid() && repr == old(repr) - {node}
      ensures Removed(old(InOrder(shape)), k, node, InOrder(shape))
      ensures node.left == null && node.right == null && node.parent == null && node.key == 0
    {
      NoRepeats(shape);
      ghost var c, t, h := Locate(node, Top, shape, BlackHeight(shape));
      Children(c, t);
      k := |Pre(c)| + |InOrder(t.l)|;
      ghost var t';
      if node.left == sentinel {
        UnlinkOrder(c, t);
        t' := DeleteSimple(node, node.right, c, t, h);
      } else if node.right == sentinel {
        UnlinkOrder(c, t);
        t' := DeleteSimple(node, node.left, c, t, h);
      } else {
        t' := DeleteInner(node, c, t, h);
      }
      RemovedIds(shape, t', k, node);
      shape := t';
    }

    /** ngx_rbtree_min from the root (ngx_rbtree.h:73-82): the first node in order. */
    method First() returns (x: Node)
      requires Valid() && root != sentinel
      ensures |InOrder(shape)| > 0 && x == InOrder(shape)[0] && x in repr && x != sentinel
    {
      Full(shape);
      ghost var c, t, h;
      Children(Top, shape);
      Spot(Top, shape);
      x, c, t, h := Min(root, Top, shape, BlackHeight(shape));
      SpineOrder(Top, Top, c);
      InOrderPlug(c, t);
      Members();
      assert x in Elems(InOrder(shape));
    }

    /** The nodes of the tree, as a set, are the nodes in order, as a list. */
    lemma Members()
      requires Valid()
      ensures sentinel in repr && Elems(InOrder(shape)) == repr - {sentinel}
    {
      IdsAreListed(shape);
      assert sentinel !in Ids(shape) by {
        assert Open(0);
        RepAvoids(Snap(repr), shape, sentinel);
      }
    }
  }
}
