/** Deletion at the level of shapes: the splice of a node with two children and the fixup laws. */
module RbDelete {
  import opened RbShape
  import opened RbMem

  /** `c` continues `base` by left turns only. */
  ghost predicate Spine(base: Ctx, c: Ctx) {
    c == base || (c.InLeft? && Spine(base, c.up))
  }

  /** `c` with `base` replaced by `base'` at its upper end. */
  ghost function Graft(base: Ctx, base': Ctx, c: Ctx): Ctx
    requires Spine(base, c)
  {
    if c == base then base' else InLeft(Graft(base, base', c.up), c.n, c.red, c.r)
  }

  /** What hangs directly below `base` when `hole` hangs below `c`. */
  ghost function SpineTop(base: Ctx, c: Ctx, hole: Node): Node
    requires Spine(base, c)
  {
    if c == base then hole else SpineTop(base, c.up, c.n)
  }

  lemma {:induction false} SpineOrder(base: Ctx, base': Ctx, c: Ctx)
    requires Spine(base, c) && Post(base) == Post(base')
    ensures Pre(c) == Pre(base) && Pre(Graft(base, base', c)) == Pre(base')
    ensures Post(Graft(base, base', c)) == Post(c)
  {
    if c != base { SpineOrder(base, base', c.up); }
  }

  /** The node at `base` is replaced by `x`, taken from below the spine. */
  ghost predicate Replaces(base: Ctx, base': Ctx, x: Node) {
    base.InRight? && base' == InRight(base.up, base.l, x, base.red)
  }

  lemma {:induction false} GraftBalanced(base: Ctx, base': Ctx, c: Ctx, x: Node, h: nat)
    requires Spine(base, c) && Replaces(base, base', x) && CtxBalanced(c, h)
    ensures CtxBalanced(Graft(base, base', c), h)
    ensures RedCtx(Graft(base, base', c)) == RedCtx(c) && !Graft(base, base', c).Top?
  {
    if c != base { GraftBalanced(base, base', c.up, x, if c.red then h else h + 1); }
  }

  lemma {:induction false} GraftDistinct(base: Ctx, base': Ctx, c: Ctx, x: Node)
    requires Spine(base, c) && Replaces(base, base', x) && CtxDistinct(c) && x !in CtxIds(c)
    ensures CtxDistinct(Graft(base, base', c))
    ensures CtxIds(Graft(base, base', c)) == CtxIds(c) - {base.n} + {x}
    ensures base.n in CtxIds(c)
  {
    if c != base {
      GraftDistinct(base, base', c.up, x);
    }
  }

  /** The cells left behind when `x` takes over the links and colour of `z`. */
  ghost predicate TookPlace(m: Mem, m': Mem, root: Node, root': Node, s: Node, z: Node, x: Node) {
    && m'.Keys == m.Keys && {z, x, s} <= m.Keys
    && m[z].left in m.Keys && m[z].right in m.Keys
    && (z != root ==> m[z].parent in m.Keys)
    && m'[x] == Cell(m[z].left, m[z].right, m[z].parent, m[z].red)
    && m'[m[z].left] == m[m[z].left].(parent := x)
    && (m[z].right != s ==> m'[m[z].right] == m[m[z].right].(parent := x))
    && (if z == root then root' == x else
          && root' == root
          && m'[m[z].parent] == if m[m[z].parent].left == z then m[m[z].parent].(left := x)
            else m[m[z].parent].(right := x))
    && (forall p ::
      p in m && p != x && p != m[z].left && (m[z].right != s ==> p != m[z].right)
      && (z != root ==> p != m[z].parent) ==>
      m'[p] == m[p])
  }

  /** The cells left behind when `x`, the successor of `z`, takes its place and `temp` takes the place of `x`. */
  ghost predicate Spliced(m: Mem, m': Mem, root: Node, root': Node, s: Node, z: Node, x: Node, temp: Node) {
    && m'.Keys == m.Keys && {z, x, temp, s} <= m.Keys
    && m[x].parent in m.Keys && m[z].left in m.Keys && m[z].right in m.Keys
    && (z != root ==> m[z].parent in m.Keys)
    && var y, top := m[x].parent, m[z].right;
    && m'[x] == Cell(m[z].left, if y == z then temp else top, m[z].parent, m[z].red)
    && m'[temp] == m[temp].(parent := if y == z then x else y)
    && (y != z ==> m'[y] == m[y].(left := temp, parent := if y == top then x else m[y].parent))
    && (y != z && y != top ==> m'[top] == m[top].(parent := x))
    && m'[m[z].left] == m[m[z].left].(parent := x)
    && (if z == root then root' == x else
          && root' == root
          && m'[m[z].parent] == if m[m[z].parent].left == z then m[m[z].parent].(left := x)
            else m[m[z].parent].(right := x))
    && (forall p ::
      p in m && p != z && p != x && p != temp && p != y && p != top && p != m[z].left
      && (z != root ==> p != m[z].parent) ==>
      m'[p] == m[p])
  }

  lemma {:induction false} SpineIds(base: Ctx, c: Ctx)
    requires Spine(base, c)
    ensures CtxIds(base) <= CtxIds(c)
    ensures !base.Top? ==> base.n in CtxIds(c)
  {
    if c != base { SpineIds(base, c.up); }
  }

  /** The first node of the spine lies above the hole, below `base`. */
  lemma {:induction false} SpineTopIds(base: Ctx, c: Ctx, hole: Node)
    requires Spine(base, c) && c != base && CtxDistinct(c)
    ensures SpineTop(base, c, hole) in CtxIds(c) - CtxIds(base) && SpineTop(base, c, hole) !in Ids(c.r)
    ensures (SpineTop(base, c, hole) == c.n) <==> c.up == base
  {
    SpineIds(base, c.up);
    if c.up != base { SpineTopIds(base, c.up, c.n); }
  }

  lemma {:induction false} SpineHead(m: Mem, base: Ctx, c: Ctx, hole: Node, s: Node)
    requires Spine(base, c) && CtxRep(m, c, hole, s) && !base.Top?
    ensures CtxRep(m, base, SpineTop(base, c, hole), s) && base.n in m
  {
    if c != base { SpineHead(m, base, c.up, c.n, s); }
  }

  /** On the spine nothing changes but the parent link of its first node. */
  lemma {:induction false} SpineKept(m: Mem, m': Mem, base: Ctx, base': Ctx, c: Ctx, x: Node, hole: Node, s: Node)
    requires Spine(base, c) && Replaces(base, base', x) && CtxRep(m, c, hole, s) && CtxDistinct(c)
    requires CtxRep(m', base', SpineTop(base, c, hole), s)
    requires forall p :: p in CtxIds(c) - CtxIds(base) && p in m && p != SpineTop(base, c, hole) ==>
      p in m' && m'[p] == m[p]
    requires var top := SpineTop(base, c, hole); c != base && top in m ==> top in m' && m'[top] == m[top].(parent := x)
    ensures CtxRep(m', Graft(base, base', c), hole, s)
  {
    if c != base {
      SpineIds(base, c.up);
      SpineTopIds(base, c, hole);
      SpineKept(m, m', base, base', c.up, x, c.n, s);
      RepKept(m, m', c.r, s);
    }
  }

  lemma {:induction false} SpineTopId(base: Ctx, c: Ctx, hole: Node)
    requires Spine(base, c) && !base.Top?
    ensures TopId(c, hole) == TopId(base.up, base.n)
  {
    if c != base { SpineTopId(base, c.up, c.n); }
  }

  /** The setting of a two-child deletion: `base.n` is to go, its successor `x` heads the subtree in focus. */
  ghost predicate Successor(m: Mem, root: Node, s: Node, base: Ctx, c: Ctx, x: Node, xred: bool, t: Tree) {
    Spine(base, c) && base.InRight? && base.l.Br? && Focus(m, root, s, c, Br(Leaf, x, xred, t))
  }

  /** The links the code follows, and that the nodes it writes differ. */
  lemma SpliceLinks(m: Mem, root: Node, s: Node, base: Ctx, c: Ctx, x: Node, xred: bool, t: Tree)
    requires Successor(m, root, s, base, c, x, xred, t)
    ensures var z := base.n;
      && {z, x, s, base.l.n, Root(t, s)} <= m.Keys
      && m[x] == Cell(s, Root(t, s), c.n, xred)
      && m[z].left == base.l.n && m[z].right == SpineTop(base, c, x) && m[z].red == base.red
        && SpineTop(base, c, x) in m
      && (if base.up.Top? then root == z else root != z && base.up.n in m && m[z].parent == base.up.n)
      && c.n in m && (c != base ==> m[c.n].left == x)
  {
    SpineHead(m, base, c, x, s);
    SpineTopId(base, c, x);
    CtxInMem(m, c, x, s);
    SpineIds(base, c);
    if c != base { SpineTopIds(base, c, x); }
    assert Rep(m, t, s) && Rep(m, base.l, s);
    assert CtxRep(m, base, SpineTop(base, c, x), s);
    if !base.up.Top? {
      TopIdIn(base.up, base.n);
      assert CtxDistinct(base) by { SpineDistinct(base, c); }
    }
  }

  lemma {:induction false} SpineDistinct(base: Ctx, c: Ctx)
    requires Spine(base, c) && CtxDistinct(c)
    ensures CtxDistinct(base)
  {
    if c != base { SpineDistinct(base, c.up); }
  }

  lemma SpliceApart(m: Mem, root: Node, s: Node, base: Ctx, c: Ctx, x: Node, xred: bool, t: Tree)
    requires Successor(m, root, s, base, c, x, xred, t)
    ensures CtxDistinct(c) && CtxDistinct(base) && Distinct(t)
    ensures {x} !! CtxIds(c) && Ids(t) !! CtxIds(c) && {x} !! Ids(t) && {s} !! CtxIds(c) && s != x && {s} !! Ids(t)
    ensures CtxIds(base) <= CtxIds(c) && c.n in CtxIds(c) && base.n in CtxIds(base) && base.l.n in CtxIds(base)
      && base.l.n != base.n
    ensures CtxIds(base) == CtxIds(base.up) + {base.n} + Ids(base.l) && base.l.n in Ids(base.l)
    ensures !base.up.Top? ==> base.up.n in CtxIds(base.up)
    ensures if c == base then SpineTop(base, c, x) == x
      else SpineTop(base, c, x) in CtxIds(c) - CtxIds(base) && c.n !in CtxIds(base)
    ensures t.Br? ==> t.n in Ids(t)
  {
    var xt := Br(Leaf, x, xred, t);
    assert Ids(xt) == Ids(Leaf) + {x} + Ids(t);
    SpineDistinct(base, c);
    SpineIds(base, c);
    CtxInMem(m, c, x, s);
    InMem(m, xt, s);
    if c != base { SpineTopIds(base, c, x); SpineIds(base, c.up); }
  }

  /** Above the deleted node only its child link changes; its left subtree only hangs elsewhere. */
  lemma SpliceBase(m: Mem, m': Mem, root: Node, root': Node, s: Node, base: Ctx, base': Ctx, c: Ctx, x: Node,
      xred: bool, t: Tree)
    requires Successor(m, root, s, base, c, x, xred, t) && Replaces(base, base', x)
    requires Spliced(m, m', root, root', s, base.n, x, Root(t, s))
    ensures CtxRep(m' - {base.n}, base', SpineTop(base, c, Root(t, s)), s)
  {
    var m1 := m' - {base.n};
    SpliceLinks(m, root, s, base, c, x, xred, t);
    SpliceApart(m, root, s, base, c, x, xred, t);
    SpineHead(m, base, c, x, s);
    if c != base { SpineTopSame(base, c, x, Root(t, s)); }
    assert Kept(m, m1, base.l);
    RepKept(m, m1, base.l, s);
    assert Rehung(m, m1, base.up, x);
    CtxRepRehung(m, m1, s, base.up, base.n, x);
  }

  lemma {:induction false} SpineTopSame(base: Ctx, c: Ctx, hole: Node, hole': Node)
    requires Spine(base, c) && c != base
    ensures SpineTop(base, c, hole) == SpineTop(base, c, hole')
  {}

  /** As SpineKept, with a new child hung at the lower end of the spine. */
  lemma SpineRehung(m: Mem, m': Mem, base: Ctx, base': Ctx, c: Ctx, x: Node, hole: Node, hole': Node, s: Node)
    requires Spine(base, c) && c != base && Replaces(base, base', x) && CtxRep(m, c, hole, s) && CtxDistinct(c)
    requires CtxRep(m', base', SpineTop(base, c, hole), s)
    requires var top := SpineTop(base, c, hole);
      && (forall p :: p in CtxIds(c) - CtxIds(base) && p in m && p != top && p != c.n ==> p in m' && m'[p] == m[p])
      && c.n in m && c.n in m' && m'[c.n] == m[c.n].(left := hole', parent := if c.n == top then x else m[c.n].parent)
      && (top in m && top != c.n ==> top in m' && m'[top] == m[top].(parent := x))
    ensures CtxRep(m', Graft(base, base', c), hole', s)
  {
    SpineIds(base, c.up);
    SpineTopIds(base, c, hole);
    if c.up != base { SpineTopIds(base, c.up, c.n); }
    SpineKept(m, m', base, base', c.up, x, c.n, s);
    RepKept(m, m', c.r, s);
  }

  lemma SpliceSpine(m: Mem, m': Mem, root: Node, root': Node, s: Node, base: Ctx, base': Ctx, c: Ctx, x: Node,
      xred: bool, t: Tree)
    requires Successor(m, root, s, base, c, x, xred, t) && Replaces(base, base', x)
    requires Spliced(m, m', root, root', s, base.n, x, Root(t, s))
    ensures CtxRep(m' - {base.n}, Graft(base, base', c), Root(t, s), s)
  {
    SpliceBase(m, m', root, root', s, base, base', c, x, xred, t);
    if c != base {
      SpliceLinks(m, root, s, base, c, x, xred, t);
      SpliceApart(m, root, s, base, c, x, xred, t);
      SpineTopSame(base, c, x, Root(t, s));
      SpineRehung(m, m' - {base.n}, base, base', c, x, x, Root(t, s), s);
    }
  }

  /** Below the successor nothing changes but the parent link. */
  lemma SpliceBelow(m: Mem, m': Mem, root: Node, root': Node, s: Node, base: Ctx, base': Ctx, c: Ctx, x: Node,
      xred: bool, t: Tree)
    requires Successor(m, root, s, base, c, x, xred, t) && Replaces(base, base', x)
    requires Spliced(m, m', root, root', s, base.n, x, Root(t, s))
    ensures Rep(m' - {base.n}, t, s)
    ensures s in m' && s != base.n && !m'[s].red
    ensures Root(t, s) in m' && Root(t, s) != base.n && m'[Root(t, s)].parent == if c == base then x else c.n
  {
    SpliceLinks(m, root, s, base, c, x, xred, t);
    SpliceApart(m, root, s, base, c, x, xred, t);
    assert Kept(m, m' - {base.n}, t);
    RepKept(m, m' - {base.n}, t, s);
  }

  /** After the splice the tree is the old one with `x` in the place of the deleted node. */
  lemma SpliceFocus(m: Mem, m': Mem, root: Node, root': Node, s: Node, base: Ctx, base': Ctx, c: Ctx, x: Node,
      xred: bool, t: Tree)
    requires Successor(m, root, s, base, c, x, xred, t) && Replaces(base, base', x)
    requires Spliced(m, m', root, root', s, base.n, x, Root(t, s))
    ensures Focus(m' - {base.n}, root', s, Graft(base, base', c), t)
    ensures !Graft(base, base', c).Top? && m'[Root(t, s)].parent == Graft(base, base', c).n
  {
    var c' := Graft(base, base', c);
    SpliceSpine(m, m', root, root', s, base, base', c, x, xred, t);
    SpliceBelow(m, m', root, root', s, base, base', c, x, xred, t);
    SpliceApart(m, root, s, base, c, x, xred, t);
    GraftDistinct(base, base', c, x);
    GraftSpine(base, base', c);
    SpineTopId(base', c', Root(t, s));
    SpineTopId(base, c, x);
    assert Apart(c', t);
    assert root' == TopId(base.up, x) by {
      if base.up.Top? { SpliceLinks(m, root, s, base, c, x, xred, t); } else { TopIdIn(base.up, base.n); }
    }
  }

  /** The sealed forms, for use beside heap updates. */
  lemma SpliceReady(m: Mem, root: Node, s: Node, base: Ctx, c: Ctx, x: Node, xred: bool, t: Tree)
    requires Laid(m, root, s, c, Br(Leaf, x, xred, t)) && Spine(base, c) && base.InRight? && base.l.Br?
    ensures var z, y, top, temp := base.n, c.n, SpineTop(base, c, x), Root(t, s);
      && {z, x, s, base.l.n, temp, y, top} <= m.Keys && m[x] == Cell(s, temp, y, xred)
      && m[z] == Cell(base.l.n, top, m[z].parent, base.red)
      && z != x && z != s && x != s && temp != z && temp != x && y != x && y != s && y != temp
      && (if y == z then top == x else m[y].left == x && top != x)
      && {base.l.n} !! {z, x, s, temp, y, top} && top != z && top != s && top != temp
      && (if base.up.Top? then root == z else
            root != z && base.up.n in m && m[z].parent == base.up.n && base.up.n !in {s, z, x, temp, base.l.n, top, y})
  {
    assert Open(0);
    SpliceLinks(m, root, s, base, c, x, xred, t);
    SpliceApart(m, root, s, base, c, x, xred, t);
  }

  lemma SpliceLaid(m: Mem, m': Mem, root: Node, root': Node, s: Node, base: Ctx, base': Ctx, c: Ctx, x: Node,
      xred: bool, t: Tree)
    requires Laid(m, root, s, c, Br(Leaf, x, xred, t)) && Spine(base, c) && base.InRight? && base.l.Br?
      && Replaces(base, base', x)
    requires Spliced(m, m', root, root', s, base.n, x, Root(t, s))
    ensures Laid(m' - {base.n}, root', s, Graft(base, base', c), t)
    ensures !Graft(base, base', c).Top? && m'[Root(t, s)].parent == Graft(base, base', c).n
  {
    assert Open(0);
    SpliceFocus(m, m', root, root', s, base, base', c, x, xred, t);
  }

  lemma {:induction false} GraftSpine(base: Ctx, base': Ctx, c: Ctx)
    requires Spine(base, c)
    ensures Spine(base', Graft(base, base', c))
  {
    if c != base { GraftSpine(base, base', c.up); }
  }

  // Deleting a node with at most one child

  /** `t` without its root, which has at most one child. */
  ghost function Only(t: Tree): Tree
    requires t.Br?
  {
    if t.l == Leaf then t.r else t.l
  }

  lemma OnlyIds(t: Tree)
    requires t.Br? && (t.l == Leaf || t.r == Leaf) && Distinct(t)
    ensures Distinct(Only(t)) && Ids(t) == Ids(Only(t)) + {t.n} && t.n !in Ids(Only(t))
    ensures Only(t).Br? ==> Only(t).n in Ids(Only(t)) && Only(t).n != t.n
  {
    assert Ids(Leaf) == {};
  }

  lemma UnlinkFocus(m: Mem, m': Mem, root: Node, s: Node, c: Ctx, t: Tree)
    requires Laid(m, root, s, c, t) && t.Br? && (t.l == Leaf || t.r == Leaf) && !c.Top? && m'.Keys == m.Keys
    requires var y := Root(Only(t), s);
      && c.n in m && m'[c.n] == (if c.InLeft? then m[c.n].(left := y) else m[c.n].(right := y))
      && y in m && m'[y] == m[y].(parent := c.n)
      && forall p :: p in m && p != c.n && p != y && p != t.n ==> m'[p] == m[p]
    ensures Laid(m' - {t.n}, root, s, c, Only(t))
  {
    assert Open(0);
    var x := Only(t);
    var m1 := m' - {t.n};
    OnlyIds(t);
    CtxInMem(m, c, t.n, s);
    assert c.n in CtxIds(c) && t.n in Ids(t);
    assert Kept(m, m1, x);
    RepKept(m, m1, x, s);
    assert Rehung(m, m1, c, Root(x, s));
    CtxRepRehung(m, m1, s, c, t.n, Root(x, s));
    assert Focus(m1, root, s, c, x);
  }

  lemma UnlinkRootFocus(m: Mem, m': Mem, root: Node, s: Node, t: Tree)
    requires Laid(m, root, s, Top, t) && t.Br? && (t.l == Leaf || t.r == Leaf) && m'.Keys == m.Keys
    requires var y := Root(Only(t), s);
      && y in m && m'[y] == m[y].(red := false) && forall p :: p in m && p != y ==> m'[p] == m[p]
    ensures Laid(m' - {t.n}, Root(Only(t), s), s, Top, Black(Only(t)))
  {
    assert Open(0);
    var x := Only(t);
    var m1 := m' - {t.n};
    assert Ids(Leaf) == {};
    assert t.n in Ids(t) && Ids(t) == Ids(x) + {t.n};
    if x.Br? {
      assert x.n in Ids(x);
      assert Rep(m, x, s) && Distinct(x) && x.n != t.n;
      assert x.n !in Ids(x.l) && x.n !in Ids(x.r);
      assert Ids(x) == Ids(x.l) + {x.n} + Ids(x.r);
      assert Kept(m, m1, x.l) && Kept(m, m1, x.r);
      RepKept(m, m1, x.l, s);
      RepKept(m, m1, x.r, s);
    }
  }

  lemma UnlinkOrder(c: Ctx, t: Tree)
    requires t.Br? && (t.l == Leaf || t.r == Leaf)
    ensures Removed(InOrder(Plug(c, t)), |Pre(c)| + |InOrder(t.l)|, t.n, InOrder(Plug(c, Only(t))))
  {
    var l, r := InOrder(t.l), InOrder(t.r);
    OnlyOrder(t);
    InOrderPlug(c, t);
    InOrderPlug(c, Only(t));
    Cut(Pre(c), l, t.n, r, Post(c));
  }

  lemma OnlyOrder(t: Tree)
    requires t.Br? && (t.l == Leaf || t.r == Leaf)
    ensures InOrder(t) == InOrder(t.l) + [t.n] + InOrder(t.r) && InOrder(Only(t)) == InOrder(t.l) + InOrder(t.r)
  {
    assert InOrder(Leaf) == [];
    if t.l == Leaf { assert [] + InOrder(t.r) == InOrder(t.r); } else { assert InOrder(t.l) + [] == InOrder(t.l); }
  }

  lemma Cut<T>(a: seq<T>, l: seq<T>, x: T, r: seq<T>, b: seq<T>)
    ensures Removed(a + (l + [x] + r) + b, |a| + |l|, x, a + (l + r) + b)
  {
    var k, s := |a| + |l|, a + (l + [x] + r) + b;
    assert s == (a + l) + [x] + (r + b);
    assert s[..k] == a + l && s[k + 1..] == r + b;
    assert a + (l + r) + b == (a + l) + (r + b);
  }

  lemma UnlinkLaw(c: Ctx, t: Tree, h: nat)
    requires t.Br? && (t.l == Leaf || t.r == Leaf) && Balanced(t, h) && CtxBalanced(c, h)
    ensures t.red ==> !Red(Only(t)) && Balanced(Only(t), h)
    ensures !t.red ==> Short(c, Only(t), h) && Balanced(Black(Only(t)), if Red(Only(t)) then 1 else 0)
  {
  }

  // The laws of the delete fixup

  /**
   * The subtree in focus is one black node short of the `k` its place asks for, unless painting its root black helps.
   */
  ghost predicate Short(c: Ctx, t: Tree, k: nat) {
    && k > 0 && CtxBalanced(c, k)
    && if Red(t) then Balanced(t.(red := false), k) else Balanced(t, k - 1)
  }

  lemma RedRightLaw(c: Ctx, t: Tree, k: nat)
    requires c.InLeft? && !Red(t) && Short(c, t, k)
    ensures c.r.Br?
    ensures Red(c.r) ==> var c' := InLeft(InLeft(c.up, c.r.n, false, c.r.r), c.n, true, c.r.l);
              Short(c', t, k) && c'.r.Br? && !Red(c'.r) && InOrder(Plug(c', t)) == InOrder(Plug(c, t))
  {
    if Red(c.r) {
      assert c.r == Br(c.r.l, c.r.n, true, c.r.r);
      RotOrder(t, c.n, c.red, c.r.l, c.r.n, true, c.r.r, true, false);
      SameOrder(c.up, Br(t, c.n, c.red, c.r), Br(Br(t, c.n, true, c.r.l), c.r.n, false, c.r.r));
    }
  }

  lemma RecolorRightLaw(c: Ctx, t: Tree, k: nat)
    requires c.InLeft? && !Red(t) && Short(c, t, k) && !Red(c.r) && c.r.Br? && !Red(c.r.l) && !Red(c.r.r)
    ensures Short(c.up, Br(t, c.n, c.red, c.r.(red := true)), if c.red then k else k + 1)
    ensures InOrder(Plug(c.up, Br(t, c.n, c.red, c.r.(red := true)))) == InOrder(Plug(c, t))
  {
    assert InOrder(c.r) == InOrder(c.r.(red := true));
    SameOrder(c.up, Br(t, c.n, c.red, c.r), Br(t, c.n, c.red, c.r.(red := true)));
  }

  lemma InnerRightLaw(c: Ctx, t: Tree, k: nat)
    requires c.InLeft? && !Red(t) && Short(c, t, k) && !Red(c.r) && c.r.Br? && Red(c.r.l) && !Red(c.r.r)
    ensures var c' := InLeft(c.up, c.n, c.red, Br(c.r.l.l, c.r.l.n, false, Br(c.r.l.r, c.r.n, true, c.r.r)));
      Short(c', t, k) && InOrder(Plug(c', t)) == InOrder(Plug(c, t))
  {
    var w := c.r;
    var w' := Br(w.l.l, w.l.n, false, Br(w.l.r, w.n, true, w.r));
    assert w == Br(Br(w.l.l, w.l.n, true, w.l.r), w.n, false, w.r);
    assert Balanced(w.l, k - 1) && Balanced(Br(w.l.r, w.n, true, w.r), k - 1);
    RotOrder(w.l.l, w.l.n, false, w.l.r, w.n, true, w.r, true, false);
    SameOrder(c.up, Br(t, c.n, c.red, w), Br(t, c.n, c.red, w'));
  }

  lemma OuterRightLaw(c: Ctx, t: Tree, k: nat)
    requires c.InLeft? && !Red(t) && Short(c, t, k) && !Red(c.r) && c.r.Br? && Red(c.r.r)
    ensures var t' := Plug(c.up, Br(Br(t, c.n, false, c.r.l), c.r.n, c.red, c.r.r.(red := false)));
      RedBlack(t') && t'.Br? && InOrder(t') == InOrder(Plug(c, t))
  {
    var w := c.r;
    var x := Br(Br(t, c.n, false, w.l), w.n, c.red, w.r.(red := false));
    assert Balanced(w.r, k - 1) && Balanced(w.r.(red := false), k) && Balanced(Br(t, c.n, false, w.l), k);
    PlugBalanced(c.up, x, if c.red then k else k + 1);
    PlugIsBr(c.up, x);
    RotOrder(t, c.n, c.red, w.l, w.n, false, w.r, false, c.red);
    assert InOrder(w.r) == InOrder(w.r.(red := false));
    SameOrder(c.up, Br(t, c.n, c.red, w), x);
  }

  lemma RedLeftLaw(c: Ctx, t: Tree, k: nat)
    requires c.InRight? && !Red(t) && Short(c, t, k)
    ensures c.l.Br?
    ensures Red(c.l) ==> var c' := InRight(InRight(c.up, c.l.l, c.l.n, false), c.l.r, c.n, true);
              Short(c', t, k) && c'.l.Br? && !Red(c'.l) && InOrder(Plug(c', t)) == InOrder(Plug(c, t))
  {
    if Red(c.l) {
      assert c.l == Br(c.l.l, c.l.n, true, c.l.r);
      RotOrder(c.l.l, c.l.n, false, c.l.r, c.n, true, t, true, c.red);
      SameOrder(c.up, Br(c.l, c.n, c.red, t), Br(c.l.l, c.l.n, false, Br(c.l.r, c.n, true, t)));
    }
  }

  lemma RecolorLeftLaw(c: Ctx, t: Tree, k: nat)
    requires c.InRight? && !Red(t) && Short(c, t, k) && !Red(c.l) && c.l.Br? && !Red(c.l.l) && !Red(c.l.r)
    ensures Short(c.up, Br(c.l.(red := true), c.n, c.red, t), if c.red then k else k + 1)
    ensures InOrder(Plug(c.up, Br(c.l.(red := true), c.n, c.red, t))) == InOrder(Plug(c, t))
  {
    assert InOrder(c.l) == InOrder(c.l.(red := true));
    SameOrder(c.up, Br(c.l, c.n, c.red, t), Br(c.l.(red := true), c.n, c.red, t));
  }

  lemma InnerLeftLaw(c: Ctx, t: Tree, k: nat)
    requires c.InRight? && !Red(t) && Short(c, t, k) && !Red(c.l) && c.l.Br? && Red(c.l.r) && !Red(c.l.l)
    ensures var c' := InRight(c.up, Br(Br(c.l.l, c.l.n, true, c.l.r.l), c.l.r.n, false, c.l.r.r), c.n, c.red);
      Short(c', t, k) && InOrder(Plug(c', t)) == InOrder(Plug(c, t))
  {
    var w := c.l;
    var w' := Br(Br(w.l, w.n, true, w.r.l), w.r.n, false, w.r.r);
    assert w == Br(w.l, w.n, false, Br(w.r.l, w.r.n, true, w.r.r));
    assert Balanced(w.r, k - 1) && Balanced(Br(w.l, w.n, true, w.r.l), k - 1);
    RotOrder(w.l, w.n, false, w.r.l, w.r.n, true, w.r.r, true, false);
    SameOrder(c.up, Br(w, c.n, c.red, t), Br(w', c.n, c.red, t));
  }

  lemma OuterLeftLaw(c: Ctx, t: Tree, k: nat)
    requires c.InRight? && !Red(t) && Short(c, t, k) && !Red(c.l) && c.l.Br? && Red(c.l.l)
    ensures var t' := Plug(c.up, Br(c.l.l.(red := false), c.l.n, c.red, Br(c.l.r, c.n, false, t)));
      RedBlack(t') && t'.Br? && InOrder(t') == InOrder(Plug(c, t))
  {
    var w := c.l;
    var x := Br(w.l.(red := false), w.n, c.red, Br(w.r, c.n, false, t));
    assert Balanced(w.l, k - 1) && Balanced(w.l.(red := false), k) && Balanced(Br(w.r, c.n, false, t), k);
    PlugBalanced(c.up, x, if c.red then k else k + 1);
    PlugIsBr(c.up, x);
    RotOrder(w.l, w.n, c.red, w.r, c.n, false, t, false, c.red);
    assert InOrder(w.l) == InOrder(w.l.(red := false));
    SameOrder(c.up, Br(w, c.n, c.red, t), x);
  }

  /** The end of the fixup: painting the subtree's root black repairs the tree. */
  lemma ShortDone(c: Ctx, t: Tree, k: nat)
    requires Short(c, t, k) && (c.Top? || Red(t))
    ensures RedBlack(Plug(c, Black(t))) && InOrder(Plug(c, Black(t))) == InOrder(Plug(c, t))
  {
    if Red(t) {
      PlugBalanced(c, t.(red := false), k);
      assert InOrder(t) == InOrder(t.(red := false));
      SameOrder(c, t, t.(red := false));
    }
  }

  lemma SpliceBefore(c: Ctx, t: Tree, base: Ctx, c2: Ctx, t2: Tree)
    requires t.Br? && base == InRight(c, t.l, t.n, t.red) && Spine(base, c2)
    requires t2.Br? && t2.l == Leaf && Plug(c2, t2) == Plug(base, t.r)
    ensures InOrder(Plug(c, t)) == (Pre(c) + InOrder(t.l) + [t.n]) + ([] + [t2.n] + InOrder(t2.r)) + Post(c2)
  {
    SpineOrder(base, base, c2);
    InOrderPlug(c2, t2);
    assert InOrder(t2.l) == [];
  }

  lemma SpliceAfter(c: Ctx, t: Tree, base: Ctx, base': Ctx, c2: Ctx, t2: Tree)
    requires t.Br? && base == InRight(c, t.l, t.n, t.red) && Spine(base, c2) && t2.Br?
      && base' == InRight(c, t.l, t2.n, t.red)
    ensures InOrder(Plug(Graft(base, base', c2), t2.r)) == (Pre(c) + InOrder(t.l) + [t2.n]) + InOrder(t2.r) + Post(c2)
  {
    SpineOrder(base, base', c2);
    InOrderPlug(Graft(base, base', c2), t2.r);
  }

  /** The splice takes exactly one node out of the in-order sequence. */
  lemma SpliceOrder(c: Ctx, t: Tree, base: Ctx, base': Ctx, c2: Ctx, t2: Tree)
    requires t.Br? && base == InRight(c, t.l, t.n, t.red) && Spine(base, c2)
    requires t2.Br? && t2.l == Leaf && Plug(c2, t2) == Plug(base, t.r) && base' == InRight(c, t.l, t2.n, t.red)
    ensures Removed(InOrder(Plug(c, t)), |Pre(c)| + |InOrder(t.l)|, t.n, InOrder(Plug(Graft(base, base', c2), t2.r)))
  {
    SpliceBefore(c, t, base, c2, t2);
    SpliceAfter(c, t, base, base', c2, t2);
    Cut2(Pre(c), InOrder(t.l), t.n, t2.n, InOrder(t2.r), Post(c2));
  }

  lemma Cut2<T>(a: seq<T>, l: seq<T>, z: T, x: T, r: seq<T>, b: seq<T>)
    ensures Removed((a + l + [z]) + ([] + [x] + r) + b, |a| + |l|, z, (a + l + [x]) + r + b)
  {
    var k, s := |a| + |l|, (a + l + [z]) + ([] + [x] + r) + b;
    assert s == (a + l) + [z] + ([x] + r + b);
    assert s[..k] == a + l && s[k + 1..] == [x] + r + b;
    assert (a + l + [x]) + r + b == (a + l) + ([x] + r + b);
  }

  lemma RemovedElems(s: seq<Node>, k: nat, x: Node, s': seq<Node>)
    requires Removed(s, k, x, s') && forall i, j :: 0 <= i < j < |s| ==> s[i] != s[j]
    ensures Elems(s') == Elems(s) - {x}
  {
    assert s == s[..k] + [x] + s[k + 1..];
    assert x !in s[..k] && x !in s[k + 1..];
    assert Elems(s) == Elems(s[..k]) + {x} + Elems(s[k + 1..]);
  }

  /** Taking out one node takes it out of the set. */
  lemma RemovedIds(t: Tree, t': Tree, k: nat, x: Node)
    requires Distinct(t) && Removed(InOrder(t), k, x, InOrder(t'))
    ensures Ids(t') == Ids(t) - {x}
  {
    DistinctOrder(t);
    IdsAreListed(t);
    IdsAreListed(t');
    RemovedElems(InOrder(t), k, x, InOrder(t'));
  }

  lemma {:induction false} DistinctOrder(t: Tree)
    requires Distinct(t)
    ensures forall i, j :: 0 <= i < j < |InOrder(t)| ==> InOrder(t)[i] != InOrder(t)[j]
  {
    if t.Br? {
      DistinctOrder(t.l);
      DistinctOrder(t.r);
      IdsAreListed(t.l);
      IdsAreListed(t.r);
      var s, l := InOrder(t), |InOrder(t.l)|;
      forall i, j | 0 <= i < j < |s| ensures s[i] != s[j] {
        if i < l { assert s[i] in Ids(t.l); } else if i > l { assert s[i] in Ids(t.r); }
        if j < l { assert s[j] in Ids(t.l); } else if j > l { assert s[j] in Ids(t.r); }
      }
    }
  }
}
