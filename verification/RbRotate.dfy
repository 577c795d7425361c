/** What a rotation does to a laid-out tree: four cells are rewritten, everything else is kept. */
module RbRotate {
  import opened RbShape
  import opened RbMem

  /** The cells that a left rotation at `x` with right child `y` leaves behind. */
  lemma RotLRep(m: Mem, m': Mem, s: Node, a: Tree, x: Node, xred: bool, b: Tree, y: Node, yred: bool, d: Tree)
    requires Rep(m, Br(a, x, xred, Br(b, y, yred, d)), s)
    requires Distinct(Br(a, x, xred, Br(b, y, yred, d)))
    requires m'.Keys == m.Keys && Kept(m, m', a) && Kept(m, m', b) && Kept(m, m', d)
    requires ChildOf(m', a, x) && ChildOf(m', b, x) && ChildOf(m', d, y)
    requires x in m && m'[x] == m[x].(right := Root(b, s), parent := y)
    requires y in m && m'[y] == m[y].(left := x, parent := m'[y].parent)
    ensures Rep(m', Br(Br(a, x, xred, b), y, yred, d), s)
  {
    assert Rep(m, Br(b, y, yred, d), s) && Distinct(Br(b, y, yred, d));
    RepKept(m, m', a, s);
    RepKept(m, m', b, s);
    RepKept(m, m', d, s);
  }

  lemma RotRRep(m: Mem, m': Mem, s: Node, a: Tree, x: Node, xred: bool, b: Tree, y: Node, yred: bool, d: Tree)
    requires Rep(m, Br(Br(a, x, xred, b), y, yred, d), s)
    requires Distinct(Br(Br(a, x, xred, b), y, yred, d))
    requires m'.Keys == m.Keys && Kept(m, m', a) && Kept(m, m', b) && Kept(m, m', d)
    requires ChildOf(m', a, x) && ChildOf(m', b, y) && ChildOf(m', d, y)
    requires y in m && m'[y] == m[y].(left := Root(b, s), parent := x)
    requires x in m && m'[x] == m[x].(right := y, parent := m'[x].parent)
    ensures Rep(m', Br(a, x, xred, Br(b, y, yred, d)), s)
  {
    assert Rep(m, Br(a, x, xred, b), s) && Distinct(Br(a, x, xred, b));
    RepKept(m, m', a, s);
    RepKept(m, m', b, s);
    RepKept(m, m', d, s);
  }

  /** Every cell outside the four that a rotation writes is as before. */
  ghost predicate Outside(m: Mem, m': Mem, x: Node, y: Node, b: Tree, c: Ctx) {
    && m'.Keys == m.Keys
    && (forall p :: p in m && p != x && p != y && (b.Br? ==> p != b.n) && (!c.Top? ==> p != c.n) ==> m'[p] == m[p])
    && (b.Br? && b.n in m ==> m'[b.n] == m[b.n].(parent := m'[b.n].parent))
  }

  lemma OutsideKept(m: Mem, m': Mem, x: Node, y: Node, b: Tree, c: Ctx, t: Tree)
    requires Outside(m, m', x, y, b, c)
    requires x !in Ids(t) && y !in Ids(t) && (b.Br? ==> t == b || b.n !in Ids(t)) && (!c.Top? ==> c.n !in Ids(t))
    ensures Kept(m, m', t)
    ensures t != b ==> forall p :: ChildOf(m, t, p) ==> ChildOf(m', t, p)
  {
    if t.Br? { assert t.n in Ids(t); }
  }

  lemma RotLParts(m: Mem, root: Node, s: Node, c: Ctx, a: Tree, x: Node, xred: bool, b: Tree, y: Node, yred: bool,
      d: Tree)
    requires Laid(m, root, s, c, Br(a, x, xred, Br(b, y, yred, d)))
    ensures x in m && y in m && s in m && x != y && x != s && y != s
    ensures m[x].right == y && m[y].left == Root(b, s)
    ensures b.Br? ==> b.n in m && b.n != x && b.n != y && b.n != s
    ensures if c.Top? then root == x
      else root != x && c.n in m && c.n != x && c.n != y && c.n != s && c.n == m[x].parent
    ensures c.InLeft? ==> m[c.n].left == x
    ensures c.InRight? ==> m[c.n].right == x && m[c.n].left != x
    ensures !c.Top? && b.Br? ==> b.n != c.n
  {
    assert Open(0);
    var t := Br(a, x, xred, Br(b, y, yred, d));
    assert Rep(m, Br(b, y, yred, d), s);
    assert y in Ids(t) && x in Ids(t);
    if b.Br? { assert Rep(m, b, s); assert b.n in Ids(b); assert b.n in Ids(t); }
    if !c.Top? { TopIdIn(c, x); assert c.n in CtxIds(c); }
    if c.InRight? && c.l.Br? { assert c.l.n in Ids(c.l); assert c.l.n in CtxIds(c); }
  }

  ghost predicate Pairwise(a: Tree, x: Node, b: Tree, y: Node, d: Tree) {
    && Distinct(a) && Distinct(b) && Distinct(d) && x != y
    && {x, y} !! Ids(a) && {x, y} !! Ids(b) && {x, y} !! Ids(d)
    && Ids(a) !! Ids(b) && Ids(a) !! Ids(d) && Ids(b) !! Ids(d)
  }

  lemma RotDistinctL(a: Tree, x: Node, xred: bool, b: Tree, y: Node, yred: bool, d: Tree)
    ensures Ids(Br(a, x, xred, Br(b, y, yred, d))) == Ids(a) + Ids(b) + Ids(d) + {x, y}
    ensures Distinct(Br(a, x, xred, Br(b, y, yred, d))) <==> Pairwise(a, x, b, y, d)
  {
    var yt := Br(b, y, yred, d);
    assert Ids(yt) == Ids(b) + {y} + Ids(d);
    assert Ids(Br(a, x, xred, yt)) == Ids(a) + {x} + Ids(yt);
  }

  lemma RotDistinctR(a: Tree, x: Node, xred: bool, b: Tree, y: Node, yred: bool, d: Tree)
    ensures Ids(Br(Br(a, x, xred, b), y, yred, d)) == Ids(a) + Ids(b) + Ids(d) + {x, y}
    ensures Distinct(Br(Br(a, x, xred, b), y, yred, d)) <==> Pairwise(a, x, b, y, d)
  {
    var xt := Br(a, x, xred, b);
    assert Ids(xt) == Ids(a) + {x} + Ids(b);
    assert Ids(Br(xt, y, yred, d)) == Ids(xt) + {y} + Ids(d);
  }

  /** Rotations do not change which nodes a subtree holds. */
  lemma RotApart(c: Ctx, a: Tree, x: Node, xred: bool, b: Tree, y: Node, yred: bool, d: Tree)
    ensures Apart(c, Br(a, x, xred, Br(b, y, yred, d))) <==> Apart(c, Br(Br(a, x, xred, b), y, yred, d))
    ensures Apart(c, Br(a, x, xred, Br(b, y, yred, d))) ==>
              Pairwise(a, x, b, y, d) && CtxIds(c) !! Ids(a) + Ids(b) + Ids(d) + {x, y}
  {
    RotDistinctL(a, x, xred, b, y, yred, d);
    RotDistinctR(a, x, xred, b, y, yred, d);
  }

  lemma RotKept(m: Mem, m': Mem, c: Ctx, a: Tree, x: Node, xred: bool, b: Tree, y: Node, yred: bool, d: Tree)
    requires Apart(c, Br(a, x, xred, Br(b, y, yred, d)))
    requires Outside(m, m', x, y, b, c)
    ensures Kept(m, m', a) && Kept(m, m', b) && Kept(m, m', d)
    ensures forall p :: ChildOf(m, a, p) ==> ChildOf(m', a, p)
    ensures forall p :: ChildOf(m, d, p) ==> ChildOf(m', d, p)
    ensures forall p :: p in CtxIds(c) && p in m && p != c.n ==> m'[p] == m[p]
  {
    RotApart(c, a, x, xred, b, y, yred, d);
    if b.Br? { assert b.n in Ids(b); }
    if !c.Top? { assert c.n in CtxIds(c); }
    assert a.Br? ==> a.n in Ids(a);
    assert d.Br? ==> d.n in Ids(d);
    OutsideKept(m, m', x, y, b, c, a);
    OutsideKept(m, m', x, y, b, c, b);
    OutsideKept(m, m', x, y, b, c, d);
  }

  lemma RotLFocus(m: Mem, m': Mem, root: Node, root': Node, s: Node, c: Ctx, a: Tree, x: Node, xred: bool, b: Tree,
      y: Node, yred: bool, d: Tree)
    requires Laid(m, root, s, c, Br(a, x, xred, Br(b, y, yred, d)))
    requires Outside(m, m', x, y, b, c)
    requires x in m && m'[x] == m[x].(right := Root(b, s), parent := y)
    requires y in m && m'[y] == m[y].(left := x, parent := m[x].parent)
    requires ChildOf(m', b, x)
    requires c.InLeft? ==> c.n in m && m'[c.n] == m[c.n].(left := y)
    requires c.InRight? ==> c.n in m && m'[c.n] == m[c.n].(right := y)
    requires root' == if c.Top? then y else root
    requires m'[s] == m[s]
    ensures Laid(m', root', s, c, Br(Br(a, x, xred, b), y, yred, d))
  {
    assert Open(0);
    assert Rep(m, Br(b, y, yred, d), s);
    RotKept(m, m', c, a, x, xred, b, y, yred, d);
    RotLRep(m, m', s, a, x, xred, b, y, yred, d);
    CtxRepRehung(m, m', s, c, x, y);
    RotApart(c, a, x, xred, b, y, yred, d);
  }

  lemma RotRParts(m: Mem, root: Node, s: Node, c: Ctx, a: Tree, x: Node, xred: bool, b: Tree, y: Node, yred: bool,
      d: Tree)
    requires Laid(m, root, s, c, Br(Br(a, x, xred, b), y, yred, d))
    ensures x in m && y in m && s in m && x != y && x != s && y != s
    ensures m[y].left == x && m[x].right == Root(b, s)
    ensures b.Br? ==> b.n in m && b.n != x && b.n != y && b.n != s
    ensures if c.Top? then root == y
      else root != y && c.n in m && c.n != x && c.n != y && c.n != s && c.n == m[y].parent
    ensures c.InLeft? ==> m[c.n].left == y && m[c.n].right != y
    ensures c.InRight? ==> m[c.n].right == y
    ensures !c.Top? && b.Br? ==> b.n != c.n
  {
    assert Open(0);
    var t := Br(Br(a, x, xred, b), y, yred, d);
    assert Rep(m, Br(a, x, xred, b), s);
    assert y in Ids(t) && x in Ids(t);
    if b.Br? { assert Rep(m, b, s); assert b.n in Ids(b); assert b.n in Ids(t); }
    if !c.Top? { TopIdIn(c, y); assert c.n in CtxIds(c); }
    if c.InLeft? && c.r.Br? { assert c.r.n in Ids(c.r); assert c.r.n in CtxIds(c); }
  }

  lemma RotRFocus(m: Mem, m': Mem, root: Node, root': Node, s: Node, c: Ctx, a: Tree, x: Node, xred: bool, b: Tree,
      y: Node, yred: bool, d: Tree)
    requires Laid(m, root, s, c, Br(Br(a, x, xred, b), y, yred, d))
    requires Outside(m, m', x, y, b, c)
    requires y in m && m'[y] == m[y].(left := Root(b, s), parent := x)
    requires x in m && m'[x] == m[x].(right := y, parent := m[y].parent)
    requires ChildOf(m', b, y)
    requires c.InLeft? ==> c.n in m && m'[c.n] == m[c.n].(left := x)
    requires c.InRight? ==> c.n in m && m'[c.n] == m[c.n].(right := x)
    requires root' == if c.Top? then x else root
    requires m'[s] == m[s]
    ensures Laid(m', root', s, c, Br(a, x, xred, Br(b, y, yred, d)))
  {
    assert Open(0);
    assert Rep(m, Br(a, x, xred, b), s);
    RotApart(c, a, x, xred, b, y, yred, d);
    RotKept(m, m', c, a, x, xred, b, y, yred, d);
    RotRRep(m, m', s, a, x, xred, b, y, yred, d);
    CtxRepRehung(m, m', s, c, y, x);
  }
}
