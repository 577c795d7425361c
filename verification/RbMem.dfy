/** How a shape is laid out in node memory. */
module RbMem {
  import opened RbShape

  datatype Cell = Cell(left: Node?, right: Node?, parent: Node?, red: bool)

  /** The link and colour fields of a set of nodes, as a value. */
  type Mem = map<Node, Cell>

  ghost function Snap(nodes: set<Node>): (m: Mem)
    reads nodes`left, nodes`right, nodes`parent, nodes`red
    ensures m.Keys == nodes
  {
    map n | n in nodes :: Cell(n.left, n.right, n.parent, n.red)
  }

  lemma SnapWithout(nodes: set<Node>, n: Node)
    ensures Snap(nodes - {n}) == Snap(nodes) - {n}
  {}

  ghost function Root(t: Tree, s: Node): Node { if t.Leaf? then s else t.n }

  ghost predicate ChildOf(m: Mem, t: Tree, p: Node) {
    t.Br? ==> t.n in m && m[t.n].parent == p
  }

  ghost predicate Rep(m: Mem, t: Tree, s: Node) {
    match t
    case Leaf => true
    case Br(l, n, red, r) =>
      && n != s && n in m
      && m[n].left == Root(l, s) && m[n].right == Root(r, s) && m[n].red == red
      && ChildOf(m, l, n) && ChildOf(m, r, n)
      && Rep(m, l, s) && Rep(m, r, s)
  }

  ghost predicate CtxRep(m: Mem, c: Ctx, hole: Node, s: Node) {
    match c
    case Top => true
    case InLeft(up, n, red, r) =>
      && n != s && n in m
      && m[n].left == hole && m[n].right == Root(r, s) && m[n].red == red
      && (!up.Top? ==> m[n].parent == up.n)
      && ChildOf(m, r, n) && Rep(m, r, s) && CtxRep(m, up, n, s)
    case InRight(up, l, n, red) =>
      && n != s && n in m
      && m[n].right == hole && m[n].left == Root(l, s) && m[n].red == red
      && (!up.Top? ==> m[n].parent == up.n)
      && ChildOf(m, l, n) && Rep(m, l, s) && CtxRep(m, up, n, s)
  }

  /** The topmost node when `hole` hangs below `c`. */
  ghost function TopId(c: Ctx, hole: Node): Node {
    if c.Top? then hole else TopId(c.up, c.n)
  }

  ghost predicate Apart(c: Ctx, t: Tree) {
    CtxDistinct(c) && Distinct(t) && CtxIds(c) !! Ids(t)
  }

  /** Memory holds Plug(c, t), seen from the subtree `t`. */
  ghost predicate Focus(m: Mem, root: Node, s: Node, c: Ctx, t: Tree) {
    && s in m && !m[s].red
    && Apart(c, t)
    && Rep(m, t, s)
    && CtxRep(m, c, Root(t, s), s)
    && (!c.Top? ==> ChildOf(m, t, c.n))
    && root == TopId(c, Root(t, s))
  }

  ghost predicate Open(k: int) { true }

  /** Focus, kept folded: a proof that needs what it says asserts Open(0). */
  ghost predicate Laid(m: Mem, root: Node, s: Node, c: Ctx, t: Tree) {
    s in m && forall k :: Open(k) ==> Focus(m, root, s, c, t)
  }

  /** The cells of `t` are as before, except perhaps its root's parent link. */
  ghost predicate Kept(m: Mem, m': Mem, t: Tree) {
    && (forall p :: p in Ids(t) && p in m && (t.Br? ==> p != t.n) ==> p in m' && m'[p] == m[p])
    && (t.Br? && t.n in m ==> t.n in m' && m'[t.n] == m[t.n].(parent := m'[t.n].parent))
  }

  lemma {:induction false} RepKept(m: Mem, m': Mem, t: Tree, s: Node)
    requires Rep(m, t, s) && Distinct(t) && Kept(m, m', t)
    ensures Rep(m', t, s)
  {
    if t.Br? {
      RepKept(m, m', t.l, s);
      RepKept(m, m', t.r, s);
    }
  }

  lemma {:induction false} RepAvoids(m: Mem, t: Tree, s: Node)
    requires Rep(m, t, s)
    ensures s !in Ids(t)
  {
    if t.Br? {
      RepAvoids(m, t.l, s);
      RepAvoids(m, t.r, s);
    }
  }

  ghost predicate CtxKept(m: Mem, m': Mem, c: Ctx) {
    forall p :: p in CtxIds(c) && p in m ==> p in m' && m'[p] == m[p]
  }

  lemma {:induction false} CtxRepKept(m: Mem, m': Mem, c: Ctx, hole: Node, s: Node)
    requires CtxRep(m, c, hole, s) && CtxDistinct(c) && CtxKept(m, m', c)
    ensures CtxRep(m', c, hole, s)
  {
    match c
    case Top =>
    case InLeft(up, n, _, r) =>
      RepKept(m, m', r, s);
      CtxRepKept(m, m', up, n, s);
    case InRight(up, l, n, _) =>
      RepKept(m, m', l, s);
      CtxRepKept(m, m', up, n, s);
  }

  /** Only the child link just above the hole changes. */
  ghost predicate Rehung(m: Mem, m': Mem, c: Ctx, hole: Node) {
    && (forall p :: p in CtxIds(c) && p in m && p != c.n ==> p in m' && m'[p] == m[p])
    && (!c.Top? ==> c.n in m && c.n in m')
    && (c.InLeft? ==> m'[c.n] == m[c.n].(left := hole))
    && (c.InRight? ==> m'[c.n] == m[c.n].(right := hole))
  }

  lemma CtxRepRehung(m: Mem, m': Mem, s: Node, c: Ctx, hole: Node, hole': Node)
    requires CtxRep(m, c, hole, s) && CtxDistinct(c) && Rehung(m, m', c, hole')
    ensures CtxRep(m', c, hole', s)
  {
    match c
    case Top =>
    case InLeft(up, n, _, r) =>
      RepKept(m, m', r, s);
      CtxRepKept(m, m', up, n, s);
    case InRight(up, l, n, _) =>
      RepKept(m, m', l, s);
      CtxRepKept(m, m', up, n, s);
  }

  // Moving the focus

  lemma Up(m: Mem, root: Node, s: Node, c: Ctx, t: Tree)
    requires Focus(m, root, s, c, t) && !c.Top?
    ensures c.InLeft? ==> Focus(m, root, s, c.up, Br(t, c.n, c.red, c.r))
    ensures c.InRight? ==> Focus(m, root, s, c.up, Br(c.l, c.n, c.red, t))
  {}

  lemma Down(m: Mem, root: Node, s: Node, c: Ctx, t: Tree)
    requires Focus(m, root, s, c, t) && t.Br?
    ensures Focus(m, root, s, InLeft(c, t.n, t.red, t.r), t.l)
    ensures Focus(m, root, s, InRight(c, t.l, t.n, t.red), t.r)
  {}

  lemma {:induction false} Unzip(m: Mem, root: Node, s: Node, c: Ctx, t: Tree)
    requires Focus(m, root, s, c, t)
    ensures Focus(m, root, s, Top, Plug(c, t))
    decreases c
  {
    if !c.Top? {
      Up(m, root, s, c, t);
      if c.InLeft? { Unzip(m, root, s, c.up, Br(t, c.n, c.red, c.r)); }
      else { Unzip(m, root, s, c.up, Br(c.l, c.n, c.red, t)); }
    }
  }

  lemma {:induction false} TopIdIn(c: Ctx, hole: Node)
    requires !c.Top?
    ensures TopId(c, hole) in CtxIds(c)
  {
    if !c.up.Top? { TopIdIn(c.up, c.n); }
  }

  /** The links the code follows from a node to its parent, and which side it hangs on. */
  lemma ChildSide(m: Mem, root: Node, s: Node, c: Ctx, t: Tree)
    requires Focus(m, root, s, c, t) && t.Br?
    ensures t.n in m && t.n != s
    ensures if c.Top? then root == t.n else
              && root != t.n && c.n in m && c.n != s && m[t.n].parent == c.n
              && (m[c.n].left == t.n <==> c.InLeft?) && (m[c.n].right == t.n <==> c.InRight?)
              && m[c.n].red == c.red
  {
    assert t.n in Ids(t);
    if !c.Top? { TopIdIn(c, t.n); assert c.n in CtxIds(c); }
    if c.InRight? && c.l.Br? { assert c.l.n in Ids(c.l); assert c.l.n in CtxIds(c); }
    if c.InLeft? && c.r.Br? { assert c.r.n in Ids(c.r); assert c.r.n in CtxIds(c); }
  }

  /** The node on the other side of the parent. */
  lemma SiblingOf(m: Mem, root: Node, s: Node, c: Ctx, t: Tree)
    requires Focus(m, root, s, c, t) && !c.Top?
    ensures c.n in m && s in m && !m[s].red
    ensures c.InLeft? ==> m[c.n].right == Root(c.r, s) && Root(c.r, s) in m && m[Root(c.r, s)].red == Red(c.r)
    ensures c.InRight? ==> m[c.n].left == Root(c.l, s) && Root(c.l, s) in m && m[Root(c.l, s)].red == Red(c.l)
  {
    if c.InLeft? { assert Rep(m, c.r, s); } else { assert Rep(m, c.l, s); }
  }

  /** Hanging a fresh red leaf in an empty place. */
  lemma HangLeaf(m: Mem, m': Mem, root: Node, s: Node, c: Ctx, z: Node)
    requires Laid(m, root, s, c, Leaf) && !c.Top? && z !in m && m'.Keys == m.Keys + {z}
    requires m'[z] == Cell(s, s, c.n, true)
    requires forall p :: p in m && p != c.n ==> m'[p] == m[p]
    requires c.n in m && m'[c.n] == if c.InLeft? then m[c.n].(left := z) else m[c.n].(right := z)
    ensures Laid(m', root, s, c, Br(Leaf, z, true, Leaf))
  {
    assert Open(0);
    CtxInMem(m, c, s, s);
    CtxRepRehung(m, m', s, c, s, z);
    var t := Br(Leaf, z, true, Leaf);
    assert Distinct(Leaf) && Ids(Leaf) == {} && Ids(t) == {z};
    assert Rep(m', Leaf, s) && Rep(m', t, s);
    assert Focus(m', root, s, c, t);
  }

  lemma {:induction false} InMem(m: Mem, t: Tree, s: Node)
    requires Rep(m, t, s)
    ensures Ids(t) <= m.Keys - {s}
  {
    if t.Br? { InMem(m, t.l, s); InMem(m, t.r, s); }
  }

  lemma {:induction false} CtxInMem(m: Mem, c: Ctx, hole: Node, s: Node)
    requires CtxRep(m, c, hole, s)
    ensures CtxIds(c) <= m.Keys - {s}
  {
    match c
    case Top =>
    case InLeft(up, n, _, r) => InMem(m, r, s); CtxInMem(m, up, n, s);
    case InRight(up, l, n, _) => InMem(m, l, s); CtxInMem(m, up, n, s);
  }
}
