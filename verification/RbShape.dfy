/** The shape of a red-black tree as a value: coloured binary trees over node addresses,
    one-hole contexts, the red-black laws and the in-order sequence. */
module RbShape {

  /** ngx_rbtree_node_t. */
  class Node {
    var key: int
    var left: Node?
    var right: Node?
    var parent: Node?
    var red: bool

    constructor (k: int)
      ensures key == k
    {
      key := k;
      left, right, parent, red := null, null, null, false;
    }
  }

  datatype Tree = Leaf | Br(l: Tree, n: Node, red: bool, r: Tree)

  /** A path from a hole up to the root; `n` is the node just above the hole. */
  datatype Ctx =
    | Top
    | InLeft(up: Ctx, n: Node, red: bool, r: Tree)
    | InRight(up: Ctx, l: Tree, n: Node, red: bool)

  ghost function Depth(c: Ctx): nat { if c.Top? then 0 else Depth(c.up) + 1 }

  ghost function Plug(c: Ctx, t: Tree): Tree {
    match c
    case Top => t
    case InLeft(up, n, red, r) => Plug(up, Br(t, n, red, r))
    case InRight(up, l, n, red) => Plug(up, Br(l, n, red, t))
  }

  lemma {:induction false} PlugIsBr(c: Ctx, t: Tree)
    requires t.Br? || !c.Top?
    ensures Plug(c, t).Br?
  {
    match c
    case Top =>
    case InLeft(up, n, red, r) => PlugIsBr(up, Br(t, n, red, r));
    case InRight(up, l, n, red) => PlugIsBr(up, Br(l, n, red, t));
  }

  ghost function Ids(t: Tree): set<Node> {
    match t
    case Leaf => {}
    case Br(l, n, _, r) => Ids(l) + {n} + Ids(r)
  }

  ghost function CtxIds(c: Ctx): set<Node> {
    match c
    case Top => {}
    case InLeft(up, n, _, r) => CtxIds(up) + {n} + Ids(r)
    case InRight(up, l, n, _) => CtxIds(up) + {n} + Ids(l)
  }

  ghost predicate Distinct(t: Tree) {
    match t
    case Leaf => true
    case Br(l, n, _, r) =>
      Distinct(l) && Distinct(r) && n !in Ids(l) && n !in Ids(r) && Ids(l) !! Ids(r)
  }

  ghost predicate CtxDistinct(c: Ctx) {
    match c
    case Top => true
    case InLeft(up, n, _, r) =>
      CtxDistinct(up) && Distinct(r) && n !in CtxIds(up) && n !in Ids(r) && CtxIds(up) !! Ids(r)
    case InRight(up, l, n, _) =>
      CtxDistinct(up) && Distinct(l) && n !in CtxIds(up) && n !in Ids(l) && CtxIds(up) !! Ids(l)
  }

  ghost function InOrder(t: Tree): seq<Node> {
    match t
    case Leaf => []
    case Br(l, n, _, r) => InOrder(l) + [n] + InOrder(r)
  }

  ghost function Elems(s: seq<Node>): set<Node> { set n | n in s }

  lemma {:induction false} IdsAreListed(t: Tree)
    ensures Ids(t) == Elems(InOrder(t))
  {
    if t.Br? {
      IdsAreListed(t.l);
      IdsAreListed(t.r);
    }
  }

  /** The in-order nodes before the hole. */
  ghost function Pre(c: Ctx): seq<Node> {
    match c
    case Top => []
    case InLeft(up, n, _, r) => Pre(up)
    case InRight(up, l, n, _) => Pre(up) + InOrder(l) + [n]
  }

  /** The in-order nodes after the hole. */
  ghost function Post(c: Ctx): seq<Node> {
    match c
    case Top => []
    case InLeft(up, n, _, r) => [n] + InOrder(r) + Post(up)
    case InRight(up, l, n, _) => Post(up)
  }

  /** `s'` is `s` without the element `x` at place `k`. */
  ghost predicate Removed<T>(s: seq<T>, k: nat, x: T, s': seq<T>) {
    k < |s| && s[k] == x && s' == s[..k] + s[k + 1..]
  }

  lemma Regroup<T>(a: seq<T>, b: seq<T>, c: seq<T>, d: seq<T>, e: seq<T>)
    ensures a + (b + c + d) + e == a + b + (c + d + e)
    ensures a + (b + c + d) + e == (a + b + c) + d + e
  {}

  lemma {:induction false} InOrderPlug(c: Ctx, t: Tree)
    ensures InOrder(Plug(c, t)) == Pre(c) + InOrder(t) + Post(c)
  {
    match c
    case Top =>
    case InLeft(up, n, red, r) =>
      InOrderPlug(up, Br(t, n, red, r));
      Regroup(Pre(up), InOrder(t), [n], InOrder(r), Post(up));
    case InRight(up, l, n, red) =>
      InOrderPlug(up, Br(l, n, red, t));
      Regroup(Pre(up), InOrder(l), [n], InOrder(t), Post(up));
  }

  ghost predicate Red(t: Tree) { t.Br? && t.red }

  ghost function Black(t: Tree): Tree { if t.Br? then t.(red := false) else t }

  /** `t` obeys the red-black laws with `h` black nodes on every path to a leaf. */
  ghost predicate Balanced(t: Tree, h: nat) {
    match t
    case Leaf => h == 0
    case Br(l, _, red, r) =>
      if red then !Red(l) && !Red(r) && Balanced(l, h) && Balanced(r, h)
      else h > 0 && Balanced(l, h - 1) && Balanced(r, h - 1)
  }

  ghost predicate RedCtx(c: Ctx) { !c.Top? && c.red }

  /** Plugging a tree of black height `h` with a black root obeys the laws; the root is black. */
  ghost predicate CtxBalanced(c: Ctx, h: nat) {
    match c
    case Top => true
    case InLeft(up, _, red, r) =>
      && Balanced(r, h) && CtxBalanced(up, if red then h else h + 1)
      && (red ==> !Red(r) && !up.Top? && !up.red)
    case InRight(up, l, _, red) =>
      && Balanced(l, h) && CtxBalanced(up, if red then h else h + 1)
      && (red ==> !Red(l) && !up.Top? && !up.red)
  }

  ghost predicate RedBlack(t: Tree) {
    !Red(t) && exists h: nat :: Balanced(t, h)
  }

  ghost function BlackHeight(t: Tree): nat
    requires RedBlack(t)
    ensures Balanced(t, BlackHeight(t))
  {
    var h: nat :| Balanced(t, h);
    h
  }

  lemma {:induction false} PlugBalanced(c: Ctx, t: Tree, h: nat)
    requires CtxBalanced(c, h) && Balanced(t, h)
    requires Red(t) ==> !RedCtx(c)
    requires c.Top? ==> !Red(t)
    ensures RedBlack(Plug(c, t))
  {
    match c
    case Top =>
    case InLeft(up, n, red, r) => PlugBalanced(up, Br(t, n, red, r), if red then h else h + 1);
    case InRight(up, l, n, red) => PlugBalanced(up, Br(l, n, red, t), if red then h else h + 1);
  }

  lemma {:induction false} PlugIds(c: Ctx, t: Tree)
    ensures Ids(Plug(c, t)) == CtxIds(c) + Ids(t)
  {
    match c
    case Top =>
    case InLeft(up, n, red, r) => PlugIds(up, Br(t, n, red, r));
    case InRight(up, l, n, red) => PlugIds(up, Br(l, n, red, t));
  }

  lemma SameIds(t: Tree, t': Tree)
    requires InOrder(t) == InOrder(t')
    ensures Ids(t) == Ids(t')
  {
    IdsAreListed(t);
    IdsAreListed(t');
  }

  lemma LeafIds(c: Ctx, z: Node, t: Tree)
    requires InOrder(t) == InOrder(Plug(c, Br(Leaf, z, true, Leaf)))
    ensures Ids(t) == Ids(Plug(c, Leaf)) + {z}
  {
    SameIds(t, Plug(c, Br(Leaf, z, true, Leaf)));
    PlugIds(c, Leaf);
    PlugIds(c, Br(Leaf, z, true, Leaf));
    assert Ids(Leaf) == {} && Ids(Br(Leaf, z, true, Leaf)) == {z};
  }

  /** The in-order sequence of the whole depends on the subtree's sequence only. */
  lemma SameOrder(c: Ctx, t: Tree, t': Tree)
    requires InOrder(t) == InOrder(t')
    ensures InOrder(Plug(c, t)) == InOrder(Plug(c, t'))
  {
    InOrderPlug(c, t);
    InOrderPlug(c, t');
  }

  lemma RotOrder(a: Tree, x: Node, xred: bool, b: Tree, y: Node, yred: bool, d: Tree, xred': bool, yred': bool)
    ensures InOrder(Br(a, x, xred, Br(b, y, yred, d))) == InOrder(Br(Br(a, x, xred', b), y, yred', d))
  {
    Regroup(InOrder(a), [x], InOrder(b), [y], InOrder(d));
    assert InOrder(Br(b, y, yred, d)) == InOrder(b) + [y] + InOrder(d);
    assert InOrder(Br(a, x, xred', b)) == InOrder(a) + [x] + InOrder(b);
  }

  // How one turn of the insert loop keeps the laws. `c` is red, so its own parent is black.

  lemma InsertLeftLaw(c: Ctx, t: Tree, h: nat)
    requires CtxBalanced(c, h) && Balanced(t, h) && Red(t) && RedCtx(c) && c.up.InLeft?
    ensures CtxBalanced(c.up.up, h + 1)
    ensures Red(c.up.r) ==>
      Balanced(Br(if c.InLeft? then Br(t, c.n, false, c.r)
        else Br(c.l, c.n, false, t), c.up.n, true, c.up.r.(red := false)), h + 1)
    ensures !Red(c.up.r) ==>
      var (x, b, t') := if c.InLeft? then (c.n, c.r, t) else (t.n, t.r, Br(c.l, c.n, true, t.l));
      Balanced(t', h) && CtxBalanced(InLeft(c.up.up, x, false, Br(b, c.up.n, true, c.up.r)), h)
  {
  }

  lemma InsertLeftOrder(c: Ctx, t: Tree)
    requires t.Br? && !c.Top? && c.up.InLeft?
    ensures
      var p := if c.InLeft? then Br(t, c.n, false, c.r) else Br(c.l, c.n, false, t);
      var u := if Red(c.up.r) then c.up.r.(red := false) else c.up.r;
      InOrder(Plug(c.up.up, Br(p, c.up.n, true, u))) == InOrder(Plug(c, t))
    ensures
      var (x, b, t') := if c.InLeft? then (c.n, c.r, t) else (t.n, t.r, Br(c.l, c.n, c.red, t.l));
      InOrder(Plug(InLeft(c.up.up, x, false, Br(b, c.up.n, true, c.up.r)), t')) == InOrder(Plug(c, t))
  {
    var p0 := if c.InLeft? then Br(t, c.n, c.red, c.r) else Br(c.l, c.n, c.red, t);
    var p := p0.(red := false);
    var u := if Red(c.up.r) then c.up.r.(red := false) else c.up.r;
    var g0 := Br(p0, c.up.n, c.up.red, c.up.r);
    assert Plug(c, t) == Plug(c.up, p0) == Plug(c.up.up, g0);
    assert InOrder(p) == InOrder(p0) && InOrder(u) == InOrder(c.up.r);
    SameOrder(c.up.up, g0, Br(p, c.up.n, true, u));
    var (x, b, t') := if c.InLeft? then (c.n, c.r, t) else (t.n, t.r, Br(c.l, c.n, c.red, t.l));
    if c.InRight? {
      assert t == Br(t.l, t.n, t.red, t.r);
      RotOrder(c.l, c.n, c.red, t.l, t.n, t.red, t.r, c.red, false);
    }
    assert InOrder(Br(t', x, false, b)) == InOrder(p0);
    RotOrder(t', x, false, b, c.up.n, true, c.up.r, false, c.up.red);
    SameOrder(c.up.up, g0, Br(t', x, false, Br(b, c.up.n, true, c.up.r)));
  }

  lemma InsertRightLaw(c: Ctx, t: Tree, h: nat)
    requires CtxBalanced(c, h) && Balanced(t, h) && Red(t) && RedCtx(c) && c.up.InRight?
    ensures CtxBalanced(c.up.up, h + 1)
    ensures Red(c.up.l) ==>
      Balanced(Br(c.up.l.(red := false), c.up.n, true, if c.InLeft? then Br(t, c.n, false, c.r)
        else Br(c.l, c.n, false, t)), h + 1)
    ensures !Red(c.up.l) ==>
      var (x, b, t') := if c.InRight? then (c.n, c.l, t) else (t.n, t.l, Br(t.r, c.n, true, c.r));
      Balanced(t', h) && CtxBalanced(InRight(c.up.up, Br(c.up.l, c.up.n, true, b), x, false), h)
  {
  }

  lemma InsertRightOrder(c: Ctx, t: Tree)
    requires t.Br? && !c.Top? && c.up.InRight?
    ensures
      var p := if c.InLeft? then Br(t, c.n, false, c.r) else Br(c.l, c.n, false, t);
      var u := if Red(c.up.l) then c.up.l.(red := false) else c.up.l;
      InOrder(Plug(c.up.up, Br(u, c.up.n, true, p))) == InOrder(Plug(c, t))
    ensures
      var (x, b, t') := if c.InRight? then (c.n, c.l, t) else (t.n, t.l, Br(t.r, c.n, c.red, c.r));
      InOrder(Plug(InRight(c.up.up, Br(c.up.l, c.up.n, true, b), x, false), t')) == InOrder(Plug(c, t))
  {
    var p0 := if c.InLeft? then Br(t, c.n, c.red, c.r) else Br(c.l, c.n, c.red, t);
    var p := p0.(red := false);
    var u := if Red(c.up.l) then c.up.l.(red := false) else c.up.l;
    var g0 := Br(c.up.l, c.up.n, c.up.red, p0);
    assert Plug(c, t) == Plug(c.up, p0) == Plug(c.up.up, g0);
    assert InOrder(p) == InOrder(p0) && InOrder(u) == InOrder(c.up.l);
    SameOrder(c.up.up, g0, Br(u, c.up.n, true, p));
    var (x, b, t') := if c.InRight? then (c.n, c.l, t) else (t.n, t.l, Br(t.r, c.n, c.red, c.r));
    if c.InLeft? {
      assert t == Br(t.l, t.n, t.red, t.r);
      RotOrder(t.l, t.n, false, t.r, c.n, c.red, c.r, t.red, c.red);
    }
    assert InOrder(Br(b, x, false, t')) == InOrder(p0);
    RotOrder(c.up.l, c.up.n, c.up.red, b, x, false, t', true, false);
    SameOrder(c.up.up, g0, Br(Br(c.up.l, c.up.n, true, b), x, false, t'));
  }
}
