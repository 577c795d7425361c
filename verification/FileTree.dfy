/**
 * The tree of the open file cache: ngx_open_file_cache_rbtree_insert_value and ngx_open_file_lookup, ordered by hash
 * and name.
 */
module FileTree {
  import opened RbShape
  import opened RbMem
  import opened RbOrder
  import opened RbTree

  /** ngx_strcmp, of strings without a NUL character: below, at or above zero. */
  function StrCmp(a: string, b: string): (r: int)
    ensures r == 0 <==> a == b
  {
    if a == "" then if b == "" then 0 else -1
    else if b == "" then 1
    else if a[0] != b[0] then a[0] as int - b[0] as int
    else var r := StrCmp(a[1..], b[1..]); assert a == [a[0]] + a[1..] && b == [b[0]] + b[1..]; r
  }

  lemma {:induction false} StrAntisym(a: string, b: string)
    ensures StrCmp(a, b) < 0 <==> StrCmp(b, a) > 0
  {
    if a != "" && b != "" && a[0] == b[0] { StrAntisym(a[1..], b[1..]); }
  }

  lemma {:induction false} StrTrans(a: string, b: string, c: string)
    requires StrCmp(a, b) < 0 && StrCmp(b, c) < 0
    ensures StrCmp(a, c) < 0
  {
    if a != "" && b != "" && c != "" && a[0] == b[0] == c[0] { StrTrans(a[1..], b[1..], c[1..]); }
  }

  /** A hash and a name: the key of an entry. */
  datatype Tag = Tag(hash: int, name: string)

  type TagMap = map<Node, Tag>

  /** Whether the search for x turns left at y. */
  predicate Before(x: Tag, y: Tag) { x.hash < y.hash || (x.hash == y.hash && StrCmp(x.name, y.name) < 0) }

  lemma BeforeTrans(x: Tag, y: Tag, z: Tag)
    requires Before(x, y) && Before(y, z)
    ensures Before(x, z)
  {
    if x.hash == y.hash == z.hash { StrTrans(x.name, y.name, z.name); }
  }

  lemma BeforeTotal(x: Tag, y: Tag)
    ensures x != y ==> (Before(x, y) <==> !Before(y, x))
    ensures !Before(x, x)
  {
    StrAntisym(x.name, y.name);
  }

  /** Every node listed has a key, and keys increase along the list. */
  ghost predicate InTagOrder(ts: TagMap, s: seq<Node>) {
    && (forall i :: 0 <= i < |s| ==> s[i] in ts)
    && (forall i, j :: 0 <= i < j < |s| ==> Before(ts[s[i]], ts[s[j]]))
  }

  /** The turns on the way down are those of a search for x. */
  ghost predicate TagPath(ts: TagMap, x: Tag, c: Ctx) {
    match c
    case Top => true
    case InLeft(up, n, _, _) => n in ts && Before(x, ts[n]) && TagPath(ts, x, up)
    case InRight(up, _, n, _) => n in ts && !Before(x, ts[n]) && TagPath(ts, x, up)
  }

  ghost predicate AllBelow(ts: TagMap, s: seq<Node>,
      x: Tag) { forall i :: 0 <= i < |s| && s[i] in ts ==> Before(ts[s[i]], x) }

  ghost predicate AllBeyond(ts: TagMap, s: seq<Node>,
      x: Tag) { forall i :: 0 <= i < |s| && s[i] in ts ==> Before(x, ts[s[i]]) }

  /** No node on the way carries x. */
  ghost predicate Missed(ts: TagMap, x: Tag, c: Ctx) {
    match c
    case Top => true
    case InLeft(up, n, _, _) => n in ts && ts[n] != x && Missed(ts, x, up)
    case InRight(up, _, n, _) => n in ts && ts[n] != x && Missed(ts, x, up)
  }

  lemma LeftSplit(ts: TagMap, s: seq<Node>, at: nat, x: Tag)
    requires InTagOrder(ts, s) && at < |s| && Before(x, ts[s[at]])
    ensures AllBeyond(ts, s[at..], x)
  {
    forall i | 0 <= i < |s[at..]| ensures Before(x, ts[s[at..][i]]) {
      if i > 0 { BeforeTrans(x, ts[s[at]], ts[s[at + i]]); }
    }
  }

  lemma RightSplit(ts: TagMap, s: seq<Node>, at: nat, x: Tag)
    requires InTagOrder(ts, s) && at < |s| && Before(ts[s[at]], x)
    ensures AllBelow(ts, s[..at + 1], x)
  {
    var front := s[..at + 1];
    forall i | 0 <= i < |front| ensures Before(ts[front[i]], x) {
      if i < at { BeforeTrans(ts[s[i]], ts[s[at]], x); }
    }
  }

  /** In a tree in order, everything left of the path comes before x and everything right of it after. */
  lemma {:induction false} TagSplits(ts: TagMap, x: Tag, c: Ctx, mid: seq<Node>)
    requires TagPath(ts, x, c) && Missed(ts, x, c) && InTagOrder(ts, Pre(c) + mid + Post(c))
    ensures AllBelow(ts, Pre(c), x) && AllBeyond(ts, Post(c), x)
  {
    var s := Pre(c) + mid + Post(c);
    match c
    case Top =>
    case InLeft(up, n, red, r) =>
      var at := |Pre(up)| + |mid|;
      assert s[at] == n && s[at..] == Post(c);
      Regroup(Pre(up), mid, [n], InOrder(r), Post(up));
      TagSplits(ts, x, up, mid + [n] + InOrder(r));
      LeftSplit(ts, s, at, x);
    case InRight(up, l, n, red) =>
      var at := |Pre(up)| + |InOrder(l)|;
      assert s[at] == n && s[..at + 1] == Pre(c);
      Regroup(Pre(up), InOrder(l), [n], mid, Post(up));
      TagSplits(ts, x, up, InOrder(l) + [n] + mid);
      BeforeTotal(x, ts[n]);
      RightSplit(ts, s, at, x);
  }

  /** The keys of nodes with names. */
  ghost function Tags(ks: KeyMap, names: map<Node, string>): TagMap {
    map n | n in ks && n in names :: Tag(ks[n], names[n])
  }

  /** The tree holds entries in order, each with a name; the sentinel has none. */
  ghost predicate Filed(tree: RbTree, names: map<Node, string>)
    reads tree, tree.repr
  {
    tree.Valid() && tree.sentinel !in names && InTagOrder(Tags(Keys(tree.repr), names), InOrder(tree.shape))
  }

  lemma PathEnds(ts: TagMap, x: Tag, c: Ctx)
    requires TagPath(ts, x, c) && Missed(ts, x, c) && InTagOrder(ts, InOrder(Plug(c, Leaf)))
    ensures forall n :: n in InOrder(Plug(c, Leaf)) ==> ts[n] != x
    ensures InOrder(Plug(c, Leaf)) == Pre(c) + Post(c) && AllBelow(ts, Pre(c), x) && AllBeyond(ts, Post(c), x)
  {
    InOrderPlug(c, Leaf);
    assert Pre(c) + [] + Post(c) == Pre(c) + Post(c);
    TagSplits(ts, x, c, []);
    BeforeTotal(x, x);
    forall n | n in Pre(c) + Post(c) ensures ts[n] != x {
      if n in Pre(c) { var i :| 0 <= i < |Pre(c)| && Pre(c)[i] == n; }
        else { var i :| 0 <= i < |Post(c)| && Post(c)[i] == n; }
    }
  }

  lemma NodeOnPath(ts: TagMap, c: Ctx, t: Tree)
    requires t.Br? && InTagOrder(ts, InOrder(Plug(c, t)))
    ensures t.n in InOrder(Plug(c, t)) && t.n in ts
  {
    InOrderPlug(c, t);
    assert InOrder(Plug(c, t))[|Pre(c)| + |InOrder(t.l)|] == t.n;
  }

  /** ngx_open_file_lookup: the entry of that hash and name, if there is one. */
  method Lookup(tree: RbTree, names: map<Node, string>, hash: int, name: string) returns (r: Node?)
    requires Filed(tree, names)
    ensures r != null ==> r in InOrder(tree.shape) && r in names && r.key == hash && names[r] == name
    ensures r == null ==>
      forall n :: n in InOrder(tree.shape) && n in names ==> n in tree.repr && !(n.key == hash && names[n] == name)
  {
    ghost var x, ts := Tag(hash, name), Tags(Keys(tree.repr), names);
    ghost var c, t := Top, tree.shape;
    var node := tree.root;
    if tree.root == tree.sentinel { tree.Empty(tree.shape); }
      else { tree.Full(tree.shape); tree.Side(Top, tree.shape); }
    while node != tree.sentinel
      invariant tree.At(c, t) && node == Root(t, tree.sentinel) && (node == tree.sentinel <==> t == Leaf)
        && Plug(c, t) == tree.shape
      invariant TagPath(ts, x, c) && Missed(ts, x, c)
      decreases t
    {
      NodeOnPath(ts, c, t);
      tree.Lower(c, t);
      tree.Children(c, t);
      var left := hash < node.key;
      if hash == node.key {
        var rc := StrCmp(name, names[node]);
        if rc == 0 {
          return node;
        }
        left := rc < 0;
      }
      c, t := if left then InLeft(c, t.n, t.red, t.r) else InRight(c, t.l, t.n, t.red), if left then t.l else t.r;
      node := if left then node.left else node.right;
    }
    PathEnds(ts, x, c);
    return null;
  }

  lemma NewMissed(ts: TagMap, x: Tag, c: Ctx, t: Tree)
    requires TagPath(ts, x, c) && InTagOrder(ts, InOrder(Plug(c, t)))
      && forall n :: n in InOrder(Plug(c, t)) ==> ts[n] != x
    ensures Missed(ts, x, c)
  {
    match c
    case Top =>
    case InLeft(up, n, red, r) =>
      NodeOnPath(ts, up, Br(t, n, red, r));
      NewMissed(ts, x, up, Br(t, n, red, r));
    case InRight(up, l, n, red) =>
      NodeOnPath(ts, up, Br(l, n, red, t));
      NewMissed(ts, x, up, Br(l, n, red, t));
  }

  /** A node hung where the search for its key ends keeps the order. */
  lemma HungInOrder(ts: TagMap, c: Ctx, node: Node, x: Tag)
    requires TagPath(ts, x, c) && InTagOrder(ts, InOrder(Plug(c, Leaf))) && node !in ts
    requires forall n :: n in InOrder(Plug(c, Leaf)) ==> ts[n] != x
    ensures InOrder(Plug(c, Br(Leaf, node, true, Leaf))) == Pre(c) + [node] + Post(c)
      && InOrder(Plug(c, Leaf)) == Pre(c) + Post(c)
    ensures InTagOrder(ts[node := x], Pre(c) + [node] + Post(c))
  {
    NewMissed(ts, x, c, Leaf);
    PathEnds(ts, x, c);
    InOrderPlug(c, Br(Leaf, node, true, Leaf));
    SplicedInOrder(ts, Pre(c), Post(c), node, x);
  }

  lemma SplicedInOrder(ts: TagMap, a: seq<Node>, b: seq<Node>, node: Node, x: Tag)
    requires InTagOrder(ts, a + b) && AllBelow(ts, a, x) && AllBeyond(ts, b, x) && node !in ts
    ensures InTagOrder(ts[node := x], a + [node] + b)
  {
    var s' := a + [node] + b;
    forall i | 0 <= i < |s'| ensures s'[i] in ts[node := x] { SplicedAt(a, b, node, i); }
    forall i, j | 0 <= i < j < |s'| ensures Before(ts[node := x][s'[i]], ts[node := x][s'[j]]) {
      SplicedAt(a, b, node, i);
      SplicedAt(a, b, node, j);
      SplicedPair(ts, a, b, node, x, i, j);
    }
  }

  lemma SplicedAt(a: seq<Node>, b: seq<Node>, node: Node, i: nat)
    requires i <= |a| + |b|
    ensures var s' := a + [node] + b; s'[i] == if i < |a| then (a + b)[i] else if i == |a| then node else (a + b)[i - 1]
  {}

  lemma SplicedPair(ts: TagMap, a: seq<Node>, b: seq<Node>, node: Node, x: Tag, i: nat, j: nat)
    requires InTagOrder(ts, a + b) && AllBelow(ts, a, x) && AllBeyond(ts, b, x) && node !in ts && i < j <= |a| + |b|
    ensures
      var f := (k: nat) =>
        if k < |a| then ts[(a + b)[k]] else if k == |a| then x else if k <= |a| + |b| then ts[(a + b)[k - 1]] else x;
      Before(f(i), f(j))
  {
    if i < |a| { assert (a + b)[i] == a[i]; }
    if |a| < j { assert (a + b)[j - 1] == b[j - 1 - |a|]; }
  }

  /** ngx_open_file_cache.c:1088-1103 */
  method Compare(node: Node, temp: Node, names: map<Node, string>) returns (onLeft: bool)
    requires node in names && temp in names
    ensures onLeft == Before(Tag(node.key, names[node]), Tag(temp.key, names[temp]))
  {
    if node.key < temp.key {
      onLeft := true;
    } else if node.key > temp.key {
      onLeft := false;
    } else {
      onLeft := StrCmp(names[node], names[temp]) < 0;
    }
  }

  /** The search of ngx_open_file_cache_rbtree_insert_value (ngx_open_file_cache.c:1086-1110). */
  method Seat(tree: RbTree, names: map<Node, string>, node: Node) returns (temp: Node, onLeft: bool, ghost c: Ctx)
    requires tree.Valid() && tree.shape.Br? && node in names && forall n :: n in Ids(tree.shape) ==> n in names
    ensures tree.At(c, Leaf) && !c.Top? && c.n == temp && onLeft == c.InLeft? && temp in tree.repr
    ensures CtxBalanced(c, 0) && Plug(c, Leaf) == tree.shape
      && TagPath(Tags(Keys(tree.repr), names), Tag(node.key, names[node]), c)
  {
    ghost var ts, x := Tags(Keys(tree.repr), names), Tag(node.key, names[node]);
    ghost var t, h := tree.shape, BlackHeight(tree.shape);
    c := Top;
    tree.Side(Top, tree.shape);
    temp := tree.root;
    while true
      invariant tree.At(c, t) && t.Br? && t.n == temp && temp in tree.repr
      invariant Plug(c, t) == tree.shape && TagPath(ts, x, c)
      invariant Balanced(t, h) && CtxBalanced(c, h) && (Red(t) ==> !c.Top? && !RedCtx(c))
      decreases t
    {
      tree.Lower(c, t);
      tree.Children(c, t);
      SubIds(c, t);
      assert t.n in Ids(t);
      onLeft := Compare(node, temp, names);
      c, t, h := if onLeft then InLeft(c, t.n, t.red, t.r) else InRight(c, t.l, t.n, t.red),
        if onLeft then t.l else t.r, if t.red then h else h - 1;
      if (if onLeft then temp.left else temp.right) == tree.sentinel {
        break;
      }
      temp := if onLeft then temp.left else temp.right;
    }
  }

  /** ngx_open_file_cache_rbtree_insert_value: hang the node where the search for its hash and name ends. */
  method HangFile(tree: RbTree, names: map<Node, string>, node: Node) returns (ghost c: Ctx)
    requires tree.Valid() && tree.shape.Br? && node !in tree.repr && node in names
      && forall n :: n in Ids(tree.shape) ==> n in names
    modifies tree`repr, tree.repr, node`left, node`right, node`parent, node`red
    ensures tree.repr == old(tree.repr) + {node}
    ensures tree.At(c, Br(Leaf, node, true, Leaf)) && CtxBalanced(c, 0)
    ensures Plug(c, Leaf) == tree.shape && TagPath(Tags(old(Keys(tree.repr)), names), Tag(node.key, names[node]), c)
    ensures forall n :: n in tree.repr ==> n.key == old(n.key)
  {
    var temp, onLeft;
    temp, onLeft, c := Seat(tree, names, node);
    tree.Hang(temp, node, onLeft, c);
  }

  lemma {:induction false} SubIds(c: Ctx, t: Tree)
    ensures Ids(t) <= Ids(Plug(c, t))
    decreases c
  {
    match c
    case Top =>
    case InLeft(up, n, red, r) => SubIds(up, Br(t, n, red, r));
    case InRight(up, l, n, red) => SubIds(up, Br(l, n, red, t));
  }

  lemma TagsGrow(ks: KeyMap, names: map<Node, string>, node: Node, key: int)
    requires node in names && node !in ks
    ensures Tags(ks[node := key], names) == Tags(ks, names)[node := Tag(key, names[node])]
  {}

  lemma AllNamed(tree: RbTree, names: map<Node, string>)
    requires Filed(tree, names)
    ensures forall n :: n in Ids(tree.shape) ==> n in names && n in InOrder(tree.shape)
    ensures forall n :: n in InOrder(tree.shape) ==> n in names && n in tree.repr
  {
    tree.Members();
    IdsAreListed(tree.shape);
    forall n | n in Ids(tree.shape) ensures n in names && n in InOrder(tree.shape) {
      assert n in Elems(InOrder(tree.shape));
      assert n in Tags(Keys(tree.repr), names);
    }
    forall n | n in InOrder(tree.shape) ensures n in names && n in tree.repr {
      assert n in Tags(Keys(tree.repr), names);
    }
  }

  /** Into a tree that is not empty. */
  method InsertBelow(tree: RbTree, names: map<Node, string>, node: Node, ghost ts: TagMap, ghost x: Tag)
      returns (ghost a: seq<Node>, ghost b: seq<Node>)
    requires tree.Valid() && tree.root != tree.sentinel && node !in tree.repr && node in names
      && forall n :: n in Ids(tree.shape) ==> n in names
    requires ts == Tags(Keys(tree.repr), names) && InTagOrder(ts, InOrder(tree.shape))
      && x == Tag(node.key, names[node])
    requires forall n :: n in InOrder(tree.shape) ==> ts[n] != x
    modifies tree`root, tree`repr, tree`shape, tree.repr, node`left, node`right, node`parent, node`red
    ensures tree.Valid() && tree.repr == old(tree.repr) + {node} && forall n :: n in tree.repr ==> n.key == old(n.key)
    ensures old(InOrder(tree.shape)) == a + b && InOrder(tree.shape) == a + [node] + b
      && InTagOrder(ts[node := x], a + [node] + b)
  {
    tree.Full(tree.shape);
    ghost var c := HangFile(tree, names, node);
    HungInOrder(ts, c, node, x);
    a, b := Pre(c), Post(c);
    Rebalance(tree, node, c);
  }

  /** The re-balancing of ngx_rbtree_insert leaves the order as it is (ngx_rbtree.c:49-93). */
  method Rebalance(tree: RbTree, node: Node, ghost c: Ctx)
    requires tree.At(c, Br(Leaf, node, true, Leaf)) && CtxBalanced(c, 0) && Plug(c, Leaf) == tree.shape
    requires tree.repr == Ids(tree.shape) + {tree.sentinel} + {node}
    modifies tree`root, tree`shape, tree.repr`left, tree.repr`right, tree.repr`parent, tree.repr`red
    ensures tree.Valid() && InOrder(tree.shape) == InOrder(Plug(c, Br(Leaf, node, true, Leaf)))
  {
    tree.shape := tree.InsertFix(node, c, Br(Leaf, node, true, Leaf), 0);
    LeafIds(c, node, tree.shape);
  }

  /** ngx_rbtree_insert of a new entry: the entries stay in order, and the new one is among them. */
  method Insert(tree: RbTree, names: map<Node, string>, node: Node) returns (ghost a: seq<Node>, ghost b: seq<Node>)
    requires Filed(tree, names) && node !in tree.repr && node in names
    requires forall n :: n in InOrder(tree.shape) && n in names && n in tree.repr ==>
      !(n.key == node.key && names[n] == names[node])
    modifies tree`root, tree`repr, tree`shape, tree.repr, node`left, node`right, node`parent, node`red
    ensures Filed(tree, names) && tree.repr == old(tree.repr) + {node}
      && forall n :: n in tree.repr ==> n.key == old(n.key)
    ensures old(InOrder(tree.shape)) == a + b && InOrder(tree.shape) == a + [node] + b
  {
    ghost var ks := Keys(tree.repr);
    ghost var ts, x := Tags(ks, names), Tag(node.key, names[node]);
    AllNamed(tree, names);
    TagsGrow(ks, names, node, node.key);
    if tree.root == tree.sentinel {
      tree.Empty(tree.shape);
      tree.InsertFirst(node);
      a, b := [], [];
    } else {
      a, b := InsertBelow(tree, names, node, ts, x);
    }
    assert Keys(tree.repr) == ks[node := node.key];
  }

  lemma RemovedInOrder(ts: TagMap, ts': TagMap, s: seq<Node>, k: nat, x: Node, s': seq<Node>)
    requires InTagOrder(ts, s) && Removed(s, k, x, s') && forall n :: n in s' ==> n in ts' && n in ts && ts'[n] == ts[n]
    ensures InTagOrder(ts', s')
  {
    forall i | 0 <= i < |s'| ensures s'[i] == s[if i < k then i else i + 1] && s'[i] in s' {}
  }

  /** ngx_rbtree_delete of an entry: the others stay in order. */
  method Remove(tree: RbTree, names: map<Node, string>, node: Node) returns (ghost k: nat)
    requires Filed(tree, names) && node in Ids(tree.shape)
    modifies tree`root, tree`repr, tree`shape, tree.repr`left, tree.repr`right, tree.repr`parent, tree.repr`red, node
    ensures Filed(tree, names) && tree.repr == old(tree.repr) - {node}
      && Removed(old(InOrder(tree.shape)), k, node, InOrder(tree.shape))
  {
    ghost var ks, order := Keys(tree.repr), InOrder(tree.shape);
    AllNamed(tree, names);
    k := tree.Delete(node);
    tree.Members();
    ghost var ks', order' := Keys(tree.repr), InOrder(tree.shape);
    forall n | n in order' ensures n in names && n in ks' && n in ks && ks'[n] == ks[n] {
      assert n in Elems(order');
      assert n in order;
    }
    RemovedInOrder(Tags(ks, names), Tags(ks', names), order, k, node, order');
  }
}
