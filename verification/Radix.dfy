/** The radix tree of ngx_radix_tree.c for 32-bit keys: longest-prefix match with pruning and reuse of nodes. */
module Radix {

  /** NGX_RADIX_NO_VALUE: `(uintptr_t) -1` */
  const NO_VALUE: int := 0xFFFF_FFFF_FFFF_FFFF

  class Node {
    var left: Node?
    var right: Node?
    var parent: Node?
    var value: int

    constructor ()
      ensures left == null && right == null && parent == null && value == NO_VALUE
    {
      left, right, parent, value := null, null, null, NO_VALUE;
    }
  }

  /** The bits from the root to a node, first bit first. */
  type Path = seq<bool>

  /** A 32-bit word, highest bit first: bit i is the one `0x80000000 >> i` selects. */
  type Word = w: Path | |w| == 32 witness seq(32, i => false)

  /** `bit & w`, where `bit` has been shifted right i times: after 32 shifts it is 0. */
  predicate Test(w: Word, i: nat) { i < 32 && w[i] }

  /** How many leading bits of the mask are set: the length of the prefix meant. */
  function Ones(mask: Word, i: nat): (n: nat)
    requires i <= 32
    ensures i <= n <= 32 && !Test(mask, n) && forall j :: i <= j < n ==> Test(mask, j)
    decreases 32 - i
  {
    if Test(mask, i) then Ones(mask, i + 1) else i
  }

  /** The prefix that a key and a mask name. */
  function Prefix(key: Word, mask: Word): Path { key[..Ones(mask, 0)] }

  datatype Cell = Cell(left: Node?, right: Node?, parent: Node?, value: int)
  type Mem = map<Node, Cell>

  ghost function Snap(ns: set<Node>): (m: Mem)
    reads ns
    ensures m.Keys == ns
  {
    map n | n in ns :: Cell(n.left, n.right, n.parent, n.value)
  }

  function Child(c: Cell, b: bool): Node? { if b then c.right else c.left }

  type Where = map<Path, Node>
  type Paths = map<Node, Path>

  /** A node is wired to the nodes one bit longer and one bit shorter, where there are such. */
  ghost predicate NodeOk(m: Mem, at: Where, paths: Paths, n: Node) {
    && n in m && n in paths && |paths[n]| <= 32 && paths[n] in at && at[paths[n]] == n
    && ChildOk(m, at, paths, n, false) && ChildOk(m, at, paths, n, true)
    && (if paths[n] == [] then m[n].parent == null
        else Up(paths[n]) in at && m[n].parent == at[Up(paths[n])])
  }

  ghost predicate ChildOk(m: Mem, at: Where, paths: Paths, n: Node, b: bool)
    requires n in m && n in paths
  {
    var c, p := Child(m[n], b), paths[n] + [b];
    if p in at then c == at[p] else c == null
  }

  function Up(p: Path): Path
    requires p != []
  {
    p[..|p| - 1]
  }

  /** The nodes of the tree, by path and back. */
  ghost predicate Wired(m: Mem, at: Where, paths: Paths, root: Node) {
    && [] in at && at[[]] == root
    && (forall p {:trigger at[p]} :: p in at ==> at[p] in paths && paths[at[p]] == p)
    && (forall n {:trigger NodeOk(m, at, paths, n)} :: n in paths ==> NodeOk(m, at, paths, n))
  }

  /** A new node below `n`. */
  /** A node x is hung below n, at p. */
  ghost predicate Extends(m: Mem, m': Mem, at: Where, paths: Paths, root: Node, n: Node, b: bool, x: Node) {
    && Wired(m, at, paths, root) && n in paths && x !in paths && |paths[n]| < 32 && paths[n] + [b] !in at
    && m'.Keys >= m.Keys && x in m' && m'[x] == Cell(null, null, n, NO_VALUE) && n in m && n in m'
    && m'[n] == (if b then m[n].(right := x) else m[n].(left := x))
    && forall q :: q in paths && q in m && q != n ==> m'[q] == m[q]
  }

  lemma SamePath(p: Path, q: Path, b: bool, c: bool)
    requires p + [b] == q + [c]
    ensures p == q && b == c
  {
    var r := p + [b];
    assert r[..|r| - 1] == p && r[..|r| - 1] == q && r[|r| - 1] == b && r[|r| - 1] == c;
  }

  lemma ExtendNode(m: Mem, m': Mem, at: Where, paths: Paths, root: Node, n: Node, b: bool, x: Node, q: Node, p: Path)
    requires Extends(m, m', at, paths, root, n, b, x) && q in paths && p == paths[n] + [b]
    ensures NodeOk(m', at[p := x], paths[x := p], q)
  {
    assert NodeOk(m, at, paths, n) && NodeOk(m, at, paths, q);
    forall c: bool | paths[q] + [c] == p ensures q == n && c == b { SamePath(paths[q], paths[n], c, b); }
  }

  lemma Extend(m: Mem, m': Mem, at: Where, paths: Paths, root: Node, n: Node, b: bool, x: Node)
    requires Extends(m, m', at, paths, root, n, b, x)
    ensures Wired(m', at[paths[n] + [b] := x], paths[x := paths[n] + [b]], root)
  {
    var p := paths[n] + [b];
    var at', paths' := at[p := x], paths[x := p];
    assert NodeOk(m, at, paths, n);
    assert p != [] && Up(p) == paths[n];
    forall q | q in paths' ensures NodeOk(m', at', paths', q) {
      if q == x {
        NoGrandchild(m, at, paths, root, p, false);
        NoGrandchild(m, at, paths, root, p, true);
      } else {
        ExtendNode(m, m', at, paths, root, n, b, x, q, p);
      }
    }
  }

  lemma Shorter(m: Mem, at: Where, paths: Paths, root: Node, q: Path)
    requires Wired(m, at, paths, root) && q in at && q != []
    ensures Up(q) in at
  {
    assert NodeOk(m, at, paths, at[q]);
  }

  lemma NoGrandchild(m: Mem, at: Where, paths: Paths, root: Node, p: Path, b: bool)
    requires Wired(m, at, paths, root) && p !in at
    ensures p + [b] !in at
  {
    assert Up(p + [b]) == p;
    if p + [b] in at { Shorter(m, at, paths, root, p + [b]); }
  }

  lemma NotBelow(at: Where, p: Path, q: Path)
    requires q in at && q != [] && p + [false] !in at && p + [true] !in at
    ensures Up(q) != p
  {
    if q[|q| - 1] { assert q == Up(q) + [true]; } else { assert q == Up(q) + [false]; }
  }

  /** A node without children goes, unless it is the root. */
  lemma Prune(m: Mem, m': Mem, at: Where, paths: Paths, root: Node, x: Node)
    requires Wired(m, at, paths, root) && x in paths && paths[x] != [] && x in m && m[x].left == null
      && m[x].right == null
    requires Up(paths[x]) in at && at[Up(paths[x])] in m && m'.Keys == m.Keys
    requires var n := at[Up(paths[x])]; m'[n] == if m[n].right == x then m[n].(right := null) else m[n].(left := null)
    requires forall q :: q in paths && q in m && q != at[Up(paths[x])] && q != x ==> m'[q] == m[q]
    ensures Wired(m', at - {paths[x]}, paths - {x}, root)
  {
    var p := paths[x];
    var n := at[Up(p)];
    var at', paths' := at - {p}, paths - {x};
    assert NodeOk(m, at, paths, x) && NodeOk(m, at, paths, n);
    var b := p[|p| - 1];
    assert p == paths[n] + [b];
    assert Child(m[n], b) == x;
    assert p + [false] !in at && p + [true] !in at by {
      assert ChildOk(m, at, paths, x, false) && ChildOk(m, at, paths, x, true);
    }
    forall q | q in paths' ensures NodeOk(m', at', paths', q) {
      assert NodeOk(m, at, paths, q);
      forall c: bool | paths[q] + [c] == p ensures q == n && c == b {
        assert (paths[q] + [c])[|paths[q]|] == c && (paths[q] + [c])[..|paths[q]|] == paths[q];
      }
      if paths[q] != [] { NotBelow(at, p, paths[q]); }
    }
  }

  /** The node for the first i bits of a key, if there is one. */
  ghost function NodeAt(at: Where, key: Path, i: nat): Node? {
    if i <= |key| && key[..i] in at then at[key[..i]] else null
  }

  /** One step down. */
  lemma Descend(m: Mem, at: Where, paths: Paths, root: Node, key: Word, i: nat, n: Node)
    requires Wired(m, at, paths, root) && i <= 32 && NodeAt(at, key, i) == n
    ensures n in paths && paths[n] == key[..i] && n in m && Child(m[n], Test(key, i)) == NodeAt(at, key, i + 1)
  {
    assert NodeOk(m, at, paths, n);
    if i < 32 {
      assert key[..i + 1] == key[..i] + [key[i]];
      assert ChildOk(m, at, paths, n, key[i]);
    } else {
      assert ChildOk(m, at, paths, n, false);
      TooLong(m, at, paths, root, key + [false]);
      assert key[..32] == key;
    }
  }

  lemma TooLong(m: Mem, at: Where, paths: Paths, root: Node, p: Path)
    requires Wired(m, at, paths, root) && |p| > 32
    ensures p !in at
  {
    if p in at { Bounded(m, at, paths, root, p); }
  }

  lemma Bounded(m: Mem, at: Where, paths: Paths, root: Node, p: Path)
    requires Wired(m, at, paths, root) && p in at
    ensures |p| <= 32
  {
    assert NodeOk(m, at, paths, at[p]);
  }

  /** The wiring is a matter of the nodes in the tree only. */
  lemma WiredKept(m: Mem, m': Mem, at: Where, paths: Paths, root: Node)
    requires Wired(m, at, paths, root)
      && forall n :: n in paths && n in m ==> n in m' && m'[n] == m[n].(value := m'[n].value)
    ensures Wired(m', at, paths, root)
  {
    forall n | n in paths ensures NodeOk(m', at, paths, n) { assert NodeOk(m, at, paths, n); }
  }

  /** The free list is a matter of the nodes in it only. */
  lemma FreeKept(m: Mem, m': Mem, head: Node?, spare: seq<Node>)
    requires FreeList(m, head, spare) && forall n :: n in spare ==> n in m' && m'[n].right == m[n].right
    ensures FreeList(m', head, spare)
  {}

  // What a lookup sees

  /** The prefixes stored, with their values. */
  ghost function Stored(m: Mem, at: Where): map<Path, int> {
    map p | p in at && at[p] in m && m[at[p]].value != NO_VALUE :: m[at[p]].value
  }

  /** The value of the longest stored prefix of `key` shorter than `n`. */
  ghost function Best(s: map<Path, int>, key: Path, n: nat): int
    requires n <= |key| + 1
  {
    if n == 0 then NO_VALUE else if key[..n - 1] in s then s[key[..n - 1]] else Best(s, key, n - 1)
  }

  /** Best finds the longest match: no match at all, or a match none longer than which is stored. */
  lemma {:induction false} BestIsLongest(s: map<Path, int>, key: Path, n: nat)
    requires n <= |key| + 1
    ensures (Best(s, key, n) == NO_VALUE && forall k :: 0 <= k < n ==> key[..k] !in s)
      || exists k :: 0 <= k < n && key[..k] in s && Best(s, key, n) == s[key[..k]] && forall j :: k < j < n ==>
        key[..j] !in s
  {
    if n > 0 && key[..n - 1] !in s {
      BestIsLongest(s, key, n - 1);
    }
  }

  /** Nothing below a missing node. */
  lemma {:induction false} Ends(m: Mem, at: Where, paths: Paths, root: Node, key: Path, i: nat, j: nat)
    requires Wired(m, at, paths, root) && i <= j <= |key| && key[..i] !in at
    ensures key[..j] !in at
  {
    if i < j {
      Ends(m, at, paths, root, key, i, j - 1);
      assert key[..j] == key[..j - 1] + [key[j - 1]];
      NoGrandchild(m, at, paths, root, key[..j - 1], key[j - 1]);
    }
  }

  lemma {:induction false} BestStops(s: map<Path, int>, key: Path, i: nat, n: nat)
    requires i <= n <= |key| + 1 && forall k :: i <= k < n ==> key[..k] !in s
    ensures Best(s, key, n) == Best(s, key, i)
  {
    if i < n { BestStops(s, key, i, n - 1); }
  }

  /** The free list: nodes linked by `right`. */
  ghost predicate FreeList(m: Mem, head: Node?, free: seq<Node>) {
    && head == (if free == [] then null else free[0])
    && (forall i {:trigger free[i]} :: 0 <= i < |free| ==>
      free[i] in m && m[free[i]].right == if i + 1 < |free| then free[i + 1] else null)
    && (forall i, j :: 0 <= i < j < |free| ==> free[i] != free[j])
  }

  /** `Fault` stands for following a null pointer. */
  datatype Status = Ok | Busy | Error | Fault

  ghost predicate Open(at: Where, k: int) { true }

  /** Everything is in its place: the nodes of the tree, and the free ones in their list. */
  ghost predicate Whole(m: Mem, at: Where, paths: Paths, root: Node, free: Node?, spare: seq<Node>) {
    && Wired(m, at, paths, root) && FreeList(m, free, spare)
    && paths.Keys <= m.Keys && (forall n :: n in spare ==> n in m && n !in paths)
  }

  class RadixTree {
    const root: Node
    var free: Node?
    /** Bytes left in the current page of nodes. */
    var size: nat
    ghost var repr: set<Node>
    ghost var at: Where
    ghost var paths: Paths
    ghost var spare: seq<Node>

    /** Kept folded: a proof that needs what it says asserts `Open`. */
    ghost predicate Valid()
      reads this, repr
    {
      forall k :: Open(at, k) ==> Whole(Snap(repr), at, paths, root, free, spare)
    }

    ghost function View(): map<Path, int>
      reads this, repr
    {
      Stored(Snap(repr), at)
    }

    /** ngx_radix_tree_create without preallocation. */
    constructor ()
      ensures Valid() && fresh(repr) && View() == map[]
    {
      root := new Node();
      free, size := null, 0;
      repr, at, paths, spare := {root}, map[[] := root], map[root := []], [];
    }

    /** One step down the tree. */
    lemma StepDown(key: Word, i: nat, n: Node)
      requires Valid() && i <= 32 && NodeAt(at, key, i) == n
      ensures n in repr && (if Test(key, i) then n.right else n.left) == NodeAt(at, key, i + 1)
      ensures key[..i] in View() <==> n.value != NO_VALUE
      ensures n.value != NO_VALUE ==> View()[key[..i]] == n.value
    {
      assert Open(at, 0);
      Descend(Snap(repr), at, paths, root, key, i, n);
    }

    lemma Start(key: Word)
      requires Valid()
      ensures NodeAt(at, key, 0) == root
    {
      assert Open(at, 0);
      assert key[..0] == [];
    }

    /** ngx_radix32tree_find (ngx_radix_tree.c:236-263): the value of the longest stored prefix of the key. */
    method Find(key: Word) returns (value: int)
      requires Valid()
      ensures value == Best(View(), key, 33)
    {
      value := NO_VALUE;
      var node: Node? := root;
      var i := 0;
      Start(key);
      while node != null
        invariant i <= 33 && node == NodeAt(at, key, i) && value == Best(View(), key, i)
        decreases 33 - i
      {
        StepDown(key, i, node);
        if node.value != NO_VALUE {
          value := node.value;
        }
        node := if Test(key, i) then node.right else node.left;
        i := i + 1;
      }
      Rest(key, i);
    }

    lemma Rest(key: Word, i: nat)
      requires Valid() && i <= 33 && NodeAt(at, key, i) == null
      ensures Best(View(), key, 33) == Best(View(), key, i)
    {
      assert Open(at, 0);
      forall k | i <= k < 33 ensures key[..k] !in View() {
        Ends(Snap(repr), at, paths, root, key, i, k);
      }
      BestStops(View(), key, i, 33);
    }

    method TakeFree() returns (n: Node)
      requires Valid() && free != null
      modifies this`free, this`spare
      ensures Valid() && View() == old(View()) && n in repr && n !in paths && n !in spare && n == old(free)
    {
      assert Open(at, 0);
      n := free;
      free := n.right;
      spare := spare[1..];
    }

    method TakeNew() returns (n: Node)
      requires Valid()
      modifies this`repr
      ensures Valid() && View() == old(View()) && fresh(n) && repr == old(repr) + {n} && n !in paths && n !in spare
    {
      assert Open(at, 0);
      ghost var m := Snap(repr);
      n := new Node();
      repr := repr + {n};
      Grown(m);
    }

    /**
     * ngx_radix_alloc (ngx_radix_tree.c:463-488): a node from the free list, or from a page; `more` tells whether the
     * pool gives another page.
     */
    method Alloc(more: bool) returns (n: Node?)
      requires Valid()
      modifies this`free, this`size, this`repr, this`spare
      ensures Valid() && View() == old(View()) && repr >= old(repr) && fresh(repr - old(repr))
      ensures n != null ==> n in repr && n !in paths && n !in spare
      ensures n == null <==> old(free) == null && old(size) < 32 && !more
      ensures old(free) != null ==> n == old(free) && size == old(size)
      ensures old(free) == null && n != null ==>
        n !in old(repr) && size + 32 == if old(size) < 32 then 4096 else old(size)
    {
      if free != null {
        n := TakeFree();
        return;
      }
      if size < 32 {
        if !more {
          return null;
        }
        size := 4096;
      }
      size := size - 32;
      n := TakeNew();
    }

    lemma Grown(m: Mem)
      requires Wired(m, at, paths, root) && paths.Keys <= m.Keys <= repr
        && (forall n :: n in m ==> Snap(repr)[n] == m[n])
      ensures Wired(Snap(repr), at, paths, root) && Stored(Snap(repr), at) == Stored(m, at)
    {
      WiredKept(m, Snap(repr), at, paths, root);
      forall p | p in at ensures at[p] in m { assert NodeOk(m, at, paths, at[p]); }
    }

    /** The cells after a new node is filled in and hung below `n`. */
    static ghost predicate HungCells(m: Mem, m': Mem, n: Node, b: bool, x: Node) {
      && m'.Keys == m.Keys && x in m && n in m && m'[x] == Cell(null, null, n, NO_VALUE)
      && m'[n] == (if b then m[n].(right := x) else m[n].(left := x))
      && forall q :: q in m && q != n && q != x ==> m'[q] == m[q]
    }

    method Link(node: Node, b: bool, next: Node)
      requires node in repr && next in repr && node != next
      modifies repr
      ensures HungCells(old(Snap(repr)), Snap(repr), node, b, next)
    {
      next.right, next.left, next.parent, next.value := null, null, node, NO_VALUE;
      if b {
        node.right := next;
      } else {
        node.left := next;
      }
    }

    ghost method SetWhere(at': Where, paths': Paths)
      modifies this`at, this`paths
      ensures at == at' && paths == paths' && Snap(repr) == old(Snap(repr))
    {
      at, paths := at', paths';
    }

    /** Fill in a new node and hang it below `node` (ngx_radix_tree.c:151-161). */
    method Hang(node: Node, b: bool, next: Node)
      requires Valid() && node in paths && next in repr && next !in paths && next !in spare && |paths[node]| < 32
        && paths[node] + [b] !in at
      modifies repr, this`at, this`paths
      ensures Valid() && View() == old(View()) && at == old(at)[old(paths)[node] + [b] := next]
        && paths == old(paths)[next := old(paths)[node] + [b]]
    {
      assert Open(at, 0);
      ghost var m := Snap(repr);
      Link(node, b, next);
      ghost var p := paths[node] + [b];
      Hung(m, Snap(repr), at, paths, root, free, spare, node, b, next, p);
      SetWhere(at[p := next], paths[next := p]);
    }

    static lemma Hung(m: Mem, m': Mem, at: Where, paths: Paths, root: Node, free: Node?, spare: seq<Node>, n: Node,
        b: bool, x: Node, p: Path)
      requires Whole(m, at, paths, root, free, spare) && n in paths && x in m && x !in paths && x !in spare
      requires |paths[n]| < 32 && p == paths[n] + [b] && p !in at && HungCells(m, m', n, b, x)
      ensures Whole(m', at[p := x], paths[x := p], root, free, spare) && Stored(m', at[p := x]) == Stored(m, at)
    {
      Extend(m, m', at, paths, root, n, b, x);
      FreeKept(m, m', free, spare);
      forall p | p in at ensures at[p] in m && m'[at[p]].value == m[at[p]].value { assert NodeOk(m, at, paths, at[p]); }
    }

    /** The stored prefixes with the value at `p` replaced; NO_VALUE takes it away. */
    static ghost function With(s: map<Path, int>, p: Path, v: int): map<Path, int> {
      if v == NO_VALUE then s - {p} else s[p := v]
    }

    method SetValue(node: Node, v: int)
      requires Valid() && node in paths
      modifies repr
      ensures Valid() && View() == With(old(View()), paths[node], v)
    {
      assert Open(at, 0);
      ghost var m := Snap(repr);
      assert NodeOk(m, at, paths, node);
      node.value := v;
      Valued(m, Snap(repr), at, paths, root, free, spare, node, v);
    }

    static lemma Valued(m: Mem, m': Mem, at: Where, paths: Paths, root: Node, free: Node?, spare: seq<Node>, n: Node,
        v: int)
      requires Whole(m, at, paths, root, free, spare) && n in paths && n in m && m' == m[n := m[n].(value := v)]
      ensures Whole(m', at, paths, root, free, spare) && Stored(m', at) == With(Stored(m, at), paths[n], v)
    {
      WiredKept(m, m', at, paths, root);
      FreeKept(m, m', free, spare);
      assert NodeOk(m, at, paths, n);
      forall p | p in at ensures at[p] in m && (at[p] == n ==> p == paths[n]) { assert NodeOk(m, at, paths, at[p]); }
      OneValue(m, m', at, n, paths[n], v);
    }

    static lemma OneValue(m: Mem, m': Mem, at: Where, n: Node, p: Path, v: int)
      requires p in at && at[p] == n && n in m && m' == m[n := m[n].(value := v)]
      requires forall q :: q in at ==> at[q] in m && (at[q] == n ==> q == p)
      ensures Stored(m', at) == With(Stored(m, at), p, v)
    {}

    /** The walk down the existing nodes (ngx_radix_tree.c:115-134). */
    method Walk(key: Word, mask: Word) returns (node: Node, next: Node?, i: nat)
      requires Valid()
      ensures i <= Ones(mask, 0) && key[..i] in at && node == at[key[..i]]
      ensures if next == null then i < Ones(mask, 0) && key[..i + 1] !in at else i == Ones(mask, 0)
    {
      node, next, i := root, root, 0;
      Start(key);
      while Test(mask, i)
        invariant i <= Ones(mask, 0) && NodeAt(at, key, i) == node && next != null
        decreases 32 - i
      {
        StepDown(key, i, node);
        next := if Test(key, i) then node.right else node.left;
        if next == null {
          break;
        }
        i := i + 1;
        node := next;
      }
    }

    /** The path one bit longer, and what is missing below it. */
    lemma OneMore(m: Mem, key: Word, i: nat, node: Node)
      requires Wired(m, at, paths, root) && i < 32 && key[..i] in at && node == at[key[..i]] && key[..i + 1] !in at
      ensures node in paths && paths[node] == key[..i] && paths[node] + [key[i]] == key[..i + 1] && |paths[node]| < 32
      ensures i + 1 < 32 ==> key[..i + 2] !in at && key[..i + 2] != key[..i + 1]
    {
      assert NodeOk(m, at, paths, node);
      assert key[..i + 1] == key[..i] + [key[i]];
      if i + 1 < 32 {
        Ends(m, at, paths, root, key, i + 1, i + 2);
        assert |key[..i + 2]| != |key[..i + 1]|;
      }
    }

    /** The node for the first i bits, and none for one bit more. */
    ghost predicate Last(key: Word, i: nat, node: Node)
      reads this
    {
      && i <= 32 && |key| == 32 && key[..i] in at && node == at[key[..i]]
      && forall j :: j == i + 1 && j <= 32 ==> key[..j] !in at
    }

    lemma LastMore(m: Mem, key: Word, i: nat, node: Node)
      requires Wired(m, at, paths, root) && i < 32 && Last(key, i, node)
      ensures node in paths && paths[node] + [key[i]] == key[..i + 1] && key[..i + 1] !in at && |paths[node]| < 32
      ensures forall j :: j == i + 2 && j <= 32 ==> key[..j] !in at && key[..j] != key[..i + 1]
    {
      OneMore(m, key, i, node);
    }

    /** One missing node is added (ngx_radix_tree.c:146-164). */
    method GrowOne(key: Word, i: nat, node: Node, more: bool) returns (next: Node?)
      requires Valid() && i < 32 && Last(key, i, node)
      modifies this, repr
      ensures Valid() && View() == old(View()) && repr >= old(repr) && fresh(repr - old(repr))
      ensures if next == null then !more else Last(key, i + 1, next)
    {
      next := Alloc(more);
      if next != null {
        assert Open(at, 0);
        LastMore(Snap(repr), key, i, node);
        Hang(node, Test(key, i), next);
      }
    }

    /** The nodes still missing are added (ngx_radix_tree.c:145-165). */
    method Grow(key: Word, mask: Word, node0: Node, i0: nat, more: bool) returns (node: Node, ok: bool)
      requires Valid() && i0 < Ones(mask, 0) && Last(key, i0, node0)
      modifies this, repr
      ensures Valid() && View() == old(View()) && repr >= old(repr) && fresh(repr - old(repr))
      ensures if ok then Prefix(key, mask) in at && node == at[Prefix(key, mask)] else !more
    {
      node, ok := GrowTo(key, mask, Ones(mask, 0), node0, i0, more);
    }

    method GrowTo(key: Word, mask: Word, ghost n: nat, node0: Node, i0: nat, more: bool) returns (node: Node, ok: bool)
      requires Valid() && i0 <= n <= 32 && !Test(mask, n) && (forall j :: i0 <= j < n ==> Test(mask, j))
        && Last(key, i0, node0)
      modifies this, repr
      ensures Valid() && View() == old(View()) && repr >= old(repr) && fresh(repr - old(repr))
      ensures if ok then Last(key, n, node) else !more
    {
      var i := i0;
      ghost var r0 := repr;
      node := node0;
      while Test(mask, i)
        invariant i0 <= i <= n
        invariant fresh(repr - r0)
        invariant repr >= r0
        invariant Valid() && View() == old(View()) && Last(key, i, node)
        decreases n - i
      {
        ghost var before := repr;
        var next := GrowOne(key, i, node, more);
        Parts(r0, before, repr);
        if next == null {
          return node, false;
        }
        i := i + 1;
        node := next;
      }
      ok := true;
    }

    lemma Parts(a: set<Node>, b: set<Node>, c: set<Node>)
      requires a <= b <= c
      ensures c - a == (b - a) + (c - b)
    {}

    lemma Reached(p: Path)
      requires Valid() && p in at
      ensures at[p] in paths && paths[at[p]] == p && at[p] in repr && (p in View() <==> at[p].value != NO_VALUE)
    {
      assert Open(at, 0);
      assert NodeOk(Snap(repr), at, paths, at[p]);
    }

    lemma Missing(key: Word, i: nat, j: nat)
      requires Valid() && i <= j <= 32 && key[..i] !in at
      ensures key[..j] !in at && key[..j] !in View()
    {
      assert Open(at, 0);
      Ends(Snap(repr), at, paths, root, key, i, j);
    }

    /**
     * ngx_radix32tree_insert (ngx_radix_tree.c:108-170): Busy exactly when the prefix has a value already; otherwise
     * the prefix gets the value, unless memory runs out, and then nothing a lookup sees has changed.
     */
    method Insert(key: Word, mask: Word, value: int, more: bool) returns (rc: Status)
      requires Valid()
      modifies this, repr
      ensures Valid() && repr >= old(repr) && fresh(repr - old(repr))
      ensures rc == Busy <==> Prefix(key, mask) in old(View())
      ensures rc == Ok ==> View() == With(old(View()), Prefix(key, mask), value)
      ensures rc != Ok ==> View() == old(View())
      ensures rc == Error ==> !more
      ensures rc != Fault
    {
      var node, next, i := Walk(key, mask);
      Reached(key[..i]);
      if next != null {
        if node.value != NO_VALUE {
          return Busy;
        }
        SetValue(node, value);
        return Ok;
      }
      Missing(key, i + 1, Ones(mask, 0));
      var ok;
      node, ok := Grow(key, mask, node, i, more);
      if !ok {
        return Error;
      }
      Reached(Prefix(key, mask));
      SetValue(node, value);
      return Ok;
    }

    /** The cells after the node `x` is unhooked from `n` and put in front of the free list. */
    static ghost predicate PrunedCells(m: Mem, m': Mem, n: Node, x: Node, head: Node?) {
      && m'.Keys == m.Keys && x in m && n in m && n != x && m'[x] == m[x].(right := head)
      && m'[n] == (if m[n].right == x then m[n].(right := null) else m[n].(left := null))
      && forall q :: q in m && q != n && q != x ==> m'[q] == m[q]
    }

    /** ngx_radix_tree.c:207-215 */
    method Unhook(node: Node, n: Node)
      requires node in repr && n in repr && n != node && node.parent == n
      modifies repr, this`free
      ensures PrunedCells(old(Snap(repr)), Snap(repr), n, node, old(free)) && free == node
    {
      if node.parent.right == node {
        node.parent.right := null;
      } else {
        node.parent.left := null;
      }
      node.right := free;
      free := node;
    }

    static lemma Pruned(m: Mem, m': Mem, at: Where, paths: Paths, root: Node, head: Node?, spare: seq<Node>, x: Node,
        p: Path)
      requires Whole(m, at, paths, root, head, spare) && x in paths && p == paths[x] && p != []
      requires m[x].left == null && m[x].right == null && Up(p) in at && PrunedCells(m, m', at[Up(p)], x, head)
      ensures Whole(m', at - {p}, paths - {x}, root, x, [x] + spare) && Stored(m', at - {p}) == Stored(m, at) - {p}
    {
      assert NodeOk(m, at, paths, at[Up(paths[x])]);
      Prune(m, m', at, paths, root, x);
      FreePushed(m, m', head, spare, x);
      forall p | p in at && p != paths[x] ensures at[p] in m && m'[at[p]].value == m[at[p]].value {
        assert NodeOk(m, at, paths, at[p]);
      }
    }

    static lemma FreePushed(m: Mem, m': Mem, head: Node?, s: seq<Node>, x: Node)
      requires FreeList(m, head, s) && x !in s && x in m' && m'[x].right == head
        && forall n :: n in s ==> n in m' && m'[n].right == m[n].right
      ensures FreeList(m', x, [x] + s)
    {
      var s' := [x] + s;
      forall i | 0 <= i < |s'| ensures s'[i] in m' && m'[s'[i]].right == if i + 1 < |s'| then s'[i + 1] else null {
        if i > 0 { assert s'[i] == s[i - 1]; }
      }
    }

    ghost method SetAll(at': Where, paths': Paths, spare': seq<Node>)
      modifies this`at, this`paths, this`spare
      ensures at == at' && paths == paths' && spare == spare' && Snap(repr) == old(Snap(repr))
    {
      at, paths, spare := at', paths', spare';
    }

    /** A node without children, other than the root, leaves the tree for the free list. */
    method PruneNode(node: Node) returns (up: Node)
      requires Valid() && node in paths && paths[node] != [] && node.left == null && node.right == null
      modifies repr, this`free, this`at, this`paths, this`spare
      ensures Valid() && View() == old(View()) - {old(paths)[node]}
      ensures up in paths && paths[up] == Up(old(paths)[node])
    {
      assert Open(at, 0);
      ghost var m, head := Snap(repr), free;
      assert NodeOk(m, at, paths, node);
      up := node.parent;
      assert |paths[up]| != |paths[node]|;
      Unhook(node, up);
      ghost var p := paths[node];
      Pruned(m, Snap(repr), at, paths, root, head, spare, node, p);
      SetAll(at - {p}, paths - {node}, [node] + spare);
    }

    /** ngx_radix_tree.c:179-191 */
    method Locate(key: Word, mask: Word) returns (node: Node?)
      requires Valid()
      ensures node == NodeAt(at, key, Ones(mask, 0))
    {
      node := root;
      var i := 0;
      Start(key);
      while node != null && Test(mask, i)
        invariant i <= Ones(mask, 0) && node == NodeAt(at, key, i)
        decreases 32 - i
      {
        StepDown(key, i, node);
        node := if Test(key, i) then node.right else node.left;
        i := i + 1;
      }
      if node == null { Gone(key, i, Ones(mask, 0)); }
    }

    lemma Gone(key: Word, i: nat, j: nat)
      requires Valid() && i <= j <= 32 && NodeAt(at, key, i) == null
      ensures NodeAt(at, key, j) == null
    {
      assert Open(at, 0);
      Ends(Snap(repr), at, paths, root, key, i, j);
    }

    /**
     * A childless node goes, and with it every node above that is left without children and value
     * (ngx_radix_tree.c:206-230).
     */
    method PruneUp(node0: Node)
      requires Valid() && node0 in paths && paths[node0] != [] && node0.left == null && node0.right == null
      modifies repr, this`free, this`at, this`paths, this`spare
      ensures Valid() && View() == old(View()) - {old(paths)[node0]}
    {
      var node := node0;
      ghost var gone := paths[node];
      while true
        invariant Valid() && node in paths && paths[node] != [] && node.left == null && node.right == null
        invariant View() - {paths[node]} == old(View()) - {gone}
        decreases |paths[node]|
      {
        node := PruneNode(node);
        Top(node);
        if node.right != null || node.left != null {
          break;
        }
        if node.value != NO_VALUE {
          break;
        }
        if node.parent == null {
          break;
        }
      }
    }

    lemma Top(n: Node)
      requires Valid() && n in paths
      ensures n in repr && (n.parent == null <==> paths[n] == []) && (paths[n] in View() <==> n.value != NO_VALUE)
    {
      assert Open(at, 0);
      assert NodeOk(Snap(repr), at, paths, n);
    }

    /** A node for this prefix that has no nodes below it. */
    ghost predicate Leaf(p: Path)
      reads this, repr
    {
      p in at && at[p] in repr && at[p].left == null && at[p].right == null
    }

    /**
     * ngx_radix32tree_delete (ngx_radix_tree.c:173-233): after Ok the prefix has no value and every other prefix is as
     * before. Ok is also the answer for a leaf without a value, which an insertion that runs out of memory leaves. Of a
     * root without children the code follows the null parent.
     */
    method Delete(key: Word, mask: Word) returns (rc: Status)
      requires Valid()
      modifies repr, this`free, this`at, this`paths, this`spare
      ensures Valid() && rc != Busy
      ensures rc == Fault <==> Prefix(key, mask) == [] && old(Leaf([]))
      ensures rc == Ok <==> rc != Fault && (Prefix(key, mask) in old(View()) || old(Leaf(Prefix(key, mask))))
      ensures rc == Ok ==> View() == old(View()) - {Prefix(key, mask)}
      ensures rc != Ok ==> View() == old(View())
    {
      var node := Locate(key, mask);
      ghost var p := Prefix(key, mask);
      if node == null {
        Absent(p);
        return Error;
      }
      Reached(p);
      if node.right != null || node.left != null {
        if node.value != NO_VALUE {
          SetValue(node, NO_VALUE);
          return Ok;
        }
        return Error;
      }
      Top(node);
      if node.parent == null {
        return Fault;
      }
      PruneUp(node);
      return Ok;
    }

    lemma Absent(p: Path)
      requires p !in at
      ensures p !in View()
    {}
  }
}
