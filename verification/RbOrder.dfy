/** The two key orders a tree can be built with, and where a descent leads. */
module RbOrder {
  import opened RbShape

  const WORD: int := 0x1_0000_0000_0000_0000

  /** The C casts `(ngx_rbtree_key_int_t) (a - b)` of 64-bit unsigned values. */
  function Signed(d: int): int {
    var u := d % WORD;
    if u < WORD / 2 then u else u - WORD
  }

  /** The test for going left: ngx_rbtree_insert_value or ngx_rbtree_insert_timer_value. */
  predicate Precedes(timer: bool, a: int, b: int) {
    if timer then Signed(a - b) < 0 else a < b
  }

  /** The place of a key on the number line. Timer keys are measured from `base`, modulo the word. */
  function Rank(timer: bool, base: int, k: int): int {
    if timer then (k - base) % WORD else k
  }

  /** Timer keys must lie within half the range above `base` for the wrapping test to be an order. */
  ghost predicate InWindow(timer: bool, base: int, k: int) {
    timer ==> (k - base) % WORD < WORD / 2
  }

  lemma PrecedesIsRank(timer: bool, base: int, a: int, b: int)
    requires InWindow(timer, base, a) && InWindow(timer, base, b)
    ensures Precedes(timer, a, b) <==> Rank(timer, base, a) < Rank(timer, base, b)
  {
    if timer {
      var ra, rb := (a - base) % WORD, (b - base) % WORD;
      var qa, qb := (a - base) / WORD, (b - base) / WORD;
      assert a - b == (qa - qb) * WORD + (ra - rb);
      if ra < rb { ModIs(a - b, qa - qb - 1, ra - rb + WORD); } else { ModIs(a - b, qa - qb, ra - rb); }
    }
  }

  lemma ModIs(d: int, q: int, r: int)
    requires d == q * WORD + r && 0 <= r < WORD
    ensures d % WORD == r
  {}

  type KeyMap = map<Node, int>

  ghost function Keys(nodes: set<Node>): (ks: KeyMap)
    reads nodes
    ensures ks.Keys == nodes
  {
    map n | n in nodes :: n.key
  }

  /** Every node listed has a key in the window, and keys never decrease along the list. */
  ghost predicate Sorted(ks: KeyMap, timer: bool, base: int, s: seq<Node>) {
    && (forall i :: 0 <= i < |s| ==> s[i] in ks && InWindow(timer, base, ks[s[i]]))
    && (forall i, j :: 0 <= i < j < |s| ==> Rank(timer, base, ks[s[i]]) <= Rank(timer, base, ks[s[j]]))
  }

  /** The turns on the way to the hole are the ones a search for `k` takes. */
  ghost predicate Path(ks: KeyMap, timer: bool, k: int, c: Ctx) {
    match c
    case Top => true
    case InLeft(up, n, _, _) => n in ks && Precedes(timer, k, ks[n]) && Path(ks, timer, k, up)
    case InRight(up, _, n, _) => n in ks && !Precedes(timer, k, ks[n]) && Path(ks, timer, k, up)
  }

  ghost predicate AllAtMost(ks: KeyMap, timer: bool, base: int, s: seq<Node>, k: int) {
    forall i :: 0 <= i < |s| && s[i] in ks ==> Rank(timer, base, ks[s[i]]) <= Rank(timer, base, k)
  }

  ghost predicate AllAbove(ks: KeyMap, timer: bool, base: int, s: seq<Node>, k: int) {
    forall i :: 0 <= i < |s| && s[i] in ks ==> Rank(timer, base, k) < Rank(timer, base, ks[s[i]])
  }

  /** A search for `k` in a sorted tree has everything not above `k` on its left, everything above on its right. */
  lemma {:induction false} PathSplits(ks: KeyMap, timer: bool, base: int, k: int, c: Ctx, mid: seq<Node>)
    requires Path(ks, timer, k, c) && InWindow(timer, base, k)
    requires Sorted(ks, timer, base, Pre(c) + mid + Post(c))
    ensures AllAtMost(ks, timer, base, Pre(c), k) && AllAbove(ks, timer, base, Post(c), k)
  {
    match c
    case Top =>
    case InLeft(up, n, red, r) =>
      var s := Pre(c) + mid + Post(c);
      var at := |Pre(up)| + |mid|;
      assert s[at] == n;
      PrecedesIsRank(timer, base, k, ks[n]);
      Regroup(Pre(up), mid, [n], InOrder(r), Post(up));
      PathSplits(ks, timer, base, k, up, mid + [n] + InOrder(r));
      forall i | 0 <= i < |Post(c)| && Post(c)[i] in ks
        ensures Rank(timer, base, k) < Rank(timer, base, ks[Post(c)[i]])
      {
        assert s[at + i] == Post(c)[i];
      }
    case InRight(up, l, n, red) =>
      var s := Pre(c) + mid + Post(c);
      var at := |Pre(up)| + |InOrder(l)|;
      assert s[at] == n;
      PrecedesIsRank(timer, base, k, ks[n]);
      Regroup(Pre(up), InOrder(l), [n], mid, Post(up));
      PathSplits(ks, timer, base, k, up, InOrder(l) + [n] + mid);
      forall i | 0 <= i < |Pre(c)| && Pre(c)[i] in ks
        ensures Rank(timer, base, ks[Pre(c)[i]]) <= Rank(timer, base, k)
      {
        assert s[i] == Pre(c)[i];
      }
  }

  /** `order'` is `order` with `node` put at place `k`; when `order` is sorted, that is the place
      after every key not above the new one and before every key above it. */
  ghost predicate Placed(ks: KeyMap, timer: bool, base: int, order: seq<Node>, node: Node, key: int, k: nat,
      order': seq<Node>) {
    && k <= |order| && order' == order[..k] + [node] + order[k..]
    && (InWindow(timer, base, key) && Sorted(ks, timer, base, order) ==>
          AllAtMost(ks, timer, base, order[..k], key) && AllAbove(ks, timer, base, order[k..], key))
  }

  lemma LeafPlaced(ks: KeyMap, timer: bool, base: int, c: Ctx, node: Node, key: int)
    requires Path(ks, timer, key, c)
    ensures Placed(ks, timer, base, InOrder(Plug(c, Leaf)), node, key, |Pre(c)|,
      InOrder(Plug(c, Br(Leaf, node, true, Leaf))))
  {
    InOrderPlug(c, Leaf);
    InOrderPlug(c, Br(Leaf, node, true, Leaf));
    var order, k := InOrder(Plug(c, Leaf)), |Pre(c)|;
    assert order[..k] == Pre(c) && order[k..] == Post(c);
    if InWindow(timer, base, key) && Sorted(ks, timer, base, order) {
      PathSplits(ks, timer, base, key, c, []);
    }
  }

  /** Insertion keeps a sorted tree sorted. */
  lemma PlacedSorted(ks: KeyMap, timer: bool, base: int, order: seq<Node>, node: Node, key: int, k: nat,
      order': seq<Node>)
    requires Placed(ks, timer, base, order, node, key, k, order') && node !in order
    requires InWindow(timer, base, key) && Sorted(ks, timer, base, order)
    ensures Sorted(ks[node := key], timer, base, order')
  {
  }
}
