/** Page descriptors and the circular doubly linked lists they form. */
module SlabRing {
  import opened SlabWord

  /** ngx_slab_page_t. `prev` and `tag` are the pointer and the two low bits of the C field `prev`;
      `idx` is the descriptor's place in the page array (pointer arithmetic), -1 for list heads. */
  class Desc {
    const idx: int
    var slab: Word
    var next: Desc?
    var prev: Desc?
    var tag: nat

    constructor (i: int)
      ensures idx == i && slab == Zero() && next == null && prev == null && tag == 0
    {
      idx := i;
      slab, next, prev, tag := Zero(), null, null, 0;
    }
  }

  datatype Link = Link(next: Desc?, prev: Desc?, tag: nat)
  type Links = map<Desc, Link>

  ghost function Snap(ds: set<Desc>): (m: Links)
    reads ds`next, ds`prev, ds`tag
    ensures m.Keys == ds
  {
    map d | d in ds :: Link(d.next, d.prev, d.tag)
  }

  ghost function Elems(l: seq<Desc>): set<Desc> { set d | d in l }

  ghost predicate NoDup(l: seq<Desc>) {
    forall i, j :: 0 <= i < j < |l| ==> l[i] != l[j]
  }

  ghost function After(h: Desc, l: seq<Desc>, i: int): Desc
    requires -1 <= i < |l|
  {
    if i + 1 < |l| then l[i + 1] else h
  }

  ghost function Before(h: Desc, l: seq<Desc>, i: int): Desc
    requires 0 <= i < |l|
  {
    if i > 0 then l[i - 1] else h
  }

  /** From the head `h` the `next` links lead through `l` and back; the `prev` links lead the other way. */
  ghost predicate Ring(m: Links, h: Desc, l: seq<Desc>, tag: nat) {
    && NoDup(l) && h !in l && h in m && m[h].next == After(h, l, -1)
    && forall i {:trigger l[i]} :: 0 <= i < |l| ==> l[i] in m && m[l[i]] == Link(After(h, l, i), Before(h, l, i), tag)
  }

  lemma RingKept(m: Links, m': Links, h: Desc, l: seq<Desc>, tag: nat)
    requires Ring(m, h, l, tag) && h in m' && m'[h].next == m[h].next
    requires forall d :: d in l && d in m ==> d in m' && m'[d] == m[d]
    ensures Ring(m', h, l, tag)
  {
  }

  /** Taking out the member at place `j`: its neighbours are linked to each other. */
  ghost predicate Unlinked(m: Links, m': Links, h: Desc, l: seq<Desc>, j: nat)
    requires j < |l|
  {
    var p, q := Before(h, l, j), After(h, l, j);
    && h in m' && p in m' && q in m' && q in m
    && p in m && l[j] in m
    && m'[p].next == q
      && (q != h ==> m'[q].prev == p && m'[q].tag == m[l[j]].tag && (q != p ==> m'[q].next == m[q].next))
    && (p != h ==> m'[p].tag == m[p].tag && m'[p].prev == m[p].prev)
    && (p != h && h in m ==> m'[h].next == m[h].next)
    && forall i {:trigger l[i]} :: 0 <= i < |l| && l[i] in m && (i < j - 1 || i > j + 1) ==>
      l[i] in m' && m'[l[i]] == m[l[i]]
  }

  ghost function Cut(l: seq<Desc>, j: nat): seq<Desc>
    requires j < |l|
  {
    l[..j] + l[j + 1..]
  }

  lemma CutNoDup(l: seq<Desc>, j: nat)
    requires j < |l| && NoDup(l)
    ensures NoDup(Cut(l, j)) && Elems(Cut(l, j)) == Elems(l) - {l[j]}
  {
    var l' := Cut(l, j);
    forall i, k | 0 <= i < k < |l'| ensures l'[i] != l'[k] {
      assert l'[i] == l[if i < j then i else i + 1] && l'[k] == l[if k < j then k else k + 1];
    }
    forall d | d in l && d != l[j] ensures d in l' {
      var i :| 0 <= i < |l| && l[i] == d;
      assert l'[if i < j then i else i - 1] == d;
    }
  }

  lemma CutAt(h: Desc, l: seq<Desc>, j: nat, i: nat)
    requires j < |l| && i < |l| - 1
    ensures var o := if i < j then i else i + 1;
      && Cut(l, j)[i] == l[o]
      && After(h, Cut(l, j), i) == (if o == j - 1 then After(h, l, j) else After(h, l, o))
      && Before(h, Cut(l, j), i) == (if o == j + 1 then Before(h, l, j) else Before(h, l, o))
  {}

  lemma RingUnlink(m: Links, m': Links, h: Desc, l: seq<Desc>, tag: nat, j: nat)
    requires Ring(m, h, l, tag) && j < |l| && Unlinked(m, m', h, l, j)
    ensures Ring(m', h, Cut(l, j), tag)
  {
    var l' := Cut(l, j);
    CutNoDup(l, j);
    forall i | 0 <= i < |l'|
      ensures l'[i] in m' && m'[l'[i]] == Link(After(h, l', i), Before(h, l', i), tag)
    {
      CutAt(h, l, j, i);
      var o := if i < j then i else i + 1;
      assert l[o] in m && m[l[o]] == Link(After(h, l, o), Before(h, l, o), tag);
    }
  }

  ghost predicate Pushed(m: Links, m': Links, h: Desc, l: seq<Desc>, x: Desc, tag: nat) {
    && h in m' && x in m' && m'[x] == Link(After(h, l, -1), h, tag) && m'[h].next == x
    && (l != [] && l[0] in m ==> l[0] in m' && m'[l[0]] == m[l[0]].(prev := x))
    && forall i :: 1 <= i < |l| && l[i] in m ==> l[i] in m' && m'[l[i]] == m[l[i]]
  }

  lemma RingPush(m: Links, m': Links, h: Desc, l: seq<Desc>, x: Desc, tag: nat)
    requires Ring(m, h, l, tag) && x !in l && x != h && Pushed(m, m', h, l, x, tag)
    ensures Ring(m', h, [x] + l, tag)
  {
    var l' := [x] + l;
    forall i | 0 <= i < |l'|
      ensures l'[i] in m' && m'[l'[i]] == Link(After(h, l', i), Before(h, l', i), tag)
    {
      if i > 0 { assert l'[i] == l[i - 1]; }
    }
  }

  /** Putting `x` in the place of the member at `j`. */
  ghost predicate Replaced(m: Links, m': Links, h: Desc, l: seq<Desc>, j: nat, x: Desc, tag: nat)
    requires j < |l|
  {
    var p, q := Before(h, l, j), After(h, l, j);
    && h in m' && p in m' && q in m' && x in m' && p in m && q in m
    && m'[x] == Link(q, p, tag) && m'[p].next == x
      && (q != h ==> m'[q].prev == x && m'[q].tag == m[q].tag && m'[q].next == m[q].next)
    && (p != h ==> m'[p].tag == m[p].tag && m'[p].prev == m[p].prev)
    && (p != h && h in m ==> m'[h].next == m[h].next)
    && forall i {:trigger l[i]} :: 0 <= i < |l| && l[i] in m && (i < j - 1 || i > j + 1) ==>
      l[i] in m' && m'[l[i]] == m[l[i]]
  }

  lemma RingReplace(m: Links, m': Links, h: Desc, l: seq<Desc>, tag: nat, j: nat, x: Desc)
    requires Ring(m, h, l, tag) && j < |l| && x !in l && x != h && Replaced(m, m', h, l, j, x, tag)
    ensures Ring(m', h, l[j := x], tag)
  {
    var l' := l[j := x];
    forall i | 0 <= i < |l'|
      ensures l'[i] in m' && m'[l'[i]] == Link(After(h, l', i), Before(h, l', i), tag)
    {
      if i != j { assert l'[i] == l[i]; }
    }
  }

  // A family of rings that share no descriptor

  /** Which ring a descriptor is in: `i` for a member of ring `i`, -2 - i for its head, -1 for none. */
  type Home = map<Desc, int>

  ghost predicate Housed(home: Home, heads: seq<Desc>, lists: seq<seq<Desc>>) {
    && |heads| == |lists|
    && (forall i {:trigger heads[i]} :: 0 <= i < |heads| ==> heads[i] in home && home[heads[i]] == -2 - i)
    && (forall i, j {:trigger lists[i][j]} :: 0 <= i < |lists| && 0 <= j < |lists[i]| ==>
      lists[i][j] in home && home[lists[i][j]] == i)
    && (forall d {:trigger home[d]} :: d in home && home[d] >= 0 ==> home[d] < |lists| && d in lists[home[d]])
  }

  ghost predicate Rings(m: Links, heads: seq<Desc>, lists: seq<seq<Desc>>, tags: seq<nat>) {
    && |heads| == |lists| == |tags|
    && (forall i {:trigger lists[i]} :: 0 <= i < |lists| ==> Ring(m, heads[i], lists[i], tags[i]))
  }

  /** Links change only inside ring `i` and at `x`. */
  ghost predicate Within(m: Links, m': Links, home: Home, i: nat, x: Desc) {
    m'.Keys == m.Keys
      && forall d :: d in m && d in home && home[d] != i && home[d] != -2 - i && d != x ==> m'[d] == m[d]
  }

  lemma OthersKept(m: Links, m': Links, home: Home, heads: seq<Desc>, lists: seq<seq<Desc>>, tags: seq<nat>, i: nat,
      x: Desc, l': seq<Desc>)
    requires Rings(m, heads, lists, tags) && Housed(home, heads, lists) && i < |lists| && Within(m, m', home, i, x)
    requires x in home && (home[x] == -1 || home[x] == i)
    requires Ring(m', heads[i], l', tags[i])
    ensures Rings(m', heads, lists[i := l'], tags)
  {
    forall k | 0 <= k < |lists| && k != i ensures Ring(m', heads[k], lists[k], tags[k]) {
      assert home[heads[k]] == -2 - k && Ring(m, heads[k], lists[k], tags[k]);
      forall d | d in lists[k] ensures d in m' && m'[d] == m[d] {
        var j :| 0 <= j < |lists[k]| && lists[k][j] == d;
      }
      RingKept(m, m', heads[k], lists[k], tags[k]);
    }
  }

  lemma HousedCut(home: Home, heads: seq<Desc>, lists: seq<seq<Desc>>, i: nat, j: nat)
    requires Housed(home, heads, lists) && i < |lists| && j < |lists[i]| && NoDup(lists[i])
    ensures Housed(home[lists[i][j] := -1], heads, lists[i := Cut(lists[i], j)])
  {
    CutNoDup(lists[i], j);
    var x, l' := lists[i][j], Cut(lists[i], j);
    assert home[x] == i;
    forall d | d in lists[i] && d != x ensures d in l' { assert d in Elems(l'); }
    forall k | 0 <= k < |l'| ensures l'[k] in home && home[l'[k]] == i && l'[k] != x {
      assert l'[k] in Elems(l');
      var q :| 0 <= q < |lists[i]| && lists[i][q] == l'[k];
    }
  }

  lemma HousedPush(home: Home, heads: seq<Desc>, lists: seq<seq<Desc>>, i: nat, x: Desc)
    requires Housed(home, heads, lists) && i < |lists| && x in home && home[x] == -1
    ensures Housed(home[x := i], heads, lists[i := [x] + lists[i]])
  {
    var l' := [x] + lists[i];
    forall d | d in lists[i] ensures d in l' {}
  }

  lemma HousedReplace(home: Home, heads: seq<Desc>, lists: seq<seq<Desc>>, i: nat, j: nat, x: Desc)
    requires Housed(home, heads, lists) && i < |lists| && j < |lists[i]| && NoDup(lists[i]) && x in home
      && home[x] == -1
    ensures Housed(home[lists[i][j] := -1][x := i], heads, lists[i := lists[i][j := x]])
  {
    var y, l' := lists[i][j], lists[i][j := x];
    assert home[y] == i;
    forall d | d in lists[i] && d != y ensures d in l' {
      var q :| 0 <= q < |lists[i]| && lists[i][q] == d;
      assert l'[q] == d;
    }
    assert l'[j] == x;
  }

  /** The cells after `prev->next = x->next; x->next->prev = x->prev`. */
  ghost predicate UnlinkCells(m: Links, m': Links, x: Desc) {
    && m'.Keys == m.Keys && x in m && m[x].next in m.Keys && m[x].prev in m.Keys
    && var p, q := m[x].prev, m[x].next;
    && (p == q ==> m'[p] == Link(q, p, m[x].tag))
    && (p != q ==> m'[p] == m[p].(next := q) && m'[q] == m[q].(prev := p, tag := m[x].tag))
    && forall d :: d in m && d != p && d != q ==> m'[d] == m[d]
  }

  /** A member's neighbours are the head or members of the same list. */
  lemma MemberLinks(m: Links, home: Home, heads: seq<Desc>, lists: seq<seq<Desc>>, tags: seq<nat>, i: nat, j: nat)
    requires Rings(m, heads, lists, tags) && Housed(home, heads, lists) && i < |lists| && j < |lists[i]|
    ensures var x, p, q := lists[i][j], Before(heads[i], lists[i], j), After(heads[i], lists[i], j);
      && {x, p, q} <= m.Keys && m[x] == Link(q, p, tags[i]) && p != x && q != x
      && {x, p, q} <= home.Keys && home[x] == i && home[p] in {i, -2 - i} && home[q] in {i, -2 - i}
      && (home[p] == -2 - i ==> p == heads[i]) && (home[q] == -2 - i ==> q == heads[i])
  {
    var l := lists[i];
    assert Ring(m, heads[i], l, tags[i]);
    assert home[l[j]] == i && home[heads[i]] == -2 - i;
    if j > 0 { assert home[l[j - 1]] == i; }
    if j + 1 < |l| { assert home[l[j + 1]] == i; }
  }

  lemma CellsUnlink(m: Links, m': Links, home: Home, heads: seq<Desc>, lists: seq<seq<Desc>>, tags: seq<nat>, i: nat,
      j: nat)
    requires Rings(m, heads, lists, tags) && Housed(home, heads, lists) && i < |lists| && j < |lists[i]|
    requires UnlinkCells(m, m', lists[i][j])
    ensures Unlinked(m, m', heads[i], lists[i], j) && Within(m, m', home, i, lists[i][j])
      && m'[lists[i][j]] == m[lists[i][j]]
  {
    MemberLinks(m, home, heads, lists, tags, i, j);
    var l, h := lists[i], heads[i];
    assert Ring(m, h, l, tags[i]);
    forall k | 0 <= k < |l| && (k < j - 1 || k > j + 1) ensures l[k] in m' && m'[l[k]] == m[l[k]] {
      assert l[k] in m;
    }
  }

  lemma RingsUnlink(m: Links, m': Links, home: Home, heads: seq<Desc>, lists: seq<seq<Desc>>, tags: seq<nat>, i: nat,
      j: nat)
    requires Rings(m, heads, lists, tags) && Housed(home, heads, lists) && i < |lists| && j < |lists[i]|
    requires UnlinkCells(m, m', lists[i][j])
    ensures Rings(m', heads, lists[i := Cut(lists[i], j)], tags)
    ensures Housed(home[lists[i][j] := -1], heads, lists[i := Cut(lists[i], j)])
    ensures m'[lists[i][j]] == m[lists[i][j]] && lists[i][j] in home && home[lists[i][j]] == i
    ensures forall d :: d in m && d in home && home[d] == -1 ==> m'[d] == m[d]
  {
    CellsUnlink(m, m', home, heads, lists, tags, i, j);
    RingUnlink(m, m', heads[i], lists[i], tags[i], j);
    MemberLinks(m, home, heads, lists, tags, i, j);
    OthersKept(m, m', home, heads, lists, tags, i, lists[i][j], Cut(lists[i], j));
    HousedCut(home, heads, lists, i, j);
  }

  /** The cells after `x` is put at the front of the list headed by `h`. */
  ghost predicate PushCells(m: Links, m': Links, h: Desc, x: Desc, tag: nat) {
    && m'.Keys == m.Keys && {x, h} <= m.Keys && m[h].next in m.Keys
    && var f := m[h].next;
    && m'[x] == Link(f, h, tag) && m'[h].next == x
    && (f != h ==> m'[f] == m[f].(prev := x, tag := tag))
    && forall d :: d in m && d != x && d != h && d != f ==> m'[d] == m[d]
  }

  lemma HeadLinks(m: Links, home: Home, heads: seq<Desc>, lists: seq<seq<Desc>>, tags: seq<nat>, i: nat)
    requires Rings(m, heads, lists, tags) && Housed(home, heads, lists) && i < |lists|
    ensures heads[i] in m && m[heads[i]].next == After(heads[i], lists[i], -1) && m[heads[i]].next in m.Keys
    ensures lists[i] == [] <==> m[heads[i]].next == heads[i]
    ensures heads[i] in home && home[heads[i]] == -2 - i
    ensures lists[i] != [] ==> lists[i][0] in home && home[lists[i][0]] == i
  {
    assert Ring(m, heads[i], lists[i], tags[i]);
    if lists[i] != [] { assert lists[i][0] in m; }
  }

  lemma RingsPush(m: Links, m': Links, home: Home, heads: seq<Desc>, lists: seq<seq<Desc>>, tags: seq<nat>, i: nat,
      x: Desc)
    requires Rings(m, heads, lists, tags) && Housed(home, heads, lists) && i < |lists| && x in home && home[x] == -1
    requires PushCells(m, m', heads[i], x, tags[i])
    ensures Rings(m', heads, lists[i := [x] + lists[i]], tags)
    ensures Housed(home[x := i], heads, lists[i := [x] + lists[i]])
    ensures forall d :: d in m && d in home && home[d] == -1 && d != x ==> m'[d] == m[d]
  {
    HeadLinks(m, home, heads, lists, tags, i);
    var h, l := heads[i], lists[i];
    assert Ring(m, h, l, tags[i]);
    forall k | 1 <= k < |l| ensures l[k] in m' && m'[l[k]] == m[l[k]] {
      assert l[k] in m && home[lists[i][k]] == i;
    }
    assert x !in l;
    RingPush(m, m', h, l, x, tags[i]);
    OthersKept(m, m', home, heads, lists, tags, i, x, [x] + l);
    HousedPush(home, heads, lists, i, x);
  }

  /** The cells after `y` takes the place of `x` in its list. */
  ghost predicate ReplaceCells(m: Links, m': Links, x: Desc, y: Desc) {
    && m'.Keys == m.Keys && {x, y} <= m.Keys && m[x].next in m.Keys && m[x].prev in m.Keys
    && var p, q := m[x].prev, m[x].next;
    && m'[y] == Link(q, p, m[x].tag)
    && (p == q ==> m'[p] == Link(y, y, TAG_NONE))
    && (p != q ==> m'[p] == m[p].(next := y) && m'[q] == m[q].(prev := y, tag := TAG_NONE))
    && forall d :: d in m && d != y && d != p && d != q ==> m'[d] == m[d]
  }

  const TAG_NONE: nat := 0

  lemma RingsReplace(m: Links, m': Links, home: Home, heads: seq<Desc>, lists: seq<seq<Desc>>, tags: seq<nat>, i: nat,
      j: nat, y: Desc)
    requires Rings(m, heads, lists, tags) && Housed(home, heads, lists) && i < |lists| && j < |lists[i]| && y in home
      && home[y] == -1
    requires tags[i] == TAG_NONE && ReplaceCells(m, m', lists[i][j], y)
    ensures Rings(m', heads, lists[i := lists[i][j := y]], tags)
    ensures Housed(home[lists[i][j] := -1][y := i], heads, lists[i := lists[i][j := y]])
    ensures m'[lists[i][j]] == m[lists[i][j]] && lists[i][j] in home && home[lists[i][j]] == i
    ensures forall d :: d in m && d in home && home[d] == -1 && d != y ==> m'[d] == m[d]
  {
    MemberLinks(m, home, heads, lists, tags, i, j);
    var h, l := heads[i], lists[i];
    assert Ring(m, h, l, tags[i]);
    assert home[h] == -2 - i;
    forall k | 0 <= k < |l| ensures l[k] in m && l[k] != y {
      assert home[lists[i][k]] == i;
    }
    forall k | 0 <= k < |l| && (k < j - 1 || k > j + 1) ensures l[k] in m' && m'[l[k]] == m[l[k]] {
      assert l[k] in m;
    }
    RingReplace(m, m', h, l, tags[i], j, y);
    OthersKept(m, m', home, heads, lists, tags, i, y, l[j := y]);
    HousedReplace(home, heads, lists, i, j, y);
  }

  // The same with the rings kept folded: a proof that needs what Knit says asserts Open(0).

  ghost predicate Open(k: int) { true }

  ghost predicate Knit(m: Links, home: Home, heads: seq<Desc>, lists: seq<seq<Desc>>, tags: seq<nat>) {
    && m.Keys == home.Keys && |heads| == |lists| == |tags|
    && forall k :: Open(k) ==> Rings(m, heads, lists, tags) && Housed(home, heads, lists)
  }

  lemma KnitMember(m: Links, home: Home, heads: seq<Desc>, lists: seq<seq<Desc>>, tags: seq<nat>, i: nat, j: nat)
    requires Knit(m, home, heads, lists, tags) && i < |lists| && j < |lists[i]|
    ensures var x := lists[i][j];
      && x in m && m[x].next in m.Keys && m[x].prev in m.Keys && m[x].next != x && m[x].prev != x && m[x].tag == tags[i]
      && home[x] == i && home[m[x].next] != -1 && home[m[x].prev] != -1
      && m[x].next == After(heads[i], lists[i], j)
  {
    assert Open(0);
    MemberLinks(m, home, heads, lists, tags, i, j);
  }

  lemma KnitNotHead(m: Links, home: Home, heads: seq<Desc>, lists: seq<seq<Desc>>, tags: seq<nat>, i: nat, j: nat)
    requires Knit(m, home, heads, lists, tags) && i < |lists| && j < |lists[i]|
    ensures lists[i][j] !in heads
  {
    assert Open(0);
    assert home[lists[i][j]] == i;
  }

  lemma KnitHead(m: Links, home: Home, heads: seq<Desc>, lists: seq<seq<Desc>>, tags: seq<nat>, i: nat)
    requires Knit(m, home, heads, lists, tags) && i < |lists|
    ensures heads[i] in m && m[heads[i]].next == After(heads[i], lists[i], -1) && m[heads[i]].next in m.Keys
    ensures lists[i] == [] <==> m[heads[i]].next == heads[i]
    ensures home[heads[i]] == -2 - i && home[m[heads[i]].next] != -1
  {
    assert Open(0);
    HeadLinks(m, home, heads, lists, tags, i);
  }

  lemma KnitUnlink(m: Links, m': Links, home: Home, heads: seq<Desc>, lists: seq<seq<Desc>>, tags: seq<nat>, i: nat,
      j: nat)
    requires Knit(m, home, heads, lists, tags) && i < |lists| && j < |lists[i]|
    requires UnlinkCells(m, m', lists[i][j])
    ensures Knit(m', home[lists[i][j] := -1], heads, lists[i := Cut(lists[i], j)], tags)
    ensures Same(m, m', lists[i][j]) && Unhoused(m, m', home, lists[i][j])
  {
    assert Open(0);
    RingsUnlink(m, m', home, heads, lists, tags, i, j);
  }

  lemma KnitPush(m: Links, m': Links, home: Home, heads: seq<Desc>, lists: seq<seq<Desc>>, tags: seq<nat>, i: nat,
      x: Desc)
    requires Knit(m, home, heads, lists, tags) && i < |lists| && x in home && home[x] == -1
    requires PushCells(m, m', heads[i], x, tags[i])
    ensures Knit(m', home[x := i], heads, lists[i := [x] + lists[i]], tags)
    ensures Unhoused(m, m', home, x)
  {
    assert Open(0);
    RingsPush(m, m', home, heads, lists, tags, i, x);
  }

  lemma KnitReplace(m: Links, m': Links, home: Home, heads: seq<Desc>, lists: seq<seq<Desc>>, tags: seq<nat>, i: nat,
      j: nat, y: Desc)
    requires Knit(m, home, heads, lists, tags) && i < |lists| && j < |lists[i]| && y in home && home[y] == -1
    requires tags[i] == TAG_NONE && ReplaceCells(m, m', lists[i][j], y)
    ensures Knit(m', home[lists[i][j] := -1][y := i], heads, lists[i := lists[i][j := y]], tags)
    ensures Same(m, m', lists[i][j]) && Unhoused(m, m', home, y)
  {
    assert Open(0);
    RingsReplace(m, m', home, heads, lists, tags, i, j, y);
  }

  lemma KnitElsewhere(m: Links, m': Links, home: Home, heads: seq<Desc>, lists: seq<seq<Desc>>, tags: seq<nat>)
    requires Knit(m, home, heads, lists, tags) && m'.Keys == m.Keys
      && forall d :: d in m && home[d] != -1 ==> m'[d] == m[d]
    ensures Knit(m', home, heads, lists, tags)
  {
    assert Open(0);
    forall i | 0 <= i < |lists| ensures Ring(m', heads[i], lists[i], tags[i]) {
      assert Ring(m, heads[i], lists[i], tags[i]) && home[heads[i]] == -2 - i;
      forall d | d in lists[i] ensures m'[d] == m[d] {
        var j :| 0 <= j < |lists[i]| && lists[i][j] == d;
      }
      RingKept(m, m', heads[i], lists[i], tags[i]);
    }
  }

  ghost predicate Same(m: Links, m': Links, d: Desc) { d in m && d in m' && m'[d] == m[d] }

  /** Descriptors in no list, other than `x`, keep their links. */
  ghost predicate Unhoused(m: Links, m': Links, home: Home, x: Desc) {
    forall d :: d in m && d in home && home[d] == -1 && d != x ==> d in m' && m'[d] == m[d]
  }
}
