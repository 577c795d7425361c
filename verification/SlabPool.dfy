/** The shared-memory slab allocator of ngx_slab.c. */
module SlabPool {
  import opened SlabWord
  import opened SlabState
  import opened SlabRing
  import opened SlabCode
  import opened SlabScan
  import opened SlabAddr

  const TAG_PAGE := 0
  const TAG_BIG := 1
  const TAG_EXACT := 2
  const TAG_SMALL := 3

  function ShiftTag(shift: nat): nat {
    if shift < EXACT_SHIFT then TAG_SMALL else if shift == EXACT_SHIFT then TAG_EXACT else TAG_BIG
  }

  function PageTag(p: Page): nat { if p.Slab? then ShiftTag(p.shift) else TAG_PAGE }

  /** The list a page belongs to: 0 for the free list, 1 + slot for a slot's list, -1 for none. */
  function HomeOf(minShift: nat, p: Page): int {
    if p.Free? then 0
    else if p.Slab? && !Full(p) then 1 + p.shift - minShift
    else -1
  }

  /** Each page is in the list its state calls for; pages in no list have a null `next` and their type in `tag`. */
  ghost predicate Sorted(minShift: nat, s: Pages, pages: seq<Desc>, home: Home, m: Links) {
    && |s| == |pages|
    && forall k: nat {:trigger pages[k]} :: k < |pages| ==>
         && pages[k] in home && pages[k] in m && home[pages[k]] == HomeOf(minShift, s[k])
         && (home[pages[k]] == -1 ==> m[pages[k]].next == null && m[pages[k]].tag == PageTag(s[k]))
  }

  /** Lists, descriptor words and bitmaps agree with the state of the pages. Kept folded like Knit. */
  ghost predicate Core(minShift: nat, s: Pages, pages: seq<Desc>, home: Home, m: Links, sl: Slabs,
      words: seq<seq<Word>>) {
    && |s| == |pages|
    && forall k :: Open(k) ==>
      Indexed(pages) && Sorted(minShift, s, pages, home, m) && WellFormed(s, minShift) && Coded(s, pages, sl, words)
  }

  /** Homes and links after `n` pages are taken from the free run of `m` pages at `k`. */
  ghost predicate TakenLinks(pages: seq<Desc>, home: Home, home': Home, lk: Links, lk': Links, k: nat, m: nat, n: nat)
    requires 0 < n <= m && k + m <= |pages|
  {
    && lk'.Keys == lk.Keys
    && home' == (if n < m then home[pages[k] := -1][pages[k + n] := 0] else home[pages[k] := -1])
    && (forall i: nat :: k <= i < k + n && pages[i] in lk' ==>
      lk'[pages[i]].next == null && lk'[pages[i]].tag == TAG_PAGE)
    && (forall d :: d in lk && d in home && home[d] == -1 && !(k <= d.idx < k + n) && (n < m ==> d != pages[k + n]) ==>
      lk'[d] == lk[d])
  }

  /** Links and words after a run of `n` pages at `k` is written down. */
  ghost predicate Claimed(lk: Links, lk': Links, sl: Slabs, sl': Slabs, k: nat, n: nat) {
    && lk'.Keys == lk.Keys && sl'.Keys == sl.Keys
    && (forall d {:trigger sl'[d]} :: d in sl ==>
      sl'[d] == if d.idx == k then RunWord(n) else if k < d.idx < k + n then AllBusy() else sl[d])
    && (forall d {:trigger lk'[d]} :: d in lk ==>
      if k <= d.idx < k + n then lk'[d] == Link(null, null, TAG_PAGE) else lk'[d] == lk[d])
  }

  /** Homes, links and words after the front of the run at `k` leaves the free list. */
  ghost predicate CutOut(pages: seq<Desc>, home: Home, home': Home, lk: Links, lk': Links, sl: Slabs, sl': Slabs,
      k: nat, m: nat, n: nat)
    requires 0 < n <= m && k + m <= |pages|
  {
    && lk'.Keys == lk.Keys
    && if n < m then
         && pages[k + n] in sl && home' == home[pages[k] := -1][pages[k + n] := 0]
         && sl' == sl[pages[k + n] := FromNat(m - n, 64)] && Unhoused(lk, lk', home, pages[k + n])
       else
         home' == home[pages[k] := -1] && sl' == sl && Unhoused(lk, lk', home, pages[k])
  }

  lemma CutClaimed(pages: seq<Desc>, home: Home, home': Home, lk: Links, lk1: Links, lk': Links, sl: Slabs, sl1: Slabs,
      sl': Slabs, k: nat, m: nat, n: nat)
    requires Indexed(pages) && 0 < n <= m && k + m <= |pages| && Claimed(lk1, lk', sl1, sl', k, n)
    requires CutOut(pages, home, home', lk, lk1, sl, sl1, k, m, n)
    requires forall i: nat :: k <= i < k + n ==> pages[i] in sl && pages[i] in lk
    ensures TakenLinks(pages, home, home', lk, lk', k, m, n) && TakenWords(pages, sl, sl', k, m, n)
  {
    assert pages[k].idx == k && (n < m ==> pages[k + n].idx == k + n);
  }

  lemma TakeSorted(minShift: nat, s: Pages, pages: seq<Desc>, home: Home, home': Home, lk: Links, lk': Links, k: nat,
      n: nat)
    requires Sorted(minShift, s, pages, home, lk) && WellFormed(s, minShift) && k < |s| && s[k].Free? && 0 < n <= s[k].n
    requires Indexed(pages) && k + s[k].n <= |s| && TakenLinks(pages, home, home', lk, lk', k, s[k].n, n)
    ensures Sorted(minShift, TakeRun(s, k, n), pages, home', lk')
  {
    assert PageOk(s, minShift, k);
    var s' := TakeRun(s, k, n);
    forall i: nat | i < |pages|
      ensures pages[i] in home' && pages[i] in lk' && home'[pages[i]] == HomeOf(minShift, s'[i])
      ensures home'[pages[i]] == -1 ==> lk'[pages[i]].next == null && lk'[pages[i]].tag == PageTag(s'[i])
    {
      assert pages[i].idx == i && pages[k].idx == k && (k + n < |pages| ==> pages[k + n].idx == k + n);
    }
  }

  lemma TakeCore(minShift: nat, s: Pages, pages: seq<Desc>, home: Home, home': Home, lk: Links, lk': Links, sl: Slabs,
      sl': Slabs, words: seq<seq<Word>>, k: nat, n: nat)
    requires Core(minShift, s, pages, home, lk, sl, words) && k < |s| && s[k].Free? && 0 < n <= s[k].n
      && k + s[k].n <= |s|
    requires TakenLinks(pages, home, home', lk, lk', k, s[k].n, n) && TakenWords(pages, sl, sl', k, s[k].n, n)
    ensures Core(minShift, TakeRun(s, k, n), pages, home', lk', sl', words)
  {
    assert Open(0);
    TakeRunOk(s, minShift, k, n);
    TakeCoded(s, minShift, pages, sl, sl', words, k, n);
    TakeSorted(minShift, s, pages, home, home', lk, lk', k, n);
  }

  /** One page that heads no longer run changes; everything else about the other pages is kept. */
  ghost predicate OneChanged(pages: seq<Desc>, home: Home, home': Home, lk: Links, lk': Links, sl: Slabs, sl': Slabs,
                             words: seq<seq<Word>>, words': seq<seq<Word>>, k: nat)
    requires k < |pages|
  {
    && lk'.Keys == lk.Keys && sl'.Keys == sl.Keys && |words'| == |words|
    && (forall d :: d in home && d != pages[k] ==> d in home' && home'[d] == home[d])
    && Unhoused(lk, lk', home, pages[k])
    && (forall d :: d in sl && d != pages[k] ==> sl'[d] == sl[d])
    && (forall i: nat :: i < |words| && i != k ==> words'[i] == words[i])
  }

  /** What the changed page must look like. */
  ghost predicate PageFits(minShift: nat, s: Pages, pages: seq<Desc>, home: Home, lk: Links, sl: Slabs,
      words: seq<seq<Word>>, k: nat)
    requires k < |pages| == |s| == |words|
  {
    && pages[k] in home && pages[k] in lk && pages[k] in sl && home[pages[k]] == HomeOf(minShift, s[k])
    && (home[pages[k]] == -1 ==> lk[pages[k]].next == null && lk[pages[k]].tag == PageTag(s[k]))
    && Encodes(s, k, sl[pages[k]], words[k])
  }

  lemma OneCore(minShift: nat, s: Pages, p: Page, pages: seq<Desc>, home: Home, home': Home, lk: Links, lk': Links,
      sl: Slabs, sl': Slabs,
                words: seq<seq<Word>>, words': seq<seq<Word>>, k: nat)
    requires Core(minShift, s, pages, home, lk, sl, words) && k < |s| && |s| == |words'|
    requires s[k].Slab? || s[k] == Busy(1)
    requires (p.Slab? && SlabOk(minShift, p)) || p == Free(1)
    requires OneChanged(pages, home, home', lk, lk', sl, sl', words, words', k)
    requires PageFits(minShift, s[k := p], pages, home', lk', sl', words', k)
    ensures Core(minShift, s[k := p], pages, home', lk', sl', words')
  {
    assert Open(0);
    ReplaceOk(s, minShift, k, p);
    var s' := s[k := p];
    forall i: nat | i < |pages| && i != k
      ensures pages[i] in home' && pages[i] in lk' && home'[pages[i]] == HomeOf(minShift, s'[i])
      ensures home'[pages[i]] == -1 ==> lk'[pages[i]].next == null && lk'[pages[i]].tag == PageTag(s'[i])
      ensures pages[i] in sl' && Encodes(s', i, sl'[pages[i]], words'[i])
    {
      assert pages[i].idx == i && pages[k].idx == k;
      assert PageOk(s, minShift, i) && Encodes(s, i, sl[pages[i]], words[i]);
    }
  }

  /** A chunk of a listed slab page is taken; a page that is full now leaves its list. */
  lemma UseCore(minShift: nat, s: Pages, pages: seq<Desc>, home: Home, home': Home, lk: Links, lk': Links, sl: Slabs,
      sl': Slabs,
                words: seq<seq<Word>>, words': seq<seq<Word>>, k: nat, i: nat, w: Word, ws: seq<Word>)
    requires Core(minShift, s, pages, home, lk, sl, words) && k < |s| == |words| && lk'.Keys == lk.Keys
      && pages[k] in lk && pages[k] in home && pages[k] in sl
    requires s[k].Slab? && i < |s[k].used| && !s[k].used[i] && home[pages[k]] == HomeOf(minShift, s[k])
    requires sl' == sl[pages[k] := w] && words' == words[k := ws] && Encodes(s[k := WithChunk(s[k], i, true)], k, w, ws)
    requires if Full(WithChunk(s[k], i, true)) then
               home' == home[pages[k] := -1] && lk'[pages[k]] == Link(null, null, ShiftTag(s[k].shift))
                 && Unhoused(lk, lk', home, pages[k])
             else home' == home && lk' == lk
    ensures Core(minShift, s[k := WithChunk(s[k], i, true)], pages, home', lk', sl', words')
  {
    var p := WithChunk(s[k], i, true);
    assert SlabOk(minShift, p) by {
      assert Open(0);
      UseChunk(s, minShift, k, i);
      assert PageOk(s[k := p], minShift, k);
    }
    assert s[k := p][k] == p && !Full(s[k]);
    OneCore(minShift, s, p, pages, home, home', lk, lk', sl, sl', words, words', k);
  }

  /** A page just taken as a run of one becomes a slab page at the front of its slot list. */
  lemma FreshCore(minShift: nat, s: Pages, pages: seq<Desc>, home: Home, lk: Links, lk': Links, sl: Slabs, sl': Slabs,
                  words: seq<seq<Word>>, words': seq<seq<Word>>, k: nat, shift: nat, w: Word, ws: seq<Word>)
    requires Core(minShift, s, pages, home, lk, sl, words) && k < |s| == |words| && lk'.Keys == lk.Keys
      && pages[k] in lk && pages[k] in home && pages[k] in sl
    requires s[k] == Busy(1) && minShift <= shift <= MAX_SHIFT
    requires sl' == sl[pages[k] := w] && words' == words[k := ws]
      && Encodes(s[k := Slab(shift, FreshUsed(shift))], k, w, ws)
    requires Unhoused(lk, lk', home, pages[k])
    ensures Core(minShift, s[k := Slab(shift, FreshUsed(shift))], pages, home[pages[k] := 1 + shift - minShift], lk',
      sl', words')
  {
    var p := Slab(shift, FreshUsed(shift));
    FreshOk(minShift, shift);
    assert s[k := p][k] == p;
    OneCore(minShift, s, p, pages, home, home[pages[k] := 1 + shift - minShift], lk, lk', sl, sl', words, words', k);
  }

  /** Words after the run of `n` pages at `k` is given back: the length in the first, zeroes behind it. */
  ghost predicate FreedWords(sl: Slabs, sl': Slabs, k: nat, n: nat) {
    && sl'.Keys == sl.Keys
    && forall d {:trigger sl'[d]} :: d in sl ==>
      sl'[d] == if d.idx == k then FromNat(n, 64) else if k < d.idx < k + n then Zero() else sl[d]
  }

  /** Links after the run of `n` pages at `k` is given back: those of other unlisted pages are kept. */
  ghost predicate FreedLinks(home: Home, lk: Links, lk': Links, k: nat, n: nat) {
    && lk'.Keys == lk.Keys
    && forall d {:trigger lk'[d]} :: d in lk && d in home && home[d] == -1 && d.idx != k ==>
         lk'[d] == if k < d.idx < k + n then Link(null, null, TAG_PAGE) else lk[d]
  }

  /** A busy run becomes a free run (or a free run is filed again). */
  lemma RunFreeCore(minShift: nat, s: Pages, pages: seq<Desc>, home: Home, lk: Links, lk': Links, sl: Slabs,
      sl': Slabs, words: seq<seq<Word>>, k: nat)
    requires Core(minShift, s, pages, home, lk, sl, words) && k < |s| && IsRun(s[k]) && pages[k] in home
    requires FreedWords(sl, sl', k, s[k].n) && FreedLinks(home, lk, lk', k, s[k].n)
    ensures Core(minShift, s[k := Free(s[k].n)], pages, home[pages[k] := 0], lk', sl', words)
  {
    assert Open(0);
    var n := s[k].n;
    var s' := s[k := Free(n)];
    if s[k].Busy? { ReleaseRun(s, minShift, k); } else { assert s' == s; }
    assert PageOk(s, minShift, k);
    forall i: nat | i < |pages| && i != k
      ensures pages[i] in home && pages[i] != pages[k] && home[pages[i]] == HomeOf(minShift, s'[i])
      ensures pages[i] in lk'
        && (home[pages[i]] == -1 ==> lk'[pages[i]].next == null && lk'[pages[i]].tag == PageTag(s'[i]))
      ensures pages[i] in sl' && Encodes(s', i, sl'[pages[i]], words[i])
    {
      assert pages[i].idx == i && pages[k].idx == k;
      assert PageOk(s, minShift, i) && Encodes(s, i, sl[pages[i]], words[i]);
      if k < i < k + n { assert s[i] == Tail(k); }
    }
    assert pages[k].idx == k && Encodes(s, k, sl[pages[k]], words[k]);
  }

  /** A slab page whose last chunk is given back becomes a free page. */
  lemma SlabFreeCore(minShift: nat, s: Pages, pages: seq<Desc>, home: Home, lk: Links, lk': Links, sl: Slabs,
      sl': Slabs,
                     words: seq<seq<Word>>, words': seq<seq<Word>>, k: nat)
    requires Core(minShift, s, pages, home, lk, sl, words) && k < |s| == |words| == |words'| && s[k].Slab?
      && pages[k] in home && pages[k] in sl
    requires sl'.Keys == sl.Keys && sl'[pages[k]] == FromNat(1, 64)
      && (forall d :: d in sl && d != pages[k] ==> sl'[d] == sl[d])
    requires |words'[k]| == BITMAP_WORDS && forall i: nat :: i < |words| && i != k ==> words'[i] == words[i]
    requires lk'.Keys == lk.Keys && pages[k] in lk && Unhoused(lk, lk', home, pages[k])
    ensures Core(minShift, s[k := Free(1)], pages, home[pages[k] := 0], lk', sl', words')
  {
    assert s[k := Free(1)][k] == Free(1);
    OneCore(minShift, s, Free(1), pages, home, home[pages[k] := 0], lk, lk', sl, sl', words, words', k);
  }

  /** A chunk of a slab page is given back; a page that was full returns to its list. */
  lemma ReleaseCore(minShift: nat, s: Pages, pages: seq<Desc>, home: Home, home': Home, lk: Links, lk': Links,
      sl: Slabs, sl': Slabs,
                    words: seq<seq<Word>>, words': seq<seq<Word>>, k: nat, i: nat, w: Word, ws: seq<Word>)
    requires Core(minShift, s, pages, home, lk, sl, words) && k < |s| == |words| && lk'.Keys == lk.Keys
      && pages[k] in lk && pages[k] in home && pages[k] in sl
    requires s[k].Slab? && minShift <= s[k].shift <= MAX_SHIFT && Reserved(s[k].shift) <= i < |s[k].used|
      && s[k].used[i] && HasLive(WithChunk(s[k], i, false))
    requires sl' == sl[pages[k] := w] && words' == words[k := ws]
      && Encodes(s[k := WithChunk(s[k], i, false)], k, w, ws)
    requires home' == home[pages[k] := 1 + s[k].shift - minShift] && Unhoused(lk, lk', home, pages[k])
    ensures Core(minShift, s[k := WithChunk(s[k], i, false)], pages, home', lk', sl', words')
  {
    var p := WithChunk(s[k], i, false);
    assert SlabOk(minShift, p) by { assert Open(0); assert PageOk(s, minShift, k); }
    assert s[k := p][k] == p && !p.used[i] && !Full(p);
    OneCore(minShift, s, p, pages, home, home', lk, lk', sl, sl', words, words', k);
  }

  lemma Overwrite<K, V>(m: map<K, V>, k: K, u: V, v: V)
    ensures m[k := u][k := v] == m[k := v]
  {}

  lemma Rewrite<K, V>(m: map<K, V>, k: K)
    requires k in m
    ensures m[k := m[k]] == m
  {}

  lemma Restore<T>(s: seq<T>, k: nat)
    requires k < |s|
    ensures s[k := s[k]] == s
  {}

  lemma Recoded(s: Pages, k: nat, i: nat, on: bool, w: Word, ws: seq<Word>)
    requires k < |s| && s[k].Slab? && i < |s[k].used| && ChunkCode(s[k].shift, s[k].used[i := on], w, ws)
    ensures Encodes(s[k := WithChunk(s[k], i, on)], k, w, ws)
  {
    assert s[k := WithChunk(s[k], i, on)][k] == Slab(s[k].shift, s[k].used[i := on]);
  }

  /** The same, through the steps of the code: listed again if need be, word written, page given back. */
  lemma EmptiedCore(minShift: nat, s: Pages, pages: seq<Desc>, home: Home, home1: Home, lk: Links, lk1: Links,
      lk': Links, sl: Slabs, sl1: Slabs, sl': Slabs,
                    words: seq<seq<Word>>, words': seq<seq<Word>>, k: nat, w: Word, x: int)
    requires Core(minShift, s, pages, home, lk, sl, words) && k < |s| == |words| == |words'| && s[k].Slab?
      && pages[k] in home && pages[k] in sl && pages[k] in lk
    requires (forall d :: d in sl && d.idx == k ==> d == pages[k]) && pages[k].idx == k
      && home.Keys == sl.Keys == lk.Keys
    requires home1 == home[pages[k] := x] && lk1.Keys == lk.Keys && Unhoused(lk, lk1, home, pages[k])
    requires sl1 == sl[pages[k] := w] && FreedWords(sl1, sl', k, 1) && FreedLinks(home1, lk1, lk', k, 1)
    requires |words'[k]| == BITMAP_WORDS && forall i: nat :: i < |words| && i != k ==> words'[i] == words[i]
    ensures Core(minShift, s[k := Free(1)], pages, home1[pages[k] := 0], lk', sl', words')
  {
    Overwrite(home, pages[k], x, 0);
    SlabFreeCore(minShift, s, pages, home, lk, lk', sl, sl', words, words', k);
  }

  const DESC_SIZE := 24

  function AlignUp(a: nat): (r: nat)
    ensures r % PAGE_SIZE == 0 && a <= r < a + PAGE_SIZE
  {
    (a + PAGE_SIZE - 1) / PAGE_SIZE * PAGE_SIZE
  }

  const WORD_LIMIT := 0x1_0000_0000_0000_0000

  /** The quotient of ngx_slab.c:126: `ngx_pagesize` is unsigned, so a negative difference becomes a huge one. */
  function UnsignedDiv(a: int): nat
    requires -WORD_LIMIT < a < WORD_LIMIT
  {
    (if a >= 0 then a else a + WORD_LIMIT) / PAGE_SIZE
  }

  /** The descriptors and pages that the size of the memory allows for. */
  function Wanted(base: nat, limit: nat): nat
    requires base <= limit
  {
    (limit - base) / (PAGE_SIZE + DESC_SIZE)
  }

  /** Where the first page starts: behind the descriptors of slots and pages. */
  function FirstPage(shift: nat, base: nat, limit: nat): nat
    requires shift <= MAX_SHIFT && base <= limit
  {
    AlignUp(base + (PAGE_SHIFT - shift) * DESC_SIZE + Wanted(base, limit) * DESC_SIZE)
  }

  /** How many of them fit, had they to end at `limit`. */
  ghost function PageCount(shift: nat, base: nat, limit: nat): nat
    requires shift <= MAX_SHIFT && base <= limit
  {
    var count, first := Wanted(base, limit), FirstPage(shift, base, limit);
    if first <= limit && (limit - first) / PAGE_SIZE < count then (limit - first) / PAGE_SIZE else count
  }

  /** As many pages, each with its descriptor, as the memory has the size for. */
  ghost predicate Share(base: nat, limit: nat, d: nat) {
    base + d * (PAGE_SIZE + DESC_SIZE) <= limit < base + (d + 1) * (PAGE_SIZE + DESC_SIZE)
  }

  /**
   * The pages are all that fit: they start at the first page boundary behind the descriptors of the slots and of as
   * many pages as the memory has the size for, and one page more would go past the end, or be more than that many.
   */
  ghost predicate Filled(shift: nat, base: nat, limit: nat, start: nat, n: nat)
    requires shift <= MAX_SHIFT
  {
    exists d: nat :: Share(base, limit, d) && var ends := base + (PAGE_SHIFT - shift) * DESC_SIZE + d * DESC_SIZE;
      && start % PAGE_SIZE == 0 && ends <= start < ends + PAGE_SIZE
      && n <= d && start + n * PAGE_SIZE <= limit && (n == d || limit < start + (n + 1) * PAGE_SIZE)
  }

  lemma SharesEqual(base: nat, limit: nat, d: nat, e: nat)
    requires Share(base, limit, d) && Share(base, limit, e)
    ensures d == e
  {}

  lemma BoundariesEqual(a: nat, x: nat, y: nat)
    requires x % PAGE_SIZE == 0 && y % PAGE_SIZE == 0 && a <= x < a + PAGE_SIZE && a <= y < a + PAGE_SIZE
    ensures x == y
  {}

  /** So there is one way only to lay them. */
  lemma FilledOnce(shift: nat, base: nat, limit: nat, start: nat, n: nat, start': nat, n': nat)
    requires shift <= MAX_SHIFT && Filled(shift, base, limit, start, n) && Filled(shift, base, limit, start', n')
    ensures start == start' && n == n'
  {
    var d: nat :| Share(base, limit, d) && var ends := base + (PAGE_SHIFT - shift) * DESC_SIZE + d * DESC_SIZE;
      && start % PAGE_SIZE == 0 && ends <= start < ends + PAGE_SIZE
      && n <= d && start + n * PAGE_SIZE <= limit && (n == d || limit < start + (n + 1) * PAGE_SIZE);
    var e: nat :| Share(base, limit, e) && var ends := base + (PAGE_SHIFT - shift) * DESC_SIZE + e * DESC_SIZE;
      && start' % PAGE_SIZE == 0 && ends <= start' < ends + PAGE_SIZE
      && n' <= e && start' + n' * PAGE_SIZE <= limit && (n' == e || limit < start' + (n' + 1) * PAGE_SIZE);
    SharesEqual(base, limit, d, e);
    BoundariesEqual(base + (PAGE_SHIFT - shift) * DESC_SIZE + d * DESC_SIZE, start, start');
  }

  /** A mapping of up to 150 pages gives all of them but the first to the pool. */
  lemma AllButOne(shift: nat, addr: nat, m: nat, start: nat, n: nat)
    requires 3 <= shift <= MAX_SHIFT && addr % PAGE_SIZE == 0 && 2 <= m <= 150
    requires Filled(shift, addr + POOL_SIZE, addr + m * PAGE_SIZE, start, n)
    ensures start == addr + PAGE_SIZE && n == m - 1
  {
    var base, limit := addr + POOL_SIZE, addr + m * PAGE_SIZE;
    assert Share(base, limit, m - 1);
    FilledOnce(shift, base, limit, start, n, addr + PAGE_SIZE, m - 1);
  }

  /** The memory is enough for a page inside it. */
  predicate HasPage(shift: nat, base: nat, limit: nat)
    requires shift <= MAX_SHIFT && base <= limit
  {
    PAGE_SIZE + DESC_SIZE <= limit - base && FirstPage(shift, base, limit) + PAGE_SIZE <= limit
  }

  /** Exactly then there is a page, and none past the end. */
  lemma HasPageExactly(shift: nat, base: nat, limit: nat)
    requires shift <= MAX_SHIFT && base <= limit
    ensures HasPage(shift, base, limit) <==> PageCount(shift, base, limit) > 0 && !PastEnd(shift, base, limit)
  {
    var first := FirstPage(shift, base, limit);
    if first + PAGE_SIZE <= limit { AtLeastOne(limit - first); }
  }

  /**
   * Where the pages start and how many there are (ngx_slab.c:93-130); they end inside the memory exactly if they start
   * inside.
   */
  method Layout(shift: nat, base: nat, limit: nat) returns (start: nat, pages: nat)
    requires shift <= MAX_SHIFT && 0 < base <= limit < 0x8000_0000_0000_0000
    ensures start == FirstPage(shift, base, limit) && pages == PageCount(shift, base, limit) < 0x8_0000_0000_0000
    ensures base + (PAGE_SHIFT - shift) * DESC_SIZE + pages * DESC_SIZE <= start
    ensures start + pages * PAGE_SIZE <= limit <==> start <= limit
    ensures start <= limit ==> Filled(shift, base, limit, start, pages)
  {
    var n := PAGE_SHIFT - shift;
    var p := base + n * DESC_SIZE;
    pages := (limit - base) / (PAGE_SIZE + DESC_SIZE);
    start := AlignUp(p + pages * DESC_SIZE);
    CountFits(shift, base, limit);
    var m := pages - UnsignedDiv(limit - start);
    if m > 0 {
      pages := pages - m;
    }
    assert Share(base, limit, Wanted(base, limit));
  }

  /** The difference `m` of ngx_slab.c:126 fits a signed word, and is not positive if the pages start past the end. */
  lemma CountFits(shift: nat, base: nat, limit: nat)
    requires shift <= MAX_SHIFT && 0 < base <= limit < 0x8000_0000_0000_0000
    ensures var count, first := Wanted(base, limit), FirstPage(shift, base, limit);
      && first < 0x8000_0000_0000_0000 + 0x10_0000 && count < 0x8_0000_0000_0000
      && -0x8000_0000_0000_0000 <= count - UnsignedDiv(limit - first)
        && (first > limit ==> count < UnsignedDiv(limit - first))
  {
    var count := Wanted(base, limit);
    assert count * (PAGE_SIZE + DESC_SIZE) <= limit - base;
  }

  /** Three pages' worth of memory is enough for one page that ends inside it. */
  lemma CountPositive(shift: nat, base: nat, limit: nat)
    requires 3 <= shift <= MAX_SHIFT && base + 3 * (PAGE_SIZE + DESC_SIZE) <= limit
    ensures PageCount(shift, base, limit) > 0 && FirstPage(shift, base, limit) <= limit
  {}

  /** A page is laid that starts past the end of the memory. */
  ghost predicate PastEnd(shift: nat, base: nat, limit: nat)
    requires shift <= MAX_SHIFT && base <= limit
  {
    PageCount(shift, base, limit) > 0 && FirstPage(shift, base, limit) > limit
  }

  /** From two pages' worth of memory on, the pages start inside. */
  lemma TwoStartInside(shift: nat, base: nat, limit: nat)
    requires 3 <= shift <= MAX_SHIFT && base + 2 * (PAGE_SIZE + DESC_SIZE) <= limit
    ensures FirstPage(shift, base, limit) <= limit
  {
    var w := Wanted(base, limit);
    assert w >= 2 && w * (PAGE_SIZE + DESC_SIZE) <= limit - base;
  }

  lemma AlignUpTo(a: nat, limit: nat)
    ensures AlignUp(a) <= limit <==> a <= limit / PAGE_SIZE * PAGE_SIZE
  {}

  /**
   * Exactly when: the memory is one page's worth and less than two, and the last page boundary in it lies before the
   * end of the descriptors of the slots and of that page.
   */
  lemma PastEndExactly(shift: nat, base: nat, limit: nat)
    requires 3 <= shift <= MAX_SHIFT && base <= limit
    ensures PastEnd(shift, base, limit) <==>
      && PAGE_SIZE + DESC_SIZE <= limit - base < 2 * (PAGE_SIZE + DESC_SIZE)
      && limit / PAGE_SIZE * PAGE_SIZE < base + (PAGE_SHIFT - shift + 1) * DESC_SIZE
  {
    if limit - base >= 2 * (PAGE_SIZE + DESC_SIZE) {
      TwoStartInside(shift, base, limit);
    } else if limit - base >= PAGE_SIZE + DESC_SIZE {
      assert Wanted(base, limit) == 1;
      AlignUpTo(base + (PAGE_SHIFT - shift + 1) * DESC_SIZE, limit);
    }
  }

  /** An aligned address at which it happens. */
  lemma PagePastEnd()
    ensures PastEnd(3, 3864, 7984) && PageCount(3, 3864, 7984) == 1 && FirstPage(3, 3864, 7984) == 8192
  {}

  /** The size of ngx_slab_pool_t, in front of the descriptors. */
  const POOL_SIZE := 176

  /** A pool at the beginning of a page, as mappings are (ngx_cycle.c:926-962), never has a page past its end. */
  lemma MappedInside(shift: nat, base: nat, limit: nat)
    requires 3 <= shift <= MAX_SHIFT && base <= limit && base % PAGE_SIZE == POOL_SIZE
    ensures !PastEnd(shift, base, limit)
  {
    PastEndExactly(shift, base, limit);
    if limit - base >= PAGE_SIZE + DESC_SIZE { NextBoundary(base / PAGE_SIZE, limit); }
  }

  lemma NextBoundary(q: nat, limit: nat)
    requires limit >= (q + 1) * PAGE_SIZE
    ensures limit / PAGE_SIZE * PAGE_SIZE >= (q + 1) * PAGE_SIZE
  {}

  lemma Boundary(q: nat, a: nat)
    requires q * PAGE_SIZE < a <= (q + 1) * PAGE_SIZE
    ensures AlignUp(a) == (q + 1) * PAGE_SIZE
  {}

  /** A mapping has a page for the pool exactly if it has two pages. */
  lemma MappedCount(shift: nat, addr: nat, size: nat)
    requires 3 <= shift <= MAX_SHIFT && addr % PAGE_SIZE == 0 && size >= POOL_SIZE
    ensures HasPage(shift, addr + POOL_SIZE, addr + size) <==> size >= 2 * PAGE_SIZE
  {
    var base, limit, q := addr + POOL_SIZE, addr + size, addr / PAGE_SIZE;
    var w := Wanted(base, limit);
    var heads := base + (PAGE_SHIFT - shift) * DESC_SIZE + w * DESC_SIZE;
    if size >= 2 * PAGE_SIZE {
      assert w >= 1 && w * (PAGE_SIZE + DESC_SIZE) <= limit - base;
      if w <= 2 { Boundary(q, heads); }
      assert FirstPage(shift, base, limit) == AlignUp(heads) <= limit - PAGE_SIZE;
    } else {
      PastFirst(q, heads);
    }
  }

  lemma PastFirst(q: nat, a: nat)
    requires q * PAGE_SIZE < a
    ensures AlignUp(a) >= (q + 1) * PAGE_SIZE
  {}

  lemma AtLeastOne(n: nat)
    requires n >= PAGE_SIZE
    ensures n / PAGE_SIZE >= 1
  {}

  /** The layout of a pool that has a page. */
  method Lay(shift: nat, base: nat, limit: nat) returns (first: nat, count: nat)
    requires 3 <= shift <= MAX_SHIFT && 0 < base <= limit < 0x8000_0000_0000_0000 && HasPage(shift, base, limit)
    ensures 0 < count < 0x8_0000_0000_0000 && first % PAGE_SIZE == 0 && Filled(shift, base, limit, first, count)
    ensures base + (PAGE_SHIFT - shift) * DESC_SIZE + count * DESC_SIZE <= first && first + count * PAGE_SIZE <= limit
  {
    HasPageExactly(shift, base, limit);
    first, count := Layout(shift, base, limit);
  }

  lemma NoneLive(n: nat)
    ensures forall c :: !Live(OneRun(n), c)
  {
    forall c, k: nat | k < n ensures !LiveIn(OneRun(n), k, c) {}
  }

  ghost function OneRun(n: nat): Pages { seq(n, i => if i == 0 then Free(n) else Tail(0)) }

  ghost function FirstLists(slots: seq<Desc>, pages: seq<Desc>): (r: seq<seq<Desc>>)
    requires |pages| > 0
  {
    [[pages[0]]] + seq(|slots|, i => [])
  }

  ghost function Place(slots: seq<Desc>, d: Desc): (i: nat)
    requires d in slots
    ensures i < |slots| && slots[i] == d
  {
    var i :| 0 <= i < |slots| && slots[i] == d; i
  }

  ghost function FirstHome(free: Desc, slots: seq<Desc>, pages: seq<Desc>): (h: Home)
    requires |pages| > 0
  {
    map d | d in {free} + Elems(slots) + Elems(pages) ::
      if d == free then -2 else if d in slots then -3 - Place(slots, d) else if d == pages[0] then 0 else -1
  }

  lemma FirstKnit(m: Links, free: Desc, slots: seq<Desc>, pages: seq<Desc>, tags: seq<nat>)
    requires |pages| > 0 && NoDup(slots) && free !in slots && pages[0] != free && pages[0] !in slots
      && |tags| == 1 + |slots| && tags[0] == TAG_PAGE
    requires m.Keys == {free} + Elems(slots) + Elems(pages) && m[free].next == pages[0]
      && m[pages[0]] == Link(free, free, TAG_PAGE)
    requires forall i :: 0 <= i < |slots| ==> slots[i] in m && m[slots[i]].next == slots[i]
    ensures Knit(m, FirstHome(free, slots, pages), [free] + slots, FirstLists(slots, pages), tags)
  {
    var home, heads, lists := FirstHome(free, slots, pages), [free] + slots, FirstLists(slots, pages);
    forall i {:trigger lists[i]} | 0 <= i < |lists| ensures Ring(m, heads[i], lists[i], tags[i]) {
      if i > 0 { assert heads[i] == slots[i - 1] && lists[i] == []; } else { assert lists[0] == [pages[0]]; }
    }
    forall i {:trigger heads[i]} | 0 <= i < |heads| ensures heads[i] in home && home[heads[i]] == -2 - i {
      if i > 0 { assert heads[i] == slots[i - 1]; assert Place(slots, heads[i]) == i - 1; }
    }
  }

  lemma FirstCore(minShift: nat, free: Desc, slots: seq<Desc>, pages: seq<Desc>, m: Links, sl: Slabs,
      words: seq<seq<Word>>)
    requires Indexed(pages) && 0 < |pages| == |words| && free !in pages
      && (forall i :: 0 <= i < |slots| ==> slots[i] !in pages)
    requires forall k: nat {:trigger pages[k]} :: k < |pages| ==> pages[k] in m && pages[k] in sl
    requires forall k: nat {:trigger pages[k]} :: 1 <= k < |pages| ==>
      m[pages[k]].next == null && m[pages[k]].tag == TAG_PAGE && sl[pages[k]] == Zero()
    requires sl[pages[0]] == FromNat(|pages|, 64) && forall k: nat :: k < |words| ==> |words[k]| == BITMAP_WORDS
    ensures Core(minShift, OneRun(|pages|), pages, FirstHome(free, slots, pages), m, sl, words)
  {
    var s := OneRun(|pages|);
    assert WellFormed(s, minShift);
    forall k: nat | k < |pages| ensures pages[k] in FirstHome(free, slots,
      pages) && pages[k] != free && pages[k] !in slots {}
  }

  method MakeHeads(n: nat) returns (ds: seq<Desc>)
    ensures |ds| == n && (forall i :: 0 <= i < n ==> fresh(ds[i])) && NoDup(ds)
      && forall i :: 0 <= i < n ==> ds[i].idx == -1 && ds[i].next == ds[i] && ds[i].slab == Zero()
  {
    ds := [];
    while |ds| < n
      invariant |ds| <= n && (forall i :: 0 <= i < |ds| ==> fresh(ds[i])) && NoDup(ds)
        && forall i :: 0 <= i < |ds| ==> ds[i].idx == -1 && ds[i].next == ds[i] && ds[i].slab == Zero()
    {
      var d := new Desc(-1);
      d.next := d;
      ds := ds + [d];
    }
  }

  method MakePages(n: nat) returns (ds: seq<Desc>)
    ensures |ds| == n && forall i :: 0 <= i < n ==> fresh(ds[i])
    ensures forall i :: 0 <= i < n ==>
      ds[i].idx == i && ds[i].next == null && ds[i].prev == null && ds[i].tag == TAG_PAGE && ds[i].slab == Zero()
  {
    ds := [];
    while |ds| < n
      invariant |ds| <= n && forall i :: 0 <= i < |ds| ==> fresh(ds[i])
      invariant forall i :: 0 <= i < |ds| ==>
        ds[i].idx == i && ds[i].next == null && ds[i].prev == null && ds[i].tag == TAG_PAGE && ds[i].slab == Zero()
    {
      var d := new Desc(|ds|);
      ds := ds + [d];
    }
  }

  /** The bytes at the fronts of pages have changed inside the chunk at most. */
  ghost predicate Scribbled(words: seq<seq<Word>>, ws: seq<seq<Word>>, c: Chunk) {
    && |ws| == |words|
    && (forall k: nat :: k < |words| ==> |words[k]| == |ws[k]| == BITMAP_WORDS)
    && forall k: nat, q: nat, j: nat ::
      k < |words| && q < BITMAP_WORDS && j < 64 && !Holds(c, k * PAGE_SIZE + q * 8 + j / 8) ==>
         ws[k][q][j] == words[k][q][j]
  }

  predicate Holds(c: Chunk, off: nat) { c.off <= off < c.off + c.len }

  /** Bit i of a bitmap of n bits that the chunk is apart from. */
  lemma BitSame(words: seq<seq<Word>>, ws: seq<seq<Word>>, c: Chunk, k: nat, i: nat, n: nat)
    requires Scribbled(words, ws, c) && k < |words| && i < n <= 64 * BITMAP_WORDS && n % 8 == 0
      && Disjoint(c, Chunk(k * PAGE_SIZE, n / 8))
    ensures ws[k][i / 64][i % 64] == words[k][i / 64][i % 64]
  {
    var q, j := i / 64, i % 64;
    ByteOf(i, n);
    assert !Holds(c, k * PAGE_SIZE + q * 8 + j / 8);
  }

  lemma ByteOf(i: nat, n: nat)
    requires i < n && n % 8 == 0
    ensures i / 64 * 8 + i % 64 / 8 < n / 8
  {}

  lemma SmallCapacity(shift: nat)
    requires 3 <= shift < EXACT_SHIFT
    ensures Capacity(shift) <= 64 * BITMAP_WORDS && Capacity(shift) % 8 == 0
  {
    assert Pow2(7) == 128 && Pow2(8) == 256 && Pow2(9) == 512;
  }

  lemma ScribblePage(s: Pages, minShift: nat, words: seq<seq<Word>>, ws: seq<seq<Word>>, c: Chunk, k: nat, slab: Word)
    requires WellFormed(s, minShift) && 3 <= minShift && Live(s, c) && Scribbled(words, ws, c) && k < |s| == |words|
      && Encodes(s, k, slab, words[k])
    ensures Encodes(s, k, slab, ws[k])
  {
    if s[k].Slab? && s[k].shift < EXACT_SHIFT {
      var shift, used := s[k].shift, s[k].used;
      assert PageOk(s, minShift, k);
      BitmapApart(s, minShift, k, c);
      SmallCapacity(shift);
      forall i: nat | i < |used| ensures used[i] == ws[k][i / 64][i % 64] { BitSame(words, ws, c, k, i, |used|); }
    }
  }

  lemma ScribbleCore(minShift: nat, s: Pages, pages: seq<Desc>, home: Home, m: Links, sl: Slabs, words: seq<seq<Word>>,
      ws: seq<seq<Word>>, c: Chunk)
    requires Core(minShift, s, pages, home, m, sl, words) && 3 <= minShift && Live(s, c) && Scribbled(words, ws, c)
    ensures Core(minShift, s, pages, home, m, sl, ws)
  {
    assert Open(0);
    forall k: nat | k < |s| ensures pages[k] in sl && Encodes(s, k, sl[pages[k]], ws[k]) {
      assert Encodes(s, k, sl[pages[k]], words[k]);
      ScribblePage(s, minShift, words, ws, c, k, sl[pages[k]]);
    }
  }

  /** What ngx_slab_free_locked reports. */
  datatype Alert = Quiet | OutsideOfPool | WrongChunk | ChunkAlreadyFree | PageAlreadyFree | WrongPage

  class SlabPool {
    const minShift: nat
    const start: nat
    const end: nat
    const pages: seq<Desc>
    const slots: seq<Desc>
    const free: Desc
    /** The words at the front of each page: the bitmap of a small-slab page. */
    var words: seq<seq<Word>>

    ghost const all: set<Desc>
    ghost var st: Pages
    ghost var lists: seq<seq<Desc>>
    ghost var home: Home

    /**
     * ngx_slab_init (ngx_slab.c:72-134): descriptors for the slots and for as many pages as fit behind them, all pages
     * in one free run. `base` is the address behind the pool header.
     */
    constructor (shift: nat, base: nat, limit: nat)
      requires 3 <= shift <= MAX_SHIFT && 0 < base <= limit < 0x8000_0000_0000_0000
      requires HasPage(shift, base, limit)
      ensures Valid() && fresh(all) && minShift == shift && end == limit
      ensures Filled(shift, base, limit, start, |pages|)
        && start >= base + (PAGE_SHIFT - shift) * DESC_SIZE + |pages| * DESC_SIZE
      ensures st == OneRun(|pages|) && forall c :: !Live(st, c)
    {
      var first, count := Lay(shift, base, limit);
      var hs := MakeHeads(PAGE_SHIFT - shift);
      var ps := MakePages(count);
      var f := new Desc(-1);
      minShift, start, end, pages, slots, free := shift, first, limit, ps, hs, f;
      words := seq(count, i => seq(BITMAP_WORDS, j => Zero()));
      all := {f} + Elems(hs) + Elems(ps);
      st := OneRun(count);
      lists := FirstLists(hs, ps);
      home := FirstHome(f, hs, ps);
      new;
      free.next := pages[0];
      pages[0].slab := FromNat(count, 64);
      pages[0].next := free;
      pages[0].prev := free;
      Begin();
      NoneLive(count);
    }

    /** The state ngx_slab_init leaves. */
    lemma Begin()
      requires 3 <= minShift <= MAX_SHIFT && |slots| == PAGE_SHIFT - minShift && 0 < |pages| < 0x8_0000_0000_0000
      requires start % PAGE_SIZE == 0 && start > 0 && start + |pages| * PAGE_SIZE <= end
      requires free.idx == -1 && (forall i :: 0 <= i < |slots| ==> slots[i].idx == -1) && Indexed(pages)
      requires lists == FirstLists(slots, pages) && home == FirstHome(free, slots, pages)
      requires all == {free} + Elems(slots) + Elems(pages) && st == OneRun(|pages|)
        && words == seq(|pages|, i => seq(BITMAP_WORDS, j => Zero()))
      requires NoDup(slots) && free !in slots && free.next == pages[0]
        && (forall i :: 0 <= i < |slots| ==> slots[i].next == slots[i])
      requires pages[0].slab == FromNat(|pages|, 64) && pages[0].next == free && pages[0].prev == free
        && pages[0].tag == TAG_PAGE
      requires forall i :: 1 <= i < |pages| ==>
        pages[i].slab == Zero() && pages[i].next == null && pages[i].tag == TAG_PAGE
      ensures Valid()
    {
      assert Open(0);
      assert Placed();
      assert all == home.Keys;
      FirstKnit(Snap(all), free, slots, pages, Tags());
      FirstCore(minShift, free, slots, pages, Snap(all), SlabSnap(all), words);
      Fold();
      FoldAll();
    }

    ghost function Heads(): seq<Desc> { [free] + slots }

    function ListTag(i: int): nat {
      if i <= 0 then TAG_PAGE else ShiftTag(minShift + i - 1)
    }

    ghost function Tags(): seq<nat> { seq(1 + |slots|, i => ListTag(i)) }

    /** The shape of the pool, fixed by ngx_slab_init. */
    ghost predicate Static() {
      && 3 <= minShift <= MAX_SHIFT && |slots| == PAGE_SHIFT - minShift
      && 0 < |pages| < 0x8_0000_0000_0000 && start % PAGE_SIZE == 0 && start > 0
      && start + |pages| * PAGE_SIZE <= end
      && forall k :: Open(k) ==> Placed()
    }

    /** Descriptors are the free-list head, the slot heads and the page descriptors, each with its place in `idx`. */
    ghost predicate Placed() {
      && free in all && free.idx == -1
      && (forall i {:trigger slots[i]} :: 0 <= i < |slots| ==> slots[i] in all && slots[i].idx == -1)
      && (forall k {:trigger pages[k]} :: 0 <= k < |pages| ==> pages[k] in all && pages[k].idx == k)
      && (forall d {:trigger d in all} :: d in all ==>
        d == free || d in slots || (0 <= d.idx < |pages| && pages[d.idx] == d))
    }

    /** The free list and the slot lists are rings of page descriptors that share no descriptor. */
    ghost predicate Linked()
      reads this`lists, this`home, all`next, all`prev, all`tag
    {
      Static() && home.Keys == all && |lists| == 1 + |slots| &&
      forall k :: Open(k) ==> Knit(Snap(all), home, Heads(), lists, Tags())
    }

    lemma Fold()
      ensures Linked() <==>
        Static() && |lists| == 1 + |slots| && home.Keys == all && Knit(Snap(all), home, Heads(), lists, Tags())
    {
      assert Open(0);
    }

    ghost method SetLists(l: seq<seq<Desc>>, h: Home)
      modifies this`lists, this`home
      ensures lists == l && home == h && Snap(all) == old(Snap(all))
    {
      lists, home := l, h;
    }

    ghost method SetState(s: Pages)
      modifies this`st
      ensures st == s && Snap(all) == old(Snap(all)) && SlabSnap(all) == old(SlabSnap(all)) && Linked() == old(Linked())
    {
      st := s;
    }

    /** `prev->next = page->next; page->next->prev = page->prev` */
    method Unlink(page: Desc)
      requires page in all && page.next in all && page.prev in all && page.next != page && page.prev != page
      modifies all`next, all`prev, all`tag
      ensures UnlinkCells(old(Snap(all)), Snap(all), page)
    {
      page.prev.next := page.next;
      page.next.prev, page.next.tag := page.prev, page.tag;
    }

    method Detach(page: Desc, ghost i: nat, ghost j: nat)
      requires Linked() && i < |lists| && j < |lists[i]| && lists[i][j] == page
      modifies all`next, all`prev, all`tag, this`lists, this`home
      ensures Linked() && lists == old(lists)[i := Cut(old(lists)[i], j)] && home == old(home)[page := -1]
      ensures Same(old(Snap(all)), Snap(all), page) && Unhoused(old(Snap(all)), Snap(all), old(home), page)
        && SlabSnap(all) == old(SlabSnap(all))
    {
      Fold();
      ghost var m := Snap(all);
      KnitMember(m, home, Heads(), lists, Tags(), i, j);
      Unlink(page);
      KnitUnlink(m, Snap(all), home, Heads(), lists, Tags(), i, j);
      SetLists(lists[i := Cut(lists[i], j)], home[page := -1]);
      Fold();
    }

    /** Links for putting `page` at the front of the list headed by `h`. */
    method Push(h: Desc, page: Desc, tag: nat)
      requires {h, page} <= all && h.next in all && page != h && page != h.next
      modifies all`next, all`prev, all`tag
      ensures PushCells(old(Snap(all)), Snap(all), h, page, tag)
    {
      page.next := h.next;
      h.next := page;
      page.prev, page.tag := h, tag;
      page.next.prev, page.next.tag := page, tag;
    }

    method Attach(h: Desc, page: Desc, tag: nat, ghost i: nat)
      requires Linked() && i < |lists| && i <= |slots| && h == Heads()[i] && tag == ListTag(i) && page in home
        && home[page] == -1
      modifies all`next, all`prev, all`tag, this`lists, this`home
      ensures Linked() && lists == old(lists)[i := [page] + old(lists)[i]] && home == old(home)[page := i]
      ensures Unhoused(old(Snap(all)), Snap(all), old(home), page) && SlabSnap(all) == old(SlabSnap(all))
    {
      Fold();
      ghost var m := Snap(all);
      KnitHead(m, home, Heads(), lists, Tags(), i);
      Push(h, page, tag);
      KnitPush(m, Snap(all), home, Heads(), lists, Tags(), i, page);
      SetLists(lists[i := [page] + lists[i]], home[page := i]);
      Fold();
    }

    /** Links for putting `rest` in the place of `page` (ngx_slab.c:628-633). */
    method Replace(page: Desc, rest: Desc)
      requires {page, rest} <= all && page.next in all && page.prev in all
      requires page != rest && page.next != page && page.prev != page && page.next != rest && page.prev != rest
      modifies all`next, all`prev, all`tag
      ensures ReplaceCells(old(Snap(all)), Snap(all), page, rest)
    {
      rest.next := page.next;
      rest.prev, rest.tag := page.prev, page.tag;
      page.prev.next := rest;
      page.next.prev, page.next.tag := rest, TAG_PAGE;
    }

    method Supplant(page: Desc, rest: Desc, ghost j: nat)
      requires Linked() && |lists| > 0 && j < |lists[0]| && lists[0][j] == page && rest in home && home[rest] == -1
      modifies all`next, all`prev, all`tag, this`lists, this`home
      ensures Linked() && lists == old(lists)[0 := old(lists)[0][j := rest]] && home == old(home)[page := -1][rest := 0]
      ensures Same(old(Snap(all)), Snap(all), page) && Unhoused(old(Snap(all)), Snap(all), old(home), rest)
        && SlabSnap(all) == old(SlabSnap(all))
    {
      Fold();
      ghost var m := Snap(all);
      KnitMember(m, home, Heads(), lists, Tags(), 0, j);
      Replace(page, rest);
      KnitReplace(m, Snap(all), home, Heads(), lists, Tags(), 0, j, rest);
      SetLists(lists[0 := lists[0][j := rest]], home[page := -1][rest := 0]);
      Fold();
    }

    /** Rewriting the links of descriptors that are in no list. */
    lemma LooseLinks(m: Links)
      requires Static() && |lists| == 1 + |slots| && home.Keys == all && m.Keys == all
      requires Knit(m, home, Heads(), lists, Tags()) && forall d :: d in all && home[d] != -1 ==> Snap(all)[d] == m[d]
      ensures Linked()
    {
      KnitElsewhere(m, Snap(all), home, Heads(), lists, Tags());
      Fold();
    }

    ghost predicate Valid()
      reads this, all
    {
      Linked() && |st| == |pages| &&
      forall k :: Open(k) ==> Core(minShift, st, pages, home, Snap(all), SlabSnap(all), words)
    }

    lemma FoldAll()
      ensures Valid() <==> Linked() && Core(minShift, st, pages, home, Snap(all), SlabSnap(all), words)
    {
      assert Open(0);
    }

    /** The descriptors behind the first of a run (ngx_slab.c:649-654). */
    method MarkTails(k: nat, n: nat)
      requires Static() && 0 < n && k + n <= |pages|
      modifies set i | k < i < k + n :: pages[i]
      ensures forall i :: k < i < k + n ==>
        pages[i].slab == AllBusy() && pages[i].next == null && pages[i].prev == null && pages[i].tag == TAG_PAGE
    {
      assert Open(0);
      var p := 1;
      while p < n
        invariant 1 <= p <= n
        invariant forall i :: k < i < k + p ==>
          pages[i].slab == AllBusy() && pages[i].next == null && pages[i].prev == null && pages[i].tag == TAG_PAGE
      {
        pages[k + p].slab := AllBusy();
        pages[k + p].next := null;
        pages[k + p].prev, pages[k + p].tag := null, TAG_PAGE;
        p := p + 1;
      }
    }

    /** Write the descriptors of a run just taken (ngx_slab.c:641-654). */
    method WriteRun(page: Desc, n: nat)
      requires Static() && 0 <= page.idx && 0 < n && page.idx + n <= |pages| && pages[page.idx] == page
      modifies set i | page.idx <= i < page.idx + n :: pages[i]
      ensures Claimed(old(Snap(all)), Snap(all), old(SlabSnap(all)), SlabSnap(all), page.idx, n)
    {
      page.slab := RunWord(n);
      page.next := null;
      page.prev, page.tag := null, TAG_PAGE;
      MarkTails(page.idx, n);
      assert Open(0);
      forall d | d in all
        ensures d.slab == if d.idx == page.idx then RunWord(n)
          else if page.idx < d.idx < page.idx + n then AllBusy() else old(d.slab)
        ensures if page.idx <= d.idx < page.idx + n then d.next == null && d.prev == null && d.tag == TAG_PAGE
                else d.next == old(d.next) && d.prev == old(d.prev) && d.tag == old(d.tag)
      {
        if page.idx <= d.idx < page.idx + n {
          assert pages[d.idx] == d;
        } else {
          assert forall i :: page.idx <= i < page.idx + n ==> pages[i] != d;
        }
      }
    }

    /** A listed descriptor is the descriptor of a page whose state calls for that list. */
    lemma ListedPage(i: nat, j: nat)
      requires Valid() && i < |lists| && j < |lists[i]|
      ensures var d := lists[i][j];
        d in all && 0 <= d.idx < |pages| && pages[d.idx] == d && HomeOf(minShift, st[d.idx]) == i
      ensures lists[i][j].next == After(Heads()[i], lists[i], j)
      ensures var q := st[lists[i][j].idx];
        if i == 0 then q.Free? else q.Slab? && !Full(q) && q.shift == minShift + i - 1
    {
      Fold();
      FoldAll();
      assert Open(0);
      var d, h := lists[i][j], Heads();
      KnitMember(Snap(all), home, h, lists, Tags(), i, j);
      KnitNotHead(Snap(all), home, h, lists, Tags(), i, j);
      assert h[0] == free && forall q :: 0 <= q < |slots| ==> h[1 + q] == slots[q];
      assert pages[d.idx] == d && PageOk(st, minShift, d.idx);
    }

    lemma FreePage(k: nat)
      requires Valid() && k < |pages| && st[k].Free?
      ensures k + st[k].n <= |pages| && 0 < st[k].n && ToNat(pages[k].slab) == st[k].n
      ensures forall i: nat :: k < i < k + st[k].n ==> st[i] == Tail(k) && pages[i] in home && home[pages[i]] == -1
    {
      Fold();
      FoldAll();
      assert Open(0);
      assert PageOk(st, minShift, k);
      assert pages[k] in SlabSnap(all) && Encodes(st, k, SlabSnap(all)[pages[k]], words[k]);
      BigPowers();
      RoundTrip(st[k].n, 64);
      forall i: nat | k < i < k + st[k].n ensures st[i] == Tail(k) && pages[i] in home && home[pages[i]] == -1 {
        assert pages[i] in home;
      }
    }

    /** Take the front of the run out of the free list (ngx_slab.c:626-639). */
    method CutRun(page: Desc, n: nat, ghost m: nat, ghost j: nat)
      requires Linked() && 0 < |lists| && j < |lists[0]| && lists[0][j] == page && page in all && ToNat(page.slab) == m
      requires 0 <= page.idx && page.idx + m <= |pages| && 0 < n <= m && pages[page.idx] == page
      requires n < m ==> pages[page.idx + n] in home && home[pages[page.idx + n]] == -1
      modifies all`next, all`prev, all`tag, all`slab, this`lists, this`home
      ensures Linked()
      ensures CutOut(pages, old(home), home, old(Snap(all)), Snap(all), old(SlabSnap(all)), SlabSnap(all), page.idx, m,
        n)
    {
      if ToNat(page.slab) > n {
        var rest := pages[page.idx + n];
        SetSlab(rest, FromNat(ToNat(page.slab) - n, 64));
        Supplant(page, rest, j);
      } else {
        Detach(page, 0, j);
      }
    }

    method Claim(page: Desc, n: nat)
      requires Linked() && 0 <= page.idx && 0 < n && page.idx + n <= |pages| && pages[page.idx] == page
      requires forall i: nat :: page.idx <= i < page.idx + n ==> pages[i] in home && home[pages[i]] == -1
      modifies set i | page.idx <= i < page.idx + n :: pages[i]
      ensures Linked()
      ensures Claimed(old(Snap(all)), Snap(all), old(SlabSnap(all)), SlabSnap(all), page.idx, n)
    {
      Fold();
      ghost var m := Snap(all);
      WriteRun(page, n);
      ClaimLoose(page.idx, n, m);
    }

    lemma ClaimLoose(k: nat, n: nat, m: Links)
      requires Static() && |lists| == 1 + |slots| && home.Keys == all && m.Keys == all && 0 < n && k + n <= |pages|
      requires Knit(m, home, Heads(), lists, Tags())
      requires forall i: nat :: k <= i < k + n ==> pages[i] in home && home[pages[i]] == -1
      requires forall d :: d in all && !(k <= d.idx < k + n) ==> Snap(all)[d] == m[d]
      ensures Linked()
    {
      assert Open(0);
      forall d | d in all && home[d] != -1 ensures Snap(all)[d] == m[d] {
      }
      LooseLinks(m);
    }

    lemma CarveReady(k: nat, m: nat, n: nat, home0: Home)
      requires Static() && home0.Keys == all && 0 < n <= m && k + m <= |pages|
      requires forall i: nat :: k < i < k + m ==> pages[i] in home0 && home0[pages[i]] == -1
      requires home == if n < m then home0[pages[k] := -1][pages[k + n] := 0] else home0[pages[k] := -1]
      ensures Indexed(pages) && forall i: nat :: k <= i < k + m ==> pages[i] in all
      ensures forall i: nat :: k <= i < k + n ==> pages[i] in home && home[pages[i]] == -1
    {
      assert Open(0);
      forall i: nat | k <= i < k + n ensures pages[i] in home && home[pages[i]] == -1 {
        assert pages[i].idx == i && (n < m ==> pages[k + n].idx == k + n);
      }
    }

    /** ngx_slab_alloc_pages once a long enough run is found (ngx_slab.c:626-656). */
    method Carve(page: Desc, n: nat, ghost m: nat, ghost j: nat)
      requires Linked() && 0 < |lists| && j < |lists[0]| && lists[0][j] == page && page in all && ToNat(page.slab) == m
      requires 0 <= page.idx && page.idx + m <= |pages| && 0 < n <= m && pages[page.idx] == page
      requires forall i: nat :: page.idx < i < page.idx + m ==> pages[i] in home && home[pages[i]] == -1
      modifies all, this`lists, this`home
      ensures Linked()
      ensures TakenLinks(pages, old(home), home, old(Snap(all)), Snap(all), page.idx, m, n)
      ensures TakenWords(pages, old(SlabSnap(all)), SlabSnap(all), page.idx, m, n)
    {
      ghost var lk, sl, home0 := Snap(all), SlabSnap(all), home;
      CutRun(page, n, m, j);
      ghost var lk1, sl1 := Snap(all), SlabSnap(all);
      CarveReady(page.idx, m, n, home0);
      Claim(page, n);
      CutClaimed(pages, home0, home, lk, lk1, Snap(all), sl, sl1, SlabSnap(all), page.idx, m, n);
    }

    method TakeRunAt(page: Desc, n: nat, ghost j: nat)
      requires Valid() && 0 < |lists| && j < |lists[0]| && lists[0][j] == page && 0 < n
      requires 0 <= page.idx < |pages| && st[page.idx].Free? && n <= st[page.idx].n
      modifies all, this`lists, this`home, this`st
      ensures Valid() && st == TakeRun(old(st), page.idx, n)
    {
      ghost var k, sl, lk, home0 := page.idx, SlabSnap(all), Snap(all), home;
      ListedPage(0, j);
      FreePage(k);
      FoldAll();
      Carve(page, n, st[k].n, j);
      ghost var sl2, lk2 := SlabSnap(all), Snap(all);
      TakeCore(minShift, st, pages, home0, home, lk, lk2, sl, sl2, words, k, n);
      SetState(TakeRun(st, k, n));
      FoldAll();
    }

    /** A page whose state calls for a list is in that list. */
    lemma InItsList(k: nat) returns (i: nat, j: nat)
      requires Valid() && k < |pages| && HomeOf(minShift, st[k]) >= 0
      ensures i == HomeOf(minShift, st[k]) && i < |lists| && j < |lists[i]| && lists[i][j] == pages[k]
        && pages[k].idx == k
    {
      Fold();
      FoldAll();
      assert Open(0);
      assert pages[k] in home;
      i := home[pages[k]];
      j :| 0 <= j < |lists[i]| && lists[i][j] == pages[k];
    }

    lemma ListHead(i: nat)
      requires Linked() && i <= |slots|
      ensures i < |lists| && Heads()[i] in all && Heads()[i].next == After(Heads()[i], lists[i], -1)
      ensures lists[i] == [] <==> Heads()[i].next == Heads()[i]
      ensures forall j :: 0 <= j < |lists[i]| ==> lists[i][j] != Heads()[i] && lists[i][j] in all
    {
      Fold();
      KnitHead(Snap(all), home, Heads(), lists, Tags(), i);
      forall j | 0 <= j < |lists[i]| ensures lists[i][j] != Heads()[i] && lists[i][j] in all {
        KnitMember(Snap(all), home, Heads(), lists, Tags(), i, j);
      }
    }

    /** ngx_slab_alloc_pages (ngx_slab.c:617-663): first fit on the free list. */
    method AllocPages(n: nat) returns (page: Desc?)
      requires Valid() && 0 < n
      modifies all, this`lists, this`home, this`st
      ensures Valid()
      ensures page == null ==> st == old(st) && forall k: nat :: k < |st| && st[k].Free? ==> st[k].n < n
      ensures page != null ==>
        && 0 <= page.idx < |pages| && pages[page.idx] == page
        && old(st)[page.idx].Free? && n <= old(st)[page.idx].n && st == TakeRun(old(st), page.idx, n)
    {
      ListHead(0);
      var p := free.next;
      ghost var j := 0;
      while p != free
        invariant 0 <= j <= |lists[0]| && p == After(free, lists[0], j - 1)
        invariant forall i :: 0 <= i < j ==>
          0 <= lists[0][i].idx < |pages| && st[lists[0][i].idx].Free? && st[lists[0][i].idx].n < n
        modifies {}
        decreases |lists[0]| - j
      {
        ListedPage(0, j);
        FreePage(p.idx);
        if ToNat(p.slab) >= n {
          break;
        }
        p := p.next;
        j := j + 1;
      }
      if p != free {
        page := p;
        TakeRunAt(page, n, j);
        return;
      }
      page := null;
      assert j == |lists[0]|;
      forall k: nat | k < |st| && st[k].Free? ensures st[k].n < n {
        var i, q := InItsList(k);
        assert lists[0][q].idx == k;
      }
    }

    lemma SlabPage(k: nat)
      requires Valid() && k < |pages| && st[k].Slab?
      ensures SlabOk(minShift, st[k]) && pages[k] in all && pages[k].idx == k && |words| == |pages|
        && Encodes(st, k, pages[k].slab, words[k])
      ensures home.Keys == all && home[pages[k]] == HomeOf(minShift, st[k])
      ensures home[pages[k]] == -1 ==> pages[k].next == null && pages[k].tag == PageTag(st[k])
    {
      Fold();
      FoldAll();
      assert Open(0);
      assert PageOk(st, minShift, k) && pages[k] in home;
    }

    /** Take a page without free chunks off its slot list (ngx_slab.c:229-235). */
    method Retire(page: Desc, tag: nat, ghost i: nat, ghost j: nat)
      requires Linked() && i < |lists| && j < |lists[i]| && lists[i][j] == page
      modifies all`next, all`prev, all`tag, this`lists, this`home
      ensures Linked() && home == old(home)[page := -1] && page in all && Snap(all)[page] == Link(null, null, tag)
      ensures Unhoused(old(Snap(all)), Snap(all), old(home), page) && SlabSnap(all) == old(SlabSnap(all))
    {
      Fold();
      KnitMember(Snap(all), home, Heads(), lists, Tags(), i, j);
      Detach(page, i, j);
      Fold();
      ghost var m := Snap(all);
      page.next := null;
      page.prev, page.tag := null, tag;
      LooseLinks(m);
    }

    method SetWords(k: nat, ws: seq<Word>)
      requires k < |words|
      modifies this`words
      ensures words == old(words)[k := ws] && Snap(all) == old(Snap(all)) && SlabSnap(all) == old(SlabSnap(all))
        && Linked() == old(Linked())
    {
      words := words[k := ws];
    }

    method SetSlab(page: Desc, w: Word)
      requires page in all
      modifies page`slab
      ensures SlabSnap(all) == old(SlabSnap(all))[page := w] && Snap(all) == old(Snap(all)) && Linked() == old(Linked())
    {
      page.slab := w;
    }

    /** After a chunk's bit is set: a full page leaves its list (ngx_slab.c:229-236, 261-269, 303-311). */
    method FinishUse(page: Desc, full: bool, tag: nat, ghost i: nat, ghost w: Word, ghost ws: seq<Word>,
        ghost sl: Slabs, ghost words0: seq<seq<Word>>, ghost li: nat, ghost lj: nat)
      requires Linked() && li < |lists| && lj < |lists[li]| && lists[li][lj] == page && page in all
      requires 0 <= page.idx < |pages| && pages[page.idx] == page && |st| == |pages| == |words0|
      requires Core(minShift, st, pages, home, Snap(all), sl, words0) && page in sl && page in home
        && home[page] == HomeOf(minShift, st[page.idx])
      requires var p := st[page.idx];
        p.Slab? && i < |p.used| && !p.used[i] && (full <==> Full(WithChunk(p, i, true))) && tag == ShiftTag(p.shift)
      requires SlabSnap(all) == sl[page := w] && words == words0[page.idx := ws]
      requires ChunkCode(st[page.idx].shift, st[page.idx].used[i := true], w, ws)
      modifies all`next, all`prev, all`tag, this`lists, this`home, this`st
      ensures Valid() && st == old(st)[page.idx := WithChunk(old(st)[page.idx], i, true)]
    {
      ghost var k, home0, lk := page.idx, home, Snap(all);
      if full {
        Retire(page, tag, li, lj);
      }
      Recoded(st, k, i, true, w, ws);
      UseCore(minShift, st, pages, home0, home, lk, Snap(all), sl, SlabSnap(all), words0, words, k, i, w, ws);
      SetState(st[k := WithChunk(st[k], i, true)]);
      FoldAll();
    }

    /** A page that a slot list offers for chunks of 2^shift bytes. */
    ghost predicate Offers(page: Desc, shift: nat, li: nat, lj: nat)
      reads this`lists, this`st
    {
      && li < |lists| && lj < |lists[li]| && lists[li][lj] == page && 0 <= page.idx < |pages| && pages[page.idx] == page
      && page.idx < |st| && st[page.idx].Slab? && !Full(st[page.idx]) && st[page.idx].shift == shift
    }

    /** What taking chunk `i` of a listed page has to know. */
    ghost predicate Picked(page: Desc, i: nat, full: bool, w: Word, ws: seq<Word>)
      reads this`home, this`st, this`words
    {
      && page in all && home.Keys == all && 0 <= page.idx < |st| && |words| == |st| && st[page.idx].Slab?
      && home[page] == HomeOf(minShift, st[page.idx]) && FirstFree(st[page.idx].used, i)
      && (full <==> Full(WithChunk(st[page.idx], i, true)))
      && ChunkCode(st[page.idx].shift, st[page.idx].used[i := true], w, ws)
    }

    /** The first free chunk of a listed small-slab page (ngx_slab.c:203-228). */
    method PickSmall(page: Desc, shift: nat, ghost li: nat, ghost lj: nat) returns (i: nat, full: bool, ws: seq<Word>)
      requires Valid() && Offers(page, shift, li, lj) && shift < EXACT_SHIFT
      ensures Picked(page, i, full, page.slab, ws)
    {
      SlabPage(page.idx);
      ws, i, full := TakeSmall(words[page.idx], shift, page.slab, st[page.idx].used);
    }

    /** A chunk from a listed small-slab page (ngx_slab.c:199-241). */
    method AllocSmall(page: Desc, shift: nat, ghost li: nat, ghost lj: nat) returns (i: nat)
      requires Valid() && Offers(page, shift, li, lj) && shift < EXACT_SHIFT
      modifies this`words, all`next, all`prev, all`tag, this`lists, this`home, this`st
      ensures Valid() && FirstFree(old(st)[page.idx].used, i)
        && st == old(st)[page.idx := WithChunk(old(st)[page.idx], i, true)]
    {
      ghost var sl, words0 := SlabSnap(all), words;
      var full, ws;
      i, full, ws := PickSmall(page, shift, li, lj);
      FoldAll();
      SetWords(page.idx, ws);
      Rewrite(sl, page);
      FinishUse(page, full, TAG_SMALL, i, page.slab, ws, sl, words0, li, lj);
    }

    method PickExact(page: Desc, ghost li: nat, ghost lj: nat) returns (i: nat, full: bool, slab: Word)
      requires Valid() && Offers(page, EXACT_SHIFT, li, lj)
      ensures page.idx < |words| && Picked(page, i, full, slab, words[page.idx])
    {
      SlabPage(page.idx);
      slab, i, full := TakeExact(page.slab);
    }

    /** A chunk from a listed exact-slab page (ngx_slab.c:251-277). */
    method AllocExact(page: Desc, ghost li: nat, ghost lj: nat) returns (i: nat)
      requires Valid() && Offers(page, EXACT_SHIFT, li, lj)
      modifies all`slab, all`next, all`prev, all`tag, this`lists, this`home, this`st
      ensures Valid() && FirstFree(old(st)[page.idx].used, i)
        && st == old(st)[page.idx := WithChunk(old(st)[page.idx], i, true)]
    {
      ghost var sl, words0 := SlabSnap(all), words;
      var full, slab;
      i, full, slab := PickExact(page, li, lj);
      FoldAll();
      SetSlab(page, slab);
      Restore(words, page.idx);
      FinishUse(page, full, TAG_EXACT, i, slab, words[page.idx], sl, words0, li, lj);
    }

    method PickBig(page: Desc, shift: nat, ghost li: nat, ghost lj: nat) returns (i: nat, full: bool, slab: Word)
      requires Valid() && Offers(page, shift, li, lj) && EXACT_SHIFT < shift
      ensures page.idx < |words| && Picked(page, i, full, slab, words[page.idx])
    {
      SlabPage(page.idx);
      slab, i, full := TakeBig(page.slab, shift, st[page.idx].used);
    }

    /** A chunk from a listed big-slab page (ngx_slab.c:285-319). */
    method AllocBig(page: Desc, shift: nat, ghost li: nat, ghost lj: nat) returns (i: nat)
      requires Valid() && Offers(page, shift, li, lj) && EXACT_SHIFT < shift
      modifies all`slab, all`next, all`prev, all`tag, this`lists, this`home, this`st
      ensures Valid() && FirstFree(old(st)[page.idx].used, i)
        && st == old(st)[page.idx := WithChunk(old(st)[page.idx], i, true)]
    {
      ghost var sl, words0 := SlabSnap(all), words;
      var full, slab;
      i, full, slab := PickBig(page, shift, li, lj);
      FoldAll();
      SetSlab(page, slab);
      Restore(words, page.idx);
      FinishUse(page, full, TAG_BIG, i, slab, words[page.idx], sl, words0, li, lj);
    }

    lemma RunPage(k: nat)
      requires Valid() && k < |pages| && st[k].Busy?
      ensures pages[k] in all && pages[k].idx == k && |words| == |pages| && Encodes(st, k, pages[k].slab, words[k])
      ensures home.Keys == all && home[pages[k]] == -1 && pages[k].next == null && pages[k].tag == TAG_PAGE
      ensures 0 < st[k].n && k + st[k].n <= |pages|
      ensures forall i: nat :: k < i < k + st[k].n ==> st[i] == Tail(k) && pages[i] in all && home[pages[i]] == -1
    {
      Fold();
      FoldAll();
      assert Open(0);
      assert PageOk(st, minShift, k) && pages[k] in home;
      forall i: nat | k < i < k + st[k].n ensures st[i] == Tail(k) && pages[i] in all && home[pages[i]] == -1 {
        assert pages[i] in home;
      }
    }

    lemma EmptyList(i: nat)
      requires Valid() && i < |lists| && forall k: nat :: k < |st| ==> HomeOf(minShift, st[k]) != i
      ensures lists[i] == []
    {
      if lists[i] != [] { ListedPage(i, 0); }
    }

    /** Put a page alone in the empty list of a slot (ngx_slab.c:350-353). */
    method StartList(h: Desc, page: Desc, tag: nat, ghost i: nat)
      requires Linked() && i < |lists| && i <= |slots| && h == Heads()[i] && tag == ListTag(i) && page in home
        && home[page] == -1 && lists[i] == []
      modifies all`next, all`prev, all`tag, this`lists, this`home
      ensures Linked() && home == old(home)[page := i]
      ensures Unhoused(old(Snap(all)), Snap(all), old(home), page) && SlabSnap(all) == old(SlabSnap(all))
    {
      Fold();
      ghost var m := Snap(all);
      KnitHead(m, home, Heads(), lists, Tags(), i);
      page.next := h;
      page.prev, page.tag := h, tag;
      h.next := page;
      KnitPush(m, Snap(all), home, Heads(), lists, Tags(), i, page);
      SetLists(lists[i := [page] + lists[i]], home[page := i]);
      Fold();
    }

    /** Write the descriptor word and bitmap of a fresh slab page (ngx_slab.c:330-349, 362, 375). */
    method WriteFresh(page: Desc, shift: nat) returns (ghost ws: seq<Word>)
      requires Linked() && page in all && 0 <= page.idx < |words| && |words[page.idx]| == BITMAP_WORDS
        && 3 <= shift <= MAX_SHIFT
      modifies this`words, page`slab
      ensures Linked() && Snap(all) == old(Snap(all))
      ensures SlabSnap(all) == old(SlabSnap(all))[page := page.slab] && words == old(words)[page.idx := ws]
      ensures ChunkCode(shift, FreshUsed(shift), page.slab, ws)
    {
      if shift < EXACT_SHIFT {
        var bitmap := FreshSmall(words[page.idx], shift);
        SetWords(page.idx, bitmap);
        SetSlab(page, FromNat(shift, 64));
        ws := bitmap;
      } else {
        ws := words[page.idx];
        if shift == EXACT_SHIFT {
          FreshExact();
          SetSlab(page, Zero()[0 := true]);
        } else {
          FreshBig(shift);
          SetSlab(page, FromNat(shift, 64)[32 := true]);
        }
      }
    }

    /** Turn a page just taken into a slab page (ngx_slab.c:329-385); its first chunk is handed out. */
    method InitSlab(page: Desc, shift: nat, slot: nat) returns (i: nat)
      requires Valid() && 0 <= page.idx < |pages| && pages[page.idx] == page && st[page.idx] == Busy(1)
      requires minShift <= shift <= MAX_SHIFT && slot == shift - minShift && slot < |slots|
      requires forall k: nat :: k < |st| ==> HomeOf(minShift, st[k]) != 1 + slot
      modifies this`words, all, this`lists, this`home, this`st
      ensures Valid() && i == Reserved(shift) && st == old(st)[page.idx := Slab(shift, FreshUsed(shift))]
    {
      ghost var sl, words0 := SlabSnap(all), words;
      RunPage(page.idx);
      FoldAll();
      EmptyList(1 + slot);
      ghost var ws := WriteFresh(page, shift);
      i := Reserved(shift);
      FinishInit(page, shift, slot, page.slab, ws, sl, words0);
    }

    method FinishInit(page: Desc, shift: nat, slot: nat, ghost w: Word, ghost ws: seq<Word>, ghost sl: Slabs,
        ghost words0: seq<seq<Word>>)
      requires Linked() && 0 <= page.idx < |pages| && pages[page.idx] == page && |st| == |pages| == |words0|
        && st[page.idx] == Busy(1)
      requires Core(minShift, st, pages, home, Snap(all), sl, words0) && page in sl && page in home && home[page] == -1
      requires minShift <= shift <= MAX_SHIFT && slot == shift - minShift && slot < |slots| && 1 + slot < |lists|
        && lists[1 + slot] == []
      requires SlabSnap(all) == sl[page := w] && words == words0[page.idx := ws]
      requires Encodes(st[page.idx := Slab(shift, FreshUsed(shift))], page.idx, w, ws)
      modifies all`next, all`prev, all`tag, this`lists, this`home, this`st
      ensures Valid() && st == old(st)[page.idx := Slab(shift, FreshUsed(shift))]
    {
      ghost var k, lk, home0 := page.idx, Snap(all), home;
      StartList(slots[slot], page, ShiftTag(shift), 1 + slot);
      FreshCore(minShift, st, pages, home0, lk, Snap(all), sl, SlabSnap(all), words0, words, k, shift, w, ws);
      SetState(st[k := Slab(shift, FreshUsed(shift))]);
      FoldAll();
    }

    /** `ngx_memzero(&page[1], pages * sizeof(ngx_slab_page_t))` */
    method ZeroTails(k: nat, n: nat)
      requires Static() && 0 < n && k + n <= |pages|
      modifies set i | k < i < k + n :: pages[i]
      ensures forall i :: k < i < k + n ==>
        pages[i].slab == Zero() && pages[i].next == null && pages[i].prev == null && pages[i].tag == TAG_PAGE
    {
      assert Open(0);
      var p := 1;
      while p < n
        invariant 1 <= p <= n
        invariant forall i :: k < i < k + p ==>
          pages[i].slab == Zero() && pages[i].next == null && pages[i].prev == null && pages[i].tag == TAG_PAGE
      {
        pages[k + p].slab := Zero();
        pages[k + p].next := null;
        pages[k + p].prev, pages[k + p].tag := null, TAG_PAGE;
        p := p + 1;
      }
    }

    /** The words of a run given back (ngx_slab.c:672-676). */
    method WriteFree(page: Desc, n: nat)
      requires Static() && 0 <= page.idx && 0 < n && page.idx + n <= |pages| && pages[page.idx] == page
      modifies set i | page.idx <= i < page.idx + n :: pages[i]
      ensures FreedWords(old(SlabSnap(all)), SlabSnap(all), page.idx, n)
      ensures forall d {:trigger Snap(all)[d]} :: d in all ==>
        Snap(all)[d] == if page.idx < d.idx < page.idx + n then Link(null, null, TAG_PAGE) else old(Snap(all))[d]
    {
      page.slab := FromNat(n, 64);
      ZeroTails(page.idx, n);
      assert Open(0);
      forall d | d in all
        ensures d.slab == if d.idx == page.idx then FromNat(n, 64)
          else if page.idx < d.idx < page.idx + n then Zero() else old(d.slab)
        ensures if page.idx < d.idx < page.idx + n then d.next == null && d.prev == null && d.tag == TAG_PAGE
                else d.next == old(d.next) && d.prev == old(d.prev) && d.tag == old(d.tag)
      {
        if page.idx <= d.idx < page.idx + n {
          assert pages[d.idx] == d;
        } else {
          assert forall i :: page.idx <= i < page.idx + n ==> pages[i] != d;
        }
      }
    }

    lemma StillLinked(k: nat, n: nat, m: Links)
      requires Static() && |lists| == 1 + |slots| && home.Keys == all && m.Keys == all && 0 < n && k + n <= |pages|
      requires Knit(m, home, Heads(), lists, Tags())
      requires forall i: nat :: k < i < k + n ==> pages[i] in home && home[pages[i]] == -1
      requires forall d {:trigger Snap(all)[d]} :: d in all && !(k < d.idx < k + n) ==> Snap(all)[d] == m[d]
      ensures Linked()
    {
      assert Open(0);
      forall d | d in all && home[d] != -1 ensures Snap(all)[d] == m[d] {}
      LooseLinks(m);
    }

    /** Move a page to the front of the free list, from its slot list or from no list (ngx_slab.c:678-689). */
    method Refile(page: Desc, ghost li: int, ghost lj: nat)
      requires Linked() && page in home && (page.next != null <==> li >= 0)
      requires if li >= 0 then li < |lists| && lj < |lists[li]| && lists[li][lj] == page else home[page] == -1
      modifies all`next, all`prev, all`tag, this`lists, this`home
      ensures Linked() && home == old(home)[page := 0] && SlabSnap(all) == old(SlabSnap(all))
      ensures Unhoused(old(Snap(all)), Snap(all), old(home), page)
    {
      Fold();
      if page.next != null {
        Detach(page, li, lj);
      }
      Attach(free, page, TAG_PAGE, 0);
    }

    /** ngx_slab_free_pages (ngx_slab.c:666-690). */
    method FreePages(page: Desc, n: nat, ghost li: int, ghost lj: nat)
      requires Linked() && 0 <= page.idx && 0 < n && page.idx + n <= |pages| && pages[page.idx] == page
      requires forall i: nat :: page.idx < i < page.idx + n ==> pages[i] in home && home[pages[i]] == -1
      requires page in home && (page.next != null <==> li >= 0)
      requires if li >= 0 then li < |lists| && lj < |lists[li]| && lists[li][lj] == page else home[page] == -1
      modifies all, this`lists, this`home
      ensures Linked() && home == old(home)[page := 0]
      ensures FreedWords(old(SlabSnap(all)), SlabSnap(all), page.idx, n)
      ensures FreedLinks(old(home), old(Snap(all)), Snap(all), page.idx, n)
    {
      Fold();
      ghost var m, sl, home0 := Snap(all), SlabSnap(all), home;
      WriteFree(page, n);
      StillLinked(page.idx, n, m);
      ghost var m1 := Snap(all);
      Refile(page, li, lj);
    }

    /**
     * The list type in a descriptor tells the kind of page; a descriptor is in no list exactly when its `next` is null.
     */
    lemma PageInfo(k: nat)
      requires Valid() && k < |pages|
      ensures pages[k] in all && pages[k].idx == k && pages[k].tag == PageTag(st[k])
      ensures pages[k].next == null <==> HomeOf(minShift, st[k]) == -1
    {
      Fold();
      FoldAll();
      assert PageOk(st, minShift, k) && pages[k] in all && pages[k].idx == k by { assert Open(0); }
      if HomeOf(minShift, st[k]) >= 0 {
        var i, j := InItsList(k);
        KnitMember(Snap(all), home, Heads(), lists, Tags(), i, j);
      } else {
        assert Open(0);
      }
    }

    lemma Listed(page: Desc, i: nat) returns (j: nat)
      requires Linked() && page in home && home[page] == i && i < |lists|
      ensures j < |lists[i]| && lists[i][j] == page && page.next != null
    {
      Fold();
      assert Open(0);
      j :| 0 <= j < |lists[i]| && lists[i][j] == page;
      KnitMember(Snap(all), home, Heads(), lists, Tags(), i, j);
    }

    /** A page that was full returns to its slot list (ngx_slab.c:447-457, 497-507, 536-546). */
    method Relist(page: Desc, shift: nat, full: bool)
      requires Linked() && page in home && minShift <= shift <= MAX_SHIFT
      requires home[page] == if full then -1 else 1 + shift - minShift
      modifies all`next, all`prev, all`tag, this`lists, this`home
      ensures Linked() && home == old(home)[page := 1 + shift - minShift] && SlabSnap(all) == old(SlabSnap(all))
      ensures Unhoused(old(Snap(all)), Snap(all), old(home), page)
    {
      if full {
        var slot := shift - minShift;
        Attach(slots[slot], page, ShiftTag(shift), 1 + slot);
      }
    }

    /**
     * Chunk `i` of a page is about to be given back: the page is in its slot list, nothing else has changed. Kept
     * folded.
     */
    ghost predicate Pending(page: Desc, shift: nat, i: nat, words0: seq<seq<Word>>, sl: Slabs, lk: Links, home0: Home)
      reads this`lists, this`home, this`st, all`next, all`prev, all`tag
    {
      && Linked() && 0 <= page.idx < |pages| && pages[page.idx] == page && |st| == |pages| && page in all
      && |words0| == |st| && page in sl && shift <= MAX_SHIFT
      && st[page.idx].Slab? && i < |st[page.idx].used| == Capacity(shift) && shift == st[page.idx].shift
      && forall q :: Open(q) ==>
        && home0.Keys == sl.Keys == lk.Keys == all && Core(minShift, st, pages, home0, lk, sl, words0)
        && minShift <= shift && Reserved(shift) <= i && st[page.idx].used[i]
        && home == home0[page := 1 + shift - minShift] && Unhoused(lk, Snap(all), home0, page)
    }

    lemma Unpend(page: Desc, shift: nat, i: nat, words0: seq<seq<Word>>, sl: Slabs, lk: Links, home0: Home)
      requires Pending(page, shift, i, words0, sl, lk, home0)
      ensures home0.Keys == sl.Keys == lk.Keys == all && Core(minShift, st, pages, home0, lk, sl, words0)
      ensures minShift <= shift && Reserved(shift) <= i && st[page.idx].used[i]
      ensures home == home0[page := 1 + shift - minShift] && Unhoused(lk, Snap(all), home0, page)
    {
      assert Open(0);
    }

    /** The page is put back in its slot list if it was full. */
    method Prepare(page: Desc, shift: nat, i: nat, full: bool)
        returns (ghost sl: Slabs, ghost lk: Links, ghost home0: Home)
      requires Valid() && Held(page, shift, i, full)
      modifies all`next, all`prev, all`tag, this`lists, this`home
      ensures Pending(page, shift, i, words, sl, lk, home0) && SlabSnap(all) == sl
    {
      sl, lk, home0 := SlabSnap(all), Snap(all), home;
      FoldAll();
      Relist(page, shift, full);
    }

    method StoreBitmap(page: Desc, ws: seq<Word>, ghost shift: nat, ghost i: nat, ghost sl: Slabs, ghost lk: Links,
        ghost home0: Home)
      requires Pending(page, shift, i, words, sl, lk, home0) && SlabSnap(all) == sl
      modifies this`words
      ensures Pending(page, shift, i, old(words), sl, lk, home0) && words == old(words)[page.idx := ws]
        && SlabSnap(all) == sl[page := sl[page]]
    {
      SetWords(page.idx, ws);
      Rewrite(sl, page);
    }

    method StoreSlab(page: Desc, w: Word, ghost shift: nat, ghost i: nat, ghost sl: Slabs, ghost lk: Links,
        ghost home0: Home)
      requires Pending(page, shift, i, words, sl, lk, home0) && SlabSnap(all) == sl
      modifies page`slab
      ensures Pending(page, shift, i, words, sl, lk, home0) && words == words[page.idx := words[page.idx]]
        && SlabSnap(all) == sl[page := w]
    {
      SetSlab(page, w);
      Restore(words, page.idx);
    }

    /**
     * After a chunk's bit is cleared: a page without chunks in use becomes free (ngx_slab.c:467-481, 511-517, 550-556).
     */
    method Settle(page: Desc, empty: bool, ghost shift: nat, ghost i: nat, ghost w: Word, ghost ws: seq<Word>,
        ghost sl: Slabs, ghost words0: seq<seq<Word>>, ghost lk: Links, ghost home0: Home)
      requires Pending(page, shift, i, words0, sl, lk, home0)
      requires empty <==> !HasLive(Slab(shift, st[page.idx].used[i := false]))
      requires SlabSnap(all) == sl[page := w] && words == words0[page.idx := ws]
      requires ChunkCode(shift, st[page.idx].used[i := false], w, ws)
      modifies all, this`lists, this`home, this`st
      ensures Valid() && st == old(st)[page.idx := Without(old(st)[page.idx], i)]
    {
      Unpend(page, shift, i, words0, sl, lk, home0);
      ghost var k := page.idx;
      if empty {
        Empty(page, w, sl, words0, lk, home0);
      } else {
        Recoded(st, k, i, false, w, ws);
        ReleaseCore(minShift, st, pages, home0, home, lk, Snap(all), sl, SlabSnap(all), words0, words, k, i, w, ws);
      }
      SetState(st[k := Without(st[k], i)]);
      FoldAll();
    }

    lemma OnlyPage(k: nat)
      requires Static() && k < |pages|
      ensures pages[k].idx == k && forall d :: d in all && d.idx == k ==> d == pages[k]
    {
      assert Open(0);
    }

    method Empty(page: Desc, ghost w: Word, ghost sl: Slabs, ghost words0: seq<seq<Word>>, ghost lk: Links,
        ghost home0: Home)
      requires Linked() && 0 <= page.idx < |pages| && pages[page.idx] == page && |st| == |pages| == |words0| == |words|
        && page in all
      requires home0.Keys == sl.Keys == lk.Keys == all && Core(minShift, st, pages, home0, lk, sl, words0)
      requires st[page.idx].Slab? && minShift <= st[page.idx].shift <= MAX_SHIFT
      requires home == home0[page := 1 + st[page.idx].shift - minShift] && Unhoused(lk, Snap(all), home0, page)
      requires SlabSnap(all) == sl[page := w] && |words[page.idx]| == BITMAP_WORDS
        && forall i: nat :: i < |words| && i != page.idx ==> words[i] == words0[i]
      modifies all, this`lists, this`home
      ensures Linked() && Core(minShift, st[page.idx := Free(1)], pages, home, Snap(all), SlabSnap(all), words)
    {
      ghost var k, lk1, home1, sl1 := page.idx, Snap(all), home, SlabSnap(all);
      ghost var li := 1 + st[k].shift - minShift;
      ghost var lj := Listed(page, li);
      OnlyPage(k);
      FreePages(page, 1, li, lj);
      EmptiedCore(minShift, st, pages, home0, home1, lk, lk1, Snap(all), sl, sl1, SlabSnap(all), words0, words, k, w,
        li);
    }

    /** Chunk `i` of a slab page is in use; `full` says whether the page is in no list. */
    ghost predicate Held(page: Desc, shift: nat, i: nat, full: bool)
      reads this`st, this`words, this`home, page`slab
    {
      && page in all && home.Keys == all && 0 <= page.idx < |pages| && pages[page.idx] == page
        && |words| == |st| == |pages|
      && st[page.idx].Slab? && st[page.idx].shift == shift && minShift <= shift <= MAX_SHIFT
      && |st[page.idx].used| == Capacity(shift) && Reserved(shift) <= i < |st[page.idx].used| && st[page.idx].used[i]
      && |words[page.idx]| == BITMAP_WORDS && ChunkCode(shift, st[page.idx].used, page.slab, words[page.idx])
      && home[page] == if full then -1 else 1 + shift - minShift
    }

    lemma Holding(page: Desc, shift: nat, i: nat)
      requires Valid() && 0 <= page.idx < |pages| && pages[page.idx] == page && st[page.idx].Slab?
        && st[page.idx].shift == shift && shift <= PAGE_SHIFT
      requires Reserved(shift) <= i < |st[page.idx].used| && st[page.idx].used[i]
      ensures Held(page, shift, i, page.next == null) && (page.next == null <==> Full(st[page.idx]))
    {
      SlabPage(page.idx);
      PageInfo(page.idx);
    }

    /** What clearing the bit of chunk `i` starts from. */
    ghost predicate Loaded(page: Desc, shift: nat, i: nat, sl: Slabs, lk: Links, home0: Home)
      reads this`lists, this`home, this`st, this`words, all
    {
      && Pending(page, shift, i, words, sl, lk, home0) && SlabSnap(all) == sl && minShift <= shift && 3 <= shift
      && |words[page.idx]| == BITMAP_WORDS && ChunkCode(shift, st[page.idx].used, page.slab, words[page.idx])
    }

    method Load(page: Desc, shift: nat, i: nat, full: bool)
        returns (ghost sl: Slabs, ghost lk: Links, ghost home0: Home)
      requires Valid() && Held(page, shift, i, full)
      modifies all`next, all`prev, all`tag, this`lists, this`home
      ensures Loaded(page, shift, i, sl, lk, home0)
    {
      sl, lk, home0 := Prepare(page, shift, i, full);
    }

    method DropSmall(page: Desc, shift: nat, i: nat, ghost sl: Slabs, ghost lk: Links, ghost home0: Home)
      requires shift < EXACT_SHIFT && Loaded(page, shift, i, sl, lk, home0)
      modifies all, this`words, this`lists, this`home, this`st
      ensures Valid() && st == old(st)[page.idx := Without(old(st)[page.idx], i)]
    {
      ghost var words0 := words;
      var ws, empty := ClearSmall(words[page.idx], shift, i, page.slab, st[page.idx].used);
      StoreBitmap(page, ws, shift, i, sl, lk, home0);
      Settle(page, empty, shift, i, sl[page], ws, sl, words0, lk, home0);
    }

    method DropExact(page: Desc, i: nat, ghost sl: Slabs, ghost lk: Links, ghost home0: Home)
      requires Loaded(page, EXACT_SHIFT, i, sl, lk, home0)
      modifies all, this`words, this`lists, this`home, this`st
      ensures Valid() && st == old(st)[page.idx := Without(old(st)[page.idx], i)]
    {
      ExactShape();
      var slab, empty := ClearExact(page.slab, i);
      StoreSlab(page, slab, EXACT_SHIFT, i, sl, lk, home0);
      Settle(page, empty, EXACT_SHIFT, i, slab, words[page.idx], sl, words, lk, home0);
    }

    method DropBig(page: Desc, shift: nat, i: nat, ghost sl: Slabs, ghost lk: Links, ghost home0: Home)
      requires EXACT_SHIFT < shift && Loaded(page, shift, i, sl, lk, home0)
      modifies all, this`words, this`lists, this`home, this`st
      ensures Valid() && st == old(st)[page.idx := Without(old(st)[page.idx], i)]
    {
      var slab, empty := ClearBig(page.slab, shift, i, st[page.idx].used);
      StoreSlab(page, slab, shift, i, sl, lk, home0);
      Settle(page, empty, shift, i, slab, words[page.idx], sl, words, lk, home0);
    }

    /** Give back a chunk in use of a slab page (ngx_slab.c:445-482, 496-518, 534-557). */
    method Release(page: Desc, shift: nat, i: nat, full: bool)
      requires Valid() && Held(page, shift, i, full)
      modifies all, this`words, this`lists, this`home, this`st
      ensures Valid() && st == old(st)[page.idx := Without(old(st)[page.idx], i)]
    {
      ghost var sl, lk, home0 := Load(page, shift, i, full);
      if shift < EXACT_SHIFT {
        DropSmall(page, shift, i, sl, lk, home0);
      } else if shift == EXACT_SHIFT {
        DropExact(page, i, sl, lk, home0);
      } else {
        DropBig(page, shift, i, sl, lk, home0);
      }
    }

    /**
     * What ngx_slab_free_locked reads off a slab page about the chunk at `p` (ngx_slab.c:433-445, 488-496, 524-534).
     */
    method Inspect(page: Desc, p: nat) returns (shift: nat, i: nat, busy: bool, full: bool)
      requires Valid() && 0 <= page.idx < |pages| && pages[page.idx] == page && st[page.idx].Slab?
      ensures shift == st[page.idx].shift <= PAGE_SHIFT && i == Index(p, shift) < |st[page.idx].used|
        && busy == st[page.idx].used[i]
      ensures busy && Reserved(shift) <= i ==> Held(page, shift, i, full)
    {
      ghost var k, used := page.idx, st[page.idx].used;
      SlabPage(k);
      PageInfo(k);
      if page.tag == TAG_EXACT {
        shift := EXACT_SHIFT;
        full := page.slab == AllBusy();
      } else {
        ShiftDecodes(st[k].shift, used, page.slab, words[k]);
        shift := WordShift(page.slab);
        full := page.next == null;
      }
      IndexBound(p, shift);
      i := Index(p, shift);
      busy := ChunkBit(page, shift, i);
      if busy && Reserved(shift) <= i {
        Holding(page, shift, i);
        if shift == EXACT_SHIFT { BusyIsFull(page.slab); }
      }
    }

    /** The bit of chunk `i`: in the page's bitmap, in the descriptor word, or in its high half. */
    method ChunkBit(page: Desc, shift: nat, i: nat) returns (busy: bool)
      requires 0 <= page.idx < |st| && |words| == |st| && st[page.idx].Slab? && st[page.idx].shift == shift
      requires i < |st[page.idx].used| && ChunkCode(shift, st[page.idx].used, page.slab, words[page.idx])
      ensures busy == st[page.idx].used[i]
    {
      if shift < EXACT_SHIFT {
        busy := words[page.idx][i / 64][i % 64];
      } else if shift == EXACT_SHIFT {
        busy := page.slab[i];
      } else {
        busy := page.slab[32 + i];
      }
    }

    lemma BusyIsFull(slab: Word)
      ensures slab == AllBusy() <==> Full(Slab(EXACT_SHIFT, slab))
    {
      if Full(Slab(EXACT_SHIFT, slab)) { assert slab == AllBusy(); }
    }

    /** A pointer into a slab page is given back (ngx_slab.c:431-559). */
    method FreeChunk(page: Desc, p: nat) returns (alert: Alert)
      requires Valid() && 0 <= page.idx < |pages| && pages[page.idx] == page && st[page.idx].Slab?
        && !InBitmap(st[page.idx], p)
      modifies all, this`words, this`lists, this`home, this`st
      ensures Valid() && old(st)[page.idx].shift <= PAGE_SHIFT
      ensures InUse(old(st)[page.idx], p) ==>
        alert == Quiet && st == old(st)[page.idx := Without(old(st)[page.idx], Index(p, old(st)[page.idx].shift))]
      ensures !InUse(old(st)[page.idx], p) ==>
        st == old(st) && alert == if Aligned(p, old(st)[page.idx].shift) then ChunkAlreadyFree else WrongChunk
    {
      var shift, i, busy, full := Inspect(page, p);
      if !Aligned(p, shift) {
        return WrongChunk;
      }
      if !busy {
        return ChunkAlreadyFree;
      }
      Release(page, shift, i, full);
      return Quiet;
    }

    lemma RunInfo(k: nat)
      requires Valid() && k < |pages| && !st[k].Slab?
      ensures |words| == |pages| && Encodes(st, k, pages[k].slab, words[k]) && pages[k].idx == k && home.Keys == all
        && pages[k] in all
      ensures IsRun(st[k]) ==>
        0 < st[k].n && k + st[k].n <= |pages| && home[pages[k]] == (if st[k].Free? then 0 else -1)
      ensures IsRun(st[k]) ==> forall i: nat :: k < i < k + st[k].n ==> pages[i] in home && home[pages[i]] == -1
      ensures st[k].Tail? ==> st[k].head < |pages| && IsRun(st[st[k].head])
    {
      Fold();
      FoldAll();
      assert Open(0);
      assert PageOk(st, minShift, k) && pages[k] in home;
      if IsRun(st[k]) {
        forall i: nat | k < i < k + st[k].n ensures pages[i] in home && home[pages[i]] == -1 {
          assert pages[i] in home;
        }
      }
    }

    /** The three kinds of descriptor word a page outside slabs can have. */
    lemma RunWords(n: nat)
      requires 0 < n < 0x8_0000_0000_0000
      ensures ToNat(FromNat(n, 64)[63 := false]) == n && ToNat(RunWord(n)[63 := false]) == n
      ensures FromNat(n, 64) != Zero() && FromNat(n, 64) != AllBusy() && RunWord(n) != Zero() && RunWord(n) != AllBusy()
    {
      BigPowers();
      RunWordDecodes(n);
      HighBits(n, 64, 63, 63);
      RoundTrip(n, 64);
      assert FromNat(n, 64)[63 := false] == FromNat(n, 64);
      ZeroIsZero();
    }

    /** Where the head of a run is listed: a free run in the free list, a busy run nowhere. */
    lemma RunPlace(k: nat) returns (li: int, lj: nat)
      requires Valid() && k < |pages| && IsRun(st[k])
      ensures pages[k].next != null <==> li >= 0
      ensures if li >= 0 then li < |lists| && lj < |lists[li]| && lists[li][lj] == pages[k]
        else pages[k] in home && home[pages[k]] == -1
    {
      RunInfo(k);
      PageInfo(k);
      li, lj := -1, 0;
      if st[k].Free? { li, lj := InItsList(k); }
    }

    /** The run headed by `page` is put at the front of the free list. */
    method FreeRun(page: Desc, n: nat)
      requires Valid() && 0 <= page.idx < |pages| && pages[page.idx] == page && IsRun(st[page.idx])
        && n == st[page.idx].n
      modifies all, this`lists, this`home, this`st
      ensures Valid() && st == old(st)[page.idx := Free(n)]
    {
      ghost var k, sl, lk, home0 := page.idx, SlabSnap(all), Snap(all), home;
      RunInfo(k);
      ghost var li, lj := RunPlace(k);
      FoldAll();
      FreePages(page, n, li, lj);
      RunFreeCore(minShift, st, pages, home0, lk, Snap(all), sl, SlabSnap(all), words, k);
      SetState(st[k := Free(n)]);
      FoldAll();
    }

    /** A pointer into a page outside slabs is given back (ngx_slab.c:561-587). */
    method FreeWhole(page: Desc, p: nat) returns (alert: Alert)
      requires Valid() && 0 <= page.idx < |pages| && pages[page.idx] == page && !st[page.idx].Slab?
      modifies all, this`lists, this`home, this`st
      ensures Valid()
      ensures p % PAGE_SIZE != 0 ==> alert == WrongChunk && st == old(st)
      ensures p % PAGE_SIZE == 0 ==>
        match old(st)[page.idx]
        case Busy(n) => alert == Quiet && st == old(st)[page.idx := Free(n)]
        case Free(n) => alert == Quiet && st == old(st)
        case Tail(h) => st == old(st) && h < |old(st)|
          && alert == if old(st)[h].Free? then PageAlreadyFree else WrongPage
        case _ => true
    {
      RunInfo(page.idx);
      if IsRun(st[page.idx]) { RunWords(st[page.idx].n); }
      if p % PAGE_SIZE != 0 {
        return WrongChunk;
      }
      assert Zero()[0] != AllBusy()[0];
      if page.slab == Zero() {
        return PageAlreadyFree;
      }
      if page.slab == AllBusy() {
        return WrongPage;
      }
      FreeRun(page, ToNat(page.slab[63 := false]));
      assert old(st) == old(st)[page.idx := old(st)[page.idx]];
      return Quiet;
    }

    lemma Sound()
      requires Valid()
      ensures WellFormed(st, minShift) && Static()
    {
      FoldAll();
      assert Open(0);
    }

    /**
     * Every live chunk is inside the pool, apart from every other, and apart from the bitmap of every small-slab page.
     */
    lemma LiveApart(c: Chunk)
      requires Valid() && Live(st, c)
      ensures c.len > 0 && start + c.off + c.len <= end
      ensures forall d :: Live(st, d) && d != c ==> Disjoint(c, d)
      ensures forall k: nat :: k < |st| && st[k].Slab? && st[k].shift < EXACT_SHIFT ==> Disjoint(c, Bitmap(st, k))
    {
      Sound();
      var j: nat :| j < |st| && LiveIn(st, j, c);
      LiveInside(st, minShift, j, c);
      MulLe(Extent(st, j).1, |st|, PAGE_SIZE);
      forall d | Live(st, d) && d != c ensures Disjoint(c, d) { LiveDisjoint(st, minShift, c, d); }
      forall k: nat | k < |st| && st[k].Slab? && st[k].shift < EXACT_SHIFT ensures Disjoint(c, Bitmap(st, k)) {
        BitmapApart(st, minShift, k, c);
      }
    }

    /**
     * Whoever holds a live chunk may write what they like to it: no page changes, and the pool stays as it has to be.
     */
    method ClientWrites(ghost c: Chunk, ws: seq<seq<Word>>)
      requires Valid() && Live(st, c) && Scribbled(words, ws, c)
      modifies this`words
      ensures Valid() && words == ws
    {
      FoldAll();
      ScribbleCore(minShift, st, pages, home, Snap(all), SlabSnap(all), words, ws, c);
      words := ws;
      FoldAll();
    }

    /**
     * Whether `p` may be handed to ngx_slab_free_locked: it must not fall past the descriptor array or into a page's
     * own bitmap.
     */
    ghost predicate Freeable(p: nat)
      reads this`st
    {
      start <= p <= end ==> (p - start) / PAGE_SIZE < |pages| == |st| && !InBitmap(st[(p - start) / PAGE_SIZE], p)
    }

    /** The descriptor of the page that holds `p` decides how it is given back. */
    method FreeAt(page: Desc, p: nat) returns (alert: Alert)
      requires Valid() && start <= p && page.idx == (p - start) / PAGE_SIZE < |pages| && pages[page.idx] == page
        && !InBitmap(st[page.idx], p)
      modifies all, this`words, this`lists, this`home, this`st
      ensures Valid()
      ensures LiveAt(old(st), p - start) ==>
        alert == Quiet && forall c :: Live(st, c) <==> Live(old(st), c) && c.off != p - start
      ensures !LiveAt(old(st), p - start) ==>
        st == old(st) && (alert == Quiet <==> st[page.idx].Free? && p % PAGE_SIZE == 0)
      ensures alert != OutsideOfPool
    {
      ghost var k, s := page.idx, st;
      Sound();
      PageInfo(k);
      LiveAtPage(s, minShift, start, p, k);
      if page.tag == TAG_PAGE {
        alert := FreeWhole(page, p);
        if s[k].Busy? && p % PAGE_SIZE == 0 { ReleaseRunNamed(s, minShift, start, p, k); }
      } else {
        alert := FreeChunk(page, p);
        if InUse(s[k], p) { ReleaseNamed(s, minShift, start, p, k); }
      }
    }

    /**
     * ngx_slab_free_locked (ngx_slab.c:409-614). A pointer to a live chunk takes exactly that chunk away. Any other
     * pointer changes no page; the one such mistake that raises no alert is a pointer to the head of a free run.
     */
    method FreeLocked(p: nat) returns (alert: Alert)
      requires Valid() && Freeable(p)
      modifies all, this`words, this`lists, this`home, this`st
      ensures Valid()
      ensures alert == OutsideOfPool <==> p < start || p > end
      ensures p < start || p > end ==> st == old(st)
      ensures start <= p <= end && LiveAt(old(st), p - start) ==>
        alert == Quiet && forall c :: Live(st, c) <==> Live(old(st), c) && c.off != p - start
      ensures start <= p <= end && !LiveAt(old(st), p - start) ==>
        st == old(st) && (alert == Quiet <==> st[(p - start) / PAGE_SIZE].Free? && p % PAGE_SIZE == 0)
    {
      if p < start || p > end {
        return OutsideOfPool;
      }
      var n := (p - start) / PAGE_SIZE;
      PageInfo(n);
      alert := FreeAt(pages[n], p);
    }

    /** `shift = 1; for (s = size - 1; s >>= 1; shift++)`: the least power of two that holds `size`. */
    method ShiftFor(size: nat) returns (shift: nat)
      requires 2 <= size
      ensures 1 <= shift && Pow2(shift - 1) < size <= Pow2(shift)
    {
      shift := 1;
      var s := (size - 1) / 2;
      assert Pow2(1) == 2;
      ghost var unit := 1;
      while s > 0
        invariant shift >= 1 && unit == Pow2(shift - 1) && s * (2 * unit) <= size - 1 < (s + 1) * (2 * unit)
        invariant unit <= size - 1
        decreases s
      {
        Halve(s, 2 * unit, size - 1);
        s := s / 2;
        shift := shift + 1;
        unit := 2 * unit;
      }
    }

    lemma Halve(s: nat, u: nat, x: nat)
      requires 0 < s && s * u <= x < (s + 1) * u
      ensures s / 2 * (2 * u) <= x < (s / 2 + 1) * (2 * u) && u <= x
    {
      assert s / 2 * (2 * u) == 2 * (s / 2) * u;
      MulLe(2 * (s / 2), s, u);
      assert (s / 2 + 1) * (2 * u) == (2 * (s / 2) + 2) * u;
      MulLe(s + 1, 2 * (s / 2) + 2, u);
      MulLe(1, s, u);
    }

    /** Exactly the chunk `c` has become live. */
    ghost predicate Took(s: Pages, s': Pages, c: Chunk) {
      !Live(s, c) && forall d :: Live(s', d) <==> Live(s, d) || d == c
    }

    /** An allocation of whole pages (ngx_slab.c:160-176). */
    method AllocRun(size: nat) returns (p: nat, ghost c: Chunk)
      requires Valid() && 0 < size
      modifies all, this`lists, this`home, this`st
      ensures Valid()
      ensures p != 0 ==>
        p == start + c.off && p % PAGE_SIZE == 0 && size <= c.len < size + PAGE_SIZE && Took(old(st), st, c)
      ensures p == 0 ==> st == old(st) && forall k: nat :: k < |st| && st[k].Free? ==> st[k].n * PAGE_SIZE < size
    {
      ghost var s := st;
      Sound();
      var n := size / PAGE_SIZE + (if size % PAGE_SIZE != 0 then 1 else 0);
      var page := AllocPages(n);
      if page == null {
        return 0, Chunk(0, 0);
      }
      p := page.idx * PAGE_SIZE + start;
      c := Chunk(page.idx * PAGE_SIZE, n * PAGE_SIZE);
      forall d ensures Live(st, d) <==> Live(s, d) || d == c {
        TakeRunLive(s, minShift, page.idx, n, d);
      }
      TakeRunLive(s, minShift, page.idx, n, c);
    }

    /** The first page of a slot's list, if there is one (ngx_slab.c:193-195). */
    method FirstListed(slot: nat) returns (page: Desc, found: bool)
      requires Valid() && slot < |slots|
      ensures found ==> Offers(page, minShift + slot, 1 + slot, 0)
      ensures !found ==> forall k: nat :: k < |st| ==> HomeOf(minShift, st[k]) != 1 + slot
    {
      ListHead(1 + slot);
      page := slots[slot].next;
      if lists[1 + slot] != [] {
        ListedPage(1 + slot, 0);
        Fold();
        KnitMember(Snap(all), home, Heads(), lists, Tags(), 1 + slot, 0);
      } else {
        forall k: nat | k < |st| ensures HomeOf(minShift, st[k]) != 1 + slot {
          if HomeOf(minShift, st[k]) == 1 + slot { var i, j := InItsList(k); }
        }
      }
      found := page.next != page;
    }

    /** A chunk from a page that has one to spare (ngx_slab.c:197-324). */
    method AllocListed(page: Desc, shift: nat, ghost li: nat, ghost lj: nat) returns (p: nat, ghost c: Chunk)
      requires Valid() && Offers(page, shift, li, lj)
      modifies all, this`words, this`lists, this`home, this`st
      ensures Valid() && p == start + c.off && Aligned(p, shift) && c.len == Pow2(shift) && Took(old(st), st, c)
    {
      ghost var s := st;
      var k, i := page.idx, 0;
      Sound();
      assert PageOk(s, minShift, k);
      if shift < EXACT_SHIFT {
        i := AllocSmall(page, shift, li, lj);
      } else if shift == EXACT_SHIFT {
        i := AllocExact(page, li, lj);
      } else {
        i := AllocBig(page, shift, li, lj);
      }
      p := k * PAGE_SIZE + i * Pow2(shift) + start;
      c := ChunkOf(k, shift, i);
      UseChunk(s, minShift, k, i);
      Address(k, shift, i, p);
    }

    lemma Address(k: nat, shift: nat, i: nat, p: nat)
      requires Static() && shift <= PAGE_SHIFT && i < Capacity(shift) && p == start + ChunkOf(k, shift, i).off
      ensures Aligned(p, shift)
    {
      ChunkInside(k, shift, i);
      assert (p - start) / PAGE_SIZE == k;
      Named(start, p, shift, i);
    }

    /** A chunk from a page newly cut up (ngx_slab.c:327-388). */
    method AllocFresh(shift: nat, slot: nat) returns (p: nat, ghost c: Chunk)
      requires Valid() && slot < |slots| && shift == minShift + slot
      requires forall k: nat :: k < |st| ==> HomeOf(minShift, st[k]) != 1 + slot
      modifies all, this`words, this`lists, this`home, this`st
      ensures Valid()
      ensures p != 0 ==> p == start + c.off && Aligned(p, shift) && c.len == Pow2(shift) && Took(old(st), st, c)
      ensures p == 0 ==> st == old(st) && forall k: nat :: k < |st| ==> !st[k].Free?
    {
      ghost var s := st;
      Sound();
      var page := AllocPages(1);
      if page == null {
        forall k: nat | k < |s| ensures !s[k].Free? {
          assert PageOk(s, minShift, k);
        }
        return 0, Chunk(0, 0);
      }
      ghost var k := page.idx;
      var i := InitSlab(page, shift, slot);
      p := page.idx * PAGE_SIZE + i * Pow2(shift) + start;
      c := ChunkOf(k, shift, i);
      NewSlab(s, minShift, k, shift);
      ReservedFits(shift);
      Address(k, shift, i, p);
    }

    /** Which slot serves a request below half a page (ngx_slab.c:178-187). */
    method SlotFor(size: nat) returns (shift: nat, slot: nat)
      requires Static() && size < PAGE_SIZE / 2
      ensures slot < |slots| && shift == minShift + slot && size <= Pow2(shift)
      ensures slot > 0 ==> Pow2(shift - 1) < size
    {
      assert Pow2(3) == 8 && Pow2(11) == 2048;
      Monotone(3, minShift);
      if size > Pow2(minShift) {
        shift := ShiftFor(size);
        if shift <= minShift { Monotone(shift, minShift); }
        if 11 < shift { Monotone(11, shift - 1); }
        slot := shift - minShift;
      } else {
        shift := minShift;
        slot := 0;
      }
    }

    lemma {:induction false} Monotone(a: nat, b: nat)
      requires a <= b
      ensures Pow2(a) <= Pow2(b)
    {
      if a < b { Monotone(a, b - 1); }
    }

    /** No page has a chunk of 2^shift bytes to spare and no page is free. */
    ghost predicate Exhausted(s: Pages, shift: nat) {
      forall k: nat :: k < |s| ==> !s[k].Free? && !(s[k].Slab? && s[k].shift == shift && !Full(s[k]))
    }

    /**
     * ngx_slab_alloc_locked (ngx_slab.c:152-395). Exactly one new chunk becomes live, large enough, and aligned to its
     * size when cut from a slab page; 0 is returned only when nothing that could serve the request is left.
     */
    method AllocLocked(size: nat) returns (p: nat, ghost c: Chunk)
      requires Valid()
      modifies all, this`words, this`lists, this`home, this`st
      ensures Valid()
      ensures p != 0 ==> p == start + c.off && c.len >= size && Took(old(st), st, c)
      ensures p != 0 && size >= PAGE_SIZE / 2 ==> p % PAGE_SIZE == 0 && c.len < size + PAGE_SIZE
      ensures p != 0 && size < PAGE_SIZE / 2 ==>
        exists shift: nat :: SlotShift(size, shift) && c.len == Pow2(shift) && Aligned(p, shift)
      ensures p == 0 ==> st == old(st)
      ensures p == 0 && size >= PAGE_SIZE / 2 ==>
        forall k: nat :: k < |st| && st[k].Free? ==> st[k].n * PAGE_SIZE < size
      ensures p == 0 && size < PAGE_SIZE / 2 ==> exists shift: nat :: SlotShift(size, shift) && Exhausted(st, shift)
    {
      Sound();
      if size >= PAGE_SIZE / 2 {
        p, c := AllocRun(size);
        return;
      }
      var shift, slot := SlotFor(size);
      assert SlotShift(size, shift);
      var page, found := FirstListed(slot);
      if found {
        p, c := AllocListed(page, shift, 1 + slot, 0);
      } else {
        p, c := AllocFresh(shift, slot);
        if p == 0 {
          forall k: nat | k < |st| ensures !st[k].Free? && !(st[k].Slab? && st[k].shift == shift && !Full(st[k])) {
            assert HomeOf(minShift, st[k]) != 1 + slot;
          }
          assert Exhausted(st, shift);
        }
      }
    }

    /** The slot for a request: the least power of two that holds it, but at least 2^minShift. */
    ghost predicate SlotShift(size: nat, shift: nat) {
      minShift <= shift <= MAX_SHIFT && size <= Pow2(shift) && (minShift < shift ==> Pow2(shift - 1) < size)
    }
  }
}
