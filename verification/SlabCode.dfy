/** How the descriptor words and in-page bitmaps encode the state of the pages. */
module SlabCode {
  import opened SlabWord
  import opened SlabState
  import opened SlabRing

  const BITMAP_WORDS := 8

  /** One page's descriptor word and bitmap words say what state the page is in (ngx_slab.c:349-377, 641-652). */
  ghost predicate Encodes(s: Pages, k: nat, slab: Word, words: seq<Word>)
    requires k < |s|
  {
    && |words| == BITMAP_WORDS
    && PageCode(s, k, slab, words)
  }

  ghost predicate PageCode(s: Pages, k: nat, slab: Word, words: seq<Word>)
    requires k < |s|
  {
    match s[k]
    case Free(n) => slab == FromNat(n, 64)
    case Busy(n) => slab == RunWord(n)
    case Tail(h) => h < |s| && (if s[h].Busy? then slab == AllBusy() else slab == Zero())
    case Slab(shift, used) => ChunkCode(shift, used, slab, words)
  }

  ghost predicate ChunkCode(shift: nat, used: seq<bool>, slab: Word, words: seq<Word>) {
    && |words| == BITMAP_WORDS
    && if shift < EXACT_SHIFT then SmallCode(shift, used, slab, words)
       else if shift == EXACT_SHIFT then used == slab
       else BigCode(shift, used, slab)
  }

  /** The descriptor holds the shift; chunk i is bit i % 64 of word i / 64 of the page's own bitmap. */
  ghost predicate SmallCode(shift: nat, used: seq<bool>, slab: Word, words: seq<Word>) {
    slab == FromNat(shift, 64) && |used| <= 64 * |words|
      && forall i :: 0 <= i < |used| ==> used[i] == words[i / 64][i % 64]
  }

  /** The shift is in the low half of the descriptor word, the chunk map in the high half. */
  ghost predicate BigCode(shift: nat, used: seq<bool>, slab: Word) {
    && |used| <= 32 && slab[..32] == FromNat(shift, 32)
    && forall q :: 32 <= q < 64 ==> slab[q] == (q - 32 < |used| && used[q - 32])
  }

  /** Descriptors know their place. */
  ghost predicate Indexed(pages: seq<Desc>) {
    forall i: nat {:trigger pages[i]} :: i < |pages| ==> pages[i].idx == i
  }

  type Slabs = map<Desc, Word>

  ghost function SlabSnap(ds: set<Desc>): (m: Slabs)
    reads ds`slab
    ensures m.Keys == ds
  {
    map d | d in ds :: d.slab
  }

  ghost predicate Coded(s: Pages, pages: seq<Desc>, sl: Slabs, words: seq<seq<Word>>) {
    && |s| == |pages| == |words|
    && forall k: nat :: k < |s| ==> pages[k] in sl && Encodes(s, k, sl[pages[k]], words[k])
  }

  /** The descriptor words after `n` pages are taken from the free run of `m` pages at `k`. */
  ghost predicate TakenWords(pages: seq<Desc>, sl: Slabs, sl': Slabs, k: nat, m: nat, n: nat)
    requires 0 < n <= m && k + m <= |pages|
  {
    && sl'.Keys == sl.Keys && pages[k] in sl' && sl'[pages[k]] == RunWord(n)
    && (n < m ==> pages[k + n] in sl' && sl'[pages[k + n]] == FromNat(m - n, 64))
    && (forall i :: k < i < k + n ==> pages[i] in sl' && sl'[pages[i]] == AllBusy())
    && (forall d :: d in sl && !(k <= d.idx < k + n) && (n < m ==> d != pages[k + n]) ==> sl'[d] == sl[d])
  }

  lemma TakeCoded(s: Pages, minShift: nat, pages: seq<Desc>, sl: Slabs, sl': Slabs, words: seq<seq<Word>>, k: nat,
      n: nat)
    requires WellFormed(s, minShift) && Coded(s, pages, sl, words) && k < |s| && s[k].Free? && 0 < n <= s[k].n
    requires k + s[k].n <= |s| && TakenWords(pages, sl, sl', k, s[k].n, n) && Indexed(pages)
    ensures Coded(TakeRun(s, k, n), pages, sl', words)
  {
    var s', m := TakeRun(s, k, n), s[k].n;
    assert PageOk(s, minShift, k);
    forall i: nat | i < |s'| ensures pages[i] in sl' && Encodes(s', i, sl'[pages[i]], words[i]) {
      assert PageOk(s, minShift, i) && pages[i].idx == i && pages[i] in sl && Encodes(s, i, sl[pages[i]], words[i]);
      if s[i].Tail? && !(k <= i < k + m) {
        assert PageOk(s, minShift, s[i].head);
      }
    }
  }
}
