/** Which chunk an address names. */
module SlabAddr {
  import opened SlabWord
  import opened SlabState
  import opened SlabCode
  import opened SlabScan

  // Shifting right by `shift` and masking with `size - 1` are division by the chunk size

  function Div(a: nat, u: nat): (q: nat)
    requires u > 0
    ensures q * u <= a < q * u + u
  {
    a / u
  }

  function Mod(a: nat, u: nat): (r: nat)
    requires u > 0
    ensures r < u && a == Div(a, u) * u + r
  {
    a - Div(a, u) * u
  }

  lemma Unique(a: nat, u: nat, q: nat, r: nat)
    requires r < u && a == q * u + r
    ensures Div(a, u) == q && Mod(a, u) == r
  {
    if Div(a, u) < q { MulLe(Div(a, u) + 1, q, u); } else if q < Div(a, u) { MulLe(q + 1, Div(a, u), u); }
  }

  /** The chunk of a page that address `p` lies in: `(p & (pagesize - 1)) >> shift`. */
  function Index(p: nat, shift: nat): nat { Div(p % PAGE_SIZE, Pow2(shift)) }

  /** `p & (size - 1)` is zero. */
  predicate Aligned(p: nat, shift: nat) { Mod(p, Pow2(shift)) == 0 }

  lemma IndexBound(p: nat, shift: nat)
    requires shift <= PAGE_SHIFT
    ensures Index(p, shift) < Capacity(shift)
  {
    PowCap(shift);
    if Capacity(shift) <= Index(p, shift) { MulLe(Capacity(shift), Index(p, shift), Pow2(shift)); }
  }

  lemma AlignedInPage(p: nat, shift: nat)
    requires shift <= PAGE_SHIFT
    ensures Mod(p, Pow2(shift)) == Mod(p % PAGE_SIZE, Pow2(shift))
  {
    PowCap(shift);
    Assoc(p / PAGE_SIZE, Capacity(shift), Pow2(shift));
    ModOffset(p, p / PAGE_SIZE * Capacity(shift), p % PAGE_SIZE, Pow2(shift));
  }

  lemma ModOffset(p: nat, q: nat, r: nat, u: nat)
    requires u > 0 && p == q * u + r
    ensures Mod(p, u) == Mod(r, u)
  {
    Distrib(q, Div(r, u), u);
    Unique(p, u, q + Div(r, u), Mod(r, u));
  }

  lemma Assoc(a: nat, b: nat, c: nat)
    ensures a * (b * c) == (a * b) * c
  {}

  lemma Distrib(a: nat, b: nat, c: nat)
    ensures (a + b) * c == a * c + b * c
  {}

  /** An address names a chunk's first byte exactly when it is aligned, and then it is the chunk at its index. */
  lemma Named(start: nat, p: nat, shift: nat, j: nat)
    requires start % PAGE_SIZE == 0 && start <= p && shift <= PAGE_SHIFT
    ensures Aligned(p, shift) && j == Index(p, shift) <==> ChunkOf((p - start) / PAGE_SIZE, shift, j).off == p - start
  {
    AlignedInPage(p, shift);
    var r, u := p % PAGE_SIZE, Pow2(shift);
    assert p - start == (p - start) / PAGE_SIZE * PAGE_SIZE + r;
    if j * u == r { Unique(r, u, j, 0); }
  }

  /** A live chunk starts in the page that holds it. */
  lemma StartPage(s: Pages, minShift: nat, k: nat, c: Chunk)
    requires WellFormed(s, minShift) && k < |s| && LiveIn(s, k, c)
    ensures c.off / PAGE_SIZE == k
  {
    assert PageOk(s, minShift, k);
    if s[k].Slab? {
      var i: nat :| Reserved(s[k].shift) <= i < |s[k].used| && s[k].used[i] && c == ChunkOf(k, s[k].shift, i);
      ChunkInside(k, s[k].shift, i);
    }
  }

  /** Some live chunk starts at offset `off`. */
  ghost predicate LiveAt(s: Pages, off: nat) {
    exists c :: Live(s, c) && c.off == off
  }

  /** Address `p` is the first byte of a chunk in use of slab page `q`. */
  ghost predicate InUse(q: Page, p: nat)
    requires q.Slab? && q.shift <= PAGE_SHIFT
  {
    Aligned(p, q.shift) && Index(p, q.shift) < |q.used| && q.used[Index(p, q.shift)]
  }

  /** The address falls in the bitmap at the front of a small-slab page. */
  ghost predicate InBitmap(q: Page, p: nat) {
    q.Slab? && q.shift <= PAGE_SHIFT && Index(p, q.shift) < Reserved(q.shift)
  }

  lemma OnlyHere(s: Pages, minShift: nat, off: nat)
    requires WellFormed(s, minShift) && off / PAGE_SIZE < |s|
    ensures forall c :: Live(s, c) && c.off == off ==> LiveIn(s, off / PAGE_SIZE, c)
  {
    forall c | Live(s, c) && c.off == off ensures LiveIn(s, off / PAGE_SIZE, c) {
      var j: nat :| j < |s| && LiveIn(s, j, c);
      StartPage(s, minShift, j, c);
    }
  }

  lemma LiveAtRun(s: Pages, minShift: nat, off: nat)
    requires WellFormed(s, minShift) && off / PAGE_SIZE < |s| && s[off / PAGE_SIZE].Busy?
    ensures LiveAt(s, off) <==> off % PAGE_SIZE == 0
  {
    var k := off / PAGE_SIZE;
    OnlyHere(s, minShift, off);
    var c := Chunk(k * PAGE_SIZE, s[k].n * PAGE_SIZE);
    assert LiveIn(s, k, c) && Live(s, c);
  }

  /** Whether a live chunk starts at an address, read off the state of the one page it lies in. */
  lemma LiveAtPage(s: Pages, minShift: nat, start: nat, p: nat, k: nat)
    requires WellFormed(s, minShift) && start % PAGE_SIZE == 0 && start <= p && k == (p - start) / PAGE_SIZE && k < |s|
      && !InBitmap(s[k], p)
    ensures LiveAt(s, p - start) <==>
      match s[k]
      case Busy(_) => p % PAGE_SIZE == 0
      case Slab(shift, _) => shift <= PAGE_SHIFT && InUse(s[k], p)
      case _ => false
  {
    assert PageOk(s, minShift, k);
    OnlyHere(s, minShift, p - start);
    if s[k].Busy? {
      LiveAtRun(s, minShift, p - start);
      assert p % PAGE_SIZE == (p - start) % PAGE_SIZE;
    } else if s[k].Slab? {
      LiveAtSlab(s, minShift, start, p, k);
    }
  }

  lemma LiveAtSlab(s: Pages, minShift: nat, start: nat, p: nat, k: nat)
    requires WellFormed(s, minShift) && start % PAGE_SIZE == 0 && start <= p && k == (p - start) / PAGE_SIZE && k < |s|
    requires s[k].Slab? && SlabOk(minShift, s[k]) && !InBitmap(s[k], p)
    requires forall c :: Live(s, c) && c.off == p - start ==> LiveIn(s, k, c)
    ensures LiveAt(s, p - start) <==> InUse(s[k], p)
  {
    var shift, used := s[k].shift, s[k].used;
    IndexBound(p, shift);
    if LiveAt(s, p - start) {
      var c :| Live(s, c) && c.off == p - start;
      var i: nat :| Reserved(shift) <= i < |used| && used[i] && c == ChunkOf(k, shift, i);
      Named(start, p, shift, i);
    }
    if InUse(s[k], p) {
      var i := Index(p, shift);
      Named(start, p, shift, i);
      assert used[i] && LiveIn(s, k, ChunkOf(k, shift, i)) && Live(s, ChunkOf(k, shift, i));
    }
  }

  /** Giving back the chunk an address names takes away exactly the live chunk that starts there. */
  lemma ReleaseNamed(s: Pages, minShift: nat, start: nat, p: nat, k: nat)
    requires WellFormed(s, minShift) && start % PAGE_SIZE == 0 && start <= p && k == (p - start) / PAGE_SIZE && k < |s|
    requires s[k].Slab? && s[k].shift <= PAGE_SHIFT && InUse(s[k], p) && !InBitmap(s[k], p)
    ensures forall c :: Live(s[k := Without(s[k], Index(p, s[k].shift))], c) <==> Live(s, c) && c.off != p - start
  {
    var shift, i := s[k].shift, Index(p, s[k].shift);
    assert PageOk(s, minShift, k);
    Named(start, p, shift, i);
    ReleaseChunk(s, minShift, k, i);
    var s', d := s[k := Without(s[k], i)], ChunkOf(k, shift, i);
    forall c ensures Live(s', c) <==> Live(s, c) && c.off != p - start {
      if Live(s, c) && c != d { StartsApart(s, minShift, c, d); }
    }
  }

  lemma StartsApart(s: Pages, minShift: nat, c: Chunk, d: Chunk)
    requires WellFormed(s, minShift) && Live(s, c) && Live(s, d) && c != d
    ensures c.off != d.off
  {
    LiveDisjoint(s, minShift, c, d);
    var j: nat :| j < |s| && LiveIn(s, j, c);
    LiveInside(s, minShift, j, c);
    var k: nat :| k < |s| && LiveIn(s, k, d);
    LiveInside(s, minShift, k, d);
  }

  lemma ReleaseRunNamed(s: Pages, minShift: nat, start: nat, p: nat, k: nat)
    requires WellFormed(s, minShift) && start % PAGE_SIZE == 0 && start <= p && k == (p - start) / PAGE_SIZE && k < |s|
    requires s[k].Busy? && p % PAGE_SIZE == 0
    ensures forall c :: Live(s[k := Free(s[k].n)], c) <==> Live(s, c) && c.off != p - start
  {
    assert PageOk(s, minShift, k);
    ReleaseRun(s, minShift, k);
    var s', d := s[k := Free(s[k].n)], Chunk(k * PAGE_SIZE, s[k].n * PAGE_SIZE);
    assert d.off == p - start;
    forall c ensures Live(s', c) <==> Live(s, c) && c.off != p - start {
      if Live(s, c) && c != d { StartsApart(s, minShift, c, d); }
    }
  }

  // Clearing a chunk's bit, and whether that was the last one in use

  /** `w & ~((1 << n) - 1)`: some bit from `n` on is set. */
  predicate HighSet(w: Word, n: nat)
    requires n <= 64
  {
    w[n..] != seq(64 - n, i => false)
  }

  lemma HighSetMeans(w: Word, n: nat)
    requires n <= 64
    ensures HighSet(w, n) <==> exists j :: n <= j < 64 && w[j]
  {
    if HighSet(w, n) {
      var j :| 0 <= j < 64 - n && w[n..][j];
      assert w[n + j];
    }
    if j :| n <= j < 64 && w[j] {
      assert w[n..][j - n];
    }
  }

  /** In a small-slab bitmap (ngx_slab.c:459-477). */
  method ClearSmall(ws: seq<Word>, shift: nat, i: nat, ghost slab: Word, ghost used: seq<bool>)
      returns (ws': seq<Word>, empty: bool)
    requires 3 <= shift < EXACT_SHIFT && |used| == Capacity(shift) && SmallCode(shift, used, slab, ws)
      && |ws| == BITMAP_WORDS
    requires i < |used|
    ensures |ws'| == |ws| && SmallCode(shift, used[i := false], slab, ws')
    ensures empty <==> !HasLive(Slab(shift, used[i := false]))
  {
    SmallShape(shift);
    var q := i / 64;
    ws' := ws[q := ws[q][i % 64 := false]];
    SmallBit(shift, used, slab, ws, q, i % 64, false);
    assert 64 * q + i % 64 == i;
    var n := Pow2(PAGE_SHIFT - shift) / 8 / Pow2(shift);
    if n == 0 {
      n := 1;
    }
    HighSetMeans(ws'[0], n);
    SmallLive(shift, used[i := false], slab, ws');
    if HighSet(ws'[0], n) {
      empty := false;
    } else {
      var more := AnySet(ws', 1, MapWords(shift));
      empty := !more;
    }
  }

  /** Some bit of the bitmap other than those of its own chunks is set. */
  ghost predicate BitLeft(ws: seq<Word>, reserved: nat, count: nat)
    requires 0 < count <= |ws|
  {
    (exists j :: reserved <= j < 64 && ws[0][j]) || (exists n, j :: 1 <= n < count && 0 <= j < 64 && ws[n][j])
  }

  lemma LiveBit(used: seq<bool>, ws: seq<Word>, reserved: nat, count: nat)
    requires 0 < count <= |ws| && |used| == 64 * count && forall i :: 0 <= i < |used| ==> used[i] == ws[i / 64][i % 64]
    requires exists i :: reserved <= i < |used| && used[i]
    ensures BitLeft(ws, reserved, count)
  {
    var i :| reserved <= i < |used| && used[i];
    var n, j := i / 64, i % 64;
    assert ws[n][j];
    if n == 0 { assert ws[0][i]; }
  }

  lemma BitLive(used: seq<bool>, ws: seq<Word>, reserved: nat, count: nat)
    requires 0 < count <= |ws| && |used| == 64 * count && forall i :: 0 <= i < |used| ==> used[i] == ws[i / 64][i % 64]
    requires BitLeft(ws, reserved, count) && reserved < 64
    ensures exists i :: reserved <= i < |used| && used[i]
  {
    if j :| reserved <= j < 64 && ws[0][j] {
      assert j / 64 == 0 && j % 64 == j && used[j];
    } else {
      var n, j :| 1 <= n < count && 0 <= j < 64 && ws[n][j];
      var i := 64 * n + j;
      assert i / 64 == n && i % 64 == j && used[i];
    }
  }

  lemma SmallLive(shift: nat, used: seq<bool>, slab: Word, ws: seq<Word>)
    requires 3 <= shift < EXACT_SHIFT && |used| == Capacity(shift) && SmallCode(shift, used, slab, ws)
      && |ws| == BITMAP_WORDS
    ensures 0 < MapWords(shift) <= |ws|
      && (HasLive(Slab(shift, used)) <==> BitLeft(ws, Reserved(shift), MapWords(shift)))
  {
    SmallShape(shift);
    if HasLive(Slab(shift, used)) { LiveBit(used, ws, Reserved(shift), MapWords(shift)); }
    if BitLeft(ws, Reserved(shift), MapWords(shift)) { BitLive(used, ws, Reserved(shift), MapWords(shift)); }
  }

  /** In the descriptor word of an exact-slab page (ngx_slab.c:509-511). */
  method ClearExact(slab: Word, i: nat) returns (slab': Word, empty: bool)
    requires i < 64
    ensures slab' == slab[i := false]
    ensures empty <==> !HasLive(Slab(EXACT_SHIFT, slab'))
  {
    slab' := slab[i := false];
    empty := slab' == Zero();
    ExactShape();
    if !empty { SomeSet(slab'); }
  }

  /** In the high half of the descriptor word of a big-slab page (ngx_slab.c:548-550). */
  method ClearBig(slab: Word, shift: nat, i: nat, ghost used: seq<bool>) returns (slab': Word, empty: bool)
    requires EXACT_SHIFT < shift <= MAX_SHIFT && |used| == Capacity(shift) && BigCode(shift, used, slab) && i < |used|
    ensures BigCode(shift, used[i := false], slab')
    ensures empty <==> !HasLive(Slab(shift, used[i := false]))
  {
    slab' := slab[32 + i := false];
    BigShape(shift);
    BigBit(shift, used, slab, i, false);
    BigFull(shift, used[i := false], slab');
    empty := MapBits(slab') == seq(32, j => false);
  }
}
