/** What the page array of a slab pool means: runs of pages and slab pages with their used chunks. */
module SlabState {
  import opened SlabWord

  const PAGE_SIZE := 4096
  const PAGE_SHIFT := 12
  const EXACT_SHIFT := 6
  const MAX_SHIFT := 11

  /** A page heads a free or busy run, lies inside a run, or is cut into chunks of 2^shift bytes. */
  datatype Page =
    | Free(n: nat)
    | Busy(n: nat)
    | Tail(head: nat)
    | Slab(shift: nat, used: seq<bool>)

  type Pages = seq<Page>

  function Capacity(shift: nat): nat
    requires shift <= PAGE_SHIFT
  {
    Pow2(PAGE_SHIFT - shift)
  }

  /** The chunks at the front of a small-slab page that hold its bitmap (ngx_slab.c:334-339). */
  function Reserved(shift: nat): nat
    requires shift <= PAGE_SHIFT
  {
    if shift >= EXACT_SHIFT then 0
    else
      var n := Capacity(shift) / 8 / Pow2(shift);
      if n == 0 then 1 else n
  }

  predicate IsRun(p: Page) { p.Free? || p.Busy? }

  ghost predicate RunAt(s: Pages, k: nat)
    requires k < |s| && IsRun(s[k])
  {
    && s[k].n > 0 && k + s[k].n <= |s|
    && forall i :: k < i < k + s[k].n ==> s[i] == Tail(k)
  }

  ghost predicate SlabOk(minShift: nat, p: Page)
    requires p.Slab?
  {
    && minShift <= p.shift <= MAX_SHIFT && |p.used| == Capacity(p.shift)
    && (forall i :: 0 <= i < Reserved(p.shift) && i < |p.used| ==> p.used[i])
    && (exists i :: Reserved(p.shift) <= i < |p.used| && p.used[i])
  }

  ghost predicate PageOk(s: Pages, minShift: nat, k: nat)
    requires k < |s|
  {
    match s[k]
    case Free(_) => RunAt(s, k)
    case Busy(_) => RunAt(s, k)
    case Tail(h) => h < k && IsRun(s[h]) && k < h + s[h].n
    case Slab(_, _) => SlabOk(minShift, s[k])
  }

  /** The pages are partitioned into runs and slab pages. */
  ghost predicate WellFormed(s: Pages, minShift: nat) {
    forall k: nat :: k < |s| ==> PageOk(s, minShift, k)
  }

  predicate Full(p: Page) { p.Slab? && forall i :: 0 <= i < |p.used| ==> p.used[i] }

  // Live chunks

  /** A chunk in use: `len` bytes from offset `off` of the page area. */
  datatype Chunk = Chunk(off: nat, len: nat)

  function ChunkOf(k: nat, shift: nat, i: nat): Chunk {
    Chunk(k * PAGE_SIZE + i * Pow2(shift), Pow2(shift))
  }

  ghost predicate LiveIn(s: Pages, k: nat, c: Chunk)
    requires k < |s|
  {
    match s[k]
    case Busy(n) => c == Chunk(k * PAGE_SIZE, n * PAGE_SIZE)
    case Slab(shift, used) =>
      shift <= PAGE_SHIFT && exists i: nat :: Reserved(shift) <= i < |used| && used[i] && c == ChunkOf(k, shift, i)
    case _ => false
  }

  ghost predicate Live(s: Pages, c: Chunk) {
    exists k: nat :: k < |s| && LiveIn(s, k, c)
  }

  ghost predicate Disjoint(a: Chunk, b: Chunk) {
    a.off + a.len <= b.off || b.off + b.len <= a.off
  }

  /** The pages a page stands for: a run head stands for its whole run. */
  ghost function Extent(s: Pages, k: nat): (nat, nat)
    requires k < |s|
  {
    if IsRun(s[k]) then (k, k + s[k].n) else (k, k + 1)
  }

  lemma PowCap(shift: nat)
    requires shift <= PAGE_SHIFT
    ensures Capacity(shift) * Pow2(shift) == PAGE_SIZE
  {
    assert Pow2(0) == 1 && Pow2(1) == 2 && Pow2(2) == 4 && Pow2(3) == 8 && Pow2(4) == 16 && Pow2(5) == 32
      && Pow2(6) == 64;
    assert Pow2(7) == 128 && Pow2(8) == 256 && Pow2(9) == 512 && Pow2(10) == 1024 && Pow2(11) == 2048
      && Pow2(12) == 4096;
  }

  /** A chunk of a slab page lies inside the page, behind the bitmap if there is one. */
  lemma ChunkInside(k: nat, shift: nat, i: nat)
    requires shift <= PAGE_SHIFT && i < Capacity(shift)
    ensures var c := ChunkOf(k, shift, i);
      k * PAGE_SIZE <= c.off && c.off + c.len <= (k + 1) * PAGE_SIZE
  {
    PowCap(shift);
    var p, n := Pow2(shift), Capacity(shift);
    assert (i + 1) * p <= n * p by { MulLe(i + 1, n, p); }
    assert (i + 1) * p == i * p + p;
  }

  lemma MulLe(a: nat, b: nat, c: nat)
    requires a <= b
    ensures a * c <= b * c
  {}

  lemma LiveInside(s: Pages, minShift: nat, k: nat, c: Chunk)
    requires WellFormed(s, minShift) && k < |s| && LiveIn(s, k, c)
    ensures var (lo, hi) := Extent(s, k);
      hi <= |s| && lo * PAGE_SIZE <= c.off && c.off + c.len <= hi * PAGE_SIZE && c.len > 0
  {
    assert PageOk(s, minShift, k);
    if s[k].Slab? {
      var i: nat :| Reserved(s[k].shift) <= i < |s[k].used| && s[k].used[i] && c == ChunkOf(k, s[k].shift, i);
      ChunkInside(k, s[k].shift, i);
    }
  }

  /** Pages that are not inside a run stand for disjoint page ranges. */
  lemma ExtentsDisjoint(s: Pages, minShift: nat, j: nat, k: nat)
    requires WellFormed(s, minShift) && j < k < |s| && !s[j].Tail? && !s[k].Tail?
    ensures Extent(s, j).1 <= Extent(s, k).0
  {
    assert PageOk(s, minShift, j);
  }

  lemma SameSlabDisjoint(k: nat, shift: nat, i: nat, j: nat)
    requires i < j
    ensures Disjoint(ChunkOf(k, shift, i), ChunkOf(k, shift, j))
  {
    MulLe(i + 1, j, Pow2(shift));
    assert (i + 1) * Pow2(shift) == i * Pow2(shift) + Pow2(shift);
  }

  lemma SamePageDisjoint(s: Pages, k: nat, a: Chunk, b: Chunk)
    requires k < |s| && LiveIn(s, k, a) && LiveIn(s, k, b) && a != b
    ensures Disjoint(a, b)
  {
    var shift := s[k].shift;
    var i: nat :| Reserved(shift) <= i < |s[k].used| && s[k].used[i] && a == ChunkOf(k, shift, i);
    var j: nat :| Reserved(shift) <= j < |s[k].used| && s[k].used[j] && b == ChunkOf(k, shift, j);
    if i < j { SameSlabDisjoint(k, shift, i, j); } else { SameSlabDisjoint(k, shift, j, i); }
  }

  lemma OtherPageDisjoint(s: Pages, minShift: nat, j: nat, k: nat, a: Chunk, b: Chunk)
    requires WellFormed(s, minShift) && j < k < |s| && LiveIn(s, j, a) && LiveIn(s, k, b)
    ensures Disjoint(a, b)
  {
    LiveInside(s, minShift, j, a);
    LiveInside(s, minShift, k, b);
    ExtentsDisjoint(s, minShift, j, k);
    MulLe(Extent(s, j).1, Extent(s, k).0, PAGE_SIZE);
  }

  /** Live chunks do not overlap. */
  lemma LiveDisjoint(s: Pages, minShift: nat, a: Chunk, b: Chunk)
    requires WellFormed(s, minShift) && Live(s, a) && Live(s, b) && a != b
    ensures Disjoint(a, b)
  {
    var j: nat :| j < |s| && LiveIn(s, j, a);
    var k: nat :| k < |s| && LiveIn(s, k, b);
    if j == k {
      SamePageDisjoint(s, k, a, b);
    } else if j < k {
      OtherPageDisjoint(s, minShift, j, k, a, b);
    } else {
      OtherPageDisjoint(s, minShift, k, j, b, a);
    }
  }

  /** The bitmap at the front of a small-slab page. */
  ghost function Bitmap(s: Pages, k: nat): Chunk
    requires k < |s| && s[k].Slab? && s[k].shift < EXACT_SHIFT
  {
    Chunk(k * PAGE_SIZE, Capacity(s[k].shift) / 8)
  }

  /** No live chunk overlaps the bitmap at the front of a small-slab page. */
  lemma BitmapApart(s: Pages, minShift: nat, k: nat, c: Chunk)
    requires WellFormed(s, minShift) && k < |s| && s[k].Slab? && s[k].shift < EXACT_SHIFT && Live(s, c)
    ensures Disjoint(c, Bitmap(s, k))
  {
    var j: nat :| j < |s| && LiveIn(s, j, c);
    LiveInside(s, minShift, j, c);
    assert PageOk(s, minShift, k);
    var shift := s[k].shift;
    BitmapFits(shift);
    if j == k {
      var i: nat :| Reserved(shift) <= i < |s[k].used| && s[k].used[i] && c == ChunkOf(k, shift, i);
      MulLe(Reserved(shift), i, Pow2(shift));
    } else if j < k {
      ExtentsDisjoint(s, minShift, j, k);
      MulLe(Extent(s, j).1, k, PAGE_SIZE);
    } else {
      ExtentsDisjoint(s, minShift, k, j);
      MulLe(k + 1, j, PAGE_SIZE);
    }
  }

  lemma BitmapFits(shift: nat)
    requires shift < EXACT_SHIFT
    ensures Capacity(shift) / 8 <= Reserved(shift) * Pow2(shift) < PAGE_SIZE
  {
    assert Pow2(0) == 1 && Pow2(1) == 2 && Pow2(2) == 4 && Pow2(3) == 8 && Pow2(4) == 16 && Pow2(5) == 32;
    assert Pow2(7) == 128 && Pow2(8) == 256 && Pow2(9) == 512 && Pow2(10) == 1024 && Pow2(11) == 2048
      && Pow2(12) == 4096;
  }

  // What allocation and release do to the pages

  /** The first `n` pages of the free run at `k` become a busy run; the rest stays free. */
  ghost function TakeRun(s: Pages, k: nat, n: nat): (s': Pages)
    requires k < |s| && s[k].Free? && 0 < n <= s[k].n
    ensures |s'| == |s|
  {
    var m := s[k].n;
    seq(|s|, i requires 0 <= i < |s| =>
      if i == k then Busy(n)
      else if i == k + n && n < m then Free(m - n)
      else if k + n < i < k + m then Tail(k + n)
      else s[i])
  }

  lemma TakeRunOk(s: Pages, minShift: nat, k: nat, n: nat)
    requires WellFormed(s, minShift) && k < |s| && s[k].Free? && 0 < n <= s[k].n
    ensures WellFormed(TakeRun(s, k, n), minShift)
  {
    var s', m := TakeRun(s, k, n), s[k].n;
    assert PageOk(s, minShift, k);
    forall j: nat | j < |s'| ensures PageOk(s', minShift, j) {
      assert PageOk(s, minShift, j);
      if k <= j < k + m {
      } else if s[j].Tail? {
        assert PageOk(s, minShift, s[j].head);
      }
    }
  }

  lemma TakeRunLive(s: Pages, minShift: nat, k: nat, n: nat, c: Chunk)
    requires WellFormed(s, minShift) && k < |s| && s[k].Free? && 0 < n <= s[k].n
    ensures Live(TakeRun(s, k, n), c) <==> Live(s, c) || c == Chunk(k * PAGE_SIZE, n * PAGE_SIZE)
    ensures !Live(s, Chunk(k * PAGE_SIZE, n * PAGE_SIZE))
  {
    var s', m := TakeRun(s, k, n), s[k].n;
    assert PageOk(s, minShift, k);
    if Live(s, c) {
      var j: nat :| j < |s| && LiveIn(s, j, c);
      assert LiveIn(s', j, c);
    }
    if c == Chunk(k * PAGE_SIZE, n * PAGE_SIZE) { assert LiveIn(s', k, c); }
    if Live(s', c) && c != Chunk(k * PAGE_SIZE, n * PAGE_SIZE) {
      var j: nat :| j < |s| && LiveIn(s', j, c);
      assert LiveIn(s, j, c);
    }
    var d := Chunk(k * PAGE_SIZE, n * PAGE_SIZE);
    if Live(s, d) {
      var j: nat :| j < |s| && LiveIn(s, j, d);
      LiveInside(s, minShift, j, d);
      if j < k { ExtentsDisjoint(s, minShift, j, k); } else { ExtentsDisjoint(s, minShift, k, j); }
    }
  }

  /** Only the pages named change what is live. */
  lemma LiveElsewhere(s: Pages, s': Pages, k: nat, c: Chunk)
    requires |s'| == |s| && k < |s| && forall j: nat :: j < |s| && j != k ==> s'[j] == s[j]
    ensures Live(s', c) <==> LiveIn(s', k, c) || (exists j: nat :: j < |s| && j != k && LiveIn(s, j, c))
    ensures Live(s, c) <==> LiveIn(s, k, c) || (exists j: nat :: j < |s| && j != k && LiveIn(s, j, c))
  {
    forall j: nat | j < |s| && j != k ensures LiveIn(s, j, c) <==> LiveIn(s', j, c) {}
  }

  /** The used bits of a fresh slab page: the bitmap's chunks and the first chunk handed out. */
  ghost function FreshUsed(shift: nat): seq<bool>
    requires shift <= PAGE_SHIFT
  {
    seq(Capacity(shift), i => i <= Reserved(shift))
  }

  lemma FreshOk(minShift: nat, shift: nat)
    requires minShift <= shift <= MAX_SHIFT
    ensures SlabOk(minShift, Slab(shift, FreshUsed(shift))) && Reserved(shift) + 1 < Capacity(shift)
    ensures !Full(Slab(shift, FreshUsed(shift)))
  {
    ReservedFits(shift);
    var u := FreshUsed(shift);
    assert u[Reserved(shift)];
    assert !u[Reserved(shift) + 1];
  }

  lemma ReservedFits(shift: nat)
    requires shift <= MAX_SHIFT
    ensures Reserved(shift) + 1 < Capacity(shift)
  {
    assert Pow2(0) == 1 && Pow2(1) == 2 && Pow2(2) == 4 && Pow2(3) == 8 && Pow2(4) == 16 && Pow2(5) == 32
      && Pow2(6) == 64;
    assert Pow2(7) == 128 && Pow2(8) == 256 && Pow2(9) == 512 && Pow2(10) == 1024 && Pow2(11) == 2048
      && Pow2(12) == 4096;
  }

  /** The bitmap has as many chunks as it takes and not one more; where it is in the descriptor, none. */
  lemma ReservedExactly(shift: nat)
    requires 3 <= shift <= MAX_SHIFT
    ensures shift < EXACT_SHIFT ==> var bytes := Capacity(shift) / 8;
      (Reserved(shift) - 1) * Pow2(shift) < bytes <= Reserved(shift) * Pow2(shift)
    ensures shift >= EXACT_SHIFT ==> Reserved(shift) == 0
  {
    assert Pow2(3) == 8 && Pow2(4) == 16 && Pow2(5) == 32 && Pow2(7) == 128 && Pow2(8) == 256 && Pow2(9) == 512;
  }

  /** A chunk is live in one page only, and for one place in it. */
  lemma LiveOnce(s: Pages, minShift: nat, j: nat, k: nat, c: Chunk)
    requires WellFormed(s, minShift) && j < |s| && k < |s| && LiveIn(s, j, c) && LiveIn(s, k, c)
    ensures j == k
  {
    LiveInside(s, minShift, j, c);
    LiveInside(s, minShift, k, c);
    if j < k {
      ExtentsDisjoint(s, minShift, j, k);
    } else if k < j {
      ExtentsDisjoint(s, minShift, k, j);
    }
  }

  lemma SamePlace(k: nat, shift: nat, i: nat, j: nat)
    requires ChunkOf(k, shift, i) == ChunkOf(k, shift, j)
    ensures i == j
  {
    if i < j { SameSlabDisjoint(k, shift, i, j); } else if j < i { SameSlabDisjoint(k, shift, j, i); }
  }

  /** Replacing one page that heads no run by another such page. */
  lemma ReplaceOk(s: Pages, minShift: nat, k: nat, p: Page)
    requires WellFormed(s, minShift) && k < |s|
    requires s[k].Slab? || s[k] == Busy(1)
    requires (p.Slab? && SlabOk(minShift, p)) || p == Free(1)
    ensures WellFormed(s[k := p], minShift)
  {
    var s' := s[k := p];
    forall j: nat | j < |s'| ensures PageOk(s', minShift, j) {
      assert PageOk(s, minShift, j);
    }
  }

  ghost function WithChunk(p: Page, i: nat, on: bool): Page
    requires p.Slab? && i < |p.used|
  {
    p.(used := p.used[i := on])
  }

  /** Marking a free chunk used makes exactly that chunk live. */
  lemma UseChunk(s: Pages, minShift: nat, k: nat, i: nat)
    requires WellFormed(s, minShift) && k < |s| && s[k].Slab? && i < |s[k].used| && !s[k].used[i]
    ensures var s', d := s[k := WithChunk(s[k], i, true)], ChunkOf(k, s[k].shift, i);
      && WellFormed(s', minShift) && !Live(s, d)
      && forall c :: Live(s', c) <==> Live(s, c) || c == d
  {
    var p, p' := s[k], WithChunk(s[k], i, true);
    var s', d := s[k := p'], ChunkOf(k, s[k].shift, i);
    assert PageOk(s, minShift, k);
    var w :| Reserved(p.shift) <= w < |p.used| && p.used[w];
    assert p'.used[w];
    ReplaceOk(s, minShift, k, p');
    assert p'.used[i] && LiveIn(s', k, d);
    forall c ensures LiveIn(s', k, c) <==> LiveIn(s, k, c) || c == d {
      if LiveIn(s', k, c) {
        var j: nat :| Reserved(p.shift) <= j < |p'.used| && p'.used[j] && c == ChunkOf(k, p.shift, j);
        if j != i { assert p.used[j]; }
      }
      if LiveIn(s, k, c) {
        var j: nat :| Reserved(p.shift) <= j < |p.used| && p.used[j] && c == ChunkOf(k, p.shift, j);
        assert p'.used[j];
      }
    }
    forall c ensures Live(s', c) <==> Live(s, c) || c == d {
      LiveElsewhere(s, s', k, c);
    }
    if Live(s, d) {
      var j: nat :| j < |s| && LiveIn(s, j, d);
      assert j != k ==> LiveIn(s', j, d);
      LiveOnce(s', minShift, j, k, d);
      var q: nat :| Reserved(p.shift) <= q < |p.used| && p.used[q] && d == ChunkOf(k, p.shift, q);
      SamePlace(k, p.shift, i, q);
    }
  }

  /** Some chunk other than the bitmap's is in use. */
  ghost predicate HasLive(p: Page)
    requires p.Slab? && p.shift <= PAGE_SHIFT
  {
    exists i :: Reserved(p.shift) <= i < |p.used| && p.used[i]
  }

  /** The page after a chunk is given back: free again when nothing is left in use. */
  ghost function Without(p: Page, i: nat): Page
    requires p.Slab? && p.shift <= PAGE_SHIFT && i < |p.used|
  {
    if HasLive(WithChunk(p, i, false)) then WithChunk(p, i, false) else Free(1)
  }

  lemma ReleaseChunk(s: Pages, minShift: nat, k: nat, i: nat)
    requires WellFormed(s, minShift) && k < |s| && s[k].Slab? && s[k].shift <= PAGE_SHIFT
    requires Reserved(s[k].shift) <= i < |s[k].used| && s[k].used[i]
    ensures var s', d := s[k := Without(s[k], i)], ChunkOf(k, s[k].shift, i);
      && WellFormed(s', minShift) && Live(s, d)
      && forall c :: Live(s', c) <==> Live(s, c) && c != d
  {
    var p, q := s[k], WithChunk(s[k], i, false);
    var p' := Without(p, i);
    var s', d := s[k := p'], ChunkOf(k, p.shift, i);
    assert PageOk(s, minShift, k);
    ReplaceOk(s, minShift, k, p');
    assert LiveIn(s, k, d);
    forall c ensures LiveIn(s', k, c) <==> LiveIn(s, k, c) && c != d {
      if LiveIn(s', k, c) {
        var j: nat :| Reserved(p.shift) <= j < |q.used| && q.used[j] && c == ChunkOf(k, p.shift, j);
        assert p.used[j];
        if c == d { SamePlace(k, p.shift, i, j); }
      }
      if LiveIn(s, k, c) && c != d {
        var j: nat :| Reserved(p.shift) <= j < |p.used| && p.used[j] && c == ChunkOf(k, p.shift, j);
        assert q.used[j];
      }
    }
    forall c ensures Live(s', c) <==> Live(s, c) && c != d {
      LiveElsewhere(s, s', k, c);
      if exists j: nat :: j < |s| && j != k && LiveIn(s, j, d) {
        var j: nat :| j < |s| && j != k && LiveIn(s, j, d);
        LiveOnce(s, minShift, j, k, d);
      }
    }
  }

  lemma ReleaseRun(s: Pages, minShift: nat, k: nat)
    requires WellFormed(s, minShift) && k < |s| && s[k].Busy?
    ensures var s', d := s[k := Free(s[k].n)], Chunk(k * PAGE_SIZE, s[k].n * PAGE_SIZE);
      && WellFormed(s', minShift) && Live(s, d)
      && forall c :: Live(s', c) <==> Live(s, c) && c != d
  {
    var s', d := s[k := Free(s[k].n)], Chunk(k * PAGE_SIZE, s[k].n * PAGE_SIZE);
    assert PageOk(s, minShift, k);
    forall j: nat | j < |s'| ensures PageOk(s', minShift, j) {
      assert PageOk(s, minShift, j);
    }
    assert LiveIn(s, k, d);
    forall c ensures Live(s', c) <==> Live(s, c) && c != d {
      LiveElsewhere(s, s', k, c);
      if exists j: nat :: j < |s| && j != k && LiveIn(s, j, d) {
        var j: nat :| j < |s| && j != k && LiveIn(s, j, d);
        LiveOnce(s, minShift, j, k, d);
      }
    }
  }

  /** A one-page busy run turned into a fresh slab page. */
  lemma RunToSlab(s: Pages, minShift: nat, k: nat, shift: nat)
    requires WellFormed(s, minShift) && k < |s| && s[k] == Busy(1) && minShift <= shift <= MAX_SHIFT
    ensures var s', d, run := s[k := Slab(shift, FreshUsed(shift))], ChunkOf(k, shift, Reserved(shift)),
      Chunk(k * PAGE_SIZE, PAGE_SIZE);
      && WellFormed(s', minShift)
      && forall c :: Live(s', c) <==> (Live(s, c) && c != run) || c == d
  {
    var p := Slab(shift, FreshUsed(shift));
    var s', d, run := s[k := p], ChunkOf(k, shift, Reserved(shift)), Chunk(k * PAGE_SIZE, PAGE_SIZE);
    FreshOk(minShift, shift);
    ReplaceOk(s, minShift, k, p);
    assert p.used[Reserved(shift)];
    assert LiveIn(s, k, run) && LiveIn(s', k, d);
    forall c ensures LiveIn(s', k, c) <==> c == d {
      if LiveIn(s', k, c) {
        var j: nat :| Reserved(shift) <= j < |p.used| && p.used[j] && c == ChunkOf(k, shift, j);
      }
    }
    forall c ensures Live(s', c) <==> (Live(s, c) && c != run) || c == d {
      LiveElsewhere(s, s', k, c);
      if c == run && exists j: nat :: j < |s| && j != k && LiveIn(s, j, run) {
        var j: nat :| j < |s| && j != k && LiveIn(s, j, run);
        LiveOnce(s, minShift, j, k, run);
      }
    }
  }

  /** A fresh slab page carved from the front of a free run. */
  lemma NewSlab(s: Pages, minShift: nat, k: nat, shift: nat)
    requires WellFormed(s, minShift) && k < |s| && s[k].Free? && 0 < s[k].n && minShift <= shift <= MAX_SHIFT
    ensures var s', d := TakeRun(s, k, 1)[k := Slab(shift, FreshUsed(shift))], ChunkOf(k, shift, Reserved(shift));
      && WellFormed(s', minShift) && !Live(s, d)
      && forall c :: Live(s', c) <==> Live(s, c) || c == d
  {
    var s1 := TakeRun(s, k, 1);
    var s', d := s1[k := Slab(shift, FreshUsed(shift))], ChunkOf(k, shift, Reserved(shift));
    TakeRunOk(s, minShift, k, 1);
    RunToSlab(s1, minShift, k, shift);
    forall c ensures Live(s', c) <==> Live(s, c) || c == d {
      TakeRunLive(s, minShift, k, 1, c);
    }
    if Live(s, d) {
      var j: nat :| j < |s| && LiveIn(s, j, d);
      LiveInside(s, minShift, j, d);
      FreshOk(minShift, shift);
      ChunkInside(k, shift, Reserved(shift));
      assert PageOk(s, minShift, k);
      if j < k { ExtentsDisjoint(s, minShift, j, k); } else { ExtentsDisjoint(s, minShift, k, j); }
    }
  }
}
