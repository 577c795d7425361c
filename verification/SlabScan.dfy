/** The loops of ngx_slab.c over bitmaps: looking for a free chunk, and for any chunk still in use. */
module SlabScan {
  import opened SlabWord
  import opened SlabState
  import opened SlabRing
  import opened SlabCode

  /** The words a small-slab bitmap takes: `(1 << (pagesize_shift - shift)) / 64`. */
  function MapWords(shift: nat): nat
    requires shift <= PAGE_SHIFT
  {
    Capacity(shift) / 64
  }

  lemma SmallShape(shift: nat)
    requires 3 <= shift < EXACT_SHIFT
    ensures 0 < MapWords(shift) <= BITMAP_WORDS && Capacity(shift) == 64 * MapWords(shift) && Reserved(shift) + 1 < 64
    ensures Capacity(shift) <= 512
  {
    assert Pow2(3) == 8 && Pow2(4) == 16 && Pow2(5) == 32 && Pow2(7) == 128 && Pow2(8) == 256 && Pow2(9) == 512;
  }

  lemma BigShape(shift: nat)
    requires EXACT_SHIFT < shift <= MAX_SHIFT
    ensures 2 <= Capacity(shift) <= 32 && Reserved(shift) == 0
  {
    assert Pow2(1) == 2 && Pow2(2) == 4 && Pow2(3) == 8 && Pow2(4) == 16 && Pow2(5) == 32;
  }

  lemma ExactShape()
    ensures Capacity(EXACT_SHIFT) == 64 && Reserved(EXACT_SHIFT) == 0
  {
    assert Pow2(6) == 64;
  }

  /** `for (m = 1, i = 0; m; m <<= 1, i++) if (w & m) continue; ...` from bit `lo` on. */
  method FirstClear(w: Word, lo: nat, hi: nat) returns (i: nat)
    requires lo <= hi <= 64 && exists j :: lo <= j < hi && !w[j]
    ensures lo <= i < hi && !w[i] && forall j :: lo <= j < i ==> w[j]
  {
    i := lo;
    while w[i]
      invariant lo <= i < hi && forall j :: lo <= j < i ==> w[j]
      decreases hi - i
    {
      i := i + 1;
    }
  }

  /** Whether some word from `first` on has a clear bit (ngx_slab.c:221-227). */
  method AnyClear(ws: seq<Word>, first: nat, count: nat) returns (found: bool)
    requires first <= count <= |ws|
    ensures found <==> exists n :: first <= n < count && ws[n] != AllBusy()
  {
    var n := first;
    while n < count
      invariant first <= n <= count && forall k :: first <= k < n ==> ws[k] == AllBusy()
    {
      if ws[n] != AllBusy() {
        return true;
      }
      n := n + 1;
    }
    return false;
  }

  /** The first free chunk of a small-slab bitmap: word `n`, bit `i` (ngx_slab.c:206-218). */
  method ScanSmall(ws: seq<Word>, count: nat, ghost used: seq<bool>) returns (n: nat, i: nat)
    requires count <= |ws| && |used| == 64 * count && (forall j :: 0 <= j < |used| ==> used[j] == ws[j / 64][j % 64])
    requires exists j :: 0 <= j < |used| && !used[j]
    ensures n < count && i < 64 && !ws[n][i] && !used[64 * n + i]
    ensures forall j :: 0 <= j < 64 * n + i ==> used[j]
    ensures forall k :: 0 <= k < n ==> ws[k] == AllBusy()
  {
    ghost var w :| 0 <= w < |used| && !used[w];
    assert !ws[w / 64][w % 64];
    n := 0;
    while ws[n] == AllBusy()
      invariant n <= w / 64 && forall k :: 0 <= k < n ==> ws[k] == AllBusy()
      decreases count - n
    {
      n := n + 1;
    }
    SomeClear(ws[n]);
    i := FirstClear(ws[n], 0, 64);
    assert used[64 * n + i] == ws[n][i];
    forall j | 0 <= j < 64 * n + i ensures used[j] {
      if j / 64 < n { assert ws[j / 64] == AllBusy(); }
    }
  }

  lemma SomeClear(w: Word)
    requires w != AllBusy()
    ensures exists j :: 0 <= j < 64 && !w[j]
  {
    var j :| 0 <= j < 64 && w[j] != AllBusy()[j];
    assert !w[j];
  }

  lemma SomeSet(w: Word)
    requires w != Zero()
    ensures exists j :: 0 <= j < 64 && w[j]
  {
    var j :| 0 <= j < 64 && w[j] != Zero()[j];
    assert w[j];
  }

  /** Whether some word from `first` on has a bit set (ngx_slab.c:473-477). */
  method AnySet(ws: seq<Word>, first: nat, count: nat) returns (found: bool)
    requires first <= count <= |ws|
    ensures found <==> exists n, j :: first <= n < count && 0 <= j < 64 && ws[n][j]
  {
    var n := first;
    while n < count
      invariant first <= n <= count && forall k, j :: first <= k < n && 0 <= j < 64 ==> !ws[k][j]
    {
      if ws[n] != Zero() {
        SomeSet(ws[n]);
        return true;
      }
      n := n + 1;
    }
    return false;
  }

  // Setting and clearing a chunk's bit keeps the encoding

  lemma SmallBit(shift: nat, used: seq<bool>, slab: Word, ws: seq<Word>, n: nat, i: nat, on: bool)
    requires SmallCode(shift, used, slab, ws) && n < |ws| && i < 64 && 64 * n + i < |used|
    ensures SmallCode(shift, used[64 * n + i := on], slab, ws[n := ws[n][i := on]])
  {
    var ws' := ws[n := ws[n][i := on]];
    forall j | 0 <= j < |used| ensures used[64 * n + i := on][j] == ws'[j / 64][j % 64] {
      if j / 64 == n && j % 64 == i { assert j == 64 * n + i; }
    }
  }

  lemma SmallFull(shift: nat, used: seq<bool>, slab: Word, ws: seq<Word>, count: nat)
    requires SmallCode(shift, used, slab, ws) && |used| == 64 * count && count <= |ws|
    ensures Full(Slab(shift, used)) <==> forall n :: 0 <= n < count ==> ws[n] == AllBusy()
  {
    if Full(Slab(shift, used)) {
      forall n | 0 <= n < count ensures ws[n] == AllBusy() {
        forall j | 0 <= j < 64 ensures ws[n][j] {
          assert used[64 * n + j] == ws[(64 * n + j) / 64][(64 * n + j) % 64];
        }
      }
    }
    if forall n :: 0 <= n < count ==> ws[n] == AllBusy() {
      forall j | 0 <= j < |used| ensures used[j] {
        assert used[j] == ws[j / 64][j % 64] && ws[j / 64] == AllBusy();
      }
    }
  }

  lemma BigBit(shift: nat, used: seq<bool>, slab: Word, i: nat, on: bool)
    requires BigCode(shift, used, slab) && i < |used|
    ensures BigCode(shift, used[i := on], slab[32 + i := on])
  {
    var slab' := slab[32 + i := on];
    assert slab'[..32] == slab[..32];
  }

  /** `slab & NGX_SLAB_MAP_MASK`, as the high half of the word. */
  function MapBits(slab: Word): seq<bool> { slab[32..] }

  /** The mask of a full page: `((1 << n) - 1) << NGX_SLAB_MAP_SHIFT` for n chunks. */
  function FullMap(n: nat): seq<bool>
    requires n <= 32
  {
    seq(32, i => i < n)
  }

  lemma BigFull(shift: nat, used: seq<bool>, slab: Word)
    requires BigCode(shift, used, slab)
    ensures Full(Slab(shift, used)) <==> MapBits(slab) == FullMap(|used|)
    ensures MapBits(slab) == seq(32, i => false) <==> forall i :: 0 <= i < |used| ==> !used[i]
  {
    forall i | 0 <= i < 32 ensures MapBits(slab)[i] == (i < |used| && used[i]) {
      assert MapBits(slab)[i] == slab[32 + i];
    }
    if MapBits(slab) == FullMap(|used|) {
      forall i | 0 <= i < |used| ensures used[i] { assert FullMap(|used|)[i]; }
    }
    if MapBits(slab) == seq(32, i => false) {
      forall i | 0 <= i < |used| ensures !used[i] { assert !MapBits(slab)[i]; }
    }
  }

  /** The shift read back from a descriptor word: `slab & NGX_SLAB_SHIFT_MASK`. */
  function WordShift(slab: Word): nat { ToNat(slab[..4]) }

  lemma ShiftDecodes(shift: nat, used: seq<bool>, slab: Word, ws: seq<Word>)
    requires shift < 16 && (SmallCode(shift, used, slab, ws) || BigCode(shift, used, slab))
    ensures WordShift(slab) == shift
  {
    assert Pow2(4) == 16;
    RoundTrip(shift, 4);
    if SmallCode(shift, used, slab, ws) {
      LowBits(shift, 64, 4);
    } else {
      LowBits(shift, 32, 4);
      assert slab[..4] == slab[..32][..4];
    }
  }

  // Taking the first free chunk, and whether that was the last one

  ghost predicate FirstFree(used: seq<bool>, i: nat) {
    i < |used| && !used[i] && forall j :: 0 <= j < i ==> used[j]
  }

  /** In a small-slab bitmap (ngx_slab.c:203-228). */
  method TakeSmall(ws: seq<Word>, shift: nat, ghost slab: Word, ghost used: seq<bool>)
      returns (ws': seq<Word>, i: nat, full: bool)
    requires 3 <= shift < EXACT_SHIFT && |used| == Capacity(shift) && SmallCode(shift, used, slab, ws)
      && |ws| == BITMAP_WORDS
    requires !Full(Slab(shift, used))
    ensures FirstFree(used, i) && |ws'| == |ws| && SmallCode(shift, used[i := true], slab, ws')
    ensures full <==> Full(Slab(shift, used[i := true]))
  {
    SmallShape(shift);
    var count := MapWords(shift);
    var n, b := ScanSmall(ws, count, used);
    ws' := ws[n := ws[n][b := true]];
    i := 64 * n + b;
    SmallBit(shift, used, slab, ws, n, b, true);
    SmallFull(shift, used[i := true], slab, ws', count);
    full := false;
    if ws'[n] == AllBusy() {
      var more := AnyClear(ws', n + 1, count);
      full := !more;
    }
  }

  /** In the descriptor word of an exact-slab page (ngx_slab.c:252-261). */
  method TakeExact(slab: Word) returns (slab': Word, i: nat, full: bool)
    requires !Full(Slab(EXACT_SHIFT, slab))
    ensures FirstFree(slab, i) && slab' == slab[i := true]
    ensures full <==> Full(Slab(EXACT_SHIFT, slab'))
  {
    i := FirstClear(slab, 0, 64);
    slab' := slab[i := true];
    full := slab' == AllBusy();
    if Full(Slab(EXACT_SHIFT, slab')) { assert slab' == AllBusy(); }
  }

  /** In the high half of the descriptor word of a big-slab page (ngx_slab.c:285-303). */
  method TakeBig(slab: Word, shift: nat, ghost used: seq<bool>) returns (slab': Word, i: nat, full: bool)
    requires EXACT_SHIFT < shift <= MAX_SHIFT && |used| == Capacity(shift) && BigCode(shift, used, slab)
    requires !Full(Slab(shift, used))
    ensures FirstFree(used, i) && BigCode(shift, used[i := true], slab')
    ensures full <==> Full(Slab(shift, used[i := true]))
  {
    BigShape(shift);
    ShiftDecodes(shift, used, slab, []);
    var n := Pow2(PAGE_SHIFT - WordShift(slab));
    var mask := FullMap(n);
    ghost var w :| 0 <= w < |used| && !used[w];
    assert !slab[32 + w];
    var b := FirstClear(slab, 32, 32 + n);
    i := b - 32;
    assert !used[i];
    forall j | 0 <= j < i ensures used[j] { assert slab[32 + j]; }
    slab' := slab[b := true];
    BigBit(shift, used, slab, i, true);
    BigFull(shift, used[i := true], slab');
    full := MapBits(slab') == mask;
  }

  // The bitmaps of a fresh page

  /** `(2 << n) - 1`: the lowest n + 1 bits set. */
  function LowOnes(n: nat): Word { seq(64, i => i <= n) }

  /** The bitmap of a fresh small-slab page, written over whatever the page held (ngx_slab.c:334-347). */
  method FreshSmall(ws: seq<Word>, shift: nat) returns (ws': seq<Word>)
    requires 3 <= shift < EXACT_SHIFT && |ws| == BITMAP_WORDS
    ensures |ws'| == |ws| && SmallCode(shift, FreshUsed(shift), FromNat(shift, 64), ws')
  {
    SmallShape(shift);
    var s := Pow2(shift);
    var n := Pow2(PAGE_SHIFT - shift) / 8 / s;
    if n == 0 {
      n := 1;
    }
    ws' := ws[0 := LowOnes(n)];
    var count := MapWords(shift);
    var i := 1;
    while i < count
      invariant 1 <= i <= count && |ws'| == |ws| && ws'[0] == LowOnes(n) && forall j :: 1 <= j < i ==> ws'[j] == Zero()
    {
      ws' := ws'[i := Zero()];
      i := i + 1;
    }
    var used := FreshUsed(shift);
    forall j | 0 <= j < |used| ensures used[j] == ws'[j / 64][j % 64] {
      if j < 64 { assert j / 64 == 0 && j % 64 == j; } else { assert ws'[j / 64] == Zero(); }
    }
  }

  lemma FreshExact()
    ensures Zero()[0 := true] == FreshUsed(EXACT_SHIFT)
  {
    ExactShape();
  }

  lemma FreshBig(shift: nat)
    requires EXACT_SHIFT < shift <= MAX_SHIFT
    ensures BigCode(shift, FreshUsed(shift), FromNat(shift, 64)[32 := true])
  {
    BigShape(shift);
    var w := FromNat(shift, 64)[32 := true];
    LowBits(shift, 64, 32);
    assert w[..32] == FromNat(shift, 64)[..32];
    assert Pow2(4) == 16;
    forall q | 32 <= q < 64 ensures w[q] == (q - 32 < |FreshUsed(shift)| && FreshUsed(shift)[q - 32]) {
      HighBits(shift, 64, 4, q);
    }
  }
}
