/** The layout of the exact hash of ngx_hash.c: sizes of elements, contents of buckets, and bytes of memory. */
module HashLayout {
  import opened WildLabels

  /** An entry of ngx_hash_key_t; `dropped` is a NULL `key.data`, and the value 0 a NULL pointer. */
  datatype Elt = Elt(key: string, dropped: bool, hash: nat, value: nat)

  /** What a byte of memory holds: byte k of a pointer, byte k of a u_short, or a character. */
  datatype Cell = Junk | Ptr(v: nat, k: nat) | Short(n: nat, k: nat) | Char(c: char)

  type Memory = map<nat, Cell>

  const PTR_SIZE := 8
  const CACHE_LINE := 64
  const USHORT := 65536

  /** ngx_align and ngx_align_ptr to the size of a pointer. */
  function Align(n: nat): (r: nat)
    ensures n <= r < n + PTR_SIZE && r % PTR_SIZE == 0
  {
    (n + 7) / 8 * 8
  }

  /** ngx_align and ngx_align_ptr to whole cache lines. */
  function Lines(n: nat): (r: nat)
    ensures n <= r < n + CACHE_LINE && r % CACHE_LINE == 0
  {
    (n + 63) / 64 * 64
  }

  /** What a u_short keeps of a number. */
  function Short16(n: nat): (r: nat)
    ensures r < USHORT && (n < USHORT ==> r == n)
  {
    n % USHORT
  }

  lemma LinesAligned(n: nat)
    ensures Lines(n) % PTR_SIZE == 0
  {}

  /** NGX_HASH_ELT_SIZE */
  function EltSize(key: string): (r: nat)
    ensures 16 <= r && |key| + 10 <= r < |key| + 18
  {
    PTR_SIZE + Align(|key| + 2)
  }

  lemma EltAligned(key: string)
    ensures EltSize(key) % PTR_SIZE == 0
  {}

  /** From an aligned element, aligning the end of its name leads to where the next element is put. */
  lemma NextElement(a: nat, key: string)
    requires a % PTR_SIZE == 0
    ensures Align(a + 10 + |key|) == a + EltSize(key)
  {
    EltAligned(key);
    var r, s := Align(a + 10 + |key|), a + EltSize(key);
    assert s % PTR_SIZE == 0 && a + 10 + |key| <= s < a + 18 + |key|;
    OneMultiple(a + 10 + |key|, r, s);
  }

  lemma OneMultiple(n: nat, r: nat, s: nat)
    requires n <= r < n + PTR_SIZE && n <= s < n + PTR_SIZE && r % PTR_SIZE == 0 && s % PTR_SIZE == 0
    ensures r == s
  {}

  // The contents of a bucket

  predicate Goes(e: Elt, size: nat, k: nat)
    requires size > 0
  {
    !e.dropped && e.hash % size == k
  }

  /** The elements among the first n names that go to bucket k, in order. */
  ghost function In(names: seq<Elt>, n: nat, size: nat, k: nat): (r: seq<Elt>)
    requires n <= |names| && size > 0
    ensures |r| <= n
  {
    if n == 0 then []
    else if Goes(names[n - 1], size, k) then In(names, n - 1, size, k) + [names[n - 1]]
    else In(names, n - 1, size, k)
  }

  ghost function Bucket(names: seq<Elt>, size: nat, k: nat): seq<Elt>
    requires size > 0
  {
    In(names, |names|, size, k)
  }

  /** The bytes a list of elements takes. */
  ghost function Total(list: seq<Elt>): (r: nat)
    ensures r == 0 <==> list == []
  {
    if list == [] then 0 else Total(list[..|list| - 1]) + EltSize(list[|list| - 1].key)
  }

  lemma {:induction false} TotalAligned(list: seq<Elt>)
    ensures Total(list) % PTR_SIZE == 0
  {
    if list != [] {
      TotalAligned(list[..|list| - 1]);
      EltAligned(list[|list| - 1].key);
    }
  }

  lemma TotalMore(list: seq<Elt>, e: Elt)
    ensures Total(list + [e]) == Total(list) + EltSize(e.key)
  {
    assert (list + [e])[..|list|] == list;
  }

  /** Adding name n to its bucket, and to no other. */
  lemma InStep(names: seq<Elt>, n: nat, size: nat, k: nat)
    requires n < |names| && size > 0
    ensures Total(In(names, n + 1, size, k)) == Total(In(names, n, size, k)) + if Goes(names[n], size, k) then
      EltSize(names[n].key) else 0
  {
    if Goes(names[n], size, k) { TotalMore(In(names, n, size, k), names[n]); }
  }

  lemma {:induction false} InGrows(names: seq<Elt>, n: nat, m: nat, size: nat, k: nat)
    requires n <= m <= |names| && size > 0
    ensures Total(In(names, n, size, k)) <= Total(In(names, m, size, k))
    decreases m
  {
    if n < m {
      InGrows(names, n, m - 1, size, k);
      InStep(names, m - 1, size, k);
    }
  }

  lemma {:induction false} PrefixTotal(list: seq<Elt>, i: nat)
    requires i < |list|
    ensures Total(list[..i]) + EltSize(list[i].key) == Total(list[..i + 1]) <= Total(list)
    decreases |list|
  {
    assert list[..i + 1][..i] == list[..i];
    if i + 1 < |list| {
      var init := list[..|list| - 1];
      PrefixTotal(init, i);
      assert init[..i + 1] == list[..i + 1] && init[..i] == list[..i];
    } else {
      assert list[..i + 1] == list;
    }
  }

  /** Every bucket of a table of this size holds its elements in b bytes. */
  ghost predicate Fits(names: seq<Elt>, size: nat, b: nat) {
    size > 0 && forall k :: 0 <= k < size ==> Total(Bucket(names, size, k)) <= b
  }

  // Bytes of memory

  /** Predicates that are spelled out only where a proof asks for it, by naming `Open` and the predicate. */
  datatype Seal = Homes | Contents | Ends | Sums | Range | Table | Rounds

  ghost predicate Open(s: Seal, k: int) { true }

  ghost predicate OpenElt(m: Memory, a: nat, k: int) { true }

  ghost predicate OpenPtr(m: Memory, a: nat, k: int) { true }

  ghost predicate PtrAt(m: Memory, a: nat, v: nat) {
    forall o, x :: OpenPtr(m, a, o) && a <= x < a + PTR_SIZE ==> x in m && m[x] == Ptr(v, x - a)
  }

  ghost predicate LenAt(m: Memory, a: nat, n: nat) {
    a in m && a + 1 in m && m[a] == Short(n, 0) && m[a + 1] == Short(n, 1)
  }

  ghost predicate NameAt(m: Memory, a: nat, s: string) {
    forall x :: a <= x < a + |s| ==> x in m && m[x] == Char(s[x - a])
  }

  /** ngx_hash_elt_t: the value, the length, the name in lower case. */
  ghost predicate EltAt(m: Memory, a: nat, e: Elt) {
    forall o :: OpenElt(m, a, o) ==>
      PtrAt(m, a, e.value) && LenAt(m, a + 8, |e.key|) && NameAt(m, a + 10, LowerAll(e.key))
  }

  /** The elements of a list one after another. */
  ghost predicate Packed(m: Memory, a: nat, list: seq<Elt>) {
    list != [] ==>
      var init, e := list[..|list| - 1], list[|list| - 1]; Packed(m, a, init) && EltAt(m, a + Total(init), e)
  }

  lemma {:induction false} PackedAt(m: Memory, a: nat, list: seq<Elt>, i: nat)
    requires Packed(m, a, list) && i < |list|
    ensures EltAt(m, a + Total(list[..i]), list[i])
  {
    if i < |list| - 1 {
      var init := list[..|list| - 1];
      PackedAt(m, a, init, i);
      assert init[..i] == list[..i];
    }
  }

  /** Memory m' differs from m in [lo, hi) at most. */
  ghost predicate Same(m: Memory, m': Memory, lo: nat, hi: nat) {
    m'.Keys == m.Keys && forall x :: x in m && !(lo <= x < hi) ==> m'[x] == m[x]
  }

  ghost predicate Apart(lo: nat, hi: nat, a: nat, b: nat) { hi <= a || b <= lo }

  lemma EltKept(m: Memory, m': Memory, lo: nat, hi: nat, a: nat, e: Elt)
    requires Same(m, m', lo, hi) && EltAt(m, a, e) && Apart(lo, hi, a, a + EltSize(e.key))
    ensures EltAt(m', a, e)
  {
    assert OpenElt(m, a, 0) && OpenPtr(m, a, 0);
  }

  /** The last element of a list, and where it stands. */
  lemma PackedParts(m: Memory, a: nat, list: seq<Elt>, init: seq<Elt>, e: Elt)
    requires list != [] && init == list[..|list| - 1] && e == list[|list| - 1]
    ensures Total(list) == Total(init) + EltSize(e.key)
    ensures Packed(m, a, list) <==> Packed(m, a, init) && EltAt(m, a + Total(init), e)
  {}

  lemma {:induction false} PackedKept(m: Memory, m': Memory, lo: nat, hi: nat, a: nat, list: seq<Elt>)
    requires Same(m, m', lo, hi) && Packed(m, a, list) && Apart(lo, hi, a, a + Total(list))
    ensures Packed(m', a, list)
    decreases |list|
  {
    if list != [] {
      var init, e := list[..|list| - 1], list[|list| - 1];
      PackedParts(m, a, list, init, e);
      PackedParts(m', a, list, init, e);
      PackedKept(m, m', lo, hi, a, init);
      EltKept(m, m', lo, hi, a + Total(init), e);
    }
  }

  lemma PackedMore(m: Memory, a: nat, list: seq<Elt>, e: Elt)
    requires Packed(m, a, list) && EltAt(m, a + Total(list), e)
    ensures Packed(m, a, list + [e])
  {
    PackedParts(m, a, list + [e], list, e);
  }

  // The places of the buckets

  /** The most bytes of elements that a bucket is given room for. */
  const LARGEST := 65464

  /** The u_short count of a bucket: its elements and a NULL pointer. */
  ghost function Count16(names: seq<Elt>, size: nat, k: nat): nat
    requires size > 0
  {
    Short16(PTR_SIZE + Total(Bucket(names, size, k)))
  }

  /** The bytes set aside for a bucket: the count up to whole cache lines, as a u_short; none if it counts as empty. */
  ghost function Room(names: seq<Elt>, size: nat, k: nat): nat
    requires size > 0
  {
    var c := Count16(names, size, k);
    if c == PTR_SIZE then 0 else Short16(Lines(c))
  }

  /** Every bucket is given room for its elements and a NULL pointer, or has no elements and no room. */
  ghost predicate Laid(names: seq<Elt>, size: nat) {
    size > 0 && forall k :: 0 <= k < size ==> Total(Bucket(names, size, k)) <= LARGEST
  }

  /** A bucket has room for what goes there exactly up to 65464 bytes of elements. */
  lemma RoomEnough(names: seq<Elt>, size: nat, k: nat)
    requires size > 0
    ensures var t, r := Total(Bucket(names, size, k)), Room(names, size, k);
      (if t == 0 then r == 0 else t + PTR_SIZE <= r) <==> t <= LARGEST
    ensures Total(Bucket(names, size, k)) <= LARGEST ==>
      (Count16(names, size, k) == PTR_SIZE <==> Bucket(names, size, k) == [])
  {
    TotalAligned(Bucket(names, size, k));
  }

  /** The bytes set aside for the buckets before k. */
  ghost function Offset(names: seq<Elt>, size: nat, k: nat): nat
    requires size > 0
  {
    if k == 0 then 0 else Offset(names, size, k - 1) + Room(names, size, k - 1)
  }

  lemma AlignedSum(p: nat, o: nat)
    requires p % PTR_SIZE == 0 && o % PTR_SIZE == 0
    ensures (p + o) % PTR_SIZE == 0
  {}

  lemma RoomAligned(names: seq<Elt>, size: nat, k: nat)
    requires size > 0
    ensures Room(names, size, k) % PTR_SIZE == 0
  {
    var n := Lines(Count16(names, size, k));
    assert n % CACHE_LINE == 0;
    assert Short16(n) % CACHE_LINE == 0;
  }

  lemma {:induction false} OffsetAligned(names: seq<Elt>, size: nat, k: nat)
    requires size > 0
    ensures Offset(names, size, k) % PTR_SIZE == 0
  {
    if k > 0 {
      OffsetAligned(names, size, k - 1);
      RoomAligned(names, size, k - 1);
      AlignedSum(Offset(names, size, k - 1), Room(names, size, k - 1));
    }
  }

  lemma {:induction false} OffsetGrows(names: seq<Elt>, size: nat, j: nat, k: nat)
    requires size > 0 && j < k
    ensures Offset(names, size, j) + Room(names, size, j) <= Offset(names, size, k)
    decreases k
  {
    if j < k - 1 { OffsetGrows(names, size, j, k - 1); }
  }

  /** Two buckets are apart. */
  lemma RoomsApart(names: seq<Elt>, size: nat, j: nat, k: nat, p: nat)
    requires size > 0 && j != k
    ensures Apart(p + Offset(names, size, j), p + Offset(names, size, j) + Room(names, size, j),
                  p + Offset(names, size, k), p + Offset(names, size, k) + Room(names, size, k))
  {
    if j < k { OffsetGrows(names, size, j, k); } else { OffsetGrows(names, size, k, j); }
  }
}
