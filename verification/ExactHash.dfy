/** The exact hash: ngx_hash_init and ngx_hash_find of ngx_hash.c. */
module ExactHash {
  import opened WildLabels
  import opened HashLayout
  import opened HashSize

  /** `Trapped` stands for the division by zero of a table without names. */
  datatype Status = Ok | Failed | Trapped

  /**
   * What the allocator answers: memory for `test`, memory for the table, and the address for the elements, 0 for NULL.
   */
  datatype Memories = Memories(test: bool, table: bool, elts: nat)

  // The counts of the buckets, in u_short sums

  ghost predicate Measured(t: seq<nat>, names: seq<Elt>, n: nat, size: nat, base: nat) {
    && n <= |names| && 0 < size <= |t|
    && forall o, k :: Open(Sums, o) && 0 <= k < size ==> t[k] == Tally(names, n, size, base, k)
  }

  /** The u_short sum of a bucket over the first n names, from `base` on. */
  ghost function Tally(names: seq<Elt>, n: nat, size: nat, base: nat, k: nat): nat
    requires n <= |names| && size > 0
  {
    Short16(base + Total(In(names, n, size, k)))
  }

  lemma MeasuredStep(t: seq<nat>, names: seq<Elt>, n: nat, size: nat, base: nat)
    requires Measured(t, names, n, size, base) && n < |names|
    ensures Measured(Bumped(t, names[n], size), names, n + 1, size, base)
  {
    var t' := Bumped(t, names[n], size);
    forall k | 0 <= k < size ensures t'[k] == Tally(names, n + 1, size, base, k) {
      assert Open(Sums, 0);
      TallyStep(names, n, size, base, k);
    }
  }

  lemma TallyStep(names: seq<Elt>, n: nat, size: nat, base: nat, k: nat)
    requires n < |names| && size > 0
    ensures Tally(names, n + 1, size, base, k) ==
      if Goes(names[n], size, k) then Short16(Tally(names, n, size, base, k) + EltSize(names[n].key))
        else Tally(names, n, size, base, k)
  {
    InStep(names, n, size, k);
    ShortOfShort(base + Total(In(names, n, size, k)), EltSize(names[n].key));
  }

  lemma MeasuredNone(t: seq<nat>, names: seq<Elt>, size: nat, base: nat)
    requires 0 < size <= |t| && base < USHORT && forall k :: 0 <= k < size ==> t[k] == base
    ensures Measured(t, names, 0, size, base)
  {}

  lemma MeasuredAt(t: seq<nat>, names: seq<Elt>, n: nat, size: nat, base: nat, k: nat)
    requires Measured(t, names, n, size, base) && k < size
    ensures t[k] == Tally(names, n, size, base, k)
  {
    assert Open(Sums, 0);
  }

  /** What is in use of a bucket with room for all of its elements. */
  lemma LaidAt(names: seq<Elt>, n: nat, size: nat, k: nat)
    requires Laid(names, size) && n <= |names| && k < size
    ensures Short16(Total(In(names, n, size, k))) == Total(In(names, n, size, k)) <= LARGEST
  {
    InGrows(names, n, |names|, size, k);
    assert Total(Bucket(names, size, k)) <= LARGEST;
  }

  /** ngx_hash.c:285-323: the first size, from `start` on, that passes */
  method ChooseSize(test: array<nat>, names: seq<Elt>, start: nat, b: nat) returns (size: nat)
    requires start > 0
    modifies test
    ensures forall s :: start <= s < size && s < test.Length ==> !Passes(names, s, b)
    ensures start <= size && (size < test.Length ==> Passes(names, size, b))
  {
    size := start;
    while size < test.Length
      invariant start <= size && forall s :: start <= s < size && s < test.Length ==> !Passes(names, s, b)
    {
      var ok := TrySize(test, names, size, b);
      if ok {
        return;
      }
      size := size + 1;
    }
  }

  // The places of the buckets

  /** What `test` holds once rounded up: the room of a bucket, or a pointer's size where it counts as empty. */
  ghost predicate Rounded(t: seq<nat>, names: seq<Elt>, size: nat, n: nat) {
    && n <= size <= |t| && size > 0
    && forall o :: Open(Rounds, o) ==>
      && (forall k :: 0 <= k < n ==>
            t[k] == if Count16(names, size, k) == PTR_SIZE then PTR_SIZE else Room(names, size, k))
      && forall k :: n <= k < size ==> t[k] == Count16(names, size, k)
  }

  lemma RoundedStep(t: seq<nat>, names: seq<Elt>, size: nat, i: nat)
    requires Rounded(t, names, size, i) && i < size
    ensures t[i] == Count16(names, size, i)
    ensures var t' := if t[i] == PTR_SIZE then t else t[i := Short16(Lines(t[i]))];
      Rounded(t', names, size, i + 1) && Room(names, size, i) == if t[i] == PTR_SIZE then 0 else t'[i]
  {
    assert Open(Rounds, 0);
  }

  /** ngx_hash.c:327-338 */
  method Count(test: array<nat>, names: seq<Elt>, size: nat)
    requires 0 < size <= test.Length
    modifies test
    ensures Measured(test[..], names, |names|, size, PTR_SIZE)
  {
    Clear(test, size, PTR_SIZE);
    MeasuredNone(test[..], names, size, PTR_SIZE);
    var n := 0;
    while n < |names|
      invariant 0 <= n <= |names| && Measured(test[..], names, n, size, PTR_SIZE)
    {
      MeasuredStep(test[..], names, n, size, PTR_SIZE);
      Bump(test, names[n], size);
      n := n + 1;
    }
  }

  lemma RoundedNone(t: seq<nat>, names: seq<Elt>, size: nat)
    requires Measured(t, names, |names|, size, PTR_SIZE)
    ensures Rounded(t, names, size, 0)
  {
    assert Open(Sums, 0);
  }

  /** ngx_hash.c:327-350 */
  method Measure(test: array<nat>, names: seq<Elt>, size: nat) returns (len: nat)
    requires 0 < size <= test.Length
    modifies test
    ensures Rounded(test[..], names, size, size) && len == Offset(names, size, size)
  {
    Count(test, names, size);
    RoundedNone(test[..], names, size);
    len := 0;
    var i := 0;
    while i < size
      invariant 0 <= i <= size && Rounded(test[..], names, size, i) && len == Offset(names, size, i)
    {
      RoundedStep(test[..], names, size, i);
      if test[i] != PTR_SIZE {
        test[i] := Short16(Lines(test[i]));
        len := len + test[i];
      }
      i := i + 1;
    }
  }

  /** Bucket k starts at p behind the buckets before it, or is NULL where it counts as empty. */
  ghost function Home(names: seq<Elt>, size: nat, p: nat, k: nat): nat
    requires size > 0
  {
    if Count16(names, size, k) == PTR_SIZE then 0 else p + Offset(names, size, k)
  }

  ghost predicate Placed(buckets: seq<nat>, names: seq<Elt>, size: nat, p: nat, n: nat) {
    && n <= size == |buckets| && size > 0
    && forall o :: Open(Homes, o) ==>
      && (forall k :: 0 <= k < n ==> buckets[k] == Home(names, size, p, k))
      && forall k :: n <= k < size ==> buckets[k] == 0
  }

  lemma NotEight(c: nat)
    ensures Short16(Lines(c)) != PTR_SIZE
  {
    var n := Lines(c);
    assert n % CACHE_LINE == 0;
    assert Short16(n) % CACHE_LINE == 0;
  }

  lemma HomeOf(t: seq<nat>, names: seq<Elt>, size: nat, p: nat, i: nat)
    requires i < size && Rounded(t, names, size, size)
    ensures Room(names, size, i) == if t[i] != PTR_SIZE then t[i] else 0
    ensures Home(names, size, p, i) == if t[i] != PTR_SIZE then p + Offset(names, size, i) else 0
  {
    assert Open(Rounds, 0);
    NotEight(Count16(names, size, i));
  }

  lemma PlacedStep(buckets: seq<nat>, names: seq<Elt>, size: nat, p: nat, i: nat, h: nat)
    requires Placed(buckets, names, size, p, i) && i < size && h == Home(names, size, p, i)
    ensures Placed(buckets[i := h], names, size, p, i + 1)
    ensures h == 0 ==> Placed(buckets, names, size, p, i + 1)
  {
    assert Open(Homes, 0);
  }

  /** ngx_hash.c:379-387 */
  method Place(test: array<nat>, ghost names: seq<Elt>, size: nat, p: nat) returns (buckets: seq<nat>)
    requires 0 < size <= test.Length && Rounded(test[..], names, size, size)
    ensures Placed(buckets, names, size, p, size)
  {
    buckets := seq(size, i => 0);
    var elts, i := p, 0;
    while i < size
      invariant 0 <= i <= size && Placed(buckets, names, size, p, i) && elts == p + Offset(names, size, i)
    {
      HomeOf(test[..], names, size, p, i);
      PlacedStep(buckets, names, size, p, i, Home(names, size, p, i));
      if test[i] != PTR_SIZE {
        buckets := buckets[i := elts];
        elts := elts + test[i];
      }
      i := i + 1;
    }
  }

  // Filling the buckets

  ghost predicate Covers(m: Memory, lo: nat, hi: nat) { forall o, x :: Open(Range, o) && lo <= x < hi ==> x in m }

  lemma CoversSame(m: Memory, m': Memory, lo: nat, hi: nat)
    requires Covers(m, lo, hi) && m.Keys == m'.Keys
    ensures Covers(m', lo, hi)
  {
    assert Open(Range, 0);
    forall x | lo <= x < hi ensures x in m' { assert x in m.Keys; }
  }

  lemma CoversPart(m: Memory, lo: nat, hi: nat, a: nat, b: nat)
    requires Covers(m, lo, hi) && lo <= a && b <= hi
    ensures Covers(m, a, b)
  {
    assert Open(Range, 0);
  }

  /** A new block of memory. */
  function Block(a: nat, n: nat): Memory { if n == 0 then map[] else Block(a, n - 1)[a + n - 1 := Junk] }

  lemma {:induction false} BlockCovers(a: nat, n: nat)
    ensures Covers(Block(a, n), a, a + n)
  {
    if n > 0 {
      BlockCovers(a, n - 1);
      assert Open(Range, 0);
    }
  }

  /** Every bucket holds those of the first n names that go there. */
  ghost predicate Filled(m: Memory, buckets: seq<nat>, names: seq<Elt>, n: nat, size: nat) {
    && n <= |names| && size == |buckets| && size > 0
    && forall o, k :: Open(Contents, o) && 0 <= k < size ==> Packed(m, buckets[k], In(names, n, size, k))
  }

  /** The room of a bucket, and that all of it lies before the end. */
  lemma Inside(names: seq<Elt>, n: nat, size: nat, k: nat, b: seq<nat>, p: nat)
    requires Laid(names, size) && n <= |names| && Placed(b, names, size, p, size) && k < size
      && In(names, n, size, k) != []
    ensures b[k] == p + Offset(names, size, k) && Total(In(names, n, size, k)) + PTR_SIZE <= Room(names, size, k)
    ensures Offset(names, size, k) + Room(names, size, k) <= Offset(names, size, size)
  {
    InGrows(names, n, |names|, size, k);
    OffsetGrows(names, size, k, size);
    RoomEnough(names, size, k);
    assert Open(Homes, 0) && b[k] == Home(names, size, p, k);
  }

  /** The place of element n: behind those of its bucket before it. */
  ghost function Spot(b: seq<nat>, names: seq<Elt>, n: nat, size: nat): nat
    requires 0 < size == |b| && n < |names|
  {
    var k := names[n].hash % size; b[k] + Total(In(names, n, size, k))
  }

  lemma SpotInside(names: seq<Elt>, n: nat, size: nat, b: seq<nat>, p: nat)
    requires Laid(names, size) && n < |names| && Placed(b, names, size, p, size) && !names[n].dropped
    ensures var k, a := names[n].hash % size, Spot(b, names, n, size);
      p + Offset(names, size, k) <= a
        && a + EltSize(names[n].key) + PTR_SIZE <= p + Offset(names, size, k) + Room(names, size, k)
    ensures Spot(b, names, n, size) + EltSize(names[n].key) <= p + Offset(names, size, size)
  {
    var k := names[n].hash % size;
    InStep(names, n, size, k);
    Inside(names, n + 1, size, k, b, p);
  }

  lemma SameBucket(m: Memory, m': Memory, b: seq<nat>, names: seq<Elt>, n: nat, size: nat)
    requires Filled(m, b, names, n, size) && n < |names| && !names[n].dropped
    requires var a := Spot(b, names, n, size); Same(m, m', a, a + EltSize(names[n].key)) && EltAt(m', a, names[n])
    ensures var k := names[n].hash % size; Packed(m', b[k], In(names, n + 1, size, k))
  {
    var k, a := names[n].hash % size, Spot(b, names, n, size);
    var list := In(names, n, size, k);
    assert Open(Contents, 0) && Packed(m, b[k], list);
    PackedKept(m, m', a, a + EltSize(names[n].key), b[k], list);
    PackedMore(m', b[k], list, names[n]);
  }

  /** What is written in the room of one bucket leaves the others alone. */
  lemma OtherBucket(m: Memory, m': Memory, b: seq<nat>, names: seq<Elt>, n: nat, size: nat, p: nat, j: nat, k: nat,
      lo: nat, hi: nat)
    requires Laid(names, size) && n <= |names| && Placed(b, names, size, p, size) && j < size && k < size && j != k
    requires Packed(m, b[k], In(names, n, size, k)) && Same(m, m', lo, hi)
    requires p + Offset(names, size, j) <= lo && hi <= p + Offset(names, size, j) + Room(names, size, j)
    ensures Packed(m', b[k], In(names, n, size, k))
  {
    var list := In(names, n, size, k);
    if list != [] {
      Inside(names, n, size, k, b, p);
      RoomsApart(names, size, j, k, p);
      PackedKept(m, m', lo, hi, b[k], list);
    }
  }

  lemma FillStep(m: Memory, m': Memory, b: seq<nat>, names: seq<Elt>, n: nat, size: nat, p: nat)
    requires Laid(names, size) && Filled(m, b, names, n, size) && n < |names| && !names[n].dropped
      && Placed(b, names, size, p, size)
    requires var a := Spot(b, names, n, size); Same(m, m', a, a + EltSize(names[n].key)) && EltAt(m', a, names[n])
    ensures Filled(m', b, names, n + 1, size)
  {
    var key, a := names[n].hash % size, Spot(b, names, n, size);
    SpotInside(names, n, size, b, p);
    forall k | 0 <= k < size ensures Packed(m', b[k], In(names, n + 1, size, k)) {
      if k == key {
        SameBucket(m, m', b, names, n, size);
      } else {
        assert Open(Contents, 0) && Packed(m, b[k], In(names, n, size, k));
        OtherBucket(m, m', b, names, n, size, p, key, k, a, a + EltSize(names[n].key));
      }
    }
  }

  lemma SkipStep(m: Memory, b: seq<nat>, names: seq<Elt>, n: nat, size: nat)
    requires Filled(m, b, names, n, size) && n < |names| && names[n].dropped
    ensures Filled(m, b, names, n + 1, size)
  {
    forall k | 0 <= k < size ensures Packed(m, b[k], In(names, n + 1, size, k)) {
      assert Open(Contents, 0) && Packed(m, b[k], In(names, n, size, k));
    }
  }

  // The NULL pointers that end the buckets

  /** A bucket: NULL if it is empty, else its elements followed by a NULL pointer. */
  ghost predicate BucketAt(m: Memory, a: nat, list: seq<Elt>) {
    if list == [] then a == 0
    else a > 0 && a % PTR_SIZE == 0 && Packed(m, a, list) && PtrAt(m, a + Total(list), 0)
  }

  ghost predicate Ended(m: Memory, b: seq<nat>, names: seq<Elt>, size: nat, n: nat) {
    && n <= size == |b| && size > 0
    && forall o, k :: Open(Ends, o) && 0 <= k < n && b[k] != 0 ==> PtrAt(m, b[k] + Total(Bucket(names, size, k)), 0)
  }

  lemma PtrKept(m: Memory, m': Memory, lo: nat, hi: nat, a: nat, v: nat)
    requires Same(m, m', lo, hi) && PtrAt(m, a, v) && Apart(lo, hi, a, a + PTR_SIZE)
    ensures PtrAt(m', a, v)
  {
    assert OpenPtr(m, a, 0);
  }

  lemma HomeNull(names: seq<Elt>, size: nat, b: seq<nat>, p: nat, k: nat)
    requires Laid(names, size) && Placed(b, names, size, p, size) && p > 0 && k < size
    ensures b[k] == 0 <==> Bucket(names, size, k) == []
    ensures b[k] != 0 ==>
      b[k] == p + Offset(names, size, k) && Total(Bucket(names, size, k)) + PTR_SIZE <= Room(names, size, k)
    ensures Offset(names, size, k) + Room(names, size, k) <= Offset(names, size, size)
  {
    assert Open(Homes, 0) && b[k] == Home(names, size, p, k);
    RoomEnough(names, size, k);
    OffsetGrows(names, size, k, size);
  }

  lemma FilledAt(m: Memory, b: seq<nat>, names: seq<Elt>, n: nat, size: nat, k: nat)
    requires Filled(m, b, names, n, size) && k < size
    ensures Packed(m, b[k], In(names, n, size, k))
  {
    assert Open(Contents, 0);
  }

  lemma FilledNone(m: Memory, b: seq<nat>, names: seq<Elt>, size: nat)
    requires size == |b| && size > 0
    ensures Filled(m, b, names, 0, size)
  {}

  lemma EndedAt(m: Memory, b: seq<nat>, names: seq<Elt>, size: nat, n: nat, k: nat)
    requires Ended(m, b, names, size, n) && k < n && b[k] != 0
    ensures PtrAt(m, b[k] + Total(Bucket(names, size, k)), 0)
  {
    assert Open(Ends, 0);
  }

  lemma EndSkip(m: Memory, b: seq<nat>, names: seq<Elt>, size: nat, n: nat)
    requires Ended(m, b, names, size, n) && n < size && b[n] == 0
    ensures Ended(m, b, names, size, n + 1)
  {
    forall k | 0 <= k < n + 1 && b[k] != 0 ensures PtrAt(m, b[k] + Total(Bucket(names, size, k)), 0) {
      EndedAt(m, b, names, size, n, k);
    }
  }

  /** What writing the NULL pointer of bucket i leaves and makes. */
  ghost predicate Ending(m: Memory, m': Memory, b: seq<nat>, names: seq<Elt>, size: nat, p: nat, i: nat) {
    && Laid(names, size) && Placed(b, names, size, p, size) && p > 0 && i < size && b[i] != 0
    && var a := b[i] + Total(Bucket(names, size, i)); Same(m, m', a, a + PTR_SIZE) && PtrAt(m', a, 0)
  }

  lemma EndKeeps(m: Memory, m': Memory, b: seq<nat>, names: seq<Elt>, size: nat, p: nat, i: nat, k: nat)
    requires Ending(m, m', b, names, size, p, i) && k < size && Packed(m, b[k], Bucket(names, size, k))
    ensures Packed(m', b[k], Bucket(names, size, k))
  {
    var a := b[i] + Total(Bucket(names, size, i));
    HomeNull(names, size, b, p, i);
    if k == i {
      PackedKept(m, m', a, a + PTR_SIZE, b[k], Bucket(names, size, k));
    } else {
      OtherBucket(m, m', b, names, |names|, size, p, i, k, a, a + PTR_SIZE);
    }
  }

  lemma EndKeepsEnd(m: Memory, m': Memory, b: seq<nat>, names: seq<Elt>, size: nat, p: nat, i: nat, k: nat)
    requires Ending(m, m', b, names, size, p, i) && k < size && k != i && b[k] != 0
    requires PtrAt(m, b[k] + Total(Bucket(names, size, k)), 0)
    ensures PtrAt(m', b[k] + Total(Bucket(names, size, k)), 0)
  {
    var a := b[i] + Total(Bucket(names, size, i));
    HomeNull(names, size, b, p, i);
    HomeNull(names, size, b, p, k);
    RoomsApart(names, size, i, k, p);
    PtrKept(m, m', a, a + PTR_SIZE, b[k] + Total(Bucket(names, size, k)), 0);
  }

  lemma EndFilled(m: Memory, m': Memory, b: seq<nat>, names: seq<Elt>, size: nat, p: nat, i: nat)
    requires Ending(m, m', b, names, size, p, i) && Filled(m, b, names, |names|, size)
    ensures Filled(m', b, names, |names|, size)
  {
    forall k | 0 <= k < size ensures Packed(m', b[k], In(names, |names|, size, k)) {
      FilledAt(m, b, names, |names|, size, k);
      EndKeeps(m, m', b, names, size, p, i, k);
    }
  }

  lemma EndStep(m: Memory, m': Memory, b: seq<nat>, names: seq<Elt>, size: nat, p: nat, i: nat)
    requires Ending(m, m', b, names, size, p, i) && Ended(m, b, names, size, i)
    ensures Ended(m', b, names, size, i + 1)
  {
    forall k | 0 <= k < i + 1 && b[k] != 0 ensures PtrAt(m', b[k] + Total(Bucket(names, size, k)), 0) {
      if k < i {
        EndedAt(m, b, names, size, i, k);
        EndKeepsEnd(m, m', b, names, size, p, i, k);
      }
    }
  }

  /** The table that ngx_hash_init builds for a list of names. */
  ghost predicate Built(m: Memory, b: seq<nat>, names: seq<Elt>, size: nat) {
    |b| == size && size > 0
      && forall o, k :: Open(Table, o) && 0 <= k < size ==> BucketAt(m, b[k], Bucket(names, size, k))
  }

  lemma BuiltAt(m: Memory, b: seq<nat>, names: seq<Elt>, size: nat, p: nat, k: nat)
    requires Laid(names, size) && Filled(m, b, names, |names|, size) && Placed(b, names, size, p, size)
      && Ended(m, b, names, size, size)
    requires p > 0 && p % PTR_SIZE == 0 && k < size
    ensures BucketAt(m, b[k], Bucket(names, size, k))
  {
    HomeNull(names, size, b, p, k);
    FilledAt(m, b, names, |names|, size, k);
    OffsetAligned(names, size, k);
    AlignedSum(p, Offset(names, size, k));
    if b[k] != 0 { EndedAt(m, b, names, size, size, k); }
  }

  lemma BuiltWhole(m: Memory, b: seq<nat>, names: seq<Elt>, size: nat, p: nat)
    requires Laid(names, size) && Filled(m, b, names, |names|, size) && Placed(b, names, size, p, size)
      && Ended(m, b, names, size, size)
    requires p > 0 && p % PTR_SIZE == 0
    ensures Built(m, b, names, size)
  {
    forall k | 0 <= k < size ensures BucketAt(m, b[k], Bucket(names, size, k)) { BuiltAt(m, b, names, size, p, k); }
  }

  // Reading

  /**
   * What a walk along a bucket finds: it stops at a NULL value, and else returns the first value whose name matches.
   */
  ghost function Walk(list: seq<Elt>, name: string): nat {
    if list == [] || list[0].value == 0 then 0
    else if LowerAll(list[0].key) == name then list[0].value
    else Walk(list[1..], name)
  }

  /** The pointer at the head of element i, or the one behind the last element. */
  lemma HeadAt(m: Memory, a: nat, list: seq<Elt>, i: nat)
    requires BucketAt(m, a, list) && list != [] && i <= |list|
    ensures PtrAt(m, a + Total(list[..i]), if i < |list| then list[i].value else 0)
    ensures i < |list| ==> EltAt(m, a + Total(list[..i]), list[i]) && LenAt(m, a + Total(list[..i]) + 8, |list[i].key|)
  {
    if i < |list| {
      PackedAt(m, a, list, i);
      assert OpenElt(m, a + Total(list[..i]), 0);
    } else {
      assert list[..i] == list;
    }
  }

  lemma WalkStep(list: seq<Elt>, i: nat, name: string)
    requires i <= |list|
    ensures Walk(list[i..], name) ==
      if i == |list| || list[i].value == 0 then 0
        else if LowerAll(list[i].key) == name then list[i].value else Walk(list[i + 1..], name)
  {
    if i < |list| { assert list[i..][1..] == list[i + 1..]; }
  }

  /** The find-side alignment lands on the next element. */
  lemma Advance(a: nat, list: seq<Elt>, i: nat)
    requires a % PTR_SIZE == 0 && i < |list|
    ensures Align(a + Total(list[..i]) + 10 + |list[i].key|) == a + Total(list[..i + 1])
  {
    TotalAligned(list[..i]);
    AlignedSum(a, Total(list[..i]));
    NextElement(a + Total(list[..i]), list[i].key);
    PrefixTotal(list, i);
  }

  /** The element is that of the name: it has been stored in small letters. */
  ghost predicate Match(e: Elt, name: string) { !e.dropped && Spelled(e.key, name) }

  /** The value of the first of the first n names that is this one, or NULL. */
  ghost predicate FirstMatch(names: seq<Elt>, n: nat, name: string, r: nat) {
    && n <= |names|
    && (r == 0 ==> forall i :: 0 <= i < n ==> !Match(names[i], name))
    && (r != 0 ==>
      exists i :: 0 <= i < n && Match(names[i], name) && r == names[i].value && forall j :: 0 <= j < i ==>
      !Match(names[j], name))
  }

  ghost predicate Valued(list: seq<Elt>) { forall e :: e in list ==> e.value != 0 }

  lemma {:induction false} WalkMore(list: seq<Elt>, e: Elt, name: string)
    requires e.value != 0 && Valued(list)
    ensures Walk(list + [e], name) == if Walk(list, name) != 0 then Walk(list, name)
      else if LowerAll(e.key) == name then e.value else 0
  {
    if list == [] {
      assert [e][1..] == [];
      assert [] + [e] == [e];
    } else {
      assert (list + [e])[1..] == list[1..] + [e];
      WalkMore(list[1..], e, name);
    }
  }

  ghost predicate NoNull(names: seq<Elt>) { forall i :: 0 <= i < |names| && !names[i].dropped ==> names[i].value != 0 }

  lemma {:induction false} InValues(names: seq<Elt>, n: nat, size: nat, k: nat)
    requires n <= |names| && size > 0 && NoNull(names)
    ensures Valued(In(names, n, size, k))
  {
    if n > 0 {
      InValues(names, n - 1, size, k);
      assert Goes(names[n - 1], size, k) ==> names[n - 1].value != 0;
    }
  }

  /** Each name that is this one has the hash of this one, and no name has a NULL value. */
  ghost predicate Consistent(names: seq<Elt>, key: nat, name: string) {
    NoNull(names) && forall i :: 0 <= i < |names| && Match(names[i], name) ==> names[i].hash == key
  }

  /** A walk along the bucket of a name finds what a search of the whole list finds. */
  lemma {:induction false} WalkIsSearch(names: seq<Elt>, n: nat, size: nat, key: nat, name: string)
    requires n <= |names| && size > 0 && Consistent(names, key, name)
    ensures FirstMatch(names, n, name, Walk(In(names, n, size, key % size), name))
  {
    if n > 0 {
      WalkIsSearch(names, n - 1, size, key, name);
      var e, list := names[n - 1], In(names, n - 1, size, key % size);
      InValues(names, n - 1, size, key % size);
      if Goes(e, size, key % size) {
        WalkMore(list, e, name);
      }
      SpelledIs(e.key, name);
      if Match(e, name) && Walk(list, name) == 0 {
        assert Goes(e, size, key % size);
      }
    }
  }

  /** Each element fits a bucket together with a NULL pointer. */
  ghost predicate Roomy(names: seq<Elt>, bucketSize: nat) {
    forall n :: 0 <= n < |names| ==> EltSize(names[n].key) + PTR_SIZE <= bucketSize
  }

  const WORD := 0x1_0000_0000_0000_0000

  /** The bucket size less a pointer, as a size_t (ngx_hash.c:276). */
  function Inner(bucketSize: nat): nat {
    if bucketSize >= PTR_SIZE then bucketSize - PTR_SIZE else bucketSize + WORD - PTR_SIZE
  }

  /** ngx_hash.c:278-283 */
  function Start(nelts: nat, maxSize: nat, b: nat): (r: nat)
    requires b >= 16
    ensures r > 0
  {
    if maxSize > 10000 && nelts > 0 && maxSize / nelts < 100 then maxSize - 1000
    else if nelts / (b / 16) == 0 then 1
    else nelts / (b / 16)
  }

  /** The least size that passes, among those tried. */
  ghost predicate Chosen(names: seq<Elt>, size: nat, start: nat, maxSize: nat, b: nat) {
    start <= size < maxSize && Passes(names, size, b) && forall s :: start <= s < size ==> !Passes(names, s, b)
  }

  ghost predicate SomePasses(names: seq<Elt>, start: nat, maxSize: nat, b: nat) {
    exists s :: start <= s < maxSize && Passes(names, s, b)
  }

  /** Where no sum wraps, the size chosen is the least at which every bucket has room, and all buckets are laid out. */
  lemma ChosenFits(names: seq<Elt>, size: nat, start: nat, maxSize: nat, b: nat)
    requires b < USHORT && NoJump(names, b) && start > 0
    ensures SomePasses(names, start, maxSize, b) <==> exists s :: start <= s < maxSize && Fits(names, s, b)
    ensures Chosen(names, size, start, maxSize, b) <==>
      start <= size < maxSize && Fits(names, size, b) && forall s :: start <= s < size ==> !Fits(names, s, b)
    ensures Chosen(names, size, start, maxSize, b) && Highest(b) <= LARGEST ==> Laid(names, size)
  {
    forall s | start <= s ensures Passes(names, s, b) <==> Fits(names, s, b) { PassesIsFits(names, s, b); }
    if Chosen(names, size, start, maxSize, b) && Highest(b) <= LARGEST {
      forall k | 0 <= k < size ensures Total(Bucket(names, size, k)) <= LARGEST {
        PassedTotal(names, |names|, size, k, b);
      }
    }
  }

  /** Elements are written at p and behind it, up to hi, and n of them are there. */
  ghost predicate Ready(m: Memory, b: seq<nat>, names: seq<Elt>, n: nat, size: nat, p: nat, hi: nat) {
    && Placed(b, names, size, p, size) && size > 0 && p + Offset(names, size, size) <= hi && Covers(m, p, hi)
    && Filled(m, b, names, n, size)
  }

  class HashTable {
    var mem: Memory
    var buckets: seq<nat>
    var size: nat

    constructor ()
      ensures mem == map[] && buckets == [] && size == 0
    {
      mem, buckets, size := map[], [], 0;
    }

    static function PtrByte(v: nat, a: nat, x: nat): Cell
      requires a <= x
    {
      Ptr(v, x - a)
    }

    method PutPointer(a: nat, v: nat)
      modifies this`mem
      ensures PtrAt(mem, a, v) && (Covers(old(mem), a, a + PTR_SIZE) ==> Same(old(mem), mem, a, a + PTR_SIZE))
    {
      assert Open(Range, 0);
      mem := mem + map x | a <= x < a + PTR_SIZE :: PtrByte(v, a, x);
    }

    method PutLength(a: nat, n: nat)
      modifies this`mem
      ensures LenAt(mem, a, n) && (Covers(old(mem), a, a + 2) ==> Same(old(mem), mem, a, a + 2))
    {
      assert Open(Range, 0);
      mem := mem[a := Short(n, 0)][a + 1 := Short(n, 1)];
    }

    /** ngx_strlow */
    method PutName(a: nat, s: string)
      modifies this`mem
      ensures NameAt(mem, a, LowerAll(s)) && (Covers(old(mem), a, a + |s|) ==> Same(old(mem), mem, a, a + |s|))
    {
      assert Open(Range, 0);
      ghost var m, low := mem, LowerAll(s);
      var i := 0;
      while i < |s|
        invariant 0 <= i <= |s| && (Covers(m, a, a + |s|) ==> Same(m, mem, a, a + |s|)) && NameAt(mem, a, low[..i])
      {
        mem := mem[a + i := Char(Lower(s[i]))];
        i := i + 1;
      }
      assert low[..i] == low;
    }

    /** ngx_hash.c:401-404 */
    method PutElement(a: nat, e: Elt)
      modifies this`mem
      ensures Covers(old(mem), a, a + EltSize(e.key)) && |e.key| < USHORT ==>
        Same(old(mem), mem, a, a + EltSize(e.key)) && EltAt(mem, a, e)
    {
      assert Open(Range, 0);
      PutPointer(a, e.value);
      ghost var m := mem;
      PutLength(a + 8, Short16(|e.key|));
      PutName(a + 10, e.key);
      assert OpenPtr(m, a, 0);
    }

    method FillOne(names: seq<Elt>, n: nat, b: seq<nat>, size: nat, ghost p: nat, ghost hi: nat, used: nat)
      requires n < |names| && !names[n].dropped && 0 < size == |b|
      requires Laid(names, size) ==>
        Ready(mem, b, names, n, size, p, hi) && used == Total(In(names, n, size, names[n].hash % size))
      modifies this`mem
      ensures Laid(names, size) ==> Ready(mem, b, names, n + 1, size, p, hi)
    {
      var e := names[n];
      var a := b[e.hash % size] + used;
      ghost var m := mem;
      PutElement(a, e);
      if Laid(names, size) {
        SpotInside(names, n, size, b, p);
        LaidAt(names, n + 1, size, e.hash % size);
        CoversPart(m, p, hi, a, a + EltSize(e.key));
        CoversSame(m, mem, p, hi);
        FillStep(m, mem, b, names, n, size, p);
      }
    }

    /** ngx_hash.c:389-407 */
    method Fill(test: array<nat>, names: seq<Elt>, b: seq<nat>, size: nat, ghost p: nat, ghost hi: nat)
      requires 0 < size <= test.Length && Placed(b, names, size, p, size) && p + Offset(names, size, size) <= hi
      requires Covers(mem, p, hi)
      modifies this`mem, test
      ensures Laid(names, size) ==> Ready(mem, b, names, |names|, size, p, hi)
      ensures Measured(test[..], names, |names|, size, 0)
    {
      Clear(test, size, 0);
      MeasuredNone(test[..], names, size, 0);
      FilledNone(mem, b, names, size);
      var n := 0;
      while n < |names|
        invariant 0 <= n <= |names| && Measured(test[..], names, n, size, 0)
        invariant Laid(names, size) ==> Ready(mem, b, names, n, size, p, hi)
      {
        FillNext(test, names, n, b, size, p, hi);
        n := n + 1;
      }
    }

    /** One round of that loop. */
    method FillNext(test: array<nat>, names: seq<Elt>, n: nat, b: seq<nat>, size: nat, ghost p: nat, ghost hi: nat)
      requires 0 < size == |b| <= test.Length && n < |names| && Measured(test[..], names, n, size, 0)
      requires Laid(names, size) ==> Ready(mem, b, names, n, size, p, hi)
      modifies this`mem, test
      ensures Measured(test[..], names, n + 1, size, 0)
      ensures Laid(names, size) ==> Ready(mem, b, names, n + 1, size, p, hi)
    {
      if !names[n].dropped {
        var k := names[n].hash % size;
        MeasuredAt(test[..], names, n, size, 0, k);
        if Laid(names, size) { LaidAt(names, n, size, k); }
        FillOne(names, n, b, size, p, hi, test[k]);
      } else if Laid(names, size) {
        SkipStep(mem, b, names, n, size);
      }
      MeasuredStep(test[..], names, n, size, 0);
      Bump(test, names[n], size);
    }

    method EndOne(ghost names: seq<Elt>, b: seq<nat>, ghost size: nat, ghost p: nat, ghost hi: nat, i: nat, used: nat)
      requires 0 <= i < size == |b| && b[i] != 0 && p > 0
      requires Laid(names, size) ==> used == Total(Bucket(names, size, i)) && Ended(mem, b, names, size, i)
      requires Laid(names, size) ==> Ready(mem, b, names, |names|, size, p, hi)
      modifies this`mem
      ensures Laid(names, size) ==> Ready(mem, b, names, |names|, size, p, hi) && Ended(mem, b, names, size, i + 1)
    {
      ghost var m := mem;
      PutPointer(b[i] + used, 0);
      if Laid(names, size) {
        HomeNull(names, size, b, p, i);
        CoversPart(m, p, hi, b[i] + used, b[i] + used + PTR_SIZE);
        CoversSame(m, mem, p, hi);
        EndFilled(m, mem, b, names, size, p, i);
        EndStep(m, mem, b, names, size, p, i);
      }
    }

    /** ngx_hash.c:409-417 */
    method End(test: array<nat>, ghost names: seq<Elt>, b: seq<nat>, size: nat, ghost p: nat, ghost hi: nat)
      requires 0 < size <= test.Length && |b| == size && p > 0 && Measured(test[..], names, |names|, size, 0)
      requires Laid(names, size) ==> Ready(mem, b, names, |names|, size, p, hi)
      modifies this`mem
      ensures Laid(names, size) ==> Ready(mem, b, names, |names|, size, p, hi) && Ended(mem, b, names, size, size)
    {
      ghost var t := test[..];
      var i := 0;
      while i < size
        invariant 0 <= i <= size
        invariant Laid(names, size) ==> Ready(mem, b, names, |names|, size, p, hi) && Ended(mem, b, names, size, i)
      {
        if b[i] != 0 {
          MeasuredAt(t, names, |names|, size, 0, i);
          if Laid(names, size) { LaidAt(names, |names|, size, i); }
          EndOne(names, b, size, p, hi, i, test[i]);
        } else if Laid(names, size) {
          EndSkip(mem, b, names, size, i);
        }
        i := i + 1;
      }
    }

    method Obtain(block: nat, n: nat, ghost p: nat)
      requires block <= p <= block + n
      modifies this`mem
      ensures Covers(mem, p, block + n)
    {
      mem := Block(block, n);
      BlockCovers(block, n);
      CoversPart(mem, block, block + n, p, block + n);
    }

    /** ngx_hash.c:371-417: lay the elements out in a new block of memory */
    method Lay(test: array<nat>, names: seq<Elt>, n: nat, block: nat, len: nat) returns (b: seq<nat>)
      requires 0 < n <= test.Length && block > 0 && Rounded(test[..], names, n, n) && len == Offset(names, n, n)
      modifies this`mem, test
      ensures Placed(b, names, n, Lines(block), n) && (Laid(names, n) ==> Built(mem, b, names, n))
    {
      var p, hi := Lines(block), block + len + CACHE_LINE;
      b := Place(test, names, n, p);
      Obtain(block, len + CACHE_LINE, p);
      Fill(test, names, b, n, p, hi);
      End(test, names, b, n, p, hi);
      LinesAligned(block);
      if Laid(names, n) { BuiltWhole(mem, b, names, n, p); }
    }

    /** ngx_hash.c:327-422, once a size is chosen; the table is left alone unless all of its memory is granted */
    method Build(test: array<nat>, names: seq<Elt>, n: nat, grant: Memories) returns (rc: Status)
      requires 0 < n <= test.Length
      modifies this, test
      ensures rc == if grant.table && grant.elts != 0 then Ok else Failed
      ensures rc == Ok ==> size == n && Placed(buckets, names, n, Lines(grant.elts), n)
      ensures rc == Ok && Laid(names, n) ==> Built(mem, buckets, names, n)
      ensures rc == Failed ==> mem == old(mem) && buckets == old(buckets) && size == old(size)
    {
      var len := Measure(test, names, n);
      if !grant.table || grant.elts == 0 {
        return Failed;
      }
      var b := Lay(test, names, n, grant.elts, len);
      buckets, size := b, n;
      rc := Ok;
    }

    /** ngx_hash_init */
    method Init(names: seq<Elt>, maxSize: nat, bucketSize: nat, grant: Memories) returns (rc: Status)
      modifies this
      ensures rc == Trapped <==> names == [] && grant.test && PTR_SIZE <= bucketSize < 24
      ensures rc == Ok <==>
        && Roomy(names, bucketSize) && grant.test && grant.table && grant.elts != 0 && Inner(bucketSize) >= 16
        && SomePasses(names, Start(|names|, maxSize, Inner(bucketSize)), maxSize, Inner(bucketSize))
      ensures rc == Ok ==>
        && Inner(bucketSize) >= 16
        && Chosen(names, size, Start(|names|, maxSize, Inner(bucketSize)), maxSize, Inner(bucketSize))
        && Placed(buckets, names, size, Lines(grant.elts), size)
      ensures rc == Ok && Laid(names, size) ==> Built(mem, buckets, names, size)
      ensures rc != Ok ==> mem == old(mem) && buckets == old(buckets) && size == old(size)
    {
      var n := 0;
      while n < |names|
        invariant 0 <= n <= |names| && forall i :: 0 <= i < n ==> EltSize(names[i].key) + PTR_SIZE <= bucketSize
      {
        if bucketSize < EltSize(names[n].key) + PTR_SIZE {
          return Failed;
        }
        n := n + 1;
      }
      assert names != [] ==> EltSize(names[0].key) >= 16;
      if !grant.test {
        return Failed;
      }
      var test := new nat[maxSize];
      var b := Inner(bucketSize);
      if b / 16 == 0 {
        return Trapped;
      }
      var start := Start(|names|, maxSize, b);
      var s := ChooseSize(test, names, start, b);
      if s >= maxSize {
        return Failed;
      }
      rc := Build(test, names, s, grant);
    }

    method LengthAt(a: nat, ghost n: nat) returns (r: nat)
      requires LenAt(mem, a, n)
      ensures r == n
    {
      r := mem[a].n;
    }

    method PointerAt(a: nat, ghost v: nat) returns (r: nat)
      requires PtrAt(mem, a, v)
      ensures r == v
    {
      assert OpenPtr(mem, a, 0);
      r := mem[a].v;
    }

    /** ngx_hash.c:29-37: does this element have this name? */
    method Compare(a: nat, ghost e: Elt, name: string) returns (same: bool)
      requires EltAt(mem, a, e)
      ensures same <==> LowerAll(e.key) == name
    {
      assert OpenElt(mem, a, 0);
      if mem[a + 8].n != |name| {
        return false;
      }
      var i := 0;
      while i < |name|
        invariant 0 <= i <= |name| == |e.key| && forall j :: 0 <= j < i ==> LowerAll(e.key)[j] == name[j]
      {
        if name[i] != mem[a + 10 + i].c {
          return false;
        }
        i := i + 1;
      }
      return true;
    }

    /** ngx_hash_find */
    method Find(ghost names: seq<Elt>, key: nat, name: string) returns (v: nat)
      requires Built(mem, buckets, names, size)
      ensures v == Walk(Bucket(names, size, key % size), name)
      ensures Consistent(names, key, name) ==> FirstMatch(names, |names|, name, v)
    {
      ghost var list := Bucket(names, size, key % size);
      var elt := buckets[key % size];
      assert Open(Table, 0) && BucketAt(mem, elt, list);
      if Consistent(names, key, name) { WalkIsSearch(names, |names|, size, key, name); }
      if elt == 0 {
        return 0;
      }
      v := WalkBucket(list, elt, name);
    }

    /** ngx_hash.c:28-48, from the first element on */
    method WalkBucket(ghost list: seq<Elt>, a: nat, name: string) returns (v: nat)
      requires BucketAt(mem, a, list) && list != []
      ensures v == Walk(list, name)
    {
      var elt := a;
      ghost var i := 0;
      assert list[0..] == list && list[..0] == [];
      while true
        invariant 0 <= i <= |list| && elt == a + Total(list[..i]) && Walk(list[i..], name) == Walk(list, name)
        decreases |list| - i
      {
        HeadAt(mem, a, list, i);
        WalkStep(list, i, name);
        v := PointerAt(elt, if i < |list| then list[i].value else 0);
        if v == 0 {
          return;
        }
        var same := Compare(elt, list[i], name);
        if same {
          return;
        }
        Advance(a, list, i);
        var len := LengthAt(elt + 8, |list[i].key|);
        elt := Align(elt + 10 + len);
        i := i + 1;
      }
    }
  }
}
