/** The size test of ngx_hash_init (ngx_hash.c:285-313), and for which bucket and name sizes it is right. */
module HashSize {
  import opened HashLayout

  /** A u_short sum: the total without its multiples of 65536. */
  ghost function Sum16(list: seq<Elt>): nat { Short16(Total(list)) }

  /** No running u_short sum of a bucket over the first n names goes over the u_short bucket size. */
  ghost predicate Under(names: seq<Elt>, n: nat, size: nat, b: nat) {
    size > 0
      && forall m, k :: 0 <= m <= n && m <= |names| && 0 <= k < size ==> Sum16(In(names, m, size, k)) <= Short16(b)
  }

  ghost predicate Passes(names: seq<Elt>, size: nat, b: nat) { Under(names, |names|, size, b) }

  ghost predicate Sums16(t: seq<nat>, names: seq<Elt>, n: nat, size: nat) {
    n <= |names| && 0 < size <= |t| && forall k :: 0 <= k < size ==> t[k] == Sum16(In(names, n, size, k))
  }

  lemma Sum16More(list: seq<Elt>, e: Elt)
    ensures Sum16(list + [e]) == Short16(Sum16(list) + EltSize(e.key))
  {
    TotalMore(list, e);
    ShortOfShort(Total(list), EltSize(e.key));
  }

  lemma ShortOfShort(t: nat, n: nat)
    ensures Short16(Short16(t) + n) == Short16(t + n)
  {}

  /** The sums after the element e. */
  function Bumped(t: seq<nat>, e: Elt, size: nat): (r: seq<nat>)
    requires 0 < size <= |t|
    ensures |r| == |t|
  {
    if e.dropped then t else var k := e.hash % size; t[k := Short16(t[k] + EltSize(e.key))]
  }

  lemma Sums16Step(t: seq<nat>, names: seq<Elt>, n: nat, size: nat)
    requires Sums16(t, names, n, size) && n < |names|
    ensures Sums16(Bumped(t, names[n], size), names, n + 1, size)
  {
    var t' := Bumped(t, names[n], size);
    forall k | 0 <= k < size ensures t'[k] == Sum16(In(names, n + 1, size, k)) {
      if Goes(names[n], size, k) { Sum16More(In(names, n, size, k), names[n]); }
    }
  }

  /** Element n changes the sum of its own bucket only. */
  lemma UnderAt(t: seq<nat>, names: seq<Elt>, n: nat, size: nat, b: nat, k: nat)
    requires Sums16(t, names, n, size) && n < |names| && k < size && Sum16(In(names, n, size, k)) <= Short16(b)
    requires var e := names[n]; e.dropped || Bumped(t, e, size)[e.hash % size] <= Short16(b)
    ensures Sum16(In(names, n + 1, size, k)) <= Short16(b)
  {
    if Goes(names[n], size, k) {
      Sum16More(In(names, n, size, k), names[n]);
      assert t[k] == Sum16(In(names, n, size, k));
    }
  }

  lemma UnderStep(t: seq<nat>, names: seq<Elt>, n: nat, size: nat, b: nat)
    requires Sums16(t, names, n, size) && n < |names| && Under(names, n, size, b)
    requires var e := names[n]; e.dropped || Bumped(t, e, size)[e.hash % size] <= Short16(b)
    ensures Under(names, n + 1, size, b)
  {
    forall m, k | 0 <= m <= n + 1 && 0 <= k < size ensures Sum16(In(names, m, size, k)) <= Short16(b) {
      if m == n + 1 {
        assert Sum16(In(names, n, size, k)) <= Short16(b);
        UnderAt(t, names, n, size, b, k);
      }
    }
  }

  lemma OverStep(t: seq<nat>, names: seq<Elt>, n: nat, size: nat, b: nat)
    requires Sums16(t, names, n, size) && n < |names| && !names[n].dropped
    requires Bumped(t, names[n], size)[names[n].hash % size] > Short16(b)
    ensures !Passes(names, size, b)
  {
    Sums16Step(t, names, n, size);
    SumsOver(Bumped(t, names[n], size), names, n + 1, size, b, names[n].hash % size);
  }

  lemma SumsOver(t: seq<nat>, names: seq<Elt>, n: nat, size: nat, b: nat, k: nat)
    requires Sums16(t, names, n, size) && k < size && t[k] > Short16(b)
    ensures !Passes(names, size, b)
  {
    assert t[k] == Sum16(In(names, n, size, k));
  }

  /** One round of the loops that add sizes up. */
  method Bump(test: array<nat>, e: Elt, size: nat)
    requires 0 < size <= test.Length
    modifies test
    ensures test[..] == Bumped(old(test[..]), e, size)
  {
    if !e.dropped {
      var key := e.hash % size;
      test[key] := Short16(test[key] + EltSize(e.key));
    }
  }

  method Clear(test: array<nat>, size: nat, v: nat)
    requires size <= test.Length
    modifies test
    ensures forall i :: 0 <= i < size ==> test[i] == v
  {
    forall i | 0 <= i < size { test[i] := v; }
  }

  /** ngx_hash.c:287-306, for one size */
  method TrySize(test: array<nat>, names: seq<Elt>, size: nat, b: nat) returns (ok: bool)
    requires 0 < size <= test.Length
    modifies test
    ensures ok <==> Passes(names, size, b)
  {
    Clear(test, size, 0);
    var n := 0;
    while n < |names|
      invariant 0 <= n <= |names| && Sums16(test[..], names, n, size) && Under(names, n, size, b)
    {
      ghost var t := test[..];
      var e := names[n];
      Bump(test, e, size);
      Sums16Step(t, names, n, size);
      if !e.dropped && test[e.hash % size] > Short16(b) {
        OverStep(t, names, n, size, b);
        return false;
      }
      UnderStep(t, names, n, size, b);
      n := n + 1;
    }
    return true;
  }

  // The test is right

  /** The largest sum that passes; sums are 0 or a multiple of 8 from 16 on. */
  function Highest(b: nat): nat { if Short16(b) < 16 then 0 else Short16(b) / PTR_SIZE * PTR_SIZE }

  /** No element takes a sum that passed to 65536 or more. */
  ghost predicate NoJump(names: seq<Elt>, b: nat) {
    forall n :: 0 <= n < |names| ==> Highest(b) + EltSize(names[n].key) < USHORT
  }

  lemma PassesAt(names: seq<Elt>, n: nat, size: nat, k: nat, b: nat)
    requires n <= |names| && Passes(names, size, b) && k < size
    ensures Short16(Total(In(names, n, size, k))) <= Short16(b)
  {
    assert Sum16(In(names, n, size, k)) <= Short16(b);
  }

  /** A sum that passes and has not jumped past 65536 is what it seems. */
  lemma NoJumpStep(t: nat, e: nat, b: nat)
    requires e % PTR_SIZE == 0 && e >= 16 && Highest(b) + e < USHORT
    requires t % PTR_SIZE == 0 && t <= Highest(b) && Short16(t + e) <= Short16(b)
    ensures t + e <= Highest(b)
  {
    assert (t + e) % PTR_SIZE == 0 && Short16(t + e) == t + e;
    var s := Short16(b);
    assert (t + e) / PTR_SIZE <= s / PTR_SIZE;
  }

  lemma {:induction false} PassedTotal(names: seq<Elt>, n: nat, size: nat, k: nat, b: nat)
    requires NoJump(names, b) && n <= |names| && Passes(names, size, b) && k < size
    ensures Total(In(names, n, size, k)) <= Highest(b)
  {
    if n > 0 {
      PassedTotal(names, n - 1, size, k, b);
      InStep(names, n - 1, size, k);
      PassesAt(names, n, size, k, b);
      TotalAligned(In(names, n - 1, size, k));
      EltAligned(names[n - 1].key);
      if Goes(names[n - 1], size, k) { NoJumpStep(Total(In(names, n - 1, size, k)), EltSize(names[n - 1].key), b); }
    }
  }

  /** A bucket size below 65536 never makes the test refuse what fits. */
  lemma FitsPasses(names: seq<Elt>, size: nat, b: nat)
    requires b < USHORT && Fits(names, size, b)
    ensures Passes(names, size, b)
  {
    forall m, k | 0 <= m <= |names| && 0 <= k < size ensures Sum16(In(names, m, size, k)) <= Short16(b) {
      InGrows(names, m, |names|, size, k);
      assert Total(Bucket(names, size, k)) <= b;
    }
  }

  /** Without such an element the test accepts a size exactly when every bucket has room. */
  lemma PassesIsFits(names: seq<Elt>, size: nat, b: nat)
    requires b < USHORT && NoJump(names, b)
    ensures Passes(names, size, b) <==> Fits(names, size, b)
  {
    if Passes(names, size, b) {
      forall k | 0 <= k < size ensures Total(Bucket(names, size, k)) <= b { PassedTotal(names, |names|, size, k, b); }
    }
    if Fits(names, size, b) { FitsPasses(names, size, b); }
  }

  // The test is wrong

  ghost predicate OneHash(names: seq<Elt>,
      h: nat) { forall i :: 0 <= i < |names| ==> !names[i].dropped && names[i].hash == h }

  lemma {:induction false} AllIn(names: seq<Elt>, n: nat, size: nat, k: nat, h: nat)
    requires n <= |names| && size > 0 && OneHash(names, h)
    ensures In(names, n, size, k) == if h % size == k then names[..n] else []
  {
    if n > 0 {
      AllIn(names, n - 1, size, k, h);
      assert names[..n] == names[..n - 1] + [names[n - 1]];
    }
  }

  ghost predicate Running(names: seq<Elt>, b: nat) {
    forall m :: 0 <= m <= |names| ==> Short16(Total(names[..m])) <= Short16(b)
  }

  lemma OnePasses(names: seq<Elt>, size: nat, b: nat, h: nat)
    requires size > 0 && OneHash(names, h)
    ensures Passes(names, size, b) <==> Running(names, b)
  {
    var k := h % size;
    if Passes(names, size, b) {
      forall m | 0 <= m <= |names| ensures Short16(Total(names[..m])) <= Short16(b) {
        PassesAt(names, m, size, k, b);
        AllIn(names, m, size, k, h);
      }
    }
    if Running(names, b) {
      forall m, k | 0 <= m <= |names| && 0 <= k < size ensures Sum16(In(names, m, size, k)) <= Short16(b) {
        AllIn(names, m, size, k, h);
        assert Short16(Total(names[..m])) <= Short16(b);
      }
    }
  }

  lemma OneTotal(names: seq<Elt>, size: nat, h: nat, k: nat)
    requires size > 0 && OneHash(names, h)
    ensures Total(Bucket(names, size, k)) == if k == h % size then Total(names) else 0
  {
    AllIn(names, |names|, size, k, h);
    assert names[..|names|] == names;
  }

  /** Names of one hash fit, and pass, by what they take together. */
  lemma OneBucket(names: seq<Elt>, size: nat, b: nat, h: nat)
    requires size > 0 && OneHash(names, h)
    ensures Fits(names, size, b) <==> Total(names) <= b
    ensures Passes(names, size, b) <==> Running(names, b)
    ensures Laid(names, size) <==> Total(names) <= LARGEST
  {
    OnePasses(names, size, b, h);
    OneTotal(names, size, h, h % size);
    forall k | 0 <= k < size ensures Total(Bucket(names, size, k)) <= Total(names) { OneTotal(names, size, h, k); }
  }

  lemma {:induction false} PartTotal(list: seq<Elt>, m: nat)
    requires m <= |list|
    ensures Total(list[..m]) <= Total(list)
  {
    if m == |list| {
      assert list[..m] == list;
    } else {
      PrefixTotal(list, m);
    }
  }

  lemma ShortBelow(t: nat, b: nat)
    requires t <= Short16(b)
    ensures Short16(t) <= Short16(b)
  {}

  lemma RunningAt(xs: seq<Elt>, y: Elt, b: nat, names: seq<Elt>, m: nat)
    requires Total(xs) <= Short16(b) && names == xs + [y] && m <= |xs|
    ensures Short16(Total(names[..m])) <= Short16(b)
  {
    assert names[..m] == xs[..m];
    PartTotal(xs, m);
    ShortBelow(Total(xs[..m]), b);
  }

  /** Sums that are at most b go on passing; the last one may have come past 65536. */
  lemma RunningMore(xs: seq<Elt>, y: Elt, b: nat)
    requires Total(xs) <= Short16(b) && Short16(Total(xs) + EltSize(y.key)) <= Short16(b)
    ensures Running(xs + [y], b)
  {
    var names := xs + [y];
    TotalMore(xs, y);
    forall m | 0 <= m <= |names| ensures Short16(Total(names[..m])) <= Short16(b) {
      if m <= |xs| { RunningAt(xs, y, b, names, m); } else { assert names[..m] == names; }
    }
  }

  /** An element that takes a sum past 65536 is accepted, however little room the bucket has. */
  lemma WrapsPast(xs: seq<Elt>, y: Elt, size: nat, b: nat)
    requires size > 0 && OneHash(xs + [y], y.hash) && EltSize(y.key) <= b < USHORT
    requires Total(xs) <= b && Total(xs) + EltSize(y.key) >= USHORT
    ensures Passes(xs + [y], size, b) && !Fits(xs + [y], size, b)
  {
    TotalMore(xs, y);
    RunningMore(xs, y, b);
    OneBucket(xs + [y], size, b, y.hash);
  }

  // Elements of given sizes

  function Pad(n: nat): (s: string)
    ensures |s| == n
  {
    seq(n, i => 'a')
  }

  ghost predicate Attainable(n: nat) { n >= 16 && n % PTR_SIZE == 0 }

  /** An element of n bytes. */
  function Item(n: nat): (e: Elt)
    requires Attainable(n)
    ensures EltSize(e.key) == n && !e.dropped && e.hash == 0
  {
    Elt(Pad(n - 10), false, 0, 1)
  }

  /** The same element n times. */
  function Repeated(x: Elt, n: nat): seq<Elt> { if n == 0 then [] else Repeated(x, n - 1) + [x] }

  ghost predicate Bounded(names: seq<Elt>, e: nat) { forall i :: 0 <= i < |names| ==> EltSize(names[i].key) <= e }

  lemma {:induction false} RepeatedTotal(x: Elt, n: nat)
    requires !x.dropped && x.hash == 0 && EltSize(x.key) == 16
    ensures Total(Repeated(x, n)) == 16 * n && OneHash(Repeated(x, n), 0) && Bounded(Repeated(x, n), 16)
  {
    if n > 0 {
      RepeatedTotal(x, n - 1);
      TotalMore(Repeated(x, n - 1), x);
      Together(Repeated(x, n - 1), x, 16);
    }
  }

  lemma Together(xs: seq<Elt>, y: Elt, e: nat)
    requires OneHash(xs, 0) && Bounded(xs, e) && !y.dropped && y.hash == 0 && EltSize(y.key) <= e
    ensures OneHash(xs + [y], 0) && Bounded(xs + [y], e)
  {}

  lemma {:induction false} RepeatedPart(x: Elt, n: nat, m: nat)
    requires m <= n
    ensures |Repeated(x, n)| == n && Repeated(x, n)[..m] == Repeated(x, m)
  {
    if n > 0 && m < n { RepeatedPart(x, n - 1, m); } else if n > 0 { RepeatedPart(x, n - 1, n - 1); }
  }

  lemma Sixteens(n: nat, b: nat)
    requires n % 16 == 0 && Short16(b) >= 65520
    ensures Short16(n) <= Short16(b)
  {}

  // For which sizes the test is right

  /** With elements of at most e bytes, this size is accepted exactly when every bucket has b bytes of room. */
  ghost predicate Exact(size: nat, b: nat, e: nat) {
    forall names :: Bounded(names, e) ==> (Passes(names, size, b) <==> Fits(names, size, b))
  }

  /** n elements of 16 bytes, and one of 24 more if wanted. */
  lemma Pile(n: nat, more: bool) returns (xs: seq<Elt>)
    ensures OneHash(xs, 0) && Bounded(xs, if more then 24 else 16) && Total(xs) == 16 * n + if more then 24 else 0
  {
    var x := Item(16);
    RepeatedTotal(x, n);
    xs := Repeated(x, n);
    if more {
      TotalMore(xs, Item(24));
      Together(xs, Item(24), 24);
      xs := xs + [Item(24)];
    }
  }

  /** Elements of at most e bytes that take t bytes together. */
  lemma PileOf(t: nat, e: nat) returns (xs: seq<Elt>)
    requires t % PTR_SIZE == 0 && t != PTR_SIZE && e >= (if t % 16 == 0 then 16 else 24)
    ensures OneHash(xs, 0) && Bounded(xs, e) && Total(xs) == t
  {
    if t % 16 == 0 {
      xs := Pile(t / 16, false);
    } else {
      xs := Pile((t - 24) / 16, true);
    }
  }

  lemma SmallWrong(size: nat, b: nat, e: nat)
    requires size > 0 && Attainable(e) && e <= b < USHORT && b / PTR_SIZE * PTR_SIZE + e >= USHORT
    ensures !Exact(size, b, e)
  {
    var t := if e == 16 then 65520 else b / PTR_SIZE * PTR_SIZE;
    var xs := PileOf(t, e);
    WrongWith(size, b, e, xs, Item(e));
  }

  lemma WrongWith(size: nat, b: nat, e: nat, xs: seq<Elt>, y: Elt)
    requires size > 0 && e <= b < USHORT && OneHash(xs, 0) && Bounded(xs, e) && Total(xs) <= b
      && Total(xs) + e >= USHORT
    requires !y.dropped && y.hash == 0 && EltSize(y.key) == e
    ensures !Exact(size, b, e)
  {
    Together(xs, y, e);
    WrapsPast(xs, y, size, b);
    assert Bounded(xs + [y], e);
  }

  /** A sum of 65520 is refused, though the bucket is larger. */
  lemma Refused(names: seq<Elt>, size: nat, b: nat)
    requires size > 0 && b >= USHORT && Short16(b) < 65520 && OneHash(names, 0) && Total(names) == 65520
    ensures Fits(names, size, b) && !Passes(names, size, b)
  {
    OneBucket(names, size, b, 0);
    assert names[..|names|] == names;
    assert Short16(Total(names[..|names|])) > Short16(b);
  }

  lemma AcceptedAt(x: Elt, n: nat, b: nat, m: nat, names: seq<Elt>)
    requires Short16(b) >= 65520 && !x.dropped && x.hash == 0 && EltSize(x.key) == 16 && m <= n
      && names == Repeated(x, n)
    ensures |names| == n && Short16(Total(names[..m])) <= Short16(b)
  {
    RepeatedPart(x, n, m);
    RepeatedTotal(x, m);
    Sixteens(16 * m, b);
  }

  /** No sum of elements of 16 bytes is refused. */
  lemma Accepted(x: Elt, n: nat, size: nat, b: nat, names: seq<Elt>)
    requires size > 0 && Short16(b) >= 65520 && !x.dropped && x.hash == 0 && EltSize(x.key) == 16 && 16 * n > b
    requires names == Repeated(x, n)
    ensures !Fits(names, size, b) && Passes(names, size, b) && Bounded(names, 16)
  {
    RepeatedTotal(x, n);
    RepeatedPart(x, n, n);
    forall m | 0 <= m <= |names| ensures Short16(Total(names[..m])) <= Short16(b) { AcceptedAt(x, n, b, m, names); }
    OneBucket(names, size, b, 0);
  }

  lemma LargeWrong(size: nat, b: nat, e: nat)
    requires size > 0 && Attainable(e) && b >= USHORT
    ensures !Exact(size, b, e)
  {
    if Short16(b) < 65520 {
      var names := PileOf(65520, 16);
      Refused(names, size, b);
      assert Bounded(names, e);
    } else {
      var names := Repeated(Item(16), b / 16 + 1);
      Accepted(Item(16), b / 16 + 1, size, b, names);
      assert Bounded(names, e);
    }
  }

  /**
   * For a bucket of b bytes and elements of up to e, the test is right for every list of names exactly under this
   * bound.
   */
  lemma TestedExactly(size: nat, b: nat, e: nat)
    requires size > 0 && Attainable(e) && e <= b
    ensures Exact(size, b, e) <==> b / PTR_SIZE * PTR_SIZE + e < USHORT
  {
    if b / PTR_SIZE * PTR_SIZE + e < USHORT {
      forall names | Bounded(names, e) ensures Passes(names, size, b) <==> Fits(names, size, b) {
        PassesIsFits(names, size, b);
      }
    } else if b < USHORT {
      SmallWrong(size, b, e);
    } else {
      LargeWrong(size, b, e);
    }
  }

  // For which sizes every bucket of an accepted size is given the room it needs

  ghost predicate Safe(size: nat, b: nat, e: nat) {
    forall names :: Bounded(names, e) && Passes(names, size, b) ==> Laid(names, size)
  }

  /** No bucket can come to more than it is given room for: neither in one step past 65536 nor below it. */
  predicate Modest(b: nat, e: nat) { Highest(b) + e < USHORT && Highest(b) <= LARGEST }

  lemma ModestLaid(names: seq<Elt>, size: nat, b: nat, e: nat)
    requires size > 0 && Bounded(names, e) && Modest(b, e) && Passes(names, size, b)
    ensures Laid(names, size)
  {
    forall k | 0 <= k < size ensures Total(Bucket(names, size, k)) <= LARGEST {
      PassedTotal(names, |names|, size, k, b);
    }
  }

  lemma HighestPasses(b: nat)
    ensures Highest(b) <= Short16(b) && Highest(b) % PTR_SIZE == 0 && Highest(b) != PTR_SIZE
  {}

  lemma HighUnsafe(size: nat, b: nat, e: nat, xs: seq<Elt>, y: Elt)
    requires size > 0 && Attainable(e) && Highest(b) > LARGEST && OneHash(xs + [y], 0) && Bounded(xs + [y], 16)
    requires Total(xs) == 65456
    ensures !Safe(size, b, e)
  {
    HighestPasses(b);
    TotalMore(xs, y);
    RunningMore(xs, y, b);
    OneBucket(xs + [y], size, b, 0);
    assert Bounded(xs + [y], e) && Passes(xs + [y], size, b);
  }

  lemma JumpUnsafe(size: nat, b: nat, e: nat)
    requires size > 0 && Attainable(e) && Highest(b) <= LARGEST && Highest(b) + e >= USHORT
    ensures !Safe(size, b, e)
  {
    HighestPasses(b);
    var xs := PileOf(Highest(b), e);
    UnsafeWith(size, b, e, xs, Item(USHORT - Highest(b)));
  }

  lemma UnsafeWith(size: nat, b: nat, e: nat, xs: seq<Elt>, y: Elt)
    requires size > 0 && OneHash(xs, 0) && Bounded(xs, e) && Total(xs) == Highest(b) <= LARGEST
    requires !y.dropped && y.hash == 0 && EltSize(y.key) == USHORT - Highest(b) <= e
    ensures !Safe(size, b, e)
  {
    Together(xs, y, e);
    HighestPasses(b);
    TotalMore(xs, y);
    RunningMore(xs, y, b);
    OneBucket(xs + [y], size, b, 0);
    assert Bounded(xs + [y], e) && Passes(xs + [y], size, b);
  }

  /** For a bucket of b bytes, of any size, every accepted table has the room it needs exactly under this bound. */
  lemma LaidExactly(size: nat, b: nat, e: nat)
    requires size > 0 && Attainable(e)
    ensures Safe(size, b, e) <==> Modest(b, e)
  {
    if Modest(b, e) {
      forall names | Bounded(names, e) && Passes(names, size, b) ensures Laid(names, size) {
        ModestLaid(names, size, b, e);
      }
    } else if Highest(b) > LARGEST {
      var xs := PileOf(65456, 16);
      Together(xs, Item(16), 16);
      HighUnsafe(size, b, e, xs, Item(16));
    } else {
      JumpUnsafe(size, b, e);
    }
  }
}
