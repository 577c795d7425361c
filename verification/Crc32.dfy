/**
 * The table-driven CRC-32 of ngx_crc32.h, against the bit-by-bit definition in section 5.5 of the PNG specification.
 */
module Crc32 {
  import opened CrcTables

  type Bytes = seq<bv8>

  /** n bits shifted out of the register. */
  function Bits(c: bv32, n: nat): bv32
    decreases n
  {
    if n == 0 then c else Bits(Shift(c), n - 1)
  }

  /** The CRC register after some bytes, bit by bit: each byte is added to the low end and shifted out. */
  function Register(crc: bv32, bytes: Bytes): bv32
    decreases |bytes|
  {
    if bytes == [] then crc else Register(Bits(crc ^ bytes[0] as bv32, 8), bytes[1..])
  }

  /** The CRC of a byte string: the register starts as all ones and is complemented at the end. */
  function Crc(bytes: Bytes): bv32 { Register(0xFFFF_FFFF, bytes) ^ 0xFFFF_FFFF }

  /** Four bits at once: the low four through the table, the rest shifted down. */
  lemma Nibble(c: bv32)
    ensures Shift4(c) == Table16((c & 0xF) as bv4) ^ (c >> 4)
  {
    var low := c & 0xF;
    if low == 0 { return; }
    if low == 1 { return; }
    if low == 2 { return; }
    if low == 3 { return; }
    if low == 4 { return; }
    if low == 5 { return; }
    if low == 6 { return; }
    if low == 7 { return; }
    if low == 8 { return; }
    if low == 9 { return; }
    if low == 10 { return; }
    if low == 11 { return; }
    if low == 12 { return; }
    if low == 13 { return; }
    if low == 14 { return; }
  }

  // The same facts, folded so that the tables and shifts stay closed: a proof that needs them asserts Open(0)

  ghost predicate Open(k: int) { true }

  ghost predicate Out4(c: bv32, r: bv32) { forall k :: Open(k) ==> r == Shift4(c) }

  ghost predicate Out8(c: bv32, r: bv32) { forall k :: Open(k) ==> r == Shift8(c) }

  ghost predicate In16(i: bv32, t: bv32) { i <= 0xF && forall k :: Open(k) ==> t == Table16(i as bv4) }

  lemma Look(c: bv32) returns (t: bv32)
    ensures In16(c & 0xF, t) && Out4(c, t ^ (c >> 4))
  {
    t := Table16((c & 0xF) as bv4);
    Nibble(c);
  }

  lemma Same16(i: bv32, t: bv32, u: bv32)
    requires In16(i, t) && In16(i, u)
    ensures t == u
  {
    assert Open(0);
  }

  lemma Chain(c: bv32, x: bv32, r: bv32)
    requires Out4(c, x) && Out4(x, r)
    ensures Out8(c, r)
  {
    assert Open(0);
  }

  lemma LowKept(t: bv32, c: bv32)
    ensures (t ^ (c >> 4)) & 0xF == (t ^ ((c & 0xFF) >> 4)) & 0xF
  {}

  lemma HighApart(t: bv32, c: bv32)
    ensures (t ^ (c >> 4)) >> 4 == ((t ^ ((c & 0xFF) >> 4)) >> 4) ^ (c >> 8)
  {}

  lemma LowOfLow(c: bv32)
    ensures (c & 0xFF) & 0xF == c & 0xF
  {}

  /** The same low half byte gives the same table entry. */
  lemma LookBoth(c: bv32, d: bv32) returns (t: bv32)
    requires c & 0xF == d & 0xF
    ensures Out4(c, t ^ (c >> 4)) && Out4(d, t ^ (d >> 4))
  {
    t := Look(c);
    var u := Look(d);
    Same16(c & 0xF, t, u);
  }

  lemma FirstLook(c: bv32, d: bv32) returns (t: bv32)
    requires d == c & 0xFF
    ensures Out4(c, t ^ (c >> 4)) && Out4(d, t ^ (d >> 4))
  {
    LowOfLow(c);
    t := LookBoth(c, d);
  }

  lemma Low(t: bv32, c: bv32, x: bv32, y: bv32)
    requires x == t ^ (c >> 4) && y == t ^ ((c & 0xFF) >> 4)
    ensures x & 0xF == y & 0xF
  {
    LowKept(t, c);
  }

  lemma High(t: bv32, c: bv32, x: bv32, y: bv32)
    requires x == t ^ (c >> 4) && y == t ^ ((c & 0xFF) >> 4)
    ensures x >> 4 == (y >> 4) ^ (c >> 8)
  {
    HighApart(t, c);
  }

  /** Four bits out of a register and out of its low byte alone. */
  lemma FirstHalf(c: bv32, d: bv32) returns (x: bv32, y: bv32)
    requires d == c & 0xFF
    ensures Out4(c, x) && Out4(d, y) && x & 0xF == y & 0xF && x >> 4 == (y >> 4) ^ (c >> 8)
  {
    var t := FirstLook(c, d);
    x, y := t ^ (c >> 4), t ^ (d >> 4);
    Low(t, c, x, y);
    High(t, c, x, y);
  }

  lemma Regroup(u: bv32, a: bv32, h: bv32)
    ensures u ^ (a ^ h) == (u ^ a) ^ h
  {}

  lemma SecondHalf(x: bv32, y: bv32, h: bv32) returns (p: bv32, q: bv32)
    requires x & 0xF == y & 0xF && x >> 4 == (y >> 4) ^ h
    ensures Out4(x, p) && Out4(y, q) && p == q ^ h
  {
    var u := LookBoth(x, y);
    p, q := u ^ (x >> 4), u ^ (y >> 4);
    Regroup(u, y >> 4, h);
  }

  /** Eight bits at once: the low eight apart, the rest shifted down. */
  lemma Byte(c: bv32, d: bv32, h: bv32) returns (r: bv32)
    requires d == c & 0xFF && h == c >> 8
    ensures Out8(d, r) && Out8(c, r ^ h)
  {
    var x, y := FirstHalf(c, d);
    var p, q := SecondHalf(x, y, h);
    r := q;
    Chain(d, y, q);
    Chain(c, x, p);
  }

  lemma LowByte(c: bv32, b: bv8)
    ensures (c ^ b as bv32) >> 8 == c >> 8
  {}

  lemma Index(x: bv32, i: bv8)
    requires i == (x & 0xFF) as bv8
    ensures i as bv32 == x & 0xFF
  {}

  /** Out8 is eight single bits. */
  lemma EightBits(c: bv32, r: bv32)
    requires Out8(c, r)
    ensures r == Bits(c, 8)
  {
    assert Open(0);
    assert Bits(c, 8) == Bits(Shift(Shift(c)), 6);
    assert Bits(Shift(Shift(c)), 6) == Bits(Shift4(c), 4);
    assert Bits(Shift4(c), 4) == Bits(Shift(Shift(Shift4(c))), 2);
  }

  ghost predicate In256(i: bv8, t: bv32) { forall k :: Open(k) ==> t == Table256(i) }

  method Look256(i: bv8) returns (t: bv32)
    ensures In256(i, t)
  {
    t := Table256(i);
  }

  lemma Right256(i: bv8, t: bv32, d: bv32, r: bv32)
    requires In256(i, t) && d == i as bv32 && Out8(d, r)
    ensures t == r
  {
    assert Open(0);
    Table256Right(i);
  }

  /** One turn with the large table is one byte of the definition. */
  lemma LongTurn(x: bv32, i: bv8, t: bv32, d: bv32, h: bv32)
    requires In256(i, t) && d == i as bv32 && d == x & 0xFF && h == x >> 8
    ensures t ^ h == Bits(x, 8)
  {
    var r := Byte(x, d, h);
    Right256(i, t, d, r);
    EightBits(x, r ^ h);
  }

  /** One turn of ngx_crc32_long (ngx_crc32.h:46). */
  method LongStep(crc: bv32, b: bv8) returns (r: bv32)
    ensures r == Bits(crc ^ b as bv32, 8)
  {
    var x := crc ^ b as bv32;
    var i := (x & 0xFF) as bv8;
    var h := crc >> 8;
    LowByte(crc, b);
    Index(x, i);
    var t := Look256(i);
    r := t ^ h;
    LongTurn(x, i, t, i as bv32, h);
  }

  // With the small table, half a byte at a time

  lemma ShortFirst(x: bv32, i: bv32, t: bv32, g: bv32, hi: bv32)
    requires In16(i, t) && x & 0xF == i && x >> 4 == g ^ hi
    ensures Out4(x, (t ^ g) ^ hi)
  {
    var u := Look(x);
    Same16(i, t, u);
    Regroup(t, g, hi);
  }

  lemma ShortSecond(z: bv32, u: bv32, h: bv32)
    requires In16(z & 0xF, u) && z >> 4 == h
    ensures Out4(z, u ^ h)
  {
    var v := Look(z);
    Same16(z & 0xF, u, v);
  }

  ghost predicate Mixed(x: bv32, crc: bv32, b: bv8) { forall k :: Open(k) ==> x == crc ^ b as bv32 }

  ghost predicate Upper(b: bv8, hi: bv32) { forall k :: Open(k) ==> hi == (b >> 4) as bv32 }

  ghost predicate Sum(x: bv32, a: bv32, b: bv32) { forall k :: Open(k) ==> x == a ^ b }

  lemma LowNibble(crc: bv32, b: bv8, lo: bv32, x: bv32)
    requires Mixed(x, crc, b) && lo == (b & 0xF) as bv32
    ensures x & 0xF == (crc ^ lo) & 0xF
  {
    assert Open(0);
  }

  lemma HighNibble(crc: bv32, b: bv8, x: bv32, g: bv32, hi: bv32)
    requires Mixed(x, crc, b) && Upper(b, hi) && g == crc >> 4
    ensures x >> 4 == g ^ hi
  {
    assert Open(0);
  }

  lemma AboveNibble(y: bv32, b: bv8, hi: bv32, z: bv32)
    requires Upper(b, hi) && Sum(z, y, hi)
    ensures z >> 4 == y >> 4
  {
    assert Open(0);
  }

  /** `table[(c ^ n) & 0xf]` */
  method Look16(c: bv32, n: bv32) returns (t: bv32)
    ensures In16((c ^ n) & 0xF, t)
  {
    t := Table16(((c ^ n) & 0xF) as bv4);
  }

  method FirstNibble(crc: bv32, b: bv8, ghost x: bv32, ghost hi: bv32) returns (y: bv32, ghost z: bv32)
    requires Mixed(x, crc, b) && Upper(b, hi)
    ensures Sum(z, y, hi) && Out4(x, z)
  {
    var lo, g := (b & 0xF) as bv32, crc >> 4;
    var t := Look16(crc, lo);
    LowNibble(crc, b, lo, x);
    HighNibble(crc, b, x, g, hi);
    ghost var i := (crc ^ lo) & 0xF;
    ShortFirst(x, i, t, g, hi);
    y := t ^ g;
    z := y ^ hi;
  }

  method SecondNibble(y: bv32, b: bv8, ghost hi: bv32, ghost z: bv32) returns (r: bv32)
    requires Upper(b, hi) && Sum(z, y, hi)
    ensures Out4(z, r)
  {
    var u := Look16(y, (b >> 4) as bv32);
    var h := y >> 4;
    AboveNibble(y, b, hi, z);
    Indexed(y, b, hi, z, u);
    ShortSecond(z, u, h);
    r := u ^ h;
  }

  lemma Indexed(y: bv32, b: bv8, hi: bv32, z: bv32, u: bv32)
    requires Upper(b, hi) && Sum(z, y, hi) && In16((y ^ (b >> 4) as bv32) & 0xF, u)
    ensures In16(z & 0xF, u)
  {
    assert Open(0);
  }

  /** One turn of ngx_crc32_short (ngx_crc32.h:29-31). */
  method ShortStep(crc: bv32, b: bv8) returns (r: bv32)
    ensures r == Bits(crc ^ b as bv32, 8)
  {
    ghost var x, hi := crc ^ b as bv32, (b >> 4) as bv32;
    ghost var z;
    var y;
    y, z := FirstNibble(crc, b, x, hi);
    r := SecondNibble(y, b, hi, z);
    Chain(x, z, r);
    EightBits(x, r);
  }

  method ShortLoop(crc: bv32, bytes: Bytes) returns (c: bv32)
    ensures c == Register(crc, bytes)
  {
    c := crc;
    var i := 0;
    while i < |bytes|
      invariant 0 <= i <= |bytes| && Register(c, bytes[i..]) == Register(crc, bytes)
    {
      assert bytes[i..][0] == bytes[i] && bytes[i..][1..] == bytes[i + 1..];
      c := ShortStep(c, bytes[i]);
      i := i + 1;
    }
  }

  /** ngx_crc32_short (ngx_crc32.h:20-35): the small table computes the CRC. */
  method Short(bytes: Bytes) returns (crc: bv32)
    ensures crc == Crc(bytes)
  {
    crc := ShortFrom(0xFFFF_FFFF, bytes);
  }

  method ShortFrom(ones: bv32, bytes: Bytes) returns (crc: bv32)
    ensures crc == Register(ones, bytes) ^ ones
  {
    crc := ShortLoop(ones, bytes);
    crc := crc ^ ones;
  }

  /** ngx_crc32_update (ngx_crc32.h:57-69): the large table continues a register. */
  method Update(crc: bv32, bytes: Bytes) returns (c: bv32)
    ensures c == Register(crc, bytes)
  {
    c := crc;
    var i := 0;
    while i < |bytes|
      invariant 0 <= i <= |bytes| && Register(c, bytes[i..]) == Register(crc, bytes)
    {
      assert bytes[i..][0] == bytes[i] && bytes[i..][1..] == bytes[i + 1..];
      c := LongStep(c, bytes[i]);
      i := i + 1;
    }
  }

  /** ngx_crc32_long (ngx_crc32.h:38-50): the large table computes the CRC. */
  method Long(bytes: Bytes) returns (crc: bv32)
    ensures crc == Crc(bytes)
  {
    crc := LongFrom(0xFFFF_FFFF, bytes);
  }

  method LongFrom(ones: bv32, bytes: Bytes) returns (crc: bv32)
    ensures crc == Register(ones, bytes) ^ ones
  {
    crc := Update(ones, bytes);
    crc := crc ^ ones;
  }

  /** Updating in pieces is updating with everything at once. */
  lemma {:induction false} Pieces(crc: bv32, a: Bytes, b: Bytes)
    ensures Register(Register(crc, a), b) == Register(crc, a + b)
    decreases |a|
  {
    if a == [] {
      assert a + b == b;
    } else {
      assert (a + b)[0] == a[0] && (a + b)[1..] == a[1..] + b;
      Pieces(Bits(crc ^ a[0] as bv32, 8), a[1..], b);
    }
  }
}
