/** Machine words as their bits, lowest first. */
module SlabWord {

  type Word = w: seq<bool> | |w| == 64 witness seq(64, i => false)

  function Zero(): Word { seq(64, i => false) }

  /** NGX_SLAB_BUSY, also NGX_SLAB_PAGE_BUSY. */
  function AllBusy(): Word { seq(64, i => true) }

  function Pow2(n: nat): (p: nat)
    ensures p > 0
  {
    if n == 0 then 1 else 2 * Pow2(n - 1)
  }

  lemma {:induction false} Pow2Add(a: nat, b: nat)
    ensures Pow2(a + b) == Pow2(a) * Pow2(b)
  {
    if a > 0 { Pow2Add(a - 1, b); }
  }

  lemma BigPowers()
    ensures Pow2(32) == 0x1_0000_0000 && Pow2(63) == 0x8000_0000_0000_0000 && Pow2(64) == 0x1_0000_0000_0000_0000
  {
    assert Pow2(8) == 256;
    Pow2Add(8, 8);
    Pow2Add(16, 16);
    Pow2Add(32, 32);
    assert Pow2(64) == 2 * Pow2(63);
  }

  function ToNat(w: seq<bool>): nat {
    if w == [] then 0 else (if w[0] then 1 else 0) + 2 * ToNat(w[1..])
  }

  function FromNat(n: nat, len: nat): (w: seq<bool>)
    ensures |w| == len
  {
    if len == 0 then [] else [n % 2 == 1] + FromNat(n / 2, len - 1)
  }

  lemma {:induction false} RoundTrip(n: nat, len: nat)
    requires n < Pow2(len)
    ensures ToNat(FromNat(n, len)) == n
  {
    if len > 0 {
      RoundTrip(n / 2, len - 1);
      assert FromNat(n, len)[1..] == FromNat(n / 2, len - 1);
    }
  }

  /** The low bits of a number do not depend on the width it is written in. */
  lemma {:induction false} LowBits(n: nat, len: nat, k: nat)
    requires k <= len
    ensures FromNat(n, len)[..k] == FromNat(n, k)
  {
    if k > 0 {
      LowBits(n / 2, len - 1, k - 1);
      assert FromNat(n, len)[..k] == [n % 2 == 1] + FromNat(n / 2, len - 1)[..k - 1];
    }
  }

  /** Bits above a number's size are clear. */
  lemma {:induction false} HighBits(n: nat, len: nat, k: nat, i: nat)
    requires n < Pow2(k) && k <= i < len
    ensures !FromNat(n, len)[i]
  {
    if k == 0 {
      if i > 0 { HighBits(n / 2, len - 1, 0, i - 1); }
    } else {
      HighBits(n / 2, len - 1, k - 1, i - 1);
    }
  }

  lemma ZeroIsZero()
    ensures FromNat(0, 64) == Zero() && ToNat(Zero()) == 0
  {
    forall i: nat | i < 64 ensures !FromNat(0, 64)[i] { HighBits(0, 64, 0, i); }
    assert FromNat(0, 64) == Zero();
    assert Pow2(64) > 0;
    RoundTrip(0, 64);
  }

  /** The descriptor word of a busy run: `pages | NGX_SLAB_PAGE_START`. */
  function RunWord(n: nat): Word { FromNat(n, 64)[63 := true] }

  lemma RunWordDecodes(n: nat)
    requires n < Pow2(63)
    ensures ToNat(RunWord(n)[63 := false]) == n
    ensures RunWord(n) != Zero()
    ensures RunWord(n) == AllBusy() ==> false || n == Pow2(63) - 1
  {
    HighBits(n, 64, 63, 63);
    assert RunWord(n)[63 := false] == FromNat(n, 64);
    assert Pow2(64) == 2 * Pow2(63);
    RoundTrip(n, 64);
    assert RunWord(n)[63];
    if RunWord(n) == AllBusy() { AllOnes(n); }
  }

  lemma AllOnes(n: nat)
    requires n < Pow2(63) && RunWord(n) == AllBusy()
    ensures n == Pow2(63) - 1
  {
    LowBits(n, 64, 63);
    assert FromNat(n, 64)[..63] == RunWord(n)[..63];
    assert FromNat(n, 63) == seq(63, i => true);
    RoundTrip(n, 63);
    Ones(63);
  }

  lemma {:induction false} Ones(len: nat)
    ensures ToNat(seq(len, i => true)) == Pow2(len) - 1
  {
    if len > 0 {
      Ones(len - 1);
      assert seq(len, i => true)[1..] == seq(len - 1, i => true);
    }
  }
}
