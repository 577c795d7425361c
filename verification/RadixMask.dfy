/** What a key and a mask of ngx_radix_tree.c mean for addresses. */
module RadixMask {
  import opened Radix

  /** `a & mask` equals `key & mask`. */
  predicate Agree(a: Word, key: Word, mask: Word) { forall i :: 0 <= i < 32 && mask[i] ==> a[i] == key[i] }

  /** No bit of the mask is set behind one that is not. */
  predicate Contiguous(mask: Word) { forall i, j :: 0 <= i < j < 32 && mask[j] ==> mask[i] }

  /** The prefix meant is that of the addresses that agree with the key under the mask. */
  ghost predicate Means(mask: Word) { forall a, key :: Prefix(key, mask) <= a <==> Agree(a, key, mask) }

  lemma BehindOnes(mask: Word)
    requires Contiguous(mask)
    ensures forall i :: Ones(mask, 0) <= i < 32 ==> !mask[i]
  {
    var n := Ones(mask, 0);
    forall i | n <= i < 32 ensures !mask[i] { assert !Test(mask, n); }
  }

  lemma PrefixMeans(a: Word, key: Word, mask: Word)
    requires Contiguous(mask)
    ensures Prefix(key, mask) <= a <==> Agree(a, key, mask)
  {
    var n := Ones(mask, 0);
    BehindOnes(mask);
    if Prefix(key, mask) <= a {
      forall i | 0 <= i < n ensures a[i] == key[i] { assert key[..n][i] == a[..n][i]; }
    }
    if Agree(a, key, mask) {
      forall i | 0 <= i < n ensures key[..n][i] == a[i] { assert Test(mask, i); }
      assert key[..n] == a[..n];
    }
  }

  /** An address that differs from a key in one bit under the mask, behind the prefix. */
  lemma Straggler(mask: Word) returns (a: Word, key: Word)
    requires !Contiguous(mask)
    ensures Prefix(key, mask) <= a && !Agree(a, key, mask)
  {
    var i, j :| 0 <= i < j < 32 && mask[j] && !mask[i];
    var n := Ones(mask, 0);
    assert i < n ==> Test(mask, i);
    key := seq(32, k => false);
    a := key[j := true];
    assert key[..n] == a[..n];
    assert a[j] != key[j];
  }

  /** Prefixes mean what masks mean exactly for contiguous masks. */
  lemma MaskExactly(mask: Word)
    ensures Means(mask) <==> Contiguous(mask)
  {
    if Contiguous(mask) {
      forall a: Word, key: Word ensures Prefix(key, mask) <= a <==> Agree(a, key, mask) { PrefixMeans(a, key, mask); }
    } else {
      var a, key := Straggler(mask);
    }
  }
}
