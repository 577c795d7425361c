/** Where ngx_hash_init begins to look for a size: what the sizes left out would have given. */
module HashStart {
  import opened HashLayout
  import opened HashSize
  import opened ExactHash

  /** How many of the first n names are in the first j buckets. */
  ghost function InFirst(names: seq<Elt>, n: nat, size: nat, j: nat): nat
    requires n <= |names| && j <= size && size > 0
    decreases j
  {
    if j == 0 then 0 else InFirst(names, n, size, j - 1) + |In(names, n, size, j - 1)|
  }

  ghost function Live(names: seq<Elt>, n: nat): nat
    requires n <= |names|
  {
    if n == 0 then 0 else Live(names, n - 1) + if names[n - 1].dropped then 0 else 1
  }

  /** One more name is in one more bucket, unless it is dropped. */
  lemma {:induction false} OneMore(names: seq<Elt>, n: nat, size: nat, j: nat)
    requires 0 < n <= |names| && j <= size && size > 0
    ensures InFirst(names, n, size, j) ==
      InFirst(names, n - 1, size, j) + if !names[n - 1].dropped && names[n - 1].hash % size < j then 1 else 0
  {
    if j > 0 { OneMore(names, n, size, j - 1); }
  }

  lemma {:induction false} Empty(names: seq<Elt>, size: nat, j: nat)
    requires j <= size && size > 0
    ensures InFirst(names, 0, size, j) == 0
  {
    if j > 0 { Empty(names, size, j - 1); }
  }

  /** Every name that is not dropped is in one bucket. */
  lemma {:induction false} AllSomewhere(names: seq<Elt>, n: nat, size: nat)
    requires n <= |names| && size > 0
    ensures InFirst(names, n, size, size) == Live(names, n)
  {
    if n == 0 {
      Empty(names, size, size);
    } else {
      AllSomewhere(names, n - 1, size);
      OneMore(names, n, size, size);
    }
  }

  /** An element takes 16 bytes at least. */
  lemma {:induction false} SixteenEach(list: seq<Elt>)
    ensures Total(list) >= 16 * |list|
  {
    if list != [] { SixteenEach(list[..|list| - 1]); }
  }

  lemma Quotient(n: nat, b: nat)
    requires 16 * n <= b
    ensures n <= b / 16
  {}

  lemma {:induction false} AtMost(names: seq<Elt>, size: nat, b: nat, j: nat)
    requires j <= size && size > 0 && Fits(names, size, b)
    ensures InFirst(names, |names|, size, j) <= j * (b / 16)
  {
    if j > 0 {
      AtMost(names, size, b, j - 1);
      SixteenEach(Bucket(names, size, j - 1));
      Quotient(|Bucket(names, size, j - 1)|, b);
      assert (j - 1) * (b / 16) + b / 16 == j * (b / 16);
    }
  }

  /** A size at which all buckets have room is large enough for as many names as there are. */
  lemma RoomForAll(names: seq<Elt>, size: nat, b: nat)
    requires size > 0 && Fits(names, size, b)
    ensures Live(names, |names|) <= size * (b / 16)
  {
    AllSomewhere(names, |names|, size);
    AtMost(names, size, b, size);
  }

  /** The sizes are counted from near the largest on, if there are many names for it. */
  predicate Hurried(nelts: nat, maxSize: nat) { maxSize > 10000 && nelts > 0 && maxSize / nelts < 100 }

  lemma HurriedStart(nelts: nat, maxSize: nat, b: nat)
    requires b >= 16 && Hurried(nelts, maxSize)
    ensures Start(nelts, maxSize, b) == maxSize - 1000
  {}

  lemma {:induction false} NoneDropped(names: seq<Elt>, n: nat)
    requires n <= |names| && forall i :: 0 <= i < |names| ==> !names[i].dropped
    ensures Live(names, n) == n
  {
    if n > 0 { NoneDropped(names, n - 1); }
  }

  lemma TooFew(n: nat, s: nat, c: nat)
    requires c > 0 && s < n / c
    ensures s * c < n
  {
    assert n / c * c <= n;
  }

  /** Otherwise, with no name dropped, no size left out has room for all. */
  lemma NothingMissed(names: seq<Elt>, maxSize: nat, b: nat, s: nat)
    requires b >= 16 && !Hurried(|names|, maxSize) && forall i :: 0 <= i < |names| ==> !names[i].dropped
    requires 0 < s < Start(|names|, maxSize, b)
    ensures !Fits(names, s, b)
  {
    if Fits(names, s, b) {
      RoomForAll(names, s, b);
      NoneDropped(names, |names|);
      TooFew(|names|, s, b / 16);
    }
  }

  /** So without wrapping sums the size chosen is the least of all at which every bucket has room. */
  lemma LeastOfAll(names: seq<Elt>, size: nat, maxSize: nat, b: nat)
    requires 16 <= b < USHORT && NoJump(names, b) && !Hurried(|names|, maxSize)
    requires forall i :: 0 <= i < |names| ==> !names[i].dropped
    ensures Chosen(names, size, Start(|names|, maxSize, b), maxSize, b) <==>
      0 < size < maxSize && Fits(names, size, b) && forall s :: 0 < s < size ==> !Fits(names, s, b)
  {
    var start := Start(|names|, maxSize, b);
    ChosenFits(names, size, start, maxSize, b);
    forall s | 0 < s < start ensures !Fits(names, s, b) { NothingMissed(names, maxSize, b, s); }
  }
}
