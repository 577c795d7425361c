/** Collecting keys for the hashes: ngx_hash_add_key of ngx_hash.c. */
module WildKeys {
  import opened WildTable
  import opened WildLabels
  import opened WildHash
  import opened WildFind

  const WORD: int := 0x1_0000_0000_0000_0000

  /** ngx_hash: `key * 31 + c` in 64 bits, over a string. */
  function Hash(s: string): nat {
    if s == "" then 0 else (Hash(s[..|s| - 1]) * 31 + s[|s| - 1] as int) % WORD
  }

  function Power31(n: nat): nat { if n == 0 then 1 else 31 * Power31(n - 1) }

  /** Each character by the power of 31 of its distance from the end. */
  ghost function Weighted(s: string): nat {
    if s == "" then 0 else s[0] as int * Power31(|s| - 1) + Weighted(s[1..])
  }

  /** One character more at the end shifts the others by one power. */
  lemma {:induction false} WeightedMore(s: string, c: char)
    ensures Weighted(s + [c]) == Weighted(s) * 31 + c as int
    decreases |s|
  {
    if s == "" {
      assert s + [c] == [c] && [c][1..] == "";
    } else {
      assert (s + [c])[1..] == s[1..] + [c];
      WeightedMore(s[1..], c);
      Distribute(s[0] as int, Power31(|s| - 1), Weighted(s[1..]));
    }
  }

  lemma Distribute(c: int, p: int, w: int)
    ensures (c * p + w) * 31 == c * (31 * p) + w * 31
  {}

  /** The hash of a string is the number that its characters are the digits of, to the base 31, modulo 2^64. */
  lemma {:induction false} HashIsWeighted(s: string)
    ensures Hash(s) == Weighted(s) % WORD
    decreases |s|
  {
    if s != "" {
      var t, c := s[..|s| - 1], s[|s| - 1];
      assert s == t + [c];
      HashIsWeighted(t);
      WeightedMore(t, c);
      Carried(Weighted(t), c as int);
    }
  }

  lemma Carried(w: nat, c: nat)
    ensures (w % WORD * 31 + c) % WORD == (w * 31 + c) % WORD
  {
    var q := w / WORD;
    assert w * 31 + c == w % WORD * 31 + c + (q * 31) * WORD;
  }

  datatype Status = Ok | Busy | Declined

  /** What a key with wildcards allowed turns out to be: not a name, plain, ".x", "*.x" or "x.*". */
  datatype Kind = Malformed | Plain | Dotted | Starred | Open

  predicate TwoDots(key: string) { exists i :: 0 <= i < |key| - 1 && key[i] == '.' && key[i + 1] == '.' }

  function Stars(key: string): nat {
    if key == "" then 0 else (if key[0] == '*' then 1 else 0) + Stars(key[1..])
  }

  function KindOf(key: string): Kind {
    if Stars(key) > 1 || TwoDots(key) then Malformed
    else if |key| > 1 && key[0] == '.' then Dotted
    else if |key| > 2 && key[0] == '*' && key[1] == '.' then Starred
    else if |key| > 2 && key[|key| - 2] == '.' && key[|key| - 1] == '*' then Open
    else if Stars(key) > 0 then Malformed
    else Plain
  }

  lemma {:induction false} StarsParts(a: string, b: string)
    ensures Stars(a + b) == Stars(a) + Stars(b)
  {
    if a == "" { assert a + b == b; } else { assert (a + b)[1..] == a[1..] + b; StarsParts(a[1..], b); }
  }

  /** ngx_hash.c:726-762 */
  method Classify(key: string) returns (kind: Kind)
    ensures kind == KindOf(key)
  {
    var n := 0;
    var i := 0;
    while i < |key|
      invariant 0 <= i <= |key| && n == Stars(key[..i]) <= 1
        && forall j :: 0 <= j < i && j < |key| - 1 ==> !(key[j] == '.' && key[j + 1] == '.')
    {
      assert key[..i + 1] == key[..i] + [key[i]];
      StarsParts(key[..i], [key[i]]);
      assert key[..i + 1] + key[i + 1..] == key;
      StarsParts(key[..i + 1], key[i + 1..]);
      if key[i] == '*' {
        n := n + 1;
        if n > 1 {
          return Malformed;
        }
      }
      if key[i] == '.' && i + 1 < |key| && key[i + 1] == '.' {
        return Malformed;
      }
      i := i + 1;
    }
    assert key[..|key|] == key;
    if |key| > 1 && key[0] == '.' {
      return Dotted;
    }
    if |key| > 2 {
      if key[0] == '*' && key[1] == '.' {
        return Starred;
      }
      if key[i - 2] == '.' && key[i - 1] == '*' {
        return Open;
      }
    }
    if n > 0 {
      return Malformed;
    }
    return Plain;
  }

  // Turning the labels round

  /** Each label with a dot behind it. */
  function Dotted1(ls: Labels): string { if ls == [] then "" else ls[0] + "." + Dotted1(ls[1..]) }

  lemma {:induction false} DottedMore(ls: Labels, l: Label)
    ensures Dotted1(ls + [l]) == Dotted1(ls) + l + "."
  {
    if ls == [] {
      assert ([] + [l])[1..] == [];
    } else {
      assert (ls + [l])[1..] == ls[1..] + [l];
      DottedMore(ls[1..], l);
    }
  }

  predicate IsLabel(l: Label) { forall j :: 0 <= j < |l| ==> l[j] != '.' }

  lemma OneLabel(l: Label)
    requires IsLabel(l)
    ensures Split(l) == [l]
  {
    DotIs(l, |l|);
    SplitFirst(l);
    assert l[..|l|] == l;
    assert Split(l) == [Split(l)[0]] + Split(l)[1..];
  }

  lemma {:induction false} DottedSplits(ls: Labels, last: Label)
    requires IsLabel(last) && forall i :: 0 <= i < |ls| ==> IsLabel(ls[i])
    ensures Split(Dotted1(ls) + last) == ls + [last]
  {
    if ls == [] {
      assert Dotted1(ls) + last == last;
      OneLabel(last);
    } else {
      DottedSplits(ls[1..], last);
      var rest := Dotted1(ls[1..]) + last;
      assert Dotted1(ls) + last == ls[0] + "." + rest;
      SplitParts(ls[0], rest);
      OneLabel(ls[0]);
      assert ls == [ls[0]] + ls[1..];
    }
  }

  lemma {:induction false} LabelsOf(s: string)
    ensures forall i :: 0 <= i < |Split(s)| ==> IsLabel(Split(s)[i])
  {
    if s != "" { LabelsOf(s[1..]); }
  }

  lemma {:induction false} ReverseElems<T>(s: seq<T>, i: nat) returns (j: nat)
    requires i < |s|
    ensures j < |s| && Reverse(s)[i] == s[j]
  {
    if i == |s| - 1 {
      j := 0;
    } else {
      var k := ReverseElems(s[1..], i);
      j := k + 1;
    }
  }

  /** The labels so far: `first` is incomplete, the others are in `p`, last one first. */
  ghost predicate Turned(rest: string, p: string, len: nat) {
    len <= |rest| && Split(rest)[0] == rest[..len] && p == Dotted1(Reverse(Split(rest)[1..]))
  }

  lemma TurnDot(rest: string, p: string, len: nat)
    requires Turned(rest, p, len)
    ensures Turned("." + rest, p + rest[..len] + ".", 0)
  {
    var ls := Split(rest);
    assert ("." + rest)[1..] == rest;
    assert Split("." + rest)[1..] == ls;
    assert Reverse(ls) == Reverse(ls[1..]) + [ls[0]];
    DottedMore(Reverse(ls[1..]), ls[0]);
  }

  lemma TurnChar(rest: string, p: string, len: nat, c: char)
    requires Turned(rest, p, len) && c != '.'
    ensures Turned([c] + rest, p, len + 1)
  {
    assert ([c] + rest)[1..] == rest;
    assert Split([c] + rest)[1..] == Split(rest)[1..];
    assert ([c] + rest)[..len + 1] == [c] + rest[..len];
  }

  /** "*.example.com" becomes "com.example.", ".example.com" becomes "com.example" (ngx_hash.c:872-904). */
  method TurnRound(key: string) returns (p: string)
    requires key != ""
    ensures Split(p) == FromRight(key[1..])
  {
    var len := 0;
    p := "";
    var i := |key| - 1;
    assert key[|key|..] == "";
    while i > 0
      invariant 0 <= i < |key| && Turned(key[i + 1..], p, len)
    {
      assert key[i..] == [key[i]] + key[i + 1..];
      if key[i] == '.' {
        TurnDot(key[i + 1..], p, len);
        p := p + key[i + 1..][..len] + ".";
        len := 0;
      } else {
        TurnChar(key[i + 1..], p, len, key[i]);
        len := len + 1;
      }
      i := i - 1;
    }
    var rest := key[1..];
    if len > 0 {
      p := p + rest[..len];
    }
    Turned1(rest, p, len);
  }

  lemma Turned1(rest: string, p: string, len: nat)
    requires len <= |rest| && Split(rest)[0] == rest[..len] && p == Dotted1(Reverse(Split(rest)[1..])) + rest[..len]
    ensures Split(p) == FromRight(rest)
  {
    var ls := Split(rest);
    LabelsOf(rest);
    forall i | 0 <= i < |ls[1..]| ensures IsLabel(Reverse(ls[1..])[i]) {
      var j := ReverseElems(ls[1..], i);
    }
    DottedSplits(Reverse(ls[1..]), ls[0]);
  }

  // The arrays

  /** One of the small hashes that find keys given twice: strings by the hash of what `f` makes of them. */
  ghost predicate Bucketed(buckets: seq<seq<string>>, hsize: nat, chop: nat) {
    hsize > 0 && |buckets| == hsize && forall k, i :: 0 <= k < hsize && 0 <= i < |buckets[k]| ==>
      chop <= |buckets[k][i]| && Hash(buckets[k][i][..|buckets[k][i]| - chop]) % hsize == k
  }

  ghost predicate Seen(buckets: seq<seq<string>>, s: string) { exists k :: 0 <= k < |buckets| && s in buckets[k] }

  /** `ngx_strncmp` over the entries of one bucket (ngx_hash.c:783-791). */
  method InBucket(bucket: seq<string>, s: string) returns (found: bool)
    ensures found <==> s in bucket
  {
    var i := 0;
    while i < |bucket|
      invariant 0 <= i <= |bucket| && s !in bucket[..i]
    {
      if |s| == |bucket[i]| && s == bucket[i] {
        return true;
      }
      assert bucket[..i + 1] == bucket[..i] + [bucket[i]];
      i := i + 1;
    }
    assert bucket[..|bucket|] == bucket;
    return false;
  }

  /** A string can only be in the bucket of its hash. */
  lemma OwnBucket(buckets: seq<seq<string>>, hsize: nat, chop: nat, s: string, k: nat)
    requires Bucketed(buckets, hsize, chop) && chop <= |s| && k == Hash(s[..|s| - chop]) % hsize
    ensures k < hsize && (Seen(buckets, s) <==> s in buckets[k])
  {
    if Seen(buckets, s) {
      var q :| 0 <= q < |buckets| && s in buckets[q];
      var i :| 0 <= i < |buckets[q]| && buckets[q][i] == s;
    }
  }

  lemma Put(buckets: seq<seq<string>>, hsize: nat, chop: nat, s: string, k: nat)
    requires Bucketed(buckets, hsize, chop) && chop <= |s| && k == Hash(s[..|s| - chop]) % hsize
    ensures k < hsize && Bucketed(buckets[k := buckets[k] + [s]], hsize, chop)
    ensures forall t :: Seen(buckets[k := buckets[k] + [s]], t) <==> Seen(buckets, t) || t == s
  {
    var b := buckets[k := buckets[k] + [s]];
    forall t ensures Seen(b, t) <==> Seen(buckets, t) || t == s {
      if Seen(buckets, t) {
        var q :| 0 <= q < |buckets| && t in buckets[q];
        assert t in b[q];
      }
      if t == s { assert s in b[k]; }
      if Seen(b, t) {
        var q :| 0 <= q < |b| && t in b[q];
        if q != k { assert t in buckets[q]; } else { assert t in buckets[k] + [s]; }
      }
    }
  }

  /** A head key is stored turned round; `x` is what follows the dot of ".x" or "*.x". */
  ghost predicate HeadFor(n: Name, x: string) {
    x != "" && x[0] != '.' && (Split(n.key) == FromRight(x) || Split(n.key) == FromRight(x) + [""])
  }

  /** No two names in the list are for the same `x`, and each `x` has been put in the small hash. */
  ghost predicate Heads(names: seq<Name>, bases: seq<string>, seen: seq<seq<string>>) {
    && |bases| == |names| && (forall i :: 0 <= i < |names| ==> HeadFor(names[i], bases[i]) && Seen(seen, bases[i]))
    && (forall i, j :: 0 <= i < j < |bases| ==> bases[i] != bases[j])
  }

  ghost predicate Tails1(names: seq<Name>, seen: seq<seq<string>>) {
    && (forall i :: 0 <= i < |names| ==>
      names[i].key != "" && names[i].key[|names[i].key| - 1] != '.' && Seen(seen, names[i].key + "."))
    && (forall i, j :: 0 <= i < j < |names| ==> names[i].key != names[j].key)
  }

  ghost predicate Exacts(names: seq<Name>, seen: seq<seq<string>>) {
    && (forall i :: 0 <= i < |names| ==> Seen(seen, names[i].key))
    && (forall i, j :: 0 <= i < j < |names| ==> names[i].key != names[j].key)
  }

  /** The small hash holds what it held, and s. */
  ghost predicate Gains(seen: seq<seq<string>>, seen': seq<seq<string>>, s: string) {
    forall o :: OpenGains(o) ==> forall t :: Seen(seen', t) <==> Seen(seen, t) || t == s
  }

  lemma GainsNone(seen: seq<seq<string>>, s: string)
    requires Seen(seen, s)
    ensures Gains(seen, seen, s)
  {}

  /** What a small hash gains is spelled out only where a proof asks for it by naming this. */
  ghost predicate OpenGains(o: int) { true }

  /** The small hash holds what it held, and s if there is something new. */
  ghost predicate Marked(seen: seq<seq<string>>, seen': seq<seq<string>>, new1: bool, s: string) {
    if new1 then Gains(seen, seen', s) else seen' == seen
  }

  /** What is kept of a key: x of ".x", "*.x" and "x.*". */
  ghost function Parted(key: string, k: Kind, readonly: bool): string {
    match k
    case Dotted => if |key| > 1 then LowerAll(key[1..]) else ""
    case Starred => if |key| > 2 then LowerAll(key[2..]) else ""
    case Open => if |key| > 2 then LowerAll(key[..|key| - 2]) else ""
    case _ => if readonly then key else LowerAll(key)
  }

  /** The small hashes hold nothing but what is in the lists. */
  ghost predicate OnlyTails(names: seq<Name>, seen: seq<seq<string>>) {
    forall s :: Seen(seen, s) ==> exists i :: 0 <= i < |names| && names[i].key + "." == s
  }

  ghost predicate OnlyHeads(bases: seq<string>, seen: seq<seq<string>>) { forall s :: Seen(seen, s) ==> s in bases }

  lemma TailsGain(names: seq<Name>, seen: seq<seq<string>>, seen': seq<seq<string>>, x: string, v: Value)
    requires OnlyTails(names, seen) && Gains(seen, seen', x + ".")
    ensures OnlyTails(names + [Name(x, v)], seen')
  {
    var more := names + [Name(x, v)];
    assert OpenGains(0);
    forall s | Seen(seen', s) ensures exists i :: 0 <= i < |more| && more[i].key + "." == s {
      if s == x + "." {
        assert more[|names|].key + "." == s;
      } else {
        var i :| 0 <= i < |names| && names[i].key + "." == s;
        assert more[i] == names[i];
      }
    }
  }

  lemma TailAdded(names: seq<Name>, seen: seq<seq<string>>, hsize: nat, x: string, v: Value, s: string, k: nat)
    requires Bucketed(seen, hsize, 1) && Tails1(names, seen) && OnlyTails(names, seen) && s == x + "." && !Seen(seen, s)
    requires x != "" && x[|x| - 1] != '.' && k == Hash(x) % hsize
    ensures k < |seen| && var seen' := seen[k := seen[k] + [s]];
      && Bucketed(seen', hsize, 1) && Tails1(names + [Name(x, v)], seen') && OnlyTails(names + [Name(x, v)], seen')
      && Gains(seen, seen', s) && Seen(seen', s)
  {
    assert s[..|s| - 1] == x;
    Put(seen, hsize, 1, s, k);
    var seen' := seen[k := seen[k] + [s]];
    TailsGain(names, seen, seen', x, v);
    TailsKeep(names, seen, seen', x, v, s);
  }

  lemma TailsKeep(names: seq<Name>, seen: seq<seq<string>>, seen': seq<seq<string>>, x: string, v: Value, s: string)
    requires Tails1(names, seen) && Gains(seen, seen', s) && s == x + "." && !Seen(seen, s) && x != ""
      && x[|x| - 1] != '.'
    ensures Tails1(names + [Name(x, v)], seen')
  {
    assert OpenGains(0);
    forall i | 0 <= i < |names| ensures names[i].key != x && Seen(seen', names[i].key + ".") {
      assert Seen(seen, names[i].key + ".");
    }
  }

  lemma HeadAdded(names: seq<Name>, bases: seq<string>, seen: seq<seq<string>>, hsize: nat, n: Name, x: string, k: nat)
    requires Bucketed(seen, hsize, 0) && Heads(names, bases, seen) && OnlyHeads(bases, seen) && !Seen(seen, x)
    requires HeadFor(n, x) && k == Hash(x) % hsize
    ensures k < |seen| && var seen' := seen[k := seen[k] + [x]];
      Bucketed(seen', hsize, 0) && Heads(names + [n], bases + [x], seen') && OnlyHeads(bases + [x], seen')
        && Gains(seen, seen', x) && Seen(seen', x)
  {
    assert x[..|x| - 0] == x;
    Put(seen, hsize, 0, x, k);
    var seen' := seen[k := seen[k] + [x]];
    HeadsKeep(names, bases, seen, seen', n, x);
  }

  lemma HeadsKeep(names: seq<Name>, bases: seq<string>, seen: seq<seq<string>>, seen': seq<seq<string>>, n: Name,
      x: string)
    requires Heads(names, bases, seen) && OnlyHeads(bases, seen) && Gains(seen, seen', x) && !Seen(seen, x)
      && HeadFor(n, x)
    ensures Heads(names + [n], bases + [x], seen') && OnlyHeads(bases + [x], seen')
  {
    assert OpenGains(0);
    forall i | 0 <= i < |names| ensures bases[i] != x && Seen(seen', bases[i]) { assert Seen(seen, bases[i]); }
    var names', bases' := names + [n], bases + [x];
    forall i | 0 <= i < |names'| ensures HeadFor(names'[i], bases'[i]) && Seen(seen', bases'[i]) {
      if i < |names| { assert names'[i] == names[i] && bases'[i] == bases[i]; }
    }
    forall s | Seen(seen', s) ensures s in bases' { assert s == x || s in bases; }
  }

  /** One name with these labels and this value has been added to the list. */
  ghost predicate Joined(names: seq<Name>, names': seq<Name>, labels: Labels, value: Value) {
    |names'| == |names| + 1 && names'[..|names|] == names && Split(names'[|names|].key) == labels
      && names'[|names|].value == value
  }

  /** ngx_hash_keys_arrays_t */
  class KeysArrays {
    const hsize: nat
    var keys: seq<Name>
    var head: seq<Name>
    var tail: seq<Name>
    var keysHash: seq<seq<string>>
    var headHash: seq<seq<string>>
    var tailHash: seq<seq<string>>
    ghost var bases: seq<string>

    ghost predicate Valid()
      reads this
    {
      && Bucketed(keysHash, hsize, 0) && Bucketed(headHash, hsize, 0) && Bucketed(tailHash, hsize, 1)
      && Exacts(keys, keysHash) && Heads(head, bases, headHash) && Tails1(tail, tailHash)
      && OnlyHeads(bases, headHash) && OnlyTails(tail, tailHash)
    }

    /** ngx_hash_keys_array_init */
    constructor (large: bool)
      ensures Valid() && keys == head == tail == [] && hsize == if large then 10007 else 107
      ensures forall t :: !Seen(keysHash, t) && !Seen(headHash, t) && !Seen(tailHash, t)
    {
      var size := if large then 10007 else 107;
      hsize, keys, head, tail, bases := size, [], [], [], [];
      keysHash, headHash, tailHash := seq(size, i => []), seq(size, i => []), seq(size, i => []);
    }

    /** ngx_hash.c:765-818 */
    method AddExact(key: string, value: Value, readonly: bool) returns (rc: Status)
      requires Valid()
      modifies this`keys, this`keysHash
      ensures Valid()
      ensures var s := if readonly then key else LowerAll(key);
        && (rc == if Seen(old(keysHash), s) then Busy else Ok) && Gains(old(keysHash), keysHash, s) && Seen(keysHash, s)
        && keys == if rc == Ok then old(keys) + [Name(s, value)] else old(keys)
    {
      var s := if readonly then key else LowerAll(key);
      assert s[..|s| - 0] == s;
      var k := Hash(s) % hsize;
      OwnBucket(keysHash, hsize, 0, s, k);
      var found := InBucket(keysHash[k], s);
      if found {
        return Busy;
      }
      Put(keysHash, hsize, 0, s, k);
      keysHash := keysHash[k := keysHash[k] + [s]];
      keys := keys + [Name(s, value)];
      return Ok;
    }

    /** ".x" also takes the place of the plain name x (ngx_hash.c:829-869). */
    method ClaimExact(x: string) returns (ok: bool)
      requires Valid()
      modifies this`keysHash
      ensures Valid() && (ok <==> !Seen(old(keysHash), x)) && Gains(old(keysHash), keysHash, x)
    {
      assert x[..|x| - 0] == x;
      var k := Hash(x) % hsize;
      OwnBucket(keysHash, hsize, 0, x, k);
      var found := InBucket(keysHash[k], x);
      if found {
        return false;
      }
      Put(keysHash, hsize, 0, x, k);
      keysHash := keysHash[k := keysHash[k] + [x]];
      return true;
    }

    /** "*.x" and ".x" (ngx_hash.c:823-978) */
    method AddHead(key: string, skip: nat, value: Value) returns (rc: Status)
      requires Valid() && 1 <= skip <= 2 && |key| > skip && key[skip - 1] == '.' && key[skip] != '.'
      modifies this`head, this`bases, this`keysHash, this`headHash
      ensures Valid()
      ensures var x := LowerAll(key[skip..]);
        && (rc == if Seen(old(headHash), x) || (skip == 1 && Seen(old(keysHash), x)) then Busy else Ok)
        && (if rc == Ok then
          Joined(old(head), head, if skip == 2 then FromRight(x) + [""] else FromRight(x), value)
          && Gains(old(headHash), headHash, x) && Seen(headHash, x)
            else head == old(head) && headHash == old(headHash))
        && (if skip == 1 then Gains(old(keysHash), keysHash, x) else keysHash == old(keysHash))
    {
      var x := LowerAll(key[skip..]);
      if skip == 1 {
        var ok := ClaimExact(x);
        if !ok {
          return Busy;
        }
      }
      var p := TurnRound(key[..skip] + x);
      TurnedKey(key, skip, x);
      assert x[..|x| - 0] == x;
      var k := Hash(x) % hsize;
      OwnBucket(headHash, hsize, 0, x, k);
      var found := InBucket(headHash[k], x);
      if found {
        return Busy;
      }
      HeadAdded(head, bases, headHash, hsize, Name(p, value), x, k);
      headHash := headHash[k := headHash[k] + [x]];
      head := head + [Name(p, value)];
      bases := bases + [x];
      return Ok;
    }

    lemma TurnedKey(key: string, skip: nat, x: string)
      requires 1 <= skip <= 2 && |key| >= skip && key[skip - 1] == '.'
      ensures FromRight((key[..skip] + x)[1..]) == if skip == 2 then FromRight(x) + [""] else FromRight(x)
    {
      var s := (key[..skip] + x)[1..];
      if skip == 1 {
        assert s == x;
      } else {
        assert s == "." + x;
        assert s[1..] == x;
        assert Split(s) == [""] + Split(x);
        assert Split(s)[1..] == Split(x);
      }
    }

    /** "x.*" (ngx_hash.c:823-978) */
    method AddTail(key: string, value: Value) returns (rc: Status)
      requires Valid() && |key| > 2 && key[|key| - 3] != '.'
      modifies this`tail, this`tailHash
      ensures Valid()
      ensures var x := LowerAll(key[..|key| - 2]);
        && (rc == if Seen(old(tailHash), x + ".") then Busy else Ok) && Gains(old(tailHash), tailHash, x + ".")
        && Seen(tailHash, x + ".")
        && tail == if rc == Ok then old(tail) + [Name(x, value)] else old(tail)
    {
      var x := LowerAll(key[..|key| - 2]);
      var s := x + ".";
      assert s[..|s| - 1] == x;
      var k := Hash(x) % hsize;
      OwnBucket(tailHash, hsize, 1, s, k);
      var found := InBucket(tailHash[k], s);
      if found {
        GainsNone(tailHash, s);
        return Busy;
      }
      TailAdded(tail, tailHash, hsize, x, value, s, k);
      tailHash := tailHash[k := tailHash[k] + [s]];
      tail := tail + [Name(x, value)];
      return Ok;
    }

    lemma LastTwo(key: string)
      requires |key| > 2 && key[|key| - 2] == '.'
      ensures key[|key| - 3] == '.' ==> TwoDots(key)
    {
      var i := |key| - 3;
      if key[i] == '.' { assert key[i + 1] == '.'; }
    }

    /** The key has been given before; ".x" also counts as the plain name x. */
    ghost predicate Conflict(key: string, wildcard: bool, readonly: bool)
      reads this
    {
      match if wildcard then KindOf(key) else Plain
      case Malformed => false
      case Plain => Seen(keysHash, if readonly then key else LowerAll(key))
      case Dotted => Seen(keysHash, LowerAll(key[1..])) || Seen(headHash, LowerAll(key[1..]))
      case Starred => Seen(headHash, LowerAll(key[2..]))
      case Open => Seen(tailHash, LowerAll(key[..|key| - 2]) + ".")
    }

    /** ngx_hash_add_key (ngx_hash.c:706-978) */
    method AddKey(key: string, value: Value, wildcard: bool, readonly: bool) returns (rc: Status)
      requires Valid()
      modifies this`keys, this`head, this`tail, this`bases, this`keysHash, this`headHash, this`tailHash
      ensures Valid()
      ensures rc == Declined <==> wildcard && KindOf(key) == Malformed
      ensures rc == Busy <==> old(Conflict(key, wildcard, readonly))
      ensures rc == Ok ==> Conflict(key, wildcard, readonly)
      ensures var k := if wildcard then KindOf(key) else Plain; var s := Parted(key, k, readonly);
        && Marked(old(keysHash), keysHash, k == Plain || k == Dotted, s)
        && Marked(old(headHash), headHash, rc == Ok && (k == Dotted || k == Starred), s)
        && Marked(old(tailHash), tailHash, k == Open, s + ".")
      ensures rc != Ok ==> keys == old(keys) && head == old(head) && tail == old(tail)
      ensures rc == Ok && (!wildcard || KindOf(key) == Plain) ==>
        head == old(head) && tail == old(tail)
          && keys == old(keys) + [Name(if readonly then key else LowerAll(key), value)]
      ensures rc == Ok && wildcard && KindOf(key) == Open ==>
        keys == old(keys) && head == old(head) && tail == old(tail) + [Name(LowerAll(key[..|key| - 2]), value)]
      ensures rc == Ok && wildcard && KindOf(key) == Dotted ==>
        keys == old(keys) && tail == old(tail) && Joined(old(head), head, FromRight(LowerAll(key[1..])), value)
      ensures rc == Ok && wildcard && KindOf(key) == Starred ==>
        keys == old(keys) && tail == old(tail) && Joined(old(head), head, FromRight(LowerAll(key[2..])) + [""], value)
    {
      var kind := Plain;
      if wildcard {
        kind := Classify(key);
      }
      match kind
      case Malformed => rc := Declined;
      case Plain => rc := AddExact(key, value, readonly);
      case Dotted =>
        NoTwo(key, 0);
        rc := AddHead(key, 1, value);
      case Starred =>
        NoTwo(key, 1);
        rc := AddHead(key, 2, value);
      case Open =>
        LastTwo(key);
        rc := AddTail(key, value);
    }

    lemma NoTwo(key: string, i: nat)
      requires !TwoDots(key) && i + 1 < |key| && key[i] == '.'
      ensures key[i + 1] != '.'
    {}

    /** A key conflicts with what has been given exactly if the same key in other letters, capital or small, does. */
    lemma CaseAside(a: string, b: string, wildcard: bool)
      requires SameName(a, b)
      ensures Conflict(a, wildcard, false) <==> Conflict(b, wildcard, false)
    {
      SameKind(a, b);
      SameLowered(a, b);
      if |a| > 1 { SamePart(a, b, 1, |a|); }
      if |a| > 2 {
        SamePart(a, b, 2, |a|);
        SamePart(a, b, 0, |a| - 2);
      }
    }
  }

  lemma SamePart(a: string, b: string, i: nat, j: nat)
    requires SameName(a, b) && i <= j <= |a|
    ensures SameName(a[i..j], b[i..j]) && LowerAll(a[i..j]) == LowerAll(b[i..j])
    ensures j == |a| ==> LowerAll(a[i..]) == LowerAll(b[i..])
    ensures i == 0 ==> LowerAll(a[..j]) == LowerAll(b[..j])
  {
    forall k | 0 <= k < j - i ensures Alike(a[i..j][k], b[i..j][k]) { assert Alike(a[i + k], b[i + k]); }
    SameLowered(a[i..j], b[i..j]);
    assert a[i..|a|] == a[i..] && b[i..|b|] == b[i..] && a[0..j] == a[..j] && b[0..j] == b[..j];
  }

  lemma SameSign(c: char, d: char)
    requires Alike(c, d)
    ensures c == '.' <==> d == '.'
    ensures c == '*' <==> d == '*'
  {
    AlikeIs(c, d);
  }

  lemma {:induction false} SameStars(a: string, b: string)
    requires SameName(a, b)
    ensures Stars(a) == Stars(b)
  {
    if a != "" {
      assert Alike(a[0], b[0]);
      SameSign(a[0], b[0]);
      SamePart(a, b, 1, |a|);
      assert a[1..|a|] == a[1..] && b[1..|b|] == b[1..];
      SameStars(a[1..], b[1..]);
    }
  }

  lemma SameKind(a: string, b: string)
    requires SameName(a, b)
    ensures KindOf(a) == KindOf(b)
  {
    SameStars(a, b);
    forall i | 0 <= i < |a| ensures (a[i] == '.' <==> b[i] == '.') && (a[i] == '*' <==> b[i] == '*') {
      assert Alike(a[i], b[i]);
      SameSign(a[i], b[i]);
    }
    if TwoDots(a) {
      var i :| 0 <= i < |a| - 1 && a[i] == '.' && a[i + 1] == '.';
      assert b[i] == '.' && b[i + 1] == '.';
    }
    if TwoDots(b) {
      var i :| 0 <= i < |b| - 1 && b[i] == '.' && b[i + 1] == '.';
      assert a[i] == '.' && a[i + 1] == '.';
    }
  }

  /** What has been accepted is refused the second time, in whatever letters, capital or small, it is given. */
  method GivenTwice(ha: KeysArrays, a: string, b: string, v: Value, w: Value, wildcard: bool)
    returns (first: Status, second: Status)
    requires ha.Valid() && SameName(a, b)
    modifies ha`keys, ha`head, ha`tail, ha`bases, ha`keysHash, ha`headHash, ha`tailHash
    ensures ha.Valid() && (first == Ok ==> second == Busy) && (first == Declined <==> second == Declined)
  {
    first := ha.AddKey(a, v, wildcard, false);
    SameKind(a, b);
    ha.CaseAside(a, b, wildcard);
    second := ha.AddKey(b, w, wildcard, false);
  }
}
