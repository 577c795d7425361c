/** Names as strings with dots, their labels, and the order ngx_dns_strcmp sorts them in. */
module WildLabels {
  import opened WildTable

  /** The labels of a name, from left to right. */
  function Split(s: string): (r: Labels)
    ensures r != []
  {
    if s == "" then [""]
    else if s[0] == '.' then [""] + Split(s[1..])
    else var r := Split(s[1..]); [[s[0]] + r[0]] + r[1..]
  }

  /** The place of the first dot, or the end. */
  function Dot(s: string): (i: nat)
    ensures i <= |s| && (i < |s| ==> s[i] == '.') && forall j :: 0 <= j < i ==> s[j] != '.'
  {
    if s == "" || s[0] == '.' then 0 else 1 + Dot(s[1..])
  }

  /** The first label ends at the first dot. */
  lemma {:induction false} SplitFirst(s: string)
    ensures Split(s)[0] == s[..Dot(s)]
    ensures Split(s)[1..] == if Dot(s) < |s| then Split(s[Dot(s) + 1..]) else []
  {
    if s == "" {
    } else if s[0] == '.' {
      assert s[0 + 1..] == s[1..];
    } else {
      var t := s[1..];
      SplitFirst(t);
      assert s[..Dot(s)] == [s[0]] + t[..Dot(t)];
      if Dot(t) < |t| { assert t[Dot(t) + 1..] == s[Dot(s) + 1..]; }
    }
  }

  /** A dot in front of a part without dots separates the last label. */
  lemma {:induction false} SplitLast(s: string, n: nat)
    requires n <= |s| && (forall j :: n <= j < |s| ==> s[j] != '.') && (n > 0 ==> s[n - 1] == '.')
    ensures Split(s) == if n == 0 then [s] else Split(s[..n - 1]) + [s[n..]]
    decreases |s|
  {
    if s == "" {
    } else if n == 0 {
      SplitLast(s[1..], 0);
      assert s == [s[0]] + s[1..];
    } else {
      var t := s[1..];
      SplitLast(t, n - 1);
      if n == 1 {
        assert s[..0] == "" && Split(s[..0]) == [""] && s[1..] == t;
      } else {
        assert t[..n - 2] == s[..n - 1][1..] && t[n - 1..] == s[n..];
        assert s[..n - 1][0] == s[0];
      }
    }
  }

  // The order of label lists

  predicate LabelLess(x: Label, y: Label) {
    y != "" && (x == "" || x[0] < y[0] || (x[0] == y[0] && LabelLess(x[1..], y[1..])))
  }

  predicate ListLess(a: Labels, b: Labels) {
    b != [] && (a == [] || LabelLess(a[0], b[0]) || (a[0] == b[0] && ListLess(a[1..], b[1..])))
  }

  lemma {:induction false} LabelOrder(x: Label, y: Label)
    requires LabelLess(x, y)
    ensures x != y && !LabelLess(y, x)
  {
    if x != "" && x[0] == y[0] { LabelOrder(x[1..], y[1..]); }
  }

  lemma {:induction false} LabelSelf(l: Label)
    ensures !LabelLess(l, l)
  {
    if l != "" { LabelSelf(l[1..]); }
  }

  lemma LabelPair(x: Label, y: Label)
    ensures !(LabelLess(x, y) && LabelLess(y, x))
  {
    if LabelLess(x, y) { LabelOrder(x, y); }
  }

  /** What stands between two lists that begin with the same n labels begins with them too. */
  lemma {:induction false} Between(a: Labels, b: Labels, c: Labels, n: nat)
    requires ListLess(a, b) && ListLess(b, c) && Shares(a, c, n)
    ensures Shares(a, b, n)
    decreases n
  {
    if n > 0 {
      assert a[..n][0] == c[..n][0];
      LabelPair(a[0], b[0]);
      LabelSelf(a[0]);
      assert a[1..][..n - 1] == a[..n][1..] && c[1..][..n - 1] == c[..n][1..];
      Between(a[1..], b[1..], c[1..], n - 1);
      assert a[..n] == [a[0]] + a[1..][..n - 1] && b[..n] == [b[0]] + b[1..][..n - 1];
    }
  }

  lemma {:induction false} NotBeforeBeginning(a: Labels, b: Labels)
    requires b <= a
    ensures !ListLess(a, b)
    decreases |a|
  {
    if b != [] {
      assert a[0] == b[0] && b[1..] <= a[1..];
      LabelSelf(a[0]);
      NotBeforeBeginning(a[1..], b[1..]);
    }
  }

  /** Whoever shares more labels with a key than its base has shares them all. */
  lemma WholeKey(a: Labels, b: Labels, n: nat)
    requires Shares(a, b, n)
    ensures n > |Base(b)| ==> b <= a && !ListLess(a, b)
  {
    if n > |Base(b)| {
      assert b == b[..n] == a[..n];
      NotBeforeBeginning(a, b);
    }
  }

  lemma BaseShares(a: Labels, b: Labels, n: nat)
    requires n <= |Base(a)| && n <= |Base(b)|
    ensures Shares(Base(a), Base(b), n) <==> Shares(a, b, n)
  {
    assert Base(a)[..n] == a[..n] && Base(b)[..n] == b[..n];
  }

  /** The same for what the keys stand for, if all have different ones. */
  lemma BetweenBases(a: Labels, b: Labels, c: Labels, n: nat)
    requires ListLess(a, b) && ListLess(b, c) && Base(a) != Base(b) && Shares(Base(a), Base(c), n)
    ensures Shares(Base(a), Base(b), n)
  {
    BaseShares(a, c, n);
    Between(a, b, c, n);
    WholeKey(a, b, n);
    BaseShares(a, b, n);
  }

  /** Keys in the order of their labels stand together. */
  lemma InOrderTogether(names: seq<Entry>)
    requires forall i, j :: 0 <= i < j < |names| ==>
      ListLess(names[i].key, names[j].key) && Base(names[i].key) != Base(names[j].key)
    ensures Together(names)
  {
    forall i, j, m, n: nat ensures Stand(names, i, j, m, n) {
      if 0 <= i < j < m < |names| && Shares(Base(names[i].key), Base(names[m].key), n) {
        BetweenBases(names[i].key, names[j].key, names[m].key, n);
      }
    }
  }

  // The order of names

  function Lower(c: char): char { if 'A' <= c <= 'Z' then (c as int + 32) as char else c }

  function LowerAll(s: string): (r: string)
    ensures |r| == |s|
  {
    seq(|s|, i requires 0 <= i < |s| => Lower(s[i]))
  }

  const UPPER: string := "ABCDEFGHIJKLMNOPQRSTUVWXYZ"

  const LOWER: string := "abcdefghijklmnopqrstuvwxyz"

  lemma UpperAt(k: nat)
    requires k < 26
    ensures UPPER[k] as int == 'A' as int + k
  {}

  lemma LowerAt(k: nat)
    requires k < 26
    ensures LOWER[k] as int == 'a' as int + k
  {}

  /** d is the small letter for c, or c itself if that is no capital letter. */
  ghost predicate Small(c: char, d: char) {
    if c in UPPER then exists k :: 0 <= k < 26 && c == UPPER[k] && d == LOWER[k] else d == c
  }

  lemma LowerIsSmall(c: char, d: char)
    ensures Small(c, d) <==> d == Lower(c)
    ensures c in UPPER <==> 'A' <= c <= 'Z'
  {
    if 'A' <= c <= 'Z' {
      var k := c as int - 'A' as int;
      UpperAt(k);
      LowerAt(k);
      assert UPPER[k] == c;
      forall j: nat | j < 26 ensures UPPER[j] == c ==> j == k { UpperAt(j); }
    } else {
      forall j: nat | j < 26 ensures UPPER[j] != c { UpperAt(j); }
    }
  }

  /** The same name, but for capital and small letters. */
  ghost predicate Alike(c: char, d: char) { exists x :: Small(c, x) && Small(d, x) }

  ghost predicate SameName(a: string, b: string) { |a| == |b| && forall i :: 0 <= i < |a| ==> Alike(a[i], b[i]) }

  /** t is s with every capital letter made small. */
  ghost predicate Spelled(s: string, t: string) { |s| == |t| && forall i :: 0 <= i < |s| ==> Small(s[i], t[i]) }

  lemma SpelledIs(s: string, t: string)
    ensures Spelled(s, t) <==> LowerAll(s) == t
  {
    forall i | 0 <= i < |s| && |s| == |t| ensures Small(s[i], t[i]) <==> LowerAll(s)[i] == t[i] {
      LowerIsSmall(s[i], t[i]);
    }
    if LowerAll(s) == t {
      forall i | 0 <= i < |s| ensures Small(s[i], t[i]) { assert LowerAll(s)[i] == t[i]; }
    }
  }

  lemma AlikeIs(c: char, d: char)
    ensures Alike(c, d) <==> Lower(c) == Lower(d)
  {
    if Alike(c, d) {
      var x :| Small(c, x) && Small(d, x);
      LowerIsSmall(c, x);
      LowerIsSmall(d, x);
    }
    if Lower(c) == Lower(d) {
      LowerIsSmall(c, Lower(c));
      LowerIsSmall(d, Lower(c));
    }
  }

  /** Two names become one in small letters exactly if they are the same but for capital letters. */
  lemma SameLowered(a: string, b: string)
    ensures SameName(a, b) <==> LowerAll(a) == LowerAll(b)
  {
    if |a| == |b| {
      forall i | 0 <= i < |a| ensures Alike(a[i], b[i]) <==> LowerAll(a)[i] == LowerAll(b)[i] { AlikeIs(a[i], b[i]); }
    }
    if LowerAll(a) == LowerAll(b) {
      assert |a| == |LowerAll(a)| == |LowerAll(b)| == |b|;
      forall i | 0 <= i < |a| ensures Alike(a[i], b[i]) { assert LowerAll(a)[i] == LowerAll(b)[i]; }
    }
  }

  /** There is no capital letter in what has been made small. */
  lemma NoCapitals(s: string, i: nat)
    requires i < |s|
    ensures LowerAll(s)[i] !in UPPER
  {
    LowerIsSmall(LowerAll(s)[i], LowerAll(s)[i]);
  }

  /** Character i of a null-terminated string, in lower case. */
  function At(s: string, i: nat): int { if i < |s| then Lower(s[i]) as int else 0 }

  /** A dot counts as a space, below every other character. */
  function Rank(c: int): int { if c == '.' as int then ' ' as int else c }

  /** ngx_dns_strcmp (ngx_string.c:824-852) */
  function Compare(a: string, b: string, i: nat): int
    requires NoNul(a) && NoNul(b)
    decreases |a| - i
  {
    var c, d := At(a, i), At(b, i);
    if c != d then Rank(c) - Rank(d) else if c == 0 then 0 else Compare(a, b, i + 1)
  }

  predicate NoNul(s: string) { forall j :: 0 <= j < |s| ==> s[j] != '\0' }

  method DnsStrcmp(a: string, b: string) returns (r: int)
    requires NoNul(a) && NoNul(b)
    ensures r == Compare(a, b, 0)
  {
    var i := 0;
    while true
      invariant Compare(a, b, i) == Compare(a, b, 0) && i <= |a|
      decreases |a| - i
    {
      var c, d := At(a, i), At(b, i);
      if c == d {
        if c != 0 {
          i := i + 1;
          continue;
        }
        return 0;
      }
      return Rank(c) - Rank(d);
    }
  }

  /** Names without NULs and spaces compare as equal exactly if they are the same but for capital letters. */
  lemma EqualNames(a: string, b: string)
    requires NoNul(a) && NoNul(b) && ' ' !in a && ' ' !in b
    ensures Compare(a, b, 0) == 0 <==> SameName(a, b)
  {
    EqualFrom(a, b, 0);
    SameLowered(a, b);
  }

  lemma {:induction false} EqualFrom(a: string, b: string, i: nat)
    requires NoNul(a) && NoNul(b) && ' ' !in a && ' ' !in b && i <= |a| && i <= |b|
    requires forall j :: 0 <= j < i ==> LowerAll(a)[j] == LowerAll(b)[j]
    ensures Compare(a, b, i) == 0 <==> LowerAll(a) == LowerAll(b)
    decreases |a| - i
  {
    if i < |a| && i < |b| {
      assert LowerAll(a)[i] == Lower(a[i]) && LowerAll(b)[i] == Lower(b[i]);
      assert a[i] in a && b[i] in b;
      if Lower(a[i]) == Lower(b[i]) { EqualFrom(a, b, i + 1); }
    } else if i < |a| {
      assert a[i] in a;
    } else if i < |b| {
      assert b[i] in b;
    } else {
      assert LowerAll(a) == LowerAll(b);
    }
  }

  /** Lower case, and no character at or below the space. */
  predicate Clean(s: string) { forall j :: 0 <= j < |s| ==> s[j] > ' ' && !('A' <= s[j] <= 'Z') }

  lemma {:induction false} CompareMoves(a: string, b: string, i: nat)
    requires a != "" && b != "" && NoNul(a) && NoNul(b)
    ensures Compare(a, b, i + 1) == Compare(a[1..], b[1..], i)
    decreases |a| - i
  {
    assert At(a, i + 1) == At(a[1..], i) && At(b, i + 1) == At(b[1..], i);
    if At(a, i + 1) == At(b, i + 1) != 0 { CompareMoves(a, b, i + 1); }
  }

  lemma ListSame(a: Labels, b: Labels, c: char)
    requires a != [] && b != []
    ensures ListLess([[c] + a[0]] + a[1..], [[c] + b[0]] + b[1..]) == ListLess(a, b)
  {
    var x, y := [c] + a[0], [c] + b[0];
    assert x[1..] == a[0] && y[1..] == b[0];
    assert x == y <==> a[0] == b[0];
    assert ([x] + a[1..])[1..] == a[1..] && ([y] + b[1..])[1..] == b[1..];
  }

  /** For such names the order is that of the label lists. */
  lemma {:induction false} CompareIsListLess(a: string, b: string)
    requires Clean(a) && Clean(b)
    ensures NoNul(a) && NoNul(b)
    ensures Compare(a, b, 0) < 0 <==> ListLess(Split(a), Split(b))
    ensures Compare(a, b, 0) == 0 <==> a == b
    decreases |a|
  {
    if a != "" && b != "" && a[0] == b[0] {
      var a', b' := a[1..], b[1..];
      CompareIsListLess(a', b');
      CompareMoves(a, b, 0);
      assert a == [a[0]] + a' && b == [b[0]] + b';
      if a[0] != '.' {
        ListSame(Split(a'), Split(b'), a[0]);
      } else {
        assert ([""] + Split(a'))[1..] == Split(a') && ([""] + Split(b'))[1..] == Split(b');
      }
    }
  }
}
