/** Wildcard tables built from keys that do not stand together: some lookup in them goes wrong. */
module WildScatter {
  import opened WildTable

  predicate HasValue(names: seq<Entry>, v: Value) { exists i :: 0 <= i < |names| && names[i].value == v }

  predicate Distinct(names: seq<Entry>) { forall i, j :: 0 <= i < j < |names| ==> names[i].value != names[j].value }

  predicate Dotless(l: Label) { forall j :: 0 <= j < |l| ==> l[j] != '.' }

  predicate AllDotless(ls: Labels) { forall j :: 0 <= j < |ls| ==> Dotless(ls[j]) }

  predicate Keyed(names: seq<Entry>) { forall i :: 0 <= i < |names| ==> AllDotless(names[i].key) }

  // What a lookup returns is the value of one of the keys it went along

  lemma NextValues(group: seq<Entry>, v: Value)
    requires group != [] && (forall i :: 0 <= i < |group| ==> group[i].key != []) && HasValue(Next(group), v)
    ensures HasValue(group, v)
  {
    var t, s := Next(group), if Done(group[0].key) then 1 else 0;
    var i :| 0 <= i < |t| && t[i].value == v;
    assert group[i + s].value == v;
  }

  lemma {:induction false} FollowValues(group: seq<Entry>, l: Label, name: Labels)
    requires group != [] && Proper(group) && Grouped(group, l) && name != []
    ensures var r := Follow(SlotOf(group, l), name); r.Some? ==> HasValue(group, r.value)
    decreases |name|, 0
  {
    var f := group[0];
    ProperNext(group, l);
    assert HasValue(group, f.value);
    if Next(group) != [] && |name| > 1 {
      var own := if Done(f.key) then Some(f.value) else None;
      FindValues(Next(group), own, name[1..]);
      var r := Find(Build(Next(group), own), name[1..]);
      if r.Some? && r != own { NextValues(group, r.value); }
    }
  }

  lemma {:induction false} FindValues(names: seq<Entry>, own: Option<Value>, name: Labels)
    requires Proper(names) && name != []
    ensures var r := Find(Build(names, own), name); r.Some? ==> r == own || HasValue(names, r.value)
    decreases |name|, 1
  {
    var a, b, group, slot := LookupRun(names, name[0], Entries(names));
    if group != [] {
      FollowValues(group, name[0], name);
      var r := Follow(SlotOf(group, name[0]), name);
      if r.Some? { PartValue(names, a, b, group, r.value); }
    }
  }

  lemma PartValue(names: seq<Entry>, a: nat, b: nat, group: seq<Entry>, v: Value)
    requires a <= b <= |names| && group == names[a..b] && HasValue(group, v)
    ensures exists i :: a <= i < b && names[i].value == v
  {
    var i :| 0 <= i < |group| && group[i].value == v;
    assert names[a + i] == group[i];
  }

  // A key outside of the first run is never found

  /** A name below the base of the key at m, and of no other key as long. */
  ghost predicate Aims(names: seq<Entry>, m: nat, name: Labels) {
    && m < |names| && |name| == |Base(names[m].key)| + 1 && Base(names[m].key) == name[..|name| - 1]
    && forall i :: 0 <= i < |names| ==> Base(names[i].key) != name
  }

  lemma AimsMatches(names: seq<Entry>, m: nat, name: Labels)
    requires Aims(names, m, name)
    ensures Matches(names[m].key, name)
  {}

  /** The best match of such a name is the key at m. */
  lemma AimsBest(names: seq<Entry>, m: nat, name: Labels, v: Value)
    requires Proper(names) && Aims(names, m, name) && Best(names, name, v)
    ensures v == names[m].value
  {
    var i :| BestAt(names, name, v, i);
    AimsMatches(names, m, name);
    var c, d := Base(names[i].key), Base(names[m].key);
    assert |d| <= |c| <= |name| && c == name[..|c|];
    assert |c| == |name| ==> c == name;
    assert c == d;
    OneKey(names, i, m);
  }

  lemma OneKey(names: seq<Entry>, i: nat, j: nat)
    requires Proper(names) && i < |names| && j < |names|
    ensures Base(names[i].key) == Base(names[j].key) ==> i == j
  {
    if i < j { assert !(Base(names[j].key) <= Base(names[i].key)); }
    if j < i { assert !(Base(names[i].key) <= Base(names[j].key)); }
  }

  lemma OneValue(names: seq<Entry>, i: nat, j: nat)
    requires Distinct(names) && i < |names| && j < |names|
    ensures names[i].value == names[j].value ==> i == j
  {}

  lemma TopMiss(names: seq<Entry>, own: Option<Value>, m: nat, name: Labels, a: nat, b: nat, group: seq<Entry>)
    requires Proper(names) && Distinct(names) && Aims(names, m, name) && name != [] && names[m].key[0] == name[0]
    requires Found(names, name[0], a, b, group, Lookup(Entries(names), name[0])) && !(a <= m < b)
    ensures !Right(names, name, own, Find(Build(names, own), name))
  {
    var l := name[0];
    assert group != [];
    FollowValues(group, l, name);
    var r := Follow(SlotOf(group, l), name);
    AimsMatches(names, m, name);
    if r.Some? {
      PartValue(names, a, b, group, r.value);
      NotAt(names, a, b, m, r.value);
      if Best(names, name, r.value) { AimsBest(names, m, name, r.value); }
    }
  }

  lemma NotAt(names: seq<Entry>, a: nat, b: nat, m: nat, v: Value)
    requires Distinct(names) && a <= b <= |names| && m < |names| && !(a <= m < b)
    requires exists i :: a <= i < b && names[i].value == v
    ensures names[m].value != v
  {
    var i :| a <= i < b && names[i].value == v;
    if i < m { assert names[i].value != names[m].value; } else { assert names[m].value != names[i].value; }
  }

  // A wrong answer below a label is a wrong answer

  /** What is best among all names and comes from a part is best in the part. */
  lemma Narrow(names: seq<Entry>, a: nat, b: nat, group: seq<Entry>, name: Labels, own: Option<Value>, r: Option<Value>)
    requires a <= b <= |names| && group == names[a..b] && Distinct(names) && Right(names, name, own, r)
    requires (r.Some? ==> HasValue(group, r.value)) && (own.Some? ==> !HasValue(names, own.value))
    ensures Right(group, name, None, r)
  {
    forall i | 0 <= i < |group| ensures group[i] == names[a + i] {}
    if r.Some? {
      PartValue(names, a, b, group, r.value);
      var k :| a <= k < b && names[k].value == r.value;
      assert HasValue(names, r.value);
      var i :| BestAt(names, name, r.value, i);
      OneValue(names, i, k);
      assert BestAt(group, name, r.value, k - a);
    }
  }

  lemma BestBelow(t: seq<Entry>, group: seq<Entry>, s: nat, name: Labels, v: Value, i: nat)
    requires Shifted(t, group, s, name) && s <= i && BestAt(group, name, v, i)
    ensures Best(t, name[1..], v)
  {
    forall j | 0 <= j < |t| && Matches(t[j].key, name[1..]) ensures |Base(t[j].key)| <= |Base(t[i - s].key)| {
      assert Matches(group[j + s].key, name);
    }
    assert BestAt(t, name[1..], v, i - s);
  }

  /** If the first key of the group is the best match, none of the longer ones matches. */
  lemma NoneBelow(t: seq<Entry>, group: seq<Entry>, s: nat, name: Labels, v: Value, j: nat)
    requires Shifted(t, group, s, name) && BestAt(group, name, v, 0) && |Base(group[0].key)| == 1 && j < |t|
      && t[j].key != []
    ensures !Matches(t[j].key, name[1..])
  {
    assert |Base(t[j].key)| >= 1;
    BestOver(group, name, v, 0, j + s);
  }

  lemma BestOver(group: seq<Entry>, name: Labels, v: Value, i: nat, k: nat)
    requires BestAt(group, name, v, i) && k < |group|
    ensures Matches(group[k].key, name) ==> |Base(group[k].key)| <= |Base(group[i].key)|
  {}

  /** The best match of the group is its first key: none of the others matches. */
  lemma FirstBest(group: seq<Entry>, l: Label, name: Labels, v: Value, t: seq<Entry>)
    requires group != [] && Done(group[0].key) && Shifted(t, group, 1, name) && Proper(t) && BestAt(group, name, v, 0)
    ensures Unmatched(t, name[1..])
  {
    OneBase(group[0].key);
    forall k | 0 <= k < |t| ensures !Matches(t[k].key, name[1..]) { NoneBelow(t, group, 1, name, v, k); }
  }

  lemma UnmatchedBelow(group: seq<Entry>, name: Labels, t: seq<Entry>, s: nat)
    requires Shifted(t, group, s, name) && Unmatched(group, name)
    ensures Unmatched(t, name[1..])
  {
    forall k | 0 <= k < |t| ensures !Matches(t[k].key, name[1..]) { assert !Matches(group[k + s].key, name); }
  }

  /** What is right for a group is right for its names without the first label. */
  lemma DeepRight(group: seq<Entry>, l: Label, name: Labels, own: Option<Value>, r: Option<Value>)
    requires group != [] && Proper(group) && Grouped(group, l) && Distinct(group) && |name| > 1 && name[0] == l
    requires own == (if Done(group[0].key) then Some(group[0].value) else None)
    requires Right(group, name, None, if r.Some? then r else own)
    ensures Right(Next(group), name[1..], own, r)
  {
    var t, s, q := Next(group), if Done(group[0].key) then 1 else 0, if r.Some? then r else own;
    GroupMatches(group, l, name);
    ProperNext(group, l);
    if q.Some? && Best(group, name, q.value) {
      var i :| BestAt(group, name, q.value, i);
      if i < s {
        FirstBest(group, l, name, q.value, t);
      } else {
        BestBelow(t, group, s, name, q.value, i);
        OneValue(group, 0, i);
      }
    } else {
      UnmatchedBelow(group, name, t, s);
    }
  }

  /** Three keys of a group that do not stand together share a label that not all have, behind the first one. */
  lemma ScatterBelow(group: seq<Entry>, l: Label, i: nat, j: nat, m: nat, n: nat, d: nat)
    requires group != [] && Proper(group) && Grouped(group, l) && d == (if Done(group[0].key) then 1 else 0)
    requires i < j < m < |group| && Shares(Base(group[i].key), Base(group[m].key), n)
    requires !Shares(Base(group[i].key), Base(group[j].key), n)
    ensures n >= 2 && i >= d
  {
    FirstShared(group[i].key, group[j].key);
    if d == 1 { OneBase(group[0].key); }
    NoneShared(Base(group[i].key), Base(group[j].key));
  }

  lemma NoneShared(a: Labels, b: Labels)
    ensures Shares(a, b, 0)
  {}

  lemma NextAt(group: seq<Entry>, l: Label, i: nat, d: nat, t: seq<Entry>) returns (p: nat, x: Labels)
    requires group != [] && Proper(group) && Grouped(group, l) && d == (if Done(group[0].key) then 1 else 0)
      && t == Next(group)
    requires d <= i < |group|
    ensures x == group[i].key && p + d == i && p < |t| && x != [] && x[0] == l && t[p].key == x[1..] && !Done(x)
  {
    p, x := i - d, group[i].key;
    RestLonger(group, l, p);
    assert Rest(group)[p] == group[i];
  }

  lemma ScatterKeys(t: seq<Entry>, i: nat, j: nat, m: nat, n: nat, x: Labels, y: Labels, z: Labels)
    requires i < j < m < |t| && x != [] && y != [] && z != [] && x[0] == y[0] == z[0] && !Done(x) && !Done(y)
      && !Done(z)
    requires t[i].key == x[1..] && t[j].key == y[1..] && t[m].key == z[1..]
    requires n > 0 && Shares(Base(x), Base(z), n) && !Shares(Base(x), Base(y), n)
    ensures !Together(t)
  {
    TailShares(x, z, n - 1);
    TailShares(x, y, n - 1);
    assert !Stand(t, i, j, m, n - 1);
  }

  /** Three keys that do not stand together. */
  ghost predicate Scattered(names: seq<Entry>, i: int, j: int, m: int, n: nat) {
    && 0 <= i < j < m < |names| && Shares(Base(names[i].key), Base(names[m].key), n)
    && !Shares(Base(names[i].key), Base(names[j].key), n)
  }

  lemma SomeScattered(names: seq<Entry>) returns (i: nat, j: nat, m: nat, n: nat)
    requires !Together(names)
    ensures Scattered(names, i, j, m, n)
  {
    var a, b, c, d: nat :| !Stand(names, a, b, c, d);
    i, j, m, n := a, b, c, d;
  }

  /** If the names of a group do not stand together, neither do they without the first label. */
  lemma NextScattered(group: seq<Entry>, l: Label)
    requires group != [] && Proper(group) && Grouped(group, l) && !Together(group)
    ensures !Together(Next(group))
  {
    var i, j, m, n := SomeScattered(group);
    var t, d := Next(group), if Done(group[0].key) then 1 else 0;
    ScatterBelow(group, l, i, j, m, n, d);
    var p, x := NextAt(group, l, i, d, t);
    var q, y := NextAt(group, l, j, d, t);
    var r, z := NextAt(group, l, m, d, t);
    ScatterKeys(t, p, q, r, n, x, y, z);
  }

  /** A wrong answer for a group is one for all names, if lookups of its label lead to it. */
  lemma Lift(names: seq<Entry>, own: Option<Value>, l: Label, a: nat, b: nat, group: seq<Entry>, name: Labels)
    returns (full: Labels)
    requires Proper(names) && Distinct(names) && (own.Some? ==> !HasValue(names, own.value)) && name != []
    requires Found(names, l, a, b, group, Lookup(Entries(names), l)) && group != [] && Proper(Next(group))
      && Next(group) != []
    requires var o := if Done(group[0].key) then Some(group[0].value) else None;
      !Right(Next(group), name, o, Find(Build(Next(group), o), name))
    ensures full == [l] + name && !Right(names, full, own, Find(Build(names, own), full))
  {
    full := [l] + name;
    var o := if Done(group[0].key) then Some(group[0].value) else None;
    assert full[1..] == name;
    var q, r := Find(Build(Next(group), o), name), Follow(SlotOf(group, l), full);
    assert r == if q.Some? then q else o;
    FollowValues(group, l, full);
    PartDistinct(names, a, b, group);
    if Right(names, full, own, r) {
      Narrow(names, a, b, group, full, own, r);
      DeepRight(group, l, full, o, q);
    }
  }

  lemma PartDistinct(names: seq<Entry>, a: nat, b: nat, group: seq<Entry>)
    requires a <= b <= |names| && group == names[a..b] && Distinct(names)
    ensures Distinct(group)
  {
    forall i | 0 <= i < |group| ensures group[i] == names[a + i] {}
  }

  lemma NextDistinct(group: seq<Entry>)
    requires group != [] && (forall i :: 0 <= i < |group| ==> group[i].key != []) && Distinct(group)
    ensures Distinct(Next(group)) && (Done(group[0].key) ==> !HasValue(Next(group), group[0].value))
  {
    var t, s := Next(group), if Done(group[0].key) then 1 else 0;
    forall i | 0 <= i < |t| ensures t[i].value == group[i + s].value {}
  }

  lemma NextKeyed(names: seq<Entry>, a: nat, b: nat, group: seq<Entry>)
    requires a <= b <= |names| && group == names[a..b] && group != [] && Keyed(names)
    requires forall i :: 0 <= i < |group| ==> group[i].key != []
    ensures Keyed(Next(group))
  {
    var t, s := Next(group), if Done(group[0].key) then 1 else 0;
    forall i | 0 <= i < |t| ensures AllDotless(t[i].key) {
      assert group[i + s] == names[a + i + s];
      assert t[i].key == group[i + s].key[1..];
    }
  }

  lemma LabelDotless(names: seq<Entry>, l: Label, a: nat, b: nat, group: seq<Entry>)
    requires a <= b <= |names| && group == names[a..b] && Grouped(group, l) && !Together(group) && Keyed(names)
    ensures group != [] && Dotless(l)
  {
    var i, j, m, n := SomeScattered(group);
    assert group[0] == names[a] && AllDotless(names[a].key);
  }

  lemma MoreDotless(l: Label, rest: Labels, name: Labels)
    requires Dotless(l) && AllDotless(rest) && name == [l] + rest
    ensures AllDotless(name)
  {}

  // A label that no key has

  function Longest(ls: Labels): nat {
    if ls == [] then 0 else var n := Longest(ls[1..]); if |ls[0]| > n then |ls[0]| else n
  }

  lemma {:induction false} LongestIs(ls: Labels, j: nat)
    requires j < |ls|
    ensures |ls[j]| <= Longest(ls)
  {
    if j > 0 { LongestIs(ls[1..], j - 1); }
  }

  function LongestAll(names: seq<Entry>): nat {
    if names == [] then 0
      else var n := LongestAll(names[1..]); if Longest(names[0].key) > n then Longest(names[0].key) else n
  }

  lemma {:induction false} LongestAllIs(names: seq<Entry>, i: nat)
    requires i < |names|
    ensures Longest(names[i].key) <= LongestAll(names)
  {
    if i > 0 { LongestAllIs(names[1..], i - 1); }
  }

  lemma AimAt(names: seq<Entry>, m: nat) returns (name: Labels)
    requires m < |names| && names[m].key != [] && Keyed(names)
    ensures Aims(names, m, name) && AllDotless(name) && name[0] == names[m].key[0]
  {
    var x := seq(LongestAll(names) + 1, i => 'x');
    var d := Base(names[m].key);
    name := d + [x];
    assert name[..|name| - 1] == d;
    assert forall j :: 0 <= j < |d| ==> d[j] == names[m].key[j];
    forall i | 0 <= i < |names| ensures Base(names[i].key) != name {
      var c := Base(names[i].key);
      if |c| == |name| {
        var j := |c| - 1;
        assert c[j] == names[i].key[j];
        LongestIs(names[i].key, j);
        LongestAllIs(names, i);
        assert c[j] != name[j];
      }
    }
  }

  lemma SmallerNext(names: seq<Entry>, a: nat, b: nat, group: seq<Entry>)
    requires a <= b <= |names| && group == names[a..b] && group != []
    requires forall i :: 0 <= i < |group| ==> group[i].key != []
    ensures Total(Next(group)) < Total(names)
  {
    NextSmaller(group);
    TotalSplit(names, a);
    TotalSplit(names[a..], b - a);
    assert names[a..][..b - a] == group;
  }

  /** If the first run of its label holds the last of three keys that do not stand together, it holds them all. */
  lemma RunScattered(names: seq<Entry>, l: Label, a: nat, b: nat, group: seq<Entry>, i: nat, j: nat, m: nat, n: nat)
    requires FirstRun(names, l, a, b) && group == names[a..b] && i < j < m < |names| && a <= m < b
      && names[m].key[0] == l
    requires Shares(Base(names[i].key), Base(names[m].key), n) && !Shares(Base(names[i].key), Base(names[j].key), n)
    ensures !Together(group)
  {
    assert n > 0;
    assert Base(names[i].key)[0] == Base(names[i].key)[..n][0] == Base(names[m].key)[..n][0];
    assert names[i].key[0] == l;
    assert a <= i;
    assert group[i - a] == names[i] && group[j - a] == names[j] && group[m - a] == names[m];
    assert !Stand(group, i - a, j - a, m - a, n);
  }

  /**
   * If keys with different values do not stand together, the lookup of some name does not give the value of the most
   * specific key that matches.
   */
  lemma {:induction false} Misses(names: seq<Entry>, own: Option<Value>) returns (name: Labels)
    requires Proper(names) && Distinct(names) && Keyed(names) && !Together(names)
      && (own.Some? ==> !HasValue(names, own.value))
    ensures name != [] && AllDotless(name) && !Right(names, name, own, Find(Build(names, own), name))
    decreases Total(names), 1
  {
    var i, j, m, n := SomeScattered(names);
    var l := names[m].key[0];
    var a, b, group, slot := LookupRun(names, l, Entries(names));
    if a <= m < b {
      RunScattered(names, l, a, b, group, i, j, m, n);
      name := MissesBelow(names, own, l, a, b, group);
    } else {
      name := AimAt(names, m);
      TopMiss(names, own, m, name, a, b, group);
    }
  }

  lemma {:induction false} MissesBelow(names: seq<Entry>, own: Option<Value>, l: Label, a: nat, b: nat,
      group: seq<Entry>)
    returns (name: Labels)
    requires Proper(names) && Distinct(names) && Keyed(names) && (own.Some? ==> !HasValue(names, own.value))
    requires Found(names, l, a, b, group, Lookup(Entries(names), l)) && !Together(group)
    ensures name != [] && AllDotless(name) && !Right(names, name, own, Find(Build(names, own), name))
    decreases Total(names), 0
  {
    LabelDotless(names, l, a, b, group);
    NextScattered(group, l);
    ProperNext(group, l);
    PartDistinct(names, a, b, group);
    NextDistinct(group);
    NextKeyed(names, a, b, group);
    SmallerNext(names, a, b, group);
    var rest := Misses(Next(group), if Done(group[0].key) then Some(group[0].value) else None);
    name := Lift(names, own, l, a, b, group, rest);
    MoreDotless(l, rest, name);
  }
}
