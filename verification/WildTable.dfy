/** The wildcard tables of ngx_hash.c in terms of labels, and what a lookup in them finds. */
module WildTable {

  type Value = int
  type Label = string

  /** The labels of a name, outermost first. */
  type Labels = seq<Label>

  datatype Option<T> = None | Some(value: T)

  /** ngx_hash_wildcard_t: a hash from labels to tagged pointers, and the value for names that end here. */
  datatype Wild = Wild(entries: seq<(Label, Slot)>, value: Option<Value>)

  /** A pointer with its two low bits: 2 for a table, 1 for "only with something in front". */
  datatype Slot = Slot(ptr: Ptr, deep: bool, strict: bool)

  datatype Ptr = Data(v: Value) | Table(w: Wild)

  /** A stored key. A last label that is empty, as in "com.example.", stands for the "*" of "*.example.com". */
  datatype Entry = Entry(key: Labels, value: Value)

  predicate Star(k: Labels) { |k| > 1 && k[|k| - 1] == "" }

  /** The labels a name must begin with. */
  function Base(k: Labels): Labels { if Star(k) then k[..|k| - 1] else k }

  /** ".example.com" matches itself and everything below, "*.example.com" only what is below. */
  predicate Matches(k: Labels, name: Labels) {
    Base(k) <= name && (Star(k) ==> |name| > |Base(k)|)
  }

  // Lookup

  function Lookup(entries: seq<(Label, Slot)>, l: Label): Option<Slot> {
    if entries == [] then None else if entries[0].0 == l then Some(entries[0].1) else Lookup(entries[1..], l)
  }

  /** ngx_hash_find_wc_head (ngx_hash.c:52-144) on the labels of a name, from the right. */
  function Find(w: Wild, name: Labels): Option<Value>
    requires name != []
    decreases |name|, 1
  {
    match Lookup(w.entries, name[0])
    case None => w.value
    case Some(slot) => Follow(slot, name)
  }

  function Follow(slot: Slot, name: Labels): Option<Value>
    requires name != []
    decreases |name|, 0
  {
    match slot.ptr
    case Table(sub) =>
      if |name| == 1 then (if slot.strict then None else sub.value)
      else
        var r := Find(sub, name[1..]);
        if r.Some? then r else sub.value
    case Data(v) => if slot.strict && |name| == 1 then None else Some(v)
  }

  // Building (ngx_hash_wildcard_init, ngx_hash.c:458-600)

  /** The labels in all keys together. */
  function Total(names: seq<Entry>): nat {
    if names == [] then 0 else |names[0].key| + Total(names[1..])
  }

  /** How many names from the front begin with the label. */
  function Group(names: seq<Entry>, l: Label): (g: nat)
    ensures g <= |names| && forall i :: 0 <= i < g ==> names[i].key != [] && names[i].key[0] == l
    ensures g < |names| ==> names[g].key == [] || names[g].key[0] != l
  {
    if names == [] || names[0].key == [] || names[0].key[0] != l then 0 else 1 + Group(names[1..], l)
  }

  /** Nothing is left of the key behind its first label. */
  predicate Done(k: Labels) { |k| == 1 || (|k| == 2 && k[1] == "") }

  function Tail(e: Entry): Entry
    requires e.key != []
  {
    e.(key := e.key[1..])
  }

  function Tails(names: seq<Entry>): (r: seq<Entry>)
    requires forall i :: 0 <= i < |names| ==> names[i].key != []
    ensures |r| == |names|
  {
    seq(|names|, i requires 0 <= i < |names| => Tail(names[i]))
  }

  /** The names of a group without their first label; the first one only if there is more of it. */
  function Next(group: seq<Entry>): seq<Entry>
    requires group != [] && forall i :: 0 <= i < |group| ==> group[i].key != []
  {
    if Done(group[0].key) then Tails(group[1..]) else Tails(group)
  }

  lemma {:induction false} TotalTails(names: seq<Entry>)
    requires forall i :: 0 <= i < |names| ==> names[i].key != []
    ensures Total(Tails(names)) + |names| == Total(names)
  {
    if names != [] {
      assert Tails(names)[1..] == Tails(names[1..]);
      TotalTails(names[1..]);
    }
  }

  lemma NextSmaller(group: seq<Entry>)
    requires group != [] && forall i :: 0 <= i < |group| ==> group[i].key != []
    ensures Total(Next(group)) < Total(group)
  {
    TotalTails(group);
    TotalTails(group[1..]);
  }

  lemma {:induction false} TotalSplit(names: seq<Entry>, g: nat)
    requires g <= |names|
    ensures Total(names[..g]) + Total(names[g..]) == Total(names)
  {
    if g > 0 {
      assert names[..g][1..] == names[1..][..g - 1] && names[1..][g - 1..] == names[g..];
      TotalSplit(names[1..], g - 1);
    } else {
      assert names[..0] == [] && names[0..] == names;
    }
  }

  /** No key is empty, and none comes behind one that it is a beginning of: not both ".x" and "*.x", nor ".x" late. */
  ghost predicate Proper(names: seq<Entry>) {
    && (forall i :: 0 <= i < |names| ==> names[i].key != [])
    && (forall i, j :: 0 <= i < j < |names| ==> !(Base(names[j].key) <= Base(names[i].key)))
  }

  lemma ProperPart(names: seq<Entry>, a: nat, b: nat)
    requires Proper(names) && a <= b <= |names|
    ensures Proper(names[a..b])
  {}

  /** All names of a group begin with the same label. */
  ghost predicate Grouped(group: seq<Entry>, l: Label) {
    forall i :: 0 <= i < |group| ==> group[i].key != [] && group[i].key[0] == l
  }

  /** Behind the first of a group there is more than one label, and not just the empty one. */
  lemma Longer(group: seq<Entry>, l: Label, i: nat)
    requires Proper(group) && Grouped(group, l) && 0 < i < |group|
    ensures !Done(group[i].key)
  {
    assert !(Base(group[i].key) <= Base(group[0].key));
    DoneBase(group[i].key, group[0].key);
  }

  lemma DoneBase(k: Labels, f: Labels)
    requires k != [] && f != [] && k[0] == f[0]
    ensures Done(k) ==> Base(k) <= Base(f)
  {
    if Done(k) { assert Base(k) == [k[0]] && Base(f)[0] == f[0]; }
  }

  lemma TailBase(k: Labels)
    requires k != [] && !Done(k)
    ensures Base(k) == [k[0]] + Base(k[1..]) && Star(k) == Star(k[1..])
  {}

  lemma TailPair(a: Labels, b: Labels)
    requires a != [] && b != [] && a[0] == b[0] && !Done(a) && !Done(b) && !(Base(b) <= Base(a))
    ensures !(Base(b[1..]) <= Base(a[1..]))
  {
    TailBase(a);
    TailBase(b);
    OneMore(b[0], Base(b[1..]), Base(a[1..]));
  }

  lemma OneMore(l: Label, a: Labels, b: Labels)
    ensures [l] + a <= [l] + b <==> a <= b
  {
    var x, y := [l] + a, [l] + b;
    assert x[1..] == a && y[1..] == b;
    if x <= y { assert a == y[..|x|][1..]; }
    if a <= b { assert y[..|x|] == [l] + b[..|a|]; }
  }

  /** The names of a group that have more to them than the first label. */
  ghost function Rest(group: seq<Entry>): seq<Entry>
    requires group != []
  {
    if Done(group[0].key) then group[1..] else group
  }

  lemma RestLonger(group: seq<Entry>, l: Label, i: nat)
    requires group != [] && Proper(group) && Grouped(group, l) && i < |Rest(group)|
    ensures !Done(Rest(group)[i].key)
  {
    if Done(group[0].key) { Longer(group, l, i + 1); } else if i > 0 { Longer(group, l, i); }
  }

  lemma ProperNext(group: seq<Entry>, l: Label)
    requires group != [] && Proper(group) && Grouped(group, l)
    ensures Proper(Next(group))
  {
    var s, t := Rest(group), Next(group);
    forall i | 0 <= i < |t| ensures t[i].key != [] { RestLonger(group, l, i); }
    forall i, j | 0 <= i < j < |t| ensures !(Base(t[j].key) <= Base(t[i].key)) {
      RestLonger(group, l, i);
      RestLonger(group, l, j);
      assert !(Base(s[j].key) <= Base(s[i].key));
      TailPair(s[i].key, s[j].key);
    }
  }

  lemma GroupPart(names: seq<Entry>)
    requires names != [] && Proper(names)
    ensures var g := Group(names, names[0].key[0]);
      0 < g <= |names| && Proper(names[..g]) && Grouped(names[..g], names[0].key[0]) && Proper(names[g..])
  {
    var g := Group(names, names[0].key[0]);
    ProperPart(names, 0, g);
    ProperPart(names, g, |names|);
    assert names[0..g] == names[..g] && names[g..|names|] == names[g..];
  }

  ghost function Build(names: seq<Entry>, value: Option<Value>): Wild
    requires Proper(names)
    decreases Total(names), |names|, 2
  {
    Wild(Entries(names), value)
  }

  ghost function Entries(names: seq<Entry>): seq<(Label, Slot)>
    requires Proper(names)
    decreases Total(names), |names|, 1
  {
    if names == [] then []
    else
      var l := names[0].key[0];
      var g := Group(names, l);
      TotalSplit(names, g);
      GroupPart(names);
      [(l, SlotOf(names[..g], l))] + Entries(names[g..])
  }

  ghost function SlotOf(group: seq<Entry>, l: Label): Slot
    requires group != [] && Proper(group) && Grouped(group, l)
    decreases Total(group), |group|, 0
  {
    var f := group[0];
    NextSmaller(group);
    ProperNext(group, l);
    if Next(group) == [] then Slot(Data(f.value), false, |f.key| > 1)
    else Slot(Table(Build(Next(group), if Done(f.key) then Some(f.value) else None)), true, |f.key| > 1)
  }

  // A lookup finds the most specific key that matches

  /** `r` is the value of a matching key with the longest base. */
  ghost predicate Best(names: seq<Entry>, name: Labels, v: Value) {
    exists i :: BestAt(names, name, v, i)
  }

  ghost predicate BestAt(names: seq<Entry>, name: Labels, v: Value, i: int) {
    && 0 <= i < |names| && Matches(names[i].key, name) && v == names[i].value
    && forall j :: 0 <= j < |names| && Matches(names[j].key, name) ==> |Base(names[j].key)| <= |Base(names[i].key)|
  }

  ghost predicate Unmatched(names: seq<Entry>, name: Labels) {
    forall i :: 0 <= i < |names| ==> !Matches(names[i].key, name)
  }

  /** The best match if there is a match, else nothing or the table's own value. */
  ghost predicate Right(names: seq<Entry>, name: Labels, own: Option<Value>, r: Option<Value>) {
    (r.Some? && Best(names, name, r.value)) || (Unmatched(names, name) && (r == None || r == own))
  }

  lemma MatchTail(k: Labels, name: Labels)
    requires k != [] && name != [] && !Done(k)
    ensures Matches(k, name) <==> k[0] == name[0] && Matches(k[1..], name[1..])
  {
    TailBase(k);
    var b := Base(k[1..]);
    if Base(k) <= name {
      assert name[0] == k[0] && b <= name[1..];
    }
    if k[0] == name[0] && b <= name[1..] {
      assert name == [name[0]] + name[1..];
      assert [k[0]] + b <= name;
    }
  }

  lemma MatchDone(k: Labels, name: Labels)
    requires k != [] && name != [] && Done(k)
    ensures Matches(k, name) <==> k[0] == name[0] && (|k| == 1 || |name| > 1)
  {
    assert Base(k) == [k[0]];
    assert [k[0]] <= name <==> k[0] == name[0];
  }

  ghost predicate Shares(a: Labels, b: Labels, n: nat) { n <= |a| && n <= |b| && a[..n] == b[..n] }

  /** If the first and the last of three keys begin with the same n labels, so does the one between them. */
  ghost predicate Stand(names: seq<Entry>, i: int, j: int, m: int, n: nat) {
    0 <= i < j < m < |names| && Shares(Base(names[i].key), Base(names[m].key), n) ==>
      Shares(Base(names[i].key), Base(names[j].key), n)
  }

  /** Keys that begin with the same labels stand together: those between two of them begin so too. */
  ghost predicate Together(names: seq<Entry>) { forall i, j, m, n: nat :: Stand(names, i, j, m, n) }

  lemma TogetherAt(names: seq<Entry>, i: nat, j: nat, m: nat, n: nat)
    requires Together(names) && i < j < m < |names|
    ensures Shares(Base(names[i].key), Base(names[m].key), n) ==> Shares(Base(names[i].key), Base(names[j].key), n)
  {
    assert Stand(names, i, j, m, n);
  }

  lemma FirstShared(a: Labels, b: Labels)
    requires a != [] && b != []
    ensures Shares(Base(a), Base(b), 1) <==> a[0] == b[0]
  {
    assert Base(a)[..1] == [a[0]] && Base(b)[..1] == [b[0]];
  }

  lemma TailShares(a: Labels, b: Labels, n: nat)
    requires a != [] && b != [] && a[0] == b[0] && !Done(a) && !Done(b)
    ensures Shares(Base(a[1..]), Base(b[1..]), n) <==> Shares(Base(a), Base(b), n + 1)
  {
    TailBase(a);
    TailBase(b);
    var c, d := Base(a[1..]), Base(b[1..]);
    if n <= |c| && n <= |d| {
      assert Base(a)[..n + 1] == [a[0]] + c[..n] && Base(b)[..n + 1] == [b[0]] + d[..n];
      if Base(a)[..n + 1] == Base(b)[..n + 1] {
        assert c[..n] == Base(a)[..n + 1][1..] == Base(b)[..n + 1][1..] == d[..n];
      }
    }
  }

  lemma TogetherPart(names: seq<Entry>, a: nat, b: nat)
    requires Together(names) && a <= b <= |names|
    ensures Together(names[a..b])
  {
    var part := names[a..b];
    forall i, j, m, n: nat ensures Stand(part, i, j, m, n) {
      if 0 <= i < j < m < |part| {
        assert names[a + i] == part[i] && names[a + j] == part[j] && names[a + m] == part[m];
        TogetherAt(names, a + i, a + j, a + m, n);
      }
    }
  }

  /** The key that a name of the next level is left of. */
  lemma NextKey(group: seq<Entry>, l: Label, i: nat) returns (x: Labels, p: nat)
    requires group != [] && Proper(group) && Grouped(group, l) && i < |Next(group)|
    ensures p == i + (if Done(group[0].key) then 1 else 0) < |group| && x == group[p].key
    ensures x != [] && x[0] == l && !Done(x) && Next(group)[i].key == x[1..]
  {
    RestLonger(group, l, i);
    p := i + if Done(group[0].key) then 1 else 0;
    x := group[p].key;
    assert Rest(group)[i] == group[p];
  }

  lemma TogetherNext(group: seq<Entry>, l: Label)
    requires group != [] && Proper(group) && Grouped(group, l) && Together(group)
    ensures Together(Next(group))
  {
    forall i, j, m, n: nat ensures Stand(Next(group), i, j, m, n) {
      if 0 <= i < j < m < |Next(group)| { NextStand(group, l, i, j, m, n); }
    }
  }

  lemma StandKeys(x: Labels, y: Labels, z: Labels, n: nat)
    requires x != [] && y != [] && z != [] && x[0] == y[0] == z[0] && !Done(x) && !Done(y) && !Done(z)
    requires Shares(Base(x), Base(z), n + 1) ==> Shares(Base(x), Base(y), n + 1)
    ensures Shares(Base(x[1..]), Base(z[1..]), n) ==> Shares(Base(x[1..]), Base(y[1..]), n)
  {
    TailShares(x, z, n);
    TailShares(x, y, n);
  }

  lemma NextStand(group: seq<Entry>, l: Label, i: nat, j: nat, m: nat, n: nat)
    requires group != [] && Proper(group) && Grouped(group, l) && Together(group) && i < j < m < |Next(group)|
    ensures Stand(Next(group), i, j, m, n)
  {
    var x, p := NextKey(group, l, i);
    var y, q := NextKey(group, l, j);
    var z, r := NextKey(group, l, m);
    TogetherAt(group, p, q, r, n + 1);
    StandKeys(x, y, z, n);
  }

  /** The names that begin with `l` are those from `a` to `b`. */
  ghost predicate IsGroup(names: seq<Entry>, l: Label, a: nat, b: nat) {
    a <= b <= |names| && forall i :: 0 <= i < |names| ==> names[i].key != [] && (names[i].key[0] == l <==> a <= i < b)
  }

  ghost function SlotFor(group: seq<Entry>, l: Label): Option<Slot>
    requires Proper(group) && Grouped(group, l)
  {
    if group == [] then None else Some(SlotOf(group, l))
  }

  /** The names from `a` to `b` are the first that begin with `l`, as many as stand together. */
  ghost predicate FirstRun(names: seq<Entry>, l: Label, a: nat, b: nat) {
    && a <= b <= |names| && (forall i :: 0 <= i < |names| ==> names[i].key != [])
    && (forall i :: 0 <= i < a ==> names[i].key[0] != l) && (forall i :: a <= i < b ==> names[i].key[0] == l)
    && (b < |names| ==> names[b].key[0] != l) && (a == b ==> a == |names|)
  }

  lemma RunMoves(names: seq<Entry>, l: Label, g: nat, rest: seq<Entry>, c: nat, d: nat, group: seq<Entry>)
    returns (a: nat, b: nat)
    requires g <= |names| && rest == names[g..] && FirstRun(rest, l, c, d) && group == rest[c..d]
    requires forall i :: 0 <= i < g ==> names[i].key != [] && names[i].key[0] != l
    ensures FirstRun(names, l, a, b) && group == names[a..b]
  {
    a, b := c + g, d + g;
    forall i | g <= i < |names| ensures names[i] == rest[i - g] {}
    assert rest[c..d] == names[a..b];
  }

  lemma NotBack(names: seq<Entry>, l: Label, a: nat, b: nat, i: nat)
    requires FirstRun(names, l, a, b) && Together(names) && b <= i < |names|
    ensures names[i].key[0] != l
  {
    FirstShared(names[a].key, names[i].key);
    FirstShared(names[a].key, names[b].key);
    if b < i { TogetherAt(names, a, b, i, 1); }
  }

  /** Where names stand together, the first run is all there is. */
  lemma RunIsGroup(names: seq<Entry>, l: Label, a: nat, b: nat)
    requires FirstRun(names, l, a, b) && Together(names)
    ensures IsGroup(names, l, a, b)
  {
    forall i | b <= i < |names| ensures names[i].key[0] != l { NotBack(names, l, a, b, i); }
  }

  /** The entry for a group comes before those of the remaining names. */
  lemma EntriesStep(s: seq<Entry>, l: Label, g: nat)
    requires Proper(s) && s != [] && l == s[0].key[0] && g == Group(s, l)
    ensures g > 0 && Proper(s[..g]) && Grouped(s[..g], l) && Proper(s[g..])
      && Entries(s) == [(l, SlotOf(s[..g], l))] + Entries(s[g..])
  {
    GroupPart(s);
  }

  lemma LookupFirst(es: seq<(Label, Slot)>, e: (Label, Slot), rest: seq<(Label, Slot)>, l: Label)
    requires es == [e] + rest
    ensures Lookup(es, l) == if e.0 == l then Some(e.1) else Lookup(rest, l)
  {
    assert es[1..] == rest;
  }

  lemma RunHere(names: seq<Entry>, l: Label, g: nat)
    requires Proper(names) && names != [] && l == names[0].key[0] && g == Group(names, l)
    ensures FirstRun(names, l, 0, g)
  {}

  /** What the names that begin with a label are, and which of the entries is theirs. */
  ghost predicate Found(names: seq<Entry>, l: Label, a: nat, b: nat, group: seq<Entry>, slot: Option<Slot>) {
    FirstRun(names, l, a, b) && group == names[a..b] && Proper(group) && Grouped(group, l) && slot == SlotFor(group, l)
  }

  lemma FoundLater(names: seq<Entry>, l: Label, g: nat, rest: seq<Entry>, c: nat, d: nat, group: seq<Entry>,
      slot: Option<Slot>)
    returns (a: nat, b: nat)
    requires g <= |names| && rest == names[g..] && Found(rest, l, c, d, group, slot)
    requires forall i :: 0 <= i < g ==> names[i].key != [] && names[i].key[0] != l
    ensures Found(names, l, a, b, group, slot)
  {
    a, b := RunMoves(names, l, g, rest, c, d, group);
  }

  lemma EntriesParts(names: seq<Entry>, l: Label, g: nat)
      returns (first: seq<Entry>, rest: seq<Entry>, slot: Slot, later: seq<(Label, Slot)>)
    requires Proper(names) && names != [] && l == names[0].key[0] && g == Group(names, l)
    ensures g > 0 && first == names[..g] && rest == names[g..] && Proper(first) && Grouped(first, l) && Proper(rest)
    ensures slot == SlotOf(first, l) && later == Entries(rest) && Entries(names) == [(l, slot)] + later
  {
    EntriesStep(names, l, g);
    first, rest := names[..g], names[g..];
    slot, later := SlotOf(first, l), Entries(rest);
  }

  /** The lookup of a label finds the first of the names that begin with it. */
  lemma {:induction false} LookupRun(names: seq<Entry>, l: Label, es: seq<(Label, Slot)>)
    returns (a: nat, b: nat, group: seq<Entry>, r: Option<Slot>)
    requires Proper(names) && es == Entries(names)
    ensures r == Lookup(es, l) && Found(names, l, a, b, group, r)
    decreases |names|
  {
    if names == [] {
      return 0, 0, [], None;
    }
    var l0 := names[0].key[0];
    var g := Group(names, l0);
    var first, rest, slot, later := EntriesParts(names, l0, g);
    LookupFirst(es, (l0, slot), later, l);
    if l0 == l {
      RunHere(names, l, g);
      a, b, group, r := 0, g, first, Some(slot);
    } else {
      var c, d;
      c, d, group, r := LookupRun(rest, l, later);
      a, b := FoundLater(names, l, g, rest, c, d, group, r);
    }
  }

  // One group

  /** The names of a group with more to them, and what they are without the first label. */
  lemma GroupMatches(group: seq<Entry>, l: Label, name: Labels)
    requires group != [] && Proper(group) && Grouped(group, l) && |name| > 1 && name[0] == l
    ensures Shifted(Next(group), group, if Done(group[0].key) then 1 else 0, name)
  {
    var t, s := Next(group), if Done(group[0].key) then 1 else 0;
    forall i | 0 <= i < |t|
      ensures t[i].value == group[i + s].value && (Matches(t[i].key, name[1..]) <==> Matches(group[i + s].key, name))
      ensures |Base(t[i].key)| + 1 == |Base(group[i + s].key)|
    {
      if i + s > 0 { Longer(group, l, i + s); }
      var k := group[i + s].key;
      assert t[i].key == k[1..];
      MatchTail(k, name);
      TailBase(k);
    }
  }

  lemma BaseLong(k: Labels)
    requires k != [] && !Done(k)
    ensures |Base(k)| >= 2
  {}

  /** A name of one label is matched by ".x" alone. */
  lemma ShortName(group: seq<Entry>, l: Label, name: Labels)
    requires group != [] && Proper(group) && Grouped(group, l) && |name| == 1 && name[0] == l
    ensures Right(group, name, None, Follow(SlotOf(group, l), name))
  {
    var f := group[0];
    forall i | 0 < i < |group| ensures !Matches(group[i].key, name) {
      Longer(group, l, i);
      BaseLong(group[i].key);
    }
    if Done(f.key) { MatchDone(f.key, name); } else { BaseLong(f.key); }
    if |f.key| == 1 {
      assert BestAt(group, name, f.value, 0);
    }
  }

  lemma NoneShifted(t: seq<Entry>, group: seq<Entry>, s: nat, name: Labels, i: nat)
    requires Shifted(t, group, s, name) && Unmatched(t, name[1..]) && s <= i < |group|
    ensures !Matches(group[i].key, name)
  {
    assert !Matches(t[i - s].key, name[1..]);
  }

  /** Only the first name of the group can match. */
  lemma FirstOnly(group: seq<Entry>, l: Label, name: Labels, own: Option<Value>)
    requires group != [] && Grouped(group, l) && |name| > 1 && name[0] == l
    requires own == (if Done(group[0].key) then Some(group[0].value) else None)
    requires forall i :: (if Done(group[0].key) then 1 else 0) <= i < |group| ==> !Matches(group[i].key, name)
    ensures Right(group, name, None, own)
  {
    if Done(group[0].key) {
      MatchDone(group[0].key, name);
      assert BestAt(group, name, group[0].value, 0);
    }
  }

  /** The matches of a group are those of its first name and those of the rest behind the first label. */
  lemma DeepMatch(group: seq<Entry>, l: Label, name: Labels, own: Option<Value>, r: Option<Value>)
    requires group != [] && Proper(group) && Grouped(group, l) && |name| > 1 && name[0] == l
    requires own == (if Done(group[0].key) then Some(group[0].value) else None) && Right(Next(group), name[1..], own, r)
    ensures Right(group, name, None, if r.Some? then r else own)
  {
    var t, s := Next(group), if Done(group[0].key) then 1 else 0;
    if r.Some? && Best(t, name[1..], r.value) {
      DeepBest(group, l, name, r.value);
    } else {
      GroupMatches(group, l, name);
      forall i | s <= i < |group| ensures !Matches(group[i].key, name) { NoneShifted(t, group, s, name, i); }
      FirstOnly(group, l, name, own);
    }
  }

  lemma DeepBest(group: seq<Entry>, l: Label, name: Labels, v: Value)
    requires group != [] && Proper(group) && Grouped(group, l) && |name| > 1 && name[0] == l
      && Best(Next(group), name[1..], v)
    ensures Best(group, name, v)
  {
    GroupMatches(group, l, name);
    if Done(group[0].key) { OneBase(group[0].key); }
    ShiftedBest(Next(group), group, if Done(group[0].key) then 1 else 0, name, v);
  }

  /** t is the group from index s on, each key without its first label, as far as matching the name goes. */
  ghost predicate Shifted(t: seq<Entry>, group: seq<Entry>, s: nat, name: Labels) {
    |name| > 1 && |t| == |group| - s && forall i :: 0 <= i < |t| ==>
      && t[i].value == group[i + s].value && (Matches(t[i].key, name[1..]) <==> Matches(group[i + s].key, name))
      && |Base(t[i].key)| + 1 == |Base(group[i + s].key)|
  }

  lemma ShiftedBest(t: seq<Entry>, group: seq<Entry>, s: nat, name: Labels, v: Value)
    requires Shifted(t, group, s, name) && Best(t, name[1..], v)
      && (forall j :: 0 <= j < s ==> |Base(group[j].key)| == 1)
    ensures Best(group, name, v)
  {
    var i :| BestAt(t, name[1..], v, i);
    var b := |Base(t[i].key)|;
    forall j | 0 <= j < |group| && Matches(group[j].key, name) ensures |Base(group[j].key)| <= b + 1 {
      if j >= s {
        assert Matches(t[j - s].key, name[1..]);
      }
    }
    assert BestAt(group, name, v, i + s);
  }

  lemma OneBase(k: Labels)
    requires Done(k)
    ensures |Base(k)| == 1
  {}

  lemma {:induction false} SlotRight(group: seq<Entry>, l: Label, name: Labels)
    requires group != [] && Proper(group) && Together(group) && Grouped(group, l) && name != [] && name[0] == l
    ensures Right(group, name, None, Follow(SlotOf(group, l), name))
    decreases |name|, 0
  {
    var f := group[0];
    ProperNext(group, l);
    TogetherNext(group, l);
    if |name| == 1 {
      ShortName(group, l, name);
    } else if Next(group) == [] {
      assert Done(f.key) && |group| == 1;
      MatchDone(f.key, name);
      assert BestAt(group, name, f.value, 0);
    } else {
      var own := if Done(f.key) then Some(f.value) else None;
      FindRight(Next(group), own, name[1..]);
      DeepMatch(group, l, name, own, Find(Build(Next(group), own), name[1..]));
    }
  }

  /**
   * In a table built from keys that stand together, a lookup finds the most specific key that matches, or none if none
   * does.
   */
  lemma {:induction false} FindRight(names: seq<Entry>, own: Option<Value>, name: Labels)
    requires Proper(names) && Together(names) && name != []
    ensures Right(names, name, own, Find(Build(names, own), name))
    decreases |name|, 1
  {
    var a, b, group, r := LookupRun(names, name[0], Entries(names));
    RunIsGroup(names, name[0], a, b);
    TogetherPart(names, a, b);
    forall i | 0 <= i < |names| && !(a <= i < b) ensures !Matches(names[i].key, name) {
      FirstDiffers(names[i].key, name);
    }
    if group != [] {
      SlotRight(group, name[0], name);
      Widen(names, a, b, group, name, own, Follow(SlotOf(group, name[0]), name));
    }
  }

  lemma FirstDiffers(k: Labels, name: Labels)
    requires k != [] && name != [] && k[0] != name[0]
    ensures !Matches(k, name)
  {
    assert Base(k)[0] == k[0];
  }

  lemma Widen(names: seq<Entry>, a: nat, b: nat, group: seq<Entry>, name: Labels, own: Option<Value>, r: Option<Value>)
    requires a <= b <= |names| && group == names[a..b] && Right(group, name, None, r)
    requires forall i :: 0 <= i < |names| && !(a <= i < b) ==> !Matches(names[i].key, name)
    ensures Right(names, name, own, r)
  {
    forall i | 0 <= i < |names| && Matches(names[i].key, name) ensures a <= i < b && group[i - a] == names[i] {}
    if r.Some? && Best(group, name, r.value) {
      var i :| BestAt(group, name, r.value, i);
      assert names[i + a] == group[i];
      forall j | 0 <= j < |names| && Matches(names[j].key,
        name) ensures |Base(names[j].key)| <= |Base(names[i + a].key)| {
        assert group[j - a] == names[j];
      }
      assert BestAt(names, name, r.value, i + a);
    } else {
      forall i | 0 <= i < |names| ensures !Matches(names[i].key, name) {
        if a <= i < b { assert group[i - a] == names[i]; }
      }
    }
  }

  // Wildcards at the end

  /** ngx_hash_find_wc_tail (ngx_hash.c:147-207) on the labels of a name, from the left. */
  function FindTail(w: Wild, name: Labels): Option<Value>
    requires name != []
    decreases |name|, 1
  {
    if |name| == 1 then None
    else
      match Lookup(w.entries, name[0])
      case None => w.value
      case Some(slot) => FollowTail(slot, name)
  }

  function FollowTail(slot: Slot, name: Labels): Option<Value>
    requires |name| > 1
    decreases |name|, 0
  {
    match slot.ptr
    case Table(sub) =>
      var r := FindTail(sub, name[1..]);
      if r.Some? then r else sub.value
    case Data(v) => Some(v)
  }

  ghost predicate NoStars(names: seq<Entry>) { forall i :: 0 <= i < |names| ==> !Star(names[i].key) }

  function Init(name: Labels): Labels
    requires name != []
  {
    name[..|name| - 1]
  }

  lemma NextNoStars(group: seq<Entry>, l: Label)
    requires group != [] && Proper(group) && Grouped(group, l) && NoStars(group)
    ensures NoStars(Next(group))
  {
    var s := if Done(group[0].key) then 1 else 0;
    forall i | 0 <= i < |Next(group)| ensures !Star(Next(group)[i].key) {
      if i + s > 0 { Longer(group, l, i + s); }
      TailBase(group[i + s].key);
    }
  }

  /** Without stars among the keys, the last label of the name takes the place of the star. */
  lemma {:induction false} TailIsFind(names: seq<Entry>, own: Option<Value>, name: Labels)
    requires Proper(names) && NoStars(names) && |name| > 1
    ensures FindTail(Build(names, own), name) == Find(Build(names, own), Init(name))
    decreases |name|, 1
  {
    var a, b, group, r := LookupRun(names, name[0], Entries(names));
    assert Init(name)[0] == name[0];
    if group != [] {
      assert NoStars(group);
      TailIsFollow(group, name[0], name);
    }
  }

  lemma {:induction false} TailIsFollow(group: seq<Entry>, l: Label, name: Labels)
    requires group != [] && Proper(group) && Grouped(group, l) && NoStars(group) && |name| > 1
    ensures FollowTail(SlotOf(group, l), name) == Follow(SlotOf(group, l), Init(name))
    decreases |name|, 0
  {
    var f := group[0];
    ProperNext(group, l);
    NextNoStars(group, l);
    assert |f.key| > 1 ==> !Done(f.key);
    if Next(group) != [] {
      var own := if Done(f.key) then Some(f.value) else None;
      if |name| > 2 {
        assert Init(name)[1..] == Init(name[1..]);
        TailIsFind(Next(group), own, name[1..]);
      }
    }
  }

  /** "x.*" matches what has "x" in front and at least one label more. */
  predicate TailMatches(k: Labels, name: Labels) { k <= name && |k| < |name| }

  ghost predicate TailBest(names: seq<Entry>, name: Labels, v: Value) {
    exists i :: 0 <= i < |names| && TailMatches(names[i].key, name) && v == names[i].value
      && forall j :: 0 <= j < |names| && TailMatches(names[j].key, name) ==> |names[j].key| <= |names[i].key|
  }

  /** `r` is the value of the longest key with the wildcard at its end that matches, or none if none does. */
  ghost predicate TailAnswer(names: seq<Entry>, name: Labels, r: Option<Value>) {
    if r.Some? then TailBest(names, name, r.value)
      else forall i :: 0 <= i < |names| ==> !TailMatches(names[i].key, name)
  }

  lemma MatchesInit(names: seq<Entry>, name: Labels, i: nat)
    requires NoStars(names) && name != [] && i < |names|
    ensures Matches(names[i].key, Init(name)) <==> TailMatches(names[i].key, name)
    ensures Base(names[i].key) == names[i].key
  {
    Shorter(names[i].key, name);
  }

  /** What is right for a name from the left is right without its last label, and the other way round. */
  lemma AnswerIsRight(names: seq<Entry>, name: Labels, r: Option<Value>)
    requires NoStars(names) && name != []
    ensures TailAnswer(names, name, r) <==> Right(names, Init(name), None, r)
  {
    forall i | 0 <= i < |names|
      ensures Matches(names[i].key, Init(name)) <==> TailMatches(names[i].key, name)
      ensures Base(names[i].key) == names[i].key
    {
      MatchesInit(names, name, i);
    }
    if r.Some? && TailBest(names, name, r.value) {
      var i :| 0 <= i < |names| && TailMatches(names[i].key, name) && r.value == names[i].value
        && forall j :: 0 <= j < |names| && TailMatches(names[j].key, name) ==> |names[j].key| <= |names[i].key|;
      assert BestAt(names, Init(name), r.value, i);
    }
    if r.Some? && Best(names, Init(name), r.value) {
      var i :| BestAt(names, Init(name), r.value, i);
      assert TailMatches(names[i].key, name);
    }
  }

  /** A lookup from the left finds the longest key with the wildcard at its end that matches, or none if none does. */
  lemma TailRight(names: seq<Entry>, name: Labels)
    requires Proper(names) && Together(names) && NoStars(names) && name != []
    ensures TailAnswer(names, name, FindTail(Build(names, None), name))
  {
    if |name| > 1 {
      TailIsFind(names, None, name);
      FindRight(names, None, Init(name));
      AnswerIsRight(names, name, FindTail(Build(names, None), name));
    }
  }

  lemma Shorter(k: Labels, name: Labels)
    requires name != []
    ensures k <= Init(name) <==> k <= name && |k| < |name|
  {
    if k <= Init(name) { assert k == Init(name)[..|k|] == name[..|k|]; }
    if k <= name && |k| < |name| { assert Init(name)[..|k|] == name[..|k|]; }
  }
}
