/** ngx_hash_wildcard_init and the wildcard lookups of ngx_hash.c, on names as they are stored. */
module WildHash {
  import opened WildTable
  import opened WildLabels

  /** ngx_hash_key_t, without the hash */
  datatype Name = Name(key: string, value: Value)

  ghost function Entry1(n: Name): Entry { Entry(Split(n.key), n.value) }

  ghost function Keys(names: seq<Name>): (r: seq<Entry>)
    ensures |r| == |names|
  {
    seq(|names|, i requires 0 <= i < |names| => Entry1(names[i]))
  }

  predicate HasPrefix(s: string, t: string) { |t| <= |s| && s[..|t|] == t }

  /** The first label of the key, and whether a dot follows it (ngx_hash.c:490-497). */
  method FirstLabel(key: string) returns (len: nat, dot: bool)
    ensures len == Dot(key) && dot == (len < |key|)
  {
    dot := false;
    len := 0;
    while len < |key|
      invariant len <= |key| && !dot && forall j :: 0 <= j < len ==> key[j] != '.'
    {
      if key[len] == '.' {
        dot := true;
        break;
      }
      len := len + 1;
    }
    DotIs(key, len);
  }

  lemma {:induction false} DotIs(s: string, i: nat)
    requires i <= |s| && (i < |s| ==> s[i] == '.') && forall j :: 0 <= j < i ==> s[j] != '.'
    ensures Dot(s) == i
  {
    if i > 0 {
      assert s[0] != '.';
      DotIs(s[1..], i - 1);
    }
  }

  /** What the key has in store behind its first label. */
  lemma Behind(key: string)
    ensures var d, k := Dot(key), Split(key);
      && k[0] == key[..d] && (|k| > 1 <==> d < |key|) && (d < |key| ==> k[1..] == Split(key[d + 1..]))
      && (Done(k) <==> |key| == d || |key| == d + 1)
  {
    SplitFirst(key);
    var d, k := Dot(key), Split(key);
    if d < |key| {
      var rest := key[d + 1..];
      SplitFirst(rest);
      assert k == [k[0]] + Split(rest);
      if rest != "" {
        if |Split(rest)| == 1 { assert Split(rest)[0] == rest; }
      }
    }
  }

  /** ngx_hash.c:540-549: the name follows the group of the label `key[..d]`. */
  predicate Follows(s: string, key: string, d: nat)
    requires d <= |key|
  {
    if d < |key| then HasPrefix(s, key[..d + 1]) else HasPrefix(s, key) && !(|s| > d && s[d] != '.')
  }

  lemma FollowsThen(s: string, key: string, d: nat)
    requires d == Dot(key) && Follows(s, key, d)
    ensures Dot(s) == d && s[..d] == key[..d] && (d < |key| ==> d < |s|)
  {
    var t := if d < |key| then key[..d + 1] else key;
    assert forall j :: 0 <= j < |t| ==> s[j] == s[..|t|][j] == t[j] == key[j];
    DotIs(s, d);
  }

  lemma ThenFollows(s: string, key: string, d: nat)
    requires d == Dot(key) && s[..Dot(s)] == key[..d] && (d < |key| ==> Dot(s) < |s|)
    ensures Follows(s, key, d)
  {
    assert |s[..Dot(s)]| == |key[..d]|;
    if d < |key| {
      assert s[..d + 1] == s[..d] + ['.'] && key[..d + 1] == key[..d] + ['.'];
    } else {
      assert key[..d] == key;
    }
  }

  /** The test for the group is a test for the first label. */
  lemma FollowsMeans(s: string, key: string)
    ensures var d := Dot(key);
      Follows(s, key, d) <==> s[..Dot(s)] == key[..d] && (d < |key| ==> Dot(s) < |s|)
  {
    var d := Dot(key);
    if Follows(s, key, d) { FollowsThen(s, key, d); }
    if s[..Dot(s)] == key[..d] && (d < |key| ==> Dot(s) < |s|) { ThenFollows(s, key, d); }
  }

  lemma {:induction false} GroupIsCount(names: seq<Entry>, l: Label, g: nat)
    requires g <= |names| && (forall i :: 0 <= i < g ==> names[i].key != [] && names[i].key[0] == l)
    requires g < |names| ==> names[g].key != [] && names[g].key[0] != l
    ensures Group(names, l) == g
  {
    if g > 0 { GroupIsCount(names[1..], l, g - 1); }
  }

  /** A name of one label does not come after a longer one that begins with it. */
  lemma NotAfter(names: seq<Entry>, i: nat, j: nat)
    requires Proper(names) && i < j < |names| && names[i].key[0] == names[j].key[0]
    ensures |names[j].key| > 1
  {
    assert !(Base(names[j].key) <= Base(names[i].key));
    DoneBase(names[j].key, names[i].key);
  }

  /** Whether the name at `i` belongs to the group that starts at `n`. */
  lemma InGroup(names: seq<Name>, n: nat, i: nat)
    requires Proper(Keys(names)) && n < i < |names|
    ensures var key, s := names[n].key, names[i].key;
      Follows(s, key, Dot(key)) <==> Split(s)[0] == Split(key)[0]
    ensures Split(names[i].key)[0] == Split(names[n].key)[0] ==> Dot(names[i].key) == Dot(names[n].key) < |names[i].key|
  {
    var key, s := names[n].key, names[i].key;
    FollowsMeans(s, key);
    Behind(key);
    Behind(s);
    if Split(s)[0] == Split(key)[0] {
      assert Keys(names)[n].key == Split(key) && Keys(names)[i].key == Split(s);
      NotAfter(Keys(names), n, i);
      assert |s[..Dot(s)]| == |key[..Dot(key)]|;
    }
  }

  ghost function First(names: seq<Name>, n: nat): Label
    requires n < |names|
  {
    Split(names[n].key)[0]
  }

  /** The group collected so far: the tails of the names from `n` to `i`. */
  ghost predicate Gathered(names: seq<Name>, n: nat, i: nat, next: seq<Name>) {
    && n < i <= |names| && (forall j :: n <= j < i ==> First(names, j) == First(names, n))
    && (forall j :: 0 <= j < i - n ==> Keys(names)[n..i][j].key != [])
    && Keys(next) == Next(Keys(names)[n..i])
  }

  ghost predicate Open(i: nat, o: int) { true }

  /** The same, spelled out only where a proof asks for it by naming `Open`. */
  ghost predicate Collected(names: seq<Name>, n: nat, i: nat, next: seq<Name>) {
    n < i <= |names| && forall o :: Open(i, o) ==> Gathered(names, n, i, next)
  }

  lemma CollectFirst(names: seq<Name>, n: nat, next: seq<Name>)
    requires n < |names| && var key, d := names[n].key, Dot(names[n].key);
      next == if |key| == d || |key| == d + 1 then [] else [Name(key[d + 1..], names[n].value)]
    ensures Gathered(names, n, n + 1, next)
  {
    var key := names[n].key;
    Behind(key);
    var group := Keys(names)[n..n + 1];
    assert group == [Entry1(names[n])];
    if Done(Split(key)) {
      assert Next(group) == [] == Keys(next);
    } else {
      assert Keys(next) == [Entry1(next[0])] == Tails(group);
    }
  }

  lemma CollectMore(names: seq<Name>, n: nat, i: nat, next: seq<Name>, d: nat)
    requires Gathered(names, n, i, next) && i < |names| && First(names, i) == First(names, n)
    requires d == Dot(names[i].key) < |names[i].key|
    ensures Gathered(names, n, i + 1, next + [Name(names[i].key[d + 1..], names[i].value)])
  {
    var e := Entry1(names[i]);
    KeysUpTo(names, n, i);
    KeysMore(next, Name(names[i].key[d + 1..], names[i].value));
    BehindFirst(names[i], d);
    NextMore(Keys(names)[n..i], e);
  }

  lemma KeysUpTo(names: seq<Name>, n: nat, i: nat)
    requires n <= i < |names|
    ensures Keys(names)[n..i + 1] == Keys(names)[n..i] + [Entry1(names[i])]
  {}

  lemma KeysMore(names: seq<Name>, x: Name)
    ensures Keys(names + [x]) == Keys(names) + [Entry1(x)]
  {}

  /** What is left of a name once the first label and its dot are cut off. */
  lemma BehindFirst(x: Name, d: nat)
    requires d == Dot(x.key) < |x.key|
    ensures Entry1(x).key != [] && Entry1(Name(x.key[d + 1..], x.value)) == Tail(Entry1(x))
  {
    Behind(x.key);
  }

  lemma NextMore(group: seq<Entry>, e: Entry)
    requires group != [] && (forall j :: 0 <= j < |group| ==> group[j].key != []) && e.key != []
    ensures Next(group + [e]) == Next(group) + [Tail(e)]
  {
    TailsMore(group, e);
    assert (group + [e])[1..] == group[1..] + [e];
    TailsMore(group[1..], e);
  }

  lemma TailsMore(group: seq<Entry>, e: Entry)
    requires (forall j :: 0 <= j < |group| ==> group[j].key != []) && e.key != []
    ensures Tails(group + [e]) == Tails(group) + [Tail(e)]
  {}

  /** Whether a name goes with the group of a key (ngx_hash.c:540-549). */
  method Belongs(s: string, key: string, len: nat, dot: bool) returns (yes: bool)
    requires len == Dot(key) && dot == (len < |key|)
    ensures yes <==> Follows(s, key, len)
  {
    var skip := if dot then len + 1 else len;
    if !HasPrefix(s, key[..skip]) {
      return false;
    }
    if !dot && |s| > skip && s[skip] != '.' {
      return false;
    }
    return true;
  }

  /** The name at `n` without its first label (ngx_hash.c:507-537). */
  method CollectBegin(names: seq<Name>, n: nat) returns (len: nat, dot: bool, next: seq<Name>)
    requires n < |names|
    ensures len == Dot(names[n].key) && dot == (len < |names[n].key|) && Collected(names, n, n + 1, next)
  {
    var key := names[n].key;
    len, dot := FirstLabel(key);
    var skip := if dot then len + 1 else len;
    next := [];
    if |key| != skip {
      next := [Name(key[skip..], names[n].value)];
    }
    CollectFirst(names, n, next);
  }

  ghost predicate OpenNames(o: int) { true }

  /** Proper names, spelled out only where a proof asks for it by naming `OpenNames`. */
  ghost predicate AllProper(names: seq<Name>) { forall o :: OpenNames(o) ==> Proper(Keys(names)) }

  /** The names that share a first label with the one at `n`, without that label (ngx_hash.c:520-565). */
  method Collect(names: seq<Name>, n: nat) returns (len: nat, dot: bool, next: seq<Name>, i: nat)
    requires AllProper(names) && n < |names|
    ensures len == Dot(names[n].key) && dot == (len < |names[n].key|)
    ensures Collected(names, n, i, next) && (i < |names| ==> First(names, i) != First(names, n))
  {
    len, dot, next := CollectBegin(names, n);
    i := n + 1;
    var more := i < |names|;
    while more
      invariant Collected(names, n, i, next) && i <= |names| && (more ==> i < |names|)
      invariant !more && i < |names| ==> First(names, i) != First(names, n)
      decreases |names| - i, more
    {
      more, next := CollectOne(names, n, i, len, dot, next);
      if more {
        i := i + 1;
        more := i < |names|;
      }
    }
  }

  /** One more name, if it goes with the group (ngx_hash.c:539-563). */
  method CollectOne(names: seq<Name>, n: nat, i: nat, len: nat, dot: bool, next: seq<Name>)
      returns (more: bool, next': seq<Name>)
    requires AllProper(names) && n < i < |names| && len == Dot(names[n].key) && dot == (len < |names[n].key|)
      && Collected(names, n, i, next)
    ensures if more then Collected(names, n, i + 1, next') else next' == next && First(names, i) != First(names, n)
  {
    assert OpenNames(0);
    InGroup(names, n, i);
    next' := next;
    more := Belongs(names[i].key, names[n].key, len, dot);
    if more {
      assert Open(i, 0);
      CollectMore(names, n, i, next, len);
      next' := next + [Name(names[i].key[len + 1..], names[i].value)];
    }
  }

  lemma Slices<T>(s: seq<T>, n: nat, i: nat)
    requires n <= i <= |s|
    ensures s[n..][..i - n] == s[n..i] && s[n..][i - n..] == s[i..]
  {}

  lemma ProperRest(ks: seq<Entry>, n: nat)
    requires Proper(ks) && n <= |ks|
    ensures Proper(ks[n..])
  {
    ProperPart(ks, n, |ks|);
    assert ks[n..|ks|] == ks[n..];
  }

  /** How many names the group has, counted from `n`. */
  lemma GroupSize(names: seq<Name>, n: nat, i: nat, next: seq<Name>)
    requires Gathered(names, n, i, next) && (i < |names| ==> First(names, i) != First(names, n))
    ensures Group(Keys(names)[n..], First(names, n)) == i - n && Grouped(Keys(names)[n..i], First(names, n))
  {
    var s, l := Keys(names)[n..], First(names, n);
    forall j | 0 <= j < i - n ensures s[j].key != [] && s[j].key[0] == l {
      assert First(names, n + j) == l && s[j] == Entry1(names[n + j]);
    }
    if i < |names| { assert s[i - n] == Entry1(names[i]); }
    GroupIsCount(s, l, i - n);
    Slices(Keys(names), n, i);
  }

  lemma Smaller(ks: seq<Entry>, n: nat, i: nat, group: seq<Entry>)
    requires n < i <= |ks| && group == ks[n..i] && forall j :: 0 <= j < |group| ==> group[j].key != []
    ensures Total(Next(group)) < Total(ks)
  {
    NextSmaller(group);
    TotalSplit(ks, n);
    TotalSplit(ks[n..], i - n);
    Slices(ks, n, i);
  }

  lemma EntriesFrom(ks: seq<Entry>, n: nat, i: nat, l: Label, group: seq<Entry>, rest: seq<Entry>)
    requires Proper(ks) && n < i <= |ks| && l == ks[n].key[0] && Group(ks[n..], l) == i - n && group == ks[n..i]
      && rest == ks[i..]
    ensures group != [] && Proper(group) && Grouped(group, l) && Proper(rest) && Proper(ks[n..])
    ensures Entries(ks[n..]) == [(l, SlotOf(group, l))] + Entries(rest)
  {
    ProperRest(ks, n);
    Slices(ks, n, i);
    EntriesStep(ks[n..], l, i - n);
  }

  /** ngx_hash_wildcard_init (ngx_hash.c:458-600) */
  method WildcardInit(names: seq<Name>) returns (w: Wild)
    requires Proper(Keys(names))
    ensures w == Build(Keys(names), None)
    decreases Total(Keys(names)), 1
  {
    var curr: seq<(Label, Slot)> := [];
    var n := 0;
    ghost var ks := Keys(names);
    assert ks[0..] == ks;
    while n < |names|
      invariant n <= |names| && Proper(ks[n..]) && curr + Entries(ks[n..]) == Entries(ks)
    {
      var entry, i := GroupEntry(names, n, ks);
      Appended(curr, entry, Entries(ks[i..]));
      curr := curr + [entry];
      n := i;
    }
    w := Wild(curr, None);
  }

  /** One turn of the loop: the entry for the names that share a first label with the one at `n`. */
  method GroupEntry(names: seq<Name>, n: nat, ghost ks: seq<Entry>) returns (entry: (Label, Slot), i: nat)
    requires ks == Keys(names) && Proper(ks) && n < |names|
    ensures n < i <= |names| && Proper(ks[n..]) && Proper(ks[i..]) && Entries(ks[n..]) == [entry] + Entries(ks[i..])
    decreases Total(ks), 0
  {
    var len, dot, next;
    len, dot, next, i := Collect(names, n);
    ghost var l, group := First(names, n), ks[n..i];
    assert Open(i, 0);
    GroupSize(names, n, i, next);
    EntriesFrom(ks, n, i, l, group, ks[i..]);
    ProperNext(group, l);
    Smaller(ks, n, i, group);
    var slot := MakeSlot(names[n], len, dot, next, group);
    Behind(names[n].key);
    entry := (names[n].key[..len], slot);
  }

  lemma Appended<T>(a: seq<T>, x: T, b: seq<T>)
    ensures a + ([x] + b) == (a + [x]) + b
  {}

  /** The tagged value of one entry (ngx_hash.c:567-589). */
  method MakeSlot(name: Name, len: nat, dot: bool, next: seq<Name>, ghost group: seq<Entry>) returns (slot: Slot)
    requires group != [] && Proper(group) && Grouped(group, Split(name.key)[0]) && group[0] == Entry1(name)
      && Keys(next) == Next(group) && Proper(Keys(next))
    requires len == Dot(name.key) && dot == (len < |name.key|)
    ensures slot == SlotOf(group, Split(name.key)[0])
    decreases Total(Keys(next)), 2
  {
    Behind(name.key);
    if |next| > 0 {
      var sub := WildcardInit(next);
      if |name.key| == (if dot then len + 1 else len) {
        sub := sub.(value := Some(name.value));
      }
      slot := Slot(Table(sub), true, dot);
    } else {
      slot := Slot(Data(name.value), false, dot);
    }
  }
}
