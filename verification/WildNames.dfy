/**
 * From keys accepted by ngx_hash_add_key, sorted, to lookups of names: when the wildcard hashes of ngx_hash.c are
 * right.
 */
module WildNames {
  import opened WildTable
  import opened WildLabels
  import opened WildScatter
  import opened WildHash
  import opened WildFind
  import opened WildKeys

  // Sorting

  /** `names` is `list` in another order: at[i] is where name i was, back[j] where the one at j has gone. */
  ghost predicate Reordered(names: seq<Name>, list: seq<Name>, at: seq<nat>, back: seq<nat>) {
    && |at| == |back| == |names| == |list|
    && (forall i {:trigger at[i]} :: 0 <= i < |at| ==> at[i] < |list| && names[i] == list[at[i]] && back[at[i]] == i)
    && forall j {:trigger back[j]} :: 0 <= j < |back| ==> back[j] < |names| && at[back[j]] == j
  }

  /** What sorting by ngx_dns_strcmp may leave of a list; names that it takes for equal stand in any order. */
  ghost predicate Sorted(names: seq<Name>, list: seq<Name>) {
    && (exists at, back :: Reordered(names, list, at, back)) && (forall i :: 0 <= i < |names| ==> NoNul(names[i].key))
    && forall i, j :: 0 <= i < j < |names| ==> AtMost(names[i].key, names[j].key)
  }

  ghost predicate AtMost(a: string, b: string) { NoNul(a) && NoNul(b) && Compare(a, b, 0) <= 0 }

  lemma {:induction false} LongerGreater(a: string, b: string, i: nat)
    requires NoNul(a) && NoNul(b) && i <= |b| < |a| && a[..|b|] == b
    ensures Compare(a, b, i) > 0
    decreases |b| - i
  {
    if i < |b| {
      assert a[i] == a[..|b|][i] == b[i];
      LongerGreater(a, b, i + 1);
    }
  }

  lemma RestOf(k: Labels, p: Labels) returns (rest: Labels)
    requires p <= Base(k) && p != Base(k) && p != []
    ensures k == p + rest && rest != [] && rest != [""]
  {
    rest := k[|p|..];
    assert p == Base(k)[..|p|] == k[..|p|];
    assert |Base(k)| > |p|;
    if |rest| == 1 { assert |k| == |p| + 1 && Base(k) == k; }
  }

  lemma BaseOr(k: Labels)
    ensures k == Base(k) || k == Base(k) + [""]
  {}

  lemma Dotted(p: string, r: string, a: string, b: string)
    requires a == p + "." + r && r != "" && (b == p || b == p + ".")
    ensures |b| < |a| && a[..|b|] == b
  {}

  /** A key whose base begins that of another is a beginning of it. */
  lemma BaseBegins(a: Labels, b: Labels)
    requires a != [] && b != [] && Base(b) <= Base(a) && Base(a) != Base(b)
    ensures |Join(b)| < |Join(a)| && Join(a)[..|Join(b)|] == Join(b)
  {
    var p := Base(b);
    var rest := RestOf(a, p);
    JoinParts(p, rest);
    JoinLong(rest);
    BaseOr(b);
    JoinParts(p, [""]);
    Dotted(Join(p), Join(rest), Join(a), Join(b));
  }

  lemma JoinLong(ls: Labels)
    requires ls != [] && ls != [""]
    ensures Join(ls) != ""
  {
    if |ls| == 1 { assert ls == [ls[0]]; }
  }

  lemma SortedPair(a: string, b: string)
    requires AtMost(a, b) && Base(Split(a)) != Base(Split(b))
    ensures !(Base(Split(b)) <= Base(Split(a)))
  {
    if Base(Split(b)) <= Base(Split(a)) {
      BaseBegins(Split(a), Split(b));
      JoinSplit(a);
      JoinSplit(b);
      LongerGreater(a, b, 0);
      assert false;
    }
  }

  /** All names of a list have different bases. */
  ghost predicate Separate(list: seq<Name>) {
    forall i, j :: 0 <= i < j < |list| ==> Base(Split(list[i].key)) != Base(Split(list[j].key))
  }

  lemma SeparateAt(list: seq<Name>, i: nat, j: nat)
    requires Separate(list) && i < |list| && j < |list| && i != j
    ensures Base(Split(list[i].key)) != Base(Split(list[j].key))
  {
    if i < j { assert Base(Split(list[i].key)) != Base(Split(list[j].key)); }
      else { assert Base(Split(list[j].key)) != Base(Split(list[i].key)); }
  }

  lemma SortedApart(names: seq<Name>, list: seq<Name>, at: seq<nat>, back: seq<nat>, i: nat, j: nat)
    requires Reordered(names, list, at, back) && Separate(list) && i < j < |names| && AtMost(names[i].key, names[j].key)
    ensures !(Base(Split(names[j].key)) <= Base(Split(names[i].key)))
      && Base(Split(names[i].key)) != Base(Split(names[j].key))
  {
    assert back[at[i]] != back[at[j]];
    SeparateAt(list, at[i], at[j]);
    SortedPair(names[i].key, names[j].key);
  }

  lemma SortedProper(names: seq<Name>, list: seq<Name>)
    requires Sorted(names, list) && Separate(list)
    ensures Proper(Keys(names)) && Separate(names)
  {
    var at, back :| Reordered(names, list, at, back);
    var ks := Keys(names);
    forall i, j | 0 <= i < j < |names|
      ensures !(Base(ks[j].key) <= Base(ks[i].key)) && Base(Split(names[i].key)) != Base(Split(names[j].key))
    {
      SortedApart(names, list, at, back, i, j);
    }
  }

  // What the lists hold

  lemma SameRight(x: string, y: string)
    requires FromRight(x) == FromRight(y)
    ensures x == y
  {
    assert |Split(x)| == |Split(y)|;
    ReverseSame(Split(x), Split(y));
    JoinSplit(x);
    JoinSplit(y);
  }

  lemma HeadBase(n: Name, x: string)
    requires HeadFor(n, x)
    ensures Base(Split(n.key)) == FromRight(x)
  {
    var k := FromRight(x);
    ReverseLast(Split(x));
    assert k[|k| - 1] == Split(x)[0] != "";
    if Split(n.key) != k { assert (k + [""])[..|k|] == k; }
  }

  lemma HeadSeparate(ha: KeysArrays)
    requires ha.Valid()
    ensures Separate(ha.head)
  {
    forall i, j | 0 <= i < j < |ha.head| ensures Base(Split(ha.head[i].key)) != Base(Split(ha.head[j].key)) {
      var x, y := ha.bases[i], ha.bases[j];
      HeadBase(ha.head[i], x);
      HeadBase(ha.head[j], y);
      assert x != y;
      if FromRight(x) == FromRight(y) { SameRight(x, y); }
    }
  }

  lemma {:induction false} NoEmptyEnd(x: string)
    requires x != "" && x[|x| - 1] != '.'
    ensures !Star(Split(x)) && Split(x)[|Split(x)| - 1] != ""
  {
    if |x| > 1 {
      var r := Split(x[1..]);
      NoEmptyEnd(x[1..]);
      assert x[0] != '.' ==> Split(x) == [[x[0]] + r[0]] + r[1..];
    } else {
      assert x[1..] == "" && Split("") == [""];
    }
  }

  /** What ngx_hash_add_key lets through as "x.*": no empty name, none with a dot at its end, none twice. */
  ghost predicate TailKeys(list: seq<Name>) {
    && (forall i :: 0 <= i < |list| ==> list[i].key != "" && list[i].key[|list[i].key| - 1] != '.')
    && forall i, j :: 0 <= i < j < |list| ==> list[i].key != list[j].key
  }

  lemma TailSeparate(list: seq<Name>)
    requires TailKeys(list)
    ensures Separate(list) && NoStars(Keys(list))
  {
    forall i | 0 <= i < |list| ensures !Star(Split(list[i].key)) { NoEmptyEnd(list[i].key); }
    forall i, j | 0 <= i < j < |list| ensures Base(Split(list[i].key)) != Base(Split(list[j].key)) {
      JoinSplit(list[i].key);
      JoinSplit(list[j].key);
    }
  }

  lemma TailSorted(names: seq<Name>, list: seq<Name>)
    requires TailKeys(list) && Sorted(names, list)
    ensures Proper(Keys(names)) && NoStars(Keys(names)) && Separate(names)
  {
    TailSeparate(list);
    SortedProper(names, list);
    var at, back :| Reordered(names, list, at, back);
    forall i | 0 <= i < |names| ensures !Star(Keys(names)[i].key) { assert !Star(Keys(list)[at[i]].key); }
  }

  // When every lookup is right

  /** The names with other values. */
  function Revalued(names: seq<Name>, vs: seq<Value>): (r: seq<Name>)
    requires |vs| == |names|
    ensures |r| == |names|
  {
    seq(|names|, i requires 0 <= i < |names| => Name(names[i].key, vs[i]))
  }

  /** A name from labels, and back. */
  lemma {:induction false} SplitJoin(ls: Labels)
    requires ls != [] && AllDotless(ls)
    ensures Split(Join(ls)) == ls
  {
    if |ls| == 1 {
      OneLabel(ls[0]);
    } else {
      SplitJoin(ls[1..]);
      OneLabel(ls[0]);
      SplitParts(ls[0], Join(ls[1..]));
      assert ls == [ls[0]] + ls[1..];
    }
  }

  lemma {:induction false} ReverseTwice<T>(s: seq<T>)
    ensures Reverse(Reverse(s)) == s
  {
    if s != [] {
      ReverseJoin(Reverse(s[1..]), [s[0]]);
      ReverseTwice(s[1..]);
      assert [s[0]][1..] == [];
      assert Reverse([s[0]]) == [s[0]];
    }
  }

  lemma NameOf(ls: Labels) returns (name: string)
    requires ls != [] && AllDotless(ls)
    ensures FromRight(name) == ls
  {
    var r := Reverse(ls);
    forall i | 0 <= i < |r| ensures Dotless(r[i]) { var j := ReverseElems(ls, i); }
    SplitJoin(r);
    ReverseTwice(ls);
    name := Join(r);
  }

  lemma KeysKeyed(names: seq<Name>)
    ensures Keyed(Keys(names))
  {
    forall i | 0 <= i < |names| ensures AllDotless(Keys(names)[i].key) {
      LabelsOf(names[i].key);
      forall j | 0 <= j < |Split(names[i].key)| ensures Dotless(Split(names[i].key)[j]) {
        assert IsLabel(Split(names[i].key)[j]);
      }
    }
  }

  /** Proper and Together speak of the keys alone. */
  lemma RevaluedKeys(names: seq<Name>, vs: seq<Value>)
    requires |vs| == |names| && Proper(Keys(names))
    ensures Proper(Keys(Revalued(names, vs))) && (Together(Keys(names)) <==> Together(Keys(Revalued(names, vs))))
    ensures NoStars(Keys(names)) ==> NoStars(Keys(Revalued(names, vs)))
  {
    var a, b := Keys(names), Keys(Revalued(names, vs));
    SameKeys(a, b);
    SameTogether(a, b);
    SameTogether(b, a);
  }

  lemma SameKeys(a: seq<Entry>, b: seq<Entry>)
    requires |a| == |b| && (forall i :: 0 <= i < |a| ==> a[i].key == b[i].key) && Proper(a)
    ensures Proper(b) && (NoStars(a) ==> NoStars(b))
  {}

  lemma SameTogether(a: seq<Entry>, b: seq<Entry>)
    requires |a| == |b| && forall i :: 0 <= i < |a| ==> a[i].key == b[i].key
    ensures Together(a) ==> Together(b)
  {
    if Together(a) {
      forall i, j, m, n: nat ensures Stand(b, i, j, m, n) {
        if 0 <= i < j < m < |b| { TogetherAt(a, i, j, m, n); }
      }
    }
  }

  /** The lookup of this name from the right, with these values, gives the most specific key that matches. */
  ghost predicate HeadRight(names: seq<Name>, vs: seq<Value>, name: string) {
    |vs| == |names| && var ks := Keys(Revalued(names, vs));
      Proper(ks) && Right(ks, FromRight(name), None, Find(Build(ks, None), FromRight(name)))
  }

  ghost predicate HeadsRight(names: seq<Name>) {
    forall vs: seq<Value>, name: string :: |vs| == |names| ==> HeadRight(names, vs, name)
  }

  ghost predicate TailRightFor(names: seq<Name>, vs: seq<Value>, name: string) {
    |vs| == |names| && var ks := Keys(Revalued(names, vs));
      Proper(ks) && TailAnswer(ks, Split(name), FindTail(Build(ks, None), Split(name)))
  }

  ghost predicate TailsRight(names: seq<Name>) {
    forall vs: seq<Value>, name: string :: |vs| == |names| ==> TailRightFor(names, vs, name)
  }

  /** Values that are all different. */
  lemma Numbered(names: seq<Name>) returns (vs: seq<Value>)
    ensures |vs| == |names| && Distinct(Keys(Revalued(names, vs)))
  {
    vs := seq(|names|, i => i);
  }

  lemma SomeMissed(names: seq<Name>) returns (vs: seq<Value>, name: Labels)
    requires Proper(Keys(names)) && !Together(Keys(names))
    ensures |vs| == |names| && name != [] && AllDotless(name)
    ensures var ks := Keys(Revalued(names, vs)); Proper(ks) && !Right(ks, name, None, Find(Build(ks, None), name))
  {
    vs := Numbered(names);
    RevaluedKeys(names, vs);
    KeysKeyed(Revalued(names, vs));
    name := Misses(Keys(Revalued(names, vs)), None);
  }

  /** Lookups from the right are right, whatever the name and the values, exactly if the keys stand together. */
  lemma HeadsExactly(names: seq<Name>)
    requires Proper(Keys(names))
    ensures HeadsRight(names) <==> Together(Keys(names))
  {
    if Together(Keys(names)) {
      forall vs: seq<Value>, name: string | |vs| == |names| ensures HeadRight(names, vs, name) {
        RevaluedKeys(names, vs);
        FindRight(Keys(Revalued(names, vs)), None, FromRight(name));
      }
    } else {
      var vs, ls := SomeMissed(names);
      var name := NameOf(ls);
      assert !HeadRight(names, vs, name);
    }
  }

  lemma MissedFromLeft(ks: seq<Entry>, ls: Labels) returns (name: string)
    requires Proper(ks) && NoStars(ks) && ls != [] && AllDotless(ls) && !Right(ks, ls, None, Find(Build(ks, None), ls))
    ensures !TailAnswer(ks, Split(name), FindTail(Build(ks, None), Split(name)))
  {
    var more := ls + ["x"];
    assert Init(more) == ls;
    TailIsFind(ks, None, more);
    AnswerIsRight(ks, more, FindTail(Build(ks, None), more));
    SplitJoin(more);
    name := Join(more);
  }

  /** Lookups from the left are right, whatever the name and the values, exactly if the keys stand together. */
  lemma TailsExactly(names: seq<Name>)
    requires Proper(Keys(names)) && NoStars(Keys(names))
    ensures TailsRight(names) <==> Together(Keys(names))
  {
    if Together(Keys(names)) {
      forall vs: seq<Value>, name: string | |vs| == |names| ensures TailRightFor(names, vs, name) {
        RevaluedKeys(names, vs);
        TailRight(Keys(Revalued(names, vs)), Split(name));
      }
    } else {
      var vs, ls := SomeMissed(names);
      RevaluedKeys(names, vs);
      var name := MissedFromLeft(Keys(Revalued(names, vs)), ls);
      assert !TailRightFor(names, vs, name);
    }
  }

  // Which characters keep keys together

  ghost predicate AllClean(names: seq<Name>) { forall i :: 0 <= i < |names| ==> Clean(names[i].key) }

  /** Without characters up to the space, sorting brings together what begins with the same labels. */
  lemma CleanTogether(names: seq<Name>, list: seq<Name>)
    requires Sorted(names, list) && Separate(names) && AllClean(names)
    ensures Together(Keys(names))
  {
    var ks := Keys(names);
    forall i, j | 0 <= i < j < |ks| ensures ListLess(ks[i].key, ks[j].key) && Base(ks[i].key) != Base(ks[j].key) {
      var a, b := names[i].key, names[j].key;
      CompareIsListLess(a, b);
      assert AtMost(a, b);
      assert Base(Split(a)) != Base(Split(b));
    }
    InOrderTogether(ks);
  }

  /** Whatever ngx_hash_add_key has accepted for the head, sorted: when lookups are right. */
  lemma HeadLookup(ha: KeysArrays, names: seq<Name>)
    requires ha.Valid() && Sorted(names, ha.head)
    ensures Proper(Keys(names)) && (HeadsRight(names) <==> Together(Keys(names)))
    ensures AllClean(names) ==> Together(Keys(names))
  {
    HeadSeparate(ha);
    SortedProper(names, ha.head);
    HeadsExactly(names);
    if AllClean(names) { CleanTogether(names, ha.head); }
  }

  lemma TailLookup(ha: KeysArrays, names: seq<Name>)
    requires ha.Valid() && Sorted(names, ha.tail)
    ensures Proper(Keys(names)) && NoStars(Keys(names)) && (TailsRight(names) <==> Together(Keys(names)))
    ensures AllClean(names) ==> Together(Keys(names))
  {
    TailSorted(names, ha.tail);
    TailsExactly(names);
    if AllClean(names) { CleanTogether(names, ha.tail); }
  }

  /** A character that may stand in a stored label: not a dot, not NUL, not in upper case. */
  predicate Usual(c: char) { c != '.' && c != '\0' && !('A' <= c <= 'Z') }

  /** All characters but c are above the space. */
  ghost predicate Over(names: seq<Name>, c: char) {
    forall i, j :: 0 <= i < |names| && 0 <= j < |names[i].key| ==>
      names[i].key[j] == c || (names[i].key[j] > ' ' && !('A' <= names[i].key[j] <= 'Z'))
  }

  /** What ngx_hash_add_key lets through as ".x" and "*.x": for no x twice. */
  ghost predicate HeadKeys(list: seq<Name>) {
    exists bases: seq<string> :: HeadsFor(list, bases)
  }

  ghost predicate HeadsFor(list: seq<Name>, bases: seq<string>) {
    && |bases| == |list| && (forall i :: 0 <= i < |list| ==> HeadFor(list[i], bases[i]))
    && forall i, j :: 0 <= i < j < |bases| ==> bases[i] != bases[j]
  }

  /** Some list of accepted keys over c, sorted, gives a table in which a lookup goes wrong. */
  ghost predicate BreaksTail(c: char) {
    exists list, names :: TailKeys(list) && Sorted(names, list) && Over(names, c) && !TailsRight(names)
  }

  ghost predicate BreaksHead(c: char) {
    exists list, names :: HeadKeys(list) && Sorted(names, list) && Over(names, c) && !HeadsRight(names)
  }

  lemma HeadKeysSeparate(list: seq<Name>)
    requires HeadKeys(list)
    ensures Separate(list)
  {
    var bases: seq<string> :| HeadsFor(list, bases);
    forall i, j | 0 <= i < j < |list| ensures Base(Split(list[i].key)) != Base(Split(list[j].key)) {
      var x, y := bases[i], bases[j];
      HeadBase(list[i], x);
      HeadBase(list[j], y);
      assert x != y;
      if FromRight(x) == FromRight(y) { SameRight(x, y); }
    }
  }

  lemma OverClean(names: seq<Name>, c: char)
    requires Over(names, c) && Usual(c) && c > ' '
    ensures AllClean(names)
  {}

  /** "a", "a?b" and "a.c", where "?" is the character: the keys of "a.*", "a?b.*" and "a.c.*". */
  function Three(c: char): (r: seq<Name>)
    ensures |r| == 3
  {
    [Name("a", 1), Name(['a', c, 'b'], 2), Name("a.c", 3)]
  }

  lemma ThreeLabels(c: char)
    requires Usual(c)
    ensures Split("a") == ["a"] && Split(['a', c, 'b']) == [['a', c, 'b']] && Split("a.c") == ["a", "c"]
  {
    OneLabel("a");
    OneLabel(['a', c, 'b']);
    OneLabel("c");
    SplitParts("a", "c");
    assert "a.c" == "a" + "." + "c";
  }

  lemma ThreeKeys(c: char)
    requires Usual(c)
    ensures var ks := Keys(Three(c));
      ks == [Entry(["a"], 1), Entry([['a', c, 'b']], 2), Entry(["a", "c"], 3)]
  {
    ThreeLabels(c);
  }

  lemma {:induction false} ShorterLess(a: string, b: string, i: nat)
    requires NoNul(a) && NoNul(b) && i <= |a| < |b| && b[..|a|] == a
    ensures Compare(a, b, i) < 0
    decreases |a| - i
  {
    if i < |a| {
      assert b[i] == b[..|a|][i] == a[i];
      ShorterLess(a, b, i + 1);
    }
  }

  /** Up to the space a character does not sort behind a dot. */
  lemma DotNotBefore(y: string, z: string)
    requires NoNul(y) && NoNul(z) && |y| > 1 && |z| > 1 && y[0] == z[0] && Usual(y[1]) && y[1] <= ' ' && z[1] == '.'
    ensures Compare(y, z, 0) <= 0
  {
    assert Compare(y, z, 0) == Compare(y, z, 1);
    assert At(y, 1) == y[1] as int && At(z, 1) == '.' as int;
  }

  lemma SameOrder(s: seq<Name>)
    ensures exists at, back :: Reordered(s, s, at, back)
  {
    var at: seq<nat> := seq(|s|, i => i);
    assert Reordered(s, s, at, at);
  }

  lemma SortedThree(s: seq<Name>)
    requires |s| == 3 && AtMost(s[0].key, s[1].key) && AtMost(s[0].key, s[2].key) && AtMost(s[1].key, s[2].key)
    ensures Sorted(s, s)
  {
    SameOrder(s);
  }

  /** Up to the space, the character sorts the second name between the others. */
  lemma ThreeSorted(c: char)
    requires Usual(c) && c <= ' '
    ensures Sorted(Three(c), Three(c))
  {
    var s := Three(c);
    var x, y, z := s[0].key, s[1].key, s[2].key;
    assert NoNul(x) && NoNul(y) && NoNul(z) && y[..1] == x && z[..1] == x;
    ShorterLess(x, y, 0);
    ShorterLess(x, z, 0);
    DotNotBefore(y, z);
    SortedThree(s);
  }

  lemma ThreeOver(c: char)
    ensures Over(Three(c), c)
  {}

  lemma ThreeTailKeys(c: char)
    requires Usual(c)
    ensures TailKeys(Three(c))
  {
    var s := Three(c);
    var x, y, z := s[0].key, s[1].key, s[2].key;
    assert |x| == 1 && |y| == |z| == 3 && y[1] != z[1];
  }

  lemma ThreeScattered(c: char)
    requires Usual(c)
    ensures !Together(Keys(Three(c)))
  {
    ThreeKeys(c);
    var ks := Keys(Three(c));
    assert Base(ks[0].key) == ["a"] && Base(ks[1].key) == [['a', c, 'b']] && Base(ks[2].key) == ["a", "c"];
    assert ["a"][..1] == ["a", "c"][..1];
    assert Shares(Base(ks[0].key), Base(ks[2].key), 1);
    assert [['a', c, 'b']][..1][0] != ["a"][..1][0];
    assert !Stand(ks, 0, 1, 2, 1);
  }

  lemma ThreeTail(c: char)
    requires Usual(c) && c <= ' '
    ensures BreaksTail(c)
  {
    ThreeSorted(c);
    ThreeScattered(c);
    ThreeTailKeys(c);
    ThreeOver(c);
    TailBroken(Three(c), c);
  }

  lemma TailBroken(s: seq<Name>, c: char)
    requires TailKeys(s) && Sorted(s, s) && Over(s, c) && !Together(Keys(s))
    ensures BreaksTail(c)
  {
    TailSorted(s, s);
    TailsExactly(s);
  }

  lemma ThreeHead(c: char)
    requires Usual(c) && c <= ' '
    ensures BreaksHead(c)
  {
    ThreeSorted(c);
    ThreeScattered(c);
    ThreeHeads(c);
    ThreeOver(c);
    HeadBroken(Three(c), c);
  }

  lemma HeadBroken(s: seq<Name>, c: char)
    requires HeadKeys(s) && Sorted(s, s) && Over(s, c) && !Together(Keys(s))
    ensures BreaksHead(c)
  {
    HeadKeysSeparate(s);
    SortedProper(s, s);
    HeadsExactly(s);
  }

  lemma OneHead(n: Name)
    requires n.key != "" && IsLabel(n.key)
    ensures HeadFor(n, n.key)
  {
    OneLabel(n.key);
    assert Reverse([n.key]) == [n.key];
  }

  lemma TwoHead(n: Name, a: string, b: string)
    requires n.key == a + "." + b && a != "" && b != "" && IsLabel(a) && IsLabel(b)
    ensures HeadFor(n, b + "." + a)
  {
    OneLabel(a);
    OneLabel(b);
    SplitParts(a, b);
    SplitParts(b, a);
    ReverseJoin([b], [a]);
    assert Reverse([a]) == [a] && Reverse([b]) == [b];
  }

  lemma HeadsOf(s: seq<Name>, x: string, y: string, z: string)
    requires |s| == 3 && HeadFor(s[0], x) && HeadFor(s[1], y) && HeadFor(s[2], z) && x != y && x != z && y != z
    ensures HeadKeys(s)
  {
    assert HeadsFor(s, [x, y, z]);
  }

  lemma ThreeHeads(c: char)
    requires Usual(c)
    ensures HeadKeys(Three(c))
  {
    var s := Three(c);
    OneHead(s[0]);
    OneHead(s[1]);
    assert "a.c" == "a" + "." + "c";
    TwoHead(s[2], "a", "c");
    var x, y, z := s[0].key, s[1].key, "c" + "." + "a";
    assert |x| == 1 && |y| == |z| == 3 && y[0] != z[0];
    HeadsOf(s, x, y, z);
  }

  /** Lookups can go wrong with a character, from either side, exactly if it is at or below the space. */
  lemma CharacterExactly(c: char)
    requires Usual(c)
    ensures BreaksTail(c) <==> c <= ' '
    ensures BreaksHead(c) <==> c <= ' '
  {
    if c <= ' ' {
      ThreeTail(c);
      ThreeHead(c);
    } else {
      forall list, names | TailKeys(list) && Sorted(names, list) && Over(names, c) ensures TailsRight(names) {
        TailSorted(names, list);
        OverClean(names, c);
        CleanTogether(names, list);
        TailsExactly(names);
      }
      forall list, names | HeadKeys(list) && Sorted(names, list) && Over(names, c) ensures HeadsRight(names) {
        HeadKeysSeparate(list);
        SortedProper(names, list);
        OverClean(names, c);
        CleanTogether(names, list);
        HeadsExactly(names);
      }
    }
  }

  // A run

  /** A name in lower case that does not begin or end with a dot, without stars or two dots in a row. */
  ghost predicate Plainly(x: string) {
    && x != "" && x[|x| - 1] != '.' && (forall j :: 0 <= j < |x| ==> x[j] != '*') && !TwoDots(x) && x[0] != '.'
    && LowerAll(x) == x
  }

  lemma StarEnd(x: string)
    requires Plainly(x)
    ensures KindOf(x + ".*") == Open && (x + ".*")[..|x + ".*"| - 2] == x
  {
    var k := x + ".*";
    NoStarsIn(x);
    StarsParts(x, ".*");
    assert Stars(".*") == Stars("*") == 1 by { assert ".*"[1..] == "*"; assert "*"[1..] == ""; }
    forall i | 0 <= i < |k| - 1 ensures !(k[i] == '.' && k[i + 1] == '.') {
      if i + 1 < |x| { assert k[i] == x[i] && k[i + 1] == x[i + 1]; }
    }
  }

  lemma {:induction false} NoStarsIn(x: string)
    requires forall j :: 0 <= j < |x| ==> x[j] != '*'
    ensures Stars(x) == 0
  {
    if x != "" { NoStarsIn(x[1..]); }
  }

  lemma SameDotted(a: string, b: string)
    ensures a + "." == b + "." ==> a == b
  {
    var p, q := a + ".", b + ".";
    assert p[..|p| - 1] == a && q[..|q| - 1] == b;
  }

  lemma NotSeen(ha: KeysArrays, x: string)
    requires ha.Valid() && forall i :: 0 <= i < |ha.tail| ==> ha.tail[i].key != x
    ensures !Seen(ha.tailHash, x + ".")
  {
    forall i | 0 <= i < |ha.tail| ensures ha.tail[i].key + "." != x + "." { SameDotted(ha.tail[i].key, x); }
  }

  /** "x.*" goes into an array that has only other names. */
  method AddOpen(ha: KeysArrays, x: string, value: Value)
    requires ha.Valid() && Plainly(x) && forall i :: 0 <= i < |ha.tail| ==> ha.tail[i].key != x
    modifies ha
    ensures ha.Valid() && ha.tail == old(ha.tail) + [Name(x, value)]
  {
    StarEnd(x);
    NotSeen(ha, x);
    var rc := ha.AddKey(x + ".*", value, true, false);
  }

  lemma FirstOnly(c: char, ks: seq<Entry>)
    requires ks == [Entry(["a"], 1), Entry([['a', c, 'b']], 2), Entry(["a", "c"], 3)] && Proper(ks)
    ensures Lookup(Entries(ks), "a") == Some(Slot(Data(1), false, false))
  {
    var a, b, group, r := LookupRun(ks, "a", Entries(ks));
    assert ks[0].key[0] == "a" && ks[1].key[0] != "a";
    assert a == 0 && b == 1;
    assert group == [ks[0]];
    assert Done(group[0].key) && Next(group) == [];
  }

  /** What begins with the label "a" gets the value of the first key. */
  lemma FirstAnswers(w: Wild, rest: string, name: string)
    requires Lookup(w.entries, "a") == Some(Slot(Data(1), false, false)) && name == "a" + "." + rest
    ensures FindTail(w, Split(name)) == Some(1)
  {
    SplitParts("a", rest);
    OneLabel("a");
  }

  method AddThree(c: char) returns (ha: KeysArrays)
    requires Usual(c) && c <= ' '
    ensures fresh(ha) && ha.Valid() && ha.tail == Three(c)
  {
    ha := new KeysArrays(false);
    var x, y, z := "a", ['a', c, 'b'], "a.c";
    AllPlainly(c, x, y, z);
    AddOpen(ha, x, 1);
    AddOpen(ha, y, 2);
    AddOpen(ha, z, 3);
  }

  lemma AllPlainly(c: char, x: string, y: string, z: string)
    requires Usual(c) && c <= ' ' && x == "a" && y == ['a', c, 'b'] && z == "a.c"
    ensures Plainly(x) && Plainly(y) && Plainly(z) && x != y && x != z && y != z
  {
    assert LowerAll(x) == x && LowerAll(y) == y && LowerAll(z) == z;
    assert |x| == 1 && |y| == |z| == 3 && y[1] != z[1];
  }

  lemma ScatterAnswers(c: char, w: Wild, name: string)
    requires Usual(c) && Proper(Keys(Three(c))) && w == Build(Keys(Three(c)), None) && name == "a.c.x"
    ensures FindTail(w, Split(name)) == Some(1) && HasPrefix(name, "a.c" + ".")
  {
    ThreeKeys(c);
    FirstOnly(c, Keys(Three(c)));
    var rest := "c.x";
    assert name == "a" + "." + rest;
    FirstAnswers(w, rest, name);
  }

  /**
   * With "a.*", "a?b.*" and "a.c.*" added in this order, the table built answers "a.c.x" with the value of "a.*",
   * though "a.c.*" matches.
   */
  method Scatter(c: char) returns (ha: KeysArrays, w: Wild, r: Option<Value>)
    requires Usual(c) && c <= ' '
    ensures fresh(ha) && ha.Valid() && ha.tail == Three(c) && Sorted(Three(c), ha.tail)
    ensures r == Some(1) && HasPrefix("a.c.x", ha.tail[2].key + ".") && ha.tail[2].value == 3
    ensures Proper(Keys(Three(c))) && w == Build(Keys(Three(c)), None) && r == FindTail(w, Split("a.c.x"))
  {
    ha := AddThree(c);
    ThreeSorted(c);
    ThreeTailKeys(c);
    TailSorted(Three(c), Three(c));
    w := WildcardInit(ha.tail);
    r := FindInTail(w, "a.c.x");
    ScatterAnswers(c, w, "a.c.x");
  }
}
