/** ngx_hash_find_combined of ngx_hash.c: exact names, then wildcards in front, then wildcards at the end. */
module WildCombined {
  import opened WildTable
  import opened WildLabels
  import opened WildHash
  import opened WildFind
  import opened WildKeys
  import opened WildNames
  import HashLayout
  import ExactHash

  // One level of a wildcard table is an exact hash

  lemma {:induction false} LookupAt(es: seq<(Label, Slot)>, l: Label, i: nat)
    requires i < |es| && es[i].0 == l && forall j :: 0 <= j < i ==> es[j].0 != l
    ensures Lookup(es, l) == Some(es[i].1)
  {
    if i > 0 { LookupAt(es[1..], l, i - 1); }
  }

  lemma {:induction false} LookupNone(es: seq<(Label, Slot)>, l: Label)
    requires forall j :: 0 <= j < |es| ==> es[j].0 != l
    ensures Lookup(es, l) == None
  {
    if es != [] { LookupNone(es[1..], l); }
  }

  /** The names that ngx_hash_wildcard_init gives to ngx_hash_init: labels with tagged pointers, none of them NULL. */
  ghost predicate LevelOf(es: seq<(Label, Slot)>, elts: seq<HashLayout.Elt>) {
    |elts| == |es| && forall i :: 0 <= i < |es| ==>
      elts[i].key == es[i].0 == LowerAll(es[i].0) && !elts[i].dropped && elts[i].hash == Hash(es[i].0)
        && elts[i].value != 0
  }

  lemma LevelConsistent(es: seq<(Label, Slot)>, elts: seq<HashLayout.Elt>, l: Label)
    requires LevelOf(es, elts)
    ensures ExactHash.Consistent(elts, Hash(l), l)
  {
    forall i | 0 <= i < |elts| && ExactHash.Match(elts[i], l) ensures elts[i].hash == Hash(l) {
      SpelledIs(elts[i].key, l);
    }
  }

  /** What ngx_hash_find finds at a level is the slot of the label. */
  lemma LevelLookup(es: seq<(Label, Slot)>, elts: seq<HashLayout.Elt>, l: Label, v: nat)
    requires LevelOf(es, elts) && ExactHash.FirstMatch(elts, |elts|, l, v)
    ensures v == 0 ==> Lookup(es, l) == None
    ensures v != 0 ==> exists i :: 0 <= i < |es| && elts[i].value == v && Lookup(es, l) == Some(es[i].1)
  {
    forall j | 0 <= j < |es| ensures ExactHash.Match(elts[j], l) <==> es[j].0 == l { SpelledIs(elts[j].key, l); }
    if v == 0 {
      forall j | 0 <= j < |es| ensures es[j].0 != l { assert !ExactHash.Match(elts[j], l); }
      LookupNone(es, l);
    } else {
      var i :| 0 <= i < |elts| && ExactHash.Match(elts[i], l) && v == elts[i].value
        && forall j :: 0 <= j < i ==> !ExactHash.Match(elts[j], l);
      forall j | 0 <= j < i ensures es[j].0 != l { assert !ExactHash.Match(elts[j], l); }
      LookupAt(es, l, i);
    }
  }

  // What the wildcards mean for names

  /** ".x" matches x and what ends with ".x"; "*.x" only the latter. */
  ghost predicate HeadMatch(n: Name, x: string, name: string) {
    EndsWith(name, "." + x) || (name == x && Split(n.key) == FromRight(x))
  }

  lemma HeadMeans(n: Name, x: string, name: string)
    requires HeadFor(n, x)
    ensures Matches(Split(n.key), FromRight(name)) <==> HeadMatch(n, x, name)
    ensures Base(Split(n.key)) == FromRight(x)
  {
    HeadBase(n, x);
    if Split(n.key) == FromRight(x) { DotPattern(x, name); } else { StarPattern(x, name); }
  }

  /** Of two ends of a name the one with more labels is the longer one. */
  lemma Nested(x: string, y: string, name: string)
    requires FromRight(x) <= FromRight(name) && FromRight(y) <= FromRight(name) && |FromRight(x)| <= |FromRight(y)|
    ensures |x| <= |y|
  {
    var a, b, c := FromRight(x), FromRight(y), FromRight(name);
    assert a == c[..|a|] && b == c[..|b|];
    assert a <= b;
    ReversePrefix(Split(x), Split(y));
    if |Split(x)| == |Split(y)| {
      assert Split(y)[0..] == Split(y);
      JoinSplit(x);
      JoinSplit(y);
    } else {
      LastThenEnds(x, y);
    }
  }

  /** The value of the longest of the patterns with the wildcard in front that match, or none if none does. */
  ghost predicate HeadAnswer(head: seq<Name>, bases: seq<string>, name: string, r: Option<Value>) {
    && |bases| == |head|
    && if r.Some? then exists i :: HeadAnswerAt(head, bases, name, r.value, i)
       else forall i :: 0 <= i < |head| ==> !HeadMatch(head[i], bases[i], name)
  }

  ghost predicate HeadAnswerAt(head: seq<Name>, bases: seq<string>, name: string, v: Value, i: int) {
    && |bases| == |head| && 0 <= i < |head| && HeadMatch(head[i], bases[i], name) && v == head[i].value
    && forall j :: 0 <= j < |head| && HeadMatch(head[j], bases[j], name) ==> |bases[j]| <= |bases[i]|
  }

  /** The value of the longest of the patterns with the wildcard at the end that match, or none if none does. */
  ghost predicate OpenAnswer(tail: seq<Name>, name: string, r: Option<Value>) {
    if r.Some? then exists i :: OpenAnswerAt(tail, name, r.value, i)
    else forall i :: 0 <= i < |tail| ==> !HasPrefix(name, tail[i].key + ".")
  }

  ghost predicate OpenAnswerAt(tail: seq<Name>, name: string, v: Value, i: int) {
    && 0 <= i < |tail| && HasPrefix(name, tail[i].key + ".") && v == tail[i].value
    && forall j :: 0 <= j < |tail| && HasPrefix(name, tail[j].key + ".") ==> |tail[j].key| <= |tail[i].key|
  }

  lemma HeadMeaning(head: seq<Name>, bases: seq<string>, names: seq<Name>, name: string, r: Option<Value>)
    requires HeadsFor(head, bases) && Sorted(names, head) && Right(Keys(names), FromRight(name), None, r)
    ensures HeadAnswer(head, bases, name, r)
  {
    var at, back :| Reordered(names, head, at, back);
    var ks, labels := Keys(names), FromRight(name);
    if r.Some? {
      var i :| BestAt(ks, labels, r.value, i);
      var p := at[i];
      HeadMeans(head[p], bases[p], name);
      forall j | 0 <= j < |head| && HeadMatch(head[j], bases[j], name) ensures |bases[j]| <= |bases[p]| {
        HeadMeans(head[j], bases[j], name);
        assert ks[back[j]].key == Split(head[at[back[j]]].key);
        Nested(bases[j], bases[p], name);
      }
      assert HeadAnswerAt(head, bases, name, r.value, p);
    } else {
      forall j | 0 <= j < |head| ensures !HeadMatch(head[j], bases[j], name) {
        HeadMeans(head[j], bases[j], name);
        assert ks[back[j]].key == Split(head[at[back[j]]].key);
      }
    }
  }

  lemma JoinPart(a: Labels, b: Labels)
    requires a != [] && a <= b
    ensures |Join(a)| <= |Join(b)|
  {
    var rest := b[|a|..];
    assert b == a + rest;
    if rest != [] { JoinParts(a, rest); }
  }

  /** Of two beginnings of a name the one with more labels is the longer one. */
  lemma NestedLeft(x: string, y: string, name: string)
    requires Split(x) <= Split(name) && Split(y) <= Split(name) && |Split(x)| <= |Split(y)|
    ensures |x| <= |y|
  {
    BothBegin(Split(x), Split(y), Split(name));
    JoinPart(Split(x), Split(y));
    JoinSplit(x);
    JoinSplit(y);
  }

  lemma BothBegin(a: Labels, b: Labels, c: Labels)
    requires a <= c && b <= c && |a| <= |b|
    ensures a <= b
  {
    assert a == c[..|a|] && b == c[..|b|];
  }

  lemma OpenMeaning(tail: seq<Name>, names: seq<Name>, name: string, r: Option<Value>)
    requires Sorted(names, tail) && TailAnswer(Keys(names), Split(name), r)
    ensures OpenAnswer(tail, name, r)
  {
    var at, back :| Reordered(names, tail, at, back);
    var ks, labels := Keys(names), Split(name);
    if r.Some? {
      var i :| 0 <= i < |ks| && TailMatches(ks[i].key, labels) && r.value == ks[i].value
        && forall j :: 0 <= j < |ks| && TailMatches(ks[j].key, labels) ==> |ks[j].key| <= |ks[i].key|;
      var p := at[i];
      TailPattern(tail[p].key, name);
      forall j | 0 <= j < |tail| && HasPrefix(name, tail[j].key + ".") ensures |tail[j].key| <= |tail[p].key| {
        TailPattern(tail[j].key, name);
        assert ks[back[j]].key == Split(tail[at[back[j]]].key);
        NestedLeft(tail[j].key, tail[p].key, name);
      }
      assert OpenAnswerAt(tail, name, r.value, p);
    } else {
      forall j | 0 <= j < |tail| ensures !HasPrefix(name, tail[j].key + ".") {
        TailPattern(tail[j].key, name);
        assert ks[back[j]].key == Split(tail[at[back[j]]].key);
      }
    }
  }

  // The combined hash

  /** The table for a list of keys: none for none, else that of the list sorted, whose keys stand together. */
  ghost predicate TableFor(list: seq<Name>, names: seq<Name>, w: Option<Wild>) {
    && Sorted(names, list) && Proper(Keys(names)) && Together(Keys(names))
    && w == if list == [] then None else Some(Build(Keys(names), None))
  }

  /** The exact hash of a list of keys in lower case, with values that are not NULL. */
  ghost predicate ExactFor(keys: seq<Name>, elts: seq<HashLayout.Elt>) {
    |elts| == |keys| && forall i :: 0 <= i < |keys| ==>
      && elts[i].key == keys[i].key == LowerAll(keys[i].key) && !elts[i].dropped && elts[i].hash == Hash(keys[i].key)
      && keys[i].value > 0 && elts[i].value == keys[i].value
  }

  /** The value of this very name, or none. */
  ghost predicate ExactAnswer(keys: seq<Name>, name: string, r: Option<Value>) {
    if r.Some? then exists i :: 0 <= i < |keys| && keys[i].key == name && keys[i].value == r.value
    else forall i :: 0 <= i < |keys| ==> keys[i].key != name
  }

  lemma ExactConsistent(keys: seq<Name>, elts: seq<HashLayout.Elt>, name: string)
    requires ExactFor(keys, elts)
    ensures ExactHash.Consistent(elts, Hash(name), name)
  {
    forall i | 0 <= i < |elts| && ExactHash.Match(elts[i], name) ensures elts[i].hash == Hash(name) {
      SpelledIs(elts[i].key, name);
    }
  }

  lemma ExactMeans(keys: seq<Name>, elts: seq<HashLayout.Elt>, name: string, v: nat)
    requires ExactFor(keys, elts) && ExactHash.FirstMatch(elts, |elts|, name, v)
    ensures ExactAnswer(keys, name, if v == 0 then None else Some(v))
  {
    forall i | 0 <= i < |keys| ensures ExactHash.Match(elts[i], name) <==> keys[i].key == name {
      SpelledIs(elts[i].key, name);
    }
    if v == 0 {
      forall i | 0 <= i < |keys| ensures keys[i].key != name { assert !ExactHash.Match(elts[i], name); }
    } else {
      var i :| 0 <= i < |elts| && ExactHash.Match(elts[i], name) && v == elts[i].value;
      assert keys[i].key == name;
    }
  }

  /** Exact names first; then, unless the name is empty, wildcards in front; then wildcards at the end. */
  ghost predicate Answers(ha: KeysArrays, name: string, r: Option<Value>)
    reads ha
  {
    if r.Some? && ExactAnswer(ha.keys, name, r) then true
    else ExactAnswer(ha.keys, name, None) && if name == "" then r == None else WildAnswers(ha, name, r)
  }

  ghost predicate WildAnswers(ha: KeysArrays, name: string, r: Option<Value>)
    reads ha
  {
    if r.Some? && HeadAnswer(ha.head, ha.bases, name, r) then true
    else HeadAnswer(ha.head, ha.bases, name, None) && OpenAnswer(ha.tail, name, r)
  }

  /** Found along the table, or nothing where there is no table. */
  method InHead(ghost ha: KeysArrays, ghost names: seq<Name>, w: Option<Wild>, name: string) returns (r: Option<Value>)
    requires ha.Valid() && TableFor(ha.head, names, w)
    ensures HeadAnswer(ha.head, ha.bases, name, r)
  {
    assert HeadsFor(ha.head, ha.bases);
    if w.None? {
      return None;
    }
    r := FindHead(w.value, name);
    FindRight(Keys(names), None, FromRight(name));
    HeadMeaning(ha.head, ha.bases, names, name, r);
  }

  method InTail(ghost ha: KeysArrays, ghost names: seq<Name>, w: Option<Wild>, name: string) returns (r: Option<Value>)
    requires ha.Valid() && TableFor(ha.tail, names, w)
    ensures OpenAnswer(ha.tail, name, r)
  {
    if w.None? {
      return None;
    }
    r := FindInTail(w.value, name);
    TailSorted(names, ha.tail);
    TailRight(Keys(names), Split(name));
    OpenMeaning(ha.tail, names, name, r);
  }

  method InExact(ghost ha: KeysArrays, ghost elts: seq<HashLayout.Elt>, table: ExactHash.HashTable, name: string)
    returns (r: Option<Value>)
    requires ExactFor(ha.keys, elts)
    requires if ha.keys == [] then table.buckets == [] else ExactHash.Built(table.mem, table.buckets, elts, table.size)
    ensures ExactAnswer(ha.keys, name, r)
  {
    if table.buckets == [] {
      return None;
    }
    ExactConsistent(ha.keys, elts, name);
    var v := table.Find(elts, Hash(name), name);
    ExactMeans(ha.keys, elts, name, v);
    r := if v == 0 then None else Some(v);
  }

  /** ngx_hash_find_combined (ngx_hash.c:210-244), on the hashes made of the keys that ngx_hash_add_key accepted. */
  method FindCombined(ghost ha: KeysArrays, ghost elts: seq<HashLayout.Elt>, ghost heads: seq<Name>,
      ghost tails: seq<Name>, table: ExactHash.HashTable, head: Option<Wild>, tail: Option<Wild>, name: string)
    returns (r: Option<Value>)
    requires ha.Valid() && TableFor(ha.head, heads, head) && TableFor(ha.tail, tails, tail) && ExactFor(ha.keys, elts)
    requires if ha.keys == [] then table.buckets == [] else ExactHash.Built(table.mem, table.buckets, elts, table.size)
    ensures Answers(ha, name, r)
  {
    r := InExact(ha, elts, table, name);
    if r.Some? {
      return;
    }
    if |name| == 0 {
      return None;
    }
    r := InHead(ha, heads, head, name);
    if r.Some? {
      return;
    }
    r := InTail(ha, tails, tail, name);
  }

  /** The table of what was accepted, sorted; without characters up to the space its keys stand together. */
  method MakeHead(ha: KeysArrays, names: seq<Name>) returns (w: Option<Wild>)
    requires ha.Valid() && Sorted(names, ha.head) && (AllClean(names) || Together(Keys(names)))
    ensures TableFor(ha.head, names, w)
  {
    HeadLookup(ha, names);
    if ha.head == [] {
      return None;
    }
    var table := WildcardInit(names);
    w := Some(table);
  }

  method MakeTail(ha: KeysArrays, names: seq<Name>) returns (w: Option<Wild>)
    requires ha.Valid() && Sorted(names, ha.tail) && (AllClean(names) || Together(Keys(names)))
    ensures TableFor(ha.tail, names, w)
  {
    TailLookup(ha, names);
    if ha.tail == [] {
      return None;
    }
    var table := WildcardInit(names);
    w := Some(table);
  }
}
