/** Which keys ngx_hash_add_key refuses, told from the keys given before. */
module WildGiven {
  import opened WildTable
  import opened WildLabels
  import opened WildHash
  import opened WildFind
  import opened WildKeys

  /** A key given, with wildcards allowed, and the answer. */
  datatype Given = Given(key: string, rc: Status)

  /** What the key is about: x of x, ".x", "*.x" and "x.*". */
  function Subject(key: string): string {
    match KindOf(key)
    case Dotted => key[1..]
    case Starred => key[2..]
    case Open => key[..|key| - 2]
    case _ => key
  }

  /** ".x" stands for x and for "*.x"; otherwise only keys of one kind are in each other's way. */
  predicate Meet(k: Kind, l: Kind) {
    && k != Malformed && l != Malformed
    && (k == l || (k == Dotted && (l == Plain || l == Starred)) || (l == Dotted && (k == Plain || k == Starred)))
  }

  ghost predicate Clash(a: string, b: string) { Meet(KindOf(a), KindOf(b)) && SameName(Subject(a), Subject(b)) }

  /** An accepted key is in the way. */
  ghost predicate Blocked(before: seq<Given>, key: string) {
    exists j :: 0 <= j < |before| && before[j].rc == Ok && Clash(before[j].key, key)
  }

  /** A key ".x" has been given, accepted or not. */
  ghost predicate Claimed(before: seq<Given>, x: string) {
    exists j :: 0 <= j < |before| && KindOf(before[j].key) == Dotted && SameName(Subject(before[j].key), x)
  }

  /**
   * Refused are the keys that an accepted key is in the way of, and one more: a plain name x after ".x", even if ".x"
   * was itself refused.
   */
  ghost predicate Outcome(before: seq<Given>, g: Given) {
    && (g.rc == Declined <==> KindOf(g.key) == Malformed)
    && (g.rc == Busy <==> Blocked(before, g.key) || (KindOf(g.key) == Plain && Claimed(before, g.key)))
  }

  ghost predicate Outcomes(given: seq<Given>) { forall i :: 0 <= i < |given| ==> Outcome(given[..i], given[i]) }

  // What the small hashes hold

  ghost predicate MarksExact(g: Given, t: string) {
    LowerAll(Subject(g.key)) == t && (KindOf(g.key) == Dotted || (KindOf(g.key) == Plain && g.rc == Ok))
  }

  ghost predicate MarksHead(g: Given, t: string) {
    LowerAll(Subject(g.key)) == t && g.rc == Ok && (KindOf(g.key) == Dotted || KindOf(g.key) == Starred)
  }

  ghost predicate MarksTail(g: Given, t: string) {
    LowerAll(Subject(g.key)) + "." == t && g.rc == Ok && KindOf(g.key) == Open
  }

  ghost predicate HoldsExact(given: seq<Given>, seen: seq<seq<string>>) {
    forall t :: Seen(seen, t) <==> exists j :: 0 <= j < |given| && MarksExact(given[j], t)
  }

  ghost predicate HoldsHead(given: seq<Given>, seen: seq<seq<string>>) {
    forall t :: Seen(seen, t) <==> exists j :: 0 <= j < |given| && MarksHead(given[j], t)
  }

  ghost predicate HoldsTail(given: seq<Given>, seen: seq<seq<string>>) {
    forall t :: Seen(seen, t) <==> exists j :: 0 <= j < |given| && MarksTail(given[j], t)
  }

  lemma PartIsSubject(key: string)
    ensures Parted(key, KindOf(key), false) == LowerAll(Subject(key))
  {}

  lemma ExactMore(given: seq<Given>, g: Given, seen: seq<seq<string>>, seen': seq<seq<string>>)
    requires HoldsExact(given, seen)
    requires g.rc == Busy && KindOf(g.key) == Plain ==> Seen(seen, LowerAll(Subject(g.key)))
    requires KindOf(g.key) == Plain ==> g.rc != Declined
    requires Marked(seen, seen', KindOf(g.key) == Plain || KindOf(g.key) == Dotted, LowerAll(Subject(g.key)))
    ensures HoldsExact(given + [g], seen')
  {
    var more := given + [g];
    assert OpenGains(0);
    forall t ensures Seen(seen', t) <==> exists j :: 0 <= j < |more| && MarksExact(more[j], t) {
      if Seen(seen, t) {
        var j :| 0 <= j < |given| && MarksExact(given[j], t);
        assert MarksExact(more[j], t);
      } else if Seen(seen', t) {
        assert MarksExact(more[|given|], t);
      }
      if j :| 0 <= j < |more| && MarksExact(more[j], t) {
        if j < |given| { assert MarksExact(given[j], t); }
      }
    }
  }

  lemma HeadMore(given: seq<Given>, g: Given, seen: seq<seq<string>>, seen': seq<seq<string>>)
    requires HoldsHead(given, seen)
    requires Marked(seen, seen', g.rc == Ok && (KindOf(g.key) == Dotted || KindOf(g.key) == Starred),
      LowerAll(Subject(g.key)))
    ensures HoldsHead(given + [g], seen')
  {
    var more := given + [g];
    assert OpenGains(0);
    forall t ensures Seen(seen', t) <==> exists j :: 0 <= j < |more| && MarksHead(more[j], t) {
      if Seen(seen, t) {
        var j :| 0 <= j < |given| && MarksHead(given[j], t);
        assert MarksHead(more[j], t);
      } else if Seen(seen', t) {
        assert MarksHead(more[|given|], t);
      }
      if j :| 0 <= j < |more| && MarksHead(more[j], t) {
        if j < |given| { assert MarksHead(given[j], t); }
      }
    }
  }

  lemma TailMore(given: seq<Given>, g: Given, seen: seq<seq<string>>, seen': seq<seq<string>>)
    requires HoldsTail(given, seen) && (KindOf(g.key) == Open ==> g.rc != Declined)
    requires g.rc == Busy && KindOf(g.key) == Open ==> Seen(seen, LowerAll(Subject(g.key)) + ".")
    requires Marked(seen, seen', KindOf(g.key) == Open, LowerAll(Subject(g.key)) + ".")
    ensures HoldsTail(given + [g], seen')
  {
    var more := given + [g];
    assert OpenGains(0);
    forall t ensures Seen(seen', t) <==> exists j :: 0 <= j < |more| && MarksTail(more[j], t) {
      if Seen(seen, t) {
        var j :| 0 <= j < |given| && MarksTail(given[j], t);
        assert MarksTail(more[j], t);
      } else if Seen(seen', t) {
        assert MarksTail(more[|given|], t);
      }
      if j :| 0 <= j < |more| && MarksTail(more[j], t) {
        if j < |given| { assert MarksTail(given[j], t); }
      }
    }
  }

  // What that means for the next key

  lemma Same3(a: string, b: string, c: string)
    requires SameName(a, b) && SameName(b, c)
    ensures SameName(a, c)
  {
    SameLowered(a, b);
    SameLowered(b, c);
    SameLowered(a, c);
  }

  ghost predicate PlainIn(given: seq<Given>, x: string) {
    exists j :: 0 <= j < |given| && given[j].rc == Ok && KindOf(given[j].key) == Plain && SameName(given[j].key, x)
  }

  ghost predicate IsHead(g: Given, x: string) {
    g.rc == Ok && (KindOf(g.key) == Dotted || KindOf(g.key) == Starred) && SameName(Subject(g.key), x)
  }

  ghost predicate HeadIn(given: seq<Given>, x: string) { exists j :: 0 <= j < |given| && IsHead(given[j], x) }

  ghost predicate IsOpen(g: Given, x: string) {
    g.rc == Ok && KindOf(g.key) == Open && SameName(Subject(g.key), x)
  }

  ghost predicate OpenIn(given: seq<Given>, x: string) { exists j :: 0 <= j < |given| && IsOpen(given[j], x) }

  lemma ExactMeans(given: seq<Given>, seen: seq<seq<string>>, x: string)
    requires HoldsExact(given, seen)
    ensures Seen(seen, LowerAll(x)) <==> Claimed(given, x) || PlainIn(given, x)
  {
    forall j | 0 <= j < |given| ensures SameName(Subject(given[j].key), x) <==>
      LowerAll(Subject(given[j].key)) == LowerAll(x) {
      SameLowered(Subject(given[j].key), x);
    }
    if Seen(seen, LowerAll(x)) {
      var j :| 0 <= j < |given| && MarksExact(given[j], LowerAll(x));
      assert SameName(Subject(given[j].key), x);
    }
    if Claimed(given, x) {
      var j :| 0 <= j < |given| && KindOf(given[j].key) == Dotted && SameName(Subject(given[j].key), x);
      assert MarksExact(given[j], LowerAll(x));
    }
    if j :| 0 <= j < |given| && given[j].rc == Ok && KindOf(given[j].key) == Plain && SameName(given[j].key, x) {
      assert SameName(Subject(given[j].key), x);
      assert MarksExact(given[j], LowerAll(x));
    }
  }

  lemma HeadMeans(given: seq<Given>, seen: seq<seq<string>>, x: string)
    requires HoldsHead(given, seen)
    ensures Seen(seen, LowerAll(x)) <==> HeadIn(given, x)
  {
    forall j | 0 <= j < |given| ensures SameName(Subject(given[j].key), x) <==>
      LowerAll(Subject(given[j].key)) == LowerAll(x) {
      SameLowered(Subject(given[j].key), x);
    }
    if Seen(seen, LowerAll(x)) {
      var j :| 0 <= j < |given| && MarksHead(given[j], LowerAll(x));
      assert IsHead(given[j], x);
    }
    if j :| 0 <= j < |given| && IsHead(given[j], x) {
      assert MarksHead(given[j], LowerAll(x));
    }
  }

  lemma TailMeans(given: seq<Given>, seen: seq<seq<string>>, x: string)
    requires HoldsTail(given, seen)
    ensures Seen(seen, LowerAll(x) + ".") <==> OpenIn(given, x)
  {
    forall j | 0 <= j < |given| ensures SameName(Subject(given[j].key), x) <==>
      LowerAll(Subject(given[j].key)) + "." == LowerAll(x) + "." {
      SameLowered(Subject(given[j].key), x);
      WithDot(LowerAll(Subject(given[j].key)), LowerAll(x));
    }
    if Seen(seen, LowerAll(x) + ".") {
      var j :| 0 <= j < |given| && MarksTail(given[j], LowerAll(x) + ".");
      assert IsOpen(given[j], x);
    }
    if j :| 0 <= j < |given| && IsOpen(given[j], x) {
      assert MarksTail(given[j], LowerAll(x) + ".");
    }
  }

  lemma WithDot(a: string, b: string)
    ensures a + "." == b + "." <==> a == b
  {
    if a + "." == b + "." {
      assert a == (a + ".")[..|a + "."| - 1] == (b + ".")[..|b + "."| - 1] == b;
    }
  }

  /** A key ".x" given and refused has an accepted key in its way, which is in the way of this one too. */
  lemma ClaimBlocks(given: seq<Given>, key: string)
    requires Outcomes(given) && KindOf(key) == Dotted && Claimed(given, Subject(key))
    ensures Blocked(given, key)
  {
    var j :| 0 <= j < |given| && KindOf(given[j].key) == Dotted && SameName(Subject(given[j].key), Subject(key));
    assert Outcome(given[..j], given[j]);
    if given[j].rc == Ok {
      assert Clash(given[j].key, key);
    } else {
      var before := given[..j];
      var i :| 0 <= i < |before| && before[i].rc == Ok && Clash(before[i].key, given[j].key);
      assert before[i] == given[i];
      Same3(Subject(given[i].key), Subject(given[j].key), Subject(key));
      assert Clash(given[i].key, key);
    }
  }

  lemma AcceptedBlocks(given: seq<Given>, key: string)
    ensures (KindOf(key) == Plain || KindOf(key) == Dotted) && PlainIn(given, Subject(key)) ==> Blocked(given, key)
    ensures (KindOf(key) == Dotted || KindOf(key) == Starred) && HeadIn(given, Subject(key)) ==> Blocked(given, key)
    ensures KindOf(key) == Open && OpenIn(given, Subject(key)) ==> Blocked(given, key)
  {
    var x := Subject(key);
    if j :| 0 <= j < |given| && given[j].rc == Ok && KindOf(given[j].key) == Plain && SameName(given[j].key, x) {
      if KindOf(key) == Plain || KindOf(key) == Dotted { assert Clash(given[j].key, key); }
    }
    if j :| 0 <= j < |given| && IsHead(given[j], x) {
      if KindOf(key) == Dotted || KindOf(key) == Starred { assert Clash(given[j].key, key); }
    }
    if j :| 0 <= j < |given| && IsOpen(given[j], x) {
      if KindOf(key) == Open { assert Clash(given[j].key, key); }
    }
  }

  lemma ConflictMeans(given: seq<Given>, key: string, keys: seq<seq<string>>, head: seq<seq<string>>,
      tail: seq<seq<string>>)
    requires Outcomes(given) && HoldsExact(given, keys) && HoldsHead(given, head) && HoldsTail(given, tail)
    ensures KindOf(key) == Plain ==> (Seen(keys, LowerAll(key)) <==> Blocked(given, key) || Claimed(given, key))
    ensures KindOf(key) == Dotted ==>
      (Seen(keys, LowerAll(Subject(key))) || Seen(head, LowerAll(Subject(key))) <==> Blocked(given, key))
    ensures KindOf(key) == Starred ==> (Seen(head, LowerAll(Subject(key))) <==> Blocked(given, key))
    ensures KindOf(key) == Open ==> (Seen(tail, LowerAll(Subject(key)) + ".") <==> Blocked(given, key))
  {
    var x := Subject(key);
    ExactMeans(given, keys, x);
    HeadMeans(given, head, x);
    TailMeans(given, tail, x);
    if KindOf(key) == Dotted && Claimed(given, x) { ClaimBlocks(given, key); }
    if Blocked(given, key) {
      var j :| 0 <= j < |given| && given[j].rc == Ok && Clash(given[j].key, key);
      var g := given[j];
      assert SameName(Subject(g.key), x);
      if KindOf(g.key) == Dotted { assert Claimed(given, x); }
      if KindOf(g.key) == Dotted || KindOf(g.key) == Starred { assert IsHead(g, x); }
      if KindOf(g.key) == Open { assert IsOpen(g, x); }
    }
    AcceptedBlocks(given, key);
  }

  ghost predicate Kept(ha: KeysArrays, given: seq<Given>)
    reads ha
  {
    && ha.Valid() && Outcomes(given)
    && HoldsExact(given, ha.keysHash) && HoldsHead(given, ha.headHash) && HoldsTail(given, ha.tailHash)
  }

  /** One more key. */
  method Give(ha: KeysArrays, ghost given: seq<Given>, key: string, value: Value) returns (rc: Status)
    requires Kept(ha, given)
    modifies ha`keys, ha`head, ha`tail, ha`bases, ha`keysHash, ha`headHash, ha`tailHash
    ensures Kept(ha, given + [Given(key, rc)]) && Outcome(given, Given(key, rc))
  {
    ghost var keys, head, tail := ha.keysHash, ha.headHash, ha.tailHash;
    ConflictMeans(given, key, keys, head, tail);
    PartIsSubject(key);
    rc := ha.AddKey(key, value, true, false);
    ghost var g := Given(key, rc);
    ExactMore(given, g, keys, ha.keysHash);
    HeadMore(given, g, head, ha.headHash);
    TailMore(given, g, tail, ha.tailHash);
    OutcomesMore(given, g);
  }

  lemma OutcomesMore(given: seq<Given>, g: Given)
    requires Outcomes(given) && Outcome(given, g)
    ensures Outcomes(given + [g])
  {
    var more := given + [g];
    forall i | 0 <= i < |more| ensures Outcome(more[..i], more[i]) {
      if i < |given| { assert more[..i] == given[..i]; } else { assert more[..i] == given; }
    }
  }

  /** Whatever keys are given, from the beginning on, the answers follow from the keys given before. */
  method GiveAll(ks: seq<(string, Value)>, large: bool) returns (ha: KeysArrays, given: seq<Given>)
    ensures fresh(ha) && ha.Valid() && |given| == |ks| && Outcomes(given)
    ensures forall i :: 0 <= i < |ks| ==> given[i].key == ks[i].0
  {
    ha := new KeysArrays(large);
    given := [];
    var i := 0;
    while i < |ks|
      invariant 0 <= i <= |ks| && fresh(ha) && Kept(ha, given) && |given| == i
      invariant forall j :: 0 <= j < i ==> given[j].key == ks[j].0
    {
      var rc := Give(ha, given, ks[i].0, ks[i].1);
      given := given + [Given(ks[i].0, rc)];
      i := i + 1;
    }
  }

  /** After "*.a" and ".a", which is refused for it, "a" is refused as well, though no accepted key is in its way. */
  method RefusedClaims() returns (given: seq<Given>)
    ensures Outcomes(given) && given == [Given("*.a", Ok), Given(".a", Busy), Given("a", Busy)]
    ensures !Blocked(given[..2], "a")
  {
    var ha;
    ha, given := GiveAll([("*.a", 1), (".a", 2), ("a", 3)], false);
    ThreeKinds();
    assert given[0].key == "*.a" && given[1].key == ".a" && given[2].key == "a";
    assert Outcome(given[..0], given[0]) && Outcome(given[..1], given[1]) && Outcome(given[..2], given[2]);
    SameLowered("a", "a");
    assert Clash(given[..1][0].key, ".a");
    assert SameName(Subject(given[..2][1].key), "a");
  }

  lemma ThreeKinds()
    ensures KindOf("*.a") == Starred && KindOf(".a") == Dotted && KindOf("a") == Plain
    ensures Subject("*.a") == "a" && Subject(".a") == "a" && Subject("a") == "a"
  {
    assert Stars("*.a"[1..]) == 0 && Stars(".a"[1..]) == 0;
    assert "*.a"[2..] == "a" && ".a"[1..] == "a";
  }
}
