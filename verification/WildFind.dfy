/** Wildcard lookup by name: ngx_hash_find_wc_head, ngx_hash_find_wc_tail and ngx_hash_find_combined of ngx_hash.c. */
module WildFind {
  import opened WildTable
  import opened WildLabels
  import opened WildHash

  function Reverse<T>(s: seq<T>): (r: seq<T>)
    ensures |r| == |s|
  {
    if s == [] then [] else Reverse(s[1..]) + [s[0]]
  }

  lemma {:induction false} ReverseJoin<T>(a: seq<T>, b: seq<T>)
    ensures Reverse(a + b) == Reverse(b) + Reverse(a)
  {
    if a == [] {
      assert a + b == b;
    } else {
      assert (a + b)[1..] == a[1..] + b;
      ReverseJoin(a[1..], b);
    }
  }

  /** The labels of a name from the right. */
  function FromRight(name: string): (r: Labels)
    ensures r != []
  {
    Reverse(Split(name))
  }

  /** ngx_hash_find_wc_head (ngx_hash.c:52-144) */
  method FindHead(w: Wild, name: string) returns (r: Option<Value>)
    ensures r == Find(w, FromRight(name))
    decreases |name|
  {
    var n: nat := |name|;
    while n > 0
      invariant n <= |name| && forall j :: n <= j < |name| ==> name[j] != '.'
    {
      if name[n - 1] == '.' {
        break;
      }
      n := n - 1;
    }
    RightLabel(name, n);
    var found := Lookup(w.entries, name[n..]);
    if found.None? {
      return w.value;
    }
    var slot := found.value;
    match slot.ptr
    case Table(sub) =>
      if n == 0 {
        return if slot.strict then None else sub.value;
      }
      r := FindHead(sub, name[..n - 1]);
      if r.None? {
        r := sub.value;
      }
    case Data(v) =>
      r := if slot.strict && n == 0 then None else Some(v);
  }

  /** The last label comes first, then those of what is in front of its dot. */
  lemma RightLabel(name: string, n: nat)
    requires n <= |name| && (forall j :: n <= j < |name| ==> name[j] != '.') && (n > 0 ==> name[n - 1] == '.')
    ensures FromRight(name) == if n == 0 then [name[n..]] else [name[n..]] + FromRight(name[..n - 1])
  {
    SplitLast(name, n);
    if n == 0 {
      assert name[0..] == name;
      assert [name][1..] == [];
    } else {
      ReverseJoin(Split(name[..n - 1]), [name[n..]]);
      assert [name[n..]][1..] == [];
    }
  }

  /** ngx_hash_find_wc_tail (ngx_hash.c:147-207) */
  method FindInTail(w: Wild, name: string) returns (r: Option<Value>)
    ensures r == FindTail(w, Split(name))
    decreases |name|
  {
    var i, dot := FirstLabel(name);
    SplitFirst(name);
    if !dot {
      return None;
    }
    assert Split(name) == [name[..i]] + Split(name[i + 1..]);
    var found := Lookup(w.entries, name[..i]);
    if found.None? {
      return w.value;
    }
    match found.value.ptr
    case Table(sub) =>
      r := FindInTail(sub, name[i + 1..]);
      if r.None? {
        r := sub.value;
      }
    case Data(v) => r := Some(v);
  }

  // Matching in terms of the names themselves

  function Join(ls: Labels): string
    requires ls != []
  {
    if |ls| == 1 then ls[0] else ls[0] + "." + Join(ls[1..])
  }

  lemma {:induction false} JoinSplit(s: string)
    ensures Join(Split(s)) == s
  {
    if s != "" {
      var r := Split(s[1..]);
      JoinSplit(s[1..]);
      assert s == [s[0]] + s[1..];
      if s[0] == '.' {
        assert Split(s)[1..] == r;
      } else {
        assert Split(s)[1..] == r[1..];
      }
    }
  }

  lemma {:induction false} JoinParts(a: Labels, b: Labels)
    requires a != [] && b != []
    ensures Join(a + b) == Join(a) + "." + Join(b)
  {
    if |a| == 1 {
      assert (a + b)[1..] == b;
    } else {
      assert (a + b)[1..] == a[1..] + b;
      JoinParts(a[1..], b);
    }
  }

  lemma {:induction false} SplitParts(a: string, b: string)
    ensures Split(a + "." + b) == Split(a) + Split(b)
  {
    var s := a + "." + b;
    if a == "" {
      assert s[1..] == b;
    } else {
      assert s[1..] == a[1..] + "." + b;
      SplitParts(a[1..], b);
    }
  }

  predicate EndsWith(s: string, t: string) { |t| <= |s| && s[|s| - |t|..] == t }

  /** `b` is the end of the label list `a`, with something in front. */
  ghost predicate LastOf(b: Labels, a: Labels) { |b| < |a| && a[|a| - |b|..] == b }

  lemma LastThenEnds(x: string, name: string)
    requires LastOf(Split(x), Split(name))
    ensures EndsWith(name, "." + x)
  {
    var a, b := Split(name), Split(x);
    var front := a[..|a| - |b|];
    assert a == front + b;
    JoinParts(front, b);
    JoinSplit(name);
    JoinSplit(x);
    Ends(Join(front), x, name);
  }

  lemma Ends(f: string, x: string, name: string)
    requires name == f + "." + x
    ensures EndsWith(name, "." + x)
  {
    assert name == f + ("." + x);
  }

  lemma EndsThenLast(x: string, name: string)
    requires EndsWith(name, "." + x)
    ensures LastOf(Split(x), Split(name))
  {
    var front := name[..|name| - |x| - 1];
    assert name == front + ("." + x);
    assert name == front + "." + x;
    SplitParts(front, x);
  }

  lemma LastLabels(x: string, name: string)
    ensures LastOf(Split(x), Split(name)) <==> EndsWith(name, "." + x)
  {
    if LastOf(Split(x), Split(name)) { LastThenEnds(x, name); }
    if EndsWith(name, "." + x) { EndsThenLast(x, name); }
  }

  lemma {:induction false} ReversePrefix<T>(b: seq<T>, a: seq<T>)
    ensures Reverse(b) <= Reverse(a) <==> |b| <= |a| && a[|a| - |b|..] == b
  {
    if |b| <= |a| {
      var front, back := a[..|a| - |b|], a[|a| - |b|..];
      assert a == front + back;
      ReverseJoin(front, back);
      assert Reverse(a)[..|b|] == Reverse(back);
      ReverseSame(b, back);
    }
  }

  lemma {:induction false} ReverseSame<T>(a: seq<T>, b: seq<T>)
    requires |a| == |b|
    ensures Reverse(a) == Reverse(b) <==> a == b
  {
    if a != [] {
      ReverseSame(a[1..], b[1..]);
      assert Reverse(a)[|a| - 1] == a[0] && Reverse(b)[|b| - 1] == b[0];
      assert Reverse(a)[..|a| - 1] == Reverse(a[1..]) && Reverse(b)[..|b| - 1] == Reverse(b[1..]);
      assert a == [a[0]] + a[1..] && b == [b[0]] + b[1..];
    }
  }

  /** ".x" stored for head lookup matches the name x and every name that ends with ".x". */
  lemma DotPattern(x: string, name: string)
    requires x != "" && x[0] != '.'
    ensures Matches(FromRight(x), FromRight(name)) <==> name == x || EndsWith(name, "." + x)
  {
    var a, b := Split(name), Split(x);
    assert b[0] != "";
    ReverseLast(b);
    ReversePrefix(b, a);
    LastLabels(x, name);
    JoinSplit(name);
    JoinSplit(x);
    if |a| == |b| { assert a[0..] == a; }
  }

  lemma ReverseLast<T>(s: seq<T>)
    requires s != []
    ensures Reverse(s)[|s| - 1] == s[0]
  {}

  /** "*.x" matches every name that ends with ".x", and not x itself. */
  lemma StarPattern(x: string, name: string)
    ensures Matches(FromRight(x) + [""], FromRight(name)) <==> EndsWith(name, "." + x)
  {
    var a, b := Split(name), Split(x);
    assert Star(FromRight(x) + [""]) && Base(FromRight(x) + [""]) == FromRight(x);
    ReversePrefix(b, a);
    LastLabels(x, name);
  }

  /** "x.*" matches every name that begins with "x.". */
  lemma TailPattern(x: string, name: string)
    ensures TailMatches(Split(x), Split(name)) <==> HasPrefix(name, x + ".")
  {
    var a, b := Split(name), Split(x);
    if TailMatches(b, a) {
      var back := a[|b|..];
      assert a == b + back;
      JoinParts(b, back);
      JoinSplit(name);
      JoinSplit(x);
      assert name == (x + ".") + Join(back);
    }
    if HasPrefix(name, x + ".") {
      var back := name[|x| + 1..];
      assert name == x + "." + back;
      SplitParts(x, back);
    }
  }
}
