/** What ngx_unescape_uri makes of what ngx_escape_uri has made, for every table and type. */
module UriRoundTrip {
  import opened UriEscape

  lemma LowDigits(t: Table, v: int)
    requires 0 <= v < 8
    ensures !Escapes(t, 48 + v)
  {
    match v {
      case 0 => assert !Escapes(t, 48);
      case 1 => assert !Escapes(t, 49);
      case 2 => assert !Escapes(t, 50);
      case 3 => assert !Escapes(t, 51);
      case 4 => assert !Escapes(t, 52);
      case 5 => assert !Escapes(t, 53);
      case 6 => assert !Escapes(t, 54);
      case 7 => assert !Escapes(t, 55);
    }
  }

  lemma HighDigits(t: Table, v: int)
    requires 8 <= v < 16
    ensures !Escapes(t, Hex(v))
  {
    match v {
      case 8 => assert !Escapes(t, 56);
      case 9 => assert !Escapes(t, 57);
      case 10 => assert !Escapes(t, 97);
      case 11 => assert !Escapes(t, 98);
      case 12 => assert !Escapes(t, 99);
      case 13 => assert !Escapes(t, 100);
      case 14 => assert !Escapes(t, 101);
      case 15 => assert !Escapes(t, 102);
    }
  }

  lemma HexPlain(t: Table, v: int)
    requires 0 <= v < 16
    ensures !Escapes(t, Hex(v))
  {
    if v < 8 { LowDigits(t, v); } else { HighDigits(t, v); }
  }

  /** The bitmap for NGX_ESCAPE_REFRESH leaves the percent sign out, although its comment lists it. */
  lemma PercentEscaped(t: Table)
    ensures Escapes(t, PERCENT) <==> t != Refresh
  {}

  /** What one more byte makes. */
  lemma OneByte(k: Kind, st: Scan, c: Byte, rest: Bytes)
    requires Proper(st)
    ensures var e := On(k, st, c);
      Written(k, st, [c] + rest) == if e.stop then e.out else e.out + Written(k, e.next, rest)
  {
    assert ([c] + rest)[1..] == rest;
  }

  lemma TwoPlain(k: Kind, x: Byte, y: Byte, rest: Bytes)
    requires x !in {PERCENT, QUESTION} && y !in {PERCENT, QUESTION}
    ensures Written(k, Usual, [x] + ([y] + rest)) == [x, y] + Written(k, Usual, rest)
  {
    OneByte(k, Usual, x, [y] + rest);
    OneByte(k, Usual, y, rest);
    assert [x] + ([y] + Written(k, Usual, rest)) == [x, y] + Written(k, Usual, rest);
  }

  /** What an escape makes: its value or its spelling, and whether that is the end. */
  function Decoded(k: Kind, v: int, x: Byte, y: Byte): Effect
    requires 0 <= v < 256
  {
    if v == QUESTION && Halts(k) then Effect([v], true, Usual) else Effect(Shown(k, v, x, y), false, Usual)
  }

  lemma TwoDigits(k: Kind, x: Byte, y: Byte, rest: Bytes)
    requires Digit(x) >= 0 && Digit(y) >= 0
    ensures var e := Decoded(k, Digit(x) * 16 + Digit(y), x, y);
      Written(k, Quoted, [x] + ([y] + rest)) == if e.stop then e.out else e.out + Written(k, Usual, rest)
  {
    OneByte(k, Quoted, x, [y] + rest);
    OneByte(k, Second(Digit(x), x), y, rest);
    SecondShown(k, Digit(x), x, y);
  }

  /** What the escape of a byte makes, in each state. */
  function OfCode(k: Kind, st: Scan, c: Byte): Effect {
    match st
    case Usual => Decoded(k, c, Hex(c / 16), Hex(c % 16))
    case Quoted => Effect([PERCENT, Hex(c / 16), Hex(c % 16)], false, Usual)
    case Second(_, _) => Effect([Hex(c / 16), Hex(c % 16)], false, Usual)
  }

  lemma HexIsNot(v: int)
    requires 0 <= v < 16
    ensures Hex(v) != PERCENT && Hex(v) != QUESTION && Digit(Hex(v)) == v
  {}

  /** The percent sign starts an escape, or ends one that was not finished. */
  lemma PercentFirst(k: Kind, st: Scan, rest: Bytes)
    requires Proper(st)
    ensures Written(k, st, [PERCENT] + rest) ==
      match st
      case Usual => Written(k, Quoted, rest)
      case Quoted => [PERCENT] + Written(k, Usual, rest)
      case Second(_, _) => Written(k, Usual, rest)
  {
    OneByte(k, st, PERCENT, rest);
  }

  lemma ThreeUsual(k: Kind, x: Byte, y: Byte, rest: Bytes)
    requires Digit(x) >= 0 && Digit(y) >= 0
    ensures var e := Decoded(k, Digit(x) * 16 + Digit(y), x, y);
      Written(k, Usual, [PERCENT] + ([x] + ([y] + rest))) == if e.stop then e.out else e.out + Written(k, Usual, rest)
  {
    PercentFirst(k, Usual, [x] + ([y] + rest));
    TwoDigits(k, x, y, rest);
  }

  lemma ThreeOther(k: Kind, st: Scan, x: Byte, y: Byte, rest: Bytes)
    requires Proper(st) && st != Usual && x !in {PERCENT, QUESTION} && y !in {PERCENT, QUESTION}
    ensures Written(k, st, [PERCENT] + ([x] + ([y] + rest))) == (if st == Quoted then [PERCENT, x, y]
      else [x, y]) + Written(k, Usual, rest)
  {
    PercentFirst(k, st, [x] + ([y] + rest));
    TwoPlain(k, x, y, rest);
    Assoc([PERCENT], [x, y], Written(k, Usual, rest));
    assert [PERCENT] + [x, y] == [PERCENT, x, y];
  }

  lemma ThreeBytes(k: Kind, st: Scan, c: Byte, rest: Bytes)
    requires Proper(st)
    ensures var e := OfCode(k, st, c);
      Written(k, st, [PERCENT, Hex(c / 16), Hex(c % 16)] + rest) == if e.stop then e.out
        else e.out + Written(k, Usual, rest)
  {
    var x, y := Hex(c / 16), Hex(c % 16);
    HexIsNot(c / 16);
    HexIsNot(c % 16);
    assert [PERCENT, x, y] + rest == [PERCENT] + ([x] + ([y] + rest));
    if st == Usual {
      assert Digit(x) * 16 + Digit(y) == c;
      ThreeUsual(k, x, y, rest);
    } else {
      ThreeOther(k, st, x, y, rest);
    }
  }

  /** What is made of an escaped text. */
  function Back(k: Kind, t: Table, st: Scan, s: Bytes): Bytes
    requires Proper(st)
  {
    Written(k, st, Escaped(t, s))
  }

  /** What is made of the escaped form of one byte. */
  function Of(k: Kind, t: Table, st: Scan, c: Byte): (e: Effect)
    requires Proper(st)
    ensures Proper(e.next)
  {
    if Escapes(t, c) then OfCode(k, st, c) else On(k, st, c)
  }

  lemma BackStep(k: Kind, t: Table, st: Scan, s: Bytes)
    requires Proper(st) && s != []
    ensures var e := Of(k, t, st, s[0]);
      Back(k, t, st, s) == if e.stop then e.out else e.out + Back(k, t, e.next, s[1..])
  {
    var rest := Escaped(t, s[1..]);
    if Escapes(t, s[0]) { ThreeBytes(k, st, s[0], rest); } else { OneByte(k, st, s[0], rest); }
  }

  // Where percent signs are escaped, or there are none

  /** What a byte becomes on the way there and back. */
  function Image(k: Kind, t: Table, c: Byte): Bytes {
    if Escapes(t, c) then Shown(k, c, Hex(c / 16), Hex(c % 16)) else [c]
  }

  /** What a text becomes: up to a question mark, for the types that end there. */
  function Taken(k: Kind, t: Table, s: Bytes): Bytes {
    if s == [] then []
    else if s[0] == QUESTION && Halts(k) then [QUESTION]
    else Image(k, t, s[0]) + Taken(k, t, s[1..])
  }

  lemma {:induction false} BackIsTaken(k: Kind, t: Table, s: Bytes)
    requires t != Refresh || PERCENT !in s
    ensures Back(k, t, Usual, s) == Taken(k, t, s)
  {
    if s != [] {
      BackStep(k, t, Usual, s);
      PercentEscaped(t);
      BackIsTaken(k, t, s[1..]);
    }
  }

  /** No byte but the last one is a question mark. */
  predicate OnlyLast(s: Bytes) { forall i :: 0 <= i < |s| - 1 ==> s[i] != QUESTION }

  lemma ImageIsNot(k: Kind, t: Table, c: Byte)
    requires c != QUESTION
    ensures QUESTION !in Image(k, t, c) && |Image(k, t, c)| > 0
  {
    HexIsNot(c / 16);
    HexIsNot(c % 16);
  }

  lemma {:induction false} TakenOnce(k: Kind, t: Table, s: Bytes)
    requires Halts(k)
    ensures OnlyLast(Taken(k, t, s))
  {
    if s != [] && s[0] != QUESTION {
      TakenOnce(k, t, s[1..]);
      ImageIsNot(k, t, s[0]);
    }
  }

  /** Each byte comes back as itself. */
  predicate Faithful(k: Kind, t: Table, s: Bytes) { forall i :: 0 <= i < |s| ==> Image(k, t, s[i]) == [s[i]] }

  lemma ImageSize(k: Kind, t: Table, c: Byte)
    ensures Image(k, t, c) == [c] || |Image(k, t, c)| == 3
    ensures Image(k, t, QUESTION) == [QUESTION]
  {}

  lemma RestLast(s: Bytes)
    requires s != [] && OnlyLast(s)
    ensures OnlyLast(s[1..]) && (s[0] == QUESTION ==> s == [s[0]])
  {
    forall i | 0 <= i < |s[1..]| - 1 ensures s[1..][i] != QUESTION { assert s[1..][i] == s[i + 1]; }
  }

  lemma FaithfulRest(k: Kind, t: Table, s: Bytes)
    requires s != []
    ensures Faithful(k, t, s) <==> Image(k, t, s[0]) == [s[0]] && Faithful(k, t, s[1..])
  {
    var rest := s[1..];
    assert forall i :: 0 <= i < |rest| ==> rest[i] == s[i + 1];
    assert forall i :: 0 < i < |s| ==> s[i] == rest[i - 1];
  }

  lemma {:induction false} TakenSame(k: Kind, t: Table, s: Bytes)
    requires (Halts(k) ==> OnlyLast(s)) && Faithful(k, t, s)
    ensures Taken(k, t, s) == s
  {
    if s != [] {
      FaithfulRest(k, t, s);
      if Halts(k) { RestLast(s); }
      TakenSame(k, t, s[1..]);
      assert s == [s[0]] + s[1..];
    }
  }

  lemma {:induction false} TakenLonger(k: Kind, t: Table, s: Bytes)
    requires Halts(k) ==> OnlyLast(s)
    ensures |Taken(k, t, s)| >= |s| && (|Taken(k, t, s)| == |s| ==> Faithful(k, t, s))
  {
    if s != [] {
      FaithfulRest(k, t, s);
      ImageSize(k, t, s[0]);
      if Halts(k) { RestLast(s); }
      TakenLonger(k, t, s[1..]);
    }
  }

  function Percents(s: Bytes): nat {
    if s == [] then 0 else (if s[0] == PERCENT then 1 else 0) + Percents(s[1..])
  }

  lemma {:induction false} CountsJoin(t: Table, a: Bytes, b: Bytes)
    ensures Percents(a + b) == Percents(a) + Percents(b) && Count(t, a + b) == Count(t, a) + Count(t, b)
  {
    if a == [] {
      assert a + b == b;
    } else {
      assert (a + b)[1..] == a[1..] + b;
      CountsJoin(t, a[1..], b);
    }
  }

  lemma Counts1(t: Table, a: Byte, b: Bytes)
    ensures Percents([a] + b) == (if a == PERCENT then 1 else 0) + Percents(b)
    ensures Count(t, [a] + b) == (if Escapes(t, a) then 1 else 0) + Count(t, b)
  {
    assert ([a] + b)[1..] == b;
  }

  /**
   * At most p percent signs; if as many, at most q bytes that get escaped; if as many, n bytes less two for each
   * percent sign.
   */
  predicate Bounded(t: Table, f: Bytes, p: int, q: int, n: int) {
    Percents(f) <= p && (Percents(f) == p ==> Count(t, f) <= q && (Count(t, f) == q ==> |f| + 2 * p <= n))
  }

  /**
   * Where percent signs are not escaped, going there and back loses something for each: a percent sign comes out only
   * for one that went in as "%25", which takes two bytes, or in front of an escaped byte, which is then lost.
   */
  lemma {:induction false} BackBounded(k: Kind, s: Bytes, st: Scan)
    requires Proper(st) && !k.redirect
    ensures Bounded(Refresh, Back(k, Refresh, st, s), Percents(s) + Slack(st), Count(Refresh, s), |s| + Pending(st))
    decreases |s|
  {
    if s != [] {
      var c, rest := s[0], s[1..];
      assert s == [c] + rest;
      Counts1(Refresh, c, rest);
      BackStep(k, Refresh, st, s);
      var e := Of(k, Refresh, st, c);
      BackBounded(k, rest, e.next);
      if Escapes(Refresh, c) {
        CodeBounded(k, st, c, Back(k, Refresh, Usual, rest), Percents(rest), Count(Refresh, rest), |rest|);
      } else {
        ByteBounded(k, st, c, Back(k, Refresh, e.next, rest), Percents(rest), Count(Refresh, rest), |rest|);
      }
    }
  }

  /** One percent sign may be on its way. */
  function Slack(st: Scan): int { if st == Usual then 0 else 1 }

  lemma RefreshPlain()
    ensures !Escapes(Refresh, QUESTION) && !Escapes(Refresh, PERCENT)
  {}

  lemma CodeCounts(c: Byte)
    requires Escapes(Refresh, c)
    ensures var x, y := Hex(c / 16), Hex(c % 16);
      && Percents([c]) == 0 && Count(Refresh, [c]) == 1 && Percents([x, y]) == 0 && Count(Refresh, [x, y]) == 0
      && Percents([PERCENT, x, y]) == 1 && Count(Refresh, [PERCENT, x, y]) == 0
  {
    var x, y := Hex(c / 16), Hex(c % 16);
    RefreshPlain();
    HexIsNot(c / 16);
    HexIsNot(c % 16);
    HexPlain(Refresh, c / 16);
    HexPlain(Refresh, c % 16);
    assert [x, y] == [x] + [y] && [PERCENT, x, y] == [PERCENT] + ([x] + [y]) && [c] + [] == [c] && [y] + [] == [y];
    Counts1(Refresh, c, []);
    Counts1(Refresh, y, []);
    Counts1(Refresh, x, [y]);
    Counts1(Refresh, PERCENT, [x] + [y]);
  }

  lemma CodeOut(k: Kind, st: Scan, c: Byte)
    requires Escapes(Refresh, c) && !k.redirect
    ensures var e := OfCode(k, st, c);
      && !e.stop && e.next == Usual && Percents(e.out) == (if st == Quoted then 1 else 0)
      && Count(Refresh, e.out) == (if st == Usual then 1 else 0)
        && |e.out| == match st case Usual => 1 case Quoted => 3 case _ => 2
  {
    RefreshPlain();
    CodeCounts(c);
  }

  /** What an escaped byte adds, whatever the state: too few percent signs, or too few escaped bytes, or itself. */
  lemma CodeBounded(k: Kind, st: Scan, c: Byte, f: Bytes, p: nat, q: nat, n: nat)
    requires Escapes(Refresh, c) && !k.redirect && Bounded(Refresh, f, p, q, n)
    ensures Bounded(Refresh, OfCode(k, st, c).out + f, p + Slack(st), q + 1, n + 1 + Pending(st))
  {
    CodeOut(k, st, c);
    CountsJoin(Refresh, OfCode(k, st, c).out, f);
  }

  /**
   * One byte out, or none, and not an escaped one; a percent sign only at the second digit or for an unfinished escape.
   */
  lemma OutCounts(k: Kind, st: Scan, c: Byte)
    requires Proper(st) && !Escapes(Refresh, c) && !k.redirect
    ensures var e := On(k, st, c);
      && Percents(e.out) == (if e.out == [PERCENT] then 1 else 0) && |e.out| <= 1
      && (st == Usual ==> e.out == if c == PERCENT then [] else [c])
      && (st == Quoted ==> e.out == if Digit(c) >= 0 then [] else [c])
      && (!st.Second? ==> Count(Refresh, e.out) == 0)
      && (st.Second? ==> e.next == Usual) && (e.stop ==> e.out == [QUESTION] && e.next == Usual && st != Quoted)
  {
    var e := On(k, st, c);
    RefreshPlain();
    if e.out != [] {
      assert e.out == [e.out[0]] + [];
      Counts1(Refresh, e.out[0], []);
    }
  }

  /** A list that begins with a question mark and ends there has nothing to show for what follows. */
  lemma StopBounded(p: nat, q: nat, n: nat)
    ensures Bounded(Refresh, [QUESTION], p, q, n + 1)
  {
    OneCounts(QUESTION);
  }

  lemma ByteBounded(k: Kind, st: Scan, c: Byte, f: Bytes, p: nat, q: nat, n: nat)
    requires Proper(st) && !Escapes(Refresh, c) && !k.redirect
    requires var next := On(k, st, c).next; Bounded(Refresh, f, p + Slack(next), q, n + Pending(next))
    ensures var e := On(k, st, c);
      Bounded(Refresh, if e.stop then e.out
        else e.out + f, p + (if c == PERCENT then 1 else 0) + Slack(st), q, n + 1 + Pending(st))
  {
    var e := On(k, st, c);
    OutCounts(k, st, c);
    if e.stop {
      StopBounded(p + Slack(st), q, n + Pending(st));
    } else {
      CountsJoin(Refresh, e.out, f);
      OneCounts(PERCENT);
    }
  }

  lemma OneCounts(c: Byte)
    ensures Percents([c]) == (if c == PERCENT then 1 else 0)
      && Count(Refresh, [c]) == if Escapes(Refresh, c) then 1 else 0
  {
    assert [c] == [c] + [];
    Counts1(Refresh, c, []);
  }

  lemma {:induction false} NoPercents(s: Bytes)
    ensures Percents(s) == 0 <==> PERCENT !in s
  {
    if s != [] { NoPercents(s[1..]); }
  }

  /** Where percent signs are escaped or absent. */
  lemma SafeExactly(k: Kind, t: Table, s: Bytes)
    requires t != Refresh || PERCENT !in s
    ensures Back(k, t, Usual, s) == s <==> (Halts(k) ==> OnlyLast(s)) && Faithful(k, t, s)
  {
    BackIsTaken(k, t, s);
    if Halts(k) { TakenOnce(k, t, s); }
    if Halts(k) ==> OnlyLast(s) {
      TakenLonger(k, t, s);
      if Faithful(k, t, s) { TakenSame(k, t, s); }
    }
  }

  /** Escaping leaves nothing that the table escapes, except the percent signs it puts in. */
  lemma {:induction false} NothingLeft(t: Table, s: Bytes, i: nat)
    requires i < |Escaped(t, s)|
    ensures Escaped(t, s)[i] == PERCENT || !Escapes(t, Escaped(t, s)[i])
    decreases |s|
  {
    var c := s[0];
    HexPlain(t, c / 16);
    HexPlain(t, c % 16);
    if i >= |Code(t, c)| { NothingLeft(t, s[1..], i - |Code(t, c)|); }
  }

  // NGX_ESCAPE_REFRESH and NGX_UNESCAPE_REDIRECT

  /** An escape that NGX_UNESCAPE_REDIRECT leaves as it is spelled. */
  predicate Stays(x: Byte, y: Byte) { Digit(x) >= 0 && Digit(y) >= 0 && !(PERCENT < Digit(x) * 16 + Digit(y) < 127) }

  /** Every percent sign begins an escape that stays; escaped bytes come back; a question mark is the last byte. */
  predicate Kept(s: Bytes) {
    if s == [] then true
    else if s[0] == PERCENT then |s| >= 3 && Stays(s[1], s[2]) && Kept(s[3..])
    else (Escapes(Refresh, s[0]) ==> PERCENT < s[0] < 127) && (s[0] == QUESTION ==> |s| == 1) && Kept(s[1..])
  }

  /** The same from a state on. */
  predicate KeptFrom(st: Scan, s: Bytes) {
    match st
    case Usual => Kept(s)
    case Quoted => |s| >= 2 && Stays(s[0], s[1]) && Kept(s[2..])
    case Second(_, raw) => |s| >= 1 && Stays(raw, s[0]) && Kept(s[1..])
  }

  predicate Narrow(s: Bytes) { forall i :: 0 <= i < |s| && Escapes(Refresh, s[i]) ==> PERCENT < s[i] < 127 }

  /** A first digit that has been read as it stands. */
  predicate Raw(st: Scan) { st.Second? ==> st.value == Digit(st.raw) >= 0 && !Escapes(Refresh, st.raw) }

  lemma NarrowOut(st: Scan, c: Byte)
    requires Proper(st) && Raw(st)
    ensures var e := Of(REDIRECT, Refresh, st, c); Narrow(e.out) && Raw(e.next)
  {
    if Escapes(Refresh, c) { NarrowCode(st, c); } else { NarrowByte(st, c); }
  }

  lemma NarrowCode(st: Scan, c: Byte)
    requires Escapes(Refresh, c)
    ensures var e := OfCode(REDIRECT, st, c); Narrow(e.out) && Raw(e.next)
  {
    RefreshPlain();
    HexPlain(Refresh, c / 16);
    HexPlain(Refresh, c % 16);
  }

  lemma NarrowByte(st: Scan, c: Byte)
    requires Proper(st) && Raw(st) && !Escapes(Refresh, c)
    ensures var e := On(REDIRECT, st, c); Narrow(e.out) && Raw(e.next)
  {
    RefreshPlain();
    if st.Second? && Digit(c) >= 0 { SecondShown(REDIRECT, st.value, st.raw, c); }
  }

  /** Whatever goes in, no byte comes out that is escaped and would not come back. */
  lemma {:induction false} BackNarrow(s: Bytes, st: Scan)
    requires Proper(st) && Raw(st)
    ensures Narrow(Back(REDIRECT, Refresh, st, s))
    decreases |s|
  {
    if s != [] {
      BackStep(REDIRECT, Refresh, st, s);
      NarrowOut(st, s[0]);
      BackNarrow(s[1..], Of(REDIRECT, Refresh, st, s[0]).next);
    }
  }

  /**
   * At most p percent signs; if as many, at most q escaped bytes; if as many, at most n bytes; if as many, nothing is
   * lost.
   */
  predicate Tight(f: Bytes, p: int, q: int, n: int, kept: bool) {
    Percents(f) <= p
      && (Percents(f) == p ==> Count(Refresh, f) <= q && (Count(Refresh, f) == q ==> |f| <= n && (|f| == n ==> kept)))
  }

  lemma CodeTight(st: Scan, c: Byte, f: Bytes, p: nat, q: nat, n: nat, kept: bool)
    requires Escapes(Refresh, c) && PERCENT < c < 127 && Tight(f, p, q, n, kept)
    ensures var e := OfCode(REDIRECT, st, c);
      !e.stop && e.next == Usual && Tight(e.out + f, p + Slack(st), q + 1, n + 1 + Pending(st), st == Usual && kept)
  {
    RefreshPlain();
    CodeCounts(c);
    CountsJoin(Refresh, OfCode(REDIRECT, st, c).out, f);
  }

  /** Is nothing lost with this byte, if n bytes follow and nothing is lost with them? */
  predicate KeptStep(st: Scan, c: Byte, n: nat, kept: bool) {
    match st
    case Usual => if c == QUESTION then n == 0 else kept
    case Quoted => Digit(c) >= 0 && kept
    case Second(_, raw) => Stays(raw, c) && kept
  }

  lemma UsualTight(c: Byte, f: Bytes, p: nat, q: nat, n: nat, kept: bool)
    requires !Escapes(Refresh, c)
    requires var next := OnUsual(REDIRECT, c).next; Tight(f, p + Slack(next), q, n + Pending(next), kept)
    ensures var e := OnUsual(REDIRECT, c);
      Tight(if e.stop then e.out
        else e.out + f, p + (if c == PERCENT then 1 else 0), q, n + 1, KeptStep(Usual, c, n, kept))
  {
    var e := OnUsual(REDIRECT, c);
    OneCounts(c);
    CountsJoin(Refresh, e.out, f);
    if c == PERCENT { assert [] + f == f; }
  }

  lemma QuotedTight(c: Byte, f: Bytes, p: nat, q: nat, n: nat, kept: bool)
    requires !Escapes(Refresh, c)
    requires var next := OnQuoted(c).next; Tight(f, p + Slack(next), q, n + Pending(next), kept)
    ensures Tight(OnQuoted(c).out + f, p + (if c == PERCENT then 1 else 0) + 1, q, n + 2, KeptStep(Quoted, c, n, kept))
  {
    var e := OnQuoted(c);
    OneCounts(c);
    CountsJoin(Refresh, e.out, f);
    if Digit(c) >= 0 { assert [] + f == f; }
  }

  lemma ThreeCounts(x: Byte, y: Byte)
    requires !Escapes(Refresh, x) && !Escapes(Refresh, y) && x != PERCENT && y != PERCENT
    ensures Percents([PERCENT, x, y]) == 1 && Count(Refresh, [PERCENT, x, y]) == 0
  {
    RefreshPlain();
    assert [PERCENT, x, y] == [PERCENT] + ([x] + ([y] + []));
    Counts1(Refresh, y, []);
    Counts1(Refresh, x, [y] + []);
    Counts1(Refresh, PERCENT, [x] + ([y] + []));
  }

  lemma SecondTight(st: Scan, c: Byte, f: Bytes, p: nat, q: nat, n: nat, kept: bool)
    requires st.Second? && Proper(st) && Raw(st) && !Escapes(Refresh, c) && Tight(f, p, q, n, kept)
    ensures var e := OnSecond(REDIRECT, st.value, st.raw, c);
      Tight(if e.stop then e.out
        else e.out + f, p + (if c == PERCENT then 1 else 0) + 1, q, n + 3, KeptStep(st, c, n, kept))
  {
    var e := OnSecond(REDIRECT, st.value, st.raw, c);
    CountsJoin(Refresh, e.out, f);
    if Digit(c) < 0 {
      assert [] + f == f;
    } else {
      SecondShown(REDIRECT, st.value, st.raw, c);
      var v := st.value * 16 + Digit(c);
      if PERCENT < v < 127 { OneCounts(v); } else { ThreeCounts(st.raw, c); }
    }
  }

  lemma KeptIs(st: Scan, c: Byte, rest: Bytes)
    requires Proper(st) && Raw(st) && (Escapes(Refresh, c) ==> PERCENT < c < 127)
    ensures !Escapes(Refresh, c) && KeptStep(st, c, |rest|, KeptFrom(On(REDIRECT, st, c).next, rest)) ==>
      KeptFrom(st, [c] + rest)
    ensures Escapes(Refresh, c) && st == Usual && Kept(rest) ==> KeptFrom(st, [c] + rest)
  {
    var s := [c] + rest;
    RefreshPlain();
    assert s[1..] == rest;
    if |rest| >= 1 { assert s[2..] == rest[1..]; }
    if |rest| >= 2 { assert s[3..] == rest[2..]; }
  }

  /** Percent signs that come out are those that went in, and if none is lost, every one begins an escape that stays. */
  lemma {:induction false} BackTight(s: Bytes, st: Scan)
    requires Proper(st) && Raw(st) && Narrow(s)
    ensures Tight(Back(REDIRECT, Refresh, st, s), Percents(s) + Slack(st), Count(Refresh, s), |s| + Pending(st),
      KeptFrom(st, s))
    decreases |s|
  {
    if s != [] {
      var c, rest := s[0], s[1..];
      assert s == [c] + rest;
      Counts1(Refresh, c, rest);
      BackStep(REDIRECT, Refresh, st, s);
      var e := Of(REDIRECT, Refresh, st, c);
      NarrowOut(st, c);
      BackTight(rest, e.next);
      KeptIs(st, c, rest);
      TightStep(st, c, Back(REDIRECT, Refresh, e.next, rest), Percents(rest), Count(Refresh, rest), |rest|,
        KeptFrom(e.next, rest));
    }
  }

  lemma TightStep(st: Scan, c: Byte, f: Bytes, p: nat, q: nat, n: nat, kept: bool)
    requires Proper(st) && Raw(st) && (Escapes(Refresh, c) ==> PERCENT < c < 127)
    requires var next := Of(REDIRECT, Refresh, st, c).next; Tight(f, p + Slack(next), q, n + Pending(next), kept)
    ensures var e := Of(REDIRECT, Refresh, st, c);
      Tight(if e.stop then e.out else e.out + f, p + (if c == PERCENT then 1 else 0) + Slack(st),
            q + (if Escapes(Refresh, c) then 1 else 0), n + 1 + Pending(st),
            if Escapes(Refresh, c) then st == Usual && kept else KeptStep(st, c, n, kept))
  {
    if Escapes(Refresh, c) {
      CodeTight(st, c, f, p, q, n, kept);
    } else {
      match st
      case Usual => UsualTight(c, f, p, q, n, kept);
      case Quoted => QuotedTight(c, f, p, q, n, kept);
      case Second(_, _) => SecondTight(st, c, f, p, q, n, kept);
    }
  }

  lemma {:induction false} KeptBack(s: Bytes)
    requires Kept(s)
    ensures Back(REDIRECT, Refresh, Usual, s) == s
    decreases |s|
  {
    if s == [] {
    } else if s[0] == PERCENT {
      KeptBack(s[3..]);
      KeptThree(s);
    } else {
      KeptBack(s[1..]);
      BackStep(REDIRECT, Refresh, Usual, s);
      RefreshPlain();
      assert s == [s[0]] + s[1..];
    }
  }

  lemma DigitPlain(x: Byte)
    requires Digit(x) >= 0
    ensures !Escapes(Refresh, x) && x != PERCENT && x != QUESTION
  {
    if x <= 57 {
      assert x == Hex(x - 48);
      HexPlain(Refresh, x - 48);
    } else {
      LetterPlain(x);
    }
  }

  lemma LetterPlain(x: Byte)
    requires 97 <= Lowered(x) <= 102
    ensures !Escapes(Refresh, x)
  {
    assert x in [65, 66, 67, 68, 69, 70, 97, 98, 99, 100, 101, 102];
    if x >= 97 {
      assert x == Hex(x - 87);
      HexPlain(Refresh, x - 87);
    }
  }

  lemma KeptOn(st: Scan, s: Bytes, rest: Bytes, next: Scan)
    requires Proper(st) && Proper(next) && s != [] && rest == s[1..] && !Escapes(Refresh, s[0])
      && On(REDIRECT, st, s[0]) == Effect([], false, next)
    ensures Back(REDIRECT, Refresh, st, s) == Back(REDIRECT, Refresh, next, rest)
  {
    BackStep(REDIRECT, Refresh, st, s);
    assert [] + Back(REDIRECT, Refresh, next, rest) == Back(REDIRECT, Refresh, next, rest);
  }

  lemma KeptLast(x: Byte, y: Byte, s: Bytes, rest: Bytes)
    requires Stays(x, y) && s != [] && s[0] == y && rest == s[1..]
    ensures Back(REDIRECT, Refresh, Second(Digit(x), x), s) == [PERCENT, x, y] + Back(REDIRECT, Refresh, Usual, rest)
  {
    DigitPlain(y);
    BackStep(REDIRECT, Refresh, Second(Digit(x), x), s);
    SecondShown(REDIRECT, Digit(x), x, y);
  }

  lemma KeptThree(s: Bytes)
    requires |s| >= 3 && s[0] == PERCENT && Stays(s[1], s[2]) && Back(REDIRECT, Refresh, Usual, s[3..]) == s[3..]
    ensures Back(REDIRECT, Refresh, Usual, s) == s
  {
    var x, y, s1, s2, s3 := s[1], s[2], s[1..], s[2..], s[3..];
    RefreshPlain();
    DigitPlain(x);
    assert s1[0] == x && s2[0] == y && s1[1..] == s2 && s2[1..] == s3;
    KeptOn(Usual, s, s1, Quoted);
    KeptOn(Quoted, s1, s2, Second(Digit(x), x));
    KeptLast(x, y, s2, s3);
    assert s == [PERCENT, x, y] + s3;
  }

  lemma RefreshRedirect(s: Bytes)
    ensures Back(REDIRECT, Refresh, Usual, s) == s <==> Kept(s)
  {
    if Kept(s) { KeptBack(s); }
    if Back(REDIRECT, Refresh, Usual, s) == s {
      BackNarrow(s, Usual);
      BackTight(s, Usual);
    }
  }

  // The round trip

  /** Which texts survive being escaped and unescaped again. */
  predicate Survives(k: Kind, t: Table, s: Bytes) {
    if t == Refresh && k == REDIRECT then Kept(s)
    else
      && (t == Refresh ==> PERCENT !in s) && (Halts(k) ==> OnlyLast(s))
      && (k == REDIRECT ==> forall i :: 0 <= i < |s| && Escapes(t, s[i]) ==> PERCENT < s[i] < 127)
  }

  lemma FaithfulMeans(k: Kind, t: Table, s: Bytes)
    requires k in {PLAIN, URI, REDIRECT}
    ensures Faithful(k, t, s) <==>
      (k == REDIRECT ==> forall i :: 0 <= i < |s| && Escapes(t, s[i]) ==> PERCENT < s[i] < 127)
  {
    if Faithful(k, t, s) && k == REDIRECT {
      forall i | 0 <= i < |s| && Escapes(t, s[i]) ensures PERCENT < s[i] < 127 { assert Image(k, t, s[i]) == [s[i]]; }
    }
  }

  /** For every table and each of the three types, unescaping undoes escaping exactly for the texts that survive. */
  lemma RoundTrip(k: Kind, t: Table, s: Bytes)
    requires k in {PLAIN, URI, REDIRECT}
    ensures Text(k, Escaped(t, s)).0 == s <==> Survives(k, t, s)
  {
    WrittenIsText(k, Escaped(t, s));
    if t == Refresh && k == REDIRECT {
      RefreshRedirect(s);
    } else if t != Refresh || PERCENT !in s {
      SafeExactly(k, t, s);
      FaithfulMeans(k, t, s);
    } else {
      BackBounded(k, s, Usual);
      NoPercents(s);
    }
  }
}
