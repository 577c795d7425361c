/** ngx_escape_uri and ngx_unescape_uri of ngx_string.c: the percent-encoding of section 2.1 of RFC 3986. */
module UriEscape {
  type Byte = b: int | 0 <= b < 256

  type Bytes = seq<Byte>

  const PERCENT: Byte := 37
  const QUESTION: Byte := 63

  /** NGX_ESCAPE_URI and so on; NGX_ESCAPE_MAIL_AUTH shares the bitmap of NGX_ESCAPE_MEMCACHED. */
  datatype Table = Uri | Args | UriComponent | Html | Refresh | Memcached | MailAuth

  /** The 32 bits of the bitmap for bytes 32 * i to 32 * i + 31. */
  function Bitmap(t: Table, i: int): bv32
    requires 0 <= i < 8
  {
    if i == 0 then 0xffffffff
    else if i == 1 then
      match t
      case Uri => 0x80000029
      case Args => 0x88000869
      case UriComponent => 0xfc009fff
      case Html => 0x000000ad
      case Refresh => 0x00000085
      case _ => 0x00000021
    else if i == 2 then if t == UriComponent then 0x78000001 else 0
    else if i == 3 then
      match t
      case UriComponent => 0xb8000001
      case Memcached => 0
      case MailAuth => 0
      case _ => 0x80000000
    else if t == Memcached || t == MailAuth then 0 else 0xffffffff
  }

  /** `escape[c >> 5] & (1 << (c & 0x1f))` */
  predicate Escapes(t: Table, c: Byte) { Bitmap(t, c / 32) & ((1 as bv32) << (c % 32)) != 0 }

  /** "0123456789abcdef" */
  function Hex(v: int): Byte
    requires 0 <= v < 16
  {
    if v < 10 then 48 + v else 97 + (v - 10)
  }

  /** `c | 0x20` */
  function Lowered(c: Byte): Byte { if c / 32 % 2 == 0 then c + 32 else c }

  /** The value of a hexadecimal digit in either case, or -1. */
  function Digit(c: Byte): (v: int)
    ensures -1 <= v < 16
  {
    if 48 <= c <= 57 then c - 48
    else if 97 <= Lowered(c) <= 102 then Lowered(c) - 97 + 10
    else -1
  }

  lemma DigitHex(v: int)
    requires 0 <= v < 16
    ensures Digit(Hex(v)) == v && Hex(v) != PERCENT
  {}

  // Escaping

  function Code(t: Table, c: Byte): (r: Bytes)
    ensures |r| > 0
  {
    if Escapes(t, c) then [PERCENT, Hex(c / 16), Hex(c % 16)] else [c]
  }

  function Escaped(t: Table, s: Bytes): Bytes {
    if s == [] then [] else Code(t, s[0]) + Escaped(t, s[1..])
  }

  function Count(t: Table, s: Bytes): nat {
    if s == [] then 0 else (if Escapes(t, s[0]) then 1 else 0) + Count(t, s[1..])
  }

  /** Callers make room for two more bytes for each byte that the counting call counts. */
  lemma {:induction false} EscapedLength(t: Table, s: Bytes)
    ensures |Escaped(t, s)| == |s| + 2 * Count(t, s)
  {
    if s != [] { EscapedLength(t, s[1..]); }
  }

  lemma {:induction false} EscapedMore(t: Table, a: Bytes, b: Bytes)
    ensures Escaped(t, a + b) == Escaped(t, a) + Escaped(t, b) && Count(t, a + b) == Count(t, a) + Count(t, b)
  {
    if a == [] {
      assert a + b == b;
    } else {
      assert (a + b)[1..] == a[1..] + b;
      EscapedMore(t, a[1..], b);
      assert Code(t, a[0]) + (Escaped(t, a[1..]) + Escaped(t, b)) == (Code(t, a[0]) + Escaped(t, a[1..])) + Escaped(t,
        b);
    }
  }

  lemma EscapedStep(t: Table, s: Bytes, i: nat)
    requires i < |s|
    ensures Escaped(t, s[..i + 1]) == Escaped(t, s[..i]) + Code(t, s[i])
    ensures Count(t, s[..i + 1]) == Count(t, s[..i]) + if Escapes(t, s[i]) then 1 else 0
  {
    assert s[..i + 1] == s[..i] + [s[i]];
    EscapedMore(t, s[..i], [s[i]]);
    assert [s[i]][1..] == [];
  }

  /** ngx_escape_uri without a destination: how many bytes are to be escaped. */
  method CountEscapes(src: Bytes, t: Table) returns (n: nat)
    ensures |Escaped(t, src)| == |src| + 2 * n
  {
    n := 0;
    var i := 0;
    while i < |src|
      invariant 0 <= i <= |src| && n == Count(t, src[..i])
    {
      EscapedStep(t, src, i);
      if Escapes(t, src[i]) {
        n := n + 1;
      }
      i := i + 1;
    }
    assert src[..i] == src;
    EscapedLength(t, src);
  }

  /** ngx_escape_uri */
  method Escape(src: Bytes, t: Table) returns (dst: Bytes)
    ensures dst == Escaped(t, src)
  {
    dst := [];
    var i := 0;
    while i < |src|
      invariant 0 <= i <= |src| && dst == Escaped(t, src[..i])
    {
      EscapedStep(t, src, i);
      if Escapes(t, src[i]) {
        dst := dst + [PERCENT, Hex(src[i] / 16), Hex(src[i] % 16)];
      } else {
        dst := dst + [src[i]];
      }
      i := i + 1;
    }
    assert src[..i] == src;
  }

  // Unescaping

  /** NGX_UNESCAPE_URI and NGX_UNESCAPE_REDIRECT; neither is type 0. */
  datatype Kind = Kind(uri: bool, redirect: bool)

  const PLAIN: Kind := Kind(false, false)
  const URI: Kind := Kind(true, false)
  const REDIRECT: Kind := Kind(false, true)

  /** A question mark ends the scan. */
  predicate Halts(k: Kind) { k.uri || k.redirect }

  /**
   * What stands for an escape of value v that is spelled with the digits x and y: NGX_UNESCAPE_REDIRECT leaves most
   * alone.
   */
  function Shown(k: Kind, v: int, x: Byte, y: Byte): Bytes
    requires 0 <= v < 256
  {
    if k.redirect && (!k.uri || 48 <= y <= 57) && !(PERCENT < v < 127) then [PERCENT, x, y] else [v]
  }

  /**
   * The text that an escaped text stands for, and how much of it is read. An escape is a percent sign with two
   * hexadecimal digits. Of one that breaks off, a percent sign before something else than a digit is dropped, and a
   * percent sign and a digit before something else than a digit are dropped together with that.
   */
  function Text(k: Kind, s: Bytes): (r: (Bytes, nat))
    ensures r.1 <= |s|
  {
    if s == [] then ([], 0)
    else if s[0] != PERCENT then
      if s[0] == QUESTION && Halts(k) then ([s[0]], 1) else var r := Text(k, s[1..]); ([s[0]] + r.0, 1 + r.1)
    else if |s| == 1 then ([], 1)
    else if Digit(s[1]) < 0 then var r := Text(k, s[2..]); ([s[1]] + r.0, 2 + r.1)
    else if |s| == 2 then ([], 2)
    else if Digit(s[2]) < 0 then var r := Text(k, s[3..]); (r.0, 3 + r.1)
    else
      var v := Digit(s[1]) * 16 + Digit(s[2]);
      if v == QUESTION && Halts(k) then ([v], 3)
      else var r := Text(k, s[3..]); (Shown(k, v, s[1], s[2]) + r.0, 3 + r.1)
  }

  /** Where the scanner is: in `Second` it has a first digit, of that value and spelling. */
  datatype Scan = Usual | Quoted | Second(value: int, raw: Byte)

  predicate Proper(st: Scan) { st.Second? ==> 0 <= st.value < 16 }

  /** What one byte does: the bytes written, whether scanning ends, and the next state. */
  datatype Effect = Effect(out: Bytes, stop: bool, next: Scan)

  function OnUsual(k: Kind, ch: Byte): Effect {
    if ch == QUESTION && (k.uri || k.redirect) then Effect([ch], true, Usual)
    else if ch == PERCENT then Effect([], false, Quoted)
    else Effect([ch], false, Usual)
  }

  function OnQuoted(ch: Byte): (e: Effect)
    ensures Proper(e.next)
  {
    if Digit(ch) >= 0 then Effect([], false, Second(Digit(ch), ch)) else Effect([ch], false, Usual)
  }

  /**
   * The digits 0-9 and the letters differ: only after a letter can "?" end the scan, and only there does
   * NGX_UNESCAPE_URI count.
   */
  function OnSecond(k: Kind, value: int, raw: Byte, ch: Byte): Effect
    requires 0 <= value < 16
  {
    if Digit(ch) < 0 then Effect([], false, Usual)
    else
      var c := value * 16 + Digit(ch);
      var kept := if PERCENT < c < 127 then [c] else [PERCENT, raw, ch];
      if 48 <= ch <= 57 then Effect(if k.redirect then kept else [c], false, Usual)
      else if c == QUESTION && (k.uri || k.redirect) then Effect([c], true, Usual)
      else Effect(if k.redirect && !k.uri then kept else [c], false, Usual)
  }

  function On(k: Kind, st: Scan, ch: Byte): (e: Effect)
    requires Proper(st)
    ensures Proper(e.next)
  {
    match st
    case Usual => OnUsual(k, ch)
    case Quoted => OnQuoted(ch)
    case Second(value, raw) => OnSecond(k, value, raw, ch)
  }

  /** What is written from a state on. */
  function Written(k: Kind, st: Scan, s: Bytes): Bytes
    requires Proper(st)
    decreases |s|
  {
    if s == [] then [] else var e := On(k, st, s[0]); if e.stop then e.out else e.out + Written(k, e.next, s[1..])
  }

  /** How many bytes are read from a state on. */
  function Read(k: Kind, st: Scan, s: Bytes): (n: nat)
    requires Proper(st)
    ensures n <= |s|
    decreases |s|
  {
    if s == [] then 0 else var e := On(k, st, s[0]); if e.stop then 1 else 1 + Read(k, e.next, s[1..])
  }

  lemma ByteRead(k: Kind, st: Scan, s: Bytes, rest: Bytes)
    requires Proper(st) && s != [] && rest == s[1..]
    ensures var e := On(k, st, s[0]);
      && Written(k, st, s) == (if e.stop then e.out else e.out + Written(k, e.next, rest))
      && Read(k, st, s) == if e.stop then 1 else 1 + Read(k, e.next, rest)
  {}

  /** A percent sign without a digit behind it. */
  lemma Broken(k: Kind, s: Bytes)
    requires |s| > 0 && s[0] == PERCENT && (|s| > 1 ==> Digit(s[1]) < 0)
    ensures |s| == 1 ==> Written(k, Usual, s) == [] && Read(k, Usual, s) == 1
    ensures |s| > 1 ==>
      Written(k, Usual, s) == [s[1]] + Written(k, Usual, s[2..]) && Read(k, Usual, s) == 2 + Read(k, Usual, s[2..])
  {
    ByteRead(k, Usual, s, s[1..]);
    if |s| > 1 { ByteRead(k, Quoted, s[1..], s[2..]); }
  }

  /** A percent sign with a digit behind it: what the byte behind that does. */
  lemma Begun(k: Kind, s: Bytes)
    requires |s| > 1 && s[0] == PERCENT && Digit(s[1]) >= 0
    ensures var st := Second(Digit(s[1]), s[1]);
      Written(k, Usual, s) == Written(k, st, s[2..]) && Read(k, Usual, s) == 2 + Read(k, st, s[2..])
  {
    ByteRead(k, Usual, s, s[1..]);
    ByteRead(k, Quoted, s[1..], s[2..]);
  }

  lemma Finished(k: Kind, st: Scan, s: Bytes, t: Bytes, rest: Bytes)
    requires Proper(st) && st.Second? && |s| > 2 && t == s[2..] && rest == s[3..]
    ensures Digit(s[2]) < 0 ==>
      Written(k, st, t) == Written(k, Usual, rest) && Read(k, st, t) == 1 + Read(k, Usual, rest)
    ensures Digit(s[2]) >= 0 ==> var v := st.value * 16 + Digit(s[2]);
      if v == QUESTION && Halts(k) then Written(k, st, t) == [v] && Read(k, st, t) == 1
      else
        Written(k, st, t) == Shown(k, v, st.raw, s[2]) + Written(k, Usual, rest)
        && Read(k, st, t) == 1 + Read(k, Usual, rest)
  {
    ByteRead(k, st, t, rest);
    if Digit(s[2]) >= 0 { SecondShown(k, st.value, st.raw, s[2]); }
  }

  /** The states are a way to read escapes. */
  lemma {:induction false} WrittenIsText(k: Kind, s: Bytes)
    ensures Written(k, Usual, s) == Text(k, s).0 && Read(k, Usual, s) == Text(k, s).1
    decreases |s|
  {
    if s == [] {
    } else if s[0] != PERCENT {
      WrittenIsText(k, s[1..]);
    } else if |s| == 1 || Digit(s[1]) < 0 {
      Broken(k, s);
      if |s| > 1 { WrittenIsText(k, s[2..]); }
    } else {
      Begun(k, s);
      if |s| > 2 {
        WrittenIsText(k, s[3..]);
        Finished(k, Second(Digit(s[1]), s[1]), s, s[2..], s[3..]);
      }
    }
  }

  lemma SecondShown(k: Kind, value: int, x: Byte, y: Byte)
    requires 0 <= value < 16 && Digit(y) >= 0
    ensures var e, v := OnSecond(k, value, x, y), value * 16 + Digit(y);
      && (e.stop <==> v == QUESTION && Halts(k)) && e.next == Usual
      && e.out == if e.stop then [v] else Shown(k, v, x, y)
  {}

  /** The bytes of an escape that is being read. */
  function Pending(st: Scan): nat { match st case Usual => 0 case Quoted => 1 case Second(_, _) => 2 }

  lemma OutFits(k: Kind, st: Scan, ch: Byte)
    requires Proper(st)
    ensures var e := On(k, st, ch); |e.out| + Pending(e.next) <= Pending(st) + 1
  {}

  /** At every moment, what has been written is no longer than what has been read. */
  lemma {:induction false} NoOvertaking(k: Kind, st: Scan, s: Bytes)
    requires Proper(st)
    ensures |Written(k, st, s)| <= Pending(st) + Read(k, st, s)
    decreases |s|
  {
    if s != [] {
      OutFits(k, st, s[0]);
      if !On(k, st, s[0]).stop { NoOvertaking(k, On(k, st, s[0]).next, s[1..]); }
    }
  }

  /** Where the scan of a text is: so many bytes written, so many read. */
  ghost predicate Scanned(k: Kind, text: Bytes, out: Bytes, i: nat, st: Scan) {
    && i <= |text| && Proper(st) && |out| + Pending(st) <= i
    && out + Written(k, st, text[i..]) == Written(k, Usual, text) && i + Read(k, st, text[i..]) == Read(k, Usual, text)
  }

  lemma ScanStep(k: Kind, text: Bytes, out: Bytes, i: nat, st: Scan)
    requires Scanned(k, text, out, i, st) && i < |text|
    ensures var e := On(k, st, text[i]);
      if e.stop then out + e.out == Written(k, Usual, text) && i + 1 == Read(k, Usual, text)
      else Scanned(k, text, out + e.out, i + 1, e.next)
  {
    var e := On(k, st, text[i]);
    assert text[i..][0] == text[i] && text[i..][1..] == text[i + 1..];
    Assoc(out, e.out, Written(k, e.next, text[i + 1..]));
    OutFits(k, st, text[i]);
  }

  /** What is left to read is as it was, and so is the escape being read. */
  ghost predicate Unread(src: seq<Byte>, s0: nat, text: Bytes, i: nat, st: Scan) {
    && s0 + |text| <= |src| && Pending(st) <= i <= |text|
      && forall j :: i - Pending(st) <= j < |text| ==> src[s0 + j] == text[j]
  }

  /** What a byte at s in this state does to the destination at d. */
  twostate predicate Stepped(k: Kind, st: Scan, ch: Byte, dst: array<Byte>, d: nat, d': nat, st': Scan, stop: bool)
    requires Proper(st)
    reads dst
  {
    var e := On(k, st, ch);
    && d + |e.out| == d' <= dst.Length && dst[d..d'] == e.out && st' == e.next && stop == e.stop
    && forall j :: 0 <= j < dst.Length && !(d <= j < d') ==> dst[j] == old(dst[j])
  }

  /** Writing at d does not touch what is still needed of the source at s and behind it. */
  predicate Clear(same: bool, d: nat, s: nat, end: nat, st: Scan) { same ==> d + Pending(st) <= s || end <= d }

  /** The second digit of an escape (ngx_string.c:1563-1628). */
  method SecondDigit(dst: array<Byte>, d: nat, src: array<Byte>, s: nat, ghost end: nat, k: Kind, st: Scan)
      returns (d': nat, stop: bool)
    requires st.Second? && Proper(st) && 0 < s < end <= src.Length && st.raw == src[s - 1] && d + 3 <= dst.Length
    requires Clear(dst == src, d, s, end, st)
    modifies dst
    ensures Stepped(k, st, old(src[s]), dst, d, d', Usual, stop)
  {
    var ch := src[s];
    d', stop := d, false;
    if Digit(ch) < 0 {
      return;
    }
    var c := st.value * 16 + Digit(ch);
    if !(48 <= ch <= 57) && c == QUESTION && (k.uri || k.redirect) {
      dst[d] := c;
      return d + 1, true;
    }
    if k.redirect && (48 <= ch <= 57 || !k.uri) && !(PERCENT < c < 127) {
      dst[d] := PERCENT;
      dst[d + 1] := src[s - 1];
      dst[d + 2] := src[s];
      d' := d + 3;
    } else {
      dst[d] := c;
      d' := d + 1;
    }
  }

  /** One turn of the loop (ngx_string.c:1523-1629). */
  method Turn(dst: array<Byte>, d: nat, src: array<Byte>, s: nat, ghost end: nat, k: Kind, st: Scan)
    returns (d': nat, st': Scan, stop: bool)
    requires Proper(st) && s < end <= src.Length && d + Pending(st) + 1 <= dst.Length
      && Clear(dst == src, d, s, end, st)
    requires st.Second? ==> 0 < s && st.raw == src[s - 1]
    modifies dst
    ensures Stepped(k, st, old(src[s]), dst, d, d', st', stop)
  {
    var ch := src[s];
    d', st', stop := d, Usual, false;
    match st
    case Usual =>
      if ch == QUESTION && (k.uri || k.redirect) {
        dst[d] := ch;
        return d + 1, Usual, true;
      }
      if ch == PERCENT {
        st' := Quoted;
      } else {
        dst[d] := ch;
        d' := d + 1;
      }
    case Quoted =>
      if Digit(ch) >= 0 {
        st' := Second(Digit(ch), ch);
      } else {
        dst[d] := ch;
        d' := d + 1;
      }
    case Second(_, _) => d', stop := SecondDigit(dst, d, src, s, end, k, st);
  }

  lemma Joined(a: Bytes, d0: nat, d: nat, d': nat, out: Bytes, more: Bytes)
    requires d0 <= d <= d' <= |a| && a[d0..d] == out && a[d..d'] == more
    ensures a[d0..d'] == out + more
  {}

  /** What has been written, what is to be read, and that nothing else of the destination has changed. */
  ghost predicate Going(k: Kind, text: Bytes, first: Bytes, dst: Bytes, src: Bytes, d0: nat, d: nat, s0: nat, i: nat,
      st: Scan) {
    && d0 <= d <= |dst| == |first| && Scanned(k, text, dst[d0..d], i, st) && Unread(src, s0, text, i, st)
    && (st.Second? ==> i > 0 && st.raw == text[i - 1])
    && forall j :: 0 <= j < |dst| && !(d0 <= j < d) ==> dst[j] == first[j]
  }

  /** Writing behind what has been written. */
  ghost predicate Wrote(dst: Bytes, dst': Bytes, d: nat, d': nat, out: Bytes) {
    && |dst'| == |dst| && d <= d' <= |dst| && dst'[d..d'] == out
    && forall j :: 0 <= j < |dst| && !(d <= j < d') ==> dst'[j] == dst[j]
  }

  lemma UnreadKept(src: Bytes, src': Bytes, s0: nat, text: Bytes, i: nat, st: Scan, st': Scan, d: nat, d': nat)
    requires Unread(src, s0, text, i, st) && i < |text| && |src'| == |src| && Pending(st') <= Pending(st) + 1
    requires forall j :: 0 <= j < |src| && !(d <= j < d') ==> src'[j] == src[j]
    requires d' <= s0 + i + 1 - Pending(st') || s0 + |text| <= d
    ensures Unread(src', s0, text, i + 1, st')
  {}

  lemma OutKept(dst: Bytes, dst': Bytes, d0: nat, d: nat, d': nat, out: Bytes)
    requires d0 <= d && Wrote(dst, dst', d, d', out)
    ensures dst'[d0..d'] == dst[d0..d] + out
  {
    assert dst'[d0..d] == dst[d0..d];
    Joined(dst', d0, d, d', dst[d0..d], out);
  }

  lemma GoingStep(k: Kind, text: Bytes, first: Bytes, dst: Bytes, dst': Bytes, src: Bytes, src': Bytes, same: bool,
                  d0: nat, d: nat, d': nat, s0: nat, i: nat, st: Scan)
    requires Going(k, text, first, dst, src, d0, d, s0, i, st) && i < |text|
    requires Wrote(dst, dst', d, d', On(k, st, text[i]).out)
    requires if same then dst == src && dst' == src' && (d0 <= s0 || s0 + |text| <= d0) else src' == src
    ensures var e := On(k, st, text[i]);
      if e.stop then dst'[d0..d'] == Written(k, Usual, text) && i + 1 == Read(k, Usual, text) && d' - d0 <= i + 1
      else Going(k, text, first, dst', src', d0, d', s0, i + 1, e.next)
    ensures forall j :: 0 <= j < |dst'| && !(d0 <= j < d') ==> dst'[j] == first[j]
  {
    var e := On(k, st, text[i]);
    ScanStep(k, text, dst[d0..d], i, st);
    OutFits(k, st, text[i]);
    OutKept(dst, dst', d0, d, d', e.out);
    if same { UnreadKept(src, src', s0, text, i, st, e.next, d, d'); }
      else { UnreadKept(src, src', s0, text, i, st, e.next, 0, 0); }
  }

  /**
   * ngx_unescape_uri, to another place or in place: from s0 on, `size` bytes of the source are unescaped to d0 and on.
   * If the destination is in the same memory it does not start behind the source, or starts behind the end of it.
   */
  method Unescape(dst: array<Byte>, d0: nat, src: array<Byte>, s0: nat, size: nat, k: Kind) returns (d: nat, s: nat)
    requires s0 + size <= src.Length && d0 + size <= dst.Length && (dst == src ==> d0 <= s0 || s0 + size <= d0)
    modifies dst
    ensures s == s0 + Text(k, old(src[s0..s0 + size])).1 && d0 <= d <= d0 + (s - s0)
    ensures d <= dst.Length && dst[d0..d] == Text(k, old(src[s0..s0 + size])).0
    ensures forall j :: 0 <= j < dst.Length && !(d0 <= j < d) ==> dst[j] == old(dst[j])
  {
    ghost var text, first := src[s0..s0 + size], dst[..];
    var end := s0 + size;
    d, s := d0, s0;
    var state := Usual;
    WrittenIsText(k, text);
    assert text[0..] == text;
    while s < end
      invariant s0 <= s <= end && Going(k, text, first, dst[..], src[..], d0, d, s0, s - s0, state)
    {
      var stop;
      d, state, stop := Round(dst, d0, d, src, s0, s, end, k, state, text, first);
      s := s + 1;
      if stop {
        return;
      }
    }
    assert text[size..] == [];
  }

  /** One turn, within what is known of the turns before. */
  method Round(dst: array<Byte>, ghost d0: nat, d: nat, src: array<Byte>, ghost s0: nat, s: nat, ghost end: nat,
      k: Kind,
               st: Scan, ghost text: Bytes, ghost first: Bytes) returns (d': nat, st': Scan, stop: bool)
    requires s0 <= s < end == s0 + |text| && d0 + |text| <= dst.Length && (dst == src ==> d0 <= s0 || end <= d0)
    requires Going(k, text, first, dst[..], src[..], d0, d, s0, s - s0, st)
    modifies dst
    ensures d0 <= d' <= dst.Length
    ensures if stop then
      dst[d0..d'] == Written(k, Usual, text) && s + 1 - s0 == Read(k, Usual, text) && d' - d0 <= s + 1 - s0
      else Going(k, text, first, dst[..], src[..], d0, d', s0, s + 1 - s0, st')
    ensures forall j :: 0 <= j < dst.Length && !(d0 <= j < d') ==> dst[j] == first[j]
  {
    ghost var i, was, from := s - s0, dst[..], src[..];
    assert src[s] == text[i];
    d', st', stop := Turn(dst, d, src, s, end, k, st);
    assert Wrote(was, dst[..], d, d', On(k, st, text[i]).out);
    GoingStep(k, text, first, was, dst[..], from, src[..], dst == src, d0, d, d', s0, i, st);
  }

  lemma Assoc(a: Bytes, b: Bytes, c: Bytes)
    ensures a + (b + c) == (a + b) + c
  {}

  // Where the scan ends

  /** A question mark, or the escape of one, has just been read. */
  predicate AtQuestion(s: Bytes, n: nat) {
    && 0 < n <= |s|
    && (s[n - 1] == QUESTION || (n >= 3 && s[n - 3] == PERCENT && Digit(s[n - 2]) == 3 && Digit(s[n - 1]) == 15))
  }

  lemma AtLater(s: Bytes, m: nat, n: nat)
    requires m <= |s| && AtQuestion(s[m..], n)
    ensures AtQuestion(s, m + n)
  {
    var t := s[m..];
    assert t[n - 1] == s[m + n - 1];
    if n >= 3 { assert t[n - 3] == s[m + n - 3] && t[n - 2] == s[m + n - 2]; }
  }

  /**
   * Type 0 reads all; the others read all, or up to a question mark or the escape of one, which is the last that is
   * written.
   */
  lemma {:induction false} StopsAt(k: Kind, s: Bytes)
    ensures var r := Text(k, s);
      r.1 == |s| || (Halts(k) && AtQuestion(s, r.1) && r.0 != [] && r.0[|r.0| - 1] == QUESTION)
    decreases |s|, 0
  {
    if s == [] || (s[0] == QUESTION && Halts(k)) {
    } else if s[0] != PERCENT {
      StopsLater(k, s, 1);
    } else if |s| > 1 && Digit(s[1]) < 0 {
      StopsLater(k, s, 2);
    } else if |s| > 2 {
      StopsEscape(k, s);
    }
  }

  lemma {:induction false} StopsEscape(k: Kind, s: Bytes)
    requires |s| > 2 && s[0] == PERCENT && Digit(s[1]) >= 0
    ensures var r := Text(k, s);
      r.1 == |s| || (Halts(k) && AtQuestion(s, r.1) && r.0 != [] && r.0[|r.0| - 1] == QUESTION)
    decreases |s| - 1, 2
  {
    if Digit(s[2]) >= 0 && Digit(s[1]) * 16 + Digit(s[2]) == QUESTION && Halts(k) {
      assert Digit(s[1]) == 3 && Digit(s[2]) == 15;
    } else {
      StopsLater(k, s, 3);
    }
  }

  lemma {:induction false} StopsLater(k: Kind, s: Bytes, m: nat)
    requires 0 < m <= |s|
    ensures var r := Text(k, s[m..]);
      m + r.1 == |s| || (Halts(k) && AtQuestion(s, m + r.1) && r.0 != [] && r.0[|r.0| - 1] == QUESTION)
    decreases |s| - m, 1
  {
    StopsAt(k, s[m..]);
    var n := Text(k, s[m..]).1;
    if n < |s| - m { AtLater(s, m, n); }
  }
}
