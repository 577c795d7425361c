/** ngx_encode_base64 and ngx_decode_base64 of ngx_string.c: the base 64 encoding of section 4 of RFC 4648. */
module Base64 {
  type Byte = b: int | 0 <= b < 256

  type Bytes = seq<Byte>

  datatype Option<T> = None | Some(value: T)

  const PAD: Byte := 61

  /** The encoding alphabet: A-Z, a-z, 0-9, + and /. */
  function Letter(v: int): Byte
    requires 0 <= v < 64
  {
    if v < 26 then 65 + v
      else if v < 52 then 97 + (v - 26) else if v < 62 then 48 + (v - 52) else if v == 62 then 43 else 47
  }

  /**
   * The decoding table, 77 for what is not in the alphabet; `url` for the alphabet of ngx_decode_base64url, with - and
   * _.
   */
  function Basis(c: Byte, url: bool): (v: int)
    ensures 0 <= v < 64 || v == 77
  {
    if 65 <= c <= 90 then c - 65
    else if 97 <= c <= 122 then c - 97 + 26
    else if 48 <= c <= 57 then c - 48 + 52
    else if c == (if url then 45 else 43) then 62
    else if c == (if url then 95 else 47) then 63
    else 77
  }

  lemma LetterBasis(v: int)
    requires 0 <= v < 64
    ensures Basis(Letter(v), false) == v && Letter(v) != PAD
  {}

  // Encoding

  /** Three bytes as four letters, six bits each. */
  function Quad(a: Byte, b: Byte, c: Byte): Bytes {
    [Letter(a / 4), Letter(a % 4 * 16 + b / 16), Letter(b % 16 * 4 + c / 64), Letter(c % 64)]
  }

  function Encoded(s: Bytes): (r: Bytes)
    ensures |r| == (|s| + 2) / 3 * 4
  {
    if |s| == 0 then []
    else if |s| == 1 then [Letter(s[0] / 4), Letter(s[0] % 4 * 16), PAD, PAD]
    else if |s| == 2 then [Letter(s[0] / 4), Letter(s[0] % 4 * 16 + s[1] / 16), Letter(s[1] % 16 * 4), PAD]
    else Quad(s[0], s[1], s[2]) + Encoded(s[3..])
  }

  lemma EncodedStep(src: Bytes, s: nat)
    requires s + 3 <= |src|
    ensures Encoded(src[s..]) == Quad(src[s], src[s + 1], src[s + 2]) + Encoded(src[s + 3..])
  {
    assert src[s..][3..] == src[s + 3..];
  }

  lemma Assoc(a: Bytes, b: Bytes, c: Bytes)
    ensures a + (b + c) == (a + b) + c
  {}

  /** ngx_encode_base64 */
  method Encode(src: Bytes) returns (dst: Bytes)
    ensures dst == Encoded(src)
  {
    dst := [];
    var s, len := 0, |src|;
    assert src[0..] == src;
    while len > 2
      invariant 0 <= s <= |src| && len == |src| - s && dst + Encoded(src[s..]) == Encoded(src)
    {
      EncodedStep(src, s);
      Assoc(dst, Quad(src[s], src[s + 1], src[s + 2]), Encoded(src[s + 3..]));
      dst := dst + [Letter(src[s] / 4), Letter(src[s] % 4 * 16 + src[s + 1] / 16),
        Letter(src[s + 1] % 16 * 4 + src[s + 2] / 64), Letter(src[s + 2] % 64)];
      s := s + 3;
      len := len - 3;
    }
    var tail := EncodeTail(src[s..]);
    dst := dst + tail;
  }

  /** The one or two bytes left over. */
  method EncodeTail(s: Bytes) returns (d: Bytes)
    requires |s| <= 2
    ensures d == Encoded(s)
  {
    d := [];
    if |s| > 0 {
      d := d + [Letter(s[0] / 4)];
      if |s| == 1 {
        d := d + [Letter(s[0] % 4 * 16)];
        d := d + [PAD];
      } else {
        d := d + [Letter(s[0] % 4 * 16 + s[1] / 16)];
        d := d + [Letter(s[1] % 16 * 4)];
      }
      d := d + [PAD];
    }
  }

  // Decoding

  /** The letters up to the first padding sign. */
  function Body(s: Bytes): (r: Bytes)
    ensures |r| <= |s| && forall i :: 0 <= i < |r| ==> r[i] == s[i] && r[i] != PAD
    ensures |r| < |s| ==> s[|r|] == PAD
  {
    if s == [] || s[0] == PAD then [] else [s[0]] + Body(s[1..])
  }

  predicate AllLetters(s: Bytes, url: bool) { forall i :: 0 <= i < |s| ==> Basis(s[i], url) != 77 }

  function First(x: Byte, y: Byte, url: bool): Byte { (Basis(x, url) * 4 + Basis(y, url) / 16) % 256 }

  function Second(x: Byte, y: Byte, url: bool): Byte { (Basis(x, url) * 16 + Basis(y, url) / 4) % 256 }

  function Third(x: Byte, y: Byte, url: bool): Byte { (Basis(x, url) * 64 + Basis(y, url)) % 256 }

  /** The bytes that a run of letters stands for. */
  function Bytes8(s: Bytes, url: bool): Bytes {
    if |s| > 3 then [First(s[0], s[1], url), Second(s[1], s[2], url), Third(s[2], s[3], url)] + Bytes8(s[4..], url)
    else if |s| > 2 then [First(s[0], s[1], url), Second(s[1], s[2], url)]
    else if |s| > 1 then [First(s[0], s[1], url)]
    else []
  }

  /** The text up to the padding is decoded, unless it has a foreign character or one letter too many. */
  function Decoded(s: Bytes, url: bool): Option<Bytes> {
    var b := Body(s);
    if AllLetters(b, url) && |b| % 4 != 1 then Some(Bytes8(b, url)) else None
  }

  lemma {:induction false} BodyIs(s: Bytes, n: nat)
    requires n <= |s| && (forall i :: 0 <= i < n ==> s[i] != PAD) && (n < |s| ==> s[n] == PAD)
    ensures Body(s) == s[..n]
  {
    if n > 0 {
      BodyIs(s[1..], n - 1);
      assert s[..n] == [s[0]] + s[1..][..n - 1];
    }
  }

  /** ngx_decode_base64_internal, the scan: where the letters end, or that one is foreign. */
  method Scan(src: Bytes, url: bool) returns (ok: bool, len: nat)
    ensures ok <==> AllLetters(Body(src), url)
    ensures ok ==> len == |Body(src)| <= |src| && Body(src) == src[..len]
  {
    len := 0;
    while len < |src|
      invariant 0 <= len <= |src| && forall i :: 0 <= i < len ==> src[i] != PAD && Basis(src[i], url) != 77
    {
      if src[len] == PAD {
        BodyIs(src, len);
        return true, len;
      }
      if Basis(src[len], url) == 77 {
        Foreign(src, len, url);
        return false, len;
      }
      len := len + 1;
    }
    BodyIs(src, len);
    return true, len;
  }

  lemma {:induction false} Foreign(s: Bytes, n: nat, url: bool)
    requires n < |s| && (forall i :: 0 <= i <= n ==> s[i] != PAD) && Basis(s[n], url) == 77
    ensures !AllLetters(Body(s), url)
  {
    if n == 0 {
      assert Body(s)[0] == s[0];
    } else {
      Foreign(s[1..], n - 1, url);
      var i :| 0 <= i < |Body(s[1..])| && Basis(Body(s[1..])[i], url) == 77;
      assert Body(s)[i + 1] == Body(s[1..])[i];
    }
  }

  /** ngx_decode_base64_internal */
  method Decode(src: Bytes, url: bool) returns (dst: Option<Bytes>)
    ensures dst == Decoded(src, url)
  {
    var ok, len := Scan(src, url);
    if !ok {
      return None;
    }
    if len % 4 == 1 {
      return None;
    }
    var d := DecodeLetters(src[..len], url);
    dst := Some(d);
  }

  method DecodeLetters(body: Bytes, url: bool) returns (d: Bytes)
    ensures d == Bytes8(body, url)
  {
    d := [];
    var s, len := 0, |body|;
    assert body[0..] == body;
    while len > 3
      invariant 0 <= s <= |body| && len == |body| - s && d + Bytes8(body[s..], url) == Bytes8(body, url)
    {
      Chunk(body, s, url);
      var t := [First(body[s], body[s + 1], url), Second(body[s + 1], body[s + 2], url),
        Third(body[s + 2], body[s + 3], url)];
      Assoc(d, t, Bytes8(body[s + 4..], url));
      d := d + t;
      s := s + 4;
      len := len - 4;
    }
    ghost var before := d;
    if len > 1 {
      d := d + [First(body[s], body[s + 1], url)];
    }
    if len > 2 {
      d := d + [Second(body[s + 1], body[s + 2], url)];
    }
    assert d == before + Bytes8(body[s..], url);
  }

  lemma Chunk(body: Bytes, s: nat, url: bool)
    requires s + 3 < |body|
    ensures Bytes8(body[s..], url) ==
      [First(body[s], body[s + 1], url), Second(body[s + 1], body[s + 2], url),
        Third(body[s + 2], body[s + 3], url)] + Bytes8(body[s + 4..], url)
  {
    assert body[s..][4..] == body[s + 4..];
  }

  // Decoding undoes encoding

  /** Six bits at a time and back: the three bytes of a quad. */
  lemma QuadBack(a: Byte, b: Byte, c: Byte)
    ensures var q := Quad(a, b, c);
      First(q[0], q[1], false) == a && Second(q[1], q[2], false) == b && Third(q[2], q[3], false) == c
  {
    LetterBasis(a / 4);
    LetterBasis(a % 4 * 16 + b / 16);
    LetterBasis(b % 16 * 4 + c / 64);
    LetterBasis(c % 64);
    FirstBack(a, b);
    SecondBack(a, b, c);
    ThirdBack(b, c);
  }

  lemma FirstBack(a: Byte, b: Byte)
    ensures (a / 4 * 4 + (a % 4 * 16 + b / 16) / 16) % 256 == a
  {}

  lemma SecondBack(a: Byte, b: Byte, c: Byte)
    ensures ((a % 4 * 16 + b / 16) * 16 + (b % 16 * 4 + c / 64) / 4) % 256 == b
  {
    assert (b % 16 * 4 + c / 64) / 4 == b % 16;
    var q := a % 4;
    assert (q * 16 + b / 16) * 16 + b % 16 == q * 256 + b;
  }

  lemma ThirdBack(b: Byte, c: Byte)
    ensures ((b % 16 * 4 + c / 64) * 64 + c % 64) % 256 == c
  {}

  /** The letters of an encoding, without the padding. */
  function Letters(s: Bytes): (r: Bytes)
    ensures |r| % 4 != 1
  {
    if |s| == 0 then []
    else if |s| == 1 then [Letter(s[0] / 4), Letter(s[0] % 4 * 16)]
    else if |s| == 2 then [Letter(s[0] / 4), Letter(s[0] % 4 * 16 + s[1] / 16), Letter(s[1] % 16 * 4)]
    else Quad(s[0], s[1], s[2]) + Letters(s[3..])
  }

  lemma {:induction false} LettersOnly(s: Bytes)
    ensures forall i :: 0 <= i < |Letters(s)| ==> Letters(s)[i] != PAD && Basis(Letters(s)[i], false) != 77
  {
    forall v | 0 <= v < 64 ensures Basis(Letter(v), false) == v && Letter(v) != PAD { LetterBasis(v); }
    if |s| > 2 { LettersOnly(s[3..]); }
  }

  lemma {:induction false} Padded(s: Bytes)
    ensures |Letters(s)| <= |Encoded(s)| && Encoded(s)[..|Letters(s)|] == Letters(s)
      && (|Letters(s)| < |Encoded(s)| ==> Encoded(s)[|Letters(s)|] == PAD)
  {
    if |s| > 2 {
      Padded(s[3..]);
      var q, l, e := Quad(s[0], s[1], s[2]), Letters(s[3..]), Encoded(s[3..]);
      assert (q + e)[..|q + l|] == q + e[..|l|];
    }
  }

  lemma {:induction false} LettersBack(s: Bytes)
    ensures Bytes8(Letters(s), false) == s
  {
    if |s| > 2 {
      var q := Quad(s[0], s[1], s[2]);
      LettersBack(s[3..]);
      QuadBack(s[0], s[1], s[2]);
      assert (q + Letters(s[3..]))[4..] == Letters(s[3..]);
      assert s == [s[0], s[1], s[2]] + s[3..];
    } else if |s| == 2 {
      QuadBack(s[0], s[1], 0);
      assert s == [s[0], s[1]];
    } else if |s| == 1 {
      QuadBack(s[0], 0, 0);
      assert s == [s[0]];
    }
  }

  /** Decoding undoes encoding. */
  lemma RoundTrip(s: Bytes)
    ensures Decoded(Encoded(s), false) == Some(s)
  {
    LettersOnly(s);
    Padded(s);
    var n := |Letters(s)|;
    forall i | 0 <= i < n ensures Encoded(s)[i] != PAD { assert Encoded(s)[i] == Encoded(s)[..n][i]; }
    BodyIs(Encoded(s), n);
    LettersBack(s);
  }
}
