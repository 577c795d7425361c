/** The alphabets of sections 4 and 5 of RFC 4648, what letters stand for, and the padding. */
module Base64Letters {
  import opened Base64

  const UPPER: string := "ABCDEFGHIJKLMNOPQRSTUVWXYZ"

  const LOWER: string := "abcdefghijklmnopqrstuvwxyz"

  const STANDARD: string := UPPER + LOWER + "0123456789+/"

  const SAFE: string := UPPER + LOWER + "0123456789-_"

  lemma Capitals(v: int)
    requires 0 <= v < 26
    ensures STANDARD[v] as int == 65 + v && SAFE[v] as int == 65 + v
  {
    assert UPPER[v] as int == 65 + v;
    assert STANDARD[v] == UPPER[v] && SAFE[v] == UPPER[v];
  }

  lemma Smalls(v: int)
    requires 26 <= v < 52
    ensures STANDARD[v] as int == 97 + v - 26 && SAFE[v] as int == 97 + v - 26
  {
    assert LOWER[v - 26] as int == 97 + v - 26;
    assert STANDARD[v] == LOWER[v - 26] && SAFE[v] == LOWER[v - 26];
  }

  lemma Others(v: int)
    requires 52 <= v < 64
    ensures STANDARD[v] as int == if v < 62 then 48 + v - 52 else if v == 62 then 43 else 47
    ensures SAFE[v] as int == if v < 62 then 48 + v - 52 else if v == 62 then 45 else 95
  {
    assert STANDARD[v] == "0123456789+/"[v - 52] && SAFE[v] == "0123456789-_"[v - 52];
  }

  /** Letter v is the one at place v; the decoding tables give its place back. */
  lemma PlaceOf(v: int)
    requires 0 <= v < 64
    ensures Letter(v) == STANDARD[v] as int
    ensures Basis(STANDARD[v] as int, false) == v && Basis(SAFE[v] as int, true) == v
  {
    if v < 26 { Capitals(v); } else if v < 52 { Smalls(v); } else { Others(v); }
  }

  /** The decoding tables know the letters of their alphabet and no other character. */
  lemma KnownOnly(c: Byte, url: bool)
    ensures Basis(c, url) != 77 <==> c as char in if url then SAFE else STANDARD
  {
    var v := Basis(c, url);
    if v != 77 {
      PlaceOf(v);
      assert (if url then SAFE else STANDARD)[v] == c as char;
    } else {
      forall v | 0 <= v < 64 ensures STANDARD[v] as int != c || url { PlaceOf(v); }
      forall v | 0 <= v < 64 ensures SAFE[v] as int != c || !url { PlaceOf(v); }
    }
  }

  // What four letters stand for

  /** Three bytes and their four letters are the same number of 24 bits. */
  lemma SameNumber(a: Byte, b: Byte, c: Byte)
    ensures var q := Quad(a, b, c);
      ((Basis(q[0], false) * 64 + Basis(q[1], false)) * 64 + Basis(q[2], false)) * 64 + Basis(q[3], false) ==
        (a * 256 + b) * 256 + c
  {
    LetterBasis(a / 4);
    LetterBasis(a % 4 * 16 + b / 16);
    LetterBasis(b % 16 * 4 + c / 64);
    LetterBasis(c % 64);
    SumOf(a, b, c);
  }

  lemma SumOf(a: Byte, b: Byte, c: Byte)
    ensures ((a / 4 * 64 + (a % 4 * 16 + b / 16)) * 64 + (b % 16 * 4 + c / 64)) * 64 + c % 64 == (a * 256 + b) * 256 + c
  {
    assert a == a / 4 * 4 + a % 4 && b == b / 16 * 16 + b % 16 && c == c / 64 * 64 + c % 64;
  }

  // The padding

  /** As many padding signs as the last group lacks of three bytes. */
  function Pads(n: nat): Bytes { if n % 3 == 0 then [] else if n % 3 == 1 then [PAD, PAD] else [PAD] }

  lemma PadsRest(n: nat)
    requires n > 2
    ensures Pads(n) == Pads(n - 3)
  {}

  /** The letters, and then the padding signs. */
  lemma {:induction false} Padding(s: Bytes)
    ensures Encoded(s) == Letters(s) + Pads(|s|)
  {
    if |s| > 2 {
      Padding(s[3..]);
      PadsRest(|s|);
      Assoc(Quad(s[0], s[1], s[2]), Letters(s[3..]), Pads(|s|));
    }
  }

  /** One letter for each six bits begun. */
  lemma {:induction false} LettersCount(s: Bytes)
    ensures |Letters(s)| == (|s| * 8 + 5) / 6
  {
    if |s| > 2 {
      LettersCount(s[3..]);
      assert |Letters(s)| == 4 + ((|s| - 3) * 8 + 5) / 6;
    }
  }

  // The other alphabet

  function Respelled1(c: Byte): Byte { if c == 43 then 45 else if c == 47 then 95 else c }

  /** The same letters in the alphabet for URLs. */
  function Respelled(s: Bytes): (r: Bytes)
    ensures |r| == |s|
  {
    seq(|s|, i requires 0 <= i < |s| => Respelled1(s[i]))
  }

  lemma SameValue(c: Byte)
    requires Basis(c, false) != 77
    ensures Basis(Respelled1(c), true) == Basis(c, false) && Respelled1(c) != PAD
  {}

  lemma SameParts(x: Byte, y: Byte)
    requires Basis(x, false) != 77 && Basis(y, false) != 77
    ensures First(Respelled1(x), Respelled1(y), true) == First(x, y, false)
    ensures Second(Respelled1(x), Respelled1(y), true) == Second(x, y, false)
    ensures Third(Respelled1(x), Respelled1(y), true) == Third(x, y, false)
  {
    SameValue(x);
    SameValue(y);
  }

  lemma AllRespelled(s: Bytes)
    requires AllLetters(s, false)
    ensures AllLetters(Respelled(s), true)
  {
    forall i | 0 <= i < |s| ensures Basis(Respelled(s)[i], true) != 77 { SameValue(s[i]); }
  }

  lemma SameTriple(s: Bytes)
    requires AllLetters(s, false) && |s| > 3
    ensures var r := Respelled(s);
      [First(r[0], r[1], true), Second(r[1], r[2], true), Third(r[2], r[3], true)] ==
      [First(s[0], s[1], false), Second(s[1], s[2], false), Third(s[2], s[3], false)]
  {
    SameParts(s[0], s[1]);
    SameParts(s[1], s[2]);
    SameParts(s[2], s[3]);
  }

  lemma SameEnd(s: Bytes)
    requires AllLetters(s, false) && |s| <= 3
    ensures Bytes8(Respelled(s), true) == Bytes8(s, false)
  {
    if |s| > 1 { SameParts(s[0], s[1]); }
    if |s| > 2 { SameParts(s[1], s[2]); }
  }

  lemma {:induction false} SameBytes(s: Bytes)
    requires AllLetters(s, false)
    ensures Bytes8(Respelled(s), true) == Bytes8(s, false)
  {
    if |s| > 3 {
      LettersRest(s);
      SameBytes(s[4..]);
      SameTriple(s);
      assert Respelled(s)[4..] == Respelled(s[4..]);
    } else {
      SameEnd(s);
    }
  }

  lemma LettersRest(s: Bytes)
    requires AllLetters(s, false) && |s| > 3
    ensures AllLetters(s[4..], false)
  {
    forall i | 0 <= i < |s| - 4 ensures Basis(s[4..][i], false) != 77 { assert s[4..][i] == s[i + 4]; }
  }

  /** In the alphabet for URLs, with any padding or none, every byte string comes back. */
  lemma UrlRoundTrip(s: Bytes, pads: Bytes)
    requires pads != [] ==> pads[0] == PAD
    ensures Decoded(Respelled(Letters(s)) + pads, true) == Some(s)
  {
    LettersOnly(s);
    LettersBack(s);
    var l := Letters(s);
    SameBytes(l);
    AllRespelled(l);
    var t := Respelled(l) + pads;
    forall i | 0 <= i < |l| ensures t[i] != PAD { SameValue(l[i]); }
    BodyIs(t, |l|);
    assert t[..|l|] == Respelled(l);
  }
}
