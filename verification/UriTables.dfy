/** The tables of ngx_string.c as lists of characters: what ngx_escape_uri escapes, and the hexadecimal digits. */
module UriTables {
  import opened UriEscape

  /** The signs between the space and DEL that a table escapes. */
  function Signs(t: Table): string
    requires t != UriComponent
  {
    match t
    case Uri => " #%?"
    case Args => " #%&+;?"
    case Html => " \"#%'"
    case Refresh => " \"'"
    case _ => " %"
  }

  /** Letters, digits and "-._~", which NGX_ESCAPE_URI_COMPONENT leaves alone. */
  predicate Unreserved(c: Byte) {
    48 <= c <= 57 || 65 <= c <= 90 || 97 <= c <= 122 || c as char in "-._~"
  }

  /** What a table escapes. */
  predicate Listed(t: Table, c: Byte) {
    if t == UriComponent then !Unreserved(c)
    else c < 32 || c as char in Signs(t) || (c >= 127 && t != Memcached && t != MailAuth)
  }

  lemma ControlsListed(t: Table, c: Byte)
    requires c < 32
    ensures Escapes(t, c) && Listed(t, c)
  {
    NoBits(0xffffffff, c);
  }

  /** A full word has every bit, an empty one none. */
  lemma NoBits(w: bv32, k: int)
    requires 0 <= k < 32
    ensures w == 0xffffffff ==> w & ((1 as bv32) << k) != 0
    ensures w == 0 ==> w & ((1 as bv32) << k) == 0
  {}

  lemma HighListed(t: Table, c: Byte)
    requires c >= 128
    ensures Escapes(t, c) <==> Listed(t, c)
  {
    NoBits(Bitmap(t, c / 32), c % 32);
  }

  lemma SignsListed(t: Table, c: Byte)
    requires 32 <= c < 64
    ensures Escapes(t, c) <==> Listed(t, c)
  {
    var k := c - 32;
    assert c / 32 == 1 && c % 32 == k;
    match t
    case Uri => assert (0x80000029 as bv32) & ((1 as bv32) << k) != 0 <==> k in {0, 3, 5, 31};
    case Args => assert (0x88000869 as bv32) & ((1 as bv32) << k) != 0 <==> k in {0, 3, 5, 6, 11, 27, 31};
    case UriComponent =>
      assert (0xfc009fff as bv32) & ((1 as bv32) << k) != 0 <==> k <= 12 || k == 15 || k >= 26;
    case Html => assert (0x000000ad as bv32) & ((1 as bv32) << k) != 0 <==> k in {0, 2, 3, 5, 7};
    case Refresh => assert (0x00000085 as bv32) & ((1 as bv32) << k) != 0 <==> k in {0, 2, 7};
    case _ => assert (0x00000021 as bv32) & ((1 as bv32) << k) != 0 <==> k in {0, 5};
  }

  lemma CapitalsListed(t: Table, c: Byte)
    requires 64 <= c < 96
    ensures Escapes(t, c) <==> Listed(t, c)
  {
    var k := c - 64;
    assert c / 32 == 2 && c % 32 == k;
    NoBits(Bitmap(t, 2), k);
    assert (0x78000001 as bv32) & ((1 as bv32) << k) != 0 <==> k == 0 || 27 <= k <= 30;
  }

  lemma LettersListed(t: Table, c: Byte)
    requires 96 <= c < 128
    ensures Escapes(t, c) <==> Listed(t, c)
  {
    var k := c - 96;
    assert c / 32 == 3 && c % 32 == k;
    NoBits(Bitmap(t, 3), k);
    assert (0xb8000001 as bv32) & ((1 as bv32) << k) != 0 <==> k == 0 || 27 <= k <= 29 || k == 31;
    assert (0x80000000 as bv32) & ((1 as bv32) << k) != 0 <==> k == 31;
  }

  /** Every table escapes exactly what is listed. */
  lemma EscapesExactly(t: Table, c: Byte)
    ensures Escapes(t, c) <==> Listed(t, c)
  {
    if c < 32 {
      ControlsListed(t, c);
    } else if c < 64 {
      SignsListed(t, c);
    } else if c < 96 {
      CapitalsListed(t, c);
    } else if c < 128 {
      LettersListed(t, c);
    } else {
      HighListed(t, c);
    }
  }

  // Digits

  const DIGITS: string := "0123456789abcdef"

  const CAPITALS: string := "0123456789ABCDEF"

  /** The digits written are those of the list; those of both lists are read, and nothing else. */
  lemma HexDigits(v: int)
    requires 0 <= v < 16
    ensures Hex(v) == DIGITS[v] as int && Digit(DIGITS[v] as int) == v && Digit(CAPITALS[v] as int) == v
  {}

  lemma DigitOnly(c: Byte)
    ensures Digit(c) >= 0 <==> c as char in DIGITS + CAPITALS
  {
    if Digit(c) >= 0 {
      HexDigits(Digit(c));
      assert c as char == DIGITS[Digit(c)] || c as char == CAPITALS[Digit(c)];
    } else {
      forall v | 0 <= v < 16 ensures DIGITS[v] as int != c && CAPITALS[v] as int != c { HexDigits(v); }
    }
  }
}
