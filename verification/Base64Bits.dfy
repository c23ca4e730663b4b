/** The shift-and-mask expressions of gloox/base64.cpp are the arithmetic that `Base64` uses. */
module Base64Bits {
  import opened Base64
  import opened Bytes

  /** A byte as the bits of a `char`, and back. */
  function Bits(b: Byte): bv8 {
    b as bv8
  }

  function Code(c: bv8): Byte {
    c as int
  }

  lemma BitsOfCode(c: bv8)
    ensures Bits(Code(c)) == c
  {
  }

  lemma PlusOne(c: bv8)
    requires Code(c) < 255
    ensures Code(c + 1) == Code(c) + 1
  {
    assert c < 0xff;
  }

  lemma {:induction false} SomeBits(b: Byte) returns (c: bv8)
    ensures Code(c) == b
  {
    if b == 0 {
      c := 0;
    } else {
      var d := SomeBits(b - 1);
      PlusOne(d);
      c := d + 1;
    }
  }

  lemma CodeOfBits(b: Byte)
    ensures Code(Bits(b)) == b
  {
    var c := SomeBits(b);
    BitsOfCode(c);
    hide Code, Bits;
  }

  // ---- bits and numbers ----

  lemma Join2(h: bv8, l: bv8)
    requires h < 64 && l < 4
    ensures ((h << 2) | l) as int == 4 * h as int + l as int
  {
  }

  lemma Join4(h: bv8, l: bv8)
    requires h < 16 && l < 16
    ensures ((h << 4) | l) as int == 16 * h as int + l as int
  {
  }

  lemma Join6(h: bv8, l: bv8)
    requires h < 4 && l < 64
    ensures ((h << 6) | l) as int == 64 * h as int + l as int
  {
  }

  lemma SixBits(b: bv8)
    ensures b as int < 64 <==> b < 64
  {
  }

  lemma Shift2(b: bv8)
    ensures (b >> 2) as int == b as int / 4
  {
  }

  lemma Shift4(b: bv8)
    ensures (b >> 4) as int == b as int / 16
  {
  }

  lemma Shift6(b: bv8)
    ensures (b >> 6) as int == b as int / 64
  {
  }

  lemma Mask2(b: bv8)
    ensures (b & 0x03) as int == b as int % 4
  {
  }

  lemma Mask4(b: bv8)
    ensures (b & 0x0f) as int == b as int % 16
  {
  }

  lemma Mask6(b: bv8)
    ensures (b & 0x3f) as int == b as int % 64
  {
  }

  lemma S0Int(a: bv8)
    ensures ((a >> 2) & 0x3f) as int == S0(a as int)
  {
    Shift2(a);
    assert (a >> 2) & 0x3f == a >> 2;
  }

  lemma S1Int(a: bv8, b: bv8)
    ensures (((a << 4) & 0x3f) | ((b >> 4) & 0x0f)) as int == S1(a as int, b as int)
  {
    S1Mask(a, b);
    Mask2(a);
    Shift4(b);
    Join4(a & 0x03, b >> 4);
  }

  lemma S1Mask(a: bv8, b: bv8)
    ensures ((a << 4) & 0x3f) | ((b >> 4) & 0x0f) == ((a & 0x03) << 4) | (b >> 4)
    ensures a & 0x03 < 4 && b >> 4 < 16
  {
  }

  lemma S2Int(b: bv8, c: bv8)
    ensures (((b << 2) & 0x3c) | ((c >> 6) & 0x03)) as int == S2(b as int, c as int)
  {
    S2Mask(b, c);
    Mask4(b);
    Shift6(c);
    Join2(b & 0x0f, c >> 6);
  }

  lemma S2Mask(b: bv8, c: bv8)
    ensures ((b << 2) & 0x3c) | ((c >> 6) & 0x03) == ((b & 0x0f) << 2) | (c >> 6)
    ensures b & 0x0f < 16 && c >> 6 < 4
  {
  }

  /** At the end of the input nothing is joined. */
  lemma LastInt(a: bv8)
    ensures ((a << 4) & 0x3f) as int == S1(a as int, 0)
    ensures ((a << 2) & 0x3c) as int == S2(a as int, 0)
  {
    S1Int(a, 0);
    S2Int(a, 0);
    hide S1, S2;
    NothingJoined(a);
  }

  lemma NothingJoined(a: bv8)
    ensures ((a << 4) & 0x3f) | ((0 >> 4) & 0x0f) == (a << 4) & 0x3f
    ensures ((a << 2) & 0x3c) | ((0 >> 6) & 0x03) == (a << 2) & 0x3c
  {
  }

  lemma S3Int(c: bv8)
    ensures (c & 0x3f) as int == S3(c as int)
  {
    Mask6(c);
  }

  lemma O0Int(p: bv8, q: bv8)
    ensures ((p << 2) | ((q >> 4) & 0x03)) as int == O0(p as int, q as int)
  {
    O0Mask(p, q);
    Mask6(p);
    Shift4(q);
    Mask2(q >> 4);
    Join2(p & 0x3f, (q >> 4) & 0x03);
  }

  lemma O0Mask(p: bv8, q: bv8)
    ensures (p << 2) | ((q >> 4) & 0x03) == ((p & 0x3f) << 2) | ((q >> 4) & 0x03)
    ensures p & 0x3f < 64 && (q >> 4) & 0x03 < 4
  {
  }

  lemma O1Int(q: bv8, r: bv8)
    ensures (((q << 4) & 0xf0) | ((r >> 2) & 0x0f)) as int == O1(q as int, r as int)
  {
    O1Mask(q, r);
    Mask4(q);
    Shift2(r);
    Mask4(r >> 2);
    Join4(q & 0x0f, (r >> 2) & 0x0f);
  }

  lemma O1Mask(q: bv8, r: bv8)
    ensures ((q << 4) & 0xf0) | ((r >> 2) & 0x0f) == ((q & 0x0f) << 4) | ((r >> 2) & 0x0f)
    ensures q & 0x0f < 16 && (r >> 2) & 0x0f < 16
  {
  }

  lemma O2Int(r: bv8, v: bv8)
    requires v < 64
    ensures (((r << 6) & 0xc0) | v) as int == O2(r as int, v as int)
  {
    O2Mask(r, v);
    SixBits(v);
    Mask2(r);
    Join6(r & 0x03, v);
  }

  lemma O2Mask(r: bv8, v: bv8)
    ensures ((r << 6) & 0xc0) | v == ((r & 0x03) << 6) | v
    ensures r & 0x03 < 4
  {
  }

  lemma O2Ones(r: bv8, v: bv8)
    requires v as int == NP
    ensures (((r << 6) & 0xc0) | v) as int == NP
  {
    assert v == 0xff;
    assert ((r << 6) & 0xc0) | v == v;
  }

  // ---- the expressions of the source ----

  lemma S0Bits(a: Byte)
    ensures Code((Bits(a) >> 2) & 0x3f) == S0(a)
  {
    CodeOfBits(a);
    S0Int(Bits(a));
    hide S0, Bits;
  }

  lemma S1Bits(a: Byte, b: Byte)
    ensures Code(((Bits(a) << 4) & 0x3f) | ((Bits(b) >> 4) & 0x0f)) == S1(a, b)
  {
    CodeOfBits(a);
    CodeOfBits(b);
    S1Int(Bits(a), Bits(b));
    hide S1, Bits;
  }

  lemma S2Bits(b: Byte, c: Byte)
    ensures Code(((Bits(b) << 2) & 0x3c) | ((Bits(c) >> 6) & 0x03)) == S2(b, c)
  {
    CodeOfBits(b);
    CodeOfBits(c);
    S2Int(Bits(b), Bits(c));
    hide S2, Bits;
  }

  /** At the end of the input nothing is joined. */
  lemma LastBits(a: Byte)
    ensures Code((Bits(a) << 4) & 0x3f) == S1(a, 0)
    ensures Code((Bits(a) << 2) & 0x3c) == S2(a, 0)
  {
    CodeOfBits(a);
    LastInt(Bits(a));
    hide S1, S2, Bits;
  }

  lemma S3Bits(c: Byte)
    ensures Code(Bits(c) & 0x3f) == S3(c)
  {
    CodeOfBits(c);
    S3Int(Bits(c));
    hide S3, Bits;
  }

  lemma O0Bits(p: Byte, q: Byte)
    ensures Code((Bits(p) << 2) | ((Bits(q) >> 4) & 0x03)) == O0(p, q)
  {
    CodeOfBits(p);
    CodeOfBits(q);
    O0Int(Bits(p), Bits(q));
    hide O0, Bits;
  }

  lemma O1Bits(q: Byte, r: Byte)
    ensures Code(((Bits(q) << 4) & 0xf0) | ((Bits(r) >> 2) & 0x0f)) == O1(q, r)
  {
    CodeOfBits(q);
    CodeOfBits(r);
    O1Int(Bits(q), Bits(r));
    hide O1, Bits;
  }

  /** v is a table value. */
  lemma O2Bits(r: Byte, v: Byte)
    requires v < 64 || v == NP
    ensures Code(((Bits(r) << 6) & 0xc0) | Bits(v)) == O2(r, v)
  {
    CodeOfBits(r);
    CodeOfBits(v);
    hide Bits;
    if v == NP {
      O2Ones(Bits(r), Bits(v));
    } else {
      SixBits(Bits(v));
      hide O2;
      O2Int(Bits(r), Bits(v));
    }
  }

  lemma ValueRange(c: char)
    ensures Value(c) < 64 || Value(c) == NP
  {
    if Value(c) != NP {
      LetterOfValue(c);
    }
    hide Value;
  }
}
