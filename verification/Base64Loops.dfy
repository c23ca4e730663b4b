/** The loops of gloox/base64.cpp, with its bit expressions; each output character or byte has a method
    of its own. */
module Base64Loops {
  import opened Base64
  import opened Base64Bits
  import opened Bytes

  // ---- encode64 ----

  method FirstChar(a: Byte) returns (v: Sextet)
    ensures v == S0(a)
  {
    hide Bits, Code, S0;
    S0Bits(a);
    var c := (Bits(a) >> 2) & 0x3f;
    return Code(c);
  }

  /** `next` is the byte behind `a`, if there is one. */
  method SecondChar(a: Byte, next: seq<Byte>) returns (v: Sextet)
    ensures v == S1(a, if next != [] then next[0] else 0)
  {
    hide Bits, Code, S1;
    LastBits(a);
    var c := (Bits(a) << 4) & 0x3f;
    if next != [] {
      S1Bits(a, next[0]);
      c := c | ((Bits(next[0]) >> 4) & 0x0f);
    }
    return Code(c);
  }

  method ThirdChar(b: Byte, next: seq<Byte>) returns (v: Sextet)
    ensures v == S2(b, if next != [] then next[0] else 0)
  {
    hide Bits, Code, S2;
    LastBits(b);
    var c := (Bits(b) << 2) & 0x3c;
    if next != [] {
      S2Bits(b, next[0]);
      c := c | ((Bits(next[0]) >> 6) & 0x03);
    }
    return Code(c);
  }

  method FourthChar(b: Byte) returns (v: Sextet)
    ensures v == S3(b)
  {
    hide Bits, Code, S3;
    S3Bits(b);
    var c := Bits(b) & 0x3f;
    return Code(c);
  }

  /** `i` is the index that the loop body itself advances; every read of `input` is in bounds. */
  method Encode64(input: seq<Byte>) returns (encoded: string)
    ensures encoded == Encode(input)
  {
    hide Letter, S0, S1, S2, S3, Encode;
    encoded := "";
    var c: Sextet;
    var i, length := 0, |input|;
    EncodeFirst([]);
    while i < length
      invariant if i <= length then encoded + Encode(input[i..]) == Encode(input) else encoded == Encode(input)
      decreases length - i
    {
      ghost var rest, done := input[i..], encoded;
      EncodeFirst(rest);
      c := FirstChar(input[i]);
      encoded := encoded + [Letter(c)];
      c := SecondChar(input[i], input[i + 1..]);
      i := i + 1;
      encoded := encoded + [Letter(c)];
      if i < length {
        c := ThirdChar(input[i], input[i + 1..]);
        i := i + 1;
        encoded := encoded + [Letter(c)];
      } else {
        i := i + 1;
        encoded := encoded + [PAD];
      }
      if i < length {
        c := FourthChar(input[i]);
        encoded := encoded + [Letter(c)];
      } else {
        encoded := encoded + [PAD];
      }
      i := i + 1;
      assert encoded == done + FirstGroup(rest);
      assert i <= length ==> input[i..] == rest[3..];
    }
  }

  // ---- decode64 ----

  method FirstByte(c: Byte, d: Byte) returns (b: Byte)
    ensures b == O0(c, d)
  {
    hide Bits, Code, O0;
    O0Bits(c, d);
    return Code((Bits(c) << 2) | ((Bits(d) >> 4) & 0x03));
  }

  method SecondByte(d: Byte, c: Byte) returns (b: Byte)
    ensures b == O1(d, c)
  {
    hide Bits, Code, O1;
    O1Bits(d, c);
    return Code(((Bits(d) << 4) & 0xf0) | ((Bits(c) >> 2) & 0x0f));
  }

  method ThirdByte(c: Byte, d: Byte) returns (b: Byte)
    requires d < 64 || d == NP
    ensures b == O2(c, d)
  {
    hide Bits, Code, O2;
    O2Bits(c, d);
    return Code(((Bits(c) << 6) & 0xc0) | Bits(d));
  }

  method Decode64(input: string) returns (decoded: seq<Byte>)
    ensures decoded == Decode(input)
  {
    hide Value, O0, O1, O2, Decode;
    decoded := [];
    var b, c, d: Byte;
    var i, length := 0, |input|;
    DecodeFirst("");
    while i < length
      invariant if i <= length then decoded + Decode(input[i..]) == Decode(input) else decoded == Decode(input)
      decreases length - i
    {
      ghost var rest, done := input[i..], decoded;
      DecodeFirst(rest);
      c := Value(input[i]);
      i := i + 1;
      d := Value(CharAt(input, i));
      b := FirstByte(c, d);
      decoded := decoded + [b];
      i := i + 1;
      if i < length {
        if input[i] == PAD {
          assert decoded == done + DecodedGroup(rest);
          break;
        }
        c := Value(input[i]);
        b := SecondByte(d, c);
        decoded := decoded + [b];
      }
      i := i + 1;
      if i < length {
        if input[i] == PAD {
          assert decoded == done + DecodedGroup(rest);
          break;
        }
        d := Value(input[i]);
        ValueRange(input[i]);
        b := ThirdByte(c, d);
        decoded := decoded + [b];
      }
      i := i + 1;
      assert decoded == done + DecodedGroup(rest);
      assert i <= length ==> input[i..] == rest[4..];
    }
  }
}
