/** gloox/base64.cpp: the encoder, and the decoder on every input, malformed ones included.
    Bit expressions are written as arithmetic; `Base64Bits` shows that they agree, and the loops in
    `Base64Loops` compute with them. */
module Base64 {
  import opened Bytes

  const UPPERCASE := "ABCDEFGHIJKLMNOPQRSTUVWXYZ"
  const LOWERCASE := "abcdefghijklmnopqrstuvwxyz"
  const DIGITS := "0123456789+/"

  const PAD := '='

  /** `(char)npos` */
  const NP: Byte := 255

  const ROW0: seq<Byte> := [62, NP, NP, NP, 63, 52, 53, 54, 55, 56, 57, 58, 59, 60, 61, NP, NP, NP, NP, NP]
  const ROW1: seq<Byte> := [NP, NP,  0,  1,  2,  3,  4,  5,  6,  7,  8,  9, 10, 11, 12, 13, 14, 15, 16, 17]
  const ROW2: seq<Byte> := [18, 19, 20, 21, 22, 23, 24, 25, NP, NP, NP, NP, NP, NP, 26, 27, 28, 29, 30, 31]
  const ROW3: seq<Byte> := [32, 33, 34, 35, 36, 37, 38, 39, 40, 41, 42, 43, 44, 45, 46, 47, 48, 49, 50, 51]

  type Sextet = n: nat | n < 64

  /** `alphabet64[v]`; the string is the three constants one after the other. */
  function Letter(v: Sextet): char {
    if v < 26 then UPPERCASE[v] else if v < 52 then LOWERCASE[v - 26] else DIGITS[v - 52]
  }

  /** `table64vals[i]`, in the rows of the source. */
  function TableEntry(i: nat): Byte
    requires i < 80
  {
    if i < 20 then ROW0[i] else if i < 40 then ROW1[i - 20] else if i < 60 then ROW2[i - 40] else ROW3[i - 60]
  }

  /** `table64` */
  function Value(c: char): Byte {
    if c as int < 43 || c as int > 122 then NP else TableEntry(c as int - 43)
  }

  // ---- the tables ----

  /** The code of a letter, by ranges. */
  function LetterCode(v: int): int {
    if v < 26 then v + 65 else if v < 52 then v + 71 else if v < 62 then v - 4 else if v == 62 then 43 else 47
  }

  lemma UppercaseCodes(v: int)
    requires 0 <= v < 26
    ensures UPPERCASE[v] as int == v + 65 && LOWERCASE[v] as int == v + 97
  {
  }

  lemma DigitCodes(v: int)
    requires 0 <= v < 12
    ensures DIGITS[v] as int == LetterCode(v + 52)
  {
  }

  lemma LetterCodes(v: Sextet)
    ensures Letter(v) as int == LetterCode(v)
  {
    if v < 26 {
      UppercaseCodes(v);
    } else if v < 52 {
      UppercaseCodes(v - 26);
    } else {
      DigitCodes(v - 52);
    }
    hide UPPERCASE, LOWERCASE, DIGITS;
  }

  /** The table by ranges: the inverse of `LetterCode`, and `NP` elsewhere. */
  function Entry(i: int): int {
    if i == 0 then 62 else if i == 4 then 63
    else if 5 <= i <= 14 then i + 47
    else if 22 <= i <= 47 then i - 22
    else if i >= 54 then i - 28
    else NP
  }

  lemma Rows(i: int)
    requires 0 <= i < 20
    ensures ROW0[i] == Entry(i) && ROW1[i] == Entry(i + 20)
    ensures ROW2[i] == Entry(i + 40) && ROW3[i] == Entry(i + 60)
  {
  }

  lemma TableEntries(i: nat)
    requires i < 80
    ensures TableEntry(i) == Entry(i)
  {
    Rows(if i < 20 then i else if i < 40 then i - 20 else if i < 60 then i - 40 else i - 60);
    hide ROW0, ROW1, ROW2, ROW3, Entry;
  }

  lemma ValueOfLetter(v: Sextet)
    ensures Value(Letter(v)) == v
    ensures Letter(v) != PAD
  {
    LetterCodes(v);
    TableEntries(LetterCode(v) - 43);
    hide Letter, TableEntry;
  }

  /** Only a letter has a six-bit value, and it is the letter of that value. */
  lemma LetterOfValue(c: char)
    requires Value(c) != NP
    ensures Value(c) < 64 && Letter(Value(c)) == c
  {
    TableEntries(c as int - 43);
    hide Letter, TableEntry;
    LetterCodes(Value(c));
  }

  // ---- groups ----

  /** The four six-bit values of three bytes. */
  function S0(a: Byte): Sextet { a / 4 }
  function S1(a: Byte, b: Byte): Sextet { a % 4 * 16 + b / 16 }
  function S2(b: Byte, c: Byte): Sextet { b % 16 * 4 + c / 64 }
  function S3(c: Byte): Sextet { c % 64 }

  /** The three bytes of four table values, `NP` included. */
  function O0(p: Byte, q: Byte): Byte { p % 64 * 4 + q / 16 % 4 }
  function O1(q: Byte, r: Byte): Byte { q % 16 * 16 + r / 4 % 16 }
  function O2(r: Byte, s: Byte): Byte { if s < 64 then r % 4 * 64 + s else NP }

  lemma FirstBack(a: Byte, b: Byte)
    ensures O0(S0(a), S1(a, b)) == a
  {
  }

  lemma SecondBack(a: Byte, b: Byte, c: Byte)
    ensures O1(S1(a, b), S2(b, c)) == b
  {
    assert S1(a, b) % 16 == b / 16;
    assert S2(b, c) / 4 == b % 16;
  }

  lemma ThirdBack(b: Byte, c: Byte)
    ensures O2(S2(b, c), S3(c)) == c
  {
    assert S2(b, c) % 4 == c / 64;
  }

  lemma BytesBack(a: Byte, b: Byte, c: Byte)
    ensures O0(S0(a), S1(a, b)) == a
    ensures O1(S1(a, b), S2(b, c)) == b
    ensures O2(S2(b, c), S3(c)) == c
  {
    hide S0, S1, S2, S3, O0, O1, O2;
    FirstBack(a, b);
    SecondBack(a, b, c);
    ThirdBack(b, c);
  }

  lemma FirstSextet(p: Sextet, q: Sextet)
    ensures S0(O0(p, q)) == p
  {
  }

  lemma SecondSextet(p: Sextet, q: Sextet, r: Sextet)
    ensures S1(O0(p, q), O1(q, r)) == q
    ensures q % 16 == 0 ==> S1(O0(p, q), 0) == q
  {
    assert O0(p, q) % 4 == q / 16;
    assert O1(q, r) / 16 == q % 16;
  }

  lemma ThirdSextet(q: Sextet, r: Sextet, s: Sextet)
    ensures S2(O1(q, r), O2(r, s)) == r
    ensures r % 4 == 0 ==> S2(O1(q, r), 0) == r
    ensures S3(O2(r, s)) == s
  {
    assert O1(q, r) % 16 == r / 4;
    assert O2(r, s) / 64 == r % 4;
  }

  // ---- encoding and decoding ----

  /** What `encode64` returns. */
  function Encode(s: seq<Byte>): string {
    if |s| == 0 then ""
    else if |s| == 1 then [Letter(S0(s[0])), Letter(S1(s[0], 0)), PAD, PAD]
    else if |s| == 2 then [Letter(S0(s[0])), Letter(S1(s[0], s[1])), Letter(S2(s[1], 0)), PAD]
    else [Letter(S0(s[0])), Letter(S1(s[0], s[1])), Letter(S2(s[1], s[2])), Letter(S3(s[2]))] + Encode(s[3..])
  }

  /** What `decode64` returns; reading one past the end yields NUL. */
  function Decode(t: string): seq<Byte> {
    if t == "" then []
    else
      var p, q := Value(t[0]), if |t| > 1 then Value(t[1]) else NP;
      [O0(p, q)] +
      if |t| <= 2 || t[2] == PAD then []
      else
        var r := Value(t[2]);
        [O1(q, r)] +
        if |t| <= 3 || t[3] == PAD then [] else [O2(r, Value(t[3]))] + Decode(t[4..])
  }

  /** Whole groups of letters, the last one possibly padded and then with zero trailing bits. */
  predicate Canonical(t: string) {
    t == "" || (
      && |t| >= 4 && Value(t[0]) != NP && Value(t[1]) != NP
      && (if t[2] == PAD then |t| == 4 && t[3] == PAD && Value(t[1]) % 16 == 0
          else if t[3] == PAD then |t| == 4 && Value(t[2]) != NP && Value(t[2]) % 4 == 0
          else Value(t[2]) != NP && Value(t[3]) != NP && Canonical(t[4..])))
  }

  lemma {:induction false} EncodeLength(s: seq<Byte>)
    ensures |Encode(s)| == (|s| + 2) / 3 * 4
  {
    hide Letter, S0, S1, S2, S3;
    if |s| > 2 {
      EncodeLength(s[3..]);
    }
  }

  lemma {:induction false} DecodeEncode(s: seq<Byte>)
    ensures Decode(Encode(s)) == s
  {
    hide Letter, Value, S0, S1, S2, S3, O0, O1, O2;
    if s != [] {
      var b, c := if |s| > 1 then s[1] else 0, if |s| > 2 then s[2] else 0;
      BytesBack(s[0], b, c);
      ValueOfLetter(S0(s[0]));
      ValueOfLetter(S1(s[0], b));
      ValueOfLetter(S2(b, c));
      ValueOfLetter(S3(c));
      if |s| > 2 {
        DecodeEncode(s[3..]);
        assert Encode(s)[4..] == Encode(s[3..]);
      }
    }
  }

  lemma TrailingBits(a: Byte, b: Byte)
    ensures S1(a, 0) % 16 == 0 && S2(b, 0) % 4 == 0
  {
  }

  lemma {:induction false} EncodeCanonical(s: seq<Byte>)
    ensures Canonical(Encode(s))
  {
    hide Letter, Value, S0, S1, S2, S3;
    if s != [] {
      var b, c := if |s| > 1 then s[1] else 0, if |s| > 2 then s[2] else 0;
      TrailingBits(s[0], b);
      ValueOfLetter(S0(s[0]));
      ValueOfLetter(S1(s[0], b));
      ValueOfLetter(S2(b, c));
      ValueOfLetter(S3(c));
      if |s| > 2 {
        EncodeCanonical(s[3..]);
        assert Encode(s)[4..] == Encode(s[3..]);
      }
    }
  }

  /** The last group, padded twice, once, or not the last: what `EncodeDecode` needs of each. */
  lemma PaddedTwice(t: string)
    requires Canonical(t) && t != "" && t[2] == PAD
    ensures Encode(Decode(t)) == t
  {
    hide Letter, Value, S0, S1, S2, S3, O0, O1, O2;
    LetterOfValue(t[0]);
    LetterOfValue(t[1]);
    FirstSextet(Value(t[0]), Value(t[1]));
    SecondSextet(Value(t[0]), Value(t[1]), 0);
    assert t == [t[0], t[1], t[2], t[3]];
  }

  lemma PaddedOnce(t: string)
    requires Canonical(t) && t != "" && t[2] != PAD && t[3] == PAD
    ensures Encode(Decode(t)) == t
  {
    hide Letter, Value, S0, S1, S2, S3, O0, O1, O2;
    LetterOfValue(t[0]);
    LetterOfValue(t[1]);
    LetterOfValue(t[2]);
    FirstSextet(Value(t[0]), Value(t[1]));
    SecondSextet(Value(t[0]), Value(t[1]), Value(t[2]));
    ThirdSextet(Value(t[1]), Value(t[2]), 0);
    assert t == [t[0], t[1], t[2], t[3]];
  }

  lemma FullGroup(t: string)
    requires Canonical(t) && t != "" && t[2] != PAD && t[3] != PAD
    ensures Encode(Decode(t)) == t[..4] + Encode(Decode(t[4..]))
  {
    hide Letter, Value, S0, S1, S2, S3, O0, O1, O2, Encode;
    LetterOfValue(t[0]);
    LetterOfValue(t[1]);
    LetterOfValue(t[2]);
    LetterOfValue(t[3]);
    var p, q, r, v := Value(t[0]), Value(t[1]), Value(t[2]), Value(t[3]);
    FirstSextet(p, q);
    SecondSextet(p, q, r);
    ThirdSextet(q, r, v);
    assert Decode(t) == [O0(p, q), O1(q, r), O2(r, v)] + Decode(t[4..]);
    EncodeGroup(O0(p, q), O1(q, r), O2(r, v), Decode(t[4..]));
    assert t[..4] == [t[0], t[1], t[2], t[3]];
  }

  lemma {:induction false} EncodeDecode(t: string)
    requires Canonical(t)
    ensures Encode(Decode(t)) == t
  {
    if t == "" {
    } else if t[2] == PAD {
      PaddedTwice(t);
    } else if t[3] == PAD {
      PaddedOnce(t);
    } else {
      FullGroup(t);
      EncodeDecode(t[4..]);
    }
  }

  lemma EncodeGroup(a: Byte, b: Byte, c: Byte, rest: seq<Byte>)
    ensures Encode([a, b, c] + rest) == [Letter(S0(a)), Letter(S1(a, b)), Letter(S2(b, c)), Letter(S3(c))] + Encode(rest)
  {
    hide Letter, S0, S1, S2, S3;
    assert ([a, b, c] + rest)[3..] == rest;
  }

  /** Decoding and encoding again restores exactly the canonical texts. */
  lemma EncodeDecodeIffCanonical(t: string)
    ensures Encode(Decode(t)) == t <==> Canonical(t)
  {
    EncodeCanonical(Decode(t));
    if Canonical(t) {
      EncodeDecode(t);
    }
  }

  // ---- group by group ----

  /** The first four characters of an encoding. */
  function FirstGroup(s: seq<Byte>): string
    requires s != []
  {
    [Letter(S0(s[0])), Letter(S1(s[0], if |s| > 1 then s[1] else 0)),
     if |s| > 1 then Letter(S2(s[1], if |s| > 2 then s[2] else 0)) else PAD,
     if |s| > 2 then Letter(S3(s[2])) else PAD]
  }

  lemma EncodeFirst(s: seq<Byte>)
    ensures s == [] ==> Encode(s) == ""
    ensures 0 < |s| <= 2 ==> Encode(s) == FirstGroup(s)
    ensures |s| > 2 ==> Encode(s) == FirstGroup(s) + Encode(s[3..])
  {
    hide Letter, S0, S1, S2, S3;
  }

  /** `input[length]` is NUL. */
  function CharAt(input: string, i: nat): char
    requires i <= |input|
  {
    if i < |input| then input[i] else '\0'
  }

  lemma ValueOfNul()
    ensures Value('\0') == NP
  {
  }

  /** The bytes of the first group of a text: one, two or three. */
  function DecodedGroup(t: string): seq<Byte>
    requires t != ""
  {
    var p, q := Value(t[0]), Value(CharAt(t, 1));
    if |t| <= 2 || t[2] == PAD then [O0(p, q)]
    else if |t| <= 3 || t[3] == PAD then [O0(p, q), O1(q, Value(t[2]))]
    else [O0(p, q), O1(q, Value(t[2])), O2(Value(t[2]), Value(t[3]))]
  }

  lemma DecodeFirst(t: string)
    ensures t == "" ==> Decode(t) == []
    ensures t != "" ==>
      Decode(t) == DecodedGroup(t) + if |t| > 3 && t[2] != PAD && t[3] != PAD then Decode(t[4..]) else []
  {
    ValueOfNul();
    hide Value, O0, O1, O2;
  }

  /** A letter by its code. */
  lemma LetterIs(v: Sextet, c: char)
    requires LetterCode(v) == c as int
    ensures Letter(v) == c
  {
    LetterCodes(v);
    hide Letter;
  }

  lemma VectorLetters()
    ensures Letter(25) == 'Z' && Letter(32) == 'g' && Letter(38) == 'm'
    ensures Letter(60) == '8' && Letter(61) == '9' && Letter(47) == 'v'
  {
    hide Letter;
    LetterIs(25, 'Z');
    LetterIs(32, 'g');
    LetterIs(38, 'm');
    LetterIs(60, '8');
    LetterIs(61, '9');
    LetterIs(47, 'v');
  }

  /** The test vectors "f", "fo" and "foo" of section 10 of RFC 4648. */
  lemma Vectors()
    ensures Encode([0x66]) == "Zg==" && Encode([0x66, 0x6f]) == "Zm8="
    ensures Encode([0x66, 0x6f, 0x6f]) == "Zm9v"
  {
    VectorLetters();
    hide Letter, Encode;
    EncodeShort(0x66, 0x6f);
    FullVector();
  }

  lemma FullVector()
    ensures Encode([0x66, 0x6f, 0x6f]) == "Zm9v"
  {
    VectorLetters();
    hide Letter, Encode;
    EncodeGroup(0x66, 0x6f, 0x6f, []);
    EncodeShort(0x66, 0x6f);
    var all: seq<Byte> := [0x66, 0x6f, 0x6f];
    assert all + [] == all;
    assert S0(0x66) == 25 && S1(0x66, 0x6f) == 38 && S2(0x6f, 0x6f) == 61 && S3(0x6f) == 47;
  }

  lemma EncodeShort(a: Byte, b: Byte)
    ensures Encode([a]) == [Letter(S0(a)), Letter(S1(a, 0)), PAD, PAD]
    ensures Encode([a, b]) == [Letter(S0(a)), Letter(S1(a, b)), Letter(S2(b, 0)), PAD]
    ensures Encode([]) == ""
  {
    hide Letter, S0, S1, S2, S3;
  }

  /** The last two letters. */
  lemma LastLetters()
    ensures Encode([0xfb, 0xff, 0xbf]) == "+/+/"
  {
    hide Letter;
    LetterIs(62, '+');
    LetterIs(63, '/');
    hide LetterCode;
    EncodeGroup(0xfb, 0xff, 0xbf, []);
    hide Encode;
    EncodeShort(0, 0);
  }
}
