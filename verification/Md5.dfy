/** The incremental MD5 object of gloox/md5.cpp: a 64-byte partial-block buffer, a two-word bit
    count and four digest words, fed in pieces of any size. */
module Md5 {
  import opened Blocks
  import opened Bytes
  import opened Md5Rounds
  import opened Rfc1321
  import opened Text
  import HexText
  import Md5Count

  const T_MASK: bv32 := !0

  // The constants T1..T64 as the code spells them; T[i] holds T(i+1).
  const T: seq<bv32> := [
    T_MASK ^ 0x28955b87, T_MASK ^ 0x173848a9,
    0x242070db, T_MASK ^ 0x3e423111,
    T_MASK ^ 0x0a83f050, 0x4787c62a,
    T_MASK ^ 0x57cfb9ec, T_MASK ^ 0x02b96afe,
    0x698098d8, T_MASK ^ 0x74bb0850,
    T_MASK ^ 0x0000a44e, T_MASK ^ 0x76a32841,
    0x6b901122, T_MASK ^ 0x02678e6c,
    T_MASK ^ 0x5986bc71, 0x49b40821,
    T_MASK ^ 0x09e1da9d, T_MASK ^ 0x3fbf4cbf,
    0x265e5a51, T_MASK ^ 0x16493855,
    T_MASK ^ 0x29d0efa2, 0x02441453,
    T_MASK ^ 0x275e197e, T_MASK ^ 0x182c0437,
    0x21e1cde6, T_MASK ^ 0x3cc8f829,
    T_MASK ^ 0x0b2af278, 0x455a14ed,
    T_MASK ^ 0x561c16fa, T_MASK ^ 0x03105c07,
    0x676f02d9, T_MASK ^ 0x72d5b375,
    T_MASK ^ 0x0005c6bd, T_MASK ^ 0x788e097e,
    0x6d9d6122, T_MASK ^ 0x021ac7f3,
    T_MASK ^ 0x5b4115bb, 0x4bdecfa9,
    T_MASK ^ 0x0944b49f, T_MASK ^ 0x4140438f,
    0x289b7ec6, T_MASK ^ 0x155ed805,
    T_MASK ^ 0x2b10cf7a, 0x04881d05,
    T_MASK ^ 0x262b2fc6, T_MASK ^ 0x1924661a,
    0x1fa27cf8, T_MASK ^ 0x3b53a99a,
    T_MASK ^ 0x0bd6ddbb, 0x432aff97,
    T_MASK ^ 0x546bdc58, T_MASK ^ 0x036c5fc6,
    0x655b59c3, T_MASK ^ 0x70f3336d,
    T_MASK ^ 0x00100b82, T_MASK ^ 0x7a7ba22e,
    0x6fa87e4f, T_MASK ^ 0x01d3191f,
    T_MASK ^ 0x5cfebceb, 0x4e0811a1,
    T_MASK ^ 0x08ac817d, T_MASK ^ 0x42c50dca,
    0x2ad7d2bb, T_MASK ^ 0x14792c6e
  ]

  /** The ROTATE_LEFT macro. */
  function RotateLeft(x: bv32, n: Shift): bv32 {
    (x << n) | (x >> (32 - n))
  }

  const CODE_WORDS: WordOps<bv32> := WordOps(Plus, RotateLeft, Aux)

  function CodeMix(o: Round, a: bv32, b: bv32, c: bv32, d: bv32, x: bv32, s: Shift, i: StepIndex): bv32 {
    Set(CODE_WORDS, o, a, b, c, d, x, s, T[i])
  }

  /** The complemented constants are the table of RFC 1321. */
  lemma TablesAgree(i: StepIndex)
    ensures T[i] == RFC_T[i]
  {
  }

  /** One macro step is one step of RFC 1321. */
  lemma CodeMixIsRfcMix(o: Round, a: bv32, b: bv32, c: bv32, d: bv32, x: bv32, s: Shift, i: StepIndex)
    ensures CodeMix(o, a, b, c, d, x, s, i) == RfcMix(o, a, b, c, d, x, s, i)
  {
    TablesAgree(i);
    forall t, n
      ensures CODE_WORDS.rotate(t, n) == RFC_WORDS.rotate(t, n)
    {
      RotateLeftRotates(t, n);
    }
    SetIsRfcSet(CODE_WORDS, RFC_WORDS, o, a, b, c, d, x, s, T[i]);
  }

  lemma RotateLeftRotates(t: bv32, s: Shift)
    ensures RotateLeft(t, s) == Rotate(t, s)
  {
    match s
    case 1 => case 2 => case 3 => case 4 => case 5 => case 6 => case 7 => case 8 =>
    case 9 => case 10 => case 11 => case 12 => case 13 => case 14 => case 15 => case 16 =>
    case 17 => case 18 => case 19 => case 20 => case 21 => case 22 => case 23 => case 24 =>
    case 25 => case 26 => case 27 => case 28 => case 29 => case 30 => case 31 =>
  }

  function ShiftAdd(b0: bv8, b1: bv8, b2: bv8, b3: bv8): bv32 {
    b0 as bv32 + (b1 as bv32 << 8) + (b2 as bv32 << 16) + (b3 as bv32 << 24)
  }

  /** The shift-and-add decoding of the big-endian path reads the same word. */
  lemma ShiftAddIsWord(b0: bv8, b1: bv8, b2: bv8, b3: bv8)
    ensures ShiftAdd(b0, b1, b2, b3) == Word(b0, b1, b2, b3)
  {
  }

  const PAD: seq<Byte> := [0x80] + Zeros(63)

  const INIT_A: bv32 := 0x67452301
  const INIT_B: bv32 := T_MASK ^ 0x10325476
  const INIT_C: bv32 := T_MASK ^ 0x67452301
  const INIT_D: bv32 := 0x10325476

  lemma InitAgrees()
    ensures Fold(Compress, INIT, []) == Regs(INIT_A, INIT_B, INIT_C, INIT_D)
    ensures Md5Count.Counts(0, 0, 0)
    ensures Tail([]) == []
  {
  }

  function Load(littleEndian: bool, b0: bv8, b1: bv8, b2: bv8, b3: bv8): bv32 {
    if littleEndian then Word(b0, b1, b2, b3) else Word(b3, b2, b1, b0)
  }

  function LoadAt(data: Block, littleEndian: bool, k: nat): bv32
    requires k < 16
  {
    Load(littleEndian, data[4 * k] as bv8, data[4 * k + 1] as bv8, data[4 * k + 2] as bv8, data[4 * k + 3] as bv8)
  }

  /** The block as an array of the host's own words. */
  function Loads(data: Block, littleEndian: bool): (X: seq<bv32>)
    ensures |X| == 16
  {
    seq(16, k requires 0 <= k < 16 => LoadAt(data, littleEndian, k))
  }

  lemma LoadIsWord(data: Block, k: nat)
    requires k < 16
    ensures LoadAt(data, true, k) == WordAt(data, k)
  {
    hide Word;
  }

  lemma LoadsAreWords(data: Block)
    ensures Loads(data, true) == Words(data)
  {
    hide LoadAt, WordAt;
    forall k | 0 <= k < 16
      ensures Loads(data, true)[k] == Words(data)[k]
    {
      LoadIsWord(data, k);
    }
  }

  lemma WordsAt(data: Block, k: nat)
    requires k < 16
    ensures Words(data)[k] == WordAt(data, k)
  {
    hide WordAt;
  }

  lemma ShiftAddIsWordAt(data: Block, k: nat)
    requires k < 16
    ensures ShiftAdd(data[4 * k] as bv8, data[4 * k + 1] as bv8, data[4 * k + 2] as bv8, data[4 * k + 3] as bv8) == Words(data)[k]
  {
    WordsAt(data, k);
    hide Word, ShiftAdd, Words;
    ShiftAddIsWord(data[4 * k] as bv8, data[4 * k + 1] as bv8, data[4 * k + 2] as bv8, data[4 * k + 3] as bv8);
  }

  /** The block as the two code paths of `process` read it. */
  method DecodeBlock(data: Block, littleEndianHost: bool) returns (X: seq<bv32>)
    ensures X == Words(data)
  {
    hide ShiftAdd, WordAt, Words, Loads;
    if littleEndianHost {
      X := Loads(data, littleEndianHost);
      LoadsAreWords(data);
    } else {
      var xbuf := new bv32[16];
      for i := 0 to 16
        invariant xbuf[..i] == Words(data)[..i]
      {
        var xp := 4 * i;
        xbuf[i] := ShiftAdd(data[xp] as bv8, data[xp + 1] as bv8, data[xp + 2] as bv8, data[xp + 3] as bv8);
        ShiftAddIsWordAt(data, i);
        assert xbuf[..i + 1] == xbuf[..i] + [xbuf[i]];
      }
      X := xbuf[..];
    }
  }

  lemma CodeCompresses(r: Regs<bv32>, data: Block)
    ensures Compress(r, data) == Sum(r, Run(CodeMix, 4 * ROUND, r, Words(data)))
  {
    forall o, a, b, c, d, x, s, i
      ensures CodeMix(o, a, b, c, d, x, s, i) == RfcMix(o, a, b, c, d, x, s, i)
    {
      CodeMixIsRfcMix(o, a, b, c, d, x, s, i);
    }
    RunExtensional(CodeMix, RfcMix, 4 * ROUND, r, Words(data));
  }

  /** How many bytes of a string of length n `feed( const std::string& )` absorbs. */
  function Taken(n: nat): (t: nat)
    ensures t <= n
  {
    if Md5Count.ToInt(n) > 0 then Md5Count.ToInt(n) else 0
  }

  /** All of them exactly when the length is an `int`. */
  lemma TakenIsAll(n: nat)
    ensures Taken(n) == n <==> n <= Md5Count.INT_MAX
  {
  }

  lemma FeedsArePadding(m: seq<Byte>, n: nat, data: seq<Byte>)
    requires n <= 64 && n == 1 + ZeroCount(|m|) && data == LittleEndian64(8 * |m|)
    ensures m + PAD[..n] + data[..8] == Padded(m)
  {
    assert PAD[..n] == [0x80] + Zeros(ZeroCount(|m|));
  }

  function HexDigit(n: nat): char
    requires n < 16
  {
    "0123456789abcdef"[n]
  }

  /** `%02x` of every byte. */
  function HexString(b: seq<Byte>): (s: string)
    ensures |s| == 2 * |b|
    ensures forall i | 0 <= i < |b| :: s[2 * i] == HexDigit(b[i] / 16) && s[2 * i + 1] == HexDigit(b[i] % 16)
  {
    if b == [] then "" else [HexDigit(b[0] / 16), HexDigit(b[0] % 16)] + HexString(b[1..])
  }

  lemma HexDigitReads(n: nat)
    requires n < 16
    ensures HexText.ReadDigit(HexDigit(n)) == Some(n)
  {
  }

  lemma HexByteReads(b: Byte)
    ensures HexText.ReadByte(HexDigit(b / 16), HexDigit(b % 16)) == Some(b)
  {
    HexDigitReads(b / 16);
    HexDigitReads(b % 16);
    hide HexDigit, HexText.ReadDigit;
  }

  /** It is the one text from which the bytes are read back. */
  lemma {:induction false} HexStringReads(b: seq<Byte>)
    ensures HexText.Read(HexString(b)) == Some(b)
  {
    if b != [] {
      HexByteReads(b[0]);
      HexStringReads(b[1..]);
      hide HexDigit, HexText.ReadByte;
      assert HexString(b)[2..] == HexString(b[1..]);
      assert b == [b[0]] + b[1..];
    }
  }

  lemma HexStringIff(s: string, b: seq<Byte>)
    ensures HexText.Read(s) == Some(b) <==> s == HexString(b)
  {
    HexStringReads(b);
    if HexText.Read(s) == Some(b) {
      HexText.ReadOnce(s, HexString(b));
    }
    hide HexString, HexText.Read;
  }

  lemma {:induction false} HexStringSnoc(b: seq<Byte>, c: Byte)
    ensures HexString(b + [c]) == HexString(b) + [HexDigit(c / 16), HexDigit(c % 16)]
  {
    if b != [] {
      assert (b + [c])[1..] == b[1..] + [c];
      HexStringSnoc(b[1..], c);
    }
  }

  /** The `sprintf` loop. */
  method PrintHex(digest: seq<Byte>) returns (s: string)
    ensures s == HexString(digest)
  {
    s := "";
    for i := 0 to |digest|
      invariant s == HexString(digest[..i])
    {
      s := s + [HexDigit(digest[i] / 16), HexDigit(digest[i] % 16)];
      hide HexString, HexDigit;
      HexStringSnoc(digest[..i], digest[i]);
      assert digest[..i] + [digest[i]] == digest[..i + 1];
    }
    assert digest[..|digest|] == digest;
  }

  /** `(unsigned char)( abcd[i >> 2] >> ( ( i & 3 ) << 3 ) )`. */
  function DigestByte(r: Regs<bv32>, i: nat): Byte
    requires i < 16
  {
    WordByte(if i < 4 then r.a else if i < 8 then r.b else if i < 12 then r.c else r.d, i % 4)
  }

  lemma DigestByteIsOutput(r: Regs<bv32>, i: nat)
    requires i < 16
    ensures DigestByte(r, i) == Output(r)[i]
  {
    hide WordByte;
  }

  function Concat(chunks: seq<seq<Byte>>): seq<Byte> {
    if chunks == [] then [] else chunks[0] + Concat(chunks[1..])
  }

  lemma {:induction false} ConcatSnoc(chunks: seq<seq<Byte>>, c: seq<Byte>)
    ensures Concat(chunks + [c]) == Concat(chunks) + c
  {
    if chunks != [] {
      assert (chunks + [c])[1..] == chunks[1..] + [c];
      ConcatSnoc(chunks[1..], c);
    }
  }

  class MD5 {
    const count: array<nat>
    const buf: array<Byte>
    const littleEndianHost: bool
    var abcd: Regs<bv32>
    var finished: bool
    /** Every byte absorbed since the last `init`, padding included. */
    ghost var fed: seq<Byte>

    ghost predicate Valid()
      reads this, count, buf
    {
      && count.Length == 2 && buf.Length == 64
      && Md5Count.Counts(count[0], count[1], |fed|)
      && abcd == Fold(Compress, INIT, fed)
      && buf[..|Tail(fed)|] == Tail(fed)
    }

    constructor (littleEndianHost: bool)
      ensures Valid() && fresh(count) && fresh(buf)
      ensures fed == [] && !finished
    {
      this.littleEndianHost := littleEndianHost;
      count, buf := new nat[2], new Byte[64];
      abcd := INIT;
      fed := [];
      new;
      Init();
    }

    method Init()
      requires count.Length == 2 && buf.Length == 64
      modifies this, count
      ensures Valid() && fed == [] && !finished
    {
      hide Compress, Fold, Tail;
      finished := false;
      count[0] := 0;
      count[1] := 0;
      abcd := Regs(INIT_A, INIT_B, INIT_C, INIT_D);
      fed := [];
      InitAgrees();
    }

    method Process(data: Block)
      modifies this`abcd
      ensures abcd == Compress(old(abcd), data)
    {
      hide Plus, CodeMix;
      var X := DecodeBlock(data, littleEndianHost);
      var r := Round1(CodeMix, abcd, abcd, X);
      r := Round2(CodeMix, abcd, r, X);
      r := Round3(CodeMix, abcd, r, X);
      r := Round4(CodeMix, abcd, r, X);
      CodeCompresses(abcd, data);
      abcd := abcd.(a := Plus(abcd.a, r.a));
      abcd := abcd.(b := Plus(abcd.b, r.b));
      abcd := abcd.(c := Plus(abcd.c, r.c));
      abcd := abcd.(d := Plus(abcd.d, r.d));
    }

    /** `memcpy` into the block buffer. */
    method Copy(at: nat, src: seq<Byte>)
      requires buf.Length == 64 && at + |src| <= 64
      modifies buf
      ensures buf[..at + |src|] == old(buf[..at]) + src
    {
      forall i | 0 <= i < |src| {
        buf[at + i] := src[i];
      }
      assert buf[..at] == old(buf[..at]);
      assert buf[at..at + |src|] == src;
    }

    /** The length update of `feed`. */
    method AddLength(bytes: nat)
      requires count.Length == 2 && bytes <= Md5Count.INT_MAX
      requires Md5Count.Counts(count[0], count[1], |fed|)
      modifies count
      ensures Md5Count.Counts(count[0], count[1], |fed| + bytes)
    {
      hide Md5Count.Counts, Md5Count.LowBits, Md5Count.HighBits, Md5Count.Trunc;
      Md5Count.Add(count[0], count[1], |fed|, bytes);
      var nbits := Md5Count.LowBits(bytes);
      count[1] := Md5Count.Trunc(count[1] + Md5Count.HighBits(bytes));
      count[0] := Md5Count.Trunc(count[0] + nbits);
      if count[0] < nbits {
        count[1] := Md5Count.Trunc(count[1] + 1);
      }
    }

    /** `offset + bytes` is computed in `int`. */
    method Feed(data: seq<Byte>, bytes: int)
      requires Valid() && bytes <= |data| && |Tail(fed)| + bytes <= Md5Count.INT_MAX
      modifies this`abcd, this`fed, count, buf
      ensures Valid()
      ensures fed == old(fed) + if bytes <= 0 then [] else data[..bytes]
    {
      hide Compress, Fold, Tail, Md5Count.Counts;
      var offset := count[0] / 8 % 64;
      Md5Count.Offset(count[0], count[1], |fed|);
      TailLength(fed);
      if bytes <= 0 {
        return;
      }
      AddLength(bytes);
      ghost var was := fed;
      fed := was + data[..bytes];

      var p := 0;
      if offset != 0 {
        var copy := if offset + bytes > 64 then 64 - offset else bytes;
        Copy(offset, data[..copy]);
        if offset + copy < 64 {
          FoldPart(Compress, INIT, was, data[..bytes]);
          return;
        }
        p := copy;
        FoldFull(Compress, INIT, was, data[..p]);
        assert buf[..] == Tail(was) + data[..p];
        Process(buf[..]);
      } else {
        assert was + data[..p] == was;
      }
      p := FullBlocks(data, p, bytes, was);
      FinalBlock(data, p, bytes, was);
    }

    /** The loop of `feed` over the full blocks of what is left of `data`. */
    method FullBlocks(data: seq<Byte>, start: nat, bytes: nat, ghost was: seq<Byte>) returns (p: nat)
      requires start <= bytes <= |data|
      requires Tail(was + data[..start]) == []
      requires abcd == Fold(Compress, INIT, was + data[..start])
      modifies this`abcd
      ensures p <= bytes < p + 64
      ensures Tail(was + data[..p]) == []
      ensures abcd == Fold(Compress, INIT, was + data[..p])
    {
      hide Compress, Fold, Tail;
      p := start;
      var left := bytes - start;
      while left >= 64
        invariant p <= bytes && left == bytes - p
        invariant Tail(was + data[..p]) == []
        invariant abcd == Fold(Compress, INIT, was + data[..p])
      {
        FoldFull(Compress, INIT, was + data[..p], data[p..p + 64]);
        assert was + data[..p] + data[p..p + 64] == was + data[..p + 64];
        assert [] + data[p..p + 64] == data[p..p + 64];
        Process(data[p..p + 64]);
        p := p + 64;
        left := left - 64;
      }
    }

    /** The tail of `feed`: the bytes of an unfinished block go to the buffer. */
    method FinalBlock(data: seq<Byte>, p: nat, bytes: nat, ghost was: seq<Byte>)
      requires buf.Length == 64 && p <= bytes <= |data| && bytes < p + 64
      requires Tail(was + data[..p]) == []
      requires abcd == Fold(Compress, INIT, was + data[..p])
      modifies buf
      ensures abcd == Fold(Compress, INIT, was + data[..bytes])
      ensures buf[..|Tail(was + data[..bytes])|] == Tail(was + data[..bytes])
    {
      hide Compress, Fold, Tail;
      FoldPart(Compress, INIT, was + data[..p], data[p..bytes]);
      assert was + data[..p] + data[p..bytes] == was + data[..bytes];
      assert Tail(was + data[..bytes]) == data[p..bytes];
      if bytes != p {
        Copy(0, data[p..bytes]);
        assert old(buf[..0]) + data[p..bytes] == data[p..bytes];
      }
    }

    /** `feed( const std::string& )`: the length goes through `int`. */
    method FeedString(data: seq<Byte>)
      requires Valid() && |Tail(fed)| + Md5Count.ToInt(|data|) <= Md5Count.INT_MAX
      modifies this`abcd, this`fed, count, buf
      ensures Valid()
      ensures fed == old(fed) + data[..Taken(|data|)]
    {
      Feed(data, Md5Count.ToInt(|data|));
    }

    /** The message length before padding. */
    method SaveLength() returns (data: seq<Byte>)
      requires count.Length == 2 && Md5Count.Counts(count[0], count[1], |fed|)
      ensures data == LittleEndian64(8 * |fed|)
    {
      Md5Count.LengthBytes(count[0], count[1], |fed|);
      hide LittleEndian64, Md5Count.Counts, Md5Count.LengthByte;
      data := [];
      for i := 0 to 8
        invariant data == LittleEndian64(8 * |fed|)[..i]
      {
        data := data + [Md5Count.LengthByte(count[0], count[1], i)];
      }
    }

    method Finalize()
      requires Valid()
      modifies this, count, buf
      ensures Valid() && finished
      ensures fed == if old(finished) then old(fed) else Padded(old(fed))
    {
      if finished {
        return;
      }
      hide Compress, Fold, Tail, Md5Count.Counts, Md5Count.PadLength, Padded, LittleEndian64, ZeroCount;
      ghost var was := fed;
      var data := SaveLength();
      var n := Md5Count.PadLength(count[0]);
      Md5Count.PadLengthIsZeros(count[0], count[1], |fed|);
      Feed(PAD, n);
      Feed(data, 8);
      FeedsArePadding(was, n, data);
      finished := true;
    }

    /** What the digest of this object is a digest of. */
    ghost function Absorbed(): seq<Byte>
      reads this
    {
      if finished then fed else Padded(fed)
    }

    method DigestBytes() returns (digest: seq<Byte>)
      ensures digest == Output(abcd)
    {
      hide WordBytes;
      digest := [];
      for i := 0 to 16
        invariant digest == Output(abcd)[..i]
      {
        digest := digest + [DigestByte(abcd, i)];
        DigestByteIsOutput(abcd, i);
      }
    }

    method Binary() returns (digest: seq<Byte>)
      requires Valid()
      modifies this, count, buf
      ensures Valid() && finished && fed == old(Absorbed())
      ensures digest == Output(Fold(Compress, INIT, fed))
    {
      hide Compress, Fold, Tail, Md5Count.Counts, Padded, Output;
      if !finished {
        Finalize();
      }
      digest := DigestBytes();
    }

    method Hex() returns (s: string)
      requires Valid()
      modifies this, count, buf
      ensures Valid() && finished && fed == old(Absorbed())
      ensures HexText.Read(s) == Some(Output(Fold(Compress, INIT, fed)))
      ensures s == HexString(Output(Fold(Compress, INIT, fed)))
    {
      hide Compress, Fold, Tail, Md5Count.Counts, Padded, Output;
      if !finished {
        Finalize();
      }
      var digest := DigestBytes();
      s := PrintHex(digest);
      HexStringReads(digest);
    }

    method Reset()
      requires Valid()
      modifies this, count
      ensures Valid() && fed == [] && !finished
    {
      Init();
    }
  }

  /** The calls a user makes: any number of `feed`s, then `binary`. */
  method DigestOfChunks(chunks: seq<seq<Byte>>, littleEndianHost: bool) returns (digest: seq<Byte>)
    requires forall i | 0 <= i < |chunks| :: |Concat(chunks[..i])| % 64 + |chunks[i]| <= Md5Count.INT_MAX
    ensures digest == Digest(Concat(chunks))
  {
    hide Compress, Fold, Tail, Md5Count.Counts, Padded;
    var md5 := new MD5(littleEndianHost);
    for i := 0 to |chunks|
      invariant md5.Valid() && fresh(md5) && fresh(md5.count) && fresh(md5.buf) && !md5.finished
      invariant md5.fed == Concat(chunks[..i])
    {
      TailLength(md5.fed);
      md5.FeedString(chunks[i]);
      ConcatSnoc(chunks[..i], chunks[i]);
      assert chunks[..i] + [chunks[i]] == chunks[..i + 1];
    }
    assert chunks[..|chunks|] == chunks;
    digest := md5.Binary();
  }
}
