/** The one-shot definition of MD5 that RFC 1321 gives: pad the whole message, then fold the
    compression function over its 64-byte blocks. */
module Rfc1321 {
  import opened Blocks
  import opened Bytes
  import opened Md5Rounds

  // RFC 1321, section 3.4: T[i] is the integer part of 4294967296 times abs(sin(i)), i in radians.
  const RFC_T: seq<bv32> := [
    0xd76aa478, 0xe8c7b756, 0x242070db, 0xc1bdceee,
    0xf57c0faf, 0x4787c62a, 0xa8304613, 0xfd469501,
    0x698098d8, 0x8b44f7af, 0xffff5bb1, 0x895cd7be,
    0x6b901122, 0xfd987193, 0xa679438e, 0x49b40821,
    0xf61e2562, 0xc040b340, 0x265e5a51, 0xe9b6c7aa,
    0xd62f105d, 0x02441453, 0xd8a1e681, 0xe7d3fbc8,
    0x21e1cde6, 0xc33707d6, 0xf4d50d87, 0x455a14ed,
    0xa9e3e905, 0xfcefa3f8, 0x676f02d9, 0x8d2a4c8a,
    0xfffa3942, 0x8771f681, 0x6d9d6122, 0xfde5380c,
    0xa4beea44, 0x4bdecfa9, 0xf6bb4b60, 0xbebfbc70,
    0x289b7ec6, 0xeaa127fa, 0xd4ef3085, 0x04881d05,
    0xd9d4d039, 0xe6db99e5, 0x1fa27cf8, 0xc4ac5665,
    0xf4292244, 0x432aff97, 0xab9423a7, 0xfc93a039,
    0x655b59c3, 0x8f0ccc92, 0xffeff47d, 0x85845dd1,
    0x6fa87e4f, 0xfe2ce6e0, 0xa3014314, 0x4e0811a1,
    0xf7537e82, 0xbd3af235, 0x2ad7d2bb, 0xeb86d391
  ]

  const INIT: Regs<bv32> := Regs(0x67452301, 0xefcdab89, 0x98badcfe, 0x10325476)

  function Aux(o: Round, x: bv32, y: bv32, z: bv32): bv32 {
    match o
    case F => (x & y) | (!x & z)
    case G => (x & z) | (y & !z)
    case H => x ^ y ^ z
    case I => y ^ (x | !z)
  }

  function Plus(x: bv32, y: bv32): bv32 {
    x + y
  }

  function Rotate(x: bv32, n: Shift): bv32 {
    x.RotateLeft(n)
  }

  const RFC_WORDS: WordOps<bv32> := WordOps(Plus, Rotate, Aux)

  function RfcMix(o: Round, a: bv32, b: bv32, c: bv32, d: bv32, x: bv32, s: Shift, i: StepIndex): bv32 {
    RfcSet(RFC_WORDS, o, a, b, c, d, x, s, RFC_T[i])
  }

  /** Section 2: four bytes are a word, low-order byte first. */
  function Word(b0: bv8, b1: bv8, b2: bv8, b3: bv8): bv32 {
    (b3 as bv32 << 24) | (b2 as bv32 << 16) | (b1 as bv32 << 8) | (b0 as bv32)
  }

  function WordAt(block: Block, k: nat): bv32
    requires k < 16
  {
    Word(block[4 * k] as bv8, block[4 * k + 1] as bv8, block[4 * k + 2] as bv8, block[4 * k + 3] as bv8)
  }

  function Words(block: Block): (X: seq<bv32>)
    ensures |X| == 16
  {
    seq(16, k requires 0 <= k < 16 => WordAt(block, k))
  }

  function Sum(r: Regs<bv32>, q: Regs<bv32>): Regs<bv32> {
    Regs(Plus(r.a, q.a), Plus(r.b, q.b), Plus(r.c, q.c), Plus(r.d, q.d))
  }

  function Compress(r: Regs<bv32>, block: Block): Regs<bv32> {
    Sum(r, Run(RfcMix, 4 * ROUND, r, Words(block)))
  }

  function ZeroCount(n: nat): nat {
    if n % 64 < 56 then 55 - n % 64 else 119 - n % 64
  }

  /** Section 3.1: the zeros bring the length to 56 modulo 64, and no shorter run of zeros does. */
  lemma ZeroCountLeast(n: nat, k: nat)
    ensures (n + 1 + ZeroCount(n)) % 64 == 56
    ensures (n + 1 + k) % 64 == 56 ==> ZeroCount(n) <= k
  {
    var q, r := n / 64, n % 64;
    assert n + 1 + ZeroCount(n) == 64 * (if r < 56 then q else q + 1) + 56;
    if k < ZeroCount(n) {
      assert n + 1 + k == 64 * (if r + 1 + k < 64 then q else q + 1) + if r + 1 + k < 64 then r + 1 + k else r + k - 63;
    }
  }

  function Zeros(n: nat): seq<Byte> {
    seq(n, _ => 0)
  }

  /** The four bytes of n modulo 2^32, low-order byte first. */
  function Octets(n: nat): (r: seq<Byte>)
    ensures |r| == 4
  {
    [n % 256, n / 256 % 256, n / 256 / 256 % 256, n / 256 / 256 / 256 % 256]
  }

  /** The eight bytes of n modulo 2^64, low-order byte first. */
  function LittleEndian64(n: nat): (r: seq<Byte>)
    ensures |r| == 8
  {
    Octets(n) + Octets(n / 0x1_0000_0000)
  }

  /** Sections 3.1 and 3.2. */
  function Padded(m: seq<Byte>): seq<Byte> {
    m + [0x80] + Zeros(ZeroCount(|m|)) + LittleEndian64(8 * |m|)
  }

  lemma PaddedIsBlocks(m: seq<Byte>)
    ensures |Padded(m)| % 64 == 0
  {
    ZeroCountLeast(|m|, 0);
    assert |Padded(m)| == |m| + 1 + ZeroCount(|m|) + 8;
    LengthFieldFits(|m| + 1 + ZeroCount(|m|));
  }

  /** The message, one bit, and zeros up to the length. */
  lemma PaddedAt(m: seq<Byte>, k: nat)
    requires k < |Padded(m)| - 8
    ensures Padded(m)[k] == if k < |m| then m[k] else if k == |m| then 128 else 0
  {
    var length := LittleEndian64(8 * |m|);
    hide LittleEndian64, ZeroCount;
    assert Padded(m) == m + [0x80] + Zeros(ZeroCount(|m|)) + length;
  }

  lemma LengthFieldFits(n: nat)
    requires n % 64 == 56
    ensures (n + 8) % 64 == 0
  {
  }

  /** Byte j of a word, counted from the low-order end. */
  function WordByte(w: bv32, j: nat): Byte
    requires j < 4
  {
    match j
    case 0 => (w & 0xff) as bv8 as int
    case 1 => ((w >> 8) & 0xff) as bv8 as int
    case 2 => ((w >> 16) & 0xff) as bv8 as int
    case _ => ((w >> 24) & 0xff) as bv8 as int
  }

  function WordBytes(w: bv32): (r: seq<Byte>)
    ensures |r| == 4
  {
    [WordByte(w, 0), WordByte(w, 1), WordByte(w, 2), WordByte(w, 3)]
  }

  /** Section 3.5: from the low-order byte of A to the high-order byte of D. */
  function Output(r: Regs<bv32>): (o: seq<Byte>)
    ensures |o| == 16
  {
    WordBytes(r.a) + WordBytes(r.b) + WordBytes(r.c) + WordBytes(r.d)
  }

  function Digest(message: seq<Byte>): (o: seq<Byte>)
    ensures |o| == 16
  {
    Output(Fold(Compress, INIT, Padded(message)))
  }

  /** The word in bytes i to i + 3. */
  function WordFrom(o: seq<Byte>, i: nat): bv32
    requires i + 4 <= |o|
  {
    Word(o[i] as bv8, o[i + 1] as bv8, o[i + 2] as bv8, o[i + 3] as bv8)
  }

  /** The output bytes determine the registers. */
  lemma OutputInjective(r: Regs<bv32>)
    ensures
      var o := Output(r);
      WordFrom(o, 0) == r.a && WordFrom(o, 4) == r.b && WordFrom(o, 8) == r.c && WordFrom(o, 12) == r.d
  {
    WordOfBytes(r.a);
    WordOfBytes(r.b);
    WordOfBytes(r.c);
    WordOfBytes(r.d);
    hide WordBytes;
    Quarters(WordBytes(r.a), WordBytes(r.b), WordBytes(r.c), WordBytes(r.d));
    hide WordFrom;
  }

  lemma Quarters(a: seq<Byte>, b: seq<Byte>, c: seq<Byte>, d: seq<Byte>)
    requires |a| == |b| == |c| == |d| == 4
    ensures
      var o := a + b + c + d;
      && WordFrom(o, 0) == WordFrom(a, 0) && WordFrom(o, 4) == WordFrom(b, 0)
      && WordFrom(o, 8) == WordFrom(c, 0) && WordFrom(o, 12) == WordFrom(d, 0)
  {
    var o := a + b + c + d;
    hide Word;
    SameWord(o, 0, a);
    SameWord(o, 4, b);
    SameWord(o, 8, c);
    SameWord(o, 12, d);
    hide WordFrom;
  }

  lemma SameWord(o: seq<Byte>, i: nat, a: seq<Byte>)
    requires |a| == 4 && i + 4 <= |o| && o[i] == a[0] && o[i + 1] == a[1] && o[i + 2] == a[2] && o[i + 3] == a[3]
    ensures WordFrom(o, i) == WordFrom(a, 0)
  {
    hide Word;
  }

  lemma WordOfBytes(w: bv32)
    ensures WordFrom(WordBytes(w), 0) == w
  {
    SameByte((w & 0xff) as bv8);
    SameByte(((w >> 8) & 0xff) as bv8);
    SameByte(((w >> 16) & 0xff) as bv8);
    SameByte(((w >> 24) & 0xff) as bv8);
    WordOfParts(w);
  }

  lemma SameByte(b: bv8)
    ensures b as int as bv8 == b
  {
  }

  lemma WordOfParts(w: bv32)
    ensures Word((w & 0xff) as bv8, ((w >> 8) & 0xff) as bv8, ((w >> 16) & 0xff) as bv8, ((w >> 24) & 0xff) as bv8) == w
  {
  }
}
