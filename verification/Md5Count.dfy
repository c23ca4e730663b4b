/** The two-word bit counter of gloox/md5.cpp, in 32-bit unsigned arithmetic. */
module Md5Count {
  import opened Blocks
  import opened Bytes
  import opened Rfc1321

  const INT_MAX: int := 0x7fff_ffff

  /** `(int)n` for an unsigned 64-bit n. */
  function ToInt(n: nat): (i: int)
    ensures -INT_MAX - 1 <= i <= INT_MAX
    ensures i == n <==> n <= INT_MAX
  {
    var w := n % 0x1_0000_0000;
    if w <= INT_MAX then w else w - 0x1_0000_0000
  }

  /** The words hold the bit length of n bytes modulo 2^64. */
  ghost predicate Counts(count0: nat, count1: nat, n: nat) {
    && count0 < 0x1_0000_0000
    && count1 < 0x1_0000_0000
    && count1 * 0x1_0000_0000 + count0 == 8 * n % 0x1_0000_0000_0000_0000
  }

  /** What an `unsigned int` keeps of a number. */
  function Trunc(n: nat): (r: nat)
    ensures r < 0x1_0000_0000
  {
    n % 0x1_0000_0000
  }

  /** `bytes << 3` */
  function LowBits(bytes: nat): nat {
    Trunc(8 * bytes)
  }

  /** `bytes >> 29` */
  function HighBits(bytes: nat): nat {
    bytes / 0x2000_0000
  }

  function AddLow(count0: nat, bytes: nat): nat {
    Trunc(count0 + LowBits(bytes))
  }

  /** The high bits and then the carry. */
  function AddHigh(count0: nat, count1: nat, bytes: nat): nat {
    var high := Trunc(count1 + HighBits(bytes));
    if AddLow(count0, bytes) < LowBits(bytes) then Trunc(high + 1) else high
  }

  /** The padding length that `finalize` computes. */
  function PadLength(count0: nat): (n: nat)
    ensures 1 <= n <= 64
  {
    (55 - count0 / 8) % 0x1_0000_0000 % 64 + 1
  }

  lemma Split(count0: nat, count1: nat, n: nat) returns (k: nat)
    requires Counts(count0, count1, n)
    ensures count0 < 0x1_0000_0000
    ensures 8 * n == k * 0x1_0000_0000_0000_0000 + count1 * 0x1_0000_0000 + count0
  {
    k := 8 * n / 0x1_0000_0000_0000_0000;
  }

  lemma Join(count0: nat, count1: nat, n: nat, k: nat)
    requires count0 < 0x1_0000_0000 && count1 < 0x1_0000_0000
    requires 8 * n == k * 0x1_0000_0000_0000_0000 + count1 * 0x1_0000_0000 + count0
    ensures Counts(count0, count1, n)
  {
  }

  /** `( count[0] >> 3 ) & 63` is the fill of the block buffer, however often the counter has wrapped. */
  lemma Offset(count0: nat, count1: nat, n: nat)
    requires Counts(count0, count1, n)
    ensures count0 / 8 % 64 == n % 64
  {
    var k := Split(count0, count1, n);
    SameFill(n, count0, k * 0x80_0000_0000_0000 + count1 * 0x80_0000);
  }

  lemma SameFill(n: nat, count0: nat, k: nat)
    requires 8 * n == count0 + 512 * k
    ensures count0 / 8 % 64 == n % 64
  {
    assert count0 / 8 == n - 64 * k;
  }

  lemma PadLengthIsZeros(count0: nat, count1: nat, n: nat)
    requires Counts(count0, count1, n)
    ensures PadLength(count0) == 1 + ZeroCount(n)
  {
    Offset(count0, count1, n);
    PadLengthMod(count0 / 8);
  }

  lemma PadLengthMod(m: nat)
    ensures (55 - m) % 0x1_0000_0000 % 64 == ZeroCount(m)
  {
    var q := (55 - m) / 0x1_0000_0000;
    assert 55 - m == q * 0x1_0000_0000 + (55 - m) % 0x1_0000_0000;
    assert 119 - m % 64 == (55 - m) % 0x1_0000_0000 + 64 * (q * 0x400_0000 + m / 64 + 1);
  }

  /** Truncating `bytes << 3`, adding it, carrying, and adding `bytes >> 29` make one 64-bit addition. */
  lemma Add(count0: nat, count1: nat, n: nat, bytes: nat)
    requires Counts(count0, count1, n) && bytes <= INT_MAX
    ensures Counts(AddLow(count0, bytes), AddHigh(count0, count1, bytes), n + bytes)
  {
    hide *;
    var k := Split(count0, count1, n);
    var low, carry := AddLow(count0, bytes), if AddLow(count0, bytes) < LowBits(bytes) then 1 else 0;
    LowWord(count0, bytes);
    var high, j := HighWord(count1, HighBits(bytes), carry);
    Words(count0, count1, bytes);
    Join(low, high, n + bytes, k + j);
  }

  lemma Words(count0: nat, count1: nat, bytes: nat)
    ensures AddLow(count0, bytes) < 0x1_0000_0000
    ensures
      var carry := if AddLow(count0, bytes) < LowBits(bytes) then 1 else 0;
      AddHigh(count0, count1, bytes) == ((count1 + HighBits(bytes)) % 0x1_0000_0000 + carry) % 0x1_0000_0000
  {
    hide LowBits;
  }

  lemma LowWord(count0: nat, bytes: nat)
    requires count0 < 0x1_0000_0000
    ensures
      var carry := if AddLow(count0, bytes) < LowBits(bytes) then 1 else 0;
      count0 + 8 * bytes == (HighBits(bytes) + carry) * 0x1_0000_0000 + AddLow(count0, bytes)
  {
    var nbits := LowBits(bytes);
    assert 8 * bytes == HighBits(bytes) * 0x1_0000_0000 + nbits;
    assert count0 + nbits == AddLow(count0, bytes) + (count0 + nbits) / 0x1_0000_0000 * 0x1_0000_0000;
  }

  lemma HighWord(count1: nat, hi: nat, carry: nat) returns (high: nat, j: nat)
    ensures high < 0x1_0000_0000
    ensures high == ((count1 + hi) % 0x1_0000_0000 + carry) % 0x1_0000_0000
    ensures count1 + hi + carry == j * 0x1_0000_0000 + high
  {
    var h := (count1 + hi) % 0x1_0000_0000;
    high := (h + carry) % 0x1_0000_0000;
    j := (count1 + hi) / 0x1_0000_0000 + (h + carry) / 0x1_0000_0000;
  }

  /** The byte `(unsigned char)( count[i >> 2] >> ( ( i & 3 ) << 3 ) )`. */
  function LengthByte(count0: nat, count1: nat, i: nat): Byte
    requires i < 8
  {
    Octets(if i < 4 then count0 else count1)[i % 4]
  }

  lemma LengthOctets(count0: nat, count1: nat, n: nat)
    requires Counts(count0, count1, n)
    ensures LittleEndian64(8 * n) == Octets(count0) + Octets(count1)
  {
    hide Octets, Counts, LittleEndian64;
    var k := Split(count0, count1, n);
    OctetsWrap(8 * n, k * 0x1_0000_0000 + count1, count0);
    HighHalf(8 * n, k * 0x1_0000_0000 + count1, count0);
    OctetsWrap(k * 0x1_0000_0000 + count1, k, count1);
    Halves(8 * n);
  }

  lemma Halves(n: nat)
    ensures LittleEndian64(n) == Octets(n) + Octets(n / 0x1_0000_0000)
  {
    hide Octets;
  }

  /** The length field of the padding. */
  lemma LengthBytes(count0: nat, count1: nat, n: nat)
    requires Counts(count0, count1, n)
    ensures forall i | 0 <= i < 8 :: LengthByte(count0, count1, i) == LittleEndian64(8 * n)[i]
  {
    hide *;
    LengthOctets(count0, count1, n);
    forall i | 0 <= i < 8
      ensures LengthByte(count0, count1, i) == LittleEndian64(8 * n)[i]
    {
      LengthByteAt(count0, count1, i);
    }
  }

  lemma LengthByteAt(count0: nat, count1: nat, i: nat)
    requires i < 8
    ensures LengthByte(count0, count1, i) == (Octets(count0) + Octets(count1))[i]
  {
    hide Octets;
    assert i % 4 == if i < 4 then i else i - 4;
  }

  lemma HighHalf(n: nat, high: nat, low: nat)
    requires n == high * 0x1_0000_0000 + low && low < 0x1_0000_0000
    ensures n / 0x1_0000_0000 == high
  {
  }

  lemma OctetsWrap(n: nat, k: nat, low: nat)
    requires n == k * 0x1_0000_0000 + low
    ensures Octets(n) == Octets(low)
  {
    ShiftByte(n, k * 0x100_0000, low);
    ShiftByte(n / 256, k * 0x1_0000, low / 256);
    ShiftByte(n / 256 / 256, k * 0x100, low / 256 / 256);
    ShiftByte(n / 256 / 256 / 256, k, low / 256 / 256 / 256);
  }

  lemma ShiftByte(n: nat, k: nat, low: nat)
    requires n == k * 256 + low
    ensures n % 256 == low % 256 && n / 256 == k + low / 256
  {
  }
}
