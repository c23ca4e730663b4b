/** Lower-case hexadecimal text, read back by character ranges: what `%02x` of every byte promises. */
module HexText {
  import opened Bytes
  import opened Text

  /** '0' to '9' and 'a' to 'f', and nothing else. */
  function ReadDigit(c: char): (v: Option<nat>)
    ensures v.Some? ==> v.value < 16
  {
    if '0' <= c <= '9' then Some(c as int - '0' as int)
    else if 'a' <= c <= 'f' then Some(c as int - 'a' as int + 10)
    else None
  }

  /** Two digits a byte, the high one first. */
  function ReadByte(c: char, d: char): Option<Byte> {
    match (ReadDigit(c), ReadDigit(d))
    case (Some(high), Some(low)) => Some(16 * high + low)
    case _ => None
  }

  function Read(s: string): Option<seq<Byte>> {
    if s == "" then Some([])
    else if |s| == 1 then None
    else
      match (ReadByte(s[0], s[1]), Read(s[2..]))
      case (Some(b), Some(rest)) => Some([b] + rest)
      case _ => None
  }

  lemma DigitsDiffer(c: char, d: char)
    requires ReadDigit(c).Some? && ReadDigit(c) == ReadDigit(d)
    ensures c == d
  {
  }

  lemma BytesDiffer(a: char, b: char, c: char, d: char)
    requires ReadByte(a, b).Some? && ReadByte(a, b) == ReadByte(c, d)
    ensures a == c && b == d
  {
    DigitsDiffer(a, c);
    DigitsDiffer(b, d);
  }

  /** A byte string has one text at most. */
  lemma {:induction false} ReadOnce(s: string, t: string)
    requires Read(s).Some? && Read(s) == Read(t)
    ensures s == t
    decreases |s|
  {
    if s != "" && t != "" {
      var b, c := Read(s).value, Read(t).value;
      assert b[0] == c[0] && b[1..] == c[1..];
      assert Some(b[1..]) == Read(s[2..]) && Some(c[1..]) == Read(t[2..]);
      BytesDiffer(s[0], s[1], t[0], t[1]);
      ReadOnce(s[2..], t[2..]);
      assert s == [s[0], s[1]] + s[2..] && t == [t[0], t[1]] + t[2..];
    }
  }
}
