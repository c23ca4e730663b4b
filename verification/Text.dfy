/** The std::string and C library operations that the modelled code relies on. */
module Text {

  datatype Option<+T> = None | Some(value: T)

  predicate At(s: string, p: string, i: nat) {
    i + |p| <= |s| && s[i..i + |p|] == p
  }

  /** `s.find( p, from )`; `None` is `npos`. */
  function Find(s: string, p: string, from: nat): (r: Option<nat>)
    ensures r.Some? ==> from <= r.value && At(s, p, r.value) && forall i | from <= i < r.value :: !At(s, p, i)
    ensures r.None? ==> forall i | from <= i :: !At(s, p, i)
    decreases |s| - from
  {
    if At(s, p, from) then Some(from)
    else if from + |p| >= |s| then None
    else Find(s, p, from + 1)
  }

  /** The first match is the only answer `Find` can give. */
  lemma FindIs(s: string, p: string, from: nat, i: nat)
    requires from <= i && At(s, p, i) && forall k | from <= k < i :: !At(s, p, k)
    ensures Find(s, p, from) == Some(i)
  {
  }

  /** A match that is found stays the first match when text is appended. */
  lemma FindExtends(s: string, t: string, p: string, from: nat)
    requires Find(s, p, from).Some?
    ensures Find(s + t, p, from) == Find(s, p, from)
  {
    var i := Find(s, p, from).value;
    forall k | from <= k <= i
      ensures At(s + t, p, k) == At(s, p, k)
    {
      assert (s + t)[k..k + |p|] == s[k..k + |p|];
    }
    FindIs(s + t, p, from, i);
  }

  /** `s.substr( pos, n )` for pos at most |s|. */
  function Substr(s: string, pos: nat, n: nat): string
    requires pos <= |s|
  {
    if n <= |s| - pos then s[pos..pos + n] else s[pos..]
  }

  /** std::toupper in the C locale. */
  function Upper(c: char): char {
    if 'a' <= c <= 'z' then 'A' + (c - 'a') else c
  }

  function UpperAll(s: string): (u: string)
    ensures |u| == |s|
  {
    seq(|s|, i requires 0 <= i < |s| => Upper(s[i]))
  }

  predicate IsSpace(c: char) {
    c == ' ' || '\t' <= c <= '\r'
  }

  predicate IsDigit(c: char) {
    '0' <= c <= '9'
  }

  const LONG_MAX: int := 0x7fff_ffff_ffff_ffff

  /** The leading digits of s, read as a decimal number on top of n. */
  function Digits(s: string, n: nat): nat {
    if s == "" || !IsDigit(s[0]) then n else Digits(s[1..], 10 * n + (s[0] as int - '0' as int))
  }

  /** `atol`: white space, a sign, digits; a value out of range saturates. */
  function Atol(s: string): (n: int)
    ensures -LONG_MAX - 1 <= n <= LONG_MAX
  {
    if s != "" && IsSpace(s[0]) then Atol(s[1..])
    else if s != "" && s[0] == '-' then
      var n: int := 0 - Digits(s[1..], 0);
      if n < -LONG_MAX - 1 then -LONG_MAX - 1 else n
    else
      var n := Digits(if s != "" && s[0] == '+' then s[1..] else s, 0);
      if n > LONG_MAX then LONG_MAX else n
  }

  /** `atoi`: `(int)` of the `long` that strtol returns. */
  function Atoi(s: string): (n: int)
    ensures -0x8000_0000 <= n <= 0x7fff_ffff
    ensures -0x8000_0000 <= Atol(s) <= 0x7fff_ffff ==> n == Atol(s)
  {
    (Atol(s) + 0x8000_0000) % 0x1_0000_0000 - 0x8000_0000
  }

  /** `util::int2string` on numbers that are not negative. */
  function Decimal(n: nat): (s: string)
    ensures s != "" && forall c | c in s :: IsDigit(c)
  {
    var last := ['0' + (n % 10) as char];
    if n < 10 then last else Decimal(n / 10) + last
  }

  lemma {:induction false} DigitsAppend(s: string, t: string, n: nat)
    requires forall c | c in s :: IsDigit(c)
    ensures Digits(s + t, n) == Digits(t, Digits(s, n))
  {
    if s == "" {
      assert s + t == t;
    } else {
      assert s[0] in s && (s + t)[1..] == s[1..] + t;
      DigitsAppend(s[1..], t, 10 * n + (s[0] as int - '0' as int));
    }
  }

  lemma {:induction false} DigitsOfDecimal(n: nat)
    ensures Digits(Decimal(n), 0) == n
  {
    var last := ['0' + (n % 10) as char];
    LastDigit(n % 10, n / 10);
    if n >= 10 {
      DigitsOfDecimal(n / 10);
      DigitsAppend(Decimal(n / 10), last, 0);
    } else {
      assert last == Decimal(n);
    }
  }

  lemma LastDigit(d: nat, n: nat)
    requires d < 10
    ensures Digits(['0' + d as char], n) == 10 * n + d
  {
    assert ['0' + d as char][1..] == "";
  }

  /** `atol` reads back a printed number that fits a `long`. */
  lemma AtolOfDecimal(n: nat)
    requires n <= LONG_MAX
    ensures Atol(Decimal(n)) == n
  {
    DigitsOfDecimal(n);
    assert IsDigit(Decimal(n)[0]);
  }

  lemma AtolOfMinus(n: nat)
    requires n <= LONG_MAX
    ensures Atol("-" + Decimal(n)) == 0 - n
  {
    DigitsOfDecimal(n);
    assert ("-" + Decimal(n))[1..] == Decimal(n);
    hide Decimal, Digits;
  }
}
