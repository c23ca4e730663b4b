/** The packets of the SOCKS5 client (gloox/connectionsocks5proxy.cpp:175-365), and the server that reads
    them by sections 3 to 6 of RFC 1928 and section 2 of RFC 1929.  A packet is a string of bytes. */
module Socks5 {
  import opened Text

  function ByteOf(n: int): char { (n % 256) as char }

  /** What strncpy makes of a string of its own length: zeros after the first one. */
  function Copied(s: string): (c: string)
    ensures |c| == |s|
  {
    if s == "" then "" else if s[0] == 0 as char then Zeros(|s|) else [s[0]] + Copied(s[1..])
  }

  function Zeros(n: nat): (z: string)
    ensures |z| == n
  {
    if n == 0 then "" else [0 as char] + Zeros(n - 1)
  }

  predicate AllZero(s: string) {
    s == "" || (s[0] == 0 as char && AllZero(s[1..]))
  }

  /** Nothing but zeros after the first zero. */
  predicate Plain(s: string) {
    s == "" || (if s[0] == 0 as char then AllZero(s) else Plain(s[1..]))
  }

  lemma {:induction false} ZerosIff(s: string)
    ensures Zeros(|s|) == s <==> AllZero(s)
  {
    if s != "" {
      ZerosIff(s[1..]);
      assert s == [s[0]] + s[1..];
      assert Zeros(|s|)[1..] == Zeros(|s| - 1);
    }
  }

  lemma {:induction false} CopiedIff(s: string)
    ensures Copied(s) == s <==> Plain(s)
  {
    if s != "" {
      ZerosIff(s);
      CopiedIff(s[1..]);
      assert s == [s[0]] + s[1..];
      assert s[0] != 0 as char ==> Copied(s)[1..] == Copied(s[1..]);
    }
  }

  // ---- packets ----

  function Greeting(auth: bool): string {
    if auth then [5 as char, 2 as char, 0 as char, 2 as char] else [5 as char, 1 as char, 0 as char]
  }

  function Credentials(user: string, password: string): string {
    [1 as char, ByteOf(|user|)] + Copied(user) + [ByteOf(|password|)] + Copied(password)
  }

  /** The port as the host's byte order leaves it: the bytes of htons, the low one of its result first. */
  function PortBytes(port: int, littleEndian: bool): string {
    if littleEndian then [ByteOf(port / 256), ByteOf(port)] else [ByteOf(port), ByteOf(port / 256)]
  }

  /** One octet for each piece of the address, four at most; `s` is the piece so far. */
  function Octets(server: string, s: string, l: nat): (o: string)
    requires l <= 4
    ensures |o| <= 4 - l
    decreases |server|
  {
    if server == "" || l == 4 then ""
    else
      var t := if server[0] != '.' then s + [server[0]] else s;
      if server[0] == '.' || |server| == 1 then [ByteOf(Atoi(t))] + Octets(server[1..], "", l + 1)
      else Octets(server[1..], t, l)
  }

  function Request(ip: bool, server: string, port: int, littleEndian: bool): string {
    (if ip then [5 as char, 1 as char, 0 as char, 1 as char] + Octets(server, "", 0)
     else NameHead(server) + Copied(server))
      + PortBytes(port, littleEndian)
  }

  function NameHead(server: string): string {
    [5 as char, 1 as char, 0 as char, 3 as char, ByteOf(|server|)]
  }

  /** The sizes of the buffers. */
  function CredentialsSize(user: string, password: string): nat { 3 + |user| + |password| }
  function RequestSize(ip: bool, server: string): nat { if ip then 10 else 6 + |server| + 1 }

  /** The buffers are filled to the end, but for an address with less than four pieces. */
  lemma PacketSizes(user: string, password: string, ip: bool, server: string, port: int, littleEndian: bool)
    ensures |Credentials(user, password)| == CredentialsSize(user, password)
    ensures |Request(false, server, port, littleEndian)| == RequestSize(false, server)
    ensures |Request(true, server, port, littleEndian)| == 6 + |Octets(server, "", 0)| <= RequestSize(true, server)
  {
    hide Copied, Octets, PortBytes;
    assert |PortBytes(port, littleEndian)| == 2 by { TwoBytes(port, littleEndian); }
  }

  lemma TwoBytes(port: int, littleEndian: bool)
    ensures |PortBytes(port, littleEndian)| == 2
  {
  }

  // ---- the server's reading ----

  datatype Login = Login(user: string, password: string)

  datatype Target = Address(octets: string, port: nat) | Name(host: string, port: nat)

  function PortOf(high: char, low: char): nat { high as nat * 256 + low as nat }

  /** The bytes of the port are in order on a little-endian host, or when they are the same. */
  predicate PortInOrder(port: int, littleEndian: bool) {
    littleEndian || port / 256 == port % 256
  }

  /** Its bytes the other way round. */
  function Swapped(port: int): int {
    port % 256 * 256 + port / 256
  }

  /** Section 2 of RFC 1929. */
  function ReadCredentials(p: string): Option<Login> {
    if |p| < 2 || p[0] != 1 as char then None
    else
      var u := p[1] as nat;
      if |p| < 3 + u then None
      else
        var n := p[2 + u] as nat;
        if |p| != 3 + u + n then None else Some(Login(p[2..2 + u], p[3 + u..]))
  }

  /** Section 4 of RFC 1928, for CONNECT. */
  function ReadRequest(p: string): Option<Target> {
    if |p| < 5 || p[0] != 5 as char || p[1] != 1 as char || p[2] != 0 as char then None
    else if p[3] == 1 as char then
      if |p| != 10 then None else Some(Address(p[4..8], PortOf(p[8], p[9])))
    else if p[3] == 3 as char then
      var n := p[4] as nat;
      if |p| != 7 + n then None else Some(Name(p[5..5 + n], PortOf(p[5 + n], p[6 + n])))
    else None
  }

  lemma ByteRange(n: int)
    ensures 0 <= ByteOf(n) as int < 256
    ensures ByteOf(n) as int == n <==> 0 <= n < 256
  {
  }

  /** The server reads the user and the password exactly if both fit their length byte and hold no
      text after a zero. */
  lemma CredentialsIff(user: string, password: string)
    ensures ReadCredentials(Credentials(user, password)) == Some(Login(user, password))
      <==> |user| < 256 && |password| < 256 && Plain(user) && Plain(password)
  {
    CopiedIff(user);
    CopiedIff(password);
    ReadLogin(user, password);
    hide Copied, Plain, Credentials, ReadCredentials;
  }

  lemma ReadLogin(user: string, password: string)
    ensures
      var r := ReadCredentials(Credentials(user, password));
      if |user| < 256 && |password| < 256 then r == Some(Login(Copied(user), Copied(password)))
      else r != Some(Login(user, password))
  {
    ByteRange(|user|);
    ByteRange(|password|);
    LoginSections(1 as char, ByteOf(|user|), Copied(user), ByteOf(|password|), Copied(password));
    var p := Credentials(user, password);
    hide Copied, ByteOf, Credentials;
    if |user| >= 256 && ReadCredentials(p).Some? {
      assert |ReadCredentials(p).value.user| < 256;
    }
  }

  lemma LoginSections(v: char, m: char, c: string, n: char, e: string)
    ensures
      var p := [v, m] + c + [n] + e;
      && |p| == 3 + |c| + |e| && p[0] == v && p[1] == m && p[2 + |c|] == n
      && p[2..2 + |c|] == c && p[3 + |c|..] == e
  {
  }

  lemma PortBack(port: int, littleEndian: bool)
    requires 0 <= port < 65536
    ensures
      var b := PortBytes(port, littleEndian);
      && PortOf(b[0], b[1]) == (if littleEndian then port else Swapped(port))
      && (PortOf(b[0], b[1]) == port <==> PortInOrder(port, littleEndian))
  {
    ByteRange(port / 256);
    assert ByteOf(port) as int == port % 256;
    assert port == port / 256 * 256 + port % 256;
  }

  /** Whatever the host's byte order, the server reads a name that fits, and the port or the port with its
      bytes swapped. */
  lemma PortRead(server: string, port: int, littleEndian: bool)
    requires 0 <= port < 65536 && |server| < 256 && Plain(server)
    ensures ReadRequest(Request(false, server, port, littleEndian)) ==
      Some(Name(server, if littleEndian then port else Swapped(port)))
  {
    CopiedIff(server);
    ByteRange(|server|);
    PortBack(port, littleEndian);
    TwoBytes(port, littleEndian);
    ReadName(server, PortBytes(port, littleEndian));
    hide Copied, Plain, ByteOf, PortBytes, ReadRequest, NameHead, PortInOrder, PortOf, Swapped;
  }

  /** The server reads host and port exactly if the name fits its length byte and holds no text after
      a zero, and the port bytes are in order. */
  lemma NameRequestIff(server: string, port: int, littleEndian: bool)
    requires 0 <= port < 65536
    ensures ReadRequest(Request(false, server, port, littleEndian)) == Some(Name(server, port))
      <==> |server| < 256 && Plain(server) && PortInOrder(port, littleEndian)
  {
    CopiedIff(server);
    ByteRange(|server|);
    PortBack(port, littleEndian);
    TwoBytes(port, littleEndian);
    ReadName(server, PortBytes(port, littleEndian));
    hide Copied, Plain, ByteOf, PortBytes, ReadRequest, NameHead, PortInOrder, PortOf;
  }

  lemma NameHeadIs(server: string)
    ensures
      var h := NameHead(server);
      && |h| == 5 && h[0] == 5 as char && h[1] == 1 as char && h[2] == 0 as char && h[3] == 3 as char && h[4] == ByteOf(|server|)
  {
    hide ByteOf;
  }

  lemma ReadName(server: string, b: string)
    requires |b| == 2
    ensures
      var p := NameHead(server) + Copied(server) + b;
      if |server| < 256 then ReadRequest(p) == Some(Name(Copied(server), PortOf(b[0], b[1])))
      else ReadRequest(p) == None
  {
    hide Copied, NameHead, PortOf, ByteOf;
    ByteRange(|server|);
    NameHeadIs(server);
    Sections(NameHead(server), Copied(server), b);
  }

  lemma Sections(h: string, c: string, b: string)
    requires |h| == 5 && |b| == 2
    ensures
      var p := h + c + b;
      && |p| == 7 + |c| && p[5..5 + |c|] == c && p[5 + |c|] == b[0] && p[6 + |c|] == b[1]
      && p[0] == h[0] && p[1] == h[1] && p[2] == h[2] && p[3] == h[3] && p[4] == h[4]
  {
  }

  // ---- dotted quads ----

  function Dotted(a: nat, b: nat, c: nat, d: nat): string {
    Decimal(a) + "." + Decimal(b) + "." + Decimal(c) + "." + Decimal(d)
  }

  /** A number in front of a dot, or at the end, is one octet. */
  lemma {:induction false} OctetOf(digits: string, rest: string, s: string, l: nat)
    requires digits != "" && l < 4 && (forall c | c in digits :: c != '.') && (rest == "" || rest[0] == '.')
    ensures Octets(digits + rest, s, l) ==
      [ByteOf(Atoi(s + digits))] + if rest == "" then "" else Octets(rest[1..], "", l + 1)
    decreases |digits|
  {
    hide Atoi, ByteOf;
    var server := digits + rest;
    assert server[0] == digits[0] && digits[0] in digits;
    assert server[1..] == digits[1..] + rest;
    if |digits| == 1 {
      assert digits == [digits[0]] && server[1..] == rest;
      LastOctet(server, rest, s, l);
    } else {
      assert s + [digits[0]] + digits[1..] == s + digits;
      assert forall c | c in digits[1..] :: c in digits;
      OctetOf(digits[1..], rest, s + [digits[0]], l);
    }
  }

  lemma LastOctet(server: string, rest: string, s: string, l: nat)
    requires server != "" && server[0] != '.' && server[1..] == rest && l < 4 && (rest == "" || rest[0] == '.')
    ensures Octets(server, s, l) == [ByteOf(Atoi(s + [server[0]]))] + if rest == "" then "" else Octets(rest[1..], "", l + 1)
  {
    hide Atoi, ByteOf;
    var t := s + [server[0]];
    if rest == "" {
      assert Octets("", "", l + 1) == "";
    } else {
      assert Octets(server, s, l) == Octets(rest, t, l);
    }
  }

  lemma NumberBack(n: nat)
    requires n < 256
    ensures ByteOf(Atoi(Decimal(n))) == n as char
    ensures forall c | c in Decimal(n) :: c != '.'
  {
    AtolOfDecimal(n);
    hide Atol, Atoi;
    assert Atoi(Decimal(n)) == n;
    NoDots(n);
    hide Decimal;
  }

  lemma NoDots(n: nat)
    requires n < 256
    ensures forall c | c in Decimal(n) :: c != '.'
  {
  }

  /** Any four bytes, printed as a dotted quad, are the octets of the request. */
  lemma DottedQuad(a: nat, b: nat, c: nat, d: nat)
    requires a < 256 && b < 256 && c < 256 && d < 256
    ensures Octets(Dotted(a, b, c, d), "", 0) == [a as char, b as char, c as char, d as char]
  {
    hide Octets, ByteOf, Atoi;
    var r3 := Decimal(d);
    var r2 := Decimal(c) + ("." + r3);
    var r1 := Decimal(b) + ("." + r2);
    DottedParts(a, b, c, d);
    QuadOctet(a, r1, 0);
    QuadOctet(b, r2, 1);
    QuadOctet(c, r3, 2);
    LastQuadOctet(d);
    hide Dotted, Decimal;
  }

  lemma DottedParts(a: nat, b: nat, c: nat, d: nat)
    ensures Dotted(a, b, c, d) == Decimal(a) + ("." + (Decimal(b) + ("." + (Decimal(c) + ("." + Decimal(d))))))
  {
    hide Decimal;
  }

  lemma QuadOctet(n: nat, rest: string, l: nat)
    requires n < 256 && l < 4
    ensures Octets(Decimal(n) + ("." + rest), "", l) == [n as char] + Octets(rest, "", l + 1)
  {
    NumberBack(n);
    hide Atoi, ByteOf, Octets, Decimal;
    OctetOf(Decimal(n), "." + rest, "", l);
    assert ("." + rest)[1..] == rest && "" + Decimal(n) == Decimal(n);
  }

  lemma LastQuadOctet(n: nat)
    requires n < 256
    ensures Octets(Decimal(n), "", 3) == [n as char]
  {
    NumberBack(n);
    hide Atoi, ByteOf, Octets, Decimal;
    OctetOf(Decimal(n), "", "", 3);
    assert Decimal(n) + "" == Decimal(n) && "" + Decimal(n) == Decimal(n);
  }

  /** The server reads the four bytes of any printed quad, and the port exactly if its bytes are in
      order. */
  lemma AddressRequestIff(a: nat, b: nat, c: nat, d: nat, port: int, littleEndian: bool)
    requires a < 256 && b < 256 && c < 256 && d < 256 && 0 <= port < 65536
    ensures
      var address := Address([a as char, b as char, c as char, d as char], port);
      var request := Request(true, Dotted(a, b, c, d), port, littleEndian);
      && (ReadRequest(request) == Some(address) <==> PortInOrder(port, littleEndian))
      && |request| == RequestSize(true, Dotted(a, b, c, d))
  {
    DottedQuad(a, b, c, d);
    PortBack(port, littleEndian);
    TwoBytes(port, littleEndian);
    hide Octets, PortBytes, Dotted, PortOf, PortInOrder;
    var p := Request(true, Dotted(a, b, c, d), port, littleEndian);
    assert p[4..8] == [a as char, b as char, c as char, d as char];
  }
}
