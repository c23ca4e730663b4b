/** The handshake of the SOCKS5 client with a server (gloox/connectionsocks5proxy.cpp:175-365). */
module Socks5Handshake {
  import opened Text
  import opened Socks5

  datatype S5State = S5Disconnected | S5Connecting | S5Negotiating | S5Authenticating | S5Connected

  datatype ConnError = IoError | ProxyNoSupportedAuth | ProxyAuthRequired | ProxyAuthFailed | ConnectionRefused

  datatype Config = Config(user: string, password: string, ip: bool, server: string, port: int, littleEndian: bool)

  predicate HasAuth(c: Config) {
    c.user != "" && c.password != ""
  }

  /** `sent` is what went to the proxy; the rest is what the handler was told. */
  datatype State = State(s5: S5State, sent: seq<string>, connects: nat, errors: seq<ConnError>, received: string)

  const INITIAL := State(S5Disconnected, [], 0, [], "")

  /** A byte of the data, zero behind its end. */
  function At(data: string, i: nat): int {
    if i < |data| then data[i] as int else 0
  }

  /** A packet that the connection takes, or not; if not, all is cleaned up. */
  function Sent(s: State, packet: string, ok: bool): State {
    var t := s.(sent := s.sent + [packet]);
    if ok then t else t.(s5 := S5Disconnected, errors := t.errors + [IoError])
  }

  function HandleConnect(c: Config, s: State, ok: bool): State {
    Sent(s, Greeting(HasAuth(c)), ok)
  }

  function Negotiate(c: Config, s: State, ok: bool): State {
    Sent(s.(s5 := S5Negotiating), Request(c.ip, c.server, c.port, c.littleEndian), ok)
  }

  function Fail(s: State, e: ConnError): State {
    s.(errors := s.errors + [e])
  }

  /** The answer to the greeting.  A malformed one may still be acted on before it is an error. */
  function HandleMethod(c: Config, s: State, data: string, ok: bool): State {
    var malformed := |data| != 2 || At(data, 0) != 5;
    if At(data, 1) == 0 then
      var t := Negotiate(c, s, ok);
      if malformed then Fail(t, IoError) else t
    else if At(data, 1) == 2 && HasAuth(c) then
      var t := Sent(s.(s5 := S5Authenticating), Credentials(c.user, c.password), ok);
      if malformed then Fail(t, IoError) else t
    else Fail(s, if At(data, 1) == 255 && HasAuth(c) then ProxyNoSupportedAuth else ProxyAuthRequired)
  }

  function HandleReceivedData(c: Config, s: State, data: string, ok: bool): State {
    match s.s5
    case S5Connecting => HandleMethod(c, s, data, ok)
    case S5Negotiating =>
      if |data| < 6 || At(data, 0) != 5 then Fail(s, IoError)
      else if At(data, 1) == 0 then s.(s5 := S5Connected, connects := s.connects + 1)
      else Fail(s, ConnectionRefused)
    case S5Authenticating =>
      if |data| == 2 && At(data, 0) == 1 && At(data, 1) == 0 then Negotiate(c, s, ok) else Fail(s, ProxyAuthFailed)
    case S5Connected => s.(received := s.received + data)
    case S5Disconnected => s
  }

  // ---- a server ----

  const NO_METHOD := [5 as char, 255 as char]

  /** Section 3 of RFC 1928: the server takes no authentication, or only a certain login. */
  function ChooseMethod(required: Option<Login>, greeting: string): string {
    if |greeting| < 2 || greeting[0] != 5 as char || |greeting| != 2 + greeting[1] as int then NO_METHOD
    else
      var wanted := if required.None? then 0 as char else 2 as char;
      if wanted in greeting[2..] then [5 as char, wanted] else NO_METHOD
  }

  /** Section 2 of RFC 1929. */
  function CheckLogin(required: Option<Login>, packet: string): string {
    if ReadCredentials(packet) == required then [1 as char, 0 as char] else [1 as char, 1 as char]
  }

  /** Section 6 of RFC 1928: the server grants what it can read. */
  function Grant(packet: string): string {
    [5 as char, if ReadRequest(packet).Some? then 0 as char else 1 as char, 0 as char, 1 as char] + Zeros(6)
  }

  /** The last packet of the client. */
  function Last(s: State): string {
    if s.sent == [] then "" else s.sent[|s.sent| - 1]
  }

  /** The whole exchange: greeting, login if the server asks for one, request. */
  function Exchange(c: Config, required: Option<Login>): State {
    var s0 := HandleConnect(c, INITIAL.(s5 := S5Connecting), true);
    var s1 := HandleReceivedData(c, s0, ChooseMethod(required, Last(s0)), true);
    var s2 := if s1.s5 == S5Authenticating then HandleReceivedData(c, s1, CheckLogin(required, Last(s1)), true) else s1;
    if s2.s5 == S5Negotiating then HandleReceivedData(c, s2, Grant(Last(s2)), true) else s2
  }

  lemma Offers(auth: bool)
    ensures ChooseMethod(None, Greeting(auth)) == [5 as char, 0 as char]
    ensures forall l :: ChooseMethod(Some(l), Greeting(auth)) == if auth then [5 as char, 2 as char] else NO_METHOD
  {
    assert Greeting(true)[2..] == [0 as char, 2 as char];
    assert Greeting(false)[2..] == [0 as char];
  }

  lemma FirstAnswer(c: Config, required: Option<Login>)
    ensures
      var s0 := HandleConnect(c, INITIAL.(s5 := S5Connecting), true);
      var s1 := HandleReceivedData(c, s0, ChooseMethod(required, Last(s0)), true);
      if required.None? then s1 == Negotiate(c, s0, true)
      else if HasAuth(c) then s1 == s0.(s5 := S5Authenticating, sent := s0.sent + [Credentials(c.user, c.password)])
      else s1 == Fail(s0, ProxyAuthRequired)
  {
    Offers(HasAuth(c));
    hide ChooseMethod, Greeting, Credentials, Request;
  }

  lemma LastAnswer(c: Config, s: State)
    ensures
      var p := Request(c.ip, c.server, c.port, c.littleEndian);
      HandleReceivedData(c, Negotiate(c, s, true), Grant(p), true) ==
        if ReadRequest(p).Some? then Negotiate(c, s, true).(s5 := S5Connected, connects := s.connects + 1)
        else Fail(Negotiate(c, s, true), ConnectionRefused)
  {
    hide Request, ReadRequest, Zeros;
  }

  /** With a server that keeps to the standards, the client gets through exactly if the server takes
      what it has: no login, or the one that the server wants; and a request that it can read.
      The last packet is the request. */
  lemma ExchangeIff(c: Config, required: Option<Login>)
    ensures
      var s := Exchange(c, required);
      var request := Request(c.ip, c.server, c.port, c.littleEndian);
      && (s.s5 == S5Connected <==>
            && (required.None? || (HasAuth(c) && ReadCredentials(Credentials(c.user, c.password)) == required))
            && ReadRequest(request).Some?)
      && (s.s5 == S5Connected ==> s.connects == 1 && s.errors == [] && Last(s) == request)
      && (s.s5 != S5Connected ==>
            && s.connects == 0
            && s.errors == [if required.Some? && !HasAuth(c) then ProxyAuthRequired
                            else if required.Some? && ReadCredentials(Credentials(c.user, c.password)) != required
                            then ProxyAuthFailed else ConnectionRefused])
  {
    FirstAnswer(c, required);
    var s0 := HandleConnect(c, INITIAL.(s5 := S5Connecting), true);
    if required.None? {
      LastAnswer(c, s0);
    } else if HasAuth(c) {
      var s1 := s0.(s5 := S5Authenticating, sent := s0.sent + [Credentials(c.user, c.password)]);
      Granted(c, s1, required);
      LastAnswer(c, s1);
    }
    hide Request, ReadRequest, Credentials, ReadCredentials, Greeting, ChooseMethod, CheckLogin, Grant;
  }

  lemma Granted(c: Config, s: State, required: Option<Login>)
    requires s.s5 == S5Authenticating && s.sent != []
    ensures HandleReceivedData(c, s, CheckLogin(required, Last(s)), true) ==
      if ReadCredentials(Last(s)) == required then Negotiate(c, s, true) else Fail(s, ProxyAuthFailed)
  {
    hide ReadCredentials, Request;
  }

  /** End to end: names and logins within the limits of the standards arrive at the server. */
  lemma ConnectsByName(c: Config, required: Option<Login>)
    requires !c.ip && |c.server| < 256 && Plain(c.server) && 0 <= c.port < 65536 && c.littleEndian
    requires HasAuth(c) && |c.user| < 256 && |c.password| < 256 && Plain(c.user) && Plain(c.password)
    ensures
      var s := Exchange(c, required);
      && (s.s5 == S5Connected <==> required.None? || required == Some(Login(c.user, c.password)))
      && (s.s5 == S5Connected ==> ReadRequest(Last(s)) == Some(Name(c.server, c.port)))
  {
    ExchangeIff(c, required);
    CredentialsIff(c.user, c.password);
    NameRequestIff(c.server, c.port, true);
    hide Exchange, Request, ReadRequest, Credentials, ReadCredentials, Last, Plain;
  }
}
