/** The SOCKS5 client against any server (gloox/connectionsocks5proxy.cpp:175-365). */
module Socks5Runs {
  import opened Text
  import opened Socks5
  import opened Socks5Handshake

  /** What the server sends, and whether the connection takes what the client sends then. */
  datatype Answer = Answer(data: string, ok: bool)

  function Run(c: Config, s: State, answers: seq<Answer>): State
    decreases |answers|
  {
    if answers == [] then s else Run(c, HandleReceivedData(c, s, answers[0].data, answers[0].ok), answers[1..])
  }

  /** The connection to the proxy has come up. */
  function Begin(c: Config, ok: bool): State {
    HandleConnect(c, INITIAL.(s5 := S5Connecting), ok)
  }

  // ---- one answer ----

  /** Two bytes. */
  function Pair(a: nat, b: nat): string
    requires a < 256 && b < 256
  {
    [a as char, b as char]
  }

  /** The answer to the greeting: a login is sent only if the server asks for one and the client has
      one, the request only if the second byte says that no login is needed; only an answer of two
      bytes in which this is what it says is no error. */
  lemma MethodIff(c: Config, s: State, data: string)
    requires s.s5 == S5Connecting
    ensures
      var t := HandleReceivedData(c, s, data, true);
      var free, wanted := |data| < 2 || data[1] == 0 as char, |data| >= 2 && data[1] == 2 as char;
      && (t.s5 == S5Negotiating <==> free)
      && (t.s5 == S5Authenticating <==> wanted && HasAuth(c))
      && (t.s5 == S5Connecting <==> !free && !(wanted && HasAuth(c)))
      && t.sent == s.sent + (if free then [Request(c.ip, c.server, c.port, c.littleEndian)]
                             else if wanted && HasAuth(c) then [Credentials(c.user, c.password)] else [])
      && t.errors == s.errors +
           (if data == Pair(5, 0) || (data == Pair(5, 2) && HasAuth(c)) then []
            else if free || (wanted && HasAuth(c)) then [IoError]
            else if |data| >= 2 && data[1] == 255 as char && HasAuth(c) then [ProxyNoSupportedAuth]
            else [ProxyAuthRequired])
  {
    hide Request, Credentials;
    assert s.sent + [] == s.sent && s.errors + [] == s.errors;
    if |data| == 2 {
      assert data == [data[0], data[1]];
    }
  }

  /** The answer to the login. */
  lemma LoginIff(c: Config, s: State, data: string)
    requires s.s5 == S5Authenticating
    ensures
      var t := HandleReceivedData(c, s, data, true);
      if data == Pair(1, 0) then
        t == s.(s5 := S5Negotiating, sent := s.sent + [Request(c.ip, c.server, c.port, c.littleEndian)])
      else t == s.(errors := s.errors + [ProxyAuthFailed])
  {
    hide Request;
    if |data| == 2 {
      assert data == [data[0], data[1]];
    }
  }

  /** The answer to the request: only one of six bytes or more that begins with version and success
      connects, and the handler is told so once. */
  lemma GrantIff(c: Config, s: State, data: string)
    requires s.s5 == S5Negotiating
    ensures
      HandleReceivedData(c, s, data, true) ==
        if |data| >= 6 && Pair(5, 0) <= data then s.(s5 := S5Connected, connects := s.connects + 1)
        else s.(errors := s.errors + [if |data| >= 6 && data[0] == 5 as char then ConnectionRefused else IoError])
  {
    if |data| >= 6 {
      assert data[..2] == [data[0], data[1]];
    }
  }

  /** The greeting offers a login exactly if there are a user and a password. */
  lemma BeginIs(c: Config)
    ensures Begin(c, true) ==
      State(S5Connecting,
            [if c.user != "" && c.password != "" then Pair(5, 2) + Pair(0, 2) else Pair(5, 1) + [0 as char]], 0, [], "")
    ensures Begin(c, false) == Begin(c, true).(s5 := S5Disconnected, errors := [IoError])
  {
    assert Pair(5, 2) + Pair(0, 2) == Greeting(true) && Pair(5, 1) + [0 as char] == Greeting(false);
    assert [] + [Greeting(HasAuth(c))] == [Greeting(HasAuth(c))] && [] + [IoError] == [IoError];
  }

  /** A packet that the connection does not take ends it, and the handler is told so first. */
  lemma NotTaken(c: Config, s: State, data: string)
    ensures
      var t := HandleReceivedData(c, s, data, true);
      && s.sent <= t.sent && s.errors <= t.errors
      && HandleReceivedData(c, s, data, false) ==
           if t.sent == s.sent then t
           else t.(s5 := S5Disconnected, errors := s.errors + [IoError] + t.errors[|s.errors|..])
  {
    hide Request, Credentials;
    var t := HandleReceivedData(c, s, data, true);
    if |t.sent| > |s.sent| {
      assert t.sent != s.sent;
      assert s.errors[|s.errors|..] == [] && s.errors + [IoError] + [] == s.errors + [IoError];
      assert (s.errors + [IoError])[|s.errors|..] == [IoError];
    }
  }

  // ---- all runs ----

  /** What has been sent: the greeting, the login at most once and only if there is one, the request. */
  predicate SentSoFar(c: Config, sent: seq<string>, login: bool, request: bool) {
    && (login ==> HasAuth(c))
    && sent ==
         [Greeting(HasAuth(c))]
         + (if login then [Credentials(c.user, c.password)] else [])
         + (if request then [Request(c.ip, c.server, c.port, c.littleEndian)] else [])
  }

  predicate InPhase(c: Config, s: State, login: bool, request: bool) {
    && SentSoFar(c, s.sent, login, request)
    && (s.s5 == S5Connecting ==> !login && !request)
    && (s.s5 == S5Authenticating ==> login && !request)
    && (s.s5 == S5Negotiating || s.s5 == S5Connected ==> request)
    && s.connects == (if s.s5 == S5Connected then 1 else 0)
    && (s.s5 != S5Connected ==> s.received == "")
    && s.s5 != S5Disconnected
  }

  /** Given up: the connection did not take a packet, and the handler knows. */
  predicate GivenUp(c: Config, s: State) {
    && s.s5 == S5Disconnected && s.connects == 0 && s.received == "" && IoError in s.errors
    && exists login, request :: SentSoFar(c, s.sent, login, request)
  }

  ghost predicate Kept(c: Config, s: State) {
    GivenUp(c, s) || exists login, request :: InPhase(c, s, login, request)
  }

  lemma NextSent(c: Config, sent: seq<string>, login: bool)
    requires SentSoFar(c, sent, login, false)
    ensures SentSoFar(c, sent + [Request(c.ip, c.server, c.port, c.littleEndian)], login, true)
    ensures !login && HasAuth(c) ==> SentSoFar(c, sent + [Credentials(c.user, c.password)], true, false)
  {
    hide Request, Credentials, Greeting;
    assert [Greeting(HasAuth(c))] + [] == [Greeting(HasAuth(c))];
  }

  lemma StepKept(c: Config, s: State, a: Answer)
    requires Kept(c, s)
    ensures Kept(c, HandleReceivedData(c, s, a.data, a.ok))
  {
    if !GivenUp(c, s) {
      var login, request :| InPhase(c, s, login, request);
      if !request {
        NextSent(c, s.sent, login);
      }
      hide SentSoFar, Request, Credentials, Greeting, HasAuth;
      PhaseKept(c, s, a, login, request);
    }
  }

  lemma PhaseKept(c: Config, s: State, a: Answer, login: bool, request: bool)
    requires InPhase(c, s, login, request)
    requires !request ==> SentSoFar(c, s.sent + [Request(c.ip, c.server, c.port, c.littleEndian)], login, true)
    requires !request && !login && HasAuth(c) ==> SentSoFar(c, s.sent + [Credentials(c.user, c.password)], true, false)
    ensures Kept(c, HandleReceivedData(c, s, a.data, a.ok))
  {
    hide SentSoFar, Request, Credentials, Greeting, HasAuth;
    var t := HandleReceivedData(c, s, a.data, a.ok);
    assert t.s5 != S5Disconnected ==>
      InPhase(c, t, login, request) || InPhase(c, t, login, true) || InPhase(c, t, true, false);
    assert t.s5 == S5Disconnected ==>
      SentSoFar(c, t.sent, login, true) || SentSoFar(c, t.sent, true, false);
  }

  /** Whatever the server sends: the client greets first, sends its login at most once and its request
      at most once and in this order, is told at most once that it is connected, and passes nothing on
      before. */
  lemma {:induction false} RunKept(c: Config, s: State, answers: seq<Answer>)
    requires Kept(c, s)
    ensures Kept(c, Run(c, s, answers))
    decreases |answers|
  {
    hide Kept, HandleReceivedData;
    if answers != [] {
      StepKept(c, s, answers[0]);
      RunKept(c, HandleReceivedData(c, s, answers[0].data, answers[0].ok), answers[1..]);
    }
  }

  lemma BeginKept(c: Config, ok: bool)
    ensures Kept(c, Begin(c, ok))
  {
    var s := Begin(c, ok);
    assert s.sent == [] + [Greeting(HasAuth(c))] == [Greeting(HasAuth(c))] + [] + [];
    hide Greeting, HasAuth;
    assert SentSoFar(c, s.sent, false, false);
    if ok {
      assert InPhase(c, s, false, false);
    } else {
      assert s.errors == [] + [IoError];
    }
  }

  function AllData(answers: seq<Answer>): string {
    if answers == [] then "" else answers[0].data + AllData(answers[1..])
  }

  /** Once connected, everything that comes is passed on, in order, and nothing is sent. */
  lemma {:induction false} ConnectedPassesOn(c: Config, s: State, answers: seq<Answer>)
    requires s.s5 == S5Connected
    ensures Run(c, s, answers) == s.(received := s.received + AllData(answers))
    decreases |answers|
  {
    if answers == [] {
      assert s.received + "" == s.received;
    } else {
      ConnectedPassesOn(c, s.(received := s.received + answers[0].data), answers[1..]);
      assert s.received + answers[0].data + AllData(answers[1..]) == s.received + AllData(answers);
    }
  }

  /** A client that got through passes on whatever comes behind the answer that let it through. */
  lemma {:induction false} PassedOn(c: Config, s: State, answers: seq<Answer>) returns (k: nat)
    requires s.s5 != S5Connected && s.received == "" && Run(c, s, answers).s5 == S5Connected
    ensures k < |answers| && Run(c, s, answers[..k]).s5 == S5Negotiating
    ensures |answers[k].data| >= 6 && Pair(5, 0) <= answers[k].data
    ensures Run(c, s, answers).received == AllData(answers[k + 1..])
    decreases |answers|
  {
    var a := answers[0];
    var t := HandleReceivedData(c, s, a.data, a.ok);
    Granting(c, s, a);
    hide HandleReceivedData;
    if t.s5 == S5Connected {
      k := 0;
      ConnectedPassesOn(c, t, answers[1..]);
      assert answers[..0] == [] && "" + AllData(answers[1..]) == AllData(answers[1..]);
    } else {
      var j := PassedOn(c, t, answers[1..]);
      k := j + 1;
      assert answers[..k][1..] == answers[1..][..j] && answers[..k][0] == a;
      assert Run(c, s, answers[..k]) == Run(c, t, answers[1..][..j]);
      assert answers[1..][j + 1..] == answers[k + 1..];
    }
  }

  lemma Granting(c: Config, s: State, a: Answer)
    requires s.s5 != S5Connected
    ensures
      var t := HandleReceivedData(c, s, a.data, a.ok);
      && t.received == s.received
      && (t.s5 == S5Connected ==> s.s5 == S5Negotiating && |a.data| >= 6 && Pair(5, 0) <= a.data)
  {
    hide Request, Credentials, HasAuth;
    if |a.data| >= 6 {
      assert a.data[..2] == [a.data[0], a.data[1]];
    }
  }
}
