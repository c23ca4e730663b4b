/** What a fallback from pipelining does to the responses that are still to come. */
module BoshFallback {
  import opened Text
  import opened HttpFraming
  import opened HttpResponses
  import opened Bosh
  import opened BoshChunks
  import opened BoshRuns

  // ---- one connection while pipelining ----

  /** All pipelined requests share one connection. */
  predicate OneActive(s: State) {
    s.mode == Pipelining ==> |s.active| <= 1
  }

  lemma GetConnectionOne(s: State, env: Env)
    requires OneActive(s)
    ensures OneActive(GetConnection(s, env).0)
  {
  }

  lemma SendRequestOne(s: State, env: Env, request: Request)
    requires OneActive(s)
    ensures OneActive(SendRequest(s, env, request).0)
  {
    GetConnectionOne(s, env);
    hide GetConnection;
  }

  lemma SendXMLOne(s: State, env: Env)
    requires OneActive(s)
    ensures OneActive(SendXML(s, env))
  {
    var r := s.(rid := s.rid + 1);
    SendRequestOne(r, env, BodyRequest(s));
    SendXMLIs(s, env);
    hide SendRequest, SendXML, BodyRequest, Refuses;
  }

  lemma SettleOne(s: State)
    requires OneActive(s)
    ensures OneActive(Settle(s))
  {
    SettleShape(s);
    hide Settle;
  }

  lemma TurnOne(s: State)
    requires OneActive(s) && Feeds(s.buffer)
    ensures OneActive(Turn(s))
  {
    SettleOne(s);
    TurnIsPut(s);
    hide Next, Settle, Turn;
  }

  lemma {:induction false} ReceiveOne(s: State)
    requires OneActive(s)
    ensures OneActive(Receive(s))
    decreases |s.buffer|
  {
    hide Turn, Settle, OneActive;
    if Feeds(s.buffer) {
      TurnOne(s);
      ReceiveOne(Turn(s));
    } else {
      SettleOne(s);
    }
  }

  lemma ApplyOne(s: State, e: Event)
    requires OneActive(s)
    ensures OneActive(Apply(s, e))
  {
    hide GetConnection, SendRequest, SendXML, Receive, IsHeader, NothingToDisconnect;
    match e
    case Start(env) => GetConnectionOne(s.(state := Connecting), env);
    case Established(env, rid) => SendRequestOne(s.(rid := rid), env, Request(Session, rid, ""));
    case Broken =>
    case Write(env, data) =>
      SendXMLOne(s.(streamRestart := true), env);
      SendXMLOne(s.(sendBuffer := s.sendBuffer + data, accepted := s.accepted + data), env);
    case Poll(env) => SendXMLOne(s, env);
    case Data(data) => ReceiveOne(Append(s, data));
    case Tag(body) =>
    case Stop(env) => SendRequestOne(s.(rid := s.rid + 1, sendBuffer := ""), env, CloseRequest(s));
  }

  /** In every state that a run reaches, whatever the environment does. */
  lemma {:induction false} RunOne(s: State, events: seq<Event>)
    requires OneActive(s)
    ensures OneActive(Run(s, events))
    decreases |events|
  {
    hide Apply, OneActive;
    if events != [] {
      ApplyOne(s, events[0]);
      RunOne(Apply(s, events[0]), events[1..]);
    }
  }

  // ---- responses after a fallback ----

  /** A response closes the connection that it came over. */
  lemma LegacyTurn(s: State, r: Response, rest: string)
    requires s.buffer == Render(r) + rest && WellFormed(r) && s.active != []
    requires s.mode != Pipelining || WantsFallback(r.header)
    ensures Feeds(s.buffer)
    ensures Turn(s).buffer == rest && Turn(s).mode != Pipelining && |Turn(s).active| == |s.active| - 1
  {
    hide Next, Head, Wraps, WellFormed, Turn, WantsFallback;
    NextOfResponse(r, rest);
    assert s.buffer[|Render(r)|..] == rest;
    LongHeader(r);
    PutTurn(s, r);
  }

  lemma LongHeader(r: Response)
    requires WellFormed(r)
    ensures |r.header| >= 9
  {
  }

  lemma PutTurn(s: State, r: Response)
    requires Next(s.buffer) == Body(r.header, r.body, |Render(r)|) && |r.header| >= 9 && s.active != []
    requires s.mode != Pipelining || WantsFallback(r.header)
    ensures Feeds(s.buffer)
    ensures
      var t := Turn(s);
      t.buffer == s.buffer[|Render(r)|..] && t.mode != Pipelining && |t.active| == |s.active| - 1
  {
    hide Next, StatusOk, WantsFallback;
  }

  /** Once every connection carries one request, so many responses find their connection as there are
      active ones. */
  lemma {:induction false} SuppliedIff(s: State, rs: seq<Response>)
    requires s.buffer == "" && (forall r | r in rs :: WellFormed(r))
    requires s.mode != Pipelining || (rs != [] && WantsFallback(rs[0].header))
    ensures Supplied(Append(s, RenderAll(rs))) <==> |rs| <= |s.active|
    decreases |rs|
  {
    hide WellFormed, Turn, Feeds, WantsFallback;
    if rs == [] {
      NothingFed(s);
    } else {
      var rest := RenderAll(rs[1..]);
      var stream := Render(rs[0]) + rest;
      assert RenderAll(rs) == stream && s.buffer + stream == stream;
      if s.active == [] {
        NextOfResponse(rs[0], rest);
        NonEmptyFeeds(stream, rs[0]);
      } else {
        var b := Append(s, stream);
        LegacyTurn(b, rs[0], rest);
        var u := Turn(b).(buffer := "");
        assert Append(u, rest) == Turn(b) by {
          assert "" + rest == rest;
        }
        SuppliedIff(u, rs[1..]);
      }
    }
  }

  lemma NothingFed(s: State)
    requires s.buffer == ""
    ensures !Feeds(s.buffer + "")
  {
    assert s.buffer + "" == "";
  }

  lemma NonEmptyFeeds(stream: string, r: Response)
    requires Next(stream) == Body(r.header, r.body, |Render(r)|)
    ensures Feeds(stream)
  {
    hide Next;
  }

  /** A connection lost while pipelining: however the run came there and however much of them has
      arrived, so many responses find an active connection as there are active ones, which is one at
      most.  For all open requests that means: exactly if no more than one is open. */
  lemma FallbackSuppliedIff(connection: Option<Conn>, events: seq<Event>, data: string, rs: seq<Response>)
    requires
      var s := Run(Initial(connection), events);
      s.mode == Pipelining && s.state != Connecting && s.buffer + data == RenderAll(rs)
    requires forall r | r in rs :: WellFormed(r)
    ensures
      var s := Run(Initial(connection), events);
      var t := HandleDisconnect(s);
      && t.mode == LegacyHTTP && |t.active| <= 1
      && (Supplied(Append(t, data)) <==> |rs| <= |t.active|)
      && (PoolOk(s) && |rs| == s.openRequests ==> (Supplied(Append(t, data)) <==> s.openRequests <= 1))
  {
    InitialOne(connection);
    RunOne(Initial(connection), events);
    var s := Run(Initial(connection), events);
    var t := HandleDisconnect(s);
    hide Run, WellFormed, Supplied, Initial;
    SuppliedIff(t.(buffer := ""), rs);
    assert Append(t.(buffer := ""), RenderAll(rs)) == Append(t, data) by {
      assert "" + RenderAll(rs) == RenderAll(rs);
    }
  }

  lemma InitialOne(connection: Option<Conn>)
    ensures OneActive(Initial(connection))
  {
  }

  // ---- a run on which a response starves ----

  function Plain(body: string): Response {
    Response(PlainHeader(STATUS, Decimal(|body|)), body)
  }

  predicate Sendable(body: string) {
    body != "" && |Decimal(|body|)| + |body| <= LONG_MAX - 100
  }

  /** A plain response does not ask for a fallback. */
  lemma PlainKeepsMode(length: string)
    requires '\r' !in length
    ensures !WantsFallback(PlainHeader(STATUS, length))
  {
    var header := PlainHeader(STATUS, length);
    NoConnectionField(header, length);
    assert Substr(header, 0, 8)[7] == '1';
    hide CiFind, PlainHeader;
  }

  lemma NoConnectionField(header: string, length: string)
    requires header == PlainHeader(STATUS, length) && '\r' !in length
    ensures CiFind(header, CRLF + "Connection" + ": ").None?
  {
    var s, p := UpperAll(header), UpperAll(CRLF + "Connection" + ": ");
    assert p[0] == '\r' && p[5] == 'N' && |p| == 14;
    forall k: nat
      ensures !At(s, p, k)
    {
      AtChar(s, p, k, 0);
      AtChar(s, p, k, 5);
      ReturnsOf(header, length, k);
      assert k + 5 < |s| ==> s[k] == Upper(header[k]) && s[k + 5] == Upper(header[k + 5]);
    }
    hide UpperAll, PlainHeader, Upper;
  }

  /** A carriage return of the header with enough behind it begins the length field. */
  lemma ReturnsOf(header: string, length: string, k: nat)
    requires header == PlainHeader(STATUS, length) && '\r' !in length
    ensures k + 5 < |header| && Upper(header[k]) == '\r' ==> header[k + 5] == 't'
  {
    var field := CRLF + NAME + ": ";
    var m, n := |STATUS|, |STATUS| + |field|;
    assert '\r' !in STATUS && header == STATUS + field + (length + CRLF);
    assert 0 <= k < m ==> header[k] == STATUS[k] && header[k] in STATUS;
    assert m <= k < n ==> header[k] == field[k - m];
    assert n <= k < n + |length| ==> header[k] == length[k - n] && header[k] in length;
    assert header[m + 5] == field[5];
  }

  lemma PlainIs(body: string)
    requires Sendable(body)
    ensures WellFormed(Plain(body)) && !WantsFallback(Plain(body).header) && StatusOk(Plain(body).header)
    ensures Plain(body).body == body && |Plain(body).header| >= 9
  {
    PlainResponseWellFormed(body);
    assert '\r' !in Decimal(|body|);
    PlainKeepsMode(Decimal(|body|));
    hide WantsFallback, Head, Field, PlainHeader, Atol, Decimal;
  }

  /** A plain response while pipelining closes a request and changes nothing else. */
  lemma PlainReceived(s: State, body: string)
    requires s.buffer == "" && s.mode == Pipelining && s.active != [] && Sendable(body)
    ensures
      var t := s.(openRequests := s.openRequests - 1, fed := s.fed + [body]);
      && HandleReceivedData(s, Render(Plain(body))) == t
      && (s.openRequests > 0 ==> Answered(Append(s, Render(Plain(body)))))
  {
    PlainIs(body);
    var r := Plain(body);
    NextOfResponse(r, "");
    assert Render(r) + "" == Render(r) && s.buffer + Render(r) == Render(r);
    var b := s.(buffer := Render(r));
    PlainTurn(b, r);
    hide Next, Turn, Settle, WellFormed, WantsFallback, StatusOk, Plain, Render, Sendable, Head, Wraps;
    var t := s.(openRequests := s.openRequests - 1, fed := s.fed + [body]);
    NothingToReceive(t);
    SettleNothing(t);
    ReceiveOnce(b);
    EmptyFeedsNot();
    hide Receive;
  }

  lemma EmptyFeedsNot()
    ensures Next("").NoHeader? && !Feeds("")
  {
  }

  lemma PlainTurn(b: State, r: Response)
    requires Next(b.buffer) == Body(r.header, r.body, |b.buffer|) && b.buffer != "" && b.active != []
    requires b.mode == Pipelining && |r.header| >= 9 && StatusOk(r.header) && !WantsFallback(r.header)
    ensures Feeds(b.buffer)
    ensures Turn(b) == b.(openRequests := b.openRequests - 1, fed := b.fed + [r.body], buffer := "")
    ensures Settle(b).mode == b.mode
  {
    hide Next, StatusOk, WantsFallback;
    assert b.buffer[|b.buffer|..] == "";
  }

  // ---- running ----

  lemma {:induction false} RunAppend(s: State, a: seq<Event>, b: seq<Event>)
    ensures Run(s, a + b) == Run(Run(s, a), b)
    ensures AllowedRun(s, a + b) <==> AllowedRun(s, a) && AllowedRun(Run(s, a), b)
    decreases |a|
  {
    hide Apply, Allowed;
    if a == [] {
      assert a + b == b;
    } else {
      assert (a + b)[1..] == a[1..] + b;
      RunAppend(Apply(s, a[0]), a[1..], b);
    }
  }

  lemma RunTwo(s: State, e: Event, f: Event)
    ensures Run(s, [e, f]) == Apply(Apply(s, e), f)
    ensures AllowedRun(s, [e, f]) <==> Allowed(s, e) && Allowed(Apply(s, e), f)
  {
    hide Apply, Allowed;
    var t := Apply(s, e);
    assert [e, f][1..] == [f] && [f][1..] == [];
    assert Run(s, [e, f]) == Run(t, [f]) && Run(t, [f]) == Run(Apply(t, f), []);
    assert AllowedRun(t, [f]) <==> Allowed(t, f);
  }

  const UP := Env({1}, true, 2, false)
  const DOWN := Env({}, true, 2, false)
  const RID := 1728679472

  /** A connection comes up and carries the session request. */
  function Opening(): seq<Event> { [Start(DOWN), Established(UP, RID)] }

  /** Its response arrives, and with it the session. */
  function Opened(body: string): seq<Event> { [Data(Render(Plain(body))), Tag(BodyTag(true, None, false))] }

  /** Two stanzas follow. */
  function Writing(first: string, second: string): seq<Event> { [Write(UP, first), Write(UP, second)] }

  function SessionSent(s: State): State {
    s.(state := Connecting, rid := RID, active := [1], pool := [], openRequests := 1, sent := [Request(Session, RID, "")])
  }

  lemma OpeningRun()
    ensures
      var s := Initial(Some(1));
      Run(s, Opening()) == SessionSent(s) && AllowedRun(s, Opening())
  {
    var s := Initial(Some(1));
    RunTwo(s, Start(DOWN), Established(UP, RID));
    assert [1][1..] + [1] == [1];
    assert Connect(s, DOWN) == s.(state := Connecting);
    hide Run, AllowedRun;
  }

  lemma OpenedRun(s: State, body: string)
    requires s.buffer == "" && s.mode == Pipelining && s.active != [] && s.openRequests == 1 && Sendable(body)
    ensures
      && Run(s, Opened(body)) == s.(openRequests := 0, fed := s.fed + [body], streamRestart := false, state := Connected)
      && AllowedRun(s, Opened(body))
  {
    var data := Render(Plain(body));
    var e, f := Data(data), Tag(BodyTag(true, None, false));
    RunTwo(s, e, f);
    PlainReceived(s, body);
    DataStep(s, data);
    var t := s.(openRequests := 0, fed := s.fed + [body]);
    TagStep(t);
    hide Run, AllowedRun, Plain, Render, HandleReceivedData, Answered, Apply, Allowed, Sendable;
  }

  lemma TagStep(s: State)
    ensures
      var f := Tag(BodyTag(true, None, false));
      Apply(s, f) == s.(streamRestart := false, state := Connected) && Allowed(s, f)
  {
  }

  lemma DataStep(s: State, data: string)
    ensures Apply(s, Data(data)) == HandleReceivedData(s, data)
    ensures Allowed(s, Data(data)) <==> Answered(Append(s, data))
  {
    hide HandleReceivedData, Answered;
  }

  predicate IsStanza(data: string) {
    data != "" && !IsHeader(data) && data != STREAM_END
  }

  /** A stanza leaves at once over the connection that is there. */
  lemma Written(s: State, data: string)
    requires s.state == Connected && s.mode == Pipelining && s.active == [1] && s.pool == []
    requires 0 <= s.openRequests < s.maxOpenRequests && s.sendBuffer == "" && !s.streamRestart && IsStanza(data)
    ensures
      Send(s, UP, data).0 ==
        s.(rid := s.rid + 1, openRequests := s.openRequests + 1, accepted := s.accepted + data,
           sent := s.sent + [Request(Stanzas, s.rid + 1, data)], flow := s.flow + [Delivered(data)])
    ensures Fresh(s, UP)
  {
    assert "" + data == data;
    hide IsHeader;
  }

  lemma WritingRun(s: State, first: string, second: string)
    requires s.state == Connected && s.mode == Pipelining && s.active == [1] && s.pool == [] && s.maxOpenRequests == 2
    requires s.openRequests == 0 && s.sendBuffer == "" && !s.streamRestart && IsStanza(first) && IsStanza(second)
    ensures
      var t := Run(s, Writing(first, second));
      && t == s.(rid := s.rid + 2, openRequests := 2, accepted := s.accepted + first + second,
                 sent := s.sent + [Request(Stanzas, s.rid + 1, first)] + [Request(Stanzas, s.rid + 2, second)],
                 flow := s.flow + [Delivered(first)] + [Delivered(second)])
      && AllowedRun(s, Writing(first, second))
  {
    RunTwo(s, Write(UP, first), Write(UP, second));
    Written(s, first);
    Written(Send(s, UP, first).0, second);
    hide Run, AllowedRun, Send, IsStanza, Fresh;
  }

  /** Whatever the session, the stanzas and the responses: after two pipelined requests the connection is
      lost, and of the two responses the second finds no active connection. */
  lemma FallbackStarves(body: string, first: string, second: string, rs: seq<Response>)
    requires Sendable(body) && IsStanza(first) && IsStanza(second)
    requires |rs| == 2 && forall r | r in rs :: WellFormed(r)
    ensures
      var events := Opening() + Opened(body) + Writing(first, second);
      var s := Run(Initial(Some(1)), events);
      && AllowedRun(Initial(Some(1)), events) && PoolOk(s)
      && s.mode == Pipelining && s.openRequests == 2
      && !Supplied(Append(HandleDisconnect(s), RenderAll(rs)))
  {
    var s0 := Initial(Some(1));
    var events := Opening() + Opened(body) + Writing(first, second);
    RunAppend(s0, Opening() + Opened(body), Writing(first, second));
    RunAppend(s0, Opening(), Opened(body));
    OpeningRun();
    var s1 := SessionSent(s0);
    OpenedRun(s1, body);
    var s2 := Run(s1, Opened(body));
    WritingRun(s2, first, second);
    hide Run, AllowedRun, Opening, Opened, Writing, PoolOk, Supplied, WellFormed, IsStanza, Sendable;
    InitialOk(Some(1));
    RunKeeps(s0, events);
    assert "" + RenderAll(rs) == RenderAll(rs);
    FallbackSuppliedIff(Some(1), events, RenderAll(rs), rs);
  }
}
