/** What leaves with which call, and what is kept (gloox/connectionbosh.cpp:121-302). */
module BoshWrites {
  import opened Text
  import opened HttpFraming
  import opened Bosh
  import opened BoshRuns
  import opened BoshSends
  import opened BoshPool

  /** A request can go out. */
  predicate CanLeave(s: State, env: Env) {
    WindowOpen(s) && env.sendOk && (Shares(s) || FrontUp(s, env))
  }

  /** What waits goes out in one body, or a restart in its place; then nothing waits. */
  predicate Leaves(s: State, t: State, waiting: string, restart: bool) {
    && t.sent == s.sent + [if restart then Request(Restart, s.rid + 1, "") else Request(Stanzas, s.rid + 1, waiting)]
    && t.rid == s.rid + 1 && t.openRequests == s.openRequests + 1
    && t.sendBuffer == "" && !t.streamRestart
    && t.flow == s.flow + [if restart then Lost(waiting) else Delivered(waiting)]
  }

  predicate Waits(s: State, t: State, waiting: string, restart: bool) {
    && t.sent == s.sent && t.rid == s.rid && t.openRequests == s.openRequests
    && t.sendBuffer == waiting && t.streamRestart == restart && t.flow == s.flow
  }

  /** Both, exactly. */
  predicate LeavesIff(s: State, t: State, waiting: string, restart: bool, condition: bool) {
    if condition then Leaves(s, t, waiting, restart) else Waits(s, t, waiting, restart)
  }

  lemma BodyLeavesIff(s: State, env: Env)
    ensures LeavesIff(s, SendXML(s, env), s.sendBuffer, s.streamRestart,
      s.state == Connected && (s.sendBuffer != "" || !env.tooSoon || s.openRequests <= 0) && CanLeave(s, env))
  {
    var r := s.(rid := s.rid + 1);
    RequestLeavesIff(r, env, BodyRequest(s));
    SendRequestFrame(r, env, BodyRequest(s));
    assert Shares(r) == Shares(s) && FrontUp(r, env) == FrontUp(s, env) && WindowOpen(r) == WindowOpen(s);
    hide SendRequest, Shares, FrontUp, WindowOpen;
  }

  lemma SameList(s: State, t: State, env: Env)
    requires t == s.(sendBuffer := t.sendBuffer, accepted := t.accepted, streamRestart := t.streamRestart)
    ensures CanLeave(s, env) == CanLeave(t, env)
  {
  }

  /** A stanza is accepted exactly if the session is not down; once it is up, it leaves with all that
      waited before it, exactly if a request can go out (one without data not too soon after another). */
  lemma StanzaLeavesIff(s: State, env: Env, data: string)
    requires !("<?" <= data) && data != "</stream:stream>"
    ensures
      var (t, ok) := Send(s, env, data);
      var waiting := s.sendBuffer + data;
      && (ok <==> s.state != Disconnected)
      && (ok ==>
            && t.accepted == s.accepted + data
            && LeavesIff(s, t, waiting, s.streamRestart,
                 s.state == Connected && (waiting != "" || !env.tooSoon || s.openRequests <= 0) && CanLeave(s, env)))
      && (!ok ==> t == s)
  {
    var b := s.(sendBuffer := s.sendBuffer + data, accepted := s.accepted + data);
    NoHeader(data);
    BodyLeavesIff(b, env);
    SendXMLFrame(b, env);
    SameList(s, b, env);
    hide SendXML, CanLeave, IsHeader;
  }

  lemma NoHeader(data: string)
    ensures IsHeader(data) <==> "<?" <= data
  {
    if |data| >= 2 {
      assert "<?" <= data <==> data[..2] == "<?";
    }
  }

  /** A stream header asks for a restart, which leaves in place of the data that waits. */
  lemma HeaderLeavesIff(s: State, env: Env, data: string)
    requires "<?" <= data
    ensures
      var (t, ok) := Send(s, env, data);
      && (ok <==> s.state != Disconnected)
      && (ok ==> LeavesIff(s, t, s.sendBuffer, true,
            s.state == Connected && (s.sendBuffer != "" || !env.tooSoon || s.openRequests <= 0) && CanLeave(s, env)))
      && (!ok ==> t == s)
  {
    var r := s.(streamRestart := true);
    NoHeader(data);
    BodyLeavesIff(r, env);
    SameList(s, r, env);
    hide SendXML, CanLeave, IsHeader;
  }

  /** An end tag goes nowhere: the session ends with a closing request. */
  lemma EndTagStays(s: State, env: Env)
    ensures Send(s, env, "</stream:stream>") == (s, s.state != Disconnected)
  {
    var data := "</stream:stream>";
    assert data[1] == '/' && STREAM_END == data;
    NoHeader(data);
    hide IsHeader;
  }

  /** A poll leaves exactly if the session is up, a request can go out, and either none is open or data
      waits. */
  lemma PollLeavesIff(s: State, env: Env)
    ensures LeavesIff(s, Recv(s, env), s.sendBuffer, s.streamRestart,
      s.state == Connected && (s.openRequests == 0 || s.sendBuffer != "") && CanLeave(s, env))
  {
    BodyLeavesIff(s, env);
    hide SendXML, CanLeave;
  }

  /** The session request leaves exactly if the client is connecting and a request can go out. */
  lemma SessionLeavesIff(s: State, env: Env, rid: int)
    ensures
      var t := HandleConnect(s, env, rid);
      && t.sent == s.sent + (if s.state == Connecting && CanLeave(s, env) then [Request(Session, rid, "")] else [])
      && t.rid == (if s.state == Connecting then rid else s.rid)
      && t.openRequests == s.openRequests + (if s.state == Connecting && CanLeave(s, env) then 1 else 0)
      && t.state == s.state && t.sendBuffer == s.sendBuffer
  {
    var r := s.(rid := rid);
    assert s.sent + [] == s.sent;
    RequestLeavesIff(r, env, Request(Session, rid, ""));
    SendRequestFrame(r, env, Request(Session, rid, ""));
    assert CanLeave(r, env) == CanLeave(s, env);
    hide SendRequest;
  }

  /** The closing request leaves, with what waits, exactly if there is a connection to end the session
      over and a request can go out; the session is down and nothing waits either way. */
  lemma CloseLeavesIff(s: State, env: Env)
    ensures
      var t := Disconnect(s, env);
      if s.state == Disconnected || (s.active == [] && (s.mode == Pipelining || s.pool == [])) then t == s
      else
        && t.state == Disconnected && t.sendBuffer == "" && t.rid == s.rid + 1
        && t.sent == s.sent + (if CanLeave(s, env) then [Request(Terminate, s.rid + 1, s.sendBuffer)] else [])
        && t.flow == s.flow + [if CanLeave(s, env) then Delivered(s.sendBuffer) else Lost(s.sendBuffer)]
  {
    var r := s.(rid := s.rid + 1, sendBuffer := "");
    assert s.sent + [] == s.sent;
    RequestLeavesIff(r, env, CloseRequest(s));
    SendRequestFrame(r, env, CloseRequest(s));
    assert CanLeave(r, env) == CanLeave(s, env);
    hide SendRequest;
  }

  /** The application connects exactly once; a connection lost while connecting ends the attempt, and
      one lost while pipelining ends pipelining. */
  lemma LifeCycle(s: State, env: Env)
    ensures Connect(s, env).state == if s.state == Disconnected then Connecting else s.state
    ensures s.state != Disconnected ==> Connect(s, env) == s
    ensures
      var t := HandleDisconnect(s);
      t == s.(state := if s.state == Connecting then Disconnected else s.state,
              mode := if s.state != Connecting && s.mode == Pipelining then LegacyHTTP else s.mode)
  {
    GetConnectionFrame(s.(state := Connecting), env);
    hide GetConnection;
  }
}
