/** The ConnectionBOSH object of gloox/connectionbosh.cpp, method by method, against `Bosh`. */
module ConnectionBosh {
  import opened Text
  import opened HttpFraming
  import opened Bosh
  import opened BoshRuns

  /** How `handleReceivedData` ends: it returns, `substr` throws std::out_of_range, or the same pass
      is repeated for ever. */
  datatype Ending = Returns | Throws | Diverges

  function EndingOf(s: State): Ending {
    match Next(s.buffer)
    case Throws => Ending.Throws
    case Body(_, _, _) => Diverges
    case _ => Returns
  }

  class ConnectionBOSH {
    var state: ConnState
    var connMode: Mode
    var rid: int
    var openRequests: int
    var maxOpenRequests: int
    var streamRestart: bool
    var buffer: string
    var bufferHeader: string
    var bufferContentLength: nat
    var sendBuffer: string
    var activeConnections: seq<Conn>
    var connectionPool: seq<Conn>
    ghost var sent: seq<Request>
    ghost var fed: seq<string>
    ghost var accepted: string
    ghost var flow: seq<Flow>

    ghost function Snapshot(): State
      reads this
    {
      State(state, connMode, rid, openRequests, maxOpenRequests, streamRestart, buffer, sendBuffer,
            activeConnections, connectionPool, sent, fed, accepted, flow)
    }

    constructor (connection: Option<Conn>)
      ensures Snapshot() == Initial(connection)
    {
      state, connMode, rid := Disconnected, Pipelining, 0;
      openRequests, maxOpenRequests, streamRestart := 0, 2, false;
      buffer, bufferHeader, bufferContentLength, sendBuffer := "", "", 0, "";
      activeConnections := [];
      connectionPool := match connection case None => [] case Some(c) => [c];
      sent, fed, accepted, flow := [], [], "", [];
    }

    method ActivateConnection(env: Env) returns (conn: Option<Conn>)
      requires connectionPool != []
      modifies this`activeConnections, this`connectionPool
      ensures (Snapshot(), conn) == Bosh.ActivateConnection(old(Snapshot()), env)
    {
      var c := connectionPool[0];
      connectionPool := connectionPool[1..];
      if c in env.up {
        activeConnections := activeConnections + [c];
        return Some(c);
      }
      connectionPool := connectionPool + [c];
      conn := None;
    }

    method GetConnection(env: Env) returns (conn: Option<Conn>)
      modifies this`activeConnections, this`connectionPool
      ensures (Snapshot(), conn) == Bosh.GetConnection(old(Snapshot()), env)
    {
      if openRequests > 0 && openRequests >= maxOpenRequests {
        return None;
      }
      match connMode {
        case Pipelining =>
          if activeConnections != [] {
            return Some(activeConnections[0]);
          } else if connectionPool != [] {
            conn := ActivateConnection(env);
            return;
          }
        case _ =>
          if connectionPool != [] {
            conn := ActivateConnection(env);
            return;
          } else if activeConnections != [] {
            connectionPool := connectionPool + [env.newConn];
          }
      }
      conn := None;
    }

    method PutConnection()
      requires activeConnections != []
      modifies this`activeConnections, this`connectionPool
      ensures Snapshot() == Bosh.PutConnection(old(Snapshot()))
    {
      var conn := activeConnections[0];
      match connMode
      case Pipelining =>
      case _ =>
        activeConnections := activeConnections[1..];
        connectionPool := connectionPool + [conn];
    }

    method SendRequest(env: Env, request: Request) returns (ok: bool)
      modifies this`activeConnections, this`connectionPool, this`openRequests, this`sent
      ensures (Snapshot(), ok) == Bosh.SendRequest(old(Snapshot()), env, request)
    {
      var conn := GetConnection(env);
      if conn.None? {
        return false;
      }
      if env.sendOk {
        openRequests := openRequests + 1;
        sent := sent + [request];
        return true;
      }
      ok := false;
    }

    method SendXML(env: Env) returns (ok: bool)
      modifies this
      ensures Snapshot() == Bosh.SendXML(old(Snapshot()), env)
      ensures ok == !Refuses(old(Snapshot()), env)
    {
      hide Bosh.SendRequest, Bosh.SendXML;
      ghost var s := Snapshot();
      SendXMLIs(s, env);
      if state != Connected {
        return false;
      }
      if sendBuffer == "" {
        if env.tooSoon && openRequests > 0 {
          return false;
        }
      }
      rid := rid + 1;
      var requestBody :=
        if streamRestart then Request(Restart, rid, "") else Request(Stanzas, rid, sendBuffer);
      assert requestBody == BodyRequest(s) && Snapshot() == s.(rid := s.rid + 1);
      var done := SendRequest(env, requestBody);
      AfterSend(done);
      ok := true;
    }

    /** What `sendXML` does with the answer of `sendRequest`. */
    method AfterSend(done: bool)
      modifies this`rid, this`sendBuffer, this`streamRestart, this`flow
      ensures Snapshot() == AfterRequest(old(Snapshot()), done)
    {
      if done {
        flow := flow + [if streamRestart then Lost(sendBuffer) else Delivered(sendBuffer)];
        sendBuffer := "";
        streamRestart := false;
      } else {
        rid := rid - 1;
      }
    }

    method Send(env: Env, data: string) returns (ok: bool)
      modifies this
      ensures (Snapshot(), ok) == Bosh.Send(old(Snapshot()), env, data)
    {
      hide Bosh.SendXML;
      if state == Disconnected {
        return false;
      }
      if Substr(data, 0, 2) == "<?" {
        streamRestart := true;
        var _ := SendXML(env);
        return true;
      } else if data == STREAM_END {
        return true;
      }
      sendBuffer := sendBuffer + data;
      accepted := accepted + data;
      var _ := SendXML(env);
      ok := true;
    }

    method Recv(env: Env)
      modifies this
      ensures Snapshot() == Bosh.Recv(old(Snapshot()), env)
    {
      if state == Disconnected {
        return;
      }
      if (openRequests == 0 || |sendBuffer| > 0) && state == Connected {
        var _ := SendXML(env);
      }
    }

    method Connect(env: Env)
      modifies this
      ensures Snapshot() == Bosh.Connect(old(Snapshot()), env)
    {
      if state != Disconnected {
        return;
      }
      state := Connecting;
      var _ := GetConnection(env);
    }

    method HandleConnect(env: Env, random: int)
      modifies this
      ensures Snapshot() == Bosh.HandleConnect(old(Snapshot()), env, random)
    {
      if state == Connecting {
        rid := random;
        var _ := SendRequest(env, Request(Session, rid, ""));
      }
    }

    method HandleDisconnect()
      modifies this`state, this`connMode
      ensures Snapshot() == Bosh.HandleDisconnect(old(Snapshot()))
    {
      if state == Connecting {
        state := Disconnected;
        return;
      }
      match connMode
      case Pipelining => connMode := LegacyHTTP;
      case _ =>
    }

    method Disconnect(env: Env)
      modifies this
      ensures Snapshot() == Bosh.Disconnect(old(Snapshot()), env)
    {
      hide Bosh.SendRequest, AfterClose;
      if (connMode == Pipelining && activeConnections == []) || (connectionPool == [] && activeConnections == []) {
        return;
      }
      if state != Disconnected {
        SendClose(env);
      }
      state := Disconnected;
    }

    /** The closing request, with the data that waits. */
    method SendClose(env: Env)
      modifies this
      ensures
        var s := old(Snapshot());
        var (t, ok) := Bosh.SendRequest(s.(rid := s.rid + 1, sendBuffer := ""), env, CloseRequest(s));
        Snapshot().(state := Disconnected) == AfterClose(t, ok, s.sendBuffer)
    {
      hide Bosh.SendRequest;
      ghost var s := Snapshot();
      rid := rid + 1;
      ghost var data := sendBuffer;
      var requestBody := Request(Terminate, rid, sendBuffer);
      assert requestBody == CloseRequest(s);
      sendBuffer := "";
      assert Snapshot() == s.(rid := s.rid + 1, sendBuffer := "");
      var ok := SendRequest(env, requestBody);
      flow := flow + [if ok then Delivered(data) else Lost(data)];
    }

    method HandleTag(tag: BodyTag)
      modifies this`state, this`streamRestart, this`maxOpenRequests
      ensures Snapshot() == Bosh.HandleTag(old(Snapshot()), tag)
    {
      if streamRestart {
        streamRestart := false;
      }
      if tag.hasSid {
        state := Connected;
        if tag.requests.Some? {
          var serverRequests := tag.requests.value;
          if serverRequests < maxOpenRequests {
            maxOpenRequests := serverRequests;
          }
        }
      }
      if tag.terminates {
        state := Disconnected;
      }
    }

    method GetHTTPField(field: string) returns (value: string)
      ensures value == Field(bufferHeader, field)
    {
      var fp := CiFind(bufferHeader, CRLF + field + ": ");
      if fp.None? {
        return "";
      }
      var from := fp.value + |field| + 4;
      var fp2 := Find(bufferHeader, CRLF, from);
      if fp2.None? {
        return "";
      }
      value := bufferHeader[from..fp2.value];
    }

    /** `statusCode != "200"`: `disconnect` then finds the connection disconnected already. */
    method CheckStatus()
      requires |bufferHeader| >= 9
      modifies this`state
      ensures Snapshot() == OnStatus(old(Snapshot()), bufferHeader)
    {
      var statusCode := Substr(bufferHeader, 9, 3);
      if statusCode != "200" {
        state := Disconnected;
      }
    }

    method CheckFallback()
      modifies this`connMode
      ensures
        var was := old(Snapshot());
        Snapshot() == if was.mode != LegacyHTTP && WantsFallback(bufferHeader) then was.(mode := LegacyHTTP) else was
    {
      var close := GetHTTPField("Connection");
      if connMode != LegacyHTTP && (close == "close" || Substr(bufferHeader, 0, 8) == "HTTP/1.0") {
        connMode := LegacyHTTP;
      }
    }

    method TakeBody(from: nat, total: nat)
      requires from <= |buffer| && total <= |buffer| && activeConnections != []
      modifies this
      ensures Snapshot() == OnBody(old(Snapshot()), Substr(old(buffer), from, old(bufferContentLength)), total)
    {
      PutConnection();
      openRequests := openRequests - 1;
      var xml := Substr(buffer, from, bufferContentLength);
      fed := fed + [xml];
      buffer := buffer[total..];
      bufferContentLength := 0;
      bufferHeader := "";
    }

    /** The rest of the body of the loop, once the length is known. */
    method WithLength(from: nat) returns (again: bool, ending: Ending)
      requires from <= |buffer| && |bufferHeader| >= 9
      requires |buffer| >= Size(from + bufferContentLength) != 0 ==> activeConnections != []
      modifies this
      ensures
        var was := old(Snapshot());
        var s := if was.mode != LegacyHTTP && WantsFallback(old(bufferHeader)) then was.(mode := LegacyHTTP) else was;
        var total := Size(from + old(bufferContentLength));
        && (again <==> |s.buffer| >= total && total != 0)
        && Snapshot() == (if again then OnBody(s, Substr(s.buffer, from, old(bufferContentLength)), total) else s)
        && (!again ==> ending == if |s.buffer| >= total then Diverges else Returns)
    {
      hide OnBody, WantsFallback, Size, Substr, Bosh.PutConnection;
      again, ending := false, Returns;
      CheckFallback();
      var total := Size(from + bufferContentLength);
      if |buffer| >= total {
        if total == 0 {
          ending := Diverges;
          return;
        }
        TakeBody(from, total);
        again := true;
      }
    }

    /** The body of the loop; `again` if the loop goes on. */
    method OnePass() returns (again: bool, ending: Ending)
      requires Feeds(buffer) ==> activeConnections != []
      modifies this
      ensures again ==> Feeds(old(buffer)) && Snapshot() == Turn(old(Snapshot()))
      ensures !again ==>
        !Feeds(old(buffer)) && Snapshot() == Settle(old(Snapshot())) && ending == EndingOf(old(Snapshot()))
    {
      hide OnBody, OnStatus, WantsFallback, Field, Atol, Find, Next, Size, Substr, Bosh.PutConnection;
      again, ending := false, Returns;
      var headerLength := Find(buffer, HEADER_END, 0);
      PassIs(buffer, headerLength);
      if headerLength.None? {
        return;
      }
      bufferHeader := buffer[..headerLength.value + 2];
      if |bufferHeader| < 9 {
        ending := Ending.Throws;
        return;
      }
      CheckStatus();
      var length := GetHTTPField("Content-Length");
      bufferContentLength := Size(Atol(length));
      if bufferContentLength == 0 {
        return;
      }
      again, ending := WithLength(headerLength.value + 4);
    }

    method HandleReceivedData(data: string) returns (ending: Ending)
      requires Supplied(Append(Snapshot(), data))
      modifies this
      ensures Snapshot() == Bosh.HandleReceivedData(old(Snapshot()), data)
      ensures ending == EndingOf(Snapshot())
      ensures old(PoolOk(Snapshot()) && Answered(Append(Snapshot(), data))) ==> PoolOk(Snapshot())
    {
      hide Answered, PoolOk, Receive, Settle, Turn, Next;
      ghost var start := Append(Snapshot(), data);
      PoolIgnoresRest(Snapshot(), start);
      if PoolOk(start) && Answered(start) {
        ReceiveKeeps(start);
      }
      buffer := buffer + data;
      while true
        invariant Receive(Snapshot()) == Receive(start) && Supplied(Snapshot())
        decreases |buffer|
      {
        PassKeeps(Snapshot());
        var again;
        again, ending := OnePass();
        if !again {
          return;
        }
      }
    }
  }

  /** What the tests of one pass amount to. */
  lemma PassIs(b: string, h: Option<nat>)
    requires h == Find(b, HEADER_END, 0)
    ensures h.None? ==> Next(b) == NoHeader
    ensures h.Some? ==>
      && h.value + 4 <= |b|
      && var header := b[..h.value + 2];
         var length := Size(Atol(Field(header, "Content-Length")));
         var total := Size(h.value + 4 + length);
         Next(b) ==
           if |header| < 9 then Pass.Throws
           else if length == 0 then NoLength(header)
           else if |b| >= total then Body(header, Substr(b, h.value + 4, length), total)
           else TooShort(header)
  {
    hide Field, Atol, Size, Find;
  }

  lemma PassKeeps(s: State)
    ensures !Feeds(s.buffer) ==> Receive(s) == Settle(s) && Settle(s).buffer == s.buffer
    ensures Feeds(s.buffer) ==> Receive(s) == Receive(Turn(s))
  {
    hide Next, Settle, Turn;
    SettleShape(s);
  }
}
