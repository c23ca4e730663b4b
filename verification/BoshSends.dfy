/** What becomes of the data given to `send`, and the ids of the requests that carry it. */
module BoshSends {
  import opened Text
  import opened HttpFraming
  import opened Bosh
  import opened BoshRuns

  function Everything(flow: seq<Flow>): string {
    if flow == [] then "" else Everything(flow[..|flow| - 1]) + flow[|flow| - 1].data
  }

  function DeliveredText(flow: seq<Flow>): string {
    if flow == [] then ""
    else
      var last := flow[|flow| - 1];
      DeliveredText(flow[..|flow| - 1]) + if last.Delivered? then last.data else ""
  }

  function LostText(flow: seq<Flow>): string {
    if flow == [] then ""
    else
      var last := flow[|flow| - 1];
      LostText(flow[..|flow| - 1]) + if last.Lost? then last.data else ""
  }

  /** The payloads of the transmitted bodies, in order. */
  function Payloads(sent: seq<Request>): string {
    if sent == [] then "" else Payloads(sent[..|sent| - 1]) + sent[|sent| - 1].payload
  }

  lemma FlowSnoc(flow: seq<Flow>, f: Flow)
    ensures Everything(flow + [f]) == Everything(flow) + f.data
    ensures DeliveredText(flow + [f]) == DeliveredText(flow) + if f.Delivered? then f.data else ""
    ensures LostText(flow + [f]) == LostText(flow) + if f.Lost? then f.data else ""
  {
    assert (flow + [f])[..|flow|] == flow;
  }

  lemma SentSnoc(sent: seq<Request>, r: Request)
    ensures Payloads(sent + [r]) == Payloads(sent) + r.payload
  {
    assert (sent + [r])[..|sent|] == sent;
  }

  lemma {:induction false} FlowLengths(flow: seq<Flow>)
    ensures |Everything(flow)| == |DeliveredText(flow)| + |LostText(flow)|
    ensures LostText(flow) == "" ==> Everything(flow) == DeliveredText(flow)
  {
    if flow != [] {
      FlowLengths(flow[..|flow| - 1]);
    }
  }

  /** Everything accepted was transmitted, lost, or is still in the buffer, in this order. */
  predicate Ledger(s: State) {
    && Everything(s.flow) + s.sendBuffer == s.accepted
    && DeliveredText(s.flow) == Payloads(s.sent)
  }

  lemma SameLedger(s: State, t: State)
    requires s.flow == t.flow && s.sendBuffer == t.sendBuffer && s.accepted == t.accepted && s.sent == t.sent
    ensures Ledger(s) ==> Ledger(t)
  {
  }

  lemma GetConnectionFrame(s: State, env: Env)
    ensures
      var t := GetConnection(s, env).0;
      t == s.(active := t.active, pool := t.pool)
  {
  }

  lemma SendRequestFrame(s: State, env: Env, request: Request)
    ensures
      var (t, ok) := SendRequest(s, env, request);
      t == s.(active := t.active, pool := t.pool,
              openRequests := if ok then s.openRequests + 1 else s.openRequests,
              sent := if ok then s.sent + [request] else s.sent)
  {
    GetConnectionFrame(s, env);
    hide GetConnection;
  }

  /** `SendXML` either leaves the ledger alone, or moves the whole buffer into the flow. */
  lemma SendXMLFrame(s: State, env: Env)
    ensures
      var t := SendXML(s, env);
      var ok := !Refuses(s, env) && SendRequest(s.(rid := s.rid + 1), env, BodyRequest(s)).1;
      && t.accepted == s.accepted
      && (if ok then
            && t.sent == s.sent + [BodyRequest(s)] && t.rid == s.rid + 1 && t.sendBuffer == ""
            && t.flow == s.flow + [if s.streamRestart then Lost(s.sendBuffer) else Delivered(s.sendBuffer)]
          else
            t.sent == s.sent && t.rid == s.rid && t.sendBuffer == s.sendBuffer && t.flow == s.flow)
  {
    SendRequestFrame(s.(rid := s.rid + 1), env, BodyRequest(s));
    hide SendRequest, Refuses, BodyRequest;
  }

  lemma SendXMLLedger(s: State, env: Env)
    requires Ledger(s)
    ensures Ledger(SendXML(s, env))
  {
    SendXMLFrame(s, env);
    FlowSnoc(s.flow, if s.streamRestart then Lost(s.sendBuffer) else Delivered(s.sendBuffer));
    SentSnoc(s.sent, BodyRequest(s));
    hide SendXML, Refuses, SendRequest;
  }

  lemma SendLedger(s: State, env: Env, data: string)
    requires Ledger(s)
    ensures Ledger(Send(s, env, data).0)
  {
    hide SendXML, IsHeader;
    var r := s.(streamRestart := true);
    SendXMLLedger(r, env);
    var b := s.(sendBuffer := s.sendBuffer + data, accepted := s.accepted + data);
    assert Everything(b.flow) + b.sendBuffer == s.accepted + data;
    SendXMLLedger(b, env);
  }

  lemma DisconnectLedger(s: State, env: Env)
    requires Ledger(s)
    ensures Ledger(Disconnect(s, env))
  {
    var r := s.(rid := s.rid + 1, sendBuffer := "");
    var request := CloseRequest(s);
    SendRequestFrame(r, env, request);
    hide SendRequest, NothingToDisconnect;
    FlowSnoc(s.flow, Delivered(s.sendBuffer));
    FlowSnoc(s.flow, Lost(s.sendBuffer));
    SentSnoc(s.sent, request);
  }

  lemma ConnectLedger(s: State, env: Env, rid: int)
    requires Ledger(s)
    ensures Ledger(Connect(s, env)) && Ledger(HandleConnect(s, env, rid))
  {
    GetConnectionFrame(s.(state := Connecting), env);
    var request := Request(Session, rid, "");
    SendRequestFrame(s.(rid := rid), env, request);
    hide SendRequest, GetConnection;
    SentSnoc(s.sent, request);
  }

  /** Receiving touches neither the send buffer nor its record. */
  lemma {:induction false} ReceiveFrame(s: State)
    ensures
      var t := Receive(s);
      && t.flow == s.flow && t.sendBuffer == s.sendBuffer && t.accepted == s.accepted
      && t.sent == s.sent && t.rid == s.rid
    decreases |s.buffer|
  {
    TurnFrame(s);
    hide Turn, Settle;
    if Feeds(s.buffer) {
      ReceiveFrame(Turn(s));
    }
  }

  lemma TurnFrame(s: State)
    ensures
      var t := if Feeds(s.buffer) then Turn(s) else Settle(s);
      && t.flow == s.flow && t.sendBuffer == s.sendBuffer && t.accepted == s.accepted
      && t.sent == s.sent && t.rid == s.rid
  {
    SettleFrame(s);
    if Feeds(s.buffer) {
      var p := Next(s.buffer);
      HeaderFrame(s, p.header);
      BodyFrame(OnHeader(s, p.header), p.body, p.erased);
    }
    hide Next, OnHeader, OnBody, Settle;
  }

  lemma HeaderFrame(s: State, header: string)
    requires |header| >= 9
    ensures
      var t := OnHeader(s, header);
      t == s.(state := t.state, mode := t.mode)
  {
    hide StatusOk, WantsFallback;
  }

  lemma BodyFrame(s: State, body: string, erased: nat)
    requires erased <= |s.buffer|
    ensures
      var t := OnBody(s, body, erased);
      && t.flow == s.flow && t.sendBuffer == s.sendBuffer && t.accepted == s.accepted
      && t.sent == s.sent && t.rid == s.rid
  {
  }

  lemma SettleFrame(s: State)
    ensures Settle(s) == s.(state := Settle(s).state, mode := Settle(s).mode)
  {
    hide Next, StatusOk, WantsFallback;
  }

  lemma ApplyLedger(s: State, e: Event)
    requires Ledger(s)
    ensures Ledger(Apply(s, e))
  {
    hide Connect, HandleConnect, Send, SendXML, Receive, Disconnect, Ledger;
    match e
    case Start(env) => ConnectLedger(s, env, 0);
    case Established(env, rid) => ConnectLedger(s, env, rid);
    case Broken => SameLedger(s, HandleDisconnect(s));
    case Write(env, data) => SendLedger(s, env, data);
    case Poll(env) => SendXMLLedger(s, env);
    case Data(data) =>
      ReceiveFrame(Append(s, data));
      SameLedger(s, HandleReceivedData(s, data));
    case Tag(body) => SameLedger(s, HandleTag(s, body));
    case Stop(env) => DisconnectLedger(s, env);
  }

  /** Over any run at all. */
  lemma {:induction false} RunLedger(s: State, events: seq<Event>)
    requires Ledger(s)
    ensures Ledger(Run(s, events))
    decreases |events|
  {
    hide Apply, Ledger;
    if events != [] {
      ApplyLedger(s, events[0]);
      RunLedger(Apply(s, events[0]), events[1..]);
    }
  }

  lemma InitialLedger(connection: Option<Conn>)
    ensures Ledger(Initial(connection))
  {
  }

  // ---- what is lost ----

  /** A request for a stream restart leaves: whatever is waiting is dropped. */
  function RestartDrops(s: State, env: Env): string {
    if s.streamRestart && !Refuses(s, env) && SendRequest(s.(rid := s.rid + 1), env, BodyRequest(s)).1
    then s.sendBuffer else ""
  }

  /** The closing request cannot be sent: whatever is waiting is dropped. */
  function CloseDrops(s: State, env: Env): string {
    if NothingToDisconnect(s) || s.state == Disconnected then ""
    else if SendRequest(s.(rid := s.rid + 1, sendBuffer := ""), env, CloseRequest(s)).1 then ""
    else s.sendBuffer
  }

  function Drops(s: State, e: Event): string {
    match e
    case Write(env, data) =>
      if s.state == Disconnected then ""
      else if IsHeader(data) then RestartDrops(s.(streamRestart := true), env)
      else if data == STREAM_END then ""
      else RestartDrops(s.(sendBuffer := s.sendBuffer + data, accepted := s.accepted + data), env)
    case Poll(env) => if s.state == Connected then RestartDrops(s, env) else ""
    case Stop(env) => CloseDrops(s, env)
    case _ => ""
  }

  function AllDrops(s: State, events: seq<Event>): string
    decreases |events|
  {
    if events == [] then "" else Drops(s, events[0]) + AllDrops(Apply(s, events[0]), events[1..])
  }

  lemma SendXMLDrops(s: State, env: Env)
    ensures LostText(SendXML(s, env).flow) == LostText(s.flow) + RestartDrops(s, env)
  {
    SendXMLFrame(s, env);
    hide SendXML, SendRequest, Refuses;
    FlowSnoc(s.flow, if s.streamRestart then Lost(s.sendBuffer) else Delivered(s.sendBuffer));
  }

  lemma SendDrops(s: State, env: Env, data: string)
    ensures LostText(Send(s, env, data).0.flow) == LostText(s.flow) + Drops(s, Write(env, data))
  {
    hide SendXML, IsHeader, RestartDrops;
    SendXMLDrops(s.(streamRestart := true), env);
    SendXMLDrops(s.(sendBuffer := s.sendBuffer + data, accepted := s.accepted + data), env);
  }

  lemma RecvDrops(s: State, env: Env)
    ensures LostText(Recv(s, env).flow) == LostText(s.flow) + Drops(s, Poll(env))
  {
    SendXMLDrops(s, env);
    hide SendXML, SendRequest, Refuses;
  }

  lemma DisconnectDrops(s: State, env: Env)
    ensures LostText(Disconnect(s, env).flow) == LostText(s.flow) + CloseDrops(s, env)
  {
    var r := s.(rid := s.rid + 1, sendBuffer := "");
    SendRequestFrame(r, env, CloseRequest(s));
    FlowSnoc(s.flow, Delivered(s.sendBuffer));
    FlowSnoc(s.flow, Lost(s.sendBuffer));
    hide SendRequest, NothingToDisconnect, LostText, CloseRequest;
    assert LostText(s.flow) + "" == LostText(s.flow);
  }

  lemma ApplyDrops(s: State, e: Event)
    ensures LostText(Apply(s, e).flow) == LostText(s.flow) + Drops(s, e)
  {
    match e
    case Start(env) =>
      GetConnectionFrame(s.(state := Connecting), env);
    case Established(env, rid) =>
      SendRequestFrame(s.(rid := rid), env, Request(Session, rid, ""));
    case Write(env, data) => SendDrops(s, env, data);
    case Poll(env) => RecvDrops(s, env);
    case Data(data) => ReceiveFrame(Append(s, data));
    case Stop(env) => DisconnectDrops(s, env);
    case _ =>
  }

  lemma {:induction false} RunDrops(s: State, events: seq<Event>)
    ensures LostText(Run(s, events).flow) == LostText(s.flow) + AllDrops(s, events)
    decreases |events|
  {
    hide Apply, Drops;
    if events != [] {
      ApplyDrops(s, events[0]);
      RunDrops(Apply(s, events[0]), events[1..]);
    }
  }

  /** What was transmitted, followed by the buffer, is what `send` accepted: exactly when no restart
      request left, and no closing request failed, while data was waiting. */
  lemma ConservedIffNothingDropped(connection: Option<Conn>, events: seq<Event>)
    ensures
      var s := Run(Initial(connection), events);
      Payloads(s.sent) + s.sendBuffer == s.accepted <==> AllDrops(Initial(connection), events) == ""
  {
    hide Run, AllDrops;
    InitialLedger(connection);
    RunLedger(Initial(connection), events);
    RunDrops(Initial(connection), events);
    FlowLengths(Run(Initial(connection), events).flow);
  }

  const XML_HEADER := "<?xml version='1.0' ?>"

  /** A stream header written while data is waiting, with the window open and the connection up,
      drops that data. */
  lemma HeaderDropsBuffer(s: State, env: Env)
    requires s.state == Connected && s.sendBuffer != ""
    requires s.mode == Pipelining && s.active != [] && !TooManyRequests(s) && env.sendOk
    ensures Drops(s, Write(env, XML_HEADER)) == s.sendBuffer
  {
    assert IsHeader(XML_HEADER);
  }

  // ---- request ids ----

  /** Within a session each request id is one more than the one before. */
  predicate Consecutive(sent: seq<Request>) {
    forall i | 0 < i < |sent| :: sent[i].kind != Session ==> sent[i].rid == sent[i - 1].rid + 1
  }

  /** And the next one will be. */
  predicate RidsOk(s: State) {
    Consecutive(s.sent) && (s.sent != [] ==> s.rid == s.sent[|s.sent| - 1].rid)
  }

  /** The event is not a session or closing request that fails to leave (such a request uses up an id). */
  predicate Leaves(s: State, e: Event) {
    match e
    case Established(env, rid) =>
      s.state == Connecting ==> SendRequest(s.(rid := rid), env, Request(Session, rid, "")).1
    case Stop(env) =>
      NothingToDisconnect(s) || s.state == Disconnected ||
      SendRequest(s.(rid := s.rid + 1, sendBuffer := ""), env, CloseRequest(s)).1
    case _ => true
  }

  lemma RidsSnoc(sent: seq<Request>, r: Request)
    requires Consecutive(sent)
    requires r.kind != Session && sent != [] ==> r.rid == sent[|sent| - 1].rid + 1
    ensures Consecutive(sent + [r])
  {
  }

  lemma SendXMLRids(s: State, env: Env)
    requires RidsOk(s)
    ensures RidsOk(SendXML(s, env))
  {
    SendXMLFrame(s, env);
    hide SendXML, SendRequest, Refuses;
    RidsSnoc(s.sent, BodyRequest(s));
  }

  lemma ApplyRids(s: State, e: Event)
    requires RidsOk(s) && Leaves(s, e)
    ensures RidsOk(Apply(s, e))
  {
    hide SendXML, SendRequest, GetConnection, Receive, IsHeader, Consecutive;
    match e
    case Start(env) =>
      GetConnectionFrame(s.(state := Connecting), env);
    case Established(env, rid) =>
      SendRequestFrame(s.(rid := rid), env, Request(Session, rid, ""));
      RidsSnoc(s.sent, Request(Session, rid, ""));
    case Write(env, data) =>
      SendXMLRids(s.(streamRestart := true), env);
      SendXMLRids(s.(sendBuffer := s.sendBuffer + data, accepted := s.accepted + data), env);
    case Poll(env) => SendXMLRids(s, env);
    case Data(data) => ReceiveFrame(Append(s, data));
    case Stop(env) =>
      var request := CloseRequest(s);
      SendRequestFrame(s.(rid := s.rid + 1, sendBuffer := ""), env, request);
      RidsSnoc(s.sent, request);
    case _ =>
  }

  lemma InitialRids(connection: Option<Conn>)
    ensures RidsOk(Initial(connection))
  {
  }
}
