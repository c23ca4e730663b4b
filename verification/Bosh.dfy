/** The state of a BOSH connection (gloox/connectionbosh.cpp) and what each of its operations does
    to it.  A connection of the pool is an identity; whether it is up, whether its `send` succeeds
    and the identity `newInstance` returns come from the environment. */
module Bosh {
  import opened Text
  import opened HttpFraming

  datatype ConnState = Disconnected | Connecting | Connected

  datatype Mode = LegacyHTTP | PersistentHTTP | Pipelining

  type Conn = nat

  /** What a transmitted request is for. */
  datatype Kind = Session | Stanzas | Restart | Terminate

  datatype Request = Request(kind: Kind, rid: int, payload: string)

  /** What became of a piece of buffered data. */
  datatype Flow = Delivered(data: string) | Lost(data: string)

  /** `sent`, `fed`, `accepted` and `flow` record what left, what the parser got, what `send` took,
      and what happened to it. */
  datatype State = State(
    state: ConnState,
    mode: Mode,
    rid: int,
    openRequests: int,
    maxOpenRequests: int,
    streamRestart: bool,
    buffer: string,
    sendBuffer: string,
    active: seq<Conn>,
    pool: seq<Conn>,
    sent: seq<Request>,
    fed: seq<string>,
    accepted: string,
    flow: seq<Flow>)

  datatype Env = Env(up: set<Conn>, sendOk: bool, newConn: Conn, tooSoon: bool)

  const STREAM_END := "</stream:stream>"

  function Initial(connection: Option<Conn>): State {
    var pool := match connection case None => [] case Some(c) => [c];
    State(Disconnected, Pipelining, 0, 0, 2, false, "", "", [], pool, [], [], "", [])
  }

  // ---- the connection pool ----

  function ActivateConnection(s: State, env: Env): (State, Option<Conn>)
    requires s.pool != []
  {
    var conn := s.pool[0];
    if conn in env.up then (s.(pool := s.pool[1..], active := s.active + [conn]), Some(conn))
    else (s.(pool := s.pool[1..] + [conn]), None)
  }

  predicate TooManyRequests(s: State) {
    s.openRequests > 0 && s.openRequests >= s.maxOpenRequests
  }

  function GetConnection(s: State, env: Env): (State, Option<Conn>) {
    if TooManyRequests(s) then (s, None)
    else if s.mode == Pipelining && s.active != [] then (s, Some(s.active[0]))
    else if s.pool != [] then ActivateConnection(s, env)
    else if s.mode != Pipelining && s.active != [] then (s.(pool := s.pool + [env.newConn]), None)
    else (s, None)
  }

  /** Gives the connection of a response back. */
  function PutConnection(s: State): State
    requires s.active != []
  {
    if s.mode == Pipelining then s
    else s.(active := s.active[1..], pool := s.pool + [s.active[0]])
  }

  // ---- sending ----

  function SendRequest(s: State, env: Env, request: Request): (State, bool) {
    var (t, conn) := GetConnection(s, env);
    if conn.Some? && env.sendOk then
      (t.(openRequests := t.openRequests + 1, sent := t.sent + [request]), true)
    else (t, false)
  }

  function Refuses(s: State, env: Env): bool {
    s.state != Connected || (s.sendBuffer == "" && env.tooSoon && s.openRequests > 0)
  }

  function BodyRequest(s: State): Request {
    if s.streamRestart then Request(Restart, s.rid + 1, "") else Request(Stanzas, s.rid + 1, s.sendBuffer)
  }

  function SendXML(s: State, env: Env): State {
    if Refuses(s, env) then s
    else
      var (t, ok) := SendRequest(s.(rid := s.rid + 1), env, BodyRequest(s));
      AfterRequest(t, ok)
  }

  function AfterRequest(t: State, ok: bool): State {
    if ok then
      var fate := if t.streamRestart then Lost(t.sendBuffer) else Delivered(t.sendBuffer);
      t.(sendBuffer := "", streamRestart := false, flow := t.flow + [fate])
    else t.(rid := t.rid - 1)
  }

  predicate IsHeader(data: string) {
    Substr(data, 0, 2) == "<?"
  }

  function Send(s: State, env: Env, data: string): (State, bool) {
    if s.state == Disconnected then (s, false)
    else if IsHeader(data) then (SendXML(s.(streamRestart := true), env), true)
    else if data == STREAM_END then (s, true)
    else (SendXML(s.(sendBuffer := s.sendBuffer + data, accepted := s.accepted + data), env), true)
  }

  function Recv(s: State, env: Env): State {
    if (s.openRequests == 0 || |s.sendBuffer| > 0) && s.state == Connected then SendXML(s, env) else s
  }

  // ---- session life cycle ----

  function Connect(s: State, env: Env): State {
    if s.state != Disconnected then s else GetConnection(s.(state := Connecting), env).0
  }

  function HandleConnect(s: State, env: Env, rid: int): State
  {
    if s.state != Connecting then s
    else SendRequest(s.(rid := rid), env, Request(Session, rid, "")).0
  }

  function HandleDisconnect(s: State): State {
    if s.state == Connecting then s.(state := Disconnected)
    else if s.mode == Pipelining then s.(mode := LegacyHTTP)
    else s
  }

  predicate NothingToDisconnect(s: State) {
    s.active == [] && (s.mode == Pipelining || s.pool == [])
  }

  function Disconnect(s: State, env: Env): State
  {
    if NothingToDisconnect(s) then s
    else if s.state == Disconnected then s
    else
      var (t, ok) := SendRequest(s.(rid := s.rid + 1, sendBuffer := ""), env, CloseRequest(s));
      AfterClose(t, ok, s.sendBuffer)
  }

  function CloseRequest(s: State): Request {
    Request(Terminate, s.rid + 1, s.sendBuffer)
  }

  function AfterClose(t: State, ok: bool, data: string): State {
    t.(state := Disconnected, flow := t.flow + [if ok then Delivered(data) else Lost(data)])
  }

  /** The attributes of a <body/> that `handleTag` acts upon. */
  datatype BodyTag = BodyTag(hasSid: bool, requests: Option<int>, terminates: bool)

  function HandleTag(s: State, body: BodyTag): State {
    var t := s.(streamRestart := false);
    var u :=
      if !body.hasSid then t
      else if body.requests.Some? && body.requests.value < t.maxOpenRequests then
        t.(state := Connected, maxOpenRequests := body.requests.value)
      else t.(state := Connected);
    if body.terminates then u.(state := Disconnected) else u
  }

  // ---- receiving ----

  function OnStatus(s: State, header: string): State
    requires |header| >= 9
  {
    if StatusOk(header) then s else s.(state := Disconnected)
  }

  function OnHeader(s: State, header: string): State
    requires |header| >= 9
  {
    var t := OnStatus(s, header);
    if t.mode != LegacyHTTP && WantsFallback(header) then t.(mode := LegacyHTTP) else t
  }

  /** `putConnection` reads the front of the active list; without one the source is undefined. */
  function OnBody(s: State, body: string, erased: nat): State
    requires erased <= |s.buffer|
  {
    var t := if s.active == [] then s else PutConnection(s);
    t.(openRequests := t.openRequests - 1, fed := t.fed + [body], buffer := t.buffer[erased..])
  }

  function Turn(s: State): (t: State)
    requires Feeds(s.buffer)
    ensures |t.buffer| < |s.buffer|
  {
    var p := Next(s.buffer);
    OnBody(OnHeader(s, p.header), p.body, p.erased)
  }

  /** A pass that ends the loop.  (One that finds a body and erases nothing would be repeated for
      ever; it is modelled up to there.) */
  function Settle(s: State): State {
    match Next(s.buffer)
    case NoHeader => s
    case Throws => s
    case NoLength(header) => OnStatus(s, header)
    case TooShort(header) => OnHeader(s, header)
    case Body(header, _, _) => OnHeader(s, header)
  }

  /** `handleReceivedData` once the data is in the buffer. */
  function Receive(s: State): State
    decreases |s.buffer|
  {
    if Feeds(s.buffer) then Receive(Turn(s)) else Settle(s)
  }

  function Append(s: State, data: string): State {
    s.(buffer := s.buffer + data)
  }

  function HandleReceivedData(s: State, data: string): State {
    Receive(Append(s, data))
  }
}
