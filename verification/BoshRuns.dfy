/** Safety of whole runs of a BOSH connection: the connection pool, the request window, the data
    handed to `send`, and the request ids. */
module BoshRuns {
  import opened Text
  import opened HttpFraming
  import opened Bosh

  datatype Event =
    | Start(env: Env)
    | Established(env: Env, rid: int)
    | Broken
    | Write(env: Env, data: string)
    | Poll(env: Env)
    | Data(data: string)
    | Tag(body: BodyTag)
    | Stop(env: Env)

  function Apply(s: State, e: Event): State {
    match e
    case Start(env) => Connect(s, env)
    case Established(env, rid) => HandleConnect(s, env, rid)
    case Broken => HandleDisconnect(s)
    case Write(env, data) => Send(s, env, data).0
    case Poll(env) => Recv(s, env)
    case Data(data) => HandleReceivedData(s, data)
    case Tag(body) => HandleTag(s, body)
    case Stop(env) => Disconnect(s, env)
  }

  function Run(s: State, events: seq<Event>): State
    decreases |events|
  {
    if events == [] then s else Run(Apply(s, events[0]), events[1..])
  }

  // ---- the pool and the request window ----

  function Conns(s: State): multiset<Conn> {
    multiset(s.active) + multiset(s.pool)
  }

  const WINDOW: int := 2

  /** No connection is in both lists or twice in one, the window is respected, and every open
      request has a connection for its response. */
  predicate PoolOk(s: State) {
    && Once(Conns(s))
    && s.maxOpenRequests <= WINDOW
    && 0 <= s.openRequests <= WINDOW
    && (if s.mode == Pipelining then s.openRequests > 0 ==> s.active != [] else s.openRequests <= |s.active|)
  }

  predicate Once(m: multiset<Conn>) {
    forall c :: c in m ==> m[c] == 1
  }

  lemma ActivateKeeps(s: State, env: Env)
    requires s.pool != []
    ensures
      var (t, conn) := ActivateConnection(s, env);
      && t == s.(active := t.active, pool := t.pool)
      && Conns(t) == Conns(s)
      && |t.active| == if conn.Some? then |s.active| + 1 else |s.active|
  {
    var c, rest := s.pool[0], s.pool[1..];
    assert s.pool == [c] + rest;
    assert multiset(s.pool) == multiset{c} + multiset(rest);
  }

  /** A `newInstance` connection joins the pool only in the modes that use one connection a request. */
  lemma GetConnectionShape(s: State, env: Env)
    ensures
      var (t, conn) := GetConnection(s, env);
      && t == s.(active := t.active, pool := t.pool)
      && Grown(s, t, env)
      && |t.active| >= |s.active|
      && (conn.Some? ==> !TooManyRequests(s) && |t.active| > if s.mode == Pipelining then 0 else |s.active|)
  {
    if s.pool != [] {
      ActivateKeeps(s, env);
    }
    PoolSnoc(s, env.newConn);
    hide ActivateConnection, Conns;
  }

  lemma PoolSnoc(s: State, c: Conn)
    ensures Conns(s.(pool := s.pool + [c])) == Conns(s) + multiset{c}
  {
  }

  lemma GetConnectionKeeps(s: State, env: Env)
    requires PoolOk(s) && env.newConn !in Conns(s)
    ensures
      var (t, conn) := GetConnection(s, env);
      && t == s.(active := t.active, pool := t.pool)
      && Grown(s, t, env)
      && PoolOk(t)
      && (conn.Some? ==> PoolOk(t.(openRequests := t.openRequests + 1)))
  {
    GetConnectionShape(s, env);
    hide GetConnection;
    var (t, conn) := GetConnection(s, env);
    assert Once(Conns(t));
    assert Conns(t.(openRequests := t.openRequests + 1)) == Conns(t);
  }

  predicate Grown(s: State, t: State, env: Env) {
    Conns(t) == Conns(s) || Conns(t) == Conns(s) + multiset{env.newConn}
  }

  lemma SendRequestKeeps(s: State, env: Env, request: Request)
    requires PoolOk(s) && env.newConn !in Conns(s)
    ensures
      var (t, ok) := SendRequest(s, env, request);
      && PoolOk(t)
      && Grown(s, t, env)
      && t == s.(active := t.active, pool := t.pool,
                 openRequests := if ok then s.openRequests + 1 else s.openRequests,
                 sent := if ok then s.sent + [request] else s.sent)
  {
    GetConnectionKeeps(s, env);
    hide GetConnection, PoolOk;
    var (t, conn) := GetConnection(s, env);
    PoolIgnoresRest(t.(openRequests := t.openRequests + 1), t.(openRequests := t.openRequests + 1, sent := t.sent + [request]));
  }

  /** The pool invariant and the connections read only these fields. */
  lemma PoolIgnoresRest(s: State, t: State)
    requires s.active == t.active && s.pool == t.pool && s.mode == t.mode
    requires s.openRequests == t.openRequests && t.maxOpenRequests <= s.maxOpenRequests
    ensures PoolOk(s) ==> PoolOk(t)
    ensures Conns(s) == Conns(t)
  {
  }

  lemma SendXMLIs(s: State, env: Env)
    ensures
      SendXML(s, env) ==
        if Refuses(s, env) then s
        else
          var (t, ok) := SendRequest(s.(rid := s.rid + 1), env, BodyRequest(s));
          AfterRequest(t, ok)
  {
    hide Refuses, AfterRequest, GetConnection;
  }

  lemma SendXMLKeeps(s: State, env: Env)
    requires PoolOk(s) && env.newConn !in Conns(s)
    ensures PoolOk(SendXML(s, env)) && Grown(s, SendXML(s, env), env)
  {
    if !Refuses(s, env) {
      var r := s.(rid := s.rid + 1);
      PoolIgnoresRest(s, r);
      SendRequestKeeps(r, env, BodyRequest(s));
      var (t, ok) := SendRequest(r, env, BodyRequest(s));
      SendXMLIs(s, env);
      hide SendRequest, PoolOk, Conns, SendXML;
      PoolIgnoresRest(t, AfterRequest(t, ok));
      assert Grown(r, t, env) && Conns(r) == Conns(s);
    }
  }

  // ---- responses ----

  /** Every response in the buffer answers an open request, and a fallback to HTTP/1.0 finds at
      most as many requests open as there are active connections. */
  predicate Answered(s: State)
    decreases |s.buffer|
  {
    && FallbackOk(s)
    && (Feeds(s.buffer) ==> s.openRequests > 0 && Answered(Turn(s)))
  }

  /** Leaving the pipelining mode with these requests open keeps the invariant. */
  predicate FallbackOk(s: State) {
    Settle(s).mode != s.mode ==> s.openRequests <= |s.active|
  }

  /** The mode change of a fallback keeps the invariant exactly then; `BoshFallback` says what becomes
      of the responses. */
  lemma FallbackIff(s: State)
    requires PoolOk(s)
    ensures PoolOk(s.(mode := LegacyHTTP)) <==> s.openRequests <= |s.active|
    ensures Conns(s.(mode := LegacyHTTP)) == Conns(s)
  {
    assert Conns(s.(mode := LegacyHTTP)) == Conns(s);
  }

  lemma SettleShape(s: State)
    ensures Settle(s) == s.(state := Settle(s).state, mode := Settle(s).mode)
    ensures Settle(s).mode == s.mode || Settle(s).mode == LegacyHTTP
  {
    hide Next, StatusOk, WantsFallback;
  }

  lemma SettleKeepsPool(s: State)
    requires PoolOk(s) && FallbackOk(s)
    ensures PoolOk(Settle(s)) && Conns(Settle(s)) == Conns(s)
    ensures Settle(s).openRequests == s.openRequests && Settle(s).active == s.active
  {
    SettleShape(s);
    FallbackIff(s);
    hide Settle, PoolOk, Conns;
    var t := s.(mode := Settle(s).mode);
    PoolIgnoresRest(t, Settle(s));
  }

  lemma PutKeeps(s: State)
    requires s.active != []
    ensures Conns(PutConnection(s)) == Conns(s)
  {
    assert s.active == [s.active[0]] + s.active[1..];
    assert multiset(s.active) == multiset{s.active[0]} + multiset(s.active[1..]);
  }

  /** A response finds a connection at the front of the active list. */
  lemma TurnKeeps(s: State)
    requires PoolOk(s) && Answered(s) && Feeds(s.buffer)
    ensures s.active != []
    ensures PoolOk(Turn(s)) && Conns(Turn(s)) == Conns(s)
  {
    SettleKeepsPool(s);
    TurnIsPut(s);
    PutKeeps(Settle(s));
    hide Next, Settle, Turn, Answered;
    var t := PutConnection(Settle(s));
    PoolIgnoresRest(t.(openRequests := t.openRequests - 1), Turn(s));
  }

  lemma TurnIsPut(s: State)
    requires Feeds(s.buffer)
    ensures
      var t, u := if Settle(s).active == [] then Settle(s) else PutConnection(Settle(s)), Turn(s);
      && u.active == t.active && u.pool == t.pool && u.mode == t.mode
      && u.openRequests == t.openRequests - 1 && u.maxOpenRequests == t.maxOpenRequests
  {
    hide Next, StatusOk, WantsFallback;
  }

  lemma {:induction false} ReceiveKeeps(s: State)
    requires PoolOk(s) && Answered(s)
    ensures PoolOk(Receive(s)) && Conns(Receive(s)) == Conns(s)
    decreases |s.buffer|
  {
    hide Turn, Settle, PoolOk, FallbackOk;
    if Feeds(s.buffer) {
      TurnKeeps(s);
      ReceiveKeeps(Turn(s));
    } else {
      SettleKeepsPool(s);
    }
  }

  /** Every response in the buffer finds a connection at the front of the active list. */
  predicate Supplied(s: State)
    decreases |s.buffer|
  {
    Feeds(s.buffer) ==> s.active != [] && Supplied(Turn(s))
  }

  lemma {:induction false} AnsweredSupplied(s: State)
    requires PoolOk(s) && Answered(s)
    ensures Supplied(s)
    decreases |s.buffer|
  {
    hide Turn, PoolOk, FallbackOk;
    if Feeds(s.buffer) {
      TurnKeeps(s);
      AnsweredSupplied(Turn(s));
    }
  }

  // ---- runs ----

  predicate Fresh(s: State, env: Env) {
    env.newConn !in Conns(s)
  }

  /** What the environment promises: `newInstance` returns a new connection, every response answers
      an open request, and a switch away from pipelining finds a connection for each open request. */
  predicate Allowed(s: State, e: Event) {
    match e
    case Start(env) => Fresh(s, env)
    case Established(env, _) => Fresh(s, env)
    case Broken => HandleDisconnect(s).mode != s.mode ==> s.openRequests <= |s.active|
    case Write(env, _) => Fresh(s, env)
    case Poll(env) => Fresh(s, env)
    case Data(data) => Answered(Append(s, data))
    case Tag(_) => true
    case Stop(env) => Fresh(s, env)
  }

  predicate AllowedRun(s: State, events: seq<Event>)
    decreases |events|
  {
    events == [] || (Allowed(s, events[0]) && AllowedRun(Apply(s, events[0]), events[1..]))
  }

  lemma ConnectKeeps(s: State, env: Env)
    requires PoolOk(s) && Fresh(s, env)
    ensures PoolOk(Connect(s, env)) && Grown(s, Connect(s, env), env)
  {
    var r := s.(state := Connecting);
    PoolIgnoresRest(s, r);
    GetConnectionKeeps(r, env);
  }

  lemma HandleConnectKeeps(s: State, env: Env, rid: int)
    requires PoolOk(s) && Fresh(s, env)
    ensures PoolOk(HandleConnect(s, env, rid)) && Grown(s, HandleConnect(s, env, rid), env)
  {
    hide SendRequest, PoolOk, Conns;
    var r := s.(rid := rid);
    PoolIgnoresRest(s, r);
    SendRequestKeeps(r, env, Request(Session, rid, ""));
  }

  lemma SendKeeps(s: State, env: Env, data: string)
    requires PoolOk(s) && Fresh(s, env)
    ensures PoolOk(Send(s, env, data).0) && Grown(s, Send(s, env, data).0, env)
  {
    hide SendXML, PoolOk, Conns, IsHeader;
    var r := s.(streamRestart := true);
    var b := s.(sendBuffer := s.sendBuffer + data, accepted := s.accepted + data);
    PoolIgnoresRest(s, r);
    SendXMLKeeps(r, env);
    PoolIgnoresRest(s, b);
    SendXMLKeeps(b, env);
  }

  lemma DisconnectKeeps(s: State, env: Env)
    requires PoolOk(s) && Fresh(s, env)
    ensures PoolOk(Disconnect(s, env)) && Grown(s, Disconnect(s, env), env)
  {
    hide SendRequest, PoolOk, Conns, NothingToDisconnect;
    if !NothingToDisconnect(s) && s.state != Disconnected {
      var r := s.(rid := s.rid + 1, sendBuffer := "");
      var request := CloseRequest(s);
      PoolIgnoresRest(s, r);
      SendRequestKeeps(r, env, request);
      PoolIgnoresRest(SendRequest(r, env, request).0, Disconnect(s, env));
    }
  }

  /** The connection that an event may bring. */
  function NewConns(e: Event): multiset<Conn> {
    match e
    case Start(env) => multiset{env.newConn}
    case Established(env, _) => multiset{env.newConn}
    case Write(env, _) => multiset{env.newConn}
    case Poll(env) => multiset{env.newConn}
    case Stop(env) => multiset{env.newConn}
    case _ => multiset{}
  }

  predicate GrownBy(s: State, t: State, e: Event) {
    Conns(t) == Conns(s) || Conns(t) == Conns(s) + NewConns(e)
  }

  function AllNewConns(events: seq<Event>): multiset<Conn> {
    if events == [] then multiset{} else NewConns(events[0]) + AllNewConns(events[1..])
  }

  lemma ApplyKeeps(s: State, e: Event)
    requires PoolOk(s) && Allowed(s, e)
    ensures PoolOk(Apply(s, e)) && GrownBy(s, Apply(s, e), e)
  {
    hide Connect, HandleConnect, Send, SendXML, Receive, Disconnect, PoolOk, Conns, Answered;
    match e
    case Start(env) => ConnectKeeps(s, env);
    case Established(env, rid) => HandleConnectKeeps(s, env, rid);
    case Broken =>
      FallbackIff(s);
      PoolIgnoresRest(s, s.(state := Disconnected));
    case Write(env, data) => SendKeeps(s, env, data);
    case Poll(env) => SendXMLKeeps(s, env);
    case Data(data) =>
      PoolIgnoresRest(s, Append(s, data));
      ReceiveKeeps(Append(s, data));
    case Tag(body) => PoolIgnoresRest(s, HandleTag(s, body));
    case Stop(env) => DisconnectKeeps(s, env);
  }

  /** In every reachable state: no connection in both lists or twice in one, at most two requests
      open, a connection for every response; no connection is ever dropped, and none appears but from
      `newInstance`. */
  lemma {:induction false} RunKeeps(s: State, events: seq<Event>)
    requires PoolOk(s) && AllowedRun(s, events)
    ensures PoolOk(Run(s, events)) && Conns(s) <= Conns(Run(s, events)) <= Conns(s) + AllNewConns(events)
    decreases |events|
  {
    hide Apply, Allowed, PoolOk, Conns, NewConns;
    if events != [] {
      ApplyKeeps(s, events[0]);
      RunKeeps(Apply(s, events[0]), events[1..]);
    }
  }

  lemma InitialOk(connection: Option<Conn>)
    ensures PoolOk(Initial(connection))
  {
  }
}
