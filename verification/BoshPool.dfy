/** The two lists of connections are queues, and a request leaves when it can
    (gloox/connectionbosh.cpp:270-302, 546-639). */
module BoshPool {
  import opened Text
  import opened HttpFraming
  import opened Bosh
  import opened BoshChunks
  import opened BoshRuns

  // ---- when a request leaves ----

  /** No request is open, or fewer than the server allows. */
  predicate WindowOpen(s: State) {
    s.openRequests <= 0 || s.openRequests < s.maxOpenRequests
  }

  /** The connection that has waited longest is up. */
  predicate FrontUp(s: State, env: Env) {
    s.pool != [] && s.pool[0] in env.up
  }

  /** All pipelined requests go over the one that is active. */
  predicate Shares(s: State) {
    s.mode == Pipelining && s.active != []
  }

  /** Exactly if the window is open, the connection takes it, and there is one: the active one while
      pipelining, or else the one that has waited longest, if it is up. */
  lemma RequestLeavesIff(s: State, env: Env, request: Request)
    ensures
      var (t, ok) := SendRequest(s, env, request);
      && (ok <==> WindowOpen(s) && env.sendOk && (Shares(s) || FrontUp(s, env)))
      && t.sent == (if ok then s.sent + [request] else s.sent)
      && t.openRequests == (if ok then s.openRequests + 1 else s.openRequests)
  {
  }

  /** In what order connections are taken, put off and added. */
  lemma ConnectionsTaken(s: State, env: Env)
    ensures
      var (t, conn) := GetConnection(s, env);
      var tries := WindowOpen(s) && !Shares(s) && s.pool != [];
      var adds := WindowOpen(s) && s.mode != Pipelining && s.pool == [] && s.active != [];
      && t.active == s.active + (if tries && FrontUp(s, env) then [s.pool[0]] else [])
      && t.pool == (if tries then s.pool[1..] + (if FrontUp(s, env) then [] else [s.pool[0]])
                    else s.pool + if adds then [env.newConn] else [])
      && conn == (if tries && FrontUp(s, env) then Some(s.pool[0])
                  else if WindowOpen(s) && Shares(s) then Some(s.active[0]) else None)
  {
    assert s.active + [] == s.active && s.pool + [] == s.pool;
    if s.pool != [] {
      assert s.pool[1..] + [] == s.pool[1..];
    }
  }

  // ---- a round of attempts ----

  function Attempts(s: State, env: Env, n: nat): State {
    if n == 0 then s else GetConnection(Attempts(s, env, n - 1), env).0
  }

  predicate NoneUp(conns: seq<Conn>, env: Env) {
    forall c | c in conns :: c !in env.up
  }

  lemma {:induction false} PutOff(s: State, env: Env, n: nat)
    requires s.active == [] && WindowOpen(s) && n <= |s.pool| && NoneUp(s.pool[..n], env)
    ensures Attempts(s, env, n) == s.(pool := s.pool[n..] + s.pool[..n])
  {
    if n == 0 {
      assert s.pool[0..] + s.pool[..0] == s.pool;
    } else {
      assert s.pool[..n - 1] + [s.pool[n - 1]] == s.pool[..n] && s.pool[n - 1] in s.pool[..n];
      assert forall c | c in s.pool[..n - 1] :: c in s.pool[..n];
      PutOff(s, env, n - 1);
      hide Attempts;
      NextPutOff(s, env, n - 1);
    }
  }

  lemma NextPutOff(s: State, env: Env, n: nat)
    requires s.active == [] && WindowOpen(s) && n < |s.pool| && s.pool[n] !in env.up
    ensures GetConnection(s.(pool := s.pool[n..] + s.pool[..n]), env).0 == s.(pool := s.pool[n + 1..] + s.pool[..n + 1])
  {
    var q := s.pool[n..] + s.pool[..n];
    assert q[0] == s.pool[n];
    assert q[1..] + [q[0]] == s.pool[n + 1..] + s.pool[..n + 1];
  }

  /** Connections that are down are tried in turn: as many attempts as there are come round to the same
      order, and the first that is up is found when its turn comes. */
  lemma EachInTurn(s: State, env: Env)
    requires s.active == [] && WindowOpen(s)
    ensures NoneUp(s.pool, env) ==> Attempts(s, env, |s.pool|) == s
    ensures forall n: nat | n < |s.pool| && NoneUp(s.pool[..n], env) && s.pool[n] in env.up ::
      Attempts(s, env, n + 1) == s.(active := [s.pool[n]], pool := s.pool[n + 1..] + s.pool[..n])
  {
    if NoneUp(s.pool, env) {
      assert s.pool[..|s.pool|] == s.pool && s.pool[|s.pool|..] + s.pool == s.pool;
      PutOff(s, env, |s.pool|);
    }
    forall n: nat | n < |s.pool| && NoneUp(s.pool[..n], env) && s.pool[n] in env.up
      ensures Attempts(s, env, n + 1) == s.(active := [s.pool[n]], pool := s.pool[n + 1..] + s.pool[..n])
    {
      PutOff(s, env, n);
      Found(s, env, n);
    }
  }

  lemma Found(s: State, env: Env, n: nat)
    requires s.active == [] && WindowOpen(s) && n < |s.pool| && s.pool[n] in env.up
    ensures GetConnection(s.(pool := s.pool[n..] + s.pool[..n]), env).0 ==
      s.(active := [s.pool[n]], pool := s.pool[n + 1..] + s.pool[..n])
  {
    var q := s.pool[n..] + s.pool[..n];
    assert q[0] == s.pool[n] && q[1..] == s.pool[n + 1..] + s.pool[..n];
    assert [] + [q[0]] == [s.pool[n]];
  }

  // ---- first in, first out ----

  /** The first k active connections go back to the end of the pool, in order. */
  predicate GivesBack(s: State, t: State, k: nat) {
    k <= |s.active| && t.active == s.active[k..] && t.pool == s.pool + s.active[..k]
  }

  lemma GivesBackMore(s: State, t: State, u: State, j: nat, k: nat)
    requires GivesBack(s, t, j) && GivesBack(t, u, k)
    ensures GivesBack(s, u, j + k)
  {
    assert s.active[j..][k..] == s.active[j + k..];
    assert s.active[..j] + s.active[j..][..k] == s.active[..j + k];
  }

  lemma TurnGivesBack(s: State)
    requires Feeds(s.buffer)
    ensures GivesBack(s, Turn(s), if s.active != [] && Turn(s).mode != Pipelining then 1 else 0)
  {
    hide Next, StatusOk, WantsFallback;
    assert s.active[0..] == s.active && s.pool + s.active[..0] == s.pool;
    if s.active != [] {
      assert s.active[..1] == [s.active[0]];
    }
  }

  /** How many connections the responses in the buffer free: one each, once pipelining has ended. */
  function Freed(s: State): nat
    decreases |s.buffer|
  {
    if !Feeds(s.buffer) then 0
    else Freed(Turn(s)) + if s.active != [] && Turn(s).mode != Pipelining then 1 else 0
  }

  /** They go back in the order in which requests took them; while pipelining lasts, none does. */
  lemma {:induction false} ResponsesGiveBack(s: State)
    ensures GivesBack(s, Receive(s), Freed(s))
    ensures Receive(s).mode == Pipelining ==> Freed(s) == 0
    decreases |s.buffer|
  {
    hide GivesBack, Turn, Settle;
    ReceiveOnce(s);
    if Feeds(s.buffer) {
      TurnGivesBack(s);
      ReceiveMode(Turn(s));
      ResponsesGiveBack(Turn(s));
      GivesBackMore(s, Turn(s), Receive(s), if s.active != [] && Turn(s).mode != Pipelining then 1 else 0, Freed(Turn(s)));
    } else {
      SettleGivesBack(s);
    }
  }

  lemma SettleGivesBack(s: State)
    ensures GivesBack(s, Settle(s), 0)
  {
    SettleShape(s);
    hide Settle;
    assert s.active[0..] == s.active && s.pool + s.active[..0] == s.pool;
  }

  lemma TurnMode(s: State)
    requires Feeds(s.buffer)
    ensures Turn(s).mode == s.mode || Turn(s).mode == LegacyHTTP
  {
    hide Next, StatusOk, WantsFallback;
  }

  lemma {:induction false} ReceiveMode(s: State)
    ensures Receive(s).mode == s.mode || Receive(s).mode == LegacyHTTP
    decreases |s.buffer|
  {
    ReceiveOnce(s);
    SettleShape(s);
    if Feeds(s.buffer) {
      TurnMode(s);
      var t := Turn(s);
      hide Turn;
      ReceiveMode(t);
    }
  }
}
