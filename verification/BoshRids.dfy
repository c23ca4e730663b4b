/** The ids of transmitted requests: exactly when each is one more than the one before. */
module BoshRids {
  import opened Text
  import opened HttpFraming
  import opened HttpResponses
  import opened Bosh
  import opened BoshRuns
  import opened BoshSends
  import opened BoshFallback

  // ---- the counter ----

  /** The event leaves the counter at the id of the last transmitted request: what it sends gets away,
      or nothing has been transmitted yet, or a session begins at that very id. */
  predicate KeepsRid(s: State, e: Event) {
    Leaves(s, e) || s.sent == [] || (e.Established? && e.rid == s.rid)
  }

  lemma StopRidsIff(s: State, env: Env)
    requires RidsOk(s)
    ensures RidsOk(Apply(s, Stop(env))) <==> KeepsRid(s, Stop(env))
  {
    if Leaves(s, Stop(env)) {
      ApplyRids(s, Stop(env));
    } else {
      SendRequestFrame(s.(rid := s.rid + 1, sendBuffer := ""), env, CloseRequest(s));
    }
    hide SendRequest, NothingToDisconnect, Consecutive;
  }

  lemma EstablishedRidsIff(s: State, env: Env, rid: int)
    requires RidsOk(s)
    ensures RidsOk(Apply(s, Established(env, rid))) <==> KeepsRid(s, Established(env, rid))
  {
    if Leaves(s, Established(env, rid)) {
      ApplyRids(s, Established(env, rid));
    } else {
      SendRequestFrame(s.(rid := rid), env, Request(Session, rid, ""));
    }
    hide SendRequest, Consecutive;
  }

  lemma ApplyRidsIff(s: State, e: Event)
    requires RidsOk(s)
    ensures RidsOk(Apply(s, e)) <==> KeepsRid(s, e)
  {
    match e {
      case Stop(env) => StopRidsIff(s, env);
      case Established(env, rid) => EstablishedRidsIff(s, env, rid);
      case _ => ApplyRids(s, e);
    }
    hide Apply, RidsOk;
  }

  /** The counter is right after every event. */
  predicate AlwaysRidsOk(s: State, events: seq<Event>)
    decreases |events|
  {
    RidsOk(s) && (events == [] || AlwaysRidsOk(Apply(s, events[0]), events[1..]))
  }

  predicate AllKeepRid(s: State, events: seq<Event>)
    decreases |events|
  {
    events == [] || (KeepsRid(s, events[0]) && AllKeepRid(Apply(s, events[0]), events[1..]))
  }

  /** Over a run from the start: exactly if no closing or session request is lost after a transmission. */
  lemma {:induction false} AlwaysRidsOkIff(s: State, events: seq<Event>)
    requires RidsOk(s)
    ensures AlwaysRidsOk(s, events) <==> AllKeepRid(s, events)
    decreases |events|
  {
    hide Apply, RidsOk, KeepsRid;
    if events != [] {
      ApplyRidsIff(s, events[0]);
      if KeepsRid(s, events[0]) {
        AlwaysRidsOkIff(Apply(s, events[0]), events[1..]);
      } else {
        NotOk(Apply(s, events[0]), events[1..]);
      }
    }
  }

  lemma NotOk(s: State, events: seq<Event>)
    requires !RidsOk(s)
    ensures !AlwaysRidsOk(s, events)
  {
    hide RidsOk, Apply;
  }

  // ---- the transmitted ids ----

  /** The counter is at the id of the last transmitted request. */
  predicate InStep(s: State) {
    s.sent != [] ==> s.rid == s.sent[|s.sent| - 1].rid
  }

  predicate Transmits(s: State, e: Event) {
    |Apply(s, e).sent| > |s.sent|
  }

  /** One request at most is transmitted, and other than a session request it has the next id. */
  predicate OneMore(s: State, t: State, session: bool) {
    t.sent == s.sent
    || (|t.sent| == |s.sent| + 1 && t.sent[..|s.sent|] == s.sent
        && (if session then t.sent[|s.sent|].kind == Session
            else t.sent[|s.sent|].kind != Session && t.sent[|s.sent|].rid == s.rid + 1))
  }

  lemma SendXMLNext(s: State, env: Env)
    ensures OneMore(s, SendXML(s, env), false)
  {
    SendXMLFrame(s, env);
    var t := SendXML(s, env);
    hide SendXML, SendRequest, Refuses;
    assert (s.sent + [BodyRequest(s)])[..|s.sent|] == s.sent;
  }

  lemma RequestNext(s: State, r: State, env: Env, request: Request)
    requires r.sent == s.sent
    ensures
      var t := SendRequest(r, env, request).0;
      t.sent == s.sent || (t.sent == s.sent + [request] && t.sent[..|s.sent|] == s.sent)
  {
    SendRequestFrame(r, env, request);
    hide SendRequest;
  }

  lemma WriteNext(s: State, env: Env, data: string)
    ensures OneMore(s, Send(s, env, data).0, false)
  {
    SendXMLNext(s.(streamRestart := true), env);
    SendXMLNext(s.(sendBuffer := s.sendBuffer + data, accepted := s.accepted + data), env);
    hide SendXML, IsHeader;
  }

  lemma StopNext(s: State, env: Env)
    ensures OneMore(s, Disconnect(s, env), false)
  {
    RequestNext(s, s.(rid := s.rid + 1, sendBuffer := ""), env, CloseRequest(s));
    hide SendRequest, NothingToDisconnect;
  }

  lemma ApplyNext(s: State, e: Event)
    ensures OneMore(s, Apply(s, e), e.Established?)
  {
    match e {
      case Start(env) => GetConnectionFrame(s.(state := Connecting), env);
      case Established(env, rid) => RequestNext(s, s.(rid := rid), env, Request(Session, rid, ""));
      case Write(env, data) => WriteNext(s, env, data);
      case Poll(env) => SendXMLNext(s, env);
      case Data(data) => ReceiveFrame(Append(s, data));
      case Stop(env) => StopNext(s, env);
      case _ =>
    }
    hide Send, SendXML, SendRequest, GetConnection, Receive, Disconnect;
  }

  /** A body or a closing request leaves while the counter is ahead. */
  predicate Skips(s: State, e: Event) {
    Transmits(s, e) && !e.Established? && !InStep(s)
  }

  predicate NoneSkips(s: State, events: seq<Event>)
    decreases |events|
  {
    events == [] || (!Skips(s, events[0]) && NoneSkips(Apply(s, events[0]), events[1..]))
  }

  lemma StepConsecutive(s: State, t: State, session: bool)
    requires OneMore(s, t, session) && Consecutive(s.sent)
    ensures Consecutive(t.sent) <==> !(|t.sent| > |s.sent| && !session && !InStep(s))
  {
    if |t.sent| > |s.sent| {
      var n := |s.sent|;
      assert forall i | 0 <= i < n :: t.sent[i] == t.sent[..n][i] == s.sent[i];
      if !session && !InStep(s) {
        assert t.sent[n].kind != Session && t.sent[n].rid != t.sent[n - 1].rid + 1;
      }
    }
  }

  lemma {:induction false} NotConsecutive(s: State, events: seq<Event>)
    requires !Consecutive(s.sent)
    ensures !Consecutive(Run(s, events).sent)
    decreases |events|
  {
    hide Apply;
    if events != [] {
      var t := Apply(s, events[0]);
      ApplyNext(s, events[0]);
      StillNot(s.sent, t.sent);
      NotConsecutive(t, events[1..]);
    }
  }

  lemma StillNot(a: seq<Request>, b: seq<Request>)
    requires !Consecutive(a) && |a| <= |b| && b[..|a|] == a
    ensures !Consecutive(b)
  {
    var i :| 0 < i < |a| && !(a[i].kind != Session ==> a[i].rid == a[i - 1].rid + 1);
    assert b[i] == b[..|a|][i] && b[i - 1] == b[..|a|][i - 1];
  }

  /** The ids are consecutive within every session exactly if none leaves while the counter is ahead. */
  lemma {:induction false} ConsecutiveIff(s: State, events: seq<Event>)
    requires Consecutive(s.sent)
    ensures Consecutive(Run(s, events).sent) <==> NoneSkips(s, events)
    decreases |events|
  {
    if events != [] {
      var e := events[0];
      var t := Apply(s, e);
      ApplyNext(s, e);
      StepConsecutive(s, t, e.Established?);
      hide Apply, Consecutive;
      if Skips(s, e) {
        NotConsecutive(t, events[1..]);
      } else {
        ConsecutiveIff(t, events[1..]);
      }
    }
  }

  lemma {:induction false} KeepingSkipsNone(s: State, events: seq<Event>)
    requires RidsOk(s) && AllKeepRid(s, events)
    ensures NoneSkips(s, events)
    decreases |events|
  {
    if events != [] {
      ApplyRidsIff(s, events[0]);
      hide Apply, KeepsRid, Consecutive;
      KeepingSkipsNone(Apply(s, events[0]), events[1..]);
    }
  }

  /** From a new object: the counter is right throughout exactly if no closing or session request is
      lost after a transmission; the transmitted ids are consecutive exactly if nothing leaves while it
      is ahead; and the first implies the second. */
  lemma RidsIff(connection: Option<Conn>, events: seq<Event>)
    ensures
      var s := Initial(connection);
      && (AlwaysRidsOk(s, events) <==> AllKeepRid(s, events))
      && (Consecutive(Run(s, events).sent) <==> NoneSkips(s, events))
      && (AllKeepRid(s, events) ==> NoneSkips(s, events))
  {
    var s := Initial(connection);
    InitialRids(connection);
    AlwaysRidsOkIff(s, events);
    ConsecutiveIff(s, events);
    if AllKeepRid(s, events) {
      KeepingSkipsNone(s, events);
    }
    hide Run, AlwaysRidsOk, AllKeepRid, NoneSkips;
  }

  // ---- a run that skips an id ----

  const FAIL := Env({1}, false, 2, false)

  /** A stanza leaves, and then a closing request that fails. */
  function Closing(first: string): seq<Event> { [Write(UP, first), Stop(FAIL)] }

  lemma ClosingRun(s: State, first: string)
    requires s.state == Connected && s.mode == Pipelining && s.active == [1] && s.pool == [] && s.maxOpenRequests == 2
    requires s.openRequests == 0 && s.sendBuffer == "" && !s.streamRestart && IsStanza(first)
    ensures Run(s, Closing(first)) ==
      s.(state := Disconnected, rid := s.rid + 2, openRequests := 1, accepted := s.accepted + first,
         sent := s.sent + [Request(Stanzas, s.rid + 1, first)], flow := s.flow + [Delivered(first)] + [Lost("")])
  {
    RunTwo(s, Write(UP, first), Stop(FAIL));
    Written(s, first);
    var t := Send(s, UP, first).0;
    hide Run, Send, IsStanza, Fresh;
    FailingStop(t);
  }

  lemma FailingStop(s: State)
    requires s.state == Connected && s.mode == Pipelining && s.active == [1] && s.pool == [] && s.maxOpenRequests == 2
    requires s.openRequests == 1 && s.sendBuffer == ""
    ensures Disconnect(s, FAIL) == s.(state := Disconnected, rid := s.rid + 1, flow := s.flow + [Lost("")])
  {
  }

  lemma RunSingle(s: State, e: Event)
    ensures Run(s, [e]) == Apply(s, e)
  {
    hide Apply;
    assert [e][1..] == [];
    assert Run(s, [e]) == Run(Apply(s, e), []);
  }

  /** The answer to the stanza takes the session up again, and the next stanza leaves. */
  lemma ResumedRun(s: State, body: string, second: string)
    requires s.buffer == "" && s.mode == Pipelining && s.active == [1] && s.pool == [] && s.maxOpenRequests == 2
    requires s.openRequests == 1 && s.sendBuffer == "" && !s.streamRestart && Sendable(body) && IsStanza(second)
    ensures Run(Run(s, Opened(body)), [Write(UP, second)]).sent == s.sent + [Request(Stanzas, s.rid + 1, second)]
  {
    hide *;
    OpenedRun(s, body);
    WrittenRun(s.(openRequests := 0, fed := s.fed + [body], streamRestart := false, state := Connected), second);
  }

  lemma WrittenRun(s: State, data: string)
    requires s.state == Connected && s.mode == Pipelining && s.active == [1] && s.pool == []
    requires 0 <= s.openRequests < s.maxOpenRequests && s.sendBuffer == "" && !s.streamRestart && IsStanza(data)
    ensures Run(s, [Write(UP, data)]).sent == s.sent + [Request(Stanzas, s.rid + 1, data)]
  {
    Written(s, data);
    RunSingle(s, Write(UP, data));
    hide Run, Send, IsStanza;
  }

  function Skipping(body: string, first: string, answer: string, second: string): seq<Event> {
    Opening() + Opened(body) + Closing(first) + Opened(answer) + [Write(UP, second)]
  }

  /** Whatever the texts: the session request has id RID, the first stanza RID + 1, and the second
      RID + 3. */
  lemma SkippedId(body: string, first: string, answer: string, second: string)
    requires Sendable(body) && Sendable(answer) && IsStanza(first) && IsStanza(second)
    ensures
      var s := Run(Initial(Some(1)), Skipping(body, first, answer, second));
      && s.sent == [Request(Session, RID, ""), Request(Stanzas, RID + 1, first), Request(Stanzas, RID + 3, second)]
      && !Consecutive(s.sent)
  {
    var s0 := Initial(Some(1));
    SkippingRuns(s0, body, first, answer, second);
    OpeningRun();
    var s1 := SessionSent(s0);
    OpenedRun(s1, body);
    var s2 := Run(s1, Opened(body));
    ClosingRun(s2, first);
    var s3 := Run(s2, Closing(first));
    hide Run, AllowedRun, Opening, Opened, Closing, Skipping, IsStanza, Sendable;
    ResumedRun(s3, answer, second);
    SkippedSent(Run(s0, Skipping(body, first, answer, second)).sent, first, second);
  }

  lemma SkippedSent(sent: seq<Request>, first: string, second: string)
    requires
      sent == [Request(Session, RID, "")] + [Request(Stanzas, RID + 1, first)] + [Request(Stanzas, RID + 3, second)]
    ensures sent == [Request(Session, RID, ""), Request(Stanzas, RID + 1, first), Request(Stanzas, RID + 3, second)]
    ensures !Consecutive(sent)
  {
    assert sent[2].kind != Session && sent[2].rid != sent[1].rid + 1;
  }

  lemma SkippingRuns(s: State, body: string, first: string, answer: string, second: string)
    ensures
      Run(s, Skipping(body, first, answer, second)) ==
        Run(Run(Run(Run(Run(s, Opening()), Opened(body)), Closing(first)), Opened(answer)), [Write(UP, second)])
  {
    hide Run, Opening, Opened, Closing;
    RunAppend(s, Opening() + Opened(body) + Closing(first) + Opened(answer), [Write(UP, second)]);
    RunAppend(s, Opening() + Opened(body) + Closing(first), Opened(answer));
    RunAppend(s, Opening() + Opened(body), Closing(first));
    RunAppend(s, Opening(), Opened(body));
  }
}
