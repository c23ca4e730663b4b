/** What the attributes of the bodies that arrive do over whole runs (gloox/connectionbosh.cpp:458-544). */
module BoshTags {
  import opened Text
  import opened HttpFraming
  import opened Bosh
  import opened BoshChunks
  import opened BoshRuns
  import opened BoshSends

  // ---- the window ----

  /** The smallest window that a session body has asked for, and no more than n. */
  function Smallest(events: seq<Event>, n: int): int {
    if events == [] then n
    else
      match events[0]
      case Tag(body) =>
        if body.hasSid && body.requests.Some? then
          Smallest(events[1..], if body.requests.value < n then body.requests.value else n)
        else Smallest(events[1..], n)
      case _ => Smallest(events[1..], n)
  }

  lemma WindowKept(s: State, e: Event)
    requires !e.Tag?
    ensures Apply(s, e).maxOpenRequests == s.maxOpenRequests
  {
    match e {
      case Start(env) => GetConnectionFrame(s.(state := Connecting), env);
      case Established(env, rid) => SendRequestFrame(s.(rid := rid), env, Request(Session, rid, ""));
      case Write(env, data) =>
        SendXMLWindow(s.(streamRestart := true), env);
        SendXMLWindow(s.(sendBuffer := s.sendBuffer + data, accepted := s.accepted + data), env);
      case Poll(env) => SendXMLWindow(s, env);
      case Data(data) => ReceiveWindow(Append(s, data));
      case Stop(env) => SendRequestFrame(s.(rid := s.rid + 1, sendBuffer := ""), env, CloseRequest(s));
      case _ =>
    }
    hide SendXML, SendRequest, GetConnection, Receive;
  }

  lemma SendXMLWindow(s: State, env: Env)
    ensures SendXML(s, env).maxOpenRequests == s.maxOpenRequests
  {
    SendRequestFrame(s.(rid := s.rid + 1), env, BodyRequest(s));
    hide SendRequest, Refuses;
  }

  lemma {:induction false} ReceiveWindow(s: State)
    ensures Receive(s).maxOpenRequests == s.maxOpenRequests
    decreases |s.buffer|
  {
    ReceiveOnce(s);
    hide Next, StatusOk, WantsFallback;
    if Feeds(s.buffer) {
      var t := Turn(s);
      hide Turn;
      ReceiveWindow(t);
    }
  }

  /** The window is what it was, or the smallest that was asked for since. */
  lemma {:induction false} WindowIs(s: State, events: seq<Event>)
    ensures Run(s, events).maxOpenRequests == Smallest(events, s.maxOpenRequests)
    decreases |events|
  {
    if events != [] {
      var e := events[0];
      if !e.Tag? {
        WindowKept(s, e);
      }
      hide Receive, SendXML;
      WindowIs(Apply(s, e), events[1..]);
    }
  }

  // ---- the end of a session ----

  /** A body ends the session if it says so, and else takes it up if it has an id. */
  lemma TagState(s: State, body: BodyTag)
    ensures
      var t := Apply(s, Tag(body));
      && (t.state == Disconnected <==> body.terminates || (!body.hasSid && s.state == Disconnected))
      && (t.state == Connected <==> !body.terminates && (body.hasSid || s.state == Connected))
      && t == s.(state := t.state, maxOpenRequests := t.maxOpenRequests, streamRestart := false)
  {
  }

  /** Neither a connect() nor a body that takes a session up. */
  predicate LeavesDown(e: Event) {
    !e.Start? && !(e.Tag? && e.body.hasSid && !e.body.terminates)
  }

  predicate AllLeaveDown(events: seq<Event>) {
    events == [] || (LeavesDown(events[0]) && AllLeaveDown(events[1..]))
  }

  /** Nothing is sent, and nothing more is accepted. */
  predicate Silent(s: State, t: State) {
    t.state == Disconnected && t.sent == s.sent && t.accepted == s.accepted && t.flow == s.flow && t.sendBuffer == s.sendBuffer
  }

  lemma StaysDown(s: State, e: Event)
    requires s.state == Disconnected && LeavesDown(e)
    ensures Silent(s, Apply(s, e))
  {
    if e.Data? {
      ReceiveStays(Append(s, e.data));
    }
    hide Receive;
  }

  lemma {:induction false} ReceiveStays(s: State)
    requires s.state == Disconnected
    ensures Silent(s, Receive(s))
    decreases |s.buffer|
  {
    ReceiveFrame(s);
    ReceiveOnce(s);
    hide Next, StatusOk, WantsFallback;
    if Feeds(s.buffer) {
      var t := Turn(s);
      hide Turn;
      ReceiveStays(t);
    }
  }

  lemma {:induction false} DownIsSilent(s: State, events: seq<Event>)
    requires s.state == Disconnected && AllLeaveDown(events)
    ensures Silent(s, Run(s, events))
    decreases |events|
  {
    if events != [] {
      StaysDown(s, events[0]);
      hide Apply;
      DownIsSilent(Apply(s, events[0]), events[1..]);
    }
  }

  /** Once the server has terminated the session, nothing is sent or accepted until the application
      connects again, or another body takes the session up. */
  lemma TerminatedIsSilent(s: State, body: BodyTag, events: seq<Event>)
    requires body.terminates && AllLeaveDown(events)
    ensures Silent(s, Run(s, [Tag(body)] + events))
  {
    var t := HandleTag(s, body);
    assert ([Tag(body)] + events)[1..] == events;
    assert Run(s, [Tag(body)] + events) == Run(Apply(s, Tag(body)), events);
    hide Run, Apply;
    DownIsSilent(t, events);
  }
}
