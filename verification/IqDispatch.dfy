/** The dispatch of IQ stanzas (gloox/clientbase.cpp:773-790, 1133-1181, 1369-1431): the table of
    tracked requests, the handlers of extensions, and who is answered how often. */
module IqDispatch {
  import opened Text

  datatype IqType = Get | Set | Result | Error

  /** `extensions` holds the types of the extensions that were recognised. */
  datatype Iq = Iq(kind: IqType, id: string, extensions: seq<int>)

  /** Handlers by number. */
  datatype Track = Track(handler: nat, context: int)

  type Tracked = map<string, Track>

  /** A handler under a type of extension; the order is that of registration. */
  datatype Registration = Registration(extension: int, handler: nat)

  predicate IsRequest(iq: Iq) {
    iq.kind == Get || iq.kind == Set
  }

  // ---- handlers of extensions ----

  /** `equal_range` */
  function HandlersFor(rs: seq<Registration>, extension: int): seq<nat> {
    if rs == [] then []
    else (if rs[0].extension == extension then [rs[0].handler] else []) + HandlersFor(rs[1..], extension)
  }

  /** All that may be asked about a stanza, in order. */
  function Candidates(rs: seq<Registration>, extensions: seq<int>): seq<nat> {
    if extensions == [] then [] else HandlersFor(rs, extensions[0]) + Candidates(rs, extensions[1..])
  }

  /** What a handler does with a stanza: whether `handleIq` returns true, and how many replies it sends. */
  datatype Behaviour = Behaviour(handled: bool, replies: nat)

  type Handlers = (nat, Iq) -> Behaviour

  /** The handlers are asked in turn, up to the first that returns true. */
  function Ask(hs: seq<nat>, iq: Iq, handlers: Handlers): Behaviour {
    if hs == [] then Behaviour(false, 0)
    else
      var b := handlers(hs[0], iq);
      if b.handled then b
      else
        var rest := Ask(hs[1..], iq, handlers);
        Behaviour(rest.handled, b.replies + rest.replies)
  }

  datatype Refusal = FeatureNotImplemented | ServiceUnavailable

  /** What became of a stanza that is not the answer to a tracked request. */
  datatype Outcome = Outcome(byHandlers: nat, refusal: Option<Refusal>)

  function Replies(o: Outcome): nat {
    o.byHandlers + if o.refusal.Some? then 1 else 0
  }

  function Dispatch(rs: seq<Registration>, iq: Iq, handlers: Handlers): Outcome {
    if iq.extensions == [] then
      Outcome(0, if IsRequest(iq) then Some(FeatureNotImplemented) else None)
    else
      var b := Ask(Candidates(rs, iq.extensions), iq, handlers);
      Outcome(b.replies, if !b.handled && IsRequest(iq) then Some(ServiceUnavailable) else None)
  }

  lemma {:induction false} AskAppend(a: seq<nat>, b: seq<nat>, iq: Iq, handlers: Handlers)
    ensures
      var first := Ask(a, iq, handlers);
      Ask(a + b, iq, handlers) ==
        if first.handled then first
        else Behaviour(Ask(b, iq, handlers).handled, first.replies + Ask(b, iq, handlers).replies)
  {
    if a == [] {
      assert a + b == b;
    } else {
      assert (a + b)[1..] == a[1..] + b;
      AskAppend(a[1..], b, iq, handlers);
    }
  }

  /** A handler that returns true exactly when it sent one reply, and replies only to requests. */
  predicate Proper(hs: seq<nat>, iq: Iq, handlers: Handlers) {
    forall i | 0 <= i < |hs| ::
      var b := handlers(hs[i], iq);
      if IsRequest(iq) then b.replies == (if b.handled then 1 else 0) else b.replies == 0
  }

  lemma {:induction false} AskProper(hs: seq<nat>, iq: Iq, handlers: Handlers)
    requires Proper(hs, iq, handlers)
    ensures
      var b := Ask(hs, iq, handlers);
      if IsRequest(iq) then b.replies == (if b.handled then 1 else 0) else b.replies == 0
  {
    if hs != [] && !handlers(hs[0], iq).handled {
      assert forall i | 0 <= i < |hs| - 1 :: hs[1..][i] == hs[i + 1];
      AskProper(hs[1..], iq, handlers);
    }
  }

  /** With such handlers, whichever are registered, a request is answered once and nothing else is. */
  lemma OneReply(rs: seq<Registration>, iq: Iq, handlers: Handlers)
    requires Proper(Candidates(rs, iq.extensions), iq, handlers)
    ensures Replies(Dispatch(rs, iq, handlers)) == if IsRequest(iq) then 1 else 0
  {
    AskProper(Candidates(rs, iq.extensions), iq, handlers);
  }

  /** One handler whose replies do not match what it returns spoils it, if it is the only one. */
  lemma OneReplyIff(rs: seq<Registration>, iq: Iq, handlers: Handlers, h: nat)
    requires iq.extensions != [] && Candidates(rs, iq.extensions) == [h]
    ensures Replies(Dispatch(rs, iq, handlers)) == (if IsRequest(iq) then 1 else 0) <==> Proper([h], iq, handlers)
  {
    assert [h][1..] == [];
    assert Ask([h], iq, handlers) == handlers(h, iq);
  }

  // ---- registration ----

  /** `registerIqHandler`: a handler is under a type once at most. */
  function Register(rs: seq<Registration>, r: Registration): seq<Registration> {
    if r in rs then rs else rs + [r]
  }

  function Unregister(rs: seq<Registration>, r: Registration): seq<Registration> {
    if rs == [] then [] else (if rs[0] == r then [] else [rs[0]]) + Unregister(rs[1..], r)
  }

  predicate Distinct(rs: seq<Registration>) {
    forall i, j | 0 <= i < j < |rs| :: rs[i] != rs[j]
  }

  lemma {:induction false} UnregisterRemoves(rs: seq<Registration>, r: Registration)
    ensures r !in Unregister(rs, r)
    ensures forall q | q in Unregister(rs, r) :: q in rs
    ensures Distinct(rs) ==> Distinct(Unregister(rs, r))
  {
    if rs != [] {
      UnregisterRemoves(rs[1..], r);
      Step(rs, r);
    }
  }

  lemma Step(rs: seq<Registration>, r: Registration)
    requires rs != [] && (Distinct(rs[1..]) ==> Distinct(Unregister(rs[1..], r)))
    requires forall q | q in Unregister(rs[1..], r) :: q in rs[1..]
    ensures Distinct(rs) ==> Distinct(Unregister(rs, r))
  {
    if Distinct(rs) {
      var rest := Unregister(rs[1..], r);
      assert Distinct(rs[1..]);
      assert rs[0] !in rest;
      var u := [rs[0]] + rest;
      forall i, j | 0 <= i < j < |u|
        ensures u[i] != u[j]
      {
        if i == 0 {
          assert u[j] in rest;
        }
      }
    }
  }

  // ---- tracked requests ----

  /** One call of `handleIqID`. */
  datatype Call = Call(id: string, track: Track)

  /** `calls` records what was called, `sends` the tracked requests that went out. */
  datatype State = State(tracked: Tracked, calls: seq<Call>, sends: seq<Call>)

  /** `send( IQ, IqHandler*, context )`, for a request with an id. */
  function SendTracked(s: State, id: string, track: Track): State {
    s.(tracked := s.tracked[id := track], sends := s.sends + [Call(id, track)])
  }

  /** `removeIDHandler` */
  function RemoveIdHandler(s: State, handler: nat): State {
    s.(tracked := map id | id in s.tracked && s.tracked[id].handler != handler :: s.tracked[id])
  }

  /** What a handler may do while it is called: send further requests, and drop those of others. */
  datatype Action = Sending(id: string, track: Track) | Dropping(handler: nat)

  function Act(s: State, a: Action): State {
    match a case Sending(id, track) => SendTracked(s, id, track) case Dropping(handler) => RemoveIdHandler(s, handler)
  }

  function ActAll(s: State, actions: seq<Action>): State
    decreases |actions|
  {
    if actions == [] then s else ActAll(Act(s, actions[0]), actions[1..])
  }

  predicate IsAnswer(s: State, iq: Iq) {
    iq.id in s.tracked && !IsRequest(iq)
  }

  /** The first branch of `notifyIqHandlers`: the handler is called, and the entry goes. */
  function Answered(s: State, iq: Iq, during: seq<Action>): State
    requires IsAnswer(s, iq)
  {
    var t := ActAll(s.(calls := s.calls + [Call(iq.id, s.tracked[iq.id])]), during);
    t.(tracked := t.tracked - {iq.id})
  }

  datatype Event =
    | Doing(action: Action)
    | Incoming(iq: Iq, during: seq<Action>)

  /** A stanza that is not an answer reaches the handlers of extensions, and they may act too. */
  function Happen(s: State, e: Event): State {
    match e
    case Doing(action) => Act(s, action)
    case Incoming(iq, during) => if IsAnswer(s, iq) then Answered(s, iq, during) else ActAll(s, during)
  }

  function Run(s: State, events: seq<Event>): State
    decreases |events|
  {
    if events == [] then s else Run(Happen(s, events[0]), events[1..])
  }

  function Count(calls: seq<Call>, id: string): nat {
    if calls == [] then 0 else (if calls[0].id == id then 1 else 0) + Count(calls[1..], id)
  }

  lemma {:induction false} CountMore(calls: seq<Call>, call: Call, id: string)
    ensures Count(calls + [call], id) == Count(calls, id) + if call.id == id then 1 else 0
  {
    if calls == [] {
      assert [] + [call] == [call] && [call][1..] == [];
    } else {
      assert (calls + [call])[1..] == calls[1..] + [call];
      CountMore(calls[1..], call, id);
    }
  }

  /** Every call was paid for by a request, and what is outstanding is not yet called. */
  predicate Paid(s: State, id: string) {
    Count(s.calls, id) + (if id in s.tracked then 1 else 0) <= Count(s.sends, id)
  }

  lemma ActPaid(s: State, a: Action, id: string)
    requires Paid(s, id)
    ensures Paid(Act(s, a), id)
    ensures Act(s, a).calls == s.calls
  {
    if a.Sending? {
      CountMore(s.sends, Call(a.id, a.track), id);
    }
    hide Count;
  }

  lemma {:induction false} ActAllPaid(s: State, actions: seq<Action>, id: string)
    requires Paid(s, id)
    ensures Paid(ActAll(s, actions), id)
    decreases |actions|
  {
    if actions != [] {
      ActPaid(s, actions[0], id);
      hide Paid, Act;
      ActAllPaid(Act(s, actions[0]), actions[1..], id);
    }
  }

  /** A tracked request is answered to its handler at most once, in every run, whatever ids come
      back and whatever handlers do while they are called. */
  lemma {:induction false} AtMostOneCall(s: State, events: seq<Event>, id: string)
    requires Paid(s, id)
    ensures Paid(Run(s, events), id)
    ensures Count(Run(s, events).calls, id) <= Count(Run(s, events).sends, id)
    decreases |events|
  {
    if events != [] {
      HappenPaid(s, events[0], id);
      hide Happen;
      AtMostOneCall(Happen(s, events[0]), events[1..], id);
    }
  }

  lemma HappenPaid(s: State, e: Event, id: string)
    requires Paid(s, id)
    ensures Paid(Happen(s, e), id)
  {
    match e {
      case Doing(action) => ActPaid(s, action, id);
      case Incoming(iq, during) =>
        if IsAnswer(s, iq) {
          AnsweredPaid(s, iq, during, id);
        } else {
          ActAllPaid(s, during, id);
        }
    }
    hide Act, ActAll, Answered, Paid;
  }

  /** Actions call nobody, and requests only become more. */
  lemma {:induction false} ActAllGrows(s: State, actions: seq<Action>, id: string)
    ensures ActAll(s, actions).calls == s.calls
    ensures Count(ActAll(s, actions).sends, id) >= Count(s.sends, id)
    decreases |actions|
  {
    if actions != [] {
      var a := actions[0];
      if a.Sending? {
        CountMore(s.sends, Call(a.id, a.track), id);
      }
      ActAllGrows(Act(s, a), actions[1..], id);
    }
  }

  lemma AnsweredPaid(s: State, iq: Iq, during: seq<Action>, id: string)
    requires Paid(s, id) && IsAnswer(s, iq)
    ensures Paid(Answered(s, iq, during), id)
  {
    var call := Call(iq.id, s.tracked[iq.id]);
    var t := s.(calls := s.calls + [call]);
    CountMore(s.calls, call, id);
    ActAllGrows(t, during, id);
    if id != iq.id {
      ActAllPaid(t, during, id);
    }
    hide ActAll, Count;
  }

  // ---- never after removal ----

  predicate Forgotten(s: State, handler: nat) {
    forall id | id in s.tracked :: s.tracked[id].handler != handler
  }

  predicate SendsNone(actions: seq<Action>, handler: nat) {
    forall i | 0 <= i < |actions| :: actions[i].Sending? ==> actions[i].track.handler != handler
  }

  predicate SendsNothing(events: seq<Event>, handler: nat) {
    forall i | 0 <= i < |events| ::
      match events[i]
      case Doing(action) => SendsNone([action], handler)
      case Incoming(_, during) => SendsNone(during, handler)
  }

  function CallsTo(calls: seq<Call>, handler: nat): nat {
    if calls == [] then 0
    else (if calls[|calls| - 1].track.handler == handler then 1 else 0) + CallsTo(calls[..|calls| - 1], handler)
  }

  lemma ForgottenAfterRemoval(s: State, handler: nat)
    ensures Forgotten(RemoveIdHandler(s, handler), handler)
  {
  }

  lemma {:induction false} ActAllForgotten(s: State, actions: seq<Action>, handler: nat)
    requires Forgotten(s, handler) && SendsNone(actions, handler)
    ensures Forgotten(ActAll(s, actions), handler)
    ensures ActAll(s, actions).calls == s.calls
    decreases |actions|
  {
    if actions != [] {
      assert forall i | 0 <= i < |actions| - 1 :: actions[1..][i] == actions[i + 1];
      ActAllForgotten(Act(s, actions[0]), actions[1..], handler);
    }
  }

  lemma HappenForgotten(s: State, e: Event, handler: nat)
    requires Forgotten(s, handler) && SendsNothing([e], handler)
    ensures Forgotten(Happen(s, e), handler) && CallsTo(Happen(s, e).calls, handler) == CallsTo(s.calls, handler)
  {
    assert e == [e][0];
    match e {
      case Doing(action) =>
        assert action == [action][0];
      case Incoming(iq, during) =>
        if IsAnswer(s, iq) {
          var t := s.(calls := s.calls + [Call(iq.id, s.tracked[iq.id])]);
          ActAllForgotten(t, during, handler);
          assert t.calls[..|t.calls| - 1] == s.calls;
        } else {
          ActAllForgotten(s, during, handler);
        }
    }
  }

  /** After `removeIDHandler`, and until it sends again, a handler is not called. */
  lemma {:induction false} NeverAfterRemoval(s: State, events: seq<Event>, handler: nat)
    requires Forgotten(s, handler) && SendsNothing(events, handler)
    ensures CallsTo(Run(s, events).calls, handler) == CallsTo(s.calls, handler)
    decreases |events|
  {
    if events != [] {
      assert forall i | 0 <= i < |events| - 1 :: events[1..][i] == events[i + 1];
      HappenForgotten(s, events[0], handler);
      hide Happen, CallsTo, Forgotten;
      NeverAfterRemoval(Happen(s, events[0]), events[1..], handler);
    }
  }

  /** A handler that `removeIDHandler` took out, and that sends nothing, is never called again,
      whatever arrives and whatever the others send. */
  lemma RemovedIsNeverCalled(s: State, events: seq<Event>, handler: nat)
    requires SendsNothing(events, handler)
    ensures CallsTo(Run(RemoveIdHandler(s, handler), events).calls, handler) == CallsTo(s.calls, handler)
  {
    ForgottenAfterRemoval(s, handler);
    NeverAfterRemoval(RemoveIdHandler(s, handler), events, handler);
    hide Run, Forgotten;
  }

  // ---- the answer arrives ----

  predicate LeavesAlone(a: Action, id: string, handler: nat) {
    match a case Sending(other, _) => other != id case Dropping(other) => other != handler
  }

  predicate AllLeaveAlone(actions: seq<Action>, id: string, handler: nat) {
    forall i | 0 <= i < |actions| :: LeavesAlone(actions[i], id, handler)
  }

  /** No answer with the id, no further request under it, and the handler is not removed. */
  predicate Undisturbed(events: seq<Event>, id: string, handler: nat) {
    forall i | 0 <= i < |events| ::
      match events[i]
      case Doing(action) => LeavesAlone(action, id, handler)
      case Incoming(iq, during) => (iq.id != id || IsRequest(iq)) && AllLeaveAlone(during, id, handler)
  }

  predicate Tracks(s: State, id: string, track: Track) {
    id in s.tracked && s.tracked[id] == track
  }

  lemma {:induction false} ActAllTracks(s: State, actions: seq<Action>, id: string, track: Track)
    requires Tracks(s, id, track) && AllLeaveAlone(actions, id, track.handler)
    ensures Tracks(ActAll(s, actions), id, track)
    decreases |actions|
  {
    if actions != [] {
      assert forall i | 0 <= i < |actions| - 1 :: actions[1..][i] == actions[i + 1];
      ActAllTracks(Act(s, actions[0]), actions[1..], id, track);
    }
  }

  lemma HappenTracks(s: State, e: Event, id: string, track: Track)
    requires Tracks(s, id, track) && Undisturbed([e], id, track.handler)
    ensures Tracks(Happen(s, e), id, track)
  {
    assert e == [e][0];
    if e.Incoming? {
      if IsAnswer(s, e.iq) {
        ActAllTracks(s.(calls := s.calls + [Call(e.iq.id, s.tracked[e.iq.id])]), e.during, id, track);
      } else {
        ActAllTracks(s, e.during, id, track);
      }
    }
    hide ActAll;
  }

  lemma {:induction false} RunTracks(s: State, events: seq<Event>, id: string, track: Track)
    requires Tracks(s, id, track) && Undisturbed(events, id, track.handler)
    ensures Tracks(Run(s, events), id, track)
    decreases |events|
  {
    if events != [] {
      assert forall i | 0 <= i < |events| - 1 :: events[1..][i] == events[i + 1];
      HappenTracks(s, events[0], id, track);
      hide Happen, Tracks;
      RunTracks(Happen(s, events[0]), events[1..], id, track);
    }
  }

  /** The first answer after a request goes to the handler that sent it, with its context, whatever
      happens in between to other requests. */
  lemma FirstAnswerIsDelivered(s: State, id: string, track: Track, events: seq<Event>, iq: Iq)
    requires Undisturbed(events, id, track.handler) && iq.id == id && !IsRequest(iq)
    ensures
      var t := Run(SendTracked(s, id, track), events);
      && Happen(t, Incoming(iq, [])).calls == t.calls + [Call(id, track)]
      && id !in Happen(t, Incoming(iq, [])).tracked
  {
    RunTracks(SendTracked(s, id, track), events, id, track);
  }
}
