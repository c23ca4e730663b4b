/** The dispatching client base, with its tables and loops, and the bytestream as one of its handlers
    (gloox/clientbase.cpp:773-790, 1133-1181, 1369-1431, gloox/inbandbytestream.cpp:163-206). */
module IqDispatcher {
  import opened Text
  import A = IqAsked
  import D = IqDispatch
  import Ibb

  class ClientBase {
    var tracked: D.Tracked
    var registrations: seq<D.Registration>

    /** What happened: handlers called, tracked requests sent, replies to other stanzas. */
    var calls: seq<D.Call>
    var sends: seq<D.Call>
    var outcomes: seq<D.Outcome>

    function State(): D.State
      reads this
    {
      D.State(tracked, calls, sends)
    }

    constructor ()
      ensures State() == D.State(map[], [], []) && registrations == [] && outcomes == []
    {
      tracked, registrations, calls, sends, outcomes := map[], [], [], [], [];
    }

    /** `send( IQ, IqHandler*, context )` for a request with an id. */
    method SendTracked(id: string, track: D.Track)
      modifies `tracked, `sends
      ensures State() == D.SendTracked(old(State()), id, track)
    {
      tracked := tracked[id := track];
      sends := sends + [D.Call(id, track)];
    }

    method RemoveIdHandler(handler: nat)
      modifies `tracked
      ensures State() == D.RemoveIdHandler(old(State()), handler)
    {
      ghost var before := tracked;
      var todo := tracked.Keys;
      while todo != {}
        invariant todo <= before.Keys
        invariant tracked == map id | id in before && (id in todo || before[id].handler != handler) :: before[id]
        decreases |todo|
      {
        var id :| id in todo;
        if handler == tracked[id].handler {
          tracked := tracked - {id};
        }
        todo := todo - {id};
      }
    }

    method RegisterIqHandler(handler: nat, extension: int)
      modifies `registrations
      ensures registrations == D.Register(old(registrations), D.Registration(extension, handler))
      ensures D.Distinct(old(registrations)) ==> D.Distinct(registrations)
    {
      var r := D.Registration(extension, handler);
      var i := 0;
      while i < |registrations|
        invariant i <= |registrations| && r !in registrations[..i]
      {
        if registrations[i].extension == extension && registrations[i].handler == handler { return; }
        i := i + 1;
      }
      registrations := registrations + [r];
    }

    method RemoveIqHandler(handler: nat, extension: int)
      modifies `registrations
      ensures registrations == D.Unregister(old(registrations), D.Registration(extension, handler))
    {
      var rest := registrations;
      var kept: seq<D.Registration> := [];
      ghost var r := D.Registration(extension, handler);
      while rest != []
        invariant registrations == old(registrations) && kept + D.Unregister(rest, r) == D.Unregister(registrations, r)
        decreases |rest|
      {
        NextKept(kept, rest, r);
        if rest[0].extension != extension || rest[0].handler != handler {
          kept := kept + [rest[0]];
        }
        rest := rest[1..];
      }
      assert D.Unregister(rest, r) == [] && kept + [] == kept;
      registrations := kept;
    }

    /** What a handler does while it is called. */
    method Act(actions: seq<D.Action>)
      modifies `tracked, `sends
      ensures State() == D.ActAll(old(State()), actions)
    {
      var i := 0;
      while i < |actions|
        invariant i <= |actions| && calls == old(calls)
        invariant D.ActAll(State(), actions[i..]) == D.ActAll(old(State()), actions)
      {
        assert actions[i..][1..] == actions[i + 1..];
        match actions[i] {
          case Sending(id, track) => SendTracked(id, track);
          case Dropping(handler) => RemoveIdHandler(handler);
        }
        i := i + 1;
      }
    }

    method NotifyIqHandlers(iq: D.Iq, handlers: D.Handlers, during: seq<D.Action>)
      modifies this
      ensures State() == D.Happen(old(State()), D.Incoming(iq, during))
      ensures registrations == old(registrations)
      ensures outcomes == old(outcomes) +
        (if D.IsAnswer(old(State()), iq) then [] else [D.Dispatch(registrations, iq, handlers)])
    {
      hide D.ActAll, D.Dispatch;
      var haveIdHandler := iq.id in tracked;
      if haveIdHandler && (iq.kind == D.Result || iq.kind == D.Error) {
        calls := calls + [D.Call(iq.id, tracked[iq.id])];
        Act(during);
        tracked := tracked - {iq.id};
        return;
      }
      var o := Ask(iq, handlers);
      Act(during);
      outcomes := outcomes + [o];
    }

    /** The answer, and what it means for the one who asked. */
    method Ask(iq: D.Iq, handlers: D.Handlers) returns (o: D.Outcome)
      ensures o == D.Dispatch(registrations, iq, handlers)
      ensures o.refusal == Some(D.ServiceUnavailable) <==>
        D.IsRequest(iq) && iq.extensions != [] && A.Nobody(registrations, iq, handlers)
      ensures forall e: nat, i: nat | A.Takes(registrations, iq, handlers, e, i) && A.NobodyBefore(registrations, iq, handlers, e, i) ::
        o.byHandlers == A.RepliesBefore(registrations, e, iq, handlers)
          + A.RepliesUnder(registrations, iq.extensions[e], i + 1, iq, handlers)
    {
      hide A.Takes, A.NobodyBefore, A.Nobody, A.RepliesBefore, A.RepliesUnder, D.Dispatch;
      A.DispatchIs(registrations, iq, handlers);
      o := AskAll(iq, handlers);
    }

    /** The nested loops over the extensions and their handlers. */
    method AskAll(iq: D.Iq, handlers: D.Handlers) returns (o: D.Outcome)
      ensures o == D.Dispatch(registrations, iq, handlers)
    {
      if iq.extensions == [] {
        return D.Outcome(0, if iq.kind == D.Get || iq.kind == D.Set then Some(D.FeatureNotImplemented) else None);
      }
      var handled := false;
      var replies: nat := 0;
      ghost var all := D.Candidates(registrations, iq.extensions);
      var e := 0;
      hide D.Ask, D.Candidates, D.HandlersFor, Left;
      BeginLeft(all, registrations, iq, handlers);
      while !handled && e < |iq.extensions|
        invariant e <= |iq.extensions|
        invariant Left(all, D.Candidates(registrations, iq.extensions[e..]), iq, handlers, handled, replies)
      {
        var g := D.HandlersFor(registrations, iq.extensions[e]);
        NextExtension(registrations, iq.extensions, e);
        ghost var later := D.Candidates(registrations, iq.extensions[e + 1..]);
        var i := 0;
        while !handled && i < |g|
          invariant i <= |g|
          invariant Left(all, g[i..] + later, iq, handlers, handled, replies)
        {
          var b := handlers(g[i], iq);
          NextHandler(all, g, i, later, iq, handlers, replies);
          replies := replies + b.replies;
          handled := b.handled;
          i := i + 1;
        }
        LeftLater(all, g[i..], later, iq, handlers, handled, replies);
        e := e + 1;
      }
      NoneLeft(all, registrations, iq, handlers, e, handled, replies);
      return D.Outcome(replies, if !handled && (iq.kind == D.Get || iq.kind == D.Set) then Some(D.ServiceUnavailable) else None);
    }
  }

  /** What the candidates do in all, when those in `rest` are left. */
  predicate Left(all: seq<nat>, rest: seq<nat>, iq: D.Iq, handlers: D.Handlers, handled: bool, replies: nat) {
    D.Ask(all, iq, handlers) ==
      if handled then D.Behaviour(true, replies)
      else D.Behaviour(D.Ask(rest, iq, handlers).handled, replies + D.Ask(rest, iq, handlers).replies)
  }

  lemma NextKept(kept: seq<D.Registration>, rest: seq<D.Registration>, r: D.Registration)
    requires rest != []
    ensures kept + D.Unregister(rest, r) == (if rest[0] == r then kept else kept + [rest[0]]) + D.Unregister(rest[1..], r)
  {
  }

  lemma NextExtension(rs: seq<D.Registration>, extensions: seq<int>, e: nat)
    requires e < |extensions|
    ensures
      D.Candidates(rs, extensions[e..]) == D.HandlersFor(rs, extensions[e])[0..] + D.Candidates(rs, extensions[e + 1..])
  {
    assert extensions[e..][1..] == extensions[e + 1..];
  }

  lemma NextHandler(all: seq<nat>, g: seq<nat>, i: nat, later: seq<nat>, iq: D.Iq, handlers: D.Handlers, replies: nat)
    requires i < |g| && Left(all, g[i..] + later, iq, handlers, false, replies)
    ensures
      var b := handlers(g[i], iq);
      Left(all, g[i + 1..] + later, iq, handlers, b.handled, replies + b.replies)
  {
    assert (g[i..] + later)[1..] == g[i + 1..] + later;
  }

  lemma BeginLeft(all: seq<nat>, rs: seq<D.Registration>, iq: D.Iq, handlers: D.Handlers)
    requires all == D.Candidates(rs, iq.extensions)
    ensures Left(all, D.Candidates(rs, iq.extensions[0..]), iq, handlers, false, 0)
  {
    assert iq.extensions[0..] == iq.extensions;
  }

  /** A handler that handles it, or the last of an extension. */
  lemma LeftLater(all: seq<nat>, rest: seq<nat>, later: seq<nat>, iq: D.Iq, handlers: D.Handlers, handled: bool, replies: nat)
    requires Left(all, rest + later, iq, handlers, handled, replies) && (handled || rest == [])
    ensures Left(all, later, iq, handlers, handled, replies)
  {
    assert rest == [] ==> rest + later == later;
  }

  lemma NoneLeft(all: seq<nat>, rs: seq<D.Registration>, iq: D.Iq, handlers: D.Handlers, e: nat, handled: bool, replies: nat)
    requires e <= |iq.extensions| && (handled || e == |iq.extensions|)
    requires Left(all, D.Candidates(rs, iq.extensions[e..]), iq, handlers, handled, replies)
    requires all == D.Candidates(rs, iq.extensions) && iq.extensions != []
    ensures D.Dispatch(rs, iq, handlers) ==
      D.Outcome(replies, if !handled && D.IsRequest(iq) then Some(D.ServiceUnavailable) else None)
  {
    assert e == |iq.extensions| ==> iq.extensions[e..] == [];
  }

  // ---- the bytestream as a handler ----

  /** What `InBandBytestream::handleIq` does, in the terms of the dispatch. */
  function StreamBehaviour(s: Ibb.Stream, isSet: bool, ext: Ibb.IBB): D.Behaviour {
    var (t, handled) := Ibb.HandleIq(s, isSet, Some(ext));
    D.Behaviour(handled, if |t.replies| > |s.replies| then |t.replies| - |s.replies| else 0)
  }

  /** A request that only a stream is asked about is answered once, except for a block of data that
      an open stream refuses: the stream sends an error but says that it did nothing, so that a
      second error follows. */
  lemma RefusedBlockAnsweredTwice(s: Ibb.Stream, ext: Ibb.IBB, rs: seq<D.Registration>, iq: D.Iq, handlers: D.Handlers, h: nat)
    requires D.IsRequest(iq) && iq.extensions != [] && D.Candidates(rs, iq.extensions) == [h]
    requires handlers(h, iq) == StreamBehaviour(s, iq.kind == D.Set, ext)
    ensures
      var refused := s.open && s.handler && iq.kind == D.Set && ext.kind != Ibb.IbbClose
                     && (ext.seqNo != s.lastChunkReceived + 1 || ext.data == []);
      D.Replies(D.Dispatch(rs, iq, handlers)) == if refused then 2 else 1
  {
    assert [h][1..] == [];
    assert D.Ask([h], iq, handlers) == handlers(h, iq);
  }
}
