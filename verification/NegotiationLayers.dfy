/** Which layers an element leaves in, said of the events that came before it. */
module NegotiationLayers {
  import opened Text
  import opened Negotiation
  import opened NegotiationWire
  import opened NegotiationScripts

  // ---- what has come since the connection came up ----

  /** The transport is lost, or the client gives it up. */
  predicate EndsAt(s: State, e: Event, t: State) {
    e == TransportDown || (s.conn != Disconnected && t.conn == Disconnected)
  }

  /** e is among the events behind the last end of a connection. */
  predicate Since(c: Config, events: seq<Event>, e: Event)
    decreases |events|
  {
    if events == [] then false
    else
      var before, last := events[..|events| - 1], events[|events| - 1];
      && !EndsAt(Run(c, INITIAL, before), last, Run(c, INITIAL, events))
      && (last == e || Since(c, before, e))
  }

  lemma RunLast(c: Config, s: State, events: seq<Event>)
    requires events != []
    ensures Run(c, s, events) == Step(c, Run(c, s, events[..|events| - 1]), events[|events| - 1])
  {
    var n := |events| - 1;
    assert events == events[..n] + [events[n]];
    RunAppend(c, s, events[..n], [events[n]]);
    hide Step;
    assert [events[n]][1..] == [];
    var t := Run(c, s, events[..n]);
    assert Run(c, t, [events[n]]) == Run(c, Step(c, t, events[n]), []);
  }

  // ---- one step ----

  /** What a step may do to the layers: nothing, or end the connection. */
  predicate Keeps(s: State, t: State) {
    || (t.conn == s.conn && t.compressionActive == s.compressionActive && t.encryptionActive == s.encryptionActive)
    || (s.conn != Disconnected && t.conn == Disconnected && !t.compressionActive && !t.encryptionActive)
  }

  function Layers(deflated: bool, sealed: bool, e: Element): Data {
    var d := if deflated then Deflated(Clear(e)) else Clear(e);
    if sealed then Sealed(d) else d
  }

  /** t adds to the wire of s, all of it in these layers. */
  predicate AddsIn(s: State, t: State, deflated: bool, sealed: bool) {
    && |s.wire| <= |t.wire| && t.wire[..|s.wire|] == s.wire
    && forall i | |s.wire| <= i < |t.wire| :: t.wire[i] == Layers(deflated, sealed, Payload(t.wire[i]))
  }

  /** Both, with the layers that are active. */
  predicate Sends(c: Config, s: State, t: State) {
    Keeps(s, t) && AddsIn(s, t, c.compression && s.compressionActive, c.encryption && s.encryptionActive)
  }

  lemma LayersPayload(deflated: bool, sealed: bool, e: Element)
    ensures Payload(Layers(deflated, sealed, e)) == e
  {
    var d := if deflated then Deflated(Clear(e)) else Clear(e);
    assert Payload(Deflated(Clear(e))) == Payload(Clear(e)) == e;
    assert Payload(Sealed(d)) == Payload(d);
  }

  lemma SendSends(c: Config, s: State, e: Element)
    ensures Sends(c, s, Send(c, s, e))
    ensures Send(c, s, e) == s.(wire := Send(c, s, e).wire)
  {
    LayersPayload(c.compression && s.compressionActive, c.encryption && s.encryptionActive, e);
    hide Payload;
  }

  /** Fields that have nothing to do with layers. */
  predicate Alike(s: State, t: State) {
    s.conn == t.conn && s.compressionActive == t.compressionActive && s.encryptionActive == t.encryptionActive && s.wire == t.wire
  }

  lemma SendsAlike(c: Config, s: State, t: State, u: State, v: State)
    requires Sends(c, t, u) && Alike(s, t) && Alike(u, v)
    ensures Sends(c, s, v)
  {
    hide Layers, Payload;
  }

  lemma SendsNothing(c: Config, s: State, t: State)
    requires Alike(s, t)
    ensures Sends(c, s, t)
  {
    hide Layers, Payload;
  }

  /** One after the other, the first of which stays connected. */
  lemma SendsBoth(c: Config, s: State, t: State, u: State)
    requires Sends(c, s, t) && Sends(c, t, u) && t.conn == s.conn
    requires t.compressionActive == s.compressionActive && t.encryptionActive == s.encryptionActive
    ensures Sends(c, s, u)
  {
    hide Layers, Payload, Keeps;
    var d, z := c.compression && s.compressionActive, c.encryption && s.encryptionActive;
    AddsBothIn(s, t, u, d, z);
    assert Keeps(s, u) by { KeepsBoth(s, t, u); }
  }

  lemma KeepsBoth(s: State, t: State, u: State)
    requires t.conn == s.conn && t.compressionActive == s.compressionActive && t.encryptionActive == s.encryptionActive
    requires Keeps(t, u)
    ensures Keeps(s, u)
  {
  }

  lemma AddsBothIn(s: State, t: State, u: State, d: bool, z: bool)
    requires AddsIn(s, t, d, z) && AddsIn(t, u, d, z)
    ensures AddsIn(s, u, d, z)
  {
    hide Layers, Payload;
    assert u.wire[..|s.wire|] == t.wire[..|s.wire|];
    forall i | |s.wire| <= i < |u.wire|
      ensures u.wire[i] == Layers(d, z, Payload(u.wire[i]))
    {
      if i < |t.wire| {
        assert u.wire[i] == u.wire[..|t.wire|][i] == t.wire[i];
      }
    }
  }

  lemma DisconnectSends(c: Config, s: State, tlsFailed: bool)
    ensures Sends(c, s, Disconnect(c, s, tlsFailed))
  {
    var t := Reset(s);
    SendSends(c, t, StreamEnd);
    SendsNothing(c, s, t);
    hide Send, Layers, Payload;
  }

  lemma TrackedSends(c: Config, s: State, e: Element, context: Context)
    ensures Sends(c, s, SendTracked(c, s, e, context))
  {
    var t := s.(pending := s.pending + multiset{context});
    SendSends(c, t, e);
    hide Send, Sends;
    SendsAlike(c, s, t, Send(c, t, e), Send(c, t, e));
  }

  lemma FinishSends(c: Config, s: State)
    ensures Sends(c, s, Finish(c, s))
  {
    var t := Send(c, s, PresenceStanza);
    SendSends(c, s, RosterQuery);
    SendSends(c, s, PresenceStanza);
    SendsNothing(c, s, s.(connects := s.connects + 1));
    hide Send, Sends;
    SendsAlike(c, s, s, t, t.(connects := t.connects + 1));
  }

  lemma SaslSends(c: Config, s: State, m: Mechanism)
    ensures Sends(c, s, StartSasl(c, s, m))
  {
    var t := s.(selected := Some(m));
    SendSends(c, t, Auth(m));
    hide Send, Sends;
    SendsAlike(c, s, t, Send(c, t, Auth(m)), Send(c, t, Auth(m)));
  }

  lemma AuthenticateSends(c: Config, s: State)
    ensures Sends(c, s, Authenticate(c, s))
  {
    forall m: Mechanism
      ensures Sends(c, s, StartSasl(c, s, m))
    {
      SaslSends(c, s, m);
    }
    TrackedSends(c, s, BindRequest, BindContext);
    TrackedSends(c, s, LoginQuery, LoginFields);
    DisconnectSends(c, s, false);
    FinishSends(c, s);
    SendsNothing(c, s, s);
    hide Sends, StartSasl, SendTracked, Disconnect, Finish;
  }

  lemma OfferSends(c: Config, s: State, offered: Features)
    ensures Sends(c, s, HandleFeatures(c, s, offered))
  {
    var t := s.(features := StreamFeatures(offered));
    DisconnectSends(c, t, false);
    SendSends(c, t, StartTls);
    SendSends(c, t, Compress);
    AuthenticateSends(c, t);
    TrackedSends(c, t, LoginQuery, LoginFields);
    assert Alike(s, t);
    hide Sends, Send, SendTracked, Disconnect, Authenticate;
    var u := HandleFeatures(c, s, offered);
    assert Alike(u, u);
    SendsAlike(c, s, t, u, u);
  }

  lemma AnswerSends(c: Config, s: State, context: Context, reply: Reply)
    ensures Sends(c, s, HandleAnswer(c, s, context, reply))
  {
    var bound, refused, accepted := s.(resourceBound := true), s.(authed := false), s.(authed := true);
    var u := HandleAnswer(c, s, context, reply);
    TrackedSends(c, bound, SessionRequest, SessionContext);
    FinishSends(c, bound);
    FinishSends(c, s);
    FinishSends(c, accepted);
    DisconnectSends(c, refused, false);
    TrackedSends(c, s, LoginData, LoginSent);
    SendsNothing(c, s, s);
    assert Alike(s, bound) && Alike(s, refused) && Alike(s, accepted) && Alike(u, u);
    hide Sends, Alike, SendTracked, Finish, Disconnect;
    if Sends(c, bound, u) { SendsAlike(c, s, bound, u, u); }
    if Sends(c, refused, u) { SendsAlike(c, s, refused, u, u); }
    if Sends(c, accepted, u) { SendsAlike(c, s, accepted, u, u); }
  }

  lemma UnparsableSends(c: Config, s: State)
    ensures Sends(c, s, Disconnect(c, Send(c, s, StreamError), false))
  {
    var t := Send(c, s, StreamError);
    SendSends(c, s, StreamError);
    hide Send, Sends, Disconnect;
    DisconnectSends(c, t, false);
    SendsBoth(c, s, t, Disconnect(c, t, false));
  }

  /** The layers after a step, and those of what it sends. */
  predicate StepLayered(c: Config, s: State, e: Event, t: State) {
    && t.compressionActive == (!EndsAt(s, e, t) && (s.compressionActive || e == Compressed))
    && t.encryptionActive == (!EndsAt(s, e, t) && (s.encryptionActive || (c.encryption && e == Proceed)))
    && AddsIn(s, t, c.compression && (s.compressionActive || e == Compressed), c.encryption && s.encryptionActive)
  }

  lemma SendsLayered(c: Config, s: State, e: Event, t: State)
    requires Sends(c, s, t) && e != Compressed && e != Proceed && e != TransportDown
    ensures StepLayered(c, s, e, t)
  {
    hide AddsIn;
  }

  lemma StepLayers(c: Config, s: State, e: Event)
    ensures StepLayered(c, s, e, Step(c, s, e))
  {
    match e {
      case TransportUp => UpLayers(c, s);
      case TransportDown => NothingIn(s, Step(c, s, e), c.compression && s.compressionActive, c.encryption && s.encryptionActive);
      case Proceed => NothingIn(s, Step(c, s, e), c.compression && s.compressionActive, c.encryption && s.encryptionActive);
      case Connect => NothingIn(s, Step(c, s, e), c.compression && s.compressionActive, c.encryption && s.encryptionActive);
      case Compressed => CompressedLayers(c, s);
      case Unparsable =>
        UnparsableSends(c, s);
        SendsLayered(c, s, e, Step(c, s, e));
      case Offer(offered) =>
        OfferSends(c, s, offered);
        SendsLayered(c, s, e, Step(c, s, e));
      case Answer(context, reply) =>
        AnsweredSends(c, s, context, reply);
        SendsLayered(c, s, e, Step(c, s, e));
      case _ =>
        OtherSends(c, s, e);
        SendsLayered(c, s, e, Step(c, s, e));
    }
    hide AddsIn, Sends, Send, Disconnect, HandleFeatures, HandleAnswer, Layers, Payload;
  }

  lemma NothingIn(s: State, t: State, d: bool, z: bool)
    requires t.wire == s.wire
    ensures AddsIn(s, t, d, z)
  {
    hide Layers, Payload;
  }

  lemma UpLayers(c: Config, s: State)
    ensures StepLayered(c, s, TransportUp, Step(c, s, TransportUp))
  {
    SendSends(c, s.(conn := Connected), Header);
    hide Send, Layers, Payload;
  }

  lemma CompressedLayers(c: Config, s: State)
    ensures StepLayered(c, s, Compressed, Step(c, s, Compressed))
  {
    SendSends(c, s.(compressionActive := true), Header);
    hide Send, Layers, Payload;
  }

  lemma AnsweredSends(c: Config, s: State, context: Context, reply: Reply)
    ensures Sends(c, s, Step(c, s, Answer(context, reply)))
  {
    var t := s.(pending := s.pending - multiset{context});
    var u := HandleAnswer(c, t, context, reply);
    AnswerSends(c, t, context, reply);
    SendsNothing(c, s, s);
    hide Sends, HandleAnswer;
    SendsAlike(c, s, t, u, u);
  }

  lemma OtherSends(c: Config, s: State, e: Event)
    requires e.Close? || e.StreamOpened? || e.StreamClosed? || e.Handshake? || e.TlsFailure? || e.OtherFailure?
      || e.Challenge? || e.Success?
    ensures Sends(c, s, Step(c, s, e))
  {
    var t := s.(authed := true);
    DisconnectSends(c, s, false);
    DisconnectSends(c, s, true);
    SendSends(c, s, Header);
    SendSends(c, s, Response(true));
    SendSends(c, s, Response(false));
    SendSends(c, t, Header);
    SendsNothing(c, s, s);
    hide Sends, Send, Disconnect;
    SendsAlike(c, s, t, Send(c, t, Header), Send(c, t, Header));
  }

  // ---- all runs ----

  /** Over every run from the start, in whatever order events come: the compression is in use exactly if
      a <compressed/> has come since the last connection ended, and the encryption, where there is one,
      if a <proceed/> has. */
  lemma {:induction false} ActiveIff(c: Config, events: seq<Event>)
    ensures
      var s := Run(c, INITIAL, events);
      && (s.compressionActive <==> Since(c, events, Compressed))
      && (s.encryptionActive <==> c.encryption && Since(c, events, Proceed))
    decreases |events|
  {
    if events != [] {
      var n := |events| - 1;
      ActiveIff(c, events[..n]);
      RunLast(c, INITIAL, events);
      StepLayers(c, Run(c, INITIAL, events[..n]), events[n]);
      hide Run, Step, AddsIn;
    }
  }

  /** Whatever the next event makes the client send is deflated exactly if there is a compression and a
      <compressed/> has come since the last connection ended, that event included; and sealed exactly
      if there is an encryption and a <proceed/> has come. */
  lemma LayersExact(c: Config, events: seq<Event>, e: Event)
    ensures
      var s := Run(c, INITIAL, events);
      AddsIn(s, Step(c, s, e), c.compression && (Since(c, events, Compressed) || e == Compressed),
             c.encryption && Since(c, events, Proceed))
  {
    ActiveIff(c, events);
    StepLayers(c, Run(c, INITIAL, events), e);
    hide Run, Step, AddsIn, Since;
  }

  // ---- connections that come up ----

  /** A <proceed/> or a <compressed/> comes over a connection. */
  predicate Orderly(c: Config, events: seq<Event>)
    decreases |events|
  {
    events == []
    || (var before, last := events[..|events| - 1], events[|events| - 1];
        && (last == Proceed || last == Compressed ==> Run(c, INITIAL, before).conn == Connected)
        && Orderly(c, before))
  }

  lemma StepFresh(c: Config, s: State, e: Event)
    requires s.conn != Connected ==> !s.compressionActive && !s.encryptionActive
    requires e == Proceed || e == Compressed ==> s.conn == Connected
    ensures
      var t := Step(c, s, e);
      t.conn != Connected ==> !t.compressionActive && !t.encryptionActive
  {
    StepLayers(c, s, e);
    StepConn(c, s, e);
    hide Step, AddsIn;
  }

  /** A connection stays what it is, comes up in two steps, or ends. */
  lemma StepConn(c: Config, s: State, e: Event)
    ensures
      var t := Step(c, s, e);
      || t.conn == s.conn
      || t.conn == Disconnected
      || (t.conn == Connecting && s.conn == Disconnected)
      || (t.conn == Connected && s.conn == Connecting)
  {
    if e.Unparsable? {
      UnparsableSends(c, s);
    } else if e.Offer? {
      OfferSends(c, s, e.offered);
    } else if e.Answer? {
      AnsweredSends(c, s, e.context, e.reply);
    } else if e == Compressed {
      SendSends(c, s.(compressionActive := true), Header);
    } else if e == TransportUp {
      SendSends(c, s.(conn := Connected), Header);
    } else if e != Connect && e != TransportDown && e != Proceed {
      OtherSends(c, s, e);
    }
    hide AddsIn, Send, Disconnect, HandleFeatures, HandleAnswer;
  }

  /** Then a client without a connection uses no layer. */
  lemma {:induction false} FreshIfOrderly(c: Config, events: seq<Event>)
    requires Orderly(c, events)
    ensures
      var s := Run(c, INITIAL, events);
      s.conn != Connected ==> !s.compressionActive && !s.encryptionActive
    decreases |events|
  {
    if events != [] {
      var n := |events| - 1;
      FreshIfOrderly(c, events[..n]);
      RunLast(c, INITIAL, events);
      StepFresh(c, Run(c, INITIAL, events[..n]), events[n]);
      hide Run, Step;
    }
  }

  /** A connection that comes up gets the header, in the clear exactly if no layer is left over; with
      orderly events there is none. */
  lemma FirstHeader(c: Config, events: seq<Event>)
    requires Run(c, INITIAL, events).conn == Connecting
    ensures
      var s := Run(c, INITIAL, events);
      var t := Step(c, s, TransportUp);
      && (t.wire == s.wire + [Clear(Header)] <==>
            !(c.compression && Since(c, events, Compressed)) && !(c.encryption && Since(c, events, Proceed)))
      && (Orderly(c, events) ==> t.wire == s.wire + [Clear(Header)])
  {
    ActiveIff(c, events);
    var s := Run(c, INITIAL, events);
    if Orderly(c, events) {
      FreshIfOrderly(c, events);
    }
    hide Run, Since, Orderly;
    HeaderSent(c, s);
  }

  lemma HeaderSent(c: Config, s: State)
    requires s.conn == Connecting
    ensures
      Step(c, s, TransportUp).wire ==
        s.wire + [Layers(c.compression && s.compressionActive, c.encryption && s.encryptionActive, Header)]
    ensures Step(c, s, TransportUp).wire == s.wire + [Clear(Header)] <==>
      !(c.compression && s.compressionActive) && !(c.encryption && s.encryptionActive)
  {
    var d := Layers(c.compression && s.compressionActive, c.encryption && s.encryptionActive, Header);
    assert (s.wire + [d])[|s.wire|] == d && (s.wire + [Clear(Header)])[|s.wire|] == Clear(Header);
  }

  /** A <compressed/> behind the stream error that ended the connection, in the same data: the next
      connection opens with a deflated header. */
  lemma LateCompression(c: Config)
    requires c.compression
    ensures
      var events := [Connect, TransportUp, StreamClosed] + [Compressed, Connect, TransportUp];
      Run(c, INITIAL, events).wire == [Clear(Header), Clear(StreamEnd), Deflated(Clear(Header))]
  {
    var a := INITIAL.(wire := [Clear(Header), Clear(StreamEnd)]);
    RunAppend(c, INITIAL, [Connect, TransportUp, StreamClosed], [Compressed, Connect, TransportUp]);
    RunThree(c, INITIAL, Connect, TransportUp, StreamClosed);
    LateFirst(c);
    RunThree(c, a, Compressed, Connect, TransportUp);
    hide Run;
  }

  lemma LateFirst(c: Config)
    ensures Step(c, Step(c, Step(c, INITIAL, Connect), TransportUp), StreamClosed) ==
      INITIAL.(wire := [Clear(Header), Clear(StreamEnd)])
  {
  }
}
