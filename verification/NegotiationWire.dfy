/** What one step of the negotiation adds to the wire, and in which layers. */
module NegotiationWire {
  import opened Text
  import opened Negotiation

  // ---- what a step adds to the wire ----

  /** The element at the bottom. */
  function Payload(d: Data): Element {
    match d case Clear(e) => e case Deflated(i) => Payload(i) case Sealed(i) => Payload(i)
  }

  /** A login, or what the client negotiates after securing the stream. */
  predicate IsLogin(e: Element) {
    e.Auth? || e == LoginQuery || e == BindRequest || e == Compress
  }

  /** At most two layers, and the encryption outside the compression. */
  predicate Ordered(d: Data) {
    var inner := if d.Sealed? then d.inner else d;
    inner.Clear? || (inner.Deflated? && inner.inner.Clear?)
  }

  /** What may go out unsealed: logins; the answer to a login query, which holds the password; and the
      response to a challenge, which holds a hash of it. */
  datatype Exempt = Exempt(logins: bool, passwords: bool, digests: bool)

  const NOTHING := Exempt(false, false, false)

  predicate Exempted(x: Exempt, e: Element) {
    (IsLogin(e) ==> x.logins) && (e == LoginData ==> x.passwords) && (e == Response(true) ==> x.digests)
  }

  /** `Send` may add the element: it is exempt, or sealed, or does not leave. */
  predicate MaySend(c: Config, s: State, x: Exempt, e: Element) {
    Exempted(x, e) || Sealing(c, s) || s.conn != Connected
  }

  predicate Fine(d: Data, x: Exempt, seal: bool) {
    Ordered(d) && (seal ==> d.Sealed?) && (d.Sealed? || Exempted(x, Payload(d)))
  }

  /** t adds to the wire of s: layers in order; only sealed data if `seal`; and
      unsealed only what is exempt. */
  predicate Adds(s: State, t: State, x: Exempt, seal: bool) {
    && |s.wire| <= |t.wire| && t.wire[..|s.wire|] == s.wire
    && forall i | |s.wire| <= i < |t.wire| :: Fine(t.wire[i], x, seal)
  }

  predicate Sealing(c: Config, s: State) {
    c.encryption && s.encryptionActive
  }

  predicate Valid(c: Config, s: State) {
    s.encryptionActive ==> c.encryption
  }

  /** Stream features do not lead to a login in the clear: the stream is encrypted, or it has to be,
      or it can be and will be. */
  predicate Protected(c: Config, s: State, offered: Features) {
    s.encryptionActive || c.tls == TlsRequired || (c.tls == TlsOptional && c.encryption && offered.startTls)
  }

  lemma Harmless(x: Exempt)
    ensures forall e | e in {Header, StreamEnd, StreamError, StartTls, Response(false), SessionRequest, RosterQuery, PresenceStanza} :: Exempted(x, e)
    ensures x.logins ==> Exempted(x, LoginQuery) && Exempted(x, BindRequest) && Exempted(x, Compress) && forall m :: Exempted(x, Auth(m))
    ensures x.passwords ==> Exempted(x, LoginData)
    ensures x.digests ==> Exempted(x, Response(true))
  {
  }

  lemma LayeredFine(c: Config, s: State, e: Element, x: Exempt)
    requires Exempted(x, e) || Sealing(c, s)
    ensures Fine(Layered(c, s, e), x, Sealing(c, s))
  {
    var d := if c.compression && s.compressionActive then Deflated(Clear(e)) else Clear(e);
    assert Payload(Deflated(Clear(e))) == Payload(Clear(e)) == e;
    assert Payload(Sealed(d)) == Payload(d) == e;
    assert Ordered(d) && Ordered(Sealed(d));
    hide Payload, Ordered;
  }

  lemma SendAdds(c: Config, s: State, e: Element, x: Exempt)
    requires MaySend(c, s, x, e)
    ensures Adds(s, Send(c, s, e), x, Sealing(c, s))
    ensures Send(c, s, e) == s.(wire := Send(c, s, e).wire)
  {
    if s.conn == Connected {
      LayeredFine(c, s, e, x);
    }
    hide Layered, Fine;
    var t := Send(c, s, e);
    assert t.wire[..|s.wire|] == s.wire;
    assert forall i | |s.wire| <= i < |t.wire| :: t.wire[i] == Layered(c, s, e);
  }

  lemma AddsBoth(s: State, t: State, u: State, x: Exempt, seal: bool)
    requires Adds(s, t, x, seal) && Adds(t, u, x, seal)
    ensures Adds(s, u, x, seal)
  {
    hide Fine;
    forall i | |s.wire| <= i < |u.wire|
      ensures Fine(u.wire[i], x, seal)
    {
      if i < |t.wire| {
        assert u.wire[i] == u.wire[..|t.wire|][i] == t.wire[i];
      }
    }
    assert u.wire[..|s.wire|] == u.wire[..|t.wire|][..|s.wire|];
  }

  /** Only the wire counts. */
  lemma SameWire(s: State, t: State, u: State, v: State, x: Exempt, seal: bool)
    requires s.wire == u.wire && t.wire == v.wire && Adds(s, t, x, seal)
    ensures Adds(u, v, x, seal)
  {
  }

  lemma Nothing(s: State, t: State, x: Exempt, seal: bool)
    requires s.wire == t.wire
    ensures Adds(s, t, x, seal)
  {
  }

  lemma DisconnectAdds(c: Config, s: State, tlsFailed: bool, x: Exempt)
    ensures Adds(s, Disconnect(c, s, tlsFailed), x, Sealing(c, s))
    ensures !Disconnect(c, s, tlsFailed).encryptionActive || Disconnect(c, s, tlsFailed).encryptionActive == s.encryptionActive
  {
    Harmless(x);
    hide Exempted;
    var t := Reset(s);
    SendAdds(c, t, StreamEnd, x);
    hide Send, Fine;
  }

  lemma FinishAdds(c: Config, s: State, x: Exempt)
    ensures Adds(s, Finish(c, s), x, Sealing(c, s))
    ensures Finish(c, s).encryptionActive == s.encryptionActive
  {
    Harmless(x);
    hide Exempted;
    SendAdds(c, s, RosterQuery, x);
    SendAdds(c, s, PresenceStanza, x);
    hide Send, Fine;
  }

  lemma TrackedAdds(c: Config, s: State, e: Element, context: Context, x: Exempt)
    requires MaySend(c, s, x, e)
    ensures Adds(s, SendTracked(c, s, e, context), x, Sealing(c, s))
    ensures SendTracked(c, s, e, context).encryptionActive == s.encryptionActive
  {
    SendAdds(c, s.(pending := s.pending + multiset{context}), e, x);
    hide Send, Fine;
  }

  lemma SaslAdds(c: Config, s: State, m: Mechanism, x: Exempt)
    requires x.logins || Sealing(c, s)
    ensures Adds(s, StartSasl(c, s, m), x, Sealing(c, s))
    ensures StartSasl(c, s, m).encryptionActive == s.encryptionActive
  {
    Harmless(x);
    hide Exempted;
    SendAdds(c, s.(selected := Some(m)), Auth(m), x);
    hide Send, Fine;
  }

  lemma AuthenticateAdds(c: Config, s: State, x: Exempt)
    requires x.logins || Sealing(c, s)
    ensures Adds(s, Authenticate(c, s), x, Sealing(c, s))
    ensures Authenticate(c, s).encryptionActive ==> s.encryptionActive
  {
    Harmless(x);
    hide Exempted;
    TrackedAdds(c, s, BindRequest, BindContext, x);
    TrackedAdds(c, s, LoginQuery, LoginFields, x);
    SaslAdds(c, s, DigestMd5, x);
    SaslAdds(c, s, Plain, x);
    SaslAdds(c, s, External, x);
    SaslAdds(c, s, Anonymous, x);
    DisconnectAdds(c, s, false, x);
    FinishAdds(c, s, x);
    Nothing(s, s, x, Sealing(c, s));
    hide SendTracked, StartSasl, Disconnect, Finish, Adds, Usable;
  }

  lemma FeaturesAdds(c: Config, s: State, offered: Features)
    requires Valid(c, s)
    ensures Adds(s, HandleFeatures(c, s, offered), Exempt(!Protected(c, s, offered), false, false), Sealing(c, s))
    ensures HandleFeatures(c, s, offered).encryptionActive ==> s.encryptionActive
  {
    Harmless(Exempt(!Protected(c, s, offered), false, false));
    hide Exempted;
    var t := s.(features := StreamFeatures(offered));
    var x := Exempt(!Protected(c, s, offered), false, false);
    Nothing(s, t, x, Sealing(c, s));
    DisconnectAdds(c, t, false, x);
    SendAdds(c, t, StartTls, x);
    FeaturesBranches(c, s, offered);
    if x.logins || Sealing(c, s) {
      SendAdds(c, t, Compress, x);
      AuthenticateAdds(c, t, x);
      TrackedAdds(c, t, LoginQuery, LoginFields, x);
    }
    var u := HandleFeatures(c, s, offered);
    hide Send, SendTracked, Authenticate, Disconnect, Adds, Protected, StreamFeatures, HandleFeatures;
    SameWire(t, u, s, u, x, Sealing(c, s));
  }

  /** Past the first two branches, the stream is encrypted or does not have to be. */
  lemma FeaturesBranches(c: Config, s: State, offered: Features)
    requires Valid(c, s)
    ensures
      var t, u := s.(features := StreamFeatures(offered)), HandleFeatures(c, s, offered);
      || u == Disconnect(c, t, false) || u == Send(c, t, StartTls)
      || ((!Protected(c, s, offered) || Sealing(c, s))
          && (u == Send(c, t, Compress) || u == Authenticate(c, t) || u == SendTracked(c, t, LoginQuery, LoginFields)))
  {
    hide Send, SendTracked, Authenticate, Disconnect;
  }

  lemma AnswerAdds(c: Config, s: State, context: Context, reply: Reply, x: Exempt)
    requires context == LoginFields && reply == Result(true) ==> MaySend(c, s, x, LoginData)
    ensures Adds(s, HandleAnswer(c, s, context, reply), x, Sealing(c, s))
    ensures HandleAnswer(c, s, context, reply).encryptionActive ==> s.encryptionActive
  {
    Harmless(x);
    hide Exempted;
    Nothing(s, s, x, Sealing(c, s));
    FinishAdds(c, s, x);
    BoundAdds(c, s, x);
    LoginAnswerAdds(c, s, x);
    if context == LoginFields && reply == Result(true) {
      TrackedAdds(c, s, LoginData, LoginSent, x);
    }
    hide SendTracked, Disconnect, Finish, Adds;
  }

  lemma BoundAdds(c: Config, s: State, x: Exempt)
    ensures
      var t := s.(resourceBound := true);
      && Adds(s, SendTracked(c, t, SessionRequest, SessionContext), x, Sealing(c, s))
      && Adds(s, Finish(c, t), x, Sealing(c, s))
      && (SendTracked(c, t, SessionRequest, SessionContext).encryptionActive || Finish(c, t).encryptionActive ==> s.encryptionActive)
  {
    Harmless(x);
    hide Exempted;
    var t := s.(resourceBound := true);
    TrackedAdds(c, t, SessionRequest, SessionContext, x);
    FinishAdds(c, t, x);
    hide SendTracked, Finish, Fine;
  }

  lemma LoginAnswerAdds(c: Config, s: State, x: Exempt)
    ensures Adds(s, Disconnect(c, s.(authed := false), false), x, Sealing(c, s))
    ensures Disconnect(c, s.(authed := false), false).encryptionActive ==> s.encryptionActive
    ensures Adds(s, Finish(c, s.(authed := true)), x, Sealing(c, s))
    ensures Finish(c, s.(authed := true)).encryptionActive ==> s.encryptionActive
  {
    DisconnectAdds(c, s.(authed := false), false, x);
    FinishAdds(c, s.(authed := true), x);
    hide Disconnect, Finish, Fine;
  }

  // ---- one step ----

  /** The password goes out in the clear: a login query is answered while connected without
      encryption. */
  predicate PasswordInClear(s: State, e: Event) {
    && s.conn == Connected && !s.encryptionActive
    && LoginFields in s.pending && e == Answer(LoginFields, Result(true))
  }

  /** A hash of it does: a DIGEST-MD5 challenge comes while connected without encryption. */
  predicate DigestInClear(s: State, e: Event) {
    && s.conn == Connected && !s.encryptionActive
    && s.selected == Some(DigestMd5) && e == Challenge(true, false)
  }

  /** What a step can send in the clear. */
  function Exempts(c: Config, s: State, e: Event): Exempt {
    Exempt(e.Offer? && !Protected(c, s, e.offered), PasswordInClear(s, e), DigestInClear(s, e))
  }

  /** Events of the connection. */
  lemma ConnectionAdds(c: Config, s: State, e: Event, x: Exempt)
    requires Valid(c, s) && (e.Connect? || e.TransportUp? || e.TransportDown? || e.Proceed?)
    ensures Adds(s, Step(c, s, e), x, Sealing(c, s)) && Valid(c, Step(c, s, e))
  {
    if e.TransportUp? {
      var t := s.(conn := Connected);
      Harmless(x);
      SendAdds(c, t, Header, x);
      hide Send, Fine, Exempted;
    } else {
      Nothing(s, Step(c, s, e), x, Sealing(c, s));
    }
  }

  /** Events that end the stream, or may. */
  lemma EndAdds(c: Config, s: State, e: Event, x: Exempt)
    requires Valid(c, s)
    requires e.Close? || e.StreamOpened? || e.StreamClosed? || e.TlsFailure? || e.OtherFailure?
    ensures Adds(s, Step(c, s, e), x, Sealing(c, s)) && Valid(c, Step(c, s, e))
  {
    Nothing(s, s, x, Sealing(c, s));
    DisconnectAdds(c, s, false, x);
    DisconnectAdds(c, s, true, x);
    hide Disconnect, Adds;
  }

  lemma UnparsableAdds(c: Config, s: State, x: Exempt)
    requires Valid(c, s)
    ensures Adds(s, Step(c, s, Unparsable), x, Sealing(c, s)) && Valid(c, Step(c, s, Unparsable))
  {
    Harmless(x);
    hide Exempted;
    var t := Send(c, s, StreamError);
    SendAdds(c, s, StreamError, x);
    DisconnectAdds(c, t, false, x);
    hide Send, Disconnect, Adds;
    AddsBoth(s, t, Disconnect(c, t, false), x, Sealing(c, s));
  }

  lemma HandshakeAdds(c: Config, s: State, accepted: bool, x: Exempt)
    requires Valid(c, s)
    ensures Adds(s, Step(c, s, Handshake(accepted)), x, Sealing(c, s)) && Valid(c, Step(c, s, Handshake(accepted)))
  {
    Harmless(x);
    hide Exempted;
    SendAdds(c, s, Header, x);
    DisconnectAdds(c, s, true, x);
    hide Send, Disconnect, Adds;
  }

  lemma HeaderAdds(c: Config, s: State, e: Event, x: Exempt)
    requires Valid(c, s) && (e.Compressed? || e.Success?)
    ensures Adds(s, Step(c, s, e), x, Sealing(c, s)) && Valid(c, Step(c, s, e))
  {
    Harmless(x);
    hide Exempted;
    SendAdds(c, s.(compressionActive := true), Header, x);
    SendAdds(c, s.(authed := true), Header, x);
    hide Send, Fine;
  }

  lemma ChallengeAdds(c: Config, s: State, complete: bool, last: bool)
    requires Valid(c, s)
    ensures
      var e := Challenge(complete, last);
      Adds(s, Step(c, s, e), Exempts(c, s, e), Sealing(c, s)) && Valid(c, Step(c, s, e))
  {
    var x := Exempts(c, s, Challenge(complete, last));
    Harmless(x);
    Nothing(s, s, x, Sealing(c, s));
    if s.selected != Some(DigestMd5) || last {
      hide Exempted;
      SendAdds(c, s, Response(false), x);
    } else if complete {
      hide Exempted;
      SendAdds(c, s, Response(true), x);
    }
    hide Send, Adds;
  }

  lemma AnswerStepAdds(c: Config, s: State, context: Context, reply: Reply)
    requires Valid(c, s)
    ensures
      var e := Answer(context, reply);
      Adds(s, Step(c, s, e), Exempts(c, s, e), Sealing(c, s)) && Valid(c, Step(c, s, e))
  {
    var x := Exempts(c, s, Answer(context, reply));
    Harmless(x);
    Nothing(s, s, x, Sealing(c, s));
    hide Exempted;
    if context in s.pending {
      var t := s.(pending := s.pending - multiset{context});
      AnswerAdds(c, t, context, reply, x);
      SameWire(t, HandleAnswer(c, t, context, reply), s, HandleAnswer(c, t, context, reply), x, Sealing(c, s));
    }
    hide HandleAnswer, Adds;
  }

  /** Everything that one step does to the wire. */
  lemma StepAdds(c: Config, s: State, e: Event)
    requires Valid(c, s)
    ensures Adds(s, Step(c, s, e), Exempts(c, s, e), Sealing(c, s))
    ensures Valid(c, Step(c, s, e))
  {
    var x := Exempts(c, s, e);
    hide Adds, Exempts;
    match e {
      case Unparsable => UnparsableAdds(c, s, x);
      case Offer(offered) => OfferAdds(c, s, offered);
      case Handshake(accepted) => HandshakeAdds(c, s, accepted, x);
      case Compressed => HeaderAdds(c, s, e, x);
      case Success => HeaderAdds(c, s, e, x);
      case Challenge(complete, last) => ChallengeAdds(c, s, complete, last);
      case Answer(context, reply) => AnswerStepAdds(c, s, context, reply);
      case Connect => ConnectionAdds(c, s, e, x);
      case TransportUp => ConnectionAdds(c, s, e, x);
      case TransportDown => ConnectionAdds(c, s, e, x);
      case Proceed => ConnectionAdds(c, s, e, x);
      case _ => EndAdds(c, s, e, x);
    }
    hide Step, Valid;
  }

  lemma OfferAdds(c: Config, s: State, offered: Features)
    requires Valid(c, s)
    ensures
      var e := Offer(offered);
      Adds(s, Step(c, s, e), Exempts(c, s, e), Sealing(c, s)) && Valid(c, Step(c, s, e))
  {
    FeaturesAdds(c, s, offered);
    hide HandleFeatures, Adds;
  }

  /** Where a step can send the password, or a hash of it, in the clear, it does. */
  lemma StepLeaks(c: Config, s: State, e: Event)
    requires PasswordInClear(s, e) || DigestInClear(s, e)
    ensures
      var t := Step(c, s, e);
      && |t.wire| == |s.wire| + 1 && !t.wire[|s.wire|].Sealed?
      && Payload(t.wire[|s.wire|]) == if PasswordInClear(s, e) then LoginData else Response(true)
  {
    LayersOf(c, s, LoginData);
    LayersOf(c, s, Response(true));
    var t := s.(pending := s.pending - multiset{LoginFields});
    assert Layered(c, t, LoginData) == Layered(c, s, LoginData);
    assert Layered(c, t.(pending := t.pending + multiset{LoginSent}), LoginData) == Layered(c, s, LoginData);
    hide Layered, Payload;
  }

  lemma LayersOf(c: Config, s: State, e: Element)
    ensures Payload(Layered(c, s, e)) == e
    ensures Layered(c, s, e).Sealed? <==> Sealing(c, s)
  {
    var d := if c.compression && s.compressionActive then Deflated(Clear(e)) else Clear(e);
    assert Payload(Deflated(Clear(e))) == Payload(Clear(e)) == e;
    assert Payload(Sealed(d)) == Payload(d) == e;
  }
}
