/** From the wire back to its causes: which event makes a connected client send what, and end. */
module NegotiationSends {
  import opened Text
  import opened Negotiation
  import opened NegotiationWire

  // ---- causes ----

  /** The client has to be encrypted and cannot be. */
  predicate Lacks(c: Config, s: State, o: Features) {
    c.tls == TlsRequired && !s.encryptionActive && !(c.encryption && o.startTls)
  }

  predicate Secures(c: Config, s: State, o: Features) {
    c.tls != TlsDisabled && c.encryption && !s.encryptionActive && o.startTls
  }

  predicate Deflates(c: Config, s: State, o: Features) {
    !Lacks(c, s, o) && !Secures(c, s, o) && c.compress && c.compression && !s.compressionActive && o.zlib
  }

  /** No layer is to come. */
  predicate Settles(c: Config, s: State, o: Features) {
    !Lacks(c, s, o) && !Secures(c, s, o) && !Deflates(c, s, o)
  }

  predicate Knows(c: Config, o: Features, m: Mechanism) {
    m in o.mechanisms && m in c.allowed
  }

  /** With a password, the mechanism that hides it before the one that does not; without one, a
      certificate before no name at all. */
  function Choice(c: Config, o: Features): Option<Mechanism> {
    if c.credentials then
      if c.forceNonSasl then None
      else if Knows(c, o, DigestMd5) then Some(DigestMd5)
      else if Knows(c, o, Plain) then Some(Plain)
      else None
    else if c.certificate && Knows(c, o, External) then Some(External)
    else if Knows(c, o, Anonymous) then Some(Anonymous)
    else None
  }

  /** The old login, which a server that offers nothing is taken to offer. */
  predicate OffersOld(o: Features) {
    o.iqAuth || o == NO_FEATURES
  }

  /** The client is to log in, and no mechanism will do. */
  predicate Fallback(c: Config, s: State, o: Features) {
    Settles(c, s, o) && (c.sasl ==> !s.authed && c.credentials && Choice(c, o).None?)
  }

  predicate AsksFields(c: Config, s: State, o: Features) {
    Fallback(c, s, o) && (OffersOld(o) || (c.sasl && c.forceNonSasl))
  }

  /** An answer to a request that is outstanding. */
  predicate Answers(s: State, e: Event, context: Context) {
    e.Answer? && e.context == context && context in s.pending
  }

  /** The session is there, or none is needed. */
  predicate Completes(c: Config, s: State, e: Event) {
    || (Answers(s, e, BindContext) && e.reply == Result(true) && !s.features.session)
    || (Answers(s, e, SessionContext) && e.reply.Result?)
    || (Answers(s, e, LoginSent) && e.reply.Result?)
    || (e.Offer? && Settles(c, s, e.offered) && c.sasl && !s.authed && !c.credentials && Choice(c, e.offered).None?)
  }

  predicate Ends(c: Config, s: State, e: Event) {
    || e == TransportDown || e == Close || e == StreamOpened(false) || e == StreamClosed || e == Unparsable
    || e == Handshake(false) || e == TlsFailure || e == OtherFailure(true)
    || ((Answers(s, e, LoginFields) || Answers(s, e, LoginSent)) && e.reply.Error?)
    || (e.Offer? && (Lacks(c, s, e.offered) || (Fallback(c, s, e.offered) && !AsksFields(c, s, e.offered))))
  }

  // ---- what is added ----

  function Added(s: State, t: State): seq<Element>
    requires |s.wire| <= |t.wire|
  {
    seq(|t.wire| - |s.wire|, i requires 0 <= i < |t.wire| - |s.wire| => Payload(t.wire[|s.wire| + i]))
  }

  /** t adds these elements to s, ends the connection or not, and tells the application that it is
      connected n times. */
  predicate Does(s: State, t: State, added: seq<Element>, ends: bool, n: nat) {
    && s.wire <= t.wire && Added(s, t) == added
    && t.conn == (if ends then Disconnected else s.conn)
    && t.connects == s.connects + n
  }

  lemma SendDoes(c: Config, s: State, e: Element)
    requires s.conn == Connected
    ensures Does(s, Send(c, s, e), [e], false, 0)
  {
    LayersOf(c, s, e);
    hide Layered, Payload;
  }

  lemma NothingDone(s: State, t: State)
    requires t.wire == s.wire && t.conn == s.conn && t.connects == s.connects
    ensures Does(s, t, [], false, 0)
  {
  }

  /** Other fields do not count. */
  lemma SameDone(s: State, r: State, t: State, u: State, added: seq<Element>, ends: bool, n: nat)
    requires r.wire == s.wire && r.conn == s.conn && r.connects == s.connects
    requires u.wire == t.wire && u.conn == t.conn
    requires Does(r, t, added, ends, n)
    ensures Does(s, u, added, ends, n + u.connects - t.connects)
    requires u.connects >= t.connects
  {
    hide Payload;
  }

  lemma DisconnectDoes(c: Config, s: State, tlsFailed: bool)
    requires s.conn == Connected
    ensures Does(s, Disconnect(c, s, tlsFailed), if tlsFailed then [] else [StreamEnd], true, 0)
  {
    SendDoes(c, Reset(s), StreamEnd);
    hide Send, Payload;
  }

  lemma TrackedDoes(c: Config, s: State, e: Element, context: Context)
    requires s.conn == Connected
    ensures Does(s, SendTracked(c, s, e, context), [e], false, 0)
  {
    var t := s.(pending := s.pending + multiset{context});
    SendDoes(c, t, e);
    hide Send, Does;
    SameDone(s, t, Send(c, t, e), Send(c, t, e), [e], false, 0);
  }

  lemma SaslDoes(c: Config, s: State, m: Mechanism)
    requires s.conn == Connected
    ensures Does(s, StartSasl(c, s, m), [Auth(m)], false, 0)
  {
    var t := s.(selected := Some(m));
    SendDoes(c, t, Auth(m));
    hide Send, Does;
    SameDone(s, t, Send(c, t, Auth(m)), Send(c, t, Auth(m)), [Auth(m)], false, 0);
  }

  /** What a client does that has all it needs. */
  predicate DoesFinish(c: Config, s: State, t: State, authed: bool) {
    if !authed then Does(s, t, [], false, 1)
    else if c.manageRoster then Does(s, t, [RosterQuery], false, 0)
    else Does(s, t, [PresenceStanza], false, 1)
  }

  lemma FinishDoes(c: Config, s: State)
    requires s.conn == Connected
    ensures DoesFinish(c, s, Finish(c, s), s.authed)
  {
    var t := Send(c, s, PresenceStanza);
    SendDoes(c, s, RosterQuery);
    SendDoes(c, s, PresenceStanza);
    hide Send, Payload;
    assert Added(s, t.(connects := t.connects + 1)) == Added(s, t);
  }

  // ---- one event ----

  /** What an offer of features leads to. */
  predicate DoesOffer(c: Config, s: State, t: State, o: Features) {
    && (Lacks(c, s, o) ==> Does(s, t, [StreamEnd], true, 0))
    && (Secures(c, s, o) ==> Does(s, t, [StartTls], false, 0))
    && (Deflates(c, s, o) ==> Does(s, t, [Compress], false, 0))
    && (Settles(c, s, o) ==>
          && (AsksFields(c, s, o) ==> Does(s, t, [LoginQuery], false, 0))
          && (Fallback(c, s, o) && !AsksFields(c, s, o) ==> Does(s, t, [StreamEnd], true, 0))
          && (c.sasl && s.authed ==>
                Does(s, t, if o.bind && (o.unbind || !s.resourceBound) then [BindRequest] else [], false, 0))
          && (c.sasl && !s.authed && Choice(c, o).Some? ==> Does(s, t, [Auth(Choice(c, o).value)], false, 0))
          && (c.sasl && !s.authed && !c.credentials && Choice(c, o).None? ==> Does(s, t, [], false, 1)))
  }

  lemma MechanismDoes(c: Config, s: State, o: Features, m: Mechanism)
    requires s.conn == Connected && s.features == StreamFeatures(o)
    ensures Does(s, StartSasl(c, s, m), [Auth(m)], false, 0)
    ensures Usable(c, s, m) == Knows(c, o, m)
  {
    SaslDoes(c, s, m);
    hide Does, StartSasl;
  }

  lemma AuthenticateDoes(c: Config, s: State, o: Features)
    requires s.conn == Connected && s.features == StreamFeatures(o) && c.sasl && Settles(c, s, o)
    ensures DoesOffer(c, s, Authenticate(c, s), o)
  {
    MechanismDoes(c, s, o, DigestMd5);
    MechanismDoes(c, s, o, Plain);
    MechanismDoes(c, s, o, External);
    MechanismDoes(c, s, o, Anonymous);
    TrackedDoes(c, s, BindRequest, BindContext);
    TrackedDoes(c, s, LoginQuery, LoginFields);
    DisconnectDoes(c, s, false);
    FinishDoes(c, s);
    NothingDone(s, s);
    assert s.features.iqAuth == OffersOld(o) && s.features.bind == o.bind && s.features.unbind == o.unbind;
    hide Does, StartSasl, SendTracked, Disconnect, Finish, Lacks, Secures, Deflates, Usable, Knows, OffersOld, StreamFeatures;
  }

  lemma FeaturesDo(c: Config, s: State, t: State, o: Features)
    requires s.conn == Connected && t == s.(features := StreamFeatures(o))
    ensures DoesOffer(c, t, HandleFeatures(c, s, o), o)
  {
    DisconnectDoes(c, t, false);
    SendDoes(c, t, StartTls);
    SendDoes(c, t, Compress);
    TrackedDoes(c, t, LoginQuery, LoginFields);
    if c.sasl && Settles(c, t, o) {
      AuthenticateDoes(c, t, o);
    }
    assert t.features.iqAuth == OffersOld(o) && t.features.startTls == o.startTls && t.features.zlib == o.zlib;
    hide Does, Send, SendTracked, Disconnect, Authenticate, Knows, OffersOld, StreamFeatures;
  }

  lemma OfferDoes(c: Config, s: State, o: Features)
    requires s.conn == Connected
    ensures DoesOffer(c, s, Step(c, s, Offer(o)), o)
  {
    var t := s.(features := StreamFeatures(o));
    FeaturesDo(c, s, t, o);
    hide HandleFeatures, StreamFeatures, DoesOffer;
    OfferSame(c, s, t, HandleFeatures(c, s, o), o);
  }

  lemma OfferSame(c: Config, s: State, t: State, u: State, o: Features)
    requires t == s.(features := t.features) && DoesOffer(c, t, u, o)
    ensures DoesOffer(c, s, u, o)
  {
    forall added: seq<Element>, ends: bool, n: nat | Does(t, u, added, ends, n)
      ensures Does(s, u, added, ends, n)
    {
      SameDone(s, t, u, u, added, ends, n);
    }
    assert Lacks(c, t, o) == Lacks(c, s, o) && Secures(c, t, o) == Secures(c, s, o);
    hide Does, Lacks, Secures, Knows, OffersOld;
  }

  predicate DoesAnswer(c: Config, s: State, t: State, context: Context, reply: Reply) {
    match context
    case BindContext =>
      if reply != Result(true) then Does(s, t, [], false, 0)
      else if s.features.session then Does(s, t, [SessionRequest], false, 0)
      else DoesFinish(c, s, t, s.authed)
    case SessionContext => if reply.Error? then Does(s, t, [], false, 0) else DoesFinish(c, s, t, s.authed)
    case LoginFields =>
      if reply.Error? then Does(s, t, [StreamEnd], true, 0)
      else Does(s, t, if reply.valid then [LoginData] else [], false, 0)
    case LoginSent => if reply.Error? then Does(s, t, [StreamEnd], true, 0) else DoesFinish(c, s, t, true)
  }

  lemma AnswerDoes(c: Config, s: State, context: Context, reply: Reply)
    requires s.conn == Connected
    ensures DoesAnswer(c, s, HandleAnswer(c, s, context, reply), context, reply)
  {
    var bound, refused, accepted := s.(resourceBound := true), s.(authed := false), s.(authed := true);
    var t := HandleAnswer(c, s, context, reply);
    TrackedDoes(c, bound, SessionRequest, SessionContext);
    FinishDoes(c, bound);
    FinishDoes(c, s);
    FinishDoes(c, accepted);
    DisconnectDoes(c, refused, false);
    TrackedDoes(c, s, LoginData, LoginSent);
    NothingDone(s, s);
    forall r: State, added: seq<Element>, ends: bool, n: nat
      | r.wire == s.wire && r.conn == s.conn && r.connects == s.connects && Does(r, t, added, ends, n)
      ensures Does(s, t, added, ends, n)
    {
      SameDone(s, r, t, t, added, ends, n);
    }
    hide Does, SendTracked, Finish, Disconnect;
  }

  lemma AnsweredDoes(c: Config, s: State, context: Context, reply: Reply)
    requires s.conn == Connected
    ensures
      var t := Step(c, s, Answer(context, reply));
      DoesAnswered(c, s, t, context, reply)
  {
    var r := s.(pending := s.pending - multiset{context});
    AnswerDoes(c, r, context, reply);
    NothingDone(s, s);
    StepAnswer(c, s, context, reply);
    hide Does, HandleAnswer, DoesAnswer, Step;
    AnswerSame(c, s, r, HandleAnswer(c, r, context, reply), context, reply);
  }

  lemma StepAnswer(c: Config, s: State, context: Context, reply: Reply)
    ensures Step(c, s, Answer(context, reply)) ==
      if context !in s.pending then s
      else HandleAnswer(c, s.(pending := s.pending - multiset{context}), context, reply)
  {
    hide HandleAnswer;
  }

  lemma AnswerSame(c: Config, s: State, r: State, t: State, context: Context, reply: Reply)
    requires r == s.(pending := r.pending) && DoesAnswer(c, r, t, context, reply)
    ensures DoesAnswer(c, s, t, context, reply)
  {
    forall added: seq<Element>, ends: bool, n: nat | Does(r, t, added, ends, n)
      ensures Does(s, t, added, ends, n)
    {
      SameDone(s, r, t, t, added, ends, n);
    }
    hide Does;
  }

  lemma UnparsableDoes(c: Config, s: State)
    requires s.conn == Connected
    ensures Does(s, Step(c, s, Unparsable), [StreamError, StreamEnd], true, 0)
  {
    var t := Send(c, s, StreamError);
    SendDoes(c, s, StreamError);
    DisconnectDoes(c, t, false);
    hide Send, Disconnect, Payload;
    var u := Disconnect(c, t, false);
    assert Added(s, u) == Added(s, t) + Added(t, u);
  }

  /** All other events. */
  predicate DoesOther(c: Config, s: State, t: State, e: Event) {
    match e
    case Connect => Does(s, t, [], false, 0)
    case TransportUp => Does(s, t, [], false, 0)
    case TransportDown => Does(s, t, [], true, 0)
    case Close => Does(s, t, [StreamEnd], true, 0)
    case StreamOpened(versionOk) => if versionOk then Does(s, t, [], false, 0) else Does(s, t, [StreamEnd], true, 0)
    case StreamClosed => Does(s, t, [StreamEnd], true, 0)
    case Proceed => Does(s, t, [], false, 0)
    case Handshake(accepted) => if accepted then Does(s, t, [Header], false, 0) else Does(s, t, [], true, 0)
    case TlsFailure => Does(s, t, [], true, 0)
    case OtherFailure(known) => if known then Does(s, t, [StreamEnd], true, 0) else Does(s, t, [], false, 0)
    case Compressed => Does(s, t, [Header], false, 0)
    case Challenge(complete, last) =>
      if s.selected == Some(DigestMd5) && !last then
        Does(s, t, if complete then [Response(true)] else [], false, 0)
      else Does(s, t, [Response(false)], false, 0)
    case Success => Does(s, t, [Header], false, 0)
    case _ => true
  }

  lemma OtherDoes(c: Config, s: State, e: Event)
    requires s.conn == Connected && IsOther(e)
    ensures DoesOther(c, s, Step(c, s, e), e)
  {
    var accepted, deflated := s.(authed := true), s.(compressionActive := true);
    DisconnectDoes(c, s, false);
    DisconnectDoes(c, s, true);
    SendDoes(c, s, Header);
    SendDoes(c, s, Response(true));
    SendDoes(c, s, Response(false));
    SendDoes(c, accepted, Header);
    SendDoes(c, deflated, Header);
    NothingDone(s, s);
    NothingDone(s, s.(encryptionActive := true));
    DroppedDoes(s);
    hide Does, Send, Disconnect, Dropped;
    SameDone(s, accepted, Send(c, accepted, Header), Send(c, accepted, Header), [Header], false, 0);
    SameDone(s, deflated, Send(c, deflated, Header), Send(c, deflated, Header), [Header], false, 0);
  }

  lemma DroppedDoes(s: State)
    ensures Does(s, Dropped(s), [], true, 0)
  {
  }

  // ---- from the wire back ----

  /** For a connected client, whatever the event. */
  predicate CausesOf(c: Config, s: State, e: Event, added: seq<Element>) {
    && (StartTls in added <==> e.Offer? && Secures(c, s, e.offered))
    && (Compress in added <==> e.Offer? && Deflates(c, s, e.offered))
    && (forall m: Mechanism :: Auth(m) in added <==>
          e.Offer? && Settles(c, s, e.offered) && c.sasl && !s.authed && Choice(c, e.offered) == Some(m))
    && (LoginQuery in added <==> e.Offer? && AsksFields(c, s, e.offered))
    && (LoginData in added <==> Answers(s, e, LoginFields) && e.reply == Result(true))
    && (BindRequest in added <==>
          && e.Offer? && Settles(c, s, e.offered) && c.sasl && s.authed
          && e.offered.bind && (e.offered.unbind || !s.resourceBound))
    && (SessionRequest in added <==> Answers(s, e, BindContext) && e.reply == Result(true) && s.features.session)
    && (Header in added <==> e == Handshake(true) || e == Compressed || e == Success)
    && (StreamError in added <==> e == Unparsable)
    && (StreamEnd in added <==> Ends(c, s, e) && e != TransportDown && e != Handshake(false) && e != TlsFailure)
    && (Response(true) in added <==> e == Challenge(true, false) && s.selected == Some(DigestMd5))
    && (Response(false) in added <==> e.Challenge? && (e.last || s.selected != Some(DigestMd5)))
  }

  /** A client that has all it needs asks for the roster, or sends its presence, or, if it did not log
      in, nothing; the application is told at once but for the roster. */
  predicate CompletionOf(c: Config, s: State, e: Event, added: seq<Element>, n: int) {
    var authed := s.authed || Answers(s, e, LoginSent);
    && (RosterQuery in added <==> Completes(c, s, e) && authed && c.manageRoster)
    && (PresenceStanza in added <==> Completes(c, s, e) && authed && !c.manageRoster)
    && n == (if Completes(c, s, e) && !(authed && c.manageRoster) then 1 else 0)
  }

  ghost predicate AllCauses(c: Config, s: State, e: Event, t: State) {
    && s.wire <= t.wire
    && CausesOf(c, s, e, Added(s, t))
    && CompletionOf(c, s, e, Added(s, t), t.connects - s.connects)
    && (t.conn == Disconnected <==> Ends(c, s, e))
    && |Added(s, t)| <= 2 && (|Added(s, t)| == 2 ==> e == Unparsable)
  }

  /** The cases exclude each other. */
  lemma OfferCases(c: Config, s: State, o: Features)
    ensures Lacks(c, s, o) ==> !Secures(c, s, o)
    ensures Choice(c, o).Some? ==> !(c.sasl && Fallback(c, s, o))
  {
  }

  predicate Plainly(c: Config, s: State, e: Event, t: State) {
    && s.wire <= t.wire && (t.conn == Disconnected <==> Ends(c, s, e))
    && |Added(s, t)| <= 2 && (|Added(s, t)| == 2 ==> e == Unparsable)
  }

  lemma AllThree(c: Config, s: State, e: Event, t: State)
    requires Plainly(c, s, e, t) && CausesOf(c, s, e, Added(s, t)) && CompletionOf(c, s, e, Added(s, t), t.connects - s.connects)
    ensures AllCauses(c, s, e, t)
  {
    hide Added, CausesOf, CompletionOf, Ends;
  }

  predicate IsOther(e: Event) {
    !e.Offer? && !e.Answer? && !e.Unparsable?
  }

  lemma OtherPlainly(c: Config, s: State, t: State, e: Event)
    requires s.conn == Connected && IsOther(e) && DoesOther(c, s, t, e)
    ensures Plainly(c, s, e, t) && s.wire <= t.wire
  {
    hide Added, Payload;
  }

  lemma OtherSent(c: Config, s: State, t: State, e: Event)
    requires s.conn == Connected && IsOther(e) && DoesOther(c, s, t, e) && s.wire <= t.wire
    ensures CausesOf(c, s, e, Added(s, t))
  {
    hide Added, Payload, Settles, AsksFields, Deflates, Secures, Choice;
  }

  lemma OtherCompletes(c: Config, s: State, t: State, e: Event)
    requires s.conn == Connected && IsOther(e) && DoesOther(c, s, t, e) && s.wire <= t.wire
    ensures CompletionOf(c, s, e, Added(s, t), t.connects - s.connects)
  {
    hide Added, Payload;
  }

  lemma OtherCauses(c: Config, s: State, t: State, e: Event)
    requires s.conn == Connected && IsOther(e) && DoesOther(c, s, t, e)
    ensures AllCauses(c, s, e, t)
  {
    OtherPlainly(c, s, t, e);
    OtherSent(c, s, t, e);
    OtherCompletes(c, s, t, e);
    hide *;
    AllThree(c, s, e, t);
  }

  lemma OfferPlainly(c: Config, s: State, t: State, o: Features)
    requires s.conn == Connected && DoesOffer(c, s, t, o)
    ensures Plainly(c, s, Offer(o), t) && s.wire <= t.wire
  {
    OfferCases(c, s, o);
    hide Added, Knows, OffersOld, Payload;
  }

  lemma OfferSent(c: Config, s: State, t: State, o: Features)
    requires s.conn == Connected && DoesOffer(c, s, t, o) && s.wire <= t.wire
    ensures CausesOf(c, s, Offer(o), Added(s, t))
  {
    OfferCases(c, s, o);
    hide Added, Knows, OffersOld, Payload;
  }

  lemma OfferCompletes(c: Config, s: State, t: State, o: Features)
    requires s.conn == Connected && DoesOffer(c, s, t, o) && s.wire <= t.wire
    ensures CompletionOf(c, s, Offer(o), Added(s, t), t.connects - s.connects)
  {
    OfferCases(c, s, o);
    hide Added, Knows, OffersOld, Payload;
  }

  lemma OfferCauses(c: Config, s: State, t: State, o: Features)
    requires s.conn == Connected && DoesOffer(c, s, t, o)
    ensures AllCauses(c, s, Offer(o), t)
  {
    OfferPlainly(c, s, t, o);
    OfferSent(c, s, t, o);
    OfferCompletes(c, s, t, o);
    hide *;
    AllThree(c, s, Offer(o), t);
  }

  predicate DoesAnswered(c: Config, s: State, t: State, context: Context, reply: Reply) {
    if context in s.pending then DoesAnswer(c, s, t, context, reply) else Does(s, t, [], false, 0)
  }

  lemma AnswerPlainly(c: Config, s: State, t: State, context: Context, reply: Reply)
    requires s.conn == Connected && DoesAnswered(c, s, t, context, reply)
    ensures Plainly(c, s, Answer(context, reply), t) && s.wire <= t.wire
  {
    hide Added, Payload;
  }

  lemma AnswerSent(c: Config, s: State, t: State, context: Context, reply: Reply)
    requires s.conn == Connected && DoesAnswered(c, s, t, context, reply) && s.wire <= t.wire
    ensures CausesOf(c, s, Answer(context, reply), Added(s, t))
  {
    hide Added, Payload, Settles, AsksFields, Deflates, Secures, Choice;
  }

  lemma AnswerCompletes(c: Config, s: State, t: State, context: Context, reply: Reply)
    requires s.conn == Connected && DoesAnswered(c, s, t, context, reply) && s.wire <= t.wire
    ensures CompletionOf(c, s, Answer(context, reply), Added(s, t), t.connects - s.connects)
  {
    hide Added, Payload;
  }

  lemma AnswerCauses(c: Config, s: State, t: State, context: Context, reply: Reply)
    requires s.conn == Connected && DoesAnswered(c, s, t, context, reply)
    ensures AllCauses(c, s, Answer(context, reply), t)
  {
    AnswerPlainly(c, s, t, context, reply);
    AnswerSent(c, s, t, context, reply);
    AnswerCompletes(c, s, t, context, reply);
    hide *;
    AllThree(c, s, Answer(context, reply), t);
  }

  /** Every element that a connected client sends has one of these causes, and every cause that effect. */
  lemma SentIff(c: Config, s: State, e: Event)
    requires s.conn == Connected
    ensures AllCauses(c, s, e, Step(c, s, e))
  {
    var t := Step(c, s, e);
    match e {
      case Offer(o) =>
        OfferDoes(c, s, o);
        OfferCauses(c, s, t, o);
      case Answer(context, reply) =>
        AnsweredDoes(c, s, context, reply);
        AnswerCauses(c, s, t, context, reply);
      case Unparsable =>
        UnparsableDoes(c, s);
        UnparsableCauses(c, s, t);
      case _ =>
        OtherDoes(c, s, e);
        OtherCauses(c, s, t, e);
    }
    hide Step, AllCauses;
  }

  lemma UnparsableCauses(c: Config, s: State, t: State)
    requires s.conn == Connected && Does(s, t, [StreamError, StreamEnd], true, 0)
    ensures AllCauses(c, s, Unparsable, t)
  {
    hide Added, Payload;
  }
}
