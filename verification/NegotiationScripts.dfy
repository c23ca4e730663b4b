/** Whole negotiations: with a server that cooperates, and over two connections. */
module NegotiationScripts {
  import opened Text
  import opened Negotiation
  import opened NegotiationWire
  import opened NegotiationRuns

  // ---- a whole negotiation ----

  lemma {:induction false} RunAppend(c: Config, s: State, a: seq<Event>, b: seq<Event>)
    ensures Run(c, s, a + b) == Run(c, Run(c, s, a), b)
    decreases |a|
  {
    if a == [] {
      assert a + b == b;
    } else {
      assert (a + b)[1..] == a[1..] + b;
      hide Step;
      RunAppend(c, Step(c, s, a[0]), a[1..], b);
    }
  }

  lemma RunThree(c: Config, s: State, a: Event, b: Event, d: Event)
    ensures Run(c, s, [a, b, d]) == Step(c, Step(c, Step(c, s, a), b), d)
  {
    hide Step;
    var t := Step(c, s, a);
    assert [a, b, d][1..] == [b, d] && [b, d][1..] == [d] && [d][1..] == [];
    assert Run(c, s, [a, b, d]) == Run(c, t, [b, d]);
    assert Run(c, t, [b, d]) == Run(c, Step(c, t, b), [d]);
    assert Run(c, Step(c, t, b), [d]) == Run(c, Step(c, Step(c, t, b), d), []);
  }

  /** What a cooperating server sends: STARTTLS, then a mechanism, then binding and a session. */
  function Securing(first: Features): seq<Event> { [Connect, TransportUp, Offer(first)] + [Proceed, Handshake(true), StreamOpened(true)] }
  function Authenticating(second: Features): seq<Event> { [Offer(second), Challenge(true, false), Success] }
  function Binding(third: Features): seq<Event> { [Offer(third), Answer(BindContext, Result(true)), Answer(SessionContext, Result(true))] }

  predicate CanSecure(c: Config, first: Features) {
    c.tls != TlsDisabled && c.encryption && first.startTls
  }

  predicate CanLogIn(c: Config, second: Features, m: Mechanism) {
    && c.sasl && c.credentials && !c.forceNonSasl && !(c.compress && c.compression)
    && (m == DigestMd5 || (m == Plain && !(DigestMd5 in second.mechanisms && DigestMd5 in c.allowed)))
    && m in second.mechanisms && m in c.allowed
  }

  lemma Secured(c: Config, first: Features)
    requires CanSecure(c, first)
    ensures Run(c, INITIAL, Securing(first)) ==
      INITIAL.(conn := Connected, encryptionActive := true, features := first,
               wire := [Clear(Header), Clear(StartTls), Sealed(Clear(Header))])
  {
    RunAppend(c, INITIAL, [Connect, TransportUp, Offer(first)], [Proceed, Handshake(true), StreamOpened(true)]);
    RunThree(c, INITIAL, Connect, TransportUp, Offer(first));
    var s := INITIAL.(conn := Connected, features := first, wire := [Clear(Header), Clear(StartTls)]);
    assert Step(c, Step(c, INITIAL, Connect), TransportUp) == INITIAL.(conn := Connected, wire := [Clear(Header)]);
    assert Step(c, INITIAL.(conn := Connected, wire := [Clear(Header)]), Offer(first)) == s;
    RunThree(c, s, Proceed, Handshake(true), StreamOpened(true));
    SecuredLast(c, first);
    hide Run, Step;
  }

  lemma SecuredLast(c: Config, first: Features)
    requires CanSecure(c, first)
    ensures
      var s := INITIAL.(conn := Connected, features := first, wire := [Clear(Header), Clear(StartTls)]);
      Step(c, Step(c, Step(c, s, Proceed), Handshake(true)), StreamOpened(true)) ==
        s.(encryptionActive := true, wire := [Clear(Header), Clear(StartTls), Sealed(Clear(Header))])
  {
  }

  lemma LoggedIn(c: Config, s: State, second: Features, m: Mechanism)
    requires CanLogIn(c, second, m) && Sealing(c, s) && s.conn == Connected && !s.authed && !s.compressionActive
    ensures Run(c, s, Authenticating(second)) ==
      s.(authed := true, features := second, selected := Some(m),
         wire := s.wire + [Sealed(Clear(Auth(m))), Sealed(Clear(Response(m == DigestMd5))), Sealed(Clear(Header))])
  {
    RunThree(c, s, Offer(second), Challenge(true, false), Success);
    var t := s.(features := second, selected := Some(m), wire := s.wire + [Sealed(Clear(Auth(m)))]);
    assert Step(c, s, Offer(second)) == t;
    var u := t.(wire := t.wire + [Sealed(Clear(Response(m == DigestMd5)))]);
    LoggedInLast(c, t, m);
    hide Run, Step, CanLogIn, Sealing;
    assert u.wire + [Sealed(Clear(Header))] == s.wire + [Sealed(Clear(Auth(m))), Sealed(Clear(Response(m == DigestMd5))), Sealed(Clear(Header))];
  }

  lemma LoggedInLast(c: Config, t: State, m: Mechanism)
    requires Sealing(c, t) && t.conn == Connected && !t.compressionActive && t.selected == Some(m)
    ensures
      var u := t.(wire := t.wire + [Sealed(Clear(Response(m == DigestMd5)))]);
      Step(c, Step(c, t, Challenge(true, false)), Success) == u.(authed := true, wire := u.wire + [Sealed(Clear(Header))])
  {
  }

  /** The state after the request of a resource, and after that of a session. */
  function Requested(s: State, third: Features): State {
    s.(features := third, pending := multiset{BindContext}, wire := s.wire + [Sealed(Clear(BindRequest))])
  }

  function Asked(s: State, third: Features): State {
    s.(features := third, resourceBound := true, pending := multiset{SessionContext},
       wire := s.wire + [Sealed(Clear(BindRequest)), Sealed(Clear(SessionRequest))])
  }

  lemma BoundFirst(c: Config, s: State, third: Features)
    requires c.sasl && !(c.compress && c.compression) && third.bind
    requires Sealing(c, s) && s.conn == Connected && s.authed && !s.compressionActive && !s.resourceBound && s.pending == multiset{}
    ensures Step(c, s, Offer(third)) == Requested(s, third)
  {
  }

  lemma BoundSecond(c: Config, s: State, third: Features)
    requires third.session && Sealing(c, s) && s.conn == Connected && !s.compressionActive
    ensures Step(c, Requested(s, third), Answer(BindContext, Result(true))) == Asked(s, third)
  {
    var t := Requested(s, third);
    assert t.pending - multiset{BindContext} == multiset{};
    assert s.wire + [Sealed(Clear(BindRequest))] + [Sealed(Clear(SessionRequest))] == Asked(s, third).wire;
  }

  lemma BoundThird(c: Config, s: State, third: Features)
    requires Sealing(c, s) && s.conn == Connected && s.authed && !s.compressionActive
    ensures
      var t := Step(c, Asked(s, third), Answer(SessionContext, Result(true)));
      && t.conn == Connected && t.authed && t.resourceBound && t.pending == multiset{}
      && t.wire == Asked(s, third).wire + [Sealed(Clear(if c.manageRoster then RosterQuery else PresenceStanza))]
      && (!c.manageRoster ==> t.connects == s.connects + 1)
  {
    assert Asked(s, third).pending - multiset{SessionContext} == multiset{};
  }

  lemma Bound(c: Config, s: State, third: Features)
    requires c.sasl && !(c.compress && c.compression) && third.bind && third.session
    requires Sealing(c, s) && s.conn == Connected && s.authed && !s.compressionActive && !s.resourceBound && s.pending == multiset{}
    ensures
      var t := Run(c, s, Binding(third));
      && t.conn == Connected && t.authed && t.resourceBound && t.pending == multiset{}
      && t.wire == s.wire + [Sealed(Clear(BindRequest)), Sealed(Clear(SessionRequest)),
                             Sealed(Clear(if c.manageRoster then RosterQuery else PresenceStanza))]
      && (!c.manageRoster ==> t.connects == s.connects + 1)
  {
    RunThree(c, s, Offer(third), Answer(BindContext, Result(true)), Answer(SessionContext, Result(true)));
    BoundFirst(c, s, third);
    BoundSecond(c, s, third);
    BoundThird(c, s, third);
    hide Run, Step;
  }

  /** With such a server the client gets all the way, and this is all it sends. */
  lemma WholeNegotiation(c: Config, first: Features, second: Features, third: Features, m: Mechanism)
    requires CanSecure(c, first) && CanLogIn(c, second, m) && third.bind && third.session
    ensures
      var t := Run(c, INITIAL, Securing(first) + Authenticating(second) + Binding(third));
      && t.conn == Connected && t.authed && t.resourceBound && t.pending == multiset{}
      && t.wire ==
           [Clear(Header), Clear(StartTls), Sealed(Clear(Header))]
           + [Sealed(Clear(Auth(m))), Sealed(Clear(Response(m == DigestMd5))), Sealed(Clear(Header))]
           + [Sealed(Clear(BindRequest)), Sealed(Clear(SessionRequest)),
              Sealed(Clear(if c.manageRoster then RosterQuery else PresenceStanza))]
  {
    RunAppend(c, INITIAL, Securing(first) + Authenticating(second), Binding(third));
    RunAppend(c, INITIAL, Securing(first), Authenticating(second));
    Secured(c, first);
    var s := Run(c, INITIAL, Securing(first));
    LoggedIn(c, s, second, m);
    Bound(c, Run(c, s, Authenticating(second)), third);
    hide Run, Securing, Authenticating, Binding;
  }

  // ---- two connections ----

  /** The connection is lost, another one comes up, and e comes before anything else. */
  function Again(offered: Features, e: Event): seq<Event> {
    [Offer(offered), TransportDown, Connect] + [TransportUp, StreamOpened(true), e]
  }

  lemma Reconnected(c: Config, s: State)
    requires s.conn == Connected && !s.compressionActive
    ensures Step(c, Step(c, s, TransportDown), Connect) ==
      s.(conn := Connecting, encryptionActive := false, authed := false, resourceBound := false, features := NO_FEATURES)
  {
  }

  lemma Reopened(c: Config, s: State)
    requires s.conn == Connecting && !s.encryptionActive && !s.compressionActive
    ensures Step(c, Step(c, s, TransportUp), StreamOpened(true)) == s.(conn := Connected, wire := s.wire + [Clear(Header)])
  {
  }

  /** What is left of a login that a lost connection cut short: the mechanism and the query. */
  function Left(s: State, m: Option<Mechanism>, pending: multiset<Context>, sent: Element): State {
    s.(encryptionActive := false, authed := false, resourceBound := false, features := NO_FEATURES,
       selected := m, pending := pending, wire := s.wire + [Sealed(Clear(sent)), Clear(Header)])
  }

  lemma CutShort(c: Config, s: State, offered: Features, e: Event, m: Option<Mechanism>, pending: multiset<Context>, sent: Element)
    requires Sealing(c, s) && s.conn == Connected && !s.compressionActive
    requires Step(c, s, Offer(offered)) ==
      s.(features := StreamFeatures(offered), selected := m, pending := pending, wire := s.wire + [Sealed(Clear(sent))])
    ensures Run(c, s, Again(offered, e)) == Step(c, Left(s, m, pending, sent), e)
  {
    var t := Step(c, s, Offer(offered));
    var u := t.(conn := Connecting, encryptionActive := false, authed := false, resourceBound := false, features := NO_FEATURES);
    Reconnected(c, t);
    Reopened(c, u);
    RunAppend(c, s, [Offer(offered), TransportDown, Connect], [TransportUp, StreamOpened(true), e]);
    RunThree(c, s, Offer(offered), TransportDown, Connect);
    RunThree(c, u, TransportUp, StreamOpened(true), e);
    hide Run, Step, Sealing;
    assert u.wire + [Clear(Header)] == s.wire + [Sealed(Clear(sent)), Clear(Header)];
  }

  lemma MechanismOffered(c: Config, s: State, second: Features)
    requires CanLogIn(c, second, DigestMd5) && Sealing(c, s) && s.conn == Connected && !s.authed && !s.compressionActive
    ensures Step(c, s, Offer(second)) ==
      s.(features := StreamFeatures(second), selected := Some(DigestMd5), wire := s.wire + [Sealed(Clear(Auth(DigestMd5)))])
  {
  }

  lemma NothingOffered(c: Config, s: State)
    requires c.sasl && c.credentials && Sealing(c, s) && s.conn == Connected && !s.authed && !s.compressionActive
    requires s.pending == multiset{}
    ensures Step(c, s, Offer(NO_FEATURES)) ==
      s.(features := StreamFeatures(NO_FEATURES), pending := multiset{LoginFields}, wire := s.wire + [Sealed(Clear(LoginQuery))])
  {
  }

  lemma ClearReply(c: Config, s: State)
    requires !s.encryptionActive && !s.compressionActive && s.conn == Connected
    ensures s.selected == Some(DigestMd5) ==> Step(c, s, Challenge(true, false)).wire == s.wire + [Clear(Response(true))]
    ensures LoginFields in s.pending && c.credentials ==>
      Step(c, s, Answer(LoginFields, Result(true))).wire == s.wire + [Clear(LoginData)]
  {
  }

  /** A mechanism that an earlier connection selected is still selected: a challenge that comes before
      anything else is answered in the clear. */
  lemma StaleMechanism(c: Config, first: Features, second: Features)
    requires CanSecure(c, first) && CanLogIn(c, second, DigestMd5)
    ensures
      Run(c, INITIAL, Securing(first) + Again(second, Challenge(true, false))).wire ==
        [Clear(Header), Clear(StartTls), Sealed(Clear(Header)), Sealed(Clear(Auth(DigestMd5))), Clear(Header), Clear(Response(true))]
  {
    var e := Challenge(true, false);
    RunAppend(c, INITIAL, Securing(first), Again(second, e));
    Secured(c, first);
    var s := Run(c, INITIAL, Securing(first));
    hide Run, Securing, Again, Step, CanSecure, CanLogIn;
    MechanismOffered(c, s, second);
    CutShort(c, s, second, e, Some(DigestMd5), multiset{}, Auth(DigestMd5));
    ClearReply(c, Left(s, Some(DigestMd5), multiset{}, Auth(DigestMd5)));
  }

  /** A login query that an earlier connection sent is still outstanding: its answer, coming before
      anything else, is answered with the password in the clear. */
  lemma StaleQuery(c: Config, first: Features)
    requires CanSecure(c, first) && c.sasl && c.credentials && !(c.compress && c.compression)
    ensures
      Run(c, INITIAL, Securing(first) + Again(NO_FEATURES, Answer(LoginFields, Result(true)))).wire ==
        [Clear(Header), Clear(StartTls), Sealed(Clear(Header)), Sealed(Clear(LoginQuery)), Clear(Header), Clear(LoginData)]
  {
    var e := Answer(LoginFields, Result(true));
    RunAppend(c, INITIAL, Securing(first), Again(NO_FEATURES, e));
    Secured(c, first);
    var s := Run(c, INITIAL, Securing(first));
    hide Run, Securing, Again, Step, CanSecure;
    NothingOffered(c, s);
    CutShort(c, s, NO_FEATURES, e, None, multiset{LoginFields}, LoginQuery);
    ClearReply(c, Left(s, None, multiset{LoginFields}, LoginQuery));
  }
}
