/** What every run of the negotiation keeps: no login outside TLS where TLS is required; and exactly
    when the password, or a hash of it, goes out outside TLS. */
module NegotiationRuns {
  import opened Text
  import opened Negotiation
  import opened NegotiationWire

  // ---- logins ----

  /** The features that come lead to no login in the clear. */
  predicate ProtectedRun(c: Config, s: State, events: seq<Event>)
    decreases |events|
  {
    events == []
    || ((events[0].Offer? ==> Protected(c, s, events[0].offered)) && ProtectedRun(c, Step(c, s, events[0]), events[1..]))
  }

  lemma {:induction false} RequiredIsProtected(c: Config, s: State, events: seq<Event>)
    requires c.tls == TlsRequired
    ensures ProtectedRun(c, s, events)
    decreases |events|
  {
    if events != [] {
      hide Step;
      RequiredIsProtected(c, Step(c, s, events[0]), events[1..]);
    }
  }

  /** Where features come that are not protected, a client that can log in does so in the clear. */
  lemma UnprotectedLogin(c: Config, s: State, offered: Features, m: Mechanism)
    requires Valid(c, s) && s.conn == Connected && !s.authed && !Protected(c, s, offered)
    requires c.sasl && c.credentials && !c.forceNonSasl && (m == DigestMd5 || m == Plain)
    requires m in offered.mechanisms && m in c.allowed && (m == Plain ==> !(DigestMd5 in offered.mechanisms && DigestMd5 in c.allowed))
    requires !CompressionNext(c, s.(features := offered)) && !s.compressionActive
    ensures Step(c, s, Offer(offered)).wire == s.wire + [Clear(Auth(m))]
  {
  }

  // ---- passwords and hashes of them ----

  /** No step of the run sends the password in the clear, unless `passwords`, and none a hash of it,
      unless `digests`. */
  predicate NeverInClear(c: Config, s: State, events: seq<Event>, passwords: bool, digests: bool)
    decreases |events|
  {
    events == []
    || ((PasswordInClear(s, events[0]) ==> passwords) && (DigestInClear(s, events[0]) ==> digests)
        && NeverInClear(c, Step(c, s, events[0]), events[1..], passwords, digests))
  }

  const ALL := Exempt(true, true, true)

  lemma Weaken(s: State, t: State, x: Exempt, y: Exempt, seal: bool)
    requires Adds(s, t, x, seal)
    requires (x.logins ==> y.logins) && (x.passwords ==> y.passwords) && (x.digests ==> y.digests)
    ensures Adds(s, t, y, false)
  {
  }

  lemma {:induction false} RunGrows(c: Config, s: State, events: seq<Event>)
    requires Valid(c, s)
    ensures Adds(s, Run(c, s, events), ALL, false) && Valid(c, Run(c, s, events))
    decreases |events|
  {
    if events == [] {
      Nothing(s, s, ALL, false);
    } else {
      var t := Step(c, s, events[0]);
      StepAdds(c, s, events[0]);
      hide Step;
      Weaken(s, t, Exempts(c, s, events[0]), ALL, Sealing(c, s));
      RunGrows(c, t, events[1..]);
      hide Adds;
      AddsBoth(s, t, Run(c, t, events[1..]), ALL, false);
    }
  }

  /** What is added on the way from s to u is added up to t, or from there. */
  lemma AddsEach(s: State, t: State, u: State, x: Exempt)
    requires Adds(s, t, ALL, false) && Adds(t, u, ALL, false)
    ensures Adds(s, u, x, false) <==> Adds(s, t, x, false) && Adds(t, u, x, false)
  {
    hide Fine;
    forall i | 0 <= i < |t.wire|
      ensures u.wire[i] == t.wire[i]
    {
      assert u.wire[i] == u.wire[..|t.wire|][i];
    }
    assert u.wire[..|s.wire|] == t.wire[..|s.wire|];
  }

  lemma StepIff(c: Config, s: State, e: Event, passwords: bool, digests: bool)
    requires Valid(c, s) && (e.Offer? ==> Protected(c, s, e.offered))
    ensures Adds(s, Step(c, s, e), Exempt(false, passwords, digests), false) <==>
      (PasswordInClear(s, e) ==> passwords) && (DigestInClear(s, e) ==> digests)
  {
    var x, y := Exempts(c, s, e), Exempt(false, passwords, digests);
    StepAdds(c, s, e);
    if (x.passwords && !passwords) || (x.digests && !digests) {
      StepLeaks(c, s, e);
      hide Step, Payload, PasswordInClear, DigestInClear;
      assert !Fine(Step(c, s, e).wire[|s.wire|], y, false);
    } else {
      Weaken(s, Step(c, s, e), x, y, Sealing(c, s));
    }
    hide Step, Fine;
  }

  /** Over a run with protected features: logins, requests to bind a resource and to compress the stream
      go out only as output of the encryption; and so do passwords and hashes of them exactly if none
      is sent at a step that sends it in the clear. */
  lemma {:induction false} RunSealsIff(c: Config, s: State, events: seq<Event>, passwords: bool, digests: bool)
    requires Valid(c, s) && ProtectedRun(c, s, events)
    ensures Adds(s, Run(c, s, events), Exempt(false, passwords, digests), false) <==>
      NeverInClear(c, s, events, passwords, digests)
    decreases |events|
  {
    var x := Exempt(false, passwords, digests);
    if events == [] {
      Nothing(s, s, x, false);
    } else {
      var e, rest := events[0], events[1..];
      var t := Step(c, s, e);
      StepAdds(c, s, e);
      Weaken(s, t, Exempts(c, s, e), ALL, Sealing(c, s));
      StepIff(c, s, e, passwords, digests);
      hide Step, Adds, PasswordInClear, DigestInClear, Protected;
      RunGrows(c, t, rest);
      AddsEach(s, t, Run(c, t, rest), x);
      RunSealsIff(c, t, rest, passwords, digests);
    }
  }

  lemma {:induction false} NeverTrivially(c: Config, s: State, events: seq<Event>)
    ensures NeverInClear(c, s, events, true, true)
    decreases |events|
  {
    if events != [] {
      hide Step;
      NeverTrivially(c, Step(c, s, events[0]), events[1..]);
    }
  }

  /** All of a kind are sealed. */
  predicate SealedOf(wire: seq<Data>, e: Element) {
    forall i | 0 <= i < |wire| :: Payload(wire[i]) == e ==> wire[i].Sealed?
  }

  predicate LoginsSealed(wire: seq<Data>) {
    forall i | 0 <= i < |wire| :: IsLogin(Payload(wire[i])) ==> wire[i].Sealed?
  }

  /** Where TLS is required, no run from the start sends a login in the clear, whatever the server
      sends. */
  lemma TlsRequiredSealsLogins(c: Config, events: seq<Event>)
    requires c.tls == TlsRequired
    ensures LoginsSealed(Run(c, INITIAL, events).wire)
  {
    RequiredIsProtected(c, INITIAL, events);
    RunSealsIff(c, INITIAL, events, true, true);
    NeverTrivially(c, INITIAL, events);
    hide Run, Payload, IsLogin;
  }

  /** And it sends every password sealed exactly if no login query is answered while connected without
      encryption; every hash of one exactly if no DIGEST-MD5 challenge is. */
  lemma TlsRequiredSealsPasswords(c: Config, events: seq<Event>)
    requires c.tls == TlsRequired
    ensures SealedOf(Run(c, INITIAL, events).wire, LoginData) <==> NeverInClear(c, INITIAL, events, false, true)
    ensures SealedOf(Run(c, INITIAL, events).wire, Response(true)) <==> NeverInClear(c, INITIAL, events, true, false)
  {
    RequiredIsProtected(c, INITIAL, events);
    RunGrows(c, INITIAL, events);
    TlsRequiredSealsLogins(c, events);
    RunSealsIff(c, INITIAL, events, false, true);
    RunSealsIff(c, INITIAL, events, true, false);
    WireIff(Run(c, INITIAL, events));
    hide Run, Adds, LoginsSealed, SealedOf;
  }

  lemma WireIff(t: State)
    requires Adds(INITIAL, t, ALL, false) && LoginsSealed(t.wire)
    ensures Adds(INITIAL, t, Exempt(false, false, true), false) <==> SealedOf(t.wire, LoginData)
    ensures Adds(INITIAL, t, Exempt(false, true, false), false) <==> SealedOf(t.wire, Response(true))
  {
    hide Ordered, Payload;
  }

  // ---- connections that start afresh ----

  /** Nothing that belongs to a login is left from an earlier connection, or the stream is encrypted. */
  predicate Settled(s: State) {
    s.conn == Connected && !s.encryptionActive ==> LoginFields !in s.pending && s.selected != Some(DigestMd5)
  }

  /** No connection comes up with a login query outstanding or DIGEST-MD5 selected. */
  predicate StartsAfresh(c: Config, s: State, events: seq<Event>)
    decreases |events|
  {
    events == []
    || ((events[0].TransportUp? ==> LoginFields !in s.pending && s.selected != Some(DigestMd5))
        && StartsAfresh(c, Step(c, s, events[0]), events[1..]))
  }

  /** The connection is as it was, or gone; there are at most `added` new login queries, and no
      mechanism is selected anew without one. */
  predicate Frame(s: State, t: State, added: nat) {
    ((t.conn == s.conn && (s.encryptionActive ==> t.encryptionActive)) || t.conn == Disconnected)
    && t.pending[LoginFields] <= s.pending[LoginFields] + added
    && (added == 0 ==> t.selected == s.selected)
  }

  lemma SendFrame(c: Config, s: State, e: Element)
    ensures Frame(s, Send(c, s, e), 0)
    ensures Send(c, s, e).conn == s.conn && Send(c, s, e).encryptionActive == s.encryptionActive && Send(c, s, e).pending == s.pending
    ensures Send(c, s, e).selected == s.selected
  {
    hide Layered;
  }

  lemma SimpleFrames(c: Config, s: State, tlsFailed: bool, m: Mechanism)
    ensures Frame(s, Disconnect(c, s, tlsFailed), 0)
    ensures Frame(s, Finish(c, s), 0)
    ensures Frame(s, StartSasl(c, s, m), 1)
  {
    SendFrame(c, Reset(s), StreamEnd);
    SendFrame(c, s, RosterQuery);
    SendFrame(c, s, PresenceStanza);
    SendFrame(c, s.(selected := Some(m)), Auth(m));
    hide Send;
  }

  lemma TrackedFrame(c: Config, s: State, e: Element, context: Context)
    ensures Frame(s, SendTracked(c, s, e, context), if context == LoginFields then 1 else 0)
  {
    SendFrame(c, s.(pending := s.pending + multiset{context}), e);
    hide Send;
  }

  lemma AuthenticateFrame(c: Config, s: State)
    ensures Frame(s, Authenticate(c, s), 1)
  {
    SimpleFrames(c, s, false, DigestMd5);
    SimpleFrames(c, s, false, Plain);
    SimpleFrames(c, s, false, External);
    SimpleFrames(c, s, false, Anonymous);
    TrackedFrame(c, s, BindRequest, BindContext);
    TrackedFrame(c, s, LoginQuery, LoginFields);
    hide SendTracked, StartSasl, Disconnect, Finish, Usable;
  }

  lemma AnswerFrame(c: Config, s: State, context: Context, reply: Reply)
    ensures Frame(s, HandleAnswer(c, s, context, reply), 0)
  {
    var bound, refused, accepted := s.(resourceBound := true), s.(authed := false), s.(authed := true);
    SimpleFrames(c, bound, false, Plain);
    SimpleFrames(c, refused, false, Plain);
    SimpleFrames(c, accepted, false, Plain);
    SimpleFrames(c, s, false, Plain);
    TrackedFrame(c, bound, SessionRequest, SessionContext);
    TrackedFrame(c, s, LoginData, LoginSent);
    hide SendTracked, Disconnect, Finish;
  }

  lemma OfferFrame(c: Config, s: State, offered: Features)
    requires Valid(c, s)
    ensures Frame(s, HandleFeatures(c, s, offered), if s.encryptionActive || !Protected(c, s, offered) then 1 else 0)
  {
    var t := s.(features := StreamFeatures(offered));
    FeaturesBranches(c, s, offered);
    SimpleFrames(c, t, false, Plain);
    SendFrame(c, t, StartTls);
    SendFrame(c, t, Compress);
    AuthenticateFrame(c, t);
    TrackedFrame(c, t, LoginQuery, LoginFields);
    hide Send, SendTracked, Disconnect, Authenticate, HandleFeatures, Protected, StreamFeatures;
  }

  /** Same, when the fields that matter are. */
  lemma FrameOf(s: State, t: State, u: State, added: nat)
    requires Frame(t, u, added) && t.conn == s.conn && (s.encryptionActive ==> t.encryptionActive)
    requires t.pending[LoginFields] <= s.pending[LoginFields] && t.selected == s.selected
    ensures Frame(s, u, added)
  {
  }

  function StepLogins(c: Config, s: State, e: Event): nat {
    if e.Offer? && (s.encryptionActive || !Protected(c, s, e.offered)) then 1 else 0
  }

  /** What a step does to the connection and to what is outstanding. */
  lemma StepFrame(c: Config, s: State, e: Event)
    requires Valid(c, s) && !e.TransportUp? && !e.Connect?
    ensures Frame(s, Step(c, s, e), StepLogins(c, s, e))
  {
    match e {
      case Unparsable => UnparsableFrame(c, s);
      case Offer(offered) => OfferFrame(c, s, offered);
      case Compressed => RestartFrame(c, s, s.(compressionActive := true));
      case Success => RestartFrame(c, s, s.(authed := true));
      case Challenge(complete, last) => ChallengeFrame(c, s, complete, last);
      case Answer(context, reply) => AnsweredFrame(c, s, context, reply);
      case _ => OtherFrame(c, s, e);
    }
    hide Send, Disconnect, HandleFeatures, HandleAnswer, Protected, Dropped, Frame;
  }

  /** The events that send nothing but a header or the end of the stream. */
  lemma OtherFrame(c: Config, s: State, e: Event)
    requires !e.TransportUp? && !e.Connect? && !e.Unparsable? && !e.Offer? && !e.Compressed? && !e.Success?
    requires !e.Challenge? && !e.Answer?
    ensures Frame(s, Step(c, s, e), 0)
  {
    SimpleFrames(c, s, false, Plain);
    SimpleFrames(c, s, true, Plain);
    SendFrame(c, s, Header);
    assert Frame(s, s, 0) && Frame(s, Dropped(s), 0) && Frame(s, s.(encryptionActive := true), 0);
    hide Send, Disconnect, Dropped, Frame;
  }

  lemma UnparsableFrame(c: Config, s: State)
    ensures Frame(s, Disconnect(c, Send(c, s, StreamError), false), 0)
  {
    var t := Send(c, s, StreamError);
    SendFrame(c, s, StreamError);
    SimpleFrames(c, t, false, Plain);
    hide Frame, Send, Disconnect;
    FrameOf(s, t, Disconnect(c, t, false), 0);
  }

  lemma RestartFrame(c: Config, s: State, t: State)
    requires t == s.(compressionActive := true) || t == s.(authed := true)
    ensures Frame(s, Send(c, t, Header), 0)
  {
    SendFrame(c, t, Header);
    hide Frame, Send;
    FrameOf(s, t, Send(c, t, Header), 0);
  }

  lemma ChallengeFrame(c: Config, s: State, complete: bool, last: bool)
    ensures Frame(s, Step(c, s, Challenge(complete, last)), 0)
  {
    SendFrame(c, s, Response(false));
    SendFrame(c, s, Response(true));
    assert Frame(s, s, 0);
    hide Frame, Send;
  }

  lemma AnsweredFrame(c: Config, s: State, context: Context, reply: Reply)
    ensures Frame(s, Step(c, s, Answer(context, reply)), 0)
  {
    var t := Taken(s, context);
    assert Frame(s, s, 0);
    assert t.pending[LoginFields] <= s.pending[LoginFields];
    AnswerFrame(c, t, context, reply);
    AnswerStep(c, s, context, reply);
    hide *;
    FrameOf(s, t, HandleAnswer(c, t, context, reply), 0);
  }

  function Taken(s: State, context: Context): (t: State)
    ensures t.conn == s.conn && t.encryptionActive == s.encryptionActive && t.selected == s.selected
  {
    s.(pending := s.pending - multiset{context})
  }

  lemma AnswerStep(c: Config, s: State, context: Context, reply: Reply)
    ensures Step(c, s, Answer(context, reply)) ==
      if context !in s.pending then s else HandleAnswer(c, Taken(s, context), context, reply)
  {
    hide HandleAnswer;
  }

  lemma StepSettled(c: Config, s: State, e: Event)
    requires c.tls == TlsRequired && Valid(c, s) && Settled(s)
    requires e.TransportUp? ==> LoginFields !in s.pending && s.selected != Some(DigestMd5)
    ensures Settled(Step(c, s, e))
  {
    if e.TransportUp? {
      SendFrame(c, s.(conn := Connected), Header);
    } else if !e.Connect? {
      StepFrame(c, s, e);
      hide Step;
    }
    hide Send;
  }

  /** Then neither a password nor a hash of one goes out in the clear. */
  lemma {:induction false} AfreshNeverInClear(c: Config, s: State, events: seq<Event>)
    requires c.tls == TlsRequired && Valid(c, s) && Settled(s) && StartsAfresh(c, s, events)
    ensures NeverInClear(c, s, events, false, false)
    decreases |events|
  {
    if events != [] {
      var e := events[0];
      StepAdds(c, s, e);
      StepSettled(c, s, e);
      hide Step, Adds;
      AfreshNeverInClear(c, Step(c, s, e), events[1..]);
    }
  }

  // ---- encryption stays ----

  predicate StaysUp(c: Config, s: State, events: seq<Event>)
    decreases |events|
  {
    s.conn == Connected && (events == [] || StaysUp(c, Step(c, s, events[0]), events[1..]))
  }

  lemma StepStaysSealing(c: Config, s: State, e: Event)
    requires s.conn == Connected && Sealing(c, s) && Step(c, s, e).conn == Connected
    ensures Sealing(c, Step(c, s, e))
  {
    if !e.TransportUp? && !e.Connect? {
      StepFrame(c, s, e);
      hide Step;
    }
    hide Send;
  }

  /** Once the encryption is active, all that a connection sends goes through it, to its end. */
  lemma {:induction false} EncryptionStays(c: Config, s: State, events: seq<Event>)
    requires Sealing(c, s) && StaysUp(c, s, events)
    ensures Adds(s, Run(c, s, events), NOTHING, true) && Sealing(c, Run(c, s, events))
    decreases |events|
  {
    var x := NOTHING;
    if events == [] {
      Nothing(s, s, x, true);
    } else {
      var t := Step(c, s, events[0]);
      StepAdds(c, s, events[0]);
      StepStaysSealing(c, s, events[0]);
      hide Step;
      EncryptionStays(c, t, events[1..]);
      SealedAnyway(s, t, Exempts(c, s, events[0]), x);
      hide Adds;
      AddsBoth(s, t, Run(c, t, events[1..]), x, true);
    }
  }

  lemma SealedAnyway(s: State, t: State, x: Exempt, y: Exempt)
    requires Adds(s, t, x, true)
    ensures Adds(s, t, y, true)
  {
  }
}
