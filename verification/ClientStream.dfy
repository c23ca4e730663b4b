/** The client object, method by method (gloox/client.cpp:148-602, gloox/clientbase.cpp:286-432, 846-859).
    The connection, the compression and the encryption hand on what they are given. */
module ClientStream {
  import opened Text
  import L = NegotiationLayers
  import N = Negotiation
  import W = NegotiationWire
  import R = NegotiationRuns
  import Scripts = NegotiationScripts

  class Client {
    const config: N.Config
    var conn: N.ConnectionState
    var encryptionActive: bool
    var compressionActive: bool
    var authed: bool
    var resourceBound: bool
    var features: N.Features
    var selected: Option<N.Mechanism>
    var pending: multiset<N.Context>
    var wire: seq<N.Data>
    var connects: nat

    /** The events so far. */
    ghost var history: seq<N.Event>

    /** The fields are what the events so far make of a new client. */
    ghost predicate Valid()
      reads this
    {
      State() == N.Run(config, N.INITIAL, history)
    }

    function State(): N.State
      reads this
    {
      N.State(conn, encryptionActive, compressionActive, authed, resourceBound, features, selected, pending, wire, connects)
    }

    constructor (config: N.Config)
      ensures Valid() && State() == N.INITIAL && history == [] && this.config == config
    {
      this.config := config;
      conn, encryptionActive, compressionActive, authed, resourceBound := N.Disconnected, false, false, false, false;
      features, selected, pending, wire, connects := N.NO_FEATURES, None, multiset{}, [], 0;
      history := [];
    }

    // ---- the sending path ----

    method Send(e: N.Element)
      modifies `wire
      ensures State() == N.Send(config, old(State()), e)
    {
      if conn == N.Connected {
        if config.compression && compressionActive {
          HandleCompressedData(N.Deflated(N.Clear(e)));
        } else if config.encryption && encryptionActive {
          HandleEncryptedData(N.Sealed(N.Clear(e)));
        } else {
          wire := wire + [N.Clear(e)];
        }
      }
    }

    method HandleCompressedData(d: N.Data)
      modifies `wire
      ensures wire == old(wire) + [if config.encryption && encryptionActive then N.Sealed(d) else d]
    {
      if config.encryption && encryptionActive {
        HandleEncryptedData(N.Sealed(d));
      } else {
        wire := wire + [d];
      }
    }

    method HandleEncryptedData(d: N.Data)
      modifies `wire
      ensures wire == old(wire) + [d]
    {
      wire := wire + [d];
    }

    method SendTracked(e: N.Element, context: N.Context)
      modifies `pending, `wire
      ensures State() == N.SendTracked(config, old(State()), e, context)
    {
      hide N.Send;
      pending := pending + multiset{context};
      Send(e);
    }

    // ---- ends ----

    method Disconnect(tlsFailed: bool)
      modifies this
      ensures history == old(history)
      ensures State() == N.Disconnect(config, old(State()), tlsFailed)
    {
      hide N.Send;
      resourceBound, authed, features := false, false, N.NO_FEATURES;
      if conn == N.Disconnected { return; }
      if !tlsFailed {
        Send(N.StreamEnd);
      }
      SendKeeps(config, N.Reset(old(State())), N.StreamEnd);
      conn, encryptionActive, compressionActive := N.Disconnected, false, false;
    }

    method HandleDisconnect()
      modifies this
      ensures history == old(history)
      ensures State() == N.Dropped(old(State()))
    {
      conn, encryptionActive, compressionActive := N.Disconnected, false, false;
      authed, resourceBound, features := false, false, N.NO_FEATURES;
    }

    // ---- negotiation ----

    method StartSasl(m: N.Mechanism)
      modifies `selected, `wire
      ensures State() == N.StartSasl(config, old(State()), m)
    {
      hide N.Send;
      selected := Some(m);
      Send(N.Auth(m));
    }

    method NonSaslLogin()
      modifies `pending, `wire
      ensures State() == N.SendTracked(config, old(State()), N.LoginQuery, N.LoginFields)
    {
      SendTracked(N.LoginQuery, N.LoginFields);
    }

    method Login() returns (r: bool)
      modifies `selected, `pending, `wire
      ensures
        match N.Login(config, old(State()))
        case Some(t) => r && State() == t
        case None => !r && State() == old(State())
    {
      hide N.SendTracked, N.StartSasl;
      if N.DigestMd5 in features.mechanisms && N.DigestMd5 in config.allowed && !config.forceNonSasl {
        StartSasl(N.DigestMd5);
      } else if N.Plain in features.mechanisms && N.Plain in config.allowed && !config.forceNonSasl {
        StartSasl(N.Plain);
      } else if features.iqAuth || config.forceNonSasl {
        NonSaslLogin();
      } else {
        return false;
      }
      return true;
    }

    method BindResource()
      modifies `pending, `wire
      ensures State() == N.BindResource(config, old(State()))
    {
      if !features.unbind && resourceBound { return; }
      SendTracked(N.BindRequest, N.BindContext);
    }

    method Finish()
      modifies `wire, `connects
      ensures State() == N.Finish(config, old(State()))
    {
      hide N.Send;
      SendKeeps(config, State(), N.RosterQuery);
      SendKeeps(config, State(), N.PresenceStanza);
      if authed {
        if config.manageRoster {
          Send(N.RosterQuery);
        } else {
          Send(N.PresenceStanza);
          connects := connects + 1;
        }
      } else {
        connects := connects + 1;
      }
    }

    /** The branches under SASL. */
    method Authenticate()
      modifies this
      ensures history == old(history)
      ensures State() == N.Authenticate(config, old(State()))
    {
      hide N.Login, N.BindResource, N.StartSasl, N.Disconnect, N.Finish;
      if authed {
        if features.bind {
          BindResource();
        }
      } else if config.credentials {
        var ok := Login();
        if !ok {
          Disconnect(false);
        }
      } else if config.certificate && N.External in features.mechanisms && N.External in config.allowed {
        StartSasl(N.External);
      } else if N.Anonymous in features.mechanisms && N.Anonymous in config.allowed {
        StartSasl(N.Anonymous);
      } else {
        Finish();
      }
    }

    method HandleFeatures(offered: N.Features)
      modifies this
      ensures history == old(history)
      ensures State() == N.HandleFeatures(config, old(State()), offered)
    {
      hide N.Send, N.SendTracked, N.Authenticate, N.Disconnect, N.StreamFeatures;
      features := N.StreamFeatures(offered);
      if config.tls == N.TlsRequired && !encryptionActive && (!config.encryption || !features.startTls) {
        Disconnect(false);
      } else if config.tls != N.TlsDisabled && config.encryption && !encryptionActive && features.startTls {
        Send(N.StartTls);
      } else if config.compress && config.compression && !compressionActive && features.zlib {
        Send(N.Compress);
      } else if config.sasl {
        Authenticate();
      } else if features.iqAuth {
        NonSaslLogin();
      } else {
        Disconnect(false);
      }
    }

    // ---- tracked answers ----

    method ProcessResourceBind(reply: N.Reply)
      modifies this
      ensures history == old(history)
      ensures State() == N.HandleAnswer(config, old(State()), N.BindContext, reply)
    {
      hide N.SendTracked, N.Finish;
      if reply == N.Result(true) {
        resourceBound := true;
        if features.session {
          SendTracked(N.SessionRequest, N.SessionContext);
        } else {
          Finish();
        }
      }
    }

    method ProcessCreateSession(reply: N.Reply)
      modifies this
      ensures history == old(history)
      ensures State() == N.HandleAnswer(config, old(State()), N.SessionContext, reply)
    {
      if reply.Result? {
        Finish();
      }
    }

    /** `NonSaslAuth::handleIqID` */
    method ProcessLogin(context: N.Context, reply: N.Reply)
      requires context == N.LoginFields || context == N.LoginSent
      modifies this
      ensures history == old(history)
      ensures State() == N.HandleAnswer(config, old(State()), context, reply)
    {
      hide N.SendTracked, N.Finish, N.Disconnect;
      if reply.Error? {
        authed := false;
        Disconnect(false);
      } else if context == N.LoginFields {
        if reply.valid {
          SendTracked(N.LoginData, N.LoginSent);
        }
      } else {
        authed := true;
        Finish();
      }
    }

    // ---- events ----

    /** `handleConnect`, `handleDisconnect`, `connect`, `disconnect`, and the handshake's result. */
    method HandleConnection(e: N.Event)
      requires e.Connect? || e.TransportUp? || e.TransportDown? || e.Close? || e.Handshake?
      modifies this
      ensures history == old(history)
      ensures State() == N.Step(config, old(State()), e)
    {
      hide N.Send, N.Disconnect, N.Dropped;
      match e {
        case Connect =>
          if conn == N.Disconnected {
            conn := N.Connecting;
          }
        case TransportUp =>
          if conn == N.Connecting {
            conn := N.Connected;
            Send(N.Header);
          }
        case TransportDown => HandleDisconnect();
        case Close => Disconnect(false);
        case Handshake(accepted) =>
          if accepted {
            Send(N.Header);
          } else {
            Disconnect(true);
          }
      }
    }

    /** `handleTag` on the stream itself. */
    method HandleStream(e: N.Event)
      requires e.StreamOpened? || e.StreamClosed? || e.Unparsable?
      modifies this
      ensures history == old(history)
      ensures State() == N.Step(config, old(State()), e)
    {
      hide N.Send, N.Disconnect;
      match e {
        case StreamOpened(versionOk) =>
          if !versionOk {
            Disconnect(false);
          }
        case StreamClosed => Disconnect(false);
        case Unparsable =>
          Send(N.StreamError);
          Disconnect(false);
      }
    }

    /** `handleNormalNode` */
    method HandleNormalNode(e: N.Event)
      requires e.Offer? || e.Proceed? || e.TlsFailure? || e.OtherFailure? || e.Compressed? || e.Challenge? || e.Success?
      modifies this
      ensures history == old(history)
      ensures State() == N.Step(config, old(State()), e)
    {
      hide N.Send, N.Disconnect, N.HandleFeatures;
      match e {
        case Offer(offered) => HandleFeatures(offered);
        case Proceed =>
          if config.encryption {
            encryptionActive := true;
          }
        case TlsFailure => Disconnect(true);
        case OtherFailure(known) =>
          if known {
            Disconnect(false);
          }
        case Compressed =>
          compressionActive := true;
          Send(N.Header);
        case Challenge(complete, last) =>
          if selected != Some(N.DigestMd5) || last || complete {
            Send(N.Response(selected == Some(N.DigestMd5) && !last));
          }
        case Success =>
          authed := true;
          Send(N.Header);
      }
    }

    method HandleEvent(e: N.Event)
      requires Valid()
      modifies this
      ensures Valid() && history == old(history) + [e]
      ensures State() == N.Step(config, old(State()), e)
    {
      hide N.Step, N.Run;
      if e.Answer? {
        HandleIq(e.context, e.reply);
      } else if e.Connect? || e.TransportUp? || e.TransportDown? || e.Close? || e.Handshake? {
        HandleConnection(e);
      } else if e.StreamOpened? || e.StreamClosed? || e.Unparsable? {
        HandleStream(e);
      } else {
        HandleNormalNode(e);
      }
      RunSnoc(config, N.INITIAL, history, e);
      history := history + [e];
    }

    /** A run of the client: where TLS is required, no login leaves it in the clear, and passwords and
        hashes of them leave it sealed exactly if none is asked for while connected without encryption. */
    method Serve(events: seq<N.Event>)
      requires Valid()
      modifies this
      ensures Valid() && history == old(history) + events
      ensures compressionActive <==> L.Since(config, history, N.Compressed)
      ensures encryptionActive <==> config.encryption && L.Since(config, history, N.Proceed)
      ensures config.tls == N.TlsRequired ==>
        && R.LoginsSealed(wire)
        && (R.SealedOf(wire, N.LoginData) <==> R.NeverInClear(config, N.INITIAL, history, false, true))
        && (R.SealedOf(wire, N.Response(true)) <==> R.NeverInClear(config, N.INITIAL, history, true, false))
    {
      hide N.Step, N.Run, R.LoginsSealed, R.SealedOf, R.NeverInClear, L.Since;
      var i := 0;
      while i < |events|
        invariant i <= |events| && Valid() && history == old(history) + events[..i]
      {
        HandleEvent(events[i]);
        i := i + 1;
      }
      assert events[..i] == events;
      L.ActiveIff(config, history);
      if config.tls == N.TlsRequired {
        R.TlsRequiredSealsLogins(config, history);
        R.TlsRequiredSealsPasswords(config, history);
      }
    }

    method HandleIq(context: N.Context, reply: N.Reply)
      modifies this
      ensures history == old(history)
      ensures State() == N.Step(config, old(State()), N.Answer(context, reply))
    {
      hide N.HandleAnswer;
      if context in pending {
        HandleAnswer(context, reply);
      }
    }

    method HandleAnswer(context: N.Context, reply: N.Reply)
      requires context in pending
      modifies this
      ensures history == old(history)
      ensures State() == N.HandleAnswer(config, old(State()).(pending := old(pending) - multiset{context}), context, reply)
    {
      hide N.HandleAnswer;
      pending := pending - multiset{context};
      match context {
        case BindContext => ProcessResourceBind(reply);
        case SessionContext => ProcessCreateSession(reply);
        case _ => ProcessLogin(context, reply);
      }
    }
  }

  lemma RunSnoc(c: N.Config, s: N.State, events: seq<N.Event>, e: N.Event)
    ensures N.Run(c, s, events + [e]) == N.Step(c, N.Run(c, s, events), e)
  {
    hide N.Step;
    Scripts.RunAppend(c, s, events, [e]);
    var t := N.Run(c, s, events);
    assert [e][1..] == [];
    assert N.Run(c, N.Step(c, t, e), []) == N.Step(c, t, e);
  }

  lemma SendKeeps(c: N.Config, s: N.State, e: N.Element)
    ensures N.Send(c, s, e) == s.(wire := N.Send(c, s, e).wire)
  {
  }
}
