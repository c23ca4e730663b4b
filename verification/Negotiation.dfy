/** Stream negotiation: TLS, compression, authentication, binding, session
    (gloox/client.cpp:148-602, gloox/clientbase.cpp:202-432, 846-859). */
module Negotiation {
  import opened Text

  datatype Policy = TlsDisabled | TlsOptional | TlsRequired

  datatype Mechanism = DigestMd5 | Plain | Anonymous | External

  /** The settings, and which of the helper objects there are. */
  datatype Config = Config(
    tls: Policy,
    encryption: bool,
    compression: bool,
    compress: bool,
    sasl: bool,
    forceNonSasl: bool,
    credentials: bool,
    certificate: bool,
    allowed: set<Mechanism>,
    manageRoster: bool)

  /** The stream features that matter; `other` is any that the negotiation does not look at. */
  datatype Features = Features(
    startTls: bool, mechanisms: set<Mechanism>, bind: bool, unbind: bool, session: bool, iqAuth: bool, zlib: bool, other: bool)

  const NO_FEATURES := Features(false, {}, false, false, false, false, false, false)

  /** `getStreamFeatures`: a server that offers nothing is taken to offer the old login. */
  function StreamFeatures(offered: Features): Features {
    if offered == NO_FEATURES then NO_FEATURES.(iqAuth := true) else offered
  }

  /** A `Response` to a DIGEST-MD5 challenge holds the username and a hash of the password; any other
      is empty. */
  datatype Element =
    | Header | StreamEnd | StreamError | StartTls | Compress
    | Auth(mechanism: Mechanism) | Response(digest: bool)
    | LoginQuery | LoginData | BindRequest | SessionRequest | RosterQuery | PresenceStanza

  /** What passes to the connection: an element, what the compression made of it, or what the
      encryption made of either. */
  datatype Data = Clear(element: Element) | Deflated(inner: Data) | Sealed(inner: Data)

  datatype ConnectionState = Disconnected | Connecting | Connected

  /** The tracked requests that await an answer. */
  datatype Context = BindContext | SessionContext | LoginFields | LoginSent

  /** `wire` is all that went to the connection, `connects` how often listeners were told that the
      client is connected. */
  datatype State = State(
    conn: ConnectionState,
    encryptionActive: bool,
    compressionActive: bool,
    authed: bool,
    resourceBound: bool,
    features: Features,
    selected: Option<Mechanism>,
    pending: multiset<Context>,
    wire: seq<Data>,
    connects: nat)

  const INITIAL := State(Disconnected, false, false, false, false, NO_FEATURES, None, multiset{}, [], 0)

  // ---- sending ----

  /** Through the compression, then the encryption, as far as they are active. */
  function Layered(c: Config, s: State, e: Element): Data {
    var d := if c.compression && s.compressionActive then Deflated(Clear(e)) else Clear(e);
    if c.encryption && s.encryptionActive then Sealed(d) else d
  }

  /** `send( xml )` */
  function Send(c: Config, s: State, e: Element): State {
    if s.conn == Connected then s.(wire := s.wire + [Layered(c, s, e)]) else s
  }

  /** `send( IQ, IqHandler*, context )` */
  function SendTracked(c: Config, s: State, e: Element, context: Context): State {
    Send(c, s.(pending := s.pending + multiset{context}), e)
  }

  // ---- ends ----

  function Reset(s: State): State {
    s.(authed := false, resourceBound := false, features := NO_FEATURES)
  }

  function Down(s: State): State {
    s.(conn := Disconnected, encryptionActive := false, compressionActive := false)
  }

  /** `disconnect( reason )` */
  function Disconnect(c: Config, s: State, tlsFailed: bool): State {
    var t := Reset(s);
    if t.conn == Disconnected then t else Down(if tlsFailed then t else Send(c, t, StreamEnd))
  }

  /** `handleDisconnect`, with `cleanup` at its end. */
  function Dropped(s: State): State {
    Reset(Down(s))
  }

  // ---- negotiation ----

  function StartSasl(c: Config, s: State, m: Mechanism): State {
    Send(c, s.(selected := Some(m)), Auth(m))
  }

  predicate Usable(c: Config, s: State, m: Mechanism) {
    m in s.features.mechanisms && m in c.allowed
  }

  /** `login`; `None` where it returns false. */
  function Login(c: Config, s: State): Option<State> {
    if Usable(c, s, DigestMd5) && !c.forceNonSasl then Some(StartSasl(c, s, DigestMd5))
    else if Usable(c, s, Plain) && !c.forceNonSasl then Some(StartSasl(c, s, Plain))
    else if s.features.iqAuth || c.forceNonSasl then Some(SendTracked(c, s, LoginQuery, LoginFields))
    else None
  }

  function BindResource(c: Config, s: State): State {
    if !s.features.unbind && s.resourceBound then s else SendTracked(c, s, BindRequest, BindContext)
  }

  /** `connected` */
  function Finish(c: Config, s: State): State {
    if !s.authed then s.(connects := s.connects + 1)
    else if c.manageRoster then Send(c, s, RosterQuery)
    else
      var t := Send(c, s, PresenceStanza);
      t.(connects := t.connects + 1)
  }

  /** The part of `handleNormalNode` that SASL governs. */
  function Authenticate(c: Config, s: State): State {
    if s.authed then (if s.features.bind then BindResource(c, s) else s)
    else if c.credentials then
      match Login(c, s)
      case Some(t) => t
      case None => Disconnect(c, s, false)
    else if c.certificate && Usable(c, s, External) then StartSasl(c, s, External)
    else if Usable(c, s, Anonymous) then StartSasl(c, s, Anonymous)
    else Finish(c, s)
  }

  predicate CompressionNext(c: Config, s: State) {
    c.compress && c.compression && !s.compressionActive && s.features.zlib
  }

  /** `handleNormalNode` on the stream features.  (The source tests for compression once more behind
      SASL, where the test cannot hold.) */
  function HandleFeatures(c: Config, before: State, offered: Features): State {
    var s := before.(features := StreamFeatures(offered));
    if c.tls == TlsRequired && !s.encryptionActive && (!c.encryption || !s.features.startTls) then Disconnect(c, s, false)
    else if c.tls != TlsDisabled && c.encryption && !s.encryptionActive && s.features.startTls then Send(c, s, StartTls)
    else if CompressionNext(c, s) then Send(c, s, Compress)
    else if c.sasl then Authenticate(c, s)
    else if s.features.iqAuth then SendTracked(c, s, LoginQuery, LoginFields)
    else Disconnect(c, s, false)
  }

  // ---- answers to tracked requests ----

  datatype Reply = Result(valid: bool) | Error

  function HandleAnswer(c: Config, s: State, context: Context, reply: Reply): State {
    match context
    case BindContext =>
      if reply != Result(true) then s
      else
        var t := s.(resourceBound := true);
        if t.features.session then SendTracked(c, t, SessionRequest, SessionContext) else Finish(c, t)
    case SessionContext => if reply.Result? then Finish(c, s) else s
    case LoginFields =>
      if reply.Error? then Disconnect(c, s.(authed := false), false)
      else if reply.valid then SendTracked(c, s, LoginData, LoginSent)
      else s
    case LoginSent =>
      if reply.Error? then Disconnect(c, s.(authed := false), false) else Finish(c, s.(authed := true))
  }

  // ---- events ----

  datatype Event =
    | Connect                               // the application's connect()
    | TransportUp
    | TransportDown
    | Close                                 // the application's disconnect()
    | StreamOpened(versionOk: bool)
    | StreamClosed                          // the end tag, or a stream error
    | Unparsable
    | Offer(offered: Features)
    | Proceed
    | Handshake(accepted: bool)
    | TlsFailure
    | OtherFailure(known: bool)             // of compression or authentication, or unknown
    | Compressed
    | Challenge(complete: bool, last: bool)
    | Success
    | Answer(context: Context, reply: Reply)

  function Step(c: Config, s: State, e: Event): State {
    match e
    case Connect => if s.conn == Disconnected then s.(conn := Connecting) else s
    case TransportUp => if s.conn == Connecting then Send(c, s.(conn := Connected), Header) else s
    case TransportDown => Dropped(s)
    case Close => Disconnect(c, s, false)
    case StreamOpened(versionOk) => if versionOk then s else Disconnect(c, s, false)
    case StreamClosed => Disconnect(c, s, false)
    case Unparsable => Disconnect(c, Send(c, s, StreamError), false)
    case Offer(offered) => HandleFeatures(c, s, offered)
    case Proceed => if c.encryption then s.(encryptionActive := true) else s
    case Handshake(accepted) => if accepted then Send(c, s, Header) else Disconnect(c, s, true)
    case TlsFailure => Disconnect(c, s, true)
    case OtherFailure(known) => if known then Disconnect(c, s, false) else s
    case Compressed => Send(c, s.(compressionActive := true), Header)
    case Challenge(complete, last) =>
      if s.selected == Some(DigestMd5) && !last && !complete then s
      else Send(c, s, Response(s.selected == Some(DigestMd5) && !last))
    case Success => Send(c, s.(authed := true), Header)
    case Answer(context, reply) =>
      if context !in s.pending then s
      else HandleAnswer(c, s.(pending := s.pending - multiset{context}), context, reply)
  }

  function Run(c: Config, s: State, events: seq<Event>): State
    decreases |events|
  {
    if events == [] then s else Run(c, Step(c, s, events[0]), events[1..])
  }
}
