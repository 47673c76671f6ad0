/** The server side of one session (ProtocolContext.cpp and its state handlers): key
    exchange in plain, then authentication, then the user's handler, with the message
    coder replaced in the middle of the conversation. */
module Session {
  import opened Options
  import opened Wire
  import opened Coding

  // ---------------------------------------------------------------- messages

  datatype KexMsg = KexMsg(ecdh: bool, pkey: seq<byte>)

  datatype ConnRequestType = ConnUnknown | RequestKex | RequestAuth | ConnOther
  datatype ConnRequest = ConnRequest(kind: ConnRequestType, kex: Option<KexMsg>)

  datatype ConnStatus = Ok | InvalidRequest | RequestError | DecodeError
  datatype ConnResponse = ConnResponse(status: ConnStatus, kex: Option<KexMsg>)

  datatype AuthRequestType = AuthUnknown | AuthSupply | AuthInfo | AuthOther
  datatype AuthRequest = AuthRequest(kind: AuthRequestType, username: seq<byte>, credential: seq<byte>)

  datatype AuthStatus = AuthAccept | AuthReject | AuthContinue | AuthInvalidRequest | AuthDecodeError
  datatype AuthResponse = AuthResponse(status: AuthStatus)

  datatype ServerMsg = ToConn(conn: ConnResponse) | ToAuth(auth: AuthResponse) | ToUser(body: seq<byte>)

  const PUBLIC_KEYLENGTH: nat := 32
  const ATTEMPTS: nat := 5

  /** What setFinalStateFactory was given; the null factory creates no handler. */
  datatype Factory = NoFactory | NullFactory | UserFactory

  /** Everything the session calls but does not define: cipher, message format, key
      agreement (with the key derivation folded in) and authenticator. */
  datatype World = World(
    aead: Aead,
    serConnRequest: ConnRequest -> seq<byte>, parseConnRequest: seq<byte> -> Option<ConnRequest>,
    serAuthRequest: AuthRequest -> seq<byte>, parseAuthRequest: seq<byte> -> Option<AuthRequest>,
    serConnResponse: ConnResponse -> seq<byte>, parseConnResponse: seq<byte> -> Option<ConnResponse>,
    serAuthResponse: AuthResponse -> seq<byte>, parseAuthResponse: seq<byte> -> Option<AuthResponse>,
    pub: nat -> seq<byte>, agree: (nat, seq<byte>) -> Option<Key>,
    authenticator: Option<AuthRequest -> bool>,
    factory: Factory)

  function Ser(w: World, m: ServerMsg): seq<byte> {
    match m
    case ToConn(c) => w.serConnResponse(c)
    case ToAuth(a) => w.serAuthResponse(a)
    case ToUser(body) => body
  }

  /** The server's own messages are a few bytes and at most one public key. */
  predicate Small(m: ServerMsg) {
    match m
    case ToConn(c) => c.kex.Some? ==> |c.kex.value.pkey| <= PUBLIC_KEYLENGTH
    case ToAuth(_) => true
    case ToUser(_) => false
  }

  /** Parsing inverts serializing, key agreement commutes (section 6.1 of RFC 7748),
      the cipher is sound, and small messages fit a sealed frame and, having a status,
      are not empty. */
  ghost predicate Lawful(w: World) {
    && AeadLaws(w.aead)
    && (forall m :: w.parseConnRequest(w.serConnRequest(m)) == Some(m))
    && (forall m :: w.parseAuthRequest(w.serAuthRequest(m)) == Some(m))
    && (forall m :: w.parseConnResponse(w.serConnResponse(m)) == Some(m))
    && (forall m :: w.parseAuthResponse(w.serAuthResponse(m)) == Some(m))
    && (forall a :: |w.pub(a)| == PUBLIC_KEYLENGTH)
    && (forall a, b :: w.agree(a, w.pub(b)) == w.agree(b, w.pub(a)))
    && (forall m | Small(m) :: 0 < |Ser(w, m)| <= MAX_BODY - IV_SIZE - w.aead.tag)
    && (forall m: ConnRequest | m.kex.Some? ==> |m.kex.value.pkey| <= PUBLIC_KEYLENGTH ::
          |w.serConnRequest(m)| + IV_SIZE + w.aead.tag <= MAX_BODY)
  }

  // ---------------------------------------------------------------- the session

  datatype Session =
    | Connected(coder: Mode, kexDone: bool)
    | Authenticating(coder: Mode, remaining: nat)
    | User(coder: Mode)
    | Closed
    | Crashed

  const FRESH := Connected(Plain, false)

  /** A user's message and the vector drawn for it. */
  datatype Answer = Answer(body: seq<byte>, iv: seq<byte>)

  /** What the user's handler does with one frame: any number of answers, and whether it
      gives up the session. It may keep any state, so nothing ties one deed to another. */
  datatype Deed = Deed(answers: seq<Answer>, ends: bool)

  /** One incoming frame and what is drawn or decided while it is handled: the private key
      of a key exchange, the initialisation vectors of at most two replies, and the user's
      deed. After a failed decode the request object holds `leftover`: the last request, or
      part of a new one. */
  datatype Input = Input(frame: Frame, priv: nat, iv: seq<byte>, iv2: seq<byte>, leftover: AuthRequest, user: Deed)

  predicate AllSized(answers: seq<Answer>) {
    forall x | 0 <= x < |answers| :: |answers[x].iv| == IV_SIZE
  }

  predicate Fresh(i: Input) {
    |i.iv| == IV_SIZE && |i.iv2| == IV_SIZE && AllSized(i.user.answers)
  }

  datatype Reply = Reply(mode: Mode, msg: ServerMsg, frame: Frame)

  datatype Out = Out(session: Session, replies: seq<Reply>)

  /** respWithStatus: a reply that cannot be encoded is an uncaught exception. */
  function Respond(w: World, coder: Mode, iv: seq<byte>, msg: ServerMsg, next: Session): Out {
    match EncodeBody(w.aead, coder, iv, Ser(w, msg))
    case None => Out(Crashed, [])
    case Some(frame) => Out(next, [Reply(coder, msg, frame)])
  }

  function Then(first: Out, second: Out): Out {
    if first.session.Crashed? then first else Out(second.session, first.replies + second.replies)
  }

  function Decode<T>(w: World, coder: Mode, frame: Frame, parse: seq<byte> -> Option<T>): Option<T> {
    match DecodeBody(w.aead, coder, frame)
    case None => None
    case Some(body) => parse(body)
  }

  function ConnStep(w: World, s: Session, i: Input): Out
    requires s.Connected?
  {
    match Decode(w, s.coder, i.frame, w.parseConnRequest)
    case None => Respond(w, s.coder, i.iv, ToConn(ConnResponse(DecodeError, None)), s)
    case Some(request) =>
      match request.kind
      case RequestKex => KexStep(w, s, request.kex, i)
      case RequestAuth =>
        if !s.kexDone then Respond(w, s.coder, i.iv, ToConn(ConnResponse(RequestError, None)), s)
        else Respond(w, s.coder, i.iv, ToConn(ConnResponse(Ok, None)), Authenticating(s.coder, ATTEMPTS))
      case _ => Out(s, [])
  }

  /** handleKex: the positive reply still leaves in the old coder. */
  function KexStep(w: World, s: Session, kex: Option<KexMsg>, i: Input): Out
    requires s.Connected?
  {
    if s.kexDone || kex.None? then
      Respond(w, s.coder, i.iv, ToConn(ConnResponse(RequestError, None)), s)
    else if !kex.value.ecdh || |kex.value.pkey| != PUBLIC_KEYLENGTH then
      Respond(w, s.coder, i.iv, ToConn(ConnResponse(RequestError, Some(KexMsg(false, [])))), s)
    else
      match w.agree(i.priv, kex.value.pkey)
      case None => Respond(w, s.coder, i.iv, ToConn(ConnResponse(RequestError, Some(KexMsg(true, [])))), s)
      case Some(key) =>
        Respond(w, s.coder, i.iv, ToConn(ConnResponse(Ok, Some(KexMsg(true, w.pub(i.priv))))),
                Connected(Sealed(key), true))
  }

  /** A frame that fails to decode is answered and then handled all the same, with
      whatever the request object holds. */
  function AuthStep(w: World, s: Session, i: Input): Out
    requires s.Authenticating?
  {
    match Decode(w, s.coder, i.frame, w.parseAuthRequest)
    case Some(request) => AuthSwitch(w, s, request, i.iv2)
    case None =>
      Then(Respond(w, s.coder, i.iv, ToAuth(AuthResponse(AuthDecodeError)), s),
           AuthSwitch(w, s, i.leftover, i.iv2))
  }

  predicate Authentic(w: World, request: AuthRequest) {
    w.authenticator.None? || w.authenticator.value(request)
  }

  function AuthSwitch(w: World, s: Session, request: AuthRequest, iv: seq<byte>): Out
    requires s.Authenticating?
  {
    if request.kind != AuthSupply then Respond(w, s.coder, iv, ToAuth(AuthResponse(AuthInvalidRequest)), s)
    else if Authentic(w, request) then
      Respond(w, s.coder, iv, ToAuth(AuthResponse(AuthAccept)),
              if w.factory == UserFactory then User(s.coder) else Closed)
    else if s.remaining > 0 then
      Respond(w, s.coder, iv, ToAuth(AuthResponse(AuthContinue)), s.(remaining := s.remaining - 1))
    else Respond(w, s.coder, iv, ToAuth(AuthResponse(AuthReject)), Closed)
  }

  /** The user's answers, in the session's coder, up to the first that cannot be encoded. */
  function UserStep(w: World, coder: Mode, answers: seq<Answer>, next: Session): Out {
    if answers == [] then Out(next, [])
    else Then(Respond(w, coder, answers[0].iv, ToUser(answers[0].body), next), UserStep(w, coder, answers[1..], next))
  }

  function SessionStep(w: World, s: Session, i: Input): Out {
    match s
    case Connected(_, _) => ConnStep(w, s, i)
    case Authenticating(_, _) => AuthStep(w, s, i)
    case User(coder) => UserStep(w, coder, i.user.answers, if i.user.ends then Closed else s)
    case Closed => Out(s, [])
    case Crashed => Out(s, [])
  }

  /** The session after a sequence of incoming frames, with all replies. */
  function SessionRun(w: World, ins: seq<Input>): Out {
    if ins == [] then Out(FRESH, [])
    else
      var before := SessionRun(w, ins[..|ins|-1]);
      var o := SessionStep(w, before.session, ins[|ins|-1]);
      Out(o.session, before.replies + o.replies)
  }
}
