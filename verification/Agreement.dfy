/** An honest client (Client.cpp) and the server session over reliable FIFO channels:
    both sides always use the coder the other side used. */
module Agreement {
  import opened Options
  import opened Wire
  import opened Coding
  import opened Session
  import opened SessionTheorems

  // ---------------------------------------------------------------- the client

  /** Where the client is in connect and authenticate; it waits in the Await stages. */
  datatype Stage = Idle | AwaitKex(priv: nat) | AwaitGrant | Ready | AwaitCheck | Failed

  datatype Client = Client(coder: Mode, stage: Stage, authenticated: bool)

  /** A frame on its way, with the coder and the message bytes it was made from. */
  datatype Packet = Packet(mode: Mode, body: seq<byte>, frame: Frame)

  datatype ClientOut = ClientOut(client: Client, sent: seq<Packet>)

  /** sendMsg: a message that cannot be encoded is not sent. */
  function Send(w: World, c: Client, iv: seq<byte>, body: seq<byte>, sent: Stage, unsent: Stage): ClientOut {
    match EncodeBody(w.aead, c.coder, iv, body)
    case None => ClientOut(c.(stage := unsent), [])
    case Some(frame) => ClientOut(c.(stage := sent), [Packet(c.coder, body, frame)])
  }

  function KexRequest(w: World, priv: nat): ConnRequest {
    ConnRequest(RequestKex, Some(KexMsg(true, w.pub(priv))))
  }

  const GRANT_REQUEST := ConnRequest(RequestAuth, None)

  function ClientConnect(w: World, c: Client, priv: nat, iv: seq<byte>): ClientOut {
    Send(w, c, iv, w.serConnRequest(KexRequest(w, priv)), AwaitKex(priv), Failed)
  }

  function ClientAuthenticate(w: World, c: Client, request: AuthRequest, iv: seq<byte>): ClientOut {
    Send(w, c, iv, w.serAuthRequest(request), AwaitCheck, Ready)
  }

  /** The key a response yields, if connect accepts it. */
  function KexKey(w: World, priv: nat, response: ConnResponse): Option<Key> {
    if response.status != Ok || response.kex.None? || !response.kex.value.ecdh
       || |response.kex.value.pkey| != PUBLIC_KEYLENGTH then None
    else w.agree(priv, response.kex.value.pkey)
  }

  function ClientReceive(w: World, c: Client, frame: Frame, iv: seq<byte>): ClientOut {
    match c.stage
    case AwaitKex(priv) =>
      (match Decode(w, c.coder, frame, w.parseConnResponse)
       case None => ClientOut(c.(stage := Failed), [])
       case Some(response) =>
         match KexKey(w, priv, response)
         case None => ClientOut(c.(stage := Failed), [])
         case Some(key) =>
           Send(w, c.(coder := Sealed(key)), iv, w.serConnRequest(GRANT_REQUEST), AwaitGrant, Failed))
    case AwaitGrant =>
      var response := Decode(w, c.coder, frame, w.parseConnResponse);
      ClientOut(c.(stage := if response.Some? && response.value.status == Ok then Ready else Failed), [])
    case AwaitCheck =>
      var response := Decode(w, c.coder, frame, w.parseAuthResponse);
      var accepted := response.Some? && response.value.status == AuthAccept;
      ClientOut(c.(stage := Ready, authenticated := c.authenticated || accepted), [])
    case _ => ClientOut(c, [])
  }

  /** The client goes on from the key exchange if and only if the answer is positive, with
      an elliptic-curve key of 32 bytes that agrees with its own, and its next request can
      be encoded; it is then under the agreed key. */
  lemma ClientTakesKey(w: World, c: Client, priv: nat, frame: Frame, iv: seq<byte>)
    requires c.stage == AwaitKex(priv)
    ensures var r, o := Decode(w, c.coder, frame, w.parseConnResponse), ClientReceive(w, c, frame, iv);
            var good := r.Some? && r.value.status == Ok && r.value.kex.Some? && r.value.kex.value.ecdh
                        && |r.value.kex.value.pkey| == 32 && w.agree(priv, r.value.kex.value.pkey).Some?;
            && (!good ==> o == ClientOut(c.(stage := Failed), []))
            && (good ==>
                  var key := w.agree(priv, r.value.kex.value.pkey).value;
                  var grant := EncodeBody(w.aead, Sealed(key), iv, w.serConnRequest(ConnRequest(RequestAuth, None)));
                  && o.client.coder == Sealed(key) && o.client.authenticated == c.authenticated
                  && (o.client.stage == AwaitGrant <==> grant.Some?) && (o.client.stage == Failed <==> grant.None?)
                  && (grant.None? ==> o.sent == []) && (grant.Some? ==> |o.sent| == 1 && o.sent[0].frame == grant.value))
  {
  }

  /** It is ready, or authenticated, if and only if the reply decodes and says so. */
  lemma ClientTakesVerdict(w: World, c: Client, frame: Frame, iv: seq<byte>)
    requires c.stage == AwaitGrant || c.stage == AwaitCheck
    ensures var o := ClientReceive(w, c, frame, iv);
            && o.sent == [] && o.client.coder == c.coder
            && (c.stage == AwaitGrant ==>
                  var r := Decode(w, c.coder, frame, w.parseConnResponse);
                  && o.client.authenticated == c.authenticated
                  && (o.client.stage == Ready <==> r.Some? && r.value.status == Ok)
                  && (o.client.stage == Failed <==> r.None? || r.value.status != Ok))
            && (c.stage == AwaitCheck ==>
                  var r := Decode(w, c.coder, frame, w.parseAuthResponse);
                  && o.client.stage == Ready
                  && (o.client.authenticated <==> c.authenticated || (r.Some? && r.value.status == AuthAccept)))
  {
  }

  // ---------------------------------------------------------------- both sides

  datatype Net = Net(session: Session, client: Client, toServer: seq<Packet>, toClient: seq<Packet>)

  datatype NetAction =
    | Connect(priv: nat, iv: seq<byte>)
    | Authenticate(request: AuthRequest, iv: seq<byte>)
    | ServerTakes(priv: nat, iv: seq<byte>, iv2: seq<byte>, leftover: AuthRequest, user: Deed)
    | ClientTakes(iv: seq<byte>)

  const NET_START := Net(FRESH, Client(Plain, Idle, false), [], [])

  predicate NetEnabled(n: Net, a: NetAction) {
    match a
    case Connect(_, iv) => n.client.stage == Idle && |iv| == IV_SIZE
    case Authenticate(_, iv) => n.client.stage == Ready && |iv| == IV_SIZE
    case ServerTakes(_, iv, iv2, _, user) =>
      n.toServer != [] && |iv| == IV_SIZE && |iv2| == IV_SIZE && AllSized(user.answers)
    case ClientTakes(iv) =>
      (n.client.stage.AwaitKex? || n.client.stage.AwaitGrant? || n.client.stage.AwaitCheck?) &&
      n.toClient != [] && |iv| == IV_SIZE
  }

  function Packets(w: World, replies: seq<Reply>): (ps: seq<Packet>)
    ensures |ps| == |replies|
    ensures forall x | 0 <= x < |ps| :: ps[x] == Packet(replies[x].mode, Ser(w, replies[x].msg), replies[x].frame)
  {
    if replies == [] then []
    else Packets(w, replies[..|replies|-1]) +
         [Packet(replies[|replies|-1].mode, Ser(w, replies[|replies|-1].msg), replies[|replies|-1].frame)]
  }

  function InputOf(n: Net, a: NetAction): Input
    requires a.ServerTakes? && n.toServer != []
  {
    Input(n.toServer[0].frame, a.priv, a.iv, a.iv2, a.leftover, a.user)
  }

  function NetNext(w: World, n: Net, a: NetAction): Net
    requires NetEnabled(n, a)
  {
    match a
    case Connect(priv, iv) =>
      var o := ClientConnect(w, n.client, priv, iv);
      n.(client := o.client, toServer := n.toServer + o.sent)
    case Authenticate(request, iv) =>
      var o := ClientAuthenticate(w, n.client, request, iv);
      n.(client := o.client, toServer := n.toServer + o.sent)
    case ServerTakes(_, _, _, _, _) =>
      var o := SessionStep(w, n.session, InputOf(n, a));
      n.(session := o.session, toServer := n.toServer[1..], toClient := n.toClient + Packets(w, o.replies))
    case ClientTakes(iv) =>
      var o := ClientReceive(w, n.client, n.toClient[0].frame, iv);
      n.(client := o.client, toClient := n.toClient[1..], toServer := n.toServer + o.sent)
  }

  ghost predicate IsNetRun(w: World, acts: seq<NetAction>)
    decreases |acts|, 0
  {
    acts == [] ||
    (IsNetRun(w, acts[..|acts|-1]) && NetEnabled(NetRun(w, acts[..|acts|-1]), acts[|acts|-1]))
  }

  ghost function NetRun(w: World, acts: seq<NetAction>): Net
    requires IsNetRun(w, acts)
    decreases |acts|, 1
  {
    if acts == [] then NET_START else NetNext(w, NetRun(w, acts[..|acts|-1]), acts[|acts|-1])
  }

  // ---------------------------------------------------------------- the invariant

  /** The frame really is the encoding of those bytes in that mode. */
  ghost predicate Made(w: World, p: Packet) {
    |p.body| <= MAX_BODY &&
    exists iv :: |iv| == IV_SIZE && EncodeBody(w.aead, p.mode, iv, p.body) == Some(p.frame)
  }

  ghost predicate AllMade(w: World, mode: Mode, ps: seq<Packet>) {
    forall x | 0 <= x < |ps| :: ps[x].mode == mode && Made(w, ps[x])
  }

  ghost predicate KexAsked(w: World, n: Net, priv: nat) {
    && n.session == FRESH && |n.toServer| == 1 && n.toClient == []
    && n.toServer[0].body == w.serConnRequest(KexRequest(w, priv))
  }

  ghost predicate KexGranted(w: World, n: Net, priv: nat, other: nat) {
    && n.toServer == [] && |n.toClient| == 1
    && n.toClient[0].body == w.serConnResponse(ConnResponse(Ok, Some(KexMsg(true, w.pub(other)))))
    && w.agree(other, w.pub(priv)).Some?
    && n.session == Connected(Sealed(w.agree(other, w.pub(priv)).value), true)
  }

  ghost predicate KexRefused(w: World, n: Net) {
    && n.session == FRESH && n.toServer == [] && |n.toClient| == 1
    && exists r: ConnResponse :: r.status != Ok && n.toClient[0].body == w.serConnResponse(r)
  }

  /** Either the coders agree and both channels carry only that mode, or the key
      exchange is between its request and the client's handling of the answer. */
  ghost predicate NetInv(w: World, n: Net) {
    && CoderOk(n.session)
    && AllMade(w, n.client.coder, n.toServer) && AllMade(w, n.client.coder, n.toClient)
    && (match n.client.stage
       case Idle => n == NET_START
       case AwaitKex(priv) =>
         n.client.coder == Plain &&
         (KexAsked(w, n, priv) || (exists other :: KexGranted(w, n, priv, other)) || KexRefused(w, n))
       case Failed => n.client.coder == Plain ==> n.toServer == [] && n.toClient == []
       case _ => n.client.coder.Sealed?)
    && (n.client.coder.Sealed? ==> CoderOf(n.session) == None || CoderOf(n.session) == Some(n.client.coder))
  }

  lemma RepliesAreMade(w: World, s: Session, i: Input, mode: Mode)
    requires CoderOk(s) && Fresh(i) && (CoderOf(s) == None || CoderOf(s) == Some(mode))
    ensures AllMade(w, mode, Packets(w, SessionStep(w, s, i).replies))
  {
    hide SessionStep, Ser;
    StepReplies(w, s, i);
    RepliesEncode(w, s, i);
    var o := SessionStep(w, s, i);
    forall x | 0 <= x < |o.replies| ensures Made(w, Packets(w, o.replies)[x]) {
      var iv :| |iv| == IV_SIZE && MadeWith(w, o.replies[x], iv);
    }
  }

  lemma AllMadeAppend(w: World, mode: Mode, a: seq<Packet>, b: seq<Packet>)
    requires AllMade(w, mode, a) && AllMade(w, mode, b)
    ensures AllMade(w, mode, a + b)
  {
  }

  /** A packet that fits its frame decodes to its bytes under its own coder. */
  lemma DecodesRight(w: World, p: Packet)
    requires Lawful(w) && Made(w, p) && |p.body| + Overhead(w.aead, p.mode) <= MAX_BODY
    ensures DecodeBody(w.aead, p.mode, p.frame) == Some(p.body)
  {
    var iv :| |iv| == IV_SIZE && EncodeBody(w.aead, p.mode, iv, p.body) == Some(p.frame);
    CodingExact(w.aead, p.mode, iv, p.body);
  }

  lemma ConnectKeeps(w: World, n: Net, a: NetAction)
    requires Lawful(w) && NetInv(w, n) && a.Connect? && NetEnabled(n, a)
    ensures NetInv(w, NetNext(w, n, a))
  {
  }

  lemma AuthenticateKeeps(w: World, n: Net, a: NetAction)
    requires Lawful(w) && NetInv(w, n) && a.Authenticate? && NetEnabled(n, a)
    ensures NetInv(w, NetNext(w, n, a))
  {
  }

  /** The server answers the key exchange in plain and only then changes its coder. */
  lemma ServerAnswersKex(w: World, n: Net, a: NetAction, priv: nat)
    requires Lawful(w) && NetInv(w, n) && a.ServerTakes? && NetEnabled(n, a)
    requires n.client.stage == AwaitKex(priv) && KexAsked(w, n, priv)
    ensures var t := NetNext(w, n, a);
            t.client == n.client && (KexGranted(w, t, priv, a.priv) || KexRefused(w, t))
  {
  }

  lemma ServerKeeps(w: World, n: Net, a: NetAction)
    requires Lawful(w) && NetInv(w, n) && a.ServerTakes? && NetEnabled(n, a)
    ensures NetInv(w, NetNext(w, n, a))
  {
    var i, t := InputOf(n, a), NetNext(w, n, a);
    PhasesAdvance(w, n.session, i);
    if n.client.stage.AwaitKex? {
      RepliesAreMade(w, n.session, i, n.client.coder);
      ServerAnswersKex(w, n, a, n.client.stage.priv);
    } else {
      RepliesAreMade(w, n.session, i, n.client.coder);
      AllMadeAppend(w, n.client.coder, n.toClient, Packets(w, SessionStep(w, n.session, i).replies));
    }
  }

  lemma ClientTakesRefusal(w: World, n: Net, a: NetAction, priv: nat)
    requires Lawful(w) && NetInv(w, n) && a.ClientTakes? && NetEnabled(n, a) && n.client.stage == AwaitKex(priv)
    requires KexRefused(w, n)
    ensures NetInv(w, NetNext(w, n, a))
  {
    hide SessionStep;
    assert n.toClient[0].frame.msg == n.toClient[0].body by {
      assert Made(w, n.toClient[0]);
    }
    assert n.toServer + [] == [];
  }

  lemma ClientTakesGrant(w: World, n: Net, a: NetAction, priv: nat, other: nat)
    requires Lawful(w) && NetInv(w, n) && a.ClientTakes? && NetEnabled(n, a) && n.client.stage == AwaitKex(priv)
    requires KexGranted(w, n, priv, other)
    ensures NetInv(w, NetNext(w, n, a))
  {
    hide SessionStep;
    var response := ConnResponse(Ok, Some(KexMsg(true, w.pub(other))));
    assert Decode(w, Plain, n.toClient[0].frame, w.parseConnResponse) == Some(response) by {
      assert Made(w, n.toClient[0]);
    }
    var key := w.agree(other, w.pub(priv)).value;
    assert KexKey(w, priv, response) == Some(key);
    var o := Send(w, n.client.(coder := Sealed(key)), a.iv, w.serConnRequest(GRANT_REQUEST), AwaitGrant, Failed);
    SentIsMade(w, n.client.(coder := Sealed(key)), a.iv, w.serConnRequest(GRANT_REQUEST), AwaitGrant, Failed);
    assert NetNext(w, n, a) == Net(n.session, o.client, [] + o.sent, []);
    assert [] + o.sent == o.sent;
    hide NetNext, Send;
  }

  lemma SentIsMade(w: World, c: Client, iv: seq<byte>, body: seq<byte>, sent: Stage, unsent: Stage)
    requires |iv| == IV_SIZE
    ensures var o := Send(w, c, iv, body, sent, unsent);
            AllMade(w, c.coder, o.sent) && o.client.coder == c.coder && o.client.stage in {sent, unsent}
  {
  }

  /** The client takes the key of the very exchange the server has completed. */
  lemma ClientTakesKex(w: World, n: Net, a: NetAction, priv: nat)
    requires Lawful(w) && NetInv(w, n) && a.ClientTakes? && NetEnabled(n, a) && n.client.stage == AwaitKex(priv)
    ensures NetInv(w, NetNext(w, n, a))
  {
    hide NetNext, AllMade;
    if KexRefused(w, n) {
      ClientTakesRefusal(w, n, a, priv);
    } else {
      var other :| KexGranted(w, n, priv, other);
      ClientTakesGrant(w, n, a, priv, other);
    }
  }

  lemma NetStepKeeps(w: World, n: Net, a: NetAction)
    requires Lawful(w) && NetInv(w, n) && NetEnabled(n, a)
    ensures NetInv(w, NetNext(w, n, a))
  {
    match a
    case Connect(_, _) => ConnectKeeps(w, n, a);
    case Authenticate(_, _) => AuthenticateKeeps(w, n, a);
    case ServerTakes(_, _, _, _, _) => ServerKeeps(w, n, a);
    case ClientTakes(_) =>
      if n.client.stage.AwaitKex? {
        ClientTakesKex(w, n, a, n.client.stage.priv);
      } else {
        assert n.toServer + [] == n.toServer;
      }
  }

  lemma {:induction false} NetRunKeeps(w: World, acts: seq<NetAction>)
    requires Lawful(w) && IsNetRun(w, acts)
    ensures NetInv(w, NetRun(w, acts))
  {
    if acts == [] {
    } else {
      NetRunKeeps(w, acts[..|acts|-1]);
      NetStepKeeps(w, NetRun(w, acts[..|acts|-1]), acts[|acts|-1]);
    }
  }

  /** In every run of connect and any number of authentications: a frame is decoded with
      the mode and key it was encoded with, on both sides and across the change of coder,
      and every message that fits its frame is restored. */
  lemma CoderAgreement(w: World, acts: seq<NetAction>)
    requires Lawful(w) && IsNetRun(w, acts)
    ensures var n := NetRun(w, acts);
            && (n.toServer != [] && CoderOf(n.session).Some? ==> CoderOf(n.session) == Some(n.toServer[0].mode))
            && (n.toClient != [] ==> n.client.coder == n.toClient[0].mode)
            && (forall p | p in n.toServer + n.toClient ::
                  |p.body| + Overhead(w.aead, p.mode) <= MAX_BODY ==>
                    DecodeBody(w.aead, p.mode, p.frame) == Some(p.body))
  {
    NetRunKeeps(w, acts);
    var n := NetRun(w, acts);
    forall p | p in n.toServer + n.toClient && |p.body| + Overhead(w.aead, p.mode) <= MAX_BODY
      ensures DecodeBody(w.aead, p.mode, p.frame) == Some(p.body)
    {
      assert Made(w, p);
      DecodesRight(w, p);
    }
  }

  // ------------------------------------------------------- the exchange completes

  lemma MsgArrives<T>(w: World, mode: Mode, iv: seq<byte>, body: seq<byte>, parse: seq<byte> -> Option<T>)
    requires Lawful(w) && |iv| == IV_SIZE && |body| + IV_SIZE + w.aead.tag <= MAX_BODY
    ensures var f := EncodeBody(w.aead, mode, iv, body);
            f.Some? && Decode(w, mode, f.value, parse) == parse(body)
  {
    CodingExact(w.aead, mode, iv, body);
  }

  ghost function Sent(w: World, mode: Mode, iv: seq<byte>, body: seq<byte>): Packet {
    var f := EncodeBody(w.aead, mode, iv, body);
    Packet(mode, body, if f.Some? then f.value else Frame(0, []))
  }

  /** The server's answer to the public key of `priv`, having drawn `other`. */
  function KexAnswer(w: World, priv: nat, other: nat): ConnResponse {
    if w.agree(other, w.pub(priv)).Some? then ConnResponse(Ok, Some(KexMsg(true, w.pub(other))))
    else ConnResponse(RequestError, Some(KexMsg(true, [])))
  }

  /** The points of one connect, each with the frame under way and its vector. */
  ghost function Asked(w: World, priv: nat, iv: seq<byte>): Net {
    Net(FRESH, Client(Plain, AwaitKex(priv), false), [Sent(w, Plain, iv, w.serConnRequest(KexRequest(w, priv)))], [])
  }

  ghost function Answered(w: World, priv: nat, other: nat, iv: seq<byte>): Net {
    var key := w.agree(other, w.pub(priv));
    Net(if key.Some? then Connected(Sealed(key.value), true) else FRESH, Client(Plain, AwaitKex(priv), false), [],
        [Sent(w, Plain, iv, w.serConnResponse(KexAnswer(w, priv, other)))])
  }

  ghost function GrantAsked(w: World, key: Key, iv: seq<byte>): Net {
    Net(Connected(Sealed(key), true), Client(Sealed(key), AwaitGrant, false),
        [Sent(w, Sealed(key), iv, w.serConnRequest(GRANT_REQUEST))], [])
  }

  ghost function Granted(w: World, key: Key, iv: seq<byte>): Net {
    Net(Authenticating(Sealed(key), ATTEMPTS), Client(Sealed(key), AwaitGrant, false), [],
        [Sent(w, Sealed(key), iv, w.serConnResponse(ConnResponse(Ok, None)))])
  }

  /** Where connect ends: both sides ready under the agreed key, or the client failed and
      the session as fresh as before. */
  function Outcome(w: World, priv: nat, other: nat): Net {
    match w.agree(other, w.pub(priv))
    case None => Net(FRESH, Client(Plain, Failed, false), [], [])
    case Some(key) => Net(Authenticating(Sealed(key), ATTEMPTS), Client(Sealed(key), Ready, false), [], [])
  }

  lemma AskKex(w: World, priv: nat, iv: seq<byte>)
    requires Lawful(w) && |iv| == IV_SIZE
    ensures NetNext(w, NET_START, Connect(priv, iv)) == Asked(w, priv, iv)
  {
    assert KexRequest(w, priv).kex.value.pkey == w.pub(priv);
  }

  lemma ServerAnswers(w: World, a: NetAction, priv: nat, iv: seq<byte>)
    requires Lawful(w) && |iv| == IV_SIZE && a.ServerTakes? && NetEnabled(Asked(w, priv, iv), a)
    ensures NetNext(w, Asked(w, priv, iv), a) == Answered(w, priv, a.priv, a.iv)
  {
    var request := KexRequest(w, priv);
    assert |w.serConnRequest(request)| + IV_SIZE + w.aead.tag <= MAX_BODY;
    MsgArrives(w, Plain, iv, w.serConnRequest(request), w.parseConnRequest);
    RespondsSmall(w, Plain, a.iv, KexAnswer(w, priv, a.priv));
  }

  /** A connect response always leaves, as one packet. */
  lemma RespondsSmall(w: World, mode: Mode, iv: seq<byte>, r: ConnResponse)
    requires Lawful(w) && |iv| == IV_SIZE && Small(ToConn(r))
    ensures forall next: Session :: !next.Crashed? ==>
              var o := Respond(w, mode, iv, ToConn(r), next);
              o.session == next && Packets(w, o.replies) == [Sent(w, mode, iv, w.serConnResponse(r))]
    ensures Decode(w, mode, Sent(w, mode, iv, w.serConnResponse(r)).frame, w.parseConnResponse) == Some(r)
  {
    assert |Ser(w, ToConn(r))| + IV_SIZE + w.aead.tag <= MAX_BODY;
    MsgArrives(w, mode, iv, w.serConnResponse(r), w.parseConnResponse);
  }

  lemma ClientTurns(w: World, a: NetAction, priv: nat, other: nat, iv: seq<byte>)
    requires Lawful(w) && |iv| == IV_SIZE && a.ClientTakes? && NetEnabled(Answered(w, priv, other, iv), a)
    ensures var key := w.agree(other, w.pub(priv));
            NetNext(w, Answered(w, priv, other, iv), a) ==
              if key.Some? then GrantAsked(w, key.value, a.iv) else Outcome(w, priv, other)
  {
    RespondsSmall(w, Plain, iv, KexAnswer(w, priv, other));
    assert |w.serConnRequest(GRANT_REQUEST)| + IV_SIZE + w.aead.tag <= MAX_BODY;
  }

  lemma ServerBegins(w: World, a: NetAction, key: Key, iv: seq<byte>)
    requires Lawful(w) && |iv| == IV_SIZE && a.ServerTakes? && NetEnabled(GrantAsked(w, key, iv), a)
    ensures NetNext(w, GrantAsked(w, key, iv), a) == Granted(w, key, a.iv)
  {
    assert |w.serConnRequest(GRANT_REQUEST)| + IV_SIZE + w.aead.tag <= MAX_BODY;
    MsgArrives(w, Sealed(key), iv, w.serConnRequest(GRANT_REQUEST), w.parseConnRequest);
    RespondsSmall(w, Sealed(key), a.iv, ConnResponse(Ok, None));
  }

  lemma ClientReady(w: World, a: NetAction, key: Key, iv: seq<byte>)
    requires Lawful(w) && |iv| == IV_SIZE && a.ClientTakes? && NetEnabled(Granted(w, key, iv), a)
    ensures NetNext(w, Granted(w, key, iv), a) ==
              Net(Authenticating(Sealed(key), ATTEMPTS), Client(Sealed(key), Ready, false), [], [])
  {
    RespondsSmall(w, Sealed(key), iv, ConnResponse(Ok, None));
  }

  /** Where a connect is after `k` steps. */
  ghost predicate InConnect(w: World, n: Net, priv: nat, other: nat, k: nat) {
    var key := w.agree(other, w.pub(priv));
    if k == 0 then n == NET_START
    else if k == 1 then exists iv :: |iv| == IV_SIZE && n == Asked(w, priv, iv)
    else if k == 2 then exists iv :: |iv| == IV_SIZE && n == Answered(w, priv, other, iv)
    else if k == Steps(w, priv, other) then n == Outcome(w, priv, other)
    else if k == 3 then key.Some? && exists iv :: |iv| == IV_SIZE && n == GrantAsked(w, key.value, iv)
    else k == 4 && key.Some? && exists iv :: |iv| == IV_SIZE && n == Granted(w, key.value, iv)
  }

  function Steps(w: World, priv: nat, other: nat): nat {
    if w.agree(other, w.pub(priv)).Some? then 5 else 3
  }

  /** Nothing but a new authentication can happen. */
  ghost predicate Settled(n: Net) {
    forall a :: NetEnabled(n, a) ==> a.Authenticate?
  }

  lemma ConnectStep(w: World, n: Net, a: NetAction, priv: nat, other: nat, k: nat)
    requires Lawful(w) && InConnect(w, n, priv, other, k) && NetEnabled(n, a) && !a.Authenticate?
    requires (k == 0 ==> a == Connect(priv, a.iv)) && (k == 1 && a.ServerTakes? ==> a.priv == other)
    ensures InConnect(w, NetNext(w, n, a), priv, other, k + 1)
  {
    hide NetNext, Sent;
    var key := w.agree(other, w.pub(priv));
    if k == 0 {
      AskKex(w, priv, a.iv);
    } else if k == 1 {
      var iv :| |iv| == IV_SIZE && n == Asked(w, priv, iv);
      ServerAnswers(w, a, priv, iv);
    } else if k == 2 {
      var iv :| |iv| == IV_SIZE && n == Answered(w, priv, other, iv);
      ClientTurns(w, a, priv, other, iv);
    } else if k == 3 {
      var iv :| |iv| == IV_SIZE && n == GrantAsked(w, key.value, iv);
      ServerBegins(w, a, key.value, iv);
    } else {
      var iv :| |iv| == IV_SIZE && n == Granted(w, key.value, iv);
      ClientReady(w, a, key.value, iv);
    }
  }

  lemma NotSettled(w: World, n: Net, priv: nat, other: nat, k: nat)
    requires InConnect(w, n, priv, other, k) && k < Steps(w, priv, other)
    ensures !Settled(n)
  {
    var iv := seq(IV_SIZE, _ => 0);
    var a := if k == 0 then Connect(priv, iv)
             else if n.toServer == [] then ClientTakes(iv)
             else ServerTakes(other, iv, iv, AuthRequest(AuthUnknown, [], []), Deed([], false));
    assert NetEnabled(n, a);
  }

  lemma {:induction false} ConnectFollows(w: World, acts: seq<NetAction>, priv: nat, other: nat)
    requires Lawful(w) && IsNetRun(w, acts) && forall i | 0 <= i < |acts| :: !acts[i].Authenticate?
    requires acts != [] && acts[0].Connect? ==> acts[0].priv == priv
    requires |acts| > 1 && acts[1].ServerTakes? ==> acts[1].priv == other
    ensures InConnect(w, NetRun(w, acts), priv, other, |acts|) && |acts| <= Steps(w, priv, other)
  {
    if acts == [] {
    } else {
      var before, a := acts[..|acts|-1], acts[|acts|-1];
      ConnectFollows(w, before, priv, other);
      ConnectStep(w, NetRun(w, before), a, priv, other, |before|);
    }
  }

  /** Every connect ends, after at most five steps and whatever vectors are drawn, with
      both sides ready under the agreed key, or, if the keys do not agree, with the client
      failed and the session untouched; and nowhere else does it come to a halt. */
  lemma ConnectCompletes(w: World, acts: seq<NetAction>, priv: nat, other: nat)
    requires Lawful(w) && IsNetRun(w, acts) && forall i | 0 <= i < |acts| :: !acts[i].Authenticate?
    requires acts != [] && acts[0].Connect? ==> acts[0].priv == priv
    requires |acts| > 1 && acts[1].ServerTakes? ==> acts[1].priv == other
    ensures |acts| <= 5
    ensures Settled(NetRun(w, acts)) <==> NetRun(w, acts) == Outcome(w, priv, other)
  {
    hide IsNetRun, NetRun;
    ConnectFollows(w, acts, priv, other);
    if |acts| < Steps(w, priv, other) {
      NotSettled(w, NetRun(w, acts), priv, other, |acts|);
    }
  }

  /** The `k`-th step of an exchange, with vectors of its own. */
  predicate InTurn(a: NetAction, k: nat) {
    && |a.iv| == IV_SIZE
    && if k == 0 then a.Connect?
       else if k == 2 || k == 4 then a.ClientTakes?
       else a.ServerTakes? && |a.iv2| == IV_SIZE && AllSized(a.user.answers)
  }

  predicate KeysAgree(w: World, acts: seq<NetAction>) {
    |acts| >= 2 && acts[0].Connect? && acts[1].ServerTakes? && w.agree(acts[1].priv, w.pub(acts[0].priv)).Some?
  }

  lemma TurnEnabled(w: World, n: Net, a: NetAction, priv: nat, other: nat, k: nat)
    requires InConnect(w, n, priv, other, k) && k < Steps(w, priv, other) && InTurn(a, k)
    ensures NetEnabled(n, a) && !a.Authenticate?
  {
    hide NetNext, Sent;
  }

  lemma {:induction false} Advances(w: World, acts: seq<NetAction>)
    requires Lawful(w) && 2 <= |acts| <= 5 && (forall i | 0 <= i < |acts| :: InTurn(acts[i], i))
    requires KeysAgree(w, acts)
    ensures IsNetRun(w, acts)
    decreases |acts|
  {
    hide NetNext, InConnect, NetEnabled;
    var before, a := acts[..|acts|-1], acts[|acts|-1];
    var priv, other := acts[0].priv, acts[1].priv;
    if |acts| == 2 {
      FirstTurn(w, before, priv, other);
    } else {
      Advances(w, before);
      ConnectFollows(w, before, priv, other);
    }
    TurnEnabled(w, NetRun(w, before), a, priv, other, |before|);
  }

  lemma FirstTurn(w: World, acts: seq<NetAction>, priv: nat, other: nat)
    requires Lawful(w) && |acts| == 1 && InTurn(acts[0], 0) && acts[0].priv == priv
    ensures IsNetRun(w, acts) && InConnect(w, NetRun(w, acts), priv, other, 1)
  {
    assert acts[..0] == [];
    assert NetEnabled(NetRun(w, acts[..0]), acts[0]);
    ConnectFollows(w, acts, priv, other);
  }

  /** Whenever the two keys agree, every exchange of these five steps can take place. */
  lemma HonestConnectSucceeds(w: World, acts: seq<NetAction>)
    requires Lawful(w) && |acts| == 5 && (forall i | 0 <= i < 5 :: InTurn(acts[i], i))
    requires KeysAgree(w, acts)
    ensures IsNetRun(w, acts) && NetRun(w, acts) == Outcome(w, acts[0].priv, acts[1].priv)
  {
    Advances(w, acts);
    hide IsNetRun, NetRun;
    ConnectFollows(w, acts, acts[0].priv, acts[1].priv);
  }

  /** From there, one authenticate succeeds exactly when the authenticator accepts the
      request (or there is none), and only then does the server leave the phase. */
  lemma AuthenticateExact(w: World, key: Key, remaining: nat, request: AuthRequest, iv: seq<byte>,
                          takes: NetAction, back: NetAction)
    requires Lawful(w) && |iv| == IV_SIZE && request.kind == AuthSupply
    requires |w.serAuthRequest(request)| + IV_SIZE + w.aead.tag <= MAX_BODY
    requires takes.ServerTakes? && |takes.iv| == IV_SIZE && |takes.iv2| == IV_SIZE && AllSized(takes.user.answers)
    requires back.ClientTakes? && |back.iv| == IV_SIZE
    ensures var accepted := w.authenticator.Some? ==> w.authenticator.value(request);
            var n0 := Net(Authenticating(Sealed(key), remaining), Client(Sealed(key), Ready, false), [], []);
            NetEnabled(n0, Authenticate(request, iv)) &&
            var n1 := NetNext(w, n0, Authenticate(request, iv));
            NetEnabled(n1, takes) &&
            var n2 := NetNext(w, n1, takes);
            NetEnabled(n2, back) &&
            var n3 := NetNext(w, n2, back);
            && n3.client.coder == Sealed(key) && n3.client.stage == Ready && n3.toClient == [] && n3.toServer == []
            && (n3.client.authenticated <==> accepted)
            && n3.session == (if accepted then if w.factory == UserFactory then User(Sealed(key)) else Closed
                              else if remaining > 0 then Authenticating(Sealed(key), remaining - 1) else Closed)
  {
    var s := Authenticating(Sealed(key), remaining);
    var n0 := Net(s, Client(Sealed(key), Ready, false), [], []);
    var n1 := NetNext(w, n0, Authenticate(request, iv));
    MsgArrives(w, Sealed(key), iv, w.serAuthRequest(request), w.parseAuthRequest);
    assert n1.toServer == [Sent(w, Sealed(key), iv, w.serAuthRequest(request))];
    CheckAnswers(w, s, request, takes.iv2);
    var o := SessionStep(w, s, InputOf(n1, takes));
    assert o == AuthSwitch(w, s, request, takes.iv2);
    var n2 := NetNext(w, n1, takes);
    assert |n2.toClient| == 1 && n2.toClient[0].frame == o.replies[0].frame;
  }

  lemma CheckAnswers(w: World, s: Session, request: AuthRequest, iv: seq<byte>)
    requires Lawful(w) && |iv| == IV_SIZE && s.Authenticating? && request.kind == AuthSupply
    ensures var o := AuthSwitch(w, s, request, iv);
            && |o.replies| == 1 && !o.session.Crashed?
            && var r := Decode(w, s.coder, o.replies[0].frame, w.parseAuthResponse);
               r.Some? && (r.value.status == AuthAccept <==> Authentic(w, request))
  {
    var status := if Authentic(w, request) then AuthAccept else if s.remaining > 0 then AuthContinue else AuthReject;
    var m := ToAuth(AuthResponse(status));
    assert Small(m);
    assert |Ser(w, m)| + IV_SIZE + w.aead.tag <= MAX_BODY;
    MsgArrives(w, s.coder, iv, w.serAuthResponse(AuthResponse(status)), w.parseAuthResponse);
  }
}
