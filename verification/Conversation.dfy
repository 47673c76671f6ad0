/** One client in conversation with the running server: it sends a request only when the
    reply to the last one has been read. The coders agree, nothing is dropped, and every
    reply is decoded as it was made, over the cut byte streams and the two threads that
    stand between client and session. */
module Conversation {
  import opened Options
  import opened Wire
  import opened Coding
  import F = Framer
  import D = Deframer
  import opened Pipeline
  import opened PipelineProofs
  import T = PipelineTheorems
  import S = Session
  import ST = SessionTheorems
  import A = Agreement
  import E = EndToEnd

  // ---------------------------------------------------------------- what a session answers

  ghost predicate FitsFrame(w: S.World, r: S.Reply) {
    && |S.Ser(w, r.msg)| + Overhead(w.aead, r.mode) <= MAX_BODY
    && (r.mode.Plain? ==> S.Ser(w, r.msg) != [])
  }

  /** The user answers once at most, with what fits a sealed frame. */
  ghost predicate OneFits(w: S.World, user: S.Deed) {
    |user.answers| <= 1 && forall a | a in user.answers :: |a.body| + IV_SIZE + w.aead.tag <= MAX_BODY
  }

  /** Before the user phase a session answers with small messages. */
  lemma MessageKinds(w: S.World, s: S.Session, i: S.Input)
    requires !s.User? && forall a :: |w.pub(a)| == S.PUBLIC_KEYLENGTH
    ensures forall r | r in S.SessionStep(w, s, i).replies :: S.Small(r.msg)
  {
    hide EncodeBody, DecodeBody, S.Ser;
  }

  lemma MessagesFit(w: S.World, s: S.Session, i: S.Input)
    requires S.Lawful(w) && OneFits(w, i.user) && ST.CoderOk(s)
    ensures forall r | r in S.SessionStep(w, s, i).replies :: FitsFrame(w, r)
  {
    hide S.SessionStep;
    if s.User? {
      UserFits(w, s, i);
    } else {
      MessageKinds(w, s, i);
      forall r | r in S.SessionStep(w, s, i).replies ensures FitsFrame(w, r) {
        assert 0 < |S.Ser(w, r.msg)|;
      }
    }
  }

  lemma UserFits(w: S.World, s: S.Session, i: S.Input)
    requires OneFits(w, i.user) && s.User? && ST.CoderOk(s)
    ensures forall r | r in S.SessionStep(w, s, i).replies :: FitsFrame(w, r)
    ensures |S.SessionStep(w, s, i).replies| <= 1
  {
    ST.UserReplies(w, s.coder, i.user.answers, if i.user.ends then S.Closed else s);
    hide S.UserStep;
    forall r | r in S.SessionStep(w, s, i).replies ensures FitsFrame(w, r) {
      assert exists a :: a in i.user.answers && r.msg == S.ToUser(a.body) && r.mode == s.coder;
    }
  }

  /** A reply that fits is not empty and decodes, under its own coder, to its bytes. */
  lemma FittingReply(w: S.World, r: S.Reply, iv: seq<byte>)
    requires S.Lawful(w) && |iv| == IV_SIZE && ST.MadeWith(w, r, iv) && FitsFrame(w, r)
    ensures r.frame.msg != [] && DecodeBody(w.aead, r.mode, r.frame) == Some(S.Ser(w, r.msg))
  {
    EncodedShape(w.aead, r.mode, iv, S.Ser(w, r.msg));
    CodingExact(w.aead, r.mode, iv, S.Ser(w, r.msg));
  }

  ghost predicate Readable(w: S.World, r: S.Reply) {
    && WellFormed(r.frame) && r.frame.msg != []
    && DecodeBody(w.aead, r.mode, r.frame) == Some(S.Ser(w, r.msg))
  }

  lemma RepliesReadable(w: S.World, s: S.Session, i: S.Input)
    requires S.Lawful(w) && OneFits(w, i.user) && ST.CoderOk(s) && S.Fresh(i)
    ensures forall r | r in S.SessionStep(w, s, i).replies :: Readable(w, r)
  {
    MessagesFit(w, s, i);
    ST.RepliesEncode(w, s, i);
    ST.RepliesAreWellFormed(w, s, i);
    hide S.SessionStep, FitsFrame;
    forall r | r in S.SessionStep(w, s, i).replies ensures Readable(w, r) {
      var iv :| |iv| == IV_SIZE && ST.MadeWith(w, r, iv);
      FittingReply(w, r, iv);
    }
  }

  /** What is under way in a lock-step exchange: at most one frame, in either direction,
      and a check only with a session that is not asking for something else. */
  ghost predicate OneUnderway(w: S.World, n: A.Net) {
    match n.client.stage
    case AwaitKex(_) => |n.toServer| + |n.toClient| <= 1
    case AwaitGrant => |n.toServer| + |n.toClient| <= 1 && (n.toServer != [] ==> n.session.Connected?)
    case AwaitCheck => |n.toServer| + |n.toClient| <= 1 && (n.toServer != [] ==> CheckAsked(w, n.toServer[0].body))
    case _ => n.toServer == [] && n.toClient == []
  }

  ghost predicate CheckAsked(w: S.World, body: seq<byte>) {
    exists r :: body == w.serAuthRequest(r) && |body| + IV_SIZE + w.aead.tag <= MAX_BODY
  }

  lemma OneAnswer(w: S.World, n: A.Net, a: A.NetAction)
    requires S.Lawful(w) && A.NetInv(w, n) && OneUnderway(w, n) && a.ServerTakes? && A.NetEnabled(n, a)
    requires OneFits(w, a.user)
    ensures |S.SessionStep(w, n.session, A.InputOf(n, a)).replies| <= 1
    ensures OneUnderway(w, A.NetNext(w, n, a))
  {
    var i := A.InputOf(n, a);
    if n.session.Authenticating? {
      CheckDecodes(w, n);
      ST.AuthenticatingRepliesMean(w, n.session, i);
    } else if n.session.User? {
      UserFits(w, n.session, i);
      hide S.SessionStep;
    } else {
      hide EncodeBody, DecodeBody;
    }
  }

  lemma CheckDecodes(w: S.World, n: A.Net)
    requires S.Lawful(w) && A.NetInv(w, n) && OneUnderway(w, n) && n.toServer != [] && n.session.Authenticating?
    ensures S.Decode(w, n.session.coder, n.toServer[0].frame, w.parseAuthRequest).Some?
  {
    var p := n.toServer[0];
    assert A.Made(w, p);
    var r :| p.body == w.serAuthRequest(r) && |p.body| + IV_SIZE + w.aead.tag <= MAX_BODY;
    A.DecodesRight(w, p);
  }

  lemma AskingIsOne(w: S.World, n: A.Net, a: A.NetAction)
    requires S.Lawful(w) && A.NetInv(w, n) && OneUnderway(w, n) && (a.Connect? || a.Authenticate?) && A.NetEnabled(n, a)
    requires a.Authenticate? ==> |w.serAuthRequest(a.request)| + IV_SIZE + w.aead.tag <= MAX_BODY
    ensures OneUnderway(w, A.NetNext(w, n, a))
  {
    hide S.SessionStep;
    if a.Authenticate? {
      assert CheckAsked(w, w.serAuthRequest(a.request));
    }
  }

  lemma TakingIsOne(w: S.World, n: A.Net, a: A.NetAction)
    requires S.Lawful(w) && A.NetInv(w, n) && OneUnderway(w, n) && a.ClientTakes? && A.NetEnabled(n, a)
    ensures OneUnderway(w, A.NetNext(w, n, a))
  {
    hide S.SessionStep;
    if n.client.stage.AwaitKex? {
      A.ClientTakesKex(w, n, a, n.client.stage.priv);
    }
  }

  // ---------------------------------------------------------------- the writer

  /** While the writer is busy, the last frame given to it cannot be read from the wire. */
  lemma BusyIsUnread(tx: D.TxState, h: OutSide)
    requires AllWellFormed(h.accepted) && WireOk(tx, h) && tx.inProgress
    requires h.accepted != [] ==> h.accepted[|h.accepted|-1].msg != []
    ensures |ParseFrames(h.before + h.part)| < |h.accepted|
  {
    var n := |h.accepted| - 1;
    PartIsUnfinished(h.accepted[n], h.part, tx, h.cut);
    ParseInvertsEncode(h.accepted[..n]);
    ParseAppend(h.before, h.part);
    assert [] + h.part == h.part;
    ParseUnfinished(h.part);
  }

  lemma PartIsUnfinished(f: Frame, part: seq<byte>, tx: D.TxState, cut: D.Cut)
    requires WellFormed(f) && f.msg != [] && D.TxInv(f, part, tx, cut) && tx.inProgress
    ensures Unfinished(part)
  {
    D.InvIsPrefix(f, part, tx, cut);
    ProperPrefixUnfinished(f, part);
  }

  lemma ProperPrefixUnfinished(f: Frame, part: seq<byte>)
    requires WellFormed(f) && part <= Encode(f) && |part| < |Encode(f)|
    ensures Unfinished(part)
  {
  }

  /** The bytes on the wire of a connection only grow. */
  ghost predicate WireGrows(s: Sys, t: Sys, c: int)
    requires c in s.hist && c in t.hist
  {
    s.hist[c].outs.before + s.hist[c].outs.part <= t.hist[c].outs.before + t.hist[c].outs.part
  }

  lemma StepGrowsWire(s: Sys, a: Action, c: int)
    requires Enabled(s, a) && !(a.Accept? && a.c == c) && c in s.hist
    ensures c in Next(s, a).hist && WireGrows(s, Next(s, a), c)
  {
    hide F.RxStep, F.NextCut, F.LenTransferOk, D.TxStep, D.NextCut, D.LenSendOk, Proj, OfferTx, F.RxValid;
    if a.Write? && a.c == c {
      var h, wire := s.hist[c].outs, D.TxStep(s.conns[c].tx, a.sent).wire;
      assert h.before + (h.part + wire) == h.before + h.part + wire;
    }
    if a.OfferNext? {
      var h := s.hist[c].outs;
      assert h.before + h.part + [] == h.before + h.part;
    }
  }

  lemma SubseqSameLength<X>(a: seq<X>, b: seq<X>)
    requires Subseq(a, b)
    ensures |a| <= |b| && (|a| == |b| ==> a == b)
    decreases |b|
  {
    if a == [] {
    } else {
      var front := b[..|b|-1];
      if Subseq(a, front) {
        SubseqSameLength(a, front);
      } else {
        SubseqSameLength(a[..|a|-1], front);
        assert a == a[..|a|-1] + [a[|a|-1]] && b == front + [b[|b|-1]];
      }
    }
  }

  lemma {:induction false} EncodeAllGrows(fs: seq<Frame>, more: seq<Frame>)
    requires AllWellFormed(fs) && AllWellFormed(more)
    ensures AllWellFormed(fs + more) && EncodeAll(fs) <= EncodeAll(fs + more)
  {
    if more == [] {
      assert fs + more == fs;
    } else {
      var front, last := more[..|more|-1], more[|more|-1];
      EncodeAllGrows(fs, front);
      EncodeAllAppend(fs + front, last);
      assert fs + more == fs + front + [last];
    }
  }

  // ---------------------------------------------------------------- the conversation

  /** The server, the two ends of the conversation with the frames between them, every
      frame the client has sent, every input of the session, and how many replies the
      client has read. */
  datatype Talk = Talk(sys: Sys, net: A.Net, sent: seq<Frame>, ins: seq<S.Input>, got: nat)

  datatype Step =
    | Thread(a: Action)                  // a step of either thread
    | Handled(priv: nat, iv: seq<byte>, iv2: seq<byte>, leftover: S.AuthRequest, user: S.Deed)
    | Asks(request: A.NetAction)         // the client connects or authenticates
    | Reads(iv: seq<byte>)               // the client reads the next complete frame

  function FramesOfPackets(ps: seq<A.Packet>): (fs: seq<Frame>)
    ensures |fs| == |ps| && forall x | 0 <= x < |ps| :: fs[x] == ps[x].frame
  {
    seq(|ps|, x requires 0 <= x < |ps| => ps[x].frame)
  }

  function Rest<X>(q: seq<X>): seq<X> {
    if q == [] then [] else q[1..]
  }

  function InputNow(t: Talk, st: Step): S.Input
    requires st.Handled? && t.sys.worker.Fetched?
  {
    S.Input(t.sys.worker.frame, st.priv, st.iv, st.iv2, st.leftover, st.user)
  }

  /** What is on the wire for the client. */
  function Wired(t: Talk, c: int): seq<byte>
    requires c in t.sys.hist
  {
    t.sys.hist[c].outs.before + t.sys.hist[c].outs.part
  }

  ghost predicate Waiting(n: A.Net) {
    n.client.stage.AwaitKex? || n.client.stage.AwaitGrant? || n.client.stage.AwaitCheck?
  }

  /** The connection stays open, its length fields stay good, and the server reads no byte
      the client has not sent. */
  ghost predicate StaysGood(s: Sys, c: int, sent: seq<Frame>) {
    && c in s.conns && c in s.hist && s.hist[c].ins.ok && s.hist[c].outs.ok
    && AllWellFormed(sent) && s.hist[c].ins.consumed <= EncodeAll(sent)
  }

  ghost predicate CanStep(w: S.World, c: int, t: Talk, st: Step) {
    && c in t.sys.hist
    && match st
       case Thread(a) =>
         && Enabled(t.sys, a) && !E.Handles(t.sys, a, c) && !(a.Accept? && a.c == c)
         && StaysGood(Next(t.sys, a), c, t.sent)
       case Handled(_, _, _, _, user) =>
         && t.sys.worker.Fetched? && t.sys.worker.id == c && c in t.sys.contexts
         && S.Fresh(InputNow(t, st)) && OneFits(w, user) && Enabled(t.sys, E.HandleWith(w, t.ins, InputNow(t, st)))
       case Asks(a) =>
         && (a.Connect? || a.Authenticate?) && A.NetEnabled(t.net, a)
         && (a.Authenticate? ==> |w.serAuthRequest(a.request)| + IV_SIZE + w.aead.tag <= MAX_BODY)
       case Reads(iv) => Waiting(t.net) && |iv| == IV_SIZE && t.got < |ParseFrames(Wired(t, c))|
  }

  ghost function After(w: S.World, c: int, t: Talk, st: Step): Talk
    requires CanStep(w, c, t, st)
  {
    match st
    case Thread(a) => t.(sys := Next(t.sys, a))
    case Handled(_, _, _, _, _) =>
      var i := InputNow(t, st);
      var o := S.SessionStep(w, t.net.session, i);
      t.(sys := Next(t.sys, E.HandleWith(w, t.ins, i)), ins := t.ins + [i],
         net := t.net.(session := o.session, toServer := Rest(t.net.toServer),
                       toClient := t.net.toClient + A.Packets(w, o.replies)))
    case Asks(a) =>
      var n := A.NetNext(w, t.net, a);
      t.(net := n, sent := t.sent + FramesOfPackets(n.toServer[|t.net.toServer|..]))
    case Reads(iv) =>
      var o := A.ClientReceive(w, t.net.client, ParseFrames(Wired(t, c))[t.got], iv);
      t.(net := t.net.(client := o.client, toClient := Rest(t.net.toClient), toServer := t.net.toServer + o.sent),
         sent := t.sent + FramesOfPackets(o.sent), got := t.got + 1)
  }

  /** What client and server each have of the conversation, and what is between them. */
  ghost predicate Tied(w: S.World, c: int, t: Talk) {
    var before := S.SessionRun(w, t.ins);
    && t.net.session == before.session && E.InStep(w, t.sys, c, t.ins)
    && t.sent == E.FramesIn(t.ins) + FramesOfPackets(t.net.toServer)
    && t.got <= |before.replies| && A.Packets(w, before.replies)[t.got..] == t.net.toClient
    && (forall r | r in before.replies :: Readable(w, r))
  }

  ghost predicate TalkOk(w: S.World, c: int, t: Talk) {
    && Inv(t.sys) && StaysGood(t.sys, c, t.sent) && Tied(w, c, t)
    && A.NetInv(w, t.net) && OneUnderway(w, t.net)
    && t.sys.hist[c].outs.dropped == 0 && t.got <= |ParseFrames(Wired(t, c))|
  }

  // ------------------------------------------------ steps of the server threads

  /** Every response that meets the writer finds it idle. */
  lemma WriterIsIdle(w: S.World, c: int, t: Talk)
    requires TalkOk(w, c, t) && t.sys.loop.Holding? && t.sys.loop.id == c
    ensures !t.sys.conns[c].tx.inProgress
  {
    hide S.SessionRun, Proj, F.RxInv, ParseFrames, A.NetInv, E.FramesIn;
    var s := t.sys;
    assert ConnOk(s, c);
    var h, replies := s.hist[c].outs, S.SessionRun(w, t.ins).replies;
    SubseqSameLength(h.accepted, h.taken);
    assert h.replied == h.taken + ([s.loop.frame] + Proj(s.wqOut, c));
    assert |h.replied| <= |replies| <= t.got + 1;
    forall x | 0 <= x < |h.accepted| ensures h.accepted[x].msg != [] {
      assert h.accepted[x] == h.replied[x] == E.FramesOut(replies)[x] == replies[x].frame;
      assert replies[x] in replies;
    }
    if s.conns[c].tx.inProgress {
      BusyIsUnread(s.conns[c].tx, h);
    }
  }

  lemma ThreadDropsNothing(w: S.World, c: int, t: Talk, a: Action)
    requires TalkOk(w, c, t) && CanStep(w, c, t, Thread(a))
    ensures Next(t.sys, a).hist[c].outs.dropped == 0
    ensures t.got <= |ParseFrames(Wired(After(w, c, t, Thread(a)), c))|
  {
    T.MeetOnlyAtOffers(t.sys, a, c);
    StepGrowsWire(t.sys, a, c);
    ParsePrefix(Wired(t, c), Wired(After(w, c, t, Thread(a)), c));
    if a.OfferNext? && t.sys.loop.id == c {
      WriterIsIdle(w, c, t);
    }
    hide S.SessionRun, Proj, ParseFrames, A.NetInv, E.FramesIn, Tied, Inv, Next;
  }

  lemma ThreadKeeps(w: S.World, c: int, t: Talk, a: Action)
    requires TalkOk(w, c, t) && CanStep(w, c, t, Thread(a))
    ensures TalkOk(w, c, After(w, c, t, Thread(a)))
  {
    StepKeepsInv(t.sys, a);
    ThreadDropsNothing(w, c, t, a);
    E.OtherStaysInStep(w, t.sys, a, c, t.ins);
    hide S.SessionRun, Inv, A.NetInv, Next, Enabled, StaysGood, E.InStep, E.FramesIn, ParseFrames;
  }

  // ------------------------------------------------ steps of client and session

  lemma PacketsAppend(w: S.World, a: seq<S.Reply>, b: seq<S.Reply>)
    ensures A.Packets(w, a + b) == A.Packets(w, a) + A.Packets(w, b)
  {
    forall x | 0 <= x < |a + b| ensures A.Packets(w, a + b)[x] == (A.Packets(w, a) + A.Packets(w, b))[x] {
    }
  }

  /** The frame in the worker's hands is the oldest the client has under way. */
  lemma WorkerHoldsNext(w: S.World, c: int, t: Talk)
    requires TalkOk(w, c, t) && t.sys.worker.Fetched? && t.sys.worker.id == c
    ensures t.net.toServer != [] && t.net.toServer[0].frame == t.sys.worker.frame
  {
    hide S.SessionRun, Proj, F.RxInv, A.NetInv, A.Packets, OutsOk, Readable, EncodeAll;
    var s := t.sys;
    assert ConnOk(s, c);
    var h := s.hist[c].ins;
    ParsePrefix(h.consumed, EncodeAll(t.sent));
    ParseInvertsEncode(t.sent);
    assert h.parsed == h.handed + ([s.worker.frame] + Proj(s.wqIn, c));
    assert h.parsed <= t.sent;
    assert t.sent[|h.handed|] == s.worker.frame;
  }

  lemma FramesInSnoc(ins: seq<S.Input>, i: S.Input)
    ensures E.FramesIn(ins + [i]) == E.FramesIn(ins) + [i.frame]
  {
    assert (ins + [i])[..|ins|] == ins;
  }

  lemma SessionRunSnoc(w: S.World, ins: seq<S.Input>, i: S.Input)
    ensures var before := S.SessionRun(w, ins); var o := S.SessionStep(w, before.session, i);
            S.SessionRun(w, ins + [i]) == S.Out(o.session, before.replies + o.replies)
  {
    assert (ins + [i])[..|ins|] == ins;
  }

  function TakesOf(st: Step): A.NetAction
    requires st.Handled?
  {
    A.ServerTakes(st.priv, st.iv, st.iv2, st.leftover, st.user)
  }

  /** For client and session the worker's handling is the server taking a frame. */
  lemma HandledIsTaking(w: S.World, c: int, t: Talk, st: Step)
    requires S.Lawful(w) && TalkOk(w, c, t) && st.Handled? && CanStep(w, c, t, st)
    ensures A.NetEnabled(t.net, TakesOf(st)) && A.InputOf(t.net, TakesOf(st)) == InputNow(t, st)
    ensures After(w, c, t, st).net == A.NetNext(w, t.net, TakesOf(st))
    ensures A.NetInv(w, After(w, c, t, st).net) && OneUnderway(w, After(w, c, t, st).net)
  {
    WorkerHoldsNext(w, c, t);
    hide S.SessionStep, S.SessionRun, TalkOk, A.NetInv, OneUnderway, Enabled, Next, A.Packets;
    var a := TakesOf(st);
    assert After(w, c, t, st).net == A.NetNext(w, t.net, a);
    TalkNet(w, c, t);
    A.NetStepKeeps(w, t.net, a);
    OneAnswer(w, t.net, a);
  }

  lemma TalkNet(w: S.World, c: int, t: Talk)
    requires TalkOk(w, c, t)
    ensures A.NetInv(w, t.net) && OneUnderway(w, t.net) && ST.CoderOk(t.net.session)
  {
    hide Inv, Tied, StaysGood;
  }

  lemma HandledServer(w: S.World, c: int, t: Talk, st: Step)
    requires TalkOk(w, c, t) && st.Handled? && CanStep(w, c, t, st) && AeadLaws(w.aead)
    ensures var u := After(w, c, t, st);
            && Inv(u.sys) && StaysGood(u.sys, c, u.sent) && E.InStep(w, u.sys, c, u.ins)
            && u.sys.hist[c].outs == t.sys.hist[c].outs
  {
    hide Inv, S.SessionStep, S.SessionRun, A.NetInv, A.Packets, EncodeAll, E.InStep, E.FramesIn, OneUnderway,
      FramesOfPackets;
    var i := InputNow(t, st);
    var a := E.HandleWith(w, t.ins, i);
    StepKeepsInv(t.sys, a);
    E.HandleEnabled(w, t.sys, t.ins, i);
    assert (t.ins + [i])[..|t.ins|] == t.ins;
    E.HandleStaysInStep(w, t.sys, a, c, t.ins + [i]);
  }

  lemma DropOfAppend<X>(a: seq<X>, b: seq<X>, n: nat)
    requires n <= |a|
    ensures (a + b)[n..] == a[n..] + b
  {
  }

  lemma FirstPacket(ps: seq<A.Packet>)
    requires ps != []
    ensures FramesOfPackets(ps) == [ps[0].frame] + FramesOfPackets(ps[1..])
  {
  }

  lemma InputMoves(ins: seq<S.Input>, i: S.Input, toServer: seq<A.Packet>)
    requires toServer != [] && toServer[0].frame == i.frame
    ensures E.FramesIn(ins) + FramesOfPackets(toServer) == E.FramesIn(ins + [i]) + FramesOfPackets(toServer[1..])
  {
    FramesInSnoc(ins, i);
    FirstPacket(toServer);
    AppendAssoc(E.FramesIn(ins), [i.frame], FramesOfPackets(toServer[1..]));
    hide *;
  }

  lemma RepliesFollow(w: S.World, ins: seq<S.Input>, i: S.Input, got: nat)
    requires got <= |S.SessionRun(w, ins).replies|
    ensures var before, after := S.SessionRun(w, ins), S.SessionRun(w, ins + [i]);
            var o := S.SessionStep(w, before.session, i);
            && after.session == o.session && after.replies == before.replies + o.replies
            && A.Packets(w, after.replies)[got..] == A.Packets(w, before.replies)[got..] + A.Packets(w, o.replies)
  {
    SessionRunSnoc(w, ins, i);
    hide S.SessionStep, S.SessionRun, A.Packets;
    var before := S.SessionRun(w, ins);
    var o := S.SessionStep(w, before.session, i);
    PacketsAppend(w, before.replies, o.replies);
    DropOfAppend(A.Packets(w, before.replies), A.Packets(w, o.replies), got);
  }

  lemma HandledTied(w: S.World, c: int, t: Talk, st: Step)
    requires S.Lawful(w) && TalkOk(w, c, t) && st.Handled? && CanStep(w, c, t, st)
    requires E.InStep(w, After(w, c, t, st).sys, c, After(w, c, t, st).ins)
    ensures Tied(w, c, After(w, c, t, st))
  {
    hide S.SessionStep, S.SessionRun, A.NetInv, A.Packets, Inv, E.InStep, E.FramesIn, FramesOfPackets, OneUnderway,
      Enabled, Next, Readable, StaysGood, S.Lawful, E.HandleWith;
    var i, before := InputNow(t, st), S.SessionRun(w, t.ins);
    WorkerHoldsNext(w, c, t);
    TalkNet(w, c, t);
    InputMoves(t.ins, i, t.net.toServer);
    RepliesFollow(w, t.ins, i, t.got);
    RepliesReadable(w, before.session, i);
  }

  lemma HandledKeeps(w: S.World, c: int, t: Talk, st: Step)
    requires S.Lawful(w) && TalkOk(w, c, t) && st.Handled? && CanStep(w, c, t, st)
    ensures TalkOk(w, c, After(w, c, t, st))
  {
    HandledIsTaking(w, c, t, st);
    HandledServer(w, c, t, st);
    HandledTied(w, c, t, st);
    hide Inv, StaysGood, Tied, A.NetInv, OneUnderway, S.SessionStep, S.SessionRun, Next, Enabled, ParseFrames;
  }

  lemma PacketsWellFormed(w: S.World, mode: Mode, ps: seq<A.Packet>)
    requires AeadLaws(w.aead) && A.AllMade(w, mode, ps)
    ensures AllWellFormed(FramesOfPackets(ps))
  {
    forall x | 0 <= x < |ps| ensures WellFormed(ps[x].frame) {
      var p := ps[x];
      assert A.Made(w, p);
      var iv :| |iv| == IV_SIZE && EncodeBody(w.aead, p.mode, iv, p.body) == Some(p.frame);
      EncodedShape(w.aead, p.mode, iv, p.body);
    }
  }

  lemma FramesOfAppend(a: seq<A.Packet>, b: seq<A.Packet>)
    ensures FramesOfPackets(a + b) == FramesOfPackets(a) + FramesOfPackets(b)
  {
  }

  /** Frames the client sends are well formed and only lengthen what the server may read. */
  lemma SendingKeeps(w: S.World, c: int, t: Talk, net: A.Net, extra: seq<A.Packet>)
    requires TalkOk(w, c, t) && AeadLaws(w.aead)
    requires net.toServer == t.net.toServer + extra && A.AllMade(w, net.client.coder, net.toServer)
    ensures StaysGood(t.sys, c, t.sent + FramesOfPackets(extra))
    ensures t.sent + FramesOfPackets(extra) == E.FramesIn(t.ins) + FramesOfPackets(net.toServer)
  {
    hide Inv, A.NetInv, OneUnderway, S.SessionRun, E.InStep, E.FramesIn, FramesOfPackets, ParseFrames, A.AllMade;
    var more := FramesOfPackets(extra);
    FramesOfAppend(t.net.toServer, extra);
    AppendAssoc(E.FramesIn(t.ins), FramesOfPackets(t.net.toServer), more);
    PacketsWellFormed(w, net.client.coder, net.toServer);
    assert forall x | 0 <= x < |more| :: more[x] == FramesOfPackets(net.toServer)[|t.net.toServer| + x];
    EncodeAllGrows(t.sent, more);
  }

  lemma AsksKeeps(w: S.World, c: int, t: Talk, st: Step)
    requires S.Lawful(w) && TalkOk(w, c, t) && st.Asks? && CanStep(w, c, t, st)
    ensures TalkOk(w, c, After(w, c, t, st))
  {
    hide S.Lawful, Inv, A.NetInv, OneUnderway, S.SessionRun, E.InStep, E.FramesIn, FramesOfPackets, StaysGood, ParseFrames;
    TalkNet(w, c, t);
    LawfulCipher(w);
    var a, n := st.request, A.NetNext(w, t.net, st.request);
    A.NetStepKeeps(w, t.net, a);
    AskingIsOne(w, t.net, a);
    var extra := AskSends(w, t.net, a);
    NetMade(w, n);
    SendingKeeps(w, c, t, n, extra);
  }

  lemma LawfulCipher(w: S.World)
    requires S.Lawful(w)
    ensures AeadLaws(w.aead)
  {
  }

  lemma NetMade(w: S.World, n: A.Net)
    requires A.NetInv(w, n)
    ensures A.AllMade(w, n.client.coder, n.toServer) && A.AllMade(w, n.client.coder, n.toClient)
  {
  }

  /** Asking puts packets behind those under way and leaves the rest alone. */
  lemma AskSends(w: S.World, n: A.Net, a: A.NetAction) returns (extra: seq<A.Packet>)
    requires (a.Connect? || a.Authenticate?) && A.NetEnabled(n, a)
    ensures var t := A.NetNext(w, n, a);
            && t.session == n.session && t.toClient == n.toClient
            && t.toServer == n.toServer + extra && t.toServer[|n.toServer|..] == extra
  {
    hide S.SessionStep, A.Send;
    extra := A.NetNext(w, n, a).toServer[|n.toServer|..];
  }

  // ---------------------------------------------------------------- the client reads

  /** The next complete frame on the wire is the next reply, in its own coder. */
  lemma NextOnWire(w: S.World, c: int, t: Talk)
    requires TalkOk(w, c, t) && t.got < |ParseFrames(Wired(t, c))|
    ensures var replies := S.SessionRun(w, t.ins).replies;
            && t.got < |replies| && ParseFrames(Wired(t, c))[t.got] == replies[t.got].frame
            && t.net.toClient != [] && t.net.toClient[0] == A.Packets(w, replies)[t.got]
  {
    hide S.SessionRun, A.NetInv, E.FramesIn, OneUnderway, ParseFrames, EncodeAll, Proj, A.Packets, F.RxInv, Readable;
    var s := t.sys;
    assert ConnOk(s, c);
    var h, replies := s.hist[c].outs, S.SessionRun(w, t.ins).replies;
    SubseqSameLength(h.accepted, h.taken);
    T.WirePrefix(s.conns[c].tx, h);
    ParsePrefix(Wired(t, c), EncodeAll(h.accepted));
    ParseInvertsEncode(h.accepted);
    assert h.accepted <= E.FramesOut(replies);
  }

  lemma ReadingIsTaking(w: S.World, c: int, t: Talk, st: Step)
    requires S.Lawful(w) && TalkOk(w, c, t) && st.Reads? && CanStep(w, c, t, st)
    ensures A.NetEnabled(t.net, A.ClientTakes(st.iv))
    ensures After(w, c, t, st).net == A.NetNext(w, t.net, A.ClientTakes(st.iv))
    ensures A.NetInv(w, After(w, c, t, st).net) && OneUnderway(w, After(w, c, t, st).net)
  {
    NextOnWire(w, c, t);
    TalkNet(w, c, t);
    hide S.Lawful, S.SessionRun, TalkOk, A.NetInv, OneUnderway, Enabled, Next, A.Packets, ParseFrames;
    A.NetStepKeeps(w, t.net, A.ClientTakes(st.iv));
    TakingIsOne(w, t.net, A.ClientTakes(st.iv));
  }

  lemma DropOneMore<X>(a: seq<X>, n: nat)
    requires n < |a|
    ensures a[n..] != [] && a[n..][1..] == a[n + 1..]
  {
  }

  /** Reading leaves the server alone, and one reply less under way. */
  lemma ReadsTied(w: S.World, c: int, t: Talk, st: Step)
    requires TalkOk(w, c, t) && st.Reads? && CanStep(w, c, t, st) && AeadLaws(w.aead)
    requires A.NetInv(w, After(w, c, t, st).net)
    ensures Tied(w, c, After(w, c, t, st)) && StaysGood(t.sys, c, After(w, c, t, st).sent)
  {
    hide Inv, A.NetInv, OneUnderway, S.SessionRun, E.InStep, E.FramesIn, FramesOfPackets, StaysGood, ParseFrames,
      A.Packets, Readable, A.ClientReceive;
    var u := After(w, c, t, st);
    NextOnWire(w, c, t);
    NetMade(w, u.net);
    SendingKeeps(w, c, t, u.net, A.ClientReceive(w, t.net.client, ParseFrames(Wired(t, c))[t.got], st.iv).sent);
    DropOneMore(A.Packets(w, S.SessionRun(w, t.ins).replies), t.got);
  }

  lemma ReadsKeeps(w: S.World, c: int, t: Talk, st: Step)
    requires S.Lawful(w) && TalkOk(w, c, t) && st.Reads? && CanStep(w, c, t, st)
    ensures TalkOk(w, c, After(w, c, t, st))
  {
    hide S.Lawful, Inv, A.NetInv, OneUnderway, StaysGood, ParseFrames, Tied, A.ClientReceive;
    LawfulCipher(w);
    ReadingIsTaking(w, c, t, st);
    ReadsTied(w, c, t, st);
  }

  // ---------------------------------------------------------------- whole conversations

  lemma StepKeepsTalk(w: S.World, c: int, t: Talk, st: Step)
    requires S.Lawful(w) && TalkOk(w, c, t) && CanStep(w, c, t, st)
    ensures TalkOk(w, c, After(w, c, t, st))
  {
    hide TalkOk, CanStep, After, S.Lawful;
    match st
    case Thread(a) => ThreadKeeps(w, c, t, a);
    case Handled(_, _, _, _, _) => HandledKeeps(w, c, t, st);
    case Asks(_) => AsksKeeps(w, c, t, st);
    case Reads(_) => ReadsKeeps(w, c, t, st);
  }

  ghost predicate IsTalk(w: S.World, c: int, t: Talk, steps: seq<Step>)
    decreases |steps|, 0
  {
    steps == [] ||
    (IsTalk(w, c, t, steps[..|steps|-1]) && CanStep(w, c, TalkRun(w, c, t, steps[..|steps|-1]), steps[|steps|-1]))
  }

  ghost function TalkRun(w: S.World, c: int, t: Talk, steps: seq<Step>): Talk
    requires IsTalk(w, c, t, steps)
    decreases |steps|, 1
  {
    if steps == [] then t else After(w, c, TalkRun(w, c, t, steps[..|steps|-1]), steps[|steps|-1])
  }

  lemma {:induction false} TalkStaysOk(w: S.World, c: int, t: Talk, steps: seq<Step>)
    requires S.Lawful(w) && TalkOk(w, c, t) && IsTalk(w, c, t, steps)
    ensures TalkOk(w, c, TalkRun(w, c, t, steps))
  {
    hide TalkOk, CanStep, After, S.Lawful;
    if steps == [] {
    } else {
      TalkStaysOk(w, c, t, steps[..|steps|-1]);
      StepKeepsTalk(w, c, TalkRun(w, c, t, steps[..|steps|-1]), steps[|steps|-1]);
    }
  }

  /** The server has just accepted connection `c`, after anything else. */
  ghost predicate Begins(acts: seq<Action>, c: int, t: Talk) {
    && acts != [] && IsRun(START, acts) && acts[|acts|-1].Accept? && acts[|acts|-1].c == c
    && t == Talk(Run(START, acts), A.NET_START, [], [], 0)
  }

  lemma AcceptedFresh(s: Sys, a: Action)
    requires a.Accept? && Enabled(s, a)
    ensures var t := Next(s, a); a.c in t.conns && a.c in t.hist && t.hist[a.c] == NO_HIST && E.Todo(t, a.c) == []
  {
    hide Proj;
  }

  lemma FreshIsTied(w: S.World, c: int, s: Sys)
    requires c in s.hist && s.hist[c] == NO_HIST && E.Todo(s, c) == []
    ensures Tied(w, c, Talk(s, A.NET_START, [], [], 0))
  {
    hide S.SessionStep;
    assert S.SessionRun(w, []) == S.Out(S.FRESH, []);
    assert A.Packets(w, []) == [];
  }

  lemma NothingUnderway(w: S.World)
    ensures A.NetInv(w, A.NET_START) && OneUnderway(w, A.NET_START)
  {
    hide S.SessionStep;
  }

  lemma BeginsOk(w: S.World, acts: seq<Action>, c: int, t: Talk)
    requires Begins(acts, c, t)
    ensures TalkOk(w, c, t)
  {
    hide Inv, Enabled, Next, Tied, A.NetInv, OneUnderway, ParseFrames;
    RunKeepsInv(acts);
    AcceptedFresh(Run(START, acts[..|acts|-1]), acts[|acts|-1]);
    FreshIsTied(w, c, t.sys);
    NothingUnderway(w);
  }

  /** Conversations exist: any connection, once accepted, can begin one. */
  lemma ConversationsBegin(w: S.World, c: int, mem: seq<byte>, pad: byte, priv: nat, iv: seq<byte>) returns (t: Talk)
    requires |mem| == D.MAX_LEN && |iv| == IV_SIZE
    ensures Begins([Accept(c, mem, pad)], c, t) && IsTalk(w, c, t, [Asks(A.Connect(priv, iv))])
  {
    var a := Accept(c, mem, pad);
    hide Inv, S.SessionStep;
    assert [a][..0] == [];
    assert Enabled(Run(START, []), a);
    t := Talk(Run(START, [a]), A.NET_START, [], [], 0);
    AcceptedFresh(START, a);
    var steps := [Asks(A.Connect(priv, iv))];
    assert steps[..0] == [];
    assert CanStep(w, c, TalkRun(w, c, t, []), steps[0]);
  }

  /** For a client that asks only when the last reply is read, and a user who answers once
      at most and briefly enough, over every cut of the bytes
      and every interleaving with whatever else the server does, as long as the connection
      is open and its length fields are good: no response is dropped; the session is given
      a prefix of what the client sent; and every frame the client reads is the next reply,
      which its coder, the one the reply was made with, decodes to the reply's bytes. */
  lemma ConversationAgrees(w: S.World, acts: seq<Action>, c: int, t: Talk, steps: seq<Step>)
    requires S.Lawful(w) && Begins(acts, c, t) && IsTalk(w, c, t, steps)
    ensures var u := TalkRun(w, c, t, steps);
            && c in u.sys.hist
            && var h, replies := u.sys.hist[c].outs, S.SessionRun(w, u.ins).replies;
               && h.dropped == 0 && h.accepted == h.taken
               && E.FramesIn(u.ins) <= u.sent
               && (u.got < |ParseFrames(Wired(u, c))| ==>
                     && u.got < |replies|
                     && var r := replies[u.got];
                        && ParseFrames(Wired(u, c))[u.got] == r.frame && u.net.client.coder == r.mode
                        && DecodeBody(w.aead, u.net.client.coder, r.frame) == Some(S.Ser(w, r.msg)))
  {
    hide TalkOk, CanStep, After, S.Lawful, Begins;
    BeginsOk(w, acts, c, t);
    TalkStaysOk(w, c, t, steps);
    TalkAgrees(w, c, TalkRun(w, c, t, steps));
  }

  lemma TalkAgrees(w: S.World, c: int, u: Talk)
    requires TalkOk(w, c, u)
    ensures c in u.sys.hist
    ensures var h, replies := u.sys.hist[c].outs, S.SessionRun(w, u.ins).replies;
            && h.dropped == 0 && h.accepted == h.taken
            && E.FramesIn(u.ins) <= u.sent
            && (u.got < |ParseFrames(Wired(u, c))| ==>
                  && u.got < |replies|
                  && var r := replies[u.got];
                     && ParseFrames(Wired(u, c))[u.got] == r.frame && u.net.client.coder == r.mode
                     && DecodeBody(w.aead, u.net.client.coder, r.frame) == Some(S.Ser(w, r.msg)))
  {
    hide S.SessionRun, E.FramesIn, OneUnderway, ParseFrames, EncodeAll, Proj, A.Packets, FramesOfPackets, F.RxInv, WireOk;
    assert ConnOk(u.sys, c);
    var h := u.sys.hist[c].outs;
    SubseqSameLength(h.accepted, h.taken);
    if u.got < |ParseFrames(Wired(u, c))| {
      NextOnWire(w, c, u);
      NetMade(w, u.net);
      assert S.SessionRun(w, u.ins).replies[u.got] in S.SessionRun(w, u.ins).replies;
    }
  }
}
