/** Every step of either thread keeps the invariant of the pipeline. */
module PipelineProofs {
  import opened Options
  import opened Wire
  import F = Framer
  import D = Deframer
  import opened Pipeline

  // ---------------------------------------------------------------- queues

  lemma {:induction false} ProjAppend(p: seq<Item>, q: seq<Item>, c: int)
    ensures Proj(p + q, c) == Proj(p, c) + Proj(q, c)
  {
    if p == [] {
      assert p + q == q;
      assert Proj(p, c) + Proj(q, c) == Proj(q, c);
    } else {
      ProjFront(p, c);
      ProjFront(p + q, c);
      ProjAppend(p[1..], q, c);
      hide Proj;
      assert (p + q)[1..] == p[1..] + q && (p + q)[0] == p[0];
      AppendAssoc(if p[0].0 == c then [p[0].1] else [], Proj(p[1..], c), Proj(q, c));
    }
  }

  lemma AppendAssoc<X>(a: seq<X>, b: seq<X>, c: seq<X>)
    ensures a + (b + c) == a + b + c
  {
  }

  lemma {:induction false} ProjTag(c: int, fs: seq<Frame>, d: int)
    ensures Proj(F.Tag(c, fs), d) == if c == d then fs else []
  {
    if fs == [] {
    } else {
      ProjTag(c, fs[1..], d);
      assert F.Tag(c, fs)[1..] == F.Tag(c, fs[1..]);
    }
  }

  lemma ProjOne(c: int, f: Frame, d: int)
    ensures Proj([(c, f)], d) == if c == d then [f] else []
  {
  }

  lemma ProjFront(q: seq<Item>, c: int)
    requires q != []
    ensures Proj(q, c) == (if q[0].0 == c then [q[0].1] else []) + Proj(q[1..], c)
  {
  }

  lemma {:induction false} TagKnown(c: int, fs: seq<Frame>)
    ensures forall i | 0 <= i < |F.Tag(c, fs)| :: F.Tag(c, fs)[i].0 == c
  {
    if fs == [] {
    } else {
      TagKnown(c, fs[1..]);
    }
  }

  // ---------------------------------------------------------- one connection

  lemma ReadKeeps(conn: Conn, h: InSide, inbound: seq<Frame>, r: F.RecvResult)
    requires InsOk(Some(conn), h, inbound) && ConnValid(conn) && F.Delivers(F.Want(conn.rx), r)
    ensures var o := F.RxStep(conn.rx, r);
            InsOk(Some(conn.(rx := o.state)), ReadIns(conn, h, r), inbound + o.pushed)
  {
    var o, h' := F.RxStep(conn.rx, r), ReadIns(conn, h, r);
    assert h.handed + inbound + o.pushed == h.handed + (inbound + o.pushed);
    if h'.ok {
      F.RxInvStep(h.consumed, h.parsed, conn.rx, h.cut, r);
    }
  }

  lemma WriteKeeps(conn: Conn, h: OutSide, outbound: seq<Frame>, r: D.SendResult)
    requires OutsOk(Some(conn), h, outbound) && ConnValid(conn) && D.Takes(|D.Offer(conn.tx)|, r)
    ensures OutsOk(Some(conn.(tx := D.TxStep(conn.tx, r).state)), WriteOuts(conn, h, r), outbound)
  {
    var o, h' := D.TxStep(conn.tx, r), WriteOuts(conn, h, r);
    if h'.ok && h.accepted != [] {
      D.OneAttempt(h.accepted[|h.accepted|-1], h.part, conn.tx, h.cut, r, true);
    } else if h.accepted == [] {
      assert o.state == conn.tx && o.wire == [];
      assert h.part + [] == h.part;
    }
  }

  lemma SubseqGrows<T>(a: seq<T>, b: seq<T>, x: T)
    requires Subseq(a, b)
    ensures Subseq(a, b + [x]) && Subseq(a + [x], b + [x])
  {
  }

  lemma OfferKeeps(conn: Conn, h: OutSide, f: Frame, outbound: seq<Frame>, beyond: seq<byte>, pad: byte)
    requires OutsOk(Some(conn), h, [f] + outbound) && WellFormed(f) && |f.msg| + |beyond| == D.MAX_LEN
    ensures OutsOk(Some(conn.(tx := OfferTx(conn, f, beyond, pad))), OfferOuts(conn, h, f), outbound)
  {
    SubseqGrows(h.accepted, h.taken, f);
    assert h.taken + ([f] + outbound) == h.taken + [f] + outbound;
    if !conn.tx.inProgress && h.ok {
      OfferedWire(conn, h, f, beyond, pad);
    }
    hide WireOk, Subseq, D.TxStart;
  }

  /** An idle writer takes the frame behind the complete encodings. */
  lemma OfferedWire(conn: Conn, h: OutSide, f: Frame, beyond: seq<byte>, pad: byte)
    requires WellFormed(f) && |f.msg| + |beyond| == D.MAX_LEN
    requires AllWellFormed(h.accepted) && WireOk(conn.tx, h) && !conn.tx.inProgress
    ensures AllWellFormed(h.accepted + [f]) && WireOk(D.TxStart(f, beyond, pad), OfferOuts(conn, h, f))
  {
    var h' := OfferOuts(conn, h, f);
    D.StartCarries(f, beyond, pad);
    assert h'.accepted[..|h.accepted|] == h.accepted;
    FinishedWire(conn.tx, h);
    hide D.TxInv, D.TxStart;
  }

  /** With no frame in progress the wire holds complete encodings only. */
  lemma FinishedWire(tx: D.TxState, h: OutSide)
    requires AllWellFormed(h.accepted) && WireOk(tx, h) && !tx.inProgress
    ensures h.before + h.part == EncodeAll(h.accepted)
  {
    if h.accepted != [] {
      var n := |h.accepted| - 1;
      assert h.accepted == h.accepted[..n] + [h.accepted[n]];
      EncodeAllAppend(h.accepted[..n], h.accepted[n]);
    }
  }

  // ---------------------------------------------------------------- all connections

  lemma SameView(s: Sys, t: Sys, c: int)
    requires c in s.hist && ConnOk(s, c)
    requires c in t.hist && t.hist[c] == s.hist[c] && Look(t.conns, c) == Look(s.conns, c)
    requires Held(t.worker, c) + Proj(t.wqIn, c) == Held(s.worker, c) + Proj(s.wqIn, c)
    requires InHand(t.loop, c) + Proj(t.wqOut, c) == InHand(s.loop, c) + Proj(s.wqOut, c)
    ensures ConnOk(t, c)
  {
  }

  /** Closing a connection: what was handled stays a prefix of what was parsed. */
  lemma CloseView(s: Sys, t: Sys, c: int)
    requires c in s.hist && ConnOk(s, c)
    requires c in t.hist && t.hist[c] == s.hist[c] && c !in t.conns
    ensures ConnOk(t, c)
  {
  }

  lemma AcceptTarget(s: Sys, a: Action)
    requires a.Accept? && Enabled(s, a)
    ensures ConnOk(Next(s, a), a.c)
  {
    hide Proj;
    assert ParseFrames([]) == [];
  }

  lemma AcceptKeeps(s: Sys, a: Action)
    requires Inv(s) && a.Accept? && Enabled(s, a)
    ensures ConnsOk(Next(s, a))
  {
    AcceptTarget(s, a);
    hide InsOk, OutsOk, Proj;
    var t := Next(s, a);
    forall c | c in t.hist ensures ConnOk(t, c) {
      if c != a.c { SameView(s, t, c); }
    }
  }

  lemma ReadTarget(s: Sys, a: Action)
    requires a.Read? && Enabled(s, a) && ConnOk(s, a.c)
    ensures ConnOk(Next(s, a), a.c)
  {
    var conn, c, h := s.conns[a.c], a.c, s.hist[a.c];
    var o := F.RxStep(conn.rx, a.received);
    var inbound := Held(s.worker, c) + Proj(s.wqIn, c);
    ReadKeeps(conn, h.ins, inbound, a.received);
    InboundGrows(s, c, o.pushed);
    hide InsOk, OutsOk, F.RxStep, F.Delivers, F.Want, ConnValid, ReadIns, F.Tag, Proj;
    assert Next(s, a).wqIn == s.wqIn + F.Tag(c, o.pushed) && Next(s, a).worker == s.worker;
  }

  lemma InboundGrows(s: Sys, c: int, pushed: seq<Frame>)
    ensures Held(s.worker, c) + Proj(s.wqIn + F.Tag(c, pushed), c) == Held(s.worker, c) + Proj(s.wqIn, c) + pushed
  {
    ProjAppend(s.wqIn, F.Tag(c, pushed), c);
    ProjTag(c, pushed, c);
    hide Proj, F.Tag;
  }

  lemma ReadActionKeeps(s: Sys, a: Action)
    requires Inv(s) && a.Read? && Enabled(s, a)
    ensures ConnsOk(Next(s, a))
  {
    var t := Next(s, a);
    var pushed := F.RxStep(s.conns[a.c].rx, a.received).pushed;
    assert ConnOk(s, a.c);
    ReadTarget(s, a);
    hide InsOk, OutsOk, F.RxStep, F.NextCut, F.LenTransferOk, Proj, F.Tag;
    forall c | c in t.hist ensures ConnOk(t, c) {
      if c != a.c {
        ProjAppend(s.wqIn, F.Tag(a.c, pushed), c);
        ProjTag(a.c, pushed, c);
        assert Proj(s.wqIn, c) + [] == Proj(s.wqIn, c);
        SameView(s, t, c);
      }
    }
  }

  lemma CloseKeeps(s: Sys, a: Action)
    requires Inv(s) && a.Close? && Enabled(s, a)
    ensures ConnsOk(Next(s, a))
  {
    hide InsOk, OutsOk, Proj;
    var t := Next(s, a);
    forall c | c in t.hist ensures ConnOk(t, c) {
      if c == a.c { CloseView(s, t, c); } else { SameView(s, t, c); }
    }
  }

  lemma WriteActionKeeps(s: Sys, a: Action)
    requires Inv(s) && a.Write? && Enabled(s, a)
    ensures ConnsOk(Next(s, a))
  {
    hide OutsOk, Proj, F.RxInv, F.RxValid, ParseFrames, D.TxStep, D.Offer, D.NextCut, D.LenSendOk;
    var t, conn := Next(s, a), s.conns[a.c];
    forall c | c in t.hist ensures ConnOk(t, c) {
      if c == a.c {
        WriteKeeps(conn, s.hist[c].outs, InHand(s.loop, c) + Proj(s.wqOut, c), a.sent);
      } else {
        SameView(s, t, c);
      }
    }
  }

  lemma TokenKeeps(s: Sys, a: Action)
    requires Inv(s) && (a.TakeToken? || a.Stop? || a.WorkerNotify?) && Enabled(s, a)
    ensures ConnsOk(Next(s, a))
  {
    var t := Next(s, a);
    forall c | c in t.hist ensures ConnOk(t, c) {
      SameView(s, t, c);
    }
  }

  /** A response moves from the queue into the event loop's hands. */
  lemma FetchNextKeeps(s: Sys, a: Action)
    requires Inv(s) && a.FetchNext? && Enabled(s, a)
    ensures ConnsOk(Next(s, a))
  {
    hide InsOk, OutsOk;
    var t := Next(s, a);
    forall c | c in t.hist ensures ConnOk(t, c) {
      if s.wqOut != [] { ProjFront(s.wqOut, c); }
      assert [] + Proj(s.wqOut, c) == Proj(s.wqOut, c);
      SameView(s, t, c);
    }
  }

  lemma OfferNextKeeps(s: Sys, a: Action)
    requires Inv(s) && a.OfferNext? && Enabled(s, a)
    ensures ConnsOk(Next(s, a))
  {
    var t, d, f := Next(s, a), s.loop.id, s.loop.frame;
    hide InsOk, OutsOk, Proj;
    forall c | c in t.hist ensures ConnOk(t, c) {
      assert [] + Proj(s.wqOut, c) == Proj(s.wqOut, c);
      if c != d {
        SameView(s, t, c);
      } else if c in s.conns {
        OfferKeeps(s.conns[c], s.hist[c].outs, f, Proj(s.wqOut, c), a.beyond, a.behind);
      } else {
        CloseView(s, t, c);
      }
    }
  }

  lemma FetchKeeps(s: Sys, a: Action)
    requires Inv(s) && a.WorkerFetch? && Enabled(s, a)
    ensures ConnsOk(Next(s, a))
  {
    var t := Next(s, a);
    forall c | c in t.hist ensures ConnOk(t, c) {
      ProjFront(s.wqIn, c);
      assert [] + Proj(s.wqIn, c) == Proj(s.wqIn, c);
      SameView(s, t, c);
    }
  }

  /** An item of a connection closed meanwhile is skipped. */
  lemma SkipKeeps(s: Sys, a: Action)
    requires Inv(s) && a.WorkerHandle? && Enabled(s, a) && s.worker.id !in s.contexts
    ensures ConnsOk(Next(s, a))
  {
    var t := Next(s, a);
    forall c | c in t.hist ensures ConnOk(t, c) {
      if c == s.worker.id { CloseView(s, t, c); } else { SameView(s, t, c); }
    }
  }

  lemma HandledView(open: Option<Conn>, h: InSide, f: Frame, queued: seq<Frame>)
    requires InsOk(open, h, [f] + queued) && open.Some?
    ensures InsOk(open, h.(handed := h.handed + [f]), queued)
  {
  }

  lemma HandledKeeps(s: Sys, a: Action)
    requires Inv(s) && a.WorkerHandle? && Enabled(s, a) && s.worker.id in s.contexts && s.contexts[s.worker.id]
    ensures ConnsOk(Next(s, a))
  {
    var t, d, f := Next(s, a), s.worker.id, s.worker.frame;
    forall c | c in t.hist ensures ConnOk(t, c) {
      if c != d {
        SameView(s, t, c);
      } else {
        hide InsOk, OutsOk;
        HandledView(Look(s.conns, c), s.hist[c].ins, f, Proj(s.wqIn, c));
        assert Held(t.worker, c) + Proj(t.wqIn, c) == Proj(s.wqIn, c);
      }
    }
  }

  lemma HandleKeeps(s: Sys, a: Action)
    requires Inv(s) && a.WorkerHandle? && Enabled(s, a)
    ensures ConnsOk(Next(s, a))
  {
    if s.worker.id in s.contexts {
      HandledKeeps(s, a);
    } else {
      SkipKeeps(s, a);
    }
  }

  lemma PushTarget(s: Sys, a: Action)
    requires a.WorkerPush? && Enabled(s, a) && ConnOk(s, s.worker.id)
    ensures ConnOk(Next(s, a), s.worker.id)
  {
    var d, f := s.worker.id, s.worker.todo[0];
    ProjAppend(s.wqOut, [(d, f)], d);
    ProjOne(d, f, d);
    hide InsOk, Proj, WireOk, Subseq;
    var h, waiting := s.hist[d].outs, InHand(s.loop, d) + Proj(s.wqOut, d);
    assert InHand(s.loop, d) + (Proj(s.wqOut, d) + [f]) == waiting + [f];
    assert h.taken + waiting + [f] == h.taken + (waiting + [f]);
  }

  lemma PushKeeps(s: Sys, a: Action)
    requires Inv(s) && a.WorkerPush? && Enabled(s, a)
    ensures ConnsOk(Next(s, a))
  {
    var t, d, f := Next(s, a), s.worker.id, s.worker.todo[0];
    assert ConnOk(s, d);
    PushTarget(s, a);
    hide InsOk, OutsOk, Proj;
    forall c | c in t.hist ensures ConnOk(t, c) {
      if c != d {
        ProjAppend(s.wqOut, [(d, f)], c);
        ProjOne(d, f, c);
        assert Proj(s.wqOut, c) + [] == Proj(s.wqOut, c);
        SameView(s, t, c);
      }
    }
  }

  lemma DoneKeeps(s: Sys, a: Action)
    requires Inv(s) && a.WorkerDone? && Enabled(s, a)
    ensures ConnsOk(Next(s, a))
  {
    hide InsOk, OutsOk, Proj;
    var t := Next(s, a);
    forall c | c in t.hist ensures ConnOk(t, c) {
      if c in s.conns && c !in t.conns { CloseView(s, t, c); } else { SameView(s, t, c); }
    }
  }

  lemma ConnectionsKept(s: Sys, a: Action)
    requires Inv(s) && Enabled(s, a)
    ensures ConnsOk(Next(s, a))
  {
    match a
    case Accept(_, _, _) => AcceptKeeps(s, a);
    case Read(_, _) => ReadActionKeeps(s, a);
    case Close(_) => CloseKeeps(s, a);
    case Write(_, _) => WriteActionKeeps(s, a);
    case FetchNext => FetchNextKeeps(s, a);
    case OfferNext(_, _) => OfferNextKeeps(s, a);
    case WorkerFetch => FetchKeeps(s, a);
    case WorkerHandle(_, _) => HandleKeeps(s, a);
    case WorkerPush => PushKeeps(s, a);
    case WorkerDone => DoneKeeps(s, a);
    case _ => TokenKeeps(s, a);
  }

  // ---------------------------------------------------- tables, tokens and queues

  lemma TablesKept(s: Sys, a: Action)
    requires Inv(s) && Enabled(s, a)
    ensures TablesAgree(Next(s, a)) && ContextsActive(Next(s, a))
  {
    hide F.RxStep, D.TxStep, F.NextCut, D.NextCut, ConnsOk, Proj, TokensBalance, OutboundWellFormed, Known;
    hide ConnValid, OfferTx, OfferOuts, ReadIns, WriteOuts, F.Tag;
  }

  lemma TokensKept(s: Sys, a: Action)
    requires Inv(s) && Enabled(s, a)
    ensures TokensBalance(Next(s, a))
  {
    hide F.RxStep, D.TxStep, F.NextCut, D.NextCut, ConnsOk, Proj;
  }

  lemma OutboundKept(s: Sys, a: Action)
    requires Inv(s) && Enabled(s, a)
    ensures OutboundWellFormed(Next(s, a))
  {
    hide F.RxStep, D.TxStep, F.NextCut, D.NextCut, ConnsOk, Proj, TokensBalance, Known, TablesAgree;
  }

  lemma KnownKept(s: Sys, a: Action)
    requires Inv(s) && Enabled(s, a)
    ensures Known(Next(s, a))
  {
    if a.Read? {
      TagKnown(a.c, F.RxStep(s.conns[a.c].rx, a.received).pushed);
    }
    hide F.RxStep, D.TxStep, F.NextCut, D.NextCut, ConnsOk, Proj, TokensBalance, OutboundWellFormed, F.Tag;
    hide ConnValid, OfferTx, OfferOuts, ReadIns, WriteOuts;
  }

  lemma StepKeepsInv(s: Sys, a: Action)
    requires Inv(s) && Enabled(s, a)
    ensures Inv(Next(s, a))
  {
    ConnectionsKept(s, a);
    TablesKept(s, a);
    TokensKept(s, a);
    OutboundKept(s, a);
    KnownKept(s, a);
  }

  /** The invariant holds in every state of every run of the two threads. */
  lemma {:induction false} RunKeepsInv(acts: seq<Action>)
    requires IsRun(START, acts)
    ensures Inv(Run(START, acts))
  {
    if acts == [] {
    } else {
      RunKeepsInv(acts[..|acts|-1]);
      StepKeepsInv(Run(START, acts[..|acts|-1]), acts[|acts|-1]);
    }
  }
}
