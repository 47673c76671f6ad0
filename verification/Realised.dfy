/** The exchanges of the agreement model take place on the running server: whatever an
    honest client and a session can say to each other over ideal channels, the two threads
    can carry, byte by byte, in some of their runs. */
module Realised {
  import opened Options
  import opened Wire
  import opened Coding
  import F = Framer
  import D = Deframer
  import opened Pipeline
  import opened PipelineProofs
  import T = PipelineTheorems
  import S = Session
  import ST = SessionTheorems
  import A = Agreement
  import E = EndToEnd
  import opened Conversation

  // ------------------------------------------------ one frame in, one frame out

  /** The receives that bring a frame: header, length, and the payload, or the attempt
      that finds there is none. */
  ghost function Brings(f: Frame): seq<F.RecvResult>
    requires WellFormed(f)
  {
    [F.Data([f.header]), F.Data(BigEndian(|f.msg|)), if f.msg == [] then F.NotCalled else F.Data(f.msg)]
  }

  lemma FrameInThree(fd: int, f: Frame)
    requires WellFormed(f)
    ensures var w := BigEndian(|f.msg|);
            var s0 := F.RxReset(fd);
            var s1 := s0.(phase := F.RxLen, lenRemaining := 2, header := f.header);
            var s2 := F.RxState(fd, F.RxMsg, 0, |f.msg|, f.header, w[0], w[1], [], false, false);
            && F.RxValid(s0) && F.Delivers(F.Want(s0), Brings(f)[0]) && F.RxStep(s0, Brings(f)[0]) == F.RxOut(s1, [], true)
            && F.RxValid(s1) && F.Delivers(F.Want(s1), Brings(f)[1]) && F.RxStep(s1, Brings(f)[1]) == F.RxOut(s2, [], true)
            && F.RxValid(s2) && F.Delivers(F.Want(s2), Brings(f)[2])
            && F.RxStep(s2, Brings(f)[2]) == F.RxOut(F.RxReset(fd), [f], f.msg != [])
  {
    var w := BigEndian(|f.msg|);
    ValInjective(w, [w[0], w[1]]);
    assert [] + f.msg == f.msg;
  }

  /** The sends that take a frame. */
  function Takings(f: Frame): seq<D.SendResult> {
    [D.Accepted(1), D.Accepted(2), if f.msg == [] then D.Skipped else D.Accepted(|f.msg|)]
  }

  lemma FrameLeaves(f: Frame, beyond: seq<byte>, pad: byte)
    requires WellFormed(f) && |f.msg| + |beyond| == D.MAX_LEN
    ensures var s0 := D.TxStart(f, beyond, pad);
            var s1 := s0.(phase := D.TxLen, lenRemaining := 2);
            var s2 := s0.(phase := D.TxMsg, msgRemaining := |f.msg|);
            var s3 := s2.(msgRemaining := 0, inProgress := false);
            && D.TxValid(s0) && D.Takes(|D.Offer(s0)|, Takings(f)[0])
            && D.TxStep(s0, Takings(f)[0]) == D.TxOut(s1, [f.header], true)
            && D.TxValid(s1) && D.Takes(|D.Offer(s1)|, Takings(f)[1])
            && D.TxStep(s1, Takings(f)[1]) == D.TxOut(s2, BigEndian(|f.msg|), true)
            && D.TxValid(s2) && D.Takes(|D.Offer(s2)|, Takings(f)[2])
            && D.TxStep(s2, Takings(f)[2]) == D.TxOut(s3, f.msg, f.msg != []) && D.TxValid(s3)
  {
    var w := BigEndian(|f.msg|);
    ValInjective(w, [w[0], w[1]]);
    assert (f.msg + beyond)[..|f.msg|] == f.msg;
  }

  // ---------------------------------------------- what the steps do to one connection

  /** What the server holds of one open connection, and of the queues and threads. */
  datatype View = View(conn: Conn, active: bool, ins: InSide, outs: OutSide, wqIn: seq<Item>, wqOut: seq<Item>,
                       tokens: nat, loop: Loop, worker: Worker)

  predicate Has(s: Sys, c: int) {
    c in s.conns && c in s.contexts && c in s.hist
  }

  function ViewOf(s: Sys, c: int): View
    requires Has(s, c)
  {
    View(s.conns[c], s.contexts[c], s.hist[c].ins, s.hist[c].outs, s.wqIn, s.wqOut, s.tokens, s.loop, s.worker)
  }

  /** From `s`, step `a` leads to `u`, whose view is `v`. */
  ghost predicate Shows(s: Sys, a: Action, c: int, v: View) {
    Enabled(s, a) && Has(Next(s, a), c) && ViewOf(Next(s, a), c) == v
  }

  function AfterRead(v: View, c: int, r: F.RecvResult): View
    requires ConnValid(v.conn) && F.Delivers(F.Want(v.conn.rx), r)
  {
    var o := F.RxStep(v.conn.rx, r);
    v.(conn := v.conn.(rx := o.state), wqIn := v.wqIn + F.Tag(c, o.pushed), ins := ReadIns(v.conn, v.ins, r))
  }

  ghost function AfterWrite(v: View, r: D.SendResult): View
    requires ConnValid(v.conn) && D.Takes(|D.Offer(v.conn.tx)|, r) && AllWellFormed(v.outs.accepted)
  {
    v.(conn := v.conn.(tx := D.TxStep(v.conn.tx, r).state), outs := WriteOuts(v.conn, v.outs, r))
  }

  lemma ReadShows(s: Sys, c: int, r: F.RecvResult)
    requires Has(s, c) && ConnValid(s.conns[c]) && F.Delivers(F.Want(s.conns[c].rx), r)
    ensures Shows(s, Read(c, r), c, AfterRead(ViewOf(s, c), c, r))
  {
    hide F.RxStep, F.Delivers, F.Want, F.Tag, ReadIns, ConnValid;
  }

  lemma WriteShows(s: Sys, c: int, r: D.SendResult)
    requires Has(s, c) && ConnValid(s.conns[c]) && D.Takes(|D.Offer(s.conns[c].tx)|, r)
    requires AllWellFormed(s.hist[c].outs.accepted)
    ensures Shows(s, Write(c, r), c, AfterWrite(ViewOf(s, c), r))
  {
    hide D.TxStep, D.Takes, D.Offer, WriteOuts, ConnValid, AllWellFormed;
  }

  lemma FetchShows(s: Sys, c: int, f: Frame)
    requires Has(s, c) && s.worker == Waiting && s.wqIn == [(c, f)]
    ensures var v := ViewOf(s, c); Shows(s, WorkerFetch, c, v.(wqIn := [], worker := Fetched(c, f)))
  {
  }

  lemma PushShows(s: Sys, c: int, f: Frame)
    requires Has(s, c) && s.worker == Replying(c, [f], false)
    ensures var v := ViewOf(s, c);
            Shows(s, WorkerPush, c, v.(wqOut := v.wqOut + [(c, f)], worker := Replying(c, [], true),
                                       outs := v.outs.(replied := v.outs.replied + [f])))
  {
    assert [f][1..] == [];
  }

  lemma NotifyShows(s: Sys, c: int)
    requires Has(s, c) && s.worker == Replying(c, [], true)
    ensures var v := ViewOf(s, c);
            Shows(s, WorkerNotify, c, v.(tokens := v.tokens + 1, worker := Replying(c, [], false)))
  {
  }

  lemma DoneShows(s: Sys, c: int)
    requires Has(s, c) && s.contexts[c] && s.worker == Replying(c, [], false)
    ensures var v := ViewOf(s, c); Shows(s, WorkerDone, c, v.(worker := Waiting))
  {
  }

  lemma TokenShows(s: Sys, c: int)
    requires Has(s, c) && s.tokens > 0 && s.loop == Polling
    ensures var v := ViewOf(s, c); Shows(s, TakeToken, c, v.(tokens := v.tokens - 1, loop := Notified))
  {
  }

  lemma FetchNextShows(s: Sys, c: int, f: Frame)
    requires Has(s, c) && s.loop == Notified && s.wqOut == [(c, f)]
    ensures var v := ViewOf(s, c); Shows(s, FetchNext, c, v.(wqOut := [], loop := Holding(c, f)))
  {
  }

  lemma OfferShows(s: Sys, c: int, f: Frame, beyond: seq<byte>)
    requires Has(s, c) && s.loop == Holding(c, f) && WellFormed(f) && |f.msg| + |beyond| == D.MAX_LEN
    requires !s.conns[c].tx.inProgress
    ensures var v := ViewOf(s, c);
            Shows(s, OfferNext(beyond, 0), c, v.(conn := v.conn.(tx := D.TxStart(f, beyond, 0)), loop := Polling,
                                                 outs := OfferOuts(v.conn, v.outs, f)))
  {
    hide D.TxStart, OfferOuts;
  }

  // ---------------------------------------------------------------- in a conversation

  ghost predicate Leads(w: S.World, c: int, t: Talk, steps: seq<Step>, u: Talk) {
    IsTalk(w, c, t, steps) && u == TalkRun(w, c, t, steps)
  }

  lemma LeadsOn(w: S.World, c: int, t: Talk, steps: seq<Step>, u: Talk, st: Step)
    requires Leads(w, c, t, steps, u) && CanStep(w, c, u, st)
    ensures Leads(w, c, t, steps + [st], After(w, c, u, st))
  {
    hide CanStep, After;
    assert (steps + [st])[..|steps|] == steps;
  }

  ghost predicate Good(v: View, sent: seq<Frame>) {
    v.ins.ok && v.outs.ok && AllWellFormed(sent) && v.ins.consumed <= EncodeAll(sent)
  }

  lemma ThreadOn(w: S.World, c: int, t: Talk, steps: seq<Step>, u: Talk, a: Action, v: View)
    requires Leads(w, c, t, steps, u) && Has(u.sys, c) && Shows(u.sys, a, c, v) && Good(v, u.sent)
    requires !a.WorkerHandle? && !a.Accept?
    ensures CanStep(w, c, u, Thread(a))
    ensures var u' := u.(sys := Next(u.sys, a));
            Leads(w, c, t, steps + [Thread(a)], u') && Has(u'.sys, c) && ViewOf(u'.sys, c) == v
  {
    hide EncodeAll, AllWellFormed, Enabled, Next;
    LeadsOn(w, c, t, steps, u, Thread(a));
    hide *;
  }

  /** The reader at rest takes the three receives of a frame. */
  lemma ThreeReads(v: View, c: int, f: Frame) returns (v1: View, v2: View, v3: View)
    requires v.conn.rx == F.RxReset(c) && D.TxValid(v.conn.tx) && WellFormed(f) && v.ins.ok && v.wqIn == []
    ensures ConnValid(v.conn) && F.Delivers(F.Want(v.conn.rx), Brings(f)[0]) && v1 == AfterRead(v, c, Brings(f)[0])
    ensures ConnValid(v1.conn) && F.Delivers(F.Want(v1.conn.rx), Brings(f)[1]) && v2 == AfterRead(v1, c, Brings(f)[1])
    ensures ConnValid(v2.conn) && F.Delivers(F.Want(v2.conn.rx), Brings(f)[2]) && v3 == AfterRead(v2, c, Brings(f)[2])
    ensures v3 == v.(wqIn := [(c, f)],
                     ins := v.ins.(consumed := v.ins.consumed + Encode(f), cut := F.Whole, parsed := v.ins.parsed + [f]))
    ensures v1.ins.ok && v2.ins.ok && v1.outs == v2.outs == v.outs
    ensures v1.ins.consumed <= v3.ins.consumed && v2.ins.consumed <= v3.ins.consumed
  {
    FrameInThree(c, f);
    hide F.RxStep, F.RxValid, D.TxValid, F.Delivers, Encode;
    var r, before := Brings(f), v.ins.consumed;
    v1 := OneRead(v, c, r[0]);
    v2 := OneRead(v1, c, r[1]);
    v3 := OneRead(v2, c, r[2]);
    assert F.Tag(c, [f]) == [(c, f)];
    EncodedInThree(before, f);
  }

  /** A receive that does not cut a length field. */
  lemma OneRead(v: View, c: int, r: F.RecvResult) returns (u: View)
    requires ConnValid(v.conn) && F.Delivers(F.Want(v.conn.rx), r) && v.ins.ok
    requires v.conn.rx.phase == F.RxLen ==> v.conn.rx.lenRemaining == 2 && r.Data? && |r.bytes| == 2
    ensures u == AfterRead(v, c, r)
    ensures var o := F.RxStep(v.conn.rx, r);
            u == v.(conn := v.conn.(rx := o.state), wqIn := v.wqIn + F.Tag(c, o.pushed),
                    ins := v.ins.(consumed := v.ins.consumed + F.BytesOf(r), cut := F.Whole, parsed := v.ins.parsed + o.pushed))
  {
    hide F.RxStep, F.RxValid, D.TxValid, F.Delivers, F.Tag;
    u := AfterRead(v, c, r);
  }

  lemma EncodedInThree(before: seq<byte>, f: Frame)
    requires WellFormed(f)
    ensures before + [f.header] + BigEndian(|f.msg|) + f.msg == before + Encode(f)
    ensures before + [f.header] <= before + Encode(f)
    ensures before + [f.header] + BigEndian(|f.msg|) <= before + Encode(f)
  {
    var all := before + Encode(f);
    assert before + [f.header] == all[..|before| + 1];
    assert before + [f.header] + BigEndian(|f.msg|) == all[..|before| + 3];
  }

  lemma Receive(w: S.World, c: int, t: Talk, f: Frame) returns (steps: seq<Step>, u: Talk)
    requires Has(t.sys, c) && WellFormed(f)
    requires var v := ViewOf(t.sys, c);
             && v.conn.rx == F.RxReset(c) && D.TxValid(v.conn.tx) && v.wqIn == [] && v.worker == Waiting
             && Good(v, t.sent) && v.ins.consumed + Encode(f) <= EncodeAll(t.sent)
    ensures Leads(w, c, t, steps, u) && u == t.(sys := u.sys) && Has(u.sys, c)
    ensures var v := ViewOf(t.sys, c);
            ViewOf(u.sys, c) ==
              v.(worker := Fetched(c, f),
                 ins := v.ins.(consumed := v.ins.consumed + Encode(f), cut := F.Whole, parsed := v.ins.parsed + [f]))
  {
    var v := ViewOf(t.sys, c);
    var v1, v2, v3 := ThreeReads(v, c, f);
    hide AfterRead, EncodeAll, Encode, AllWellFormed, ConnValid, F.Delivers, F.Want, CanStep, IsTalk, TalkRun, Enabled, Next;
    var r := Brings(f);
    ReadShows(t.sys, c, r[0]);
    ThreadOn(w, c, t, [], t, Read(c, r[0]), v1);
    var u1 := t.(sys := Next(t.sys, Read(c, r[0])));
    ReadShows(u1.sys, c, r[1]);
    steps := [] + [Thread(Read(c, r[0]))];
    ThreadOn(w, c, t, steps, u1, Read(c, r[1]), v2);
    var u2 := u1.(sys := Next(u1.sys, Read(c, r[1])));
    ReadShows(u2.sys, c, r[2]);
    steps := steps + [Thread(Read(c, r[1]))];
    ThreadOn(w, c, t, steps, u2, Read(c, r[2]), v3);
    var u3 := u2.(sys := Next(u2.sys, Read(c, r[2])));
    FetchShows(u3.sys, c, f);
    steps := steps + [Thread(Read(c, r[2]))];
    ThreadOn(w, c, t, steps, u3, WorkerFetch, v3.(wqIn := [], worker := Fetched(c, f)));
    steps := steps + [Thread(WorkerFetch)];
    u := u3.(sys := Next(u3.sys, WorkerFetch));
  }

  /** The response is queued and announced, the worker is done, and the event loop has the
      response in its hands. */
  lemma Announce(w: S.World, c: int, t: Talk, f: Frame) returns (steps: seq<Step>, u: Talk)
    requires Has(t.sys, c)
    requires var v := ViewOf(t.sys, c);
             && v.worker == Replying(c, [f], false) && v.active && v.wqOut == [] && v.tokens == 0 && v.loop == Polling
             && Good(v, t.sent)
    ensures Leads(w, c, t, steps, u) && u == t.(sys := u.sys) && Has(u.sys, c)
    ensures var v := ViewOf(t.sys, c);
            ViewOf(u.sys, c) == v.(worker := Waiting, loop := Holding(c, f), outs := v.outs.(replied := v.outs.replied + [f]))
  {
    var v := ViewOf(t.sys, c);
    hide EncodeAll, AllWellFormed, CanStep, IsTalk, TalkRun, Enabled, Next;
    PushShows(t.sys, c, f);
    var v1 := v.(wqOut := [(c, f)], worker := Replying(c, [], true), outs := v.outs.(replied := v.outs.replied + [f]));
    ThreadOn(w, c, t, [], t, WorkerPush, v1);
    var u1 := t.(sys := Next(t.sys, WorkerPush));
    NotifyShows(u1.sys, c);
    steps := [] + [Thread(WorkerPush)];
    var v2 := v1.(tokens := 1, worker := Replying(c, [], false));
    ThreadOn(w, c, t, steps, u1, WorkerNotify, v2);
    var u2 := u1.(sys := Next(u1.sys, WorkerNotify));
    DoneShows(u2.sys, c);
    steps := steps + [Thread(WorkerNotify)];
    var v3 := v2.(worker := Waiting);
    ThreadOn(w, c, t, steps, u2, WorkerDone, v3);
    var u3 := u2.(sys := Next(u2.sys, WorkerDone));
    TokenShows(u3.sys, c);
    steps := steps + [Thread(WorkerDone)];
    var v4 := v3.(tokens := 0, loop := Notified);
    ThreadOn(w, c, t, steps, u3, TakeToken, v4);
    var u4 := u3.(sys := Next(u3.sys, TakeToken));
    FetchNextShows(u4.sys, c, f);
    steps := steps + [Thread(TakeToken)];
    ThreadOn(w, c, t, steps, u4, FetchNext, v4.(wqOut := [], loop := Holding(c, f)));
    steps := steps + [Thread(FetchNext)];
    u := u4.(sys := Next(u4.sys, FetchNext));
  }

  /** What the output side is when the response `f` has been taken and written. */
  function Written(h: OutSide, f: Frame, wire: seq<byte>): OutSide {
    h.(taken := h.taken + [f], accepted := h.accepted + [f], before := h.before + h.part, part := wire, cut := D.NoByte(false))
  }

  /** A send that neither cuts nor stalls a length field. */
  lemma OneWrite(v: View, r: D.SendResult) returns (u: View)
    requires ConnValid(v.conn) && D.Takes(|D.Offer(v.conn.tx)|, r) && v.outs.ok && AllWellFormed(v.outs.accepted)
    requires v.conn.tx.phase == D.TxLen ==> v.outs.cut == D.NoByte(false) && r == D.Accepted(2)
    ensures u == AfterWrite(v, r)
    ensures var o := D.TxStep(v.conn.tx, r);
            u == v.(conn := v.conn.(tx := o.state),
                    outs := v.outs.(part := v.outs.part + o.wire,
                                    cut := if v.conn.tx.phase == D.TxLen then D.OneByte(false, false) else D.NoByte(false)))
  {
    hide D.TxStep, D.Takes, D.Offer, ConnValid;
    u := AfterWrite(v, r);
  }

  /** The writer that has just taken `f` gets rid of it in three sends. */
  lemma ThreeWrites(v: View, f: Frame, beyond: seq<byte>) returns (v1: View, v2: View, v3: View)
    requires WellFormed(f) && |f.msg| + |beyond| == D.MAX_LEN && v.conn.tx == D.TxStart(f, beyond, 0)
    requires F.RxValid(v.conn.rx) && v.outs.ok && AllWellFormed(v.outs.accepted) && v.outs.part == []
    requires v.outs.cut == D.NoByte(false)
    ensures ConnValid(v.conn) && D.Takes(|D.Offer(v.conn.tx)|, Takings(f)[0]) && v1 == AfterWrite(v, Takings(f)[0])
    ensures ConnValid(v1.conn) && AllWellFormed(v1.outs.accepted)
    ensures D.Takes(|D.Offer(v1.conn.tx)|, Takings(f)[1]) && v2 == AfterWrite(v1, Takings(f)[1])
    ensures ConnValid(v2.conn) && AllWellFormed(v2.outs.accepted)
    ensures D.Takes(|D.Offer(v2.conn.tx)|, Takings(f)[2]) && v3 == AfterWrite(v2, Takings(f)[2])
    ensures v3 == v.(conn := v.conn.(tx := v3.conn.tx), outs := v.outs.(part := Encode(f)))
    ensures D.TxValid(v3.conn.tx) && !v3.conn.tx.inProgress
    ensures v1.ins == v2.ins == v.ins && v1.outs.ok && v2.outs.ok
  {
    FrameLeaves(f, beyond, 0);
    hide D.TxStep, D.TxStart, D.Takes, D.Offer, F.RxValid, D.TxValid, Encode;
    v1 := OneWrite(v, Takings(f)[0]);
    v2 := OneWrite(v1, Takings(f)[1]);
    v3 := OneWrite(v2, Takings(f)[2]);
    EncodedInThree([], f);
    assert [] + Encode(f) == Encode(f);
  }

  lemma WriteAway(w: S.World, c: int, t: Talk, f: Frame, beyond: seq<byte>) returns (steps: seq<Step>, u: Talk)
    requires Has(t.sys, c) && WellFormed(f) && |f.msg| + |beyond| == D.MAX_LEN
    requires var v := ViewOf(t.sys, c);
             && v.conn.tx == D.TxStart(f, beyond, 0) && F.RxValid(v.conn.rx) && AllWellFormed(v.outs.accepted)
             && Good(v, t.sent) && v.outs.part == [] && v.outs.cut == D.NoByte(false)
    ensures Leads(w, c, t, steps, u) && u == t.(sys := u.sys) && Has(u.sys, c)
    ensures var v, tx := ViewOf(t.sys, c), u.sys.conns[c].tx;
            && D.TxValid(tx) && !tx.inProgress
            && ViewOf(u.sys, c) == v.(conn := v.conn.(tx := tx), outs := v.outs.(part := Encode(f)))
  {
    var v1, v2, v3 := ThreeWrites(ViewOf(t.sys, c), f, beyond);
    hide AfterWrite, EncodeAll, Encode, AllWellFormed, ConnValid, D.Takes, D.Offer, D.TxStart, CanStep, IsTalk, TalkRun,
      Enabled, Next, D.TxValid, F.RxValid;
    var r := Takings(f);
    WriteShows(t.sys, c, r[0]);
    ThreadOn(w, c, t, [], t, Write(c, r[0]), v1);
    var u1 := t.(sys := Next(t.sys, Write(c, r[0])));
    WriteShows(u1.sys, c, r[1]);
    steps := [] + [Thread(Write(c, r[0]))];
    ThreadOn(w, c, t, steps, u1, Write(c, r[1]), v2);
    var u2 := u1.(sys := Next(u1.sys, Write(c, r[1])));
    WriteShows(u2.sys, c, r[2]);
    steps := steps + [Thread(Write(c, r[1]))];
    ThreadOn(w, c, t, steps, u2, Write(c, r[2]), v3);
    steps := steps + [Thread(Write(c, r[2]))];
    u := u2.(sys := Next(u2.sys, Write(c, r[2])));
  }

  lemma {:induction false} LeadsAppend(w: S.World, c: int, t: Talk, a: seq<Step>, u: Talk, b: seq<Step>, v: Talk)
    requires Leads(w, c, t, a, u) && Leads(w, c, u, b, v)
    ensures Leads(w, c, t, a + b, v)
  {
    hide CanStep, After;
    if b == [] {
      assert a + b == a;
    } else {
      var front := b[..|b|-1];
      LeadsAppend(w, c, t, a, u, front, TalkRun(w, c, u, front));
      assert (a + b)[..|a + b| - 1] == a + front;
    }
  }

  /** The event loop offers the response and writes it. */
  lemma Respond(w: S.World, c: int, t: Talk, f: Frame) returns (steps: seq<Step>, u: Talk)
    requires Has(t.sys, c) && WellFormed(f)
    requires var v := ViewOf(t.sys, c);
             && v.loop == Holding(c, f) && F.RxValid(v.conn.rx) && !v.conn.tx.inProgress
             && AllWellFormed(v.outs.accepted) && Good(v, t.sent)
    ensures Leads(w, c, t, steps, u) && u == t.(sys := u.sys) && Has(u.sys, c)
    ensures var v, tx := ViewOf(t.sys, c), u.sys.conns[c].tx;
            && D.TxValid(tx) && !tx.inProgress
            && ViewOf(u.sys, c) == v.(conn := v.conn.(tx := tx), loop := Polling, outs := Written(v.outs, f, Encode(f)))
  {
    var v, beyond := ViewOf(t.sys, c), seq(D.MAX_LEN - |f.msg|, _ => 0 as byte);
    var offer := OfferNext(beyond, 0);
    var v0 := v.(conn := v.conn.(tx := D.TxStart(f, beyond, 0)), loop := Polling, outs := OfferOuts(v.conn, v.outs, f));
    OfferShows(t.sys, c, f, beyond);
    assert AllWellFormed(v0.outs.accepted);
    hide EncodeAll, Encode, AllWellFormed, D.TxStart, CanStep, IsTalk, TalkRun, Enabled, Next, D.TxValid, F.RxValid, Leads;
    assert Leads(w, c, t, [], t) by { NoSteps(w, c, t); }
    ThreadOn(w, c, t, [], t, offer, v0);
    var u0 := t.(sys := Next(t.sys, offer));
    var rest;
    rest, u := WriteAway(w, c, u0, f, beyond);
    steps := [] + [Thread(offer)];
    LeadsAppend(w, c, t, steps, u0, rest, u);
    steps := steps + rest;
  }

  lemma NoSteps(w: S.World, c: int, t: Talk)
    ensures Leads(w, c, t, [], t)
  {
  }

  // ------------------------------------------------------- between two messages

  /** Between two messages: both threads at rest, nothing queued, reader and writer idle,
      every frame the session has been given read, and every reply it made written. */
  ghost predicate Rests(w: S.World, c: int, t: Talk) {
    && TalkOk(w, c, t) && Has(t.sys, c)
    && AtRest(ViewOf(t.sys, c), c)
    && AllWellFormed(E.FramesIn(t.ins)) && t.sys.hist[c].ins.consumed == EncodeAll(E.FramesIn(t.ins))
    && |t.sys.hist[c].outs.accepted| == t.got + |t.net.toClient|
  }

  ghost predicate AtRest(v: View, c: int) {
    && v.active && v.worker == Waiting && v.loop == Polling && v.wqIn == [] && v.wqOut == [] && v.tokens == 0
    && v.conn.rx == F.RxReset(c) && D.TxValid(v.conn.tx) && !v.conn.tx.inProgress && AllWellFormed(v.outs.accepted)
  }

  /** The replies on the wire that the client has not read are those under way. */
  lemma WireHas(w: S.World, c: int, t: Talk)
    requires Rests(w, c, t)
    ensures |ParseFrames(Wired(t, c))| == t.got + |t.net.toClient|
  {
    hide Tied, A.NetInv, OneUnderway, ParseFrames, EncodeAll, Proj, F.RxInv, InsOk;
    assert ConnOk(t.sys, c);
    var h := t.sys.hist[c].outs;
    T.WirePrefix(t.sys.conns[c].tx, h);
    ParseInvertsEncode(h.accepted);
  }

  lemma OneStep(w: S.World, c: int, t: Talk, st: Step)
    requires CanStep(w, c, t, st)
    ensures Leads(w, c, t, [st], After(w, c, t, st))
  {
    hide CanStep, After;
    NoSteps(w, c, t);
    LeadsOn(w, c, t, [], t, st);
    assert [] + [st] == [st];
  }

  /** Asking and reading leave the server alone. */
  lemma StillRests(w: S.World, c: int, t: Talk, u: Talk)
    requires Rests(w, c, t) && TalkOk(w, c, u) && u.sys == t.sys && u.ins == t.ins
    requires u.got + |u.net.toClient| == t.got + |t.net.toClient|
    ensures Rests(w, c, u)
  {
    hide TalkOk, EncodeAll, AllWellFormed, E.FramesIn, ParseFrames;
  }

  lemma AskedIs(w: S.World, c: int, t: Talk, a: A.NetAction)
    requires CanStep(w, c, t, Asks(a))
    ensures var u := After(w, c, t, Asks(a));
            && A.NetEnabled(t.net, a) && u.net == A.NetNext(w, t.net, a)
            && u.sys == t.sys && u.ins == t.ins && u.got == t.got && u.net.toClient == t.net.toClient
  {
    hide EncodeBody, S.SessionStep, E.FramesIn, ParseFrames;
    var extra := AskSends(w, t.net, a);
  }

  lemma AsksRests(w: S.World, c: int, t: Talk, a: A.NetAction) returns (u: Talk)
    requires S.Lawful(w) && Rests(w, c, t) && CanStep(w, c, t, Asks(a))
    ensures Leads(w, c, t, [Asks(a)], u) && Rests(w, c, u) && A.NetEnabled(t.net, a) && u.net == A.NetNext(w, t.net, a)
  {
    hide CanStep, After, TalkOk, S.Lawful, AtRest, EncodeAll, E.FramesIn, Leads, A.NetEnabled, A.NetNext;
    u := After(w, c, t, Asks(a));
    StepKeepsTalk(w, c, t, Asks(a));
    OneStep(w, c, t, Asks(a));
    AskedIs(w, c, t, a);
    StillRests(w, c, t, u);
  }

  lemma ReadIs(w: S.World, c: int, t: Talk, iv: seq<byte>)
    requires CanStep(w, c, t, Reads(iv))
    ensures var u := After(w, c, t, Reads(iv));
            u.sys == t.sys && u.ins == t.ins && u.got == t.got + 1 && u.net.toClient == Rest(t.net.toClient)
  {
    hide A.ClientReceive, ParseFrames;
  }

  lemma CanRead(w: S.World, c: int, t: Talk, iv: seq<byte>)
    requires Rests(w, c, t) && A.NetEnabled(t.net, A.ClientTakes(iv))
    ensures CanStep(w, c, t, Reads(iv)) && t.net.toClient != []
  {
    hide ParseFrames, TalkOk, EncodeAll, E.FramesIn, A.NetEnabled, AtRest, Conversation.Waiting, Wired;
    WireHas(w, c, t);
    WaitsToRead(t.net, iv);
  }

  lemma WaitsToRead(n: A.Net, iv: seq<byte>)
    requires A.NetEnabled(n, A.ClientTakes(iv))
    ensures Conversation.Waiting(n) && n.toClient != [] && |iv| == IV_SIZE
  {
  }

  lemma ReadsRests(w: S.World, c: int, t: Talk, iv: seq<byte>) returns (u: Talk)
    requires S.Lawful(w) && Rests(w, c, t) && A.NetEnabled(t.net, A.ClientTakes(iv))
    ensures Leads(w, c, t, [Reads(iv)], u) && Rests(w, c, u) && u.net == A.NetNext(w, t.net, A.ClientTakes(iv))
  {
    CanRead(w, c, t, iv);
    hide CanStep, After, TalkOk, S.Lawful, AtRest, EncodeAll, E.FramesIn, Leads, A.NetEnabled, A.NetNext;
    u := After(w, c, t, Reads(iv));
    StepKeepsTalk(w, c, t, Reads(iv));
    OneStep(w, c, t, Reads(iv));
    ReadIs(w, c, t, iv);
    ReadingIsTaking(w, c, t, Reads(iv));
    StillRests(w, c, t, u);
  }

  lemma HandleShows(s: Sys, c: int, f: Frame, replies: seq<Frame>)
    requires Has(s, c) && s.worker == Fetched(c, f) && s.contexts[c] && Enabled(s, WorkerHandle(replies, true))
    ensures var v := ViewOf(s, c);
            Shows(s, WorkerHandle(replies, true), c,
                  v.(worker := Replying(c, replies, false), ins := v.ins.(handed := v.ins.handed + [f])))
  {
  }

  /** The next frame of the client is there to be read. */
  lemma NextIsSent(w: S.World, c: int, t: Talk)
    requires Rests(w, c, t) && t.net.toServer != []
    ensures var f := t.net.toServer[0].frame; var given := E.FramesIn(t.ins);
            && WellFormed(f) && AllWellFormed(given + [f]) && EncodeAll(given + [f]) <= EncodeAll(t.sent)
            && EncodeAll(given + [f]) == t.sys.hist[c].ins.consumed + Encode(f)
  {
    hide Inv, A.NetInv, OneUnderway, ParseFrames, EncodeAll, Encode, E.FramesIn, S.SessionRun;
    var f, given, behind := t.net.toServer[0].frame, E.FramesIn(t.ins), FramesOfPackets(t.net.toServer[1..]);
    FirstPacket(t.net.toServer);
    assert t.sent == given + [f] + behind;
    assert t.sent[|given|] == f;
    assert forall x | 0 <= x < |behind| :: behind[x] == t.sent[|given| + 1 + x];
    EncodeAllGrows(given + [f], behind);
    EncodeAllAppend(given, f);
  }

  // ---------------------------------------------------------------- the server's turn

  function HandledStep(a: A.NetAction): Step
    requires a.ServerTakes?
  {
    Handled(a.priv, a.iv, a.iv2, a.leftover, a.user)
  }

  lemma CanHandle(w: S.World, c: int, t: Talk, a: A.NetAction)
    requires S.Lawful(w) && TalkOk(w, c, t) && Has(t.sys, c) && a.ServerTakes? && A.NetEnabled(t.net, a)
    requires t.sys.worker.Fetched? && t.sys.worker.id == c && OneFits(w, a.user)
    ensures CanStep(w, c, t, HandledStep(a))
  {
    hide Tied, A.NetInv, OneUnderway, ParseFrames, EncodeAll, ConnsOk, E.HandleWith, S.SessionRun, Next;
    E.HandleEnabled(w, t.sys, t.ins, InputNow(t, HandledStep(a)));
    LawfulCipher(w);
  }

  /** The answer of the session, as seen from the server and from the exchange. */
  lemma AnswerIs(w: S.World, c: int, t: Talk, a: A.NetAction) returns (replies: seq<Frame>)
    requires S.Lawful(w) && TalkOk(w, c, t) && a.ServerTakes? && A.NetEnabled(t.net, a) && OneFits(w, a.user)
    requires t.sys.worker.Fetched? && t.sys.worker.id == c && A.InputOf(t.net, a) == InputNow(t, HandledStep(a))
    ensures var n := A.NetNext(w, t.net, a);
            && E.HandleWith(w, t.ins, InputNow(t, HandledStep(a))) == WorkerHandle(replies, !n.session.Closed?)
            && |replies| <= 1 && |n.toClient| == |t.net.toClient| + |replies|
  {
    TalkNet(w, c, t);
    OneAnswer(w, t.net, a);
    hide S.SessionStep, S.SessionRun, Inv, A.NetInv, OneUnderway, StaysGood, S.Lawful, A.Packets, E.InStep;
    var o := S.SessionStep(w, t.net.session, A.InputOf(t.net, a));
    replies := E.FramesOut(o.replies);
  }

  lemma TurnHandled(w: S.World, c: int, t: Talk, a: A.NetAction, f: Frame) returns (u: Talk, replies: seq<Frame>)
    requires S.Lawful(w) && TalkOk(w, c, t) && Has(t.sys, c) && a.ServerTakes? && A.NetEnabled(t.net, a)
    requires t.sys.worker == Fetched(c, f) && t.sys.contexts[c] && OneFits(w, a.user)
    requires !A.NetNext(w, t.net, a).session.Closed?
    ensures Leads(w, c, t, [HandledStep(a)], u) && TalkOk(w, c, u) && u.net == A.NetNext(w, t.net, a)
    ensures u.sent == t.sent && u.got == t.got && E.FramesIn(u.ins) == E.FramesIn(t.ins) + [f]
    ensures |replies| <= 1 && |u.net.toClient| == |t.net.toClient| + |replies| && AllWellFormed(replies)
    ensures var v := ViewOf(t.sys, c);
            && Has(u.sys, c)
            && ViewOf(u.sys, c) == v.(worker := Replying(c, replies, false), ins := v.ins.(handed := v.ins.handed + [f]))
  {
    hide TalkOk, A.NetEnabled, A.NetNext, OneFits, S.Lawful, E.FramesIn, E.HandleWith, Next, Leads, A.InputOf, S.SessionStep;
    var st := HandledStep(a);
    CanHandle(w, c, t, a);
    HandledIsTaking(w, c, t, st);
    replies := AnswerIs(w, c, t, a);
    OneStep(w, c, t, st);
    StepKeepsTalk(w, c, t, st);
    FramesInSnoc(t.ins, InputNow(t, st));
    HandleShows(t.sys, c, f, replies);
    u := After(w, c, t, st);
  }

  lemma LeadsOk(w: S.World, c: int, t: Talk, steps: seq<Step>, u: Talk)
    requires S.Lawful(w) && TalkOk(w, c, t) && Leads(w, c, t, steps, u)
    ensures TalkOk(w, c, u)
  {
    hide TalkOk, S.Lawful, CanStep, After;
    TalkStaysOk(w, c, t, steps);
  }

  ghost predicate Answered(v: View, u: View, replies: seq<Frame>) {
    && u == v.(conn := u.conn, worker := Waiting, outs := u.outs)
    && u.conn.rx == v.conn.rx && D.TxValid(u.conn.tx) && !u.conn.tx.inProgress && u.outs.ok
    && u.outs.accepted == v.outs.accepted + replies
  }

  /** After the handling the worker is soon done, and what it had to send is written. */
  lemma AnswerOut(w: S.World, c: int, t: Talk, replies: seq<Frame>) returns (steps: seq<Step>, u: Talk)
    requires Has(t.sys, c) && |replies| <= 1 && AllWellFormed(replies)
    requires var v := ViewOf(t.sys, c);
             && v.worker == Replying(c, replies, false) && v.active && v.loop == Polling && v.wqOut == [] && v.tokens == 0
             && F.RxValid(v.conn.rx) && D.TxValid(v.conn.tx) && !v.conn.tx.inProgress
             && AllWellFormed(v.outs.accepted) && Good(v, t.sent)
    ensures Leads(w, c, t, steps, u) && u == t.(sys := u.sys) && Has(u.sys, c)
    ensures Answered(ViewOf(t.sys, c), ViewOf(u.sys, c), replies)
  {
    hide EncodeAll, D.TxValid, F.RxValid, CanStep, IsTalk, TalkRun, Enabled, Next, Leads;
    var v := ViewOf(t.sys, c);
    if replies == [] {
      DoneShows(t.sys, c);
      NoSteps(w, c, t);
      ThreadOn(w, c, t, [], t, WorkerDone, v.(worker := Waiting));
      steps, u := [] + [Thread(WorkerDone)], t.(sys := Next(t.sys, WorkerDone));
    } else {
      var f := replies[0];
      assert replies == [f];
      var a, mid := Announce(w, c, t, f);
      var b;
      b, u := Respond(w, c, mid, f);
      LeadsAppend(w, c, t, a, mid, b, u);
      steps := a + b;
    }
  }

  /** The server takes the next frame of the client: it is read, handled and answered, and
      both threads are at rest again. */
  lemma TurnRests(w: S.World, c: int, t: Talk, a: A.NetAction) returns (steps: seq<Step>, u: Talk)
    requires S.Lawful(w) && Rests(w, c, t) && a.ServerTakes? && A.NetEnabled(t.net, a) && OneFits(w, a.user)
    requires !A.NetNext(w, t.net, a).session.Closed?
    ensures Leads(w, c, t, steps, u) && Rests(w, c, u) && u.net == A.NetNext(w, t.net, a)
  {
    hide TalkOk, A.NetNext, OneFits, S.Lawful, E.FramesIn, Leads, EncodeAll, Encode, AllWellFormed, D.TxValid, S.SessionStep;
    NextIsSent(w, c, t);
    GoodNow(w, c, t);
    var f := t.net.toServer[0].frame;
    var taken, t1 := Receive(w, c, t, f);
    LeadsOk(w, c, t, taken, t1);
    var t2, replies := TurnHandled(w, c, t1, a, f);
    var out;
    GoodNow(w, c, t2);
    out, u := AnswerOut(w, c, t2, replies);
    LeadsOk(w, c, t2, out, u);
    LeadsAppend(w, c, t, taken, t1, [HandledStep(a)], t2);
    LeadsAppend(w, c, t, taken + [HandledStep(a)], t2, out, u);
    steps := taken + [HandledStep(a)] + out;
    GoodNow(w, c, u);
  }

  lemma GoodNow(w: S.World, c: int, t: Talk)
    requires TalkOk(w, c, t) && Has(t.sys, c)
    ensures Good(ViewOf(t.sys, c), t.sent) && AllWellFormed(t.sys.hist[c].outs.accepted)
  {
    hide Tied, A.NetInv, OneUnderway, ParseFrames, EncodeAll, Proj, F.RxInv, InsOk, WireOk;
    assert ConnOk(t.sys, c);
  }

  // ---------------------------------------------------------------- whole exchanges

  /** What the conversation allows: requests and answers of a size that fits. */
  ghost predicate Allowed(w: S.World, a: A.NetAction) {
    match a
    case Authenticate(request, _) => |w.serAuthRequest(request)| + IV_SIZE + w.aead.tag <= MAX_BODY
    case ServerTakes(_, _, _, _, user) => OneFits(w, user)
    case _ => true
  }

  /** At most one answer, which with vector and tag has at most 65535 bytes. */
  predicate Brief(w: S.World, user: S.Deed) {
    |user.answers| <= 1 && (user.answers != [] ==> |user.answers[0].body| + 16 + w.aead.tag <= 65535)
  }

  lemma BriefFits(w: S.World, user: S.Deed)
    ensures Brief(w, user) <==> OneFits(w, user)
  {
  }

  lemma OneMoreMessage(w: S.World, c: int, t: Talk, a: A.NetAction) returns (steps: seq<Step>, u: Talk)
    requires S.Lawful(w) && Rests(w, c, t) && A.NetEnabled(t.net, a) && Allowed(w, a)
    requires !A.NetNext(w, t.net, a).session.Closed?
    ensures Leads(w, c, t, steps, u) && Rests(w, c, u) && u.net == A.NetNext(w, t.net, a)
  {
    hide TalkOk, A.NetNext, S.Lawful, AtRest, Leads, A.NetEnabled, EncodeAll, E.FramesIn, AllWellFormed, OneFits;
    match a
    case Connect(_, _) =>
      u := AsksRests(w, c, t, a);
      steps := [Asks(a)];
    case Authenticate(_, _) =>
      u := AsksRests(w, c, t, a);
      steps := [Asks(a)];
    case ServerTakes(_, _, _, _, _) =>
      steps, u := TurnRests(w, c, t, a);
    case ClientTakes(iv) =>
      u := ReadsRests(w, c, t, iv);
      steps := [Reads(iv)];
  }

  lemma ClosedForGood(w: S.World, n: A.Net, a: A.NetAction)
    requires A.NetEnabled(n, a) && n.session.Closed?
    ensures A.NetNext(w, n, a).session.Closed?
  {
  }

  lemma BeginRests(w: S.World, c: int, mem: seq<byte>, pad: byte) returns (t: Talk)
    requires S.Lawful(w) && |mem| == D.MAX_LEN
    ensures Begins([Accept(c, mem, pad)], c, t) && Rests(w, c, t) && t.net == A.NET_START
  {
    var a := Accept(c, mem, pad);
    hide Inv, S.SessionStep;
    assert [a][..0] == [];
    assert Enabled(Run(START, []), a);
    t := Talk(Run(START, [a]), A.NET_START, [], [], 0);
    AcceptedFresh(START, a);
    BeginsOk(w, [a], c, t);
  }

  /** Every exchange of an honest client with a session over ideal channels, any number of
      authentications included, takes place on the running server as long as the session
      stays open: in some run of the two threads, over bytes and queues, client and session
      come to the very same point. */
  lemma {:induction false} ExchangesTakePlace(w: S.World, acts: seq<A.NetAction>, c: int, mem: seq<byte>, pad: byte)
    returns (t: Talk, steps: seq<Step>)
    requires S.Lawful(w) && |mem| == D.MAX_LEN && A.IsNetRun(w, acts) && !A.NetRun(w, acts).session.Closed?
    requires forall i | 0 <= i < |acts| :: Allowed(w, acts[i])
    ensures Begins([Accept(c, mem, pad)], c, t) && IsTalk(w, c, t, steps)
    ensures TalkRun(w, c, t, steps).net == A.NetRun(w, acts) && Rests(w, c, TalkRun(w, c, t, steps))
  {
    hide Begins, Rests, A.NetNext, A.NetEnabled, S.Lawful, Allowed, CanStep, After;
    if acts == [] {
      t := BeginRests(w, c, mem, pad);
      steps := [];
    } else {
      var before, a := acts[..|acts|-1], acts[|acts|-1];
      var n := A.NetRun(w, before);
      if n.session.Closed? {
        ClosedForGood(w, n, a);
      }
      var first;
      t, first := ExchangesTakePlace(w, before, c, mem, pad);
      var mid := TalkRun(w, c, t, first);
      var more, u := OneMoreMessage(w, c, mid, a);
      LeadsAppend(w, c, t, first, mid, more, u);
      steps := first + more;
    }
  }

  /** In particular an honest connect gets through the server: with keys that agree and any
      vectors, client and session end in step under the agreed key, with five attempts. */
  lemma ConnectTakesPlace(w: S.World, acts: seq<A.NetAction>, c: int, mem: seq<byte>, pad: byte)
    returns (t: Talk, steps: seq<Step>)
    requires S.Lawful(w) && |mem| == D.MAX_LEN && |acts| == 5 && (forall i | 0 <= i < 5 :: A.InTurn(acts[i], i))
    requires A.KeysAgree(w, acts) && forall i | 0 <= i < 5 && acts[i].ServerTakes? :: Brief(w, acts[i].user)
    ensures Begins([Accept(c, mem, pad)], c, t) && IsTalk(w, c, t, steps)
    ensures var key := w.agree(acts[1].priv, w.pub(acts[0].priv)).value;
            TalkRun(w, c, t, steps).net ==
              A.Net(S.Authenticating(Sealed(key), 5), A.Client(Sealed(key), A.Ready, false), [], [])
  {
    forall i | 0 <= i < 5 ensures Allowed(w, acts[i]) {
      if acts[i].ServerTakes? {
        BriefFits(w, acts[i].user);
      }
    }
    hide Begins, Rests, S.Lawful, Allowed, IsTalk, TalkRun, A.IsNetRun, A.NetRun;
    A.HonestConnectSucceeds(w, acts);
    t, steps := ExchangesTakePlace(w, acts, c, mem, pad);
  }

  // ---------------------------------------------------------------- the server's part

  /** What a step of the conversation is for the two threads. */
  ghost function PartOf(w: S.World, t: Talk, st: Step): seq<Action> {
    match st
    case Thread(a) => [a]
    case Handled(_, _, _, _, _) =>
      if t.sys.worker.Fetched? then [E.HandleWith(w, t.ins, InputNow(t, st))] else []
    case _ => []
  }

  ghost function ServerSteps(w: S.World, c: int, t: Talk, steps: seq<Step>): seq<Action>
    requires IsTalk(w, c, t, steps)
  {
    if steps == [] then []
    else
      var before, st := steps[..|steps|-1], steps[|steps|-1];
      ServerSteps(w, c, t, before) + PartOf(w, TalkRun(w, c, t, before), st)
  }

  ghost predicate IsDriven(w: S.World, c: int, u: Talk, run: seq<Action>) {
    IsRun(START, run) && Run(START, run) == u.sys && E.Driven(w, run, c, u.ins)
  }

  lemma ThreadDriven(w: S.World, c: int, t: Talk, a: Action, run: seq<Action>)
    requires IsDriven(w, c, t, run) && Enabled(t.sys, a) && !E.Handles(t.sys, a, c) && !(a.Accept? && a.c == c)
    ensures IsDriven(w, c, t.(sys := Next(t.sys, a)), run + [a])
  {
    hide Enabled, Next, E.Handles;
    assert (run + [a])[..|run|] == run;
  }

  lemma HandledDriven(w: S.World, c: int, t: Talk, i: S.Input, run: seq<Action>, u: Talk)
    requires IsDriven(w, c, t, run) && t.sys.worker.Fetched? && t.sys.worker.id == c && i.frame == t.sys.worker.frame
    requires c in t.sys.contexts && t.sys.contexts[c] && Enabled(t.sys, E.HandleWith(w, t.ins, i))
    requires u.sys == Next(t.sys, E.HandleWith(w, t.ins, i)) && u.ins == t.ins + [i]
    ensures IsDriven(w, c, u, run + [E.HandleWith(w, t.ins, i)])
  {
    hide Enabled, Next, S.SessionStep, S.SessionRun;
    var a := E.HandleWith(w, t.ins, i);
    assert (run + [a])[..|run|] == run && (t.ins + [i])[..|t.ins|] == t.ins;
    assert E.Handles(t.sys, a, c);
  }

  lemma StillActive(s: Sys, c: int)
    requires Inv(s) && s.worker.Fetched? && c in s.contexts
    ensures s.contexts[c]
  {
    hide ConnsOk;
  }

  /** One more step: a thread's that is not the handling of a frame, or just that. */
  lemma DrivenOn(w: S.World, c: int, t: Talk, st: Step, run: seq<Action>)
    requires IsDriven(w, c, t, run) && Inv(t.sys) && CanStep(w, c, t, st)
    ensures IsDriven(w, c, After(w, c, t, st), run + PartOf(w, t, st))
  {
    hide A.ClientReceive, A.NetNext, ParseFrames, StaysGood, S.SessionStep, S.SessionRun, Inv, IsDriven, Next, Enabled,
      E.HandleWith, E.Handles;
    match st
    case Thread(a) => ThreadDriven(w, c, t, a, run);
    case Handled(_, _, _, _, _) =>
      StillActive(t.sys, c);
      HandledDriven(w, c, t, InputNow(t, st), run, After(w, c, t, st));
    case Asks(_) => SameServer(w, c, t, After(w, c, t, st), run);
    case Reads(_) => SameServer(w, c, t, After(w, c, t, st), run);
  }

  lemma SameServer(w: S.World, c: int, t: Talk, u: Talk, run: seq<Action>)
    requires IsDriven(w, c, t, run) && u.sys == t.sys && u.ins == t.ins
    ensures IsDriven(w, c, u, run + [])
  {
    assert run + [] == run;
  }

  /** The server's part of a conversation is a run of its threads in which the connection is
      served by the session. */
  lemma {:induction false} ConversationIsDriven(w: S.World, acts: seq<Action>, c: int, t: Talk, steps: seq<Step>)
    requires S.Lawful(w) && Begins(acts, c, t) && IsTalk(w, c, t, steps)
    ensures IsDriven(w, c, TalkRun(w, c, t, steps), acts + ServerSteps(w, c, t, steps))
  {
    hide S.Lawful, TalkOk, CanStep, After, IsDriven, PartOf;
    if steps == [] {
      DrivenFirst(w, c, acts, t);
      assert acts + [] == acts;
    } else {
      var before, st := steps[..|steps|-1], steps[|steps|-1];
      var u := TalkRun(w, c, t, before);
      ConversationIsDriven(w, acts, c, t, before);
      BeginsOk(w, acts, c, t);
      TalkStaysOk(w, c, t, before);
      InvNow(w, c, u);
      DrivenOn(w, c, u, st, acts + ServerSteps(w, c, t, before));
      AppendAssoc(acts, ServerSteps(w, c, t, before), PartOf(w, u, st));
    }
  }

  lemma InvNow(w: S.World, c: int, t: Talk)
    requires TalkOk(w, c, t)
    ensures Inv(t.sys)
  {
  }

  lemma DrivenFirst(w: S.World, c: int, acts: seq<Action>, t: Talk)
    requires Begins(acts, c, t)
    ensures IsDriven(w, c, t, acts)
  {
    hide Next, Enabled;
  }
}
