/** What every run of the two server threads guarantees. */
module PipelineTheorems {
  import opened Options
  import opened Wire
  import F = Framer
  import D = Deframer
  import opened DeframerObject
  import RoundTrip
  import opened Pipeline
  import opened PipelineProofs

  /** Delivery: for an open connection the frames parsed from its bytes are those its
      session has handled, then the one the worker holds, then those still queued, in
      order; after the close the handled frames are a prefix of the parsed ones. */
  lemma DeliveryConservation(acts: seq<Action>, c: int)
    requires IsRun(START, acts) && c in Run(START, acts).hist
    ensures var s := Run(START, acts); var h := s.hist[c].ins;
            && (c in s.conns && h.ok ==>
                  F.RxValid(s.conns[c].rx) &&
                  ParseFrames(h.consumed) ==
                    h.handed + Held(s.worker, c) + Proj(s.wqIn, c) + F.Pending(s.conns[c].rx))
            && (c !in s.conns && h.ok ==> h.handed <= ParseFrames(h.consumed))
            && (c in s.conns ==> h.parsed == h.handed + Held(s.worker, c) + Proj(s.wqIn, c))
            && (c !in s.conns ==> h.handed <= h.parsed)
  {
    RunKeepsInv(acts);
    var s := Run(START, acts);
    assert ConnOk(s, c);
    var h := s.hist[c].ins;
    assert h.handed + (Held(s.worker, c) + Proj(s.wqIn, c)) == h.handed + Held(s.worker, c) + Proj(s.wqIn, c);
  }

  /** Output: while a connection is open its wire holds the complete encodings of
      accepted responses and then a prefix of the last; the accepted responses are an
      in-order subsequence of those the worker queued. */
  lemma NoInterleaving(acts: seq<Action>, c: int)
    requires IsRun(START, acts) && c in Run(START, acts).conns
    ensures var s := Run(START, acts);
            && c in s.hist
            && var h := s.hist[c].outs; var n := |h.accepted|;
               && AllWellFormed(h.accepted)
               && Subseq(h.accepted, h.taken) && h.replied == h.taken + (InHand(s.loop, c) + Proj(s.wqOut, c))
               && (h.ok ==>
                     && h.before + h.part <= EncodeAll(h.accepted)
                     && (n > 0 ==> EncodeAll(h.accepted[..n-1]) <= h.before + h.part)
                     && (!s.conns[c].tx.inProgress ==> h.before + h.part == EncodeAll(h.accepted)))
  {
    RunKeepsInv(acts);
    var s := Run(START, acts);
    assert ConnOk(s, c);
    var h := s.hist[c].outs;
    if h.ok {
      WirePrefix(s.conns[c].tx, h);
    }
  }

  lemma WirePrefix(tx: D.TxState, h: OutSide)
    requires AllWellFormed(h.accepted) && WireOk(tx, h)
    ensures h.before + h.part <= EncodeAll(h.accepted)
    ensures h.accepted != [] ==> EncodeAll(h.accepted[..|h.accepted|-1]) <= h.before + h.part
    ensures !tx.inProgress ==> h.before + h.part == EncodeAll(h.accepted)
  {
    if !tx.inProgress {
      FinishedWire(tx, h);
    }
    if h.accepted != [] {
      var n := |h.accepted| - 1;
      assert h.accepted == h.accepted[..n] + [h.accepted[n]];
      EncodeAllAppend(h.accepted[..n], h.accepted[n]);
      D.InvIsPrefix(h.accepted[n], h.part, tx, h.cut);
    }
  }

  /** The responses that met an open connection `c` since it was accepted, each with
      whether its writer was still busy with an earlier one. */
  ghost function Meetings(acts: seq<Action>, c: int): seq<(Frame, bool)>
    requires IsRun(START, acts)
  {
    if acts == [] then []
    else
      var before, a := acts[..|acts|-1], acts[|acts|-1];
      var s := Run(START, before);
      if a.Accept? && a.c == c then []
      else if a.OfferNext? && s.loop.id == c && c in s.conns then
        Meetings(before, c) + [(s.loop.frame, s.conns[c].tx.inProgress)]
      else Meetings(before, c)
  }

  function All(ms: seq<(Frame, bool)>): seq<Frame> {
    if ms == [] then [] else All(ms[..|ms|-1]) + [ms[|ms|-1].0]
  }

  function Those(ms: seq<(Frame, bool)>, busy: bool): seq<Frame> {
    if ms == [] then []
    else Those(ms[..|ms|-1], busy) + if ms[|ms|-1].1 == busy then [ms[|ms|-1].0] else []
  }

  ghost predicate Fate(h: OutSide, ms: seq<(Frame, bool)>) {
    h.taken == All(ms) && h.accepted == Those(ms, false) && h.dropped == |Those(ms, true)|
  }

  lemma MeetingFate(h: OutSide, conn: Conn, f: Frame, ms: seq<(Frame, bool)>)
    requires Fate(h, ms)
    ensures Fate(OfferOuts(conn, h, f), ms + [(f, conn.tx.inProgress)])
  {
    var longer := ms + [(f, conn.tx.inProgress)];
    assert longer[..|longer|-1] == ms;
    assert Those(ms, false) + [] == Those(ms, false);
  }

  /** Over every run: of the responses that met an open connection, exactly those that
      found its writer idle were accepted, in order, and the others dropped. */
  lemma {:induction false} DroppedOnlyWhileBusy(acts: seq<Action>, c: int)
    requires IsRun(START, acts) && c in Run(START, acts).hist
    ensures Fate(Run(START, acts).hist[c].outs, Meetings(acts, c))
  {
    if acts == [] {
    } else {
      var before, a := acts[..|acts|-1], acts[|acts|-1];
      var s := Run(START, before);
      if a.Accept? && a.c == c {
      } else {
        MeetOnlyAtOffers(s, a, c);
        DroppedOnlyWhileBusy(before, c);
        if a.OfferNext? && s.loop.id == c && c in s.conns {
          MeetingFate(s.hist[c].outs, s.conns[c], s.loop.frame, Meetings(before, c));
        }
      }
    }
  }

  lemma MeetOnlyAtOffers(s: Sys, a: Action, c: int)
    requires Enabled(s, a) && !(a.Accept? && a.c == c) && c in Next(s, a).hist
    ensures c in s.hist
    ensures var h, t := s.hist[c].outs, Next(s, a).hist[c].outs;
            if a.OfferNext? && s.loop.id == c && c in s.conns then t == OfferOuts(s.conns[c], h, s.loop.frame)
            else t.taken == h.taken && t.accepted == h.accepted && t.dropped == h.dropped
  {
    hide F.RxStep, D.TxStep, F.NextCut, D.NextCut, F.LenTransferOk, D.LenSendOk, Proj, OfferTx, ConnValid;
  }

  /** Every queued response is matched by a token in the counter, by the notification
      its worker still owes, or by the token the event loop has already taken. */
  lemma NoStrandedResponse(acts: seq<Action>)
    requires IsRun(START, acts)
    ensures var s := Run(START, acts); var woken := s.tokens + Owed(s.worker) + One(s.loop.Notified?);
            && |s.wqOut| <= woken <= |s.wqOut| + s.stops
            && (s.wqOut != [] && Owed(s.worker) == 0 && s.loop.Polling? ==> Enabled(s, TakeToken))
  {
    RunKeepsInv(acts);
  }

  /** The event loop alone can fetch everything once the worker has notified. */
  lemma {:induction false} EventLoopDrains(acts: seq<Action>) returns (more: seq<Action>)
    requires IsRun(START, acts)
    requires var s := Run(START, acts); Owed(s.worker) == 0 && s.loop.Polling?
    ensures IsRun(START, acts + more) && Run(START, acts + more).wqOut == []
    ensures forall i | 0 <= i < |more| :: more[i].TakeToken? || more[i].FetchNext? || more[i].OfferNext?
    decreases |Run(START, acts).wqOut|
  {
    hide IsRun, Run, Enabled, Next;
    var s := Run(START, acts);
    if s.wqOut == [] {
      assert acts + [] == acts;
      return [];
    }
    var fetch := FetchOne(acts);
    more := EventLoopDrains(acts + fetch);
    assert acts + fetch + more == acts + (fetch + more);
    more := fetch + more;
  }

  lemma FetchOne(acts: seq<Action>) returns (fetch: seq<Action>)
    requires IsRun(START, acts)
    requires var s := Run(START, acts); Owed(s.worker) == 0 && s.loop.Polling? && s.wqOut != []
    ensures IsRun(START, acts + fetch)
    ensures forall i | 0 <= i < |fetch| :: fetch[i].TakeToken? || fetch[i].FetchNext? || fetch[i].OfferNext?
    ensures var s, t := Run(START, acts), Run(START, acts + fetch);
            t.wqOut == s.wqOut[1..] && t.worker == s.worker && t.loop.Polling?
  {
    hide IsRun, Run, Inv;
    NoStrandedResponse(acts);
    OutboundFits(acts);
    var f := Run(START, acts).wqOut[0].1;
    var offer := OfferNext(seq(D.MAX_LEN - |f.msg|, i => 0), 0);
    RunSnoc(acts, TakeToken);
    RunSnoc(acts + [TakeToken], FetchNext);
    RunSnoc(acts + [TakeToken] + [FetchNext], offer);
    fetch := [TakeToken, FetchNext, offer];
    assert acts + [TakeToken] + [FetchNext] + [offer] == acts + fetch;
  }

  lemma OutboundFits(acts: seq<Action>)
    requires IsRun(START, acts)
    ensures var q := Run(START, acts).wqOut; q != [] ==> WellFormed(q[0].1)
  {
    RunKeepsInv(acts);
  }

  lemma RunSnoc(acts: seq<Action>, a: Action)
    requires IsRun(START, acts) && Enabled(Run(START, acts), a)
    ensures IsRun(START, acts + [a]) && Run(START, acts + [a]) == Next(Run(START, acts), a)
  {
  }

  /** The two tables always have the same keys, and the worker never meets an inactive
      context: the branch that erases only one table is dead. */
  lemma TablesAlwaysAgree(acts: seq<Action>, a: Action)
    requires IsRun(START, acts)
    ensures Run(START, acts).conns.Keys == Run(START, acts).contexts.Keys
    ensures var s := Run(START, acts);
            Enabled(s, a) && a.WorkerHandle? && s.worker.id in s.contexts ==> s.contexts[s.worker.id]
  {
    RunKeepsInv(acts);
  }

  lemma ClosedStep(s: Sys, a: Action, c: int)
    requires Enabled(s, a) && c !in s.conns && c in s.hist && !(a.Accept? && a.c == c)
    ensures var t := Next(s, a);
            && c !in t.conns && c in t.hist
            && t.hist[c].outs == s.hist[c].outs.(replied := t.hist[c].outs.replied)
  {
    hide F.RxStep, D.TxStep, F.NextCut, D.NextCut, F.LenTransferOk, D.LenSendOk, Proj, OfferTx, ConnValid;
  }

  lemma {:induction false} ClosedStaysSilent(s: Sys, acts: seq<Action>, c: int)
    requires IsRun(s, acts) && c !in s.conns && c in s.hist
    requires forall i | 0 <= i < |acts| :: !(acts[i].Accept? && acts[i].c == c)
    ensures var t := Run(s, acts);
            && c !in t.conns && c in t.hist
            && t.hist[c].outs == s.hist[c].outs.(replied := t.hist[c].outs.replied)
  {
    if acts == [] {
    } else {
      var front := acts[..|acts|-1];
      ClosedStaysSilent(s, front, c);
      ClosedStep(Run(s, front), acts[|acts|-1], c);
    }
  }

  /** A session that ends itself has its connection closed at the end of the worker's turn:
      whatever the event loop has not written by then, the last reply included, never
      reaches the wire, however the run goes on. */
  lemma LateRepliesAreLost(s: Sys, acts: seq<Action>)
    requires Inv(s) && Enabled(s, WorkerDone) && s.worker.id in s.contexts && !s.contexts[s.worker.id]
    requires IsRun(Next(s, WorkerDone), acts)
    requires forall i | 0 <= i < |acts| :: !(acts[i].Accept? && acts[i].c == s.worker.id)
    ensures var t, c := Run(Next(s, WorkerDone), acts), s.worker.id;
            && c in s.hist && c in t.hist && c !in t.conns
            && t.hist[c].outs.accepted == s.hist[c].outs.accepted
            && t.hist[c].outs.before + t.hist[c].outs.part == s.hist[c].outs.before + s.hist[c].outs.part
  {
    hide ConnsOk;
    ClosedStaysSilent(Next(s, WorkerDone), acts, s.worker.id);
  }

  // ------------------------------------------------------------ end to end

  /** Requests: whatever a well-behaved client writer put on the wire, cut anywhere on
      both sides, the session has handled a prefix of exactly those frames. */
  lemma RequestsArriveInOrder(acts: seq<Action>, c: int, jobs: seq<Job>)
    requires IsRun(START, acts) && c in Run(START, acts).hist
    requires RoundTrip.InTurn(jobs) && RoundTrip.AllLeaveWell(jobs)
    requires var h := Run(START, acts).hist[c].ins; h.ok && h.consumed <= RoundTrip.WireOf(jobs)
    ensures Run(START, acts).hist[c].ins.handed <= RoundTrip.FramesOf(jobs)
  {
    HandledArePrefix(acts, c);
    hide IsRun, Run, ParseFrames;
    RoundTrip.WireIsEncodings(jobs);
    ParseInvertsEncode(RoundTrip.FramesOf(jobs));
    ParsePrefix(Run(START, acts).hist[c].ins.consumed, EncodeAll(RoundTrip.FramesOf(jobs)));
  }

  lemma HandledArePrefix(acts: seq<Action>, c: int)
    requires IsRun(START, acts) && c in Run(START, acts).hist && Run(START, acts).hist[c].ins.ok
    ensures Run(START, acts).hist[c].ins.handed <= ParseFrames(Run(START, acts).hist[c].ins.consumed)
  {
    hide IsRun, Run, ParseFrames;
    DeliveryConservation(acts, c);
  }

  /** Responses: a client reading the server's wire, cut anywhere, gets a prefix of
      the accepted responses. */
  lemma ResponsesArriveInOrder(acts: seq<Action>, c: int, fd: int, rs: seq<F.RecvResult>)
    requires IsRun(START, acts) && c in Run(START, acts).conns && c in Run(START, acts).hist
    requires F.Deliverable(F.RxReset(fd), rs) && F.LensOk(F.RxReset(fd), rs)
    requires var h := Run(START, acts).hist[c].outs; h.ok && F.Consumed(rs) <= h.before + h.part
    ensures var o := F.RxRun(F.RxReset(fd), rs);
            o.pushed + F.Pending(o.state) <= Run(START, acts).hist[c].outs.accepted
  {
    var h := Run(START, acts).hist[c].outs;
    NoInterleaving(acts, c);
    F.FramerRefinesParser(fd, rs);
    ParseInvertsEncode(h.accepted);
    ParsePrefix(F.Consumed(rs), EncodeAll(h.accepted));
  }
}
