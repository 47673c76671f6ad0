/** Each connection of the running server is one reader and one writer of the wire layer:
    the steps of a run that concern it are their attempts, and its history says of them
    what `Framer` and `Deframer` do. */
module Endpoints {
  import opened Options
  import opened Wire
  import F = Framer
  import D = Deframer
  import opened DeframerObject
  import RoundTrip
  import opened Pipeline
  import opened PipelineProofs
  import T = PipelineTheorems

  // ---------------------------------------------------------------- the input side

  /** What the attempts to read from `c` came to since it was accepted. */
  ghost function ReadsOf(acts: seq<Action>, c: int): seq<F.RecvResult> {
    if acts == [] then []
    else
      var before, a := acts[..|acts|-1], acts[|acts|-1];
      if a.Accept? && a.c == c then []
      else if a.Read? && a.c == c then ReadsOf(before, c) + [a.received]
      else ReadsOf(before, c)
  }

  ghost predicate IsReader(open: Option<Conn>, h: InSide, c: int, rs: seq<F.RecvResult>) {
    && F.Deliverable(F.RxReset(c), rs)
    && var o := F.RxRun(F.RxReset(c), rs);
       && h.consumed == F.Consumed(rs) && h.parsed == o.pushed
       && h.cut == F.CutAfter(F.RxReset(c), rs) && (h.ok <==> F.LensOk(F.RxReset(c), rs))
       && (open.Some? ==> open.value.rx == o.state)
  }

  lemma ReadsOn(conn: Conn, h: InSide, c: int, rs: seq<F.RecvResult>, r: F.RecvResult)
    requires IsReader(Some(conn), h, c, rs) && ConnValid(conn) && F.Delivers(F.Want(conn.rx), r)
    ensures IsReader(Some(conn.(rx := F.RxStep(conn.rx, r).state)), ReadIns(conn, h, r), c, rs + [r])
  {
    F.RunSnoc(F.RxReset(c), rs, r);
    assert (rs + [r])[..|rs|] == rs;
    hide F.RxStep, F.NextCut, F.LenTransferOk, F.Delivers, F.Want, F.RxRun, F.Deliverable;
  }

  lemma OtherStepsIn(s: Sys, a: Action, c: int)
    requires Enabled(s, a) && !(a.Accept? && a.c == c) && !(a.Read? && a.c == c) && c in Next(s, a).hist
    ensures var t := Next(s, a);
            && c in s.hist && t.hist[c].ins == s.hist[c].ins.(handed := t.hist[c].ins.handed)
            && (c in t.conns ==> c in s.conns && t.conns[c].rx == s.conns[c].rx)
  {
    hide F.RxStep, D.TxStep, F.NextCut, D.NextCut, F.LenTransferOk, D.LenSendOk, Proj, OfferTx, ConnValid;
  }

  /** Over every run, the input side of a connection is what the reader makes of the
      attempts on it, and its length transfers were good exactly when theirs were. */
  lemma {:induction false} InputIsReader(acts: seq<Action>, c: int)
    requires IsRun(START, acts) && c in Run(START, acts).hist
    ensures IsReader(Look(Run(START, acts).conns, c), Run(START, acts).hist[c].ins, c, ReadsOf(acts, c))
  {
    if acts == [] {
    } else {
      var before, a := acts[..|acts|-1], acts[|acts|-1];
      var s := Run(START, before);
      if a.Accept? && a.c == c {
      } else if a.Read? && a.c == c {
        InputIsReader(before, c);
        ReadsOn(s.conns[c], s.hist[c].ins, c, ReadsOf(before, c), a.received);
      } else {
        OtherStepsIn(s, a, c);
        InputIsReader(before, c);
      }
    }
  }

  /** The frames of `c` that have arrived: handled, in hand, queued, or complete but not
      pushed yet. */
  function Arrived(s: Sys, c: int): seq<Frame>
    requires c in s.hist && c in s.conns && F.RxValid(s.conns[c].rx)
  {
    s.hist[c].ins.handed + Held(s.worker, c) + Proj(s.wqIn, c) + F.Pending(s.conns[c].rx)
  }

  /** The frames sent arrive, exactly and in order, if and only if every length field was
      read well: however a peer's writer and the server cut the bytes, and whatever the two
      threads do meanwhile. */
  lemma RequestsExact(acts: seq<Action>, c: int, jobs: seq<Job>)
    requires IsRun(START, acts) && c in Run(START, acts).conns && c in Run(START, acts).hist
    requires RoundTrip.InTurn(jobs) && RoundTrip.AllLeaveWell(jobs)
    requires jobs != [] ==> RoundTrip.Finished(jobs[|jobs|-1])
    requires Run(START, acts).hist[c].ins.consumed == RoundTrip.WireOf(jobs)
    ensures var s := Run(START, acts);
            F.RxValid(s.conns[c].rx) && (Arrived(s, c) == RoundTrip.FramesOf(jobs) <==> s.hist[c].ins.ok)
  {
    InputIsReader(acts, c);
    ParsedIs(acts, c);
    hide IsRun, Run, ReadsOf, RoundTrip.InTurn, RoundTrip.AllLeaveWell, RoundTrip.Finished, F.Pending, F.RxRun, F.LensOk, Proj;
    RoundTrip.RoundTripExact(c, jobs, ReadsOf(acts, c));
  }

  lemma ParsedIs(acts: seq<Action>, c: int)
    requires IsRun(START, acts) && c in Run(START, acts).conns && c in Run(START, acts).hist
    ensures var s := Run(START, acts);
            F.RxValid(s.conns[c].rx) && Arrived(s, c) == s.hist[c].ins.parsed + F.Pending(s.conns[c].rx)
  {
    hide Proj, F.Pending;
    RunKeepsInv(acts);
    T.DeliveryConservation(acts, c);
    assert ConnOk(Run(START, acts), c);
  }

  // ---------------------------------------------------------------- the output side

  /** The responses given to the writer of `c` since it was accepted, each with what the
      attempts to write it came to. */
  ghost function JobsOf(acts: seq<Action>, c: int): seq<Job>
    requires IsRun(START, acts)
  {
    if acts == [] then []
    else
      var before, a := acts[..|acts|-1], acts[|acts|-1];
      var s, jobs := Run(START, before), JobsOf(before, c);
      if a.Accept? && a.c == c then []
      else if a.OfferNext? && s.loop.id == c && c in s.conns && !s.conns[c].tx.inProgress then
        jobs + [Job(s.loop.frame, a.beyond, a.behind, [], [])]
      else if a.Write? && a.c == c && jobs != [] && jobs[|jobs|-1].Job? then
        var last := jobs[|jobs|-1];
        jobs[..|jobs|-1] + [last.(results := last.results + [a.sent])]
      else jobs
  }

  /** The current job: what it has put on the wire, and where it has taken the writer. */
  ghost predicate Current(open: Option<Conn>, h: OutSide, j: Job)
    requires j.Job? && JobOk(j)
  {
    var start := D.TxStart(j.frame, j.beyond, j.pad);
    && h.part == JobRun(j).wire && h.cut == D.CutAfter(start, j.results)
    && (open.Some? ==> open.value.tx == JobRun(j).state)
  }

  ghost predicate IsWriter(open: Option<Conn>, h: OutSide, jobs: seq<Job>) {
    && RoundTrip.InTurn(jobs) && RoundTrip.FramesOf(jobs) == h.accepted
    && (h.ok <==> RoundTrip.AllLeaveWell(jobs))
    && if jobs == [] then h.before == [] && h.part == [] && (open.Some? ==> !open.value.tx.inProgress)
       else h.before == RoundTrip.WireOf(jobs[..|jobs|-1]) && Current(open, h, jobs[|jobs|-1])
  }

  lemma WritesOn(conn: Conn, h: OutSide, front: seq<Job>, j: Job, r: D.SendResult)
    requires IsWriter(Some(conn), h, front + [j]) && ConnValid(conn) && D.Takes(|D.Offer(conn.tx)|, r)
    requires AllWellFormed(h.accepted)
    ensures j.Job? && IsWriter(Some(conn.(tx := D.TxStep(conn.tx, r).state)), WriteOuts(conn, h, r),
                               front + [j.(results := j.results + [r])])
  {
    LastIs(front, j);
    assert j.Job? && JobOk(j);
    var k := j.(results := j.results + [r]);
    hide D.TxStep, D.LenSendOk, D.NextCut, D.Takes, D.Offer, JobOk, JobRun, LeavesWell, RoundTrip.InTurn;
    hide RoundTrip.AllLeaveWell, Current, WriteOuts, AllWellFormed, ConnValid, RoundTrip.WireOf, RoundTrip.FramesOf;
    JobOn(conn, h, j, r);
    LastReplaced(front, j, k);
  }

  lemma LastIs(front: seq<Job>, j: Job)
    requires RoundTrip.InTurn(front + [j])
    ensures var jobs := front + [j];
            && jobs[..|jobs|-1] == front && jobs[|jobs|-1] == j && j.Job? && JobOk(j)
            && RoundTrip.FramesOf(jobs) != [] && RoundTrip.FramesOf(jobs)[|jobs|-1] == j.frame
  {
    var jobs := front + [j];
    assert jobs[|jobs|-1].Job?;
  }

  /** One more attempt on the current job. */
  lemma JobOn(conn: Conn, h: OutSide, j: Job, r: D.SendResult)
    requires j.Job? && JobOk(j) && Current(Some(conn), h, j) && ConnValid(conn) && D.Takes(|D.Offer(conn.tx)|, r)
    requires AllWellFormed(h.accepted) && h.accepted != [] && h.accepted[|h.accepted|-1] == j.frame
    ensures var k := j.(results := j.results + [r]);
            var next := WriteOuts(conn, h, r);
            && JobOk(k) && Current(Some(conn.(tx := D.TxStep(conn.tx, r).state)), next, k)
            && next == h.(part := next.part, cut := next.cut, ok := next.ok)
            && (LeavesWell(k) <==> LeavesWell(j) && D.LenSendOk(j.frame, conn.tx, h.cut, r))
            && (next.ok <==> h.ok && D.LenSendOk(j.frame, conn.tx, h.cut, r))
  {
    var start := D.TxStart(j.frame, j.beyond, j.pad);
    D.TxRunSnoc(start, j.results, r);
    assert (j.results + [r])[..|j.results|] == j.results;
    hide D.TxStep, D.LenSendOk, D.NextCut, D.Takes, D.Offer, D.TxRun, D.Sendable;
  }

  /** The same jobs but for the attempts of the last one. */
  lemma LastReplaced(front: seq<Job>, j: Job, k: Job)
    requires RoundTrip.InTurn(front + [j]) && j.Job? && JobOk(j) && k.Job? && JobOk(k) && k.frame == j.frame
    ensures RoundTrip.InTurn(front + [k]) && RoundTrip.InTurn(front) && (front + [k])[..|front|] == front
    ensures RoundTrip.FramesOf(front + [k]) == RoundTrip.FramesOf(front + [j])
    ensures RoundTrip.AllLeaveWell(front + [k]) <==> RoundTrip.AllLeaveWell(front) && LeavesWell(k)
    ensures RoundTrip.AllLeaveWell(front + [j]) <==> RoundTrip.AllLeaveWell(front) && LeavesWell(j)
  {
    hide JobOk, JobRun, LeavesWell;
    var with, without := front + [j], front + [k];
    assert forall i | 0 <= i < |front| :: with[i] == front[i] == without[i];
    assert with[|front|] == j && without[|front|] == k;
  }

  /** A response meets an idle writer. */
  lemma OfferedOn(conn: Conn, h: OutSide, jobs: seq<Job>, f: Frame, beyond: seq<byte>, behind: byte)
    requires IsWriter(Some(conn), h, jobs) && !conn.tx.inProgress && WellFormed(f) && |f.msg| + |beyond| == D.MAX_LEN
    ensures IsWriter(Some(conn.(tx := OfferTx(conn, f, beyond, behind))), OfferOuts(conn, h, f),
                     jobs + [Job(f, beyond, behind, [], [])])
  {
    hide JobOk, JobRun, LeavesWell, D.TxStart, RoundTrip.InTurn, RoundTrip.AllLeaveWell, RoundTrip.WireOf, D.CutAfter;
    var j := Job(f, beyond, behind, [], []);
    JobStarts(f, beyond, behind);
    WireIs(Some(conn), h, jobs);
    IdleIsFinished(conn, h, jobs);
    OneMore(jobs, j);
    assert (jobs + [j])[..|jobs|] == jobs;
  }

  lemma IdleIsFinished(conn: Conn, h: OutSide, jobs: seq<Job>)
    requires IsWriter(Some(conn), h, jobs) && !conn.tx.inProgress
    ensures RoundTrip.InTurn(jobs) && (jobs != [] ==> RoundTrip.Finished(jobs[|jobs|-1]))
  {
    hide JobRun, JobOk, LeavesWell;
  }

  lemma JobStarts(f: Frame, beyond: seq<byte>, behind: byte)
    requires WellFormed(f) && |f.msg| + |beyond| == D.MAX_LEN
    ensures var j, start := Job(f, beyond, behind, [], []), D.TxStart(f, beyond, behind);
            JobOk(j) && JobRun(j) == D.TxOut(start, [], true) && LeavesWell(j) && D.CutAfter(start, []) == D.NoByte(false)
  {
  }

  lemma OneMore(jobs: seq<Job>, j: Job)
    requires RoundTrip.InTurn(jobs) && j.Job? && JobOk(j)
    requires jobs != [] ==> RoundTrip.Finished(jobs[|jobs|-1])
    ensures RoundTrip.InTurn(jobs + [j]) && RoundTrip.FramesOf(jobs + [j]) == RoundTrip.FramesOf(jobs) + [j.frame]
    ensures RoundTrip.AllLeaveWell(jobs + [j]) <==> RoundTrip.AllLeaveWell(jobs) && LeavesWell(j)
  {
    hide JobOk, JobRun, LeavesWell;
    var more := jobs + [j];
    assert forall i | 0 <= i < |jobs| :: more[i] == jobs[i];
    assert more[|jobs|] == j;
  }

  /** The steps that leave the writer of `c` and what it was given alone; a writer that has
      been given nothing has nothing to write. */
  lemma OtherStepsOut(s: Sys, a: Action, c: int)
    requires Enabled(s, a) && !(a.Accept? && a.c == c) && c in Next(s, a).hist
    requires !(a.Write? && a.c == c) && !(a.OfferNext? && s.loop.id == c && c in s.conns && !s.conns[c].tx.inProgress)
    ensures c in s.hist
    ensures var t, h := Next(s, a), s.hist[c].outs; var k := t.hist[c].outs;
            && k == h.(replied := k.replied, taken := k.taken, dropped := k.dropped)
            && (c in t.conns ==> c in s.conns && t.conns[c].tx == s.conns[c].tx)
  {
    hide F.RxStep, D.TxStep, F.NextCut, D.NextCut, F.LenTransferOk, D.LenSendOk, Proj, ConnValid;
  }

  lemma IdleWrite(conn: Conn, h: OutSide, r: D.SendResult)
    requires IsWriter(Some(conn), h, []) && ConnValid(conn) && D.Takes(|D.Offer(conn.tx)|, r) && AllWellFormed(h.accepted)
    ensures IsWriter(Some(conn.(tx := D.TxStep(conn.tx, r).state)), WriteOuts(conn, h, r), [])
  {
    hide D.NextCut, D.LenSendOk, D.Takes;
    OffersOnWire(conn.tx, r);
  }

  lemma JustAccepted(s: Sys, a: Action)
    requires a.Accept? && Enabled(s, a)
    ensures var t := Next(s, a); a.c in t.hist && IsWriter(Look(t.conns, a.c), t.hist[a.c].outs, [])
  {
  }

  lemma WireIs(open: Option<Conn>, h: OutSide, jobs: seq<Job>)
    requires IsWriter(open, h, jobs)
    ensures RoundTrip.InTurn(jobs) && RoundTrip.WireOf(jobs) == h.before + h.part
  {
    hide JobRun, JobOk, LeavesWell;
  }

  /** Over every run, the output side of a connection is what the writer makes of the
      responses given to it one after the other: the bytes on the wire are theirs, and its
      length fields left well exactly when theirs did. */
  lemma {:induction false} OutputIsWriter(acts: seq<Action>, c: int)
    requires IsRun(START, acts) && c in Run(START, acts).hist
    ensures var s, jobs := Run(START, acts), JobsOf(acts, c);
            && IsWriter(Look(s.conns, c), s.hist[c].outs, jobs)
            && RoundTrip.WireOf(jobs) == s.hist[c].outs.before + s.hist[c].outs.part
  {
    hide IsWriter;
    if acts == [] {
    } else {
      var before, a := acts[..|acts|-1], acts[|acts|-1];
      var s, jobs := Run(START, before), JobsOf(before, c);
      if a.Accept? && a.c == c {
        JustAccepted(s, a);
      } else if a.Write? && a.c == c {
        OutputIsWriter(before, c);
        WriteStep(s, a, jobs);
      } else if a.OfferNext? && s.loop.id == c && c in s.conns && !s.conns[c].tx.inProgress {
        OutputIsWriter(before, c);
        OfferedOn(s.conns[c], s.hist[c].outs, jobs, s.loop.frame, a.beyond, a.behind);
      } else {
        OtherStepsOut(s, a, c);
        OutputIsWriter(before, c);
        OtherOutOk(Look(s.conns, c), Look(Next(s, a).conns, c), s.hist[c].outs, Next(s, a).hist[c].outs, jobs);
      }
    }
    WireIs(Look(Run(START, acts).conns, c), Run(START, acts).hist[c].outs, JobsOf(acts, c));
  }

  lemma OtherOutOk(open: Option<Conn>, later: Option<Conn>, h: OutSide, k: OutSide, jobs: seq<Job>)
    requires IsWriter(open, h, jobs) && k == h.(replied := k.replied, taken := k.taken, dropped := k.dropped)
    requires later.Some? ==> open.Some? && later.value.tx == open.value.tx
    ensures IsWriter(later, k, jobs)
  {
    hide JobRun, JobOk, LeavesWell;
  }

  lemma WriteStep(s: Sys, a: Action, jobs: seq<Job>)
    requires a.Write? && Enabled(s, a) && IsWriter(Some(s.conns[a.c]), s.hist[a.c].outs, jobs)
    ensures jobs != [] ==> jobs[|jobs|-1].Job?
    ensures var t := Next(s, a);
            && a.c in t.conns && a.c in t.hist
            && IsWriter(Some(t.conns[a.c]), t.hist[a.c].outs,
                        if jobs == [] then []
                        else jobs[..|jobs|-1] + [jobs[|jobs|-1].(results := jobs[|jobs|-1].results + [a.sent])])
  {
    hide IsWriter, WriteOuts, D.TxStep, D.Takes, D.Offer, ConnValid, AllWellFormed;
    if jobs == [] {
      IdleWrite(s.conns[a.c], s.hist[a.c].outs, a.sent);
    } else {
      var front, last := jobs[..|jobs|-1], jobs[|jobs|-1];
      assert jobs == front + [last];
      WritesOn(s.conns[a.c], s.hist[a.c].outs, front, last, a.sent);
    }
  }
}
