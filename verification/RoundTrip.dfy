/** Writer and reader together: what is sent frame by frame, in pieces of any size,
    is received frame by frame, in pieces of any other size. */
module RoundTrip {
  import opened Wire
  import D = Deframer
  import opened DeframerObject
  import opened Framer

  ghost predicate Finished(j: Job)
    requires j.Job? && JobOk(j)
  {
    !JobRun(j).state.inProgress
  }

  /** Frames handed to one writer in turn: a new one only when the last is out. */
  ghost predicate InTurn(jobs: seq<Job>) {
    && (forall i | 0 <= i < |jobs| :: jobs[i].Job? && JobOk(jobs[i]))
    && (forall i | 0 <= i < |jobs| - 1 :: Finished(jobs[i]))
  }

  ghost function FramesOf(jobs: seq<Job>): (fs: seq<Frame>)
    requires InTurn(jobs)
    ensures |fs| == |jobs| && AllWellFormed(fs)
  {
    seq(|jobs|, i requires 0 <= i < |jobs| => jobs[i].frame)
  }

  ghost function WireOf(jobs: seq<Job>): seq<byte>
    requires InTurn(jobs)
  {
    if jobs == [] then [] else WireOf(jobs[..|jobs|-1]) + JobRun(jobs[|jobs|-1]).wire
  }

  ghost predicate AllLeaveWell(jobs: seq<Job>)
    requires InTurn(jobs)
  {
    forall i | 0 <= i < |jobs| :: LeavesWell(jobs[i])
  }

  lemma OneMoreJob(jobs: seq<Job>)
    requires InTurn(jobs) && jobs != [] && LeavesWell(jobs[|jobs|-1])
    ensures var last := jobs[|jobs|-1];
            && FramesOf(jobs) == FramesOf(jobs[..|jobs|-1]) + [last.frame]
            && JobRun(last).wire <= Encode(last.frame)
            && (Finished(last) ==> JobRun(last).wire == Encode(last.frame))
  {
    hide D.TxRun, D.Sendable, D.LensSendOk, Encode;
    var last := jobs[|jobs|-1];
    D.WriterPrefix(last.frame, last.beyond, last.pad, last.results);
    if Finished(last) {
      D.WriterExactlyRight(last.frame, last.beyond, last.pad, last.results);
    }
  }

  /** Nothing interleaves: complete encodings, then a prefix of the last one. */
  lemma {:induction false} WireIsEncodings(jobs: seq<Job>)
    requires InTurn(jobs) && AllLeaveWell(jobs)
    ensures WireOf(jobs) <= EncodeAll(FramesOf(jobs))
    ensures jobs != [] && Finished(jobs[|jobs|-1]) ==> WireOf(jobs) == EncodeAll(FramesOf(jobs))
  {
    hide D.TxRun, D.Sendable, D.LensSendOk, Encode;
    if jobs == [] {
    } else {
      var front, last := jobs[..|jobs|-1], jobs[|jobs|-1];
      WireIsEncodings(front);
      assert front != [] ==> Finished(front[|front|-1]);
      OneMoreJob(jobs);
      EncodeAllAppend(FramesOf(front), last.frame);
    }
  }

  /** For every frame list, every schedule of partial sends in which the length fields
      leave well, and every schedule of partial receives of those bytes: the reader
      yields exactly the frames sent, in order, if and only if its own length transfers
      are good. */
  lemma RoundTripExact(fd: int, jobs: seq<Job>, rs: seq<RecvResult>)
    requires InTurn(jobs) && AllLeaveWell(jobs) && (jobs != [] ==> Finished(jobs[|jobs|-1]))
    requires Deliverable(RxReset(fd), rs) && Consumed(rs) == WireOf(jobs)
    ensures var o := RxRun(RxReset(fd), rs);
            o.pushed + Pending(o.state) == FramesOf(jobs) <==> LensOk(RxReset(fd), rs)
  {
    WireIsEncodings(jobs);
    FramerExactlyRight(fd, FramesOf(jobs), rs);
  }

  /** At every earlier moment the frames received are a prefix of those sent. */
  lemma RoundTripInFlight(fd: int, jobs: seq<Job>, rs: seq<RecvResult>)
    requires InTurn(jobs) && AllLeaveWell(jobs)
    requires Deliverable(RxReset(fd), rs) && Consumed(rs) <= WireOf(jobs) && LensOk(RxReset(fd), rs)
    ensures var o := RxRun(RxReset(fd), rs);
            o.pushed + Pending(o.state) <= FramesOf(jobs)
  {
    WireIsEncodings(jobs);
    ParseInvertsEncode(FramesOf(jobs));
    ParsePrefix(Consumed(rs), EncodeAll(FramesOf(jobs)));
    FramerRefinesParser(fd, rs);
  }
}
