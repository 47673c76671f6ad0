/** The writer object itself: its fields change in place as bytes leave. */
module DeframerObject {
  import opened Wire
  import opened Deframer

  /** The sending end of a connection. Each call may take any number of the bytes
      offered, or none. */
  class SendSocket {
    const fd: int
    var wire: seq<byte>

    /** Every result, for specification only. */
    ghost var calls: seq<SendResult>

    constructor (fd: int)
      ensures this.fd == fd && wire == [] && calls == []
    {
      this.fd, wire, calls := fd, [], [];
    }

    method Send(bytes: seq<byte>) returns (r: SendResult)
      requires bytes != []
      modifies this
      ensures Takes(|bytes|, r) && wire == old(wire) + bytes[..Count(r)] && calls == old(calls) + [r]
    {
      var open: bool, ready: bool := *, *;
      r := if open then Busy else Refused;
      if open && ready {
        var n: nat :| 1 <= n <= |bytes|;
        wire := wire + bytes[..n];
        r := Accepted(n);
      }
      calls := calls + [r];
    }
  }

  /** What is being sent, for specification: the frame, the memory around the
      writer's copy of it, what was on the wire before, and every result since. */
  datatype Job = NoJob | Job(frame: Frame, beyond: seq<byte>, pad: byte, before: seq<byte>, results: seq<SendResult>)

  ghost predicate JobOk(j: Job) {
    j.Job? ==>
      && WellFormed(j.frame) && |j.frame.msg| + |j.beyond| == MAX_LEN
      && Sendable(TxStart(j.frame, j.beyond, j.pad), j.results)
  }

  ghost function JobRun(j: Job): TxOut
    requires j.Job? && JobOk(j)
  {
    TxRun(TxStart(j.frame, j.beyond, j.pad), j.results)
  }

  ghost predicate LeavesWell(j: Job)
    requires j.Job? && JobOk(j)
  {
    LensSendOk(j.frame, TxStart(j.frame, j.beyond, j.pad), j.results)
  }

  /** An attempt that offers no byte is not a call. */
  function Called(r: SendResult): seq<SendResult> {
    if r.Skipped? then [] else [r]
  }

  class PDeframer {
    const sock: SendSocket
    var state: TxPhase
    var msgRemainingBytes: nat
    var lenRemainingBytes: nat
    var header: byte
    var lenHi: byte
    var lenLo: byte
    var mem: seq<byte>
    var pad: byte
    var writeInProgress: bool
    var writeEOF: bool
    var writeAgain: bool

    ghost var job: Job

    ghost function State(): TxState
      reads this
    {
      TxState(state, lenRemainingBytes, msgRemainingBytes, header, lenHi, lenLo, mem, pad,
              writeInProgress, writeEOF, writeAgain)
    }

    ghost predicate Valid()
      reads this, sock
    {
      && TxValid(State()) && JobOk(job)
      && (job.NoJob? ==> !writeInProgress)
      && (job.Job? ==> State() == JobRun(job).state && sock.wire == job.before + JobRun(job).wire)
    }

    constructor (sock: SendSocket, mem: seq<byte>, pad: byte)
      requires |mem| == MAX_LEN
      ensures Valid() && this.sock == sock && job == NoJob
      ensures State() == TxState(TxHeader, 0, 0, 0, 0, 0, mem, pad, false, false, false)
    {
      this.sock, this.mem, this.pad := sock, mem, pad;
      header, lenHi, lenLo := 0, 0, 0;
      writeInProgress, writeAgain, writeEOF := false, false, false;
      state, msgRemainingBytes, lenRemainingBytes := TxHeader, 0, 0;
      job := NoJob;
    }

    /** The copy assignment of the frame, and resetState. */
    method Start(f: Frame, hi: byte, lo: byte, beyond: seq<byte>, pad: byte)
      requires WellFormed(f) && |f.msg| + |beyond| == MAX_LEN && [hi, lo] == BigEndian(|f.msg|)
      modifies this
      ensures State() == TxStart(f, beyond, pad) && job == old(job)
    {
      header, lenHi, lenLo, mem, this.pad := f.header, hi, lo, f.msg + beyond, pad;
      writeInProgress, writeAgain, writeEOF := true, false, false;
      state, msgRemainingBytes, lenRemainingBytes := TxHeader, 0, 0;
    }

    /** A new frame is taken exactly when the last one has left completely. */
    method SetSentItem(f: Frame, hi: byte, lo: byte, beyond: seq<byte>, pad: byte) returns (taken: bool)
      requires Valid() && WellFormed(f) && |f.msg| + |beyond| == MAX_LEN
      requires [hi, lo] == BigEndian(|f.msg|)
      modifies this
      ensures Valid() && sock.wire == old(sock.wire)
      ensures taken <==> !old(writeInProgress)
      ensures taken ==> State() == TxStart(f, beyond, pad) && job == Job(f, beyond, pad, sock.wire, [])
      ensures taken ==> writeInProgress && !writeAgain && !writeEOF
      ensures !taken ==> State() == old(State()) && job == old(job)
    {
      hide TxRun, Sendable;
      if writeInProgress {
        return false;
      }
      Start(f, hi, lo, beyond, pad);
      job := Job(f, beyond, pad, sock.wire, []);
      TxRunNil(TxStart(f, beyond, pad));
      taken := true;
    }

    /** An offer of zero bytes does not reach the socket. */
    method TrySend(bytes: seq<byte>) returns (r: SendResult)
      modifies this`writeEOF, this`writeAgain, sock
      ensures Takes(|bytes|, r) && sock.wire == old(sock.wire) + bytes[..Count(r)]
      ensures sock.calls == old(sock.calls) + Called(r)
      ensures State() == WithFlags(old(State()), r)
      ensures writeEOF <==> old(writeEOF) || r.Refused?
      ensures writeAgain <==> r.Busy? || (old(writeAgain) && !r.Accepted?)
    {
      if bytes == [] {
        return Skipped;
      }
      r := sock.Send(bytes);
      match r
      case Accepted(_) => writeAgain := false;
      case Refused => writeEOF := true;
      case Busy => writeAgain := true;
      case Skipped => assert false;
    }

    /** Swaps the length field and offers it as it lies in memory, low-address byte
        first, or the byte behind it. */
    method OfferLength() returns (r: SendResult)
      requires writeInProgress && state == TxLen && TxValid(State())
      modifies this`lenHi, this`lenLo, this`writeEOF, this`writeAgain, sock
      ensures Takes(|Offer(old(State()))|, r) && State() == WithFlags(Swapped(old(State())), r)
      ensures sock.wire == old(sock.wire) + Offer(old(State()))[..Count(r)]
      ensures sock.calls == old(sock.calls) + Called(r)
    {
      lenHi, lenLo := lenLo, lenHi;
      r := TrySend(if lenRemainingBytes == 2 then [lenLo, lenHi] else [pad]);
    }

    method SendLength() returns (r: SendResult, more: bool)
      requires writeInProgress && state == TxLen && TxValid(State())
      modifies this, sock
      ensures job == old(job) && Takes(|Offer(old(State()))|, r)
      ensures TxStep(old(State()), r) == TxOut(State(), Offer(old(State()))[..Count(r)], more)
      ensures sock.wire == old(sock.wire) + Offer(old(State()))[..Count(r)]
      ensures sock.calls == old(sock.calls) + Called(r)
    {
      ghost var s := State();
      r := OfferLength();
      OffersOnWire(s, r);
      LengthSwaps(s, r);
      hide TxStep, Offer, WithFlags, LenSent, Takes;
      var n := if r.Accepted? then r.n else 0;
      lenRemainingBytes := lenRemainingBytes - n;
      if lenRemainingBytes == 0 {
        lenHi, lenLo := lenLo, lenHi;
        state := TxMsg;
        msgRemainingBytes := Val([lenHi, lenLo]);
      }
      more := n > 0;
    }

    method SendPayload() returns (r: SendResult, more: bool)
      requires writeInProgress && state == TxMsg && TxValid(State())
      modifies this, sock
      ensures job == old(job) && Takes(|Offer(old(State()))|, r)
      ensures TxStep(old(State()), r) == TxOut(State(), Offer(old(State()))[..Count(r)], more)
      ensures sock.wire == old(sock.wire) + Offer(old(State()))[..Count(r)]
      ensures sock.calls == old(sock.calls) + Called(r)
    {
      var len := Val([lenHi, lenLo]);
      r := TrySend(mem[len - msgRemainingBytes..len]);
      if r.Accepted? {
        msgRemainingBytes := msgRemainingBytes - r.n;
      }
      if msgRemainingBytes == 0 {
        writeInProgress := false;
      }
      more := r.Accepted?;
    }

    method WritePhase() returns (r: SendResult, more: bool)
      requires TxValid(State())
      modifies this, sock
      ensures job == old(job) && Takes(|Offer(old(State()))|, r)
      ensures TxStep(old(State()), r) == TxOut(State(), Offer(old(State()))[..Count(r)], more)
      ensures sock.wire == old(sock.wire) + Offer(old(State()))[..Count(r)]
      ensures sock.calls == old(sock.calls) + Called(r)
    {
      if !writeInProgress {
        return Skipped, false;
      }
      match state {
        case TxHeader =>
          r := TrySend([header]);
          if r.Accepted? {
            state, lenRemainingBytes := TxLen, 2;
          }
          more := r.Accepted?;
        case TxLen =>
          r, more := SendLength();
        case TxMsg =>
          r, more := SendPayload();
      }
    }

    /** One attempt: the fields follow the step function on whatever the socket took, and
        the recorded run of the current frame grows by it. */
    method TryWrite() returns (more: bool, ghost r: SendResult)
      requires Valid()
      modifies this, sock
      ensures Valid() && Takes(|Offer(old(State()))|, r) && sock.calls == old(sock.calls) + Called(r)
      ensures var o := TxStep(old(State()), r); State() == o.state && more == o.more && sock.wire == old(sock.wire) + o.wire
      ensures more ==> BytesLeft(State()) < old(BytesLeft(State()))
      ensures job == if old(writeInProgress) then old(job).(results := old(job).results + [r]) else old(job)
      ensures !more && writeInProgress ==> writeAgain || writeEOF
    {
      hide TxStep, TxRun, Sendable, TxValid, Offer, BytesLeft;
      ghost var s, j := State(), job;
      r, more := WritePhase();
      MoreMeansLess(s, r);
      OffersOnWire(s, r);
      if j.Job? {
        TxRunSnoc(TxStart(j.frame, j.beyond, j.pad), j.results, r);
        if s.inProgress {
          job := j.(results := j.results + [r]);
        }
      }
    }

    /** Sends until an attempt makes no progress: true exactly when the frame has
        left completely, otherwise the socket was busy or closed. If the length field
        left well, what is on the wire is the encoding of the frame, or a prefix of it. */
    method WriteAll() returns (done: bool)
      requires Valid()
      modifies this, sock
      ensures Valid() && done == !writeInProgress
      ensures !done ==> writeAgain || writeEOF
      ensures job.Job? == old(job).Job?
      ensures job.Job? ==>
                && job == old(job).(results := job.results) && old(job).results <= job.results
                && (done ==> (LeavesWell(job) <==> sock.wire == job.before + Encode(job.frame)))
                && (LeavesWell(job) ==> job.before <= sock.wire <= job.before + Encode(job.frame))
    {
      var more := true;
      while more
        invariant Valid() && job.Job? == old(job).Job?
        invariant job.Job? ==> job == old(job).(results := job.results) && old(job).results <= job.results
        invariant !more && writeInProgress ==> writeAgain || writeEOF
        decreases more, BytesLeft(State())
      {
        ghost var r;
        more, r := TryWrite();
      }
      done := !writeInProgress;
      if job.Job? {
        OnTheWire(job, sock.wire);
      }
    }
  }

  /** In memory: swap, send, and swap back if the field is out. */
  lemma LengthSwaps(s: TxState, r: SendResult)
    requires TxValid(s) && s.inProgress && s.phase == TxLen && Count(r) <= s.lenRemaining
    ensures var u := WithFlags(Swapped(s), r);
            LenSent(s, r) ==
              if Count(r) < s.lenRemaining then u.(lenRemaining := s.lenRemaining - Count(r))
              else u.(lenHi := u.lenLo, lenLo := u.lenHi, phase := TxMsg, lenRemaining := 0,
                      msgRemaining := Val([u.lenLo, u.lenHi]))
  {
  }

  lemma OffersOnWire(s: TxState, r: SendResult)
    requires TxValid(s) && Takes(|Offer(s)|, r)
    ensures TxStep(s, r).wire == Offer(s)[..Count(r)]
    ensures !s.inProgress ==> TxStep(s, r) == TxOut(s, [], false)
    ensures s.inProgress && s.phase == TxLen ==> TxStep(s, r) == TxOut(LenSent(s, r), TxStep(s, r).wire, Count(r) > 0)
  {
  }

  lemma OnTheWire(j: Job, wire: seq<byte>)
    requires j.Job? && JobOk(j) && wire == j.before + JobRun(j).wire
    ensures !JobRun(j).state.inProgress ==> (LeavesWell(j) <==> wire == j.before + Encode(j.frame))
    ensures LeavesWell(j) ==> j.before <= wire <= j.before + Encode(j.frame)
  {
    if !JobRun(j).state.inProgress {
      WriterExactlyRight(j.frame, j.beyond, j.pad, j.results);
      assert wire[|j.before|..] == JobRun(j).wire;
      assert (j.before + Encode(j.frame))[|j.before|..] == Encode(j.frame);
    }
    if LeavesWell(j) {
      WriterPrefix(j.frame, j.beyond, j.pad, j.results);
    }
  }
}
