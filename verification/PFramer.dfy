/** The reader object itself: its fields change in place as bytes arrive. */
module FramerObject {
  import opened Wire
  import opened WorkQueues
  import opened Framer

  /** The receiving end of a connection. Each call may hand out any number of
      the bytes that have arrived, or none. */
  class RecvSocket {
    const fd: int
    var incoming: seq<byte>
    var closed: bool

    /** Every result, for specification only. */
    ghost var calls: seq<RecvResult>

    constructor (fd: int)
      ensures this.fd == fd && incoming == [] && !closed && calls == []
    {
      this.fd, incoming, closed, calls := fd, [], false, [];
    }

    /** The peer has sent more, or nothing more will come. */
    method Arrive(bytes: seq<byte>, closed: bool)
      modifies this`incoming, this`closed
      ensures incoming == old(incoming) + bytes && this.closed == closed
    {
      incoming, this.closed := incoming + bytes, closed;
    }

    method Recv(n: nat) returns (r: RecvResult)
      requires n > 0
      modifies this
      ensures Delivers(n, r) && calls == old(calls) + [r]
      ensures old(incoming) == BytesOf(r) + incoming && closed == old(closed)
      ensures r.EndOfStream? ==> incoming == [] && closed
    {
      var ready: bool := *;
      if incoming == [] {
        r := if closed then EndOfStream else WouldBlock;
      } else if ready {
        var k: nat :| 1 <= k <= n && k <= |incoming|;
        r := Data(incoming[..k]);
        incoming := incoming[k..];
      } else {
        r := WouldBlock;
      }
      calls := calls + [r];
    }
  }

  /** An attempt that asks for no byte is not a call. */
  function Called(r: RecvResult): seq<RecvResult> {
    if r.NotCalled? then [] else [r]
  }

  class PFramer {
    const wq: WorkQueue<WorkItem>
    const sock: RecvSocket
    const assocFd: int
    var state: RxPhase
    var msgRemainingBytes: nat
    var lenRemainingBytes: nat
    var header: byte
    var lenHi: byte
    var lenLo: byte
    var msg: array?<byte>
    var readEOF: bool
    var readAgain: bool

    /** One entry per call of `TryRead`, for specification only. */
    ghost var log: seq<RecvResult>

    ghost predicate Shape()
      reads this, msg
    {
      state == RxMsg ==>
        msg != null && msg.Length == Val([lenHi, lenLo]) && msgRemainingBytes <= msg.Length
    }

    /** The value the fields stand for: the filled part of the buffer is what was received. */
    ghost function State(): RxState
      reads this, msg
      requires Shape()
    {
      RxState(assocFd, state, lenRemainingBytes, msgRemainingBytes, header, lenHi, lenLo,
              if state == RxMsg then msg[..msg.Length - msgRemainingBytes] else [],
              readEOF, readAgain)
    }

    ghost predicate Valid()
      reads this, msg, wq
    {
      wq.Valid() && InOrder()
    }

    /** The fields follow the schedule so far; the shared queue is not part of this. */
    ghost predicate InOrder()
      reads this, msg
    {
      && Shape()
      && Deliverable(RxReset(assocFd), log)
      && State() == RxRun(RxReset(assocFd), log).state
    }

    /** Every frame ever pushed. */
    ghost function Pushed(): seq<Frame>
      reads this, msg
      requires InOrder()
    {
      RxRun(RxReset(assocFd), log).pushed
    }

    constructor (wq: WorkQueue<WorkItem>, sock: RecvSocket, fd: int)
      ensures InOrder() && this.wq == wq && this.sock == sock && assocFd == fd
      ensures State() == RxReset(fd) && msg == null && log == [] && Pushed() == []
    {
      this.wq, this.sock, assocFd := wq, sock, fd;
      state, msgRemainingBytes, lenRemainingBytes := RxHeader, 0, 0;
      header, lenHi, lenLo, msg := 0, 0, 0, null;
      readEOF, readAgain := false, false;
      log := [];
    }

    /** A request for zero bytes does not reach the socket. */
    method TryRecv(n: nat) returns (r: RecvResult)
      modifies this`readEOF, this`readAgain, sock
      ensures Delivers(n, r) && sock.calls == old(sock.calls) + Called(r)
      ensures old(sock.incoming) == BytesOf(r) + sock.incoming && sock.closed == old(sock.closed)
      ensures readEOF == (if r.EndOfStream? then true else if r.Data? then false else old(readEOF))
      ensures readAgain == (r.WouldBlock? || old(readAgain))
    {
      if n == 0 {
        return NotCalled;
      }
      r := sock.Recv(n);
      match r
      case Data(_) => readEOF := false;
      case EndOfStream => readEOF := true;
      case WouldBlock => readAgain := true;
      case NotCalled => assert false;
    }

    method Reset()
      modifies this
      ensures Shape() && State() == RxReset(assocFd) && msg == null && log == old(log)
      ensures state == RxHeader && !readEOF && !readAgain
    {
      header, lenHi, lenLo, msg := 0, 0, 0, null;
      readEOF, readAgain := false, false;
      state, msgRemainingBytes, lenRemainingBytes := RxHeader, 0, 0;
    }

    method ReadHeader() returns (r: RecvResult, more: bool)
      requires Shape() && state == RxHeader && RxValid(State())
      modifies this, sock
      ensures Shape() && msg == old(msg) && log == old(log)
      ensures old(sock.incoming) == BytesOf(r) + sock.incoming && sock.calls == old(sock.calls) + Called(r)
      ensures Delivers(1, r) && RxStep(old(State()), r) == RxOut(State(), [], more)
    {
      r := TryRecv(1);
      if r.Data? {
        header := r.bytes[0];
        if !HeaderOk(header) {
          return r, false;
        }
        state := RxLen;
        lenRemainingBytes := 2;
      }
      more := r.Data?;
    }

    method FillLength(bytes: seq<byte>)
      requires state == RxLen && |bytes| <= lenRemainingBytes <= 2
      modifies this`lenHi, this`lenLo, this`lenRemainingBytes
      ensures State() == FillLen(old(State()), bytes).(lenRemaining := old(lenRemainingBytes) - |bytes|)
    {
      if lenRemainingBytes == 2 && bytes != [] {
        // stored in the order received, low-address byte first
        lenLo := bytes[0];
        if |bytes| == 2 { lenHi := bytes[1]; }
      }
      lenHi, lenLo := lenLo, lenHi;
      lenRemainingBytes := lenRemainingBytes - |bytes|;
    }

    method AllocMsg()
      requires state == RxLen
      modifies this`state, this`msgRemainingBytes, this`msg
      ensures fresh(msg) && Shape()
      ensures State() == old(State()).(phase := RxMsg, msgRemaining := Len(old(State())))
    {
      state := RxMsg;
      msgRemainingBytes := Val([lenHi, lenLo]);
      msg := new byte[msgRemainingBytes];
      assert msg[..0] == [];
    }

    method ReadLength() returns (r: RecvResult, more: bool)
      requires Shape() && state == RxLen && RxValid(State())
      modifies this, sock
      ensures Shape() && (msg == old(msg) || fresh(msg)) && log == old(log)
      ensures old(sock.incoming) == BytesOf(r) + sock.incoming && sock.calls == old(sock.calls) + Called(r)
      ensures Delivers(old(lenRemainingBytes), r) && RxStep(old(State()), r) == RxOut(State(), [], more)
    {
      ghost var s := State();
      r := TryRecv(lenRemainingBytes);
      assert State() == WithFlags(s, r);
      var bytes := if r.Data? then r.bytes else [];
      FillLength(bytes);
      if lenRemainingBytes == 0 {
        AllocMsg();
      }
      more := bytes != [];
    }

    /** Stores received bytes behind those already in the buffer. */
    method Store(bytes: seq<byte>)
      requires Shape() && state == RxMsg && |bytes| <= msgRemainingBytes
      modifies this`msgRemainingBytes, msg
      ensures msgRemainingBytes == old(msgRemainingBytes) - |bytes|
      ensures msg[..msg.Length - msgRemainingBytes] == old(msg[..msg.Length - msgRemainingBytes]) + bytes
    {
      var offset := msg.Length - msgRemainingBytes;
      forall i | 0 <= i < |bytes| {
        msg[offset + i] := bytes[i];
      }
      msgRemainingBytes := msgRemainingBytes - |bytes|;
    }

    /** The finished frame moves into the queue; the reader starts over. */
    method PushFrame()
      requires wq.Valid() && Shape() && state == RxMsg && msgRemainingBytes == 0
      modifies this, wq
      ensures wq.Valid() && Shape() && State() == RxReset(assocFd) && msg == null && log == old(log)
      ensures var s := old(State());
              wq.queue == Admitted(old(wq.queue), wq.itemLimit, Tag(assocFd, [Frame(s.header, s.got)]))
    {
      assert msg[..] == msg[..msg.Length];
      assert Tag(assocFd, [Frame(header, msg[..])]) == [(assocFd, Frame(header, msg[..]))];
      wq.PushItem((assocFd, Frame(header, msg[..])));
      Reset();
    }

    method ReadPayload() returns (r: RecvResult, more: bool)
      requires wq.Valid() && Shape() && state == RxMsg && RxValid(State())
      modifies this, msg, wq, sock
      ensures wq.Valid() && Shape() && (msg == old(msg) || msg == null) && log == old(log)
      ensures old(sock.incoming) == BytesOf(r) + sock.incoming && sock.calls == old(sock.calls) + Called(r)
      ensures Delivers(old(msgRemainingBytes), r)
      ensures var o := RxStep(old(State()), r);
              && State() == o.state && more == o.more
              && wq.queue == Admitted(old(wq.queue), wq.itemLimit, Tag(assocFd, o.pushed))
    {
      TagEmpty(assocFd);
      ghost var s := State();
      r := TryRecv(msgRemainingBytes);
      if r.Data? {
        Store(r.bytes);
      }
      assert State() == WithFlags(s, r).(got := s.got + BytesOf(r), msgRemaining := s.msgRemaining - |BytesOf(r)|);
      if msgRemainingBytes == 0 {
        PushFrame();
      }
      more := r.Data?;
    }

    method ReadPhase() returns (r: RecvResult, more: bool)
      requires wq.Valid() && Shape() && RxValid(State())
      modifies this, msg, wq, sock
      ensures wq.Valid() && Shape() && (msg == old(msg) || msg == null || fresh(msg)) && log == old(log)
      ensures old(sock.incoming) == BytesOf(r) + sock.incoming && sock.calls == old(sock.calls) + Called(r)
      ensures Delivers(Want(old(State())), r)
      ensures var o := RxStep(old(State()), r);
              && State() == o.state && more == o.more
              && wq.queue == Admitted(old(wq.queue), wq.itemLimit, Tag(assocFd, o.pushed))
    {
      TagEmpty(assocFd);
      match state {
        case RxHeader => r, more := ReadHeader();
        case RxLen => r, more := ReadLength();
        case RxMsg => r, more := ReadPayload();
      }
    }

    /** One incremental read. The object follows the step function on whatever the
        socket gave, and a finished frame goes to the queue under this connection's id. */
    method TryRead() returns (more: bool)
      requires Valid()
      modifies this, msg, wq, sock
      ensures Valid() && (msg == old(msg) || msg == null || fresh(msg))
      ensures |log| == |old(log)| + 1 && log[..|old(log)|] == old(log)
      ensures old(sock.incoming) == BytesOf(log[|log|-1]) + sock.incoming
      ensures sock.calls == old(sock.calls) + Called(log[|log|-1])
      ensures Delivers(Want(old(State())), log[|log|-1])
      ensures var o := RxStep(old(State()), log[|log|-1]);
              && State() == o.state && more == o.more && Pushed() == old(Pushed()) + o.pushed
              && wq.queue == Admitted(old(wq.queue), wq.itemLimit, Tag(assocFd, o.pushed))
    {
      hide RxStep, RxValid;
      var r: RecvResult;
      r, more := ReadPhase();
      RunSnoc(RxReset(assocFd), log, r);
      log := log + [r];
    }

    /** Since `start`: the log and the frames have grown, every byte gone from the
        socket is in the log, and the new frames are in the queue in order, as far as its
        limit leaves room. */
    ghost predicate Since(start: Snapshot)
      reads this, msg, wq, sock
      requires Valid()
    {
      && start.log <= log && start.pushed <= Pushed()
      && Consumed(log) + sock.incoming == start.stream
      && wq.queue == Admitted(start.queue, wq.itemLimit, Tag(assocFd, Pushed()[|start.pushed|..]))
    }

    method ReadOnce(ghost start: Snapshot) returns (more: bool)
      requires Valid() && Since(start)
      modifies this, msg, wq, sock
      ensures Valid() && Since(start) && (msg == old(msg) || msg == null || fresh(msg))
      ensures |log| > |old(log)|
      ensures more ==> |sock.incoming| < |old(sock.incoming)|
      ensures !more ==> Idle(State(), Pushed(), log[|log|-1])
    {
      hide RxStep, RxRun, Deliverable, Tag, Idle, Consumed, RxValid, Admitted;
      ghost var s, pushed, log0, incoming := State(), Pushed(), log, sock.incoming;
      more := TryRead();
      ghost var r := log[|log|-1];
      ghost var pushes := RxStep(s, r).pushed;
      MoreMeansBytes(s, r);
      StopsIdle(s, r, pushed);
      assert log == log0 + [r];
      ConsumedSnoc(log0, r, incoming, sock.incoming);
      TagAppend(assocFd, pushed[|start.pushed|..], pushes);
      AdmittedAppend(start.queue, wq.itemLimit, Tag(assocFd, pushed[|start.pushed|..]), Tag(assocFd, pushes));
      assert Pushed()[|start.pushed|..] == pushed[|start.pushed|..] + pushes;
    }

    /** Reads until an attempt makes no progress. What reached the queue, what is
        held and what was taken from the socket agree with the stream parser as long as
        every length transfer was good, no complete frame is left behind, and the loop
        stops only for lack of data, at the end of the stream, at a byte that cannot
        start a frame, or just after a frame of length zero. */
    method ReadAll()
      requires Valid()
      modifies this, msg, wq, sock
      ensures Valid() && (msg == old(msg) || msg == null || fresh(msg))
      ensures |log| > |old(log)|
      ensures Since(Snapshot(old(log), old(Pushed()), old(Consumed(log) + sock.incoming), old(wq.queue)))
      ensures Idle(State(), Pushed(), log[|log|-1])
      ensures LensOk(RxReset(assocFd), log) ==>
                Pushed() == ParseFrames(Consumed(log)) &&
                ParseRest(Consumed(log)) == Held(State(), CutAfter(RxReset(assocFd), log))
    {
      hide RxStep, RxRun, Deliverable, Consumed, Tag, Idle, LensOk, CutAfter, ParseFrames, ParseRest, Held;
      ghost var start := Snapshot(log, Pushed(), Consumed(log) + sock.incoming, wq.queue);
      assert Since(start) by {
        TagEmpty(assocFd);
        assert Pushed()[|Pushed()|..] == [];
      }
      ReadLoop(start);
      AgreesWithParser();
    }

    method ReadLoop(ghost start: Snapshot)
      requires Valid() && Since(start)
      modifies this, msg, wq, sock
      ensures Valid() && Since(start) && (msg == old(msg) || msg == null || fresh(msg))
      ensures |log| > |old(log)| && Idle(State(), Pushed(), log[|log|-1])
    {
      hide RxStep, RxRun, Deliverable, Consumed, Tag, Idle, Since;
      var more := ReadOnce(start);
      while more
        invariant Valid() && Since(start) && (msg == old(msg) || msg == null || fresh(msg))
        invariant |log| > |old(log)|
        invariant !more ==> Idle(State(), Pushed(), log[|log|-1])
        decreases more, |sock.incoming|
      {
        more := ReadOnce(start);
      }
    }

    lemma AgreesWithParser()
      requires Valid() && log != [] && Idle(State(), Pushed(), log[|log|-1])
      ensures LensOk(RxReset(assocFd), log) ==>
                Pushed() == ParseFrames(Consumed(log)) &&
                ParseRest(Consumed(log)) == Held(State(), CutAfter(RxReset(assocFd), log))
    {
      if LensOk(RxReset(assocFd), log) {
        FramerRefinesParser(assocFd, log);
      }
    }
  }

  /** What a run of reads started from. */
  datatype Snapshot = Snapshot(log: seq<RecvResult>, pushed: seq<Frame>, stream: seq<byte>, queue: seq<WorkItem>)

  /** Where an attempt without progress leaves the reader. */
  ghost predicate Idle(s: RxState, pushed: seq<Frame>, r: RecvResult)
    requires RxValid(s)
  {
    && Pending(s) == []
    && match r
       case Data(bytes) => |bytes| == 1 && !HeaderOk(bytes[0]) && s.phase == RxHeader
       case NotCalled => pushed != [] && pushed[|pushed|-1].msg == []
       case EndOfStream => s.readEOF
       case WouldBlock => s.readAgain
  }

  lemma StopsIdle(s: RxState, r: RecvResult, pushed: seq<Frame>)
    requires RxValid(s) && Delivers(Want(s), r)
    ensures !RxStep(s, r).more ==> Idle(RxStep(s, r).state, pushed + RxStep(s, r).pushed, r)
  {
  }

  lemma ConsumedSnoc(log: seq<RecvResult>, r: RecvResult, before: seq<byte>, after: seq<byte>)
    requires before == BytesOf(r) + after
    ensures Consumed(log + [r]) + after == Consumed(log) + before
  {
  }

  lemma TagEmpty(fd: int)
    ensures Tag(fd, []) == []
  {
  }

  lemma {:induction false} TagAppend(fd: int, a: seq<Frame>, b: seq<Frame>)
    ensures Tag(fd, a + b) == Tag(fd, a) + Tag(fd, b)
  {
    if a == [] {
      assert a + b == b;
    } else {
      assert (a + b)[1..] == a[1..] + b;
      TagAppend(fd, a[1..], b);
    }
  }
}
