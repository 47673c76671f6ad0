/** The resumable frame reader of PFramer.cpp over a non-blocking socket. */
module Framer {
  import opened Wire

  // ---------------------------------------------------------------- the step

  datatype RxPhase = RxHeader | RxLen | RxMsg

  /** What one attempt to receive came to; `NotCalled` is a request for zero bytes. */
  datatype RecvResult = Data(bytes: seq<byte>) | EndOfStream | WouldBlock | NotCalled

  datatype RxState = RxState(
    fd: int, phase: RxPhase, lenRemaining: nat, msgRemaining: nat,
    header: byte, lenHi: byte, lenLo: byte, got: seq<byte>,
    readEOF: bool, readAgain: bool)

  function RxReset(fd: int): RxState {
    RxState(fd, RxHeader, 0, 0, 0, 0, 0, [], false, false)
  }

  function Want(s: RxState): nat {
    match s.phase
    case RxHeader => 1
    case RxLen => s.lenRemaining
    case RxMsg => s.msgRemaining
  }

  /** A socket may give any number of bytes from one to those asked for. */
  predicate Delivers(want: nat, r: RecvResult) {
    match r
    case Data(bytes) => 1 <= |bytes| <= want
    case NotCalled => want == 0
    case _ => want > 0
  }

  function BytesOf(r: RecvResult): seq<byte> {
    if r.Data? then r.bytes else []
  }

  /** One attempt on the length field: `bytes` are stored at `&len + 2 - remaining`
      and the field is byte-swapped. The pointer counts 16-bit units, so with one byte
      remaining it already points past the field, and that byte is lost in the padding. */
  function FillLen(s: RxState, bytes: seq<byte>): RxState {
    if s.lenRemaining != 2 || bytes == [] then s.(lenHi := s.lenLo, lenLo := s.lenHi)
    else if |bytes| == 1 then s.(lenHi := bytes[0], lenLo := s.lenHi)
    else s.(lenHi := bytes[0], lenLo := bytes[1])
  }

  function Len(s: RxState): nat {
    Val([s.lenHi, s.lenLo])
  }

  function WithFlags(s: RxState, r: RecvResult): RxState {
    match r
    case Data(_) => s.(readEOF := false)
    case EndOfStream => s.(readEOF := true)
    case WouldBlock => s.(readAgain := true)
    case NotCalled => s
  }

  predicate RxValid(s: RxState) {
    match s.phase
    case RxHeader => s.lenRemaining == 0 && s.msgRemaining == 0 && s.lenHi == 0 && s.lenLo == 0 && s.got == []
    case RxLen => 1 <= s.lenRemaining <= 2 && HeaderOk(s.header) && s.got == [] && s.msgRemaining == 0
    case RxMsg => s.lenRemaining == 0 && HeaderOk(s.header) && |s.got| + s.msgRemaining == Len(s) &&
                  (s.msgRemaining == 0 ==> s.got == [])
  }

  /** The length field after an attempt; when the count is used up the payload starts. */
  function LenReceived(s: RxState, r: RecvResult): (t: RxState)
    requires RxValid(s) && s.phase == RxLen && |BytesOf(r)| <= s.lenRemaining
    ensures RxValid(t)
  {
    var remaining := s.lenRemaining - |BytesOf(r)|;
    var u := FillLen(WithFlags(s, r), BytesOf(r)).(lenRemaining := remaining);
    if remaining == 0 then u.(phase := RxMsg, msgRemaining := Len(u)) else u
  }

  datatype RxOut = RxOut(state: RxState, pushed: seq<Frame>, more: bool)

  /** One call of `tryRead` that received `r`. */
  function RxStep(s: RxState, r: RecvResult): (o: RxOut)
    requires RxValid(s) && Delivers(Want(s), r)
    ensures RxValid(o.state)
  {
    var t := WithFlags(s, r);
    var bytes := BytesOf(r);
    match s.phase
    case RxHeader =>
      if bytes == [] then RxOut(t, [], false)
      else if !HeaderOk(bytes[0]) then RxOut(t.(header := bytes[0]), [], false)
      else RxOut(t.(header := bytes[0], phase := RxLen, lenRemaining := 2), [], true)
    case RxLen => RxOut(LenReceived(s, r), [], bytes != [])
    case RxMsg =>
      var got := s.got + bytes;
      var remaining := s.msgRemaining - |bytes|;
      if remaining == 0 then RxOut(RxReset(s.fd), [Frame(s.header, got)], bytes != [])
      else RxOut(t.(got := got, msgRemaining := remaining), [], bytes != [])
  }

  /** What goes into the work queue: the connection's descriptor and a frame. */
  type WorkItem = (int, Frame)

  function Tag(fd: int, fs: seq<Frame>): seq<WorkItem> {
    if fs == [] then [] else [(fd, fs[0])] + Tag(fd, fs[1..])
  }

  /** Progress means that bytes were received. */
  lemma MoreMeansBytes(s: RxState, r: RecvResult)
    requires RxValid(s) && Delivers(Want(s), r)
    ensures RxStep(s, r).more ==> BytesOf(r) != []
  {
  }

  // ---------------------------------------------------------------- whole runs

  ghost predicate Deliverable(s: RxState, rs: seq<RecvResult>)
    requires RxValid(s)
    decreases |rs|, 0
  {
    rs == [] || (Deliverable(s, rs[..|rs|-1]) &&
                 Delivers(Want(RxRun(s, rs[..|rs|-1]).state), rs[|rs|-1]))
  }

  /** The state after a schedule of receive results and all frames pushed on the way. */
  ghost function RxRun(s: RxState, rs: seq<RecvResult>): (o: RxOut)
    requires RxValid(s) && Deliverable(s, rs)
    ensures RxValid(o.state)
    decreases |rs|, 1
  {
    if rs == [] then RxOut(s, [], true)
    else
      var before := RxRun(s, rs[..|rs|-1]);
      var o := RxStep(before.state, rs[|rs|-1]);
      RxOut(o.state, before.pushed + o.pushed, o.more)
  }

  /** Every attempt so far made progress. */
  ghost predicate Going(s: RxState, rs: seq<RecvResult>)
    requires RxValid(s) && Deliverable(s, rs)
  {
    rs == [] || (Going(s, rs[..|rs|-1]) && RxRun(s, rs).more)
  }

  /** The attempts of one `readAll`: until one makes no progress. */
  ghost predicate ReadUp(s: RxState, rs: seq<RecvResult>)
    requires RxValid(s)
  {
    Deliverable(s, rs) && rs != [] && Going(s, rs[..|rs|-1]) && !RxRun(s, rs).more
  }

  /** After a `readAll` the end of the stream is known exactly when its last attempt met it,
      or when it is known from before and nothing has come since. */
  lemma EofMeansEnded(s: RxState, rs: seq<RecvResult>)
    requires RxValid(s) && ReadUp(s, rs)
    ensures var last := rs[|rs|-1];
            RxRun(s, rs).state.readEOF <==> last.EndOfStream? || (|rs| == 1 && last.WouldBlock? && s.readEOF)
  {
    hide RxStep, Delivers, Want, RxValid;
    GoingIsNotEof(s, rs[..|rs|-1]);
    LastOfRun(s, rs);
  }

  lemma GoingIsNotEof(s: RxState, rs: seq<RecvResult>)
    requires RxValid(s) && Deliverable(s, rs) && Going(s, rs)
    ensures rs != [] ==> !RxRun(s, rs).state.readEOF
    ensures rs == [] ==> RxRun(s, rs).state == s
  {
    hide RxStep, Delivers, Want, RxValid;
    if rs != [] {
      ProgressIsNotEof(RxRun(s, rs[..|rs|-1]).state, rs[|rs|-1]);
    }
  }

  lemma LastOfRun(s: RxState, rs: seq<RecvResult>)
    requires RxValid(s) && Deliverable(s, rs) && rs != [] && !RxRun(s, rs).more
    ensures var before, r := RxRun(s, rs[..|rs|-1]).state, rs[|rs|-1];
            RxRun(s, rs).state.readEOF <==> r.EndOfStream? || (r.WouldBlock? && before.readEOF)
  {
    hide RxStep, Delivers, Want, RxValid;
    LastAttempt(RxRun(s, rs[..|rs|-1]).state, rs[|rs|-1]);
  }

  lemma ProgressIsNotEof(s: RxState, r: RecvResult)
    requires RxValid(s) && Delivers(Want(s), r)
    ensures RxStep(s, r).more ==> !RxStep(s, r).state.readEOF
  {
  }

  lemma LastAttempt(s: RxState, r: RecvResult)
    requires RxValid(s) && Delivers(Want(s), r)
    ensures !RxStep(s, r).more ==> (RxStep(s, r).state.readEOF <==> r.EndOfStream? || (r.WouldBlock? && s.readEOF))
  {
  }

  ghost function Consumed(rs: seq<RecvResult>): seq<byte> {
    if rs == [] then [] else Consumed(rs[..|rs|-1]) + BytesOf(rs[|rs|-1])
  }

  /** A frame of length zero is complete but not pushed until the next attempt. */
  function Pending(s: RxState): seq<Frame>
    requires RxValid(s)
  {
    if s.phase == RxMsg && s.msgRemaining == 0 then [Frame(s.header, s.got)] else []
  }

  // ------------------------------------------------ the length field in two pieces

  /** Whether the first length byte has arrived alone, and whether an odd number
      of attempts received nothing since. */
  datatype Cut = Whole | Cut(first: byte, odd: bool)

  function NextCut(s: RxState, cut: Cut, r: RecvResult): Cut
    requires RxValid(s) && Delivers(Want(s), r)
  {
    if s.phase != RxLen then Whole
    else if r.Data? then (if s.lenRemaining == 2 && |r.bytes| == 1 then Cut(r.bytes[0], false) else Whole)
    else if cut.Cut? then Cut(cut.first, !cut.odd)
    else Whole
  }

  /** The guard on the second half of a length field: with an odd number of idle
      attempts between the halves the low byte must be zero, with an even number both. */
  predicate LenTransferOk(s: RxState, cut: Cut, r: RecvResult)
    requires RxValid(s) && Delivers(Want(s), r)
  {
    s.phase == RxLen && s.lenRemaining == 1 && r.Data? && cut.Cut? ==>
      r.bytes[0] == 0 && (cut.odd || cut.first == 0)
  }

  ghost function CutAfter(s: RxState, rs: seq<RecvResult>): Cut
    requires RxValid(s) && Deliverable(s, rs)
  {
    if rs == [] then Whole
    else NextCut(RxRun(s, rs[..|rs|-1]).state, CutAfter(s, rs[..|rs|-1]), rs[|rs|-1])
  }

  ghost predicate LensOk(s: RxState, rs: seq<RecvResult>)
    requires RxValid(s) && Deliverable(s, rs)
  {
    rs == [] ||
    (LensOk(s, rs[..|rs|-1]) &&
     LenTransferOk(RxRun(s, rs[..|rs|-1]).state, CutAfter(s, rs[..|rs|-1]), rs[|rs|-1]))
  }

  // ---------------------------------------------------------------- refinement

  /** The bytes of the current frame the reader has taken so far. */
  function Held(s: RxState, cut: Cut): seq<byte>
    requires RxValid(s)
  {
    match s.phase
    case RxHeader => []
    case RxLen => if cut.Cut? then [s.header, cut.first] else [s.header]
    case RxMsg => [s.header, s.lenHi, s.lenLo] + s.got
  }

  /** What the memory of the length field holds while it is being filled. */
  predicate LenMemory(s: RxState, cut: Cut) {
    && (cut.Cut? <==> s.phase == RxLen && s.lenRemaining == 1)
    && (s.phase == RxLen && s.lenRemaining == 2 ==> s.lenHi == 0 && s.lenLo == 0)
    && (cut.Cut? ==> if cut.odd then s.lenHi == 0 && s.lenLo == cut.first else s.lenHi == cut.first && s.lenLo == 0)
  }

  /** The first byte of a length field alone, or an idle attempt. */
  lemma LenHalf(s: RxState, cut: Cut, r: RecvResult)
    requires RxValid(s) && LenMemory(s, cut) && s.phase == RxLen && Delivers(Want(s), r)
    requires r.Data? ==> s.lenRemaining == 2 && |r.bytes| == 1
    ensures LenMemory(RxStep(s, r).state, NextCut(s, cut, r))
  {
  }

  /** The length is right exactly when the transfer was good. */
  lemma LenComplete(s: RxState, cut: Cut, r: RecvResult)
    requires RxValid(s) && LenMemory(s, cut) && s.phase == RxLen && Delivers(Want(s), r)
    requires r.Data? && |r.bytes| == s.lenRemaining
    ensures s.lenRemaining == 1 ==>
              (RxStep(s, r).state.lenHi == cut.first && RxStep(s, r).state.lenLo == r.bytes[0] <==> LenTransferOk(s, cut, r))
    ensures s.lenRemaining == 2 ==> RxStep(s, r).state.lenHi == r.bytes[0] && RxStep(s, r).state.lenLo == r.bytes[1]
  {
  }

  /** The reader agrees with the stream parser on the `consumed` bytes. */
  ghost predicate RxInv(consumed: seq<byte>, pushed: seq<Frame>, s: RxState, cut: Cut) {
    && RxValid(s)
    && ParseFrames(consumed) == pushed + Pending(s)
    && ParseRest(consumed) == (if Pending(s) == [] then Held(s, cut) else [])
    && (s.phase == RxMsg && s.msgRemaining == 0 ==> s.lenHi == 0 && s.lenLo == 0)
    && LenMemory(s, cut)
  }

  lemma HeaderStep(consumed: seq<byte>, pushed: seq<Frame>, s: RxState, cut: Cut, r: RecvResult)
    requires RxInv(consumed, pushed, s, cut) && s.phase == RxHeader && Delivers(1, r)
    ensures RxInv(consumed + BytesOf(r), pushed + RxStep(s, r).pushed, RxStep(s, r).state, NextCut(s, cut, r))
  {
    var b := BytesOf(r);
    ParseAppend(consumed, b);
    assert ParseRest(consumed) + b == b;
    if b != [] {
      assert b == [b[0]];
      if HeaderOk(b[0]) {
        ParseUnfinished(b);
      }
    }
  }

  lemma LenPartial(consumed: seq<byte>, pushed: seq<Frame>, s: RxState, cut: Cut, r: RecvResult)
    requires RxInv(consumed, pushed, s, cut) && s.phase == RxLen && Delivers(Want(s), r)
    requires r.Data? ==> |r.bytes| < s.lenRemaining
    ensures RxInv(consumed + BytesOf(r), pushed, RxStep(s, r).state, NextCut(s, cut, r))
  {
    var b, rest := BytesOf(r), ParseRest(consumed);
    LenHalf(s, cut, r);
    ParseAppend(consumed, b);
    assert rest + b == if b == [] then rest else [s.header, b[0]];
    ParseUnfinished(rest + b);
  }

  lemma LenDone(consumed: seq<byte>, pushed: seq<Frame>, s: RxState, cut: Cut, r: RecvResult)
    requires RxInv(consumed, pushed, s, cut) && s.phase == RxLen && Delivers(Want(s), r)
    requires r.Data? && |r.bytes| == s.lenRemaining
    requires RxStep(s, r).state.lenHi == (if s.lenRemaining == 2 then r.bytes[0] else cut.first)
    requires RxStep(s, r).state.lenLo == r.bytes[|r.bytes|-1]
    ensures RxInv(consumed + r.bytes, pushed, RxStep(s, r).state, NextCut(s, cut, r))
  {
    ParseAppend(consumed, r.bytes);
    var t := RxStep(s, r).state;
    var e := [s.header, t.lenHi, t.lenLo];
    assert ParseRest(consumed) + r.bytes == e;
    LengthRead(s.header, t.lenHi, t.lenLo);
    assert e + [] == e;
  }

  lemma LenStep(consumed: seq<byte>, pushed: seq<Frame>, s: RxState, cut: Cut, r: RecvResult)
    requires RxInv(consumed, pushed, s, cut) && s.phase == RxLen
    requires Delivers(Want(s), r) && LenTransferOk(s, cut, r)
    ensures RxInv(consumed + BytesOf(r), pushed + RxStep(s, r).pushed, RxStep(s, r).state, NextCut(s, cut, r))
  {
    assert pushed + RxStep(s, r).pushed == pushed;
    if r.Data? && |r.bytes| == s.lenRemaining {
      LenComplete(s, cut, r);
      LenDone(consumed, pushed, s, cut, r);
    } else {
      LenPartial(consumed, pushed, s, cut, r);
    }
  }

  /** A frame that fills the bytes exactly. */
  lemma ParseExact(e: seq<byte>)
    requires StartsWithFrame(e) && FrameSize(e) == |e|
    ensures ParseFrames(e) == [Frame(e[0], e[3..])] && ParseRest(e) == []
  {
    assert e[3..|e|] == e[3..];
    assert e[|e|..] == [];
  }

  lemma LengthRead(h: byte, hi: byte, lo: byte)
    requires HeaderOk(h)
    ensures var n := Val([hi, lo]);
            && ParseFrames([h, hi, lo]) == (if n == 0 then [Frame(h, [])] else [])
            && ParseRest([h, hi, lo]) == (if n == 0 then [] else [h, hi, lo])
  {
    var e := [h, hi, lo];
    if Val([hi, lo]) == 0 {
      ParseExact(e);
      assert e[3..] == [];
    } else {
      ParseUnfinished(e);
    }
  }

  lemma MsgMore(consumed: seq<byte>, pushed: seq<Frame>, s: RxState, cut: Cut, r: RecvResult)
    requires RxInv(consumed, pushed, s, cut) && s.phase == RxMsg && Delivers(s.msgRemaining, r)
    requires 0 < s.msgRemaining
    ensures var e := [s.header, s.lenHi, s.lenLo] + (s.got + BytesOf(r));
            && ParseFrames(consumed + BytesOf(r)) == pushed + ParseFrames(e)
            && ParseRest(consumed + BytesOf(r)) == ParseRest(e)
  {
    hide ParseFrames, ParseRest, LenMemory, RxValid;
    ParseAppend(consumed, BytesOf(r));
    assert ParseRest(consumed) == [s.header, s.lenHi, s.lenLo] + s.got;
    assert ParseRest(consumed) + BytesOf(r) == [s.header, s.lenHi, s.lenLo] + (s.got + BytesOf(r));
    assert pushed + Pending(s) == pushed;
  }

  lemma MsgDone(consumed: seq<byte>, pushed: seq<Frame>, s: RxState, cut: Cut, r: RecvResult)
    requires RxInv(consumed, pushed, s, cut) && s.phase == RxMsg && Delivers(s.msgRemaining, r)
    requires |BytesOf(r)| == s.msgRemaining
    ensures RxInv(consumed + BytesOf(r), pushed + RxStep(s, r).pushed, RxReset(s.fd), Whole)
  {
    var got := s.got + BytesOf(r);
    if s.msgRemaining == 0 {
      assert consumed + BytesOf(r) == consumed && got == s.got;
    } else {
      MsgMore(consumed, pushed, s, cut, r);
      var e := [s.header, s.lenHi, s.lenLo] + got;
      ParseExact(e);
      assert e[3..] == got;
    }
    assert pushed + [Frame(s.header, got)] + [] == pushed + [Frame(s.header, got)];
  }

  lemma MsgStep(consumed: seq<byte>, pushed: seq<Frame>, s: RxState, cut: Cut, r: RecvResult)
    requires RxInv(consumed, pushed, s, cut) && s.phase == RxMsg && Delivers(s.msgRemaining, r)
    ensures RxInv(consumed + BytesOf(r), pushed + RxStep(s, r).pushed, RxStep(s, r).state, NextCut(s, cut, r))
  {
    if |BytesOf(r)| == s.msgRemaining {
      MsgDone(consumed, pushed, s, cut, r);
    } else {
      MsgMore(consumed, pushed, s, cut, r);
      ParseUnfinished([s.header, s.lenHi, s.lenLo] + (s.got + BytesOf(r)));
      assert pushed + RxStep(s, r).pushed == pushed;
    }
  }

  lemma RxInvStep(consumed: seq<byte>, pushed: seq<Frame>, s: RxState, cut: Cut, r: RecvResult)
    requires RxInv(consumed, pushed, s, cut)
    requires Delivers(Want(s), r) && LenTransferOk(s, cut, r)
    ensures RxInv(consumed + BytesOf(r), pushed + RxStep(s, r).pushed, RxStep(s, r).state, NextCut(s, cut, r))
  {
    match s.phase
    case RxHeader => HeaderStep(consumed, pushed, s, cut, r);
    case RxLen => LenStep(consumed, pushed, s, cut, r);
    case RxMsg => MsgStep(consumed, pushed, s, cut, r);
  }

  /** On every schedule with good length transfers, at every point of it, the
      frames pushed and the bytes held are those of the stream parser. */
  lemma {:induction false} FramerRefinesParser(fd: int, rs: seq<RecvResult>)
    requires Deliverable(RxReset(fd), rs) && LensOk(RxReset(fd), rs)
    ensures RxInv(Consumed(rs), RxRun(RxReset(fd), rs).pushed, RxRun(RxReset(fd), rs).state, CutAfter(RxReset(fd), rs))
  {
    if rs == [] {
    } else {
      var before := rs[..|rs|-1];
      FramerRefinesParser(fd, before);
      var o := RxRun(RxReset(fd), before);
      RxInvStep(Consumed(before), o.pushed, o.state, CutAfter(RxReset(fd), before), rs[|rs|-1]);
    }
  }

  // ------------------------------------------------ exactly when the reader is right

  /** The reader has gone wrong at frame `n`: that frame is, or will be, pushed
      with the wrong length. */
  ghost predicate Derailed(fs: seq<Frame>, n: nat, pushed: seq<Frame>, s: RxState)
    requires RxValid(s)
  {
    && n < |fs| && n <= |pushed|
    && (n < |pushed| ==> |pushed[n].msg| != |fs[n].msg|)
    && (n == |pushed| ==> s.phase == RxMsg && Len(s) != |fs[n].msg|)
  }

  /** What remains of a complete stream after an unfinished `[header, hi, lo]`
      holds a frame of that length. */
  lemma NextFrameLength(fs: seq<Frame>, consumed: seq<byte>, pushed: seq<Frame>, tail: seq<byte>)
    requires AllWellFormed(fs)
    requires EncodeAll(fs) == consumed + tail && ParseFrames(consumed) == pushed
    requires var w := ParseRest(consumed) + tail; |w| >= 3 && HeaderOk(w[0])
    ensures var w := ParseRest(consumed) + tail;
            pushed < fs && |fs[|pushed|].msg| == Val(w[1..])
  {
    ParseInvertsEncode(fs);
    ParseAppend(consumed, tail);
  }

  lemma FirstBadTransfer(fs: seq<Frame>, consumed: seq<byte>, pushed: seq<Frame>,
                         s: RxState, cut: Cut, r: RecvResult, tail: seq<byte>)
    requires AllWellFormed(fs)
    requires RxInv(consumed, pushed, s, cut)
    requires Delivers(Want(s), r) && !LenTransferOk(s, cut, r)
    requires EncodeAll(fs) == consumed + BytesOf(r) + tail
    ensures Derailed(fs, |pushed|, pushed + RxStep(s, r).pushed, RxStep(s, r).state)
  {
    var b := r.bytes[0];
    assert r.bytes == [b];
    assert consumed + BytesOf(r) + tail == consumed + ([b] + tail);
    NextFrameLength(fs, consumed, pushed, [b] + tail);
    LenComplete(s, cut, r);
    ValInjective([RxStep(s, r).state.lenHi, RxStep(s, r).state.lenLo], [cut.first, b]);
    var w := ParseRest(consumed) + ([b] + tail);
    assert w[1] == cut.first && w[2] == b;
  }

  lemma {:induction false} RightOrDerailed(fd: int, fs: seq<Frame>, rs: seq<RecvResult>, tail: seq<byte>) returns (n: nat)
    requires AllWellFormed(fs)
    requires Deliverable(RxReset(fd), rs) && EncodeAll(fs) == Consumed(rs) + tail
    ensures !LensOk(RxReset(fd), rs) ==> Derailed(fs, n, RxRun(RxReset(fd), rs).pushed, RxRun(RxReset(fd), rs).state)
  {
    n := 0;
    if rs == [] {
    } else {
      var before, r := rs[..|rs|-1], rs[|rs|-1];
      assert Consumed(rs) + tail == Consumed(before) + (BytesOf(r) + tail);
      if LensOk(RxReset(fd), before) {
        FramerRefinesParser(fd, before);
        var o := RxRun(RxReset(fd), before);
        n := |o.pushed|;
        if !LensOk(RxReset(fd), rs) {
          FirstBadTransfer(fs, Consumed(before), o.pushed, o.state, CutAfter(RxReset(fd), before), r, tail);
        }
      } else {
        n := RightOrDerailed(fd, fs, before, BytesOf(r) + tail);
      }
    }
  }

  /** Over every schedule that consumes the encodings of `fs`, the reader yields
      exactly `fs`, in order, if and only if every length transfer was good. */
  lemma FramerExactlyRight(fd: int, fs: seq<Frame>, rs: seq<RecvResult>)
    requires AllWellFormed(fs)
    requires Deliverable(RxReset(fd), rs) && Consumed(rs) == EncodeAll(fs)
    ensures var o := RxRun(RxReset(fd), rs);
            o.pushed + Pending(o.state) == fs <==> LensOk(RxReset(fd), rs)
  {
    var o := RxRun(RxReset(fd), rs);
    ParseInvertsEncode(fs);
    if LensOk(RxReset(fd), rs) {
      FramerRefinesParser(fd, rs);
    } else {
      assert EncodeAll(fs) == Consumed(rs) + [];
      var n := RightOrDerailed(fd, fs, rs, []);
      assert (o.pushed + Pending(o.state))[..|o.pushed|] == o.pushed;
    }
  }

  /** The bytes of one frame, cut anywhere with good length transfers, are read as the frame
      whose payload has as many bytes as the high and the low length byte say. */
  lemma ReaderTakesFrame(fd: int, rs: seq<RecvResult>, h: byte, hi: byte, lo: byte, payload: seq<byte>)
    requires Deliverable(RxReset(fd), rs) && LensOk(RxReset(fd), rs)
    requires h as int / 16 == 15 && |payload| == 256 * hi as int + lo as int
    requires Consumed(rs) == [h, hi, lo] + payload
    ensures var o := RxRun(RxReset(fd), rs); o.pushed + Pending(o.state) == [Frame(h, payload)]
  {
    hide RxRun, Deliverable, LensOk, Consumed;
    FramerRefinesParser(fd, rs);
    var e := [h, hi, lo] + payload;
    assert e[1..][0] == hi && e[1..][1] == lo;
    ParseExact(e);
    assert e[3..] == payload;
  }

  /** The intended use: length fields that never arrive in two pieces. */
  ghost predicate LensWhole(s: RxState, rs: seq<RecvResult>)
    requires RxValid(s) && Deliverable(s, rs)
  {
    rs == [] ||
    (LensWhole(s, rs[..|rs|-1]) &&
     (RxRun(s, rs[..|rs|-1]).state.phase == RxLen && rs[|rs|-1].Data? ==> |rs[|rs|-1].bytes| == 2))
  }

  lemma {:induction false} WholeIsOk(fd: int, rs: seq<RecvResult>)
    requires Deliverable(RxReset(fd), rs) && LensWhole(RxReset(fd), rs)
    ensures LensOk(RxReset(fd), rs)
  {
    if rs == [] {
    } else {
      WholeIsOk(fd, rs[..|rs|-1]);
    }
  }

  lemma RunSnoc(s: RxState, rs: seq<RecvResult>, r: RecvResult)
    requires RxValid(s) && Deliverable(s, rs) && Delivers(Want(RxRun(s, rs).state), r)
    ensures Deliverable(s, rs + [r])
    ensures var o := RxRun(s, rs); var p := RxStep(o.state, r);
            RxRun(s, rs + [r]) == RxOut(p.state, o.pushed + p.pushed, p.more)
    ensures Consumed(rs + [r]) == Consumed(rs) + BytesOf(r)
  {
  }

  /** A length field cut in half, with the one idle attempt the event loop makes
      in between: two bytes announced, an empty frame is pushed. */
  lemma SplitLengthIsMisread(fd: int) returns (rs: seq<RecvResult>)
    ensures Deliverable(RxReset(fd), rs)
    ensures RxRun(RxReset(fd), rs).pushed == [Frame(240, [])]
    ensures Consumed(rs) == [240, 0, 2] && ParseFrames([240, 0, 2]) == []
  {
    hide RxRun, Deliverable, Consumed, ParseFrames;
    ParseUnfinished([240, 0, 2]);
    rs := HalfLengthThenIdle(fd);
    LateByteIsLost(fd);
    hide RxStep, RxValid, Unfinished;
    RunSnoc(RxReset(fd), rs, Data([2]));
    rs := rs + [Data([2])];
    RunSnoc(RxReset(fd), rs, NotCalled);
    rs := rs + [NotCalled];
  }

  /** The second length byte of a cut field ends it and does not count. */
  lemma LateByteIsLost(fd: int)
    ensures var s := RxState(fd, RxLen, 1, 0, 240, 0, 0, [], false, true);
            var o := RxStep(s, Data([2]));
            && o.pushed == [] && RxStep(o.state, NotCalled) == RxOut(RxReset(fd), [Frame(240, [])], false)
  {
    var s := RxState(fd, RxLen, 1, 0, 240, 0, 0, [], false, true);
    var t := RxStep(s, Data([2])).state;
    assert t.phase == RxMsg && t.msgRemaining == 0 && t.header == 240;
    assert t.got + [] == [];
  }

  lemma HalfLengthThenIdle(fd: int) returns (rs: seq<RecvResult>)
    ensures Deliverable(RxReset(fd), rs) && Consumed(rs) == [240, 0]
    ensures var o := RxRun(RxReset(fd), rs);
            o.pushed == [] && o.state == RxState(fd, RxLen, 1, 0, 240, 0, 0, [], false, true)
  {
    hide ParseFrames, ParseRest;
    rs := [Data([240])];
    RunSnoc(RxReset(fd), [], Data([240]));
    assert [] + [Data([240])] == rs;
    RunSnoc(RxReset(fd), rs, Data([0]));
    rs := rs + [Data([0])];
    RunSnoc(RxReset(fd), rs, WouldBlock);
    rs := rs + [WouldBlock];
  }

  // ---------------------------------------------------------------- every cut can happen

  function Joined(pieces: seq<seq<byte>>): seq<byte> {
    if pieces == [] then [] else Joined(pieces[..|pieces|-1]) + pieces[|pieces|-1]
  }

  /** The header, the length field, and the payload in these pieces. */
  ghost function InPieces(f: Frame, pieces: seq<seq<byte>>): seq<RecvResult>
    requires WellFormed(f)
  {
    if pieces == [] then [Data([f.header]), Data(BigEndian(|f.msg|))]
    else InPieces(f, pieces[..|pieces|-1]) + [Data(pieces[|pieces|-1])]
  }

  /** The reader with the bytes `got` of a payload. */
  ghost function Filling(fd: int, f: Frame, got: seq<byte>): RxState
    requires WellFormed(f) && |got| <= |f.msg|
  {
    var w := BigEndian(|f.msg|);
    RxState(fd, RxMsg, 0, |f.msg| - |got|, f.header, w[0], w[1], got, false, false)
  }

  lemma HeadArrives(fd: int, f: Frame)
    requires WellFormed(f)
    ensures Deliverable(RxReset(fd), InPieces(f, []))
    ensures var o := RxRun(RxReset(fd), InPieces(f, [])); o.state == Filling(fd, f, []) && o.pushed == []
  {
    hide RxRun, Deliverable, RxStep;
    HeadSteps(fd, f);
    var r1, r2 := Data([f.header]), Data(BigEndian(|f.msg|));
    NoAttempts(RxReset(fd));
    RunSnoc(RxReset(fd), [], r1);
    assert [] + [r1] == [r1];
    RunSnoc(RxReset(fd), [r1], r2);
    assert [r1] + [r2] == [r1, r2];
  }

  lemma NoAttempts(s: RxState)
    requires RxValid(s)
    ensures Deliverable(s, []) && RxRun(s, []) == RxOut(s, [], true)
  {
  }

  lemma HeadSteps(fd: int, f: Frame)
    requires WellFormed(f)
    ensures var s0, r1, r2 := RxReset(fd), Data([f.header]), Data(BigEndian(|f.msg|));
            var s1 := s0.(phase := RxLen, lenRemaining := 2, header := f.header);
            && RxValid(s1) && RxStep(s0, r1) == RxOut(s1, [], true)
            && RxStep(s1, r2) == RxOut(Filling(fd, f, []), [], true)
  {
    var w := BigEndian(|f.msg|);
    ValInjective(w, [w[0], w[1]]);
  }

  lemma PieceArrives(fd: int, f: Frame, got: seq<byte>, piece: seq<byte>)
    requires WellFormed(f) && piece != [] && got + piece <= f.msg
    ensures var s := Filling(fd, f, got);
            && RxValid(s) && Delivers(Want(s), Data(piece))
            && RxStep(s, Data(piece)) ==
                 if got + piece == f.msg then RxOut(RxReset(fd), [f], true)
                 else RxOut(Filling(fd, f, got + piece), [], true)
  {
    var w := BigEndian(|f.msg|);
    ValInjective(w, [w[0], w[1]]);
  }

  /** Every way to cut a payload can happen, and every one yields the frame. */
  lemma {:induction false} EveryCutArrives(fd: int, f: Frame, pieces: seq<seq<byte>>)
    requires WellFormed(f) && Joined(pieces) <= f.msg && forall i | 0 <= i < |pieces| :: pieces[i] != []
    ensures Deliverable(RxReset(fd), InPieces(f, pieces))
    ensures var o := RxRun(RxReset(fd), InPieces(f, pieces));
            if pieces != [] && Joined(pieces) == f.msg then o.state == RxReset(fd) && o.pushed == [f]
            else o.state == Filling(fd, f, Joined(pieces)) && o.pushed == []
  {
    if pieces == [] {
      HeadArrives(fd, f);
    } else {
      var front, piece := pieces[..|pieces|-1], pieces[|pieces|-1];
      hide RxRun, Deliverable, RxStep, Filling, Delivers, RxReset, Want;
      EveryCutArrives(fd, f, front);
      PieceArrives(fd, f, Joined(front), piece);
      assert Joined(front) != f.msg;
      RunSnoc(RxReset(fd), InPieces(f, front), Data(piece));
    }
  }
}
