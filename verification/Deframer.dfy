/** The resumable frame writer of PDeframer.cpp over a non-blocking socket. */
module Deframer {
  import opened Wire

  // ---------------------------------------------------------------- the step

  datatype TxPhase = TxHeader | TxLen | TxMsg

  /** What one attempt to send came to; `Skipped` is an offer of zero bytes. */
  datatype SendResult = Accepted(n: nat) | Refused | Busy | Skipped

  const MAX_LEN: nat := 65535

  /** `mem` is the memory at the payload pointer: the frame's own bytes first.
      `pad` is the byte of the frame object just behind its length field. */
  datatype TxState = TxState(
    phase: TxPhase, lenRemaining: nat, msgRemaining: nat,
    header: byte, lenHi: byte, lenLo: byte, mem: seq<byte>, pad: byte,
    inProgress: bool, writeEOF: bool, writeAgain: bool)

  function Len(s: TxState): nat {
    Val([s.lenHi, s.lenLo])
  }

  predicate TxValid(s: TxState) {
    && |s.mem| == MAX_LEN
    && match s.phase
       case TxHeader => true
       case TxLen => s.inProgress && 1 <= s.lenRemaining <= 2
       case TxMsg => s.msgRemaining <= Len(s) && (!s.inProgress ==> s.msgRemaining == 0)
  }

  /** The bytes an attempt offers to the socket. In the length phase the field has
      just been byte-swapped; with one byte remaining the pointer, which counts
      16-bit units, is already past the field. */
  function Offer(s: TxState): seq<byte>
    requires TxValid(s)
  {
    if !s.inProgress then []
    else match s.phase
         case TxHeader => [s.header]
         case TxLen => if s.lenRemaining == 2 then [s.lenHi, s.lenLo] else [s.pad]
         case TxMsg => s.mem[Len(s) - s.msgRemaining..Len(s)]
  }

  /** A socket may take any number of bytes from one to those offered. */
  predicate Takes(offered: nat, r: SendResult) {
    match r
    case Accepted(n) => 1 <= n <= offered
    case Skipped => offered == 0
    case _ => offered > 0
  }

  function Count(r: SendResult): nat {
    if r.Accepted? then r.n else 0
  }

  function WithFlags(s: TxState, r: SendResult): TxState {
    match r
    case Accepted(_) => s.(writeAgain := false)
    case Refused => s.(writeEOF := true)
    case Busy => s.(writeAgain := true)
    case Skipped => s
  }

  function Swapped(s: TxState): TxState {
    s.(lenHi := s.lenLo, lenLo := s.lenHi)
  }

  /** The length field after an attempt: swapped for sending, and swapped back when it is
      out, which starts the payload. */
  function LenSent(s: TxState, r: SendResult): (t: TxState)
    requires TxValid(s) && s.inProgress && s.phase == TxLen && Count(r) <= s.lenRemaining
    ensures TxValid(t)
  {
    var t := WithFlags(s, r);
    if Count(r) == s.lenRemaining then t.(phase := TxMsg, lenRemaining := 0, msgRemaining := Len(t))
    else Swapped(t).(lenRemaining := s.lenRemaining - Count(r))
  }

  function PayloadSent(s: TxState, r: SendResult): (t: TxState)
    requires TxValid(s) && s.inProgress && s.phase == TxMsg && Count(r) <= s.msgRemaining
    ensures TxValid(t)
  {
    var left := s.msgRemaining - Count(r);
    WithFlags(s, r).(msgRemaining := left, inProgress := left != 0)
  }

  datatype TxOut = TxOut(state: TxState, wire: seq<byte>, more: bool)

  /** One call of `tryWrite` whose offer met `r`. */
  function TxStep(s: TxState, r: SendResult): (o: TxOut)
    requires TxValid(s) && Takes(|Offer(s)|, r)
    ensures TxValid(o.state)
  {
    var n := Count(r);
    var wire := Offer(s)[..n];
    var t := WithFlags(s, r);
    if !s.inProgress then TxOut(s, [], false)
    else match s.phase
         case TxHeader =>
           TxOut(if n == 1 then t.(phase := TxLen, lenRemaining := 2) else t, wire, n > 0)
         case TxLen => TxOut(LenSent(s, r), wire, n > 0)
         case TxMsg => TxOut(PayloadSent(s, r), wire, n > 0)
  }

  /** Bytes still to leave, at most. */
  function BytesLeft(s: TxState): nat {
    match s.phase
    case TxHeader => MAX_LEN + 3
    case TxLen => MAX_LEN + s.lenRemaining
    case TxMsg => s.msgRemaining
  }

  /** Progress shrinks what is left; no progress in mid-frame has a reason. */
  lemma MoreMeansLess(s: TxState, r: SendResult)
    requires TxValid(s) && Takes(|Offer(s)|, r)
    ensures TxStep(s, r).more ==> BytesLeft(TxStep(s, r).state) < BytesLeft(s)
    ensures !TxStep(s, r).more && TxStep(s, r).state.inProgress ==>
              TxStep(s, r).state.writeAgain || TxStep(s, r).state.writeEOF
  {
  }

  /** `setSentItem` on an idle writer. */
  ghost function TxStart(f: Frame, beyond: seq<byte>, pad: byte): (s: TxState)
    requires WellFormed(f) && |f.msg| + |beyond| == MAX_LEN
    ensures TxValid(s)
  {
    var len := BigEndian(|f.msg|);
    TxState(TxHeader, 0, 0, f.header, len[0], len[1], f.msg + beyond, pad, true, false, false)
  }

  // ---------------------------------------------------------------- whole runs

  ghost predicate Sendable(s: TxState, rs: seq<SendResult>)
    requires TxValid(s)
    decreases |rs|, 0
  {
    rs == [] || (Sendable(s, rs[..|rs|-1]) &&
                 Takes(|Offer(TxRun(s, rs[..|rs|-1]).state)|, rs[|rs|-1]))
  }

  /** The state after a schedule of send results and all bytes put on the wire. */
  ghost function TxRun(s: TxState, rs: seq<SendResult>): (o: TxOut)
    requires TxValid(s) && Sendable(s, rs)
    ensures TxValid(o.state)
    decreases |rs|, 1
  {
    if rs == [] then TxOut(s, [], true)
    else
      var before := TxRun(s, rs[..|rs|-1]);
      var o := TxStep(before.state, rs[|rs|-1]);
      TxOut(o.state, before.wire + o.wire, o.more)
  }

  lemma TxRunSnoc(s: TxState, rs: seq<SendResult>, r: SendResult)
    requires TxValid(s) && Sendable(s, rs) && Takes(|Offer(TxRun(s, rs).state)|, r)
    ensures Sendable(s, rs + [r])
    ensures var o := TxRun(s, rs); var p := TxStep(o.state, r);
            TxRun(s, rs + [r]) == TxOut(p.state, o.wire + p.wire, p.more)
  {
  }

  /** Every attempt so far made progress. */
  ghost predicate Going(s: TxState, rs: seq<SendResult>)
    requires TxValid(s) && Sendable(s, rs)
  {
    rs == [] || (Going(s, rs[..|rs|-1]) && TxRun(s, rs).more)
  }

  /** The attempts of one `writeAll`: until one makes no progress. */
  ghost predicate WrittenOut(s: TxState, rs: seq<SendResult>)
    requires TxValid(s)
  {
    Sendable(s, rs) && rs != [] && Going(s, rs[..|rs|-1]) && !TxRun(s, rs).more
  }

  /** Such a run ends with the frame out, or because the socket was busy or refused. */
  lemma WrittenOutMeans(s: TxState, rs: seq<SendResult>)
    requires TxValid(s) && WrittenOut(s, rs)
    ensures var last := rs[|rs|-1];
            && (last.Busy? || last.Refused? || last.Skipped?)
            && (TxRun(s, rs).state.inProgress ==> last.Busy? || last.Refused?)
  {
  }

  // ------------------------------------------------- attempts on the length field

  /** `NoByte`: nothing of the length field is out; `late` counts the attempts that
      moved nothing, modulo two. `OneByte`: its first byte is out, `again` counts the
      idle attempts since. */
  datatype Cut = NoByte(late: bool) | OneByte(late: bool, again: bool)

  function NextCut(s: TxState, cut: Cut, r: SendResult): Cut {
    if s.phase != TxLen then NoByte(false)
    else match cut
         case NoByte(late) => if r.Accepted? then OneByte(late, false) else NoByte(!late)
         case OneByte(late, again) => if r.Accepted? then cut else OneByte(late, !again)
  }

  /** When the length field of `f` leaves correctly: an odd number of idle attempts
      before it is harmless only if its two bytes are equal; if it leaves in two pieces,
      the padding byte must happen to be the low byte, and the idle attempts must
      restore the byte order for the payload. */
  ghost predicate LenSendOk(f: Frame, s: TxState, cut: Cut, r: SendResult)
    requires WellFormed(f)
  {
    var len := BigEndian(|f.msg|);
    s.phase == TxLen && r.Accepted? ==>
      match cut
      case NoByte(late) => late ==> len[0] == len[1]
      case OneByte(late, again) => s.pad == len[1] && (late != again || len[0] == len[1])
  }

  ghost function CutAfter(s: TxState, rs: seq<SendResult>): Cut
    requires TxValid(s) && Sendable(s, rs)
  {
    if rs == [] then NoByte(false)
    else NextCut(TxRun(s, rs[..|rs|-1]).state, CutAfter(s, rs[..|rs|-1]), rs[|rs|-1])
  }

  ghost predicate LensSendOk(f: Frame, s: TxState, rs: seq<SendResult>)
    requires WellFormed(f) && TxValid(s) && Sendable(s, rs)
  {
    rs == [] ||
    (LensSendOk(f, s, rs[..|rs|-1]) &&
     LenSendOk(f, TxRun(s, rs[..|rs|-1]).state, CutAfter(s, rs[..|rs|-1]), rs[|rs|-1]))
  }

  // ------------------------------------------------ exactly when the writer is right

  ghost predicate Carries(f: Frame, s: TxState)
    requires WellFormed(f)
  {
    TxValid(s) && s.header == f.header && s.mem[..|f.msg|] == f.msg
  }

  /** The bytes of `f` sent so far, and the byte order of the length field. */
  ghost predicate TxInv(f: Frame, wire: seq<byte>, s: TxState, cut: Cut)
    requires WellFormed(f)
  {
    var len := BigEndian(|f.msg|);
    && Carries(f, s)
    && match s.phase
       case TxHeader => s.inProgress && wire == [] && cut == NoByte(false) && [s.lenHi, s.lenLo] == len
       case TxLen =>
         && (cut.NoByte? <==> s.lenRemaining == 2)
         && wire == (if cut.NoByte? then [f.header] else [f.header, len[0]])
         && (cut.OneByte? && cut.late ==> len[0] == len[1])
         && ((s.lenHi == len[0] && s.lenLo == len[1]) || (s.lenHi == len[1] && s.lenLo == len[0]))
         && (InOrder(cut) ==> s.lenHi == len[0])
         && (!InOrder(cut) ==> s.lenHi == len[1])
       case TxMsg =>
         && [s.lenHi, s.lenLo] == len && Len(s) == |f.msg|
         && wire == Encode(f)[..3 + |f.msg| - s.msgRemaining]
         && (s.inProgress && s.msgRemaining == 0 ==> f.msg == [])
  }

  /** Whether the field has been swapped an even number of times. */
  predicate InOrder(cut: Cut) {
    match cut
    case NoByte(late) => !late
    case OneByte(late, again) => late != again
  }

  /** The length bytes on the wire, or the number of payload bytes, are wrong. */
  ghost predicate TxSpoilt(f: Frame, wire: seq<byte>, s: TxState)
    requires WellFormed(f)
  {
    && Carries(f, s)
    && match s.phase
       case TxHeader => false
       case TxLen => s.lenRemaining == 1 && |wire| == 2 && wire[1] != BigEndian(|f.msg|)[0]
       case TxMsg =>
         && |wire| == 3 + Len(s) - s.msgRemaining
         && (wire[1..3] != BigEndian(|f.msg|) || Len(s) != |f.msg|)
  }

  lemma LenIdle(f: Frame, wire: seq<byte>, s: TxState, cut: Cut, r: SendResult)
    requires WellFormed(f) && TxInv(f, wire, s, cut) && s.phase == TxLen && Takes(|Offer(s)|, r)
    requires !r.Accepted?
    ensures TxInv(f, wire + TxStep(s, r).wire, TxStep(s, r).state, NextCut(s, cut, r))
  {
  }

  lemma LenHalf(f: Frame, wire: seq<byte>, s: TxState, cut: Cut, r: SendResult)
    requires WellFormed(f) && TxInv(f, wire, s, cut) && s.phase == TxLen && Takes(|Offer(s)|, r)
    requires r.Accepted? && r.n < s.lenRemaining
    ensures LenSendOk(f, s, cut, r) ==> TxInv(f, wire + TxStep(s, r).wire, TxStep(s, r).state, NextCut(s, cut, r))
    ensures !LenSendOk(f, s, cut, r) ==> TxSpoilt(f, wire + TxStep(s, r).wire, TxStep(s, r).state)
  {
  }

  lemma LenLeaves(f: Frame, wire: seq<byte>, s: TxState, cut: Cut, r: SendResult)
    requires WellFormed(f) && TxInv(f, wire, s, cut) && s.phase == TxLen && Takes(|Offer(s)|, r)
    requires r.Accepted? && r.n == s.lenRemaining
    ensures LenSendOk(f, s, cut, r) ==> TxInv(f, wire + TxStep(s, r).wire, TxStep(s, r).state, NextCut(s, cut, r))
    ensures !LenSendOk(f, s, cut, r) ==> TxSpoilt(f, wire + TxStep(s, r).wire, TxStep(s, r).state)
  {
  }

  lemma PayloadAttempt(f: Frame, wire: seq<byte>, s: TxState, cut: Cut, r: SendResult)
    requires WellFormed(f) && TxInv(f, wire, s, cut) && s.phase == TxMsg && Takes(|Offer(s)|, r)
    ensures TxInv(f, wire + TxStep(s, r).wire, TxStep(s, r).state, NextCut(s, cut, r))
  {
  }

  lemma SpoiltForGood(f: Frame, wire: seq<byte>, s: TxState, r: SendResult)
    requires WellFormed(f) && TxSpoilt(f, wire, s) && Takes(|Offer(s)|, r)
    ensures TxSpoilt(f, wire + TxStep(s, r).wire, TxStep(s, r).state)
  {
  }

  lemma {:induction false} GoodOrSpoilt(f: Frame, s: TxState, rs: seq<SendResult>)
    requires WellFormed(f) && TxInv(f, [], s, NoByte(false)) && s.phase == TxHeader && Sendable(s, rs)
    ensures var o := TxRun(s, rs);
            if LensSendOk(f, s, rs) then TxInv(f, o.wire, o.state, CutAfter(s, rs))
            else TxSpoilt(f, o.wire, o.state)
  {
    if rs == [] {
    } else {
      var before, r := rs[..|rs|-1], rs[|rs|-1];
      GoodOrSpoilt(f, s, before);
      var o, cut := TxRun(s, before), CutAfter(s, before);
      OneAttempt(f, o.wire, o.state, cut, r, LensSendOk(f, s, before));
    }
  }

  lemma OneAttempt(f: Frame, wire: seq<byte>, s: TxState, cut: Cut, r: SendResult, good: bool)
    requires WellFormed(f) && TxValid(s) && Takes(|Offer(s)|, r)
    requires if good then TxInv(f, wire, s, cut) else TxSpoilt(f, wire, s)
    ensures var o := TxStep(s, r);
            if good && LenSendOk(f, s, cut, r) then TxInv(f, wire + o.wire, o.state, NextCut(s, cut, r))
            else TxSpoilt(f, wire + o.wire, o.state)
  {
    if !good {
      SpoiltForGood(f, wire, s, r);
    } else {
      match s.phase
      case TxHeader =>
        assert TxStep(s, r).wire == if r.Accepted? then [f.header] else [];
      case TxLen =>
        if r.Accepted? && r.n == s.lenRemaining {
          LenLeaves(f, wire, s, cut, r);
        } else if r.Accepted? {
          LenHalf(f, wire, s, cut, r);
        } else {
          LenIdle(f, wire, s, cut, r);
        }
      case TxMsg => PayloadAttempt(f, wire, s, cut, r);
    }
  }

  lemma StartCarries(f: Frame, beyond: seq<byte>, pad: byte)
    requires WellFormed(f) && |f.msg| + |beyond| == MAX_LEN
    ensures TxInv(f, [], TxStart(f, beyond, pad), NoByte(false))
  {
  }

  /** Over every schedule that finishes a frame, whatever memory lies around it, the
      bytes on the wire are its encoding if and only if its length field left well. */
  lemma WriterExactlyRight(f: Frame, beyond: seq<byte>, pad: byte, rs: seq<SendResult>)
    requires WellFormed(f) && |f.msg| + |beyond| == MAX_LEN
    requires var s := TxStart(f, beyond, pad); Sendable(s, rs) && !TxRun(s, rs).state.inProgress
    ensures var s := TxStart(f, beyond, pad);
            TxRun(s, rs).wire == Encode(f) <==> LensSendOk(f, s, rs)
  {
    var s := TxStart(f, beyond, pad);
    StartCarries(f, beyond, pad);
    GoodOrSpoilt(f, s, rs);
    FinishedShape(f, TxRun(s, rs).wire, TxRun(s, rs).state, CutAfter(s, rs), LensSendOk(f, s, rs));
  }

  lemma FinishedShape(f: Frame, wire: seq<byte>, s: TxState, cut: Cut, good: bool)
    requires WellFormed(f) && TxValid(s) && !s.inProgress
    requires if good then TxInv(f, wire, s, cut) else TxSpoilt(f, wire, s)
    ensures wire == Encode(f) <==> good
  {
  }

  /** At every moment of a good schedule what has left is a prefix of the encoding. */
  lemma WriterPrefix(f: Frame, beyond: seq<byte>, pad: byte, rs: seq<SendResult>)
    requires WellFormed(f) && |f.msg| + |beyond| == MAX_LEN
    requires var s := TxStart(f, beyond, pad); Sendable(s, rs) && LensSendOk(f, s, rs)
    ensures TxRun(TxStart(f, beyond, pad), rs).wire <= Encode(f)
  {
    var s := TxStart(f, beyond, pad);
    StartCarries(f, beyond, pad);
    GoodOrSpoilt(f, s, rs);
    InvIsPrefix(f, TxRun(s, rs).wire, TxRun(s, rs).state, CutAfter(s, rs));
  }

  lemma InvIsPrefix(f: Frame, wire: seq<byte>, s: TxState, cut: Cut)
    requires WellFormed(f) && TxInv(f, wire, s, cut)
    ensures wire <= Encode(f)
  {
  }

  /** Every successful attempt moves a byte, so a frame that leaves well needs at most
      length + 3 of them, and no frame needs more than the longest. */
  lemma AttemptsBounded(f: Frame, beyond: seq<byte>, pad: byte, rs: seq<SendResult>)
    requires WellFormed(f) && |f.msg| + |beyond| == MAX_LEN && Sendable(TxStart(f, beyond, pad), rs)
    ensures LensSendOk(f, TxStart(f, beyond, pad), rs) ==> Successes(rs) <= |f.msg| + 3
    ensures Successes(rs) <= MAX_LEN + 3
  {
    SuccessesMoveBytes(TxStart(f, beyond, pad), rs);
    if LensSendOk(f, TxStart(f, beyond, pad), rs) {
      WriterPrefix(f, beyond, pad, rs);
    }
  }

  function Successes(rs: seq<SendResult>): nat {
    if rs == [] then 0 else Successes(rs[..|rs|-1]) + if rs[|rs|-1].Accepted? then 1 else 0
  }

  lemma {:induction false} SuccessesMoveBytes(s: TxState, rs: seq<SendResult>)
    requires TxValid(s) && Sendable(s, rs)
    ensures Successes(rs) <= |TxRun(s, rs).wire|
    ensures Successes(rs) + BytesLeft(TxRun(s, rs).state) <= BytesLeft(s)
  {
    if rs == [] {
    } else {
      SuccessesMoveBytes(s, rs[..|rs|-1]);
    }
  }

  /** One attempt on the length field that moves nothing reverses its bytes. */
  lemma StalledLengthIsReversed(f: Frame, beyond: seq<byte>, pad: byte)
    requires WellFormed(f) && |f.msg| + |beyond| == MAX_LEN
    ensures var s, rs := TxStart(f, beyond, pad), [Accepted(1), Busy, Accepted(2)];
            Sendable(s, rs) &&
            TxRun(s, rs).wire == [f.header, BigEndian(|f.msg|)[1], BigEndian(|f.msg|)[0]]
  {
    hide TxRun, Sendable;
    var s := TxStart(f, beyond, pad);
    TxRunNil(s);
    TxRunSnoc(s, [], Accepted(1));
    assert [] + [Accepted(1)] == [Accepted(1)];
    TxRunSnoc(s, [Accepted(1)], Busy);
    assert [Accepted(1)] + [Busy] == [Accepted(1), Busy];
    TxRunSnoc(s, [Accepted(1), Busy], Accepted(2));
    assert [Accepted(1), Busy] + [Accepted(2)] == [Accepted(1), Busy, Accepted(2)];
  }

  lemma TxRunNil(s: TxState)
    requires TxValid(s)
    ensures Sendable(s, []) && TxRun(s, []) == TxOut(s, [], true)
  {
  }

  /** A length field that leaves in two pieces: instead of its low byte the padding goes out. */
  lemma CutLengthSendsPadding(f: Frame, beyond: seq<byte>, pad: byte)
    requires WellFormed(f) && |f.msg| + |beyond| == MAX_LEN
    ensures var s, rs := TxStart(f, beyond, pad), [Accepted(1), Accepted(1), Accepted(1)];
            Sendable(s, rs) && TxRun(s, rs).wire == [f.header, BigEndian(|f.msg|)[0], pad]
  {
    hide TxRun, Sendable;
    var s, r := TxStart(f, beyond, pad), Accepted(1);
    TxRunNil(s);
    TxRunSnoc(s, [], r);
    assert [] + [r] == [r];
    TxRunSnoc(s, [r], r);
    assert [r] + [r] == [r, r];
    TxRunSnoc(s, [r, r], r);
    assert [r, r] + [r] == [r, r, r];
  }

  // ---------------------------------------------------------------- every cut can happen

  function Sum(pieces: seq<nat>): nat {
    if pieces == [] then 0 else Sum(pieces[..|pieces|-1]) + pieces[|pieces|-1]
  }

  /** The header, the length field, and the payload in pieces of these sizes, with a socket
      that is busy before each. */
  function InPieces(pieces: seq<nat>): seq<SendResult> {
    if pieces == [] then [Accepted(1), Accepted(2)]
    else InPieces(pieces[..|pieces|-1]) + [Busy] + [Accepted(pieces[|pieces|-1])]
  }

  /** The writer with `sent` bytes of its payload out. */
  ghost function Emptying(f: Frame, beyond: seq<byte>, pad: byte, sent: nat, again: bool): TxState
    requires WellFormed(f) && |f.msg| + |beyond| == MAX_LEN && sent <= |f.msg|
  {
    TxStart(f, beyond, pad).(phase := TxMsg, msgRemaining := |f.msg| - sent, writeAgain := again)
  }

  lemma HeadLeaves(f: Frame, beyond: seq<byte>, pad: byte)
    requires WellFormed(f) && |f.msg| + |beyond| == MAX_LEN
    ensures var s := TxStart(f, beyond, pad);
            && Sendable(s, InPieces([])) && TxRun(s, InPieces([])).state == Emptying(f, beyond, pad, 0, false)
            && TxRun(s, InPieces([])).wire == Encode(f)[..3]
  {
    hide TxRun, Sendable;
    var s, w := TxStart(f, beyond, pad), BigEndian(|f.msg|);
    ValInjective(w, [w[0], w[1]]);
    TxRunNil(s);
    TxRunSnoc(s, [], Accepted(1));
    assert [] + [Accepted(1)] == [Accepted(1)];
    TxRunSnoc(s, [Accepted(1)], Accepted(2));
    assert [Accepted(1)] + [Accepted(2)] == [Accepted(1), Accepted(2)];
  }

  lemma PieceLeaves(f: Frame, beyond: seq<byte>, pad: byte, sent: nat, again: bool, n: nat)
    requires WellFormed(f) && |f.msg| + |beyond| == MAX_LEN && 1 <= n && sent + n <= |f.msg|
    ensures var s := Emptying(f, beyond, pad, sent, again);
            var idle := Emptying(f, beyond, pad, sent, true);
            && TxValid(s) && Takes(|Offer(s)|, Busy) && TxStep(s, Busy) == TxOut(idle, [], false)
            && TxValid(idle) && Takes(|Offer(idle)|, Accepted(n))
            && TxStep(idle, Accepted(n)) ==
                 TxOut(Emptying(f, beyond, pad, sent + n, false).(inProgress := sent + n < |f.msg|),
                       f.msg[sent..sent + n], true)
  {
    var w := BigEndian(|f.msg|);
    ValInjective(w, [w[0], w[1]]);
    var s := Emptying(f, beyond, pad, sent, again);
    assert Offer(s) == f.msg[sent..];
    assert Offer(s.(writeAgain := true)) == f.msg[sent..];
    assert f.msg[sent..][..n] == f.msg[sent..sent + n];
  }

  /** Every way to cut a payload can happen, however often the socket is busy in between, and
      every one puts the encoding on the wire. */
  lemma {:induction false} EveryCutLeaves(f: Frame, beyond: seq<byte>, pad: byte, pieces: seq<nat>)
    requires WellFormed(f) && |f.msg| + |beyond| == MAX_LEN
    requires Sum(pieces) <= |f.msg| && forall i | 0 <= i < |pieces| :: pieces[i] > 0
    ensures var s, rs := TxStart(f, beyond, pad), InPieces(pieces);
            && Sendable(s, rs) && TxRun(s, rs).wire == Encode(f)[..3 + Sum(pieces)]
            && TxRun(s, rs).state == Emptying(f, beyond, pad, Sum(pieces), false).(
                                       inProgress := pieces == [] || Sum(pieces) < |f.msg|)
  {
    if pieces == [] {
      HeadLeaves(f, beyond, pad);
    } else {
      var front, n := pieces[..|pieces|-1], pieces[|pieces|-1];
      hide TxRun, Sendable, TxStep, Emptying, TxStart, Takes, Offer, Encode, TxValid;
      EveryCutLeaves(f, beyond, pad, front);
      StillGoing(f, beyond, pad, Sum(front));
      OnePieceMore(f, beyond, pad, InPieces(front), Sum(front), n);
    }
  }

  lemma OnePieceMore(f: Frame, beyond: seq<byte>, pad: byte, rs: seq<SendResult>, sent: nat, n: nat)
    requires WellFormed(f) && |f.msg| + |beyond| == MAX_LEN && 1 <= n && sent + n <= |f.msg|
    requires var s := TxStart(f, beyond, pad);
             && Sendable(s, rs) && TxRun(s, rs).wire == Encode(f)[..3 + sent]
             && TxRun(s, rs).state == Emptying(f, beyond, pad, sent, false)
    ensures var s, more := TxStart(f, beyond, pad), rs + [Busy] + [Accepted(n)];
            && Sendable(s, more) && TxRun(s, more).wire == Encode(f)[..3 + sent + n]
            && TxRun(s, more).state == Emptying(f, beyond, pad, sent + n, false).(inProgress := sent + n < |f.msg|)
  {
    hide TxRun, Sendable, TxStep, Emptying, TxStart, Takes, Offer, Encode, TxValid;
    PieceLeaves(f, beyond, pad, sent, false, n);
    BusyThen(TxStart(f, beyond, pad), rs, n);
    EncodeSlice(f, sent, n);
  }

  lemma BusyThen(s: TxState, rs: seq<SendResult>, n: nat)
    requires TxValid(s) && Sendable(s, rs) && Takes(|Offer(TxRun(s, rs).state)|, Busy)
    requires Takes(|Offer(TxStep(TxRun(s, rs).state, Busy).state)|, Accepted(n))
    ensures Sendable(s, rs + [Busy] + [Accepted(n)])
    ensures var o := TxRun(s, rs); var p := TxStep(o.state, Busy); var q := TxStep(p.state, Accepted(n));
            TxRun(s, rs + [Busy] + [Accepted(n)]) == TxOut(q.state, o.wire + p.wire + q.wire, q.more)
  {
    hide TxRun, Sendable, TxStep, Takes, Offer;
    TxRunSnoc(s, rs, Busy);
    TxRunSnoc(s, rs + [Busy], Accepted(n));
  }

  lemma StillGoing(f: Frame, beyond: seq<byte>, pad: byte, sent: nat)
    requires WellFormed(f) && |f.msg| + |beyond| == MAX_LEN && sent <= |f.msg|
    ensures var s := Emptying(f, beyond, pad, sent, false); s.(inProgress := true) == s
  {
  }

  lemma EncodeSlice(f: Frame, sent: nat, n: nat)
    requires WellFormed(f) && sent + n <= |f.msg|
    ensures Encode(f)[..3 + sent] + [] + f.msg[sent..sent + n] == Encode(f)[..3 + sent + n]
  {
  }
}
