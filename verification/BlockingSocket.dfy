/** The client's frame channel (IOFrameSocket.cpp): one frame per call, no resumption. */
module BlockingSocket {
  import opened Wire
  import opened Framer
  import opened FramerObject
  import D = Deframer
  import DO = DeframerObject

  /** The length after `got` of its two bytes were stored from the low address on over
      a zero field, and the field was byte-swapped. */
  function LenOf(got: seq<byte>): nat
    requires 1 <= |got| <= 2
  {
    Val([got[0], if |got| == 2 then got[1] else 0])
  }

  /** The only way to a frame: a good header, then length bytes, then the whole
      payload, not empty, in a single delivery. */
  ghost predicate WholeFrame(rs: seq<RecvResult>) {
    && |rs| == 3 && rs[0].Data? && rs[1].Data? && rs[2].Data?
    && |rs[0].bytes| == 1 && HeaderOk(rs[0].bytes[0])
    && 1 <= |rs[1].bytes| <= 2
    && |rs[2].bytes| == LenOf(rs[1].bytes)
  }

  /** Receives that brought bytes, then the last one: it is the last because it brought none
      or because all `len` bytes are there. */
  ghost predicate Receives(len: nat, rs: seq<RecvResult>) {
    && rs != [] && |Consumed(rs[..|rs|-1])| < len
    && (forall i | 0 <= i < |rs| :: !rs[i].NotCalled? && (rs[i].Data? ==> rs[i].bytes != []))
    && (forall i | 0 <= i < |rs| - 1 :: rs[i].Data?)
    && (rs[|rs|-1].Data? ==> |Consumed(rs)| == len)
  }

  /** Every receive of one call on an open channel: it gives up only at one that brings
      nothing, at a bad header or at a length of zero. */
  ghost predicate FrameReceives(rs: seq<RecvResult>) {
    && rs != [] && Delivers(1, rs[0])
    && if !rs[0].Data? || !HeaderOk(rs[0].bytes[0]) then |rs| == 1
       else
         && |rs| > 1 && Delivers(2, rs[1])
         && if !rs[1].Data? || LenOf(rs[1].bytes) == 0 then |rs| == 2 else Receives(LenOf(rs[1].bytes), rs[2..])
  }

  /** A payload whose last delivery is all of it came in that one delivery. */
  lemma LastIsAll(len: nat, rs: seq<RecvResult>)
    requires Receives(len, rs) && rs[|rs|-1].Data? && |rs[|rs|-1].bytes| == len
    ensures |rs| == 1
  {
    assert rs[|rs|-1].bytes != [];
    BroughtSome(rs[..|rs|-1]);
  }

  ghost predicate BringBytes(rs: seq<RecvResult>) {
    forall i | 0 <= i < |rs| :: rs[i].Data? && rs[i].bytes != []
  }

  lemma NothingConsumed()
    ensures Consumed([]) == []
  {
  }

  lemma AppendAssoc<X>(a: seq<X>, b: seq<X>, c: seq<X>)
    ensures a + b + c == a + (b + c)
  {
  }

  lemma BroughtSome(rs: seq<RecvResult>)
    requires BringBytes(rs)
    ensures Consumed(rs) == [] <==> rs == []
  {
  }

  /** One more receive of the payload. */
  lemma ReceivesOn(len: nat, rs: seq<RecvResult>, r: RecvResult)
    requires BringBytes(rs) && |Consumed(rs)| < len && Delivers(len - |Consumed(rs)|, r)
    ensures Consumed(rs + [r]) == Consumed(rs) + BytesOf(r) && (rs + [r])[..|rs|] == rs
    ensures if r.Data? then BringBytes(rs + [r]) else Receives(len, rs + [r])
  {
    assert (rs + [r])[..|rs|] == rs;
  }

  lemma ReceivesAll(len: nat, rs: seq<RecvResult>)
    requires BringBytes(rs) && rs != [] && |Consumed(rs)| == len
    ensures Receives(len, rs)
  {
    assert rs[|rs|-1].bytes != [];
  }

  lemma ConsumedOf(r0: RecvResult, r1: RecvResult)
    ensures Consumed([]) == [] && Consumed([r0]) == BytesOf(r0) && Consumed([r0, r1]) == BytesOf(r0) + BytesOf(r1)
  {
    assert [r0][..0] == [] && [r0, r1][..1] == [r0];
    assert Consumed([r0]) == BytesOf(r0);
  }

  lemma {:induction false} ConsumedAppend(a: seq<RecvResult>, b: seq<RecvResult>)
    ensures Consumed(a + b) == Consumed(a) + Consumed(b)
  {
    if b == [] {
      assert a + b == a;
    } else {
      assert (a + b)[..|a + b| - 1] == a + b[..|b|-1];
      ConsumedAppend(a, b[..|b|-1]);
    }
  }

  /** The header and the length have come. */
  ghost predicate Head(header: byte, len: nat, rs: seq<RecvResult>) {
    && |rs| == 2 && Delivers(1, rs[0]) && Delivers(2, rs[1]) && rs[0].Data? && rs[1].Data?
    && header == rs[0].bytes[0] && HeaderOk(header) && len == LenOf(rs[1].bytes)
  }

  /** A receive without bytes, or a bad header, ends the attempt. */
  lemma NoHead(r0: RecvResult, r1: RecvResult)
    ensures !WholeFrame([]) && !WholeFrame([r0]) && !WholeFrame([r0, r1])
    ensures Delivers(1, r0) && (!r0.Data? || !HeaderOk(r0.bytes[0])) ==> FrameReceives([r0])
    ensures Delivers(1, r0) && r0.Data? && HeaderOk(r0.bytes[0]) && Delivers(2, r1) && !r1.Data? ==> FrameReceives([r0, r1])
  {
  }

  lemma Finished(header: byte, len: nat, head: seq<RecvResult>, rest: seq<RecvResult>, complete: bool, last: nat)
    requires Head(header, len, head)
    requires if len == 0 then rest == [] && complete && last == 1
             else Receives(len, rest) && complete == rest[|rest|-1].Data? && (complete ==> last == |rest[|rest|-1].bytes|)
    ensures FrameReceives(head + rest) && Consumed(head + rest) == Consumed(head) + Consumed(rest)
    ensures WholeFrame(head + rest) <==> complete && last == len
    ensures WholeFrame(head + rest) ==>
              && 0 < len && |rest| == 1 && len == |rest[0].bytes| && Consumed(rest) == rest[0].bytes
              && Consumed(head + rest) == head[0].bytes + head[1].bytes + rest[0].bytes
    ensures LenOf(head[1].bytes) ==
              256 * head[1].bytes[0] as int + (if |head[1].bytes| == 2 then head[1].bytes[1] as int else 0)
  {
    hide WholeFrame, FrameReceives, Receives, Consumed, Delivers, HeaderOk;
    FinishedShape(header, len, head, rest, complete, last);
    BytesBehind(head, rest);
  }

  lemma BytesBehind(head: seq<RecvResult>, rest: seq<RecvResult>)
    requires |head| == 2
    ensures Consumed(head + rest) == Consumed(head) + Consumed(rest)
    ensures Consumed(head) == BytesOf(head[0]) + BytesOf(head[1])
    ensures |rest| == 1 ==> Consumed(rest) == BytesOf(rest[0])
  {
    hide Consumed;
    ConsumedAppend(head, rest);
    ConsumedOf(head[0], head[1]);
    assert head == [head[0], head[1]];
    if |rest| == 1 {
      ConsumedOf(rest[0], rest[0]);
      assert rest == [rest[0]];
    }
  }

  lemma FinishedShape(header: byte, len: nat, head: seq<RecvResult>, rest: seq<RecvResult>, complete: bool, last: nat)
    requires Head(header, len, head)
    requires if len == 0 then rest == [] && complete && last == 1
             else Receives(len, rest) && complete == rest[|rest|-1].Data? && (complete ==> last == |rest[|rest|-1].bytes|)
    ensures FrameReceives(head + rest)
    ensures WholeFrame(head + rest) <==> complete && last == len
    ensures WholeFrame(head + rest) ==> 0 < len && |rest| == 1 && rest[0].Data? && len == |rest[0].bytes|
  {
    hide Consumed;
    assert (head + rest)[2..] == rest;
    if len > 0 && complete && last == len {
      LastIsAll(len, rest);
    }
  }

  /** With both length bytes delivered together the bytes consumed are exactly one
      encoded frame to the stream parser. */
  lemma WholeFrameParses(rs: seq<RecvResult>)
    requires WholeFrame(rs) && |rs[1].bytes| == 2
    ensures var c := rs[0].bytes + rs[1].bytes + rs[2].bytes;
            && |c| == 3 + |rs[2].bytes|
            && ParseFrames(c) == [Frame(rs[0].bytes[0], rs[2].bytes)] && ParseRest(c) == []
  {
    var c := rs[0].bytes + rs[1].bytes + rs[2].bytes;
    assert c[1..][0] == rs[1].bytes[0] && c[1..][1] == rs[1].bytes[1];
    ValInjective(c[1..], [rs[1].bytes[0], rs[1].bytes[1]]);
    ParseExact(c);
    assert c[3..] == rs[2].bytes;
  }

  /** Every send of one call on an open channel: the header, the length and the payload, each
      only after the one before it was taken whole. */
  ghost predicate FrameSends(len: nat, rs: seq<D.SendResult>) {
    && 1 <= |rs| <= (if len == 0 then 2 else 3)
    && D.Takes(1, rs[0]) && (|rs| > 1 <==> rs[0] == D.Accepted(1))
    && (|rs| > 1 ==> D.Takes(2, rs[1]) && (|rs| > 2 <==> rs[1] == D.Accepted(2) && len > 0))
    && (|rs| > 2 ==> D.Takes(len, rs[2]))
  }

  class IOFrameSocket {
    const rx: RecvSocket
    const tx: DO.SendSocket
    var connOpen: bool
    var readEagain: bool
    var writeEagain: bool
    var msgBuf: array<byte>

    constructor (rx: RecvSocket, tx: DO.SendSocket)
      ensures this.rx == rx && this.tx == tx && connOpen && fresh(msgBuf)
    {
      this.rx, this.tx := rx, tx;
      connOpen, readEagain, writeEagain := true, false, false;
      msgBuf := new byte[0];
    }

    /** A closed channel is not asked, and neither is it for zero bytes. */
    method TryRecv(n: nat) returns (bytes: seq<byte>, ghost r: RecvResult)
      modifies this`connOpen, this`readEagain, rx
      ensures if old(connOpen) then Delivers(n, r) else r == NotCalled
      ensures rx.calls == old(rx.calls) + Called(r)
      ensures bytes == BytesOf(r) && old(rx.incoming) == bytes + rx.incoming
      ensures connOpen <==> old(connOpen) && !r.EndOfStream?
      ensures readEagain == if r.NotCalled? then old(readEagain) else r.WouldBlock?
    {
      var got := NotCalled;
      if connOpen && n != 0 {
        got := rx.Recv(n);
        if got.EndOfStream? {
          connOpen := false;
        }
        readEagain := got.WouldBlock?;
      }
      bytes, r := if got.Data? then got.bytes else [], got;
    }

    /** The receive loop: `last` is the size of the last delivery, which is the whole
        length exactly when the payload came in one piece. */
    method RecvPayload(len: nat, nrecv: nat) returns (complete: bool, last: nat, ghost rs: seq<RecvResult>)
      requires connOpen
      modifies this, rx
      ensures fresh(msgBuf) && msgBuf.Length == len
      ensures rx.calls == old(rx.calls) + rs && old(rx.incoming) == Consumed(rs) + rx.incoming
      ensures if len == 0 then rs == [] && complete && last == nrecv
              else Receives(len, rs) && complete == rs[|rs|-1].Data?
      ensures complete ==> msgBuf[..] == Consumed(rs) && (len > 0 ==> last == |rs[|rs|-1].bytes|)
    {
      hide Receives, Consumed, Delivers, Called;
      complete, last, rs := false, nrecv, [];
      msgBuf := new byte[len];
      var toRecv := len;
      NothingConsumed();
      while toRecv > 0
        invariant 0 <= toRecv <= len == msgBuf.Length && fresh(msgBuf) && connOpen
        invariant msgBuf[..len - toRecv] == Consumed(rs) && BringBytes(rs)
        invariant rx.calls == old(rx.calls) + rs && old(rx.incoming) == Consumed(rs) + rx.incoming
        invariant if rs == [] then last == nrecv && toRecv == len else last == |rs[|rs|-1].bytes| && toRecv < len
      {
        ghost var calls, before := rx.calls, rs;
        ghost var r;
        last, r := RecvPiece(len - toRecv, toRecv);
        ReceivesOn(len, before, r);
        AppendAssoc(old(rx.calls), before, [r]);
        AppendAssoc(Consumed(before), BytesOf(r), rx.incoming);
        rs := before + [r];
        if last == 0 {
          return;
        }
        toRecv := toRecv - last;
      }
      complete := true;
      assert msgBuf[..] == msgBuf[..len];
      if len > 0 {
        ReceivesAll(len, rs);
      }
    }

    /** One receive, stored behind the bytes already there. */
    method RecvPiece(offset: nat, n: nat) returns (got: nat, ghost r: RecvResult)
      requires connOpen && n > 0 && offset + n <= msgBuf.Length
      modifies this`connOpen, this`readEagain, rx, msgBuf
      ensures Delivers(n, r) && got == |BytesOf(r)| && (got == 0 <==> !r.Data?)
      ensures rx.calls == old(rx.calls) + [r] && old(rx.incoming) == BytesOf(r) + rx.incoming
      ensures msgBuf[..offset + got] == old(msgBuf[..offset]) + BytesOf(r)
      ensures r.Data? ==> connOpen
    {
      var bytes;
      bytes, r := TryRecv(n);
      got := |bytes|;
      forall i | 0 <= i < got {
        msgBuf[offset + i] := bytes[i];
      }
      assert msgBuf[..offset + got] == old(msgBuf[..offset]) + bytes;
    }

    /** A frame is reported exactly when it came as `WholeFrame` says; a payload that is
        empty or arrives in pieces is lost. */
    method RecvFrame() returns (ok: bool, header: byte, len: nat, ghost rs: seq<RecvResult>)
      modifies this, rx
      ensures rx.calls == old(rx.calls) + rs && old(rx.incoming) == Consumed(rs) + rx.incoming
      ensures if old(connOpen) then FrameReceives(rs) else rs == []
      ensures ok <==> WholeFrame(rs)
      ensures ok ==>
                && header == rs[0].bytes[0] && 0 < len == |rs[2].bytes|
                && len == 256 * rs[1].bytes[0] as int + (if |rs[1].bytes| == 2 then rs[1].bytes[1] as int else 0)
                && fresh(msgBuf) && msgBuf[..] == rs[2].bytes
                && old(rx.incoming) == rs[0].bytes + rs[1].bytes + rs[2].bytes + rx.incoming
    {
      hide FrameReceives, WholeFrame, Receives, Consumed, Delivers;
      var complete, last;
      ghost var rest;
      ok, header, len, rs := RecvHead();
      if ok {
        ghost var head, calls := rs, old(rx.calls);
        complete, last, rest := RecvPayload(len, 1);
        Finished(header, len, head, rest, complete, last);
        AppendAssoc(calls, head, rest);
        AppendAssoc(Consumed(head), Consumed(rest), rx.incoming);
        rs := head + rest;
        ok := complete && last == len;
        if ok {
          assert msgBuf[..] == rs[2].bytes;
        }
      }
    }

    /** The header and the length. */
    method RecvHead() returns (ok: bool, header: byte, len: nat, ghost rs: seq<RecvResult>)
      modifies this`connOpen, this`readEagain, rx
      ensures rx.calls == old(rx.calls) + rs && old(rx.incoming) == Consumed(rs) + rx.incoming
      ensures ok ==> connOpen && old(connOpen) && Head(header, len, rs)
      ensures !ok ==> (if old(connOpen) then FrameReceives(rs) else rs == []) && !WholeFrame(rs)
    {
      hide FrameReceives, WholeFrame, Consumed;
      ok, header, len := false, 0, 0;
      var h, l;
      ghost var r0, r1;
      h, r0 := TryRecv(1);
      rs := Called(r0);
      ConsumedOf(r0, r0);
      if h == [] || !HeaderOk(h[0]) {
        NoHead(r0, r0);
        return;
      }
      l, r1 := TryRecv(2);
      AppendAssoc(old(rx.calls), [r0], [r1]);
      AppendAssoc(BytesOf(r0), BytesOf(r1), rx.incoming);
      rs := [r0, r1];
      ConsumedOf(r0, r1);
      if l == [] {
        NoHead(r0, r1);
        return;
      }
      ok, header, len := true, h[0], LenOf(l);
    }

    /** A closed channel is offered nothing, and so is an open one no bytes; otherwise the
        flags follow what one send came to. */
    method TrySend(bytes: seq<byte>) returns (n: nat, ghost r: D.SendResult)
      modifies this`connOpen, this`writeEagain, tx
      ensures if old(connOpen) then D.Takes(|bytes|, r) else r == D.Skipped
      ensures tx.calls == old(tx.calls) + DO.Called(r)
      ensures n == D.Count(r) <= |bytes| && tx.wire == old(tx.wire) + bytes[..n]
      ensures connOpen <==> old(connOpen) && !r.Refused?
      ensures writeEagain == if r.Skipped? then old(writeEagain) else r.Busy?
    {
      r := D.Skipped;
      if !connOpen || bytes == [] {
        return 0, r;
      }
      var sent := tx.Send(bytes);
      if sent.Refused? {
        connOpen := false;
      }
      writeEagain := sent.Busy?;
      n, r := D.Count(sent), sent;
    }

    /** True exactly when the whole encoding left; otherwise a proper prefix of it did,
        and nothing will send the rest. It gives up only at a send that took less than it
        was offered. */
    method SendFrame(f: Frame, len: seq<byte>) returns (ok: bool, ghost rs: seq<D.SendResult>)
      requires WellFormed(f) && len == BigEndian(|f.msg|)
      modifies this`connOpen, this`writeEagain, tx
      ensures tx.calls == old(tx.calls) + rs && (if old(connOpen) then FrameSends(|f.msg|, rs) else rs == [])
      ensures ok <==> old(connOpen) && rs == [D.Accepted(1), D.Accepted(2)] + if f.msg == [] then [] else [D.Accepted(|f.msg|)]
      ensures ok <==> tx.wire == old(tx.wire) + Encode(f)
      ensures !ok ==> old(tx.wire) <= tx.wire && tx.wire[|old(tx.wire)|..] < Encode(f)
    {
      hide Encode;
      ghost var start, r := tx.wire, D.Skipped;
      var n;
      n, r := TrySend([f.header]);
      rs := DO.Called(r);
      SentSoFar(start, f, n);
      if n != 1 {
        return false, rs;
      }
      n, r := TrySend(len);
      rs := [D.Accepted(1), r];
      SentSoFar(start, f, 1 + n);
      if n != 2 {
        return false, rs;
      }
      n, r := TrySend(f.msg);
      rs := [D.Accepted(1), D.Accepted(2)] + DO.Called(r);
      SentSoFar(start, f, 3 + n);
      ok := n == |f.msg|;
    }
  }

  /** The first `n` bytes of the encoding, in the pieces they are sent in, and what follows
      for the wire. */
  lemma SentSoFar(start: seq<byte>, f: Frame, n: nat)
    requires WellFormed(f) && n <= 3 + |f.msg|
    ensures var len, wire := BigEndian(|f.msg|), start + Encode(f)[..n];
            && (n <= 1 ==> start + [f.header][..n] == wire)
            && (1 <= n <= 3 ==> start + [f.header][..1] + len[..n - 1] == wire)
            && (3 <= n ==> start + [f.header][..1] + len[..2] + f.msg[..n - 3] == wire)
            && (n == |Encode(f)| <==> wire == start + Encode(f))
            && (n < |Encode(f)| ==> start <= wire && wire[|start|..] < Encode(f))
  {
    var e, wire := Encode(f), start + Encode(f)[..n];
    assert wire[|start|..] == e[..n];
    assert (start + e)[|start|..] == e;
  }
}
