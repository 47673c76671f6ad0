/** The client object: connect and authenticate as straight-line exchanges over a
    blocking frame channel. */
module ClientObject {
  import opened Options
  import opened Wire
  import opened Coding
  import opened Session
  import A = Agreement

  /** What a call of the frame channel came to. */
  datatype Call = Wrote(frame: Frame, ok: bool) | Fetched(got: Option<Frame>)

  /** A frame channel. A write or a read may fail; frames are read in order. */
  class FrameIO {
    var inbox: seq<Frame>

    /** Every call, for specification only. */
    ghost var calls: seq<Call>

    method WriteFrame(f: Frame) returns (ok: bool)
      modifies this`calls
      ensures calls == old(calls) + [Wrote(f, ok)]
    {
      ok := *;
      calls := calls + [Wrote(f, ok)];
    }

    method ReadFrame() returns (f: Option<Frame>)
      modifies this`inbox, this`calls
      ensures calls == old(calls) + [Fetched(f)]
      ensures old(inbox) == (if f.Some? then [f.value] else []) + inbox
    {
      var arrived: bool := *;
      f := None;
      if arrived && inbox != [] {
        f := Some(inbox[0]);
        inbox := inbox[1..];
      }
      calls := calls + [Fetched(f)];
    }
  }

  /** The calls of one exchange: none for a message that cannot be encoded, the write of
      its frame, and after a write that succeeds the read of the reply. */
  predicate Exchanged(o: A.ClientOut, cs: seq<Call>) {
    if o.sent == [] then cs == []
    else cs == [Wrote(o.sent[0].frame, false)]
         || (|cs| == 2 && cs[0] == Wrote(o.sent[0].frame, true) && cs[1].Fetched?)
  }

  function ReplyOf(cs: seq<Call>): Option<Frame> {
    if |cs| == 2 && cs[1].Fetched? then cs[1].got else None
  }

  /** A connect over an open socket: one exchange, then a second one if the reply to the
      first came and the client's state machine has an answer to it. */
  ghost predicate Connecting(w: World, coder: Mode, priv: nat, iv: seq<byte>, iv2: seq<byte>,
                             cs: seq<Call>, ok: bool, after: Mode) {
    var first := if |cs| <= 2 then cs else cs[..2];
    var asked := A.ClientConnect(w, A.Client(coder, A.Idle, false), priv, iv);
    && Exchanged(asked, first)
    && match ReplyOf(first)
       case None => cs == first && !ok && after == coder
       case Some(reply) =>
         var keyed := A.ClientReceive(w, asked.client, reply, iv2);
         && Exchanged(keyed, cs[2..]) && after == keyed.client.coder
         && match ReplyOf(cs[2..])
            case None => !ok
            case Some(last) => ok <==> A.ClientReceive(w, keyed.client, last, iv2).client.stage == A.Ready
  }

  /** The client's state machine at the answer to the key request. */
  lemma KeyedIs(w: World, coder: Mode, priv: nat, reply: Frame, iv: seq<byte>)
    ensures var keyed := A.ClientReceive(w, A.Client(coder, A.AwaitKex(priv), false), reply, iv);
            match Decode(w, coder, reply, w.parseConnResponse)
            case None => keyed.sent == [] && keyed.client.coder == coder
            case Some(response) =>
              match A.KexKey(w, priv, response)
              case None => keyed.sent == [] && keyed.client.coder == coder
              case Some(key) =>
                keyed == A.Send(w, A.Client(Sealed(key), A.AwaitKex(priv), false), iv, w.serConnRequest(A.GRANT_REQUEST),
                                A.AwaitGrant, A.Failed)
  {
  }

  lemma Joined(w: World, coder: Mode, priv: nat, iv: seq<byte>, iv2: seq<byte>,
               first: seq<Call>, second: seq<Call>, ok: bool, after: Mode)
    requires |first| == 2 && ReplyOf(first).Some?
    requires var asked := A.ClientConnect(w, A.Client(coder, A.Idle, false), priv, iv);
             var keyed := A.ClientReceive(w, asked.client, ReplyOf(first).value, iv2);
             && Exchanged(asked, first) && Exchanged(keyed, second) && after == keyed.client.coder
             && match ReplyOf(second)
                case None => !ok
                case Some(last) => ok <==> A.ClientReceive(w, keyed.client, last, iv2).client.stage == A.Ready
    ensures Connecting(w, coder, priv, iv, iv2, first + second, ok, after)
  {
    assert (first + second)[..2] == first && (first + second)[2..] == second;
  }

  /** And at the answer to the grant request. */
  lemma GrantedIs(w: World, coder: Mode, reply: Frame, iv: seq<byte>)
    ensures A.ClientReceive(w, A.Client(coder, A.AwaitGrant, false), reply, iv).client.stage == A.Ready <==>
              var response := Decode(w, coder, reply, w.parseConnResponse); response.Some? && response.value.status == Ok
  {
  }

  class Client {
    const w: World
    const io: FrameIO
    var coder: Mode
    var isConnected: bool
    var isAuthenticated: bool

    constructor (w: World, io: FrameIO)
      ensures this.w == w && this.io == io && coder == Plain && !isConnected && !isAuthenticated
    {
      this.w, this.io := w, io;
      coder, isConnected, isAuthenticated := Plain, false, false;
    }

    /** Writes the encoded message, or nothing if it cannot be encoded. */
    method SendMsg(body: seq<byte>, iv: seq<byte>) returns (ok: bool)
      modifies io`calls
      ensures match EncodeBody(w.aead, coder, iv, body)
              case None => !ok && io.calls == old(io.calls)
              case Some(frame) => io.calls == old(io.calls) + [Wrote(frame, ok)]
    {
      var frame := EncodeBody(w.aead, coder, iv, body);
      if frame.None? { return false; }
      ok := io.WriteFrame(frame.value);
    }

    /** Reads one frame; it fails only if that does or the frame does not decode. */
    method FetchMsg<T>(parse: seq<byte> -> Option<T>) returns (msg: Option<T>, ghost got: Option<Frame>)
      modifies io`inbox, io`calls
      ensures io.calls == old(io.calls) + [Fetched(got)]
      ensures msg == if got.None? then None else Decode(w, coder, got.value, parse)
    {
      var frame := io.ReadFrame();
      got := frame;
      if frame.None? { return None, got; }
      msg := Decode(w, coder, frame.value, parse);
    }

    /** True exactly when both requests went out, both replies came, and the state
        machine of the agreement model accepts them; then the coder is sealed under the
        agreed key. It gives up only at a failed call, a message that cannot be encoded
        or a reply the machine refuses. The connected flag is set as soon as the socket
        is. */
    method Connect(reachable: bool, priv: nat, iv: seq<byte>, iv2: seq<byte>) returns (ok: bool, ghost cs: seq<Call>)
      modifies this, io
      ensures io.calls == old(io.calls) + cs && isAuthenticated == old(isAuthenticated)
      ensures isConnected <==> old(isConnected) || reachable
      ensures if old(isConnected) || reachable
              then Connecting(w, old(coder), priv, iv, iv2, cs, ok, coder)
              else cs == [] && !ok && coder == old(coder)
      ensures ok ==>
                var asked := EncodeBody(w.aead, old(coder), iv, w.serConnRequest(A.KexRequest(w, priv)));
                var grant := EncodeBody(w.aead, coder, iv2, w.serConnRequest(A.GRANT_REQUEST));
                && coder.Sealed? && asked.Some? && grant.Some? && |cs| == 4
                && cs[0] == Wrote(asked.value, true) && ReplyOf(cs[..2]).Some?
                && cs[2] == Wrote(grant.value, true) && ReplyOf(cs[2..]).Some?
    {
      cs := [];
      if !isConnected && !reachable {
        return false, cs;
      }
      isConnected := true;
      hide A.ClientReceive, Decode, EncodeBody, A.KexKey;
      ghost var start, before := io.calls, coder;
      var sent := SendMsg(w.serConnRequest(A.KexRequest(w, priv)), iv);
      cs := io.calls[|start|..];
      if !sent { return false, cs; }
      var answer;
      ghost var got;
      answer, got := FetchMsg(w.parseConnResponse);
      cs := cs + [Fetched(got)];
      if got.Some? {
        KeyedIs(w, coder, priv, got.value, iv2);
      }
      if answer.None? || answer.value.status != Ok || answer.value.kex.None? {
        return false, cs;
      }
      var kex := answer.value.kex.value;
      if !kex.ecdh || |kex.pkey| != PUBLIC_KEYLENGTH {
        return false, cs;
      }
      var agreedKey := w.agree(priv, kex.pkey);
      if agreedKey.None? {
        return false, cs;
      }
      coder := Sealed(agreedKey.value);
      ghost var rest;
      ok, rest := RequestGrant(A.AwaitKex(priv), iv2);
      Joined(w, before, priv, iv, iv2, cs, rest, ok, coder);
      cs := cs + rest;
    }

    /** The second half of connect, under the new coder. */
    method RequestGrant(ghost stage: A.Stage, iv: seq<byte>) returns (ok: bool, ghost cs: seq<Call>)
      modifies io
      ensures io.calls == old(io.calls) + cs
      ensures var waiting, grant := A.Client(coder, stage, false), w.serConnRequest(A.GRANT_REQUEST);
              var asked := A.Send(w, waiting, iv, grant, A.AwaitGrant, A.Failed);
              && Exchanged(asked, cs)
              && (ok <==> ReplyOf(cs).Some? && A.ClientReceive(w, asked.client, ReplyOf(cs).value, iv).client.stage == A.Ready)
    {
      hide A.ClientReceive, Decode, EncodeBody;
      ghost var start := io.calls;
      var sent := SendMsg(w.serConnRequest(A.GRANT_REQUEST), iv);
      cs := io.calls[|start|..];
      if !sent { return false, cs; }
      var answer;
      ghost var last;
      answer, last := FetchMsg(w.parseConnResponse);
      cs := cs + [Fetched(last)];
      if last.Some? {
        GrantedIs(w, coder, last.value, iv);
      }
      ok := answer.Some? && answer.value.status == Ok;
    }

    /** True exactly when the request went out and the reply says accepted. */
    method Authenticate(username: seq<byte>, credential: seq<byte>, iv: seq<byte>) returns (ok: bool)
      modifies this`isAuthenticated, io
      ensures old(io.calls) <= io.calls && (isAuthenticated <==> old(isAuthenticated) || ok)
      ensures var request := AuthRequest(AuthSupply, username, credential);
              var asked := A.ClientAuthenticate(w, A.Client(coder, A.Ready, false), request, iv);
              var cs := io.calls[|old(io.calls)|..];
              && Exchanged(asked, cs)
              && (ok <==> ReplyOf(cs).Some? && A.ClientReceive(w, asked.client, ReplyOf(cs).value, iv).client.authenticated)
    {
      var request := AuthRequest(AuthSupply, username, credential);
      var sent := SendMsg(w.serAuthRequest(request), iv);
      if !sent { return false; }
      var answer;
      ghost var got;
      answer, got := FetchMsg(w.parseAuthResponse);
      if answer.None? || answer.value.status != AuthAccept { return false; }
      isAuthenticated := true;
      ok := true;
    }
  }
}
