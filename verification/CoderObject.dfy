/** The coders as objects: one growing buffer per use, overwritten by every call, with
    frames that point straight into it; and the copy that shields a queued frame. */
module CoderObject {
  import opened Options
  import opened Wire
  import opened Coding
  import opened FrameMemory

  /** std::vector: shrinking and growing within the capacity keep the storage, growing
      beyond it moves the bytes to new storage. */
  class ByteVector {
    var data: array<byte>
    var size: nat

    ghost predicate Valid()
      reads this
    {
      size <= data.Length
    }

    constructor ()
      ensures Valid() && size == 0 && fresh(data)
    {
      data, size := new byte[0], 0;
    }

    /** resize, then the given bytes from `offset` on. */
    method Put(offset: nat, bytes: seq<byte>)
      requires Valid() && offset <= size
      modifies this, data
      ensures Valid() && size == offset + |bytes|
      ensures data == old(data) || fresh(data)
      ensures offset + |bytes| <= old(data.Length) ==> data == old(data)
      ensures data[..size] == old(data[..offset]) + bytes
    {
      var n := offset + |bytes|;
      if n > data.Length {
        var bigger := new byte[n];
        forall i | 0 <= i < offset {
          bigger[i] := data[i];
        }
        data := bigger;
      }
      size := n;
      forall i | 0 <= i < |bytes| {
        data[offset + i] := bytes[i];
      }
      assert data[..offset] == old(data[..offset]);
      assert data[offset..n] == bytes by {
        forall i | 0 <= i < |bytes| ensures data[offset..n][i] == bytes[i] {
          assert data[offset + i] == bytes[i];
        }
      }
    }
  }

  /** What a frame shows: its bytes as a value. */
  ghost function Shown(f: PFrame): Frame
    reads f, f.msg
    requires Showable(f)
  {
    Frame(f.header, f.Bytes())
  }

  ghost predicate Showable(f: PFrame)
    reads f
  {
    f.len == 0 || (f.msg != null && f.len <= f.msg.Length)
  }

  /** The plain coder: its frames point straight into its one buffer. */
  class MessageCoder {
    const frameBytes: ByteVector

    ghost predicate Valid()
      reads this, frameBytes
    {
      frameBytes.Valid()
    }

    constructor ()
      ensures Valid() && fresh(frameBytes) && fresh(frameBytes.data)
    {
      frameBytes := new ByteVector();
    }

    method Decode(frame: PFrame) returns (body: seq<byte>)
      requires Showable(frame)
      ensures forall a :: DecodeBody(a, Plain, Shown(frame)) == Some(body)
    {
      body := if frame.len == 0 then [] else frame.msg[..frame.len];
    }

    /** A message over 65535 bytes leaves frame and buffer as they were; for any other
        the frame gets the plain header and shows exactly the message. */
    method Encode(frame: PFrame, body: seq<byte>) returns (ok: bool)
      requires Valid()
      modifies frame`header, frame`len, frame`msg, frameBytes, frameBytes.data
      ensures Valid() && (frameBytes.data == old(frameBytes.data) || fresh(frameBytes.data))
      ensures ok <==> |body| <= MAX_BODY
      ensures ok ==> Showable(frame) && frame.msg == frameBytes.data && Shown(frame) == Frame(0xF0, body)
      ensures !ok ==> frame.header == old(frame.header) && frame.len == old(frame.len) && frame.msg == old(frame.msg)
      ensures !ok ==> frameBytes.data == old(frameBytes.data) && frameBytes.data[..] == old(frameBytes.data[..])
    {
      if |body| > MAX_BODY {
        return false;
      }
      frameBytes.Put(0, body);
      assert frameBytes.data[..frameBytes.size] == body;
      frame.header, frame.len, frame.msg := 0xF0, frameBytes.size, frameBytes.data;
      ok := true;
    }
  }

  class EncrMessageCoder {
    const aead: Aead
    const key: Key
    const base: MessageCoder
    const msgBuf: ByteVector

    ghost predicate Valid()
      reads this, base, base.frameBytes, msgBuf
    {
      base.frameBytes != msgBuf && base.Valid() && msgBuf.Valid() && base.frameBytes.data != msgBuf.data
    }

    constructor (aead: Aead, key: Key)
      ensures Valid() && this.aead == aead && this.key == key
      ensures fresh(base) && fresh(base.frameBytes) && fresh(msgBuf)
      ensures fresh(base.frameBytes.data) && fresh(msgBuf.data)
    {
      this.aead, this.key := aead, key;
      base := new MessageCoder();
      msgBuf := new ByteVector();
    }

    /** The vector goes first, then the ciphertext made with it. */
    method FillSealed(plain: seq<byte>, iv: seq<byte>)
      requires msgBuf.Valid() && |iv| == IV_SIZE
      modifies msgBuf, msgBuf.data
      ensures msgBuf.Valid() && (msgBuf.data == old(msgBuf.data) || fresh(msgBuf.data))
      ensures msgBuf.data[..msgBuf.size] == iv + aead.seal(key, iv, plain)
    {
      msgBuf.Put(0, iv);
      assert msgBuf.data[..msgBuf.size] == iv;
      var sealed := aead.seal(key, msgBuf.data[..IV_SIZE], plain);
      msgBuf.Put(IV_SIZE, sealed);
    }

    /** The frame points into the coder's buffer and shows what the coding function
        says, cut off at its 16-bit length. */
    method Encode(frame: PFrame, body: seq<byte>, iv: seq<byte>) returns (ok: bool)
      requires Valid() && |iv| == IV_SIZE
      modifies frame`header, frame`len, frame`msg, base.frameBytes, base.frameBytes.data, msgBuf, msgBuf.data
      ensures Valid()
      ensures base.frameBytes.data == old(base.frameBytes.data) || fresh(base.frameBytes.data)
      ensures msgBuf.data == old(msgBuf.data) || fresh(msgBuf.data)
      ensures ok <==> EncodeBody(aead, Sealed(key), iv, body).Some?
      ensures ok ==> Showable(frame) && frame.msg == msgBuf.data &&
                     EncodeBody(aead, Sealed(key), iv, body) == Some(Shown(frame))
      ensures !ok ==> frame.header == old(frame.header) && frame.len == old(frame.len) && frame.msg == old(frame.msg)
      ensures !ok ==> msgBuf.data == old(msgBuf.data) && msgBuf.data[..] == old(msgBuf.data[..])
    {
      var plaintext := new PFrame.Default();
      ok := base.Encode(plaintext, body);
      if !ok {
        return;
      }
      assert plaintext.msg[..plaintext.len] == body;
      FillSealed(plaintext.msg[..plaintext.len], iv);
      frame.header := 0xF1;
      frame.len := Narrow(msgBuf.size);
      frame.msg := msgBuf.data;
      assert frame.msg[..frame.len] == msgBuf.data[..msgBuf.size][..frame.len];
    }

    /** The same buffer serves decoding; the frame may point into it. The bytes handed
        to the parser are those of the frame as it was, and a frame in the buffer still
        points at its storage afterwards. */
    method Decode(frame: PFrame) returns (body: Option<seq<byte>>)
      requires Valid() && Showable(frame)
      modifies msgBuf, msgBuf.data
      ensures Valid()
      ensures msgBuf.data == old(msgBuf.data) || fresh(msgBuf.data)
      ensures AeadLaws(aead) && frame.msg == old(msgBuf.data) ==> msgBuf.data == old(msgBuf.data)
      ensures body == DecodeBody(aead, Sealed(key), old(Shown(frame)))
    {
      if frame.len <= IV_SIZE || frame.header != 0xF1 {
        return None;
      }
      ghost var shown := frame.Bytes();
      var iv := frame.msg[..IV_SIZE];
      var cipher := frame.msg[IV_SIZE..frame.len];
      assert iv == shown[..IV_SIZE] && cipher == shown[IV_SIZE..];
      var plain := aead.open(key, iv, cipher);
      if plain.None? {
        return None;
      }
      assert AeadLaws(aead) ==> |aead.seal(key, iv, plain.value)| == |plain.value| + aead.tag;
      msgBuf.Put(0, plain.value);
      assert msgBuf.data[..msgBuf.size] == plain.value;
      body := Some(msgBuf.data[..Narrow(msgBuf.size)]);
      assert body.value == plain.value[..Narrow(|plain.value|)];
    }

    /** Decoding what was just encoded, in place: the message comes back exactly when
        it fits with its vector and tag. */
    method Echo(body: seq<byte>, iv: seq<byte>) returns (back: Option<seq<byte>>)
      requires Valid() && |iv| == IV_SIZE && AeadLaws(aead) && |body| <= MAX_BODY
      modifies base.frameBytes, base.frameBytes.data, msgBuf, msgBuf.data
      ensures Valid()
      ensures back == Some(body) <==> |body| + IV_SIZE + aead.tag <= MAX_BODY
    {
      var frame := new PFrame.Default();
      CodingExact(aead, Sealed(key), iv, body);
      var ok := Encode(frame, body, iv);
      back := Decode(frame);
    }
  }

  // ---------------------------------------------------------------- the queue

  /** Where responses wait for the event loop; writeFrame queues a copy. */
  class FrameSink {
    var queue: seq<PFrame>
    const mem: Memory

    constructor ()
      ensures queue == [] && fresh(mem) && Holds([]) && forall busy :: Shielded(busy)
    {
      queue := [];
      mem := new Memory();
    }

    /** Every queued frame owns a buffer outside `busy`. */
    ghost predicate Shielded(busy: set<array<byte>>)
      reads this, queue
    {
      forall i | 0 <= i < |queue| :: Showable(queue[i]) && queue[i].hasDynamicData && queue[i].msg !in busy
    }

    /** The queue holds just these frames. */
    ghost predicate Holds(frames: seq<Frame>)
      reads this, queue, set f | f in queue :: f.msg
    {
      && |queue| == |frames|
      && forall i | 0 <= i < |queue| :: Showable(queue[i]) && Shown(queue[i]) == frames[i]
    }

    method WriteFrame(frame: PFrame, ghost busy: set<array<byte>>, ghost queued: seq<Frame>)
      requires Shielded(busy) && Showable(frame) && frame.msg in busy && Holds(queued)
      modifies this, mem
      ensures Shielded(busy)
      ensures |queue| == |old(queue)| + 1 && queue[..|old(queue)|] == old(queue)
      ensures fresh(queue[|old(queue)|]) && Holds(queued + [old(Shown(frame))])
    {
      var copy := new PFrame.Copy(frame, mem, busy);
      queue := queue + [copy];
    }
  }

  /** The two coders of a session and every buffer they overwrite. */
  class Coders {
    const plain: MessageCoder
    const sealing: EncrMessageCoder

    ghost predicate Valid()
      reads this, plain, plain.frameBytes, sealing, sealing.base, sealing.base.frameBytes, sealing.msgBuf
    {
      && plain.Valid() && sealing.Valid()
      && plain.frameBytes != sealing.base.frameBytes && plain.frameBytes != sealing.msgBuf
      && plain.frameBytes.data != sealing.base.frameBytes.data && plain.frameBytes.data != sealing.msgBuf.data
    }

    ghost function Vectors(): set<ByteVector>
      reads this, plain, sealing, sealing.base
    {
      {plain.frameBytes, sealing.base.frameBytes, sealing.msgBuf}
    }

    ghost function Buffers(): set<array<byte>>
      reads this, plain, plain.frameBytes, sealing, sealing.base, sealing.base.frameBytes, sealing.msgBuf
    {
      {plain.frameBytes.data, sealing.base.frameBytes.data, sealing.msgBuf.data}
    }

    constructor (plain: MessageCoder, sealing: EncrMessageCoder)
      requires plain.Valid() && sealing.Valid()
      requires plain.frameBytes !in {sealing.base.frameBytes, sealing.msgBuf}
      requires plain.frameBytes.data !in {sealing.base.frameBytes.data, sealing.msgBuf.data}
      ensures Valid() && this.plain == plain && this.sealing == sealing
    {
      this.plain, this.sealing := plain, sealing;
    }
  }

  /** What the worker may do later: encode a message with either coder, into a new frame;
      decode an incoming frame with the sealed coder (the plain one overwrites nothing),
      or the frame just encoded, in place; queue the frame just encoded. */
  datatype Later =
    | EncodePlain(body: seq<byte>)
    | EncodeSealed(body: seq<byte>, iv: seq<byte>)
    | DecodeIncoming(frame: PFrame)
    | DecodeInPlace
    | Write

  /** Vectors have their size, and incoming frames have buffers of their own. */
  ghost predicate Performable(script: seq<Later>, busy: set<array<byte>>)
    reads set x | x in script && x.DecodeIncoming? :: x.frame
  {
    forall x | x in script ::
      && (x.EncodeSealed? ==> |x.iv| == IV_SIZE)
      && (x.DecodeIncoming? ==> Showable(x.frame) && x.frame.msg !in busy)
  }

  /** The frame just encoded, unless the last thing done was something else, points into
      a coder's buffer. */
  ghost predicate Ready(last: PFrame?, coders: Coders, sink: FrameSink)
    reads last, sink, coders, coders.plain, coders.plain.frameBytes
    reads coders.sealing, coders.sealing.base, coders.sealing.base.frameBytes, coders.sealing.msgBuf
  {
    last != null ==> Showable(last) && last.msg in coders.Buffers() && last !in sink.queue
  }

  /** The frame at hand after a step, given the one before it. */
  function AtHand(aead: Aead, key: Key, last: Option<Frame>, step: Later): Option<Frame> {
    match step
    case EncodePlain(body) => EncodeBody(aead, Plain, [], body)
    case EncodeSealed(body, iv) => EncodeBody(aead, Sealed(key), iv, body)
    case Write => last
    case _ => None
  }

  function WrittenBy(last: Option<Frame>, step: Later): seq<Frame> {
    if step.Write? && last.Some? then [last.value] else []
  }

  /** What a script writes, each frame as it was encoded, and the frame at hand at the end. */
  function Written(aead: Aead, key: Key, script: seq<Later>): (r: (seq<Frame>, Option<Frame>)) {
    if script == [] then ([], None)
    else
      var before, step := Written(aead, key, script[..|script|-1]), script[|script|-1];
      (before.0 + WrittenBy(before.1, step), AtHand(aead, key, before.1, step))
  }

  /** The object, if there is one, shows the frame at hand. */
  ghost predicate Matches(last: PFrame?, f: Option<Frame>)
    reads last, if last == null then {} else {last.msg}
  {
    (last == null <==> f.None?) && (last != null ==> Showable(last) && f == Some(Shown(last)))
  }

  /** One of these steps; `just` is the frame just encoded, if any. As in the handlers,
      a frame is written only right after the encode that made it succeeded. */
  method Perform(coders: Coders, sink: FrameSink, last: PFrame?, step: Later,
                 ghost hand: Option<Frame>, ghost queued: seq<Frame>) returns (just: PFrame?)
    requires coders.Valid()
    requires sink.Shielded(coders.Buffers()) && Performable([step], coders.Buffers()) && Ready(last, coders, sink)
    requires Matches(last, hand) && sink.Holds(queued)
    modifies sink, sink.mem, coders.Vectors(), coders.Buffers()
    ensures coders.Valid() && forall a | a in coders.Buffers() :: a in old(coders.Buffers()) || fresh(a)
    ensures sink.Shielded(coders.Buffers()) && Ready(just, coders, sink)
    ensures old(sink.queue) <= sink.queue && sink.Holds(queued + WrittenBy(hand, step))
    ensures Matches(just, AtHand(coders.sealing.aead, coders.sealing.key, hand, step))
  {
    just := null;
    assert step in [step];
    match step {
      case EncodePlain(body) =>
        just := Plainly(coders, sink, body, queued);
      case EncodeSealed(body, iv) =>
        just := Sealing(coders, sink, body, iv, queued);
      case DecodeIncoming(frame) =>
        var body := coders.sealing.Decode(frame);
      case DecodeInPlace =>
        if last != null {
          var body := coders.sealing.Decode(last);
        }
      case Write =>
        if last != null {
          sink.WriteFrame(last, coders.Buffers(), queued);
        }
        just := last;
    }
  }

  /** A new frame for the message, or none if the message is too long. */
  method Plainly(coders: Coders, sink: FrameSink, body: seq<byte>, ghost queued: seq<Frame>) returns (just: PFrame?)
    requires coders.Valid() && sink.Shielded(coders.Buffers()) && sink.Holds(queued)
    modifies coders.plain.frameBytes, coders.plain.frameBytes.data
    ensures coders.Valid() && forall a | a in coders.Buffers() :: a in old(coders.Buffers()) || fresh(a)
    ensures sink.Shielded(coders.Buffers()) && Ready(just, coders, sink) && sink.Holds(queued)
    ensures Matches(just, EncodeBody(coders.sealing.aead, Plain, [], body))
  {
    var f := new PFrame.Default();
    var ok := coders.plain.Encode(f, body);
    just := if ok then f else null;
  }

  method Sealing(coders: Coders, sink: FrameSink, body: seq<byte>, iv: seq<byte>, ghost queued: seq<Frame>)
    returns (just: PFrame?)
    requires coders.Valid() && sink.Shielded(coders.Buffers()) && sink.Holds(queued) && |iv| == IV_SIZE
    modifies coders.Vectors(), coders.Buffers()
    ensures coders.Valid() && forall a | a in coders.Buffers() :: a in old(coders.Buffers()) || fresh(a)
    ensures sink.Shielded(coders.Buffers()) && Ready(just, coders, sink) && sink.Holds(queued)
    ensures Matches(just, EncodeBody(coders.sealing.aead, Sealed(coders.sealing.key), iv, body))
  {
    var f := new PFrame.Default();
    var ok := coders.sealing.Encode(f, body, iv);
    just := if ok then f else null;
  }

  /** Whatever encodes, decodes and further writes follow, a queued frame keeps its
      header, length and bytes; and what gets queued is what was encoded last. */
  method QueuedFramesAreIsolated(coders: Coders, sink: FrameSink, script: seq<Later>, ghost queued: seq<Frame>)
    requires coders.Valid() && sink.Holds(queued)
    requires sink.Shielded(coders.Buffers()) && Performable(script, coders.Buffers())
    modifies sink, sink.mem, coders.Vectors(), coders.Buffers()
    ensures coders.Valid() && sink.Shielded(coders.Buffers())
    ensures old(sink.queue) <= sink.queue
    ensures sink.Holds(queued + Written(coders.sealing.aead, coders.sealing.key, script).0)
  {
    hide Written, AtHand, WrittenBy, Matches, EncodeBody, FrameSink.Holds, FrameSink.Shielded, Ready;
    var last: PFrame? := null;
    ghost var aead, key := coders.sealing.aead, coders.sealing.key;
    ghost var added, hand := Starting(aead, key, script, last, queued);
    NothingReady(coders, sink);
    for n := 0 to |script|
      invariant coders.Valid() && forall a | a in coders.Buffers() :: a in old(coders.Buffers()) || fresh(a)
      invariant sink.Shielded(coders.Buffers()) && Ready(last, coders, sink) && old(sink.queue) <= sink.queue
      invariant (added, hand) == Written(aead, key, script[..n]) && Matches(last, hand) && sink.Holds(queued + added)
    {
      var step := script[n];
      WrittenOn(aead, key, script, n, queued);
      last := Perform(coders, sink, last, step, hand, queued + added);
      added, hand := added + WrittenBy(hand, step), AtHand(aead, key, hand, step);
    }
    assert script[..|script|] == script;
  }

  lemma Starting(aead: Aead, key: Key, script: seq<Later>, last: PFrame?, queued: seq<Frame>)
    returns (added: seq<Frame>, hand: Option<Frame>)
    requires last == null
    ensures (added, hand) == Written(aead, key, script[..0]) && Matches(last, hand) && queued + added == queued
  {
    added, hand := [], None;
  }

  lemma NothingReady(coders: Coders, sink: FrameSink)
    ensures Ready(null, coders, sink)
  {
  }

  lemma WrittenOn(aead: Aead, key: Key, script: seq<Later>, n: nat, queued: seq<Frame>)
    requires n < |script|
    ensures var r, step := Written(aead, key, script[..n]), script[n];
            && Written(aead, key, script[..n + 1]) == (r.0 + WrittenBy(r.1, step), AtHand(aead, key, r.1, step))
            && queued + r.0 + WrittenBy(r.1, step) == queued + (r.0 + WrittenBy(r.1, step))
  {
    assert script[..n + 1][..n] == script[..n];
  }
}
