/** The wire format: one header byte, a big-endian 16-bit length, the payload.
    `ParseFrames`/`ParseRest` are the reference reading of a whole byte stream;
    the resumable reader of the Framer module is proved against them. */
module Wire {

  newtype byte = b: int | 0 <= b < 256
  /** The 16-bit unsigned number whose high and low byte start `s`. */
  function Val(s: seq<byte>): (n: nat)
    requires |s| >= 2
    ensures n < 65536
  {
    256 * (s[0] as int) + s[1] as int
  }

  lemma ValInjective(s: seq<byte>, t: seq<byte>)
    requires |s| >= 2 && |t| >= 2
    ensures Val(s) == Val(t) <==> s[0] == t[0] && s[1] == t[1]
  {
  }

  lemma ValSurjective(n: nat)
    requires n < 65536
    ensures exists w: seq<byte> :: |w| == 2 && Val(w) == n
  {
    assert Val([(n / 256) as byte, (n % 256) as byte]) == n;
  }

  /** A 16-bit number in network byte order. */
  ghost function BigEndian(n: nat): (w: seq<byte>)
    requires n < 65536
    ensures |w| == 2 && Val(w) == n
  {
    ValSurjective(n);
    var w: seq<byte> :| |w| == 2 && Val(w) == n;
    w
  }

  datatype Frame = Frame(header: byte, msg: seq<byte>)

  /** The check `(header & 0xF0) == 0xF0`: the high four bits of a byte are set
      exactly when it is at least 0xF0. */
  predicate HeaderOk(b: byte) {
    0xF0 <= b
  }

  /** That is the masked comparison of the code, on the bits of the byte. */
  lemma HeaderMask(b: bv8)
    ensures HeaderOk(b as byte) <==> b & 0xF0 == 0xF0
  {
    var n := b as int;
    assert n >= 240 <==> b >= 0xF0;
  }

  predicate WellFormed(f: Frame) {
    HeaderOk(f.header) && |f.msg| < 65536
  }

  /** What a peer may put on the wire. */
  predicate AllWellFormed(fs: seq<Frame>) {
    forall i | 0 <= i < |fs| :: WellFormed(fs[i])
  }

  ghost function Encode(f: Frame): (w: seq<byte>)
    requires WellFormed(f)
    ensures |w| == 3 + |f.msg|
  {
    [f.header] + BigEndian(|f.msg|) + f.msg
  }

  /** On the wire: the header, the high and the low byte of the length, the payload. */
  lemma EncodedBytes(f: Frame)
    requires WellFormed(f)
    ensures var w := Encode(f);
            && w[0] == f.header && w[1] as int == |f.msg| / 256 && w[2] as int == |f.msg| % 256 && w[3..] == f.msg
  {
  }

  ghost function EncodeAll(fs: seq<Frame>): seq<byte>
    requires AllWellFormed(fs)
  {
    if fs == [] then [] else Encode(fs[0]) + EncodeAll(fs[1..])
  }

  /** The size of the frame a stream starts with, once its length field is there. */
  function FrameSize(s: seq<byte>): nat
    requires |s| >= 3
  {
    3 + Val(s[1..])
  }

  predicate StartsWithFrame(s: seq<byte>) {
    |s| >= 3 && HeaderOk(s[0]) && |s| >= FrameSize(s)
  }

  function FirstFrame(s: seq<byte>): Frame
    requires StartsWithFrame(s)
  {
    Frame(s[0], s[3..FrameSize(s)])
  }

  /** A stream from which no frame can be read before more bytes come. */
  predicate Unfinished(s: seq<byte>) {
    s == [] || (HeaderOk(s[0]) && !StartsWithFrame(s))
  }

  /** The complete frames of a stream. A byte that cannot start a frame is
      skipped where a header is due; an unfinished last frame yields nothing. */
  function ParseFrames(s: seq<byte>): (fs: seq<Frame>)
    decreases |s|
  {
    if StartsWithFrame(s) then [FirstFrame(s)] + ParseFrames(s[FrameSize(s)..])
    else if Unfinished(s) then []
    else ParseFrames(s[1..])
  }

  /** The bytes of the unfinished last frame. */
  function ParseRest(s: seq<byte>): seq<byte>
    decreases |s|
  {
    if StartsWithFrame(s) then ParseRest(s[FrameSize(s)..])
    else if Unfinished(s) then s
    else ParseRest(s[1..])
  }

  /** Reading can be resumed: the frames of a longer stream are those of its
      first part followed by those of the unfinished bytes and the new ones. */
  lemma {:induction false} ParseAppend(a: seq<byte>, b: seq<byte>)
    ensures ParseFrames(a + b) == ParseFrames(a) + ParseFrames(ParseRest(a) + b)
    ensures ParseRest(a + b) == ParseRest(ParseRest(a) + b)
    decreases |a|
  {
    if StartsWithFrame(a) {
      var n := FrameSize(a);
      FirstFrameAppend(a, b);
      ParseAppend(a[n..], b);
    } else if Unfinished(a) {
    } else {
      assert (a + b)[1..] == a[1..] + b;
      ParseAppend(a[1..], b);
    }
  }

  lemma ParsePrefix(a: seq<byte>, s: seq<byte>)
    requires a <= s
    ensures ParseFrames(a) <= ParseFrames(s)
  {
    assert s == a + s[|a|..];
    ParseAppend(a, s[|a|..]);
  }

  lemma FirstFrameAppend(a: seq<byte>, b: seq<byte>)
    requires StartsWithFrame(a)
    ensures StartsWithFrame(a + b) && FrameSize(a + b) == FrameSize(a)
    ensures FirstFrame(a + b) == FirstFrame(a)
    ensures (a + b)[FrameSize(a)..] == a[FrameSize(a)..] + b
  {
  }

  lemma EncodeStarts(f: Frame, tail: seq<byte>)
    requires WellFormed(f)
    ensures var s := Encode(f) + tail;
            StartsWithFrame(s) && FirstFrame(s) == f && FrameSize(s) == |Encode(f)| && s[FrameSize(s)..] == tail
  {
  }

  lemma ParseOne(f: Frame, tail: seq<byte>)
    requires WellFormed(f)
    ensures ParseFrames(Encode(f) + tail) == [f] + ParseFrames(tail)
    ensures ParseRest(Encode(f) + tail) == ParseRest(tail)
  {
  }

  lemma ParseUnfinished(s: seq<byte>)
    requires Unfinished(s)
    ensures ParseFrames(s) == [] && ParseRest(s) == s
  {
  }

  /** Where a header is due, bytes whose high four bits are not all set are passed over. */
  lemma {:induction false} OthersAreSkipped(g: seq<byte>, s: seq<byte>)
    requires forall i | 0 <= i < |g| :: g[i] as int / 16 != 15
    ensures ParseFrames(g + s) == ParseFrames(s) && ParseRest(g + s) == ParseRest(s)
  {
    if g == [] {
      assert g + s == s;
    } else {
      assert (g + s)[1..] == g[1..] + s;
      OthersAreSkipped(g[1..], s);
    }
  }

  /** The parser inverts the encoder on every frame list. */
  lemma {:induction false} ParseInvertsEncode(fs: seq<Frame>)
    requires AllWellFormed(fs)
    ensures ParseFrames(EncodeAll(fs)) == fs
    ensures ParseRest(EncodeAll(fs)) == []
  {
    if fs == [] {
    } else {
      ParseInvertsEncode(fs[1..]);
      ParseOne(fs[0], EncodeAll(fs[1..]));
    }
  }

  lemma {:induction false} EncodeAllAppend(fs: seq<Frame>, f: Frame)
    requires AllWellFormed(fs) && WellFormed(f)
    ensures EncodeAll(fs + [f]) == EncodeAll(fs) + Encode(f)
  {
    if fs == [] {
      assert EncodeAll([f]) == Encode(f) + EncodeAll([]);
    } else {
      assert (fs + [f])[1..] == fs[1..] + [f];
      EncodeAllAppend(fs[1..], f);
    }
  }

  /** The bytes kept are a suffix of the stream that a fresh reader would keep too. */
  lemma {:induction false} RestIsUnfinished(s: seq<byte>)
    ensures var r := ParseRest(s);
            Unfinished(r) && |r| <= |s| && s[|s| - |r|..] == r
    decreases |s|
  {
    if StartsWithFrame(s) {
      RestIsUnfinished(s[FrameSize(s)..]);
    } else if Unfinished(s) {
    } else {
      RestIsUnfinished(s[1..]);
    }
  }
}
