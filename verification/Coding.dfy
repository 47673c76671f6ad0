/** The two message coders as functions on frames: plain, and sealed with an
    authenticated cipher under a fresh 16-byte initialisation vector. */
module Coding {
  import opened Options
  import opened Wire

  type Key = seq<byte>

  const IV_SIZE: nat := 16
  const MAX_BODY: nat := 65535

  /** An abstract authenticated cipher (section 7 of NIST SP 800-38D). */
  datatype Aead = Aead(
    seal: (Key, seq<byte>, seq<byte>) -> seq<byte>,
    open: (Key, seq<byte>, seq<byte>) -> Option<seq<byte>>,
    tag: nat)

  /** A ciphertext is longer by the tag, opens to what was sealed, and nothing else
      opens to it. */
  ghost predicate AeadLaws(a: Aead) {
    && 0 < a.tag
    && (forall k, iv, p :: |a.seal(k, iv, p)| == |p| + a.tag)
    && (forall k, iv, p :: a.open(k, iv, a.seal(k, iv, p)) == Some(p))
    && (forall k, iv, c :: a.open(k, iv, c).Some? ==> a.seal(k, iv, a.open(k, iv, c).value) == c)
  }

  datatype Mode = Plain | Sealed(key: Key)

  /** Storing a size in a 16-bit field. */
  function Narrow(n: nat): (m: nat)
    ensures m == n % 65536
    ensures m < 65536 && m <= n && (n < 65536 ==> m == n)
  {
    n % 65536
  }

  /** The frame for a serialized message; a message over 65535 bytes is refused. The
      frame shows as much of the coder's buffer as its 16-bit length says. */
  function EncodeBody(a: Aead, mode: Mode, iv: seq<byte>, body: seq<byte>): Option<Frame> {
    if |body| > MAX_BODY then None
    else match mode
         case Plain => Some(Frame(0xF0, body))
         case Sealed(key) =>
           var buf := iv + a.seal(key, iv, body);
           Some(Frame(0xF1, buf[..Narrow(|buf|)]))
  }

  /** The bytes that reach the message parser. The plain coder does not look at the
      header; the sealed one refuses a foreign header and a frame without ciphertext. */
  function DecodeBody(a: Aead, mode: Mode, f: Frame): Option<seq<byte>> {
    match mode
    case Plain => Some(f.msg)
    case Sealed(key) =>
      if |f.msg| <= IV_SIZE || f.header != 0xF1 then None
      else match a.open(key, f.msg[..IV_SIZE], f.msg[IV_SIZE..])
           case None => None
           case Some(p) => Some(p[..Narrow(|p|)])
  }

  function Overhead(a: Aead, mode: Mode): nat {
    if mode.Plain? then 0 else IV_SIZE + a.tag
  }

  lemma EncodedShape(a: Aead, mode: Mode, iv: seq<byte>, body: seq<byte>)
    requires AeadLaws(a) && |iv| == IV_SIZE && |body| <= MAX_BODY
    ensures var f := EncodeBody(a, mode, iv, body);
            && f.Some? && WellFormed(f.value)
            && f.value.header == (if mode.Plain? then 0xF0 else 0xF1)
            && |f.value.msg| == Narrow(|body| + Overhead(a, mode))
  {
  }

  /** The layout: plain bytes as they are; sealed ones behind the vector they were sealed
      with, cut off where the size no longer fits its 16 bits. */
  lemma EncodedLayout(a: Aead, key: Key, iv: seq<byte>, body: seq<byte>)
    requires AeadLaws(a) && |iv| == 16
    ensures EncodeBody(a, Plain, iv, body) == (if |body| <= 65535 then Some(Frame(0xF0, body)) else None)
    ensures var f := EncodeBody(a, Sealed(key), iv, body);
            && (f.Some? <==> |body| <= 65535)
            && (f.Some? ==>
                  && f.value.header == 0xF1 && f.value.msg <= iv + a.seal(key, iv, body)
                  && |f.value.msg| == (16 + |body| + a.tag) % 65536)
  {
  }

  /** Under a key exactly those frames open that are a vector and the bytes sealed with it. */
  lemma OpensOnlySealed(a: Aead, key: Key, f: Frame, body: seq<byte>)
    requires AeadLaws(a) && |f.msg| < 65536
    ensures DecodeBody(a, Sealed(key), f) == Some(body) <==>
              f.header == 0xF1 && |f.msg| > 16 && f.msg == f.msg[..16] + a.seal(key, f.msg[..16], body)
  {
    if |f.msg| > 16 {
      var iv, c := f.msg[..16], f.msg[16..];
      assert f.msg == iv + c;
      var p := a.open(key, iv, c);
      if p.Some? {
        assert a.seal(key, iv, p.value) == c && p.value[..|p.value|] == p.value;
      }
      if f.msg == iv + a.seal(key, iv, body) {
        assert a.seal(key, iv, body) == (iv + a.seal(key, iv, body))[16..] == c;
        assert a.open(key, iv, a.seal(key, iv, body)) == Some(body);
      }
    }
  }

  /** Decoding restores the encoded bytes if and only if message, initialisation vector
      and tag together fit the 16-bit length. */
  lemma CodingExact(a: Aead, mode: Mode, iv: seq<byte>, body: seq<byte>)
    requires AeadLaws(a) && |iv| == IV_SIZE && |body| <= MAX_BODY
    ensures var f := EncodeBody(a, mode, iv, body);
            f.Some? && (DecodeBody(a, mode, f.value) == Some(body) <==> |body| + Overhead(a, mode) <= MAX_BODY)
  {
    if mode.Sealed? {
      var c := a.seal(mode.key, iv, body);
      var f := EncodeBody(a, mode, iv, body).value;
      if |iv + c| < 65536 {
        assert a.open(mode.key, iv, c) == Some(body) && body[..|body|] == body;
        assert f.msg == iv + c && f.msg[..IV_SIZE] == iv && f.msg[IV_SIZE..] == c;
      } else if |f.msg| > IV_SIZE {
        Truncated(a, mode.key, f, body);
      }
    }
  }

  /** A shorter ciphertext cannot open to the same bytes. */
  lemma Truncated(a: Aead, key: Key, f: Frame, body: seq<byte>)
    requires AeadLaws(a) && IV_SIZE < |f.msg| < IV_SIZE + |body| + a.tag && |f.msg| < 65536
    ensures DecodeBody(a, Sealed(key), f) != Some(body)
  {
  }

  /** Other modes read other bytes: a plain frame never opens under a key. */
  lemma PlainNeverOpens(a: Aead, key: Key, iv: seq<byte>, body: seq<byte>)
    requires |body| <= MAX_BODY
    ensures DecodeBody(a, Sealed(key), EncodeBody(a, Plain, iv, body).value) == None
  {
  }
}
