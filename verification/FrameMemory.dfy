/** PFrame's manual buffer ownership (IFrameIO.cpp) on a real heap. */
module FrameMemory {
  import opened Wire

  /** The heap of payload buffers: `live` holds what `new[]` gave and `delete[]` has not
      taken back. Deleting anything else is excluded by the precondition. */
  class Memory {
    ghost var live: set<array<byte>>

    constructor ()
      ensures live == {}
    {
      live := {};
    }

    method New(n: nat) returns (a: array<byte>)
      modifies this
      ensures fresh(a) && a.Length == n && live == old(live) + {a}
    {
      a := new byte[n];
      live := live + {a};
    }

    method Delete(ghost a: array<byte>)
      requires a in live
      modifies this
      ensures live == old(live) - {a}
    {
      live := live - {a};
    }
  }

  /** A frame: `hasDynamicData` says that it owns its buffer. A frame without it may
      point into somebody else's buffer, or at one that is gone. */
  class PFrame {
    var header: byte
    var len: nat
    var msg: array?<byte>
    var hasDynamicData: bool

    /** The pointed-to memory holds at least `len` bytes and, if a frame allocated it,
        has not been deleted. `foreign` are buffers frames never delete. */
    ghost predicate Readable(live: set<array<byte>>, foreign: set<array<byte>>)
      reads this
    {
      len == 0 || (msg != null && len <= msg.Length && (msg in live || msg in foreign))
    }

    ghost function Bytes(): seq<byte>
      reads this, msg
      requires len == 0 || (msg != null && len <= msg.Length)
    {
      if len == 0 then [] else msg[..len]
    }

    constructor Default()
      ensures header == 0 && len == 0 && msg == null && !hasDynamicData
    {
      header, len, msg, hasDynamicData := 0, 0, null, false;
    }

    /** A deep copy that owns a new buffer, whether or not the source owned its own. */
    constructor Copy(other: PFrame, mem: Memory, ghost foreign: set<array<byte>>)
      requires other.Readable(mem.live, foreign)
      modifies mem
      ensures header == other.header && len == other.len && hasDynamicData
      ensures fresh(msg) && msg.Length == len && Bytes() == old(other.Bytes())
      ensures mem.live == old(mem.live) + {msg}
    {
      header, len := other.header, other.len;
      var buf := mem.New(other.len);
      msg, hasDynamicData := buf, true;
      new;
      CopyBytes(other, buf);
    }

    constructor Move(other: PFrame)
      modifies other`hasDynamicData
      ensures header == other.header && len == other.len && msg == other.msg
      ensures hasDynamicData == old(other.hasDynamicData) && !other.hasDynamicData
    {
      header, len, msg := other.header, other.len, other.msg;
      hasDynamicData := other.hasDynamicData;
      new;
      other.hasDynamicData := false;
    }

    /** memcpy into a new buffer. */
    static method CopyBytes(other: PFrame, buf: array<byte>)
      requires buf.Length == other.len && (other.len == 0 || (other.msg != null && other.len <= other.msg.Length))
      modifies buf
      ensures other.msg != buf ==> buf[..] == other.Bytes()
    {
      forall i | 0 <= i < buf.Length {
        buf[i] := other.msg[i];
      }
    }

    /** Copy assignment. The old buffer is deleted before the source is read, so the
        source must not be an alias of it. */
    method CopyAssign(other: PFrame, mem: Memory, ghost foreign: set<array<byte>>)
      requires hasDynamicData ==> msg != null && msg in mem.live
      requires this != other ==> other.Readable(mem.live - OwnBuffer(), foreign)
      modifies this, mem
      ensures this == other ==>
                header == old(header) && len == old(len) && msg == old(msg) &&
                hasDynamicData == old(hasDynamicData) && mem.live == old(mem.live)
      ensures this != other ==>
                && header == other.header && len == other.len && hasDynamicData
                && fresh(msg) && msg.Length == len && Bytes() == old(other.Bytes())
                && mem.live == old(mem.live) - old(OwnBuffer()) + {msg}
    {
      if this == other {
        return;
      }
      header, len := other.header, other.len;
      if hasDynamicData {
        mem.Delete(msg);
      }
      var buf := mem.New(len);
      msg, hasDynamicData := buf, true;
      CopyBytes(other, buf);
    }

    ghost function OwnBuffer(): set<array<byte>>
      reads this
    {
      if hasDynamicData && msg != null then {msg} else {}
    }

    /** Move assignment has no guard against itself: a self-move releases the frame's
        buffer and leaves the frame pointing at it without owning it. */
    method MoveAssign(other: PFrame, mem: Memory)
      requires hasDynamicData ==> msg != null && msg in mem.live
      modifies this, other`hasDynamicData, mem
      ensures header == other.header == old(other.header) && len == other.len == old(other.len)
      ensures msg == other.msg == old(other.msg) && !other.hasDynamicData
      ensures this != other ==> hasDynamicData == old(other.hasDynamicData)
      ensures mem.live == old(mem.live) - old(OwnBuffer())
    {
      header, len := other.header, other.len;
      if hasDynamicData {
        mem.Delete(msg);
      }
      msg := other.msg;
      hasDynamicData := other.hasDynamicData;
      other.hasDynamicData := false;
    }

    method AllocMsg(mem: Memory)
      modifies this`msg, this`hasDynamicData, mem
      ensures hasDynamicData
      ensures old(hasDynamicData) ==> msg == old(msg) && mem.live == old(mem.live)
      ensures !old(hasDynamicData) ==> fresh(msg) && msg.Length == len && mem.live == old(mem.live) + {msg}
    {
      if hasDynamicData {
        return;
      }
      msg := mem.New(len);
      hasDynamicData := true;
    }

    method Erase(mem: Memory)
      requires hasDynamicData ==> msg != null && msg in mem.live
      modifies this, mem
      ensures header == 0 && len == 0 && msg == null && !hasDynamicData
      ensures mem.live == old(mem.live) - old(OwnBuffer())
    {
      if hasDynamicData {
        mem.Delete(msg);
      }
      header, len, msg, hasDynamicData := 0, 0, null, false;
    }

    method Destroy(mem: Memory)
      requires hasDynamicData ==> msg != null && msg in mem.live
      modifies mem
      ensures mem.live == old(mem.live) - OwnBuffer()
    {
      if hasDynamicData {
        mem.Delete(msg);
      }
    }
  }

  /** After the old buffer is gone the source of a copy assignment can be read if and
      only if it has no bytes or does not point at that buffer. */
  lemma AliasedSourceIsGone(f: PFrame, other: PFrame, mem: Memory, foreign: set<array<byte>>)
    requires other.Readable(mem.live, foreign) && f.hasDynamicData && f.msg != null && f.msg !in foreign
    ensures other.Readable(mem.live - {f.msg}, foreign) <==> other.len == 0 || other.msg != f.msg
  {
  }

  // ---------------------------------------------------------------- ownership

  /** Every live buffer belongs to exactly one frame that owns it. */
  ghost predicate Owned(frames: set<PFrame>, live: set<array<byte>>)
    reads frames
  {
    && (forall f | f in frames && f.hasDynamicData :: f.msg != null && f.msg in live)
    && (forall f, g | f in frames && g in frames && f.hasDynamicData && g.hasDynamicData && f != g :: f.msg != g.msg)
    && (forall a | a in live :: exists f :: f in frames && f.hasDynamicData && f.msg == a)
  }

  /** All frames of a program, under any use of their operations. */
  class FrameStore {
    var frames: set<PFrame>
    const mem: Memory
    ghost const foreign: set<array<byte>>   // buffers the frames only look at

    ghost predicate Valid()
      reads this, mem, frames
    {
      Owned(frames, mem.live) && mem.live !! foreign
    }

    constructor (ghost foreign: set<array<byte>>)
      ensures Valid() && frames == {} && mem.live == {} && fresh(mem)
    {
      mem := new Memory();
      frames := {};
      this.foreign := foreign;
    }

    method NewDefault() returns (f: PFrame)
      requires Valid()
      modifies this
      ensures Valid() && fresh(f) && frames == old(frames) + {f} && mem.live == old(mem.live)
      ensures f.header == 0 && f.len == 0 && f.msg == null && !f.hasDynamicData
    {
      f := new PFrame.Default();
      frames := frames + {f};
    }

    method NewCopy(other: PFrame) returns (f: PFrame)
      requires Valid() && other in frames && other.Readable(mem.live, foreign)
      modifies this, mem
      ensures Valid() && fresh(f) && frames == old(frames) + {f}
      ensures f.header == other.header && f.len == other.len && f.hasDynamicData
      ensures f.msg != null && fresh(f.msg) && f.msg.Length == f.len && f.Bytes() == old(other.Bytes())
      ensures mem.live == old(mem.live) + {f.msg}
    {
      f := new PFrame.Copy(other, mem, foreign);
      frames := frames + {f};
    }

    method NewMove(other: PFrame) returns (f: PFrame)
      requires Valid() && other in frames
      modifies this, other
      ensures Valid() && fresh(f) && frames == old(frames) + {f} && mem.live == old(mem.live)
      ensures f.header == other.header && f.len == other.len && f.msg == other.msg
      ensures f.hasDynamicData == old(other.hasDynamicData) && !other.hasDynamicData
    {
      f := new PFrame.Move(other);
      frames := frames + {f};
    }

    method CopyAssign(f: PFrame, other: PFrame)
      requires Valid() && f in frames && other in frames
      requires f != other ==>
                 other.Readable(mem.live, foreign) && (f.hasDynamicData ==> other.len == 0 || other.msg != f.msg)
      modifies f, mem
      ensures Valid()
      ensures f == other ==>
                && f.header == old(f.header) && f.len == old(f.len) && f.msg == old(f.msg)
                && f.hasDynamicData == old(f.hasDynamicData) && mem.live == old(mem.live)
      ensures f != other ==>
                && mem.live == old(mem.live) - old(f.OwnBuffer()) + {f.msg}
                && f.header == other.header && f.len == other.len && f.hasDynamicData
                && f.msg != null && f.msg.Length == f.len && f.Bytes() == old(other.Bytes())
    {
      f.CopyAssign(other, mem, foreign);
    }

    method MoveAssign(f: PFrame, other: PFrame)
      requires Valid() && f in frames && other in frames
      modifies f, other, mem
      ensures Valid()
      ensures f.header == old(other.header) && f.len == old(other.len) && f.msg == old(other.msg) == other.msg
      ensures !other.hasDynamicData && (f != other ==> f.hasDynamicData == old(other.hasDynamicData))
      ensures mem.live == old(mem.live) - old(f.OwnBuffer())
    {
      f.MoveAssign(other, mem);
    }

    method AllocMsg(f: PFrame)
      requires Valid() && f in frames
      modifies f, mem
      ensures Valid() && f.hasDynamicData && f.header == old(f.header) && f.len == old(f.len)
      ensures old(f.hasDynamicData) ==> f.msg == old(f.msg) && mem.live == old(mem.live)
      ensures !old(f.hasDynamicData) ==>
                f.msg != null && f.msg.Length == f.len && fresh(f.msg) && mem.live == old(mem.live) + {f.msg}
    {
      f.AllocMsg(mem);
    }

    method Erase(f: PFrame)
      requires Valid() && f in frames
      modifies f, mem
      ensures Valid() && !f.hasDynamicData && f.header == 0 && f.len == 0 && f.msg == null
      ensures mem.live == old(mem.live) - old(f.OwnBuffer())
    {
      f.Erase(mem);
    }

    method Destroy(f: PFrame)
      requires Valid() && f in frames
      modifies this, mem
      ensures Valid() && frames == old(frames) - {f} && mem.live == old(mem.live) - f.OwnBuffer()
    {
      f.Destroy(mem);
      frames := frames - {f};
    }

    /** When the last frame is gone no buffer is left. */
    method DestroyAll()
      requires Valid()
      modifies this, mem
      ensures frames == {} && mem.live == {}
    {
      while frames != {}
        invariant Valid()
        decreases frames
      {
        var f :| f in frames;
        Destroy(f);
      }
    }
  }
}
