/** The layers together: client bytes, both server threads, and the session they drive. */
module EndToEnd {
  import opened Options
  import opened Wire
  import F = Framer
  import D = Deframer
  import opened Coding
  import opened DeframerObject
  import RoundTrip
  import opened Pipeline
  import opened PipelineProofs
  import T = PipelineTheorems
  import S = Session
  import ST = SessionTheorems

  ghost function FramesIn(ins: seq<S.Input>): seq<Frame> {
    if ins == [] then [] else FramesIn(ins[..|ins|-1]) + [ins[|ins|-1].frame]
  }

  ghost function FramesOut(replies: seq<S.Reply>): (fs: seq<Frame>)
    ensures |fs| == |replies|
    ensures forall x | 0 <= x < |fs| :: fs[x] == replies[x].frame
  {
    seq(|replies|, x requires 0 <= x < |replies| => replies[x].frame)
  }

  /** The worker step that lets connection `c` handle a frame. */
  predicate Handles(s: Sys, a: Action, c: int) {
    a.WorkerHandle? && s.worker.Fetched? && s.worker.id == c && c in s.contexts && s.contexts[c]
  }

  /** In the run `acts`, connection `c` is served by the session with inputs `ins`: each
      frame the worker handles for it is the next input, and the responses are those of
      the session step. */
  ghost predicate Driven(w: S.World, acts: seq<Action>, c: int, ins: seq<S.Input>)
    requires IsRun(START, acts)
    decreases |acts|
  {
    if acts == [] then ins == []
    else
      var before, a := acts[..|acts|-1], acts[|acts|-1];
      var s := Run(START, before);
      if a.Accept? && a.c == c then ins == []
      else if !Handles(s, a, c) then Driven(w, before, c, ins)
      else
        ins != [] && Driven(w, before, c, ins[..|ins|-1]) && Answers(w, s, a, ins)
  }

  ghost predicate Answers(w: S.World, s: Sys, a: Action, ins: seq<S.Input>)
    requires a.WorkerHandle? && s.worker.Fetched? && ins != []
  {
    var i := ins[|ins|-1];
    var o := S.SessionStep(w, S.SessionRun(w, ins[..|ins|-1]).session, i);
    i.frame == s.worker.frame && a.replies == FramesOut(o.replies) && a.active == !o.session.Closed?
  }

  function Todo(s: Sys, c: int): seq<Frame> {
    if s.worker.Replying? && s.worker.id == c then s.worker.todo else []
  }

  /** The session has been given the handled frames, and what it replied is what the
      worker has queued and still has to queue. */
  ghost predicate InStep(w: S.World, s: Sys, c: int, ins: seq<S.Input>) {
    if c in s.hist then
      && s.hist[c].ins.handed == FramesIn(ins)
      && s.hist[c].outs.replied + Todo(s, c) == FramesOut(S.SessionRun(w, ins).replies)
    else ins == []
  }

  lemma HandleStaysInStep(w: S.World, s: Sys, a: Action, c: int, ins: seq<S.Input>)
    requires Inv(s) && Enabled(s, a) && Handles(s, a, c) && ins != [] && Answers(w, s, a, ins)
    requires InStep(w, s, c, ins[..|ins|-1])
    ensures InStep(w, Next(s, a), c, ins)
  {
    hide S.SessionStep, F.RxStep, D.TxStep, Proj, ConnOk;
    var before := S.SessionRun(w, ins[..|ins|-1]);
    var o := S.SessionStep(w, before.session, ins[|ins|-1]);
    assert FramesOut(before.replies + o.replies) == FramesOut(before.replies) + FramesOut(o.replies);
    assert s.hist[c].outs.replied + [] == s.hist[c].outs.replied;
  }

  lemma PushStaysInStep(w: S.World, s: Sys, a: Action, c: int, ins: seq<S.Input>)
    requires Enabled(s, a) && a.WorkerPush? && InStep(w, s, c, ins)
    ensures InStep(w, Next(s, a), c, ins)
  {
    hide S.SessionRun, FramesIn;
    if c in s.hist && c == s.worker.id {
      var replied, todo := s.hist[c].outs.replied, s.worker.todo;
      assert replied + [todo[0]] + todo[1..] == replied + todo;
    }
  }

  /** The steps of the event loop, and those of the worker that neither handle a frame
      of `c` nor push a response, leave its history alone. */
  lemma HistoryKept(s: Sys, a: Action, c: int)
    requires Inv(s) && Enabled(s, a) && !Handles(s, a, c) && !(a.Accept? && a.c == c) && !a.WorkerPush?
    ensures var t := Next(s, a);
            && (c in s.hist <==> c in t.hist)
            && (c in s.hist ==> t.hist[c].ins.handed == s.hist[c].ins.handed &&
                                t.hist[c].outs.replied == s.hist[c].outs.replied && Todo(t, c) == Todo(s, c))
  {
    hide F.RxStep, D.TxStep, F.NextCut, D.NextCut, F.LenTransferOk, D.LenSendOk, Proj;
    if a.WorkerHandle? || a.WorkerDone? {
      HistoryKeptByWorker(s, a, c);
    } else {
      hide Inv;
    }
  }

  lemma HistoryKeptByWorker(s: Sys, a: Action, c: int)
    requires Inv(s) && Enabled(s, a) && !Handles(s, a, c) && (a.WorkerHandle? || a.WorkerDone?)
    ensures var t := Next(s, a);
            && (c in s.hist <==> c in t.hist)
            && (c in s.hist ==> t.hist[c].ins.handed == s.hist[c].ins.handed &&
                                t.hist[c].outs.replied == s.hist[c].outs.replied && Todo(t, c) == Todo(s, c))
  {
    hide ConnsOk;
  }

  lemma OtherStaysInStep(w: S.World, s: Sys, a: Action, c: int, ins: seq<S.Input>)
    requires Inv(s) && Enabled(s, a) && !Handles(s, a, c) && !(a.Accept? && a.c == c)
    requires InStep(w, s, c, ins)
    ensures InStep(w, Next(s, a), c, ins)
  {
    if a.WorkerPush? {
      PushStaysInStep(w, s, a, c, ins);
    } else {
      HistoryKept(s, a, c);
    }
  }

  lemma {:induction false} DrivenStaysInStep(w: S.World, acts: seq<Action>, c: int, ins: seq<S.Input>)
    requires IsRun(START, acts) && Driven(w, acts, c, ins)
    ensures InStep(w, Run(START, acts), c, ins)
  {
    if acts == [] {
    } else {
      var before, a := acts[..|acts|-1], acts[|acts|-1];
      var s := Run(START, before);
      RunKeepsInv(before);
      if a.Accept? && a.c == c {
        assert FramesOut([]) == [];
      } else if Handles(s, a, c) {
        DrivenStaysInStep(w, before, c, ins[..|ins|-1]);
        HandleStaysInStep(w, s, a, c, ins);
      } else {
        DrivenStaysInStep(w, before, c, ins);
        OtherStaysInStep(w, s, a, c, ins);
      }
    }
  }

  /** The step by which the worker lets a session handle `i`. */
  ghost function HandleWith(w: S.World, ins: seq<S.Input>, i: S.Input): Action {
    var o := S.SessionStep(w, S.SessionRun(w, ins).session, i);
    WorkerHandle(FramesOut(o.replies), !o.session.Closed?)
  }

  /** Whatever a session answers can be queued: a driven run never halts where the worker
      has a frame for an open connection in its hands. */
  lemma DrivenNeverStuck(w: S.World, acts: seq<Action>, c: int, ins: seq<S.Input>, i: S.Input)
    requires IsRun(START, acts) && Driven(w, acts, c, ins) && AeadLaws(w.aead) && S.Fresh(i)
    requires var s := Run(START, acts);
             s.worker.Fetched? && s.worker.id == c && c in s.contexts && i.frame == s.worker.frame
    ensures IsRun(START, acts + [HandleWith(w, ins, i)])
    ensures Driven(w, acts + [HandleWith(w, ins, i)], c, ins + [i])
  {
    hide Inv, S.SessionStep, S.SessionRun;
    var s, a := Run(START, acts), HandleWith(w, ins, i);
    RunKeepsInv(acts);
    HandleEnabled(w, s, ins, i);
    T.RunSnoc(acts, a);
    assert (acts + [a])[..|acts|] == acts && (ins + [i])[..|ins|] == ins;
    assert Handles(s, a, c);
  }

  lemma HandleEnabled(w: S.World, s: Sys, ins: seq<S.Input>, i: S.Input)
    requires Inv(s) && s.worker.Fetched? && s.worker.id in s.contexts && AeadLaws(w.aead) && S.Fresh(i)
    ensures Enabled(s, HandleWith(w, ins, i)) && s.contexts[s.worker.id]
  {
    hide S.SessionStep, S.SessionRun, ConnsOk;
    var before := S.SessionRun(w, ins).session;
    var replies := S.SessionStep(w, before, i).replies;
    ST.RepliesAreWellFormed(w, before, i);
    forall x | 0 <= x < |replies| ensures WellFormed(FramesOut(replies)[x]) {
      assert replies[x] in replies;
    }
  }

  /** The session of a connection is given a prefix of exactly the frames its client
      sent, in order, however the bytes were cut and the threads interleaved. */
  lemma SessionSeesClientFrames(w: S.World, acts: seq<Action>, c: int, ins: seq<S.Input>, jobs: seq<Job>)
    requires IsRun(START, acts) && Driven(w, acts, c, ins) && c in Run(START, acts).hist
    requires RoundTrip.InTurn(jobs) && RoundTrip.AllLeaveWell(jobs)
    requires var h := Run(START, acts).hist[c].ins; h.ok && h.consumed <= RoundTrip.WireOf(jobs)
    ensures FramesIn(ins) <= RoundTrip.FramesOf(jobs)
  {
    DrivenStaysInStep(w, acts, c, ins);
    T.RequestsArriveInOrder(acts, c, jobs);
  }

  /** The headers of `fs` are 0xF0 up to `n` and 0xF1 from there on. */
  predicate PlainThenSealed(fs: seq<Frame>, n: nat) {
    && n <= |fs|
    && (forall x | 0 <= x < n :: fs[x].header == 0xF0)
    && (forall x | n <= x < |fs| :: fs[x].header == 0xF1)
  }

  lemma {:induction false} SubseqKeepsOrder(a: seq<Frame>, b: seq<Frame>, n: nat) returns (m: nat)
    requires Subseq(a, b) && PlainThenSealed(b, n)
    ensures PlainThenSealed(a, m)
    decreases |b|
  {
    if a == [] {
      return 0;
    }
    var front := b[..|b|-1];
    var n' := if n == |b| then n - 1 else n;
    assert PlainThenSealed(front, n');
    if Subseq(a, front) {
      m := SubseqKeepsOrder(a, front, n');
    } else {
      m := SubseqKeepsOrder(a[..|a|-1], front, n');
      var last := a[|a|-1];
      assert last == b[|b|-1];
      if n == |b| {
        assert forall x | 0 <= x < |a| - 1 :: a[..|a|-1][x] == a[x];
        AllPlainFront(a[..|a|-1], front, n');
        m := |a|;
      }
    }
  }

  /** If everything queued was plain, so is everything accepted. */
  lemma {:induction false} AllPlainFront(a: seq<Frame>, b: seq<Frame>, n: nat)
    requires Subseq(a, b) && PlainThenSealed(b, n) && n == |b|
    ensures forall x | 0 <= x < |a| :: a[x].header == 0xF0
    decreases |b|
  {
    if a == [] {
    } else {
      var front := b[..|b|-1];
      assert PlainThenSealed(front, n - 1);
      if Subseq(a, front) {
        AllPlainFront(a, front, n - 1);
      } else {
        AllPlainFront(a[..|a|-1], front, n - 1);
      }
    }
  }

  lemma PrefixKeepsOrder(a: seq<Frame>, b: seq<Frame>, n: nat)
    requires a <= b && PlainThenSealed(b, n)
    ensures PlainThenSealed(a, if n <= |a| then n else |a|)
  {
  }

  /** The accepted responses of a connection, in the order they went out. */
  lemma AcceptedPlainThenSealed(w: S.World, acts: seq<Action>, c: int, ins: seq<S.Input>) returns (m: nat)
    requires IsRun(START, acts) && Driven(w, acts, c, ins)
    requires c in Run(START, acts).conns && c in Run(START, acts).hist
    ensures PlainThenSealed(Run(START, acts).hist[c].outs.accepted, m)
  {
    DrivenStaysInStep(w, acts, c, ins);
    T.NoInterleaving(acts, c);
    hide IsRun, Run, Driven, FramesIn, FramesOut, S.SessionRun, Proj, PlainThenSealed;
    var k, key := ST.HeaderDiscipline(w, ins);
    var s := Run(START, acts);
    m := FilterPlainThenSealed(s.hist[c].outs, InHand(s.loop, c) + Proj(s.wqOut, c), Todo(s, c),
                               S.SessionRun(w, ins).replies, k);
  }

  lemma FilterPlainThenSealed(h: OutSide, queued: seq<Frame>, todo: seq<Frame>, replies: seq<S.Reply>, k: nat)
      returns (m: nat)
    requires h.replied == h.taken + queued && h.replied + todo == FramesOut(replies) && Subseq(h.accepted, h.taken)
    requires k <= |replies|
    requires forall x | 0 <= x < k :: replies[x].frame.header == 0xF0
    requires forall x | k <= x < |replies| :: replies[x].frame.header == 0xF1
    ensures PlainThenSealed(h.accepted, m)
  {
    var fs := FramesOut(replies);
    assert PlainThenSealed(fs, k);
    assert fs == h.taken + (queued + todo);
    PrefixKeepsOrder(h.taken, fs, k);
    m := SubseqKeepsOrder(h.accepted, h.taken, if k <= |h.taken| then k else |h.taken|);
  }

  /** What a client reads from the wire of an open connection, cut anywhere: plain
      frames first, then only sealed ones. */
  lemma ClientSeesPlainThenSealed(w: S.World, acts: seq<Action>, c: int, ins: seq<S.Input>, fd: int, rs: seq<F.RecvResult>)
      returns (n: nat)
    requires IsRun(START, acts) && Driven(w, acts, c, ins)
    requires c in Run(START, acts).conns && c in Run(START, acts).hist
    requires F.Deliverable(F.RxReset(fd), rs) && F.LensOk(F.RxReset(fd), rs)
    requires var h := Run(START, acts).hist[c].outs; h.ok && F.Consumed(rs) <= h.before + h.part
    ensures var o := F.RxRun(F.RxReset(fd), rs); PlainThenSealed(o.pushed + F.Pending(o.state), n)
  {
    T.ResponsesArriveInOrder(acts, c, fd, rs);
    var m := AcceptedPlainThenSealed(w, acts, c, ins);
    var o := F.RxRun(F.RxReset(fd), rs);
    var seen := o.pushed + F.Pending(o.state);
    PrefixKeepsOrder(seen, Run(START, acts).hist[c].outs.accepted, m);
    n := if m <= |seen| then m else |seen|;
  }
}
