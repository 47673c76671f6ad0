/** The two threads as code: the event loop of Server.cpp and the worker loop of
    ServerWorker.cpp, on shared queues, tables and counter, with a reader and a writer
    object per connection. Between any two steps of one thread the other may take any
    number of its own; every method is a run of the step system all the same. */
module ServerLoop {
  import opened Options
  import opened Wire
  import opened WorkQueues
  import F = Framer
  import D = Deframer
  import FO = FramerObject
  import DO = DeframerObject
  import opened Pipeline
  import opened PipelineProofs
  import T = PipelineTheorems

  // ---------------------------------------------------------------- runs

  ghost predicate Follows(s: Sys, acts: seq<Action>, t: Sys) {
    IsRun(s, acts) && t == Run(s, acts)
  }

  lemma {:induction false} FollowsAppend(s: Sys, a: seq<Action>, t: Sys, b: seq<Action>, u: Sys)
    requires Follows(s, a, t) && Follows(t, b, u)
    ensures Follows(s, a + b, u)
  {
    if b == [] {
      assert a + b == a;
    } else {
      var front := b[..|b|-1];
      FollowsAppend(s, a, t, front, Run(t, front));
      assert (a + b)[..|a + b| - 1] == a + front;
    }
  }

  lemma FollowsOne(s: Sys, a: Action)
    requires Enabled(s, a)
    ensures Follows(s, [a], Next(s, a))
  {
  }

  lemma FollowsNone(s: Sys)
    ensures Follows(s, [], s)
  {
  }

  predicate ByEventLoop(a: Action) {
    !ByWorker(a)
  }

  predicate ByWorker(a: Action) {
    a.WorkerFetch? || a.WorkerHandle? || a.WorkerPush? || a.WorkerNotify? || a.WorkerDone?
  }

  /** The steps of one of the threads, in order. */
  function Of(acts: seq<Action>, worker: bool): seq<Action> {
    if acts == [] then []
    else Of(acts[..|acts|-1], worker) + if ByWorker(acts[|acts|-1]) == worker then [acts[|acts|-1]] else []
  }

  lemma {:induction false} OfAppend(a: seq<Action>, b: seq<Action>, worker: bool)
    ensures Of(a + b, worker) == Of(a, worker) + Of(b, worker)
  {
    if b == [] {
      assert a + b == a;
    } else {
      assert (a + b)[..|a + b| - 1] == a + b[..|b|-1];
      OfAppend(a, b[..|b|-1], worker);
    }
  }

  lemma {:induction false} OfOther(acts: seq<Action>, worker: bool)
    requires forall i | 0 <= i < |acts| :: ByWorker(acts[i]) != worker
    ensures Of(acts, worker) == []
  {
    if acts == [] {
    } else {
      OfOther(acts[..|acts|-1], worker);
    }
  }

  lemma OfOne(a: Action)
    ensures Of([a], ByWorker(a)) == [a] && Of([a], !ByWorker(a)) == []
  {
    assert [a][..0] == [];
  }

  /** A step of one thread and what the other does after it. */
  lemma OfStep(acts: seq<Action>, a: Action, others: seq<Action>)
    requires forall i | 0 <= i < |others| :: ByWorker(others[i]) != ByWorker(a)
    ensures Of(acts + [a] + others, ByWorker(a)) == Of(acts, ByWorker(a)) + [a]
  {
    OfAppend(acts + [a], others, ByWorker(a));
    OfAppend(acts, [a], ByWorker(a));
    OfOne(a);
    OfOther(others, ByWorker(a));
  }

  function Writes(c: int, rs: seq<D.SendResult>): seq<Action> {
    if rs == [] then [] else Writes(c, rs[..|rs|-1]) + [Write(c, rs[|rs|-1])]
  }

  function Reads(c: int, rs: seq<F.RecvResult>): seq<Action> {
    if rs == [] then [] else Reads(c, rs[..|rs|-1]) + [Read(c, rs[|rs|-1])]
  }

  /** So far the event loop has only made the attempts `rs` on the writer `tx0`, which is
      now `o.state`. */
  ghost predicate Writing(c: int, tx0: D.TxState, acts: seq<Action>, rs: seq<D.SendResult>, tx: D.TxState, more: bool) {
    && D.TxValid(tx0) && D.Sendable(tx0, rs) && D.TxRun(tx0, rs).state == tx && D.TxRun(tx0, rs).more == more
    && (rs != [] ==> D.Going(tx0, rs[..|rs|-1]))
    && Of(acts, false) == Writes(c, rs)
  }

  lemma WritingStarts(c: int, tx0: D.TxState)
    requires D.TxValid(tx0)
    ensures Writing(c, tx0, [], [], tx0, true)
  {
  }

  lemma WritingOn(c: int, tx0: D.TxState, acts: seq<Action>, rs: seq<D.SendResult>, tx: D.TxState,
                  r: D.SendResult, others: seq<Action>)
    requires Writing(c, tx0, acts, rs, tx, true) && D.Takes(|D.Offer(tx)|, r)
    requires forall i | 0 <= i < |others| :: ByWorker(others[i])
    ensures var o := D.TxStep(tx, r);
            Writing(c, tx0, acts + [Write(c, r)] + others, rs + [r], o.state, o.more)
  {
    D.TxRunSnoc(tx0, rs, r);
    OfStep(acts, Write(c, r), others);
    assert (rs + [r])[..|rs|] == rs;
    hide D.TxStep, D.Takes, D.Offer, Of;
  }

  ghost predicate Reading(c: int, rx0: F.RxState, acts: seq<Action>, rs: seq<F.RecvResult>, rx: F.RxState, more: bool) {
    && F.RxValid(rx0) && F.Deliverable(rx0, rs) && F.RxRun(rx0, rs).state == rx && F.RxRun(rx0, rs).more == more
    && (rs != [] ==> F.Going(rx0, rs[..|rs|-1]))
    && Of(acts, false) == Reads(c, rs)
  }

  lemma ReadingStarts(c: int, rx0: F.RxState)
    requires F.RxValid(rx0)
    ensures Reading(c, rx0, [], [], rx0, true)
  {
  }

  lemma ReadingOn(c: int, rx0: F.RxState, acts: seq<Action>, rs: seq<F.RecvResult>, rx: F.RxState,
                  r: F.RecvResult, others: seq<Action>)
    requires Reading(c, rx0, acts, rs, rx, true) && F.Delivers(F.Want(rx), r)
    requires forall i | 0 <= i < |others| :: ByWorker(others[i])
    ensures var o := F.RxStep(rx, r);
            Reading(c, rx0, acts + [Read(c, r)] + others, rs + [r], o.state, o.more)
  {
    F.RunSnoc(rx0, rs, r);
    OfStep(acts, Read(c, r), others);
    assert (rs + [r])[..|rs|] == rs;
    hide F.RxStep, F.Delivers, F.Want, Of;
  }

  /** What became of one token: nothing was queued; or at step `at`, in state `met`, a
      response met its connection, and then the attempts `rs` were made. */
  datatype Outcome = NoResponse | Offered(at: nat, met: Sys, rs: seq<D.SendResult>)

  /** The writer that the offer `a` gives the response in hand. */
  ghost predicate Taken(u: Sys, a: Action, rs: seq<D.SendResult>) {
    && u.loop.Holding? && a.OfferNext?
    && WellFormed(u.loop.frame) && |u.loop.frame.msg| + |a.beyond| == D.MAX_LEN
    && if u.loop.id in u.conns && !u.conns[u.loop.id].tx.inProgress
       then D.WrittenOut(D.TxStart(u.loop.frame, a.beyond, a.behind), rs)
       else rs == []
  }

  /** The response is offered after the fetch, and if its connection is open and its writer
      idle it is written until an attempt makes no progress; otherwise nothing is. */
  ghost predicate OutServed(s: Sys, acts: seq<Action>, o: Outcome) {
    match o
    case NoResponse => Of(acts, false) == [FetchNext]
    case Offered(at, met, rs) =>
      && at < |acts| && Follows(s, acts[..at], met) && Taken(met, acts[at], rs)
      && Of(acts, false) == [FetchNext, acts[at]] + Writes(met.loop.id, rs)
  }

  /** `n` responses leave the worker, each followed by its notification. */
  function Sends(n: nat): seq<Action> {
    if n == 0 then [] else Sends(n - 1) + [WorkerPush, WorkerNotify]
  }

  /** The worker's own steps for one fetched item: every response of a session that is
      still there is sent, and nothing of a session that is gone. */
  function Handling(open: bool, replies: seq<Frame>, active: bool): seq<Action> {
    [WorkerHandle(replies, active)] + if open then Sends(|replies|) + [WorkerDone] else []
  }

  /** One turn of the worker: no item; or one taken at step `wait` and handled in state
      `met` at step `at`. */
  datatype Turn = NoItem | TookItem(wait: nat, at: nat, met: Sys)

  /** No item is taken only if there is none or the wait was cancelled by a stop. */
  ghost predicate TurnDone(s: Sys, acts: seq<Action>, replies: seq<Frame>, active: bool, turn: Turn, left: seq<Item>) {
    match turn
    case NoItem => Of(acts, true) == [] && (left == [] || Action.Stop in acts)
    case TookItem(wait, at, met) =>
      && wait < at < |acts| && Action.Stop !in acts[..wait] && acts[wait] == WorkerFetch
      && Follows(s, acts[..at], met) && met.worker.Fetched? && acts[at] == WorkerHandle(replies, active)
      && Of(acts, true) == [WorkerFetch] + Handling(met.worker.id in met.contexts, replies, active)
  }

  /** The worker's own position is not touched by the other thread. */
  lemma {:induction false} WorkerUntouched(s: Sys, acts: seq<Action>)
    requires Inv(s) && IsRun(s, acts) && forall i | 0 <= i < |acts| :: ByEventLoop(acts[i])
    ensures Inv(Run(s, acts)) && Run(s, acts).worker == s.worker
  {
    if acts == [] {
    } else {
      var front := acts[..|acts|-1];
      WorkerUntouched(s, front);
      StepKeepsInv(Run(s, front), acts[|acts|-1]);
    }
  }

  /** What the worker leaves to the event loop: its position, the tokens, the queued
      responses in front, and the connections that stay open, untouched. */
  ghost predicate LoopSame(s: Sys, t: Sys) {
    && t.loop == s.loop && s.tokens <= t.tokens && s.wqOut <= t.wqOut
    && (forall c | c in t.conns :: c in s.conns && t.conns[c] == s.conns[c])
    && (forall c | c in s.hist ::
          c in t.hist && t.hist[c].ins.parsed == s.hist[c].ins.parsed && t.hist[c].ins.consumed == s.hist[c].ins.consumed)
  }

  lemma WorkerStepLeaves(s: Sys, a: Action)
    requires Enabled(s, a) && ByWorker(a)
    ensures LoopSame(s, Next(s, a))
  {
  }

  lemma {:induction false} LoopUntouched(s: Sys, acts: seq<Action>)
    requires IsRun(s, acts) && forall i | 0 <= i < |acts| :: ByWorker(acts[i])
    ensures LoopSame(s, Run(s, acts))
  {
    if acts == [] {
    } else {
      var front := acts[..|acts|-1];
      LoopUntouched(s, front);
      WorkerStepLeaves(Run(s, front), acts[|acts|-1]);
    }
  }

  lemma TablesEqual(s: Sys)
    requires Inv(s)
    ensures s.conns.Keys == s.contexts.Keys
  {
  }

  lemma UntouchedAlong(s: Sys, acts: seq<Action>, t: Sys)
    requires Follows(s, acts, t) && forall i | 0 <= i < |acts| :: ByWorker(acts[i])
    ensures LoopSame(s, t)
  {
    LoopUntouched(s, acts);
  }

  /** The kernel gives out no descriptor that is still in use: none of a queued item, and
      none in the hands of either thread. */
  predicate Unused(s: Sys, c: int) {
    && c !in s.conns
    && (forall i | 0 <= i < |s.wqIn| :: s.wqIn[i].0 != c) && (forall i | 0 <= i < |s.wqOut| :: s.wqOut[i].0 != c)
    && (!s.worker.Waiting? ==> s.worker.id != c) && (s.loop.Holding? ==> s.loop.id != c)
  }

  lemma NoneOf(q: seq<Item>, c: int)
    requires forall i | 0 <= i < |q| :: q[i].0 != c
    ensures Proj(q, c) == []
  {
  }

  lemma AcceptEnabled(s: Sys, c: int, mem: seq<byte>, pad: byte)
    requires Inv(s) && Unused(s, c) && |mem| == D.MAX_LEN
    ensures Enabled(s, Accept(c, mem, pad))
  {
    hide ConnsOk;
    NoneOf(s.wqIn, c);
    NoneOf(s.wqOut, c);
  }

  lemma AcceptIs(s: Sys, c: int, mem: seq<byte>, pad: byte)
    requires Enabled(s, Accept(c, mem, pad))
    ensures c !in s.conns && |mem| == D.MAX_LEN
    ensures Next(s, Accept(c, mem, pad)) ==
              s.(conns := s.conns[c := Opened(c, mem, pad)], contexts := s.contexts[c := true],
                 hist := s.hist[c := NO_HIST])
  {
  }

  lemma CloseIs(s: Sys, c: int)
    requires c in s.conns
    ensures Enabled(s, Close(c))
    ensures Next(s, Close(c)) == s.(conns := s.conns - {c}, contexts := s.contexts - {c})
  {
  }

  lemma ReadIs(s: Sys, c: int, r: F.RecvResult)
    requires Inv(s) && c in s.conns && F.RxValid(s.conns[c].rx) && F.Delivers(F.Want(s.conns[c].rx), r)
    ensures Enabled(s, Read(c, r)) && c in s.hist && ConnValid(s.conns[c])
    ensures var o := F.RxStep(s.conns[c].rx, r);
            Next(s, Read(c, r)) ==
              s.(conns := s.conns[c := s.conns[c].(rx := o.state)], wqIn := s.wqIn + F.Tag(c, o.pushed),
                 hist := s.hist[c := s.hist[c].(ins := ReadIns(s.conns[c], s.hist[c].ins, r))])
  {
    hide F.RxStep, F.Delivers, F.Want, F.RxValid, F.Tag, D.TxValid, Proj;
    assert ConnOk(s, c);
  }

  lemma WriteIs(s: Sys, c: int, r: D.SendResult)
    requires Inv(s) && c in s.conns && D.TxValid(s.conns[c].tx) && D.Takes(|D.Offer(s.conns[c].tx)|, r)
    ensures Enabled(s, Write(c, r)) && c in s.hist && ConnValid(s.conns[c]) && AllWellFormed(s.hist[c].outs.accepted)
    ensures Next(s, Write(c, r)) ==
              s.(conns := s.conns[c := s.conns[c].(tx := D.TxStep(s.conns[c].tx, r).state)],
                 hist := s.hist[c := s.hist[c].(outs := WriteOuts(s.conns[c], s.hist[c].outs, r))])
  {
    hide D.TxStep, D.Takes, D.Offer, D.TxValid, F.RxValid, Proj;
    assert ConnOk(s, c);
  }

  lemma FetchIs(s: Sys)
    requires s.loop.Notified?
    ensures Enabled(s, FetchNext)
    ensures Next(s, FetchNext) ==
              if s.wqOut == [] then s.(loop := Polling, spurious := s.spurious + 1)
              else s.(loop := Holding(s.wqOut[0].0, s.wqOut[0].1), wqOut := s.wqOut[1..])
  {
  }

  lemma OfferIs(s: Sys, beyond: seq<byte>, behind: byte)
    requires Inv(s) && s.loop.Holding? && |s.loop.frame.msg| + |beyond| == D.MAX_LEN
    ensures WellFormed(s.loop.frame) && Enabled(s, OfferNext(beyond, behind))
    ensures var c, f := s.loop.id, s.loop.frame;
            && (c in s.conns ==> c in s.hist)
            && Next(s, OfferNext(beyond, behind)) ==
                 if c in s.conns then
                   s.(loop := Polling, conns := s.conns[c := s.conns[c].(tx := OfferTx(s.conns[c], f, beyond, behind))],
                      hist := s.hist[c := s.hist[c].(outs := OfferOuts(s.conns[c], s.hist[c].outs, f))])
                 else s.(loop := Polling)
  {
    hide ConnsOk, OfferTx;
  }

  lemma HandleIs(s: Sys, replies: seq<Frame>, active: bool)
    requires Inv(s) && s.worker.Fetched? && AllWellFormed(replies)
    ensures Enabled(s, WorkerHandle(replies, active))
    ensures var c, h := s.worker.id, s.hist[s.worker.id];
            && c in s.hist && (c in s.contexts ==> s.contexts[c])
            && Next(s, WorkerHandle(replies, active)) ==
                 if c !in s.contexts then s.(worker := Waiting)
                 else s.(contexts := s.contexts[c := active], worker := Replying(c, replies, false),
                         hist := s.hist[c := h.(ins := h.ins.(handed := h.ins.handed + [s.worker.frame]))])
  {
    hide ConnsOk;
  }

  lemma PushIs(s: Sys)
    requires Inv(s) && s.worker.Replying? && s.worker.todo != [] && !s.worker.owed
    ensures Enabled(s, WorkerPush)
    ensures var c, f := s.worker.id, s.worker.todo[0];
            && c in s.hist
            && Next(s, WorkerPush) ==
                 s.(wqOut := s.wqOut + [(c, f)], worker := Replying(c, s.worker.todo[1..], true),
                    hist := s.hist[c := s.hist[c].(outs := s.hist[c].outs.(replied := s.hist[c].outs.replied + [f]))])
  {
    hide ConnsOk;
  }

  lemma DoneIs(s: Sys)
    requires Inv(s) && s.worker.Replying? && s.worker.todo == [] && !s.worker.owed
    ensures Enabled(s, WorkerDone)
    ensures var c := s.worker.id;
            Next(s, WorkerDone) ==
              if c in s.contexts && !s.contexts[c] then
                s.(worker := Waiting, conns := s.conns - {c}, contexts := s.contexts - {c})
              else s.(worker := Waiting)
  {
    hide ConnsOk;
  }

  lemma WorkerKept(s: Sys, acts: seq<Action>, t: Sys)
    requires Inv(s) && Follows(s, acts, t) && forall i | 0 <= i < |acts| :: ByEventLoop(acts[i])
    ensures t.worker == s.worker
  {
    WorkerUntouched(s, acts);
  }

  method LengthBytes(n: nat) returns (hi: byte, lo: byte)
    requires n < 65536
    ensures [hi, lo] == BigEndian(n)
  {
    hi, lo := (n / 256) as byte, (n % 256) as byte;
    assert Val([hi, lo]) == n;
    ValInjective([hi, lo], BigEndian(n));
  }

  // ---------------------------------------------------------------- a connection

  class ConnectionContext {
    const framer: FO.PFramer
    const deframer: DO.PDeframer

    /** Everything here belongs to descriptor `c`, so contexts share no object. */
    ghost predicate For(c: int, wq: WorkQueue<Item>) {
      framer.wq == wq && framer.assocFd == c && framer.sock.fd == c && deframer.sock.fd == c
    }

    ghost function Objects(): set<object>
      reads framer
    {
      {framer, framer.sock, deframer, deframer.sock} + if framer.msg == null then {} else {framer.msg}
    }

    ghost predicate Within(objects: set<object>)
      reads framer
    {
      && framer in objects && framer.sock in objects && deframer in objects && deframer.sock in objects
      && (framer.msg != null ==> framer.msg in objects)
    }

    ghost predicate Apart(other: ConnectionContext)
      reads framer, other.framer
    {
      framer.msg != null ==> framer.msg != other.framer.msg
    }

    /** What the objects stand for. */
    ghost predicate Shows(conn: Conn)
      reads framer, framer.msg, deframer, deframer.sock
    {
      framer.InOrder() && deframer.Valid() && conn == Conn(framer.State(), deframer.State())
    }

    constructor (c: int, wq: WorkQueue<Item>, mem: seq<byte>, pad: byte)
      requires |mem| == D.MAX_LEN
      ensures For(c, wq) && Shows(Opened(c, mem, pad)) && framer.msg == null && deframer.sock.wire == []
      ensures fresh(framer) && fresh(framer.sock) && fresh(deframer) && fresh(deframer.sock)
    {
      var incoming := new FO.RecvSocket(c);
      var outgoing := new DO.SendSocket(c);
      framer := new FO.PFramer(wq, incoming, c);
      deframer := new DO.PDeframer(outgoing, mem, pad);
      new;
      hide F.RxRun, F.Deliverable, D.TxRun, D.Sendable;
    }

    /** The reader's attempt moves what is shown by one step, and its frames to the queue. */
    method TryRead(ghost conn: Conn) returns (more: bool, ghost r: F.RecvResult)
      requires Shows(conn) && framer.wq.Valid() && framer.wq.itemLimit == 0
      modifies framer, framer.msg, framer.wq, framer.sock
      ensures F.RxValid(conn.rx) && F.Delivers(F.Want(conn.rx), r)
      ensures var o := F.RxStep(conn.rx, r);
              && Shows(conn.(rx := o.state)) && more == o.more
              && framer.wq.queue == old(framer.wq.queue) + F.Tag(framer.assocFd, o.pushed)
      ensures framer.wq.Valid() && (framer.msg == old(framer.msg) || framer.msg == null || fresh(framer.msg))
      ensures old(framer.sock.incoming) == F.BytesOf(r) + framer.sock.incoming
    {
      hide F.RxStep, F.RxRun, F.Deliverable, F.Tag, F.Delivers, F.Want;
      more := framer.TryRead();
      r := framer.log[|framer.log|-1];
    }

    /** The writer's attempt moves what is shown by one step. */
    method TryWrite(ghost conn: Conn) returns (more: bool, ghost r: D.SendResult)
      requires Shows(conn)
      modifies deframer, deframer.sock
      ensures D.TxValid(conn.tx) && D.Takes(|D.Offer(conn.tx)|, r)
      ensures var o := D.TxStep(conn.tx, r);
              Shows(conn.(tx := o.state)) && more == o.more && deframer.sock.wire == old(deframer.sock.wire) + o.wire
    {
      hide F.RxRun, F.Deliverable, D.TxStep, D.Takes, D.Offer, D.TxRun, D.Sendable;
      more, r := deframer.TryWrite();
    }

    /** A response meets the writer. */
    method Offer(f: Frame, beyond: seq<byte>, behind: byte, ghost conn: Conn) returns (taken: bool)
      requires Shows(conn) && WellFormed(f) && |f.msg| + |beyond| == D.MAX_LEN
      modifies deframer
      ensures Shows(conn.(tx := OfferTx(conn, f, beyond, behind))) && taken == !conn.tx.inProgress
    {
      hide F.RxRun, F.Deliverable, DO.PDeframer.Valid;
      var hi, lo := LengthBytes(|f.msg|);
      taken := deframer.SetSentItem(f, hi, lo, beyond, behind);
    }
  }

  // ---------------------------------------------------------------- the worker

  class ServerWorker {
    var handlerTable: map<int, bool>
    var position: Worker

    constructor ()
      ensures handlerTable == map[] && position == Waiting
    {
      handlerTable, position := map[], Waiting;
    }

    method CreateContext(c: int)
      modifies this`handlerTable
      ensures handlerTable == old(handlerTable)[c := true]
    {
      handlerTable := handlerTable[c := true];
    }

    method DestroyContext(c: int)
      modifies this`handlerTable
      ensures handlerTable == old(handlerTable) - {c}
    {
      handlerTable := handlerTable - {c};
    }

    /** The end of a blocking fetch: the oldest item, or nothing if it was cancelled. */
    method Fetch(server: Server) returns (got: bool)
      requires server.worker == this && server.Valid() && position == Waiting && server.wqIn.Awake()
      modifies this, server.wqIn
      ensures server.Valid() && server.Same()
      ensures got == !old(server.wqIn.fetchCancelled) == !server.wqIn.fetchCancelled
      ensures got ==> position.Fetched? && old(server.wqIn.queue) == [(position.id, position.frame)] + server.wqIn.queue
      ensures if got then Follows(old(server.Abs()), [WorkerFetch], server.Abs()) else server.Abs() == old(server.Abs())
    {
      hide Inv, Server.Linked, Server.OnWire, Follows;
      ghost var s := server.Abs();
      server.LinkedFacts();
      var item := server.wqIn.EndFetch();
      got := item.Some?;
      if got {
        position := Fetched(item.value.0, item.value.1);
        server.Took(s, WorkerFetch);
      }
    }

    /** Looks the session up and lets it handle the frame: a closed connection's item is
        skipped; an inactive context would be erased, which never happens. */
    method Handle(server: Server, replies: seq<Frame>, active: bool) returns (handled: bool)
      requires server.worker == this && server.Valid() && position.Fetched? && AllWellFormed(replies)
      modifies this, server`hist
      ensures server.Valid() && server.Same()
      ensures Follows(old(server.Abs()), [WorkerHandle(replies, active)], server.Abs())
      ensures handled <==> old(position.id) in old(handlerTable)
      ensures handled ==>
                && position == Replying(old(position.id), replies, false)
                && handlerTable == old(handlerTable)[old(position.id) := active]
      ensures !handled ==> position == Waiting && handlerTable == old(handlerTable)
    {
      hide Inv, Server.Linked, Server.Queues, Enabled, Next, Follows;
      ghost var s := server.Abs();
      server.LinkedFacts();
      HandleIs(s, replies, active);
      var c := position.id;
      handled := false;
      if c !in handlerTable {
        position := Waiting;
      } else if !handlerTable[c] {
        assert false;
      } else {
        handled := true;
        server.hist := server.hist[c := server.hist[c].(ins :=
          server.hist[c].ins.(handed := server.hist[c].ins.handed + [position.frame]))];
        handlerTable := handlerTable[c := active];
        position := Replying(c, replies, false);
      }
      server.Took(s, WorkerHandle(replies, active));
    }

    method PushItem(server: Server)
      requires server.worker == this && server.Valid() && position.Replying? && position.todo != [] && !position.owed
      modifies this, server`hist, server.wqOut
      ensures server.Valid() && server.Same()
      ensures Follows(old(server.Abs()), [WorkerPush], server.Abs())
      ensures server.wqOut.queue == old(server.wqOut.queue) + [(old(position.id), old(position.todo)[0])]
      ensures position == Replying(old(position.id), old(position.todo)[1..], true)
    {
      hide Inv, Server.Linked, Enabled, Next, Follows;
      ghost var s := server.Abs();
      server.LinkedFacts();
      PushIs(s);
      var c, f := position.id, position.todo[0];
      server.wqOut.PushItem((c, f));
      server.hist := server.hist[c := server.hist[c].(outs :=
        server.hist[c].outs.(replied := server.hist[c].outs.replied + [f]))];
      position := Replying(c, position.todo[1..], true);
      server.Took(s, WorkerPush);
    }

    method Notify(server: Server)
      requires server.worker == this && server.Valid() && position.Replying? && position.owed
      modifies this, server`eventCount
      ensures server.Valid() && server.Same()
      ensures Follows(old(server.Abs()), [WorkerNotify], server.Abs())
      ensures server.eventCount == old(server.eventCount) + 1 && position == old(position).(owed := false)
    {
      hide Inv, Server.Linked, Server.Queues, Server.OnWire, Follows;
      ghost var s := server.Abs();
      server.LinkedFacts();
      server.eventCount := server.eventCount + 1;
      position := position.(owed := false);
      server.Took(s, WorkerNotify);
    }

    /** After the frame: a session that has gone inactive closes its connection. */
    method Finish(server: Server)
      requires server.worker == this && server.Valid() && position.Replying? && position.todo == [] && !position.owed
      modifies this, server
      ensures server.Valid() && server.repr == old(server.repr)
      ensures Follows(old(server.Abs()), [WorkerDone], server.Abs()) && position == Waiting
      ensures var c := old(position.id);
              if c in old(handlerTable) && !old(handlerTable)[c]
              then c !in server.fdInfoTable && c !in handlerTable
              else server.fdInfoTable == old(server.fdInfoTable) && handlerTable == old(handlerTable)
    {
      hide Inv, Server.Linked, Server.Queues, Enabled, Next, Follows;
      ghost var s := server.Abs();
      server.LinkedFacts();
      DoneIs(s);
      var c := position.id;
      position := Waiting;
      if c in handlerTable && !handlerTable[c] {
        server.DropContext(c);
        DestroyContext(c);
      }
      server.Took(s, WorkerDone);
    }

    /** writeFrame for one response: push, and later notify. */
    method SendReply(server: Server, ghost start: Sys, ghost done: seq<Action>) returns (ghost acts: seq<Action>)
      requires server.worker == this && server.Valid() && position.Replying? && position.todo != [] && !position.owed
      requires Follows(start, done, server.Abs())
      modifies this, server, server.wqIn, server.wqOut, server.repr
      ensures server.Valid() && fresh(server.repr - old(server.repr)) && Follows(start, acts, server.Abs())
      ensures position == Replying(old(position.id), old(position.todo)[1..], false)
      ensures Of(acts, true) == Of(done, true) + [WorkerPush, WorkerNotify]
    {
      hide Inv, Server.Linked, Server.Queues, Server.OnWire, Follows, Of;
      ghost var s0 := server.Abs();
      PushItem(server);
      ghost var s1 := server.Abs();
      FollowsAppend(start, done, s0, [WorkerPush], s1);
      ghost var others := server.EventLoopRuns();
      ghost var s2 := server.Abs();
      WorkerKept(s1, others, s2);
      FollowsAppend(start, done + [WorkerPush], s1, others, s2);
      Notify(server);
      ghost var s3 := server.Abs();
      FollowsAppend(start, done + [WorkerPush] + others, s2, [WorkerNotify], s3);
      ghost var more := server.EventLoopRuns();
      WorkerKept(s3, more, server.Abs());
      acts := done + [WorkerPush] + others + [WorkerNotify] + more;
      FollowsAppend(start, done + [WorkerPush] + others + [WorkerNotify], s3, more, server.Abs());
      OfStep(done, WorkerPush, others);
      OfStep(done + [WorkerPush] + others, WorkerNotify, more);
      AppendAssoc(Of(done, true), [WorkerPush], [WorkerNotify]);
    }

    /** writeFrame for every response, the event loop running in between. */
    method SendReplies(server: Server) returns (ghost acts: seq<Action>)
      requires server.worker == this && server.Valid() && position.Replying? && !position.owed
      modifies this, server, server.wqIn, server.wqOut, server.repr
      ensures server.Valid() && fresh(server.repr - old(server.repr))
      ensures Follows(old(server.Abs()), acts, server.Abs())
      ensures position == Replying(old(position.id), [], false)
      ensures Of(acts, true) == Sends(|old(position.todo)|)
    {
      hide Inv, Server.Linked, Server.Queues, Server.OnWire, Follows, Of;
      ghost var s := server.Abs();
      acts := server.EventLoopRuns();
      WorkerKept(s, acts, server.Abs());
      OfOther(acts, true);
      while position.todo != []
        invariant server.Valid() && fresh(server.repr - old(server.repr)) && Follows(s, acts, server.Abs())
        invariant position.Replying? && position.id == old(position.id) && !position.owed
        invariant |position.todo| <= |old(position.todo)|
        invariant Of(acts, true) == Sends(|old(position.todo)| - |position.todo|)
        decreases |position.todo|
      {
        acts := SendReply(server, s, acts);
      }
    }

    /** From a fetched item to the end of the turn. */
    method Process(server: Server, replies: seq<Frame>, active: bool) returns (ghost acts: seq<Action>)
      requires server.worker == this && server.Valid() && position.Fetched? && AllWellFormed(replies)
      modifies this, server, server.wqIn, server.wqOut, server.repr
      ensures server.Valid() && fresh(server.repr - old(server.repr))
      ensures Follows(old(server.Abs()), acts, server.Abs()) && position == Waiting
      ensures acts != [] && acts[0] == WorkerHandle(replies, active)
      ensures Of(acts, true) == Handling(old(position.id) in old(handlerTable), replies, active)
    {
      hide Inv, Server.Linked, Server.Queues, Server.OnWire, Follows, Of;
      ghost var s := server.Abs();
      var handled := Handle(server, replies, active);
      acts := [WorkerHandle(replies, active)];
      OfOne(acts[0]);
      if handled {
        ghost var s1 := server.Abs();
        ghost var sends := SendReplies(server);
        ghost var s2 := server.Abs();
        FollowsAppend(s, acts, s1, sends, s2);
        Finish(server);
        FollowsAppend(s, acts + sends, s2, [WorkerDone], server.Abs());
        OfAppend(acts, sends, true);
        OfAppend(acts + sends, [WorkerDone], true);
        OfOne(WorkerDone);
        AppendAssoc(acts, Sends(|replies|), [WorkerDone]);
        acts := acts + sends + [WorkerDone];
      }
    }

    /** One turn of the worker loop, interrupted by the event loop at every point: still
        blocked, cancelled, or a whole frame further. */
    method RunOnce(server: Server, replies: seq<Frame>, active: bool) returns (ghost acts: seq<Action>, ghost turn: Turn)
      requires server.worker == this && server.Valid() && position == Waiting && AllWellFormed(replies)
      modifies this, server, server.wqIn, server.wqOut, server.repr
      ensures server.Valid() && fresh(server.repr - old(server.repr))
      ensures Follows(old(server.Abs()), acts, server.Abs()) && position == Waiting
      ensures TurnDone(old(server.Abs()), acts, replies, active, turn, server.wqIn.queue)
    {
      hide Inv, Server.Linked, Server.OnWire, Follows, Of, Handling;
      ghost var s := server.Abs();
      server.LinkedFacts();
      server.wqIn.BeginFetch();
      turn := NoItem;
      acts := server.EventLoopRuns();
      ghost var s0 := server.Abs();
      WorkerKept(s, acts, s0);
      OfOther(acts, true);
      if !server.wqIn.Awake() {
        return;
      }
      var got := Fetch(server);
      if got {
        ghost var waited, s1 := acts, server.Abs();
        FollowsAppend(s, waited, s0, [WorkerFetch], s1);
        ghost var others := server.EventLoopRuns();
        ghost var s2 := server.Abs();
        WorkerKept(s1, others, s2);
        ghost var before := waited + [WorkerFetch] + others;
        FollowsAppend(s, waited + [WorkerFetch], s1, others, s2);
        ghost var rest := Process(server, replies, active);
        FollowsAppend(s, before, s2, rest, server.Abs());
        acts, turn := before + rest, TookItem(|waited|, |before|, s2);
        OfStep(waited, WorkerFetch, others);
        OfAppend(before, rest, true);
        TookAt(waited, others, rest);
      }
    }

    static lemma TookAt(waited: seq<Action>, others: seq<Action>, rest: seq<Action>)
      requires rest != []
      ensures var acts := waited + [WorkerFetch] + others + rest;
              var at := |waited + [WorkerFetch] + others|;
              && acts[..|waited|] == waited && acts[|waited|] == WorkerFetch
              && acts[..at] == waited + [WorkerFetch] + others && acts[at] == rest[0]
    {
    }
  }

  // ---------------------------------------------------------------- the event loop

  /** The flags of one epoll event on a client socket, and what has arrived there. */
  datatype Event = Event(c: int, err: bool, hup: bool, out: bool, readable: bool, arrived: seq<byte>, eof: bool)

  class Server {
    const worker: ServerWorker
    const wqIn: WorkQueue<Item>
    const wqOut: WorkQueue<Item>
    var fdInfoTable: map<int, ConnectionContext>
    var eventCount: nat

    // For specification: what the contexts stand for, where the loop is, the histories,
    // and the objects of all connections.
    ghost var conns: map<int, Conn>
    ghost var loop: Loop
    ghost var hist: map<int, Hist>
    ghost var stops: nat
    ghost var spurious: nat
    ghost var repr: set<object>

    ghost function Abs(): Sys
      reads this, worker, wqIn, wqOut
    {
      Sys(conns, worker.handlerTable, hist, wqIn.queue, wqOut.queue, eventCount, loop, worker.position, stops, spurious)
    }

    /** Table, contexts and loop as they were. */
    twostate predicate Same()
      reads this
    {
      fdInfoTable == old(fdInfoTable) && conns == old(conns) && repr == old(repr) && loop == old(loop)
    }

    /** Every context shows its connection, and no two share a buffer. */
    ghost predicate Linked()
      reads this`fdInfoTable, this`conns, this`repr, repr
    {
      && wqIn != wqOut && this !in repr && worker !in repr && wqIn !in repr && wqOut !in repr
      && conns.Keys == fdInfoTable.Keys
      && (forall c | c in fdInfoTable ::
            var ctx := fdInfoTable[c];
            ctx.framer in repr && ctx.Within(repr) && ctx.For(c, wqIn) && ctx.Shows(conns[c]))
      && (forall c, d | c in fdInfoTable && d in fdInfoTable && c != d :: fdInfoTable[c].Apart(fdInfoTable[d]))
    }

    /** The same for all contexts but that of `c`, whose objects are in `rest`. */
    ghost predicate OthersLinked(c: int, table: map<int, ConnectionContext>, shown: map<int, Conn>, rest: set<object>)
      reads rest
    {
      && (forall d | d in table && d != c ::
            var ctx := table[d];
            d in shown && ctx.framer in rest && ctx.Within(rest) && ctx.For(d, wqIn) && ctx.Shows(shown[d]))
      && (forall d, e | d in table && e in table && d != c && e != c && d != e :: table[d].Apart(table[e]))
    }

    lemma Unlink(c: int)
      requires Linked() && c in fdInfoTable
      ensures OthersLinked(c, fdInfoTable, conns, repr - fdInfoTable[c].Objects())
      ensures wqIn != wqOut && this !in repr && worker !in repr && wqIn !in repr && wqOut !in repr
      ensures fdInfoTable[c].Within(repr) && fdInfoTable[c].For(c, wqIn) && fdInfoTable[c].Shows(conns[c])
    {
      hide ConnectionContext.Shows;
      forall d | d in fdInfoTable && d != c ensures fdInfoTable[d].Within(repr - fdInfoTable[c].Objects()) {
        assert fdInfoTable[d].Apart(fdInfoTable[c]);
      }
    }

    lemma LeaveRoom(c: int, ctx: ConnectionContext)
      requires Linked() && c !in fdInfoTable
      ensures OthersLinked(c, fdInfoTable[c := ctx], conns, repr)
    {
      hide ConnectionContext.Shows, ConnectionContext.For, ConnectionContext.Within, ConnectionContext.Apart;
    }

    lemma Relink(c: int, shown: map<int, Conn>, rest: set<object>)
      requires c in fdInfoTable && OthersLinked(c, fdInfoTable, shown, rest)
      requires wqIn != wqOut && this !in repr && worker !in repr && wqIn !in repr && wqOut !in repr && rest <= repr
      requires fdInfoTable[c].Within(repr) && fdInfoTable[c].For(c, wqIn) && fdInfoTable[c].Objects() !! rest
      requires c in conns && fdInfoTable[c].Shows(conns[c]) && conns == shown[c := conns[c]]
      requires conns.Keys == fdInfoTable.Keys
      ensures Linked()
    {
      hide ConnectionContext.Shows, ConnectionContext.For;
    }

    ghost predicate Queues()
      reads wqIn, wqOut
    {
      wqIn.Valid() && wqOut.Valid() && wqIn.itemLimit == 0 && wqOut.itemLimit == 0
    }

    /** What the socket of an open connection carries is what its history says. */
    ghost predicate OnWire()
      reads this`fdInfoTable, this`hist, set c | c in fdInfoTable :: fdInfoTable[c].deframer.sock
    {
      forall c | c in fdInfoTable ::
        c in hist && fdInfoTable[c].deframer.sock.wire == hist[c].outs.before + hist[c].outs.part
    }

    ghost predicate OthersOnWire(c: int, table: map<int, ConnectionContext>, h: map<int, Hist>)
      reads set d | d in table && d != c :: table[d].deframer.sock
    {
      forall d | d in table && d != c :: d in h && table[d].deframer.sock.wire == h[d].outs.before + h[d].outs.part
    }

    lemma Unwire(c: int)
      requires OnWire() && Linked()
      ensures OthersOnWire(c, fdInfoTable, hist)
      ensures c in fdInfoTable ==>
                && c in hist && fdInfoTable[c].deframer.sock.wire == hist[c].outs.before + hist[c].outs.part
                && forall d | d in fdInfoTable && d != c :: fdInfoTable[d].deframer.sock != fdInfoTable[c].deframer.sock
    {
      hide ConnectionContext.Shows, ConnectionContext.Within, ConnectionContext.Apart;
    }

    lemma Rewire(c: int, table: map<int, ConnectionContext>, h: map<int, Hist>)
      requires OthersOnWire(c, table, h) && c in hist && hist == h[c := hist[c]]
      requires forall d | d in fdInfoTable && d != c :: d in table && table[d] == fdInfoTable[d]
      requires c in fdInfoTable ==> fdInfoTable[c].deframer.sock.wire == hist[c].outs.before + hist[c].outs.part
      ensures OnWire()
    {
    }

    ghost predicate Valid()
      reads this, worker, wqIn, wqOut, repr
      reads set c | c in fdInfoTable :: fdInfoTable[c].deframer.sock
    {
      Linked() && Queues() && OnWire() && Inv(Abs())
    }

    constructor ()
      ensures Valid() && Abs() == START && repr == {} && fresh(worker) && fresh(wqIn) && fresh(wqOut)
    {
      worker := new ServerWorker();
      wqIn := new WorkQueue<Item>(0);
      wqOut := new WorkQueue<Item>(0);
      fdInfoTable, conns, hist, repr := map[], map[], map[], {};
      eventCount, loop, stops, spurious := 0, Polling, 0, 0;
    }

    lemma LinkedFacts()
      requires Linked()
      ensures wqIn != wqOut && conns.Keys == fdInfoTable.Keys
      ensures this !in repr && worker !in repr && wqIn !in repr && wqOut !in repr
    {
    }

    /** The code has just done what the step `a` says. */
    lemma Took(s: Sys, a: Action)
      requires Inv(s) && Enabled(s, a) && Abs() == Next(s, a)
      ensures Inv(Abs()) && Follows(s, [a], Abs())
    {
      StepKeepsInv(s, a);
      FollowsOne(s, a);
    }

    /** Whatever the worker does while the event loop is between two of its steps. The
        contract allows any run of it (doing nothing is one), except that no connection
        closes while the event loop holds the lock of the table. */
    method WorkerRuns(locked: bool) returns (ghost acts: seq<Action>)
      requires Valid()
      modifies this, worker, wqIn, wqOut
      ensures Valid() && repr == old(repr)
      ensures Follows(old(Abs()), acts, Abs()) && forall i | 0 <= i < |acts| :: ByWorker(acts[i])
      ensures forall c | c in fdInfoTable :: c in old(fdInfoTable) && fdInfoTable[c] == old(fdInfoTable[c])
      ensures locked ==> fdInfoTable == old(fdInfoTable)
    {
      acts := [];
      FollowsNone(Abs());
    }

    /** Whatever the event loop does while the worker is between two of its steps. */
    method EventLoopRuns() returns (ghost acts: seq<Action>)
      requires Valid()
      modifies this, worker, wqIn, wqOut, repr
      ensures Valid() && fresh(repr - old(repr))
      ensures Follows(old(Abs()), acts, Abs()) && forall i | 0 <= i < |acts| :: ByEventLoop(acts[i])
      ensures wqIn.fetchCancelled <==> old(wqIn.fetchCancelled) || Action.Stop in acts
    {
      acts := [];
      FollowsNone(Abs());
    }

    method CreateHandler(c: int, mem: seq<byte>, pad: byte) returns (ghost acts: seq<Action>)
      requires Valid() && Unused(Abs(), c) && |mem| == D.MAX_LEN
      modifies this, worker
      ensures Valid() && fresh(repr - old(repr))
      ensures Follows(old(Abs()), acts, Abs()) && acts == [Accept(c, mem, pad)]
      ensures fdInfoTable.Keys == old(fdInfoTable.Keys) + {c} && worker.handlerTable == old(worker.handlerTable)[c := true]
    {
      hide Linked, Queues, OnWire, Inv, Follows, Enabled, Next, Opened, ConnectionContext.Shows, Unused;
      ghost var s := Abs();
      AcceptEnabled(s, c, mem, pad);
      AcceptIs(s, c, mem, pad);
      LinkedFacts();
      var ctx := new ConnectionContext(c, wqIn, mem, pad);
      Enter(c, ctx, Opened(c, mem, pad));
      LinkedFacts();
      worker.CreateContext(c);
      acts := [Accept(c, mem, pad)];
      Took(s, acts[0]);
    }

    method Enter(c: int, ctx: ConnectionContext, ghost conn: Conn)
      requires Linked() && OnWire() && c !in fdInfoTable && ctx.For(c, wqIn) && ctx.Shows(conn) && ctx.framer.msg == null
      requires ctx.Objects() !! repr && ctx.deframer.sock.wire == []
      modifies this`fdInfoTable, this`conns, this`repr, this`hist
      ensures Linked() && OnWire() && conns == old(conns)[c := conn] && hist == old(hist)[c := NO_HIST]
      ensures repr == old(repr) + {ctx.framer, ctx.framer.sock, ctx.deframer, ctx.deframer.sock}
    {
      hide Linked, OnWire, OthersOnWire, ConnectionContext.Shows, ConnectionContext.For;
      ghost var table, h := fdInfoTable, hist;
      Unwire(c);
      Install(c, ctx, conn);
      LinkedFacts();
      hist := hist[c := NO_HIST];
      Rewire(c, table, h);
    }

    method Install(c: int, ctx: ConnectionContext, ghost conn: Conn)
      requires Linked() && c !in fdInfoTable && ctx.For(c, wqIn) && ctx.Shows(conn) && ctx.framer.msg == null
      requires ctx.Objects() !! repr
      modifies this`fdInfoTable, this`conns, this`repr
      ensures Linked() && conns == old(conns)[c := conn] && fdInfoTable == old(fdInfoTable)[c := ctx]
      ensures repr == old(repr) + {ctx.framer, ctx.framer.sock, ctx.deframer, ctx.deframer.sock}
    {
      hide ConnectionContext.Shows, OthersLinked, Linked;
      LinkedFacts();
      LeaveRoom(c, ctx);
      ghost var shown, rest := conns, repr;
      fdInfoTable := fdInfoTable[c := ctx];
      conns := conns[c := conn];
      repr := repr + {ctx.framer, ctx.framer.sock, ctx.deframer, ctx.deframer.sock};
      Relink(c, shown, rest);
    }

    /** closeClient: an unknown descriptor is ignored; a known one leaves both tables. */
    method CloseClient(c: int) returns (ghost acts: seq<Action>)
      requires Valid()
      modifies this, worker
      ensures Valid() && repr == old(repr)
      ensures Follows(old(Abs()), acts, Abs())
      ensures acts == if c in old(fdInfoTable) then [Close(c)] else []
      ensures fdInfoTable == old(fdInfoTable) - {c} && c !in worker.handlerTable
    {
      hide Linked, Queues, Inv, Follows, Enabled, Next;
      ghost var s := Abs();
      LinkedFacts();
      if c !in fdInfoTable {
        acts := [];
        FollowsNone(s);
        TablesEqual(s);
        return;
      }
      CloseIs(s, c);
      DropContext(c);
      worker.DestroyContext(c);
      acts := [Close(c)];
      Took(s, acts[0]);
    }

    method DropContext(c: int)
      requires Linked()
      modifies this`fdInfoTable, this`conns
      ensures Linked() && conns == old(conns) - {c} && fdInfoTable == old(fdInfoTable) - {c}
    {
      hide ConnectionContext.Shows, ConnectionContext.For, ConnectionContext.Within, ConnectionContext.Apart;
      fdInfoTable := fdInfoTable - {c};
      conns := conns - {c};
    }

    /** The reader object of an open connection makes one attempt. */
    method ReadSocket(c: int, ctx: ConnectionContext) returns (more: bool, ghost r: F.RecvResult)
      requires Linked() && Queues() && c in fdInfoTable && fdInfoTable[c] == ctx
      modifies this`conns, this`repr, wqIn, ctx.framer, ctx.framer.msg, ctx.framer.sock
      ensures Linked() && Queues() && fresh(repr - old(repr))
      ensures var rx := old(conns)[c].rx;
              && F.RxValid(rx) && F.Delivers(F.Want(rx), r)
              && var o := F.RxStep(rx, r);
                 && conns == old(conns)[c := old(conns)[c].(rx := o.state)] && more == o.more
                 && wqIn.queue == old(wqIn.queue) + F.Tag(c, o.pushed)
      ensures old(ctx.framer.sock.incoming) == F.BytesOf(r) + ctx.framer.sock.incoming
      ensures ctx.framer.msg == old(ctx.framer.msg) || ctx.framer.msg == null || fresh(ctx.framer.msg)
    {
      hide F.RxStep, F.Tag, F.Delivers, F.Want, F.RxValid, ConnectionContext.Shows, OthersLinked, Linked;
      LinkedFacts();
      Unlink(c);
      ghost var shown, rest := conns, repr - ctx.Objects();
      more, r := ctx.TryRead(conns[c]);
      conns := conns[c := conns[c].(rx := F.RxStep(conns[c].rx, r).state)];
      if ctx.framer.msg != null {
        repr := repr + {ctx.framer.msg};
      }
      Relink(c, shown, rest);
    }

    /** One attempt to read is the read step of its connection. */
    method TryRead(c: int) returns (more: bool, ghost r: F.RecvResult)
      requires Valid() && c in fdInfoTable
      modifies this, wqIn, fdInfoTable[c].framer, fdInfoTable[c].framer.msg, fdInfoTable[c].framer.sock
      ensures Valid() && fresh(repr - old(repr)) && fdInfoTable == old(fdInfoTable)
      ensures Follows(old(Abs()), [Read(c, r)], Abs())
      ensures c in old(conns) && F.RxValid(old(conns)[c].rx) && F.Delivers(F.Want(old(conns)[c].rx), r)
      ensures conns == old(conns)[c := old(conns)[c].(rx := F.RxStep(old(conns)[c].rx, r).state)]
      ensures more == F.RxStep(old(conns)[c].rx, r).more
      ensures c in hist && c in old(hist)
      ensures hist[c].ins.parsed == old(hist)[c].ins.parsed + F.RxStep(old(conns)[c].rx, r).pushed
      ensures hist[c].ins.consumed == old(hist)[c].ins.consumed + F.BytesOf(r)
      ensures var sock := fdInfoTable[c].framer.sock; old(sock.incoming) == F.BytesOf(r) + sock.incoming
      ensures var reader := fdInfoTable[c].framer; reader.msg == old(reader.msg) || reader.msg == null || fresh(reader.msg)
    {
      hide Inv, Linked, Queues, Enabled, Next, Follows;
      hide F.RxStep, F.Delivers, F.Want, F.RxValid, F.Tag, F.NextCut, F.LenTransferOk, ConnValid;
      ghost var s := Abs();
      LinkedFacts();
      more, r := ReadSocket(c, fdInfoTable[c]);
      ReadIs(s, c, r);
      hist := hist[c := hist[c].(ins := ReadIns(s.conns[c], hist[c].ins, r))];
      Took(s, Read(c, r));
    }

    /** The writer object of an open connection makes one attempt. */
    method WriteSocket(c: int, ctx: ConnectionContext) returns (more: bool, ghost r: D.SendResult)
      requires Linked() && c in fdInfoTable && fdInfoTable[c] == ctx
      modifies this`conns, ctx.deframer, ctx.deframer.sock
      ensures Linked()
      ensures var tx := old(conns)[c].tx;
              && D.TxValid(tx) && D.Takes(|D.Offer(tx)|, r)
              && var o := D.TxStep(tx, r);
                 && conns == old(conns)[c := old(conns)[c].(tx := o.state)] && more == o.more
                 && ctx.deframer.sock.wire == old(ctx.deframer.sock.wire) + o.wire
    {
      hide D.TxStep, D.Takes, D.Offer, D.TxValid, ConnectionContext.Shows, OthersLinked, Linked;
      LinkedFacts();
      Unlink(c);
      ghost var shown, rest := conns, repr - ctx.Objects();
      more, r := ctx.TryWrite(conns[c]);
      conns := conns[c := conns[c].(tx := D.TxStep(conns[c].tx, r).state)];
      Relink(c, shown, rest);
    }

    /** One attempt to write is the write step of its connection. */
    method TryWrite(c: int) returns (more: bool, ghost r: D.SendResult)
      requires Valid() && c in fdInfoTable
      modifies this, fdInfoTable[c].deframer, fdInfoTable[c].deframer.sock
      ensures Valid() && repr == old(repr) && fdInfoTable == old(fdInfoTable)
      ensures loop == old(loop) && wqOut.queue == old(wqOut.queue)
      ensures Follows(old(Abs()), [Write(c, r)], Abs())
      ensures c in old(conns) && D.TxValid(old(conns)[c].tx) && D.Takes(|D.Offer(old(conns)[c].tx)|, r)
      ensures conns == old(conns)[c := old(conns)[c].(tx := D.TxStep(old(conns)[c].tx, r).state)]
      ensures more == D.TxStep(old(conns)[c].tx, r).more
    {
      hide Inv, Linked, Queues, OnWire, OthersOnWire, Enabled, Next, Follows;
      hide D.TxStep, D.Takes, D.Offer, D.TxValid, D.NextCut, D.LenSendOk, ConnValid;
      ghost var s := Abs();
      LinkedFacts();
      Unwire(c);
      more, r := WriteSocket(c, fdInfoTable[c]);
      WriteIs(s, c, r);
      hist := hist[c := hist[c].(outs := WriteOuts(s.conns[c], hist[c].outs, r))];
      AppendAssoc(s.hist[c].outs.before, s.hist[c].outs.part, D.TxStep(s.conns[c].tx, r).wire);
      Rewire(c, fdInfoTable, s.hist);
      Took(s, Write(c, r));
    }

    lemma OwnObjects(c: int)
      requires Linked() && c in fdInfoTable
      ensures fdInfoTable[c].Within(repr)
    {
      Unlink(c);
    }

    /** The bytes the reader of `c` has taken and those its socket still has. */
    ghost function Stream(c: int): seq<byte>
      requires c in fdInfoTable && c in hist
      reads this, fdInfoTable[c].framer.sock
    {
      hist[c].ins.consumed + fdInfoTable[c].framer.sock.incoming
    }

    /** Reading makes no progress: no data, the end of the stream, a byte that cannot start
        a frame, or an empty frame just pushed. */
    ghost predicate Stopped(c: int, last: F.RecvResult)
      reads this
    {
      c in conns && c in hist && F.RxValid(conns[c].rx) && FO.Idle(conns[c].rx, hist[c].ins.parsed, last)
    }

    /** One attempt, and whatever the worker does after it: the table is locked. */
    method ReadOnce(c: int) returns (more: bool, ghost r: F.RecvResult, ghost others: seq<Action>)
      requires Valid() && c in fdInfoTable && c in hist && c in conns
      modifies this, worker, wqIn, wqOut, fdInfoTable[c].framer, fdInfoTable[c].framer.msg, fdInfoTable[c].framer.sock
      ensures Valid() && fresh(repr - old(repr)) && fdInfoTable == old(fdInfoTable)
      ensures Follows(old(Abs()), [Read(c, r)] + others, Abs()) && forall i | 0 <= i < |others| :: ByWorker(others[i])
      ensures var reader := fdInfoTable[c].framer; reader.msg == old(reader.msg) || reader.msg == null || fresh(reader.msg)
      ensures c in conns && F.RxValid(old(conns)[c].rx) && F.Delivers(F.Want(old(conns)[c].rx), r)
      ensures var o := F.RxStep(old(conns)[c].rx, r); conns[c] == old(conns)[c].(rx := o.state) && more == o.more
      ensures more ==> |fdInfoTable[c].framer.sock.incoming| < |old(fdInfoTable[c].framer.sock.incoming)|
      ensures c in hist && Stream(c) == old(Stream(c)) && (more || Stopped(c, r))
    {
      hide Inv, Linked, Queues, OnWire, Follows, F.RxStep, F.Delivers, F.Want, F.RxValid, FO.Idle;
      ghost var s := Abs();
      more, r := TryRead(c);
      F.MoreMeansBytes(s.conns[c].rx, r);
      FO.StopsIdle(s.conns[c].rx, r, s.hist[c].ins.parsed);
      AppendAssoc(s.hist[c].ins.consumed, F.BytesOf(r), fdInfoTable[c].framer.sock.incoming);
      ghost var t := Abs();
      LinkedFacts();
      others := WorkerRuns(true);
      FollowsAppend(s, [Read(c, r)], t, others, Abs());
      UntouchedAlong(t, others, Abs());
      LinkedFacts();
    }

    static lemma AppendNothing<X>(a: seq<X>)
      ensures a + [] == a
    {
    }

    lemma OpenHasHistory(c: int)
      requires Inv(Abs()) && c in conns
      ensures c in hist
    {
    }

    /** The attempts of readAll, with the worker running between them. Every byte gone from
        the socket was taken by the reader. */
    method ReadAll(c: int) returns (ghost acts: seq<Action>, ghost rs: seq<F.RecvResult>)
      requires Valid() && c in fdInfoTable && c in hist && c in conns
      modifies this, worker, wqIn, wqOut, fdInfoTable[c].framer, fdInfoTable[c].framer.msg, fdInfoTable[c].framer.sock
      ensures Valid() && fresh(repr - old(repr)) && fdInfoTable == old(fdInfoTable)
      ensures Follows(old(Abs()), acts, Abs()) && Of(acts, false) == Reads(c, rs)
      ensures F.RxValid(old(conns)[c].rx) && F.ReadUp(old(conns)[c].rx, rs)
      ensures c in conns && conns[c] == old(conns)[c].(rx := F.RxRun(old(conns)[c].rx, rs).state)
      ensures c in hist && Stream(c) == old(Stream(c)) && Stopped(c, rs[|rs|-1])
    {
      hide Inv, Linked, Queues, OnWire, Follows, Stopped, F.RxStep, F.Delivers, F.Want, Reading;
      ghost var s := Abs();
      OpenIsValid(c);
      ghost var rx0 := conns[c].rx;
      acts, rs := [], [];
      FollowsNone(s);
      ReadingStarts(c, rx0);
      var more := true;
      while more
        invariant Valid() && Follows(s, acts, Abs()) && fdInfoTable == old(fdInfoTable) && fresh(repr - old(repr))
        invariant var reader := fdInfoTable[c].framer; reader.msg == old(reader.msg) || reader.msg == null || fresh(reader.msg)
        invariant c in conns && conns[c] == old(conns)[c].(rx := conns[c].rx) && Reading(c, rx0, acts, rs, conns[c].rx, more)
        invariant c in hist && Stream(c) == old(Stream(c))
        invariant !more ==> rs != [] && Stopped(c, rs[|rs|-1])
        decreases more, |fdInfoTable[c].framer.sock.incoming|
      {
        ghost var before, rx := Abs(), conns[c].rx;
        ghost var r, others;
        more, r, others := ReadOnce(c);
        FollowsAppend(s, acts, before, [Read(c, r)] + others, Abs());
        ReadingOn(c, rx0, acts, rs, rx, r, others);
        AppendAssoc(acts, [Read(c, r)], others);
        acts, rs := acts + [Read(c, r)] + others, rs + [r];
      }
      ReadingDone(c, rx0, acts, rs, conns[c].rx);
    }

    static lemma ReadingDone(c: int, rx0: F.RxState, acts: seq<Action>, rs: seq<F.RecvResult>, rx: F.RxState)
      requires Reading(c, rx0, acts, rs, rx, false) && rs != []
      ensures Of(acts, false) == Reads(c, rs) && F.RxValid(rx0) && F.ReadUp(rx0, rs) && F.RxRun(rx0, rs).state == rx
    {
    }

    lemma OpenIsValid(c: int)
      requires Linked() && c in fdInfoTable
      ensures c in conns && F.RxValid(conns[c].rx) && D.TxValid(conns[c].tx)
      ensures conns[c].rx.readEOF == fdInfoTable[c].framer.readEOF
      ensures conns[c].tx.inProgress == fdInfoTable[c].deframer.writeInProgress
    {
      hide ConnectionContext.For, ConnectionContext.Within, ConnectionContext.Apart, F.RxRun, F.Deliverable, D.TxRun, D.Sendable;
      assert fdInfoTable[c].Shows(conns[c]);
    }

    /** readAll, and a close exactly when that ended at the end of the stream. */
    method HandleDataIn(c: int) returns (ghost acts: seq<Action>, ghost rs: seq<F.RecvResult>)
      requires Valid() && c in fdInfoTable
      modifies this, worker, wqIn, wqOut, fdInfoTable[c].framer, fdInfoTable[c].framer.msg, fdInfoTable[c].framer.sock
      ensures Valid() && fresh(repr - old(repr))
      ensures Follows(old(Abs()), acts, Abs())
      ensures c in old(conns) && c in old(hist) && F.RxValid(old(conns)[c].rx) && F.ReadUp(old(conns)[c].rx, rs)
      ensures var ended := F.RxRun(old(conns)[c].rx, rs).state.readEOF;
              && Of(acts, false) == Reads(c, rs) + (if ended then [Close(c)] else [])
              && fdInfoTable == (if ended then old(fdInfoTable) - {c} else old(fdInfoTable))
              && (!ended ==> c in hist && Stream(c) == old(Stream(c)) && Stopped(c, rs[|rs|-1]))
    {
      hide Inv, Linked, Queues, OnWire, Follows, Stopped, F.RxRun, F.ReadUp, F.RxValid, Of;
      ghost var s := Abs();
      LinkedFacts();
      OpenHasHistory(c);
      acts, rs := ReadAll(c);
      OpenIsValid(c);
      ghost var ended := conns[c].rx.readEOF;
      if fdInfoTable[c].framer.readEOF {
        ghost var before := Abs();
        ghost var close := CloseClient(c);
        FollowsAppend(s, acts, before, close, Abs());
        OfStep(acts, Close(c), []);
        AppendNothing(acts + [Close(c)]);
        acts := acts + [Close(c)];
      } else {
        AppendNothing(Of(acts, false));
      }
    }

    /** One attempt, and whatever the worker does after it. */
    method WriteOnce(c: int) returns (more: bool, ghost r: D.SendResult, ghost others: seq<Action>)
      requires Valid() && c in fdInfoTable
      modifies this, worker, wqIn, wqOut, fdInfoTable[c].deframer, fdInfoTable[c].deframer.sock
      ensures Valid() && repr == old(repr) && fdInfoTable == old(fdInfoTable)
      ensures Follows(old(Abs()), [Write(c, r)] + others, Abs()) && forall i | 0 <= i < |others| :: ByWorker(others[i])
      ensures c in conns && c in old(conns) && D.TxValid(old(conns)[c].tx) && D.Takes(|D.Offer(old(conns)[c].tx)|, r)
      ensures var o := D.TxStep(old(conns)[c].tx, r); conns[c] == old(conns)[c].(tx := o.state) && more == o.more
      ensures more ==> D.BytesLeft(conns[c].tx) < old(D.BytesLeft(conns[c].tx))
      ensures loop == old(loop) && old(wqOut.queue) <= wqOut.queue
    {
      hide Inv, Linked, Queues, OnWire, Follows, D.TxStep, D.Takes, D.Offer, D.TxValid, D.BytesLeft;
      ghost var s := Abs();
      more, r := TryWrite(c);
      D.MoreMeansLess(s.conns[c].tx, r);
      ghost var t := Abs();
      LinkedFacts();
      others := WorkerRuns(true);
      FollowsAppend(s, [Write(c, r)], t, others, Abs());
      UntouchedAlong(t, others, Abs());
      LinkedFacts();
    }

    /** writeAll, with the worker running between the attempts. */
    method WriteAll(c: int) returns (ghost acts: seq<Action>, ghost rs: seq<D.SendResult>)
      requires Valid() && c in fdInfoTable
      modifies this, worker, wqIn, wqOut, fdInfoTable[c].deframer, fdInfoTable[c].deframer.sock
      ensures Valid() && repr == old(repr) && fdInfoTable == old(fdInfoTable)
      ensures Follows(old(Abs()), acts, Abs()) && Of(acts, false) == Writes(c, rs)
      ensures c in old(conns) && D.TxValid(old(conns)[c].tx) && D.WrittenOut(old(conns)[c].tx, rs)
      ensures c in conns && conns[c] == old(conns)[c].(tx := D.TxRun(old(conns)[c].tx, rs).state)
      ensures loop == old(loop) && old(wqOut.queue) <= wqOut.queue
    {
      hide Inv, Linked, Queues, OnWire, Follows, D.BytesLeft, D.TxStep, D.Takes, D.Offer, Writing;
      ghost var s := Abs();
      LinkedFacts();
      OpenIsValid(c);
      ghost var tx0 := conns[c].tx;
      acts, rs := [], [];
      FollowsNone(s);
      WritingStarts(c, tx0);
      var more := true;
      while more
        invariant Valid() && Follows(s, acts, Abs()) && fdInfoTable == old(fdInfoTable) && repr == old(repr)
        invariant c in conns && conns[c] == old(conns)[c].(tx := conns[c].tx) && Writing(c, tx0, acts, rs, conns[c].tx, more)
        invariant loop == old(loop) && old(wqOut.queue) <= wqOut.queue && (!more ==> rs != [])
        decreases more, D.BytesLeft(conns[c].tx)
      {
        ghost var before, tx := Abs(), conns[c].tx;
        ghost var r, others;
        more, r, others := WriteOnce(c);
        FollowsAppend(s, acts, before, [Write(c, r)] + others, Abs());
        WritingOn(c, tx0, acts, rs, tx, r, others);
        AppendAssoc(acts, [Write(c, r)], others);
        acts, rs := acts + [Write(c, r)] + others, rs + [r];
      }
      WritingDone(c, tx0, acts, rs, conns[c].tx);
    }

    static lemma WritingDone(c: int, tx0: D.TxState, acts: seq<Action>, rs: seq<D.SendResult>, tx: D.TxState)
      requires Writing(c, tx0, acts, rs, tx, false) && rs != []
      ensures Of(acts, false) == Writes(c, rs) && D.TxValid(tx0) && D.WrittenOut(tx0, rs) && D.TxRun(tx0, rs).state == tx
    {
    }

    /** A response moves from the queue into the event loop's hands. */
    method FetchItem() returns (item: Option<Item>)
      requires Valid() && loop.Notified?
      modifies this, wqOut
      ensures Valid() && repr == old(repr) && fdInfoTable == old(fdInfoTable)
      ensures Follows(old(Abs()), [FetchNext], Abs())
      ensures item.None? ==> loop.Polling? && old(wqOut.queue) == [] == wqOut.queue
      ensures item.Some? ==> loop == Holding(item.value.0, item.value.1) && old(wqOut.queue) == [item.value] + wqOut.queue
    {
      hide Inv, Linked, OnWire, Enabled, Next, Follows;
      ghost var s := Abs();
      LinkedFacts();
      FetchIs(s);
      item := wqOut.FetchItemNonBlocking();
      if item.None? {
        loop, spurious := Polling, spurious + 1;
      } else {
        loop := Holding(item.value.0, item.value.1);
      }
      Took(s, FetchNext);
    }

    /** setSentItem: the response meets the writer of its connection, if that is open. */
    method OfferSocket(c: int, ctx: ConnectionContext, f: Frame, beyond: seq<byte>, behind: byte) returns (taken: bool)
      requires Linked() && c in fdInfoTable && fdInfoTable[c] == ctx && WellFormed(f) && |f.msg| + |beyond| == D.MAX_LEN
      modifies this`conns, ctx.deframer
      ensures Linked() && c in old(conns)
      ensures conns == old(conns)[c := old(conns)[c].(tx := OfferTx(old(conns)[c], f, beyond, behind))]
      ensures taken == !old(conns)[c].tx.inProgress && (taken ==> conns[c].tx == D.TxStart(f, beyond, behind))
    {
      hide OfferTx, ConnectionContext.Shows, OthersLinked, Linked;
      LinkedFacts();
      Unlink(c);
      if !conns[c].tx.inProgress {
        OfferedToIdle(conns[c], f, beyond, behind);
      }
      ghost var shown, rest := conns, repr - ctx.Objects();
      taken := ctx.Offer(f, beyond, behind, conns[c]);
      conns := conns[c := conns[c].(tx := OfferTx(conns[c], f, beyond, behind))];
      Relink(c, shown, rest);
    }

    static lemma OfferedToIdle(conn: Conn, f: Frame, beyond: seq<byte>, behind: byte)
      requires WellFormed(f) && |f.msg| + |beyond| == D.MAX_LEN && !conn.tx.inProgress
      ensures OfferTx(conn, f, beyond, behind) == D.TxStart(f, beyond, behind)
    {
    }

    method SetSentItem(c: int, f: Frame, beyond: seq<byte>, behind: byte) returns (taken: bool)
      requires Valid() && loop == Holding(c, f) && |f.msg| + |beyond| == D.MAX_LEN
      modifies this, if c in fdInfoTable then {fdInfoTable[c].deframer} else {}
      ensures Valid() && repr == old(repr) && fdInfoTable == old(fdInfoTable)
      ensures loop.Polling? && wqOut.queue == old(wqOut.queue)
      ensures Follows(old(Abs()), [OfferNext(beyond, behind)], Abs())
      ensures conns.Keys == old(conns.Keys)
      ensures taken <==> c in old(conns) && !old(conns)[c].tx.inProgress
      ensures taken ==> WellFormed(f) && c in conns && conns[c].tx == D.TxStart(f, beyond, behind)
    {
      hide Inv, Linked, Queues, OnWire, OthersOnWire, Enabled, Next, Follows, OfferTx, D.TxStart;
      ghost var s := Abs();
      LinkedFacts();
      Unwire(c);
      OfferIs(s, beyond, behind);
      taken := false;
      if c in fdInfoTable {
        taken := OfferSocket(c, fdInfoTable[c], f, beyond, behind);
        hist := hist[c := hist[c].(outs := OfferOuts(s.conns[c], hist[c].outs, f))];
        AppendNothing(s.hist[c].outs.before + s.hist[c].outs.part);
        Rewire(c, fdInfoTable, s.hist);
      }
      loop := Polling;
      Took(s, OfferNext(beyond, behind));
    }

    /** The writers and their sockets. */
    ghost function Writers(): (objects: set<object>)
      reads this
    {
      (set c | c in fdInfoTable :: fdInfoTable[c].deframer) + (set c | c in fdInfoTable :: fdInfoTable[c].deframer.sock)
    }

    /** handleDataOut: one response at most leaves the queue; it is written if its connection
        is open and its writer idle. The worker may queue others, or close connections,
        before the fetch, before the table is locked and between the attempts to write. */
    method HandleDataOut() returns (ghost acts: seq<Action>, ghost o: Outcome)
      requires Valid() && loop.Notified?
      modifies this, worker, wqIn, wqOut, Writers()
      ensures Valid() && repr == old(repr)
      ensures Follows(old(Abs()), acts, Abs()) && loop.Polling?
      ensures OutServed(old(Abs()), acts, o)
      ensures old(wqOut.queue) != [] ==>
                && old(wqOut.queue)[1..] <= wqOut.queue
                && o.Offered? && o.met.loop == Holding(old(wqOut.queue)[0].0, old(wqOut.queue)[0].1)
    {
      hide Inv, Linked, Queues, OnWire, Follows, Taken, Of;
      ghost var s := Abs();
      ghost var pre := WorkerRuns(false);
      ghost var s0 := Abs();
      UntouchedAlong(s, pre, s0);
      var item := FetchItem();
      ghost var s1 := Abs();
      FollowsAppend(s, pre, s0, [FetchNext], s1);
      if item.None? {
        acts, o := pre + [FetchNext], NoResponse;
        FetchedOnly(pre, []);
        AppendNothing(acts);
      } else {
        ghost var others := WorkerRuns(false);
        ghost var s2 := Abs();
        UntouchedAlong(s1, others, s2);
        FollowsAppend(s, pre + [FetchNext], s1, others, s2);
        ghost var rest, rs := Deliver(item.value.0, item.value.1);
        ghost var before := pre + [FetchNext] + others;
        FollowsAppend(s, before, s2, rest, Abs());
        FetchedOnly(pre, others);
        OfAppend(before, rest, false);
        acts, o := before + rest, Offered(|before|, s2, rs);
        assert acts[..|before|] == before && acts[|before|] == rest[0];
        AppendAssoc([FetchNext], [rest[0]], Writes(item.value.0, rs));
      }
    }

    static lemma FetchedOnly(pre: seq<Action>, others: seq<Action>)
      requires forall i | 0 <= i < |pre| :: ByWorker(pre[i])
      requires forall i | 0 <= i < |others| :: ByWorker(others[i])
      ensures Of(pre + [FetchNext] + others, false) == [FetchNext]
    {
      OfStep(pre, FetchNext, others);
      OfOther(pre, false);
    }

    /** With the table locked: offer, and write what was taken. */
    method Deliver(c: int, f: Frame) returns (ghost acts: seq<Action>, ghost rs: seq<D.SendResult>)
      requires Valid() && loop == Holding(c, f)
      modifies this, worker, wqIn, wqOut, Writers()
      ensures Valid() && repr == old(repr)
      ensures Follows(old(Abs()), acts, Abs()) && loop.Polling? && old(wqOut.queue) <= wqOut.queue
      ensures acts != [] && Taken(old(Abs()), acts[0], rs) && Of(acts, false) == [acts[0]] + Writes(c, rs)
    {
      hide Inv, Linked, Queues, OnWire, Follows, Of, D.TxStart, D.WrittenOut;
      ghost var s := Abs();
      HeldFits();
      LinkedFacts();
      var beyond := seq(D.MAX_LEN - |f.msg|, i => 0 as byte);
      var taken := SetSentItem(c, f, beyond, 0);
      ghost var offer := OfferNext(beyond, 0);
      acts, rs := [offer], [];
      OfOne(offer);
      if taken {
        ghost var before := Abs();
        ghost var writes;
        writes, rs := WriteAll(c);
        FollowsAppend(s, acts, before, writes, Abs());
        OfAppend(acts, writes, false);
        acts := acts + writes;
      }
    }

    lemma HeldFits()
      requires Inv(Abs()) && loop.Holding?
      ensures WellFormed(loop.frame) && |loop.frame.msg| <= D.MAX_LEN
    {
    }

    /** The eventfd became readable: one token, one handleDataOut. */
    method OnEventFd() returns (ghost acts: seq<Action>, ghost o: Outcome)
      requires Valid() && loop.Polling?
      modifies this, worker, wqIn, wqOut, Writers()
      ensures Valid() && repr == old(repr)
      ensures Follows(old(Abs()), acts, Abs()) && loop.Polling?
      ensures old(eventCount) == 0 ==> acts == []
      ensures old(eventCount) > 0 ==>
                && acts != [] && acts[0] == TakeToken && OutServed(Next(old(Abs()), TakeToken), acts[1..], o)
                && (old(wqOut.queue) != [] ==>
                      && old(wqOut.queue)[1..] <= wqOut.queue
                      && o.Offered? && o.met.loop == Holding(old(wqOut.queue)[0].0, old(wqOut.queue)[0].1))
    {
      hide Inv, Linked, Queues, OnWire, Follows, OutServed;
      ghost var s := Abs();
      LinkedFacts();
      o := NoResponse;
      if eventCount == 0 {
        acts := [];
        FollowsNone(s);
        return;
      }
      eventCount, loop := eventCount - 1, Notified;
      Took(s, TakeToken);
      ghost var before := Abs();
      ghost var out;
      out, o := HandleDataOut();
      FollowsAppend(s, [TakeToken], before, out, Abs());
      acts := [TakeToken] + out;
      assert acts[1..] == out;
    }

    /** One event on a client socket, with the table locked: error and hang-up close;
        otherwise a pending write is resumed, then input is read, each until an attempt
        makes no progress, and the end of the stream closes. */
    method OnClientEvent(ev: Event) returns (ghost acts: seq<Action>, ghost ws: seq<D.SendResult>, ghost rs: seq<F.RecvResult>)
      requires Valid()
      modifies this, worker, wqIn, wqOut, repr
      ensures Valid() && fresh(repr - old(repr))
      ensures Follows(old(Abs()), acts, Abs())
      ensures ev.c !in old(fdInfoTable) ==> acts == []
      ensures ev.c in old(fdInfoTable) && (ev.err || ev.hup) ==> acts == [Close(ev.c)]
      ensures ev.c in old(fdInfoTable) && !ev.err && !ev.hup ==>
                ev.c in old(conns) && EventServed(ev, old(conns)[ev.c], acts, ws, rs)
    {
      hide Inv, Linked, Queues, OnWire, Follows, EventServed;
      ghost var s := Abs();
      LinkedFacts();
      acts, ws, rs := [], [], [];
      FollowsNone(s);
      if ev.c !in fdInfoTable {
        return;
      }
      if ev.err || ev.hup {
        acts := CloseClient(ev.c);
        return;
      }
      OwnObjects(ev.c);
      acts, ws, rs := Serve(ev);
    }

    /** The event loop's part: the pending write if the socket takes output, the input if
        there is some, and then the close if that was the last of it. */
    static ghost predicate EventServed(ev: Event, conn: Conn, acts: seq<Action>, ws: seq<D.SendResult>, rs: seq<F.RecvResult>) {
      && ConnValid(conn)
      && (if ev.out && conn.tx.inProgress then D.WrittenOut(conn.tx, ws) else ws == [])
      && (if ev.readable then F.ReadUp(conn.rx, rs) else rs == [])
      && Of(acts, false) == Writes(ev.c, ws) + InputSteps(ev, conn, rs)
    }

    static ghost function InputSteps(ev: Event, conn: Conn, rs: seq<F.RecvResult>): seq<Action>
      requires F.RxValid(conn.rx) && (ev.readable ==> F.Deliverable(conn.rx, rs))
    {
      if !ev.readable then []
      else Reads(ev.c, rs) + if F.RxRun(conn.rx, rs).state.readEOF then [Close(ev.c)] else []
    }

    /** Bytes reach a socket: nothing of the server changes. */
    method Arrive(c: int, bytes: seq<byte>, eof: bool)
      requires Valid() && c in fdInfoTable
      modifies fdInfoTable[c].framer.sock
      ensures Valid() && Abs() == old(Abs())
    {
      hide Inv, Queues, ConnectionContext.Shows, OthersLinked, Linked;
      LinkedFacts();
      Unlink(c);
      ghost var rest := repr - fdInfoTable[c].Objects();
      fdInfoTable[c].framer.sock.Arrive(bytes, eof);
      Relink(c, conns, rest);
    }

    method ServeInput(ev: Event) returns (ghost acts: seq<Action>, ghost rs: seq<F.RecvResult>)
      requires Valid() && ev.c in fdInfoTable && ev.readable
      modifies this, worker, wqIn, wqOut
      modifies fdInfoTable[ev.c].framer, fdInfoTable[ev.c].framer.msg, fdInfoTable[ev.c].framer.sock
      ensures Valid() && fresh(repr - old(repr))
      ensures Follows(old(Abs()), acts, Abs())
      ensures ev.c in old(conns) && F.RxValid(old(conns)[ev.c].rx) && F.ReadUp(old(conns)[ev.c].rx, rs)
      ensures Of(acts, false) == InputSteps(ev, old(conns)[ev.c], rs)
    {
      hide Inv, Linked, Queues, OnWire, Follows, Stopped, ConnectionContext.Shows, Of, F.RxValid, F.RxRun;
      Arrive(ev.c, ev.arrived, ev.eof);
      acts, rs := HandleDataIn(ev.c);
    }

    method Serve(ev: Event) returns (ghost acts: seq<Action>, ghost ws: seq<D.SendResult>, ghost rs: seq<F.RecvResult>)
      requires Valid() && ev.c in fdInfoTable
      modifies this, worker, wqIn, wqOut
      modifies fdInfoTable[ev.c].framer, fdInfoTable[ev.c].framer.msg, fdInfoTable[ev.c].framer.sock
      modifies fdInfoTable[ev.c].deframer, fdInfoTable[ev.c].deframer.sock
      ensures Valid() && fresh(repr - old(repr))
      ensures Follows(old(Abs()), acts, Abs())
      ensures ev.c in old(conns) && EventServed(ev, old(conns)[ev.c], acts, ws, rs)
    {
      hide Inv, Linked, Queues, OnWire, Follows, Of, F.RxValid, F.RxRun, D.TxRun, D.TxValid, D.WrittenOut, F.ReadUp;
      ghost var s := Abs();
      OpenIsValid(ev.c);
      acts, ws, rs := [], [], [];
      FollowsNone(s);
      NothingOf();
      if ev.out && fdInfoTable[ev.c].deframer.writeInProgress {
        acts, ws := WriteAll(ev.c);
      }
      AppendNothing(Of(acts, false));
      if ev.readable {
        ghost var before := Abs();
        ghost var reading;
        reading, rs := ServeInput(ev);
        FollowsAppend(s, acts, before, reading, Abs());
        OfAppend(acts, reading, false);
        acts := acts + reading;
      }
    }

    static lemma NothingOf()
      ensures Of([], false) == [] && Writes(0, []) == [] && forall c: int :: Writes(c, []) == []
    {
    }

    /** stop writes a token so that the loop wakes up, and releases a blocked worker. */
    method Stop() returns (ghost acts: seq<Action>)
      requires Valid()
      modifies this, wqIn
      ensures Valid() && repr == old(repr)
      ensures Follows(old(Abs()), acts, Abs()) && acts == [Action.Stop] && wqIn.Awake()
    {
      hide Inv, Linked, OnWire, Follows;
      ghost var s := Abs();
      LinkedFacts();
      eventCount, stops := eventCount + 1, stops + 1;
      wqIn.CancelFetch();
      acts := [Action.Stop];
      Took(s, Action.Stop);
    }

    /** At every moment the socket of an open connection carries the complete encodings of
        responses and then a prefix of the last, as long as the length fields left well;
        with an idle writer it carries all of them. */
    lemma SocketCarriesResponses(c: int)
      requires Valid() && c in fdInfoTable
      ensures c in hist && AllWellFormed(hist[c].outs.accepted) && Subseq(hist[c].outs.accepted, hist[c].outs.taken)
      ensures var h, wire := hist[c].outs, fdInfoTable[c].deframer.sock.wire;
              h.ok ==>
                && wire <= EncodeAll(h.accepted)
                && (h.accepted != [] ==> EncodeAll(h.accepted[..|h.accepted|-1]) <= wire)
                && (!fdInfoTable[c].deframer.writeInProgress ==> wire == EncodeAll(h.accepted))
    {
      WriterShown(c);
      hide Linked, Queues, TablesAgree, TokensBalance, EncodeAll, Proj, WireOk, F.RxInv;
      assert ConnOk(Abs(), c);
      if hist[c].outs.ok {
        T.WirePrefix(conns[c].tx, hist[c].outs);
      }
    }

    lemma WriterShown(c: int)
      requires Linked() && c in fdInfoTable
      ensures c in conns && conns[c].tx.inProgress == fdInfoTable[c].deframer.writeInProgress
    {
      hide ConnectionContext.For, ConnectionContext.Within, ConnectionContext.Apart;
    }
  }
}
