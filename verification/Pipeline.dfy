/** The server as a system of atomic steps of its two threads: the event loop
    (Server.cpp) and the worker (ServerWorker.cpp), joined by two queues, a
    semaphore event counter and two connection tables. */
module Pipeline {
  import opened Options
  import opened Wire
  import F = Framer
  import D = Deframer

  type Item = F.WorkItem

  /** What the event loop keeps per connection. */
  datatype Conn = Conn(rx: F.RxState, tx: D.TxState)

  /** History of the input side: bytes taken, frames pushed to wqIn, frames the
      session has handled, and whether every length transfer was good so far. */
  datatype InSide = InSide(consumed: seq<byte>, cut: F.Cut, ok: bool, parsed: seq<Frame>, handed: seq<Frame>)

  /** History of the output side: frames pushed to wqOut, those fetched from it that found
      the connection open, those of them given to the writer, how many were dropped,
      the bytes on the wire up to the current frame and of it, and whether every length
      field left well so far. */
  datatype OutSide = OutSide(
    replied: seq<Frame>, taken: seq<Frame>, accepted: seq<Frame>, dropped: nat,
    before: seq<byte>, part: seq<byte>, cut: D.Cut, ok: bool)

  datatype Hist = Hist(ins: InSide, outs: OutSide)

  /** The worker: waiting, holding a fetched item, or sending the responses to one,
      where `owed` says that a pushed response has not been notified yet. */
  datatype Worker = Waiting | Fetched(id: int, frame: Frame) | Replying(id: int, todo: seq<Frame>, owed: bool)

  /** The event loop: polling, with a token just read, or with a response fetched. */
  datatype Loop = Polling | Notified | Holding(id: int, frame: Frame)

  datatype Sys = Sys(
    conns: map<int, Conn>,       // fdInfoTable
    contexts: map<int, bool>,    // handlerTable: is the session still active?
    hist: map<int, Hist>,
    wqIn: seq<Item>, wqOut: seq<Item>,
    tokens: nat,                 // eventFdOut
    loop: Loop,
    worker: Worker,
    stops: nat, spurious: nat)   // tokens written by stop; fetches that found nothing

  datatype Action =
    | Accept(c: int, mem: seq<byte>, pad: byte)
    | Read(c: int, received: F.RecvResult)
    | Close(c: int)
    | Write(c: int, sent: D.SendResult)
    | TakeToken
    | FetchNext
    | OfferNext(beyond: seq<byte>, behind: byte)
    | WorkerFetch
    | WorkerHandle(replies: seq<Frame>, active: bool)
    | WorkerPush
    | WorkerNotify
    | WorkerDone
    | Stop

  // ------------------------------------------------------------ per connection

  function Opened(c: int, mem: seq<byte>, pad: byte): Conn {
    Conn(F.RxReset(c), D.TxState(D.TxHeader, 0, 0, 0, 0, 0, mem, pad, false, false, false))
  }

  const NO_HIST := Hist(InSide([], F.Whole, true, [], []), OutSide([], [], [], 0, [], [], D.NoByte(false), true))

  predicate ConnValid(conn: Conn) {
    F.RxValid(conn.rx) && D.TxValid(conn.tx)
  }

  function ReadIns(conn: Conn, h: InSide, r: F.RecvResult): InSide
    requires ConnValid(conn) && F.Delivers(F.Want(conn.rx), r)
  {
    h.(consumed := h.consumed + F.BytesOf(r), cut := F.NextCut(conn.rx, h.cut, r),
       ok := h.ok && F.LenTransferOk(conn.rx, h.cut, r),
       parsed := h.parsed + F.RxStep(conn.rx, r).pushed)
  }

  ghost function WriteOuts(conn: Conn, h: OutSide, r: D.SendResult): OutSide
    requires ConnValid(conn) && D.Takes(|D.Offer(conn.tx)|, r) && AllWellFormed(h.accepted)
  {
    h.(part := h.part + D.TxStep(conn.tx, r).wire, cut := D.NextCut(conn.tx, h.cut, r),
       ok := h.ok && (h.accepted == [] || D.LenSendOk(h.accepted[|h.accepted|-1], conn.tx, h.cut, r)))
  }

  /** A fetched response meets the writer: taken if it is idle, dropped otherwise. */
  function OfferOuts(conn: Conn, h: OutSide, f: Frame): OutSide {
    if conn.tx.inProgress then h.(taken := h.taken + [f], dropped := h.dropped + 1)
    else h.(taken := h.taken + [f], accepted := h.accepted + [f],
            before := h.before + h.part, part := [], cut := D.NoByte(false))
  }

  ghost function OfferTx(conn: Conn, f: Frame, beyond: seq<byte>, pad: byte): D.TxState
    requires WellFormed(f) && |f.msg| + |beyond| == D.MAX_LEN
  {
    if conn.tx.inProgress then conn.tx else D.TxStart(f, beyond, pad)
  }

  // ---------------------------------------------------------------- the steps

  /** The frames of connection `c` in a queue, in order. */
  function Proj(q: seq<Item>, c: int): seq<Frame> {
    if q == [] then [] else (if q[0].0 == c then [q[0].1] else []) + Proj(q[1..], c)
  }

  function Held(w: Worker, c: int): seq<Frame> {
    if w.Fetched? && w.id == c then [w.frame] else []
  }

  function InHand(l: Loop, c: int): seq<Frame> {
    if l.Holding? && l.id == c then [l.frame] else []
  }

  /** Nothing of connection `c` is queued or in anybody's hands. */
  predicate Forgotten(s: Sys, c: int) {
    && Proj(s.wqIn, c) == [] && Proj(s.wqOut, c) == []
    && (s.worker.Waiting? || s.worker.id != c) && (s.loop.Holding? ==> s.loop.id != c)
  }

  ghost predicate Enabled(s: Sys, a: Action) {
    match a
    case Accept(c, mem, _) => c !in s.conns && c !in s.contexts && Forgotten(s, c) && |mem| == D.MAX_LEN
    case Read(c, r) =>
      c in s.conns && c in s.hist && ConnValid(s.conns[c]) && F.Delivers(F.Want(s.conns[c].rx), r)
    case Close(c) => c in s.conns
    case Write(c, r) =>
      c in s.conns && c in s.hist && ConnValid(s.conns[c]) && D.Takes(|D.Offer(s.conns[c].tx)|, r) &&
      AllWellFormed(s.hist[c].outs.accepted)
    case TakeToken => s.tokens > 0 && s.loop.Polling?
    case FetchNext => s.loop.Notified?
    case OfferNext(beyond, _) =>
      s.loop.Holding? && WellFormed(s.loop.frame) && |s.loop.frame.msg| + |beyond| == D.MAX_LEN
    case WorkerFetch => s.worker.Waiting? && s.wqIn != []
    case WorkerHandle(replies, _) => s.worker.Fetched? && s.worker.id in s.hist && AllWellFormed(replies)
    case WorkerPush => s.worker.Replying? && s.worker.id in s.hist && s.worker.todo != [] && !s.worker.owed
    case WorkerNotify => s.worker.Replying? && s.worker.owed
    case WorkerDone => s.worker.Replying? && s.worker.todo == [] && !s.worker.owed
    case Stop => true
  }

  function WithIns(s: Sys, c: int, ins: InSide): map<int, Hist>
    requires c in s.hist
  {
    s.hist[c := s.hist[c].(ins := ins)]
  }

  function WithOuts(s: Sys, c: int, outs: OutSide): map<int, Hist>
    requires c in s.hist
  {
    s.hist[c := s.hist[c].(outs := outs)]
  }

  /** closeClient: both tables forget the connection. */
  function Closed(s: Sys, c: int): Sys {
    s.(conns := s.conns - {c}, contexts := s.contexts - {c})
  }

  ghost function Next(s: Sys, a: Action): Sys
    requires Enabled(s, a)
  {
    match a
    case Accept(c, mem, pad) =>
      s.(conns := s.conns[c := Opened(c, mem, pad)], contexts := s.contexts[c := true], hist := s.hist[c := NO_HIST])
    case Read(c, r) =>
      var conn := s.conns[c];
      var o := F.RxStep(conn.rx, r);
      s.(conns := s.conns[c := conn.(rx := o.state)], wqIn := s.wqIn + F.Tag(c, o.pushed),
         hist := WithIns(s, c, ReadIns(conn, s.hist[c].ins, r)))
    case Close(c) => Closed(s, c)
    case Write(c, r) =>
      var conn := s.conns[c];
      s.(conns := s.conns[c := conn.(tx := D.TxStep(conn.tx, r).state)],
         hist := WithOuts(s, c, WriteOuts(conn, s.hist[c].outs, r)))
    case TakeToken => s.(tokens := s.tokens - 1, loop := Notified)
    case FetchNext =>
      if s.wqOut == [] then s.(loop := Polling, spurious := s.spurious + 1)
      else s.(loop := Holding(s.wqOut[0].0, s.wqOut[0].1), wqOut := s.wqOut[1..])
    case OfferNext(beyond, pad) =>
      var c, f := s.loop.id, s.loop.frame;
      var t := s.(loop := Polling);
      if c in s.conns && c in s.hist then
        t.(conns := s.conns[c := s.conns[c].(tx := OfferTx(s.conns[c], f, beyond, pad))],
           hist := WithOuts(s, c, OfferOuts(s.conns[c], s.hist[c].outs, f)))
      else t
    case WorkerFetch => s.(wqIn := s.wqIn[1..], worker := Fetched(s.wqIn[0].0, s.wqIn[0].1))
    case WorkerHandle(replies, active) =>
      var c := s.worker.id;
      if c !in s.contexts then s.(worker := Waiting)
      else if !s.contexts[c] then s.(contexts := s.contexts - {c}, worker := Waiting)
      else
        s.(contexts := s.contexts[c := active], worker := Replying(c, replies, false),
           hist := WithIns(s, c, s.hist[c].ins.(handed := s.hist[c].ins.handed + [s.worker.frame])))
    case WorkerPush =>
      var c, f := s.worker.id, s.worker.todo[0];
      s.(wqOut := s.wqOut + [(c, f)], worker := Replying(c, s.worker.todo[1..], true),
         hist := WithOuts(s, c, s.hist[c].outs.(replied := s.hist[c].outs.replied + [f])))
    case WorkerNotify => s.(tokens := s.tokens + 1, worker := s.worker.(owed := false))
    case WorkerDone =>
      var c := s.worker.id;
      var t := s.(worker := Waiting);
      if c in s.contexts && !s.contexts[c] && c in s.conns then Closed(t, c) else t
    case Stop => s.(tokens := s.tokens + 1, stops := s.stops + 1)
  }

  const START := Sys(map[], map[], map[], [], [], 0, Polling, Waiting, 0, 0)

  ghost predicate IsRun(s: Sys, acts: seq<Action>)
    decreases |acts|, 0
  {
    acts == [] || (IsRun(s, acts[..|acts|-1]) && Enabled(Run(s, acts[..|acts|-1]), acts[|acts|-1]))
  }

  ghost function Run(s: Sys, acts: seq<Action>): Sys
    requires IsRun(s, acts)
    decreases |acts|, 1
  {
    if acts == [] then s else Next(Run(s, acts[..|acts|-1]), acts[|acts|-1])
  }

  // ------------------------------------------------------------- the invariant

  ghost predicate Subseq<T>(a: seq<T>, b: seq<T>) {
    a == [] ||
    (b != [] && ((a[|a|-1] == b[|b|-1] && Subseq(a[..|a|-1], b[..|b|-1])) || Subseq(a, b[..|b|-1])))
  }

  ghost predicate InsOk(open: Option<Conn>, h: InSide, inbound: seq<Frame>) {
    && (h.ok ==> h.parsed <= ParseFrames(h.consumed))
    && match open
       case None => h.handed <= h.parsed
       case Some(conn) =>
         && F.RxValid(conn.rx)
         && h.parsed == h.handed + inbound
         && (h.ok ==> F.RxInv(h.consumed, h.parsed, conn.rx, h.cut))
  }

  /** The wire carries the complete encodings of the accepted frames but the last,
      and the part of the last that its writer has sent. */
  ghost predicate WireOk(tx: D.TxState, h: OutSide)
    requires AllWellFormed(h.accepted)
  {
    if h.accepted == [] then h.before == [] && h.part == [] && !tx.inProgress
    else
      var n := |h.accepted| - 1;
      h.before == EncodeAll(h.accepted[..n]) && D.TxInv(h.accepted[n], h.part, tx, h.cut)
  }

  ghost predicate OutsOk(open: Option<Conn>, h: OutSide, outbound: seq<Frame>) {
    && AllWellFormed(h.accepted)
    && Subseq(h.accepted, h.taken) && |h.taken| == |h.accepted| + h.dropped
    && h.taken <= h.replied
    && (open.Some? ==>
          && D.TxValid(open.value.tx)
          && h.replied == h.taken + outbound
          && (h.accepted == [] ==> !open.value.tx.inProgress)
          && (h.ok ==> WireOk(open.value.tx, h)))
  }

  function Look(m: map<int, Conn>, c: int): Option<Conn> {
    if c in m then Some(m[c]) else None
  }

  ghost predicate ConnOk(s: Sys, c: int)
    requires c in s.hist
  {
    && InsOk(Look(s.conns, c), s.hist[c].ins, Held(s.worker, c) + Proj(s.wqIn, c))
    && OutsOk(Look(s.conns, c), s.hist[c].outs, InHand(s.loop, c) + Proj(s.wqOut, c))
  }

  predicate TablesAgree(s: Sys) {
    s.conns.Keys == s.contexts.Keys && s.conns.Keys <= s.hist.Keys
  }

  /** A context goes inactive only under the worker's hands, which then closes it. */
  predicate ContextsActive(s: Sys) {
    forall c | c in s.contexts :: s.contexts[c] || (s.worker.Replying? && s.worker.id == c)
  }

  function One(b: bool): nat {
    if b then 1 else 0
  }

  function Owed(w: Worker): nat {
    if w.Replying? then One(w.owed) else 0
  }

  predicate TokensBalance(s: Sys) {
    && s.tokens + Owed(s.worker) + One(s.loop.Notified?) + s.spurious == |s.wqOut| + s.stops
    && s.spurious <= s.stops
  }

  predicate OutboundWellFormed(s: Sys) {
    && (forall i | 0 <= i < |s.wqOut| :: WellFormed(s.wqOut[i].1))
    && (s.loop.Holding? ==> WellFormed(s.loop.frame))
    && (s.worker.Replying? ==> AllWellFormed(s.worker.todo))
  }

  /** Items of connections never accepted do not exist. */
  predicate Known(s: Sys) {
    && (forall i | 0 <= i < |s.wqIn| :: s.wqIn[i].0 in s.hist)
    && (!s.worker.Waiting? ==> s.worker.id in s.hist)
  }

  ghost predicate ConnsOk(s: Sys) {
    forall c | c in s.hist :: ConnOk(s, c)
  }

  ghost predicate Inv(s: Sys) {
    && TablesAgree(s) && ContextsActive(s) && TokensBalance(s) && OutboundWellFormed(s) && Known(s)
    && ConnsOk(s)
  }
}
