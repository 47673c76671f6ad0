/** Safety of a session over every sequence of incoming frames. */
module SessionTheorems {
  import opened Options
  import opened Wire
  import opened Coding
  import opened Session

  // ---------------------------------------------------------------- phases

  function Rank(s: Session): nat {
    match s
    case Connected(_, kexDone) => if kexDone then 1 else 0
    case Authenticating(_, _) => 2
    case User(_) => 3
    case Closed => 4
    case Crashed => 5
  }

  /** The coder is sealed from the key exchange on and never replaced again. */
  predicate CoderOk(s: Session) {
    match s
    case Connected(coder, kexDone) => coder.Sealed? <==> kexDone
    case Authenticating(coder, remaining) => coder.Sealed? && remaining <= ATTEMPTS
    case User(coder) => coder.Sealed?
    case _ => true
  }

  function CoderOf(s: Session): Option<Mode> {
    if s.Closed? || s.Crashed? then None else Some(s.coder)
  }

  lemma PhasesAdvance(w: World, s: Session, i: Input)
    requires CoderOk(s)
    ensures var o := SessionStep(w, s, i);
            && CoderOk(o.session)
            && Rank(s) <= Rank(o.session)
            && (s.Closed? || s.Crashed? ==> o == Out(s, []))
            && (Rank(s) >= 1 && CoderOf(o.session).Some? ==> CoderOf(o.session) == CoderOf(s))
  {
    if s.User? {
      UserReplies(w, s.coder, i.user.answers, if i.user.ends then Closed else s);
      hide UserStep;
    }
  }

  predicate TooLong(answer: Answer) {
    |answer.body| > 65535
  }

  predicate AnyTooLong(answers: seq<Answer>) {
    exists x :: 0 <= x < |answers| && TooLong(answers[x])
  }

  lemma AnyTooLongSplits(answers: seq<Answer>)
    requires answers != []
    ensures AnyTooLong(answers) <==> TooLong(answers[0]) || AnyTooLong(answers[1..])
  {
    if AnyTooLong(answers[1..]) {
      var x :| 0 <= x < |answers[1..]| && TooLong(answers[1..][x]);
      assert TooLong(answers[x + 1]);
    }
    if AnyTooLong(answers) && !TooLong(answers[0]) {
      var x :| 0 <= x < |answers| && TooLong(answers[x]);
      assert TooLong(answers[1..][x - 1]);
    }
  }

  /** A user's answers leave in order, in the coder and with its header, up to the first
      that is too long, which is the only thing that ends the turn badly. */
  lemma {:induction false} UserReplies(w: World, coder: Mode, answers: seq<Answer>, next: Session)
    requires !next.Crashed?
    ensures var o := UserStep(w, coder, answers, next);
            && (o.session == Crashed <==> AnyTooLong(answers))
            && (o.session != Crashed ==> o.session == next && |o.replies| == |answers|)
            && (o.session == Crashed ==> |o.replies| < |answers| && TooLong(answers[|o.replies|]))
            && |o.replies| <= |answers|
            && forall x | 0 <= x < |o.replies| ::
                 var r := o.replies[x];
                 && !TooLong(answers[x])
                 && r.mode == coder && r.frame.header == (if coder.Plain? then 0xF0 else 0xF1)
                 && r.msg == ToUser(answers[x].body) && MadeWith(w, r, answers[x].iv)
  {
    hide EncodeBody, MadeWith, Respond;
    if answers == [] {
    } else {
      AnyTooLongSplits(answers);
      hide AnyTooLong;
      RespondShape(w, coder, answers[0].iv, ToUser(answers[0].body), next);
      UserReplies(w, coder, answers[1..], next);
    }
  }

  /** The user phase: only a user who ends it or an answer that is too long leaves it. */
  lemma UserTurn(w: World, s: Session, i: Input)
    requires s.User?
    ensures var o := SessionStep(w, s, i);
            if AnyTooLong(i.user.answers) then o.session == Crashed
            else o.session == (if i.user.ends then Closed else s) && |o.replies| == |i.user.answers|
  {
    UserReplies(w, s.coder, i.user.answers, if i.user.ends then Closed else s);
  }

  lemma RespondShape(w: World, coder: Mode, iv: seq<byte>, msg: ServerMsg, next: Session)
    ensures var o := Respond(w, coder, iv, msg, next);
            if |Ser(w, msg)| > 65535 then o == Out(Crashed, [])
            else o.session == next && |o.replies| == 1 &&
                 var r := o.replies[0];
                 && r.mode == coder && r.frame.header == (if coder.Plain? then 0xF0 else 0xF1)
                 && r.msg == msg && MadeWith(w, r, iv)
  {
  }

  predicate MadeWith(w: World, r: Reply, iv: seq<byte>) {
    EncodeBody(w.aead, r.mode, iv, Ser(w, r.msg)) == Some(r.frame)
  }

  lemma {:induction false} RunCoderOk(w: World, ins: seq<Input>)
    ensures CoderOk(SessionRun(w, ins).session)
  {
    if ins == [] {
    } else {
      RunCoderOk(w, ins[..|ins|-1]);
      PhasesAdvance(w, SessionRun(w, ins[..|ins|-1]).session, ins[|ins|-1]);
    }
  }

  /** Only a user handler's reply can be too long to encode. */
  lemma OnlyUsersCrash(w: World, s: Session, i: Input)
    requires Lawful(w) && !s.User? && !s.Crashed?
    ensures !SessionStep(w, s, i).session.Crashed?
  {
    SmallAnswers(w, w.pub(i.priv));
    if s.Authenticating? {
      SwitchFits(w, s, i.leftover, i.iv2);
      var request := Decode(w, s.coder, i.frame, w.parseAuthRequest);
      if request.Some? { SwitchFits(w, s, request.value, i.iv2); }
    } else if s.Connected? {
      var request := Decode(w, s.coder, i.frame, w.parseConnRequest);
      if request.Some? { KexFits(w, s, request.value.kex, i); }
    }
  }

  lemma SwitchFits(w: World, s: Session, request: AuthRequest, iv: seq<byte>)
    requires Lawful(w) && s.Authenticating?
    ensures !AuthSwitch(w, s, request, iv).session.Crashed? && |AuthSwitch(w, s, request, iv).replies| == 1
  {
    SmallAnswers(w, []);
  }

  lemma KexFits(w: World, s: Session, kex: Option<KexMsg>, i: Input)
    requires Lawful(w) && s.Connected?
    ensures !KexStep(w, s, kex, i).session.Crashed? && |KexStep(w, s, kex, i).replies| == 1
  {
    SmallAnswers(w, w.pub(i.priv));
  }

  lemma RespondsFit(w: World)
    requires Lawful(w)
    ensures forall m | Small(m) :: |Ser(w, m)| <= MAX_BODY
  {
  }

  // ------------------------------------------------------------ order of events

  function At(w: World, ins: seq<Input>, n: nat): Session
    requires n <= |ins|
  {
    SessionRun(w, ins[..n]).session
  }

  /** Frame `n` is a plain key exchange request that yields `key`. */
  ghost predicate KexAt(w: World, ins: seq<Input>, n: nat, key: Key) {
    && n < |ins| && At(w, ins, n) == FRESH && At(w, ins, n + 1) == Connected(Sealed(key), true)
    && var request := w.parseConnRequest(ins[n].frame.msg);
       && request.Some? && request.value.kind == RequestKex
       && request.value.kex.Some? && request.value.kex.value.ecdh
       && |request.value.kex.value.pkey| == 32
       && w.agree(ins[n].priv, request.value.kex.value.pkey) == Some(key)
  }

  /** Frame `n` is a sealed authentication request. */
  ghost predicate AuthBeginsAt(w: World, ins: seq<Input>, n: nat, key: Key) {
    && n < |ins| && At(w, ins, n) == Connected(Sealed(key), true)
    && At(w, ins, n + 1) == Authenticating(Sealed(key), 5)
    && var request := Decode(w, Sealed(key), ins[n].frame, w.parseConnRequest);
       request.Some? && request.value.kind == RequestAuth
  }

  /** Handling frame `n` finds credentials the authenticator accepts: those of the
      frame, or what the request object still held if the frame did not decode. */
  ghost predicate AcceptedAt(w: World, ins: seq<Input>, n: nat, key: Key) {
    && n < |ins| && At(w, ins, n).Authenticating? && At(w, ins, n).coder == Sealed(key)
    && At(w, ins, n + 1) == User(Sealed(key)) && w.factory == UserFactory
    && var decoded := Decode(w, Sealed(key), ins[n].frame, w.parseAuthRequest);
       var request := if decoded.Some? then decoded.value else ins[n].leftover;
       request.kind == AuthSupply && (w.authenticator.Some? ==> w.authenticator.value(request))
  }

  lemma AtPrefix(w: World, ins: seq<Input>, m: nat, n: nat)
    requires n <= m <= |ins|
    ensures At(w, ins[..m], n) == At(w, ins, n)
  {
    assert ins[..m][..n] == ins[..n];
  }

  lemma AtNext(w: World, ins: seq<Input>, n: nat)
    requires n < |ins|
    ensures At(w, ins, n + 1) == SessionStep(w, At(w, ins, n), ins[n]).session
  {
    assert ins[..n + 1][..n] == ins[..n];
  }

  lemma KexPrefix(w: World, ins: seq<Input>, m: nat, n: nat, key: Key)
    requires m <= |ins| && KexAt(w, ins[..m], n, key)
    ensures KexAt(w, ins, n, key)
  {
    AtPrefix(w, ins, m, n);
    AtPrefix(w, ins, m, n + 1);
  }

  lemma AuthPrefix(w: World, ins: seq<Input>, m: nat, n: nat, key: Key)
    requires m <= |ins| && AuthBeginsAt(w, ins[..m], n, key)
    ensures AuthBeginsAt(w, ins, n, key)
  {
    AtPrefix(w, ins, m, n);
    AtPrefix(w, ins, m, n + 1);
  }

  lemma AcceptedPrefix(w: World, ins: seq<Input>, m: nat, n: nat, key: Key)
    requires m <= |ins| && AcceptedAt(w, ins[..m], n, key)
    ensures AcceptedAt(w, ins, n, key)
  {
    AtPrefix(w, ins, m, n);
    AtPrefix(w, ins, m, n + 1);
  }

  /** The milestones behind the current phase, earliest first. */
  ghost predicate Milestones(w: World, ins: seq<Input>, s: Session, i: nat, j: nat, k: nat, key: Key) {
    && (1 <= Rank(s) <= 3 ==> CoderOf(s) == Some(Sealed(key)) && KexAt(w, ins, i, key))
    && (2 <= Rank(s) <= 3 ==> i < j && AuthBeginsAt(w, ins, j, key))
    && (Rank(s) == 3 ==> j < k && AcceptedAt(w, ins, k, key))
  }

  /** Each phase is entered from the one before, and only by its milestone. */
  lemma PhaseEntered(w: World, ins: seq<Input>, n: nat)
    requires n < |ins| && CoderOk(At(w, ins, n))
    ensures CoderOk(At(w, ins, n + 1))
    ensures var s, t := At(w, ins, n), At(w, ins, n + 1);
            && (Rank(t) == 0 ==> Rank(s) == 0)
            && (Rank(t) == 1 ==> Rank(s) == 1 || KexAt(w, ins, n, t.coder.key))
            && (Rank(t) == 2 ==> Rank(s) == 2 || (Rank(s) == 1 && AuthBeginsAt(w, ins, n, t.coder.key)))
            && (Rank(t) == 3 ==> Rank(s) == 3 || (Rank(s) == 2 && AcceptedAt(w, ins, n, t.coder.key)))
  {
    AtNext(w, ins, n);
    PhasesAdvance(w, At(w, ins, n), ins[n]);
  }

  lemma MilestonesKept(w: World, ins: seq<Input>, i: nat, j: nat, k: nat, key: Key)
    requires ins != []
    requires var n := |ins| - 1; Milestones(w, ins[..n], At(w, ins, n), i, j, k, key)
    ensures Milestones(w, ins, At(w, ins, |ins| - 1), i, j, k, key)
  {
    var n := |ins| - 1;
    var s := At(w, ins, n);
    if 1 <= Rank(s) <= 3 { KexPrefix(w, ins, n, i, key); }
    if 2 <= Rank(s) <= 3 { AuthPrefix(w, ins, n, j, key); }
    if Rank(s) == 3 { AcceptedPrefix(w, ins, n, k, key); }
  }

  lemma NextMilestone(w: World, ins: seq<Input>, n: nat, i: nat, j: nat, k: nat, key: Key)
      returns (i': nat, j': nat, k': nat, key': Key)
    requires n < |ins| && CoderOk(At(w, ins, n))
    requires Milestones(w, ins, At(w, ins, n), i, j, k, key) && i <= n && j <= n
    ensures Milestones(w, ins, At(w, ins, n + 1), i', j', k', key') && i' <= n && j' <= n
  {
    PhaseEntered(w, ins, n);
    AtNext(w, ins, n);
    PhasesAdvance(w, At(w, ins, n), ins[n]);
    hide KexAt, AuthBeginsAt, AcceptedAt, SessionStep, SessionRun, At;
    var s, t := At(w, ins, n), At(w, ins, n + 1);
    i', j', k', key' := i, j, k, key;
    if Rank(s) == 0 && Rank(t) == 1 { i', key' := n, t.coder.key; }
    if Rank(s) == 1 && Rank(t) == 2 { j' := n; BeforeNow(w, ins, i, n, key); }
    if Rank(s) == 2 && Rank(t) == 3 { k' := n; BeforeNow'(w, ins, j, n, key); }
  }

  lemma BeforeNow(w: World, ins: seq<Input>, i: nat, n: nat, key: Key)
    requires i <= n && n < |ins| && KexAt(w, ins, i, key) && Rank(At(w, ins, n)) > 0
    ensures i < n
  {
  }

  lemma BeforeNow'(w: World, ins: seq<Input>, j: nat, n: nat, key: Key)
    requires j <= n && n < |ins| && AuthBeginsAt(w, ins, j, key) && Rank(At(w, ins, n)) > 1
    ensures j < n
  {
  }

  lemma {:induction false} MilestonesOf(w: World, ins: seq<Input>) returns (i: nat, j: nat, k: nat, key: Key)
    ensures Milestones(w, ins, SessionRun(w, ins).session, i, j, k, key)
    ensures i <= |ins| && j <= |ins|
  {
    i, j, k, key := 0, 0, 0, [];
    if ins == [] {
    } else {
      var n := |ins| - 1;
      i, j, k, key := MilestonesOf(w, ins[..n]);
      RunCoderOk(w, ins[..n]);
      MilestonesKept(w, ins, i, j, k, key);
      i, j, k, key := NextMilestone(w, ins, n, i, j, k, key);
      assert ins[..n + 1] == ins;
    }
  }

  /** Every run that reaches a user handler contains, in this order and under one key,
      a successful key exchange, a granted authentication request, and an accepted check. */
  lemma UserOnlyAfterAuthentication(w: World, ins: seq<Input>) returns (i: nat, j: nat, k: nat, key: Key)
    requires SessionRun(w, ins).session.User?
    ensures i < j < k
    ensures KexAt(w, ins, i, key) && AuthBeginsAt(w, ins, j, key) && AcceptedAt(w, ins, k, key)
  {
    i, j, k, key := MilestonesOf(w, ins);
  }

  // ---------------------------------------------------------------- headers

  predicate IsKexOk(r: Reply) {
    r.msg.ToConn? && r.msg.conn.status == Ok && r.msg.conn.kex.Some?
  }

  /** `n` plain replies, then only replies sealed under `key`; the last plain one is
      the positive answer to the key exchange, and no other reply is. */
  ghost predicate Discipline(s: Session, replies: seq<Reply>, n: nat, key: Key) {
    && n <= |replies|
    && (forall x | 0 <= x < n :: replies[x].mode == Plain && replies[x].frame.header == 0xF0)
    && (forall x | n <= x < |replies| :: replies[x].mode == Sealed(key) && replies[x].frame.header == 0xF1)
    && (forall x | 0 <= x < |replies| :: IsKexOk(replies[x]) ==> x == n - 1)
    && (n < |replies| ==> 0 < n && IsKexOk(replies[n - 1]))
    && (1 <= Rank(s) <= 3 ==> 0 < n && IsKexOk(replies[n - 1]) && CoderOf(s) == Some(Sealed(key)))
    && (Rank(s) == 0 ==> n == |replies| && forall x | 0 <= x < n :: !IsKexOk(replies[x]))
  }

  lemma ConnectedReplies(w: World, s: Session, i: Input)
    requires CoderOk(s) && s.Connected?
    ensures var o := ConnStep(w, s, i);
            && |o.replies| <= 1 && (o.session.Crashed? ==> o.replies == [])
            && (forall r | r in o.replies :: r.mode == s.coder && r.frame.header == (if s.coder.Plain? then 0xF0 else 0xF1))
            && (Rank(s) == 0 ==> Rank(o.session) in {0, 1, 5})
            && (forall r | r in o.replies :: IsKexOk(r) ==> Rank(s) == 0 && Rank(o.session) == 1)
            && (Rank(s) == 0 && Rank(o.session) == 1 ==> |o.replies| == 1 && IsKexOk(o.replies[0]))
  {
    hide DecodeBody, Ser;
  }

  lemma AuthenticatingReplies(w: World, s: Session, i: Input)
    requires CoderOk(s) && s.Authenticating?
    ensures forall r | r in AuthStep(w, s, i).replies :: r.mode == s.coder && r.frame.header == 0xF1 && r.msg.ToAuth?
  {
    hide DecodeBody, Ser;
  }

  /** What one frame makes a session in a given phase send. */
  lemma StepReplies(w: World, s: Session, i: Input)
    requires CoderOk(s)
    ensures var o := SessionStep(w, s, i);
            && (CoderOf(s) == None ==> o.replies == [])
            && (forall x | 0 <= x < |o.replies| ::
                  Some(o.replies[x].mode) == CoderOf(s) &&
                  o.replies[x].frame.header == (if s.coder.Plain? then 0xF0 else 0xF1))
            && (forall x | 0 <= x < |o.replies| :: IsKexOk(o.replies[x]) ==> Rank(s) == 0 && Rank(o.session) == 1)
            && (Rank(s) == 0 ==> |o.replies| <= 1 && Rank(o.session) in {0, 1, 5})
            && (Rank(s) == 0 && Rank(o.session) == 1 ==> |o.replies| == 1 && IsKexOk(o.replies[0]))
            && (Rank(o.session) == 5 && Rank(s) == 0 ==> o.replies == [])
  {
    hide ConnStep, AuthStep, UserStep, Ser, DecodeBody, EncodeBody;
    match s
    case Connected(_, _) => ConnectedReplies(w, s, i);
    case Authenticating(_, _) => AuthenticatingReplies(w, s, i);
    case User(coder) => UserReplies(w, coder, i.user.answers, if i.user.ends then Closed else s);
    case _ =>
  }

  /** Every reply is the encoding of its message, with one of the vectors drawn. */
  lemma RepliesEncode(w: World, s: Session, i: Input)
    requires Fresh(i)
    ensures var o := SessionStep(w, s, i);
            forall x | 0 <= x < |o.replies| :: exists iv :: |iv| == IV_SIZE && MadeWith(w, o.replies[x], iv)
  {
    var o := SessionStep(w, s, i);
    if s.User? {
      UserReplies(w, s.coder, i.user.answers, if i.user.ends then Closed else s);
      hide UserStep;
      forall x | 0 <= x < |o.replies| ensures exists iv :: |iv| == IV_SIZE && MadeWith(w, o.replies[x], iv) {
        assert MadeWith(w, o.replies[x], i.user.answers[x].iv);
      }
    } else {
      PhaseRepliesEncode(w, s, i);
    }
  }

  lemma PhaseRepliesEncode(w: World, s: Session, i: Input)
    requires !s.User?
    ensures var o := SessionStep(w, s, i);
            forall x | 0 <= x < |o.replies| :: MadeWith(w, o.replies[x], i.iv) || MadeWith(w, o.replies[x], i.iv2)
  {
    hide EncodeBody, DecodeBody, Ser;
  }

  /** What a session sends can always be put on the wire. */
  lemma RepliesAreWellFormed(w: World, s: Session, i: Input)
    requires AeadLaws(w.aead) && Fresh(i)
    ensures forall r | r in SessionStep(w, s, i).replies :: WellFormed(r.frame)
  {
    hide SessionStep;
    RepliesEncode(w, s, i);
    forall r | r in SessionStep(w, s, i).replies ensures WellFormed(r.frame) {
      var iv :| |iv| == IV_SIZE && MadeWith(w, r, iv);
      EncodedShape(w.aead, r.mode, iv, Ser(w, r.msg));
    }
  }

  lemma DisciplineStep(w: World, before: Out, i: Input, n: nat, key: Key) returns (m: nat, k: Key)
    requires CoderOk(before.session) && Discipline(before.session, before.replies, n, key)
    ensures var o := SessionStep(w, before.session, i); Discipline(o.session, before.replies + o.replies, m, k)
  {
    m, k := n, key;
    var s := before.session;
    var o := SessionStep(w, s, i);
    StepReplies(w, s, i);
    PhasesAdvance(w, s, i);
    hide SessionStep;
    if Rank(s) == 0 {
      m := n + |o.replies|;
      if Rank(o.session) == 1 { k := o.session.coder.key; }
    }
  }

  lemma {:induction false} HeaderDiscipline(w: World, ins: seq<Input>) returns (n: nat, key: Key)
    ensures Discipline(SessionRun(w, ins).session, SessionRun(w, ins).replies, n, key)
  {
    n, key := 0, [];
    if ins == [] {
    } else {
      hide SessionStep;
      n, key := HeaderDiscipline(w, ins[..|ins|-1]);
      RunCoderOk(w, ins[..|ins|-1]);
      n, key := DisciplineStep(w, SessionRun(w, ins[..|ins|-1]), ins[|ins|-1], n, key);
    }
  }

  // ---------------------------------------------------------------- attempts

  function Count(replies: seq<Reply>, status: AuthStatus): nat {
    if replies == [] then 0
    else Count(replies[..|replies|-1], status) + if replies[|replies|-1].msg == ToAuth(AuthResponse(status)) then 1 else 0
  }

  lemma {:induction false} CountAppend(a: seq<Reply>, b: seq<Reply>, status: AuthStatus)
    ensures Count(a + b, status) == Count(a, status) + Count(b, status)
  {
    if b == [] {
      assert a + b == a;
    } else {
      assert (a + b)[..|a + b| - 1] == a + b[..|b|-1];
      CountAppend(a, b[..|b|-1], status);
    }
  }

  /** While authentication lasts, attempts refused and attempts left make five; a
      rejection comes after five refusals and ends the session. */
  predicate AttemptsOk(s: Session, refused: nat, rejected: nat) {
    match s
    case Connected(_, _) => refused == 0 && rejected == 0
    case Authenticating(_, remaining) => refused + remaining == 5 && rejected == 0
    case User(_) => refused <= 5 && rejected == 0
    case _ => refused <= 5 && rejected <= 1 && (rejected == 1 ==> refused == 5 && s.Closed?)
  }

  lemma CountOne(r: Reply, status: AuthStatus)
    ensures Count([r], status) == if r.msg == ToAuth(AuthResponse(status)) then 1 else 0
  {
  }

  lemma SwitchAttempts(w: World, s: Session, request: AuthRequest, iv: seq<byte>, refused: nat)
    requires s.Authenticating? && refused + s.remaining == ATTEMPTS
    ensures var o := AuthSwitch(w, s, request, iv);
            AttemptsOk(o.session, refused + Count(o.replies, AuthContinue), Count(o.replies, AuthReject))
  {
  }

  /** A single answer that is neither a refusal nor a rejection counts for neither. */
  lemma OtherAnswer(w: World, mode: Mode, iv: seq<byte>, msg: ServerMsg, next: Session)
    requires msg != ToAuth(AuthResponse(AuthContinue)) && msg != ToAuth(AuthResponse(AuthReject))
    ensures var o := Respond(w, mode, iv, msg, next);
            && (o.session == Crashed || o.session == next)
            && Count(o.replies, AuthContinue) == 0 && Count(o.replies, AuthReject) == 0
  {
    var o := Respond(w, mode, iv, msg, next);
    if o.replies != [] {
      assert o.replies == [o.replies[0]];
      CountOne(o.replies[0], AuthContinue);
      CountOne(o.replies[0], AuthReject);
    }
  }

  /** An answer that counts for neither may come first. */
  lemma ThenAttempts(first: Out, second: Out, refused: nat)
    requires Count(first.replies, AuthContinue) == 0 && Count(first.replies, AuthReject) == 0 && refused <= ATTEMPTS
    requires AttemptsOk(second.session, refused + Count(second.replies, AuthContinue), Count(second.replies, AuthReject))
    ensures var o := Then(first, second);
            AttemptsOk(o.session, refused + Count(o.replies, AuthContinue), Count(o.replies, AuthReject))
  {
    CountAppend(first.replies, second.replies, AuthContinue);
    CountAppend(first.replies, second.replies, AuthReject);
    hide Count;
  }

  lemma AuthenticatingAttempts(w: World, s: Session, i: Input, refused: nat)
    requires s.Authenticating? && refused + s.remaining == ATTEMPTS
    ensures var o := AuthStep(w, s, i);
            AttemptsOk(o.session, refused + Count(o.replies, AuthContinue), Count(o.replies, AuthReject))
  {
    var request := Decode(w, s.coder, i.frame, w.parseAuthRequest);
    SwitchAttempts(w, s, if request.Some? then request.value else i.leftover, i.iv2, refused);
    if request.None? {
      OtherAnswer(w, s.coder, i.iv, ToAuth(AuthResponse(AuthDecodeError)), s);
      ThenAttempts(Respond(w, s.coder, i.iv, ToAuth(AuthResponse(AuthDecodeError)), s),
                   AuthSwitch(w, s, i.leftover, i.iv2), refused);
    }
    hide Decode, AuthSwitch, Count, Respond, Then, AttemptsOk;
  }

  lemma {:induction false} CountOther(replies: seq<Reply>, status: AuthStatus)
    requires forall x | 0 <= x < |replies| :: !replies[x].msg.ToAuth?
    ensures Count(replies, status) == 0
  {
    if replies == [] {
    } else {
      CountOther(replies[..|replies|-1], status);
    }
  }

  lemma ConnectedAttempts(w: World, s: Session, i: Input)
    requires s.Connected?
    ensures var o := ConnStep(w, s, i);
            AttemptsOk(o.session, Count(o.replies, AuthContinue), Count(o.replies, AuthReject))
  {
    var o := ConnStep(w, s, i);
    if o.replies != [] {
      assert |o.replies| == 1 && o.replies == [o.replies[0]];
      CountOne(o.replies[0], AuthContinue);
      CountOne(o.replies[0], AuthReject);
    }
  }

  lemma StepAttempts(w: World, s: Session, i: Input, refused: nat, rejected: nat)
    requires AttemptsOk(s, refused, rejected)
    ensures var o := SessionStep(w, s, i);
            AttemptsOk(o.session, refused + Count(o.replies, AuthContinue), rejected + Count(o.replies, AuthReject))
  {
    hide ConnStep, AuthStep, UserStep, Count;
    match s
    case Connected(_, _) => ConnectedAttempts(w, s, i);
    case Authenticating(_, _) => AuthenticatingAttempts(w, s, i, refused);
    case User(coder) =>
      UserReplies(w, coder, i.user.answers, if i.user.ends then Closed else s);
      CountOther(SessionStep(w, s, i).replies, AuthContinue);
      CountOther(SessionStep(w, s, i).replies, AuthReject);
    case _ =>
      CountOther([], AuthContinue);
      CountOther([], AuthReject);
  }

  lemma {:induction false} BoundedAttempts(w: World, ins: seq<Input>)
    ensures var o := SessionRun(w, ins); var refused, rejected := Count(o.replies, AuthContinue), Count(o.replies, AuthReject);
            && AttemptsOk(o.session, refused, rejected)
            && refused <= 5 && rejected <= 1 && (rejected == 1 ==> refused == 5 && o.session == Closed)
  {
    hide SessionStep, Count;
    if ins == [] {
      CountOther([], AuthContinue);
      CountOther([], AuthReject);
    } else {
      var before, i := SessionRun(w, ins[..|ins|-1]), ins[|ins|-1];
      BoundedAttempts(w, ins[..|ins|-1]);
      var o := SessionStep(w, before.session, i);
      StepAttempts(w, before.session, i, Count(before.replies, AuthContinue), Count(before.replies, AuthReject));
      CountAppend(before.replies, o.replies, AuthContinue);
      CountAppend(before.replies, o.replies, AuthReject);
    }
  }

  // ---------------------------------------------------------------- what replies tell

  /** What is granted, and with which key; a refusal names the algorithm only when the key
      was acceptable and the agreement failed. */
  ghost predicate Granted(w: World, s: Session, i: Input, request: ConnRequest, answer: ConnResponse)
    requires s.Connected?
  {
    match request.kind
    case RequestAuth => (answer.status == Ok <==> s.kexDone) && answer.kex == None
    case RequestKex =>
      var offered := !s.kexDone && request.kex.Some?;
      var usable := offered && request.kex.value.ecdh && |request.kex.value.pkey| == 32;
      var agreed := usable && w.agree(i.priv, request.kex.value.pkey).Some?;
      && (answer.status == Ok <==> agreed)
      && (answer.kex.Some? <==> offered)
      && (answer.kex.Some? ==> answer.kex.value == KexMsg(usable, if agreed then w.pub(i.priv) else []))
    case _ => false
  }

  /** In the connected phase a positive reply and a change of phase are the same thing,
      a decode error says that the frame did not decode, and only unknown requests go
      unanswered. */
  lemma ConnectedRepliesMean(w: World, s: Session, i: Input)
    requires Lawful(w) && s.Connected? && CoderOk(s)
    ensures var o, request := SessionStep(w, s, i), Decode(w, s.coder, i.frame, w.parseConnRequest);
            && |o.replies| <= 1
            && (o.replies == [] <==> request.Some? && (request.value.kind.ConnUnknown? || request.value.kind.ConnOther?))
            && (o.replies == [] ==> o.session == s)
            && (o.replies != [] ==>
                  && o.replies[0].msg.ToConn?
                  && var status := o.replies[0].msg.conn.status;
                     && (status == DecodeError <==> request.None?)
                     && (status == Ok <==> Rank(o.session) == Rank(s) + 1)
                     && (status != Ok ==> o.session == s)
                     && status != InvalidRequest
                     && (request.Some? ==> Granted(w, s, i, request.value, o.replies[0].msg.conn)))
  {
    OnlyUsersCrash(w, s, i);
    RespondsFit(w);
    if s.kexDone { SmallAnswers(w, []); } else { SmallAnswers(w, w.pub(i.priv)); }
  }

  lemma SmallAnswers(w: World, pkey: seq<byte>)
    requires Lawful(w) && |pkey| <= PUBLIC_KEYLENGTH
    ensures forall status: ConnStatus, ecdh: bool ::
              |w.serConnResponse(ConnResponse(status, Some(KexMsg(ecdh, pkey))))| <= MAX_BODY
    ensures forall status: ConnStatus, ecdh: bool ::
              |w.serConnResponse(ConnResponse(status, Some(KexMsg(ecdh, []))))| <= MAX_BODY
    ensures forall status: ConnStatus :: |w.serConnResponse(ConnResponse(status, None))| <= MAX_BODY
    ensures forall status: AuthStatus :: |w.serAuthResponse(AuthResponse(status))| <= MAX_BODY
  {
    forall status: ConnStatus, kex: Option<KexMsg> | kex.Some? ==> |kex.value.pkey| <= PUBLIC_KEYLENGTH
      ensures |w.serConnResponse(ConnResponse(status, kex))| <= MAX_BODY
    {
      assert |Ser(w, ToConn(ConnResponse(status, kex)))| + IV_SIZE + w.aead.tag <= MAX_BODY;
    }
    forall status: AuthStatus ensures |w.serAuthResponse(AuthResponse(status))| <= MAX_BODY {
      assert |Ser(w, ToAuth(AuthResponse(status)))| + IV_SIZE + w.aead.tag <= MAX_BODY;
    }
  }

  /** What a status says about the request: only credentials are checked, what the
      authenticator says decides, and without one all credentials are good. */
  ghost predicate Verdict(w: World, s: Session, request: AuthRequest, status: AuthStatus)
    requires s.Authenticating?
  {
    && status != AuthDecodeError
    && (status == AuthInvalidRequest <==> request.kind != AuthSupply)
    && (status == AuthAccept <==>
          request.kind == AuthSupply && (w.authenticator.Some? ==> w.authenticator.value(request)))
    && (status == AuthContinue <==>
          request.kind == AuthSupply && w.authenticator.Some? && !w.authenticator.value(request) && s.remaining > 0)
  }

  lemma SwitchReplyMeans(w: World, s: Session, request: AuthRequest, iv: seq<byte>)
    requires Lawful(w) && s.Authenticating?
    ensures var o := AuthSwitch(w, s, request, iv);
            && |o.replies| == 1 && o.replies[0].msg.ToAuth?
            && var status := o.replies[0].msg.auth.status;
               && Verdict(w, s, request, status)
               && (status == AuthInvalidRequest <==> o.session == s)
               && (status == AuthContinue <==> s.remaining > 0 && o.session == s.(remaining := s.remaining - 1))
               && (status == AuthReject ==> s.remaining == 0 && o.session == Closed)
               && (status == AuthAccept ==> o.session == if w.factory == UserFactory then User(s.coder) else Closed)
  {
    SmallAnswers(w, []);
  }

  /** In the authentication phase an undecodable frame costs one extra reply; the last reply
      tells what became of the request and where the session is now. */
  lemma AuthenticatingRepliesMean(w: World, s: Session, i: Input)
    requires Lawful(w) && s.Authenticating? && CoderOk(s)
    ensures var o := SessionStep(w, s, i);
            && |o.replies| == (if Decode(w, s.coder, i.frame, w.parseAuthRequest).Some? then 1 else 2)
            && (|o.replies| == 2 ==> o.replies[0].msg == ToAuth(AuthResponse(AuthDecodeError)))
            && var last := o.replies[|o.replies|-1].msg;
               && last.ToAuth?
               && var request := Decode(w, s.coder, i.frame, w.parseAuthRequest);
               && Verdict(w, s, if request.Some? then request.value else i.leftover, last.auth.status)
               && (last.auth.status == AuthInvalidRequest <==> o.session == s)
               && (last.auth.status == AuthContinue <==> s.remaining > 0 && o.session == s.(remaining := s.remaining - 1))
               && (last.auth.status == AuthReject ==> s.remaining == 0 && o.session == Closed)
               && (last.auth.status == AuthAccept ==>
                     o.session == if w.factory == UserFactory then User(s.coder) else Closed)
  {
    SmallAnswers(w, []);
    var request := Decode(w, s.coder, i.frame, w.parseAuthRequest);
    SwitchReplyMeans(w, s, if request.Some? then request.value else i.leftover, i.iv2);
    hide AuthSwitch, Decode;
  }
}
