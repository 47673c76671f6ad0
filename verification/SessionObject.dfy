/** The session as objects: a context that owns the handler of the current phase and
    replaces it, and handlers that update their own fields. */
module SessionObject {
  import opened Options
  import opened Wire
  import opened Coding
  import opened Session
  import ST = SessionTheorems

  /** The context's `state` pointer. */
  datatype StatePtr =
    | NullState
    | ConnectedState(connected: ConnectedHandler)
    | AuthenticationState(auth: AuthenticationHandler)
    | UserState(user: UserHandler)

  class ProtocolContext {
    var state: StatePtr
    var sent: seq<Reply>   // what went through the context's frame sink
    var thrown: bool       // an exception left a handler

    function Objects(): set<object>
      reads this
    {
      match state
      case NullState => {this}
      case ConnectedState(h) => {this, h}
      case AuthenticationState(h) => {this, h}
      case UserState(h) => {this, h}
    }

    function Abs(): Session
      reads this, Objects()
    {
      if thrown then Crashed
      else match state
           case NullState => Closed
           case ConnectedState(h) => Connected(h.coder, h.isKexComplete)
           case AuthenticationState(h) => Authenticating(h.coder, h.remainingAttempts)
           case UserState(h) => User(h.coder)
    }

    constructor ()
      ensures Abs() == FRESH && sent == [] && fresh(Objects())
    {
      var h := new ConnectedHandler();
      state, sent, thrown := ConnectedState(h), [], false;
    }

    predicate IsActive()
      reads this
    {
      !state.NullState?
    }

    method SetState(newState: StatePtr)
      modifies this`state
      ensures state == newState
    {
      state := newState;
    }

    /** Encodes and sends; false stands for the exception of a failed encode. */
    method RespWithStatus(w: World, coder: Mode, iv: seq<byte>, msg: ServerMsg) returns (ok: bool)
      requires !thrown
      modifies this`sent, this`thrown
      ensures var o := Respond(w, coder, iv, msg, FRESH);
              && sent == old(sent) + o.replies && ok == !thrown
              && (thrown <==> o.session.Crashed?)
    {
      var frame := EncodeBody(w.aead, coder, iv, Ser(w, msg));
      if frame.None? {
        thrown := true;
        return false;
      }
      sent := sent + [Reply(coder, msg, frame.value)];
      ok := true;
    }

    /** Dispatch to the handler of the phase: a context with no handler ignores every
        frame, and all others follow the session step. */
    method HandleFrame(w: World, i: Input)
      requires !thrown
      modifies Objects()
      ensures var o := SessionStep(w, old(Abs()), i);
              Abs() == o.session && sent == old(sent) + o.replies
      ensures fresh(Objects() - old(Objects()))
      ensures !thrown ==> (IsActive() <==> !Abs().Closed?)
    {
      match state
      case NullState => assert sent == sent + [];
      case ConnectedState(h) => h.HandleFrame(w, i, this);
      case AuthenticationState(h) => h.HandleFrame(w, i, this);
      case UserState(h) => h.HandleFrame(w, i, this);
    }
  }

  class ConnectedHandler {
    var isKexComplete: bool
    var coder: Mode

    constructor ()
      ensures !isKexComplete && coder == Plain
    {
      isKexComplete, coder := false, Plain;
    }

    method HandleFrame(w: World, i: Input, ctx: ProtocolContext)
      requires !ctx.thrown && ctx.state == ConnectedState(this)
      modifies this, ctx
      ensures var o := ConnStep(w, old(ctx.Abs()), i);
              ctx.Abs() == o.session && ctx.sent == old(ctx.sent) + o.replies
      ensures fresh(ctx.Objects() - old(ctx.Objects()))
    {
      var request := Decode(w, coder, i.frame, w.parseConnRequest);
      if request.None? {
        var _ := ctx.RespWithStatus(w, coder, i.iv, ToConn(ConnResponse(DecodeError, None)));
        return;
      }
      match request.value.kind
      case RequestKex => HandleKex(w, request.value.kex, i, ctx);
      case RequestAuth => HandleAuthRequest(w, i, ctx);
      case ConnUnknown => assert ctx.sent == ctx.sent + [];
      case ConnOther => assert ctx.sent == ctx.sent + [];
    }

    method HandleKex(w: World, kex: Option<KexMsg>, i: Input, ctx: ProtocolContext)
      requires !ctx.thrown && ctx.state == ConnectedState(this)
      modifies this, ctx
      ensures var o := KexStep(w, old(ctx.Abs()), kex, i);
              ctx.Abs() == o.session && ctx.sent == old(ctx.sent) + o.replies
      ensures ctx.state == old(ctx.state)
    {
      var response := ConnResponse(InvalidRequest, None);
      if isKexComplete || kex.None? {
        var _ := ctx.RespWithStatus(w, coder, i.iv, ToConn(response.(status := RequestError)));
        return;
      }
      response := response.(kex := Some(KexMsg(false, [])));
      if !kex.value.ecdh || |kex.value.pkey| != PUBLIC_KEYLENGTH {
        var _ := ctx.RespWithStatus(w, coder, i.iv, ToConn(response.(status := RequestError)));
        return;
      }
      response := response.(kex := Some(KexMsg(true, [])));
      var agreedKey := w.agree(i.priv, kex.value.pkey);
      if agreedKey.None? {
        var _ := ctx.RespWithStatus(w, coder, i.iv, ToConn(response.(status := RequestError)));
        return;
      }
      response := response.(kex := Some(KexMsg(true, w.pub(i.priv))));
      isKexComplete := true;
      var ok := ctx.RespWithStatus(w, coder, i.iv, ToConn(response.(status := Ok)));
      if ok {
        coder := Sealed(agreedKey.value);
      }
    }

    method HandleAuthRequest(w: World, i: Input, ctx: ProtocolContext)
      requires !ctx.thrown && ctx.state == ConnectedState(this)
      modifies ctx
      ensures var s := old(ctx.Abs());
              var o := if !s.kexDone then Respond(w, s.coder, i.iv, ToConn(ConnResponse(RequestError, None)), s)
                       else Respond(w, s.coder, i.iv, ToConn(ConnResponse(Ok, None)), Authenticating(s.coder, ATTEMPTS));
              ctx.Abs() == o.session && ctx.sent == old(ctx.sent) + o.replies
      ensures fresh(ctx.Objects() - old(ctx.Objects()))
    {
      if !isKexComplete {
        var _ := ctx.RespWithStatus(w, coder, i.iv, ToConn(ConnResponse(RequestError, None)));
        return;
      }
      var ok := ctx.RespWithStatus(w, coder, i.iv, ToConn(ConnResponse(Ok, None)));
      if ok {
        var next := new AuthenticationHandler(coder);
        ctx.SetState(AuthenticationState(next));
      }
    }
  }

  class AuthenticationHandler {
    const coder: Mode
    var remainingAttempts: nat
    var request: AuthRequest

    constructor (coder: Mode)
      ensures this.coder == coder && remainingAttempts == ATTEMPTS
    {
      this.coder, remainingAttempts := coder, ATTEMPTS;
      request := AuthRequest(AuthUnknown, [], []);
    }

    method HandleFrame(w: World, i: Input, ctx: ProtocolContext)
      requires !ctx.thrown && ctx.state == AuthenticationState(this)
      modifies this, ctx
      ensures var o := AuthStep(w, old(ctx.Abs()), i);
              ctx.Abs() == o.session && ctx.sent == old(ctx.sent) + o.replies
      ensures fresh(ctx.Objects() - old(ctx.Objects()))
    {
      hide AuthSwitch, Decode, Respond;
      var decoded := Decode(w, coder, i.frame, w.parseAuthRequest);
      if decoded.Some? {
        request := decoded.value;
        Switch(w, i.iv2, ctx);
      } else {
        request := i.leftover;
        var ok := ctx.RespWithStatus(w, coder, i.iv, ToAuth(AuthResponse(AuthDecodeError)));
        RespondsOnce(w, coder, i.iv, ToAuth(AuthResponse(AuthDecodeError)), old(ctx.Abs()));
        if ok {
          // no return here: the request switch still runs
          ghost var sent := ctx.sent;
          Switch(w, i.iv2, ctx);
          assert old(ctx.sent) + (sent[|old(ctx.sent)|..] + ctx.sent[|sent|..]) == ctx.sent;
        }
      }
    }

    /** The reply does not depend on what comes next. */
    lemma RespondsOnce(w: World, mode: Mode, iv: seq<byte>, msg: ServerMsg, next: Session)
      ensures var o, p := Respond(w, mode, iv, msg, FRESH), Respond(w, mode, iv, msg, next);
              && o.replies == p.replies
              && (!next.Crashed? ==> (o.session.Crashed? <==> p.session.Crashed?))
              && (p.session == next || (p.session == Crashed && p.replies == []))
    {
    }

    method Switch(w: World, iv: seq<byte>, ctx: ProtocolContext)
      requires !ctx.thrown && ctx.state == AuthenticationState(this)
      modifies this, ctx
      ensures var o := AuthSwitch(w, old(ctx.Abs()), old(request), iv);
              ctx.Abs() == o.session && ctx.sent == old(ctx.sent) + o.replies
      ensures fresh(ctx.Objects() - old(ctx.Objects()))
    {
      if request.kind == AuthSupply {
        DoAuth(w, iv, ctx);
      } else {
        var _ := ctx.RespWithStatus(w, coder, iv, ToAuth(AuthResponse(AuthInvalidRequest)));
      }
    }

    method DoAuth(w: World, iv: seq<byte>, ctx: ProtocolContext)
      requires !ctx.thrown && ctx.state == AuthenticationState(this) && request.kind == AuthSupply
      modifies this, ctx
      ensures var o := AuthSwitch(w, old(ctx.Abs()), old(request), iv);
              ctx.Abs() == o.session && ctx.sent == old(ctx.sent) + o.replies
      ensures request == old(request)
      ensures ctx.sent != old(ctx.sent) ==>
                (ctx.sent[|ctx.sent|-1].msg == ToAuth(AuthResponse(AuthAccept)) <==>
                   (w.authenticator.Some? ==> w.authenticator.value(request)))
      ensures fresh(ctx.Objects() - old(ctx.Objects()))
    {
      if w.authenticator.None? || w.authenticator.value(request) {
        ProceedAuth(w, iv, ctx);
      } else if remainingAttempts > 0 {
        remainingAttempts := remainingAttempts - 1;
        var _ := ctx.RespWithStatus(w, coder, iv, ToAuth(AuthResponse(AuthContinue)));
      } else {
        var ok := ctx.RespWithStatus(w, coder, iv, ToAuth(AuthResponse(AuthReject)));
        if ok { ctx.SetState(NullState); }
      }
    }

    method ProceedAuth(w: World, iv: seq<byte>, ctx: ProtocolContext)
      requires !ctx.thrown && ctx.state == AuthenticationState(this)
      modifies ctx
      ensures var o := Respond(w, coder, iv, ToAuth(AuthResponse(AuthAccept)),
                                       if w.factory == UserFactory then User(coder) else Closed);
              ctx.Abs() == o.session && ctx.sent == old(ctx.sent) + o.replies
      ensures fresh(ctx.Objects() - old(ctx.Objects()))
    {
      var ok := ctx.RespWithStatus(w, coder, iv, ToAuth(AuthResponse(AuthAccept)));
      if !ok { return; }
      match w.factory
      case NoFactory => ctx.SetState(NullState);
      case NullFactory => ctx.SetState(NullState);
      case UserFactory =>
        var next := new UserHandler(coder);
        ctx.SetState(UserState(next));
    }
  }

  class UserHandler {
    const coder: Mode

    constructor (coder: Mode)
      ensures this.coder == coder
    {
      this.coder := coder;
    }

    /** sendResp for each of the user's answers, and the end of the session if the user
        wants it; an answer that cannot be encoded is an exception. */
    method HandleFrame(w: World, i: Input, ctx: ProtocolContext)
      requires !ctx.thrown && ctx.state == UserState(this)
      modifies ctx
      ensures var o := SessionStep(w, old(ctx.Abs()), i);
              ctx.Abs() == o.session && ctx.sent == old(ctx.sent) + o.replies
      ensures ctx.thrown <==> ST.AnyTooLong(i.user.answers)
      ensures ctx.thrown ==> ctx.state == old(ctx.state)
      ensures !ctx.thrown ==>
                && |ctx.sent| == |old(ctx.sent)| + |i.user.answers|
                && ctx.state == if i.user.ends then NullState else old(ctx.state)
    {
      ST.UserTurn(w, ctx.Abs(), i);
      var answers := i.user.answers;
      ghost var next := if i.user.ends then Closed else User(coder);
      var n := 0;
      assert answers[0..] == answers;
      while n < |answers| && !ctx.thrown
        invariant n <= |answers| && ctx.state == UserState(this)
        invariant Progress(w, coder, answers, n, next, old(ctx.sent), ctx.sent, ctx.thrown)
      {
        ghost var sent := ctx.sent;
        var ok := ctx.RespWithStatus(w, coder, answers[n].iv, ToUser(answers[n].body));
        OneMoreAnswer(w, coder, answers, n, next, old(ctx.sent), sent);
        n := n + 1;
      }
      if i.user.ends && !ctx.thrown {
        ctx.SetState(NullState);
      }
      hide UserStep, ST.AnyTooLong, Respond;
    }
  }

  /** After `n` of the answers: what has been sent, and what the rest will add. */
  ghost predicate Progress(w: World, coder: Mode, answers: seq<Answer>, n: nat, next: Session,
                           before: seq<Reply>, sent: seq<Reply>, thrown: bool)
    requires n <= |answers|
  {
    var all, rest := UserStep(w, coder, answers, next), UserStep(w, coder, answers[n..], next);
    if thrown then all.session == Crashed && before + all.replies == sent
    else all.session == rest.session && before + all.replies == sent + rest.replies
  }

  lemma OneMoreAnswer(w: World, coder: Mode, answers: seq<Answer>, n: nat, next: Session,
                      before: seq<Reply>, sent: seq<Reply>)
    requires n < |answers| && !next.Crashed? && Progress(w, coder, answers, n, next, before, sent, false)
    ensures var o := Respond(w, coder, answers[n].iv, ToUser(answers[n].body), FRESH);
            Progress(w, coder, answers, n + 1, next, before, sent + o.replies, o.session.Crashed?)
  {
    hide EncodeBody, Ser;
    assert answers[n..][1..] == answers[n + 1..];
    var rest := UserStep(w, coder, answers[n + 1..], next);
    var o := Respond(w, coder, answers[n].iv, ToUser(answers[n].body), FRESH);
    assert sent + (o.replies + rest.replies) == sent + o.replies + rest.replies;
  }

  ghost predicate InStep(ctx: ProtocolContext, w: World, ins: seq<Input>, n: nat)
    requires n <= |ins|
    reads ctx, ctx.Objects()
  {
    ctx.Abs() == SessionRun(w, ins[..n]).session && ctx.sent == SessionRun(w, ins[..n]).replies
  }

  method HandleNext(w: World, ins: seq<Input>, n: nat, ctx: ProtocolContext)
    requires n < |ins| && !ctx.thrown && InStep(ctx, w, ins, n)
    modifies ctx.Objects()
    ensures InStep(ctx, w, ins, n + 1) && fresh(ctx.Objects() - old(ctx.Objects()))
  {
    hide SessionStep, SessionRun;
    ctx.HandleFrame(w, ins[n]);
    RunNext(w, ins, n);
  }

  /** A session driven by any sequence of frames is the run of the specification. */
  method RunSession(w: World, ins: seq<Input>) returns (ctx: ProtocolContext)
    ensures ctx.Abs() == SessionRun(w, ins).session && ctx.sent == SessionRun(w, ins).replies
  {
    ctx := new ProtocolContext();
    assert SessionRun(w, ins[..0]) == Out(FRESH, []);
    var n := HandleWhileAlive(w, ins, ctx);
    hide SessionStep, SessionRun;
    CrashedStays(w, ins, n);
  }

  method HandleWhileAlive(w: World, ins: seq<Input>, ctx: ProtocolContext) returns (n: nat)
    requires InStep(ctx, w, ins, 0)
    modifies ctx.Objects()
    ensures n <= |ins| && InStep(ctx, w, ins, n) && (n < |ins| ==> ctx.Abs().Crashed?)
  {
    hide SessionStep, SessionRun;
    n := 0;
    while n < |ins| && !ctx.thrown
      invariant n <= |ins| && fresh(ctx.Objects() - old(ctx.Objects())) && InStep(ctx, w, ins, n)
    {
      HandleNext(w, ins, n, ctx);
      n := n + 1;
    }
  }

  lemma RunNext(w: World, ins: seq<Input>, n: nat)
    requires n < |ins|
    ensures var before := SessionRun(w, ins[..n]);
            var o := SessionStep(w, before.session, ins[n]);
            SessionRun(w, ins[..n + 1]) == Out(o.session, before.replies + o.replies)
  {
    assert ins[..n + 1][..n] == ins[..n];
  }

  lemma {:induction false} CrashedStays(w: World, ins: seq<Input>, n: nat)
    requires n <= |ins| && (n < |ins| ==> SessionRun(w, ins[..n]).session.Crashed?)
    ensures SessionRun(w, ins) == SessionRun(w, ins[..n])
  {
    if n == |ins| {
      assert ins[..n] == ins;
    } else {
      assert ins[..|ins|-1][..n] == ins[..n];
      CrashedStays(w, ins[..|ins|-1], n);
    }
  }
}
