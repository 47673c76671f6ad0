/** The assumptions about the cipher, the message format and the key agreement hold of
    a concrete, if useless, instance: the theorems that need them are not empty. */
module Consistency {
  import opened Options
  import opened Wire
  import opened Coding
  import opened Session

  const TOY_AEAD := Aead(
    (k: Key, iv: seq<byte>, p: seq<byte>) => p + [0],
    (k: Key, iv: seq<byte>, c: seq<byte>) => if c != [] && c[|c|-1] == 0 then Some(c[..|c|-1]) else None,
    1)

  lemma ToyCipherIsLawful()
    ensures AeadLaws(TOY_AEAD)
  {
  }

  function KexBytes(kex: Option<KexMsg>): seq<byte> {
    if kex.None? then [] else [if kex.value.ecdh then 1 else 0] + kex.value.pkey
  }

  function ReadKex(s: seq<byte>): Option<KexMsg> {
    if s == [] then None else Some(KexMsg(s[0] == 1, s[1..]))
  }

  function KindByte(k: ConnRequestType): byte {
    match k case ConnUnknown => 0 case RequestKex => 1 case RequestAuth => 2 case ConnOther => 3
  }

  function StatusByte(s: ConnStatus): byte {
    match s case Ok => 1 case InvalidRequest => 2 case RequestError => 3 case DecodeError => 4
  }

  function AuthKindByte(k: AuthRequestType): byte {
    match k case AuthUnknown => 0 case AuthSupply => 1 case AuthInfo => 2 case AuthOther => 3
  }

  function AuthStatusByte(s: AuthStatus): byte {
    match s
    case AuthAccept => 1 case AuthReject => 2 case AuthContinue => 3
    case AuthInvalidRequest => 4 case AuthDecodeError => 5
  }

  function KindOf(b: byte): ConnRequestType {
    if b == 0 then ConnUnknown else if b == 1 then RequestKex else if b == 2 then RequestAuth else ConnOther
  }

  function StatusOf(b: byte): ConnStatus {
    if b == 1 then Ok else if b == 2 then InvalidRequest else if b == 3 then RequestError else DecodeError
  }

  function AuthKindOf(b: byte): AuthRequestType {
    if b == 0 then AuthUnknown else if b == 1 then AuthSupply else if b == 2 then AuthInfo else AuthOther
  }

  function AuthStatusOf(b: byte): AuthStatus {
    if b == 1 then AuthAccept else if b == 2 then AuthReject else if b == 3 then AuthContinue
    else if b == 4 then AuthInvalidRequest else AuthDecodeError
  }

  /** A length in unary, so that two byte strings fit one message. */
  function Unary(n: nat): seq<byte> {
    if n == 0 then [0] else [1] + Unary(n - 1)
  }

  function Ones(s: seq<byte>): nat {
    if s == [] || s[0] != 1 then 0 else 1 + Ones(s[1..])
  }

  lemma {:induction false} ReadUnaryBack(n: nat, t: seq<byte>)
    ensures Ones(Unary(n) + t) == n && |Unary(n)| == n + 1 && (Unary(n) + t)[n + 1..] == t
  {
    if n == 0 {
    } else {
      ReadUnaryBack(n - 1, t);
      assert (Unary(n) + t)[1..] == Unary(n - 1) + t;
      assert (Unary(n) + t)[n + 1..] == (Unary(n) + t)[1..][n..];
    }
  }

  function AuthBytes(m: AuthRequest): seq<byte> {
    [AuthKindByte(m.kind)] + (Unary(|m.username|) + (m.username + m.credential))
  }

  function ReadAuth(s: seq<byte>): Option<AuthRequest> {
    if s == [] then None
    else
      var n := Ones(s[1..]);
      if |s| < 2 + n + n then None
      else Some(AuthRequest(AuthKindOf(s[0]), s[n + 2..][..n], s[n + 2..][n..]))
  }

  lemma ReadAuthBack(m: AuthRequest)
    ensures ReadAuth(AuthBytes(m)) == Some(m)
  {
    var n, t, s := |m.username|, m.username + m.credential, AuthBytes(m);
    ReadUnaryBack(n, t);
    assert s[1..] == Unary(n) + t;
    assert s[n + 2..] == s[1..][n + 1..] == t;
    assert t[..n] == m.username && t[n..] == m.credential;
  }

  function ToyPub(a: nat): seq<byte> {
    seq(PUBLIC_KEYLENGTH, i => 0)
  }

  function SerConnRequest(m: ConnRequest): seq<byte> {
    [KindByte(m.kind)] + KexBytes(m.kex)
  }

  function ParseConnRequest(s: seq<byte>): Option<ConnRequest> {
    if s == [] then None else Some(ConnRequest(KindOf(s[0]), ReadKex(s[1..])))
  }

  function SerConnResponse(m: ConnResponse): seq<byte> {
    [StatusByte(m.status)] + KexBytes(m.kex)
  }

  function ParseConnResponse(s: seq<byte>): Option<ConnResponse> {
    if s == [] then None else Some(ConnResponse(StatusOf(s[0]), ReadKex(s[1..])))
  }

  function SerAuthResponse(m: AuthResponse): seq<byte> {
    [AuthStatusByte(m.status)]
  }

  function ParseAuthResponse(s: seq<byte>): Option<AuthResponse> {
    if s == [] then None else Some(AuthResponse(AuthStatusOf(s[0])))
  }

  lemma ConnRequestBack(m: ConnRequest)
    ensures ParseConnRequest(SerConnRequest(m)) == Some(m)
  {
  }

  lemma ConnResponseBack(m: ConnResponse)
    ensures ParseConnResponse(SerConnResponse(m)) == Some(m)
  {
  }

  lemma AuthResponseBack(m: AuthResponse)
    ensures ParseAuthResponse(SerAuthResponse(m)) == Some(m)
  {
  }

  function Toy(factory: Factory): World {
    World(TOY_AEAD,
          m => SerConnRequest(m), s => ParseConnRequest(s), m => AuthBytes(m), s => ReadAuth(s),
          m => SerConnResponse(m), s => ParseConnResponse(s), m => SerAuthResponse(m), s => ParseAuthResponse(s),
          (a: nat) => ToyPub(a), (a: nat, p: seq<byte>) => Some([]), None, factory)
  }

  lemma LawsHaveAModel(factory: Factory)
    ensures Lawful(Toy(factory))
  {
    var w := Toy(factory);
    ToyCipherIsLawful();
    forall m ensures w.parseConnRequest(w.serConnRequest(m)) == Some(m) { ConnRequestBack(m); }
    forall m ensures w.parseConnResponse(w.serConnResponse(m)) == Some(m) { ConnResponseBack(m); }
    forall m ensures w.parseAuthRequest(w.serAuthRequest(m)) == Some(m) { ReadAuthBack(m); }
    forall m ensures w.parseAuthResponse(w.serAuthResponse(m)) == Some(m) { AuthResponseBack(m); }
  }
}
