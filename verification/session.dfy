/**
  The daemon's in-memory session: a single slot that is either logged out or
  holds the identity, auth object, token and passphrase of one logged-in user
  or machine. Each operation is modelled as one atomic step over an immutable
  state; the lock that serialises them in the daemon is not modelled.
 */
module Session {
  import opened Common

  /** The strings Type() reports. */
  const MachineSession := "machine"
  const UserSession := "user"
  const NotLoggedIn := "no_session"

  const NotLoggedInMessage := "Please login to perform that command"

  type IdentityID = Bytes

  /** The primitive carried in an unsigned envelope's body. Only the shapes the
      session distinguishes are named; every other primitive is `OtherBody`. */
  datatype Body =
    | UserBody(master: Bytes)
    | MachineBody
    | MachineTokenBody(master: Bytes)
    | OtherBody

  /** An unsigned envelope. Its ID is a pointer in the Go code, so it may be
      missing even when the envelope itself is present. */
  datatype Envelope = Envelope(id: Option<IdentityID>, body: Body)

  /** The session types a caller may log in as. The set is closed, so the
      "unrecognised session type" case cannot be expressed. */
  datatype Kind = User | Machine

  datatype Status = LoggedOut | LoggedIn(kind: Kind)

  datatype State = State(
    status: Status,
    identity: Option<Envelope>,
    auth: Option<Envelope>,
    token: string,
    passphrase: string)

  datatype Error =
    | AlreadyLoggedIn
    | NilEnvelope
    | IdentityNotUser
    | AuthNotUser
    | IdentityNotMachine
    | AuthNotMachineToken
    | EmptyPassphrase
    | EmptyToken
      /** The registry-style Unauthorized error with its list of messages. */
    | Unauthorized(messages: seq<string>)

  /** The outcome of a mutating call: the state afterwards and the error, if any. */
  datatype Step = Step(next: State, err: Option<Error>)

  function KindName(k: Kind): string {
    match k
    case User => UserSession
    case Machine => MachineSession
  }

  /** The text each of the session's own errors carries. The text of an
      Unauthorized error is apitypes.Error's, which is not part of this model. */
  function Message(e: Error): string
    requires !e.Unauthorized?
  {
    match e
    case AlreadyLoggedIn => "Cannot overwrite existing session"
    case NilEnvelope => "identity and auth cannot be null"
    case IdentityNotUser => "Identity must be a user object"
    case AuthNotUser => "Auth must be a user object"
    case IdentityNotMachine => "Identity must be machine object"
    case AuthNotMachineToken => "Auth must be a machine token object"
    case EmptyPassphrase => "Passphrase must not be empty"
    case EmptyToken => "Token must not be empty"
    case Unauthorized(_) => assert false; ""
  }

  function NotLoggedInError(): Error {
    Unauthorized([NotLoggedInMessage])
  }

  /** The body shapes a session of kind `k` requires of its identity and auth. */
  predicate ShapeOk(k: Kind, identity: Body, auth: Body) {
    match k
    case User => identity.UserBody? && auth.UserBody?
    case Machine => identity.MachineBody? && auth.MachineTokenBody?
  }

  /** The invariant every reachable session keeps: logged out means every field
      is empty; logged in means every field is present, the secrets are
      non-empty and the bodies have the shapes the session type requires. */
  predicate Valid(s: State) {
    match s.status
    case LoggedOut =>
      s.identity.None? && s.auth.None? && s.token == "" && s.passphrase == ""
    case LoggedIn(k) =>
      && s.identity.Some? && s.auth.Some?
      && |s.token| > 0 && |s.passphrase| > 0
      && ShapeOk(k, s.identity.value.body, s.auth.value.body)
  }

  // ---------------------------------------------------------------- accessors

  /** The session's type: "user" or "machine" when logged in, otherwise
      "no_session". */
  function Type(s: State): (r: string)
    ensures r == NotLoggedIn <==> s.status == LoggedOut
    ensures r == UserSession <==> s.status == LoggedIn(User)
    ensures r == MachineSession <==> s.status == LoggedIn(Machine)
  {
    match s.status
    case LoggedOut => NotLoggedIn
    case LoggedIn(k) => KindName(k)
  }

  /** The identity's ID: missing when there is no identity envelope or the
      envelope carries no ID. */
  function ID(s: State): (r: Option<IdentityID>)
    ensures r.Some? <==> s.identity.Some? && s.identity.value.id.Some?
    ensures r.Some? ==> Some(r.value) == s.identity.value.id
    ensures Valid(s) && s.status.LoggedOut? ==> r.None?
  {
    match s.identity
    case None => None
    case Some(e) => e.id
  }

  /** The auth object's ID, missing under the same conditions as ID. */
  function AuthID(s: State): (r: Option<IdentityID>)
    ensures r.Some? <==> s.auth.Some? && s.auth.value.id.Some?
    ensures r.Some? ==> Some(r.value) == s.auth.value.id
    ensures Valid(s) && s.status.LoggedOut? ==> r.None?
  {
    match s.auth
    case None => None
    case Some(e) => e.id
  }

  /** The stored token; on a valid session it is non-empty exactly when
      logged in. */
  function Token(s: State): (r: string)
    ensures Valid(s) ==> (r != "" <==> s.status.LoggedIn?)
  {
    s.token
  }

  /** The stored passphrase; on a valid session it is non-empty exactly when
      logged in. */
  function Passphrase(s: State): (r: string)
    ensures Valid(s) ==> (r != "" <==> s.status.LoggedIn?)
  {
    s.passphrase
  }

  /** Whether a token is stored; on a valid session, exactly when logged in. */
  predicate HasToken(s: State)
    ensures HasToken(s) <==> Token(s) != ""
    ensures Valid(s) ==> (HasToken(s) <==> s.status.LoggedIn?)
  {
    |s.token| > 0
  }

  /** Whether a passphrase is stored; on a valid session, exactly when logged in. */
  predicate HasPassphrase(s: State)
    ensures HasPassphrase(s) <==> Passphrase(s) != ""
    ensures Valid(s) ==> (HasPassphrase(s) <==> s.status.LoggedIn?)
  {
    |s.passphrase| > 0
  }

  function BoolText(b: bool): string {
    if b then "true" else "false"
  }

  /** The session's printable form: its type and whether each secret is set,
      never the secrets themselves. */
  function Describe(s: State): string {
    "Session{type:" + Type(s) + ",token:" + BoolText(HasToken(s))
    + ",passphrase:" + BoolText(HasPassphrase(s)) + "}"
  }

  // -------------------------------------------------------------- transitions

  /** The session the daemon starts with. */
  function NewSession(): (s: State)
    ensures Valid(s)
    ensures Type(s) == NotLoggedIn
    ensures ID(s).None? && AuthID(s).None?
    ensures !HasToken(s) && !HasPassphrase(s)
  {
    State(LoggedOut, None, None, "", "")
  }

  /** Logs in as `kind`, provided the session is logged out and every argument
      passes the checks, which run in a fixed order. */
  function Set(s: State, kind: Kind, identity: Option<Envelope>, auth: Option<Envelope>,
               passphrase: string, token: string): (r: Step)
    ensures r.err.Some? ==> r.next == s && !r.err.value.Unauthorized?
    ensures s.status.LoggedIn? ==> r.err == Some(AlreadyLoggedIn)
    ensures s.status.LoggedIn? ==> Message(r.err.value) == "Cannot overwrite existing session"
    ensures s.status.LoggedOut? && (identity.None? || auth.None?) ==>
              r.err == Some(NilEnvelope) && Message(r.err.value) == "identity and auth cannot be null"
    ensures r.err.None? ==>
              && Type(r.next) == KindName(kind)
              && Token(r.next) == token && Passphrase(r.next) == passphrase
              && r.next.identity == identity && r.next.auth == auth
  {
    if s.status != LoggedOut then Step(s, Some(AlreadyLoggedIn))
    else if identity.None? || auth.None? then Step(s, Some(NilEnvelope))
    else
      var shapeErr :=
        match kind
        case User =>
          if !identity.value.body.UserBody? then Some(IdentityNotUser)
          else if !auth.value.body.UserBody? then Some(AuthNotUser)
          else None
        case Machine =>
          if !identity.value.body.MachineBody? then Some(IdentityNotMachine)
          else if !auth.value.body.MachineTokenBody? then Some(AuthNotMachineToken)
          else None;
      if shapeErr.Some? then Step(s, shapeErr)
      else if |passphrase| == 0 then Step(s, Some(EmptyPassphrase))
      else if |token| == 0 then Step(s, Some(EmptyToken))
      else Step(State(LoggedIn(kind), identity, auth, token, passphrase), None)
  }

  /** The master-key material of the logged-in identity, chosen by session
      type: a user's own auth body, or the machine token's. */
  function MasterKey(s: State): (r: Result<Bytes, Error>)
    requires Valid(s)
    ensures r.Failure? <==> Type(s) == NotLoggedIn
    ensures r.Failure? ==> r.error == NotLoggedInError()
    ensures r.Success? ==> s.auth.Some? && (s.auth.value.body.UserBody? || s.auth.value.body.MachineTokenBody?)
                           && r.value == s.auth.value.body.master
  {
    match s.status
    case LoggedOut => Failure(NotLoggedInError())
    case LoggedIn(User) => Success(s.auth.value.body.master)
    case LoggedIn(Machine) => Success(s.auth.value.body.master)
  }

  /** Returns a logged-in session to the state it started in. */
  function Logout(s: State): (r: Step)
    ensures r.err.Some? <==> Type(s) == NotLoggedIn
    ensures r.err.Some? ==> r.next == s && r.err == Some(NotLoggedInError())
    ensures r.err.None? ==> r.next == NewSession()
  {
    if s.status == LoggedOut then Step(s, Some(NotLoggedInError()))
    else Step(NewSession(), None)
  }

  // ---------------------------------------------------- reference definitions

  /** One validation rule of Set: the error it reports when `passes` is false. */
  datatype Check = Check(passes: bool, err: Error)

  /** Set's validation rules as a table, in the order they are applied. */
  function SetChecks(s: State, kind: Kind, identity: Option<Envelope>, auth: Option<Envelope>,
                     passphrase: string, token: string): seq<Check>
  {
    var present := identity.Some? && auth.Some?;
    var idBody := if identity.Some? then identity.value.body else OtherBody;
    var authBody := if auth.Some? then auth.value.body else OtherBody;
    [ Check(s.status == LoggedOut, AlreadyLoggedIn),
      Check(present, NilEnvelope) ]
    + (match kind
       case User =>
         [ Check(idBody.UserBody?, IdentityNotUser),
           Check(authBody.UserBody?, AuthNotUser) ]
       case Machine =>
         [ Check(idBody.MachineBody?, IdentityNotMachine),
           Check(authBody.MachineTokenBody?, AuthNotMachineToken) ])
    + [ Check(|passphrase| > 0, EmptyPassphrase),
        Check(|token| > 0, EmptyToken) ]
  }

  /** The error of the first rule that does not pass, if any. */
  function FirstFailure(checks: seq<Check>): (r: Option<Error>)
    ensures r.None? <==> forall i :: 0 <= i < |checks| ==> checks[i].passes
    ensures r.Some? ==> exists i :: 0 <= i < |checks| && !checks[i].passes && checks[i].err == r.value
                                     && forall j :: 0 <= j < i ==> checks[j].passes
  {
    if |checks| == 0 then None
    else if !checks[0].passes then Some(checks[0].err)
    else
      var rest := FirstFailure(checks[1..]);
      assert forall i :: 1 <= i < |checks| ==> checks[i] == checks[1..][i - 1];
      if rest.Some? then
        ghost var k :| 0 <= k < |checks[1..]| && !checks[1..][k].passes && checks[1..][k].err == rest.value
                       && forall j :: 0 <= j < k ==> checks[1..][j].passes;
        assert !checks[k + 1].passes && forall j :: 0 <= j < k + 1 ==> checks[j].passes;
        rest
      else rest
  }

  // ------------------------------------------------------------------- lemmas

  /** The first failure of two tables run one after the other is the first
      table's, or else the second's. */
  lemma {:induction false} FirstFailureAppend(a: seq<Check>, b: seq<Check>)
    ensures FirstFailure(a + b) == if FirstFailure(a).Some? then FirstFailure(a) else FirstFailure(b)
    decreases |a|
  {
    if |a| > 0 {
      assert (a + b)[0] == a[0];
      assert (a + b)[1..] == a[1..] + b;
      FirstFailureAppend(a[1..], b);
    } else {
      assert a + b == b;
    }
  }

  /** Set reports exactly the error of the first failing rule of the table, and
      succeeds exactly when every rule passes. */
  lemma SetFollowsCheckOrder(s: State, kind: Kind, identity: Option<Envelope>, auth: Option<Envelope>,
                             passphrase: string, token: string)
    ensures Set(s, kind, identity, auth, passphrase, token).err
            == FirstFailure(SetChecks(s, kind, identity, auth, passphrase, token))
  {
    var idBody := if identity.Some? then identity.value.body else OtherBody;
    var authBody := if auth.Some? then auth.value.body else OtherBody;
    var head := [ Check(s.status == LoggedOut, AlreadyLoggedIn),
                  Check(identity.Some? && auth.Some?, NilEnvelope) ];
    var shape := match kind
       case User =>
         [ Check(idBody.UserBody?, IdentityNotUser),
           Check(authBody.UserBody?, AuthNotUser) ]
       case Machine =>
         [ Check(idBody.MachineBody?, IdentityNotMachine),
           Check(authBody.MachineTokenBody?, AuthNotMachineToken) ];
    var secrets := [ Check(|passphrase| > 0, EmptyPassphrase),
                     Check(|token| > 0, EmptyToken) ];
    assert SetChecks(s, kind, identity, auth, passphrase, token) == head + shape + secrets;
    FirstFailureAppend(head + shape, secrets);
    FirstFailureAppend(head, shape);
  }

  /** Set succeeds exactly on a logged-out session given present envelopes of
      the right shapes and non-empty secrets. */
  lemma SetSucceedsIff(s: State, kind: Kind, identity: Option<Envelope>, auth: Option<Envelope>,
                       passphrase: string, token: string)
    ensures Set(s, kind, identity, auth, passphrase, token).err.None?
            <==> && s.status == LoggedOut
                 && identity.Some? && auth.Some?
                 && ShapeOk(kind, identity.value.body, auth.value.body)
                 && |passphrase| > 0 && |token| > 0
  {
  }

  lemma SetPreservesValid(s: State, kind: Kind, identity: Option<Envelope>, auth: Option<Envelope>,
                          passphrase: string, token: string)
    requires Valid(s)
    ensures Valid(Set(s, kind, identity, auth, passphrase, token).next)
  {
  }

  lemma LogoutPreservesValid(s: State)
    requires Valid(s)
    ensures Valid(Logout(s).next)
  {
  }

  /** On every reachable session, being logged in, holding a token, holding a
      passphrase and holding an identity all coincide. */
  lemma LoggedInIffSecrets(s: State)
    requires Valid(s)
    ensures Type(s) != NotLoggedIn <==> HasToken(s)
    ensures HasToken(s) <==> HasPassphrase(s)
    ensures HasToken(s) <==> s.identity.Some? && s.auth.Some?
  {
  }

  /** Once a Set has succeeded, every further Set fails with AlreadyLoggedIn. */
  lemma SecondSetFails(s: State, k1: Kind, i1: Option<Envelope>, a1: Option<Envelope>, p1: string, t1: string,
                       k2: Kind, i2: Option<Envelope>, a2: Option<Envelope>, p2: string, t2: string)
    requires Set(s, k1, i1, a1, p1, t1).err.None?
    ensures Set(Set(s, k1, i1, a1, p1, t1).next, k2, i2, a2, p2, t2).err == Some(AlreadyLoggedIn)
  {
  }

  /** Logout after a successful Set succeeds, clears both secrets, and allows
      the same Set to succeed again. */
  lemma LogoutAfterSetRestores(s: State, kind: Kind, identity: Option<Envelope>, auth: Option<Envelope>,
                               passphrase: string, token: string)
    requires Set(s, kind, identity, auth, passphrase, token).err.None?
    ensures Logout(Set(s, kind, identity, auth, passphrase, token).next).err.None?
    ensures !HasToken(Logout(Set(s, kind, identity, auth, passphrase, token).next).next)
    ensures !HasPassphrase(Logout(Set(s, kind, identity, auth, passphrase, token).next).next)
    ensures Set(Logout(Set(s, kind, identity, auth, passphrase, token).next).next,
                kind, identity, auth, passphrase, token).err.None?
  {
  }

  /** Logging in with a user auth body exposes that body's master key; logging
      in with a machine token exposes the token's master key. */
  lemma MasterKeyAfterSet(s: State, kind: Kind, identity: Option<Envelope>, auth: Option<Envelope>,
                          passphrase: string, token: string)
    requires Valid(s)
    requires Set(s, kind, identity, auth, passphrase, token).err.None?
    ensures Valid(Set(s, kind, identity, auth, passphrase, token).next)
    ensures kind == User ==> auth.value.body.UserBody?
    ensures kind == Machine ==> auth.value.body.MachineTokenBody?
    ensures MasterKey(Set(s, kind, identity, auth, passphrase, token).next) == Success(auth.value.body.master)
  {
  }

  /** A successful Set makes ID and AuthID report the IDs the supplied envelopes
      carry; a successful Logout makes both missing again. */
  lemma IDsAfterSetAndLogout(s: State, kind: Kind, identity: Option<Envelope>, auth: Option<Envelope>,
                             passphrase: string, token: string)
    requires Set(s, kind, identity, auth, passphrase, token).err.None?
    ensures ID(Set(s, kind, identity, auth, passphrase, token).next) == identity.value.id
    ensures AuthID(Set(s, kind, identity, auth, passphrase, token).next) == auth.value.id
    ensures Logout(Set(s, kind, identity, auth, passphrase, token).next).err.None?
    ensures ID(Logout(Set(s, kind, identity, auth, passphrase, token).next).next).None?
    ensures AuthID(Logout(Set(s, kind, identity, auth, passphrase, token).next).next).None?
  {
  }

  /** The printable form depends only on the type and on whether each secret is
      present, so it cannot disclose the token or the passphrase. */
  lemma DescribeHidesSecrets(s1: State, s2: State)
    requires Type(s1) == Type(s2)
    requires HasToken(s1) == HasToken(s2) && HasPassphrase(s1) == HasPassphrase(s2)
    ensures Describe(s1) == Describe(s2)
  {
  }

  // ------------------------------------------------------------------- traces

  datatype Op =
    | SetOp(kind: Kind, identity: Option<Envelope>, auth: Option<Envelope>, passphrase: string, token: string)
    | LogoutOp

  function Apply(s: State, op: Op): Step {
    match op
    case SetOp(k, i, a, p, t) => Set(s, k, i, a, p, t)
    case LogoutOp => Logout(s)
  }

  /** The state after applying `ops` in order, each one atomically. */
  function Run(s: State, ops: seq<Op>): State
    decreases |ops|
  {
    if |ops| == 0 then s else Run(Apply(s, ops[0]).next, ops[1..])
  }

  /** Every session reachable from a valid one by any sequence of calls is valid. */
  lemma {:induction false} RunPreservesValid(s: State, ops: seq<Op>)
    requires Valid(s)
    ensures Valid(Run(s, ops))
    decreases |ops|
  {
    if |ops| > 0 {
      match ops[0] {
        case SetOp(k, i, a, p, t) => SetPreservesValid(s, k, i, a, p, t);
        case LogoutOp => LogoutPreservesValid(s);
      }
      RunPreservesValid(Apply(s, ops[0]).next, ops[1..]);
    }
  }

  /** Without a Logout, a logged-in session is never changed, whatever is Set. */
  lemma {:induction false} NoOverwriteWithoutLogout(s: State, ops: seq<Op>)
    requires s.status.LoggedIn?
    requires forall i :: 0 <= i < |ops| ==> ops[i].SetOp?
    ensures Run(s, ops) == s
    decreases |ops|
  {
    if |ops| > 0 {
      assert ops[0].SetOp?;
      assert forall i :: 0 <= i < |ops[1..]| ==> ops[1..][i] == ops[i + 1];
      NoOverwriteWithoutLogout(Apply(s, ops[0]).next, ops[1..]);
    }
  }
}
