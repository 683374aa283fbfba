/**
 Logins, login-time rehashes, password changes, registrations and ordinary requests as transactions
 interleaved statement by statement.

 Rules taken from PostgreSQL and SQLAlchemy: SELECT ... FOR UPDATE waits for the row lock, then reads
 the latest committed row (populate_existing); a plain read takes no lock and sees committed rows; an
 uncommitted insert makes equal unique keys wait; writes become visible, and locks free, at the end.
 A cookie is issued after the commit from the transaction's result; cookies cannot be forged, and any
 cookie ever issued may be presented by any request. Each transaction reads its own clock.
 */
module CredentialProtocol {
  import opened Basics
  import opened UserStore

  type TxId = nat

  datatype Request =
    | Register(email: string, password: string, allowed: bool, scheme: nat)
    | Login(email: string, password: string, scheme: nat)
    | Change(claims: Claims, current: string, new_: string, confirmation: string, allowed: bool, scheme: nat)
    | Visit(claims: Claims)

  /** Where a transaction stands; `user` is the row as read, `write` its uncommitted version, `entry` the place
      of its answer in the log. */
  datatype Tx =
    | Begun(request: Request)
    | Validated(request: Request, session: AuthResult)
    | Inserting(request: Request, user: User, now: Time)
    | Locked(request: Request, user: User, email: string)
    | Verified(request: Request, user: User, email: string, verification: Verification)
    | Written(request: Request, user: User, now: Time, write: Option<User>, answer: Answer)
    | Answered(request: Request, auth: AuthResult, entry: nat)

  /** A finished register, login or change, in the order its transaction ended. */
  datatype Entry = Entry(request: Request, id: int, now: Time, answer: Answer)

  /** `issued` and `log` record what has happened; `lifetime` is the configured session lifetime. */
  datatype State = State(
    users: Users,
    locks: map<int, TxId>,
    txs: map<TxId, Tx>,
    issued: set<Claims>,
    log: seq<Entry>,
    lifetime: int)

  datatype Act =
    | Begin(request: Request)
    | Revalidate(now: Time)
    | Insert(id: int, now: Time)
    | Refuse(now: Time)
    | Lock
    | Check
    | Write(now: Time)
    | Commit
    | CommitLost
    | Rollback
    | Issue(now: Time)

  datatype Step = Step(x: TxId, act: Act)

  ghost function Init(lifetime: int): State {
    State(map[], map[], map[], {}, [], lifetime)
  }

  predicate HoldsRow(tx: Tx, u: int) {
    (tx.Locked? || tx.Verified? || tx.Written?) && tx.user.id == u
  }

  function Unlock(locks: map<int, TxId>, x: TxId): map<int, TxId> {
    map u | u in locks && locks[u] != x :: locks[u]
  }

  /** The cookie a request must carry, and has to have been issued. */
  predicate Carries(request: Request, issued: set<Claims>) {
    request.Change? || request.Visit? ==> request.claims in issued
  }

  /** The row a transaction locks next, None where there is none. */
  ghost function Target(users: Users, tx: Tx): Option<int> {
    if tx.Begun? && tx.request.Login? then FindByEmail(users, tx.request.email)
    else if tx.Validated? && tx.request.Change? && tx.session.userId in users then Some(tx.session.userId)
    else None
  }

  /** The error of a request that ends before it has a row to work on, None where it goes on. */
  ghost function Refusal(users: Users, tx: Tx): Option<AuthError> {
    if tx.Begun? && tx.request.Register? && !tx.request.allowed then Some(PasswordRejected)
    else if tx.Begun? && tx.request.Register? && Registered(users, tx.request.email) then Some(DuplicateEmail)
    else if tx.Begun? && tx.request.Login? && !Registered(users, tx.request.email) then Some(InvalidCredentials)
    else if tx.Validated? && tx.request.Change? && tx.session.userId !in users then Some(InvalidSession)
    else None
  }

  /** What the statements after verification buffer and answer. */
  function Outcome(tx: Tx, now: Time): (Option<User>, Answer)
    requires tx.Verified?
  {
    if tx.request.Login? then
      if !tx.verification.valid then (None, Err(InvalidCredentials))
      else
        var auth := AuthResult(tx.user.id, tx.email, tx.user.sessionVersion);
        if tx.verification.replacement.Some?
        then (Some(tx.user.WithRehashedPassword(tx.verification.replacement.value, now)), Ok(auth))
        else (None, Ok(auth))
    else if tx.request.Change? then
      if !tx.verification.valid then (None, Err(CurrentPasswordMismatch))
      else if tx.request.new_ != tx.request.confirmation then (None, Err(ConfirmationMismatch))
      else if !tx.request.allowed then (None, Err(PasswordRejected))
      else
        var updated := tx.user.WithPassword(Hash(tx.request.new_, tx.request.scheme), now);
        (Some(updated), Ok(AuthResult(tx.user.id, tx.email, updated.sessionVersion)))
    else (None, Err(InvalidSession))
  }

  /** The password a login or change is verified with. */
  function Presented(request: Request): string
    requires request.Login? || request.Change?
  {
    if request.Login? then request.password else request.current
  }

  ghost predicate Enabled(s: State, step: Step) {
    var x := step.x;
    match step.act
    case Begin(request) => x !in s.txs && Carries(request, s.issued)
    case Revalidate(now) =>
      && x in s.txs && s.txs[x].Begun? && (s.txs[x].request.Change? || s.txs[x].request.Visit?)
      && Accepts(s.users, s.txs[x].request.claims, now)
    case Insert(id, _) =>
      && x in s.txs && s.txs[x].Begun? && s.txs[x].request.Register? && s.txs[x].request.allowed
      && id !in s.users && !Registered(s.users, s.txs[x].request.email)
      && forall y :: y in s.txs && s.txs[y].Inserting? ==>
           s.txs[y].user.id != id && s.txs[y].user.email != s.txs[x].request.email
    case Refuse(_) => x in s.txs && Refusal(s.users, s.txs[x]).Some?
    case Lock => x in s.txs && Target(s.users, s.txs[x]).Some? && Target(s.users, s.txs[x]).value !in s.locks
    case Check => x in s.txs && s.txs[x].Locked? && (s.txs[x].request.Login? || s.txs[x].request.Change?)
    case Write(_) => x in s.txs && s.txs[x].Verified?
    case Commit => x in s.txs && Ends(s.txs[x])
    case CommitLost => x in s.txs && Ends(s.txs[x])
    case Rollback => x in s.txs
    case Issue(_) => x in s.txs && s.txs[x].Answered? && s.lifetime > 0
  }

  /** All statements of the transaction have run. */
  predicate Ends(tx: Tx) {
    tx.Inserting? || tx.Written?
  }

  function NewRow(tx: Tx): Option<User>
    requires Ends(tx)
  {
    if tx.Inserting? then Some(tx.user) else tx.write
  }

  function EntryOf(tx: Tx): Entry
    requires Ends(tx)
  {
    if tx.Inserting?
    then Entry(tx.request, tx.user.id, tx.now, Ok(AuthResult(tx.user.id, tx.user.email, tx.user.sessionVersion)))
    else Entry(tx.request, tx.user.id, tx.now, tx.answer)
  }

  /** The end of a transaction whose statements have all run. (A login that raises rolls back a
      transaction without writes, which is the same.) */
  function Land(s: State, x: TxId): State
    requires x in s.txs && Ends(s.txs[x])
  {
    var row := NewRow(s.txs[x]);
    s.(users := if row.Some? then s.users[row.value.id := row.value] else s.users,
       locks := Unlock(s.locks, x),
       txs := s.txs - {x},
       log := s.log + [EntryOf(s.txs[x])])
  }

  /** The end of a transaction whose caller learns the answer. */
  function LandAnswered(s: State, x: TxId): State
    requires x in s.txs && Ends(s.txs[x])
  {
    var landed := Land(s, x);
    var entry := EntryOf(s.txs[x]);
    if entry.answer.Ok?
    then landed.(txs := landed.txs[x := Answered(entry.request, entry.answer.value, |s.log|)])
    else landed
  }

  ghost function Apply(s: State, step: Step): State
    requires Enabled(s, step)
  {
    var x := step.x;
    match step.act
    case Begin(request) => s.(txs := s.txs[x := Begun(request)])
    case Revalidate(_) =>
      var claims := s.txs[x].request.claims;
      var user := s.users[claims.userId];
      s.(txs := s.txs[x := Validated(s.txs[x].request, AuthResult(user.id, user.email, user.sessionVersion))])
    case Insert(id, now) =>
      var request := s.txs[x].request;
      var user := User(id, request.email, Hash(request.password, request.scheme), 0, now, now);
      s.(txs := s.txs[x := Inserting(request, user, now)])
    case Refuse(now) =>
      var tx := s.txs[x];
      s.(txs := s.txs - {x}, log := s.log + [Entry(tx.request, 0, now, Err(Refusal(s.users, tx).value))])
    case Lock =>
      var u := Target(s.users, s.txs[x]).value;
      var email := if s.txs[x].Validated? then s.txs[x].session.email else s.users[u].email;
      s.(locks := s.locks[u := x], txs := s.txs[x := Locked(s.txs[x].request, s.users[u], email)])
    case Check =>
      var tx := s.txs[x];
      var verification := UserStore.Verify(Presented(tx.request), tx.user.hash, tx.request.scheme);
      s.(txs := s.txs[x := Verified(tx.request, tx.user, tx.email, verification)])
    case Write(now) =>
      var tx := s.txs[x];
      var (write, answer) := Outcome(tx, now);
      s.(txs := s.txs[x := Written(tx.request, tx.user, now, write, answer)])
    case Commit => LandAnswered(s, x)
    case CommitLost => Land(s, x)
    case Rollback => s.(locks := Unlock(s.locks, x), txs := s.txs - {x})
    case Issue(now) =>
      s.(txs := s.txs - {x}, issued := s.issued + {IssueSession(s.txs[x].auth, now, s.lifetime)})
  }

  ghost function Exec(s: State, trace: seq<Step>): Option<State> {
    if trace == [] then Some(s)
    else
      var last := |trace| - 1;
      match Exec(s, trace[..last])
      case None => None
      case Some(u) => if Enabled(u, trace[last]) then Some(Apply(u, trace[last])) else None
  }

  // ---- the serial reading ------------------------------------------------------------------------

  /** One finished request, run alone by its sequential use case. */
  ghost function Serve(users: Users, entry: Entry): (Users, Answer) {
    match entry.request
    case Register(email, password, allowed, scheme) =>
      UserStore.Register(users, entry.id, email, password, allowed, scheme, entry.now)
    case Login(email, password, scheme) =>
      Authenticate(users, email, password, scheme, entry.now)
    case Change(claims, current, new_, confirmation, allowed, scheme) =>
      ChangePassword(users, claims.userId, current, new_, confirmation, allowed, scheme, entry.now)
    case Visit(_) => (users, Err(InvalidSession))
  }

  /** The table after the entries have been served one after the other from an empty one. */
  ghost function Replay(log: seq<Entry>): Users {
    if log == [] then map[] else Serve(Replay(log[..|log| - 1]), log[|log| - 1]).0
  }

  /** The passwords an account has had, by session version. */
  function Passwords(log: seq<Entry>, u: int): seq<string> {
    if log == [] then []
    else
      var entry := log[|log| - 1];
      Passwords(log[..|log| - 1], u) +
      (if entry.answer.Ok? && entry.answer.value.userId == u && Sets(entry.request)
       then [PasswordOf(entry.request)] else [])
  }

  predicate Sets(request: Request) {
    request.Register? || request.Change?
  }

  /** The password that a granted request set or presented. */
  function PasswordOf(request: Request): string {
    match request
    case Register(_, password, _, _) => password
    case Login(_, password, _) => password
    case Change(_, _, new_, _, _, _) => new_
    case Visit(_) => ""
  }
}
