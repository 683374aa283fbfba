/** What every step of the credential protocol keeps. */
module CredentialInvariant {
  import opened Basics
  import opened UserStore
  import opened CredentialProtocol

  // ---- the invariant -------------------------------------------------------------------------------

  predicate Holds(tx: Tx) {
    tx.Locked? || tx.Verified? || tx.Written?
  }

  /** A row is locked exactly when one live transaction holds it. */
  ghost predicate LocksOk(locks: map<int, TxId>, txs: map<TxId, Tx>) {
    && (forall u :: u in locks ==> locks[u] in txs && HoldsRow(txs[locks[u]], u))
    && (forall x :: x in txs && Holds(txs[x]) ==> txs[x].user.id in locks && locks[txs[x].user.id] == x)
  }

  /** The row a transaction works on is the committed row. */
  predicate Current(users: Users, tx: Tx)
    requires Holds(tx)
  {
    && tx.user.id in users && users[tx.user.id] == tx.user
    && (tx.request.Login? || tx.request.Change?)
    && (tx.request.Login? ==> tx.request.email == tx.user.email)
    && (tx.request.Change? ==> tx.request.claims.userId == tx.user.id)
  }

  ghost predicate TxOk(users: Users, log: seq<Entry>, tx: Tx) {
    match tx
    case Begun(_) => true
    case Validated(request, session) =>
      && (request.Change? || request.Visit?) && session.userId == request.claims.userId
      && session.userId in users && users[session.userId].email == session.email
    case Inserting(request, user, now) =>
      && request.Register? && request.allowed
      && user == User(user.id, request.email, Hash(request.password, request.scheme), 0, now, now)
      && user.id !in users && !UserStore.Registered(users, user.email)
    case Locked(_, user, email) => Current(users, tx) && email == user.email
    case Verified(request, user, email, verification) =>
      && Current(users, tx) && email == user.email
      && verification == UserStore.Verify(Presented(request), user.hash, request.scheme)
    case Written(request, user, now, write, answer) =>
      && Current(users, tx)
      && (write, answer) ==
           Outcome(Verified(request, user, user.email,
                            UserStore.Verify(Presented(request), user.hash, request.scheme)), now)
    case Answered(request, auth, entry) =>
      && entry < |log| && log[entry].request == request && log[entry].answer == Ok(auth)
      && GrantedBy(log, entry, auth.userId, auth.version)
  }

  ghost predicate TxsOk(users: Users, log: seq<Entry>, txs: map<TxId, Tx>) {
    && (forall x :: x in txs ==> TxOk(users, log, txs[x]))
    && (forall x, y :: x in txs && y in txs && x != y && txs[x].Inserting? && txs[y].Inserting? ==>
          txs[x].user.id != txs[y].user.id && txs[x].user.email != txs[y].user.email)
  }

  /** The log served one entry after the other gives the table and each entry's own answer. */
  ghost predicate SerialOk(users: Users, log: seq<Entry>) {
    && Replay(log) == users
    && forall k :: 0 <= k < |log| ==> Serve(Replay(log[..k]), log[k]).1 == log[k].answer
  }

  /** Row u carries its latest password, under the number of changes so far. */
  ghost predicate PasswordsOk(users: Users, log: seq<Entry>) {
    && (forall u :: u in users ==>
          && |Passwords(log, u)| == users[u].sessionVersion + 1
          && users[u].hash.password == Passwords(log, u)[users[u].sessionVersion])
    && (forall u :: u !in users ==> Passwords(log, u) == [])
  }

  /** Some entry was granted for this account and version, and set or presented that version's password. */
  ghost predicate Granted(log: seq<Entry>, u: int, version: nat) {
    exists k :: 0 <= k < |log| && GrantedBy(log, k, u, version)
  }

  ghost predicate GrantedBy(log: seq<Entry>, k: nat, u: int, version: nat)
    requires k < |log|
  {
    && log[k].answer.Ok? && log[k].answer.value.userId == u && log[k].answer.value.version == version
    && version < |Passwords(log, u)| && PasswordOf(log[k].request) == Passwords(log, u)[version]
  }

  ghost predicate IssuedOk(log: seq<Entry>, issued: set<Claims>, lifetime: int) {
    forall c :: c in issued ==> c.expiresAt == c.issuedAt + lifetime && Granted(log, c.userId, c.version)
  }

  ghost predicate Inv(s: State) {
    && UniqueEmails(s.users)
    && LocksOk(s.locks, s.txs)
    && TxsOk(s.users, s.log, s.txs)
    && SerialOk(s.users, s.log)
    && PasswordsOk(s.users, s.log)
    && IssuedOk(s.log, s.issued, s.lifetime)
  }

  // ---- the end of a transaction ----------------------------------------------------------------------

  /** Served alone at the moment it ends, a request changes the table and answers as its transaction did. */
  lemma LandServes(s: State, x: TxId)
    requires UniqueEmails(s.users) && x in s.txs && Ends(s.txs[x]) && TxOk(s.users, s.log, s.txs[x])
    ensures Serve(s.users, EntryOf(s.txs[x])) == (Land(s, x).users, EntryOf(s.txs[x]).answer)
  {
    var tx := s.txs[x];
    if tx.Written? {
      var u := tx.user.id;
      if tx.request.Login? {
        assert FindByEmail(s.users, tx.request.email) == Some(u);
      }
    }
  }

  lemma SerialGrows(users: Users, log: seq<Entry>, entry: Entry, users': Users)
    requires SerialOk(users, log) && Serve(users, entry) == (users', entry.answer)
    ensures SerialOk(users', log + [entry])
  {
    var log' := log + [entry];
    assert log'[..|log|] == log;
    forall k | 0 <= k < |log'|
      ensures Serve(Replay(log'[..k]), log'[k]).1 == log'[k].answer
    {
      if k < |log| {
        assert log'[..k] == log[..k];
      }
    }
  }

  lemma PasswordsGrow(log: seq<Entry>, entry: Entry, u: int)
    ensures Passwords(log + [entry], u) ==
            Passwords(log, u) + (if entry.answer.Ok? && entry.answer.value.userId == u && Sets(entry.request)
                                 then [PasswordOf(entry.request)] else [])
  {
    assert (log + [entry])[..|log|] == log;
  }

  lemma GrantGrows(log: seq<Entry>, entry: Entry, k: nat, u: int, version: nat)
    requires k < |log| && GrantedBy(log, k, u, version)
    ensures GrantedBy(log + [entry], k, u, version)
  {
    PasswordsGrow(log, entry, u);
  }

  lemma GrantedGrows(log: seq<Entry>, entry: Entry, u: int, version: nat)
    requires Granted(log, u, version)
    ensures Granted(log + [entry], u, version)
  {
    var k :| 0 <= k < |log| && GrantedBy(log, k, u, version);
    GrantGrows(log, entry, k, u, version);
  }

  /** What a finished transaction did to the account it answers for. */
  ghost predicate Landed(users: Users, users': Users, entry: Entry) {
    && users.Keys <= users'.Keys
    && (forall u :: u in users' && u != entry.id ==> u in users && users'[u] == users[u])
    && entry.id in users'
    && (entry.id in users ==>
          && users'[entry.id].id == users[entry.id].id && users'[entry.id].email == users[entry.id].email
          && users'[entry.id].createdAt == users[entry.id].createdAt)
    && (entry.answer.Ok? ==> entry.answer.value.userId == entry.id)
    && (if entry.answer.Ok? && entry.request.Register? then
          && entry.id !in users && users'[entry.id].sessionVersion == 0 && entry.answer.value.version == 0
          && users'[entry.id].hash.password == PasswordOf(entry.request)
        else if entry.answer.Ok? && entry.request.Change? then
          && entry.id in users && users'[entry.id].sessionVersion == users[entry.id].sessionVersion + 1
          && users'[entry.id].hash.password == PasswordOf(entry.request)
          && entry.answer.value.version == users'[entry.id].sessionVersion
          && users[entry.id].hash.password == entry.request.current
        else
          && entry.id in users && users'[entry.id].sessionVersion == users[entry.id].sessionVersion
          && users'[entry.id].hash.password == users[entry.id].hash.password
          && (entry.answer.Ok? ==>
                && entry.request.Login? && entry.answer.value.version == users[entry.id].sessionVersion
                && PasswordOf(entry.request) == users[entry.id].hash.password))
  }

  lemma LandMoves(s: State, x: TxId)
    requires x in s.txs && Ends(s.txs[x]) && TxOk(s.users, s.log, s.txs[x])
    requires forall u :: u in s.users ==> s.users[u].id == u
    ensures Landed(s.users, Land(s, x).users, EntryOf(s.txs[x]))
  {
  }

  lemma LandPasswords(users: Users, users': Users, log: seq<Entry>, entry: Entry)
    requires PasswordsOk(users, log) && Landed(users, users', entry)
    ensures PasswordsOk(users', log + [entry])
  {
    forall u
      ensures u in users' ==>
                && |Passwords(log + [entry], u)| == users'[u].sessionVersion + 1
                && users'[u].hash.password == Passwords(log + [entry], u)[users'[u].sessionVersion]
      ensures u !in users' ==> Passwords(log + [entry], u) == []
    {
      PasswordsGrow(log, entry, u);
    }
  }

  lemma LandGrants(users: Users, users': Users, log: seq<Entry>, entry: Entry)
    requires PasswordsOk(users, log) && Landed(users, users', entry) && entry.answer.Ok?
    ensures GrantedBy(log + [entry], |log|, entry.answer.value.userId, entry.answer.value.version)
  {
    PasswordsGrow(log, entry, entry.id);
  }

  lemma LandIssued(log: seq<Entry>, entry: Entry, issued: set<Claims>, lifetime: int)
    requires IssuedOk(log, issued, lifetime)
    ensures IssuedOk(log + [entry], issued, lifetime)
  {
    forall c | c in issued
      ensures Granted(log + [entry], c.userId, c.version)
    {
      GrantedGrows(log, entry, c.userId, c.version);
    }
  }
}
