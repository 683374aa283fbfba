/** Users, an ideal password hasher, and the sequential credential use cases
    (src/app/domain/users.py, src/app/application/auth.py, src/app/application/profiles.py). */
module UserStore {
  import opened Basics

  /** A hash gives away nothing but what verification needs: the password it was made from and the scheme. */
  datatype Hash = Hash(password: string, scheme: nat)

  datatype Verification = Verification(valid: bool, replacement: Option<Hash>)

  /** PasswordHasher.verify of a hasher whose preferred scheme is `scheme`. */
  function Verify(password: string, stored: Hash, scheme: nat): Verification {
    if stored.password != password then Verification(false, None)
    else Verification(true, if stored.scheme == scheme then None else Some(Hash(password, scheme)))
  }

  datatype User = User(
    id: int,
    email: string,
    hash: Hash,
    sessionVersion: nat,
    createdAt: Time,
    updatedAt: Time)
  {
    function WithPassword(newHash: Hash, at: Time): User {
      this.(hash := newHash, sessionVersion := sessionVersion + 1, updatedAt := at)
    }

    function WithRehashedPassword(newHash: Hash, at: Time): User {
      this.(hash := newHash, updatedAt := at)
    }
  }

  type Users = map<int, User>

  datatype AuthError =
    | DuplicateEmail
    | PasswordRejected
    | InvalidCredentials
    | InvalidSession
    | CurrentPasswordMismatch
    | ConfirmationMismatch

  /** AuthResult: what a cookie is issued from. */
  datatype AuthResult = AuthResult(userId: int, email: string, version: nat)

  type Answer = Result<AuthResult, AuthError>

  predicate Registered(users: Users, email: string) {
    exists u :: u in users && users[u].email == email
  }

  /** The row that WHERE email_normalized = email selects. */
  ghost function FindByEmail(users: Users, email: string): (found: Option<int>)
    ensures found.Some? ==> found.value in users && users[found.value].email == email
    ensures found.None? <==> !Registered(users, email)
  {
    if u :| u in users && users[u].email == email then Some(u) else None
  }

  ghost predicate UniqueEmails(users: Users) {
    && (forall u :: u in users ==> users[u].id == u)
    && (forall u, v :: u in users && v in users && users[u].email == users[v].email ==> u == v)
  }

  /** UserRepository.update_credentials: only the credential columns are written. */
  function UpdateCredentials(users: Users, user: User): Users
    requires user.id in users
  {
    users[user.id := users[user.id].(hash := user.hash, sessionVersion := user.sessionVersion, updatedAt := user.updatedAt)]
  }

  // ---- the sequential use cases; `allowed` is the verdict of the password text rules ---------------

  /** register, with the id the database hands out. */
  ghost function Register(users: Users, id: int, email: string, password: string, allowed: bool, scheme: nat, now: Time)
    : (Users, Answer)
  {
    if !allowed then (users, Err(PasswordRejected))
    else if Registered(users, email) then (users, Err(DuplicateEmail))
    else (users[id := User(id, email, Hash(password, scheme), 0, now, now)], Ok(AuthResult(id, email, 0)))
  }

  /** authenticate. */
  ghost function Authenticate(users: Users, email: string, password: string, scheme: nat, now: Time): (Users, Answer) {
    match FindByEmail(users, email)
    case None => (users, Err(InvalidCredentials))
    case Some(u) =>
      var user := users[u];
      var verification := Verify(password, user.hash, scheme);
      if !verification.valid then (users, Err(InvalidCredentials))
      else if verification.replacement.Some? && user.id in users then
        (UpdateCredentials(users, user.WithRehashedPassword(verification.replacement.value, now)),
         Ok(AuthResult(user.id, user.email, user.sessionVersion)))
      else (users, Ok(AuthResult(user.id, user.email, user.sessionVersion)))
  }

  /** change_password. */
  function ChangePassword(
      users: Users, userId: int, current: string, new_: string, confirmation: string, allowed: bool, scheme: nat, now: Time)
    : (Users, Answer)
  {
    if userId !in users then (users, Err(InvalidSession))
    else
      var user := users[userId];
      if !Verify(current, user.hash, scheme).valid then (users, Err(CurrentPasswordMismatch))
      else if new_ != confirmation then (users, Err(ConfirmationMismatch))
      else if !allowed then (users, Err(PasswordRejected))
      else
        var updated := user.WithPassword(Hash(new_, scheme), now);
        (if updated.id in users then UpdateCredentials(users, updated) else users,
         Ok(AuthResult(user.id, user.email, updated.sessionVersion)))
  }

  // ---- what the use cases amount to, column by column ---------------------------------------------

  /** A password is valid exactly for the hash made from it, and is to be rehashed exactly if that has another scheme. */
  lemma VerifyRule(password: string, stored: Hash, scheme: nat)
    ensures Verify(password, stored, scheme).valid <==> stored.password == password
    ensures Verify(password, stored, scheme).replacement
         == if stored.password == password && stored.scheme != scheme then Some(Hash(password, scheme)) else None
  {
  }

  /** Nobody but user u is touched. */
  ghost predicate OnlyUser(before: Users, after: Users, u: int) {
    forall v :: v != u ==> (v in after <==> v in before) && (v in before ==> after[v] == before[v])
  }

  /** A registration stores the new account at version 0; a rejected password or a taken email changes nothing. */
  lemma RegisterRule(users: Users, id: int, email: string, password: string, allowed: bool, scheme: nat, now: Time, u: int)
    ensures var (after, r) := Register(users, id, email, password, allowed, scheme, now);
      && (!allowed ==> r == Err(PasswordRejected) && after == users)
      && (allowed && u in users && users[u].email == email ==> r == Err(DuplicateEmail) && after == users)
      && (allowed && (forall v :: v in users ==> users[v].email != email) ==>
            && r == Ok(AuthResult(id, email, 0)) && OnlyUser(users, after, id)
            && id in after && after[id] == User(id, email, Hash(password, scheme), 0, now, now))
  {
    assert u in users && users[u].email == email ==> Registered(users, email);
  }

  /** A login with the account's password is granted at the account's version, and leaves its hash under the preferred
      scheme: rewritten, and dated, exactly if it was under another. Any other login is refused and changes nothing. */
  lemma LoginRule(users: Users, u: int, email: string, password: string, scheme: nat, now: Time)
    requires UniqueEmails(users) && u in users && users[u].email == email
    ensures var (after, r) := Authenticate(users, email, password, scheme, now);
      && (users[u].hash.password == password ==>
            && r == Ok(AuthResult(u, email, users[u].sessionVersion)) && OnlyUser(users, after, u)
            && u in after
            && after[u] == User(u, email, Hash(password, scheme), users[u].sessionVersion, users[u].createdAt,
                                if users[u].hash.scheme == scheme then users[u].updatedAt else now))
      && (users[u].hash.password != password ==> r == Err(InvalidCredentials) && after == users)
  {
    assert FindByEmail(users, email) == Some(u);
  }

  lemma UnknownLogin(users: Users, email: string, password: string, scheme: nat, now: Time)
    requires forall u :: u in users ==> users[u].email != email
    ensures Authenticate(users, email, password, scheme, now) == (users, Err(InvalidCredentials))
  {
  }

  /** A change is refused, in this order, for a missing account, a wrong current password, a wrong confirmation and a
      rejected password, and then changes nothing; otherwise it stores the new password at the next version, dated now. */
  lemma ChangeRule(
      users: Users, u: int, current: string, chosen: string, confirmation: string, allowed: bool, scheme: nat, now: Time)
    requires UniqueEmails(users)
    ensures var (after, r) := ChangePassword(users, u, current, chosen, confirmation, allowed, scheme, now);
      && (u !in users ==> r == Err(InvalidSession) && after == users)
      && (u in users && users[u].hash.password != current ==> r == Err(CurrentPasswordMismatch) && after == users)
      && (u in users && users[u].hash.password == current && chosen != confirmation ==>
            r == Err(ConfirmationMismatch) && after == users)
      && (u in users && users[u].hash.password == current && chosen == confirmation && !allowed ==>
            r == Err(PasswordRejected) && after == users)
      && (u in users && users[u].hash.password == current && chosen == confirmation && allowed ==>
            && r == Ok(AuthResult(u, users[u].email, users[u].sessionVersion + 1)) && OnlyUser(users, after, u)
            && u in after
            && after[u] == User(u, users[u].email, Hash(chosen, scheme), users[u].sessionVersion + 1,
                                users[u].createdAt, now))
  {
  }

  // ---- sessions --------------------------------------------------------------------------------

  datatype Claims = Claims(userId: int, version: nat, issuedAt: Time, expiresAt: Time)

  /** issue_session. */
  function IssueSession(auth: AuthResult, now: Time, lifetime: int): Claims {
    Claims(auth.userId, auth.version, now, now + lifetime)
  }

  /** revalidate_session: the check made on every request. */
  predicate Accepts(users: Users, claims: Claims, now: Time) {
    now < claims.expiresAt && claims.userId in users && users[claims.userId].sessionVersion == claims.version
  }
}
