/** What holds over whole runs of the credential protocol. */
module CredentialTheorems {
  import opened Basics
  import opened UserStore
  import opened CredentialProtocol
  import opened CredentialInvariant
  import opened CredentialSteps
  import opened CredentialHistory

  // ---- serial equivalence --------------------------------------------------------------------------

  /** Any interleaving equals the finished requests run one after the other, in the order they ended, by the
      sequential use cases: same table, same answers. The log lists the requests of the trace, and no others. */
  lemma Serializable(lifetime: int, trace: seq<Step>)
    requires Exec(Init(lifetime), trace).Some?
    ensures var s := Exec(Init(lifetime), trace).value;
            && RecordsAll(s.log, Finished(trace))
            && Replay(s.log) == s.users
            && forall k :: 0 <= k < |s.log| ==> Serve(Replay(s.log[..k]), s.log[k]).1 == s.log[k].answer
  {
    Reachable(lifetime, trace);
    LogTells(lifetime, trace);
  }

  /** A granted change presented the password in force when it was its turn, and a granted login too. */
  lemma GrantsNeedThePassword(lifetime: int, trace: seq<Step>, k: nat)
    requires Exec(Init(lifetime), trace).Some?
    requires var log := Exec(Init(lifetime), trace).value.log; k < |log| && log[k].answer.Ok?
    ensures var log := Exec(Init(lifetime), trace).value.log;
            var u := log[k].answer.value.userId;
            var before := Replay(log[..k]);
            && (log[k].request.Change? ==> u in before && before[u].hash.password == log[k].request.current)
            && (log[k].request.Login? ==> u in before && before[u].hash.password == log[k].request.password)
  {
    Reachable(lifetime, trace);
    var log := Exec(Init(lifetime), trace).value.log;
    ReplayKeyed(log[..k]);
    ServeChecks(Replay(log[..k]), log[k]);
  }

  lemma ServeChecks(users: Users, entry: Entry)
    requires Serve(users, entry).1.Ok?
    requires forall u :: u in users ==> users[u].id == u
    ensures var u := Serve(users, entry).1.value.userId;
            && (entry.request.Change? ==> u in users && users[u].hash.password == entry.request.current)
            && (entry.request.Login? ==> u in users && users[u].hash.password == entry.request.password)
  {
  }

  lemma {:induction false} ReplayKeyed(log: seq<Entry>)
    ensures forall u :: u in Replay(log) ==> Replay(log)[u].id == u
  {
    if log != [] {
      ReplayKeyed(log[..|log| - 1]);
    }
  }

  // ---- credentials ---------------------------------------------------------------------------------

  function ChangeCount(log: seq<Entry>, u: int): nat {
    if log == [] then 0
    else
      var entry := log[|log| - 1];
      ChangeCount(log[..|log| - 1], u) +
      if entry.request.Change? && entry.answer.Ok? && entry.answer.value.userId == u then 1 else 0
  }

  function RegisterCount(log: seq<Entry>, u: int): nat {
    if log == [] then 0
    else
      var entry := log[|log| - 1];
      RegisterCount(log[..|log| - 1], u) +
      if entry.request.Register? && entry.answer.Ok? && entry.answer.value.userId == u then 1 else 0
  }

  lemma {:induction false} PasswordsCount(log: seq<Entry>, u: int)
    ensures |Passwords(log, u)| == RegisterCount(log, u) + ChangeCount(log, u)
  {
    if log != [] {
      PasswordsCount(log[..|log| - 1], u);
    }
  }

  lemma {:induction false} RegisteredOnce(s: State, trace: seq<Step>, u: int)
    requires Inv(s) && Exec(s, trace).Some?
    requires RegisterCount(s.log, u) == if u in s.users then 1 else 0
    ensures var t := Exec(s, trace).value;
            RegisterCount(t.log, u) == if u in t.users then 1 else 0
  {
    if trace != [] {
      var last := |trace| - 1;
      RegisteredOnce(s, trace[..last], u);
      RunKeeps(s, trace[..last]);
      RegisteredStep(Exec(s, trace[..last]).value, trace[last], u);
    }
  }

  lemma RegisterCountGrows(log: seq<Entry>, entry: Entry, u: int)
    ensures RegisterCount(log + [entry], u) == RegisterCount(log, u) +
            if entry.request.Register? && entry.answer.Ok? && entry.answer.value.userId == u then 1 else 0
  {
    assert (log + [entry])[..|log|] == log;
  }

  lemma RegisteredStep(s: State, step: Step, u: int)
    requires Inv(s) && Enabled(s, step)
    requires RegisterCount(s.log, u) == if u in s.users then 1 else 0
    ensures var t := Apply(s, step);
            RegisterCount(t.log, u) == if u in t.users then 1 else 0
  {
    if step.act.Commit? || step.act.CommitLost? {
      LandMoves(s, step.x);
      RegisterCountGrows(s.log, EntryOf(s.txs[step.x]), u);
    } else if step.act.Refuse? {
      RegisterCountGrows(s.log, Entry(s.txs[step.x].request, 0, step.act.now, Err(Refusal(s.users, s.txs[step.x]).value)), u);
    }
  }

  /** The stored hash verifies exactly the password set last, under every scheme; the version counts the
      committed changes. */
  lemma HashIsLatest(lifetime: int, trace: seq<Step>, u: int, password: string, scheme: nat)
    requires Exec(Init(lifetime), trace).Some? && u in Exec(Init(lifetime), trace).value.users
    ensures var s := Exec(Init(lifetime), trace).value;
            var passwords := Passwords(s.log, u);
            && passwords != []
            && (Verify(password, s.users[u].hash, scheme).valid <==> password == passwords[|passwords| - 1])
            && s.users[u].sessionVersion == ChangeCount(s.log, u)
  {
    Reachable(lifetime, trace);
    RegisteredOnce(Init(lifetime), trace, u);
    HashTells(Exec(Init(lifetime), trace).value, u, password, scheme);
  }

  lemma HashTells(s: State, u: int, password: string, scheme: nat)
    requires PasswordsOk(s.users, s.log) && u in s.users && RegisterCount(s.log, u) == 1
    ensures var passwords := Passwords(s.log, u);
            && passwords != []
            && (Verify(password, s.users[u].hash, scheme).valid <==> password == passwords[|passwords| - 1])
            && s.users[u].sessionVersion == ChangeCount(s.log, u)
  {
    PasswordsCount(s.log, u);
  }

  // ---- what never changes --------------------------------------------------------------------------

  /** Accounts keep their email and creation time, versions never go back, cookies stay issued. */
  ghost predicate Follows(s: State, t: State) {
    && s.users.Keys <= t.users.Keys
    && (forall u :: u in s.users ==>
          && t.users[u].email == s.users[u].email && t.users[u].createdAt == s.users[u].createdAt
          && s.users[u].sessionVersion <= t.users[u].sessionVersion)
    && s.issued <= t.issued
  }

  lemma StepFollows(s: State, step: Step)
    requires Inv(s) && Enabled(s, step)
    ensures Follows(s, Apply(s, step))
  {
    match step.act
    case Commit => LandFollows(s, step.x);
    case CommitLost => LandFollows(s, step.x);
    case _ =>
  }

  lemma LandFollows(s: State, x: TxId)
    requires Inv(s) && x in s.txs && Ends(s.txs[x])
    ensures Follows(s, Land(s, x)) && Follows(s, LandAnswered(s, x))
  {
    LandMoves(s, x);
  }

  lemma {:induction false} RunFollows(s: State, trace: seq<Step>)
    requires Inv(s) && Exec(s, trace).Some?
    ensures Follows(s, Exec(s, trace).value)
  {
    if trace != [] {
      var last := |trace| - 1;
      RunFollows(s, trace[..last]);
      RunKeeps(s, trace[..last]);
      StepFollows(Exec(s, trace[..last]).value, trace[last]);
    }
  }

  // ---- sessions --------------------------------------------------------------------------------------

  /** Step i committed a register, login or change as entry k of the log, and step j made the cookie of its answer. */
  ghost predicate Grants(lifetime: int, trace: seq<Step>, i: nat, j: nat, k: nat, c: Claims)
    requires Exec(Init(lifetime), trace).Some?
  {
    && i < j < |trace| && trace[j].act.Issue?
    && CommittedAt(lifetime, trace[..j], i, trace[j].x, k)
    && var log := Exec(Init(lifetime), trace).value.log;
    && k < |log| && log[k].answer.Ok? && !log[k].request.Visit?
    && Began(trace[..j], trace[j].x) == Some(log[k].request)
    && c.userId == log[k].answer.value.userId && c.version == log[k].answer.value.version
    && c.issuedAt == trace[j].act.now && c.expiresAt == trace[j].act.now + lifetime
  }

  /** An answered transaction carries its own entry of the log, which was granted its version's password. */
  lemma AnsweredEntry(s: State, x: TxId)
    requires TxsOk(s.users, s.log, s.txs) && SerialOk(s.users, s.log) && x in s.txs && s.txs[x].Answered?
    ensures var tx := s.txs[x];
            && tx.entry < |s.log| && s.log[tx.entry].answer == Ok(tx.auth) && s.log[tx.entry].request == tx.request
            && !tx.request.Visit? && GrantedBy(s.log, tx.entry, tx.auth.userId, tx.auth.version)
  {
    assert TxOk(s.users, s.log, s.txs[x]);
    assert Serve(Replay(s.log[..s.txs[x].entry]), s.log[s.txs[x].entry]).1 == s.log[s.txs[x].entry].answer;
  }

  lemma GrantLasts(log: seq<Entry>, longer: seq<Entry>, k: nat, u: int, version: nat)
    requires log <= longer && k < |log| && GrantedBy(log, k, u, version)
    ensures GrantedBy(longer, k, u, version)
  {
    PasswordsGrowOn(log, longer, u);
  }

  /** Every cookie there is was made of the answer of a committed register, login or change, by that transaction,
      and of nothing else; the request set or presented the password of the version it names. */
  lemma SessionOrigin(lifetime: int, trace: seq<Step>, c: Claims) returns (i: nat, j: nat, k: nat)
    requires Exec(Init(lifetime), trace).Some? && c in Exec(Init(lifetime), trace).value.issued
    ensures Grants(lifetime, trace, i, j, k, c)
    ensures GrantedBy(Exec(Init(lifetime), trace).value.log, k, c.userId, c.version)
  {
    j := CookieIssued(lifetime, trace, c);
    LogGrows(lifetime, trace, j);
    var x := trace[j].x;
    var s := Exec(Init(lifetime), trace[..j]).value;
    i := AnsweredCommitted(lifetime, trace[..j], x);
    k := s.txs[x].entry;
    Reachable(lifetime, trace[..j]);
    AnsweredEntry(s, x);
    TxTold(lifetime, trace[..j], x);
    GrantLasts(s.log, Exec(Init(lifetime), trace).value.log, k, c.userId, c.version);
  }

  /** An accepted cookie was issued at a step less than a lifetime ago, from the answer of the transaction that
      began with, and committed, a register, login or change that set or presented the password now in force. */
  lemma AcceptedSession(lifetime: int, trace: seq<Step>, c: Claims, now: Time) returns (i: nat, j: nat, k: nat)
    requires Exec(Init(lifetime), trace).Some? && c in Exec(Init(lifetime), trace).value.issued
    requires Accepts(Exec(Init(lifetime), trace).value.users, c, now)
    ensures Grants(lifetime, trace, i, j, k, c) && now < trace[j].act.now + lifetime
    ensures var s := Exec(Init(lifetime), trace).value;
            PasswordOf(s.log[k].request) == s.users[c.userId].hash.password
  {
    i, j, k := SessionOrigin(lifetime, trace, c);
    Reachable(lifetime, trace);
  }

  /** No cookie is ahead of its account. */
  lemma IssuedVersions(lifetime: int, trace: seq<Step>, c: Claims)
    requires Exec(Init(lifetime), trace).Some? && c in Exec(Init(lifetime), trace).value.issued
    ensures var s := Exec(Init(lifetime), trace).value;
            c.userId in s.users && c.version <= s.users[c.userId].sessionVersion
  {
    Reachable(lifetime, trace);
    var s := Exec(Init(lifetime), trace).value;
    assert Granted(s.log, c.userId, c.version);
    assert c.userId !in s.users ==> Passwords(s.log, c.userId) == [];
  }

  /** Once an account's version has passed a cookie's, the cookie is refused for ever, even if it is issued
      only later. */
  lemma RevocationIsPermanent(lifetime: int, trace: seq<Step>, more: seq<Step>, c: Claims, now: Time)
    requires Exec(Init(lifetime), trace).Some? && Exec(Exec(Init(lifetime), trace).value, more).Some?
    requires var s := Exec(Init(lifetime), trace).value;
             c.userId in s.users && c.version < s.users[c.userId].sessionVersion
    ensures !Accepts(Exec(Exec(Init(lifetime), trace).value, more).value.users, c, now)
  {
    Reachable(lifetime, trace);
    RunFollows(Exec(Init(lifetime), trace).value, more);
  }

  /** A committed change raises its account's version by one, so it revokes every cookie issued before. */
  lemma ChangeRevokes(lifetime: int, trace: seq<Step>, step: Step, c: Claims, now: Time)
    requires Exec(Init(lifetime), trace).Some? && Enabled(Exec(Init(lifetime), trace).value, step)
    requires step.act.Commit? || step.act.CommitLost?
    requires var tx := Exec(Init(lifetime), trace).value.txs[step.x];
             tx.Written? && tx.request.Change? && tx.answer.Ok?
    requires c in Exec(Init(lifetime), trace).value.issued
    requires c.userId == Exec(Init(lifetime), trace).value.txs[step.x].user.id
    ensures var s := Exec(Init(lifetime), trace).value;
            && c.userId in s.users && c.userId in Apply(s, step).users
            && Apply(s, step).users[c.userId].sessionVersion == s.users[c.userId].sessionVersion + 1
            && !Accepts(Apply(s, step).users, c, now)
  {
    Reachable(lifetime, trace);
    IssuedVersions(lifetime, trace, c);
    var s := Exec(Init(lifetime), trace).value;
    LandMoves(s, step.x);
  }

  // ---- revalidation is not repeated under the lock ----------------------------------------------------

  /** A granted change served on a table finds its session current exactly when the version it answers is the
      next after the one its cookie names. */
  lemma ChangeServed(users: Users, entry: Entry)
    requires entry.request.Change? && Serve(users, entry).1 == entry.answer && entry.answer.Ok?
    ensures Accepts(users, entry.request.claims, entry.request.claims.expiresAt - 1)
       <==> entry.answer.value.version == entry.request.claims.version + 1
  {
  }

  /** A session that passed revalidation is still current at any later point, the commit included, if and only
      if no change of its account was committed in between. */
  lemma CurrentUnlessChangedMeanwhile(lifetime: int, trace: seq<Step>, x: TxId, now: Time, more: seq<Step>)
    requires Exec(Init(lifetime), trace).Some?
    requires var s := Exec(Init(lifetime), trace).value;
             Enabled(s, Step(x, Revalidate(now))) && Exec(Apply(s, Step(x, Revalidate(now))), more).Some?
    ensures var s := Exec(Init(lifetime), trace).value;
            var t := Exec(Apply(s, Step(x, Revalidate(now))), more).value;
            var claims := s.txs[x].request.claims;
            && claims.userId in t.users
            && (t.users[claims.userId].sessionVersion == claims.version
                <==> ChangeCount(t.log, claims.userId) == ChangeCount(s.log, claims.userId))
  {
    var s := Exec(Init(lifetime), trace).value;
    var u := s.txs[x].request.claims.userId;
    Reachable(lifetime, trace);
    RegisteredOnce(Init(lifetime), trace, u);
    MeanwhileCounts(s, Step(x, Revalidate(now)), more, u);
    HashTells(s, u, "", 0);
  }

  lemma MeanwhileCounts(s: State, step: Step, more: seq<Step>, u: int)
    requires Inv(s) && u in s.users && RegisterCount(s.log, u) == 1
    requires Enabled(s, step) && Exec(Apply(s, step), more).Some?
    ensures var t := Exec(Apply(s, step), more).value;
            u in t.users && t.users[u].sessionVersion == ChangeCount(t.log, u)
  {
    var s1 := Apply(s, step);
    StepKeeps(s, step);
    StepFollows(s, step);
    RegisteredStep(s, step, u);
    RegisteredOnce(s1, more, u);
    RunKeeps(s1, more);
    RunFollows(s1, more);
    HashTells(Exec(s1, more).value, u, "", 0);
  }

  lemma ExecSnoc(s: State, trace: seq<Step>, u: State, step: Step)
    requires Exec(s, trace) == Some(u) && Enabled(u, step)
    ensures Exec(s, trace + [step]) == Some(Apply(u, step))
  {
    assert (trace + [step])[..|trace|] == trace;
  }

  /** An account with the password "a" and one cookie for it. */
  lemma OneAccount(lifetime: int) returns (trace: seq<Step>, s: State, c: Claims)
    requires lifetime > 0
    ensures Exec(Init(lifetime), trace) == Some(s)
    ensures c == Claims(1, 0, 0, lifetime) && s.issued == {c} && s.txs == map[] && s.locks == map[]
    ensures s.users == map[1 := User(1, "e", Hash("a", 0), 0, 0, 0)] && |s.log| == 1
  {
    var s0 := Init(lifetime);
    trace, s := [], s0;
    var begin := Step(0, Begin(Request.Register("e", "a", true, 0)));
    ExecSnoc(s0, trace, s, begin);
    trace, s := trace + [begin], Apply(s, begin);
    var insert := Step(0, Insert(1, 0));
    ExecSnoc(s0, trace, s, insert);
    trace, s := trace + [insert], Apply(s, insert);
    var commit := Step(0, Commit);
    ExecSnoc(s0, trace, s, commit);
    trace, s := trace + [commit], Apply(s, commit);
    var issue := Step(0, Issue(0));
    ExecSnoc(s0, trace, s, issue);
    trace, s := trace + [issue], Apply(s, issue);
    c := Claims(1, 0, 0, lifetime);
  }

  /** Both change requests have passed revalidation with the same cookie before either takes the lock. */
  lemma TwoValidated(lifetime: int) returns (trace: seq<Step>, s: State, c: Claims)
    requires lifetime > 0
    ensures Exec(Init(lifetime), trace) == Some(s)
    ensures c == Claims(1, 0, 0, lifetime) && s.locks == map[] && |s.log| == 1
    ensures s.users == map[1 := User(1, "e", Hash("a", 0), 0, 0, 0)]
    ensures s.txs == map[1 := Validated(Change(c, "a", "b", "b", true, 0), AuthResult(1, "e", 0)),
                         2 := Validated(Change(c, "b", "d", "d", true, 0), AuthResult(1, "e", 0))]
  {
    var s0 := Init(lifetime);
    trace, s, c := OneAccount(lifetime);
    var acts := [Step(1, Begin(Change(c, "a", "b", "b", true, 0))), Step(2, Begin(Change(c, "b", "d", "d", true, 0))),
                 Step(1, Revalidate(0)), Step(2, Revalidate(0))];
    ExecSnoc(s0, trace, s, acts[0]);
    trace, s := trace + [acts[0]], Apply(s, acts[0]);
    ExecSnoc(s0, trace, s, acts[1]);
    trace, s := trace + [acts[1]], Apply(s, acts[1]);
    ExecSnoc(s0, trace, s, acts[2]);
    trace, s := trace + [acts[2]], Apply(s, acts[2]);
    ExecSnoc(s0, trace, s, acts[3]);
    trace, s := trace + [acts[3]], Apply(s, acts[3]);
  }

  /** One validated change runs alone to its commit. */
  lemma ChangeRuns(s0: State, trace: seq<Step>, s: State, x: TxId) returns (trace': seq<Step>, s': State)
    requires Exec(s0, trace) == Some(s) && s.locks == map[] && x in s.txs
    requires s.txs[x].Validated? && s.txs[x].request.Change? && s.txs[x].session.userId in s.users
    requires var u := s.txs[x].session.userId;
             var request := s.txs[x].request;
             && s.users[u].id == u && request.claims.userId == u && s.users[u].hash.password == request.current
             && request.new_ == request.confirmation && request.allowed
    ensures Exec(s0, trace') == Some(s') && s'.locks == map[]
    ensures var u := s.txs[x].session.userId;
            var request := s.txs[x].request;
            var auth := AuthResult(u, s.txs[x].session.email, s.users[u].sessionVersion + 1);
            && s'.txs == s.txs[x := Answered(request, auth, |s.log|)]
            && s'.users == s.users[u := s.users[u].WithPassword(Hash(request.new_, request.scheme), 0)]
            && s'.log == s.log + [Entry(request, u, 0, Ok(auth))]
  {
    trace', s' := ChangeLocksAndVerifies(s0, trace, s, x);
    ExecSnoc(s0, trace', s', Step(x, Write(0)));
    trace', s' := trace' + [Step(x, Write(0))], Apply(s', Step(x, Write(0)));
    ExecSnoc(s0, trace', s', Step(x, Commit));
    trace', s' := trace' + [Step(x, Commit)], Apply(s', Step(x, Commit));
  }

  lemma ChangeLocksAndVerifies(s0: State, trace: seq<Step>, s: State, x: TxId) returns (trace': seq<Step>, s': State)
    requires Exec(s0, trace) == Some(s) && s.locks == map[] && x in s.txs
    requires s.txs[x].Validated? && s.txs[x].request.Change? && s.txs[x].session.userId in s.users
    requires s.users[s.txs[x].session.userId].hash.password == s.txs[x].request.current
    ensures Exec(s0, trace') == Some(s')
    ensures var u := s.txs[x].session.userId;
            var tx := s.txs[x];
            var verification := UserStore.Verify(tx.request.current, s.users[u].hash, tx.request.scheme);
            && verification.valid
            && s' == s.(locks := map[u := x],
                        txs := s.txs[x := Verified(tx.request, s.users[u], tx.session.email, verification)])
  {
    ExecSnoc(s0, trace, s, Step(x, Lock));
    trace', s' := trace + [Step(x, Lock)], Apply(s, Step(x, Lock));
    ExecSnoc(s0, trace', s', Step(x, Check));
    trace', s' := trace' + [Step(x, Check)], Apply(s', Step(x, Check));
  }

  /** It happens: a change is granted on a cookie that an earlier commit has already revoked, because the
      cookie was checked before the lock. */
  lemma RevokedSessionMayChange(lifetime: int) returns (trace: seq<Step>)
    requires lifetime > 0
    ensures Exec(Init(lifetime), trace).Some?
    ensures var log := Exec(Init(lifetime), trace).value.log;
            var last := |log| - 1;
            && |log| == 3 && log[last].request.Change? && log[last].answer.Ok?
            && !Accepts(Replay(log[..last]), log[last].request.claims, 0)
  {
    var s: State, c: Claims;
    trace, s, c := TwoValidated(lifetime);
    trace, s := ChangeRuns(Init(lifetime), trace, s, 1);
    trace, s := ChangeRuns(Init(lifetime), trace, s, 2);
    Reachable(lifetime, trace);
    ChangeServed(Replay(s.log[..2]), s.log[2]);
  }
}
