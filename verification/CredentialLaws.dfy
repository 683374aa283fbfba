/** What is granted, not only what is refused: logins, changes and sessions of the credential protocol, on the columns. */
module CredentialLaws {
  import opened Basics
  import opened UserStore
  import opened CredentialProtocol
  import opened CredentialInvariant
  import opened CredentialSteps
  import opened CredentialHistory
  import opened CredentialTheorems

  // ---- committed logins and changes ----------------------------------------------------------------------

  /** A login whose statements have run: its commit grants it if it presented the password of the account it looked up,
      and then stores that password under its preferred scheme; otherwise it is refused and nothing is stored. */
  lemma LoginCommits(lifetime: int, trace: seq<Step>, x: TxId)
    requires Exec(Init(lifetime), trace).Some?
    requires var s := Exec(Init(lifetime), trace).value; x in s.txs && s.txs[x].Written? && s.txs[x].request.Login?
    ensures var s := Exec(Init(lifetime), trace).value;
            var request := s.txs[x].request;
            var u := s.txs[x].user.id;
            && Enabled(s, Step(x, Commit)) && u in s.users && s.users[u].email == request.email
            && var t := Apply(s, Step(x, Commit));
            && OnlyUser(s.users, t.users, u) && u in t.users
            && (s.users[u].hash.password == request.password ==>
                  && x in t.txs
                  && t.txs[x] == Answered(request, AuthResult(u, request.email, s.users[u].sessionVersion), |s.log|)
                  && t.users[u] == User(u, request.email, Hash(request.password, request.scheme), s.users[u].sessionVersion,
                                        s.users[u].createdAt,
                                        if s.users[u].hash.scheme == request.scheme then s.users[u].updatedAt
                                        else s.txs[x].now))
            && (s.users[u].hash.password != request.password ==> x !in t.txs && t.users == s.users)
  {
    Reachable(lifetime, trace);
    CommitOfLogin(Exec(Init(lifetime), trace).value, x);
  }

  lemma CommitOfLogin(s: State, x: TxId)
    requires UniqueEmails(s.users) && x in s.txs && TxOk(s.users, s.log, s.txs[x])
    requires s.txs[x].Written? && s.txs[x].request.Login?
    ensures var request := s.txs[x].request;
            var u := s.txs[x].user.id;
            && u in s.users && s.users[u].email == request.email
            && var t := LandAnswered(s, x);
            && OnlyUser(s.users, t.users, u) && u in t.users
            && (s.users[u].hash.password == request.password ==>
                  && x in t.txs
                  && t.txs[x] == Answered(request, AuthResult(u, request.email, s.users[u].sessionVersion), |s.log|)
                  && t.users[u] == User(u, request.email, Hash(request.password, request.scheme), s.users[u].sessionVersion,
                                        s.users[u].createdAt,
                                        if s.users[u].hash.scheme == request.scheme then s.users[u].updatedAt
                                        else s.txs[x].now))
            && (s.users[u].hash.password != request.password ==> x !in t.txs && t.users == s.users)
  {
  }

  /** The same of a change; its commit raises the version. */
  lemma ChangeCommits(lifetime: int, trace: seq<Step>, x: TxId)
    requires Exec(Init(lifetime), trace).Some?
    requires var s := Exec(Init(lifetime), trace).value; x in s.txs && s.txs[x].Written? && s.txs[x].request.Change?
    ensures var s := Exec(Init(lifetime), trace).value;
            var request := s.txs[x].request;
            var u := request.claims.userId;
            && Enabled(s, Step(x, Commit)) && u in s.users
            && var t := Apply(s, Step(x, Commit));
            && OnlyUser(s.users, t.users, u) && u in t.users
            && var granted := s.users[u].hash.password == request.current && request.new_ == request.confirmation && request.allowed;
            && (granted ==>
                  && x in t.txs
                  && t.txs[x] == Answered(request, AuthResult(u, s.users[u].email, s.users[u].sessionVersion + 1), |s.log|)
                  && t.users[u] == User(u, s.users[u].email, Hash(request.new_, request.scheme),
                                        s.users[u].sessionVersion + 1, s.users[u].createdAt, s.txs[x].now))
            && (!granted ==> x !in t.txs && t.users == s.users)
  {
    Reachable(lifetime, trace);
    CommitOfChange(Exec(Init(lifetime), trace).value, x);
  }

  lemma CommitOfChange(s: State, x: TxId)
    requires UniqueEmails(s.users) && x in s.txs && TxOk(s.users, s.log, s.txs[x])
    requires s.txs[x].Written? && s.txs[x].request.Change?
    ensures var request := s.txs[x].request;
            var u := request.claims.userId;
            && u in s.users && OnlyUser(s.users, LandAnswered(s, x).users, u) && u in LandAnswered(s, x).users
            && var t := LandAnswered(s, x);
            && var granted := s.users[u].hash.password == request.current && request.new_ == request.confirmation && request.allowed;
            && (granted ==>
                  && x in t.txs
                  && t.txs[x] == Answered(request, AuthResult(u, s.users[u].email, s.users[u].sessionVersion + 1), |s.log|)
                  && t.users[u] == User(u, s.users[u].email, Hash(request.new_, request.scheme),
                                        s.users[u].sessionVersion + 1, s.users[u].createdAt, s.txs[x].now))
            && (!granted ==> x !in t.txs && t.users == s.users)
  {
  }

  // ---- a login with the right password gets its session ----------------------------------------------------

  /** Wherever the account's row is free, a login with its password can run, is granted and gets its cookie. */
  lemma LoginCanRun(lifetime: int, trace: seq<Step>, x: TxId, u: int, scheme: nat, now: Time, at: Time)
    returns (more: seq<Step>, t: State)
    requires Exec(Init(lifetime), trace).Some? && lifetime > 0
    requires var s := Exec(Init(lifetime), trace).value; x !in s.txs && u in s.users && u !in s.locks
    ensures var s := Exec(Init(lifetime), trace).value;
            var password := s.users[u].hash.password;
            && Exec(Init(lifetime), trace + more) == Some(t)
            && |more| == 6 && more[0] == Step(x, Begin(Login(s.users[u].email, password, scheme))) && more[5] == Step(x, Issue(at))
            && t.issued == s.issued + {Claims(u, s.users[u].sessionVersion, at, at + lifetime)}
            && u in t.users && t.users[u].hash == Hash(password, scheme)
  {
    var s := Exec(Init(lifetime), trace).value;
    EmailsAreUnique(lifetime, trace);
    LifetimeStays(Init(lifetime), trace);
    t, more := LoginRuns(s, x, u, scheme, now, at);
    LeadsIsExec(lifetime, trace, s, more, t);
  }

  /** The six steps of a login with the right password and of its cookie. */
  lemma LoginRuns(s: State, x: TxId, u: int, scheme: nat, now: Time, at: Time) returns (t: State, steps: seq<Step>)
    requires UniqueEmails(s.users) && x !in s.txs && u in s.users && u !in s.locks && s.users[u].id == u && s.lifetime > 0
    ensures Leads(s, steps, t) && |steps| == 6 && steps[5] == Step(x, Issue(at))
    ensures steps[0] == Step(x, Begin(Login(s.users[u].email, s.users[u].hash.password, scheme)))
    ensures t.issued == s.issued + {Claims(u, s.users[u].sessionVersion, at, at + s.lifetime)}
    ensures u in t.users && t.users[u].hash == Hash(s.users[u].hash.password, scheme)
  {
    var s3, verified := LoginVerifies(s, x, u, scheme);
    var s5, landed := LoginLands(s3, x, u, now);
    var issued: seq<Step>;
    t, issued := LoginIssues(s5, x, at);
    steps := verified + landed + issued;
    LeadsOn(s, verified, s3, landed, s5);
    LeadsOn(s, verified + landed, s5, issued, t);
  }

  lemma EmailsAreUnique(lifetime: int, trace: seq<Step>)
    requires Exec(Init(lifetime), trace).Some?
    ensures var users := Exec(Init(lifetime), trace).value.users;
            UniqueEmails(users) && forall u :: u in users ==> users[u].id == u
  {
    Reachable(lifetime, trace);
  }

  /** Begin, the locking read and the verification. */
  lemma LoginVerifies(s: State, x: TxId, u: int, scheme: nat) returns (s3: State, steps: seq<Step>)
    requires UniqueEmails(s.users) && x !in s.txs && u in s.users && u !in s.locks
    ensures steps == [Step(x, Begin(Login(s.users[u].email, s.users[u].hash.password, scheme))), Step(x, Lock), Step(x, Check)]
    ensures Leads(s, steps, s3)
    ensures s3.users == s.users && s3.issued == s.issued && s3.lifetime == s.lifetime && x in s3.txs
    ensures s3.txs[x] == Verified(Login(s.users[u].email, s.users[u].hash.password, scheme), s.users[u], s.users[u].email,
                                  Verify(s.users[u].hash.password, s.users[u].hash, scheme))
  {
    var request := Login(s.users[u].email, s.users[u].hash.password, scheme);
    assert FindByEmail(s.users, request.email) == Some(u);
    var s1 := Apply(s, Step(x, Begin(request)));
    assert Target(s1.users, s1.txs[x]) == Some(u);
    var s2 := Apply(s1, Step(x, Lock));
    s3 := Apply(s2, Step(x, Check));
    steps := [Step(x, Begin(request)), Step(x, Lock), Step(x, Check)];
    var states := [s, s1, s2, s3];
    assert MovesAt(states, steps, 0) && MovesAt(states, steps, 1) && MovesAt(states, steps, 2);
    assert Path(states, steps);
  }

  /** The write and the commit. */
  lemma LoginLands(s3: State, x: TxId, u: int, now: Time) returns (s5: State, steps: seq<Step>)
    requires u in s3.users && s3.users[u].id == u && x in s3.txs && s3.txs[x].Verified?
    requires s3.txs[x].request.Login? && s3.txs[x].user == s3.users[u] && s3.txs[x].email == s3.users[u].email
    requires s3.txs[x].request.password == s3.users[u].hash.password
    requires s3.txs[x].verification == Verify(s3.txs[x].request.password, s3.users[u].hash, s3.txs[x].request.scheme)
    ensures steps == [Step(x, Write(now)), Step(x, Commit)] && Leads(s3, steps, s5)
    ensures x in s5.txs && s5.txs[x].Answered?
    ensures s5.txs[x].auth == AuthResult(u, s3.users[u].email, s3.users[u].sessionVersion)
    ensures u in s5.users && s5.users[u].hash == Hash(s3.txs[x].request.password, s3.txs[x].request.scheme)
    ensures s5.issued == s3.issued && s5.lifetime == s3.lifetime
  {
    var s4 := Apply(s3, Step(x, Write(now)));
    s5 := Apply(s4, Step(x, Commit));
    steps := [Step(x, Write(now)), Step(x, Commit)];
    assert MovesAt([s3, s4, s5], steps, 0) && MovesAt([s3, s4, s5], steps, 1);
    assert Path([s3, s4, s5], steps);
  }

  /** The cookie of an answered transaction. */
  lemma LoginIssues(s5: State, x: TxId, at: Time) returns (t: State, steps: seq<Step>)
    requires x in s5.txs && s5.txs[x].Answered? && s5.lifetime > 0
    ensures steps == [Step(x, Issue(at))] && Leads(s5, steps, t)
    ensures t.users == s5.users
    ensures t.issued == s5.issued + {Claims(s5.txs[x].auth.userId, s5.txs[x].auth.version, at, at + s5.lifetime)}
  {
    steps := [Step(x, Issue(at))];
    t := Apply(s5, steps[0]);
    assert MovesAt([s5, t], steps, 0);
    assert Path([s5, t], steps);
  }

  // ---- executions as paths ---------------------------------------------------------------------------------

  ghost predicate MovesAt(states: seq<State>, trace: seq<Step>, i: nat)
    requires |states| == |trace| + 1 && i < |trace|
  {
    Enabled(states[i], trace[i]) && Apply(states[i], trace[i]) == states[i + 1]
  }

  ghost predicate Path(states: seq<State>, trace: seq<Step>) {
    && |states| == |trace| + 1
    && forall i :: 0 <= i < |trace| ==> MovesAt(states, trace, i)
  }

  /** The steps lead from s to t. */
  ghost predicate Leads(s: State, trace: seq<Step>, t: State) {
    exists states :: Path(states, trace) && states[0] == s && states[|trace|] == t
  }

  lemma LeadsOn(s: State, a: seq<Step>, t: State, b: seq<Step>, u: State)
    requires Leads(s, a, t) && Leads(t, b, u)
    ensures Leads(s, a + b, u)
  {
    var v :| Path(v, a) && v[0] == s && v[|a|] == t;
    var w :| Path(w, b) && w[0] == t && w[|b|] == u;
    var z := v + w[1..];
    forall i | 0 <= i < |a + b|
      ensures MovesAt(z, a + b, i)
    {
      if i < |a| {
        assert MovesAt(v, a, i);
      } else {
        assert MovesAt(w, b, i - |a|);
      }
    }
    assert Path(z, a + b);
  }

  lemma LeadsIsExec(lifetime: int, past: seq<Step>, s: State, trace: seq<Step>, t: State)
    requires Exec(Init(lifetime), past) == Some(s) && Leads(s, trace, t)
    ensures Exec(Init(lifetime), past + trace) == Some(t)
  {
    var states :| Path(states, trace) && states[0] == s && states[|trace|] == t;
    PathIsExec(lifetime, past, states, trace, |trace|);
    assert trace[..|trace|] == trace;
  }

  lemma {:induction false} PathIsExec(lifetime: int, past: seq<Step>, states: seq<State>, trace: seq<Step>, k: nat)
    requires Path(states, trace) && k <= |trace| && Exec(Init(lifetime), past) == Some(states[0])
    ensures Exec(Init(lifetime), past + trace[..k]) == Some(states[k])
  {
    if k == 0 {
      assert past + trace[..0] == past;
    } else {
      PathIsExec(lifetime, past, states, trace, k - 1);
      assert MovesAt(states, trace, k - 1);
      ExecSnoc(Init(lifetime), past + trace[..k - 1], states[k - 1], trace[k - 1]);
      assert past + trace[..k - 1] + [trace[k - 1]] == past + trace[..k];
    }
  }

  // ---- when a session passes revalidation ------------------------------------------------------------------

  lemma StepAddsEntry(s: State, step: Step)
    requires Enabled(s, step)
    ensures |Apply(s, step).log| <= |s.log| + 1 && s.log <= Apply(s, step).log
    ensures |Apply(s, step).log| > |s.log| && Apply(s, step).log[|s.log|].answer.Ok? ==> step.act.Commit? || step.act.CommitLost?
    ensures step.act.Commit? || step.act.CommitLost? ==>
              && Ends(s.txs[step.x]) && Apply(s, step).log == s.log + [EntryOf(s.txs[step.x])]
              && Apply(s, step).users == Land(s, step.x).users
  {
  }

  /** A granted request was granted at the version that its account had after it: the number of changes up to then. */
  lemma {:induction false} GrantVersion(lifetime: int, trace: seq<Step>, k: nat)
    requires Exec(Init(lifetime), trace).Some?
    requires k < |Exec(Init(lifetime), trace).value.log| && Exec(Init(lifetime), trace).value.log[k].answer.Ok?
    ensures var log := Exec(Init(lifetime), trace).value.log;
            log[k].answer.value.version == ChangeCount(log[..k + 1], log[k].answer.value.userId)
    decreases |trace|
  {
    if trace != [] {
      var last := |trace| - 1;
      var s := Exec(Init(lifetime), trace[..last]).value;
      var log := Exec(Init(lifetime), trace).value.log;
      StepAddsEntry(s, trace[last]);
      if k < |s.log| {
        GrantVersion(lifetime, trace[..last], k);
        assert log[..k + 1] == s.log[..k + 1];
      } else {
        Reachable(lifetime, trace[..last]);
        LandedVersion(s, trace[last].x);
        LatestVersion(lifetime, trace, log[k].answer.value.userId);
        assert log[..k + 1] == log;
      }
    }
  }

  lemma LandedVersion(s: State, x: TxId)
    requires Inv(s) && x in s.txs && Ends(s.txs[x]) && EntryOf(s.txs[x]).answer.Ok?
    ensures var auth := EntryOf(s.txs[x]).answer.value;
            auth.userId in Land(s, x).users && Land(s, x).users[auth.userId].sessionVersion == auth.version
  {
    LandMoves(s, x);
  }

  lemma LatestVersion(lifetime: int, trace: seq<Step>, u: int)
    requires Exec(Init(lifetime), trace).Some? && u in Exec(Init(lifetime), trace).value.users
    ensures var s := Exec(Init(lifetime), trace).value; s.users[u].sessionVersion == ChangeCount(s.log, u)
  {
    HashIsLatest(lifetime, trace, u, "", 0);
  }

  /** No entry from place k on is a granted change of the account. */
  predicate Unchanged(log: seq<Entry>, k: nat, u: int) {
    forall m :: k <= m < |log| && log[m].request.Change? && log[m].answer.Ok? ==> log[m].answer.value.userId != u
  }

  lemma {:induction false} ChangesSince(log: seq<Entry>, k: nat, u: int)
    requires k <= |log|
    ensures ChangeCount(log[..k], u) <= ChangeCount(log, u)
    ensures ChangeCount(log, u) == ChangeCount(log[..k], u) <==> Unchanged(log, k, u)
    decreases |log|
  {
    if k == |log| {
      assert log[..k] == log;
    } else {
      var front := log[..|log| - 1];
      ChangesSince(front, k, u);
      assert front[..k] == log[..k];
      assert Unchanged(log, k, u) <==> Unchanged(front, k, u) && Unchanged(log, |log| - 1, u) by {
        assert forall m :: k <= m < |log| - 1 ==> log[m] == front[m];
      }
    }
  }

  /** A request that carries a cookie passes revalidation at a clock reading if and only if that is less than a lifetime
      after the cookie was issued, and no change of the account was granted since the request the cookie was granted for. */
  lemma RevalidatesExactly(lifetime: int, trace: seq<Step>, c: Claims, x: TxId, now: Time) returns (i: nat, j: nat, k: nat)
    requires Exec(Init(lifetime), trace).Some? && c in Exec(Init(lifetime), trace).value.issued
    requires var s := Exec(Init(lifetime), trace).value;
             x in s.txs && s.txs[x].Begun? && (s.txs[x].request.Change? || s.txs[x].request.Visit?) && s.txs[x].request.claims == c
    ensures Grants(lifetime, trace, i, j, k, c)
    ensures var s := Exec(Init(lifetime), trace).value;
            Enabled(s, Step(x, Revalidate(now))) <==>
              now < trace[j].act.now + lifetime && Unchanged(s.log, k + 1, c.userId)
  {
    i, j, k := SessionOrigin(lifetime, trace, c);
    IssuedVersions(lifetime, trace, c);
    GrantVersion(lifetime, trace, k);
    LatestVersion(lifetime, trace, c.userId);
    ChangesSince(Exec(Init(lifetime), trace).value.log, k + 1, c.userId);
  }
}
