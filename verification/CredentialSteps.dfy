/** Every step of the credential protocol keeps the invariant. */
module CredentialSteps {
  import opened Basics
  import opened UserStore
  import opened CredentialProtocol
  import opened CredentialInvariant

  // ---- locks ---------------------------------------------------------------------------------------

  lemma LockTaken(locks: map<int, TxId>, txs: map<TxId, Tx>, x: TxId, tx: Tx)
    requires LocksOk(locks, txs) && x in txs && !Holds(txs[x]) && tx.Locked? && tx.user.id !in locks
    ensures LocksOk(locks[tx.user.id := x], txs[x := tx])
  {
  }

  lemma LockKept(locks: map<int, TxId>, txs: map<TxId, Tx>, x: TxId, tx: Tx)
    requires LocksOk(locks, txs)
    requires if x in txs && Holds(txs[x]) then Holds(tx) && tx.user.id == txs[x].user.id else !Holds(tx)
    ensures LocksOk(locks, txs[x := tx])
  {
  }

  lemma LockFreed(locks: map<int, TxId>, txs: map<TxId, Tx>, x: TxId)
    requires LocksOk(locks, txs)
    ensures LocksOk(Unlock(locks, x), txs - {x})
  {
    var locks' := Unlock(locks, x);
    var txs' := txs - {x};
    forall y | y in txs' && Holds(txs'[y])
      ensures txs'[y].user.id in locks' && locks'[txs'[y].user.id] == y
    {
      assert txs[y].user.id in locks && locks[txs[y].user.id] == y;
    }
  }

  // ---- the other transactions ----------------------------------------------------------------------

  lemma OthersStay(users: Users, users': Users, log: seq<Entry>, entry: Entry, tx: Tx)
    requires TxOk(users, log, tx) && Landed(users, users', entry)
    requires Holds(tx) ==> tx.user.id != entry.id
    requires tx.Inserting? ==> tx.user.id !in users' && !Registered(users', tx.user.email)
    ensures TxOk(users', log + [entry], tx)
  {
    if tx.Answered? {
      GrantGrows(log, entry, tx.entry, tx.auth.userId, tx.auth.version);
    }
  }

  /** The row a landing transaction writes belongs to no other one. */
  lemma OthersApart(s: State, x: TxId, y: TxId)
    requires LocksOk(s.locks, s.txs) && TxsOk(s.users, s.log, s.txs)
    requires x in s.txs && Ends(s.txs[x]) && y in s.txs && y != x
    ensures Holds(s.txs[y]) ==> s.txs[y].user.id != s.txs[x].user.id
    ensures var users' := Land(s, x).users;
            s.txs[y].Inserting? ==> s.txs[y].user.id !in users' && !Registered(users', s.txs[y].user.email)
  {
    assert TxOk(s.users, s.log, s.txs[x]);
    assert TxOk(s.users, s.log, s.txs[y]);
    if Holds(s.txs[y]) && Holds(s.txs[x]) {
      assert s.locks[s.txs[y].user.id] == y;
    }
  }

  lemma LandTxs(s: State, x: TxId)
    requires UniqueEmails(s.users) && LocksOk(s.locks, s.txs) && TxsOk(s.users, s.log, s.txs)
    requires x in s.txs && Ends(s.txs[x])
    ensures TxsOk(Land(s, x).users, Land(s, x).log, s.txs - {x})
  {
    LandMoves(s, x);
    forall y | y in s.txs && y != x
      ensures TxOk(Land(s, x).users, Land(s, x).log, s.txs[y])
    {
      OthersApart(s, x, y);
      OthersStay(s.users, Land(s, x).users, s.log, EntryOf(s.txs[x]), s.txs[y]);
    }
  }

  lemma LandEmails(s: State, x: TxId)
    requires UniqueEmails(s.users) && x in s.txs && Ends(s.txs[x]) && TxOk(s.users, s.log, s.txs[x])
    ensures UniqueEmails(Land(s, x).users)
  {
    LandMoves(s, x);
  }

  lemma LandKeeps(s: State, x: TxId)
    requires Inv(s) && x in s.txs && Ends(s.txs[x])
    ensures Inv(Land(s, x))
  {
    var entry := EntryOf(s.txs[x]);
    var users' := Land(s, x).users;
    LandMoves(s, x);
    LandEmails(s, x);
    LockFreed(s.locks, s.txs, x);
    LandTxs(s, x);
    LandServes(s, x);
    SerialGrows(s.users, s.log, entry, users');
    LandPasswords(s.users, users', s.log, entry);
    LandIssued(s.log, entry, s.issued, s.lifetime);
  }

  lemma LandAnswers(s: State, x: TxId)
    requires Inv(s) && x in s.txs && Ends(s.txs[x]) && EntryOf(s.txs[x]).answer.Ok?
    ensures var auth := EntryOf(s.txs[x]).answer.value;
            GrantedBy(Land(s, x).log, |s.log|, auth.userId, auth.version)
  {
    LandMoves(s, x);
    LandGrants(s.users, Land(s, x).users, s.log, EntryOf(s.txs[x]));
  }

  lemma CommitKeeps(s: State, x: TxId)
    requires Inv(s) && x in s.txs && Ends(s.txs[x])
    ensures Inv(LandAnswered(s, x))
  {
    var s1 := Land(s, x);
    var entry := EntryOf(s.txs[x]);
    LandKeeps(s, x);
    if entry.answer.Ok? {
      LandAnswers(s, x);
      AnsweredKeeps(s1, x, Answered(entry.request, entry.answer.value, |s.log|));
    }
  }

  /** A transaction joins, holding no lock and reserving no key. */
  lemma AnsweredKeeps(s: State, x: TxId, tx: Tx)
    requires Inv(s) && x !in s.txs && TxOk(s.users, s.log, tx) && !Holds(tx) && !tx.Inserting?
    ensures Inv(s.(txs := s.txs[x := tx]))
  {
    LockKept(s.locks, s.txs, x, tx);
  }

  /** A transaction moves on, keeping its lock if it has one. */
  lemma MoveKeeps(s: State, x: TxId, tx: Tx)
    requires Inv(s) && x in s.txs && TxOk(s.users, s.log, tx)
    requires if Holds(s.txs[x]) then Holds(tx) && tx.user.id == s.txs[x].user.id else !Holds(tx)
    requires tx.Inserting? ==> forall y :: y in s.txs && y != x && s.txs[y].Inserting? ==>
               s.txs[y].user.id != tx.user.id && s.txs[y].user.email != tx.user.email
    ensures Inv(s.(txs := s.txs[x := tx]))
  {
    LockKept(s.locks, s.txs, x, tx);
  }

  lemma LockedIsCurrent(users: Users, log: seq<Entry>, tx: Tx)
    requires UniqueEmails(users) && TxOk(users, log, tx) && Target(users, tx).Some?
    ensures var u := Target(users, tx).value;
            && users[u].id == u
            && TxOk(users, log, Locked(tx.request, users[u], if tx.Validated? then tx.session.email else users[u].email))
  {
  }

  lemma TxReplaced(users: Users, log: seq<Entry>, txs: map<TxId, Tx>, x: TxId, tx: Tx)
    requires TxsOk(users, log, txs) && TxOk(users, log, tx) && !tx.Inserting?
    ensures TxsOk(users, log, txs[x := tx])
  {
  }

  lemma LockKeeps(s: State, x: TxId)
    requires Inv(s) && Enabled(s, Step(x, Lock))
    ensures Inv(Apply(s, Step(x, Lock)))
  {
    var u := Target(s.users, s.txs[x]).value;
    var email := if s.txs[x].Validated? then s.txs[x].session.email else s.users[u].email;
    var tx := Locked(s.txs[x].request, s.users[u], email);
    LockedIsCurrent(s.users, s.log, s.txs[x]);
    LockTaken(s.locks, s.txs, x, tx);
    TxReplaced(s.users, s.log, s.txs, x, tx);
  }

  lemma EndKeeps(s: State, x: TxId)
    requires Inv(s)
    ensures Inv(s.(locks := Unlock(s.locks, x), txs := s.txs - {x}))
  {
    LockFreed(s.locks, s.txs, x);
  }

  lemma LockLeft(locks: map<int, TxId>, txs: map<TxId, Tx>, x: TxId)
    requires LocksOk(locks, txs) && x in txs && !Holds(txs[x])
    ensures LocksOk(locks, txs - {x})
  {
  }

  lemma IssueKeeps(s: State, x: TxId, claims: Claims)
    requires Inv(s) && x in s.txs && s.txs[x].Answered?
    requires claims.expiresAt == claims.issuedAt + s.lifetime
    requires claims.userId == s.txs[x].auth.userId && claims.version == s.txs[x].auth.version
    ensures Inv(s.(txs := s.txs - {x}, issued := s.issued + {claims}))
  {
    assert TxOk(s.users, s.log, s.txs[x]);
    LockLeft(s.locks, s.txs, x);
  }

  /** A refused request changes no row, and is refused with the same error when served alone. */
  lemma RefuseKeeps(s: State, x: TxId, now: Time)
    requires Inv(s) && Enabled(s, Step(x, Refuse(now)))
    ensures Inv(Apply(s, Step(x, Refuse(now))))
  {
    var entry := Entry(s.txs[x].request, 0, now, Err(Refusal(s.users, s.txs[x]).value));
    LockLeft(s.locks, s.txs, x);
    assert TxOk(s.users, s.log, s.txs[x]);
    RefusalServes(s.users, s.txs[x], entry);
    SerialGrows(s.users, s.log, entry, s.users);
    RefusedPasswords(s.users, s.log, entry);
    LandIssued(s.log, entry, s.issued, s.lifetime);
    forall y | y in s.txs - {x}
      ensures TxOk(s.users, s.log + [entry], s.txs[y])
    {
      assert TxOk(s.users, s.log, s.txs[y]);
      if s.txs[y].Answered? {
        GrantGrows(s.log, entry, s.txs[y].entry, s.txs[y].auth.userId, s.txs[y].auth.version);
      }
    }
  }

  lemma RefusalServes(users: Users, tx: Tx, entry: Entry)
    requires Refusal(users, tx).Some? && (tx.Validated? ==> tx.session.userId == tx.request.claims.userId)
    requires entry.request == tx.request && entry.answer == Err(Refusal(users, tx).value)
    ensures Serve(users, entry) == (users, entry.answer)
  {
  }

  lemma RefusedPasswords(users: Users, log: seq<Entry>, entry: Entry)
    requires PasswordsOk(users, log) && entry.answer.Err?
    ensures PasswordsOk(users, log + [entry])
  {
    forall u
      ensures Passwords(log + [entry], u) == Passwords(log, u)
    {
      PasswordsGrow(log, entry, u);
    }
  }

  lemma StepKeeps(s: State, step: Step)
    requires Inv(s) && Enabled(s, step)
    ensures Inv(Apply(s, step))
  {
    var x := step.x;
    match step.act
    case Commit => CommitKeeps(s, x);
    case CommitLost => LandKeeps(s, x);
    case Lock => LockKeeps(s, x);
    case Refuse(now) => RefuseKeeps(s, x, now);
    case Rollback => EndKeeps(s, x);
    case Issue(now) => IssueKeeps(s, x, IssueSession(s.txs[x].auth, now, s.lifetime));
    case Begin(request) => AnsweredKeeps(s, x, Begun(request));
    case _ => InsideKeeps(s, step);
  }

  /** The statements between lock and end touch only the transaction's own buffer. */
  lemma InsideKeeps(s: State, step: Step)
    requires Inv(s) && Enabled(s, step)
    requires step.act.Revalidate? || step.act.Insert? || step.act.Check? || step.act.Write?
    ensures Inv(Apply(s, step))
  {
    assert TxOk(s.users, s.log, s.txs[step.x]);
    MoveKeeps(s, step.x, Apply(s, step).txs[step.x]);
  }

  lemma {:induction false} RunKeeps(s: State, trace: seq<Step>)
    requires Inv(s) && Exec(s, trace).Some?
    ensures Inv(Exec(s, trace).value)
  {
    if trace != [] {
      var last := |trace| - 1;
      RunKeeps(s, trace[..last]);
      StepKeeps(Exec(s, trace[..last]).value, trace[last]);
    }
  }

  lemma Reachable(lifetime: int, trace: seq<Step>)
    requires Exec(Init(lifetime), trace).Some?
    ensures Inv(Exec(Init(lifetime), trace).value)
  {
    RunKeeps(Init(lifetime), trace);
  }
}
