/** Relay steps keep the invariant. */
module OutboxRelaySteps {
  import opened Basics
  import opened OutboxMessages
  import opened TaskStore
  import opened ClaimOrder
  import opened OutboxProtocol
  import opened OutboxInvariant

  // ---- rows ----------------------------------------------------------------------------------

  /** A committed write is one of the three immutable transitions of an unpublished row. */
  ghost predicate Transition(before: OutboxMessage, after: OutboxMessage, me: Relay, act: RelayAct) {
    && before.publishedAt.None?
    && match act
       case ClaimCommit => me.Claiming? && Eligible(before, me.now) && after == before.Leased(me.owner, me.until)
       case AckCommit => before.leaseOwner.Some? && exists at :: after == before.Published(at)
       case AckCommitLost => before.leaseOwner.Some? && exists at :: after == before.Published(at)
       case FailCommit => before.leaseOwner.Some? && exists error :: after == before.Failed(error)
       case _ => false
  }

  lemma FlushedWrites(rows: Rows, me: Relay, act: RelayAct)
    requires BufferOk(rows, me) && Ready(me, act)
    ensures var writes := Flushed(me, act);
            && (forall i, j :: 0 <= i < j < |writes| ==> writes[i].id != writes[j].id)
            && (forall i :: 0 <= i < |writes| ==>
                  && writes[i].id in HeldBy(me) && writes[i].id in rows
                  && Transition(rows[writes[i].id], writes[i], me, act))
  {
    if act.ClaimCommit? {
      forall i | 0 <= i < |me.writes|
        ensures me.writes[i].id in HeldBy(me) && me.writes[i].id in rows
        ensures Transition(rows[me.writes[i].id], me.writes[i], me, act)
      {
        assert LeaseModel(rows, me.writes[i], me.owner, me.now, me.until);
      }
    }
  }

  /** An act rewrites only rows its transaction holds, by a transition; a published row is final. */
  lemma RelayMovesRows(rows: Rows, me: Relay, act: RelayAct)
    requires BufferOk(rows, me) && Ready(me, act)
    ensures var rows' := WriteAll(rows, Flushed(me, act));
            && rows'.Keys == rows.Keys
            && Evolves(rows, rows', HeldBy(me))
            && (forall m :: m in rows ==>
                  rows'[m] == rows[m] || (m in Ids(Flushed(me, act)) && Transition(rows[m], rows'[m], me, act)))
            && (forall m :: m in Ids(Flushed(me, act)) ==> m in rows && Transition(rows[m], rows'[m], me, act))
  {
    var writes := Flushed(me, act);
    FlushedWrites(rows, me, act);
    WriteAllAt(rows, writes);
    var rows' := WriteAll(rows, writes);
    forall m | m in Ids(writes)
      ensures m in rows && m in HeldBy(me) && Transition(rows[m], rows'[m], me, act)
    {
      var i :| 0 <= i < |writes| && writes[i].id == m;
    }
  }

  /** A transition keeps the shape of a row and its ledger. */
  lemma TransitionKeepsRowOk(m: Id, before: OutboxMessage, after: OutboxMessage, leases: seq<Lease>, me: Relay, act: RelayAct)
    requires RowOk(m, before, leases) && Transition(before, after, me, act)
    requires me.Claiming? ==> me.now < me.until
    ensures RowOk(m, after, if act.ClaimCommit? then leases + [Lease(me.now, me.until)] else leases)
  {
    if act.ClaimCommit? {
      DisjointGrows(leases, Lease(me.now, me.until));
    }
  }

  lemma RelayRows(rows: Rows, me: Relay, act: RelayAct, r: RelayId, hist: History)
    requires RowsOk(rows, hist.claims) && BufferOk(rows, me) && Ready(me, act)
    ensures RowsOk(WriteAll(rows, Flushed(me, act)), Recorded(hist, r, me, act).claims)
  {
    var rows' := WriteAll(rows, Flushed(me, act));
    var claims' := Recorded(hist, r, me, act).claims;
    RelayMovesRows(rows, me, act);
    forall m | m in rows
      ensures RowOk(m, rows'[m], claims'[m])
    {
      if m in Ids(Flushed(me, act)) {
        TransitionKeepsRowOk(m, rows[m], rows'[m], hist.claims[m], me, act);
      }
    }
  }

  lemma DisjointGrows(leases: seq<Lease>, next: Lease)
    requires Disjoint(leases) && next.from < next.until
    requires leases != [] ==> leases[|leases| - 1].until <= next.from
    ensures Disjoint(leases + [next])
  {
  }

  // ---- locks and buffers ---------------------------------------------------------------------

  lemma RelockOk(locks: map<Id, RelayId>, relays: map<RelayId, Relay>, r: RelayId, next: Option<Relay>)
    requires LocksOk(locks, relays)
    requires forall m :: m in Held(next) ==> m in locks ==> locks[m] == r
    ensures LocksOk(Relock(locks, r, Held(next)), SetRelay(relays, r, next))
  {
    var locks' := Relock(locks, r, Held(next));
    var relays' := SetRelay(relays, r, next);
    forall q, m | q in relays' && m in HeldBy(relays'[q])
      ensures m in locks' && locks'[m] == q
    {
      if q != r {
        assert m in HeldBy(relays[q]);
      }
    }
  }

  /** A statement locks only rows that nobody else holds. */
  lemma NextHolds(s: State, r: RelayId, act: RelayAct)
    requires LocksOk(s.locks, s.relays) && BuffersOk(s.rows, s.relays) && RowsOk(s.rows, s.hist.claims)
    requires RelayEnabled(s, r, act) && !act.Claim?
    ensures forall m :: m in Held(Next(s.rows, s.relays[r], act)) ==> m in s.locks ==> s.locks[m] == r
  {
    var me := s.relays[r];
  }

  /** The run's next buffer matches the rows after the act. */
  lemma NextBuffer(rows: Rows, claims: map<Id, seq<Lease>>, me: Relay, act: RelayAct)
    requires RowsOk(rows, claims) && BufferOk(rows, me) && Ready(me, act)
    ensures Next(rows, me, act).Some? ==> BufferOk(WriteAll(rows, Flushed(me, act)), Next(rows, me, act).value)
  {
    RelayMovesRows(rows, me, act);
    var rows' := WriteAll(rows, Flushed(me, act));
    if act.ClaimCommit? {
      forall i | 0 <= i < |me.writes|
        ensures Mirrors(rows', Claimed(me.writes[i]))
      {
        assert me.writes[i].id in HeldBy(me);
        assert LeaseModel(rows, me.writes[i], me.owner, me.now, me.until);
      }
    } else if !me.Claiming? {
      assert TodoOk(rows', me.todo) by {
        forall i | 0 <= i < |me.todo|
          ensures Mirrors(rows', me.todo[i])
        {
          assert Mirrors(rows, me.todo[i]);
        }
      }
    }
  }

  // ---- tasks, pairing, queue -----------------------------------------------------------------

  /** Rows that keep their letters keep the pairing with tasks. */
  lemma LettersKeepPairing(s: State, rows': Rows)
    requires PairingOk(s.tasks, s.rows, s.hist.origin) && CreatesOk(s.rows, s.creates, s.hist.origin)
    requires rows'.Keys == s.rows.Keys && forall m :: m in s.rows ==> rows'[m].SameLetter(s.rows[m])
    ensures PairingOk(s.tasks, rows', s.hist.origin) && CreatesOk(rows', s.creates, s.hist.origin)
  {
  }

  lemma LettersKeepJobs(tasks: Tasks, rows: Rows, rows': Rows, ever: set<Id>, ever': set<Id>, jobs: map<JobId, Job>)
    requires JobsOk(tasks, rows, ever, jobs) && ever <= ever'
    requires rows'.Keys == rows.Keys && forall m :: m in rows ==> rows'[m].SameLetter(rows[m])
    ensures JobsOk(tasks, rows', ever', jobs)
  {
  }

  /** Accepting a job for a row, known before or not, keeps the queue honest. */
  lemma AcceptKeepsQueue(tasks: Tasks, rows: Rows, q: Queue, message: ClaimedMessage, novel: bool)
    requires QueueOk(tasks, rows, q) && Mirrors(rows, message) && CanEnqueue(q, message, novel)
    ensures QueueOk(tasks, rows, Accept(q, message, novel))
  {
    var q' := Accept(q, message, novel);
    forall m | m in q'.ever
      ensures Covered(tasks, rows, q', m)
    {
      assert m in q.ever ==> Covered(tasks, rows, q, m);
    }
  }

  /** New row versions keep the queue honest when every fresh publication was offered before. */
  lemma WritesKeepQueue(tasks: Tasks, rows: Rows, rows': Rows, q: Queue)
    requires QueueOk(tasks, rows, q)
    requires rows'.Keys == rows.Keys && forall m :: m in rows ==> rows'[m].SameLetter(rows[m])
    requires forall m :: m in rows' && rows'[m].publishedAt.Some? ==> m in q.ever
    ensures QueueOk(tasks, rows', q)
  {
    forall m | m in q.ever
      ensures Covered(tasks, rows', q, m)
    {
      assert Covered(tasks, rows, q, m);
    }
  }

  lemma RelayQueue(s: State, r: RelayId, act: RelayAct)
    requires BuffersOk(s.rows, s.relays) && OfferedOk(s.queue.ever, s.relays) && QueueOk(s.tasks, s.rows, s.queue)
    requires RelayEnabled(s, r, act) && !act.Claim?
    ensures var me := s.relays[r];
            QueueOk(s.tasks, WriteAll(s.rows, Flushed(me, act)), Offered(s.queue, me, act))
  {
    var me := s.relays[r];
    var rows' := WriteAll(s.rows, Flushed(me, act));
    assert BufferOk(s.rows, me);
    RelayMovesRows(s.rows, me, act);
    forall m | m in rows' && rows'[m].publishedAt.Some?
      ensures m in s.queue.ever
    {
      if rows'[m] != s.rows[m] {
        assert Transition(s.rows[m], rows'[m], me, act);
      }
    }
    WritesKeepQueue(s.tasks, s.rows, rows', s.queue);
    if act.Enqueue? || act.EnqueueLost? {
      assert Mirrors(s.rows, me.todo[0]);
      AcceptKeepsQueue(s.tasks, s.rows, s.queue, me.todo[0], act.novel);
    }
  }

  lemma RelayOffers(s: State, r: RelayId, act: RelayAct)
    requires OfferedOk(s.queue.ever, s.relays) && RelayEnabled(s, r, act) && !act.Claim?
    ensures var me := s.relays[r];
            && s.queue.ever <= Offered(s.queue, me, act).ever
            && OfferedOk(Offered(s.queue, me, act).ever, SetRelay(s.relays, r, Next(s.rows, me, act)))
  {
  }

  // ---- the acknowledgement account -----------------------------------------------------------

  lemma TagOne(credit: map<Id, Credit>, m: Id, c: Credit)
    requires m !in credit
    ensures forall d :: Tagged(credit[m := c], d) == Tagged(credit, d) + (if d == c then {m} else {})
  {
  }

  lemma SettleMoves(credit: map<Id, Credit>, r: RelayId, to: Credit)
    requires !to.Pledged?
    ensures Settle(credit, r, to).Keys == credit.Keys
    ensures |Tagged(Settle(credit, r, to), to)| == |Tagged(credit, to)| + |Tagged(credit, Pledged(r))|
    ensures forall d :: d != to && d != Pledged(r) ==> Tagged(Settle(credit, r, to), d) == Tagged(credit, d)
  {
    var after := Settle(credit, r, to);
    assert Tagged(after, to) == Tagged(credit, to) + Tagged(credit, Pledged(r));
    assert Tagged(credit, to) !! Tagged(credit, Pledged(r));
    forall d | d != to && d != Pledged(r)
      ensures Tagged(after, d) == Tagged(credit, d)
    {
      forall m
        ensures m in Tagged(after, d) <==> m in Tagged(credit, d)
      {
      }
    }
  }

  /** Booking one acknowledgement adds one to one account. */
  lemma BookOne(hist: History, w: OutboxMessage, account: Credit)
    requires w.id !in hist.credit && hist.acks == multiset(hist.credit.Keys)
    ensures var hist' := Book(hist, Some(w), account);
            && hist'.credit.Keys == hist.credit.Keys + {w.id}
            && hist'.acks == multiset(hist'.credit.Keys)
            && hist'.returned == hist.returned
            && (forall d :: |Tagged(hist'.credit, d)| == |Tagged(hist.credit, d)| + if d == account then 1 else 0)
  {
    var credit' := hist.credit[w.id := account];
    TagOne(hist.credit, w.id, account);
    assert credit'.Keys == hist.credit.Keys + {w.id};
    forall d
      ensures |Tagged(credit', d)| == |Tagged(hist.credit, d)| + if d == account then 1 else 0
    {
      assert w.id !in Tagged(hist.credit, d);
    }
  }

  lemma PublishedMoves(rows: Rows, me: Relay, act: RelayAct)
    requires BufferOk(rows, me) && Ready(me, act)
    ensures PublishedIds(WriteAll(rows, Flushed(me, act)))
         == PublishedIds(rows) + (if act.AckCommit? || act.AckCommitLost? then Ids(Flushed(me, act)) else {})
  {
    RelayMovesRows(rows, me, act);
    var rows' := WriteAll(rows, Flushed(me, act));
    forall m | m in rows
      ensures rows'[m].publishedAt.Some? <==>
              rows[m].publishedAt.Some? || ((act.AckCommit? || act.AckCommitLost?) && m in Ids(Flushed(me, act)))
    {
      if m in Ids(Flushed(me, act)) {
        assert Transition(rows[m], rows'[m], me, act);
      }
    }
  }

  /** Counts follow one act of run r: the other runs keep theirs. */
  lemma CountsFollow(
      relays: map<RelayId, Relay>, credit: map<Id, Credit>, r: RelayId, next: Option<Relay>, credit': map<Id, Credit>)
    requires CountsOk(relays, credit)
    requires forall q :: q != r ==> |Tagged(credit', Pledged(q))| == |Tagged(credit, Pledged(q))|
    requires forall m :: m in credit' && credit'[m].Pledged? && credit'[m].relay != r ==>
               m in credit && credit[m] == credit'[m]
    requires next.Some? && !next.value.Claiming? ==> next.value.acked == |Tagged(credit', Pledged(r))|
    requires next.None? || next.value.Claiming? ==> forall m :: m in credit' ==> credit'[m] != Pledged(r)
    ensures CountsOk(SetRelay(relays, r, next), credit')
  {
  }

  lemma AckAccount(rows: Rows, rows': Rows, hist: History, w: OutboxMessage, account: Credit)
    requires AccountOk(rows, hist) && w.id !in hist.credit && account != Returned
    requires PublishedIds(rows') == PublishedIds(rows) + {w.id}
    ensures AccountOk(rows', Book(hist, Some(w), account))
  {
    BookOne(hist, w, account);
  }

  lemma EndAccount(rows: Rows, rows': Rows, hist: History, me: Relay, r: RelayId, act: RelayAct)
    requires AccountOk(rows, hist) && Ready(me, act) && (act.Return? || act.Die?)
    requires PublishedIds(rows') == PublishedIds(rows)
    requires act.Return? ==> me.acked == |Tagged(hist.credit, Pledged(r))|
    ensures AccountOk(rows', Recorded(hist, r, me, act))
  {
    SettleMoves(hist.credit, r, if act.Return? then Returned else Lost);
  }

  lemma RelayAccount(rows: Rows, hist: History, me: Relay, r: RelayId, act: RelayAct)
    requires AccountOk(rows, hist) && BufferOk(rows, me) && Ready(me, act)
    requires act.Return? ==> me.acked == |Tagged(hist.credit, Pledged(r))|
    ensures AccountOk(WriteAll(rows, Flushed(me, act)), Recorded(hist, r, me, act))
  {
    var rows' := WriteAll(rows, Flushed(me, act));
    PublishedMoves(rows, me, act);
    if act.Return? || act.Die? {
      EndAccount(rows, rows', hist, me, r, act);
    } else if (act.AckCommit? || act.AckCommitLost?) && me.write.Some? {
      assert Ids(Flushed(me, act)) == {me.write.value.id};
      AckAccount(rows, rows', hist, me.write.value, if act.AckCommit? then Pledged(r) else Lost);
    }
  }

  lemma AckCounts(relays: map<RelayId, Relay>, hist: History, r: RelayId, next: Relay, w: OutboxMessage, account: Credit)
    requires CountsOk(relays, hist.credit) && r in relays && !relays[r].Claiming?
    requires w.id !in hist.credit && hist.acks == multiset(hist.credit.Keys)
    requires account == Pledged(r) || account == Lost
    requires !next.Claiming? && next.acked == relays[r].acked + if account == Lost then 0 else 1
    ensures CountsOk(relays[r := next], Book(hist, Some(w), account).credit)
  {
    BookOne(hist, w, account);
    CountsFollow(relays, hist.credit, r, Some(next), Book(hist, Some(w), account).credit);
  }

  lemma EndCounts(relays: map<RelayId, Relay>, credit: map<Id, Credit>, r: RelayId, to: Credit)
    requires CountsOk(relays, credit) && !to.Pledged?
    ensures CountsOk(relays - {r}, Settle(credit, r, to))
  {
    SettleMoves(credit, r, to);
    CountsFollow(relays, credit, r, None, Settle(credit, r, to));
  }

  lemma RelayCounts(rows: Rows, relays: map<RelayId, Relay>, hist: History, r: RelayId, act: RelayAct)
    requires AccountOk(rows, hist) && CountsOk(relays, hist.credit)
    requires r in relays && BufferOk(rows, relays[r]) && Ready(relays[r], act)
    ensures CountsOk(SetRelay(relays, r, Next(rows, relays[r], act)), Recorded(hist, r, relays[r], act).credit)
  {
    var me := relays[r];
    if act.Return? || act.Die? {
      EndCounts(relays, hist.credit, r, if act.Return? then Returned else Lost);
    } else if (act.AckCommit? || act.AckCommitLost?) && me.write.Some? {
      assert me.write.value.id !in PublishedIds(rows);
      AckCounts(relays, hist, r, Next(rows, me, act).value, me.write.value, if act.AckCommit? then Pledged(r) else Lost);
    } else {
      if act.ClaimCommit? {
        assert Tagged(hist.credit, Pledged(r)) == {};
      }
      CountsFollow(relays, hist.credit, r, Next(rows, me, act), hist.credit);
    }
  }

  // ---- all together --------------------------------------------------------------------------

  lemma RelayBuffers(s: State, r: RelayId, act: RelayAct)
    requires TableInv(s) && r in s.relays && Ready(s.relays[r], act)
    ensures var me := s.relays[r];
            BuffersOk(WriteAll(s.rows, Flushed(me, act)), SetRelay(s.relays, r, Next(s.rows, me, act)))
  {
    var me := s.relays[r];
    var rows' := WriteAll(s.rows, Flushed(me, act));
    RelayMovesRows(s.rows, me, act);
    NextBuffer(s.rows, s.hist.claims, me, act);
    forall q | q in s.relays && q != r
      ensures BufferOk(rows', s.relays[q])
    {
      HoldersDiffer(s.locks, s.relays, q, r);
      BufferFrame(s.rows, rows', HeldBy(me), s.relays[q]);
    }
  }

  /** Open transactions hold disjoint rows. */
  lemma HoldersDiffer(locks: map<Id, RelayId>, relays: map<RelayId, Relay>, q: RelayId, r: RelayId)
    requires LocksOk(locks, relays) && q in relays && r in relays && q != r
    ensures HeldBy(relays[q]) !! HeldBy(relays[r])
  {
    forall m | m in HeldBy(relays[q])
      ensures m !in HeldBy(relays[r])
    {
      assert locks[m] == q;
    }
  }

  /** The claim statement reads unlocked rows and buffers their leased versions. */
  lemma ClaimBuffers(rows: Rows, locked: set<Id>, owner: string, now: Time, until: Time, limit: nat)
    requires forall m :: m in rows ==> rows[m].id == m
    requires owner != "" && now < until
    ensures var models := ClaimModels(rows, locked, owner, now, until, limit);
            BufferOk(rows, Claiming(owner, models, now, until)) && Ids(models) !! locked
  {
    ClaimModelsAre(rows, locked, owner, now, until, limit);
  }

  /** A run that begins by claiming unlocked rows. */
  lemma StartKeeps(s: State, r: RelayId, me: Relay)
    requires Inv(s) && r !in s.relays && me.Claiming? && BufferOk(s.rows, me) && HeldBy(me) !! s.locks.Keys
    ensures Inv(s.(locks := Relock(s.locks, r, HeldBy(me)), relays := s.relays[r := me]))
  {
    RelockOk(s.locks, s.relays, r, Some(me));
    CountsFollow(s.relays, s.hist.credit, r, Some(me), s.hist.credit);
  }

  lemma ClaimStarts(s: State, r: RelayId, act: RelayAct) returns (me: Relay)
    requires RowsOk(s.rows, s.hist.claims) && RelayEnabled(s, r, act) && act.Claim?
    ensures me == Claiming(act.owner, ClaimModels(s.rows, s.locks.Keys, act.owner, act.now, act.now + act.lease, act.limit),
                           act.now, act.now + act.lease)
    ensures BufferOk(s.rows, me) && HeldBy(me) !! s.locks.Keys
    ensures RelayApply(s, r, act) == s.(locks := Relock(s.locks, r, HeldBy(me)), relays := s.relays[r := me])
  {
    var until := act.now + act.lease;
    ClaimBuffers(s.rows, s.locks.Keys, act.owner, act.now, until, act.limit);
    me := Claiming(act.owner, ClaimModels(s.rows, s.locks.Keys, act.owner, act.now, until, act.limit), act.now, until);
  }

  lemma ClaimKeeps(s: State, r: RelayId, act: RelayAct)
    requires Inv(s) && RelayEnabled(s, r, act) && act.Claim?
    ensures Inv(RelayApply(s, r, act))
  {
    var me := ClaimStarts(s, r, act);
    StartKeeps(s, r, me);
  }

  lemma RelayKeepsTable(s: State, r: RelayId, act: RelayAct)
    requires TableInv(s) && RelayEnabled(s, r, act) && !act.Claim?
    ensures TableInv(RelayApply(s, r, act))
  {
    NextHolds(s, r, act);
    RelockOk(s.locks, s.relays, r, Next(s.rows, s.relays[r], act));
    RelayBuffers(s, r, act);
    RelayRows(s.rows, s.relays[r], act, r, s.hist);
  }

  lemma RelayKeepsRest(s: State, r: RelayId, act: RelayAct)
    requires TableInv(s) && TaskInv(s) && QueueInv(s) && RelayEnabled(s, r, act) && !act.Claim?
    ensures TaskInv(RelayApply(s, r, act)) && QueueInv(RelayApply(s, r, act))
  {
    var me := s.relays[r];
    var rows' := WriteAll(s.rows, Flushed(me, act));
    RelayMovesRows(s.rows, me, act);
    LettersKeepPairing(s, rows');
    RelayQueue(s, r, act);
    RelayOffers(s, r, act);
    LettersKeepJobs(s.tasks, s.rows, rows', s.queue.ever, Offered(s.queue, me, act).ever, s.jobs);
  }

  lemma RelayKeepsCredit(s: State, r: RelayId, act: RelayAct)
    requires BuffersOk(s.rows, s.relays) && CreditInv(s) && RelayEnabled(s, r, act) && !act.Claim?
    ensures CreditInv(RelayApply(s, r, act))
  {
    RelayAccount(s.rows, s.hist, s.relays[r], r, act);
    RelayCounts(s.rows, s.relays, s.hist, r, act);
  }

  lemma RelayKeeps(s: State, r: RelayId, act: RelayAct)
    requires Inv(s) && RelayEnabled(s, r, act)
    ensures Inv(RelayApply(s, r, act))
  {
    if act.Claim? {
      ClaimKeeps(s, r, act);
    } else {
      RelayKeepsTable(s, r, act);
      RelayKeepsRest(s, r, act);
      RelayKeepsCredit(s, r, act);
    }
  }
}
