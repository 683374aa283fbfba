/** What every step of the outbox protocol keeps. */
module OutboxInvariant {
  import opened Basics
  import opened OutboxMessages
  import opened TaskStore
  import opened ClaimOrder
  import opened OutboxProtocol

  // ---- the invariant -----------------------------------------------------------------------

  /** A row is locked exactly when one live transaction holds it. */
  ghost predicate LocksOk(locks: map<Id, RelayId>, relays: map<RelayId, Relay>) {
    && (forall m :: m in locks ==> locks[m] in relays && m in HeldBy(relays[locks[m]]))
    && (forall r, m :: r in relays && m in HeldBy(relays[r]) ==> m in locks && locks[m] == r)
  }

  /** A detached message is still the letter of its row. */
  predicate Mirrors(rows: Rows, c: ClaimedMessage) {
    c.id in rows && c.topic == rows[c.id].topic && c.payload == rows[c.id].payload
  }

  /** A model read and changed by a claim: the row is as it was read, and the model is it leased. */
  predicate LeaseModel(rows: Rows, w: OutboxMessage, owner: string, now: Time, until: Time) {
    w.id in rows && Eligible(rows[w.id], now) && w == rows[w.id].Leased(owner, until)
  }

  /** An uncommitted write is the matching transition of the row as committed now. */
  ghost predicate BufferOk(rows: Rows, relay: Relay) {
    && relay.owner != ""
    && match relay
       case Claiming(owner, writes, now, until) =>
         && now < until
         && (forall i :: 0 <= i < |writes| ==> LeaseModel(rows, writes[i], owner, now, until))
         && (forall i, j :: 0 <= i < j < |writes| ==> writes[i].id != writes[j].id)
       case AtMessage(_, todo, _) => TodoOk(rows, todo)
       case Enqueued(_, todo, _) => TodoOk(rows, todo) && todo != []
       case Failing(_, todo, _) => TodoOk(rows, todo) && todo != []
       case Acking(owner, todo, _, write) =>
         && TodoOk(rows, todo) && todo != []
         && (write.Some? ==>
               && write.value.id == todo[0].id && LeasedBy(rows, todo[0].id, owner)
               && write.value.publishedAt.Some?
               && write.value == rows[todo[0].id].Published(write.value.publishedAt.value))
       case Recording(owner, todo, _, write) =>
         && TodoOk(rows, todo) && todo != []
         && (write.Some? ==>
               && write.value.id == todo[0].id && LeasedBy(rows, todo[0].id, owner)
               && write.value.lastError.Some?
               && write.value == rows[todo[0].id].Failed(write.value.lastError.value))
  }

  predicate TodoOk(rows: Rows, todo: seq<ClaimedMessage>) {
    forall i :: 0 <= i < |todo| ==> Mirrors(rows, todo[i])
  }

  ghost predicate BuffersOk(rows: Rows, relays: map<RelayId, Relay>) {
    forall r :: r in relays ==> BufferOk(rows, relays[r])
  }

  /** Every lease begins after the one before it has run out. */
  predicate Disjoint(leases: seq<Lease>) {
    && (forall i :: 0 <= i < |leases| ==> leases[i].from < leases[i].until)
    && (forall i :: 0 < i < |leases| ==> leases[i - 1].until <= leases[i].from)
  }

  predicate RowOk(m: Id, row: OutboxMessage, leases: seq<Lease>) {
    && row.id == m && row.topic == TASK_CREATED_TOPIC
    && (row.leaseOwner.None? <==> row.leaseExpiresAt.None?)
    && (row.publishedAt.Some? ==> row.leaseOwner.None? && row.lastError.None? && leases != [])
    && row.attemptCount == |leases|
    && Disjoint(leases)
    && (row.publishedAt.None? ==> (row.leaseExpiresAt.None? <==> leases == []))
    && (row.leaseExpiresAt.Some? ==> row.leaseExpiresAt.value == leases[|leases| - 1].until)
  }

  predicate RowsOk(rows: Rows, claims: map<Id, seq<Lease>>) {
    rows.Keys == claims.Keys && forall m :: m in rows ==> RowOk(m, rows[m], claims[m])
  }

  /** The task a row's payload names. */
  function Subject(row: OutboxMessage): int {
    match PayloadTask(row.payload)
    case Some(t) => t
    case None => 0
  }

  /** Tasks ever created and rows are paired one to one, through the payload. */
  ghost predicate PairingOk(tasks: Tasks, rows: Rows, origin: map<int, Id>) {
    && tasks.Keys <= origin.Keys
    && (forall t :: t in tasks ==> tasks[t].id == t)
    && (forall t :: t in origin ==> t >= 1 && origin[t] in rows && rows[origin[t]].payload == TaskPayload(t))
    && (forall m :: m in rows ==> Subject(rows[m]) in origin && origin[Subject(rows[m])] == m)
  }

  ghost predicate CreatesOk(rows: Rows, creates: map<TxId, Create>, origin: map<int, Id>) {
    && (forall x :: x in creates && !creates[x].Begun? ==>
          creates[x].task.id >= 1 && creates[x].task.id !in origin && creates[x].task.processedAt.None?)
    && (forall x :: x in creates && creates[x].BothAdded? ==>
          && creates[x].message.id !in rows
          && creates[x].message == NewMessage(creates[x].message.id, TASK_CREATED_TOPIC,
                                              TaskPayload(creates[x].task.id), creates[x].task.createdAt))
    && (forall x, y :: x in creates && y in creates && x != y && !creates[x].Begun? ==>
          !HoldsTask(creates[y], creates[x].task.id))
    && (forall x, y :: x in creates && y in creates && x != y && creates[x].BothAdded? ==>
          !HoldsMessage(creates[y], creates[x].message.id))
  }

  /** The queue has the job, gave up on it, or has nothing left to do for it. */
  predicate Covered(tasks: Tasks, rows: Rows, queue: Queue, m: Id) {
    m in queue.live || m in queue.exhausted || (m in rows && Settled(tasks, Subject(rows[m])))
  }

  ghost predicate QueueOk(tasks: Tasks, rows: Rows, queue: Queue) {
    && queue.ever <= rows.Keys && queue.live.Keys <= queue.ever && queue.exhausted <= queue.ever
    && (forall m :: m in queue.live ==> queue.live[m] == rows[m].payload)
    && (forall m :: m in queue.ever ==> Covered(tasks, rows, queue, m))
    && (forall m :: m in rows && rows[m].publishedAt.Some? ==> m in queue.ever)
  }

  ghost predicate JobsOk(tasks: Tasks, rows: Rows, ever: set<Id>, jobs: map<JobId, Job>) {
    forall j :: j in jobs ==>
      && jobs[j].key in ever && jobs[j].key in rows && jobs[j].payload == rows[jobs[j].key].payload
      && (jobs[j].Marked? ==> Settled(tasks, Subject(rows[jobs[j].key])))
  }

  /** A relay asks for an acknowledgement only after the queue accepted the key. */
  ghost predicate OfferedOk(ever: set<Id>, relays: map<RelayId, Relay>) {
    forall r :: r in relays && (relays[r].Enqueued? || relays[r].Acking?) && relays[r].todo != [] ==>
      relays[r].todo[0].id in ever
  }

  ghost function PublishedIds(rows: Rows): set<Id> {
    set m | m in rows && rows[m].publishedAt.Some?
  }

  ghost function Tagged(credit: map<Id, Credit>, c: Credit): set<Id> {
    set m | m in credit && credit[m] == c
  }

  /** Every published row is booked exactly once. */
  ghost predicate AccountOk(rows: Rows, hist: History) {
    && hist.credit.Keys == PublishedIds(rows)
    && hist.acks == multiset(hist.credit.Keys)
    && hist.returned == |Tagged(hist.credit, Returned)|
  }

  /** The count of every run in progress is what is booked to it. */
  ghost predicate CountsOk(relays: map<RelayId, Relay>, credit: map<Id, Credit>) {
    && (forall r :: r in relays && !relays[r].Claiming? ==> relays[r].acked == |Tagged(credit, Pledged(r))|)
    && (forall m :: m in credit && credit[m].Pledged? ==>
          credit[m].relay in relays && !relays[credit[m].relay].Claiming?)
  }

  /** The row table, its locks and the open relay transactions. */
  ghost predicate TableInv(s: State) {
    && LocksOk(s.locks, s.relays)
    && BuffersOk(s.rows, s.relays)
    && RowsOk(s.rows, s.hist.claims)
  }

  ghost predicate TaskInv(s: State) {
    && PairingOk(s.tasks, s.rows, s.hist.origin)
    && CreatesOk(s.rows, s.creates, s.hist.origin)
  }

  ghost predicate QueueInv(s: State) {
    && QueueOk(s.tasks, s.rows, s.queue)
    && JobsOk(s.tasks, s.rows, s.queue.ever, s.jobs)
    && OfferedOk(s.queue.ever, s.relays)
  }

  ghost predicate CreditInv(s: State) {
    AccountOk(s.rows, s.hist) && CountsOk(s.relays, s.hist.credit)
  }

  ghost predicate Inv(s: State) {
    TableInv(s) && TaskInv(s) && QueueInv(s) && CreditInv(s)
  }

  // ---- how the row table moves -------------------------------------------------------------

  /** Rows keep their letters; outside `ids` and the newly inserted ones, nothing changes. */
  ghost predicate Evolves(old_: Rows, new_: Rows, ids: set<Id>) {
    && old_.Keys <= new_.Keys
    && forall m :: m in old_ ==> new_[m].SameLetter(old_[m]) && (m !in ids ==> new_[m] == old_[m])
  }

  lemma BuffersFrame(rows: Rows, rows': Rows, ids: set<Id>, relays: map<RelayId, Relay>)
    requires BuffersOk(rows, relays) && Evolves(rows, rows', ids)
    requires forall r :: r in relays ==> HeldBy(relays[r]) !! ids
    ensures BuffersOk(rows', relays)
  {
    forall r | r in relays
      ensures BufferOk(rows', relays[r])
    {
      BufferFrame(rows, rows', ids, relays[r]);
    }
  }

  lemma BufferFrame(rows: Rows, rows': Rows, ids: set<Id>, relay: Relay)
    requires BufferOk(rows, relay) && Evolves(rows, rows', ids) && HeldBy(relay) !! ids
    ensures BufferOk(rows', relay)
  {
    if relay.Claiming? {
      forall i | 0 <= i < |relay.writes|
        ensures LeaseModel(rows', relay.writes[i], relay.owner, relay.now, relay.until)
      {
        assert relay.writes[i].id in HeldBy(relay);
        assert LeaseModel(rows, relay.writes[i], relay.owner, relay.now, relay.until);
      }
    } else {
      forall i | 0 <= i < |relay.todo|
        ensures Mirrors(rows', relay.todo[i])
      {
        assert Mirrors(rows, relay.todo[i]);
      }
    }
  }

  lemma {:induction false} WriteAllAt(rows: Rows, messages: seq<OutboxMessage>)
    requires forall i, j :: 0 <= i < j < |messages| ==> messages[i].id != messages[j].id
    ensures WriteAll(rows, messages).Keys == rows.Keys + Ids(messages)
    ensures forall i :: 0 <= i < |messages| ==> WriteAll(rows, messages)[messages[i].id] == messages[i]
    ensures forall m :: m in rows && m !in Ids(messages) ==> WriteAll(rows, messages)[m] == rows[m]
  {
    if messages != [] {
      var n := |messages| - 1;
      WriteAllAt(rows, messages[..n]);
      assert messages == messages[..n] + [messages[n]];
      assert Ids(messages) == Ids(messages[..n]) + {messages[n].id};
    }
  }

  function IdList(messages: seq<OutboxMessage>): (ids: seq<Id>)
    ensures |ids| == |messages|
  {
    seq(|messages|, i requires 0 <= i < |messages| => messages[i].id)
  }

  /** The models of a claim: the head of the candidate rows, each leased, in order. */
  lemma ClaimModelsAre(rows: Rows, locked: set<Id>, owner: string, now: Time, until: Time, limit: nat)
    requires forall m :: m in rows ==> rows[m].id == m
    ensures var pool := Candidates(rows, locked, now);
            var models := ClaimModels(rows, locked, owner, now, until, limit);
            && IsHead(rows, pool, limit, Take(rows, pool, limit))
            && IdList(models) == Take(rows, pool, limit)
            && (forall i :: 0 <= i < |models| ==>
                  && models[i].id in pool
                  && LeaseModel(rows, models[i], owner, now, until))
            && (forall i, j :: 0 <= i < j < |models| ==> models[i].id != models[j].id)
  {
    TakeIsHead(rows, Candidates(rows, locked, now), limit);
  }
}
