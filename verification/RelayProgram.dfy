/**
 relay_once and its repository calls as imperative code over a mutable database, run under
 interference: between any two statements other transactions, relays and workers may take any
 steps of the protocol. Each method carries out the protocol steps named in its contract.
 */
module RelayProgram {
  import opened Basics
  import opened OutboxMessages
  import opened ClaimOrder
  import opened OutboxProtocol
  import opened OutboxPaths
  import Transactions

  /** How queue.enqueue ends; `taken` says whether the queue accepted the key all the same. */
  datatype Reply = Accepted | Refused(taken: bool) | Stopped(taken: bool)
  {
    predicate Takes() {
      Accepted? || taken
    }
  }

  datatype RelayError = OwnerRequired | LeaseNotPositive | LimitOutOfRange | ClaimFailed | FailureNotRecorded | WasCancelled

  /** The result of relay_once: its count, or the exception it lets through. */
  datatype RelayResult = Result(count: nat) | Raises(error: RelayError)

  /** How one part of the loop body ends. */
  datatype End = Done(matched: bool) | Error | Cancelled

  /** What the environment does to one message: the answer of the queue, how the two transactions end, an update that
      gives up on a row lock being one that failed, the clock reading `at` of the acknowledgement and the text `error` of
      the exception, if there is one. */
  datatype Luck = Luck(reply: Reply, ack: Transactions.Outcome, at: Time, record: Transactions.Outcome, error: string)

  /** How publish_message ends: a topic without a job raises before the queue is asked. */
  function PublishEnd(message: ClaimedMessage, reply: Reply): End {
    if JobName(message.topic).None? then Error
    else match reply case Accepted => Done(true) case Refused(_) => Error case Stopped(_) => Cancelled
  }

  /** A cancellation reaches the publication or the acknowledgement of the message. */
  predicate Cancels(message: ClaimedMessage, luck: Luck) {
    var end := PublishEnd(message, luck.reply);
    end.Cancelled? || (end.Done? && luck.ack.Interrupted?)
  }

  /** The message is published and its acknowledgement reported as committed. */
  predicate Succeeds(message: ClaimedMessage, luck: Luck) {
    PublishEnd(message, luck.reply).Done? && luck.ack.Committed?
  }

  /** The exception that ends the run at this message, None where it goes on to the next. */
  function Stop(message: ClaimedMessage, luck: Luck): Option<RelayError> {
    if Cancels(message, luck) then Some(WasCancelled)
    else if Succeeds(message, luck) || luck.record.Committed? then None
    else Some(FailureNotRecorded)
  }

  /** Which replies and outcomes publish a message, which cancel the run there and which lose the failure record. */
  lemma OutcomesAre(message: ClaimedMessage, luck: Luck)
    ensures var known := message.topic == "task.created.v1";
            var cancelled := known && (luck.reply.Stopped? || (luck.reply.Accepted? && luck.ack.Interrupted?));
            var published := known && luck.reply.Accepted? && luck.ack.Committed?;
            && (PublishEnd(message, luck.reply) == Done(true) <==> known && luck.reply.Accepted?)
            && (PublishEnd(message, luck.reply) == Cancelled <==> known && luck.reply.Stopped?)
            && (PublishEnd(message, luck.reply) == Error <==> !known || luck.reply.Refused?)
            && (Cancels(message, luck) <==> cancelled) && (Succeeds(message, luck) <==> published)
            && (Stop(message, luck) == Some(WasCancelled) <==> cancelled)
            && (Stop(message, luck) == Some(FailureNotRecorded) <==> !cancelled && !published && !luck.record.Committed?)
            && (Stop(message, luck) == None <==> published || (!cancelled && luck.record.Committed?))
            && (luck.reply.Takes() <==> luck.reply.Accepted? || luck.reply.taken)
            && (luck.ack.Lands() <==> luck.ack.Committed? || luck.ack.landed)
  {
  }

  /** The place of the first message that ends the run, the length of the batch if none does. */
  function StopsAt(batch: seq<ClaimedMessage>, luck: nat -> Luck, i: nat): (n: nat)
    requires i <= |batch|
    ensures i <= n <= |batch|
    ensures forall j :: i <= j < n ==> Stop(batch[j], luck(j)).None?
    ensures n < |batch| ==> Stop(batch[n], luck(n)).Some?
    decreases |batch| - i
  {
    if i == |batch| || Stop(batch[i], luck(i)).Some? then i else StopsAt(batch, luck, i + 1)
  }

  /** A row loaded into a session, changed in place. */
  class OutboxModel {
    const id: Id
    const topic: string
    const payload: Json
    const createdAt: Time
    var publishedAt: Option<Time>
    var leaseOwner: Option<string>
    var leaseExpiresAt: Option<Time>
    var attemptCount: nat
    var lastError: Option<string>

    constructor (row: OutboxMessage)
      ensures Value() == row
    {
      id, topic, payload, createdAt := row.id, row.topic, row.payload, row.createdAt;
      publishedAt, leaseOwner, leaseExpiresAt := row.publishedAt, row.leaseOwner, row.leaseExpiresAt;
      attemptCount, lastError := row.attemptCount, row.lastError;
    }

    function Value(): OutboxMessage
      reads this
    {
      OutboxMessage(id, topic, payload, createdAt, publishedAt, leaseOwner, leaseExpiresAt, attemptCount, lastError)
    }
  }

  function Values(models: seq<OutboxModel>): (rows: seq<OutboxMessage>)
    reads models
    ensures |rows| == |models|
  {
    seq(|models|, i requires 0 <= i < |models| reads models => models[i].Value())
  }

  predicate Distinct(models: seq<OutboxModel>) {
    forall i, j :: 0 <= i < j < |models| ==> models[i] != models[j]
  }

  /** The loop of claim_batch over its models. */
  method LeaseModels(models: seq<OutboxModel>, owner: string, until: Time)
    requires Distinct(models)
    modifies models
    ensures forall k :: 0 <= k < |models| ==>
              var row := old(models[k].Value());
              && models[k].Value() == row.(leaseOwner := Some(owner), leaseExpiresAt := Some(until),
                                           attemptCount := row.attemptCount + 1, lastError := None)
              && models[k].Value() == row.Leased(owner, until)
  {
    for i := 0 to |models|
      invariant forall k :: 0 <= k < i ==> models[k].Value() == old(models[k].Value()).Leased(owner, until)
      invariant forall k :: i <= k < |models| ==> models[k].Value() == old(models[k].Value())
    {
      models[i].leaseOwner := Some(owner);
      models[i].leaseExpiresAt := Some(until);
      models[i].attemptCount := models[i].attemptCount + 1;
      models[i].lastError := None;
    }
  }

  /** What a claim step does to the table and its locks. */
  lemma ClaimStarts(s: State, r: RelayId, act: RelayAct, models: seq<OutboxMessage>)
    requires RelayEnabled(s, r, act) && act.Claim?
    requires models == ClaimModels(s.rows, s.locks.Keys, act.owner, act.now, act.now + act.lease, act.limit)
    ensures RelayApply(s, r, act).rows == s.rows && RelayApply(s, r, act).locks == Relock(s.locks, r, Ids(models))
    ensures r in RelayApply(s, r, act).relays
    ensures RelayApply(s, r, act).relays[r] == Claiming(act.owner, models, act.now, act.now + act.lease)
  {
  }

  /** The committed outbox table with its lock table; `world` is the protocol state they are part of. */
  class Database {
    var rows: Rows
    var locks: map<Id, RelayId>
    ghost var world: State

    ghost predicate Valid()
      reads this
    {
      rows == world.rows && locks == world.locks && Reached(world)
    }

    /** Anything may happen here, except a step of run r. */
    method Interfere(r: RelayId) returns (ghost others: seq<Step>)
      requires Valid()
      modifies this
      ensures Valid() && Leads(old(world), others, world) && Foreign(others, r)
    {
      others := [];
      LeadsNowhere(world);
    }

    /** An UPDATE of run r comes to its row: anything may happen first. If its WHERE clause then matches the row and
        another transaction has it locked, it waits, and anything may happen until that transaction ends. */
    method ReachRow(r: RelayId, m: Id, owner: string) returns (ghost others: seq<Step>)
      requires Valid() && r in world.relays && HeldBy(world.relays[r]) == {}
      modifies this
      ensures Valid() && Leads(old(world), others, world) && Foreign(others, r)
      ensures LeasedBy(rows, m, owner) ==> m !in locks
    {
      others := Interfere(r);
      ForeignKeepsRun(old(world), others, world, r);
      if m in rows && rows[m].leaseOwner == Some(owner) && rows[m].publishedAt.None? && m in locks {
        ReachedTable(world);
        var q := locks[m];
        LeadsActs(old(world), others, world, q, Die);
        Rollback(q, Die);
        others := others + [RelayStep(q, Die)];
      }
    }

    /** session.scalars(SELECT ... FOR UPDATE SKIP LOCKED).all(): the matching rows, locked and loaded. */
    method SelectForClaim(r: RelayId, now: Time, limit: nat) returns (models: seq<OutboxModel>)
      modifies this`locks
      ensures var ids := Take(rows, Candidates(rows, old(locks).Keys, now), limit);
              && |models| == |ids|
              && (forall i :: 0 <= i < |models| ==> ids[i] in rows && models[i].Value() == rows[ids[i]])
              && locks == Relock(old(locks), r, Elems(ids))
      ensures Distinct(models) && fresh(models)
    {
      TakeIsHead(rows, Candidates(rows, locks.Keys, now), limit);
      var ids := Take(rows, Candidates(rows, locks.Keys, now), limit);
      models := [];
      for i := 0 to |ids|
        invariant |models| == i && Distinct(models) && fresh(models) && locks == old(locks)
        invariant forall k :: 0 <= k < i ==> models[k].Value() == rows[ids[k]]
      {
        var model := new OutboxModel(rows[ids[i]]);
        models := models + [model];
      }
      locks := Relock(locks, r, Elems(ids));
    }

    /** The statements of claim_batch before its flush. */
    method LeaseHead(r: RelayId, owner: string, now: Time, until: Time, limit: nat) returns (models: seq<OutboxModel>)
      requires forall m :: m in rows ==> rows[m].id == m
      modifies this`locks
      ensures Values(models) == ClaimModels(rows, old(locks).Keys, owner, now, until, limit)
      ensures locks == Relock(old(locks), r, Ids(Values(models)))
      ensures fresh(models)
    {
      ghost var ids := Take(rows, Candidates(rows, locks.Keys, now), limit);
      models := SelectForClaim(r, now, limit);
      LeaseModels(models, owner, until);
      assert forall i :: 0 <= i < |ids| ==> Values(models)[i] == rows[ids[i]].Leased(owner, until);
      LeasedHead(rows, old(locks).Keys, owner, now, until, limit, Values(models));
    }

    /** SqlAlchemyOutboxRepository.claim_batch. */
    method ClaimBatch(r: RelayId, owner: string, now: Time, until: Time, limit: nat) returns (models: seq<OutboxModel>)
      requires Valid() && RelayEnabled(world, r, Claim(owner, now, until - now, limit))
      modifies this
      ensures Valid() && world == RelayApply(old(world), r, Claim(owner, now, until - now, limit))
      ensures Values(models) == ClaimModels(old(rows), old(locks).Keys, owner, now, until, limit)
      ensures fresh(models)
    {
      ReachedTable(world);
      models := LeaseHead(r, owner, now, until, limit);
      ClaimStarts(world, r, Claim(owner, now, until - now, limit), Values(models));
      ReachedActs(world, r, Claim(owner, now, until - now, limit));
      world := RelayApply(world, r, Claim(owner, now, until - now, limit));
    }

    /** session.commit() of run r's open transaction: its writes land, its locks go. */
    method Commit(r: RelayId, writes: seq<OutboxMessage>, ghost act: RelayAct)
      requires Valid() && RelayEnabled(world, r, act) && !act.Claim?
      requires Flushed(world.relays[r], act) == writes && Held(Next(world.rows, world.relays[r], act)) == {}
      modifies this
      ensures Valid() && world == RelayApply(old(world), r, act)
    {
      ReachedActs(world, r, act);
      rows := WriteAll(rows, writes);
      locks := Relock(locks, r, {});
      world := RelayApply(world, r, act);
    }

    /** session.rollback(), or the end of a run without a transaction: its locks go. */
    method Rollback(r: RelayId, ghost act: RelayAct)
      requires Valid() && RelayEnabled(world, r, act) && !act.Claim?
      requires Flushed(world.relays[r], act) == [] && Held(Next(world.rows, world.relays[r], act)) == {}
      modifies this
      ensures Valid() && world == RelayApply(old(world), r, act)
    {
      ReachedActs(world, r, act);
      locks := Relock(locks, r, {});
      world := RelayApply(world, r, act);
    }

    /** SqlAlchemyOutboxRepository.mark_published, once the row's lock is free. */
    method MarkPublished(r: RelayId, m: Id, owner: string, at: Time) returns (write: Option<OutboxMessage>)
      requires Valid() && RelayEnabled(world, r, Ack(at))
      requires world.relays[r].owner == owner && world.relays[r].todo[0].id == m
      modifies this
      ensures Valid() && world == RelayApply(old(world), r, Ack(at))
      ensures write == AckWrite(old(rows), m, owner, at) && rows == old(rows)
    {
      ReachedActs(world, r, Ack(at));
      write := None;
      if m in rows && rows[m].leaseOwner == Some(owner) && rows[m].publishedAt.None? {
        write := Some(rows[m].(publishedAt := Some(at), leaseOwner := None, leaseExpiresAt := None, lastError := None));
      }
      locks := Relock(locks, r, if write.Some? then {write.value.id} else {});
      world := RelayApply(world, r, Ack(at));
    }

    /** SqlAlchemyOutboxRepository.mark_failed, once the row's lock is free. */
    method MarkFailed(r: RelayId, m: Id, owner: string, error: string) returns (write: Option<OutboxMessage>)
      requires Valid() && RelayEnabled(world, r, Fail(error))
      requires world.relays[r].owner == owner && world.relays[r].todo[0].id == m
      modifies this
      ensures Valid() && world == RelayApply(old(world), r, Fail(error))
      ensures write == FailWrite(old(rows), m, owner, error) && rows == old(rows)
    {
      ReachedActs(world, r, Fail(error));
      write := None;
      if m in rows && rows[m].leaseOwner == Some(owner) && rows[m].publishedAt.None? {
        write := Some(rows[m].(lastError := Some(SafeError(error))));
      }
      locks := Relock(locks, r, if write.Some? then {write.value.id} else {});
      world := RelayApply(world, r, Fail(error));
    }
  }

  lemma LeasedHead(
      rows: Rows, locked: set<Id>, owner: string, now: Time, until: Time, limit: nat, models: seq<OutboxMessage>)
    requires forall m :: m in rows ==> rows[m].id == m
    requires var ids := Take(rows, Candidates(rows, locked, now), limit);
             |models| == |ids|
             && forall i :: 0 <= i < |ids| ==> ids[i] in rows && models[i] == rows[ids[i]].Leased(owner, until)
    ensures models == ClaimModels(rows, locked, owner, now, until, limit)
    ensures Elems(Take(rows, Candidates(rows, locked, now), limit)) == Ids(models)
  {
    SameIds(Take(rows, Candidates(rows, locked, now), limit), models);
  }

  lemma SameIds(ids: seq<Id>, models: seq<OutboxMessage>)
    requires |models| == |ids| && forall i :: 0 <= i < |ids| ==> models[i].id == ids[i]
    ensures Elems(ids) == Ids(models)
  {
    forall m
      ensures m in Elems(ids) <==> m in Ids(models)
    {
      if m in Elems(ids) {
        var i :| 0 <= i < |ids| && ids[i] == m;
        assert models[i].id == m;
      }
    }
  }

  /** Interference, then one act of run r that needs no lock and commits nothing. */
  method Proceed(db: Database, r: RelayId, ghost act: RelayAct) returns (ghost steps: seq<Step>)
    requires db.Valid() && r in db.world.relays && Ready(db.world.relays[r], act)
    requires act.EnqueueFail? || act.AckAbort? || act.Die?
    modifies db
    ensures db.Valid() && Leads(old(db.world), steps, db.world)
    ensures Next(old(db.world).rows, old(db.world).relays[r], act)
         == if r in db.world.relays then Some(db.world.relays[r]) else None
  {
    steps := db.Interfere(r);
    ForeignKeepsRun(old(db.world), steps, db.world, r);
    LeadsActs(old(db.world), steps, db.world, r, act);
    db.Rollback(r, act);
    steps := steps + [RelayStep(r, act)];
  }

  /** publish_message: the job's name is looked up and the key offered to the queue. */
  method PublishMessage(db: Database, r: RelayId, message: ClaimedMessage, reply: Reply)
    returns (end: End, ghost steps: seq<Step>)
    requires db.Valid() && r in db.world.relays && db.world.relays[r].AtMessage?
    requires db.world.relays[r].todo != [] && db.world.relays[r].todo[0] == message
    modifies db
    ensures db.Valid() && Leads(old(db.world), steps, db.world)
    ensures end == PublishEnd(message, reply)
    ensures message.topic == "task.created.v1" ==>
              && (reply.Accepted? ==> end == Done(true)) && (reply.Refused? ==> end == Error)
              && (reply.Stopped? ==> end == Cancelled)
    ensures message.topic != "task.created.v1" ==> end == Error
    ensures JobName(message.topic).Some? && reply.Takes() ==> message.id in db.world.queue.ever
    ensures var me := old(db.world).relays[r];
            match end
            case Done(_) => r in db.world.relays && db.world.relays[r] == Enqueued(me.owner, me.todo, me.acked)
            case Error => r in db.world.relays && db.world.relays[r] == Failing(me.owner, me.todo, me.acked)
            case Cancelled => r !in db.world.relays
  {
    if JobName(message.topic).None? || (reply.Refused? && !reply.taken) {
      steps := Proceed(db, r, EnqueueFail);
      end := Error;
    } else if reply.Stopped? && !reply.taken {
      steps := Proceed(db, r, Die);
      end := Cancelled;
    } else {
      steps := Offer(db, r, message, reply);
      end := if reply.Accepted? then Done(true) else Error;
      if reply.Stopped? {
        ghost var middle := db.world;
        ghost var last := Proceed(db, r, Die);
        LeadsKeepsOffers(middle, last, db.world);
        LeadsOn(old(db.world), steps, middle, last, db.world);
        steps := steps + last;
        end := Cancelled;
      }
    }
  }

  /** The queue takes the key, and says so or not. */
  method Offer(db: Database, r: RelayId, message: ClaimedMessage, reply: Reply) returns (ghost steps: seq<Step>)
    requires db.Valid() && r in db.world.relays && db.world.relays[r].AtMessage?
    requires db.world.relays[r].todo != [] && db.world.relays[r].todo[0] == message
    requires JobName(message.topic).Some?
    modifies db
    ensures db.Valid() && Leads(old(db.world), steps, db.world) && message.id in db.world.queue.ever
    ensures r in db.world.relays
    ensures var me := old(db.world).relays[r];
            db.world.relays[r] == if reply.Accepted? then Enqueued(me.owner, me.todo, me.acked)
                                  else Failing(me.owner, me.todo, me.acked)
  {
    ghost var novel: bool := *;
    steps := db.Interfere(r);
    ForeignKeepsRun(old(db.world), steps, db.world, r);
    ghost var known := novel || message.id !in db.world.queue.ever;
    ghost var act := if reply.Accepted? then Enqueue(known) else EnqueueLost(known);
    LeadsActs(old(db.world), steps, db.world, r, act);
    db.Rollback(r, act);
    steps := steps + [RelayStep(r, act)];
  }

  /** runner.run(acknowledge_message). `updated` is the state in which its update runs, if the transaction lands. */
  method Acknowledge(db: Database, r: RelayId, m: Id, owner: string, at: Time, outcome: Transactions.Outcome)
    returns (end: End, ghost steps: seq<Step>, ghost updated: State)
    requires db.Valid() && r in db.world.relays && db.world.relays[r].Enqueued? && db.world.relays[r].owner == owner
    requires db.world.relays[r].todo != [] && db.world.relays[r].todo[0].id == m
    modifies db
    ensures db.Valid() && Leads(old(db.world), steps, db.world)
    ensures (end.Done? <==> outcome.Committed?) && (end.Cancelled? <==> outcome.Interrupted?)
    ensures outcome.Lands() ==>
              && Passes(old(db.world), updated, db.world)
              && r in updated.relays && updated.relays[r] == old(db.world).relays[r]
              && (LeasedBy(updated.rows, m, owner) ==> PublishedSince(updated, db.world, m, at))
    ensures end.Done? ==> (end.matched <==> LeasedBy(updated.rows, m, owner))
    ensures var me := old(db.world).relays[r];
            match end
            case Done(matched) =>
              r in db.world.relays
              && db.world.relays[r] == AtMessage(owner, me.todo[1..], me.acked + if matched then 1 else 0)
            case Error => r in db.world.relays && db.world.relays[r] == Failing(owner, me.todo, me.acked)
            case Cancelled => r !in db.world.relays
  {
    var reaches: bool := *;
    if !outcome.Lands() && !reaches {
      steps := Proceed(db, r, if outcome.Interrupted? then Die else AckAbort);
      end := if outcome.Interrupted? then Cancelled else Error;
      updated := db.world;
    } else {
      steps := db.ReachRow(r, m, owner);
      ForeignKeepsRun(old(db.world), steps, db.world, r);
      updated := db.world;
      ghost var rest: seq<Step>;
      end, rest := FinishAck(db, r, m, owner, at, outcome);
      PassesBetween(old(db.world), steps, updated, rest, db.world);
      LeadsOn(old(db.world), steps, updated, rest, db.world);
      steps := steps + rest;
    }
  }

  /** The row of s is published in t with this time, without lease and error, and otherwise as it was. */
  ghost predicate PublishedSince(s: State, t: State, m: Id, at: Time) {
    && m in s.rows && m in t.rows
    && t.rows[m] == s.rows[m].(publishedAt := Some(at), leaseOwner := None, leaseExpiresAt := None, lastError := None)
  }

  /** The acknowledgement's UPDATE, then the end of its transaction. */
  method FinishAck(db: Database, r: RelayId, m: Id, owner: string, at: Time, outcome: Transactions.Outcome)
    returns (end: End, ghost steps: seq<Step>)
    requires db.Valid() && r in db.world.relays && db.world.relays[r].Enqueued? && db.world.relays[r].owner == owner
    requires db.world.relays[r].todo != [] && db.world.relays[r].todo[0].id == m
    requires LeasedBy(db.rows, m, owner) ==> m !in db.locks
    modifies db
    ensures db.Valid() && Leads(old(db.world), steps, db.world)
    ensures (end.Done? <==> outcome.Committed?) && (end.Cancelled? <==> outcome.Interrupted?)
    ensures outcome.Lands() && LeasedBy(old(db.world).rows, m, owner) ==> PublishedSince(old(db.world), db.world, m, at)
    ensures end.Done? ==> (end.matched <==> LeasedBy(old(db.world).rows, m, owner))
    ensures var me := old(db.world).relays[r];
            match end
            case Done(matched) =>
              r in db.world.relays
              && db.world.relays[r] == AtMessage(owner, me.todo[1..], me.acked + if matched then 1 else 0)
            case Error => r in db.world.relays && db.world.relays[r] == Failing(owner, me.todo, me.acked)
            case Cancelled => r !in db.world.relays
  {
    LeadsNowhere(db.world);
    LeadsActs(db.world, [], db.world, r, Ack(at));
    ReachedTable(db.world);
    var write := db.MarkPublished(r, m, owner, at);
    steps := [] + [RelayStep(r, Ack(at))];
    ghost var middle := db.world;
    ghost var rest: seq<Step>;
    end, rest := EndAck(db, r, write, outcome);
    LeadsOn(old(db.world), steps, middle, rest, db.world);
    steps := steps + rest;
  }

  method EndAck(db: Database, r: RelayId, write: Option<OutboxMessage>, outcome: Transactions.Outcome)
    returns (end: End, ghost steps: seq<Step>)
    requires db.Valid() && r in db.world.relays && db.world.relays[r].Acking? && db.world.relays[r].write == write
    requires db.world.relays[r].todo != [] && (write.Some? ==> write.value.publishedAt.Some?)
    modifies db
    ensures db.Valid() && Leads(old(db.world), steps, db.world)
    ensures (end.Done? <==> outcome.Committed?) && (end.Cancelled? <==> outcome.Interrupted?)
    ensures outcome.Lands() && write.Some? ==>
              write.value.id in db.world.rows && db.world.rows[write.value.id] == write.value
    ensures end.Done? ==> end.matched == write.Some?
    ensures var me := old(db.world).relays[r];
            match end
            case Done(matched) =>
              r in db.world.relays
              && db.world.relays[r] == AtMessage(me.owner, me.todo[1..], me.acked + if matched then 1 else 0)
            case Error => r in db.world.relays && db.world.relays[r] == Failing(me.owner, me.todo, me.acked)
            case Cancelled => r !in db.world.relays
  {
    if outcome.Lands() {
      steps := CommitAck(db, r, write, outcome);
      end := if outcome.Committed? then Done(write.Some?) else Error;
      if outcome.Interrupted? {
        ghost var middle := db.world;
        ghost var last := Proceed(db, r, Die);
        if write.Some? { LeadsKeepsPublished(middle, last, db.world, write.value.id); }
        LeadsOn(old(db.world), steps, middle, last, db.world);
        steps := steps + last;
        end := Cancelled;
      }
    } else {
      steps := Proceed(db, r, if outcome.Interrupted? then Die else AckAbort);
      end := if outcome.Interrupted? then Cancelled else Error;
    }
  }

  /** The commit of the acknowledgement, reported or not. */
  method CommitAck(db: Database, r: RelayId, write: Option<OutboxMessage>, outcome: Transactions.Outcome)
    returns (ghost steps: seq<Step>)
    requires db.Valid() && r in db.world.relays && db.world.relays[r].Acking? && db.world.relays[r].write == write
    requires db.world.relays[r].todo != []
    modifies db
    ensures db.Valid() && Leads(old(db.world), steps, db.world)
    ensures write.Some? ==> write.value.id in db.world.rows && db.world.rows[write.value.id] == write.value
    ensures r in db.world.relays
    ensures var me := old(db.world).relays[r];
            db.world.relays[r] == if outcome.Committed? then AtMessage(me.owner, me.todo[1..], me.acked + if write.Some? then 1 else 0)
                                  else Failing(me.owner, me.todo, me.acked)
  {
    var writes := if write.Some? then [write.value] else [];
    steps := db.Interfere(r);
    ForeignKeepsRun(old(db.world), steps, db.world, r);
    ghost var act := if outcome.Committed? then AckCommit else AckCommitLost;
    LeadsActs(old(db.world), steps, db.world, r, act);
    if write.Some? { OneWrite(db.world.rows, write.value); }
    db.Commit(r, writes, act);
    steps := steps + [RelayStep(r, act)];
  }

  lemma OneWrite(rows: Rows, w: OutboxMessage)
    ensures WriteAll(rows, [w]) == rows[w.id := w]
  {
    assert [w][..0] == [];
  }

  /** runner.run(fail_message): any exception of its own ends the run. `updated` is the state in which its update runs
      and `written` the one right after the commit, if the transaction lands. */
  method RecordFailure(db: Database, r: RelayId, m: Id, owner: string, error: string, outcome: Transactions.Outcome)
    returns (recorded: bool, ghost steps: seq<Step>, ghost updated: State, ghost written: State)
    requires db.Valid() && r in db.world.relays && db.world.relays[r].Failing? && db.world.relays[r].owner == owner
    requires db.world.relays[r].todo != [] && db.world.relays[r].todo[0].id == m
    modifies db
    ensures db.Valid() && Leads(old(db.world), steps, db.world)
    ensures recorded <==> outcome.Committed?
    ensures outcome.Lands() ==>
              && Passes(old(db.world), updated, db.world)
              && r in updated.relays && updated.relays[r] == old(db.world).relays[r]
              && (LeasedBy(updated.rows, m, owner) ==>
                    Passes(updated, written, db.world) && FailedWith(updated, written, m, error))
    ensures var me := old(db.world).relays[r];
            if recorded
            then r in db.world.relays && db.world.relays[r] == AtMessage(owner, me.todo[1..], me.acked)
            else r !in db.world.relays
  {
    var reaches: bool := *;
    if !outcome.Lands() && !reaches {
      steps := Proceed(db, r, Die);
      recorded, updated, written := false, db.world, db.world;
    } else {
      steps := db.ReachRow(r, m, owner);
      ForeignKeepsRun(old(db.world), steps, db.world, r);
      updated := db.world;
      ghost var rest: seq<Step>;
      recorded, rest, written := FinishFailure(db, r, m, owner, error, outcome);
      PassesBetween(old(db.world), steps, updated, rest, db.world);
      LeadsOn(old(db.world), steps, updated, rest, db.world);
      steps := steps + rest;
    }
  }

  /** The row of s has this error text recorded in t, and otherwise is as it was. */
  ghost predicate FailedWith(s: State, t: State, m: Id, error: string) {
    m in s.rows && m in t.rows && t.rows[m] == s.rows[m].(lastError := Some(SafeError(error)))
  }

  method FinishFailure(db: Database, r: RelayId, m: Id, owner: string, error: string, outcome: Transactions.Outcome)
    returns (recorded: bool, ghost steps: seq<Step>, ghost written: State)
    requires db.Valid() && r in db.world.relays && db.world.relays[r].Failing? && db.world.relays[r].owner == owner
    requires db.world.relays[r].todo != [] && db.world.relays[r].todo[0].id == m
    requires LeasedBy(db.rows, m, owner) ==> m !in db.locks
    modifies db
    ensures db.Valid() && Leads(old(db.world), steps, db.world)
    ensures recorded <==> outcome.Committed?
    ensures outcome.Lands() && LeasedBy(old(db.world).rows, m, owner) ==>
              Passes(old(db.world), written, db.world) && FailedWith(old(db.world), written, m, error)
    ensures var me := old(db.world).relays[r];
            if recorded
            then r in db.world.relays && db.world.relays[r] == AtMessage(owner, me.todo[1..], me.acked)
            else r !in db.world.relays
  {
    LeadsNowhere(db.world);
    LeadsActs(db.world, [], db.world, r, Fail(error));
    ReachedTable(db.world);
    var write := db.MarkFailed(r, m, owner, error);
    steps := [] + [RelayStep(r, Fail(error))];
    ghost var middle := db.world;
    ghost var rest: seq<Step>;
    recorded, rest, written := EndFailure(db, r, write, outcome);
    if outcome.Lands() { PassesFrom(old(db.world), steps, middle, written, db.world); }
    LeadsOn(old(db.world), steps, middle, rest, db.world);
    steps := steps + rest;
  }

  method EndFailure(db: Database, r: RelayId, write: Option<OutboxMessage>, outcome: Transactions.Outcome)
    returns (recorded: bool, ghost steps: seq<Step>, ghost written: State)
    requires db.Valid() && r in db.world.relays && db.world.relays[r].Recording? && db.world.relays[r].write == write
    requires db.world.relays[r].todo != []
    modifies db
    ensures db.Valid() && Leads(old(db.world), steps, db.world)
    ensures recorded <==> outcome.Committed?
    ensures outcome.Lands() ==>
              && Passes(old(db.world), written, db.world)
              && (write.Some? ==> write.value.id in written.rows && written.rows[write.value.id] == write.value)
    ensures var me := old(db.world).relays[r];
            if recorded
            then r in db.world.relays && db.world.relays[r] == AtMessage(me.owner, me.todo[1..], me.acked)
            else r !in db.world.relays
  {
    steps := [];
    LeadsNowhere(db.world);
    if outcome.Lands() {
      steps := CommitFailure(db, r, write);
    }
    written := db.world;
    LeadsNowhere(written);
    PassesBetween(old(db.world), steps, written, [], written);
    recorded := outcome.Committed?;
    if !recorded {
      ghost var last := Proceed(db, r, Die);
      PassesBetween(old(db.world), steps, written, last, db.world);
      LeadsOn(old(db.world), steps, written, last, db.world);
      steps := steps + last;
    }
  }

  /** The commit of the failure record. */
  method CommitFailure(db: Database, r: RelayId, write: Option<OutboxMessage>) returns (ghost steps: seq<Step>)
    requires db.Valid() && r in db.world.relays && db.world.relays[r].Recording? && db.world.relays[r].write == write
    requires db.world.relays[r].todo != []
    modifies db
    ensures db.Valid() && Leads(old(db.world), steps, db.world)
    ensures write.Some? ==> write.value.id in db.world.rows && db.world.rows[write.value.id] == write.value
    ensures r in db.world.relays
    ensures var me := old(db.world).relays[r]; db.world.relays[r] == AtMessage(me.owner, me.todo[1..], me.acked)
  {
    var writes := if write.Some? then [write.value] else [];
    steps := db.Interfere(r);
    ForeignKeepsRun(old(db.world), steps, db.world, r);
    LeadsActs(old(db.world), steps, db.world, r, FailCommit);
    if write.Some? { OneWrite(db.world.rows, write.value); }
    db.Commit(r, writes, FailCommit);
    steps := steps + [RelayStep(r, FailCommit)];
  }

  // ---- one message -----------------------------------------------------------------------------------

  /** The states one pass of the loop goes through: its head, where the acknowledgement updates the row, where the
      failure branch begins, where the failure updates the row and is committed, and the state after the pass. */
  datatype Pass = Pass(head: State, acking: State, failing: State, recording: State, recorded: State, next: State)

  /** The acknowledgement's update finds its row when it runs in state `acking`. */
  ghost predicate Matches(message: ClaimedMessage, luck: Luck, acking: State, owner: string) {
    Succeeds(message, luck) && LeasedBy(acking.rows, message.id, owner)
  }

  /** The acknowledgement ran, on the enqueued message, and the row it found is published ever since. */
  ghost predicate AckRan(p: Pass, r: RelayId, owner: string, todo: seq<ClaimedMessage>, count: nat, at: Time)
    requires todo != []
  {
    && Passes(p.head, p.acking, p.next)
    && r in p.acking.relays && p.acking.relays[r] == Enqueued(owner, todo, count)
    && (LeasedBy(p.acking.rows, todo[0].id, owner) ==> PublishedSince(p.acking, p.next, todo[0].id, at))
  }

  /** The acknowledgements that a run counts. */
  lemma MatchesIs(message: ClaimedMessage, luck: Luck, acking: State, owner: string)
    ensures Matches(message, luck, acking, owner) <==>
              && message.topic == "task.created.v1" && luck.reply.Accepted? && luck.ack.Committed?
              && message.id in acking.rows && acking.rows[message.id].leaseOwner == Some(owner)
              && acking.rows[message.id].publishedAt.None?
  {
  }

  /** The failure branch began, after the acknowledgement if that landed, and recorded an error if it landed itself. */
  ghost predicate FailureRan(
      p: Pass, r: RelayId, owner: string, todo: seq<ClaimedMessage>, count: nat, luck: Luck, acked: bool)
    requires todo != []
  {
    && Passes(if acked then p.acking else p.head, p.failing, p.next)
    && r in p.failing.relays && p.failing.relays[r] == Failing(owner, todo, count)
    && (luck.record.Lands() ==>
          && Passes(p.failing, p.recording, p.next)
          && r in p.recording.relays && p.recording.relays[r] == Failing(owner, todo, count)
          && (LeasedBy(p.recording.rows, todo[0].id, owner) ==>
                Passes(p.recording, p.recorded, p.next) && FailedWith(p.recording, p.recorded, todo[0].id, luck.error)))
  }

  /** What one pass does with the first message of the list, as the environment's outcomes decide. */
  ghost predicate Handled(p: Pass, r: RelayId, owner: string, todo: seq<ClaimedMessage>, count: nat, luck: Luck)
    requires todo != []
  {
    var message := todo[0];
    && (exists steps :: Leads(p.head, steps, p.next))
    && r in p.head.relays && p.head.relays[r] == AtMessage(owner, todo, count)
    && (JobName(message.topic).Some? && luck.reply.Takes() ==> message.id in p.next.queue.ever)
    && (PublishEnd(message, luck.reply).Done? && luck.ack.Lands() ==> AckRan(p, r, owner, todo, count, luck.at))
    && (!Cancels(message, luck) && !Succeeds(message, luck) ==>
          FailureRan(p, r, owner, todo, count, luck, PublishEnd(message, luck.reply).Done? && luck.ack.Lands()))
    && (if Stop(message, luck).Some? then r !in p.next.relays
        else
          && r in p.next.relays
          && p.next.relays[r]
             == AtMessage(owner, todo[1..], count + if Matches(message, luck, p.acking, owner) then 1 else 0))
  }

  /** The body of the for loop: try to publish and acknowledge, otherwise record the failure. */
  method HandleMessage(
      db: Database, r: RelayId, message: ClaimedMessage, owner: string, acknowledged: nat, luck: Luck)
    returns (error: Option<RelayError>, count: nat, ghost steps: seq<Step>, ghost pass: Pass)
    requires db.Valid() && r in db.world.relays && db.world.relays[r].AtMessage?
    requires db.world.relays[r].todo != [] && db.world.relays[r].todo[0] == message
    requires db.world.relays[r].owner == owner && db.world.relays[r].acked == acknowledged
    modifies db
    ensures db.Valid() && Leads(old(db.world), steps, db.world)
    ensures error == Stop(message, luck)
    ensures pass.head == old(db.world) && pass.next == db.world
    ensures Handled(pass, r, owner, old(db.world).relays[r].todo, acknowledged, luck)
    ensures error.None? ==> count == acknowledged + if Matches(message, luck, pass.acking, owner) then 1 else 0
  {
    var end: End;
    ghost var acking: State;
    end, steps, acking := TryMessage(db, r, message, owner, luck);
    pass := Pass(old(db.world), acking, db.world, db.world, db.world, db.world);
    count := acknowledged;
    match end
    case Done(matched) =>
      count := acknowledged + if matched then 1 else 0;
      error := None;
    case Cancelled =>
      error := Some(WasCancelled);
    case Error =>
      error, steps, pass := HandleFailure(
        db, r, message, owner, luck, old(db.world), steps, pass,
        PublishEnd(message, luck.reply).Done? && luck.ack.Lands(), JobName(message.topic).Some? && luck.reply.Takes());
  }

  /** The try block. */
  method TryMessage(db: Database, r: RelayId, message: ClaimedMessage, owner: string, luck: Luck)
    returns (end: End, ghost steps: seq<Step>, ghost acking: State)
    requires db.Valid() && r in db.world.relays && db.world.relays[r].AtMessage? && db.world.relays[r].owner == owner
    requires db.world.relays[r].todo != [] && db.world.relays[r].todo[0] == message
    modifies db
    ensures db.Valid() && Leads(old(db.world), steps, db.world)
    ensures (end.Done? <==> Succeeds(message, luck)) && (end.Cancelled? <==> Cancels(message, luck))
    ensures JobName(message.topic).Some? && luck.reply.Takes() ==> message.id in db.world.queue.ever
    ensures var me := old(db.world).relays[r];
            PublishEnd(message, luck.reply).Done? && luck.ack.Lands() ==>
              && Passes(old(db.world), acking, db.world)
              && r in acking.relays && acking.relays[r] == Enqueued(owner, me.todo, me.acked)
              && (LeasedBy(acking.rows, message.id, owner) ==> PublishedSince(acking, db.world, message.id, luck.at))
    ensures end.Done? ==> (end.matched <==> LeasedBy(acking.rows, message.id, owner))
    ensures var me := old(db.world).relays[r];
            match end
            case Done(matched) =>
              r in db.world.relays
              && db.world.relays[r] == AtMessage(owner, me.todo[1..], me.acked + if matched then 1 else 0)
            case Error => r in db.world.relays && db.world.relays[r] == Failing(owner, me.todo, me.acked)
            case Cancelled => r !in db.world.relays
  {
    end, steps := PublishMessage(db, r, message, luck.reply);
    acking := db.world;
    if end.Done? {
      ghost var published := db.world;
      ghost var rest: seq<Step>;
      end, rest, acking := Acknowledge(db, r, message.id, owner, luck.at, luck.ack);
      LeadsKeepsOffers(published, rest, db.world);
      if luck.ack.Lands() { PassesFrom(old(db.world), steps, published, acking, db.world); }
      LeadsOn(old(db.world), steps, published, rest, db.world);
      steps := steps + rest;
    }
  }

  /** The failure branch of the loop body, after what has happened to the message so far. */
  method HandleFailure(
      db: Database, r: RelayId, message: ClaimedMessage, owner: string, luck: Luck,
      ghost head: State, ghost past: seq<Step>, ghost before: Pass, ghost acked: bool, ghost taken: bool)
    returns (error: Option<RelayError>, ghost steps: seq<Step>, ghost pass: Pass)
    requires db.Valid() && r in db.world.relays && db.world.relays[r].Failing? && db.world.relays[r].owner == owner
    requires db.world.relays[r].todo != [] && db.world.relays[r].todo[0] == message
    requires Leads(head, past, db.world) && before.head == head && (taken ==> message.id in db.world.queue.ever)
    requires acked ==>
               && Passes(head, before.acking, db.world)
               && r in before.acking.relays
               && before.acking.relays[r] == Enqueued(owner, db.world.relays[r].todo, db.world.relays[r].acked)
               && (LeasedBy(before.acking.rows, message.id, owner) ==> PublishedSince(before.acking, db.world, message.id, luck.at))
    modifies db
    ensures db.Valid() && Leads(head, steps, db.world)
    ensures error == if luck.record.Committed? then None else Some(FailureNotRecorded)
    ensures pass.head == head && pass.next == db.world && pass.acking == before.acking
    ensures taken ==> message.id in db.world.queue.ever
    ensures var me := old(db.world).relays[r];
            && (acked ==> AckRan(pass, r, owner, me.todo, me.acked, luck.at))
            && FailureRan(pass, r, owner, me.todo, me.acked, luck, acked)
            && (if error.Some? then r !in db.world.relays
                else r in db.world.relays && db.world.relays[r] == AtMessage(owner, me.todo[1..], me.acked))
  {
    var recorded: bool;
    ghost var failing := db.world;
    ghost var rest: seq<Step>, recording: State, written: State;
    recorded, rest, recording, written := RecordFailure(db, r, message.id, owner, luck.error, luck.record);
    LeadsKeepsOffers(failing, rest, db.world);
    PassesBetween(head, past, failing, rest, db.world);
    LeadsOn(head, past, failing, rest, db.world);
    steps := past + rest;
    pass := before.(failing := failing, recording := recording, recorded := written, next := db.world);
    if acked {
      AckStillRan(pass, rest, r, owner, old(db.world).relays[r].todo, old(db.world).relays[r].acked, luck.at);
    }
    error := if recorded then None else Some(FailureNotRecorded);
  }

  /** What the acknowledgement did stays done while the failure is recorded. */
  lemma AckStillRan(
      p: Pass, rest: seq<Step>, r: RelayId, owner: string, todo: seq<ClaimedMessage>, count: nat, at: Time)
    requires todo != [] && Reached(p.failing) && Leads(p.failing, rest, p.next)
    requires Passes(p.head, p.acking, p.failing)
    requires r in p.acking.relays && p.acking.relays[r] == Enqueued(owner, todo, count)
    requires LeasedBy(p.acking.rows, todo[0].id, owner) ==> PublishedSince(p.acking, p.failing, todo[0].id, at)
    ensures AckRan(p, r, owner, todo, count, at) && Passes(p.acking, p.failing, p.next)
  {
    PassesOn(p.head, p.acking, p.failing, rest, p.next);
    PassesLater(p.head, p.acking, p.failing, rest, p.next);
    if LeasedBy(p.acking.rows, todo[0].id, owner) {
      LeadsKeepsPublished(p.failing, rest, p.next, todo[0].id);
    }
  }

  // ---- a run -----------------------------------------------------------------------------------------

  /** The states a run goes through: where its claim statement runs, where the claim commits, right after that, and
      the passes of its loop. */
  datatype Story = Story(
    asked: State, now: Time, start: State, claimed: State, batch: seq<ClaimedMessage>, passes: seq<Pass>)
  {
    /** Where the run stands before pass i. */
    function Head(i: nat): State
      requires i <= |passes|
    {
      if i == 0 then claimed else passes[i - 1].next
    }
  }

  /** Run r, starting from `origin`, claims the head of the eligible rows as they are at one moment, leased for the given
      time, and commits that claim as its batch. */
  ghost predicate Claims(origin: State, story: Story, r: RelayId, owner: string, lease: int, limit: nat) {
    && Passes(origin, story.asked, story.start)
    && Leads(story.start, [RelayStep(r, ClaimCommit)], story.claimed)
    && r in story.start.relays
    && story.start.relays[r]
       == Claiming(owner,
            ClaimModels(story.asked.rows, story.asked.locks.Keys, owner, story.now, story.now + lease, limit),
            story.now, story.now + lease)
    && r in story.claimed.relays && story.claimed.relays[r] == AtMessage(owner, story.batch, 0)
  }

  /** The acknowledgements that found their row in the first n passes. */
  ghost function CountMatches(batch: seq<ClaimedMessage>, luck: nat -> Luck, passes: seq<Pass>, owner: string, n: nat): nat
    requires n <= |batch| && n <= |passes|
  {
    if n == 0 then 0
    else CountMatches(batch, luck, passes, owner, n - 1) +
         if Matches(batch[n - 1], luck(n - 1), passes[n - 1].acking, owner) then 1 else 0
  }

  /** Pass i begins where the one before it left off, and handles message i with the count so far. */
  ghost predicate HandledAt(story: Story, r: RelayId, owner: string, luck: nat -> Luck, i: nat)
    requires i < |story.batch| && i < |story.passes|
  {
    && story.passes[i].head == story.Head(i)
    && Handled(story.passes[i], r, owner, story.batch[i..], CountMatches(story.batch, luck, story.passes, owner, i), luck(i))
  }

  ghost predicate HandledAll(story: Story, r: RelayId, owner: string, luck: nat -> Luck) {
    && |story.passes| <= |story.batch|
    && forall i :: 0 <= i < |story.passes| ==> HandledAt(story, r, owner, luck, i)
  }

  /** runner.run(claim_messages) after its argument checks. */
  method ClaimMessages(
      db: Database, r: RelayId, owner: string, lease: int, limit: nat, outcome: Transactions.Outcome)
    returns (claimed: Option<seq<ClaimedMessage>>, ghost steps: seq<Step>, ghost story: Story)
    requires db.Valid() && r !in db.world.relays
    requires owner != "" && lease > 0 && 1 <= limit <= MAX_CLAIM_LIMIT
    modifies db
    ensures db.Valid() && Leads(old(db.world), steps, db.world)
    ensures claimed.Some? <==> outcome.Committed?
    ensures claimed.Some? ==>
              && Claims(old(db.world), story, r, owner, lease, limit)
              && db.world == story.claimed && claimed.value == story.batch && story.passes == []
    ensures claimed.None? ==> r !in db.world.relays
  {
    var now: Time := *;
    steps := db.Interfere(r);
    ForeignKeepsRun(old(db.world), steps, db.world, r);
    ghost var asked := db.world;
    ghost var rest: seq<Step>, start: State, first: seq<Step>;
    claimed, rest, start, first := RunClaim(db, r, owner, now, lease, limit, outcome);
    if claimed.Some? {
      PassesBetween(old(db.world), steps, asked, first, start);
    }
    LeadsOn(old(db.world), steps, asked, rest, db.world);
    steps := steps + rest;
    story := Story(asked, now, start, db.world, if claimed.Some? then claimed.value else [], []);
  }

  /** The claiming transaction. */
  method RunClaim(
      db: Database, r: RelayId, owner: string, now: Time, lease: int, limit: nat, outcome: Transactions.Outcome)
    returns (claimed: Option<seq<ClaimedMessage>>, ghost steps: seq<Step>, ghost start: State, ghost first: seq<Step>)
    requires db.Valid() && r !in db.world.relays
    requires owner != "" && lease > 0 && 1 <= limit <= MAX_CLAIM_LIMIT
    modifies db
    ensures db.Valid() && Leads(old(db.world), steps, db.world)
    ensures claimed.Some? <==> outcome.Committed?
    ensures claimed.Some? ==>
              && Leads(old(db.world), first, start) && r in start.relays
              && start.relays[r]
                 == Claiming(owner,
                      ClaimModels(old(db.world).rows, old(db.world).locks.Keys, owner, now, now + lease, limit),
                      now, now + lease)
              && Leads(start, [RelayStep(r, ClaimCommit)], db.world)
              && r in db.world.relays && db.world.relays[r] == AtMessage(owner, claimed.value, 0)
    ensures claimed.None? ==> r !in db.world.relays
  {
    var models: seq<OutboxModel>;
    ghost var query: seq<Step>;
    models, query := StartClaim(db, r, owner, now, lease, limit);
    ghost var middle := db.world;
    ghost var rest: seq<Step>;
    claimed, rest, start, first := EndClaim(db, r, Values(models), outcome);
    LeadsOn(old(db.world), query, middle, rest, db.world);
    if claimed.Some? {
      LeadsOn(old(db.world), query, middle, first, start);
    }
    steps, first := query + rest, query + first;
  }

  /** The claiming transaction up to its commit. */
  method StartClaim(db: Database, r: RelayId, owner: string, now: Time, lease: int, limit: nat)
    returns (models: seq<OutboxModel>, ghost query: seq<Step>)
    requires db.Valid() && r !in db.world.relays
    requires owner != "" && lease > 0 && 1 <= limit <= MAX_CLAIM_LIMIT
    modifies db
    ensures db.Valid() && Leads(old(db.world), query, db.world)
    ensures Values(models)
         == ClaimModels(old(db.world).rows, old(db.world).locks.Keys, owner, now, now + lease, limit)
    ensures r in db.world.relays && db.world.relays[r] == Claiming(owner, Values(models), now, now + lease)
    ensures fresh(models)
  {
    ghost var claim := Claim(owner, now, lease, limit);
    LeadsRelay(db.world, r, claim);
    models := db.ClaimBatch(r, owner, now, now + lease, limit);
    ClaimStarts(old(db.world), r, claim, Values(models));
    query := [RelayStep(r, claim)];
  }

  method EndClaim(db: Database, r: RelayId, writes: seq<OutboxMessage>, outcome: Transactions.Outcome)
    returns (claimed: Option<seq<ClaimedMessage>>, ghost steps: seq<Step>, ghost start: State, ghost first: seq<Step>)
    requires db.Valid() && r in db.world.relays && db.world.relays[r].Claiming? && db.world.relays[r].writes == writes
    modifies db
    ensures db.Valid() && Leads(old(db.world), steps, db.world)
    ensures claimed.Some? <==> outcome.Committed?
    ensures claimed.Some? ==>
              && Leads(old(db.world), first, start)
              && r in start.relays && start.relays[r] == old(db.world).relays[r]
              && Leads(start, [RelayStep(r, ClaimCommit)], db.world)
              && r in db.world.relays
              && db.world.relays[r] == AtMessage(old(db.world).relays[r].owner, claimed.value, 0)
    ensures claimed.None? ==> r !in db.world.relays
  {
    claimed := None;
    steps, first, start := [], [], db.world;
    LeadsNowhere(db.world);
    if outcome.Lands() {
      steps := db.Interfere(r);
      ForeignKeepsRun(old(db.world), steps, db.world, r);
      first, start := steps, db.world;
      LeadsRelay(start, r, ClaimCommit);
      LeadsOn(old(db.world), steps, start, [RelayStep(r, ClaimCommit)], RelayApply(start, r, ClaimCommit));
      db.Commit(r, writes, ClaimCommit);
      steps := steps + [RelayStep(r, ClaimCommit)];
    }
    if outcome.Committed? {
      claimed := Some(ClaimedAll(writes));
    } else {
      ghost var middle := db.world;
      ghost var last := Proceed(db, r, Die);
      LeadsOn(old(db.world), steps, middle, last, db.world);
      steps := steps + last;
    }
  }

  /** The message is published, or its failure is recorded, and no cancellation reaches it: literally. */
  predicate GoesOn(message: ClaimedMessage, luck: Luck) {
    if message.topic == "task.created.v1" && luck.reply.Stopped? then false
    else if message.topic == "task.created.v1" && luck.reply.Accepted? then
      luck.ack.Committed? || (luck.ack.Failed? && luck.record.Committed?)
    else luck.record.Committed?
  }

  /** A run returns a number if and only if every message of its batch goes on, and then it has handled them all;
      otherwise it ends at the first that does not. */
  ghost predicate EndsPlainly(story: Story, luck: nat -> Luck, result: RelayResult) {
    && |story.passes| <= |story.batch|
    && (result.Result? <==> forall i :: 0 <= i < |story.batch| ==> GoesOn(story.batch[i], luck(i)))
    && (result.Result? ==> |story.passes| == |story.batch|)
    && (result.Raises? ==>
          && story.passes != []
          && var n := |story.passes| - 1;
          && !GoesOn(story.batch[n], luck(n)) && (forall i :: 0 <= i < n ==> GoesOn(story.batch[i], luck(i)))
          && result == Raises(if story.batch[n].topic == "task.created.v1" && !luck(n).reply.Refused?
                                 && (luck(n).reply.Stopped? || luck(n).ack.Interrupted?)
                              then WasCancelled else FailureNotRecorded))
  }

  /**
   relay_once: every execution is an execution of the protocol in which run r claims, passes through its batch in order
   and ends. `claim` is how the claiming transaction ends and `luck` what happens to each message. Together they decide
   the result: the run raises at the first message that the environment stops it at, with all messages before it handled
   and that one attempted, and otherwise returns the number of messages whose acknowledgement found its row.
   */
  method RelayOnce(
      db: Database, r: RelayId, owner: string, lease: int, limit: int, claim: Transactions.Outcome, luck: nat -> Luck)
    returns (result: RelayResult, ghost steps: seq<Step>, ghost story: Story)
    requires db.Valid() && r !in db.world.relays
    modifies db
    ensures db.Valid() && Leads(old(db.world), steps, db.world) && r !in db.world.relays
    ensures owner == "" ==> result == Raises(OwnerRequired) && db.world == old(db.world)
    ensures owner != "" && lease <= 0 ==> result == Raises(LeaseNotPositive) && db.world == old(db.world)
    ensures owner != "" && lease > 0 && !(1 <= limit <= 1_000) ==>
              result == Raises(LimitOutOfRange) && db.world == old(db.world)
    ensures owner != "" && lease > 0 && 1 <= limit <= 1_000 && claim.Failed? ==> result == Raises(ClaimFailed)
    ensures owner != "" && lease > 0 && 1 <= limit <= 1_000 && claim.Interrupted? ==> result == Raises(WasCancelled)
    ensures owner != "" && lease > 0 && 1 <= limit <= 1_000 && claim.Committed? ==>
              && Claims(old(db.world), story, r, owner, lease, limit)
              && Ends(story, r, owner, luck, result, db.world)
              && EndsPlainly(story, luck, result)
    ensures owner != "" && lease > 0 && 1 <= limit <= 1_000 && claim.Committed?
            && (forall i :: 0 <= i < |story.batch| ==>
                  !luck(i).reply.Stopped? && !luck(i).ack.Interrupted? && luck(i).record.Committed?) ==>
              result.Result? && |story.passes| == |story.batch|
    ensures owner != "" && lease > 0 && 1 <= limit <= 1_000 && claim.Committed?
            && (forall i :: 0 <= i < |story.batch| ==>
                  story.batch[i].topic == "task.created.v1" && luck(i).reply.Accepted? && luck(i).ack.Committed?) ==>
              result.Result? && |story.passes| == |story.batch|
  {
    story := Story(db.world, 0, db.world, db.world, [], []);
    LeadsNowhere(db.world);
    if owner == "" {
      return Raises(OwnerRequired), [], story;
    }
    if lease <= 0 {
      return Raises(LeaseNotPositive), [], story;
    }
    if limit < 1 || limit > MAX_CLAIM_LIMIT {
      return Raises(LimitOutOfRange), [], story;
    }
    var claimed: Option<seq<ClaimedMessage>>;
    claimed, steps, story := ClaimMessages(db, r, owner, lease, limit, claim);
    if claimed.None? {
      return Raises(if claim.Interrupted? then WasCancelled else ClaimFailed), steps, story;
    }
    ghost var rest: seq<Step>, middle: State, passes: seq<Pass> := [], db.world, [];
    result, rest, passes := FinishRun(db, r, claimed.value, owner, luck, story);
    EndIsPlain(story.(passes := passes), r, owner, luck, result, db.world);
    RunsToItsEnd(story.(passes := passes), luck, result);
    LeadsOn(old(db.world), steps, middle, rest, db.world);
    StoryKept(old(db.world), story, passes, r, owner, lease, limit);
    story := story.(passes := passes);
    steps := steps + rest;
  }

  lemma StoryKept(origin: State, story: Story, passes: seq<Pass>, r: RelayId, owner: string, lease: int, limit: nat)
    requires Claims(origin, story, r, owner, lease, limit)
    ensures Claims(origin, story.(passes := passes), r, owner, lease, limit)
  {
  }

  /** How a run ends that has claimed a batch: either a message stops it, and then exactly the messages up to that one
      have been handled, in order, and the run is over with that message's exception; or all have been, and the result
      is the number of acknowledgements that found their row. */
  ghost predicate Ends(story: Story, r: RelayId, owner: string, luck: nat -> Luck, result: RelayResult, after: State) {
    var n := StopsAt(story.batch, luck, 0);
    && HandledAll(story, r, owner, luck)
    && if n < |story.batch| then
         && |story.passes| == n + 1
         && result == Raises(Stop(story.batch[n], luck(n)).value) && after == story.passes[n].next
       else
         && |story.passes| == |story.batch|
         && result == Result(CountMatches(story.batch, luck, story.passes, owner, |story.batch|))
         && r in story.Head(n).relays && story.Head(n).relays[r] == AtMessage(owner, [], result.count)
         && Leads(story.Head(n), [RelayStep(r, Return)], after)
  }

  lemma EndIsPlain(story: Story, r: RelayId, owner: string, luck: nat -> Luck, result: RelayResult, after: State)
    requires Ends(story, r, owner, luck, result, after)
    ensures EndsPlainly(story, luck, result)
  {
    var n := StopsAt(story.batch, luck, 0);
    forall i | 0 <= i < |story.batch|
      ensures GoesOn(story.batch[i], luck(i)) <==> Stop(story.batch[i], luck(i)).None?
    {
      OutcomesAre(story.batch[i], luck(i));
    }
    if n < |story.batch| {
      OutcomesAre(story.batch[n], luck(n));
    }
  }

  /** Whatever else happens: if no cancellation comes and every failure record is committed, or if every message has a job,
      is accepted and acknowledged, the run handles its whole batch and returns. */
  lemma RunsToItsEnd(story: Story, luck: nat -> Luck, result: RelayResult)
    requires EndsPlainly(story, luck, result)
    ensures (forall i :: 0 <= i < |story.batch| ==>
               !luck(i).reply.Stopped? && !luck(i).ack.Interrupted? && luck(i).record.Committed?) ==>
              result.Result? && |story.passes| == |story.batch|
    ensures (forall i :: 0 <= i < |story.batch| ==>
               story.batch[i].topic == "task.created.v1" && luck(i).reply.Accepted? && luck(i).ack.Committed?) ==>
              result.Result? && |story.passes| == |story.batch|
  {
  }

  /** The loop and the return. */
  method FinishRun(
      db: Database, r: RelayId, batch: seq<ClaimedMessage>, owner: string, luck: nat -> Luck, ghost story: Story)
    returns (result: RelayResult, ghost steps: seq<Step>, ghost passes: seq<Pass>)
    requires db.Valid() && db.world == story.claimed && story.batch == batch
    requires r in db.world.relays && db.world.relays[r] == AtMessage(owner, batch, 0)
    modifies db
    ensures db.Valid() && Leads(old(db.world), steps, db.world) && r !in db.world.relays
    ensures Ends(story.(passes := passes), r, owner, luck, result, db.world)
  {
    var error: Option<RelayError>, acknowledged: nat;
    error, acknowledged, steps, passes := HandleBatch(db, r, batch, owner, luck, story);
    if error.Some? {
      return Raises(error.value), steps, passes;
    }
    ghost var before := db.world;
    ghost var last := EndRun(db, r);
    LeadsOn(old(db.world), steps, before, last, db.world);
    steps := steps + last;
    result := Result(acknowledged);
  }

  /** return acknowledged. */
  method EndRun(db: Database, r: RelayId) returns (ghost steps: seq<Step>)
    requires db.Valid() && r in db.world.relays && db.world.relays[r].AtMessage? && db.world.relays[r].todo == []
    modifies db
    ensures db.Valid() && steps == [RelayStep(r, Return)] && Leads(old(db.world), steps, db.world)
    ensures r !in db.world.relays
  {
    LeadsRelay(db.world, r, Return);
    db.Rollback(r, Return);
    steps := [RelayStep(r, Return)];
  }

  /** The for loop. */
  method HandleBatch(
      db: Database, r: RelayId, batch: seq<ClaimedMessage>, owner: string, luck: nat -> Luck, ghost story: Story)
    returns (error: Option<RelayError>, acknowledged: nat, ghost steps: seq<Step>, ghost passes: seq<Pass>)
    requires db.Valid() && db.world == story.claimed && story.batch == batch
    requires r in db.world.relays && db.world.relays[r] == AtMessage(owner, batch, 0)
    modifies db
    ensures db.Valid() && Leads(old(db.world), steps, db.world)
    ensures HandledAll(story.(passes := passes), r, owner, luck)
    ensures db.world == story.(passes := passes).Head(|passes|)
    ensures var n := StopsAt(batch, luck, 0);
            if n < |batch| then
              error == Stop(batch[n], luck(n)) && |passes| == n + 1 && r !in db.world.relays
            else
              && error.None? && |passes| == |batch|
              && acknowledged == CountMatches(batch, luck, passes, owner, |batch|)
              && r in db.world.relays && db.world.relays[r] == AtMessage(owner, [], acknowledged)
  {
    acknowledged := 0;
    steps, passes := [], [];
    LeadsNowhere(db.world);
    for i := 0 to |batch|
      invariant db.Valid() && Leads(old(db.world), steps, db.world)
      invariant |passes| == i && acknowledged == CountMatches(batch, luck, passes, owner, i)
      invariant HandledAll(story.(passes := passes), r, owner, luck)
      invariant db.world == story.(passes := passes).Head(i)
      invariant r in db.world.relays && db.world.relays[r] == AtMessage(owner, batch[i..], acknowledged)
      invariant StopsAt(batch, luck, 0) == StopsAt(batch, luck, i)
    {
      ghost var middle := db.world;
      ghost var rest: seq<Step>, pass: Pass;
      error, acknowledged, rest, pass :=
        TakeTurn(db, r, batch[i], owner, luck, i, acknowledged, story.(passes := passes));
      LeadsOn(old(db.world), steps, middle, rest, db.world);
      steps, passes := steps + rest, passes + [pass];
      if error.Some? {
        return;
      }
    }
    error := None;
  }

  /** One pass of the loop, as the next one of the story. */
  method TakeTurn(
      db: Database, r: RelayId, message: ClaimedMessage, owner: string, luck: nat -> Luck, i: nat, acknowledged: nat,
      ghost story: Story)
    returns (error: Option<RelayError>, count: nat, ghost steps: seq<Step>, ghost pass: Pass)
    requires db.Valid() && HandledAll(story, r, owner, luck)
    requires i == |story.passes| < |story.batch| && message == story.batch[i] && db.world == story.Head(i)
    requires acknowledged == CountMatches(story.batch, luck, story.passes, owner, i)
    requires r in db.world.relays && db.world.relays[r] == AtMessage(owner, story.batch[i..], acknowledged)
    modifies db
    ensures db.Valid() && Leads(old(db.world), steps, db.world)
    ensures error == Stop(message, luck(i))
    ensures HandledAll(story.(passes := story.passes + [pass]), r, owner, luck) && pass.next == db.world
    ensures error.Some? ==> r !in db.world.relays
    ensures error.None? ==>
              && count == CountMatches(story.batch, luck, story.passes + [pass], owner, i + 1)
              && r in db.world.relays && db.world.relays[r] == AtMessage(owner, story.batch[i + 1..], count)
  {
    assert story.batch[i..][1..] == story.batch[i + 1..];
    error, count, steps, pass := HandleMessage(db, r, message, owner, acknowledged, luck(i));
    NextPass(story, r, owner, luck, pass);
  }

  lemma {:induction false} CountsAlike(
      batch: seq<ClaimedMessage>, luck: nat -> Luck, passes: seq<Pass>, pass: Pass, owner: string, n: nat)
    requires n <= |batch| && n <= |passes|
    ensures CountMatches(batch, luck, passes + [pass], owner, n) == CountMatches(batch, luck, passes, owner, n)
  {
    if n != 0 {
      CountsAlike(batch, luck, passes, pass, owner, n - 1);
    }
  }

  /** One more message has been handled. */
  lemma NextPass(story: Story, r: RelayId, owner: string, luck: nat -> Luck, pass: Pass)
    requires HandledAll(story, r, owner, luck) && |story.passes| < |story.batch|
    requires pass.head == story.Head(|story.passes|)
    requires var i := |story.passes|;
             Handled(pass, r, owner, story.batch[i..], CountMatches(story.batch, luck, story.passes, owner, i), luck(i))
    ensures var longer := story.(passes := story.passes + [pass]);
            var i := |story.passes|;
            && HandledAll(longer, r, owner, luck)
            && CountMatches(story.batch, luck, longer.passes, owner, i + 1)
               == CountMatches(story.batch, luck, story.passes, owner, i)
                  + if Matches(story.batch[i], luck(i), pass.acking, owner) then 1 else 0
  {
    var longer := story.(passes := story.passes + [pass]);
    forall i | 0 <= i < |longer.passes|
      ensures HandledAt(longer, r, owner, luck, i)
    {
      CountsAlike(story.batch, luck, story.passes, pass, owner, i);
      if i < |story.passes| {
        assert HandledAt(story, r, owner, luck, i);
      }
    }
    CountsAlike(story.batch, luck, story.passes, pass, owner, |story.passes|);
  }
}
