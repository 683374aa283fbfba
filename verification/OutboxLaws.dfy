/** What is stored, column by column, and what can always go on, in the runs of the outbox. */
module OutboxLaws {
  import opened Basics
  import opened Text
  import opened OutboxMessages
  import opened TaskStore
  import opened ClaimOrder
  import opened OutboxProtocol
  import opened OutboxInvariant
  import opened OutboxRelaySteps
  import opened OutboxSteps
  import opened OutboxTheorems
  import opened OutboxPaths

  // ---- the three writes --------------------------------------------------------------------------

  /** The guarded updates: they match exactly an unpublished row leased to this owner; the first publishes it and clears
      lease and error, the second sets the error and keeps the lease. */
  lemma UpdatesAre(rows: Rows, m: Id, owner: string, at: Time, error: string)
    ensures var found := m in rows && rows[m].leaseOwner == Some(owner) && rows[m].publishedAt.None?;
            && (LeasedBy(rows, m, owner) <==> found)
            && (!found ==> AckWrite(rows, m, owner, at) == None && FailWrite(rows, m, owner, error) == None)
            && (found ==>
                  && AckWrite(rows, m, owner, at)
                     == Some(OutboxMessage(rows[m].id, rows[m].topic, rows[m].payload, rows[m].createdAt, Some(at), None, None,
                                           rows[m].attemptCount, None))
                  && FailWrite(rows, m, owner, error)
                     == Some(OutboxMessage(rows[m].id, rows[m].topic, rows[m].payload, rows[m].createdAt, None, Some(owner),
                                           rows[m].leaseExpiresAt, rows[m].attemptCount, Some(SafeError(error)))))
  {
  }

  /** The claim's models: the rows that the query takes, in its order, each leased once more. */
  lemma ClaimIs(rows: Rows, locked: set<Id>, owner: string, now: Time, until: Time, limit: nat)
    requires forall m :: m in rows ==> rows[m].id == m
    ensures var ids := Take(rows, Candidates(rows, locked, now), limit);
            var models := ClaimModels(rows, locked, owner, now, until, limit);
            && |models| == |ids|
            && forall i :: 0 <= i < |ids| ==>
                 && ids[i] in rows
                 && var row := rows[ids[i]];
                 models[i] == OutboxMessage(ids[i], row.topic, row.payload, row.createdAt, row.publishedAt, Some(owner),
                                            Some(until), row.attemptCount + 1, None)
  {
    TakeIsHead(rows, Candidates(rows, locked, now), limit);
  }

  // ---- the publication time ----------------------------------------------------------------------

  /** The clock reading of the last acknowledging update of run r. */
  function LastAck(trace: seq<Step>, r: RelayId): Option<Time> {
    if trace == [] then None
    else
      var last := trace[|trace| - 1];
      if last.RelayStep? && last.r == r && last.act.Ack? then Some(last.act.at) else LastAck(trace[..|trace| - 1], r)
  }

  /** The clock reading with which the latest committed acknowledgement of message m had run its update. */
  ghost function Publication(trace: seq<Step>, m: Id): Option<Time> {
    if trace == [] then None
    else
      var last := |trace| - 1;
      var u := Exec(Init(), trace[..last]);
      if u.Some? && Acknowledges(u.value, trace[last], m) then LastAck(trace[..last], trace[last].r)
      else Publication(trace[..last], m)
  }

  /** A run holds an acknowledged row exactly as its last update wrote it. */
  predicate Dated(relay: Relay, at: Option<Time>) {
    relay.Acking? && relay.write.Some? ==> relay.write.value.publishedAt == at
  }

  lemma OwnActDates(rows: Rows, me: Relay, act: RelayAct)
    requires Ready(me, act) && Next(rows, me, act).Some?
    ensures act.Ack? ==> Dated(Next(rows, me, act).value, Some(act.at))
    ensures !act.Ack? ==> !Next(rows, me, act).value.Acking?
  {
  }

  lemma RelayStepDates(s: State, q: RelayId, act: RelayAct, r: RelayId, at: Option<Time>)
    requires RelayEnabled(s, q, act) && r in RelayApply(s, q, act).relays
    requires r in s.relays ==> Dated(s.relays[r], at)
    ensures Dated(RelayApply(s, q, act).relays[r], if q == r && act.Ack? then Some(act.at) else at)
  {
    if q == r && !act.Claim? {
      OwnActDates(s.rows, s.relays[r], act);
    }
  }

  lemma StepDates(s: State, step: Step, r: RelayId, at: Option<Time>)
    requires Enabled(s, step) && r in Apply(s, step).relays
    requires r in s.relays ==> Dated(s.relays[r], at)
    ensures Dated(Apply(s, step).relays[r], if step.RelayStep? && step.r == r && step.act.Ack? then Some(step.act.at) else at)
  {
    if step.RelayStep? {
      RelayStepDates(s, step.r, step.act, r, at);
    } else {
      OtherStepKeepsRun(s, step, r);
    }
  }

  lemma {:induction false} AckIsDated(trace: seq<Step>, r: RelayId)
    requires Exec(Init(), trace).Some? && r in Exec(Init(), trace).value.relays
    ensures Dated(Exec(Init(), trace).value.relays[r], LastAck(trace, r))
  {
    if trace != [] {
      var last := |trace| - 1;
      var s := Exec(Init(), trace[..last]).value;
      if r in s.relays {
        AckIsDated(trace[..last], r);
      }
      StepDates(s, trace[last], r, LastAck(trace[..last], r));
    }
  }

  /** The publication time of a row, none for a row that is not there. */
  function PublishedAt(rows: Rows, m: Id): Option<Time> {
    if m in rows then rows[m].publishedAt else None
  }

  lemma FlushDates(rows: Rows, me: Relay, act: RelayAct, m: Id)
    requires BufferOk(rows, me) && Ready(me, act)
    ensures var acks := (act.AckCommit? || act.AckCommitLost?) && me.write.Some? && me.write.value.id == m;
            PublishedAt(WriteAll(rows, Flushed(me, act)), m)
            == if acks then me.write.value.publishedAt else PublishedAt(rows, m)
  {
    RelayMovesRows(rows, me, act);
    if (act.AckCommit? || act.AckCommitLost?) && me.write.Some? {
      assert [me.write.value][..0] == [];
    }
  }

  lemma RelayDatesRows(s: State, r: RelayId, act: RelayAct, m: Id)
    requires BuffersOk(s.rows, s.relays) && RelayEnabled(s, r, act)
    ensures PublishedAt(RelayApply(s, r, act).rows, m)
         == if Acknowledges(s, RelayStep(r, act), m) then s.relays[r].write.value.publishedAt else PublishedAt(s.rows, m)
  {
    if !act.Claim? {
      FlushDates(s.rows, s.relays[r], act, m);
    }
  }

  lemma CreateDatesRows(s: State, x: TxId, act: CreateAct, m: Id)
    requires CreatesOk(s.rows, s.creates, s.hist.origin) && CreateEnabled(s, x, act)
    ensures PublishedAt(CreateApply(s, x, act).rows, m) == PublishedAt(s.rows, m)
  {
  }

  lemma StepDatesRows(s: State, step: Step, m: Id)
    requires BuffersOk(s.rows, s.relays) && CreatesOk(s.rows, s.creates, s.hist.origin) && Enabled(s, step)
    ensures PublishedAt(Apply(s, step).rows, m)
         == if Acknowledges(s, step, m) then s.relays[step.r].write.value.publishedAt else PublishedAt(s.rows, m)
  {
    match step
    case RelayStep(r, act) => RelayDatesRows(s, r, act, m);
    case CreateStep(x, act) => CreateDatesRows(s, x, act, m);
    case _ =>
  }

  /** Every row carries the clock reading of the update whose acknowledgement was committed, and no other time. */
  lemma {:induction false} PublishedByItsClock(trace: seq<Step>, m: Id)
    requires Exec(Init(), trace).Some?
    ensures var s := Exec(Init(), trace).value;
            (if m in s.rows then s.rows[m].publishedAt else None) == Publication(trace, m)
  {
    if trace != [] {
      var last := |trace| - 1;
      var s := Exec(Init(), trace[..last]).value;
      PublishedByItsClock(trace[..last], m);
      ReachableBuffers(trace[..last]);
      StepDatesRows(s, trace[last], m);
      if Acknowledges(s, trace[last], m) {
        AckIsDated(trace[..last], trace[last].r);
      }
    }
  }

  lemma ReachableBuffers(trace: seq<Step>)
    requires Exec(Init(), trace).Some?
    ensures var s := Exec(Init(), trace).value;
            BuffersOk(s.rows, s.relays) && CreatesOk(s.rows, s.creates, s.hist.origin)
  {
    Reachable(trace);
  }

  // ---- what a creation stores ----------------------------------------------------------------------

  /** The form with which transaction x last began. */
  function Submitted(trace: seq<Step>, x: TxId): Option<CreateAct> {
    if trace == [] then None
    else
      var last := trace[|trace| - 1];
      if last.CreateStep? && last.x == x && last.create.Begin? then Some(last.create) else Submitted(trace[..|trace| - 1], x)
  }

  /** A transaction's rows are those of its form. */
  predicate FromForm(c: Create, form: Option<CreateAct>) {
    && form.Some? && form.value.Begin?
    && match c
       case Begun(user, title, description, now) => form.value == Begin(user, title, description, now)
       case TaskAdded(task) => IsSubmitted(task, form.value)
       case BothAdded(task, message) => IsSubmitted(task, form.value) && IsLetter(message, task.id, form.value.now)
  }

  /** The row of a submitted task: stripped texts, open, unprocessed, dated at its creation. */
  predicate IsSubmitted(task: Task, form: CreateAct)
    requires form.Begin?
  {
    && 1 <= |Strip(form.title)| <= 200
    && (form.description.Some? ==> |Strip(form.description.value)| <= 5_000)
    && task == Task(task.id, form.user, Strip(form.title),
                    if form.description.None? || Blank(form.description.value) then None
                    else Some(Strip(form.description.value)),
                    false, None, form.now, form.now)
  }

  /** The row of its message: unpublished and never claimed. */
  predicate IsLetter(message: OutboxMessage, task: int, at: Time) {
    message == OutboxMessage(message.id, "task.created.v1", JObject(map["version" := JInt(1), "task_id" := JInt(task)]), at,
                             None, None, None, 0, None)
  }

  lemma AddedIsSubmitted(id: int, form: CreateAct)
    requires form.Begin? && NewTask(id, form.user, form.title, form.description, form.now).Ok?
    ensures var task := NewTask(id, form.user, form.title, form.description, form.now).value;
            task.id == id && IsSubmitted(task, form)
  {
    NewTaskRule(id, form.user, form.title, form.description, form.now);
    DescriptionRule(form.description);
  }

  lemma CreateFollowsForm(s: State, y: TxId, act: CreateAct, x: TxId, form: Option<CreateAct>)
    requires CreateEnabled(s, y, act) && x in CreateApply(s, y, act).creates
    requires x in s.creates ==> FromForm(s.creates[x], form)
    ensures FromForm(CreateApply(s, y, act).creates[x], if y == x && act.Begin? then Some(act) else form)
  {
    if x == y && act.AddTask? {
      AddedIsSubmitted(act.taskId, form.value);
    }
  }

  lemma StepFollowsForm(s: State, step: Step, x: TxId, form: Option<CreateAct>)
    requires Enabled(s, step) && x in Apply(s, step).creates
    requires x in s.creates ==> FromForm(s.creates[x], form)
    ensures FromForm(Apply(s, step).creates[x],
                     if step.CreateStep? && step.x == x && step.create.Begin? then Some(step.create) else form)
  {
    match step
    case CreateStep(y, act) => CreateFollowsForm(s, y, act, x, form);
    case _ =>
  }

  lemma {:induction false} CreatesFollowForms(trace: seq<Step>, x: TxId)
    requires Exec(Init(), trace).Some? && x in Exec(Init(), trace).value.creates
    ensures FromForm(Exec(Init(), trace).value.creates[x], Submitted(trace, x))
  {
    if trace != [] {
      var last := |trace| - 1;
      var s := Exec(Init(), trace[..last]).value;
      if x in s.creates {
        CreatesFollowForms(trace[..last], x);
      }
      StepFollowsForm(s, trace[last], x, Submitted(trace[..last], x));
    }
  }

  /** The commit of a creation stores the submitted task under a new id and its message under another, and nothing else. */
  lemma CreationStoresItsForm(trace: seq<Step>, x: TxId) returns (task: Task, message: OutboxMessage)
    requires Exec(Init(), trace).Some?
    requires var s := Exec(Init(), trace).value; x in s.creates && s.creates[x].BothAdded?
    ensures Submitted(trace, x).Some? && Submitted(trace, x).value.Begin?
    ensures var form := Submitted(trace, x).value;
            IsSubmitted(task, form) && IsLetter(message, task.id, form.now)
    ensures var s := Exec(Init(), trace).value;
            && task.id !in s.tasks && task.id >= 1 && message.id !in s.rows
            && Enabled(s, CreateStep(x, CreateAct.Commit))
            && var t := Apply(s, CreateStep(x, CreateAct.Commit));
            t.tasks == s.tasks[task.id := task] && t.rows == s.rows[message.id := message] && t.queue == s.queue
  {
    CreatesFollowForms(trace, x);
    var s := Exec(Init(), trace).value;
    task, message := s.creates[x].task, s.creates[x].message;
    CommitIsNew(trace, x);
  }

  lemma CommitIsNew(trace: seq<Step>, x: TxId)
    requires Exec(Init(), trace).Some?
    requires var s := Exec(Init(), trace).value; x in s.creates && s.creates[x].BothAdded?
    ensures var s := Exec(Init(), trace).value;
            && s.creates[x].task.id !in s.tasks && s.creates[x].task.id >= 1 && s.creates[x].message.id !in s.rows
  {
    Reachable(trace);
  }

  // ---- what can always go on -----------------------------------------------------------------------

  /** From any state, acceptable texts can be stored, by any unused transaction under any ids that nobody has. */
  lemma CreateCanRun(s: State, x: TxId, form: CreateAct, task: int, message: Id)
    returns (trace: seq<Step>, t: State)
    requires x !in s.creates && form.Begin? && message !in s.rows && task >= 1 && task !in s.hist.origin
    requires forall y :: y in s.creates ==> !HoldsTask(s.creates[y], task) && !HoldsMessage(s.creates[y], message)
    requires 1 <= |Strip(form.title)| <= 200
    requires form.description.Some? ==> |Strip(form.description.value)| <= 5_000
    ensures trace == [CreateStep(x, form), CreateStep(x, AddTask(task)), CreateStep(x, AddMessage(message)),
                      CreateStep(x, CreateAct.Commit)]
    ensures Leads(s, trace, t)
    ensures task in t.tasks && t.tasks.Keys == s.tasks.Keys + {task} && IsSubmitted(t.tasks[task], form)
    ensures message in t.rows && t.rows.Keys == s.rows.Keys + {message} && IsLetter(t.rows[message], task, form.now)
  {
    var added := FormTask(task, form);
    var s3 := CreateAdds(s, x, form, added, message);
    t := CommitsCreate(s3, x);
    trace := [CreateStep(x, form), CreateStep(x, AddTask(task)), CreateStep(x, AddMessage(message))];
    LeadsOn(s, trace, s3, [CreateStep(x, CreateAct.Commit)], t);
    trace := trace + [CreateStep(x, CreateAct.Commit)];
  }

  lemma FormTask(id: int, form: CreateAct) returns (task: Task)
    requires form.Begin? && 1 <= |Strip(form.title)| <= 200
    requires form.description.Some? ==> |Strip(form.description.value)| <= 5_000
    ensures NewTask(id, form.user, form.title, form.description, form.now) == Ok(task)
    ensures task.id == id && task.createdAt == form.now && IsSubmitted(task, form)
  {
    NewTaskRule(id, form.user, form.title, form.description, form.now);
    AddedIsSubmitted(id, form);
    task := NewTask(id, form.user, form.title, form.description, form.now).value;
  }

  lemma CreateAdds(s: State, x: TxId, form: CreateAct, task: Task, message: Id) returns (s3: State)
    requires x !in s.creates && form.Begin? && message !in s.rows && task.id >= 1 && task.id !in s.hist.origin
    requires forall y :: y in s.creates ==> !HoldsTask(s.creates[y], task.id) && !HoldsMessage(s.creates[y], message)
    requires NewTask(task.id, form.user, form.title, form.description, form.now) == Ok(task)
    ensures Leads(s, [CreateStep(x, form), CreateStep(x, AddTask(task.id)), CreateStep(x, AddMessage(message))], s3)
    ensures s3 == s.(creates := s.creates[x := BothAdded(task, NewMessage(message, TASK_CREATED_TOPIC, TaskPayload(task.id),
                                                                          task.createdAt))])
  {
    var s1 := BeginsCreate(s, x, form);
    var s2 := AddsTask(s1, x, task);
    s3 := AddsMessage(s2, x, message);
    LeadsOn(s, [CreateStep(x, form)], s1, [CreateStep(x, AddTask(task.id))], s2);
    var trace := [CreateStep(x, form)] + [CreateStep(x, AddTask(task.id))];
    LeadsOn(s, trace, s2, [CreateStep(x, AddMessage(message))], s3);
    assert trace + [CreateStep(x, AddMessage(message))]
        == [CreateStep(x, form), CreateStep(x, AddTask(task.id)), CreateStep(x, AddMessage(message))];
  }

  lemma BeginsCreate(s: State, x: TxId, form: CreateAct) returns (t: State)
    requires x !in s.creates && form.Begin?
    ensures Leads(s, [CreateStep(x, form)], t)
    ensures t == s.(creates := s.creates[x := Begun(form.user, form.title, form.description, form.now)])
  {
    t := Apply(s, CreateStep(x, form));
    StepLeads(s, CreateStep(x, form));
  }

  lemma AddsTask(s: State, x: TxId, task: Task) returns (t: State)
    requires x in s.creates && s.creates[x].Begun? && task.id >= 1 && task.id !in s.hist.origin
    requires var c := s.creates[x]; NewTask(task.id, c.user, c.title, c.description, c.now) == Ok(task)
    requires forall y :: y in s.creates ==> !HoldsTask(s.creates[y], task.id)
    ensures Leads(s, [CreateStep(x, AddTask(task.id))], t)
    ensures t == s.(creates := s.creates[x := TaskAdded(task)])
  {
    t := Apply(s, CreateStep(x, AddTask(task.id)));
    StepLeads(s, CreateStep(x, AddTask(task.id)));
  }

  lemma AddsMessage(s: State, x: TxId, message: Id) returns (t: State)
    requires x in s.creates && s.creates[x].TaskAdded? && message !in s.rows
    requires forall y :: y in s.creates ==> !HoldsMessage(s.creates[y], message)
    ensures Leads(s, [CreateStep(x, AddMessage(message))], t)
    ensures var task := s.creates[x].task;
            t == s.(creates := s.creates[x := BothAdded(task, NewMessage(message, TASK_CREATED_TOPIC, TaskPayload(task.id),
                                                                         task.createdAt))])
  {
    t := Apply(s, CreateStep(x, AddMessage(message)));
    StepLeads(s, CreateStep(x, AddMessage(message)));
  }

  lemma CommitsCreate(s: State, x: TxId) returns (t: State)
    requires x in s.creates && s.creates[x].BothAdded?
    ensures Leads(s, [CreateStep(x, CreateAct.Commit)], t)
    ensures var c := s.creates[x];
            t.tasks == s.tasks[c.task.id := c.task] && t.rows == s.rows[c.message.id := c.message]
  {
    t := Apply(s, CreateStep(x, CreateAct.Commit));
    StepLeads(s, CreateStep(x, CreateAct.Commit));
  }

  /** A queued job can be started, run and finished, and then its task is processed, since now if it was not before. */
  lemma DeliveryCanRun(s: State, j: JobId, key: Id, task: int, at: Time) returns (trace: seq<Step>, t: State)
    requires j !in s.jobs && key in s.queue.live && PayloadTask(s.queue.live[key]) == Some(task)
    ensures trace == [JobStep(j, Start(key)), JobStep(j, Run(at, false)), JobStep(j, Finish)] && Leads(s, trace, t)
    ensures key !in t.queue.live && t.tasks.Keys == s.tasks.Keys
    ensures forall u :: u in s.tasks ==>
              t.tasks[u] == if u == task && s.tasks[u].processedAt.None?
                            then s.tasks[u].(processedAt := Some(at), updatedAt := at) else s.tasks[u]
  {
    var s1 := Apply(s, JobStep(j, Start(key)));
    StepLeads(s, JobStep(j, Start(key)));
    t := DeliveryEnds(s1, j, at);
    LeadsOn(s, [JobStep(j, Start(key))], s1, [JobStep(j, Run(at, false)), JobStep(j, Finish)], t);
    trace := [JobStep(j, Start(key))] + [JobStep(j, Run(at, false)), JobStep(j, Finish)];
  }

  lemma DeliveryEnds(s1: State, j: JobId, at: Time) returns (t: State)
    requires j in s1.jobs && s1.jobs[j].Running? && PayloadTask(s1.jobs[j].payload).Some?
    ensures Leads(s1, [JobStep(j, Run(at, false)), JobStep(j, Finish)], t)
    ensures t.tasks == MarkProcessed(s1.tasks, PayloadTask(s1.jobs[j].payload).value, at)
    ensures s1.jobs[j].key !in t.queue.live
  {
    var s2 := Apply(s1, JobStep(j, Run(at, false)));
    t := Apply(s2, JobStep(j, Finish));
    StepLeads(s1, JobStep(j, Run(at, false)));
    StepLeads(s2, JobStep(j, Finish));
    LeadsOn(s1, [JobStep(j, Run(at, false))], s2, [JobStep(j, Finish)], t);
    assert [JobStep(j, Run(at, false))] + [JobStep(j, Finish)] == [JobStep(j, Run(at, false)), JobStep(j, Finish)];
  }
}
