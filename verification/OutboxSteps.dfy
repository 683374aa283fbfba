/** Every step of the protocol keeps the invariant, so every reachable state has it. */
module OutboxSteps {
  import opened Basics
  import opened OutboxMessages
  import opened TaskStore
  import opened OutboxProtocol
  import opened OutboxInvariant
  import opened OutboxRelaySteps

  // ---- task use cases ------------------------------------------------------------------------

  /** No owner, identity or creation time changes; settled tasks stay settled; none appears. */
  ghost predicate TasksFollow(tasks: Tasks, tasks': Tasks) {
    && tasks'.Keys <= tasks.Keys
    && (forall t :: t in tasks' ==>
          && tasks'[t].id == tasks[t].id && tasks'[t].userId == tasks[t].userId
          && tasks'[t].createdAt == tasks[t].createdAt
          && (tasks[t].processedAt.Some? ==> tasks'[t].processedAt == tasks[t].processedAt))
  }

  lemma EditFollows(tasks: Tasks, user: int, id: int, title: string, description: Option<string>, at: Time)
    ensures TasksFollow(tasks, UpdateTask(tasks, user, id, title, description, at).0)
    ensures TasksFollow(tasks, ToggleTask(tasks, user, id, at).0)
    ensures TasksFollow(tasks, DeleteTask(tasks, user, id).0)
    ensures TasksFollow(tasks, MarkProcessed(tasks, id, at))
  {
  }

  lemma FollowKeeps(s: State, tasks': Tasks)
    requires Inv(s) && TasksFollow(s.tasks, tasks')
    ensures Inv(s.(tasks := tasks'))
  {
    forall m | m in s.queue.ever
      ensures Covered(tasks', s.rows, s.queue, m)
    {
      assert Covered(s.tasks, s.rows, s.queue, m);
    }
  }

  // ---- creation ------------------------------------------------------------------------------

  lemma CommitPairs(tasks: Tasks, rows: Rows, origin: map<int, Id>, task: Task, message: OutboxMessage)
    requires PairingOk(tasks, rows, origin) && task.id >= 1 && task.id !in origin && message.id !in rows
    requires message.payload == TaskPayload(task.id)
    ensures PairingOk(tasks[task.id := task], rows[message.id := message], origin[task.id := message.id])
  {
    PayloadRoundTrip(task.id);
  }

  lemma CommitCloses(rows: Rows, creates: map<TxId, Create>, origin: map<int, Id>, x: TxId)
    requires CreatesOk(rows, creates, origin) && x in creates && creates[x].BothAdded?
    ensures var c := creates[x];
            CreatesOk(rows[c.message.id := c.message], creates - {x}, origin[c.task.id := c.message.id])
  {
    forall y | y in creates && y != x && !creates[y].Begun?
      ensures creates[y].task.id != creates[x].task.id
    {
      assert !HoldsTask(creates[x], creates[y].task.id);
    }
    forall y | y in creates && y != x && creates[y].BothAdded?
      ensures creates[y].message.id != creates[x].message.id
    {
      assert !HoldsMessage(creates[x], creates[y].message.id);
    }
  }

  lemma CommitKeepsTasks(s: State, x: TxId)
    requires TaskInv(s) && CreateEnabled(s, x, CreateAct.Commit)
    ensures TaskInv(CreateApply(s, x, CreateAct.Commit))
  {
    CommitPairs(s.tasks, s.rows, s.hist.origin, s.creates[x].task, s.creates[x].message);
    CommitCloses(s.rows, s.creates, s.hist.origin, x);
  }

  /** A row inserted beside the others. */
  lemma InsertKeepsRows(rows: Rows, claims: map<Id, seq<Lease>>, message: OutboxMessage)
    requires RowsOk(rows, claims) && message.id !in rows
    requires message == NewMessage(message.id, TASK_CREATED_TOPIC, message.payload, message.createdAt)
    ensures RowsOk(rows[message.id := message], claims[message.id := []])
  {
    assert RowOk(message.id, message, []);
  }

  lemma CommitKeepsTable(s: State, x: TxId)
    requires TableInv(s) && CreatesOk(s.rows, s.creates, s.hist.origin) && CreateEnabled(s, x, CreateAct.Commit)
    ensures TableInv(CreateApply(s, x, CreateAct.Commit))
  {
    var message := s.creates[x].message;
    var rows' := s.rows[message.id := message];
    InsertKeepsRows(s.rows, s.hist.claims, message);
    assert Evolves(s.rows, rows', {});
    BuffersFrame(s.rows, rows', {}, s.relays);
  }

  lemma NewPairKeepsCover(
      tasks: Tasks, rows: Rows, queue: Queue, origin: map<int, Id>, task: Task, message: OutboxMessage)
    requires QueueOk(tasks, rows, queue) && PairingOk(tasks, rows, origin)
    requires task.id !in origin && message.id !in rows && message.publishedAt.None?
    ensures QueueOk(tasks[task.id := task], rows[message.id := message], queue)
  {
    forall k | k in queue.ever
      ensures Covered(tasks[task.id := task], rows[message.id := message], queue, k)
    {
      assert Covered(tasks, rows, queue, k);
      assert Subject(rows[k]) in origin;
    }
  }

  /** A message that nobody has offered and a task that nobody knows leave the queue as it was. */
  lemma NewPairKeepsQueue(s: State, task: Task, message: OutboxMessage)
    requires QueueInv(s) && PairingOk(s.tasks, s.rows, s.hist.origin)
    requires task.id !in s.hist.origin && message.id !in s.rows && message.publishedAt.None?
    ensures QueueInv(s.(tasks := s.tasks[task.id := task], rows := s.rows[message.id := message]))
  {
    var rows' := s.rows[message.id := message];
    var tasks' := s.tasks[task.id := task];
    NewPairKeepsCover(s.tasks, s.rows, s.queue, s.hist.origin, task, message);
    forall j | j in s.jobs && s.jobs[j].Marked?
      ensures Settled(tasks', Subject(rows'[s.jobs[j].key]))
    {
      assert Subject(s.rows[s.jobs[j].key]) in s.hist.origin;
    }
  }

  lemma CommitKeepsQueue(s: State, x: TxId)
    requires QueueInv(s) && TaskInv(s) && CreateEnabled(s, x, CreateAct.Commit)
    ensures QueueInv(CreateApply(s, x, CreateAct.Commit))
  {
    NewPairKeepsQueue(s, s.creates[x].task, s.creates[x].message);
  }

  lemma InsertKeepsPublished(rows: Rows, message: OutboxMessage)
    requires message.id !in rows && message.publishedAt.None?
    ensures PublishedIds(rows[message.id := message]) == PublishedIds(rows)
  {
  }

  lemma CommitKeepsCredit(s: State, x: TxId)
    requires CreditInv(s) && TaskInv(s) && CreateEnabled(s, x, CreateAct.Commit)
    ensures CreditInv(CreateApply(s, x, CreateAct.Commit))
  {
    var message := s.creates[x].message;
    assert message.id !in s.rows && message.publishedAt.None?;
    InsertKeepsPublished(s.rows, message);
  }

  lemma CommitKeeps(s: State, x: TxId)
    requires Inv(s) && CreateEnabled(s, x, CreateAct.Commit)
    ensures Inv(CreateApply(s, x, CreateAct.Commit))
  {
    CommitKeepsTasks(s, x);
    CommitKeepsTable(s, x);
    CommitKeepsQueue(s, x);
    CommitKeepsCredit(s, x);
  }

  /** An open creation transaction that gets the task id or message id it asked for. */
  lemma OpenMoves(rows: Rows, creates: map<TxId, Create>, origin: map<int, Id>, x: TxId, next: Create)
    requires CreatesOk(rows, creates, origin)
    requires !next.Begun? ==>
               && next.task.id >= 1 && next.task.id !in origin && next.task.processedAt.None?
               && forall y :: y in creates && y != x ==> !HoldsTask(creates[y], next.task.id)
    requires next.BothAdded? ==>
               && next.message.id !in rows
               && next.message == NewMessage(next.message.id, TASK_CREATED_TOPIC, TaskPayload(next.task.id), next.task.createdAt)
               && forall y :: y in creates && y != x ==> !HoldsMessage(creates[y], next.message.id)
    ensures CreatesOk(rows, creates[x := next], origin)
  {
  }

  lemma CloseMoves(rows: Rows, creates: map<TxId, Create>, origin: map<int, Id>, x: TxId)
    requires CreatesOk(rows, creates, origin)
    ensures CreatesOk(rows, creates - {x}, origin)
  {
  }

  /** Inside a creation transaction nothing is visible: only its own buffer moves. */
  lemma OpenKeeps(s: State, x: TxId, act: CreateAct)
    requires CreatesOk(s.rows, s.creates, s.hist.origin) && CreateEnabled(s, x, act) && !act.Commit?
    ensures CreatesOk(s.rows, CreateApply(s, x, act).creates, s.hist.origin)
    ensures CreateApply(s, x, act) == s.(creates := CreateApply(s, x, act).creates)
  {
    if act.Abort? {
      CloseMoves(s.rows, s.creates, s.hist.origin, x);
    } else {
      OpenMoves(s.rows, s.creates, s.hist.origin, x, CreateApply(s, x, act).creates[x]);
    }
  }

  lemma CreateKeeps(s: State, x: TxId, act: CreateAct)
    requires Inv(s) && CreateEnabled(s, x, act)
    ensures Inv(CreateApply(s, x, act))
  {
    if act.Commit? {
      CommitKeeps(s, x);
    } else {
      OpenKeeps(s, x, act);
    }
  }

  // ---- worker --------------------------------------------------------------------------------

  lemma MarkedSettles(s: State, j: JobId, at: Time, lost: bool)
    requires QueueInv(s) && JobEnabled(s, j, Run(at, lost))
    requires JobsOk(MarkProcessed(s.tasks, PayloadTask(s.jobs[j].payload).value, at), s.rows, s.queue.ever, s.jobs)
    ensures var s' := JobApply(s, j, Run(at, lost));
            JobsOk(s'.tasks, s.rows, s.queue.ever, s'.jobs)
  {
    var job := s.jobs[j];
    assert Subject(s.rows[job.key]) == PayloadTask(job.payload).value;
  }

  lemma JobRunKeeps(s: State, j: JobId, at: Time, lost: bool)
    requires Inv(s) && JobEnabled(s, j, Run(at, lost))
    ensures Inv(JobApply(s, j, Run(at, lost)))
  {
    var id := PayloadTask(s.jobs[j].payload).value;
    EditFollows(s.tasks, 0, id, "", None, at);
    FollowKeeps(s, MarkProcessed(s.tasks, id, at));
    MarkedSettles(s, j, at, lost);
  }

  /** A key leaves the live jobs only when its task is settled or it is recorded as exhausted. */
  lemma DropKeepsQueue(tasks: Tasks, rows: Rows, q: Queue, key: Id, exhausted: bool)
    requires QueueOk(tasks, rows, q) && key in q.ever
    requires exhausted || Settled(tasks, Subject(rows[key]))
    ensures QueueOk(tasks, rows, q.(live := q.live - {key},
                                    exhausted := if exhausted then q.exhausted + {key} else q.exhausted))
  {
    var q' := q.(live := q.live - {key}, exhausted := if exhausted then q.exhausted + {key} else q.exhausted);
    forall m | m in q.ever
      ensures Covered(tasks, rows, q', m)
    {
      assert Covered(tasks, rows, q, m);
    }
  }

  lemma JobEndKeeps(s: State, j: JobId, act: JobAct)
    requires QueueInv(s) && JobEnabled(s, j, act) && (act.Finish? || act.Exhaust?)
    ensures QueueInv(JobApply(s, j, act))
  {
    DropKeepsQueue(s.tasks, s.rows, s.queue, s.jobs[j].key, act.Exhaust?);
  }

  lemma JobMoveKeeps(s: State, j: JobId, act: JobAct)
    requires QueueInv(s) && JobEnabled(s, j, act) && (act.Start? || act.Raise? || act.Retry?)
    ensures QueueInv(JobApply(s, j, act))
  {
  }

  lemma JobKeeps(s: State, j: JobId, act: JobAct)
    requires Inv(s) && JobEnabled(s, j, act)
    ensures Inv(JobApply(s, j, act))
  {
    if act.Run? {
      JobRunKeeps(s, j, act.at, act.lost);
    } else if act.Finish? || act.Exhaust? {
      JobEndKeeps(s, j, act);
    } else {
      JobMoveKeeps(s, j, act);
    }
  }

  // ---- runs ----------------------------------------------------------------------------------

  lemma StepKeeps(s: State, step: Step)
    requires Inv(s) && Enabled(s, step)
    ensures Inv(Apply(s, step))
  {
    match step
    case CreateStep(x, act) => CreateKeeps(s, x, act);
    case RelayStep(r, act) => RelayKeeps(s, r, act);
    case JobStep(j, act) => JobKeeps(s, j, act);
    case Edit(user, id, title, description, at) =>
      EditFollows(s.tasks, user, id, title, description, at);
      FollowKeeps(s, UpdateTask(s.tasks, user, id, title, description, at).0);
    case Toggle(user, id, at) =>
      EditFollows(s.tasks, user, id, "", None, at);
      FollowKeeps(s, ToggleTask(s.tasks, user, id, at).0);
    case Delete(user, id) =>
      EditFollows(s.tasks, user, id, "", None, 0);
      FollowKeeps(s, DeleteTask(s.tasks, user, id).0);
  }

  lemma InitOk()
    ensures Inv(Init())
  {
  }

  /** Every state a trace reaches from a state with the invariant has it. */
  lemma {:induction false} RunKeeps(s: State, trace: seq<Step>)
    requires Inv(s) && Exec(s, trace).Some?
    ensures Inv(Exec(s, trace).value)
  {
    if trace != [] {
      var last := |trace| - 1;
      RunKeeps(s, trace[..last]);
      StepKeeps(Exec(s, trace[..last]).value, trace[last]);
    }
  }

  lemma Reachable(trace: seq<Step>)
    requires Exec(Init(), trace).Some?
    ensures Inv(Exec(Init(), trace).value)
  {
    InitOk();
    RunKeeps(Init(), trace);
  }
}
