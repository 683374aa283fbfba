/**
 The outbox as a step relation: task creation, any number of relays, the SAQ queue and the
 worker job, interleaved statement by statement.

 Rules taken from PostgreSQL: a transaction's writes stay in its buffer until it commits as a
 whole or vanishes; a row lock belongs to one transaction until that ends; SELECT ... FOR UPDATE
 SKIP LOCKED reads the latest committed rows nobody else has locked; UPDATE ... WHERE tests the
 latest committed row and waits for the lock; unique keys wait for, or reject, equal keys.

 Every clock reading is a step parameter, so relay clocks may disagree and run backwards. `owner`
 is the worker's id: several relays may share it.
 */
module OutboxProtocol {
  import opened Basics
  import opened OutboxMessages
  import opened TaskStore
  import opened ClaimOrder

  const MAX_CLAIM_LIMIT := 1_000

  /** One run of relay_once. */
  type RelayId = nat
  type TxId = nat
  /** One execution of a queued job. */
  type JobId = nat
  type Rows = map<Id, OutboxMessage>

  /** A create_task transaction that has not ended. */
  datatype Create =
    | Begun(user: int, title: string, description: Option<string>, now: Time)
    | TaskAdded(task: Task)
    | BothAdded(task: Task, message: OutboxMessage)

  /** Where a relay_once run stands; `write` and `writes` are its uncommitted row versions. */
  datatype Relay =
    | Claiming(owner: string, writes: seq<OutboxMessage>, now: Time, until: Time)
    | AtMessage(owner: string, todo: seq<ClaimedMessage>, acked: nat)
    | Enqueued(owner: string, todo: seq<ClaimedMessage>, acked: nat)
    | Acking(owner: string, todo: seq<ClaimedMessage>, acked: nat, write: Option<OutboxMessage>)
    | Failing(owner: string, todo: seq<ClaimedMessage>, acked: nat)
    | Recording(owner: string, todo: seq<ClaimedMessage>, acked: nat, write: Option<OutboxMessage>)

  datatype Job =
    | Running(key: Id, payload: Json)
    | Marked(key: Id, payload: Json)
    | Raised(key: Id, payload: Json)

  /** `live` holds queued and running jobs; `ever` every key accepted so far. */
  datatype Queue = Queue(live: map<Id, Json>, ever: set<Id>, exhausted: set<Id>)

  datatype Lease = Lease(from: Time, until: Time)

  /** Whose count an acknowledgement went into: a run in progress, a returned result, or nobody's. */
  datatype Credit = Pledged(relay: RelayId) | Returned | Lost

  /** What has happened so far. Steps only add to it, except that a new task id must not be one `origin` knows. */
  datatype History = History(
    origin: map<int, Id>,
    claims: map<Id, seq<Lease>>,
    credit: map<Id, Credit>,
    acks: multiset<Id>,
    returned: nat)

  datatype State = State(
    tasks: Tasks,
    rows: Rows,
    creates: map<TxId, Create>,
    locks: map<Id, RelayId>,
    relays: map<RelayId, Relay>,
    queue: Queue,
    jobs: map<JobId, Job>,
    hist: History)

  datatype RelayAct =
    | Claim(owner: string, now: Time, lease: int, limit: nat)
    | ClaimCommit
    | Enqueue(novel: bool)
    | EnqueueLost(novel: bool)
    | EnqueueFail
    | Ack(at: Time)
    | AckCommit
    | AckCommitLost
    | AckAbort
    | Fail(error: string)
    | FailCommit
    | Return
    | Die

  datatype CreateAct =
    | Begin(user: int, title: string, description: Option<string>, now: Time)
    | AddTask(taskId: int)
    | AddMessage(messageId: Id)
    | Commit
    | Abort

  datatype JobAct =
    | Start(key: Id)
    | Run(at: Time, lost: bool)
    | Raise
    | Finish
    | Retry
    | Exhaust

  datatype Step =
    | CreateStep(x: TxId, create: CreateAct)
    | Edit(user: int, taskId: int, title: string, description: Option<string>, at: Time)
    | Toggle(user: int, taskId: int, at: Time)
    | Delete(user: int, taskId: int)
    | RelayStep(r: RelayId, act: RelayAct)
    | JobStep(j: JobId, job: JobAct)

  ghost function Init(): State {
    State(map[], map[], map[], map[], map[], Queue(map[], {}, {}), map[], History(map[], map[], map[], multiset{}, 0))
  }

  // ---- row locks -------------------------------------------------------------------------

  /** The lock table once transaction r holds exactly `held`. */
  function Relock(locks: map<Id, RelayId>, r: RelayId, held: set<Id>): map<Id, RelayId> {
    map m | m in locks.Keys + held && (m in held || locks[m] != r) :: if m in held then r else locks[m]
  }

  function Ids(messages: seq<OutboxMessage>): set<Id> {
    set i | 0 <= i < |messages| :: messages[i].id
  }

  /** Flushes row versions into the table in order. */
  function WriteAll(rows: Rows, messages: seq<OutboxMessage>): Rows {
    if messages == [] then rows
    else
      var last := messages[|messages| - 1];
      WriteAll(rows, messages[..|messages| - 1])[last.id := last]
  }

  /** The rows whose locks a run's open transaction holds. */
  function HeldBy(relay: Relay): set<Id> {
    match relay
    case Claiming(_, writes, _, _) => Ids(writes)
    case Acking(_, _, _, Some(w)) => {w.id}
    case Recording(_, _, _, Some(w)) => {w.id}
    case _ => {}
  }

  /** The WHERE clause of mark_published and mark_failed. */
  predicate LeasedBy(rows: Rows, m: Id, owner: string) {
    m in rows && rows[m].leaseOwner == Some(owner) && rows[m].publishedAt.None?
  }

  // ---- task creation -----------------------------------------------------------------------

  predicate HoldsTask(c: Create, id: int) {
    !c.Begun? && c.task.id == id
  }

  predicate HoldsMessage(c: Create, m: Id) {
    c.BothAdded? && c.message.id == m
  }

  ghost predicate CreateEnabled(s: State, x: TxId, act: CreateAct) {
    match act
    case Begin(_, _, _, _) => x !in s.creates
    case AddTask(id) =>
      && x in s.creates && s.creates[x].Begun?
      && NewTask(id, s.creates[x].user, s.creates[x].title, s.creates[x].description, s.creates[x].now).Ok?
      && id >= 1 && id !in s.hist.origin
      && forall y :: y in s.creates ==> !HoldsTask(s.creates[y], id)
    case AddMessage(m) =>
      && x in s.creates && s.creates[x].TaskAdded?
      && m !in s.rows
      && forall y :: y in s.creates ==> !HoldsMessage(s.creates[y], m)
    case Commit => x in s.creates && s.creates[x].BothAdded?
    case Abort => x in s.creates
  }

  ghost function CreateApply(s: State, x: TxId, act: CreateAct): State
    requires CreateEnabled(s, x, act)
  {
    match act
    case Begin(user, title, description, now) =>
      s.(creates := s.creates[x := Begun(user, title, description, now)])
    case AddTask(id) =>
      var c := s.creates[x];
      s.(creates := s.creates[x := TaskAdded(NewTask(id, c.user, c.title, c.description, c.now).value)])
    case AddMessage(m) =>
      var task := s.creates[x].task;
      s.(creates := s.creates[x :=
           BothAdded(task, NewMessage(m, TASK_CREATED_TOPIC, TaskPayload(task.id), task.createdAt))])
    case Commit =>
      var c := s.creates[x];
      s.(creates := s.creates - {x},
         tasks := s.tasks[c.task.id := c.task],
         rows := s.rows[c.message.id := c.message],
         hist := s.hist.(origin := s.hist.origin[c.task.id := c.message.id],
                         claims := s.hist.claims[c.message.id := []]))
    case Abort =>
      s.(creates := s.creates - {x})
  }

  // ---- relays ------------------------------------------------------------------------------

  /** Where in relay_once each act belongs. */
  predicate Ready(me: Relay, act: RelayAct) {
    match act
    case Claim(_, _, _, _) => false
    case ClaimCommit => me.Claiming?
    case Enqueue(_) => me.AtMessage? && me.todo != []
    case EnqueueLost(_) => me.AtMessage? && me.todo != []
    case EnqueueFail => me.AtMessage? && me.todo != []
    case Ack(_) => me.Enqueued? && me.todo != []
    case AckCommit => me.Acking? && me.todo != []
    case AckCommitLost => me.Acking?
    case AckAbort => me.Enqueued? || me.Acking?
    case Fail(_) => me.Failing? && me.todo != []
    case FailCommit => me.Recording? && me.todo != []
    case Return => me.AtMessage? && me.todo == []
    case Die => true
  }

  /** The environment lets the act happen: the key is accepted, the row lock is free. */
  ghost predicate Allowed(s: State, me: Relay, act: RelayAct)
    requires Ready(me, act)
  {
    match act
    case Enqueue(novel) => CanEnqueue(s.queue, me.todo[0], novel)
    case EnqueueLost(novel) => CanEnqueue(s.queue, me.todo[0], novel)
    case Ack(_) => LeasedBy(s.rows, me.todo[0].id, me.owner) ==> me.todo[0].id !in s.locks
    case Fail(_) => LeasedBy(s.rows, me.todo[0].id, me.owner) ==> me.todo[0].id !in s.locks
    case _ => true
  }

  /** SAQ accepts the key; with `novel` false it knew the key already and leaves its jobs as they are. */
  ghost predicate CanEnqueue(q: Queue, message: ClaimedMessage, novel: bool) {
    JobName(message.topic).Some? && (novel || message.id in q.ever)
  }

  ghost predicate RelayEnabled(s: State, r: RelayId, act: RelayAct) {
    if act.Claim? then
      r !in s.relays && act.owner != "" && act.lease > 0 && 1 <= act.limit <= MAX_CLAIM_LIMIT
    else
      r in s.relays && Ready(s.relays[r], act) && Allowed(s, s.relays[r], act)
  }

  /** claim_batch: the query's rows in order, each with its lease fields overwritten. */
  function ClaimModels(rows: Rows, locked: set<Id>, owner: string, now: Time, until: Time, limit: nat)
    : (models: seq<OutboxMessage>)
  {
    var pool := Candidates(rows, locked, now);
    TakeIsHead(rows, pool, limit);
    var ids := Take(rows, pool, limit);
    seq(|ids|, i requires 0 <= i < |ids| =>
      rows[ids[i]].(leaseOwner := Some(owner), leaseExpiresAt := Some(until),
                    attemptCount := rows[ids[i]].attemptCount + 1, lastError := None))
  }

  function ClaimedAll(models: seq<OutboxMessage>): (list: seq<ClaimedMessage>)
    ensures |list| == |models|
  {
    seq(|models|, i requires 0 <= i < |models| => Claimed(models[i]))
  }

  /** mark_published: the UPDATE's effect on the row it matches. */
  function AckWrite(rows: Rows, m: Id, owner: string, at: Time): Option<OutboxMessage> {
    if LeasedBy(rows, m, owner)
    then Some(rows[m].(publishedAt := Some(at), leaseOwner := None, leaseExpiresAt := None, lastError := None))
    else None
  }

  /** mark_failed: the UPDATE's effect on the row it matches. */
  function FailWrite(rows: Rows, m: Id, owner: string, error: string): Option<OutboxMessage> {
    if LeasedBy(rows, m, owner) then Some(rows[m].(lastError := Some(SafeError(error)))) else None
  }

  /** The program counter after the act, None once the run has ended. */
  function Next(rows: Rows, me: Relay, act: RelayAct): Option<Relay>
    requires Ready(me, act)
  {
    match act
    case ClaimCommit => Some(AtMessage(me.owner, ClaimedAll(me.writes), 0))
    case Enqueue(_) => Some(Enqueued(me.owner, me.todo, me.acked))
    case EnqueueLost(_) => Some(Failing(me.owner, me.todo, me.acked))
    case EnqueueFail => Some(Failing(me.owner, me.todo, me.acked))
    case Ack(at) => Some(Acking(me.owner, me.todo, me.acked, AckWrite(rows, me.todo[0].id, me.owner, at)))
    case AckCommit => Some(AtMessage(me.owner, me.todo[1..], me.acked + if me.write.Some? then 1 else 0))
    case AckCommitLost => Some(Failing(me.owner, me.todo, me.acked))
    case AckAbort => Some(Failing(me.owner, me.todo, me.acked))
    case Fail(error) => Some(Recording(me.owner, me.todo, me.acked, FailWrite(rows, me.todo[0].id, me.owner, error)))
    case FailCommit => Some(AtMessage(me.owner, me.todo[1..], me.acked))
    case Return => None
    case Die => None
  }

  /** The buffered row versions that the act commits. */
  function Flushed(me: Relay, act: RelayAct): seq<OutboxMessage>
    requires Ready(me, act)
  {
    match act
    case ClaimCommit => me.writes
    case AckCommit => if me.write.Some? then [me.write.value] else []
    case AckCommitLost => if me.write.Some? then [me.write.value] else []
    case FailCommit => if me.write.Some? then [me.write.value] else []
    case _ => []
  }

  function Offered(q: Queue, me: Relay, act: RelayAct): Queue
    requires Ready(me, act)
  {
    match act
    case Enqueue(novel) => Accept(q, me.todo[0], novel)
    case EnqueueLost(novel) => Accept(q, me.todo[0], novel)
    case _ => q
  }

  function Accept(q: Queue, message: ClaimedMessage, novel: bool): Queue {
    var added := if novel && message.id !in q.live then q.live[message.id := message.payload] else q.live;
    q.(live := added, ever := q.ever + {message.id})
  }

  /** The acknowledgements of a run that ends, moved to their final account. */
  function Settle(credit: map<Id, Credit>, r: RelayId, to: Credit): map<Id, Credit> {
    map m | m in credit :: if credit[m] == Pledged(r) then to else credit[m]
  }

  function AddClaims(claims: map<Id, seq<Lease>>, ids: set<Id>, lease: Lease): map<Id, seq<Lease>> {
    map m | m in claims :: if m in ids then claims[m] + [lease] else claims[m]
  }

  function Book(hist: History, write: Option<OutboxMessage>, account: Credit): History {
    match write
    case None => hist
    case Some(w) => hist.(credit := hist.credit[w.id := account], acks := hist.acks + multiset{w.id})
  }

  function Recorded(hist: History, r: RelayId, me: Relay, act: RelayAct): History
    requires Ready(me, act)
  {
    match act
    case ClaimCommit => hist.(claims := AddClaims(hist.claims, Ids(me.writes), Lease(me.now, me.until)))
    case AckCommit => Book(hist, me.write, Pledged(r))
    case AckCommitLost => Book(hist, me.write, Lost)
    case Return => hist.(returned := hist.returned + me.acked, credit := Settle(hist.credit, r, Returned))
    case Die => hist.(credit := Settle(hist.credit, r, Lost))
    case _ => hist
  }

  function Held(next: Option<Relay>): set<Id> {
    if next.Some? then HeldBy(next.value) else {}
  }

  function SetRelay(relays: map<RelayId, Relay>, r: RelayId, next: Option<Relay>): map<RelayId, Relay> {
    if next.Some? then relays[r := next.value] else relays - {r}
  }

  /** A statement takes the locks of the rows it writes; the end of a transaction frees them. */
  ghost function RelayApply(s: State, r: RelayId, act: RelayAct): State
    requires RelayEnabled(s, r, act)
  {
    if act.Claim? then
      var until := act.now + act.lease;
      var models := ClaimModels(s.rows, s.locks.Keys, act.owner, act.now, until, act.limit);
      s.(locks := Relock(s.locks, r, Ids(models)),
         relays := s.relays[r := Claiming(act.owner, models, act.now, until)])
    else
      var me := s.relays[r];
      var next := Next(s.rows, me, act);
      s.(rows := WriteAll(s.rows, Flushed(me, act)),
         locks := Relock(s.locks, r, Held(next)),
         relays := SetRelay(s.relays, r, next),
         queue := Offered(s.queue, me, act),
         hist := Recorded(s.hist, r, me, act))
  }

  // ---- worker ------------------------------------------------------------------------------

  ghost predicate JobEnabled(s: State, j: JobId, act: JobAct) {
    match act
    case Start(key) => j !in s.jobs && key in s.queue.live
    case Run(_, _) => j in s.jobs && s.jobs[j].Running? && PayloadTask(s.jobs[j].payload).Some?
    case Raise => j in s.jobs && s.jobs[j].Running?
    case Finish => j in s.jobs && s.jobs[j].Marked?
    case Retry => j in s.jobs
    case Exhaust => j in s.jobs
  }

  /** Duplicate executions of one key may overlap; a killed execution ends by Retry or Exhaust. */
  ghost function JobApply(s: State, j: JobId, act: JobAct): State
    requires JobEnabled(s, j, act)
  {
    match act
    case Start(key) => s.(jobs := s.jobs[j := Running(key, s.queue.live[key])])
    case Run(at, lost) =>
      var job := s.jobs[j];
      s.(tasks := MarkProcessed(s.tasks, PayloadTask(job.payload).value, at),
         jobs := s.jobs[j := if lost then Raised(job.key, job.payload) else Marked(job.key, job.payload)])
    case Raise => s.(jobs := s.jobs[j := Raised(s.jobs[j].key, s.jobs[j].payload)])
    case Finish =>
      s.(jobs := s.jobs - {j}, queue := s.queue.(live := s.queue.live - {s.jobs[j].key}))
    case Retry => s.(jobs := s.jobs - {j})
    case Exhaust =>
      s.(jobs := s.jobs - {j},
         queue := s.queue.(live := s.queue.live - {s.jobs[j].key}, exhausted := s.queue.exhausted + {s.jobs[j].key}))
  }

  // ---- runs --------------------------------------------------------------------------------

  ghost predicate Enabled(s: State, step: Step) {
    match step
    case CreateStep(x, act) => CreateEnabled(s, x, act)
    case Edit(_, _, _, _, _) => true
    case Toggle(_, _, _) => true
    case Delete(_, _) => true
    case RelayStep(r, act) => RelayEnabled(s, r, act)
    case JobStep(j, act) => JobEnabled(s, j, act)
  }

  ghost function Apply(s: State, step: Step): State
    requires Enabled(s, step)
  {
    match step
    case CreateStep(x, act) => CreateApply(s, x, act)
    case Edit(user, id, title, description, at) => s.(tasks := UpdateTask(s.tasks, user, id, title, description, at).0)
    case Toggle(user, id, at) => s.(tasks := ToggleTask(s.tasks, user, id, at).0)
    case Delete(user, id) => s.(tasks := DeleteTask(s.tasks, user, id).0)
    case RelayStep(r, act) => RelayApply(s, r, act)
    case JobStep(j, act) => JobApply(s, j, act)
  }

  /** The state a trace leads to from s, None where one of its steps was not enabled. */
  ghost function Exec(s: State, trace: seq<Step>): Option<State> {
    if trace == [] then Some(s)
    else
      var last := |trace| - 1;
      match Exec(s, trace[..last])
      case None => None
      case Some(u) => if Enabled(u, trace[last]) then Some(Apply(u, trace[last])) else None
  }
}
