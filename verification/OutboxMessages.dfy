/** Outbox rows and the three immutable transitions of src/app/domain/outbox.py. */
module OutboxMessages {
  import opened Basics
  import opened Text

  /** A UUID, as the number it stands for: UUIDs compare like numbers. */
  type Id = nat

  const TASK_CREATED_TOPIC := "task.created.v1"
  const TASK_CREATED_JOB := "process_task_created_job"
  const MAX_ERROR_LENGTH := 2_000

  datatype Json =
    | JNull
    | JBool(flag: bool)
    | JInt(number: int)
    | JFloat(fraction: real)
    | JString(text: string)
    | JList(items: seq<Json>)
    | JObject(fields: map<string, Json>)

  datatype OutboxMessage = OutboxMessage(
    id: Id,
    topic: string,
    payload: Json,
    createdAt: Time,
    publishedAt: Option<Time>,
    leaseOwner: Option<string>,
    leaseExpiresAt: Option<Time>,
    attemptCount: nat,
    lastError: Option<string>)
  {
    function Leased(owner: string, expiresAt: Time): OutboxMessage {
      this.(leaseOwner := Some(owner), leaseExpiresAt := Some(expiresAt),
            attemptCount := attemptCount + 1, lastError := None)
    }

    function Published(at: Time): OutboxMessage {
      this.(publishedAt := Some(at), leaseOwner := None, leaseExpiresAt := None, lastError := None)
    }

    function Failed(error: string): OutboxMessage {
      this.(lastError := Some(error))
    }

    /** The identity, topic, payload and creation time, which no transition touches. */
    predicate SameLetter(other: OutboxMessage) {
      id == other.id && topic == other.topic && payload == other.payload && createdAt == other.createdAt
    }
  }

  /** The transitions column by column: a lease keeps the letter, adds an attempt and clears the error; a publication clears
      lease and error; a failure replaces the error and keeps the lease. */
  lemma TransitionsAre(m: OutboxMessage, owner: string, at: Time, error: string)
    ensures m.Leased(owner, at)
         == OutboxMessage(m.id, m.topic, m.payload, m.createdAt, m.publishedAt, Some(owner), Some(at),
                          m.attemptCount + 1, None)
    ensures m.Published(at)
         == OutboxMessage(m.id, m.topic, m.payload, m.createdAt, Some(at), None, None, m.attemptCount, None)
    ensures m.Failed(error)
         == OutboxMessage(m.id, m.topic, m.payload, m.createdAt, m.publishedAt, m.leaseOwner, m.leaseExpiresAt,
                          m.attemptCount, Some(error))
  {
  }

  function NewMessage(id: Id, topic: string, payload: Json, createdAt: Time): OutboxMessage {
    OutboxMessage(id, topic, payload, createdAt, None, None, None, 0, None)
  }

  /** The detached copy of a claimed row that a relay keeps between transactions. */
  datatype ClaimedMessage = ClaimedMessage(id: Id, topic: string, payload: Json, attemptCount: nat)

  function Claimed(m: OutboxMessage): ClaimedMessage {
    ClaimedMessage(m.id, m.topic, m.payload, m.attemptCount)
  }

  /** The copy has the identity and the letter of its row, and its attempts so far. */
  lemma ClaimedIs(m: OutboxMessage)
    ensures Claimed(m).id == m.id && Claimed(m).topic == m.topic && Claimed(m).payload == m.payload
    ensures Claimed(m).attemptCount == m.attemptCount
  {
  }

  /** The SAQ function for a topic, None where the source raises ValueError. */
  function JobName(topic: string): Option<string> {
    if topic == TASK_CREATED_TOPIC then Some(TASK_CREATED_JOB) else None
  }

  /** The payload that create_task stores. */
  function TaskPayload(taskId: int): Json {
    JObject(map["version" := JInt(1), "task_id" := JInt(taskId)])
  }

  /** Python's `version == 1` for a value that is not a bool. */
  predicate IsVersionOne(v: Json) {
    v == JInt(1) || v == JFloat(1.0)
  }

  /** The worker's payload check: the task id it accepts, None where it raises. */
  function PayloadTask(payload: Json): Option<int> {
    if payload.JObject? && "version" in payload.fields && IsVersionOne(payload.fields["version"])
       && "task_id" in payload.fields && payload.fields["task_id"].JInt?
       && payload.fields["task_id"].number >= 1
    then Some(payload.fields["task_id"].number)
    else None
  }

  /** The message of a new task: unpublished, never claimed, with the version and the id as its only fields. */
  lemma AnnouncementIs(id: Id, taskId: int, at: Time)
    ensures var m := NewMessage(id, TASK_CREATED_TOPIC, TaskPayload(taskId), at);
      && m.id == id && m.topic == "task.created.v1" && m.createdAt == at && m.attemptCount == 0
      && m.publishedAt.None? && m.leaseOwner.None? && m.leaseExpiresAt.None? && m.lastError.None?
      && m.payload.JObject? && m.payload.fields.Keys == {"version", "task_id"}
      && m.payload.fields["version"] == JInt(1) && m.payload.fields["task_id"] == JInt(taskId)
      && JobName(m.topic) == Some("process_task_created_job")
  {
    var fields := TaskPayload(taskId).fields;
    assert forall k :: k in fields <==> k == "version" || k == "task_id";
  }

  /** The payloads that the worker accepts, and the id it reads: version one, as a whole or a float number, and a whole
      task id from 1 on; other fields do not matter. */
  lemma WorkerReads(payload: Json, taskId: int)
    ensures PayloadTask(payload) == Some(taskId) <==>
      && payload.JObject? && "version" in payload.fields && "task_id" in payload.fields
      && (payload.fields["version"] == JInt(1) || payload.fields["version"] == JFloat(1.0))
      && payload.fields["task_id"] == JInt(taskId) && taskId >= 1
  {
  }

  /** The worker accepts a stored payload exactly for ids the task table can hand out, and reads back that id. */
  lemma PayloadRoundTrip(taskId: int)
    ensures PayloadTask(TaskPayload(taskId)) == if taskId >= 1 then Some(taskId) else None
  {
    var p := TaskPayload(taskId);
    assert "version" in p.fields && p.fields["version"] == JInt(1);
    assert "task_id" in p.fields && p.fields["task_id"] == JInt(taskId);
  }

  /** What fail_message stores for an error text. */
  function SafeError(error: string): string {
    var kept := Strip(error);
    var cut := if |kept| > MAX_ERROR_LENGTH then kept[..MAX_ERROR_LENGTH] else kept;
    if cut == "" then "Queue publication failed." else cut
  }

  /** A blank text is replaced; any other is stored as the first 2000 characters of its stripped form. */
  lemma SafeErrorShape(error: string)
    ensures Blank(error) ==> SafeError(error) == "Queue publication failed."
    ensures !Blank(error) ==>
      && SafeError(error) <= Strip(error)
      && |SafeError(error)| == if |Strip(error)| <= 2_000 then |Strip(error)| else 2_000
    ensures 0 < |SafeError(error)| <= 2_000 && !IsSpace(SafeError(error)[0])
    ensures SafeError(error) == error <==> 0 < |error| <= 2_000 && Trimmed(error)
  {
    StripTrims(error);
    StripOfBlank(error);
  }
}
