/** The development seed: one transaction that creates or repairs the demo account and adds the missing
    sample tasks (tools/seed.py). */
module Seed {
  import opened Basics
  import opened Text
  import opened OutboxMessages
  import opened TaskStore
  import opened UserStore
  import opened UnitOfWork

  datatype Sample = Sample(title: string, description: string, completed: bool)

  /** SEED_TASKS. */
  const SAMPLES: seq<Sample> := [
    Sample("Review the agent workflow", "Explore the Justfile and AGENTS.md.", false),
    Sample("Inspect observability traces", "Follow a request through the local stack.", false),
    Sample("Run the fast test suite", "Use `just test-fast` before committing.", true)
  ]

  /** What one run is given: email.casefold(), normalize_email(email) unless it raises, the password, what
      validate_password says of the two, and the hasher's preferred scheme. */
  datatype Input = Input(folded: string, normal: Option<string>, password: string, allowed: bool, scheme: nat)

  datatype SeedResult = SeedResult(email: string, userCreated: bool, passwordRepaired: bool, tasksCreated: nat)

  datatype SeedError = InvalidEmail | Rejected(error: AuthError)

  datatype Tables = Tables(users: Users, tasks: Tasks, outbox: map<Id, OutboxMessage>)

  // ---- what a run does to each table -----------------------------------------------------------------

  function Titles(tasks: Tasks, user: int): set<string> {
    set t | t in tasks && tasks[t].userId == user :: tasks[t].title
  }

  /** The samples whose title is not among those given, in order. */
  function Missing(samples: seq<Sample>, titles: set<string>): seq<Sample> {
    if samples == [] then []
    else
      var n := |samples| - 1;
      Missing(samples[..n], titles) + if samples[n].title in titles then [] else [samples[n]]
  }

  /** The account afterwards carries the password under the preferred scheme, keeps its identity, and gets a
      new session version exactly if the stored password was another one. Nobody else is touched. */
  ghost predicate AccountSet(before: Users, after: Users, user: int, email: string, input: Input) {
    && user in after && after.Keys == before.Keys + {user}
    && after[user].id == user && after[user].email == email
    && after[user].hash == Hash(input.password, input.scheme)
    && (forall v :: v in before && v != user ==> after[v] == before[v])
    && (if user !in before then after[user].sessionVersion == 0
        else
          && before[user].email == email && after[user].createdAt == before[user].createdAt
          && after[user].sessionVersion
             == before[user].sessionVersion + (if before[user].hash.password == input.password then 0 else 1)
          && (before[user].hash == Hash(input.password, input.scheme) ==> after[user] == before[user]))
  }

  predicate IsSample(task: Task, id: int, user: int, sample: Sample) {
    && task.id == id && task.userId == user && task.processedAt.None?
    && task.title == sample.title && task.description == Some(sample.description)
    && task.isCompleted == sample.completed
  }

  /** Exactly the given samples were added, one task each; every other task is as it was. */
  ghost predicate Planted(before: Tasks, after: Tasks, user: int, samples: seq<Sample>, ids: seq<int>) {
    && |ids| == |samples|
    && (forall i, j :: 0 <= i < j < |ids| ==> ids[i] != ids[j])
    && (forall t :: t in after <==> t in before || t in ids)
    && (forall t :: t in before ==> t !in ids && after[t] == before[t])
    && (forall i :: 0 <= i < |ids| ==> ids[i] in after && IsSample(after[ids[i]], ids[i], user, samples[i]))
  }

  predicate IsAnnouncement(row: OutboxMessage, message: Id, task: int) {
    row == NewMessage(message, TASK_CREATED_TOPIC, TaskPayload(task), row.createdAt)
  }

  /** Exactly one fresh message per added task; every other message is as it was. */
  ghost predicate Posted(
      before: map<Id, OutboxMessage>, after: map<Id, OutboxMessage>, ids: seq<int>, messages: seq<Id>)
  {
    && |messages| == |ids|
    && (forall i, j :: 0 <= i < j < |messages| ==> messages[i] != messages[j])
    && (forall m :: m in after <==> m in before || m in messages)
    && (forall m :: m in before ==> m !in messages && after[m] == before[m])
    && (forall i :: 0 <= i < |messages| ==> messages[i] in after
                                               && IsAnnouncement(after[messages[i]], messages[i], ids[i]))
  }

  /** When a run gets through, and what it raises otherwise. */
  ghost function Refusal(users: Users, input: Input): Option<SeedError> {
    if Registered(users, input.folded) then None
    else if input.normal.None? then Some(InvalidEmail)
    else if !input.allowed then Some(Rejected(PasswordRejected))
    else if Registered(users, input.normal.value) then Some(Rejected(DuplicateEmail))
    else None
  }

  /** An account under the folded email is never refused, whatever its password. Without one the run is refused for an
      email that is none, a password against the rules, or an account under the normalized email, in this order. */
  lemma RefusalIs(users: Users, input: Input, u: int)
    ensures u in users && users[u].email == input.folded ==> Refusal(users, input) == None
    ensures (forall v :: v in users ==> users[v].email != input.folded) ==>
      && (input.normal.None? ==> Refusal(users, input) == Some(InvalidEmail))
      && (input.normal.Some? && !input.allowed ==> Refusal(users, input) == Some(Rejected(PasswordRejected)))
      && (input.normal.Some? && input.allowed && u in users && users[u].email == input.normal.value ==>
            Refusal(users, input) == Some(Rejected(DuplicateEmail)))
      && (input.normal.Some? && input.allowed && (forall v :: v in users ==> users[v].email != input.normal.value) ==>
            Refusal(users, input) == None)
  {
  }

  /** One committed run of the seed. */
  ghost predicate Seeded(
      before: Tables, samples: seq<Sample>, input: Input, r: Result<SeedResult, SeedError>, after: Tables, user: int)
  {
    match r
    case Err(e) => Refusal(before.users, input) == Some(e) && after == before
    case Ok(report) =>
      && Refusal(before.users, input).None?
      && report.email == input.folded
      && report.userCreated == !Registered(before.users, input.folded)
      && (report.userCreated <==> user !in before.users)
      && (report.passwordRepaired <==> user in before.users && before.users[user].hash.password != input.password)
      && AccountSet(before.users, after.users, user, if report.userCreated then input.normal.value else input.folded, input)
      && (exists ids, messages ::
            && Planted(before.tasks, after.tasks, user, Missing(samples, Titles(before.tasks, user)), ids)
            && Posted(before.outbox, after.outbox, ids, messages)
            && report.tasksCreated == |ids|)
  }

  // ---- the operation -----------------------------------------------------------------------------------

  /** The task rules keep the texts as they are. */
  predicate Clean(sample: Sample) {
    && NormalizeTitle(sample.title) == Ok(sample.title)
    && NormalizeDescription(Some(sample.description)) == Ok(Some(sample.description))
  }

  lemma SampleIsClean(sample: Sample)
    requires 0 < |sample.title| <= MAX_TITLE_LENGTH && Trimmed(sample.title)
    requires 0 < |sample.description| <= MAX_DESCRIPTION_LENGTH && Trimmed(sample.description)
    ensures Clean(sample)
  {
    StripTrims(sample.title);
    StripTrims(sample.description);
  }

  lemma SamplesAreClean()
    ensures forall s :: s in SAMPLES ==> Clean(s)
  {
    SampleIsClean(SAMPLES[0]);
    SampleIsClean(SAMPLES[1]);
    SampleIsClean(SAMPLES[2]);
  }

  lemma PlantOne(before: Tasks, now: Tasks, user: int, samples: seq<Sample>, ids: seq<int>, sample: Sample, task: Task)
    requires Planted(before, now, user, samples, ids)
    requires task.id !in now && IsSample(task, task.id, user, sample)
    ensures Planted(before, now[task.id := task], user, samples + [sample], ids + [task.id])
  {
    var longer := ids + [task.id];
    assert forall t :: t in longer <==> t in ids || t == task.id;
  }

  lemma PostOne(
      before: map<Id, OutboxMessage>, now: map<Id, OutboxMessage>, ids: seq<int>, messages: seq<Id>,
      task: int, row: OutboxMessage)
    requires Posted(before, now, ids, messages) && row.id !in now && IsAnnouncement(row, row.id, task)
    ensures Posted(before, now[row.id := row], ids + [task], messages + [row.id])
  {
    var longer := messages + [row.id];
    assert forall m :: m in longer <==> m in messages || m == row.id;
  }

  /** The first part of seed_operation: find, create or repair the account. */
  method SeedAccount(store: Store, input: Input)
    returns (r: Result<SeedResult, SeedError>, user: int)
    requires store.Valid()
    modifies store`users, store`nextUser
    ensures store.Valid()
    ensures r.Err? ==> Refusal(old(store.users), input) == Some(r.error) && store.users == old(store.users)
    ensures r.Ok? ==>
      && Refusal(old(store.users), input).None?
      && var created := !Registered(old(store.users), input.folded);
      && (created <==> user !in old(store.users))
      && r.value == SeedResult(input.folded, created,
           user in old(store.users) && old(store.users)[user].hash.password != input.password, 0)
      && AccountSet(old(store.users), store.users, user, if created then input.normal.value else input.folded, input)
  {
    var now: Time := *;
    var found := store.FindUser(input.folded);
    if found.None? {
      if input.normal.None? {
        return Err(InvalidEmail), 0;
      }
      var auth, id := store.Register(input.normal.value, input.password, input.allowed, input.scheme, now);
      if auth.Err? {
        return Err(Rejected(auth.error)), 0;
      }
      return Ok(SeedResult(input.folded, true, false, 0)), auth.value.userId;
    }
    var stored := found.value;
    var verification := Verify(input.password, stored.hash, input.scheme);
    var repaired := false;
    if !verification.valid {
      stored := store.WriteCredentials(stored.WithPassword(Hash(input.password, input.scheme), now));
      repaired := true;
    } else if verification.replacement.Some? {
      stored := store.WriteCredentials(stored.WithRehashedPassword(verification.replacement.value, now));
    }
    return Ok(SeedResult(input.folded, false, repaired, 0)), stored.id;
  }

  /** create_task, then toggle_task for a sample that is to be complete. */
  method PlantSample(store: Store, user: int, sample: Sample) returns (ghost id: int, ghost message: Id)
    requires store.Valid() && Clean(sample)
    modifies store`tasks, store`outbox, store`nextTask, store`nextMessage
    ensures store.Valid() && id !in old(store.tasks) && message !in old(store.outbox)
    ensures id in store.tasks && IsSample(store.tasks[id], id, user, sample)
    ensures store.tasks == old(store.tasks)[id := store.tasks[id]]
    ensures message in store.outbox && IsAnnouncement(store.outbox[message], message, id)
    ensures store.outbox == old(store.outbox)[message := store.outbox[message]]
  {
    var now: Time := *;
    var created, taskId, messageId := store.CreateTask(user, sample.title, Some(sample.description), now);
    id, message := taskId, messageId;
    if sample.completed {
      now := *;
      var toggled := store.ToggleTask(user, created.value.id, now);
    }
  }

  /** The second part: the loop over the samples. */
  method PlantMissing(store: Store, user: int, samples: seq<Sample>)
    returns (created: nat, ghost ids: seq<int>, ghost messages: seq<Id>)
    requires store.Valid() && forall s :: s in samples ==> Clean(s)
    modifies store`tasks, store`outbox, store`nextTask, store`nextMessage
    ensures store.Valid() && created == |ids|
    ensures Planted(old(store.tasks), store.tasks, user, Missing(samples, Titles(old(store.tasks), user)), ids)
    ensures Posted(old(store.outbox), store.outbox, ids, messages)
  {
    var titles := Titles(store.tasks, user);
    created, ids, messages := 0, [], [];
    for i := 0 to |samples|
      invariant store.Valid() && created == |ids|
      invariant Planted(old(store.tasks), store.tasks, user, Missing(samples[..i], titles), ids)
      invariant Posted(old(store.outbox), store.outbox, ids, messages)
    {
      assert samples[..i + 1][..i] == samples[..i];
      if samples[i].title !in titles {
        ghost var tasks, outbox := store.tasks, store.outbox;
        ghost var id, message := PlantSample(store, user, samples[i]);
        PlantOne(old(store.tasks), tasks, user, Missing(samples[..i], titles), ids, samples[i], store.tasks[id]);
        PostOne(old(store.outbox), outbox, ids, messages, id, store.outbox[message]);
        ids, messages := ids + [id], messages + [message];
        created := created + 1;
      }
    }
    assert samples[..|samples|] == samples;
  }

  /** seed_operation. */
  method SeedOperation(store: Store, input: Input)
    returns (r: Result<SeedResult, SeedError>, ghost user: int)
    requires store.Valid()
    modifies store
    ensures store.Valid()
    ensures Seeded(old(Tables(store.users, store.tasks, store.outbox)), SAMPLES, input, r,
                   Tables(store.users, store.tasks, store.outbox), user)
  {
    var account, owner := SeedAccount(store, input);
    user := owner;
    if account.Err? {
      return account, user;
    }
    SamplesAreClean();
    var created, ids, messages := PlantMissing(store, owner, SAMPLES);
    return Ok(account.value.(tasksCreated := created)), user;
  }

  // ---- what a run achieves -------------------------------------------------------------------------------

  lemma {:induction false} MissingCovers(samples: seq<Sample>, titles: set<string>)
    ensures forall s :: s in samples ==> s.title in titles || s in Missing(samples, titles)
    ensures forall s :: s in Missing(samples, titles) ==> s in samples && s.title !in titles
  {
    if samples != [] {
      MissingCovers(samples[..|samples| - 1], titles);
    }
  }

  lemma {:induction false} NothingMissing(samples: seq<Sample>, titles: set<string>)
    requires forall s :: s in samples ==> s.title in titles
    ensures Missing(samples, titles) == []
  {
    if samples != [] {
      NothingMissing(samples[..|samples| - 1], titles);
    }
  }

  lemma PlantedTitles(before: Tasks, after: Tasks, user: int, samples: seq<Sample>, ids: seq<int>)
    requires Planted(before, after, user, Missing(samples, Titles(before, user)), ids)
    ensures forall s :: s in samples ==> s.title in Titles(after, user)
  {
    var titles := Titles(before, user);
    var missing := Missing(samples, titles);
    MissingCovers(samples, titles);
    forall s | s in samples
      ensures s.title in Titles(after, user)
    {
      if s.title in titles {
        var t :| t in before && before[t].userId == user && before[t].title == s.title;
        assert after[t] == before[t];
      } else {
        var i :| 0 <= i < |missing| && missing[i] == s;
        assert IsSample(after[ids[i]], ids[i], user, s);
      }
    }
  }

  lemma SetAccountLogsIn(before: Users, after: Users, user: int, email: string, input: Input, now: Time)
    requires UniqueEmails(after) && AccountSet(before, after, user, email, input)
    ensures Authenticate(after, email, input.password, input.scheme, now)
         == (after, Ok(AuthResult(user, email, after[user].sessionVersion)))
  {
    assert FindByEmail(after, email) == Some(user);
  }

  /** The email the account has after a run. */
  function AccountEmail(input: Input, report: SeedResult): string
    requires report.userCreated ==> input.normal.Some?
  {
    if report.userCreated then input.normal.value else input.folded
  }

  /** After a run the account logs in with the seed password, without a rehash, and owns every sample title. */
  lemma SeedReady(
      before: Tables, samples: seq<Sample>, input: Input, report: SeedResult, after: Tables, user: int, now: Time)
    requires Seeded(before, samples, input, Ok(report), after, user) && UniqueEmails(after.users)
    ensures Authenticate(after.users, AccountEmail(input, report), input.password, input.scheme, now)
         == (after.users, Ok(AuthResult(user, AccountEmail(input, report), after.users[user].sessionVersion)))
    ensures forall s :: s in samples ==> s.title in Titles(after.tasks, user)
  {
    SetAccountLogsIn(before.users, after.users, user, AccountEmail(input, report), input, now);
    var ids, messages :| Planted(before.tasks, after.tasks, user, Missing(samples, Titles(before.tasks, user)), ids)
                         && Posted(before.outbox, after.outbox, ids, messages)
                         && report.tasksCreated == |ids|;
    PlantedTitles(before.tasks, after.tasks, user, samples, ids);
  }

  /** A run on the outcome of a run changes nothing and reports nothing, if and only if the account was already
      there or the case-folded email is the normalized one. Otherwise it raises. */
  lemma SecondRun(
      first: Tables, samples: seq<Sample>, input: Input, report: SeedResult, second: Tables, user: int,
      r: Result<SeedResult, SeedError>, third: Tables, user': int)
    requires UniqueEmails(second.users)
    requires Seeded(first, samples, input, Ok(report), second, user)
    requires Seeded(second, samples, input, r, third, user')
    ensures third == second
    ensures r == if Registered(first.users, input.folded) || input.normal == Some(input.folded)
                 then Ok(SeedResult(input.folded, false, false, 0))
                 else Err(Rejected(DuplicateEmail))
  {
    SecondRefusal(first.users, second.users, input, user, AccountEmail(input, report));
    if r.Ok? {
      SeedReady(first, samples, input, report, second, user, 0);
      assert user' == user;
      NothingMissing(samples, Titles(second.tasks, user));
      NothingDone(second, third, user, input);
    }
  }

  lemma NothingDone(before: Tables, after: Tables, user: int, input: Input)
    requires user in before.users && before.users[user].hash == Hash(input.password, input.scheme)
    requires AccountSet(before.users, after.users, user, input.folded, input)
    requires exists ids, messages ::
      Planted(before.tasks, after.tasks, user, [], ids) && Posted(before.outbox, after.outbox, ids, messages)
    ensures after == before
  {
    assert forall u: int :: u in after.users ==> u in before.users && after.users[u] == before.users[u];
    SameMap(after.users, before.users);
    var ids, messages :|
      Planted(before.tasks, after.tasks, user, [], ids) && Posted(before.outbox, after.outbox, ids, messages);
    assert forall t: int :: t in before.tasks ==> t in after.tasks;
    assert forall t: int :: t in after.tasks ==> t in before.tasks && after.tasks[t] == before.tasks[t];
    SameMap(after.tasks, before.tasks);
    SameMap(after.outbox, before.outbox);
  }

  lemma SameMap<K, V>(a: map<K, V>, b: map<K, V>)
    requires forall k :: k in a <==> k in b
    requires forall k :: k in a ==> a[k] == b[k]
    ensures a == b
  {
  }

  lemma SecondRefusal(first: Users, second: Users, input: Input, user: int, email: string)
    requires Refusal(first, input).None? && AccountSet(first, second, user, email, input)
    requires email == if Registered(first, input.folded) then input.folded else input.normal.value
    requires user in first <==> Registered(first, input.folded)
    ensures Refusal(second, input)
         == if Registered(first, input.folded) || input.normal == Some(input.folded) then None
            else Some(Rejected(DuplicateEmail))
    ensures Registered(second, input.folded) <==> email == input.folded
  {
    assert Registered(second, email);
    if email != input.folded {
      forall v | v in second
        ensures second[v].email != input.folded
      {
        assert v in first && v != user ==> second[v] == first[v] && first[v].email != input.folded;
      }
    }
  }

  lemma {:induction false} AllMissing(samples: seq<Sample>)
    ensures Missing(samples, {}) == samples
  {
    if samples != [] {
      AllMissing(samples[..|samples| - 1]);
      assert samples == samples[..|samples| - 1] + [samples[|samples| - 1]];
    }
  }

  function PlantedTask(id: int, user: int, sample: Sample, at: Time): Task {
    Task(id, user, sample.title, Some(sample.description), sample.completed, None, at, at)
  }

  function Announcement(message: Id, task: int, at: Time): OutboxMessage {
    NewMessage(message, TASK_CREATED_TOPIC, TaskPayload(task), at)
  }

  /** The store after a first run at one moment: the new account, its three tasks and their messages. */
  function FreshTables(samples: seq<Sample>, agent: User, at: Time): Tables
    requires |samples| == 3
  {
    Tables(
      map[agent.id := agent],
      map[1 := PlantedTask(1, agent.id, samples[0], at), 2 := PlantedTask(2, agent.id, samples[1], at),
          3 := PlantedTask(3, agent.id, samples[2], at)],
      map[0 := Announcement(0, 1, at), 1 := Announcement(1, 2, at), 2 := Announcement(2, 3, at)])
  }

  lemma FreshTasks(samples: seq<Sample>, agent: User, at: Time)
    requires |samples| == 3
    ensures Planted(map[], FreshTables(samples, agent, at).tasks, agent.id, samples, [1, 2, 3])
  {
  }

  lemma FreshOutbox(samples: seq<Sample>, agent: User, at: Time)
    requires |samples| == 3
    ensures Posted(map[], FreshTables(samples, agent, at).outbox, [1, 2, 3], [0, 1, 2])
  {
  }

  /** A first run on an empty store. */
  lemma FirstRun(samples: seq<Sample>, input: Input, agent: User, at: Time)
    requires |samples| == 3 && input.normal == Some(agent.email) && input.allowed
    requires agent.hash == Hash(input.password, input.scheme) && agent.sessionVersion == 0
    ensures Seeded(Tables(map[], map[], map[]), samples, input, Ok(SeedResult(input.folded, true, false, 3)),
                   FreshTables(samples, agent, at), agent.id)
  {
    var after := FreshTables(samples, agent, at);
    FreshTasks(samples, agent, at);
    FreshOutbox(samples, agent, at);
    assert Titles(map[], agent.id) == {};
    AllMissing(samples);
    var ids, messages := [1, 2, 3], [0, 1, 2];
    assert Planted(map[], after.tasks, agent.id, Missing(samples, Titles(map[], agent.id)), ids)
        && Posted(map[], after.outbox, ids, messages);
  }

  /** An email that case folding leaves with its leading blank: on an empty store the seed creates the account, the
      three tasks and their messages, and every later run on that outcome raises and changes nothing. */
  lemma SecondRunMayRaise(r: Result<SeedResult, SeedError>, third: Tables, user: int)
    ensures
      var input := Input(" agent@example.test", Some("agent@example.test"), "correct-horse-battery", true, 0);
      var agent := User(1, "agent@example.test", Hash("correct-horse-battery", 0), 0, 0, 0);
      var second := FreshTables(SAMPLES, agent, 0);
      && Seeded(Tables(map[], map[], map[]), SAMPLES, input, Ok(SeedResult(" agent@example.test", true, false, 3)), second, 1)
      && (Seeded(second, SAMPLES, input, r, third, user) ==> r == Err(Rejected(DuplicateEmail)) && third == second)
  {
    var input := Input(" agent@example.test", Some("agent@example.test"), "correct-horse-battery", true, 0);
    var agent := User(1, "agent@example.test", Hash("correct-horse-battery", 0), 0, 0, 0);
    assert input.folded[0] != agent.email[0];
    AfterFirstRun(SAMPLES, input, agent, r, third, user);
  }

  lemma AfterFirstRun(
      samples: seq<Sample>, input: Input, agent: User, r: Result<SeedResult, SeedError>, third: Tables, user: int)
    requires |samples| == 3 && input.normal == Some(agent.email) && input.allowed && input.folded != agent.email
    requires agent.hash == Hash(input.password, input.scheme) && agent.sessionVersion == 0
    ensures var second := FreshTables(samples, agent, 0);
      && Seeded(Tables(map[], map[], map[]), samples, input, Ok(SeedResult(input.folded, true, false, 3)), second, agent.id)
      && (Seeded(second, samples, input, r, third, user) ==> r == Err(Rejected(DuplicateEmail)) && third == second)
  {
    var first, second := Tables(map[], map[], map[]), FreshTables(samples, agent, 0);
    FirstRun(samples, input, agent, 0);
    if Seeded(second, samples, input, r, third, user) {
      assert !Registered(first.users, input.folded);
      SecondRun(first, samples, input, SeedResult(input.folded, true, false, 3), second, agent.id, r, third, user);
    }
  }
}
