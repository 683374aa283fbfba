/** The repositories and use cases over one mutable store: what a single transaction does to its tables
    (src/app/adapters/persistence/repositories.py, src/app/application/). */
module UnitOfWork {
  import opened Basics
  import opened OutboxMessages
  import opened TaskStore
  import opened UserStore

  class Store {
    var users: Users
    var tasks: Tasks
    var outbox: map<Id, OutboxMessage>
    // Ids below these have been handed out.
    var nextUser: nat
    var nextTask: nat
    var nextMessage: nat

    ghost predicate Valid()
      reads this
    {
      && UniqueEmails(users)
      && (forall t :: t in tasks ==> tasks[t].id == t && t < nextTask)
      && (forall u :: u in users ==> u < nextUser)
      && (forall m :: m in outbox ==> m < nextMessage)
    }

    constructor ()
      ensures Valid() && users == map[] && tasks == map[] && outbox == map[]
    {
      users, tasks, outbox := map[], map[], map[];
      nextUser, nextTask, nextMessage := 1, 1, 0;
    }

    // ---- repositories ------------------------------------------------------------------------------

    method FindUser(email: string) returns (found: Option<User>)
      requires Valid()
      ensures found == (match FindByEmail(users, email) case None => None case Some(u) => Some(users[u]))
    {
      if u :| u in users && users[u].email == email {
        found := Some(users[u]);
      } else {
        found := None;
      }
    }

    /** UserRepository.add: the unique index decides, and a draw from a sequence may leave gaps. */
    method AddUser(email: string, hash: Hash, now: Time) returns (r: Result<User, AuthError>)
      requires Valid()
      modifies this`users, this`nextUser
      ensures Valid()
      ensures r.Err? <==> Registered(old(users), email)
      ensures r.Err? ==> r.error == DuplicateEmail && users == old(users)
      ensures r.Ok? ==> r.value.id !in old(users) && r.value == User(r.value.id, email, hash, 0, now, now)
      ensures r.Ok? ==> users == old(users)[r.value.id := r.value]
    {
      if u :| u in users && users[u].email == email {
        return Err(DuplicateEmail);
      }
      var id: nat :| nextUser <= id;
      var user := User(id, email, hash, 0, now, now);
      users := users[id := user];
      nextUser := id + 1;
      return Ok(user);
    }

    /** UserRepository.update_credentials: three columns of the stored row are assigned, and no others. */
    method WriteCredentials(user: User) returns (row: User)
      requires Valid() && user.id in users
      modifies this`users
      ensures Valid() && users == UpdateCredentials(old(users), user)
      ensures row == users[user.id]
      ensures row == User(user.id, old(users)[user.id].email, user.hash, user.sessionVersion,
                          old(users)[user.id].createdAt, user.updatedAt)
      ensures OnlyUser(old(users), users, user.id)
    {
      row := users[user.id];
      row := row.(hash := user.hash);
      row := row.(sessionVersion := user.sessionVersion);
      row := row.(updatedAt := user.updatedAt);
      users := users[user.id := row];
    }

    // ---- use cases ---------------------------------------------------------------------------------

    method Register(email: string, password: string, allowed: bool, scheme: nat, now: Time)
      returns (r: Answer, ghost id: int)
      requires Valid()
      modifies this`users, this`nextUser
      ensures Valid() && id !in old(users)
      ensures (users, r) == UserStore.Register(old(users), id, email, password, allowed, scheme, now)
    {
      id := nextUser;
      if !allowed {
        return Err(PasswordRejected), id;
      }
      var added := AddUser(email, Hash(password, scheme), now);
      match added
      case Err(e) => r := Err(e);
      case Ok(user) =>
        id := user.id;
        r := Ok(AuthResult(user.id, user.email, user.sessionVersion));
    }

    method Authenticate(email: string, password: string, scheme: nat, now: Time) returns (r: Answer)
      requires Valid()
      modifies this`users
      ensures Valid() && (users, r) == UserStore.Authenticate(old(users), email, password, scheme, now)
      ensures forall u :: u in old(users) && old(users)[u].email == email && old(users)[u].hash.password == password ==>
        && r == Ok(AuthResult(u, email, old(users)[u].sessionVersion)) && OnlyUser(old(users), users, u)
        && u in users && users[u].hash == Hash(password, scheme) && users[u].sessionVersion == old(users)[u].sessionVersion
      ensures (forall u :: u in old(users) && old(users)[u].email == email ==> old(users)[u].hash.password != password) ==>
        r == Err(InvalidCredentials) && users == old(users)
    {
      var found := FindUser(email);
      if found.None? {
        return Err(InvalidCredentials);
      }
      var user := found.value;
      var verification := Verify(password, user.hash, scheme);
      if !verification.valid {
        return Err(InvalidCredentials);
      }
      if verification.replacement.Some? {
        user := WriteCredentials(user.WithRehashedPassword(verification.replacement.value, now));
      }
      r := Ok(AuthResult(user.id, user.email, user.sessionVersion));
    }

    method ChangePassword(
        userId: int, current: string, chosen: string, confirmation: string, allowed: bool, scheme: nat, now: Time)
      returns (r: Answer)
      requires Valid()
      modifies this`users
      ensures Valid()
      ensures (users, r) == UserStore.ChangePassword(old(users), userId, current, chosen, confirmation, allowed, scheme, now)
    {
      if userId !in users {
        return Err(InvalidSession);
      }
      var user := users[userId];
      if !Verify(current, user.hash, scheme).valid {
        return Err(CurrentPasswordMismatch);
      }
      if chosen != confirmation {
        return Err(ConfirmationMismatch);
      }
      if !allowed {
        return Err(PasswordRejected);
      }
      var updated := WriteCredentials(user.WithPassword(Hash(chosen, scheme), now));
      r := Ok(AuthResult(updated.id, updated.email, updated.sessionVersion));
    }

    /** create_task: the task row and its outbox row, or neither. */
    method CreateTask(userId: int, title: string, description: Option<string>, now: Time)
      returns (r: Result<Task, TaskError>, ghost id: int, ghost message: Id)
      requires Valid()
      modifies this`tasks, this`outbox, this`nextTask, this`nextMessage
      ensures Valid() && id !in old(tasks) && message !in old(outbox)
      ensures r == NewTask(id, userId, title, description, now)
      ensures r.Ok? ==> tasks == old(tasks)[id := r.value]
      ensures r.Ok? ==>
        outbox == old(outbox)[message := NewMessage(message, TASK_CREATED_TOPIC, TaskPayload(id), now)]
      ensures r.Err? ==> tasks == old(tasks) && outbox == old(outbox)
    {
      id, message := nextTask, nextMessage;
      var titled := NormalizeTitle(title);
      if titled.Err? {
        return Err(titled.error), id, message;
      }
      var described := NormalizeDescription(description);
      if described.Err? {
        return Err(described.error), id, message;
      }
      var taskId: nat :| nextTask <= taskId;
      var task := Task(taskId, userId, titled.value, described.value, false, None, now, now);
      tasks := tasks[taskId := task];
      nextTask := taskId + 1;

      var messageId: nat :| nextMessage <= messageId;
      outbox := outbox[messageId := NewMessage(messageId, TASK_CREATED_TOPIC, TaskPayload(taskId), now)];
      nextMessage := messageId + 1;
      return Ok(task), taskId, messageId;
    }

    /** TaskRepository.update: every mutable column of the owned row is assigned from the detached task. */
    method WriteTask(task: Task) returns (row: Task)
      requires Valid() && GetOwned(tasks, task.userId, task.id).Some?
      modifies this`tasks
      ensures Valid()
      ensures row == old(tasks[task.id]).(title := task.title, description := task.description,
                isCompleted := task.isCompleted, processedAt := task.processedAt, updatedAt := task.updatedAt)
      ensures tasks == old(tasks)[task.id := row]
    {
      row := tasks[task.id];
      row := row.(title := task.title);
      row := row.(description := task.description);
      row := row.(isCompleted := task.isCompleted);
      row := row.(processedAt := task.processedAt);
      row := row.(updatedAt := task.updatedAt);
      tasks := tasks[task.id := row];
    }

    method EditTask(userId: int, taskId: int, title: string, description: Option<string>, now: Time)
      returns (r: Result<Task, TaskError>)
      requires Valid()
      modifies this`tasks
      ensures Valid() && (tasks, r) == TaskStore.UpdateTask(old(tasks), userId, taskId, title, description, now)
    {
      var task := GetOwned(tasks, userId, taskId);
      if task.None? {
        return Err(TaskNotFound);
      }
      var edited := task.value.Edited(title, description, now);
      if edited.Err? {
        return edited;
      }
      var row := WriteTask(edited.value);
      return Ok(row);
    }

    method ToggleTask(userId: int, taskId: int, now: Time) returns (r: Result<Task, TaskError>)
      requires Valid()
      modifies this`tasks
      ensures Valid() && (tasks, r) == TaskStore.ToggleTask(old(tasks), userId, taskId, now)
    {
      var task := GetOwned(tasks, userId, taskId);
      if task.None? {
        return Err(TaskNotFound);
      }
      var row := WriteTask(task.value.WithCompletion(!task.value.isCompleted, now));
      return Ok(row);
    }

    method DeleteTask(userId: int, taskId: int) returns (r: Result<(), TaskError>)
      requires Valid()
      modifies this`tasks
      ensures Valid() && (tasks, r) == TaskStore.DeleteTask(old(tasks), userId, taskId)
      ensures taskId in old(tasks) && old(tasks)[taskId].userId == userId ==>
        r == Ok(()) && tasks == old(tasks) - {taskId}
      ensures !(taskId in old(tasks) && old(tasks)[taskId].userId == userId) ==>
        r == Err(TaskNotFound) && tasks == old(tasks)
    {
      if taskId !in tasks || tasks[taskId].userId != userId {
        return Err(TaskNotFound);
      }
      tasks := tasks - {taskId};
      return Ok(());
    }

    /** process_task_created: the conditional update, then a read of the row. */
    method ProcessTaskCreated(taskId: int, now: Time) returns (row: Option<Task>)
      requires Valid()
      modifies this`tasks
      ensures Valid() && tasks == MarkProcessed(old(tasks), taskId, now)
      ensures row == if taskId in tasks then Some(tasks[taskId]) else None
    {
      if taskId in tasks && tasks[taskId].processedAt.None? {
        tasks := tasks[taskId := tasks[taskId].(processedAt := Some(now))];
        tasks := tasks[taskId := tasks[taskId].(updatedAt := now)];
      }
      row := if taskId in tasks then Some(tasks[taskId]) else None;
    }
  }
}
