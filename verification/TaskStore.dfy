/** The task table and its use cases (src/app/domain/tasks.py, src/app/application/tasks.py). */
module TaskStore {
  import opened Basics
  import opened Text

  const MAX_TITLE_LENGTH := 200
  const MAX_DESCRIPTION_LENGTH := 5_000

  datatype TaskError = TitleRequired | TitleTooLong | DescriptionTooLong | TaskNotFound

  datatype Task = Task(
    id: int,
    userId: int,
    title: string,
    description: Option<string>,
    isCompleted: bool,
    processedAt: Option<Time>,
    createdAt: Time,
    updatedAt: Time)
  {
    function WithCompletion(completed: bool, at: Time): Task {
      this.(isCompleted := completed, updatedAt := at)
    }

    function WithBackgroundProcessed(at: Time): Task {
      if processedAt.Some? then this else this.(processedAt := Some(at), updatedAt := at)
    }

    function Edited(newTitle: string, newDescription: Option<string>, at: Time): Result<Task, TaskError> {
      match NormalizeTitle(newTitle)
      case Err(e) => Err(e)
      case Ok(t) =>
        match NormalizeDescription(newDescription)
        case Err(e) => Err(e)
        case Ok(d) => Ok(this.(title := t, description := d, updatedAt := at))
    }
  }

  function NormalizeTitle(value: string): Result<string, TaskError> {
    var title := Strip(value);
    if title == "" then Err(TitleRequired)
    else if |title| > MAX_TITLE_LENGTH then Err(TitleTooLong)
    else Ok(title)
  }

  function NormalizeDescription(value: Option<string>): Result<Option<string>, TaskError> {
    match value
    case None => Ok(None)
    case Some(v) =>
      var description := Strip(v);
      if |description| > MAX_DESCRIPTION_LENGTH then Err(DescriptionTooLong)
      else Ok(if description == "" then None else Some(description))
  }

  /** The row create_task inserts. */
  function NewTask(id: int, user: int, title: string, description: Option<string>, now: Time): Result<Task, TaskError> {
    match NormalizeTitle(title)
    case Err(e) => Err(e)
    case Ok(t) =>
      match NormalizeDescription(description)
      case Err(e) => Err(e)
      case Ok(d) => Ok(Task(id, user, t, d, false, None, now, now))
  }

  type Tasks = map<int, Task>

  /** SELECT ... WHERE id = task_id AND user_id = user. */
  function GetOwned(tasks: Tasks, user: int, id: int): Option<Task> {
    if id in tasks && tasks[id].userId == user then Some(tasks[id]) else None
  }

  function GetTask(tasks: Tasks, user: int, id: int): Result<Task, TaskError> {
    match GetOwned(tasks, user, id)
    case None => Err(TaskNotFound)
    case Some(t) => Ok(t)
  }

  /** Edit and toggle: the owned row is read, changed and written back in one atomic transaction. */
  function UpdateTask(tasks: Tasks, user: int, id: int, title: string, description: Option<string>, at: Time)
    : (Tasks, Result<Task, TaskError>)
  {
    match GetOwned(tasks, user, id)
    case None => (tasks, Err(TaskNotFound))
    case Some(t) =>
      match t.Edited(title, description, at)
      case Err(e) => (tasks, Err(e))
      case Ok(u) => (tasks[id := u], Ok(u))
  }

  function ToggleTask(tasks: Tasks, user: int, id: int, at: Time): (Tasks, Result<Task, TaskError>) {
    match GetOwned(tasks, user, id)
    case None => (tasks, Err(TaskNotFound))
    case Some(t) =>
      var u := t.WithCompletion(!t.isCompleted, at);
      (tasks[id := u], Ok(u))
  }

  function DeleteTask(tasks: Tasks, user: int, id: int): (Tasks, Result<(), TaskError>) {
    if GetOwned(tasks, user, id).Some? then (tasks - {id}, Ok(())) else (tasks, Err(TaskNotFound))
  }

  /** UPDATE ... SET background_processed_at WHERE id = task_id AND background_processed_at IS NULL. */
  function MarkProcessed(tasks: Tasks, id: int, at: Time): Tasks {
    if id in tasks && tasks[id].processedAt.None?
    then tasks[id := tasks[id].(processedAt := Some(at), updatedAt := at)]
    else tasks
  }

  /** A task that the worker has nothing left to do for: processed, or gone. */
  predicate Settled(tasks: Tasks, id: int) {
    id in tasks ==> tasks[id].processedAt.Some?
  }

  // ---- what the rules and transitions amount to -----------------------------------------------------

  predicate NormalTitle(title: string) {
    title != "" && |title| <= MAX_TITLE_LENGTH && Trimmed(title)
  }

  predicate NormalDescription(description: Option<string>) {
    description.Some? ==>
      description.value != "" && |description.value| <= MAX_DESCRIPTION_LENGTH && Trimmed(description.value)
  }

  predicate NormalTask(task: Task) {
    NormalTitle(task.title) && NormalDescription(task.description)
  }

  /** A title is accepted, as its stripped text, exactly if that has 1 to 200 characters. */
  lemma TitleRule(value: string)
    ensures NormalizeTitle(value) == Ok(Strip(value)) <==> 1 <= |Strip(value)| <= 200
    ensures NormalizeTitle(value) == Err(TitleRequired) <==> Blank(value)
    ensures NormalizeTitle(value) == Err(TitleTooLong) <==> |Strip(value)| > 200
    ensures NormalizeTitle(value).Ok? ==> NormalTitle(NormalizeTitle(value).value)
    ensures NormalizeTitle(value) == Ok(value) <==> NormalTitle(value)
  {
    StripTrims(value);
    StripOfBlank(value);
  }

  /** The stored form of a description: none, or the stripped text unless it is blank. */
  function Described(value: Option<string>): Option<string> {
    if value.None? || Strip(value.value) == "" then None else Some(Strip(value.value))
  }

  /** A description is accepted, in its stored form, exactly if its stripped text has at most 5000 characters. */
  lemma DescriptionRule(value: Option<string>)
    ensures NormalizeDescription(value) == Ok(Described(value)) <==> value.None? || |Strip(value.value)| <= 5_000
    ensures NormalizeDescription(value) == Err(DescriptionTooLong) <==> value.Some? && |Strip(value.value)| > 5_000
    ensures Described(value) == None <==> value.None? || Blank(value.value)
    ensures Described(value).Some? ==> value.Some? && Described(value).value == Strip(value.value)
    ensures NormalizeDescription(value).Ok? ==> NormalDescription(NormalizeDescription(value).value)
    ensures NormalizeDescription(value) == Ok(value) <==> NormalDescription(value)
  {
    if value.Some? {
      StripTrims(value.value);
      StripOfBlank(value.value);
    }
  }

  /** Both texts of a form are acceptable. */
  predicate GoodTexts(title: string, description: Option<string>) {
    1 <= |Strip(title)| <= 200 && (description.Some? ==> |Strip(description.value)| <= 5_000)
  }

  /** A new task has the stripped texts, is open, unprocessed, and dated now; it is refused for a bad text only. */
  lemma NewTaskRule(id: int, user: int, title: string, description: Option<string>, now: Time)
    ensures NewTask(id, user, title, description, now).Ok? <==> GoodTexts(title, description)
    ensures GoodTexts(title, description) ==>
      NewTask(id, user, title, description, now)
      == Ok(Task(id, user, Strip(title), Described(description), false, None, now, now))
  {
    TitleRule(title);
    DescriptionRule(description);
  }

  /** An edit is refused exactly for a bad text; it stores the submitted texts, stripped, and keeps everything else but
      the update time; with a normal task's own texts it changes nothing else. */
  lemma EditRule(task: Task, title: string, description: Option<string>, at: Time)
    ensures task.Edited(title, description, at).Ok? <==> GoodTexts(title, description)
    ensures GoodTexts(title, description) ==>
      task.Edited(title, description, at)
      == Ok(Task(task.id, task.userId, Strip(title), Described(description), task.isCompleted, task.processedAt,
                 task.createdAt, at))
    ensures task.Edited(title, description, at).Ok? ==> NormalTask(task.Edited(title, description, at).value)
    ensures task.Edited(task.title, task.description, at) == Ok(task.(updatedAt := at)) <==> NormalTask(task)
  {
    TitleRule(title);
    DescriptionRule(description);
    TitleRule(task.title);
    DescriptionRule(task.description);
  }

  /** Every other task is as it was. */
  ghost predicate OthersKept(before: Tasks, after: Tasks, id: int) {
    forall t :: t != id ==> (t in after <==> t in before) && (t in before ==> after[t] == before[t])
  }

  /** A user reads exactly the own tasks. */
  lemma GetRule(tasks: Tasks, user: int, id: int)
    ensures GetTask(tasks, user, id)
         == if id in tasks && tasks[id].userId == user then Ok(tasks[id]) else Err(TaskNotFound)
  {
  }

  /** The edit of an owned task stores and returns the edited row; a bad text or a task that is not owned changes nothing. */
  lemma UpdateRule(tasks: Tasks, user: int, id: int, title: string, description: Option<string>, at: Time)
    ensures var (after, r) := UpdateTask(tasks, user, id, title, description, at);
      && OthersKept(tasks, after, id)
      && (!(id in tasks && tasks[id].userId == user) ==> r == Err(TaskNotFound) && after == tasks)
      && (id in tasks && tasks[id].userId == user && !GoodTexts(title, description) ==>
            r.Err? && r.error != TaskNotFound && after == tasks)
      && (id in tasks && tasks[id].userId == user && GoodTexts(title, description) ==>
            && id in after && r == Ok(after[id])
            && after[id] == Task(tasks[id].id, user, Strip(title), Described(description), tasks[id].isCompleted,
                                 tasks[id].processedAt, tasks[id].createdAt, at))
  {
    TitleRule(title);
    DescriptionRule(description);
  }

  /** The toggle of an owned task stores and returns the row with its completion flipped. */
  lemma ToggleRule(tasks: Tasks, user: int, id: int, at: Time)
    ensures var (after, r) := ToggleTask(tasks, user, id, at);
      && OthersKept(tasks, after, id)
      && (!(id in tasks && tasks[id].userId == user) ==> r == Err(TaskNotFound) && after == tasks)
      && (id in tasks && tasks[id].userId == user ==>
            && id in after && r == Ok(after[id])
            && after[id] == Task(tasks[id].id, user, tasks[id].title, tasks[id].description, !tasks[id].isCompleted,
                                 tasks[id].processedAt, tasks[id].createdAt, at))
  {
  }

  /** A toggle flips an owned task; two toggles change its update time and nothing else. */
  lemma ToggleTwice(tasks: Tasks, user: int, id: int, first: Time, second: Time)
    ensures var (once, r) := ToggleTask(tasks, user, id, first);
      && (r.Ok? <==> id in tasks && tasks[id].userId == user)
      && (r.Ok? ==> once.Keys == tasks.Keys && once[id].isCompleted != tasks[id].isCompleted)
      && (r.Ok? ==> ToggleTask(once, user, id, second).0 == tasks[id := tasks[id].(updatedAt := second)])
      && (r.Err? ==> once == tasks)
  {
  }

  /** A delete succeeds exactly for an owned task, which is gone afterwards; otherwise nothing changes. */
  lemma DeleteRule(tasks: Tasks, user: int, id: int)
    ensures var (after, r) := DeleteTask(tasks, user, id);
      && OthersKept(tasks, after, id)
      && (id in tasks && tasks[id].userId == user ==> r == Ok(()) && id !in after)
      && (!(id in tasks && tasks[id].userId == user) ==> r == Err(TaskNotFound) && after == tasks)
  {
  }

  /** A delivery stamps an unprocessed task with its time, once, and touches nothing else. */
  lemma MarkRule(tasks: Tasks, id: int, at: Time)
    ensures var after := MarkProcessed(tasks, id, at);
      && OthersKept(tasks, after, id)
      && (id in after <==> id in tasks)
      && (id in tasks && tasks[id].processedAt.Some? ==> after[id] == tasks[id])
      && (id in tasks && tasks[id].processedAt.None? ==>
            after[id] == Task(tasks[id].id, tasks[id].userId, tasks[id].title, tasks[id].description,
                              tasks[id].isCompleted, Some(at), tasks[id].createdAt, at))
  {
  }

  /** The conditional update is the immutable transition on the stored row, and a duplicate of it changes nothing. */
  lemma MarkOnce(tasks: Tasks, id: int, first: Time, second: Time)
    ensures MarkProcessed(tasks, id, first)
         == if id in tasks then tasks[id := tasks[id].WithBackgroundProcessed(first)] else tasks
    ensures MarkProcessed(MarkProcessed(tasks, id, first), id, second) == MarkProcessed(tasks, id, first)
    ensures Settled(MarkProcessed(tasks, id, first), id)
  {
    if id in tasks && tasks[id].processedAt.Some? {
      assert tasks[id := tasks[id]] == tasks;
    }
  }
}
