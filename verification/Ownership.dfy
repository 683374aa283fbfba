/** Tasks of one user are out of reach, and out of sight, of every other user. */
module Ownership {
  import opened Basics
  import opened Text
  import opened TaskStore

  /** One task transaction of the web layer, or the worker's mark. Ids come from the table's sequence. */
  datatype Op =
    | Create(user: int, id: int, title: string, description: Option<string>, at: Time)
    | Get(user: int, id: int)
    | List(user: int)
    | Edit(user: int, id: int, title: string, description: Option<string>, at: Time)
    | Toggle(user: int, id: int, at: Time)
    | Delete(user: int, id: int)
    | Deliver(id: int, at: Time)

  datatype View =
    | One(task: Result<Task, TaskError>)
    | Many(tasks: seq<Task>)
    | Removed(outcome: Result<(), TaskError>)
    | Nothing

  // ---- the owner's list ----------------------------------------------------------------------------

  /** ORDER BY created_at DESC, id DESC. */
  predicate Later(a: Task, b: Task) {
    a.createdAt > b.createdAt || (a.createdAt == b.createdAt && a.id > b.id)
  }

  ghost function Owned(tasks: Tasks, user: int): set<int> {
    set t | t in tasks && tasks[t].userId == user
  }

  predicate IsNewest(tasks: Tasks, pool: set<int>, t: int)
    requires pool <= tasks.Keys
  {
    t in pool && forall x :: x in pool && x != t ==> Later(tasks[t], tasks[x])
  }

  predicate Keyed(tasks: Tasks) {
    forall t :: t in tasks ==> tasks[t].id == t
  }

  lemma Inhabited(pool: set<int>)
    ensures pool == {} || exists t :: t in pool
  {
    assert (forall t: int :: t !in pool) ==> pool == {};
  }

  lemma {:induction false} NewestExists(tasks: Tasks, pool: set<int>)
    requires pool != {} && pool <= tasks.Keys && Keyed(tasks)
    ensures exists t :: IsNewest(tasks, pool, t)
    decreases pool
  {
    Inhabited(pool);
    var a :| a in pool;
    if pool == {a} {
      assert IsNewest(tasks, pool, a);
    } else {
      NewestExists(tasks, pool - {a});
      var b :| IsNewest(tasks, pool - {a}, b);
      var t := if Later(tasks[a], tasks[b]) then a else b;
      forall x | x in pool && x != t
        ensures Later(tasks[t], tasks[x])
      {
        assert x == a || x == b || Later(tasks[b], tasks[x]);
      }
      assert IsNewest(tasks, pool, t);
    }
  }

  ghost function Newest(tasks: Tasks, pool: set<int>): (t: int)
    requires Keyed(tasks) && pool <= tasks.Keys && pool != {}
    ensures IsNewest(tasks, pool, t)
  {
    NewestExists(tasks, pool);
    var t :| IsNewest(tasks, pool, t);
    t
  }

  ghost function Listing(tasks: Tasks, pool: set<int>): seq<Task>
    requires Keyed(tasks) && pool <= tasks.Keys
    decreases pool
  {
    if pool == {} then []
    else
      var t := Newest(tasks, pool);
      [tasks[t]] + Listing(tasks, pool - {t})
  }

  /** list_owned. */
  ghost function ListOwned(tasks: Tasks, user: int): seq<Task>
    requires Keyed(tasks)
  {
    Listing(tasks, Owned(tasks, user))
  }

  lemma {:induction false} ListingIs(tasks: Tasks, pool: set<int>)
    requires Keyed(tasks) && pool <= tasks.Keys
    ensures var list := Listing(tasks, pool);
            && |list| == |pool|
            && (forall i :: 0 <= i < |list| ==> list[i].id in pool && list[i] == tasks[list[i].id])
            && (forall t :: t in pool ==> tasks[t] in list)
            && (forall i, j :: 0 <= i < j < |list| ==> Later(list[i], list[j]))
    decreases pool
  {
    if pool != {} {
      var t := Newest(tasks, pool);
      ListingIs(tasks, pool - {t});
      var rest := Listing(tasks, pool - {t});
      var list := Listing(tasks, pool);
      assert list == [tasks[t]] + rest;
      forall x | x in pool
        ensures tasks[x] in list
      {
        assert x == t || tasks[x] in rest;
      }
    }
  }

  /** The list holds exactly the user's tasks, once each, newest first. */
  lemma ListOwnedIs(tasks: Tasks, user: int)
    requires Keyed(tasks)
    ensures var list := ListOwned(tasks, user);
            && (forall task :: task in list <==> task.id in tasks && tasks[task.id] == task && task.userId == user)
            && (forall i, j :: 0 <= i < j < |list| ==>
                  list[i].createdAt > list[j].createdAt
                  || (list[i].createdAt == list[j].createdAt && list[i].id > list[j].id))
  {
    ListingIs(tasks, Owned(tasks, user));
    var list := ListOwned(tasks, user);
    assert forall i, j :: 0 <= i < j < |list| ==> Later(list[i], list[j]);
  }

  // ---- operations ------------------------------------------------------------------------------------

  ghost function Apply(tasks: Tasks, op: Op): (Tasks, View)
    requires Keyed(tasks)
  {
    match op
    case Create(user, id, title, description, at) =>
      (match NewTask(id, user, title, description, at)
       case Ok(task) => (tasks[id := task], One(Ok(task)))
       case Err(e) => (tasks, One(Err(e))))
    case Get(user, id) => (tasks, One(GetTask(tasks, user, id)))
    case List(user) => (tasks, Many(ListOwned(tasks, user)))
    case Edit(user, id, title, description, at) =>
      var (tasks', r) := UpdateTask(tasks, user, id, title, description, at);
      (tasks', One(r))
    case Toggle(user, id, at) =>
      var (tasks', r) := ToggleTask(tasks, user, id, at);
      (tasks', One(r))
    case Delete(user, id) =>
      var (tasks', r) := DeleteTask(tasks, user, id);
      (tasks', Removed(r))
    case Deliver(id, at) => (MarkProcessed(tasks, id, at), Nothing)
  }

  predicate By(op: Op, user: int) {
    !op.Deliver? && op.user == user
  }

  lemma ApplyKeyed(tasks: Tasks, op: Op)
    requires Keyed(tasks)
    ensures Keyed(Apply(tasks, op).0)
  {
  }

  /** Two stores hold the same tasks of one user. */
  ghost predicate Agree(a: Tasks, b: Tasks, user: int) {
    forall id :: GetOwned(a, user, id) == GetOwned(b, user, id)
  }

  lemma {:induction false} ListingAgrees(a: Tasks, b: Tasks, pool: set<int>)
    requires Keyed(a) && Keyed(b) && pool <= a.Keys && pool <= b.Keys
    requires forall t :: t in pool ==> a[t] == b[t]
    ensures Listing(a, pool) == Listing(b, pool)
    decreases pool
  {
    if pool != {} {
      var t := Newest(a, pool);
      var u := Newest(b, pool);
      assert IsNewest(a, pool, u);
      assert t == u;
      ListingAgrees(a, b, pool - {t});
    }
  }

  lemma ListAgrees(a: Tasks, b: Tasks, user: int)
    requires Keyed(a) && Keyed(b) && Agree(a, b, user)
    ensures ListOwned(a, user) == ListOwned(b, user)
  {
    forall t
      ensures t in Owned(a, user) <==> t in Owned(b, user)
      ensures t in Owned(a, user) ==> a[t] == b[t]
    {
      assert GetOwned(a, user, t) == GetOwned(b, user, t);
    }
    assert Owned(a, user) == Owned(b, user);
    ListingAgrees(a, b, Owned(a, user));
  }

  predicate FreshIn(tasks: Tasks, op: Op) {
    op.Create? ==> op.id !in tasks
  }

  /** A user's own operation sees and changes nothing but that user's tasks. */
  lemma OwnStep(a: Tasks, b: Tasks, op: Op, user: int)
    requires Keyed(a) && Keyed(b) && Agree(a, b, user) && FreshIn(a, op) && FreshIn(b, op)
    requires By(op, user) || op.Deliver?
    ensures Apply(a, op).1 == Apply(b, op).1
    ensures Agree(Apply(a, op).0, Apply(b, op).0, user)
  {
    if op.List? {
      ListAgrees(a, b, user);
    } else {
      assert GetOwned(a, user, op.id) == GetOwned(b, user, op.id);
    }
    forall id
      ensures GetOwned(Apply(a, op).0, user, id) == GetOwned(Apply(b, op).0, user, id)
    {
      assert GetOwned(a, user, id) == GetOwned(b, user, id);
    }
  }

  /** Another user's operation leaves this user's tasks as they were. */
  lemma ForeignStep(tasks: Tasks, op: Op, user: int)
    requires Keyed(tasks) && FreshIn(tasks, op) && !op.Deliver? && !By(op, user)
    ensures Agree(Apply(tasks, op).0, tasks, user)
  {
  }

  /** A task of somebody else and a missing task are the same to a user. */
  lemma UnownedIsAbsent(tasks: Tasks, op: Op, user: int, id: int)
    requires Keyed(tasks) && By(op, user) && FreshIn(tasks, op)
    requires id in tasks && tasks[id].userId != user
    ensures Apply(tasks, op).1 == Apply(tasks - {id}, op).1
    ensures op.Get? && op.id == id ==> Apply(tasks, op).1 == One(Err(TaskNotFound))
  {
    OwnStep(tasks, tasks - {id}, op, user);
  }

  // ---- runs --------------------------------------------------------------------------------------------

  /** Created ids are new: not in the table now, nor used before. */
  predicate FreshRun(ops: seq<Op>, used: set<int>) {
    ops == [] || ((ops[0].Create? ==> ops[0].id !in used)
                  && FreshRun(ops[1..], if ops[0].Create? then used + {ops[0].id} else used))
  }

  /** The run without the other users' operations; the worker's deliveries stay. */
  function Purge(ops: seq<Op>, user: int): seq<Op> {
    if ops == [] then []
    else (if By(ops[0], user) || ops[0].Deliver? then [ops[0]] else []) + Purge(ops[1..], user)
  }

  /** What a user sees in a run. */
  ghost function Views(tasks: Tasks, ops: seq<Op>, user: int): seq<View>
    requires Keyed(tasks)
    decreases |ops|
  {
    if ops == [] then []
    else
      ApplyKeyed(tasks, ops[0]);
      var (tasks', view) := Apply(tasks, ops[0]);
      (if By(ops[0], user) then [view] else []) + Views(tasks', ops[1..], user)
  }

  ghost function Final(tasks: Tasks, ops: seq<Op>): (end: Tasks)
    requires Keyed(tasks)
    ensures Keyed(end)
    decreases |ops|
  {
    if ops == [] then tasks
    else
      ApplyKeyed(tasks, ops[0]);
      Final(Apply(tasks, ops[0]).0, ops[1..])
  }

  lemma KeysUsed(tasks: Tasks, op: Op, used: set<int>)
    requires Keyed(tasks) && tasks.Keys <= used
    ensures Apply(tasks, op).0.Keys <= if op.Create? then used + {op.id} else used
  {
  }

  /** Over any run, a user's results and tasks are what they would be had the others done nothing. */
  lemma {:induction false} OthersAreInvisible(a: Tasks, b: Tasks, ops: seq<Op>, user: int, used: set<int>)
    requires Keyed(a) && Keyed(b) && Agree(a, b, user)
    requires a.Keys <= used && b.Keys <= used && FreshRun(ops, used)
    ensures Views(a, ops, user) == Views(b, Purge(ops, user), user)
    ensures Agree(Final(a, ops), Final(b, Purge(ops, user)), user)
    decreases |ops|
  {
    if ops != [] {
      var op := ops[0];
      var rest := Purge(ops[1..], user);
      var used' := if op.Create? then used + {op.id} else used;
      ApplyKeyed(a, op);
      ApplyKeyed(b, op);
      KeysUsed(a, op, used);
      KeysUsed(b, op, used);
      if By(op, user) || op.Deliver? {
        OwnStep(a, b, op, user);
        OthersAreInvisible(Apply(a, op).0, Apply(b, op).0, ops[1..], user, used');
        assert Purge(ops, user) == [op] + rest && ([op] + rest)[1..] == rest;
      } else {
        ForeignStep(a, op, user);
        AgreeTransitive(Apply(a, op).0, a, b, user);
        OthersAreInvisible(Apply(a, op).0, b, ops[1..], user, used');
        assert Purge(ops, user) == rest;
      }
    }
  }

  lemma AgreeTransitive(a: Tasks, b: Tasks, c: Tasks, user: int)
    requires Agree(a, b, user) && Agree(b, c, user)
    ensures Agree(a, c, user)
  {
    forall id
      ensures GetOwned(a, user, id) == GetOwned(c, user, id)
    {
      assert GetOwned(a, user, id) == GetOwned(b, user, id);
      assert GetOwned(b, user, id) == GetOwned(c, user, id);
    }
  }

  /** A task never changes hands. */
  lemma {:induction false} OwnerIsFixed(tasks: Tasks, ops: seq<Op>, used: set<int>, id: int)
    requires Keyed(tasks) && tasks.Keys <= used && FreshRun(ops, used)
    requires id in tasks && id in Final(tasks, ops)
    ensures Final(tasks, ops)[id].userId == tasks[id].userId
    decreases |ops|
  {
    if ops != [] {
      var op := ops[0];
      var used' := if op.Create? then used + {op.id} else used;
      ApplyKeyed(tasks, op);
      KeysUsed(tasks, op, used);
      if id in Apply(tasks, op).0 {
        OwnerIsFixed(Apply(tasks, op).0, ops[1..], used', id);
      } else {
        GoneForGood(Apply(tasks, op).0, ops[1..], used', id);
      }
    }
  }

  lemma {:induction false} GoneForGood(tasks: Tasks, ops: seq<Op>, used: set<int>, id: int)
    requires Keyed(tasks) && tasks.Keys <= used && FreshRun(ops, used)
    requires id !in tasks && id in used
    ensures id !in Final(tasks, ops)
    decreases |ops|
  {
    if ops != [] {
      ApplyKeyed(tasks, ops[0]);
      KeysUsed(tasks, ops[0], used);
      GoneForGood(Apply(tasks, ops[0]).0, ops[1..], if ops[0].Create? then used + {ops[0].id} else used, id);
    }
  }

  ghost predicate AllNormal(tasks: Tasks) {
    forall t :: t in tasks ==> NormalTask(tasks[t])
  }

  lemma StepKeepsNormal(tasks: Tasks, op: Op)
    requires Keyed(tasks) && AllNormal(tasks)
    ensures AllNormal(Apply(tasks, op).0)
  {
    match op
    case Create(user, id, title, description, at) =>
      TitleRule(title);
      DescriptionRule(description);
    case Edit(user, id, title, description, at) =>
      if id in tasks { EditRule(tasks[id], title, description, at); }
    case _ =>
  }

  /** Whatever users submit, every stored task keeps a trimmed title of 1 to 200 characters and a trimmed,
      non-empty description of at most 5000, or none. */
  lemma {:induction false} TextsStayNormal(tasks: Tasks, ops: seq<Op>)
    requires Keyed(tasks) && AllNormal(tasks)
    ensures AllNormal(Final(tasks, ops))
    decreases |ops|
  {
    if ops != [] {
      ApplyKeyed(tasks, ops[0]);
      StepKeepsNormal(tasks, ops[0]);
      TextsStayNormal(Apply(tasks, ops[0]).0, ops[1..]);
    }
  }

  // ---- what a user sees of the own operations --------------------------------------------------------------

  /** What a user reads of one task. */
  ghost function Seen(tasks: Tasks, user: int, id: int): View
    requires Keyed(tasks)
  {
    Apply(tasks, Get(user, id)).1
  }

  /** A created task is read back with the submitted texts, and is in its owner's list. */
  lemma CreatedIsSeen(tasks: Tasks, user: int, id: int, title: string, description: Option<string>, at: Time)
    requires Keyed(tasks) && id !in tasks
    ensures var (after, view) := Apply(tasks, Create(user, id, title, description, at));
            var task := Task(id, user, Strip(title), Described(description), false, None, at, at);
            && Keyed(after) && OthersKept(tasks, after, id)
            && (GoodTexts(title, description) ==>
                  && view == One(Ok(task)) && Seen(after, user, id) == One(Ok(task))
                  && task in Apply(after, List(user)).1.tasks)
            && (!GoodTexts(title, description) ==> after == tasks && view.One? && view.task.Err?)
  {
    NewTaskRule(id, user, title, description, at);
    var after := Apply(tasks, Create(user, id, title, description, at)).0;
    ApplyKeyed(tasks, Create(user, id, title, description, at));
    ListOwnedIs(after, user);
  }

  /** An owner's edit, toggle and delete are seen by the owner's next read; the worker's mark as well. */
  lemma ChangesAreSeen(tasks: Tasks, user: int, id: int, title: string, description: Option<string>, at: Time)
    requires Keyed(tasks) && id in tasks && tasks[id].userId == user
    ensures var old_ := tasks[id];
      && (GoodTexts(title, description) ==>
            Seen(Apply(tasks, Edit(user, id, title, description, at)).0, user, id)
            == One(Ok(old_.(title := Strip(title), description := Described(description), updatedAt := at))))
      && Seen(Apply(tasks, Toggle(user, id, at)).0, user, id)
         == One(Ok(old_.(isCompleted := !old_.isCompleted, updatedAt := at)))
      && Seen(Apply(tasks, Delete(user, id)).0, user, id) == One(Err(TaskNotFound))
      && Seen(Apply(tasks, Deliver(id, at)).0, user, id)
         == One(Ok(if old_.processedAt.Some? then old_ else old_.(processedAt := Some(at), updatedAt := at)))
  {
    UpdateRule(tasks, user, id, title, description, at);
  }

  /** Once its owner has deleted it, a task is in no later table. */
  lemma DeletedForGood(tasks: Tasks, user: int, id: int, ops: seq<Op>, used: set<int>)
    requires Keyed(tasks) && tasks.Keys <= used && FreshRun(ops, used)
    requires id in tasks && tasks[id].userId == user
    ensures Apply(tasks, Delete(user, id)).1 == Removed(Ok(()))
    ensures id !in Final(tasks, [Delete(user, id)] + ops)
  {
    DeleteRule(tasks, user, id);
    var op := Delete(user, id);
    ApplyKeyed(tasks, op);
    KeysUsed(tasks, op, used);
    assert ([op] + ops)[1..] == ops;
    GoneForGood(Apply(tasks, op).0, ops, used, id);
  }
}
