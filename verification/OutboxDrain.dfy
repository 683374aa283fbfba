/**
 Draining: with a healthy queue and one relay at a time, relay_once calls publish everything, oldest first, batch by
 batch. Stated of every trace that no failure disturbs, whatever the clocks, the worker and the users do in between.
 */
module OutboxDrain {
  import opened Basics
  import opened OutboxMessages
  import opened ClaimOrder
  import opened OutboxProtocol
  import opened OutboxInvariant
  import opened OutboxSteps
  import opened OutboxTheorems
  import opened OutboxPaths

  // ---- undisturbed traces ------------------------------------------------------------------------

  predicate IsClaim(step: Step) {
    step.RelayStep? && step.act.Claim?
  }

  predicate IsReturn(step: Step) {
    step.RelayStep? && step.act.Return?
  }

  /** No task is created, no publication or acknowledgement fails, nobody dies. The queue may call a key new or known;
      users may edit, toggle and delete, and the worker may do anything. */
  predicate Calm(step: Step, limit: nat) {
    match step
    case CreateStep(_, _) => false
    case RelayStep(_, act) =>
      && !act.Die? && !act.AckCommitLost? && !act.AckAbort? && !act.EnqueueFail? && !act.EnqueueLost?
      && (act.Claim? ==> act.limit == limit)
    case _ => true
  }

  function Claims(trace: seq<Step>): nat {
    if trace == [] then 0
    else Claims(trace[..|trace| - 1]) + if IsClaim(trace[|trace| - 1]) then 1 else 0
  }

  function Returns(trace: seq<Step>): nat {
    if trace == [] then 0
    else Returns(trace[..|trace| - 1]) + if IsReturn(trace[|trace| - 1]) then 1 else 0
  }

  /** The run under way after a step. */
  function After(current: Option<RelayId>, step: Step): Option<RelayId> {
    if IsClaim(step) then Some(step.r) else if IsReturn(step) then None else current
  }

  /** The run that has claimed and not returned yet. */
  function Current(trace: seq<Step>): Option<RelayId> {
    if trace == [] then None else After(Current(trace[..|trace| - 1]), trace[|trace| - 1])
  }

  /** A call starts only when all calls before it have returned. */
  predicate OneAtATime(trace: seq<Step>) {
    forall i :: 0 <= i < |trace| && IsClaim(trace[i]) ==> Claims(trace[..i]) == Returns(trace[..i])
  }

  predicate Undisturbed(trace: seq<Step>, limit: nat) {
    (forall i :: 0 <= i < |trace| ==> Calm(trace[i], limit)) && OneAtATime(trace)
  }

  // ---- how far a drain has come ----------------------------------------------------------------------

  /** Where a drain starts: the rows, those of them that are to be published, the sum of results so far. */
  datatype Drain = Drain(rows: Rows, pool: set<Id>, returned: nat, limit: nat)

  /** min(n, calls * limit). */
  function Done(n: nat, calls: nat, limit: nat): (done: nat)
    ensures done <= n
  {
    if n <= calls * limit then n else calls * limit
  }

  lemma DoneNext(n: nat, calls: nat, limit: nat)
    ensures Done(n, calls + 1, limit)
         == Done(n, calls, limit) + if n - Done(n, calls, limit) <= limit then n - Done(n, calls, limit) else limit
  {
    assert (calls + 1) * limit == calls * limit + limit;
  }

  function TodoIds(todo: seq<ClaimedMessage>): set<Id> {
    set i | 0 <= i < |todo| :: todo[i].id
  }

  /** The messages a run has claimed, or is claiming, and not yet acknowledged. */
  function InHand(me: Relay): set<Id> {
    if me.Claiming? then Ids(me.writes) else TodoIds(me.todo)
  }

  /** The rows of the pool that are neither published nor in hand. */
  ghost function Waiting(pool: set<Id>, rows: Rows, hand: set<Id>): set<Id> {
    set m | m in pool && m in rows && rows[m].publishedAt.None? && m !in hand
  }

  /** `taken` rows of the pool have been taken, none later than a waiting one; all other rows are as they were. */
  ghost predicate Progress(d: Drain, rows: Rows, hand: set<Id>, taken: nat) {
    var waiting := Waiting(d.pool, rows, hand);
    && d.pool <= d.rows.Keys && rows.Keys == d.rows.Keys && hand <= d.pool
    && |waiting| == |d.pool| - taken
    && (forall m :: m in rows && (m !in d.pool || m in waiting) ==> rows[m] == d.rows[m])
    && (forall p, x :: p in d.pool && p !in waiting && x in waiting ==> Before(d.rows, p, x))
  }

  /** The row may be published and acknowledged by this owner. */
  predicate IsReady(w: OutboxMessage, owner: string) {
    JobName(w.topic).Some? && w.leaseOwner == Some(owner) && w.publishedAt.None?
  }

  predicate ClearMessage(rows: Rows, message: ClaimedMessage, owner: string) {
    JobName(message.topic).Some? && LeasedBy(rows, message.id, owner)
  }

  predicate ClearList(rows: Rows, todo: seq<ClaimedMessage>, owner: string) {
    && (forall i :: 0 <= i < |todo| ==> ClearMessage(rows, todo[i], owner))
    && (forall i, j :: 0 <= i < j < |todo| ==> todo[i].id != todo[j].id)
  }

  /** A run on its way through a batch of the given size, whose every message it can publish. */
  ghost predicate Busy(rows: Rows, me: Relay, size: nat) {
    match me
    case Claiming(owner, writes, _, _) =>
      && |writes| == size
      && (forall i :: 0 <= i < |writes| ==> IsReady(writes[i], owner))
      && (forall i, j :: 0 <= i < j < |writes| ==> writes[i].id != writes[j].id)
    case AtMessage(owner, todo, acked) => acked + |todo| == size && ClearList(rows, todo, owner)
    case Enqueued(owner, todo, acked) => acked + |todo| == size && ClearList(rows, todo, owner) && todo != []
    case Acking(owner, todo, acked, write) =>
      acked + |todo| == size && ClearList(rows, todo, owner) && todo != [] && write.Some?
    case Failing(_, _, _) => false
    case Recording(_, _, _, _) => false
  }

  /** After k returned calls: their results are booked, and the next call, if there is one, is on its way. */
  ghost predicate Draining(d: Drain, rows: Rows, me: Option<Relay>, returned: nat, k: nat) {
    var n := |d.pool|;
    var done, next := Done(n, k, d.limit), Done(n, k + 1, d.limit);
    && returned == d.returned + done
    && match me
       case None => Progress(d, rows, {}, done)
       case Some(relay) => done <= next && Busy(rows, relay, next - done) && Progress(d, rows, InHand(relay), next)
  }

  /** The run under way, if there is one, is `current` and the only one, and it drains. */
  ghost predicate Drains(d: Drain, s: State, current: Option<RelayId>, k: nat) {
    match current
    case None => s.relays == map[] && Draining(d, s.rows, None, s.hist.returned, k)
    case Some(r) =>
      && r in s.relays && s.relays == map[r := s.relays[r]]
      && Draining(d, s.rows, Some(s.relays[r]), s.hist.returned, k)
  }

  // ---- the acts of a call --------------------------------------------------------------------------

  lemma SizeOfIds(models: seq<OutboxMessage>)
    requires forall i, j :: 0 <= i < j < |models| ==> models[i].id != models[j].id
    ensures |Ids(models)| == |models|
  {
    ElemsSize(IdList(models));
    ListedIds(models, IdList(models));
  }

  lemma ListedIds(models: seq<OutboxMessage>, ids: seq<Id>)
    requires IdList(models) == ids
    ensures Ids(models) == Elems(ids)
  {
    assert forall i :: 0 <= i < |models| ==> ids[i] == models[i].id;
    forall m
      ensures m in Elems(ids) <==> m in Ids(models)
    {
      if m in Elems(ids) {
        var i :| 0 <= i < |ids| && ids[i] == m;
        assert models[i].id == m;
      }
    }
  }

  /** The claim takes the oldest waiting rows. */
  lemma ClaimTakesOldest(d: Drain, rows: Rows, taken: nat, ids: seq<Id>)
    requires Progress(d, rows, {}, taken)
    requires IsHead(rows, Waiting(d.pool, rows, {}), d.limit, ids)
    ensures |ids| == (if |d.pool| - taken <= d.limit then |d.pool| - taken else d.limit)
    ensures Progress(d, rows, Elems(ids), taken + |ids|)
  {
    var waiting := Waiting(d.pool, rows, {});
    var rest := Waiting(d.pool, rows, Elems(ids));
    assert Elems(ids) <= waiting;
    assert rest == waiting - Elems(ids);
    DistinctHead(rows, waiting, d.limit, ids);
    forall p, x | p in d.pool && p !in rest && x in rest
      ensures Before(d.rows, p, x)
    {
      if p in waiting {
        var i :| 0 <= i < |ids| && ids[i] == p;
        assert Before(rows, ids[i], x);
      }
    }
  }

  lemma DistinctHead(rows: Rows, pool: set<Id>, limit: nat, ids: seq<Id>)
    requires pool <= rows.Keys && IsHead(rows, pool, limit, ids)
    ensures |Elems(ids)| == |ids|
  {
    forall i, j | 0 <= i < j < |ids|
      ensures ids[i] != ids[j]
    {
      assert Before(rows, ids[i], ids[j]);
    }
    ElemsSize(ids);
  }

  /** Rows are stored under their own ids and announce tasks. */
  predicate Letters(rows: Rows) {
    forall m :: m in rows ==> rows[m].id == m && rows[m].topic == TASK_CREATED_TOPIC
  }

  lemma ModelIsReady(rows: Rows, w: OutboxMessage, owner: string, now: Time, until: Time)
    requires Letters(rows) && LeaseModel(rows, w, owner, now, until)
    ensures IsReady(w, owner)
  {
  }

  lemma ModelsAreReady(rows: Rows, locked: set<Id>, owner: string, now: Time, until: Time, limit: nat)
    requires Letters(rows)
    ensures var models := ClaimModels(rows, locked, owner, now, until, limit);
            Busy(rows, Claiming(owner, models, now, until), |models|)
  {
    var models := ClaimModels(rows, locked, owner, now, until, limit);
    ClaimModelsAre(rows, locked, owner, now, until, limit);
    forall i | 0 <= i < |models|
      ensures IsReady(models[i], owner)
    {
      ModelIsReady(rows, models[i], owner, now, until);
    }
  }

  lemma ModelsAreHead(rows: Rows, locked: set<Id>, owner: string, now: Time, until: Time, limit: nat)
    returns (ids: seq<Id>)
    requires Letters(rows)
    ensures var pool := Candidates(rows, locked, now);
            var models := ClaimModels(rows, locked, owner, now, until, limit);
            IsHead(rows, pool, limit, ids) && Ids(models) == Elems(ids) && |models| == |ids|
  {
    ClaimModelsAre(rows, locked, owner, now, until, limit);
    ids := Take(rows, Candidates(rows, locked, now), limit);
    ListedIds(ClaimModels(rows, locked, owner, now, until, limit), ids);
  }

  lemma ClaimIsBusy(d: Drain, rows: Rows, taken: nat, owner: string, now: Time, until: Time)
    returns (models: seq<OutboxMessage>)
    requires Letters(rows) && Progress(d, rows, {}, taken)
    requires Candidates(rows, {}, now) == Waiting(d.pool, rows, {})
    ensures models == ClaimModels(rows, {}, owner, now, until, d.limit)
    ensures |models| == (if |d.pool| - taken <= d.limit then |d.pool| - taken else d.limit)
    ensures Busy(rows, Claiming(owner, models, now, until), |models|)
    ensures Progress(d, rows, Ids(models), taken + |models|)
  {
    models := ClaimModels(rows, {}, owner, now, until, d.limit);
    ModelsAreReady(rows, {}, owner, now, until, d.limit);
    var ids := ModelsAreHead(rows, {}, owner, now, until, d.limit);
    ClaimTakesOldest(d, rows, taken, ids);
  }

  /** Rows of the pool that are in hand before and after, or published while in hand, change nothing else. */
  lemma HandMoves(d: Drain, rows: Rows, hand: set<Id>, taken: nat, rows': Rows, hand': set<Id>)
    requires Progress(d, rows, hand, taken) && hand' <= hand && rows'.Keys == rows.Keys
    requires forall m :: m in rows && m !in hand ==> rows'[m] == rows[m]
    requires forall m :: m in hand && m !in hand' ==> m in rows && rows'[m].publishedAt.Some?
    ensures Progress(d, rows', hand', taken)
  {
    assert Waiting(d.pool, rows', hand') == Waiting(d.pool, rows, hand);
  }

  lemma CommittedIsClear(rows: Rows, models: seq<OutboxMessage>, owner: string)
    requires forall i :: 0 <= i < |models| ==> IsReady(models[i], owner)
    requires forall i, j :: 0 <= i < j < |models| ==> models[i].id != models[j].id
    ensures ClearList(WriteAll(rows, models), ClaimedAll(models), owner)
    ensures TodoIds(ClaimedAll(models)) == Ids(models)
  {
    WriteAllAt(rows, models);
    forall i | 0 <= i < |models|
      ensures ClearMessage(WriteAll(rows, models), ClaimedAll(models)[i], owner)
    {
      assert WriteAll(rows, models)[models[i].id] == models[i];
      assert models[i].id in Ids(models);
    }
    forall m
      ensures m in TodoIds(ClaimedAll(models)) <==> m in Ids(models)
    {
      if m in Ids(models) {
        var i :| 0 <= i < |models| && models[i].id == m;
        assert ClaimedAll(models)[i].id == m;
      }
    }
  }

  lemma CommitGoesOn(d: Drain, rows: Rows, me: Relay, size: nat, taken: nat)
    requires me.Claiming? && Busy(rows, me, size) && Progress(d, rows, Ids(me.writes), taken)
    ensures var rows' := WriteAll(rows, me.writes);
            var me' := AtMessage(me.owner, ClaimedAll(me.writes), 0);
            Busy(rows', me', size) && Progress(d, rows', InHand(me'), taken)
  {
    WriteAllAt(rows, me.writes);
    CommittedIsClear(rows, me.writes, me.owner);
    assert Ids(me.writes) <= rows.Keys;
    HandMoves(d, rows, Ids(me.writes), taken, WriteAll(rows, me.writes), Ids(me.writes));
  }

  lemma TodoSplits(todo: seq<ClaimedMessage>)
    requires todo != []
    requires forall i, j :: 0 <= i < j < |todo| ==> todo[i].id != todo[j].id
    ensures TodoIds(todo) == TodoIds(todo[1..]) + {todo[0].id}
    ensures todo[0].id !in TodoIds(todo[1..])
  {
    assert forall i :: 0 <= i < |todo| - 1 ==> todo[1..][i] == todo[i + 1];
    forall m | m in TodoIds(todo)
      ensures m in TodoIds(todo[1..]) + {todo[0].id}
    {
      var i :| 0 <= i < |todo| && todo[i].id == m;
      if i > 0 {
        assert todo[1..][i - 1].id == m;
      }
    }
  }

  lemma RestIsClear(rows: Rows, todo: seq<ClaimedMessage>, owner: string, w: OutboxMessage)
    requires ClearList(rows, todo, owner) && todo != [] && w.id == todo[0].id
    ensures ClearList(rows[w.id := w], todo[1..], owner)
  {
    forall i | 0 <= i < |todo| - 1
      ensures ClearMessage(rows[w.id := w], todo[1..][i], owner)
    {
      assert todo[1..][i] == todo[i + 1] && todo[0].id != todo[i + 1].id;
      assert ClearMessage(rows, todo[i + 1], owner);
    }
  }

  lemma AcknowledgementGoesOn(d: Drain, rows: Rows, me: Relay, size: nat, taken: nat)
    requires me.Acking? && Busy(rows, me, size) && Progress(d, rows, TodoIds(me.todo), taken) && BufferOk(rows, me)
    ensures var rows' := WriteAll(rows, [me.write.value]);
            var me' := AtMessage(me.owner, me.todo[1..], me.acked + 1);
            Busy(rows', me', size) && Progress(d, rows', InHand(me'), taken)
  {
    var w := me.write.value;
    assert WriteAll(rows, [w]) == rows[w.id := w] by {
      assert [w][..0] == [];
    }
    TodoSplits(me.todo);
    RestIsClear(rows, me.todo, me.owner, w);
    HandMoves(d, rows, TodoIds(me.todo), taken, rows[w.id := w], TodoIds(me.todo[1..]));
  }

  lemma EmptyHand(me: Relay)
    requires me.AtMessage? && me.todo == []
    ensures InHand(me) == {}
  {
  }

  /** An act of a busy run leaves it busy with the same batch, or ends it with the batch acknowledged. */
  lemma CallGoesOn(d: Drain, rows: Rows, me: Relay, act: RelayAct, size: nat, taken: nat)
    requires Ready(me, act) && Calm(RelayStep(0, act), d.limit) && BufferOk(rows, me)
    requires Busy(rows, me, size) && Progress(d, rows, InHand(me), taken)
    ensures var next := Next(rows, me, act);
            var rows' := WriteAll(rows, Flushed(me, act));
            && (next.None? <==> act.Return?)
            && (next.Some? ==> Busy(rows', next.value, size) && Progress(d, rows', InHand(next.value), taken))
            && (next.None? ==> me.acked == size && Progress(d, rows', {}, taken))
  {
    match act
    case ClaimCommit => CommitGoesOn(d, rows, me, size, taken);
    case AckCommit => AcknowledgementGoesOn(d, rows, me, size, taken);
    case Return => EmptyHand(me);
    case Ack(at) => assert ClearMessage(rows, me.todo[0], me.owner);
    case _ =>
  }

  // ---- steps ---------------------------------------------------------------------------------------

  lemma NothingLocked(s: State)
    requires LocksOk(s.locks, s.relays) && s.relays == map[]
    ensures s.locks == map[]
  {
    assert forall m :: m !in s.locks;
  }

  /** The relay state that a claim statement starts with when nothing is locked. */
  function Claimant(rows: Rows, act: RelayAct): Relay
    requires act.Claim?
  {
    var until := act.now + act.lease;
    Claiming(act.owner, ClaimModels(rows, {}, act.owner, act.now, until, act.limit), act.now, until)
  }

  lemma ClaimantDrains(d: Drain, rows: Rows, returned: nat, k: nat, act: RelayAct)
    requires Letters(rows) && Draining(d, rows, None, returned, k) && act.Claim? && act.limit == d.limit
    requires Candidates(rows, {}, act.now) == Waiting(d.pool, rows, {})
    ensures Draining(d, rows, Some(Claimant(rows, act)), returned, k)
  {
    var done := Done(|d.pool|, k, d.limit);
    var models := ClaimIsBusy(d, rows, done, act.owner, act.now, act.now + act.lease);
    DoneNext(|d.pool|, k, d.limit);
    BatchDraining(d, rows, returned, k, Claimant(rows, act), models);
  }

  /** A claim that has taken what fits makes the drain go on. */
  lemma BatchDraining(d: Drain, rows: Rows, returned: nat, k: nat, me: Relay, models: seq<OutboxMessage>)
    requires var n := |d.pool|;
             var done, next := Done(n, k, d.limit), Done(n, k + 1, d.limit);
             returned == d.returned + done && next == done + |models| && Progress(d, rows, Ids(models), next)
    requires me.Claiming? && me.writes == models && Busy(rows, me, |models|)
    ensures Draining(d, rows, Some(me), returned, k)
  {
  }

  lemma ClaimEffect(s: State, r: RelayId, act: RelayAct)
    requires RelayEnabled(s, r, act) && act.Claim? && s.relays == map[] && s.locks == map[]
    ensures var s' := RelayApply(s, r, act);
            && s'.rows == s.rows && s'.hist == s.hist
            && s'.relays == map[r := Claimant(s.rows, act)]
  {
    assert s.locks.Keys == {};
  }

  lemma ClaimDrains(d: Drain, s: State, r: RelayId, act: RelayAct, k: nat)
    requires s.locks == map[] && s.relays == map[]
    requires RelayEnabled(s, r, act) && act.Claim?
    requires Draining(d, s.rows, Some(Claimant(s.rows, act)), s.hist.returned, k)
    ensures Drains(d, RelayApply(s, r, act), Some(r), k)
  {
    ClaimEffect(s, r, act);
  }

  lemma ActDraining(d: Drain, rows: Rows, me: Relay, act: RelayAct, returned: nat, k: nat)
    requires BufferOk(rows, me) && Draining(d, rows, Some(me), returned, k)
    requires Ready(me, act) && Calm(RelayStep(0, act), d.limit)
    ensures var rows' := WriteAll(rows, Flushed(me, act));
            && (Next(rows, me, act).None? <==> act.Return?)
            && Draining(d, rows', Next(rows, me, act), if act.Return? then returned + me.acked else returned,
                        if act.Return? then k + 1 else k)
  {
    var done, next := Done(|d.pool|, k, d.limit), Done(|d.pool|, k + 1, d.limit);
    CallGoesOn(d, rows, me, act, next - done, next);
    var rows' := WriteAll(rows, Flushed(me, act));
    if act.Return? {
      assert Next(rows, me, act) == None && Draining(d, rows', None, returned + me.acked, k + 1);
    } else {
      var me' := Next(rows, me, act).value;
      assert Next(rows, me, act) == Some(me') && Draining(d, rows', Some(me'), returned, k);
    }
  }

  lemma ActEffect(s: State, r: RelayId, act: RelayAct)
    requires RelayEnabled(s, r, act) && !act.Claim? && s.relays == map[r := s.relays[r]]
    ensures var me := s.relays[r];
            var next := Next(s.rows, me, act);
            var s' := RelayApply(s, r, act);
            && s'.rows == WriteAll(s.rows, Flushed(me, act))
            && s'.relays == (if next.Some? then map[r := next.value] else map[])
            && s'.hist.returned == s.hist.returned + if act.Return? then me.acked else 0
  {
  }

  lemma ActDrains(d: Drain, s: State, r: RelayId, act: RelayAct, k: nat)
    requires Drains(d, s, Some(r), k) && BufferOk(s.rows, s.relays[r])
    requires RelayEnabled(s, r, act) && !act.Claim? && Calm(RelayStep(r, act), d.limit)
    ensures Drains(d, RelayApply(s, r, act), After(Some(r), RelayStep(r, act)), if act.Return? then k + 1 else k)
  {
    ActEffect(s, r, act);
    ActDraining(d, s.rows, s.relays[r], act, s.hist.returned, k);
  }

  lemma OtherDrains(d: Drain, s: State, step: Step, current: Option<RelayId>, k: nat)
    requires Drains(d, s, current, k) && Enabled(s, step) && !step.RelayStep? && !step.CreateStep?
    ensures Drains(d, Apply(s, step), current, k)
  {
    OtherEffect(s, step);
  }

  lemma JobEffect(s: State, j: JobId, act: JobAct)
    requires JobEnabled(s, j, act)
    ensures var s' := JobApply(s, j, act); s'.rows == s.rows && s'.relays == s.relays && s'.hist == s.hist
  {
  }

  lemma OtherEffect(s: State, step: Step)
    requires Enabled(s, step) && !step.RelayStep? && !step.CreateStep?
    ensures var s' := Apply(s, step); s'.rows == s.rows && s'.relays == s.relays && s'.hist == s.hist
  {
    match step
    case JobStep(j, act) => JobEffect(s, j, act);
    case _ =>
  }

  /** What a step needs to know of the table. */
  ghost predicate Sound(s: State, current: Option<RelayId>) {
    && Letters(s.rows)
    && match current
       case None => s.relays == map[] ==> s.locks == map[]
       case Some(r) => r in s.relays ==> BufferOk(s.rows, s.relays[r])
  }

  lemma SoundTable(s: State, current: Option<RelayId>)
    requires TableInv(s)
    ensures Sound(s, current)
  {
    if s.relays == map[] { NothingLocked(s); }
    forall m | m in s.rows
      ensures s.rows[m].id == m && s.rows[m].topic == TASK_CREATED_TOPIC
    {
      assert RowOk(m, s.rows[m], s.hist.claims[m]);
    }
  }

  lemma OnlyRun(d: Drain, s: State, r: RelayId, act: RelayAct, current: Option<RelayId>, k: nat)
    requires Drains(d, s, current, k) && RelayEnabled(s, r, act) && !act.Claim?
    ensures current == Some(r)
  {
  }

  /** A calm step keeps the drain going. */
  lemma StepDrains(d: Drain, s: State, step: Step, current: Option<RelayId>, k: nat)
    requires Sound(s, current) && Drains(d, s, current, k) && Enabled(s, step) && Calm(step, d.limit)
    requires IsClaim(step) ==> current.None? && Candidates(s.rows, {}, step.act.now) == Waiting(d.pool, s.rows, {})
    ensures IsReturn(step) ==> current.Some?
    ensures Drains(d, Apply(s, step), After(current, step), if IsReturn(step) then k + 1 else k)
  {
    match step
    case RelayStep(r, act) =>
      if act.Claim? {
        ClaimantDrains(d, s.rows, s.hist.returned, k, act);
        ClaimDrains(d, s, r, act, k);
      } else {
        OnlyRun(d, s, r, act, current, k);
        ActDrains(d, s, r, act, k);
      }
    case _ => OtherDrains(d, s, step, current, k);
  }

  // ---- runs ----------------------------------------------------------------------------------------

  /** A claim of the trace finds exactly the rows of the pool that are not published yet. */
  ghost predicate SweepsAt(pool: set<Id>, states: seq<State>, trace: seq<Step>, i: nat)
    requires i < |trace| < |states|
  {
    IsClaim(trace[i]) ==> Candidates(states[i].rows, {}, trace[i].act.now) == Waiting(pool, states[i].rows, {})
  }

  lemma ReachedSound(s: State, current: Option<RelayId>)
    requires Reached(s)
    ensures Sound(s, current)
  {
    ReachedInv(s);
    SoundTable(s, current);
  }

  lemma MoveDrains(d: Drain, s: State, step: Step, t: State, current: Option<RelayId>, k: nat)
    requires Reached(s) && Moves(s, step, t) && Drains(d, s, current, k) && Calm(step, d.limit)
    requires IsClaim(step) ==> current.None? && Candidates(s.rows, {}, step.act.now) == Waiting(d.pool, s.rows, {})
    ensures Reached(t) && (IsReturn(step) ==> current.Some?)
    ensures Drains(d, t, After(current, step), if IsReturn(step) then k + 1 else k)
  {
    MoveReached(s, step, t);
    ReachedSound(s, current);
    StepDrains(d, s, step, current, k);
  }

  /** A call is under way exactly when one more has been claimed than has returned. */
  predicate Counted(trace: seq<Step>) {
    Claims(trace) == Returns(trace) + if Current(trace).Some? then 1 else 0
  }

  ghost predicate Sweeps(pool: set<Id>, states: seq<State>, trace: seq<Step>, n: nat)
    requires n <= |trace| < |states|
  {
    forall i :: 0 <= i < n ==> SweepsAt(pool, states, trace, i)
  }

  /** How a drain stands after i steps of a path. */
  ghost predicate DrainsAt(d: Drain, states: seq<State>, trace: seq<Step>, i: nat)
    requires i <= |trace| < |states|
  {
    && Reached(states[i]) && Counted(trace[..i])
    && Drains(d, states[i], Current(trace[..i]), Returns(trace[..i]))
  }

  lemma {:induction false} RunDrains(d: Drain, states: seq<State>, trace: seq<Step>, n: nat, k: nat)
    requires Path(states, trace) && k <= n <= |trace| && Undisturbed(trace, d.limit)
    requires Reached(states[0]) && Drains(d, states[0], None, 0) && Sweeps(d.pool, states, trace, n)
    ensures DrainsAt(d, states, trace, k)
    decreases k
  {
    if k != 0 {
      RunDrains(d, states, trace, n, k - 1);
      PathDrains(d, states, trace, n, k - 1);
    }
  }

  /** One step of a path. */
  lemma PathDrains(d: Drain, states: seq<State>, trace: seq<Step>, n: nat, i: nat)
    requires Path(states, trace) && i < n <= |trace| && Undisturbed(trace, d.limit)
    requires DrainsAt(d, states, trace, i) && Sweeps(d.pool, states, trace, n)
    ensures DrainsAt(d, states, trace, i + 1)
  {
    assert MovesAt(states, trace, i) && SweepsAt(d.pool, states, trace, i);
    CountsStep(trace, i);
    MoveDrains(d, states[i], trace[i], states[i + 1], Current(trace[..i]), Returns(trace[..i]));
  }

  lemma CountsStep(trace: seq<Step>, i: nat)
    requires i < |trace|
    ensures Claims(trace[..i + 1]) == Claims(trace[..i]) + if IsClaim(trace[i]) then 1 else 0
    ensures Returns(trace[..i + 1]) == Returns(trace[..i]) + if IsReturn(trace[i]) then 1 else 0
    ensures Current(trace[..i + 1]) == After(Current(trace[..i]), trace[i])
  {
    assert trace[..i + 1][..i] == trace[..i];
  }

  // ---- theorems --------------------------------------------------------------------------------------

  ghost function Unpublished(rows: Rows): set<Id> {
    set m | m in rows && rows[m].publishedAt.None?
  }

  ghost predicate AllEligible(rows: Rows, now: Time) {
    forall m :: m in rows && rows[m].publishedAt.None? ==> Eligible(rows[m], now)
  }

  /** No claim reads a clock before `from`. */
  predicate ClaimsFrom(trace: seq<Step>, from: Time) {
    forall i :: 0 <= i < |trace| && IsClaim(trace[i]) ==> trace[i].act.now >= from
  }

  lemma DrainStarts(s: State, pool: set<Id>, limit: nat)
    requires s.relays == map[] && pool <= Unpublished(s.rows)
    ensures Drains(Drain(s.rows, pool, s.hist.returned, limit), s, None, 0)
  {
    assert Waiting(pool, s.rows, {}) == pool;
  }

  lemma {:induction false} ExecOn(s: State, a: seq<Step>, b: seq<Step>)
    requires Exec(s, a).Some?
    ensures Exec(s, a + b) == Exec(Exec(s, a).value, b)
    decreases |b|
  {
    if b == [] {
      assert a + b == a;
    } else {
      var last := |b| - 1;
      ExecOn(s, a, b[..last]);
      assert (a + b)[..|a + b| - 1] == a + b[..last];
    }
  }

  /** A set of the right size that nothing left out precedes is the head. */
  lemma HeadSet(rows: Rows, pool: set<Id>, limit: nat, taken: set<Id>)
    requires pool <= rows.Keys && taken <= pool && |taken| == if |pool| <= limit then |pool| else limit
    requires forall p, x :: p in taken && x in pool && x !in taken ==> Before(rows, p, x)
    ensures taken == Elems(Take(rows, pool, limit))
  {
    var ids := Take(rows, pool, limit);
    TakeIsHead(rows, pool, limit);
    DistinctHead(rows, pool, limit, ids);
    forall x | x in taken
      ensures x in Elems(ids)
    {
      if x !in ids {
        MissingOne(taken, Elems(ids), x);
        var y :| y in Elems(ids) && y !in taken;
        NeitherFirst(rows, pool, limit, ids, x, y);
      }
    }
    SameSize(taken, Elems(ids));
  }

  /** A row outside a head does not come before one inside. */
  lemma NeitherFirst(rows: Rows, pool: set<Id>, limit: nat, ids: seq<Id>, x: Id, y: Id)
    requires pool <= rows.Keys && IsHead(rows, pool, limit, ids) && x in pool && x !in ids && y in ids
    ensures y in pool && !Before(rows, x, y)
  {
    var i :| 0 <= i < |ids| && ids[i] == y;
    assert Before(rows, ids[i], x);
  }

  lemma MissingOne(a: set<Id>, b: set<Id>, x: Id)
    requires |a| == |b| && x in a && x !in b
    ensures exists y :: y in b && y !in a
  {
    if b <= a {
      SubsetSize(b, a - {x});
    }
  }

  lemma SubsetSize(a: set<Id>, b: set<Id>)
    requires a <= b
    ensures |a| <= |b|
  {
    assert b == a + (b - a);
  }

  lemma SameSize(a: set<Id>, b: set<Id>)
    requires a <= b && |a| == |b|
    ensures a == b
  {
    assert b == a + (b - a);
  }

  /** While every row is eligible, a claim finds the unpublished rows. */
  lemma EligibleWait(d: Drain, rows: Rows, taken: nat, from: Time, now: Time)
    requires Progress(d, rows, {}, taken) && d.pool == Unpublished(d.rows) && AllEligible(d.rows, from) && now >= from
    ensures Candidates(rows, {}, now) == Waiting(d.pool, rows, {})
  {
  }

  lemma {:induction false} EligibleSweeps(d: Drain, states: seq<State>, trace: seq<Step>, from: Time, k: nat)
    requires Path(states, trace) && k <= |trace| && Undisturbed(trace, d.limit) && ClaimsFrom(trace, from)
    requires Reached(states[0]) && Drains(d, states[0], None, 0)
    requires d.pool == Unpublished(d.rows) && AllEligible(d.rows, from)
    ensures Sweeps(d.pool, states, trace, k)
    decreases k
  {
    if k != 0 {
      EligibleSweeps(d, states, trace, from, k - 1);
      RunDrains(d, states, trace, k - 1, k - 1);
      EligibleSweep(d, states, trace, from, k - 1);
    }
  }

  lemma EligibleSweep(d: Drain, states: seq<State>, trace: seq<Step>, from: Time, i: nat)
    requires i < |trace| < |states| && OneAtATime(trace) && ClaimsFrom(trace, from) && DrainsAt(d, states, trace, i)
    requires d.pool == Unpublished(d.rows) && AllEligible(d.rows, from)
    ensures SweepsAt(d.pool, states, trace, i)
  {
    if IsClaim(trace[i]) {
      var done := Done(|d.pool|, Returns(trace[..i]), d.limit);
      EligibleWait(d, states[i].rows, done, from, trace[i].act.now);
    }
  }

  /** Exactly the head of the pool has been published; every other row is as it was. */
  ghost predicate HeadPublished(rows: Rows, pool: set<Id>, count: nat, rows': Rows)
    requires pool <= rows.Keys
  {
    && rows'.Keys == rows.Keys
    && (forall m :: m in rows && m in Take(rows, pool, count) ==> rows'[m].publishedAt.Some?)
    && (forall m :: m in rows && m !in Take(rows, pool, count) ==> rows'[m] == rows[m])
  }

  lemma RestingHead(d: Drain, rows: Rows, count: nat)
    requires Progress(d, rows, {}, Done(|d.pool|, 1, count))
    ensures HeadPublished(d.rows, d.pool, count, rows)
    ensures d.pool - Waiting(d.pool, rows, {}) == Elems(Take(d.rows, d.pool, count))
  {
    var waiting := Waiting(d.pool, rows, {});
    var taken := d.pool - waiting;
    assert d.pool == taken + waiting;
    HeadSet(d.rows, d.pool, count, taken);
    assert forall m :: m in Take(d.rows, d.pool, count) <==> m in taken;
  }

  /** Rows published so far: those of the returned calls at least. */
  lemma UnpublishedBound(d: Drain, s: State, current: Option<RelayId>, k: nat)
    requires Drains(d, s, current, k) && d.pool == Unpublished(d.rows)
    ensures |Unpublished(s.rows)| <= |d.pool| - Done(|d.pool|, k, d.limit)
    ensures current.None? ==> Unpublished(s.rows) == Waiting(d.pool, s.rows, {})
  {
    match current
    case None => assert Unpublished(s.rows) == Waiting(d.pool, s.rows, {});
    case Some(r) => BusyBound(d, s.rows, s.relays[r], k);
  }

  lemma BusyBound(d: Drain, rows: Rows, me: Relay, k: nat)
    requires var n := |d.pool|;
             var done, next := Done(n, k, d.limit), Done(n, k + 1, d.limit);
             done <= next && Busy(rows, me, next - done) && Progress(d, rows, InHand(me), next)
    requires d.pool == Unpublished(d.rows)
    ensures |Unpublished(rows)| <= |d.pool| - Done(|d.pool|, k, d.limit)
  {
    var waiting := Waiting(d.pool, rows, InHand(me));
    HandSize(rows, me, Done(|d.pool|, k + 1, d.limit) - Done(|d.pool|, k, d.limit));
    assert Unpublished(rows) <= waiting + InHand(me);
    SubsetSize(Unpublished(rows), waiting + InHand(me));
  }

  lemma HandSize(rows: Rows, me: Relay, size: nat)
    requires Busy(rows, me, size)
    ensures |InHand(me)| <= size
  {
    if me.Claiming? {
      SizeOfIds(me.writes);
    } else {
      var ids := seq(|me.todo|, i requires 0 <= i < |me.todo| => me.todo[i].id);
      ElemsSize(ids);
      assert forall i :: 0 <= i < |me.todo| ==> ids[i] == me.todo[i].id;
      forall m
        ensures m in TodoIds(me.todo) <==> m in Elems(ids)
      {
        if m in Elems(ids) {
          var i :| 0 <= i < |ids| && ids[i] == m;
          assert me.todo[i].id == m;
        }
      }
      assert TodoIds(me.todo) == Elems(ids);
    }
  }

  /**
   Take any reachable state without a run in progress and with every unpublished row eligible at `from`, and any
   undisturbed trace from there whose claims read no earlier clock. After k returned calls exactly min(n, k * limit)
   has been returned, and at least that much is published; between calls the published rows are the oldest
   min(n, k * limit), and no other row has changed. So ceil(n / limit) calls publish everything.
   */
  lemma DrainsInBatches(past: seq<Step>, trace: seq<Step>, from: Time, limit: nat)
    requires Exec(Init(), past + trace).Some? && Exec(Init(), past).Some?
    requires var s := Exec(Init(), past).value; s.relays == map[] && AllEligible(s.rows, from)
    requires Undisturbed(trace, limit) && ClaimsFrom(trace, from)
    ensures var rows := Exec(Init(), past).value.rows;
            var s' := Exec(Init(), past + trace).value;
            var n := |Unpublished(rows)|;
            var k := Returns(trace);
            var done := if n <= k * limit then n else k * limit;
            && Results(past + trace) == Results(past) + done
            && |Unpublished(s'.rows)| <= n - done
            && (s'.relays == map[] <==> Claims(trace) == Returns(trace))
            && (s'.relays == map[] ==>
                  && |Unpublished(s'.rows)| == n - done
                  && HeadPublished(rows, Unpublished(rows), done, s'.rows))
  {
    var s := Exec(Init(), past).value;
    var d := Drain(s.rows, Unpublished(s.rows), s.hist.returned, limit);
    DrainStarts(s, d.pool, limit);
    var states := PathOf(past, trace);
    EligibleSweeps(d, states, trace, from, |trace|);
    RunDrains(d, states, trace, |trace|, |trace|);
    assert trace[..|trace|] == trace;
    ResultsTell(past);
    ResultsTell(past + trace);
    DrainedState(d, states[|trace|], Current(trace), Returns(trace));
  }

  /** The states of an execution that goes on from a reachable state. */
  lemma PathOf(past: seq<Step>, trace: seq<Step>) returns (states: seq<State>)
    requires Exec(Init(), past + trace).Some? && Exec(Init(), past).Some?
    ensures Path(states, trace) && Reached(states[0])
    ensures states[0] == Exec(Init(), past).value && states[|trace|] == Exec(Init(), past + trace).value
  {
    var s := Exec(Init(), past).value;
    ExecOn(Init(), past, trace);
    ExecLeads(Init(), past);
    ExecLeads(s, trace);
    states :| Path(states, trace) && states[0] == s && states[|trace|] == Exec(s, trace).value;
  }

  lemma DrainedState(d: Drain, s: State, current: Option<RelayId>, k: nat)
    requires Drains(d, s, current, k) && d.pool == Unpublished(d.rows)
    ensures var done := Done(|d.pool|, k, d.limit);
            && s.hist.returned == d.returned + done
            && |Unpublished(s.rows)| <= |d.pool| - done
            && (s.relays == map[] <==> current.None?)
            && (s.relays == map[] ==>
                  |Unpublished(s.rows)| == |d.pool| - done && HeadPublished(d.rows, d.pool, done, s.rows))
  {
    var done := Done(|d.pool|, k, d.limit);
    UnpublishedBound(d, s, current, k);
    if current.None? {
      DoneOnce(|d.pool|, done);
      RestingHead(d, s.rows, done);
    }
  }

  lemma DoneOnce(n: nat, done: nat)
    requires done <= n
    ensures Done(n, 1, done) == done
  {
  }

  /** One undisturbed call publishes exactly the batch its claim query selects, and returns its size; rows that are
      leased beyond its clock stay as they are. */
  lemma CallPublishes(past: seq<Step>, trace: seq<Step>, i: nat, limit: nat)
    requires Exec(Init(), past + trace).Some? && Exec(Init(), past).Some? && Exec(Init(), past).value.relays == map[]
    requires Undisturbed(trace, limit) && Claims(trace) == Returns(trace) == 1 && i < |trace| && IsClaim(trace[i])
    ensures var rows := Exec(Init(), past).value.rows;
            var pool := Candidates(rows, {}, trace[i].act.now);
            && HeadPublished(rows, pool, limit, Exec(Init(), past + trace).value.rows)
            && Results(past + trace) == Results(past) + |Take(rows, pool, limit)|
  {
    var s := Exec(Init(), past).value;
    var pool := Candidates(s.rows, {}, trace[i].act.now);
    var d := Drain(s.rows, pool, s.hist.returned, limit);
    DrainStarts(s, pool, limit);
    var states := PathOf(past, trace);
    OnlyClaimSweeps(pool, states, trace, i, limit);
    RunDrains(d, states, trace, |trace|, |trace|);
    assert trace[..|trace|] == trace;
    ResultsTell(past);
    ResultsTell(past + trace);
    RestingHead(d, states[|trace|].rows, limit);
    TakeIsHead(s.rows, pool, limit);
  }

  lemma {:induction false} ClaimsGrow(trace: seq<Step>, j: nat)
    requires j <= |trace|
    ensures Claims(trace[..j]) <= Claims(trace)
    decreases |trace|
  {
    if j == |trace| {
      assert trace[..j] == trace;
    } else {
      ClaimsGrow(trace[..|trace| - 1], j);
      assert trace[..|trace| - 1][..j] == trace[..j];
    }
  }

  lemma ClaimAfter(trace: seq<Step>, i: nat, j: nat)
    requires i < j <= |trace| && IsClaim(trace[i])
    ensures Claims(trace[..i]) + 1 <= Claims(trace[..j])
  {
    ClaimsGrow(trace[..j], i + 1);
    assert trace[..j][..i + 1] == trace[..i + 1];
    assert trace[..i + 1][..i] == trace[..i];
  }

  lemma OnlyClaim(trace: seq<Step>, i: nat, j: nat)
    requires Claims(trace) == 1 && i < |trace| && j < |trace| && IsClaim(trace[i]) && IsClaim(trace[j])
    ensures i == j && Claims(trace[..i]) == 0
  {
    assert trace[..|trace|] == trace;
    ClaimAfter(trace, i, |trace|);
    ClaimAfter(trace, j, |trace|);
    if i < j { ClaimAfter(trace, i, j); }
    if j < i { ClaimAfter(trace, j, i); }
  }

  /** Up to its only claim a trace leaves the rows alone, so the claim finds the candidates there were at the start. */
  lemma OnlyClaimSweeps(pool: set<Id>, states: seq<State>, trace: seq<Step>, i: nat, limit: nat)
    requires Path(states, trace) && states[0].relays == map[] && Undisturbed(trace, limit) && Claims(trace) == 1
    requires i < |trace| && IsClaim(trace[i]) && pool == Candidates(states[0].rows, {}, trace[i].act.now)
    ensures Sweeps(pool, states, trace, |trace|)
  {
    forall j | 0 <= j < |trace| && j != i
      ensures !IsClaim(trace[j])
    {
      if IsClaim(trace[j]) { OnlyClaim(trace, i, j); }
    }
    QuietRows(states, trace, i);
    assert Waiting(pool, states[0].rows, {}) == pool;
  }

  /** Without a claim, calm steps from a resting state change no row. */
  lemma {:induction false} QuietRows(states: seq<State>, trace: seq<Step>, i: nat)
    requires Path(states, trace) && states[0].relays == map[] && i <= |trace|
    requires forall j :: 0 <= j < i ==> !trace[j].CreateStep? && !IsClaim(trace[j])
    ensures states[i].rows == states[0].rows && states[i].relays == map[]
  {
    if i != 0 {
      QuietRows(states, trace, i - 1);
      assert MovesAt(states, trace, i - 1);
      QuietStep(states[i - 1], trace[i - 1]);
    }
  }

  lemma QuietStep(s: State, step: Step)
    requires Enabled(s, step) && s.relays == map[] && !IsClaim(step) && !step.CreateStep?
    ensures Apply(s, step).rows == s.rows && Apply(s, step).relays == map[]
  {
    match step
    case RelayStep(r, act) =>
    case JobStep(j, act) =>
    case _ =>
  }

  // ---- a call can always be finished -----------------------------------------------------------------

  /** The statement a busy run comes to next. */
  function NextAct(me: Relay, at: Time): RelayAct
    requires !me.Failing? && !me.Recording?
  {
    match me
    case Claiming(_, _, _, _) => ClaimCommit
    case AtMessage(_, todo, _) => if todo == [] then Return else Enqueue(true)
    case Enqueued(_, _, _) => Ack(at)
    case Acking(_, _, _, _) => AckCommit
  }

  /** How many statements a busy run still has before it. */
  function Left(me: Relay): int {
    match me
    case Claiming(_, writes, _, _) => 3 * |writes| + 2
    case AtMessage(_, todo, _) => 3 * |todo| + 1
    case Enqueued(_, todo, _) => 3 * |todo|
    case Acking(_, todo, _, _) => 3 * |todo| - 1
    case _ => 0
  }

  lemma GoesOn(d: Drain, s: State, r: RelayId, k: nat, at: Time)
    requires LocksOk(s.locks, s.relays) && Drains(d, s, Some(r), k)
    ensures !s.relays[r].Failing? && !s.relays[r].Recording?
    ensures var act := NextAct(s.relays[r], at);
            RelayEnabled(s, r, act) && !act.Claim? && Calm(RelayStep(r, act), d.limit)
  {
    var me := s.relays[r];
    if me.AtMessage? && me.todo != [] {
      assert ClearMessage(s.rows, me.todo[0], me.owner);
    }
    if me.Enqueued? {
      assert forall m :: m in s.locks ==> m in HeldBy(me);
    }
  }

  lemma LeftShrinks(rows: Rows, me: Relay, at: Time)
    requires !me.Failing? && !me.Recording? && Ready(me, NextAct(me, at))
    ensures var next := Next(rows, me, NextAct(me, at));
            if next.None? then NextAct(me, at).Return? else 0 <= Left(next.value) < Left(me)
  {
  }

  /** The reachable state after a trace, with what the drain lemmas need of it. */
  lemma RestOf(past: seq<Step>)
    requires Exec(Init(), past).Some?
    ensures TableInv(Exec(Init(), past).value)
  {
    Reachable(past);
  }

  lemma GetsCloser(d: Drain, s: State, r: RelayId, k: nat, at: Time)
    requires TableInv(s) && Drains(d, s, Some(r), k)
    ensures !s.relays[r].Failing? && !s.relays[r].Recording?
    ensures var act := NextAct(s.relays[r], at);
            && Calm(RelayStep(r, act), d.limit) && !act.Claim? && RelayEnabled(s, r, act)
            && var s' := RelayApply(s, r, act);
            && Drains(d, s', After(Some(r), RelayStep(r, act)), if act.Return? then k + 1 else k)
            && (!act.Return? ==> 0 <= Left(s'.relays[r]) < Left(s.relays[r]))
  {
    GoesOn(d, s, r, k, at);
    var act := NextAct(s.relays[r], at);
    assert BufferOk(s.rows, s.relays[r]);
    ActDrains(d, s, r, act, k);
    ActEffect(s, r, act);
    LeftShrinks(s.rows, s.relays[r], at);
  }

  lemma {:induction false} CountsAdd(a: seq<Step>, b: seq<Step>)
    ensures Claims(a + b) == Claims(a) + Claims(b) && Returns(a + b) == Returns(a) + Returns(b)
    decreases |b|
  {
    if b == [] {
      assert a + b == a;
    } else {
      CountsAdd(a, b[..|b| - 1]);
      assert (a + b)[..|a + b| - 1] == a + b[..|b| - 1];
    }
  }

  lemma OneMore(past: seq<Step>, step: Step)
    requires Exec(Init(), past).Some? && Enabled(Exec(Init(), past).value, step)
    ensures Exec(Init(), past + [step]) == Some(Apply(Exec(Init(), past).value, step))
  {
    assert (past + [step])[..|past|] == past;
  }

  lemma CountsFirst(step: Step, rest: seq<Step>)
    ensures Claims([step] + rest) == (if IsClaim(step) then 1 else 0) + Claims(rest)
    ensures Returns([step] + rest) == (if IsReturn(step) then 1 else 0) + Returns(rest)
  {
    assert [step][..0] == [];
    CountsAdd([step], rest);
  }

  /** The trace goes on calmly from past to the end of the call under way. */
  ghost predicate Finishes(past: seq<Step>, rest: seq<Step>, limit: nat) {
    && Exec(Init(), past + rest).Some? && Exec(Init(), past + rest).value.relays == map[]
    && (forall i :: 0 <= i < |rest| ==> Calm(rest[i], limit))
    && Claims(rest) == 0 && Returns(rest) == 1
  }

  lemma FinishesFrom(past: seq<Step>, step: Step, tail: seq<Step>, limit: nat)
    requires Calm(step, limit) && !IsClaim(step)
    requires if IsReturn(step) then tail == [] && Exec(Init(), past + [step]).Some? && Exec(Init(), past + [step]).value.relays == map[]
             else Finishes(past + [step], tail, limit)
    ensures Finishes(past, [step] + tail, limit)
  {
    assert past + ([step] + tail) == past + [step] + tail;
    assert tail == [] ==> past + [step] + tail == past + [step];
    CountsFirst(step, tail);
  }

  lemma {:induction false} CallCanFinish(d: Drain, past: seq<Step>, r: RelayId, k: nat, at: Time, left: nat)
    returns (rest: seq<Step>)
    requires Exec(Init(), past).Some?
    requires Drains(d, Exec(Init(), past).value, Some(r), k) && Left(Exec(Init(), past).value.relays[r]) <= left
    ensures Finishes(past, rest, d.limit)
    decreases left
  {
    var s := Exec(Init(), past).value;
    RestOf(past);
    GetsCloser(d, s, r, k, at);
    var step := RelayStep(r, NextAct(s.relays[r], at));
    OneMore(past, step);
    var tail := [];
    if !IsReturn(step) {
      tail := CallCanFinish(d, past + [step], r, k, at, left - 1);
    }
    FinishesFrom(past, step, tail, d.limit);
    rest := [step] + tail;
  }

  /** From any reachable state without a run in progress, any claim can be carried through to its return, undisturbed. */
  lemma CallCanRun(past: seq<Step>, r: RelayId, claim: RelayAct, at: Time) returns (trace: seq<Step>)
    requires Exec(Init(), past).Some? && Exec(Init(), past).value.relays == map[]
    requires claim.Claim? && RelayEnabled(Exec(Init(), past).value, r, claim)
    ensures Exec(Init(), past + trace).Some? && Exec(Init(), past + trace).value.relays == map[]
    ensures trace != [] && trace[0] == RelayStep(r, claim)
    ensures Undisturbed(trace, claim.limit) && Claims(trace) == Returns(trace) == 1
  {
    var step := RelayStep(r, claim);
    var tail := ClaimCanFinish(past, r, claim, at);
    CountsFirst(step, tail);
    trace := [step] + tail;
    assert past + trace == past + [step] + tail;
    forall i | 0 <= i < |trace| && IsClaim(trace[i])
      ensures Claims(trace[..i]) == Returns(trace[..i])
    {
      OnlyClaim(trace, 0, i);
    }
  }

  lemma ClaimCanFinish(past: seq<Step>, r: RelayId, claim: RelayAct, at: Time) returns (rest: seq<Step>)
    requires Exec(Init(), past).Some? && Exec(Init(), past).value.relays == map[]
    requires claim.Claim? && RelayEnabled(Exec(Init(), past).value, r, claim)
    ensures Finishes(past + [RelayStep(r, claim)], rest, claim.limit)
  {
    var s := Exec(Init(), past).value;
    var pool := Candidates(s.rows, {}, claim.now);
    var d := Drain(s.rows, pool, s.hist.returned, claim.limit);
    RestOf(past);
    DrainStarts(s, pool, claim.limit);
    assert Waiting(pool, s.rows, {}) == pool;
    SoundTable(s, None);
    ClaimantDrains(d, s.rows, s.hist.returned, 0, claim);
    ClaimDrains(d, s, r, claim, 0);
    ClaimEffect(s, r, claim);
    OneMore(past, RelayStep(r, claim));
    var me := RelayApply(s, r, claim).relays[r];
    rest := CallCanFinish(d, past + [RelayStep(r, claim)], r, 0, at, Left(me));
  }
}
