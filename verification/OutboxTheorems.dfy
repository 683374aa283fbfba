/** What holds over whole runs of the outbox, stated on traces. */
module OutboxTheorems {
  import opened Basics
  import opened OutboxMessages
  import opened TaskStore
  import opened ClaimOrder
  import opened OutboxProtocol
  import opened OutboxInvariant
  import opened OutboxRelaySteps
  import opened OutboxSteps

  // ---- events of a trace ---------------------------------------------------------------------

  /** The step commits a mark_published that matched message m. */
  predicate Acknowledges(u: State, step: Step, m: Id) {
    && step.RelayStep? && (step.act.AckCommit? || step.act.AckCommitLost?) && step.r in u.relays
    && u.relays[step.r].Acking? && u.relays[step.r].write.Some? && u.relays[step.r].write.value.id == m
  }

  /** The step commits a claim of message m. */
  predicate Leases(u: State, step: Step, m: Id) {
    && step.RelayStep? && step.act.ClaimCommit? && step.r in u.relays
    && u.relays[step.r].Claiming? && m in Ids(u.relays[step.r].writes)
  }

  /** The step commits a worker delivery for an existing task t. */
  predicate Delivers(u: State, step: Step, t: int) {
    && step.JobStep? && step.job.Run? && step.j in u.jobs
    && PayloadTask(u.jobs[step.j].payload) == Some(t) && t in u.tasks
  }

  ghost function Result(u: State, step: Step): nat {
    if step.RelayStep? && step.act.Return? && step.r in u.relays && u.relays[step.r].AtMessage?
    then u.relays[step.r].acked else 0
  }

  datatype Event = Offer(message: Id) | Creation(task: int)

  /** The step is an enqueue call for the message that the queue accepts, or commits the task's creation. */
  predicate Happens(u: State, step: Step, e: Event) {
    match e
    case Offer(m) =>
      && step.RelayStep? && (step.act.Enqueue? || step.act.EnqueueLost?) && step.r in u.relays
      && u.relays[step.r].AtMessage? && u.relays[step.r].todo != [] && u.relays[step.r].todo[0].id == m
    case Creation(t) =>
      && step.CreateStep? && step.create.Commit? && step.x in u.creates
      && u.creates[step.x].BothAdded? && u.creates[step.x].task.id == t
  }

  ghost predicate HappensAt(trace: seq<Step>, k: nat, e: Event)
    requires k < |trace|
  {
    var u := Exec(Init(), trace[..k]);
    u.Some? && Happens(u.value, trace[k], e)
  }

  /** Some step of the trace, taken where the trace had led by then, is the event. */
  ghost predicate Occurs(trace: seq<Step>, e: Event) {
    exists k :: 0 <= k < |trace| && HappensAt(trace, k, e)
  }

  ghost function AckCount(trace: seq<Step>, m: Id): nat {
    if trace == [] then 0
    else
      var last := |trace| - 1;
      var u := Exec(Init(), trace[..last]);
      AckCount(trace[..last], m) + if u.Some? && Acknowledges(u.value, trace[last], m) then 1 else 0
  }

  /** The committed claims of message m, in commit order. */
  ghost function Ledger(trace: seq<Step>, m: Id): seq<Lease> {
    if trace == [] then []
    else
      var last := |trace| - 1;
      var u := Exec(Init(), trace[..last]);
      Ledger(trace[..last], m) +
      if u.Some? && Leases(u.value, trace[last], m)
      then [Lease(u.value.relays[trace[last].r].now, u.value.relays[trace[last].r].until)] else []
  }

  /** The sum of the results that relay_once runs have returned. */
  ghost function Results(trace: seq<Step>): nat {
    if trace == [] then 0
    else
      var last := |trace| - 1;
      var u := Exec(Init(), trace[..last]);
      Results(trace[..last]) + if u.Some? then Result(u.value, trace[last]) else 0
  }

  /** The time of the first delivery that found task t. */
  ghost function FirstDelivery(trace: seq<Step>, t: int): Option<Time> {
    if trace == [] then None
    else
      var last := |trace| - 1;
      var earlier := FirstDelivery(trace[..last], t);
      var u := Exec(Init(), trace[..last]);
      if earlier.None? && u.Some? && Delivers(u.value, trace[last], t) then Some(trace[last].job.at) else earlier
  }

  // ---- the history variables tell the truth ----------------------------------------------------

  lemma RelayEvents(s: State, r: RelayId, act: RelayAct, m: Id)
    requires RelayEnabled(s, r, act)
    ensures var s' := RelayApply(s, r, act);
            && s'.hist.acks[m] == s.hist.acks[m] + (if Acknowledges(s, RelayStep(r, act), m) then 1 else 0)
            && s'.hist.returned == s.hist.returned + Result(s, RelayStep(r, act))
            && (m in s'.queue.ever <==> m in s.queue.ever || Happens(s, RelayStep(r, act), Offer(m)))
  {
  }

  lemma AckStep(s: State, step: Step, m: Id)
    requires Enabled(s, step)
    ensures Apply(s, step).hist.acks[m] == s.hist.acks[m] + if Acknowledges(s, step, m) then 1 else 0
  {
    match step
    case RelayStep(r, act) => RelayEvents(s, r, act, m);
    case _ =>
  }

  /** The acks bag counts the committed acknowledgements of the trace. */
  lemma {:induction false} AcksTell(trace: seq<Step>, m: Id)
    requires Exec(Init(), trace).Some?
    ensures Exec(Init(), trace).value.hist.acks[m] == AckCount(trace, m)
  {
    if trace != [] {
      var last := |trace| - 1;
      AcksTell(trace[..last], m);
      AckStep(Exec(Init(), trace[..last]).value, trace[last], m);
    }
  }

  lemma ResultStep(s: State, step: Step)
    requires Enabled(s, step)
    ensures Apply(s, step).hist.returned == s.hist.returned + Result(s, step)
  {
    match step
    case RelayStep(r, act) => RelayEvents(s, r, act, 0);
    case _ =>
  }

  lemma {:induction false} ResultsTell(trace: seq<Step>)
    requires Exec(Init(), trace).Some?
    ensures Exec(Init(), trace).value.hist.returned == Results(trace)
  {
    if trace != [] {
      var last := |trace| - 1;
      ResultsTell(trace[..last]);
      ResultStep(Exec(Init(), trace[..last]).value, trace[last]);
    }
  }

  lemma RelayLeaseStep(rows: Rows, hist: History, me: Relay, r: RelayId, act: RelayAct, m: Id)
    requires rows.Keys == hist.claims.Keys && BufferOk(rows, me) && Ready(me, act)
    ensures var claims' := Recorded(hist, r, me, act).claims;
            && claims'.Keys == hist.claims.Keys
            && (act.ClaimCommit? && m in Ids(me.writes) ==>
                  m in claims' && claims'[m] == hist.claims[m] + [Lease(me.now, me.until)])
            && (!(act.ClaimCommit? && m in Ids(me.writes)) && m in claims' ==> claims'[m] == hist.claims[m])
  {
    RelayMovesRows(rows, me, act);
  }

  lemma CreateLeaseStep(s: State, x: TxId, act: CreateAct, m: Id)
    requires CreatesOk(s.rows, s.creates, s.hist.origin) && s.rows.Keys == s.hist.claims.Keys
    requires CreateEnabled(s, x, act)
    ensures var claims' := CreateApply(s, x, act).hist.claims;
            && (m in s.hist.claims ==> m in claims' && claims'[m] == s.hist.claims[m])
            && (m !in s.hist.claims && m in claims' ==> claims'[m] == [])
  {
  }

  lemma LeaseStep(s: State, step: Step, m: Id)
    requires BuffersOk(s.rows, s.relays) && s.rows.Keys == s.hist.claims.Keys
    requires CreatesOk(s.rows, s.creates, s.hist.origin) && Enabled(s, step)
    ensures var claims := s.hist.claims;
            var claims' := Apply(s, step).hist.claims;
            && (m in claims ==>
                  m in claims' &&
                  claims'[m] == claims[m] + (if Leases(s, step, m)
                                             then [Lease(s.relays[step.r].now, s.relays[step.r].until)] else []))
            && (m !in claims ==> !Leases(s, step, m) && (m in claims' ==> claims'[m] == []))
  {
    match step
    case RelayStep(r, act) => if !act.Claim? { RelayLeaseStep(s.rows, s.hist, s.relays[r], r, act, m); }
    case CreateStep(x, act) => CreateLeaseStep(s, x, act, m);
    case _ =>
  }

  /** A row's ledger lists the committed claims of the trace. */
  lemma {:induction false} LedgerTells(trace: seq<Step>, m: Id)
    requires Exec(Init(), trace).Some?
    ensures var claims := Exec(Init(), trace).value.hist.claims;
            Ledger(trace, m) == if m in claims then claims[m] else []
  {
    if trace != [] {
      var last := |trace| - 1;
      LedgerTells(trace[..last], m);
      Reachable(trace[..last]);
      LeaseStep(Exec(Init(), trace[..last]).value, trace[last], m);
    }
  }

  lemma OfferStep(s: State, step: Step, m: Id)
    requires Enabled(s, step)
    ensures m in Apply(s, step).queue.ever <==> m in s.queue.ever || Happens(s, step, Offer(m))
  {
    match step
    case RelayStep(r, act) => RelayEvents(s, r, act, m);
    case _ =>
  }

  lemma {:induction false} OffersTell(trace: seq<Step>, m: Id)
    requires Exec(Init(), trace).Some?
    ensures m in Exec(Init(), trace).value.queue.ever <==> Occurs(trace, Offer(m))
  {
    if trace != [] {
      var last := |trace| - 1;
      OffersTell(trace[..last], m);
      OfferStep(Exec(Init(), trace[..last]).value, trace[last], m);
      OccursSnoc(trace, Offer(m));
    }
  }

  /** An event occurs in a trace when it occurs before the last step or at it. */
  lemma OccursSnoc(trace: seq<Step>, e: Event)
    requires trace != []
    ensures var last := |trace| - 1;
            Occurs(trace, e) <==> Occurs(trace[..last], e) || HappensAt(trace, last, e)
  {
    var last := |trace| - 1;
    var front := trace[..last];
    forall k | 0 <= k < last
      ensures HappensAt(trace, k, e) == HappensAt(front, k, e)
    {
      assert front[..k] == trace[..k];
    }
  }

  // ---- theorems ------------------------------------------------------------------------------

  /** No committed creation is lost: an unprocessed task has its message unpublished, or its job queued,
      running or given up on after its retries. */
  lemma NoCreationLost(trace: seq<Step>, t: int)
    requires Exec(Init(), trace).Some?
    ensures var s := Exec(Init(), trace).value;
            t in s.tasks && s.tasks[t].processedAt.None? ==>
              exists m :: m in s.rows && s.rows[m].payload == TaskPayload(t) &&
                          (s.rows[m].publishedAt.None?
                           || (m in s.queue.live && PayloadTask(s.queue.live[m]) == Some(t))
                           || m in s.queue.exhausted)
  {
    Reachable(trace);
    var s := Exec(Init(), trace).value;
    if t in s.tasks && s.tasks[t].processedAt.None? {
      var m := s.hist.origin[t];
      PayloadRoundTrip(t);
      assert m in s.queue.ever ==> Covered(s.tasks, s.rows, s.queue, m);
    }
  }

  /** Every published row was accepted by the queue under its own key. */
  lemma PublishedWasOffered(trace: seq<Step>, m: Id)
    requires Exec(Init(), trace).Some?
    ensures var s := Exec(Init(), trace).value;
            m in s.rows && s.rows[m].publishedAt.Some? ==> Occurs(trace, Offer(m))
  {
    Reachable(trace);
    OffersTell(trace, m);
  }

  lemma CreateEvents(s: State, x: TxId, act: CreateAct, t: int)
    requires CreateEnabled(s, x, act)
    ensures t in CreateApply(s, x, act).hist.origin <==>
            t in s.hist.origin || Happens(s, CreateStep(x, act), Creation(t))
  {
  }

  lemma CreateStepOrigin(s: State, step: Step, t: int)
    requires Enabled(s, step)
    ensures t in Apply(s, step).hist.origin <==> t in s.hist.origin || Happens(s, step, Creation(t))
  {
    match step
    case CreateStep(x, act) => CreateEvents(s, x, act, t);
    case _ =>
  }

  lemma {:induction false} CreationsTell(trace: seq<Step>, t: int)
    requires Exec(Init(), trace).Some?
    ensures t in Exec(Init(), trace).value.hist.origin <==> Occurs(trace, Creation(t))
  {
    if trace != [] {
      var last := |trace| - 1;
      CreationsTell(trace[..last], t);
      CreateStepOrigin(Exec(Init(), trace[..last]).value, trace[last], t);
      OccursSnoc(trace, Creation(t));
    }
  }

  /** A task was ever created exactly when a task.created.v1 row names it; a task in the table was created. */
  lemma CreationHasItsMessage(trace: seq<Step>, t: int)
    requires Exec(Init(), trace).Some?
    ensures var s := Exec(Init(), trace).value;
            && (Occurs(trace, Creation(t)) <==> exists m :: m in s.rows && s.rows[m].payload == TaskPayload(t))
            && (t in s.tasks ==> Occurs(trace, Creation(t)))
  {
    Reachable(trace);
    CreationsTell(trace, t);
    PayloadNames(Exec(Init(), trace).value, t);
  }

  lemma PayloadNames(s: State, t: int)
    requires TaskInv(s)
    ensures t in s.hist.origin <==> exists m :: m in s.rows && s.rows[m].payload == TaskPayload(t)
  {
    PayloadRoundTrip(t);
    if m :| m in s.rows && s.rows[m].payload == TaskPayload(t) {
      var u := Subject(s.rows[m]);
      assert u in s.hist.origin && TaskPayload(u) == TaskPayload(t);
      PayloadInjective(u, t);
    }
  }

  lemma PayloadInjective(t: int, u: int)
    requires TaskPayload(t) == TaskPayload(u)
    ensures t == u
  {
    assert TaskPayload(t).fields["task_id"] == TaskPayload(u).fields["task_id"];
  }

  /** Every row is a task.created.v1 message of one created task, and no two rows name the same task. */
  lemma MessageHasItsCreation(trace: seq<Step>, m: Id) returns (t: int)
    requires Exec(Init(), trace).Some? && m in Exec(Init(), trace).value.rows
    ensures var s := Exec(Init(), trace).value;
            && s.rows[m].topic == TASK_CREATED_TOPIC && s.rows[m].payload == TaskPayload(t)
            && Occurs(trace, Creation(t))
            && forall n :: n in s.rows && s.rows[n].payload == s.rows[m].payload ==> n == m
  {
    Reachable(trace);
    var s := Exec(Init(), trace).value;
    t := Subject(s.rows[m]);
    CreationsTell(trace, t);
    assert RowOk(m, s.rows[m], s.hist.claims[m]);
  }

  /** At most one mark_published per message takes effect, and exactly one for each published row. */
  lemma AcknowledgedOnce(trace: seq<Step>, m: Id)
    requires Exec(Init(), trace).Some?
    ensures var s := Exec(Init(), trace).value;
            AckCount(trace, m) == if m in s.rows && s.rows[m].publishedAt.Some? then 1 else 0
  {
    Reachable(trace);
    AcksTell(trace, m);
  }

  /** No relay dies, and no acknowledgement commits without its caller learning of it. */
  predicate Lossless(trace: seq<Step>) {
    forall k :: 0 <= k < |trace| && trace[k].RelayStep? ==> !trace[k].act.Die? && !trace[k].act.AckCommitLost?
  }

  /** The matching acknowledgements that the latest run r of the trace has had reported as committed. */
  ghost function RunAcks(trace: seq<Step>, r: RelayId): nat {
    if trace == [] then 0
    else
      var last := |trace| - 1;
      var u := Exec(Init(), trace[..last]);
      if trace[last].RelayStep? && trace[last].r == r && trace[last].act.Claim? then 0
      else RunAcks(trace[..last], r) +
           if trace[last].RelayStep? && trace[last].r == r && trace[last].act.AckCommit?
              && u.Some? && exists m :: Acknowledges(u.value, trace[last], m)
           then 1 else 0
  }

  /** The matching acknowledgements that no result reports: their commit was reported as failed, or the run that made
      them died before it returned. */
  ghost function LostAcks(trace: seq<Step>): nat {
    if trace == [] then 0
    else
      var last := |trace| - 1;
      var u := Exec(Init(), trace[..last]);
      LostAcks(trace[..last]) +
      if u.None? || !trace[last].RelayStep? then 0
      else if trace[last].act.Die? then RunAcks(trace[..last], trace[last].r)
      else if trace[last].act.AckCommitLost? && exists m :: Acknowledges(u.value, trace[last], m) then 1
      else 0
  }

  function Acked(me: Relay): nat {
    if me.Claiming? then 0 else me.acked
  }

  lemma AckedStep(s: State, r: RelayId, act: RelayAct)
    requires RelayEnabled(s, r, act) && r in RelayApply(s, r, act).relays
    ensures act.Claim? <==> r !in s.relays
    ensures Acked(RelayApply(s, r, act).relays[r])
         == (if act.Claim? then 0 else Acked(s.relays[r])) +
            (if act.AckCommit? && s.relays[r].Acking? && s.relays[r].write.Some? then 1 else 0)
  {
  }

  lemma AcknowledgesSome(u: State, r: RelayId, act: RelayAct)
    requires act.AckCommit? || act.AckCommitLost?
    ensures (exists m :: Acknowledges(u, RelayStep(r, act), m))
       <==> r in u.relays && u.relays[r].Acking? && u.relays[r].write.Some?
  {
    if r in u.relays && u.relays[r].Acking? && u.relays[r].write.Some? {
      assert Acknowledges(u, RelayStep(r, act), u.relays[r].write.value.id);
    }
  }

  lemma OtherActKeepsRun(s: State, q: RelayId, act: RelayAct, r: RelayId)
    requires RelayEnabled(s, q, act) && q != r
    ensures var s' := RelayApply(s, q, act);
            (r in s'.relays <==> r in s.relays) && (r in s.relays ==> s'.relays[r] == s.relays[r])
  {
  }

  /** A run stays where it is while the others move. */
  lemma OtherStepKeepsRun(s: State, step: Step, r: RelayId)
    requires Enabled(s, step) && (step.RelayStep? ==> step.r != r)
    ensures r in Apply(s, step).relays <==> r in s.relays
    ensures r in s.relays ==> Apply(s, step).relays[r] == s.relays[r]
  {
    match step
    case RelayStep(q, act) => OtherActKeepsRun(s, q, act, r);
    case _ =>
  }

  /** A run counts its own reported acknowledgements. */
  lemma {:induction false} RunAcksTell(trace: seq<Step>, r: RelayId)
    requires Exec(Init(), trace).Some? && r in Exec(Init(), trace).value.relays
    ensures Acked(Exec(Init(), trace).value.relays[r]) == RunAcks(trace, r)
  {
    if trace != [] {
      var last := |trace| - 1;
      var s := Exec(Init(), trace[..last]).value;
      var step := trace[last];
      if step.RelayStep? && step.r == r {
        AckedStep(s, r, step.act);
        if !step.act.Claim? { RunAcksTell(trace[..last], r); }
        if step.act.AckCommit? { AcknowledgesSome(s, r, step.act); }
      } else {
        OtherStepKeepsRun(s, step, r);
        RunAcksTell(trace[..last], r);
      }
    }
  }

  lemma LostBooked(rows: Rows, relays: map<RelayId, Relay>, hist: History, r: RelayId, act: RelayAct)
    requires AccountOk(rows, hist) && CountsOk(relays, hist.credit)
    requires r in relays && BufferOk(rows, relays[r]) && Ready(relays[r], act)
    ensures |Tagged(Recorded(hist, r, relays[r], act).credit, Lost)|
         == |Tagged(hist.credit, Lost)| +
            if act.Die? then Acked(relays[r])
            else if act.AckCommitLost? && relays[r].write.Some? then 1
            else 0
  {
    var me := relays[r];
    if act.Die? {
      SettleMoves(hist.credit, r, Lost);
      if me.Claiming? { assert Tagged(hist.credit, Pledged(r)) == {}; }
    } else if act.Return? {
      SettleMoves(hist.credit, r, Returned);
    } else if (act.AckCommit? || act.AckCommitLost?) && me.write.Some? {
      assert me.write.value.id !in PublishedIds(rows);
      BookOne(hist, me.write.value, if act.AckCommit? then Pledged(r) else Lost);
    }
  }

  lemma RelayLostStep(s: State, r: RelayId, act: RelayAct)
    requires BuffersOk(s.rows, s.relays) && CreditInv(s) && RelayEnabled(s, r, act)
    ensures |Tagged(RelayApply(s, r, act).hist.credit, Lost)|
         == |Tagged(s.hist.credit, Lost)| +
            if act.Die? then Acked(s.relays[r])
            else if act.AckCommitLost? && s.relays[r].write.Some? then 1
            else 0
  {
    if !act.Claim? { LostBooked(s.rows, s.relays, s.hist, r, act); }
  }

  lemma OtherLostStep(s: State, step: Step)
    requires Enabled(s, step) && !step.RelayStep?
    ensures Apply(s, step).hist.credit == s.hist.credit
  {
    match step
    case CreateStep(x, act) =>
    case JobStep(j, act) =>
    case _ =>
  }

  lemma ReachableCredit(trace: seq<Step>)
    requires Exec(Init(), trace).Some?
    ensures var s := Exec(Init(), trace).value; BuffersOk(s.rows, s.relays) && CreditInv(s)
  {
    Reachable(trace);
  }

  /** The account of lost acknowledgements is the trace's. */
  lemma {:induction false} LostTell(trace: seq<Step>)
    requires Exec(Init(), trace).Some?
    ensures |Tagged(Exec(Init(), trace).value.hist.credit, Lost)| == LostAcks(trace)
  {
    if trace == [] {
      assert Tagged(Init().hist.credit, Lost) == {};
    } else {
      var last := |trace| - 1;
      LostTell(trace[..last]);
      if trace[last].RelayStep? {
        LostRelayTell(trace[..last], trace[last].r, trace[last].act);
      } else {
        OtherLostStep(Exec(Init(), trace[..last]).value, trace[last]);
      }
    }
  }

  lemma LostRelayTell(trace: seq<Step>, r: RelayId, act: RelayAct)
    requires Exec(Init(), trace).Some? && RelayEnabled(Exec(Init(), trace).value, r, act)
    ensures var s := Exec(Init(), trace).value;
            |Tagged(RelayApply(s, r, act).hist.credit, Lost)|
            == |Tagged(s.hist.credit, Lost)| +
               if act.Die? then RunAcks(trace, r)
               else if act.AckCommitLost? && exists m :: Acknowledges(s, RelayStep(r, act), m) then 1
               else 0
  {
    ReachableCredit(trace);
    RelayLostStep(Exec(Init(), trace).value, r, act);
    if act.Die? { RunAcksTell(trace, r); }
    if act.AckCommitLost? { AcknowledgesSome(Exec(Init(), trace).value, r, act); }
  }

  lemma {:induction false} NothingLost(trace: seq<Step>)
    requires Lossless(trace)
    ensures LostAcks(trace) == 0
  {
    if trace != [] {
      NothingLost(trace[..|trace| - 1]);
    }
  }

  lemma CreditSplits(credit: map<Id, Credit>)
    requires forall m :: m in credit ==> !credit[m].Pledged?
    ensures |credit.Keys| == |Tagged(credit, Returned)| + |Tagged(credit, Lost)|
  {
    assert credit.Keys == Tagged(credit, Returned) + Tagged(credit, Lost);
    assert Tagged(credit, Returned) !! Tagged(credit, Lost);
  }

  lemma CreditBounds(credit: map<Id, Credit>)
    ensures |Tagged(credit, Returned)| + |Tagged(credit, Lost)| <= |credit.Keys|
  {
    var both := Tagged(credit, Returned) + Tagged(credit, Lost);
    assert Tagged(credit, Returned) !! Tagged(credit, Lost);
    assert credit.Keys == both + (credit.Keys - both);
  }

  /** Every published row was acknowledged into one returned result, or the acknowledgement was lost, or its run has not
      ended: so relays never report more than there are published rows, and once all runs have ended they report
      exactly those whose acknowledgement was not lost. */
  lemma AcknowledgementsConserved(trace: seq<Step>)
    requires Exec(Init(), trace).Some?
    ensures var s := Exec(Init(), trace).value;
            && Results(trace) + LostAcks(trace) <= |PublishedIds(s.rows)|
            && (s.relays == map[] ==> Results(trace) + LostAcks(trace) == |PublishedIds(s.rows)|)
            && (s.relays == map[] && Lossless(trace) ==> Results(trace) == |PublishedIds(s.rows)|)
  {
    ReachableCredit(trace);
    ResultsTell(trace);
    LostTell(trace);
    var s := Exec(Init(), trace).value;
    CreditBounds(s.hist.credit);
    if s.relays == map[] {
      CreditSplits(s.hist.credit);
    }
    if Lossless(trace) {
      NothingLost(trace);
    }
  }

  /** Successive claims of a message hold it over disjoint intervals, each claim counted once. */
  lemma ClaimsAreDisjoint(trace: seq<Step>, m: Id)
    requires Exec(Init(), trace).Some?
    ensures var s := Exec(Init(), trace).value;
            var ledger := Ledger(trace, m);
            && (m in s.rows ==> s.rows[m].attemptCount == |ledger|)
            && (forall i, j :: 0 <= i < j < |ledger| ==> ledger[i].until <= ledger[j].from)
            && (forall i :: 0 <= i < |ledger| ==> ledger[i].from < ledger[i].until)
  {
    Reachable(trace);
    LedgerTells(trace, m);
    var s := Exec(Init(), trace).value;
    if m in s.rows {
      assert RowOk(m, s.rows[m], s.hist.claims[m]);
      DisjointOrders(Ledger(trace, m));
    }
  }

  lemma {:induction false} DisjointOrders(leases: seq<Lease>)
    requires Disjoint(leases)
    ensures forall i, j :: 0 <= i < j < |leases| ==> leases[i].until <= leases[j].from
  {
    if |leases| > 1 {
      var front := leases[..|leases| - 1];
      DisjointOrders(front);
      forall i | 0 <= i < |leases| - 1
        ensures leases[i].until <= leases[|leases| - 1].from
      {
        if i < |leases| - 2 {
          assert front[i].until <= front[|front| - 1].from;
        }
      }
    }
  }

  /** Every relay claims with the same lease duration. */
  predicate FixedLease(trace: seq<Step>, lease: int) {
    forall k :: 0 <= k < |trace| && trace[k].RelayStep? && trace[k].act.Claim? ==> trace[k].act.lease == lease
  }

  ghost predicate LeasesLast(s: State, lease: int) {
    && (forall r :: r in s.relays && s.relays[r].Claiming? ==> s.relays[r].until - s.relays[r].now == lease)
    && (forall m, i :: m in s.hist.claims && 0 <= i < |s.hist.claims[m]| ==>
          s.hist.claims[m][i].until - s.hist.claims[m][i].from == lease)
  }

  lemma LeasesLastRelay(s: State, r: RelayId, act: RelayAct, lease: int)
    requires RelayEnabled(s, r, act) && LeasesLast(s, lease)
    requires act.Claim? ==> act.lease == lease
    ensures LeasesLast(RelayApply(s, r, act), lease)
  {
  }

  lemma LeasesLastCreate(s: State, x: TxId, act: CreateAct, lease: int)
    requires CreateEnabled(s, x, act) && LeasesLast(s, lease)
    ensures LeasesLast(CreateApply(s, x, act), lease)
  {
  }

  lemma LeasesLastStep(s: State, step: Step, lease: int)
    requires Enabled(s, step) && LeasesLast(s, lease)
    requires step.RelayStep? && step.act.Claim? ==> step.act.lease == lease
    ensures LeasesLast(Apply(s, step), lease)
  {
    match step
    case RelayStep(r, act) => LeasesLastRelay(s, r, act, lease);
    case CreateStep(x, act) => LeasesLastCreate(s, x, act, lease);
    case _ =>
  }

  lemma {:induction false} FixedLeaseRun(trace: seq<Step>, lease: int)
    requires Exec(Init(), trace).Some? && FixedLease(trace, lease)
    ensures LeasesLast(Exec(Init(), trace).value, lease)
  {
    if trace != [] {
      var last := |trace| - 1;
      FixedLeaseRun(trace[..last], lease);
      LeasesLastStep(Exec(Init(), trace[..last]).value, trace[last], lease);
    }
  }

  lemma {:induction false} SpanBound(leases: seq<Lease>, lease: int)
    requires leases != [] && Disjoint(leases)
    requires forall i :: 0 <= i < |leases| ==> leases[i].until - leases[i].from == lease
    ensures (|leases| - 1) * lease <= leases[|leases| - 1].from - leases[0].from
  {
    if |leases| > 1 {
      var front := leases[..|leases| - 1];
      SpanBound(front, lease);
      assert (|leases| - 1) * lease == (|front| - 1) * lease + lease;
    }
  }

  /** With a fixed lease a message is claimed at most once per lease duration, whatever the relay clocks
      say: its attempts exceed the elapsed claim time divided by the lease by at most one. */
  lemma RetryRate(trace: seq<Step>, lease: int, m: Id)
    requires Exec(Init(), trace).Some? && FixedLease(trace, lease)
    requires m in Exec(Init(), trace).value.rows && Ledger(trace, m) != []
    ensures Exec(Init(), trace).value.rows[m].attemptCount == |Ledger(trace, m)|
    ensures (|Ledger(trace, m)| - 1) * lease <= Ledger(trace, m)[|Ledger(trace, m)| - 1].from - Ledger(trace, m)[0].from
  {
    var ledger := Ledger(trace, m);
    LedgerFacts(trace, lease, m);
    SpanBound(ledger, lease);
  }

  lemma LedgerFacts(trace: seq<Step>, lease: int, m: Id)
    requires Exec(Init(), trace).Some? && FixedLease(trace, lease)
    requires m in Exec(Init(), trace).value.rows
    ensures var ledger := Ledger(trace, m);
            && Exec(Init(), trace).value.rows[m].attemptCount == |ledger|
            && Disjoint(ledger)
            && forall i :: 0 <= i < |ledger| ==> ledger[i].until - ledger[i].from == lease
  {
    Reachable(trace);
    LedgerTells(trace, m);
    FixedLeaseRun(trace, lease);
    var s := Exec(Init(), trace).value;
    assert RowOk(m, s.rows[m], s.hist.claims[m]);
  }

  // ---- the worker's effect -------------------------------------------------------------------

  lemma DeliverySteady(tasks: Tasks, user: int, id: int, title: string, description: Option<string>, at: Time, t: int)
    ensures t in UpdateTask(tasks, user, id, title, description, at).0 ==>
              t in tasks && UpdateTask(tasks, user, id, title, description, at).0[t].processedAt == tasks[t].processedAt
    ensures t in ToggleTask(tasks, user, id, at).0 ==>
              t in tasks && ToggleTask(tasks, user, id, at).0[t].processedAt == tasks[t].processedAt
    ensures t in DeleteTask(tasks, user, id).0 ==>
              t in tasks && DeleteTask(tasks, user, id).0[t].processedAt == tasks[t].processedAt
  {
  }

  lemma DeliveryCreate(s: State, x: TxId, act: CreateAct, t: int)
    requires CreatesOk(s.rows, s.creates, s.hist.origin) && s.tasks.Keys <= s.hist.origin.Keys
    requires CreateEnabled(s, x, act) && t in CreateApply(s, x, act).tasks
    ensures t in s.tasks ==> CreateApply(s, x, act).tasks[t] == s.tasks[t]
    ensures t !in s.tasks ==> CreateApply(s, x, act).tasks[t].processedAt.None? && t !in s.hist.origin
  {
  }

  lemma DeliveryJob(s: State, j: JobId, act: JobAct, t: int)
    requires JobEnabled(s, j, act)
    ensures JobApply(s, j, act).tasks.Keys == s.tasks.Keys
    ensures t in s.tasks ==>
              JobApply(s, j, act).tasks[t].processedAt ==
              if s.tasks[t].processedAt.None? && Delivers(s, JobStep(j, act), t) then Some(act.at)
              else s.tasks[t].processedAt
  {
  }

  lemma DeliveryStep(s: State, step: Step, t: int)
    requires TaskInv(s) && Enabled(s, step) && t in Apply(s, step).tasks
    ensures t in s.tasks ==>
              Apply(s, step).tasks[t].processedAt ==
              if s.tasks[t].processedAt.None? && Delivers(s, step, t) then Some(step.job.at)
              else s.tasks[t].processedAt
    ensures t !in s.tasks ==> Apply(s, step).tasks[t].processedAt.None? && t !in s.hist.origin
  {
    match step
    case CreateStep(x, act) => DeliveryCreate(s, x, act, t);
    case RelayStep(r, act) =>
    case JobStep(j, act) => DeliveryJob(s, j, act, t);
    case Edit(user, id, title, description, at) => DeliverySteady(s.tasks, user, id, title, description, at, t);
    case Toggle(user, id, at) => DeliverySteady(s.tasks, user, id, "", None, at, t);
    case Delete(user, id) => DeliverySteady(s.tasks, user, id, "", None, 0, t);
  }

  lemma {:induction false} AbsentUndelivered(trace: seq<Step>, t: int)
    requires Exec(Init(), trace).Some? && t !in Exec(Init(), trace).value.hist.origin
    ensures FirstDelivery(trace, t).None?
  {
    if trace != [] {
      var last := |trace| - 1;
      var s := Exec(Init(), trace[..last]).value;
      CreateStepOrigin(s, trace[last], t);
      AbsentUndelivered(trace[..last], t);
      Reachable(trace[..last]);
    }
  }

  /** Over duplicates, edits, toggles and deletes, a task is marked once and keeps the first delivery's time. */
  lemma {:induction false} MarkedByFirstDelivery(trace: seq<Step>, t: int)
    requires Exec(Init(), trace).Some?
    ensures var s := Exec(Init(), trace).value;
            t in s.tasks ==> s.tasks[t].processedAt == FirstDelivery(trace, t)
  {
    if trace != [] && t in Exec(Init(), trace).value.tasks {
      var last := |trace| - 1;
      var s := Exec(Init(), trace[..last]).value;
      Reachable(trace[..last]);
      MarkedByFirstDelivery(trace[..last], t);
      DeliveryStep(s, trace[last], t);
      if t !in s.tasks {
        AbsentUndelivered(trace[..last], t);
      }
    }
  }

  // ---- single steps of a reachable state -----------------------------------------------------

  /** A step changes a committed row only as one of the immutable transitions; published rows are final. */
  lemma RowsMoveByTransitions(trace: seq<Step>, step: Step, m: Id)
    requires Exec(Init(), trace + [step]).Some?
    requires m in Exec(Init(), trace).value.rows
    ensures var s := Exec(Init(), trace).value;
            var s' := Exec(Init(), trace + [step]).value;
            && m in s'.rows
            && (s.rows[m].publishedAt.Some? ==> s'.rows[m] == s.rows[m])
            && (s'.rows[m] == s.rows[m] ||
                (step.RelayStep? && step.r in s.relays && m in HeldBy(s.relays[step.r]) &&
                 Transition(s.rows[m], s'.rows[m], s.relays[step.r], step.act)))
  {
    assert (trace + [step])[..|trace|] == trace;
    Reachable(trace);
    var s := Exec(Init(), trace).value;
    OneStepRows(s, step, m);
  }

  lemma OneStepRows(s: State, step: Step, m: Id)
    requires BuffersOk(s.rows, s.relays) && CreatesOk(s.rows, s.creates, s.hist.origin)
    requires Enabled(s, step) && m in s.rows
    ensures var s' := Apply(s, step);
            && m in s'.rows
            && (s.rows[m].publishedAt.Some? ==> s'.rows[m] == s.rows[m])
            && (s'.rows[m] == s.rows[m] ||
                (step.RelayStep? && step.r in s.relays && m in HeldBy(s.relays[step.r]) &&
                 Transition(s.rows[m], s'.rows[m], s.relays[step.r], step.act)))
  {
    match step
    case RelayStep(r, act) => RelayRowStep(s, r, act, m);
    case CreateStep(x, act) => CreateRowStep(s, x, act, m);
    case _ =>
  }

  lemma CreateRowStep(s: State, x: TxId, act: CreateAct, m: Id)
    requires CreatesOk(s.rows, s.creates, s.hist.origin) && CreateEnabled(s, x, act) && m in s.rows
    ensures m in CreateApply(s, x, act).rows && CreateApply(s, x, act).rows[m] == s.rows[m]
  {
  }

  lemma RelayRowStep(s: State, r: RelayId, act: RelayAct, m: Id)
    requires BuffersOk(s.rows, s.relays) && RelayEnabled(s, r, act) && m in s.rows
    ensures var rows' := RelayApply(s, r, act).rows;
            && m in rows'
            && (rows'[m] == s.rows[m] ||
                (r in s.relays && m in HeldBy(s.relays[r]) && Transition(s.rows[m], rows'[m], s.relays[r], act)))
  {
    if !act.Claim? {
      RelayMovesRows(s.rows, s.relays[r], act);
    }
  }

  /** Every reachable row: lease owner and expiry come together, published means no lease and no error,
      and the attempt count is the number of committed claims. */
  lemma RowShape(trace: seq<Step>, m: Id)
    requires Exec(Init(), trace).Some? && m in Exec(Init(), trace).value.rows
    ensures var row := Exec(Init(), trace).value.rows[m];
            && (row.leaseOwner.None? <==> row.leaseExpiresAt.None?)
            && (row.publishedAt.Some? ==> row.leaseOwner.None? && row.lastError.None?)
            && row.attemptCount == |Ledger(trace, m)|
            && (row.publishedAt.None? ==> (row.leaseOwner.None? <==> row.attemptCount == 0))
  {
    Reachable(trace);
    LedgerTells(trace, m);
    var s := Exec(Init(), trace).value;
    assert RowOk(m, s.rows[m], s.hist.claims[m]);
  }

  /** A claim statement buffers exactly the first eligible unlocked rows in (created_at, id) order, leased;
      it changes no committed row, and what it locked nobody else holds. */
  lemma ClaimTakesHead(s: State, r: RelayId, act: RelayAct) returns (me: Relay)
    requires TableInv(s) && RelayEnabled(s, r, act) && act.Claim?
    ensures me.Claiming? && me.owner == act.owner && me.now == act.now && me.until == act.now + act.lease
    ensures RelayApply(s, r, act) == s.(locks := Relock(s.locks, r, HeldBy(me)), relays := s.relays[r := me])
    ensures IsHead(s.rows, Candidates(s.rows, s.locks.Keys, act.now), act.limit, IdList(me.writes))
    ensures forall i :: 0 <= i < |me.writes| ==>
              LeaseModel(s.rows, me.writes[i], act.owner, act.now, act.now + act.lease)
    ensures forall q :: q in s.relays ==> HeldBy(s.relays[q]) !! HeldBy(me)
  {
    me := ClaimStarts(s, r, act);
    HeadOfModels(s.rows, s.locks.Keys, act, me);
    UnlockedByAll(s.locks, s.relays, HeldBy(me));
  }

  lemma HeadOfModels(rows: Rows, locked: set<Id>, act: RelayAct, me: Relay)
    requires forall m :: m in rows ==> rows[m].id == m
    requires act.Claim? && me.Claiming?
    requires me.writes == ClaimModels(rows, locked, act.owner, act.now, act.now + act.lease, act.limit)
    ensures IsHead(rows, Candidates(rows, locked, act.now), act.limit, IdList(me.writes))
    ensures forall i :: 0 <= i < |me.writes| ==>
              LeaseModel(rows, me.writes[i], act.owner, act.now, act.now + act.lease)
  {
    ClaimModelsAre(rows, locked, act.owner, act.now, act.now + act.lease, act.limit);
  }

  lemma UnlockedByAll(locks: map<Id, RelayId>, relays: map<RelayId, Relay>, ids: set<Id>)
    requires LocksOk(locks, relays) && ids !! locks.Keys
    ensures forall q :: q in relays ==> HeldBy(relays[q]) !! ids
  {
    forall q | q in relays
      ensures HeldBy(relays[q]) !! ids
    {
      assert HeldBy(relays[q]) <= locks.Keys;
    }
  }
}
