/** Executions of the outbox protocol, as paths through states. */
module OutboxPaths {
  import opened Basics
  import opened OutboxMessages
  import opened OutboxProtocol
  import opened OutboxInvariant
  import opened OutboxSteps
  import opened OutboxTheorems

  ghost predicate Moves(s: State, step: Step, t: State) {
    Enabled(s, step) && Apply(s, step) == t
  }

  ghost predicate MovesAt(states: seq<State>, trace: seq<Step>, i: nat)
    requires |states| == |trace| + 1 && i < |trace|
  {
    Moves(states[i], trace[i], states[i + 1])
  }

  ghost predicate Path(states: seq<State>, trace: seq<Step>) {
    && |states| == |trace| + 1
    && forall i :: 0 <= i < |trace| ==> MovesAt(states, trace, i)
  }

  /** The trace is a path from s to t. */
  ghost predicate Leads(s: State, trace: seq<Step>, t: State) {
    exists states :: Path(states, trace) && states[0] == s && states[|trace|] == t
  }

  lemma LeadsNowhere(s: State)
    ensures Leads(s, [], s)
  {
    assert Path([s], []);
  }

  lemma LeadsRelay(s: State, r: RelayId, act: RelayAct)
    requires RelayEnabled(s, r, act)
    ensures Leads(s, [RelayStep(r, act)], RelayApply(s, r, act))
  {
    var step := RelayStep(r, act);
    assert MovesAt([s, RelayApply(s, r, act)], [step], 0);
    assert Path([s, RelayApply(s, r, act)], [step]);
  }

  lemma LeadsOn(s: State, a: seq<Step>, t: State, b: seq<Step>, u: State)
    requires Leads(s, a, t) && Leads(t, b, u)
    ensures Leads(s, a + b, u)
  {
    var x :| Path(x, a) && x[0] == s && x[|a|] == t;
    var y :| Path(y, b) && y[0] == t && y[|b|] == u;
    var z := x + y[1..];
    forall i | 0 <= i < |a + b|
      ensures MovesAt(z, a + b, i)
    {
      if i < |a| {
        assert MovesAt(x, a, i);
      } else {
        assert MovesAt(y, b, i - |a|);
      }
    }
    assert Path(z, a + b);
  }

  /** One more act of run r at the end of a path. */
  lemma LeadsActs(s: State, trace: seq<Step>, t: State, r: RelayId, act: RelayAct)
    requires Leads(s, trace, t) && RelayEnabled(t, r, act)
    ensures Leads(s, trace + [RelayStep(r, act)], RelayApply(t, r, act))
  {
    LeadsRelay(t, r, act);
    LeadsOn(s, trace, t, [RelayStep(r, act)], RelayApply(t, r, act));
  }

  /** A path is an execution. */
  lemma LeadsIsExec(s: State, trace: seq<Step>, t: State)
    requires Leads(s, trace, t)
    ensures Exec(s, trace) == Some(t)
  {
    var states :| Path(states, trace) && states[0] == s && states[|trace|] == t;
    PathIsExec(states, trace, |trace|);
    assert trace[..|trace|] == trace;
  }

  lemma {:induction false} PathIsExec(states: seq<State>, trace: seq<Step>, k: nat)
    requires Path(states, trace) && k <= |trace|
    ensures Exec(states[0], trace[..k]) == Some(states[k])
  {
    if k != 0 {
      PathIsExec(states, trace, k - 1);
      assert MovesAt(states, trace, k - 1);
      assert trace[..k][..k - 1] == trace[..k - 1];
    }
  }

  /** An execution is a path. */
  lemma {:induction false} ExecLeads(s: State, trace: seq<Step>)
    requires Exec(s, trace).Some?
    ensures Leads(s, trace, Exec(s, trace).value)
    decreases |trace|
  {
    if trace == [] {
      LeadsNowhere(s);
    } else {
      var last := |trace| - 1;
      ExecLeads(s, trace[..last]);
      StepLeads(Exec(s, trace[..last]).value, trace[last]);
      LeadsOn(s, trace[..last], Exec(s, trace[..last]).value, [trace[last]], Exec(s, trace).value);
      assert trace[..last] + [trace[last]] == trace;
    }
  }

  lemma StepLeads(s: State, step: Step)
    requires Enabled(s, step)
    ensures Leads(s, [step], Apply(s, step))
  {
    assert MovesAt([s, Apply(s, step)], [step], 0);
    assert Path([s, Apply(s, step)], [step]);
  }

  // ---- steps of others -----------------------------------------------------------------------

  /** No step of the trace is one of run r. */
  predicate Foreign(trace: seq<Step>, r: RelayId) {
    forall k :: 0 <= k < |trace| && trace[k].RelayStep? ==> trace[k].r != r
  }

  /** Whatever the others do, a run stays where it is. */
  lemma ForeignKeepsRun(s: State, trace: seq<Step>, t: State, r: RelayId)
    requires Leads(s, trace, t) && Foreign(trace, r)
    ensures r in t.relays <==> r in s.relays
    ensures r in s.relays ==> t.relays[r] == s.relays[r]
  {
    var states :| Path(states, trace) && states[0] == s && states[|trace|] == t;
    PathKeepsRun(states, trace, r, |trace|);
  }

  lemma ForeignStepKeepsRun(s: State, step: Step, t: State, r: RelayId)
    requires Moves(s, step, t) && (step.RelayStep? ==> step.r != r)
    ensures r in t.relays <==> r in s.relays
    ensures r in s.relays ==> t.relays[r] == s.relays[r]
  {
    OtherStepKeepsRun(s, step, r);
  }

  lemma {:induction false} PathKeepsRun(states: seq<State>, trace: seq<Step>, r: RelayId, k: nat)
    requires Path(states, trace) && Foreign(trace, r) && k <= |trace|
    ensures r in states[k].relays <==> r in states[0].relays
    ensures r in states[0].relays ==> states[k].relays[r] == states[0].relays[r]
  {
    if k != 0 {
      PathKeepsRun(states, trace, r, k - 1);
      assert MovesAt(states, trace, k - 1);
      ForeignStepKeepsRun(states[k - 1], trace[k - 1], states[k], r);
    }
  }

  // ---- what a path passes and keeps -------------------------------------------------------------

  /** Some execution from s to t passes u. */
  ghost predicate Passes(s: State, u: State, t: State) {
    exists a, b :: Leads(s, a, u) && Leads(u, b, t)
  }

  lemma PassesBetween(s: State, a: seq<Step>, u: State, b: seq<Step>, t: State)
    requires Leads(s, a, u) && Leads(u, b, t)
    ensures Passes(s, u, t)
  {
  }

  lemma PassesOn(s: State, u: State, t: State, more: seq<Step>, t': State)
    requires Passes(s, u, t) && Leads(t, more, t')
    ensures Passes(s, u, t')
  {
    var a, b :| Leads(s, a, u) && Leads(u, b, t);
    LeadsOn(u, b, t, more, t');
  }

  lemma PassesLater(s: State, u: State, t: State, more: seq<Step>, t': State)
    requires Passes(s, u, t) && Leads(t, more, t')
    ensures Passes(u, t, t')
  {
  }

  lemma PassesFrom(s': State, more: seq<Step>, s: State, u: State, t: State)
    requires Leads(s', more, s) && Passes(s, u, t)
    ensures Passes(s', u, t)
  {
    var a, b :| Leads(s, a, u) && Leads(u, b, t);
    LeadsOn(s', more, s, a, u);
  }

  /** What the queue has accepted once it has accepted for ever. */
  lemma LeadsKeepsOffers(s: State, trace: seq<Step>, t: State)
    requires Leads(s, trace, t)
    ensures s.queue.ever <= t.queue.ever
  {
    var states :| Path(states, trace) && states[0] == s && states[|trace|] == t;
    PathKeepsOffers(states, trace, |trace|);
  }

  lemma MoveKeepsOffers(s: State, step: Step, t: State)
    requires Moves(s, step, t)
    ensures s.queue.ever <= t.queue.ever
  {
    match step
    case RelayStep(q, act) =>
    case _ =>
  }

  lemma {:induction false} PathKeepsOffers(states: seq<State>, trace: seq<Step>, k: nat)
    requires Path(states, trace) && k <= |trace|
    ensures states[0].queue.ever <= states[k].queue.ever
  {
    if k != 0 {
      PathKeepsOffers(states, trace, k - 1);
      assert MovesAt(states, trace, k - 1);
      MoveKeepsOffers(states[k - 1], trace[k - 1], states[k]);
    }
  }

  // ---- reachable states ---------------------------------------------------------------------------

  /** Some execution from the empty database leads here. */
  ghost predicate Reached(s: State) {
    exists past :: Leads(Init(), past, s)
  }

  lemma ReachedInv(s: State)
    requires Reached(s)
    ensures Inv(s)
  {
    var past :| Leads(Init(), past, s);
    LeadsIsExec(Init(), past, s);
    Reachable(past);
  }

  lemma ReachedOn(s: State, trace: seq<Step>, t: State)
    requires Reached(s) && Leads(s, trace, t)
    ensures Reached(t)
  {
    var past :| Leads(Init(), past, s);
    LeadsOn(Init(), past, s, trace, t);
  }

  lemma ReachedActs(s: State, r: RelayId, act: RelayAct)
    requires Reached(s) && RelayEnabled(s, r, act)
    ensures Reached(RelayApply(s, r, act))
  {
    LeadsRelay(s, r, act);
    ReachedOn(s, [RelayStep(r, act)], RelayApply(s, r, act));
  }

  /** Rows are stored under their own ids, and a locked row has a live run that holds it. */
  lemma ReachedTable(s: State)
    requires Reached(s)
    ensures forall m :: m in s.rows ==> s.rows[m].id == m
    ensures forall m :: m in s.locks ==> s.locks[m] in s.relays && m in HeldBy(s.relays[s.locks[m]])
  {
    ReachedInv(s);
    forall m | m in s.rows
      ensures s.rows[m].id == m
    {
      assert RowOk(m, s.rows[m], s.hist.claims[m]);
    }
  }

  lemma MoveReached(s: State, step: Step, t: State)
    requires Reached(s) && Moves(s, step, t)
    ensures Reached(t)
  {
    assert MovesAt([s, t], [step], 0);
    assert Path([s, t], [step]);
    assert Leads(s, [step], t);
    ReachedOn(s, [step], t);
  }

  /** A published row stays as it is. */
  lemma LeadsKeepsPublished(s: State, trace: seq<Step>, t: State, m: Id)
    requires Reached(s) && Leads(s, trace, t) && m in s.rows && s.rows[m].publishedAt.Some?
    ensures m in t.rows && t.rows[m] == s.rows[m]
  {
    var states :| Path(states, trace) && states[0] == s && states[|trace|] == t;
    PathKeepsPublished(states, trace, m, |trace|);
  }

  lemma MoveKeepsPublished(s: State, step: Step, t: State, m: Id)
    requires Reached(s) && Moves(s, step, t) && m in s.rows && s.rows[m].publishedAt.Some?
    ensures m in t.rows && t.rows[m] == s.rows[m]
  {
    ReachedInv(s);
    OneStepRows(s, step, m);
  }

  lemma {:induction false} PathKeepsPublished(states: seq<State>, trace: seq<Step>, m: Id, k: nat)
    requires Path(states, trace) && k <= |trace|
    requires Reached(states[0]) && m in states[0].rows && states[0].rows[m].publishedAt.Some?
    ensures Reached(states[k]) && m in states[k].rows && states[k].rows[m] == states[0].rows[m]
  {
    if k != 0 {
      PathKeepsPublished(states, trace, m, k - 1);
      assert MovesAt(states, trace, k - 1);
      MoveReached(states[k - 1], trace[k - 1], states[k]);
      MoveKeepsPublished(states[k - 1], trace[k - 1], states[k], m);
    }
  }
}
