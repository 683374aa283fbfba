/** What the log and the issued cookies of the credential protocol say about the trace that led to them. */
module CredentialHistory {
  import opened Basics
  import opened UserStore
  import opened CredentialProtocol
  import opened CredentialInvariant
  import opened CredentialSteps

  // ---- events of a trace -----------------------------------------------------------------------------

  /** The request that the latest transaction x of the trace began with. */
  function Began(trace: seq<Step>, x: TxId): Option<Request> {
    if trace == [] then None
    else
      var last := |trace| - 1;
      if trace[last].x == x && trace[last].act.Begin? then Some(trace[last].act.request) else Began(trace[..last], x)
  }

  /** The latest clock reading of a writing statement of x. */
  function ClockRead(trace: seq<Step>, x: TxId): Option<Time> {
    if trace == [] then None
    else
      var last := |trace| - 1;
      if trace[last].x == x && (trace[last].act.Insert? || trace[last].act.Write?) then Some(trace[last].act.now)
      else ClockRead(trace[..last], x)
  }

  /** The latest id that an insert of x drew. */
  function IdDrawn(trace: seq<Step>, x: TxId): Option<int> {
    if trace == [] then None
    else
      var last := |trace| - 1;
      if trace[last].x == x && trace[last].act.Insert? then Some(trace[last].act.id) else IdDrawn(trace[..last], x)
  }

  datatype Finish = Finish(request: Option<Request>, now: Option<Time>, id: Option<int>)

  /** The requests that ended with an answer of their use case, in the order they ended. */
  function Finished(trace: seq<Step>): seq<Finish> {
    if trace == [] then []
    else
      var last := |trace| - 1;
      var front, x := trace[..last], trace[last].x;
      Finished(front) +
      match trace[last].act
      case Commit => [Finish(Began(front, x), ClockRead(front, x), IdDrawn(front, x))]
      case CommitLost => [Finish(Began(front, x), ClockRead(front, x), IdDrawn(front, x))]
      case Refuse(now) => [Finish(Began(front, x), Some(now), None)]
      case _ => []
  }

  /** The entry is the finished request, with its clock reading and the id it drew. */
  predicate Records(entry: Entry, finish: Finish) {
    && finish.request == Some(entry.request) && finish.now == Some(entry.now)
    && (entry.request.Register? && entry.answer.Ok? ==> finish.id == Some(entry.id))
  }

  predicate RecordsAll(log: seq<Entry>, finished: seq<Finish>) {
    |log| == |finished| && forall k :: 0 <= k < |log| ==> Records(log[k], finished[k])
  }

  // ---- the log tells the truth -------------------------------------------------------------------------

  /** What a transaction carries is what its statements in the trace said. */
  predicate Told(trace: seq<Step>, x: TxId, tx: Tx) {
    && Began(trace, x) == Some(tx.request)
    && (tx.Inserting? ==> ClockRead(trace, x) == Some(tx.now) && IdDrawn(trace, x) == Some(tx.user.id))
    && (tx.Written? ==> ClockRead(trace, x) == Some(tx.now))
  }

  lemma OthersTold(trace: seq<Step>, step: Step, x: TxId)
    requires step.x != x
    ensures Began(trace + [step], x) == Began(trace, x)
    ensures ClockRead(trace + [step], x) == ClockRead(trace, x)
    ensures IdDrawn(trace + [step], x) == IdDrawn(trace, x)
  {
    assert (trace + [step])[..|trace|] == trace;
  }

  lemma {:induction false} TxTold(lifetime: int, trace: seq<Step>, x: TxId)
    requires Exec(Init(lifetime), trace).Some? && x in Exec(Init(lifetime), trace).value.txs
    ensures Told(trace, x, Exec(Init(lifetime), trace).value.txs[x])
  {
    if trace != [] {
      var last := |trace| - 1;
      var s := Exec(Init(lifetime), trace[..last]).value;
      if trace[last].x == x {
        if x in s.txs { TxTold(lifetime, trace[..last], x); }
        OwnStepTold(s, trace[..last], trace[last]);
      } else {
        OtherStepKeeps(s, trace[last], x);
        TxTold(lifetime, trace[..last], x);
        OthersTold(trace[..last], trace[last], x);
      }
      assert trace[..last] + [trace[last]] == trace;
    }
  }

  lemma OtherStepKeeps(s: State, step: Step, x: TxId)
    requires Enabled(s, step) && step.x != x
    ensures x in Apply(s, step).txs <==> x in s.txs
    ensures x in s.txs ==> Apply(s, step).txs[x] == s.txs[x]
  {
  }

  lemma OwnStepTold(s: State, trace: seq<Step>, step: Step)
    requires Enabled(s, step) && step.x in Apply(s, step).txs
    requires step.x in s.txs ==> Told(trace, step.x, s.txs[step.x])
    ensures Told(trace + [step], step.x, Apply(s, step).txs[step.x])
  {
    assert (trace + [step])[..|trace|] == trace;
  }

  lemma ReachableTxs(lifetime: int, trace: seq<Step>)
    requires Exec(Init(lifetime), trace).Some?
    ensures var s := Exec(Init(lifetime), trace).value; TxsOk(s.users, s.log, s.txs)
  {
    Reachable(lifetime, trace);
  }

  /** The log lists exactly the requests the trace finished, in order. */
  lemma {:induction false} LogTells(lifetime: int, trace: seq<Step>)
    requires Exec(Init(lifetime), trace).Some?
    ensures RecordsAll(Exec(Init(lifetime), trace).value.log, Finished(trace))
  {
    if trace != [] {
      var last := |trace| - 1;
      var s := Exec(Init(lifetime), trace[..last]).value;
      var x := trace[last].x;
      LogTells(lifetime, trace[..last]);
      ReachableTxs(lifetime, trace[..last]);
      if x in s.txs { TxTold(lifetime, trace[..last], x); }
      FinishRecorded(s, trace[..last], trace[last]);
      assert trace[..last] + [trace[last]] == trace;
    }
  }

  lemma FinishRecorded(s: State, trace: seq<Step>, step: Step)
    requires TxsOk(s.users, s.log, s.txs) && Enabled(s, step) && RecordsAll(s.log, Finished(trace))
    requires step.x in s.txs ==> Told(trace, step.x, s.txs[step.x])
    ensures RecordsAll(Apply(s, step).log, Finished(trace + [step]))
  {
    assert (trace + [step])[..|trace|] == trace;
    assert step.x in s.txs ==> TxOk(s.users, s.log, s.txs[step.x]);
  }

  // ---- where a cookie comes from -------------------------------------------------------------------------

  lemma {:induction false} LogGrows(lifetime: int, trace: seq<Step>, i: nat)
    requires Exec(Init(lifetime), trace).Some? && i <= |trace|
    ensures Exec(Init(lifetime), trace[..i]).Some?
    ensures Exec(Init(lifetime), trace[..i]).value.log <= Exec(Init(lifetime), trace).value.log
    decreases |trace|
  {
    if i == |trace| {
      assert trace[..i] == trace;
    } else {
      var last := |trace| - 1;
      LogGrows(lifetime, trace[..last], i);
      assert trace[..last][..i] == trace[..i];
      StepGrowsLog(Exec(Init(lifetime), trace[..last]).value, trace[last]);
    }
  }

  lemma StepGrowsLog(s: State, step: Step)
    requires Enabled(s, step)
    ensures s.log <= Apply(s, step).log
  {
  }

  /** Step i committed transaction x as entry k of the log, and x has taken no step since. */
  ghost predicate CommittedAt(lifetime: int, trace: seq<Step>, i: nat, x: TxId, k: nat)
    requires i < |trace|
  {
    && trace[i] == Step(x, Commit)
    && (forall m :: i < m < |trace| ==> trace[m].x != x)
    && Exec(Init(lifetime), trace[..i]).Some? && |Exec(Init(lifetime), trace[..i]).value.log| == k
  }

  /** An answered transaction committed as the entry it carries. */
  lemma {:induction false} AnsweredCommitted(lifetime: int, trace: seq<Step>, x: TxId) returns (i: nat)
    requires Exec(Init(lifetime), trace).Some? && x in Exec(Init(lifetime), trace).value.txs
    requires Exec(Init(lifetime), trace).value.txs[x].Answered?
    ensures i < |trace| && CommittedAt(lifetime, trace, i, x, Exec(Init(lifetime), trace).value.txs[x].entry)
    decreases |trace|
  {
    var last := |trace| - 1;
    var s := Exec(Init(lifetime), trace[..last]).value;
    if trace[last].x == x {
      AnsweredByCommit(s, trace[last]);
      i := last;
    } else {
      OtherStepKeeps(s, trace[last], x);
      i := AnsweredCommitted(lifetime, trace[..last], x);
      assert trace[..last][..i] == trace[..i];
    }
  }

  lemma AnsweredByCommit(s: State, step: Step)
    requires Enabled(s, step) && step.x in Apply(s, step).txs && Apply(s, step).txs[step.x].Answered?
    ensures step.act == Commit && Apply(s, step).txs[step.x].entry == |s.log|
  {
  }

  /** Step j issued the cookie from the answer of its transaction. */
  ghost predicate IssuedAt(lifetime: int, trace: seq<Step>, j: nat, c: Claims)
    requires j < |trace|
  {
    && trace[j].act.Issue? && Exec(Init(lifetime), trace[..j]).Some?
    && var s := Exec(Init(lifetime), trace[..j]).value;
    && trace[j].x in s.txs && s.txs[trace[j].x].Answered?
    && var auth := s.txs[trace[j].x].auth;
    && c == Claims(auth.userId, auth.version, trace[j].act.now, trace[j].act.now + lifetime)
  }

  lemma {:induction false} LifetimeStays(s: State, trace: seq<Step>)
    requires Exec(s, trace).Some?
    ensures Exec(s, trace).value.lifetime == s.lifetime
  {
    if trace != [] {
      LifetimeStays(s, trace[..|trace| - 1]);
    }
  }

  lemma {:induction false} CookieIssued(lifetime: int, trace: seq<Step>, c: Claims) returns (j: nat)
    requires Exec(Init(lifetime), trace).Some? && c in Exec(Init(lifetime), trace).value.issued
    ensures j < |trace| && IssuedAt(lifetime, trace, j, c)
    decreases |trace|
  {
    var last := |trace| - 1;
    var s := Exec(Init(lifetime), trace[..last]).value;
    LifetimeStays(Init(lifetime), trace[..last]);
    if c in s.issued {
      j := CookieIssued(lifetime, trace[..last], c);
      assert trace[..last][..j] == trace[..j];
    } else {
      NewCookie(s, trace[last], c);
      j := last;
    }
  }

  lemma NewCookie(s: State, step: Step, c: Claims)
    requires Enabled(s, step) && c in Apply(s, step).issued && c !in s.issued
    ensures step.act.Issue? && step.x in s.txs && s.txs[step.x].Answered?
    ensures var auth := s.txs[step.x].auth;
            c == Claims(auth.userId, auth.version, step.act.now, step.act.now + s.lifetime)
  {
  }

  lemma {:induction false} PasswordsGrowOn(log: seq<Entry>, longer: seq<Entry>, u: int)
    requires log <= longer
    ensures Passwords(log, u) <= Passwords(longer, u)
    decreases |longer|
  {
    if log != longer {
      PasswordsGrowOn(log, longer[..|longer| - 1], u);
    }
  }
}
