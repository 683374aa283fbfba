/** TransactionRunner: one operation per session, committed whole or not at all
    (src/app/adapters/persistence/engine.py). */
module Transactions {
  import opened Basics

  /**
   How the world treats a run whose operation succeeds: it commits and says so; it fails, at the latest while
   committing or closing the session; or it is cancelled, at the latest while closing the session. In the last
   two cases `landed` says whether the transaction was committed all the same.
   */
  datatype Outcome = Committed | Failed(landed: bool) | Interrupted(landed: bool)
  {
    predicate Lands() {
      Committed? || landed
    }
  }

  /** Why a run raised. */
  datatype Failure<+E> = Raised(error: E) | CommitFailed | Cancelled

  type Operation<!S, T, E> = S -> (S, Result<T, E>)

  class Session<S(0)> {
    var committed: S
    var working: S

    constructor (start: S)
      ensures committed == start && working == start
    {
      committed, working := start, start;
    }

    method Rollback()
      modifies this`working
      ensures working == committed
    {
      working := committed;
    }

    /** _commit, and the close of the session after it. */
    method Commit(outcome: Outcome) returns (raised: bool)
      modifies this`committed
      ensures raised == !outcome.Committed?
      ensures committed == if outcome.Lands() then working else old(committed)
    {
      if outcome.Lands() {
        committed := working;
      }
      raised := !outcome.Committed?;
    }

    /** run. A cancellation may also strike before the operation has finished, or hide its error. */
    method Run<T, E>(operation: Operation<S, T, E>, outcome: Outcome)
      returns (r: Result<T, Failure<E>>, ghost landed: bool)
      modifies this
      ensures Turn(old(committed), committed, operation, outcome, r, landed)
      ensures r.Ok? <==> operation(old(committed)).1.Ok? && outcome.Committed?
      ensures r == Err(Cancelled) <==> outcome.Interrupted?
      ensures r == Err(CommitFailed) <==> operation(old(committed)).1.Ok? && outcome.Failed?
      ensures working == committed
      ensures r.Ok? ==> Ok(r.value) == operation(old(committed)).1
      ensures operation(old(committed)).1.Err? ==> committed == old(committed)
      ensures operation(old(committed)).1.Ok? ==>
        committed == if outcome.Committed? || outcome.landed then operation(old(committed)).0 else old(committed)
    {
      var early: bool := *;
      if outcome == Interrupted(false) && early {
        Rollback();
        return Err(Cancelled), false;
      }
      working := committed;
      var (after, answer) := operation(working);
      working := after;
      if answer.Err? {
        Rollback();
        return Err(if outcome.Interrupted? then Cancelled else Raised(answer.error)), false;
      }
      var raised := Commit(outcome);
      landed := outcome.Lands();
      if raised {
        Rollback();
        return Err(if outcome.Interrupted? then Cancelled else CommitFailed), landed;
      }
      return Ok(answer.value), landed;
    }

    /** A sequence of transactions, each with its own outcome. */
    method RunAll<T, E>(operations: seq<Operation<S, T, E>>, outcomes: seq<Outcome>)
      returns (answers: seq<Result<T, Failure<E>>>, ghost landed: seq<bool>)
      requires |outcomes| == |operations|
      modifies this
      ensures |answers| == |landed| == |operations|
      ensures committed == Replay(old(committed), operations, landed)
      ensures forall i :: 0 <= i < |operations| ==>
        AnswersAt(old(committed), operations, outcomes, answers, landed, i)
    {
      answers, landed := [], [];
      ghost var states := [committed];
      for i := 0 to |operations|
        invariant |answers| == |landed| == i && |states| == i + 1
        invariant states[0] == old(committed) && states[i] == committed
        invariant forall j :: 0 <= j < i ==>
          Turn(states[j], states[j + 1], operations[j], outcomes[j], answers[j], landed[j])
      {
        var answer, hit := Run(operations[i], outcomes[i]);
        answers, landed, states := answers + [answer], landed + [hit], states + [committed];
      }
      TurnsReplay(states, operations, outcomes, answers, landed);
    }
  }

  /** What a caller may conclude from an answer: a result is the operation's own, on the state it ran on, and it
      landed; an error of the operation did not land; any other exception leaves it open. */
  ghost predicate Answers<S, T, E>(
      before: S, operation: Operation<S, T, E>, outcome: Outcome, answer: Result<T, Failure<E>>, landed: bool)
  {
    var result := operation(before).1;
    && (landed <==> result.Ok? && outcome.Lands())
    && match answer
       case Ok(value) => landed && result == Ok(value)
       case Err(Raised(e)) => !landed && result == Err(e)
       case Err(CommitFailed) => result.Ok? && outcome.Failed?
       case Err(Cancelled) => outcome.Interrupted?
  }

  /** The committed state after exactly the operations that landed, in order. */
  ghost function Replay<S, T, E>(start: S, operations: seq<Operation<S, T, E>>, landed: seq<bool>): S
    requires |operations| == |landed|
    decreases |operations|
  {
    if operations == [] then start
    else
      var n := |operations| - 1;
      var s := Replay(start, operations[..n], landed[..n]);
      if landed[n] then operations[n](s).0 else s
  }

  /** The i-th answer of a sequence of runs, believed of the replay of those that landed before. */
  ghost predicate AnswersAt<S, T, E>(
      start: S, operations: seq<Operation<S, T, E>>, outcomes: seq<Outcome>,
      answers: seq<Result<T, Failure<E>>>, landed: seq<bool>, i: nat)
    requires |outcomes| == |answers| == |landed| == |operations| && i < |operations|
  {
    Answers(Replay(start, operations[..i], landed[..i]), operations[i], outcomes[i], answers[i], landed[i])
  }

  /** One run: the answer may be believed, and the database moves by the operation or stays. */
  ghost predicate Turn<S, T, E>(
      before: S, after: S, operation: Operation<S, T, E>, outcome: Outcome, answer: Result<T, Failure<E>>, landed: bool)
  {
    Answers(before, operation, outcome, answer, landed) && after == if landed then operation(before).0 else before
  }

  lemma TurnsReplay<S, T, E>(
      states: seq<S>, operations: seq<Operation<S, T, E>>, outcomes: seq<Outcome>,
      answers: seq<Result<T, Failure<E>>>, landed: seq<bool>)
    requires |outcomes| == |answers| == |landed| == |operations| && |states| == |operations| + 1
    requires forall j :: 0 <= j < |operations| ==>
      Turn(states[j], states[j + 1], operations[j], outcomes[j], answers[j], landed[j])
    ensures states[|operations|] == Replay(states[0], operations, landed)
    ensures forall i :: 0 <= i < |operations| ==> AnswersAt(states[0], operations, outcomes, answers, landed, i)
  {
    forall i | 0 <= i < |operations|
      ensures AnswersAt(states[0], operations, outcomes, answers, landed, i)
    {
      AnswerHolds(states, operations, outcomes, answers, landed, i);
    }
    StateIsReplay(states, operations, outcomes, answers, landed, |operations|);
    assert operations[..|operations|] == operations && landed[..|operations|] == landed;
  }

  lemma AnswerHolds<S, T, E>(
      states: seq<S>, operations: seq<Operation<S, T, E>>, outcomes: seq<Outcome>,
      answers: seq<Result<T, Failure<E>>>, landed: seq<bool>, i: nat)
    requires |outcomes| == |answers| == |landed| == |operations| && |states| == |operations| + 1 && i < |operations|
    requires forall j :: 0 <= j < |operations| ==>
      Turn(states[j], states[j + 1], operations[j], outcomes[j], answers[j], landed[j])
    ensures AnswersAt(states[0], operations, outcomes, answers, landed, i)
  {
    StateIsReplay(states, operations, outcomes, answers, landed, i);
    assert Turn(states[i], states[i + 1], operations[i], outcomes[i], answers[i], landed[i]);
  }

  lemma {:induction false} StateIsReplay<S, T, E>(
      states: seq<S>, operations: seq<Operation<S, T, E>>, outcomes: seq<Outcome>,
      answers: seq<Result<T, Failure<E>>>, landed: seq<bool>, k: nat)
    requires |outcomes| == |answers| == |landed| == |operations| && |states| == |operations| + 1 && k <= |operations|
    requires forall j :: 0 <= j < |operations| ==>
      Turn(states[j], states[j + 1], operations[j], outcomes[j], answers[j], landed[j])
    ensures states[k] == Replay(states[0], operations[..k], landed[..k])
    decreases k
  {
    if k != 0 {
      StateIsReplay(states, operations, outcomes, answers, landed, k - 1);
      assert operations[..k][..k - 1] == operations[..k - 1] && landed[..k][..k - 1] == landed[..k - 1];
      assert Turn(states[k - 1], states[k], operations[k - 1], outcomes[k - 1], answers[k - 1], landed[k - 1]);
    }
  }
}
