# Verified model of the task application's transactional core

The application keeps users, tasks and an outbox in PostgreSQL, and hands outbox messages to a SAQ queue whose
worker marks tasks as processed. This project models the parts where correctness depends on interleaving, and
proves what they keep.

## What is modelled

**The outbox** (`OutboxMessages`, `TaskStore`, `ClaimOrder`, `OutboxProtocol`, `OutboxInvariant`,
`OutboxRelaySteps`, `OutboxSteps`, `OutboxPaths`, `OutboxTheorems`, `OutboxLaws`, `OutboxDrain`, `RelayProgram`).
`OutboxProtocol` is a step relation: task creation, edits, toggles and deletes, any number of `relay_once` runs
with their program counters and claimed batches, the queue (queued and running keys, every key accepted so far,
keys given up after their retries) and the worker's executions. A run may be killed between any two statements, a
commit may land without its caller learning of it, the queue may accept a key and report an error, forget a key or
run it again, leases may expire at any point, relay clocks may disagree and run backwards, and several relays may
share one owner name. `RelayProgram` writes `relay_once`, `claim_batch`, `mark_published` and `mark_failed` as
methods over mutable rows. Between any two of their statements they call a method whose contract lets every other
transaction take any steps; each is proved to be an execution of the step relation, so everything proved of
reachable states holds while that program runs. `OutboxLaws` says what the steps store, column by column and from which
form or clock reading, and that they can be taken. `OutboxDrain` is about the traces that no failure disturbs.

**Credentials and sessions** (`UserStore`, `CredentialProtocol`, `CredentialInvariant`, `CredentialSteps`,
`CredentialHistory`, `CredentialTheorems`, `CredentialLaws`, `SessionClaims`). Registrations, logins with their rehash,
password changes and ordinary requests are transactions taken apart into begin, unlocked revalidation, locking read, verification, buffered
write, commit or rollback, and the cookie issued afterwards, interleaved arbitrarily. The use cases themselves are
sequential functions, and the main theorem says that every interleaving is one of them after the other.
`CredentialHistory` reads the trace: which requests it finished, and at which steps a cookie was granted and issued.
`CredentialLaws` is about what is granted: which logins and changes succeed with which row, and which cookies pass.

**Single transactions** (`UnitOfWork`, `Transactions`, `Ownership`). `UnitOfWork.Store` has the repositories and
use cases as methods that change one store in place. `Transactions.Session` is the commit and rollback logic of
`TransactionRunner`. `Ownership` states what one user's requests can see and do to another's tasks.

**Development tools** (`Seed`, `Dotenv`, `Numerals`, `StackEnv`, `Text`): the idempotent seed, and the `.env`
printer and parser that keep a worktree's stack identity.

## Rules assumed of the surroundings

These are the step rules of the two protocols, not results.

- PostgreSQL: a transaction's writes stay in its own buffer until they all become visible at commit or vanish; a row
  lock belongs to one transaction until that ends; `FOR UPDATE` waits, then reads the latest committed row;
  `FOR UPDATE SKIP LOCKED` returns the latest committed rows that nobody else has locked; `UPDATE ... WHERE` waits
  for the lock and tests the latest committed row; an uncommitted insert makes equal unique keys wait. A wait for a
  lock ends with the transaction that holds it, or with an error of the transaction that waits.
- `populate_existing` makes a locking read return the row as just read, and a read in the same transaction sees that
  transaction's own writes.
- SAQ runs only keys that were enqueued, and reports success for a key it already has. It may do so for a key it has
  finished as well. Nothing else is assumed of it.
- A password hash verifies exactly the password it was made from; a replacement hash is made from that password.
  Cookies cannot be forged. Every cookie ever issued may be presented in any later request, so logging out, which
  only clears the browser's copy, needs no step of its own.
- Ids come from sequences that never repeat; UUIDs are fresh, and compare like numbers.
- Times are whole numbers. Every clock reading is a parameter of its step.

## Where the code does less than one might expect

- A password change checks its cookie before it takes the row lock, and not again under it. So a change can be granted
  on a cookie that another change has revoked in the meantime (`CredentialTheorems.RevokedSessionMayChange` is such a
  run). The current password is checked under the lock, so the change still has to present the password in force.
  `CredentialTheorems.CurrentUnlessChangedMeanwhile` says exactly when the cookie is still good.
- The seed looks its account up by `email.casefold()` and registers it under the normalized email. Where the two
  differ, and no account has the case-folded email, the first run creates the account and every later one raises
  (`Seed.SecondRun`, `Seed.SecondRunMayRaise`).
- A stack root with a trailing blank, a line break or quotes around it does not survive the `.env` file
  (`StackEnv.ConfigRoundTrip` is an equivalence).

## Model

| member | source | states |
|---|---|---|
| `Text.StripTrims` | src/app/domain/tasks.py:12-34 | stripping yields a piece of the text without blanks at its ends, and changes exactly the texts that have some |
| `Text.StripOfBlank` | src/app/domain/tasks.py:12-34 | nothing is left of a text exactly when it is all whitespace |
| `Text.StripCuts` | src/app/domain/tasks.py:12-34 | what stripping cuts off at either end is whitespace, and all of it |
| `TaskStore.TitleRule` | src/app/domain/tasks.py:12-20 | a title is accepted, as its stripped text, if and only if that has 1 to 200 characters; it is missing exactly when it is blank |
| `TaskStore.DescriptionRule` | src/app/domain/tasks.py:23-34 | a description is accepted if and only if its stripped text has at most 5000 characters; none or a blank one is stored as none, any other as its stripped text |
| `TaskStore.NewTaskRule` | src/app/application/tasks.py:53-76 | a new task has the stripped texts, is open and unprocessed and dated now; only a bad text stops it |
| `TaskStore.EditRule` | src/app/domain/tasks.py:49-57 | an edit fails exactly for a bad text; otherwise the task has the submitted texts, stripped, the new update time and everything else as before; it is idle on a task's own texts exactly if they are normal |
| `TaskStore.GetRule` | src/app/application/tasks.py:89-93 | a user reads exactly the own tasks, as they are stored |
| `TaskStore.UpdateRule` | src/app/application/tasks.py:96-108 | the edit of an owned task with good texts stores and returns one row, given column by column; a bad text or a task that is not owned changes nothing, and no other task changes |
| `TaskStore.ToggleRule` | src/app/application/tasks.py:111-123 | likewise for the toggle, which only flips the completion and dates the row |
| `TaskStore.DeleteRule` | src/app/application/tasks.py:126-128 | a delete succeeds if and only if the task is owned, and then that task is gone and every other one as it was; otherwise nothing changes |
| `TaskStore.ToggleTwice` | src/app/application/tasks.py:111-123 | a toggle flips an owned task and nothing else, two restore it up to the update time |
| `TaskStore.MarkRule` | src/app/adapters/persistence/repositories.py:187-202 | the conditional update stamps an unprocessed row with its time and touches nothing else |
| `TaskStore.MarkOnce` | src/app/domain/tasks.py:62-69 | the conditional update is with_background_processed on the stored row, and repeating it changes nothing |
| `OutboxMessages.TransitionsAre` | src/app/domain/outbox.py:25-48 | leased, published and failed column by column: a failure keeps the lease, a lease clears the error, no transition touches the letter |
| `OutboxMessages.AnnouncementIs` | src/app/application/tasks.py:77-85 | the message of a new task: task.created.v1, unpublished, never claimed, with version 1 and the task id as its only fields, and a job that handles its topic |
| `OutboxMessages.WorkerReads` | src/app/adapters/queue/worker.py:107-123 | the worker accepts a payload, and reads an id, if and only if the version equals 1 and the id is a whole number from 1 on |
| `OutboxMessages.PayloadRoundTrip` | src/app/adapters/queue/worker.py:107-132 | the worker reads back exactly the task id that create_task stored, and rejects ids below 1 |
| `OutboxMessages.SafeErrorShape` | src/app/application/outbox.py:58-61 | a blank error text is stored as the default text, any other as the first 2000 characters of its stripped form |
| `ClaimOrder.TakeIs` | src/app/adapters/persistence/repositories.py:233-245 | the query on the columns: unlocked unpublished rows without a running lease, oldest first and by id among equals; a row it could have returned is missing only behind a full batch of earlier ones |
| `ClaimOrder.TakeIsHead` | src/app/adapters/persistence/repositories.py:233-245 | the claim query returns min(limit, n) rows, in (created_at, id) order, all before every row left out |
| `ClaimOrder.HeadUnique` | src/app/adapters/persistence/repositories.py:233-245 | those conditions fix the list: no other rows, and no other order, meet them |
| `OutboxInvariant.ClaimModelsAre` | src/app/adapters/persistence/repositories.py:225-252 | the claimed models are the head of the unlocked eligible rows, each changed as `leased` changes it |
| `OutboxRelaySteps.RelayMovesRows` | src/app/domain/outbox.py:25-48 | whatever a relay commits, rows it did not write stay as they are and the others move by leased, published or failed |
| `OutboxRelaySteps.RelayKeeps` | src/app/adapters/queue/relay.py:68-143 | every act of a relay run keeps the whole invariant |
| `OutboxSteps.StepKeeps` | src/app/adapters/queue/relay.py:68-143 | so does every step of the system: lock table, buffered writes, row shape, pairing, queue coverage and acknowledgement accounts |
| `OutboxSteps.Reachable` | src/app/adapters/queue/relay.py:68-143 | the invariant holds after every execution from the empty database |
| `OutboxTheorems.NoCreationLost` | src/app/application/tasks.py:53-86 | in every reachable state each surviving unprocessed task has its message unpublished, its job queued or running, or its key given up after retries |
| `OutboxTheorems.PublishedWasOffered` | src/app/adapters/queue/relay.py:93-142 | a row with published_at set was accepted by the queue earlier in the run under its own UUID, with shared owners, stale acknowledgements and lost commits included |
| `OutboxTheorems.CreationHasItsMessage` | src/app/application/tasks.py:62-86 | a task was ever created if and only if a row's payload names it |
| `OutboxTheorems.MessageHasItsCreation` | src/app/application/tasks.py:62-86 | every row is the task.created.v1 message of one created task, and no two rows name the same task |
| `OutboxTheorems.AcknowledgedOnce` | src/app/adapters/persistence/repositories.py:254-272 | over a run, exactly one committed mark_published matches each published row, and none any other row |
| `OutboxTheorems.AcknowledgementsConserved` | src/app/adapters/queue/relay.py:93-143 | the results returned by all relays and the lost acknowledgements of the trace (commits reported as failed, counts of runs that died) never exceed the published rows, and equal them once all runs have ended; without losses the results alone do |
| `OutboxTheorems.RunAcksTell` | src/app/adapters/queue/relay.py:93-104 | the count of a run in progress is the number of its own matching acknowledgements in the trace that were reported as committed |
| `OutboxTheorems.LostTell` | src/app/adapters/queue/relay.py:93-143 | the account of lost acknowledgements is the number the trace lost |
| `OutboxTheorems.ClaimsAreDisjoint` | src/app/adapters/persistence/repositories.py:233-249 | successive claims of a message hold disjoint lease intervals and attempt_count is their number, under any clocks |
| `OutboxTheorems.RetryRate` | src/app/adapters/persistence/repositories.py:274-285 | with lease L, (attempt_count - 1) * L is at most the time from the first claim to the last |
| `OutboxTheorems.MarkedByFirstDelivery` | src/app/adapters/persistence/repositories.py:187-202 | over any duplicates, edits, toggles and deletes, background_processed_at is the time of the first delivery that found the task, or unset if there was none |
| `OutboxTheorems.RowsMoveByTransitions` | src/app/domain/outbox.py:25-48 | a step changes a committed row only by the transition of the run that has it locked; a published row never changes again |
| `OutboxTheorems.RowShape` | src/app/domain/outbox.py:12-48 | lease owner and expiry are set together, published means neither lease nor error, attempt_count is the number of committed claims |
| `OutboxTheorems.ClaimTakesHead` | src/app/adapters/persistence/repositories.py:225-252 | a claim buffers exactly the head of the unlocked eligible rows, changes no committed row, and shares no row with any other open transaction |
| `OutboxLaws.UpdatesAre` | src/app/adapters/persistence/repositories.py:254-285 | the two guarded updates match exactly an unpublished row leased to this owner, and write the given columns |
| `OutboxLaws.ClaimIs` | src/app/adapters/persistence/repositories.py:225-252 | the claimed models are the rows that the query takes, in its order, each with the new lease, one more attempt and no error |
| `OutboxLaws.PublishedByItsClock` | src/app/adapters/persistence/repositories.py:254-272 | over any trace published_at of every row is the clock reading of the update whose acknowledgement was committed, and unset if none was |
| `OutboxLaws.CreationStoresItsForm` | src/app/application/tasks.py:53-86 | in any trace the commit of a creation stores the task that its own form described when it began, under a new id, and the message naming it, under another, and nothing else |
| `OutboxLaws.CreateCanRun` | src/app/application/tasks.py:53-86 | from any state a form with acceptable texts can be carried through to its two rows |
| `OutboxLaws.DeliveryCanRun` | src/app/adapters/queue/worker.py:107-132 | from any state a queued job can be started, run and finished, and then its task is processed and the job gone |
| `OutboxDrain.CallPublishes` | src/app/adapters/queue/relay.py:68-143 | in any undisturbed trace, one call publishes exactly the batch its claim query selects from the rows as they were, changes no other row and returns the batch's size |
| `OutboxDrain.DrainsInBatches` | src/app/adapters/queue/relay.py:68-143 | in every undisturbed trace from a resting reachable state with all n unpublished rows eligible, whatever the clocks, the queue's answer to known keys, users and workers do in between, k returned calls have returned exactly min(n, k * batch_size); between calls exactly that many rows are published, the oldest ones, and no other row has changed |
| `OutboxDrain.CallCanRun` | src/app/adapters/queue/relay.py:68-143 | any claim from a resting reachable state can be carried through to its return, undisturbed |
| `OutboxPaths.LeadsIsExec` | src/app/adapters/queue/relay.py:68-143 | the paths in the contracts of the relay program are executions of the step relation |
| `RelayProgram.LeaseModels` | src/app/adapters/persistence/repositories.py:246-250 | the loop over the loaded rows gives each its lease, one more attempt and no error, which is `leased` |
| `RelayProgram.Database.SelectForClaim` | src/app/adapters/persistence/repositories.py:233-245 | locks the head of the unlocked eligible rows and loads them into fresh session objects |
| `RelayProgram.Database.ClaimBatch` | src/app/adapters/persistence/repositories.py:225-252 | the in-place code is the protocol's claim step: the leased rows in its buffer, their locks taken, the table unchanged |
| `RelayProgram.Database.MarkPublished` | src/app/adapters/persistence/repositories.py:254-272 | the guarded update is the protocol's acknowledgement step; it matches only an unpublished row leased to this owner |
| `RelayProgram.Database.MarkFailed` | src/app/adapters/persistence/repositories.py:274-285 | the guarded update is the protocol's failure step; it sets the error and keeps the lease |
| `RelayProgram.Database.Commit` | src/app/adapters/persistence/engine.py:53-73 | all buffered rows become visible at once and the run's locks are freed |
| `RelayProgram.Database.ReachRow` | src/app/adapters/persistence/repositories.py:254-285 | an update comes to its row after any steps of others: if it matches the row it runs with the lock free, if it does not it runs at once |
| `RelayProgram.PublishMessage` | src/app/adapters/queue/relay.py:33-65 | succeeds exactly for task.created.v1 and an accepting queue, passes a cancellation on, and raises otherwise; the queue has the key in every case where it took it, even if it then failed or the run was cancelled |
| `RelayProgram.Acknowledge` | src/app/adapters/queue/relay.py:96-104 | counted exactly if the commit is reported and the update found its row in the state where it ran; a row it found is published ever after, with the clock reading of this acknowledgement, if the commit landed, reported or not; any other end but a cancellation leads to the failure branch |
| `RelayProgram.RecordFailure` | src/app/adapters/queue/relay.py:134-142 | goes on to the next message if and only if the commit of fail_message is reported; if it landed, the row the update found got the error text and kept everything else |
| `RelayProgram.OutcomesAre` | src/app/adapters/queue/relay.py:94-142 | which replies and outcomes publish a message, which cancel the run, which only lead to a recorded failure, after which the run goes on, and which lose that record and end the run |
| `RelayProgram.MatchesIs` | src/app/adapters/queue/relay.py:96-105 | an acknowledgement counts if and only if the message was accepted, the commit reported, and the row then unpublished and leased to this owner |
| `RelayProgram.HandleMessage` | src/app/adapters/queue/relay.py:94-142 | one pass of the loop: the outcomes decide, as `OutcomesAre` says, whether it raises and what, whether the acknowledgement and the failure record run and what they leave behind; a recorded failure does not raise; the count goes up exactly if the acknowledgement found its row |
| `RelayProgram.ClaimMessages` | src/app/application/outbox.py:20-49 | claims the head of the eligible rows as they are at one moment, with the given lease and limit, in a transaction of its own; returns the committed batch, or raises exactly if that commit is not reported |
| `RelayProgram.HandleBatch` | src/app/adapters/queue/relay.py:93-143 | the loop: exactly the messages up to the first that is cancelled or whose failure is not recorded are handled, each pass beginning where the one before ended, and the count is the number of acknowledgements that found their row |
| `RelayProgram.RunsToItsEnd` | src/app/adapters/queue/relay.py:93-143 | without cancellations and with every failure recorded, or with every message accepted and acknowledged, the whole batch is handled and a number returned |
| `RelayProgram.RelayOnce` | src/app/adapters/queue/relay.py:68-143 | under any interference the program claims a batch, handles its messages in order on one execution and ends: it returns, with the whole batch handled and the number of acknowledgements that found their row, if and only if every message is published or has its failure recorded, and no cancellation comes; otherwise it raises at the first message that is not, with the exception of that case; bad arguments and a failed claim raise as listed, limits being 1 to 1000 |
| `UserStore.VerifyRule` | src/app/application/auth.py:84-90 | a password is valid exactly for the hash made from it, and rehashed exactly if that has another scheme |
| `UserStore.RegisterRule` | src/app/application/auth.py:39-63 | which registrations succeed, the row they store, and which error wins |
| `UserStore.LoginRule` | src/app/application/auth.py:66-93 | a login with the account's password is granted at its version and leaves the password under the preferred scheme, dated only if it was rewritten; any other is refused and changes nothing |
| `UserStore.ChangeRule` | src/app/application/profiles.py:14-37 | the exact answer and row of a password change in each case, and the order of its checks |
| `CredentialSteps.StepKeeps` | src/app/application/auth.py:66-93 | every statement of every transaction keeps locks, rows read under lock, the serial log, the password history and the cookies in order |
| `CredentialTheorems.Serializable` | src/app/application/profiles.py:14-37 | every interleaving leaves the table, and gave the answers, of its finished requests served one after the other by the sequential use cases; the log lists exactly the requests the trace finished, in order, each with its clock reading and drawn id |
| `CredentialHistory.LogTells` | src/app/application/auth.py:39-93 | every entry of the log is the commit, lost commit or refusal of a transaction of the trace, with the request it began with |
| `CredentialTheorems.GrantsNeedThePassword` | src/app/application/profiles.py:25-37 | a granted change or login presented the password in force at its place in that order |
| `CredentialTheorems.HashIsLatest` | src/app/domain/users.py:59-70 | the stored hash verifies exactly the password set last, under any scheme, and session_version is the number of committed changes |
| `CredentialTheorems.RunFollows` | src/app/adapters/persistence/repositories.py:116-126 | over any run email and created_at stay, versions never go back |
| `CredentialTheorems.AcceptedSession` | src/app/application/auth.py:104-128 | an accepted cookie was issued at a step of the trace less than a lifetime ago, with that step's clock reading and a lifetime more as its times, by the transaction that began with, and committed, a register, login or change that set or presented the password now in force, for the user and version of that transaction's answer |
| `CredentialTheorems.SessionOrigin` | src/app/adapters/web/handlers.py:114-144 | every cookie there is, accepted or not, was issued in that way and no other: ordinary requests issue and extend none |
| `CredentialLaws.LoginCommits` | src/app/application/auth.py:66-93 | in any trace, the commit of a login grants it if and only if it presented the password of the row it locked, and leaves that row with the password under the preferred scheme |
| `CredentialLaws.ChangeCommits` | src/app/application/profiles.py:14-37 | in any trace, the commit of a change grants it if and only if current password, confirmation and rules are met, and leaves the row with the new password at the next version |
| `CredentialLaws.LoginCanRun` | src/app/adapters/web/handlers.py:114-144 | from any reachable state where the row is free, a login with the right password can run to its end and get a cookie issued at the given time and expiring a lifetime later, at the account's version |
| `CredentialLaws.GrantVersion` | src/app/application/auth.py:104-116 | the version a request is granted at is the number of changes of the account committed up to it |
| `CredentialLaws.RevalidatesExactly` | src/app/application/auth.py:119-128 | a cookie passes revalidation if and only if less than a lifetime has passed since it was issued and no change of the account was committed since the request it was granted for |
| `CredentialHistory.AnsweredCommitted` | src/app/adapters/web/handlers.py:315-333 | a transaction that may issue a cookie committed as the log entry it carries, and has taken no step since |
| `CredentialTheorems.IssuedVersions` | src/app/application/auth.py:104-116 | every issued version is at most the stored one |
| `CredentialTheorems.RevocationIsPermanent` | src/app/application/auth.py:119-128 | a cookie below the stored version is refused in every later state, also one issued after that by an older login |
| `CredentialTheorems.ChangeRevokes` | src/app/adapters/web/handlers.py:291-333 | a committed change raises the version by one and so revokes every cookie issued before it |
| `CredentialTheorems.CurrentUnlessChangedMeanwhile` | src/app/adapters/web/handlers.py:114-144 | a revalidated session is still current later in the transaction if and only if no change of the account was committed in between |
| `CredentialTheorems.RevokedSessionMayChange` | src/app/adapters/web/handlers.py:126-137 | a concrete run in which a change is granted on a cookie that was already revoked |
| `SessionClaims.SessionRoundTrip` | src/app/adapters/security/sessions.py:11-47 | claims survive the session mapping if and only if they name a user and expire after they were issued |
| `SessionClaims.SessionReads` | src/app/adapters/security/sessions.py:20-47 | which mappings with whole user and version and numeric times are sessions, and with which claims |
| `SessionClaims.MalformedSession` | src/app/adapters/security/sessions.py:20-41 | any other value is no session |
| `Ownership.ListOwnedIs` | src/app/adapters/persistence/repositories.py:157-163 | the list holds exactly the user's tasks, once each, newest first |
| `Ownership.OwnStep` | src/app/application/tasks.py:89-128 | on two stores that agree on a user's tasks, the user's operation gives equal results and equal tasks |
| `Ownership.ForeignStep` | src/app/adapters/persistence/repositories.py:147-185 | another user's operation leaves the user's tasks as they were |
| `Ownership.UnownedIsAbsent` | src/app/adapters/persistence/repositories.py:147-155 | no operation can tell somebody else's task from a missing one |
| `Ownership.OthersAreInvisible` | src/app/application/tasks.py:89-128 | over any run a user's results and tasks are those of the run without the other users' operations |
| `Ownership.OwnerIsFixed` | src/app/adapters/persistence/repositories.py:165-177 | a task's owner never changes over a run |
| `Ownership.CreatedIsSeen` | src/app/application/tasks.py:53-93 | a task that was created is the one its owner reads and lists |
| `Ownership.ChangesAreSeen` | src/app/application/tasks.py:89-123 | an edit, toggle, delete or delivery is what its owner reads next, column by column |
| `Ownership.DeletedForGood` | src/app/application/tasks.py:126-128 | after its owner's delete a task is gone at the end of every run |
| `Ownership.GoneForGood` | src/app/adapters/persistence/repositories.py:179-185 | a deleted task never comes back |
| `Ownership.TextsStayNormal` | src/app/domain/tasks.py:12-57 | over any run every stored task keeps texts within the rules |
| `UnitOfWork.Store.FindUser` | src/app/adapters/persistence/repositories.py:107-114 | returns the row with that email, or nothing if there is none |
| `UnitOfWork.Store.AddUser` | src/app/adapters/persistence/repositories.py:75-92 | inserts a row under a fresh id, or reports the duplicate email and changes nothing |
| `UnitOfWork.Store.WriteCredentials` | src/app/adapters/persistence/repositories.py:116-126 | writes the three credential columns of one row and nothing else |
| `UnitOfWork.Store.Register` | src/app/application/auth.py:39-63 | the method computes the sequential registration that the protocol is serialized to |
| `UnitOfWork.Store.Authenticate` | src/app/application/auth.py:66-93 | likewise for login with rehash: granted at the account's version, with the password then stored under the preferred scheme, if and only if the password is the account's |
| `UnitOfWork.Store.ChangePassword` | src/app/application/profiles.py:14-37 | likewise for the password change, with its checks in their order |
| `UnitOfWork.Store.CreateTask` | src/app/application/tasks.py:53-86 | adds the task and its message together, or nothing |
| `UnitOfWork.Store.WriteTask` | src/app/adapters/persistence/repositories.py:165-177 | writes back the five mutable columns, background_processed_at among them, and no identity column |
| `UnitOfWork.Store.EditTask` | src/app/application/tasks.py:96-108 | the edit that the protocol takes as one step |
| `UnitOfWork.Store.ToggleTask` | src/app/application/tasks.py:111-123 | the toggle that the protocol takes as one step |
| `UnitOfWork.Store.DeleteTask` | src/app/application/tasks.py:126-128 | removes an owned task and nothing else, and reports any other as not found |
| `UnitOfWork.Store.ProcessTaskCreated` | src/app/application/tasks.py:131-136 | marks an unmarked task, leaves a marked one alone, and returns the row |
| `Transactions.Session.Run` | src/app/adapters/persistence/engine.py:57-73 | commits the operation whole or not at all; a result means it landed and is the operation's own, an error of the operation means it did not; a failed commit and a cancellation leave it open, as the cancellation may strike after the commit |
| `Transactions.Session.RunAll` | src/app/adapters/persistence/engine.py:57-73 | after any sequence of runs the database is the replay of exactly the operations that landed, and each answer given is the one of that replay |
| `Seed.SamplesAreClean` | tools/seed.py:27-35 | the sample titles and descriptions pass the task rules unchanged |
| `Seed.RefusalIs` | tools/seed.py:67-97 | an existing account is never refused, whatever its password; without one the refusals and their order |
| `Seed.SeedAccount` | tools/seed.py:67-97 | finds, creates or repairs the account; a repair raises the session version, a rehash does not, nobody else is touched |
| `Seed.PlantMissing` | tools/seed.py:99-120 | adds exactly the samples whose title the user lacks, one task and one message each, and changes nothing else |
| `Seed.SeedOperation` | tools/seed.py:59-127 | the whole run, with its report and the exact conditions under which it raises and leaves the store alone |
| `Seed.SeedReady` | tools/seed.py:59-127 | afterwards the seed password logs in without a rehash and every sample title is there |
| `Seed.SecondRun` | tools/seed.py:59-127 | a second run changes nothing and reports nothing, if and only if the account existed before the first or the case-folded email is the normalized one; otherwise it raises DuplicateEmailError |
| `Seed.SecondRunMayRaise` | tools/seed.py:70-79 | an email with a leading blank: on an empty store the first run creates the account, the three tasks and their messages, and every later run on that raises and changes nothing |
| `Dotenv.ReadDotenv` | tools/dev.py:99-112 | the loop computes the dictionary that the text stands for |
| `Dotenv.LinesAre` | tools/dev.py:103-103 | every line break ends a line, CR LF counts once, and the last line needs none |
| `Dotenv.LineIs` | tools/dev.py:104-111 | what one line contributes: nothing if blank, a comment or without an equals sign, else key and value around the first one |
| `Dotenv.UnquoteIs` | tools/dev.py:108-110 | one pair of equal quotes, single or double, is taken off, and nothing else |
| `Dotenv.EntryComesBack` | tools/dev.py:99-118 | a printed entry is read back with its value stripped and unquoted, whatever '=' or '#' the value contains |
| `Dotenv.FoldPrinted` | tools/dev.py:99-118 | so is a whole printed file, entry by entry |
| `Dotenv.PlainIsKept` | tools/dev.py:107-111 | a one-line value comes back unchanged if and only if it is trimmed and not in quotes |
| `Dotenv.ParsedIsOneLine` | tools/dev.py:99-112 | no file makes the parser yield a value with a line break |
| `Numerals.IntRoundTrip` | tools/dev.py:202-219 | a printed port is read back as the same number |
| `Numerals.DecimalIs` | tools/dev.py:242-252 | the printed text is the decimal one, without leading zeros |
| `Numerals.ValueIs` | tools/dev.py:202-219 | reading is in base ten, single underscores between digits allowed |
| `StackEnv.ComesBack` | tools/dev.py:202-254 | what reading returns for any written configuration on two lines, the foreign-worktree error included |
| `StackEnv.ConfigRoundTrip` | tools/dev.py:202-254 | a written configuration is read back unchanged if and only if root and project are plain |
| `StackEnv.AbsolutePathIsPlain` | tools/dev.py:236-238 | an absolute path without line breaks or trailing blanks is plain |
| `StackEnv.EnvFile.LoadConfig` | tools/dev.py:225-254 | creates the file only if it is missing and allowed, never touches an existing one, and answers from it; the created identity has the path, the project and the six ports in their own fields |
| `StackEnv.CreatedIs` | tools/dev.py:225-254 | the creating call, field by field, and the file it writes, line by line under the names of the keys; what the other first calls answer |
| `StackEnv.CreatedParses` | tools/dev.py:99-118 | read back as a dictionary, that file has each port under the name of its service, and plain root and project unchanged |
| `StackEnv.ReadingIs` | tools/dev.py:202-222 | the reading by key names: when it is malformed, when it belongs to another worktree, and which field comes from which key |
| `StackEnv.CreatedReadsBack` | tools/dev.py:225-254 | every call after the creating one gives its answer, if and only if path and project name are plain |
| `StackEnv.OneIdentity` | tools/dev.py:225-254 | over any sequence of calls, whatever ports are free at each, the identity is the one of the creating call |

## Left out

- Statement-level interleaving of task edit and toggle with the worker's mark or with each other: the code reads
  without a lock and writes `background_processed_at` back, so these are one atomic step each, and nothing is claimed
  beyond that.
- OutboxTheorems.MarkedByFirstDelivery: holds for edits and toggles as atomic transactions only, as above.
- CredentialTheorems.Serializable: speaks of the requests that ended with an answer of their use case, refusals
  included. A request that fails revalidation, or is cancelled, is rolled back and leaves no entry.
- RelayProgram.Acknowledge: an update that gives up waiting for a row lock counts as a failed transaction; how long it
  waits is not modelled.
- OutboxDrain.DrainsInBatches: speaks of traces without failures, deaths and new tasks, and of one call at a time. With
  failing rows at the head of the order there is no such bound.
- SessionClaims.SessionRoundTrip: times are whole numbers; rounding of float timestamps is not modelled, and the range
  of datetime is a parameter.
- Numerals.IntRoundTrip: reading covers ASCII digits, sign and underscores; Python's int() takes other Unicode digits too.
- Transactions.Session.Run: the operation is a function of the state, so interleaving inside one transaction is the
  subject of the two protocols instead.
- Foreign keys and user deletion: the application has no step that deletes a user.
- Unicode normalization, case folding, email syntax and the password text rules: their verdicts are parameters.
- Argon2, the work spent on unknown accounts, cookie encryption, CSRF and security headers.
- SAQ's own scheduling, timeouts, cron and backoff.
- The public task ids (Sqids), templates, telemetry, logging, settings, migrations and deployment files.
- The rest of tools/dev.py (ports, Docker, processes, command line) and tools/hook_policy.py. Which ports are free,
  Path.resolve and the derived project name are parameters.
