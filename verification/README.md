# A verified model of the durable workflow engine

The engine runs workflows, activities, timers, approvals, child workflows and
schedules for many processes that share one SQL database and act on it only
through transactions. This project models that behaviour in Dafny 4.11 and
proves what the engine is for: no topic exceeds its concurrency cap, no event
is lost or delivered twice, no parent is stranded, stale writers change
nothing, replay means the same as running once, and pages, plans and restarts
add up. `dafny verify dfyconfig.toml` checks everything.

## How it is organised

**The database protocol.** `Rows` holds the rows as values and `Transactions`
every transaction as a function from the database it sees to what it commits.
`Store`, `Engine`, `Claims` and `Worker` are the same transactions as they are
written: classes and methods that update rows in place with loops, scans and
work lists, each proved equal to its function. `Effects`, `Meanings` and
`Endings` prove, on the rows and without those functions, when each commits,
what it leaves and what can follow. `Pages` reads first pages. `Invariant`
states what every reachable database satisfies; `Evolution` holds frame rules,
and `Preservation`, `Commits`, `Lineage` prove that each transaction keeps it.

**The distributed system.** `System` is a state machine of coordinators,
workers, operators, handlers and clocks over one database. Every transaction
is one step, except the activity claim batch, which runs statement by
statement with other transactions committing in between, as READ COMMITTED
allows. `Batches` proves the batch sound, `Protocol` and `Safety` carry the
system invariant through every step, and `Runs.RunSafe` concludes for every
state of every run of any length. `Worker` runs the written batch with other
transactions between its statements and shows that its log is a run of the
batch model. `History`, `Attempts`, `Advance` and `Steady` prove that runs
only add to the record. `Theorems`, `Progress` and `Generations` state the
consequences; `Example` exhibits runs that reach a full topic and a missed
recovery.

**The cancel cascade.** `Cascade` holds the invariants of the work list whose
loops are in `Store.Database`.

**Flows.** `Flow` models flow code as any deterministic function from the
answers it received to its next request, the journal, the replay context and
durable runs with crashes, and proves that replay refines direct execution.
`Projection` shows that the steps of the system for one workflow are such a run.

**Schedules.** `Zone` (wall clocks with gaps and folds), `Calendar`,
`Planner` (chunked planning) and `Overlap` (run rows and the cursor).

**Two smaller machines.** `Supervision` is the restart policy; `TimelineKey`
and `Timeline` are the five-source timeline pager.

## Assumptions

- The database clock does not go back, and local clocks advance at its rate.
- Topic caps are fixed, and at most one renewal per claim is in flight.
- A failed transaction changes nothing; a transaction that would write a row
  which a claim batch has written waits until the batch ends.
- `(kind, deduplication key)` and the restart source are unique; identifiers
  and lease tokens are fresh, and a row that names another row has a larger
  identifier.
- Commands are validated: an activity asks for at least one attempt.
- Flow code is deterministic and propagates suspension and definition errors.
- Cron fires at whole seconds and its search finds the next time; time zone
  transitions are whole seconds and their wall-clock intervals do not touch.

Identifiers, tokens, clock samples, retry delays and decisions of user code
are parameters. Three columns are history that no transaction reads: the
request of the last command, whether an operator corrected it, and the
number of pauses that revoked an attempt. Methods that other transactions
interleave with call `Interleave` or `OthersCommit`, of which only the contract
is known.

## Where the code and its promises differ

- A recoverable start promises the newest generation of its key. When its
  first locking read finds no row and its insert then finds one that has
  already been restarted, it names the older row; when the row it finds has
  failed or blocked, it returns that row and recovers nothing.
  `Example.MissedRestartExample` and `Example.MissedFailureExample` reach both
  cases in a run, and `Generations.RecoverableStartNamesNewest` and
  `Generations.RecoverableStartRecovers` give the exact conditions.
- The restart budget saturates at 32 bits, so with the largest budget it never
  stops a task. `Supervision.BudgetBoundIff` gives the exact condition.

## Model

| member | source | states |
|---|---|---|
| `Runs.RunSafe` | durable-workflows/src/runtime/activity_worker.rs:345-511 | every state of every run, with claim batches interleaved statement by statement, satisfies the system invariant |
| `Runs.NextKeeps` | spec/README.md:105-135 | every step (transaction, statement of a batch, clock tick, handler event) keeps the invariant |
| `Theorems.TopicCap` | durable-workflows/src/runtime/activity_worker.rs:1342-1567 | in every reachable state the running or cancelling activities of a topic number at most its cap |
| `Theorems.ExecutionCap` | durable-workflows/src/runtime/activity_worker.rs:1040-1101 | in every reachable state the handlers of a topic that execute before their deadlines number at most its cap |
| `Theorems.DeadlineWithinLease` | durable-workflows/src/runtime/activity_worker.rs:1213-1222 | the local deadline of an executing handler is at or before the stored expiry of the lease it holds, across claims and renewals |
| `Theorems.SettledHandlerIsPast` | durable-workflows/src/runtime/activity_worker.rs:1373-1567 | when a batch that settles an attempt commits, the deadline of that attempt's handler has passed |
| `Theorems.Deliveries` | durable-workflows/src/runtime/coordinator.rs:306-332 | delivery sequences are 1, 2, ...; a live workflow has one unconsumed delivery, the next one, if it is ready, running or paused without a wait, else none |
| `Theorems.ClaimFindsEvent` | durable-workflows/src/runtime/coordinator.rs:306-332 | a coordinator that still holds its claim finds exactly the next delivery |
| `Theorems.FencedTransition` | durable-workflows/src/runtime/coordinator.rs:1449-1463 | a transition changes the database only under the token of a running row; then the cached row equals the stored one and the command advances by one exactly if one was issued |
| `Theorems.FencedFailure` | durable-workflows/src/runtime/coordinator.rs:667-781 | an activation failure changes the database only under the token of a running row whose cached copy is exact |
| `Theorems.StaleForever` | durable-workflows/src/runtime/coordinator.rs:1449-1463 | once no running row carries a token, every later commit under that token changes nothing |
| `Theorems.NoStrandedParent` | durable-workflows/src/persistence/workflows.rs:143-173 | a workflow that waits on a child, paused or not, waits on a live row that is neither itself nor above it |
| `Theorems.WaitersServed` | durable-workflows/src/store.rs:873-947 | whatever step ends a child, each waiter ends too, or gets exactly one event under its current command whose outcome fits the status the child is stored with (success iff it succeeded), or waits on the same-definition successor |
| `Progress.OutcomeIsStored` | durable-workflows/src/runtime/coordinator.rs:1258-1296 | whenever a live workflow is told of a child, on every path, also when it attaches to a child that had ended before, the outcome is the one stored with that child |
| `Progress.FailuresCounted` | durable-workflows/src/runtime/coordinator.rs:695-727 | in every reachable state a row counts exactly the failed activations recorded since its last committed transition, and allows eight |
| `Progress.FailsAtLimit` | durable-workflows/src/runtime/coordinator.rs:695-727 | a live workflow fails exactly with a recorded failure that makes as many in a row as the row or the coordinator allows; after any other it is ready at the given time with the same deliveries |
| `Progress.SucceedsByCompletion` | durable-workflows/src/runtime/coordinator.rs:861-904 | a live workflow succeeds in a step exactly if the step commits its completion |
| `Progress.SleepsUntil` | durable-workflows/src/runtime/coordinator.rs:966-1084 | a row that waits for a timer waits under the command and until the time of its last committed transition, a sleep |
| `Progress.TimerFiresWhenDue` | durable-workflows/src/runtime/temporal.rs:36-70 | in every reachable state the timer of a sleeping workflow can fire exactly from the time on that its last transition gave, and then answers that command |
| `Theorems.HistoryGrows` | durable-workflows/src/persistence/workflows.rs:175-266 | over a run rows only gain deliveries, commands and attempts; terminal rows and finished attempts never change |
| `Theorems.CommandAnsweredOnce` | durable-workflows/src/persistence/workflows.rs:175-266 | of two answers in one inbox the later answers a later command, so no command is answered twice |
| `Theorems.CommandSucceedsOnce` | durable-workflows/src/runtime/activity_worker.rs:1707-1851 | two activities that succeeded for one (workflow, command), at any two times, are the same activity |
| `Theorems.ReplacementsDistinct` | durable-workflows/src/runtime/coordinator.rs:1086-1182 | no two activities share (workflow, command, replacement number) |
| `Theorems.AttemptsConserved` | durable-workflows/src/runtime/activity_worker.rs:590-667 | running-or-cancelling iff leased iff exactly one open attempt, the last, under the lease token; max attempts is the requested number plus revoking pauses; pending rows have attempts left |
| `Theorems.Coupling` | durable-workflows/src/runtime/activity_worker.rs:1913-2012 | a running activity's workflow waits on it, a pending one's waits or is paused on it, a blocked workflow's activity is dead-lettered |
| `Theorems.BlockedAndPaused` | durable-workflows/src/admin/control.rs:1032-1103 | a blocked workflow waits on a dead-lettered activity of its own; a paused one can always be resumed, never through the succeeded or cancelled branches |
| `Theorems.QuarantineIsForBounds` | durable-workflows/src/runtime/activity_worker.rs:569-610 | a reachable batch quarantines a row only for invalid bounds, never for its attempt cap |
| `Theorems.PauseCostsNoRetry` | durable-workflows/src/admin/control.rs:988-1029 | a retryable failure dead-letters exactly when the attempts used, less those that pauses revoked, reach the number asked for |
| `Example.CapIsReached` | durable-workflows/src/runtime/activity_worker.rs:345-511 | some run fills a topic to its cap with an executing handler, so the bounds are attained |
| `Generations.ChainsAreLinear` | durable-workflows/src/store.rs:838-863 | restart chains are linear with increasing ids; a restarted row is terminal; at most the newest generation is live |
| `Generations.RecoverableStartNamesNewest` | durable-workflows/src/store.rs:349-551 | a recoverable start names the newest generation of its key if and only if it did not miss a restart between its two reads |
| `Generations.RecoverableStartRecovers` | durable-workflows/src/store.rs:376-399 | a recoverable start starts a row iff the key is free or its newest generation failed or is blocked, changes nothing otherwise, and names a failed or blocked row iff that row appeared between its two reads |
| `Example.MissedRestartExample` | durable-workflows/src/store.rs:376-399 | a run reaches a state where the insert path returns a keyed row although its successor is the newest generation |
| `Example.MissedFailureExample` | durable-workflows/src/store.rs:376-399 | a run reaches a state where the insert path returns a failed row and recovers nothing |
| `Generations.WalkFindsAncestors` | durable-workflows/src/runtime/coordinator.rs:1339-1367 | the ancestor walk answers yes exactly for the rows that a path of parent links, else restart links, leads to |
| `Generations.CascadeEnds` | durable-workflows/src/store.rs:1002-1031 | a cascade ends exactly the live rows of the least closed set, after which neither the root nor a member owns a live generation |
| `Generations.CascadeIsLive` | durable-workflows/src/store.rs:1002-1031 | every row a cascade lists is live, so it is cancelled, and once |
| `Generations.CancelEnds` | durable-workflows/src/store.rs:972-1000 | a cancel ends the workflow, its live owned descendants and nothing else |
| `Endings.CancelMeans` | durable-workflows/src/store.rs:972-1131 | a cancel commits iff the row is live; the row and its cascade are cancelled, their pending activities too, their leased ones revoked with the given outcome, their approvals closed, every waiter of one of them told it was cancelled, and no other row changes |
| `Endings.SuccessorSurvives` | durable-workflows/src/store.rs:1002-1031 | the cascade of a row never reaches the generation that replaces it |
| `Endings.RestartMeans` | durable-workflows/src/admin/control.rs:242-394 | a restart commits iff the row ended, is paused or is blocked and has no successor; the new generation is ready, a live source is cancelled with its activities and its waiters told it was superseded, then its cascade, which leaves the new generation alone |
| `Endings.RecoverableStartMeans` | durable-workflows/src/store.rs:349-551 | the row it starts is ready; a failed source stays, a blocked one is cancelled with its cascade, its dead letters too, and its waiters wait on the new generation if the version is the same, else are told it was superseded |
| `Endings.StartMeans` | durable-workflows/src/persistence/workflows.rs:36-78 | a start changes nothing if a row holds the key, else adds one row that can be claimed exactly from its time on |
| `Store.Database.WakeWaitingParents` | durable-workflows/src/persistence/workflows.rs:143-173 | the loop gives every waiter of the child its outcome and changes no other row |
| `Store.Database.WakeParent` | durable-workflows/src/persistence/workflows.rs:175-266 | one waiter gets one event under its command and becomes ready, or stays paused |
| `Store.Database.HandWaitingParents` | durable-workflows/src/store.rs:896-945 | the loop moves every waiter of the superseded row to the successor and changes no other row |
| `Store.Database.CancelOwnActivities` | durable-workflows/src/store.rs:1141-1211 | the loop revokes leased activities, cancels pending ones and leaves the rest |
| `Store.Database.RevokeActivity` | durable-workflows/src/store.rs:1159-1209 | the row keeps its slot, its fences and its attempts, and can neither be claimed nor run on |
| `Store.Database.CancelOneWorkflow` | durable-workflows/src/store.rs:1068-1131 | activities, approvals, the row and the wake of its waiters, as one change |
| `Store.Database.CancelPendingApprovals` | durable-workflows/src/store.rs:1244-1274 | the loop leaves no approval of the workflow to decide and changes no other |
| `Store.Database.CancelDeadLettered` | durable-workflows/src/store.rs:472-486 | no activity of the workflow can be retried any more, and no row that can still run changes |
| `Store.Database.LockSuccessor` | durable-workflows/src/store.rs:850-863 | finds the unique row restarted from the given one, or none |
| `Store.Database.LockNewestGeneration` | durable-workflows/src/store.rs:838-847 | the walk terminates at the newest generation of the chain |
| `Store.Database.IsCallerOrAncestor` | durable-workflows/src/runtime/coordinator.rs:1339-1367 | the walk terminates and finds the target exactly if a path of links leads to it |
| `Store.Database.CancelGeneration` | durable-workflows/src/store.rs:1019-1024 | cancels a live generation and puts it on the work list |
| `Store.Database.CancelGenerations` | durable-workflows/src/store.rs:1015-1029 | the chain walk of one child leaves no live generation uncancelled |
| `Store.Database.CancelChild` | durable-workflows/src/store.rs:1014-1030 | one more child is covered, and what was cancelled before stays so |
| `Store.Database.CancelChildren` | durable-workflows/src/store.rs:1014-1030 | after a parent is processed, every live generation of its owned children is cancelled |
| `Store.Database.CancelOwnedDescendants` | durable-workflows/src/store.rs:1002-1064 | the work list terminates, and what it cancelled, each row once, is the least set closed under live generations of owned children |
| `Engine.RecoverExpiredLease` | durable-workflows/src/runtime/coordinator.rs:459-530 | commits iff the lease of a running row has expired; the old holder is fenced out, the row can be claimed at once, and the next holder finds the same delivery |
| `Claims.FindExpired` | durable-workflows/src/runtime/coordinator.rs:459-517 | the paged scan terminates with the first expired lease that nobody holds, or all are held |
| `Claims.ClaimFirst` | durable-workflows/src/runtime/coordinator.rs:550-612 | claims the first runnable row nobody holds; every earlier one is held, and without a claim all are held or a full page is |
| `Claims.ClaimNext` | durable-workflows/src/runtime/coordinator.rs:432-615 | one claim transaction: recovers the first expired lease nobody holds, then claims the first runnable row nobody holds, or all are held or a full page is |
| `Engine.ClaimRow` | durable-workflows/src/runtime/coordinator.rs:550-612 | commits iff the row is ready and due; it runs under the token, its lease can be recovered exactly from now plus the lease on, and the claim caches it as stored |
| `Engine.RecordActivationFailure` | durable-workflows/src/runtime/coordinator.rs:667-781 | fenced: one more failure is counted; the row fails iff that reaches the limit of the row or of the coordinator, and its waiters are told; else it can be claimed exactly from the given time on with the same delivery and no other row changes |
| `Engine.CommitOnConnection` | durable-workflows/src/runtime/coordinator.rs:783-964 | commits iff fenced; a completion tells every waiter it succeeded; a timer can fire exactly from its time on; an approval can be resolved exactly before and lapses exactly from its expiry on; an activity can be claimed exactly from its time on with all attempts; failures are counted anew |
| `Engine.CommitChildTransition` | durable-workflows/src/runtime/coordinator.rs:1184-1337 | under a free key inserts a ready child owned by the caller; else attaches to the end of the restart chain, waiting if it is live, told its stored outcome if not, with version, ancestor and fence errors in that order |
| `Meanings.AttachMeans` | durable-workflows/src/runtime/coordinator.rs:1184-1337 | a child transition whose key a row holds fails with the first of three reasons, or attaches to the end of the restart chain, told the stored outcome if that has ended |
| `Engine.HeartbeatOnce` | durable-workflows/src/runtime/activity_worker.rs:1103-1211 | under the invariant succeeds iff the lease is held; the row expires exactly one lease after the sample, which covers every deadline computed from the sample; slots and other rows stay |
| `Engine.SettleRevokedAttempt` | durable-workflows/src/runtime/activity_worker.rs:1579-1631 | closes the attempt with the given outcome, frees exactly that slot, never fails for a revoked row; the row is cancelled iff its workflow ended, else claimable at once with attempts left |
| `Engine.DeadLetterActivity` | durable-workflows/src/runtime/activity_worker.rs:1853-1884 | closes the attempt, dead-letters the row, frees exactly that slot, blocks the workflow and no other, and any operator retry would be accepted |
| `Engine.FinishOnConnection` | durable-workflows/src/runtime/activity_worker.rs:1707-1851 | succeeds iff the lease is held and the outcome fits; a permanent failure dead-letters and blocks at once; a retryable one with attempts left is claimable exactly from its time on and leaves the workflow; a success delivers one event under the current command; a revoked attempt closes as it was revoked |
| `Effects.FinishMeans` | durable-workflows/src/runtime/activity_worker.rs:1707-1851 | under the invariant finishing fails only without the lease or for a running attempt that reports a revocation, and what it leaves follows the outcome, row by row |
| `Engine.PauseWorkflow` | durable-workflows/src/admin/control.rs:62-115 | commits iff live and not paused; fences close, a running activity is revoked as paused and granted one attempt, nothing of the row runs, slots stay, and it can be resumed |
| `Effects.PauseGrantsBack` | durable-workflows/src/admin/control.rs:988-1029 | a claim that a pause revokes leaves the attempts that were left before the claim |
| `Effects.PauseThenResume` | durable-workflows/src/admin/control.rs:62-176 | resuming a paused row restores its wait, inbox, command and status, running becoming ready |
| `Engine.ResumeWorkflow` | durable-workflows/src/admin/control.rs:117-176 | under the invariant succeeds iff the row is paused, else not found or conflict; it waits on what it waited on, and is ready iff it waits on nothing |
| `Engine.CancelWorkflow` | durable-workflows/src/admin/control.rs:178-222 | commits iff the row is live; the row and its cascade are cancelled with all that is theirs, waiters are told, nothing else changes, and the invariant holds |
| `Engine.RestartWorkflow` | durable-workflows/src/admin/control.rs:242-394 | commits iff the row ended, is paused or blocked and has no successor; one ready successor of the given version; a live source ends with its cascade, which the successor survives |
| `Engine.RetryActivity` | durable-workflows/src/admin/control.rs:418-558 | commits iff the dead letter blocks its workflow; the workflow waits on the new row, the next replacement of the command with all its attempts, claimable at once; slots stay |
| `Engine.MaterializeTimer` | durable-workflows/src/runtime/temporal.rs:36-70 | under the invariant commits iff the row sleeps and its time has come; the row gets one event under its command and is ready, and no other row changes |
| `Engine.AppendDelivery` | durable-workflows/src/runtime/temporal.rs:204-240 | after all deliveries were consumed, the appended one is the next that a claim finds |
| `Engine.ClearWait` | durable-workflows/src/runtime/temporal.rs:242-268 | the row expects its delivery, and unless paused it can be claimed at once |
| `Engine.MaterializeExpiry` | durable-workflows/src/runtime/temporal.rs:93-173 | an approval that is waited for lapses exactly at or after its expiry; its workflow gets one lapse event under the command, and nothing else changes |
| `Engine.ResolvePendingApproval` | durable-workflows/src/admin/control.rs:560-708 | under the invariant succeeds iff the approval is waited for and not past its expiry; its workflow gets one decision event under the command, and nothing else changes |
| `Meanings.ApprovalEndMeans` | durable-workflows/src/admin/control.rs:560-708 | in any database that satisfies the invariant exactly the approvals waited for end: they lapse at or after expiry only, and are resolved before it only |
| `Engine.RecoverableStartIn` | durable-workflows/src/store.rs:349-551 | with others committing between a lookup that finds nothing and the insert, it starts a row iff the database it then sees has none that can go on, and leaves that database otherwise |
| `Engine.StartNextGeneration` | durable-workflows/src/store.rs:401-551 | starts the ready next generation of a failed or blocked row, with the cascade and the hand-over of waiters of a blocked one |
| `Worker.StepIsOthers` | spec/README.md:105-135 | every step of the system but those of a batch is a change that the written batch is proved against |
| `Worker.ClaimTransaction.SettleExpired` | durable-workflows/src/runtime/activity_worker.rs:1427-1546 | an expired attempt closes as expired: pending at the policy time while attempts are left, else dead-lettered with its workflow blocked, a revoked one with its workflow; as a statement of the batch model |
| `Worker.ClaimTransaction.SkipRow` | durable-workflows/src/runtime/activity_worker.rs:1390-1425 | a held or revived candidate is passed over, and a held one stays counted |
| `Worker.ClaimTransaction.ReconcileExpired` | durable-workflows/src/runtime/activity_worker.rs:1373-1567 | with others committing between rows, every expired holder is settled or revived, unless others hold its rows; those stay counted |
| `Worker.ClaimTransaction.CountSlots` | durable-workflows/src/runtime/activity_worker.rs:1346-1364 | the in-flight count misses no slot holder, and the rows wanted are the smallest of free slots, local capacity and limit |
| `Worker.ClaimTransaction.ClaimFrom` | durable-workflows/src/runtime/activity_worker.rs:473-495 | visits the page in order, leases what can run, quarantines what cannot, and stops only with the wanted number or at the end of the page |
| `Pages.SelectFirst` | durable-workflows/src/runtime/activity_worker.rs:447-472 | the page holds the first rows in order; only a full page leaves out others, which come later |
| `Worker.ClaimTransaction.ClaimCandidate` | durable-workflows/src/runtime/activity_worker.rs:520-667 | leases a row that can run, for exactly its lease under its next attempt, or quarantines one that cannot, each as a statement of the batch model |
| `Worker.ClaimTransaction.ClaimCandidates` | durable-workflows/src/runtime/activity_worker.rs:473-492 | reads the first page of due rows in order and leases as many as wanted, or comes to the end of the page; each row is passed over only if held or no longer due |
| `Worker.ClaimTransaction.ClaimTopic` | durable-workflows/src/runtime/activity_worker.rs:388-493 | leases the smallest of free slots, local capacity and limit, or came to every row of its page |
| `Worker.IdleTopicLeases` | durable-workflows/src/runtime/activity_worker.rs:388-493 | a topic with a free slot, capacity and limit leases something if a row of its page is held by nobody and can run when visited |
| `Worker.ClaimTransaction.ClaimBatch` | durable-workflows/src/runtime/activity_worker.rs:345-511 | topic after topic, each with the limit those before left, leases what the topic wants or ends its page; whatever commits in between, the log is a run of the batch model, the batch can commit, and no topic exceeds its cap |
| `Batches.CountSeesAll` | spec/README.md:730-750 | at the count statement every slot holder is live or unsettled, whatever committed between the statements |
| `Batches.StatementKeepsBatch` | spec/README.md:105-135 | each statement of a batch keeps the bound on what the batch will commit |
| `Batches.BatchFrame` | spec/README.md:730-750 | transactions of others between two statements keep that bound |
| `Preservation.ApplyOpKeeps` | durable-workflows/src/runtime/activity_worker.rs:1373-1567 | each row a batch settles, leases or quarantines keeps the database invariant |
| `Preservation.FinishKeeps` | durable-workflows/src/runtime/activity_worker.rs:1707-1851 | finishing an attempt keeps the database invariant |
| `Preservation.HeartbeatKeeps` | durable-workflows/src/runtime/activity_worker.rs:1103-1211 | a renewal keeps the database invariant |
| `Preservation.SettleRevokedKeeps` | durable-workflows/src/runtime/activity_worker.rs:1579-1631 | a revoked attempt can always be settled, and settling keeps the database invariant |
| `Preservation.PauseKeeps` | durable-workflows/src/admin/control.rs:972-1029 | a pause keeps the database invariant |
| `Preservation.ResumeKeeps` | durable-workflows/src/admin/control.rs:117-176 | a resume keeps the database invariant |
| `Preservation.ResumeNeverStuck` | durable-workflows/src/admin/control.rs:1032-1103 | under the invariant a paused row always has a status to resume to |
| `Preservation.RetryKeeps` | durable-workflows/src/admin/control.rs:418-558 | a retry keeps the database invariant |
| `Preservation.FireTimerKeeps` | durable-workflows/src/runtime/temporal.rs:36-70 | a timer wake keeps the database invariant |
| `Preservation.ExpireApprovalKeeps` | durable-workflows/src/runtime/temporal.rs:93-173 | an approval expiry keeps the database invariant |
| `Preservation.ResolveApprovalKeeps` | durable-workflows/src/admin/control.rs:560-708 | an approval decision keeps the database invariant |
| `Preservation.ClaimWorkflowKeeps` | durable-workflows/src/runtime/coordinator.rs:550-612 | a workflow claim keeps the database invariant |
| `Preservation.RecoverLeaseKeeps` | durable-workflows/src/runtime/coordinator.rs:459-530 | recovering a lease keeps the database invariant |
| `Commits.RunActivityKeeps` | durable-workflows/src/runtime/coordinator.rs:1086-1182 | committing an activity command keeps the database invariant |
| `Commits.ContinueKeeps` | durable-workflows/src/runtime/coordinator.rs:783-840 | continuing keeps the database invariant |
| `Commits.SleepKeeps` | durable-workflows/src/runtime/coordinator.rs:966-1084 | sleeping keeps the database invariant |
| `Commits.AskApprovalKeeps` | durable-workflows/src/runtime/coordinator.rs:966-1084 | waiting for an approval keeps the database invariant |
| `Commits.CompleteKeeps` | durable-workflows/src/runtime/coordinator.rs:783-964 | completing keeps the database invariant |
| `Commits.ActivationFailureKeeps` | durable-workflows/src/runtime/coordinator.rs:667-781 | a recorded activation failure keeps the database invariant |
| `Commits.CancelKeeps` | durable-workflows/src/store.rs:972-1000 | a cancel with any cascade keeps the database invariant |
| `Lineage.StartKeeps` | durable-workflows/src/persistence/workflows.rs:36-78 | a start returns the keyed row or inserts one, and keeps the database invariant |
| `Lineage.RunChildKeeps` | durable-workflows/src/runtime/coordinator.rs:1184-1298 | a child transition keeps the database invariant, including that no row waits on itself or above |
| `Lineage.RestartKeeps` | durable-workflows/src/admin/control.rs:242-394 | a restart keeps the database invariant |
| `Lineage.RecoverableStartKeeps` | durable-workflows/src/store.rs:349-551 | a recoverable start keeps the database invariant |
| `Flow.WfCtx.Look` | durable-workflows/src/flow.rs:254-284 | replay returns the recorded outcome and advances, or the exact error, by kind, version and pending step |
| `Flow.WfCtx.Await` | durable-workflows/src/flow.rs:152-252 | a recorded result that decodes, a child failure or a timer is answered as recorded; anything else breaks; an unrecorded step suspends as the pending one |
| `Flow.Activate` | durable-workflows/src/flow.rs:332-387 | completes or asks for a step exactly when the flow does so after replaying every entry of its journal, and raises exactly what the flow raises |
| `Flow.ActivationMeans` | durable-workflows/src/flow.rs:332-387 | an activation over a journal ends as the flow ends where it has replayed it, and breaks exactly if the two do not fit |
| `Flow.KindTellsStep` | durable-workflows/src/flow.rs:254-284 | the recorded kind and version agree for two steps exactly if they are of one sort and definition |
| `Flow.StepFlow` | durable-workflows/src/flow.rs:389-463 | an out-of-sequence result or an approval breaks and stores nothing; the answer to the next command is appended under the step it answers; then as the interpreter |
| `Flow.ReplayIsDirect` | durable-workflows/src/flow.rs:254-284 | over a journal of a direct run's outcomes, an activation ends as the direct run does |
| `Flow.SequenceNeverFails` | durable-workflows/src/flow.rs:455-463 | in every durable run the journal length matches the command, so the sequence check never fails |
| `Flow.ReplayRefinesDirect` | durable-workflows/src/flow.rs:332-463 | a durable run, however often it crashes and replays, asks for the steps of a direct run in order and ends as it ends |
| `Flow.CorrectionBreaks` | durable-workflows/src/flow.rs:269-283 | an activation breaks if and only if the operator changed the definition or the result cannot be one of the step |
| `Steady.NextSteady` | durable-workflows/src/runtime/coordinator.rs:783-964 | only the transition of a row changes its command or consumes a delivery, and only a recorded failure counts one |
| `Steady.NextStarts` | durable-workflows/src/persistence/workflows.rs:36-78 | a row that a step adds was just started, with one delivery |
| `Projection.LoadedEventAnswers` | durable-workflows/src/runtime/coordinator.rs:306-332 | in every reachable state the event a claim loads answers the current command, with the definition asked for unless corrected |
| `Projection.EngineRunsFlow` | durable-workflows/src/runtime/coordinator.rs:306-422 | the steps of a system run for a workflow that runs a flow are moves of a durable run of that flow, and the two rows agree in every state |
| `Projection.EngineReplayIsDirect` | durable-workflows/src/flow.rs:332-463 | on the engine the journal length matches the command of the row, the sequence check never fails, and without corrections the flow does what a direct run does |
| `Zone.InstantsExact` | durable-workflows/src/schedule.rs:184-203 | the instants read for a wall-clock time are exactly those that show it, in order |
| `Zone.ReadsAs` | durable-workflows/src/schedule.rs:184-204 | a wall-clock time is skipped iff no instant shows it; else its first instant is the earliest that shows it or later |
| `Zone.GapShape` | durable-workflows/src/schedule.rs:205-220 | inside a gap every time is skipped, and its end is shown once, when the gap ends |
| `Calendar.Resolve` | durable-workflows/src/schedule.rs:184-228 | a time shown once is exact, one shown more often is due at its first pass, a skipped one when its gap ends, or the bound error if that is over a day away |
| `Calendar.NextAfter` | durable-workflows/src/schedule.rs:130-137 | terminates with the first occurrence in wall-clock order that is due strictly later, for folds and gaps alike |
| `Calendar.NextRunnableThrough` | durable-workflows/src/schedule.rs:155-175 | terminates, and with its gap jump finds the first occurrence that can run if it is due, skipping only due ones in gaps |
| `Calendar.ScanMeans` | durable-workflows/src/schedule.rs:155-175 | the one-by-one scan finds the first occurrence outside a gap that is due, else the first later or unresolvable one, else none is left |
| `Calendar.ScanTurn` | durable-workflows/src/schedule.rs:155-175 | one turn of the search answers as the scan does, or moves on without changing the answer |
| `Calendar.JumpIsScan` | durable-workflows/src/schedule.rs:162-172 | the jump to the end of a gap moves on and skips nothing runnable |
| `Planner.Classify` | durable-workflows/src/runtime/schedule_materializer.rs:278-329 | skip-missed starts exactly what is within its grace, run-latest the last runnable one, catch-up the last few; the others are skipped as misfires, coalesced, or skipped by the limit; gaps never start |
| `Planner.OutcomesKeepPolicy` | durable-workflows/src/runtime/schedule_materializer.rs:278-329 | every position of a classified backlog is what its policy promises, counted over all later runnable positions |
| `Planner.RestMeans` | durable-workflows/src/runtime/schedule_materializer.rs:235-254 | the backlog lists exactly the due occurrences in wall-clock order, up to the first not due or where the calendar fails |
| `Planner.PlanDueChunk` | durable-workflows/src/runtime/schedule_materializer.rs:235-276 | the outcomes of a chunk are those of the whole backlog, with strict progress; it fails if and only if the calendar fails in the chunk or before enough followers are found |
| `Planner.CountFollowing` | durable-workflows/src/runtime/schedule_materializer.rs:256-274 | counts the runnable followers up to the budget, and fails exactly if the calendar fails before that |
| `Planner.PlanInChunks` | durable-workflows/src/runtime/schedule_materializer.rs:235-329 | for any chunk bound of at least one, the chunks together equal one classification of the whole backlog, or of what was planned before the calendar failed, and every position keeps its policy |
| `Planner.StartsOfBacklog` | durable-workflows/src/runtime/schedule_materializer.rs:303-327 | run-latest starts one and catch-up as many as its limit, of all runnable occurrences |
| `Overlap.OneRowEach` | durable-workflows/src/runtime/schedule_materializer.rs:341-435 | each due occurrence gets exactly one run row with its key |
| `Overlap.OverlapHolds` | durable-workflows/src/runtime/schedule_materializer.rs:353-386 | under skip-if-active or queue-one a chunk starts at most one run, none if one is active, and queues at most one |
| `Overlap.StartsWhenIdle` | durable-workflows/src/runtime/schedule_materializer.rs:353-386 | a started row of a chunk found no active run |
| `Overlap.RowsPlaced` | durable-workflows/src/runtime/schedule_materializer.rs:353-435 | each row of a chunk: a start happens iff overlapping is allowed or nothing is active, is queued iff one is active and the queue of one is free, else is skipped; other outcomes are recorded as they are |
| `Overlap.TallyCounts` | durable-workflows/src/runtime/schedule_materializer.rs:407-433 | each report counter counts its rows, and they add up to the occurrences |
| `Overlap.Schedule.MaterializeOccurrence` | durable-workflows/src/runtime/schedule_materializer.rs:341-435 | the row, the counters and the active and queued state of one occurrence |
| `Overlap.Schedule.PromoteQueued` | durable-workflows/src/runtime/schedule_materializer.rs:471-514 | starts the queued run that is earliest by scheduled time, then by insertion |
| `Overlap.Schedule.Tick` | durable-workflows/src/runtime/schedule_materializer.rs:110-217 | conflict, pause and calendar errors change nothing; else rows stay unique and in order, the earliest queued run is started iff queue-one and nothing is active, the cursor advances strictly, the counters add up |
| `Supervision.RestartBudget.Record` | durable-workflows/src/runtime/restart.rs:237-244 | counts within a window, saturating, and reports whether the budget holds |
| `Supervision.RestartBackoff.Advance` | durable-workflows/src/runtime/restart.rs:199-203 | returns the delay and doubles the next one up to the cap |
| `Supervision.TaskRestarts.OnFailure` | durable-workflows/src/runtime/restart.rs:148-183 | the new state and decision are those of the policy |
| `Supervision.TransientsAreFree` | durable-workflows/src/runtime/restart.rs:160-171 | over any run the budget is what the faults alone would make it |
| `Supervision.BudgetStopMeansFaults` | durable-workflows/src/runtime/restart.rs:172-178 | a budget stop means more faults than the budget within one window |
| `Supervision.BudgetStopsExactly` | durable-workflows/src/runtime/restart.rs:172-178 | a budget stop happens exactly at a fault that makes more faults than the budget in its window, which began with the first fault past the one before |
| `Supervision.TwiceTheBudget` | durable-workflows/src/runtime/restart.rs:237-244 | any interval as long as the window holds at most twice the budget of restarted faults |
| `Supervision.BudgetBoundIff` | durable-workflows/src/runtime/restart.rs:242-243 | that bound holds for every run if and only if the budget is below the largest 32-bit count |
| `Supervision.DelayDoubles` | durable-workflows/src/runtime/restart.rs:186-204 | the k-th delay since a healthy run is min(initial * 2^k, cap) |
| `Supervision.LowCapKeepsDelay` | durable-workflows/src/runtime/restart.rs:57-71 | under a configured cap not above the first delay every delay is the first one |
| `Supervision.OutageStops` | durable-workflows/src/runtime/restart.rs:161-171 | an outage stop happens exactly when a transient failure comes more than the limit after the first one since a healthy run, and reports how long that is |
| `TimelineKey.KeyOrders` | durable-workflows/src/admin/query.rs:1298-1305 | time and padded key text order entries as (time, rank, ids) do |
| `TimelineKey.KeyRoundTrips` | durable-workflows/src/admin/query.rs:1243-1305 | decoding a key gives back its position |
| `TimelineKey.DecodeKey` | durable-workflows/src/admin/query.rs:1243-1296 | a decoded cursor is a valid position: rank, number of components and ranges |
| `Timeline.PassesIsAfter` | durable-workflows/src/admin/query.rs:279-367 | the three cursor filters keep exactly what comes after the cursor |
| `Timeline.SortTimeline` | durable-workflows/src/admin/query.rs:939-941 | sorting by time and key text lists the entries in timeline order |
| `Timeline.LoadSources` | durable-workflows/src/admin/query.rs:720-937 | each source contributes its first rows after the cursor, and nothing else |
| `Timeline.WorkflowTimeline` | durable-workflows/src/admin/query.rs:705-964 | a page is the start of the rest of the timeline; its cursor names its last entry iff more follow; limit and cursor errors are exact |
| `Timeline.ReadTimeline` | durable-workflows/src/admin/query.rs:705-964 | following cursors with any page limit yields every entry exactly once in timeline order |

## Left out

- SQL text, connection pools, isolation set-up and error classification: only unique keys, row locks and atomic commit remain.
- Payloads, JSON, error text, actors, metrics, traces and audit rows without a delivery sequence: no decision of the protocol reads them.
- Retry and backoff policy arithmetic (`durable-workflows/src/policy.rs`): any delay is allowed in its place.
- 32-bit and 64-bit bounds of identifiers, counters and timestamps, with the checked-overflow errors: numbers are unbounded except where a theorem names the bound.
- Deadlocks, lock waits and liveness under fairness: an aborted transaction is a step that did not happen.
- The single-topic claim (`claim_one` of the activity worker): it is a batch of one topic that takes at most one row.
- In the system model, recovering a workflow lease and claiming a row, one transaction in the code, are two steps.
- Schedule definition upgrades and operator run-now.
- Worker.ClaimTransaction.ClaimBatch: starts with all topic locks held, because a batch that misses one writes nothing; which rows others hold when it comes to them is given.
- Overlap.Schedule.Tick: takes the number of active runs as given, because it is a count over workflow rows of another table.
- Wait cycles between unrelated workflows, which the engine does not guard against.
- At most one active run across operator restarts, which copy the schedule run: only what the materializer starts is stated.
- Flow code that catches suspension or a definition error and goes on.
- The base64 and JSON envelope of cursors: a cursor is its timestamp and key text.
- Admin list filters, registries, proc macros, progress events, health alerts, migrations and the supervisor loop: easy members or plumbing.
