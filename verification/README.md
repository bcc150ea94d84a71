# Verified model of the BotParty robot client

This Dafny project models the parts of the robot client that keep state through stops, crashes and
clocks, and proves what they promise. `dafny verify dfyconfig.toml` checks everything.

- `CommandQueue`, `Safety`, `Pipeline`, `QuietCommand`, `CommandHost`: the stop latch and the hardware command
  pipeline. `Pipeline` is a step relation whose events are the await-free stretches of the event loop
  and the single steps of the hardware worker; an adversary orders them. `CommandHost` has the mutable
  classes whose methods are proved to be those events, and `QuietCommand` the path that one command
  takes when nothing else happens. The re-check of a guarded write is a step of
  its own, so a stop may land between check and write; a safety reset is two steps, so a stop may land
  between guard and commit. `PipelineMotion`, `PipelineExecution`, `PipelineLifecycle`,
  `PipelineStops` and `PipelineProgress` hold the theorems about all runs.
- `OrderedDict`, `Outbox`, `OutboxReload`, `OutboxRuns`, `OutboxEviction`, `OutboxForgetting`,
  `Delivery`: the durable outcome ledger, its
  file, its runs against a server and a crashing process, and delivery over reconnects.
- `Ota`: A/B updates. Every operation is the list of disk states after each of its file operations,
  and a crash may cut it anywhere.
- `Gateway`, `Pacing`, `SpeechLimits`, `DailyBudget`, `Restore`, `PublisherLogs`: the reconnect loop,
  adaptive frame pacing, the sliding-window limiter, the shared daily budget, the transactional
  restore, and the chunked log splitter with its frame counter.

Where the source updates objects step by step the model has classes; each method is tied to a
specification function or states its result outright, and the results about runs are lemmas about
those functions. Lemmas named `...IsExact`, `...AreExact` or `...Iff` give the answer and the effect of
single steps on the fields alone. Failures of files, devices and peers, clocks and encoded sizes are parameters.

## Findings

- A running command that a stop cancels is reported in state `rejected` with code
  `cancelled_by_stop` (`botparty_robot/client_commands.py:627-629`); `docs/architecture.md` shows the
  state `cancelled_by_stop`, which only queued motion commands get (`PipelineExecution.CancelledStateIff`).
  The model follows the code.
- `_trim` can evict the subject of a result that is still pending; the file written by that very
  enqueue is then rejected by the next start (`OutboxEviction.EvictionBlocksTheNextStart`
  builds such runs from an empty ledger). `OutboxReload.TrimIsSafe` is the exact condition
  (`OutboxRuns.RestartIffTrimIsSafe`).
- Once `_trim` has evicted a finished subject, the ledger takes a new outcome of it, and the server is
  told a second, different terminal state (`OutboxForgetting.ForgottenSubjectIsSentTwice`). The list of
  processed command ids does not prevent it: it keeps 1024 ids (`botparty_robot/client.py:111`), the
  ledger 2048 subjects.
- `install` does not look for a pending update; over an attempted one it wipes the slot the rollback
  needs (`Ota.SecondInstallCanBlockBoot`, reached by `Ota.SecondInstallIsReachable`). `Ota.InstallIsSafe` is the exact condition.
- A safety reset can release the latch over an unfinished stop. The stop may be triggered between guard
  and commit (`PipelineStops.ResetCanReleaseAPendingStop`), or before the guard, which does not see a
  stop that still waits for the stop lock (`PipelineStops.ResetPassesOverAWaitingStop`).
  `PipelineStops.ReleaseOverBusyWorkerIff` and `PipelineStops.ReleaseOverOpenStopIff` are the exact
  conditions. Older motion commands and permits stay dead all the same.
- A restore that fails under a process other than root gives the files it had replaced to that
  process; contents and modes come back, owners only under `Restore.UndoIsExact`.
- `on_disconnected` can be called before any claim, exactly when a shutdown is announced during a claim
  that fails before the first successful one and the client is still running
  (`Gateway.NoticeBeforeClaimIff`).

## Model

| member | source | states |
|---|---|---|
| `CommandQueue.HardwareCommandQueue.constructor` | botparty_robot/command_queue.py:12-17 | a positive capacity gives an empty queue with its wake-up event unset |
| `CommandQueue.HardwareCommandQueue.Offer` | botparty_robot/command_queue.py:31-49 | the new state, the acceptance and the superseded commands are those of the latest-wins specification; an accepted command is last in the queue; a refused one leaves the queue as it was and displaces nobody |
| `CommandQueue.HardwareCommandQueue.CancelMotion` | botparty_robot/command_queue.py:51-59 | exactly the pending motion commands leave, none remains, the others keep their order |
| `CommandQueue.HardwareCommandQueue.PopNowait` | botparty_robot/command_queue.py:61-68 | the head leaves, and the event is cleared exactly when nothing is left |
| `CommandQueue.HardwareCommandQueue.Wake` | botparty_robot/command_queue.py:73-74 | only the wake-up event changes |
| `CommandQueue.OfferKeepsInv` | botparty_robot/command_queue.py:31-49 | an offer keeps the bound, at most one pending motion command, the wake-up event and the high watermark; it is refused only by a full queue, and then nothing was superseded |
| `CommandQueue.RunRefinesLatestWins` | botparty_robot/command_queue.py:31-74 | over every sequence of calls: never above capacity; at most one pending motion command, and it is the newest accepted one; pops followed by the pending commands are a subsequence of the acceptances in order; accepted = popped + pending + superseded + cancelled as multisets; dropped = superseded + cancelled + rejected; a non-empty queue has its event set |
| `Safety.PermitLivesUntilFirstChange` | botparty_robot/safety.py:43-45 | a permit is active exactly as long as no stop and no reset happened since it was issued, whatever their number and order |
| `Safety.EventAloneIsNotEnough` | botparty_robot/safety.py:100-109 | after a reset of an unlatched controller the old permit's event stays unset for ever, and still the permit is not active |
| `Safety.ChangedCounts` | botparty_robot/safety.py:89-109 | the epoch counts stops and resets, and the latch is the last of them |
| `Safety.SafetyController.IssuePermit` | botparty_robot/safety.py:81-87 | a permit for the current epoch and event, refused exactly while latched |
| `Safety.SafetyController.Stop` | botparty_robot/safety.py:89-98 | sets the current event, raises the epoch and latches, and sets no other event |
| `Safety.SafetyController.Reset` | botparty_robot/safety.py:100-109 | raises the epoch, replaces the event without setting the old one, and unlatches |
| `Safety.SafetyController.IsEpochActive` | botparty_robot/safety.py:111-113 | true exactly when unlatched at that epoch |
| `Safety.CommandPermit.EnsureActive` | botparty_robot/safety.py:43-45 | fails when the permit's own event is set or its epoch is not active |
| `PipelineMotion.NoPermitAfterLaterStopOrMotion` | botparty_robot/client_commands.py:581-615 | in every run: after a stop or a newer motion command, an older motion command never gets a permit, wherever it waits and whatever resets follow |
| `PipelineMotion.StopsAndMotionRaiseTheCounter` | botparty_robot/client_commands.py:475-479 | of all events, exactly stops and motion commands that are not refused on arrival raise the motion counter |
| `PipelineMotion.MotionIsAlwaysUnderADeadline` | botparty_robot/client_commands.py:119-148 | in every run, while a motion command can still reach the hardware, a deadline timer of the current generation is armed or a deadline stop is scheduled |
| `PipelineMotion.StaleTimersAreHarmless` | botparty_robot/client_commands.py:131-148 | in every run a deadline timer armed before a stop or a newer motion command can fire at any later time and changes nothing but the set of timers |
| `PipelineExecution.EpochCountsDisturbances` | botparty_robot/safety.py:89-109 | between two states of a run the epoch grows by exactly the number of stops and committed resets |
| `PipelineExecution.LatchHoldsUntilReset` | botparty_robot/safety.py:89-109 | no event but a committed reset releases the latch |
| `PipelineExecution.CompletedMeansUndisturbed` | botparty_robot/client_commands.py:596-629 | whenever `completed` was reported, the run contains a permit for that command and a later successful final check with no stop and no reset in between |
| `PipelineExecution.FinalCheckIsExact` | botparty_robot/hardware/base.py:93-102 | from the permit on, the final check succeeds if and only if not one stop or reset happened in between |
| `PipelineExecution.AdapterChecksAreExact` | botparty_robot/safety.py:47-53 | from the permit on, an interruptible sleep, the check before a write and the check after it notice a stop or reset if and only if one happened |
| `PipelineExecution.EntryCheckIsExact` | botparty_robot/hardware/base.py:84-96 | the adapter is entered if and only if nothing happened since the permit and the command is supported; otherwise the execution ends as cancelled or as an adapter error |
| `PipelineExecution.WorkerStepsAreExact` | botparty_robot/safety.py:115-133 | a raised operation goes back to the adapter without a second check, an adapter exception ends the execution, and no worker step touches anything but the hand |
| `PipelineExecution.LoopStepsAreExact` | botparty_robot/client_commands.py:545-615 | head first; superseded exactly with a newer motion number, before and under the lock; then refused without media or while latched; otherwise running with a permit of the current epoch and event |
| `PipelineExecution.EmitIsExact` | botparty_robot/client_commands.py:616-632 | a command that ended done is told `completed`, one stopped by the latch `cancelled_by_stop` as code, any other `hardware_error`; nobody else is told anything |
| `PipelineExecution.AtMostOneWriteAfterStop` | botparty_robot/safety.py:115-133 | after any stop and until a reset commits, at most one guarded write still happens, and only by a worker already past its check |
| `PipelineExecution.StaleExecution` | botparty_robot/safety.py:115-133 | across any resets, a worker with a stale permit writes at most once more, its check after that write is cancelled, and it ends in `cancelled_by_stop` exactly unless the adapter raised something else |
| `PipelineExecution.CancelledStateIff` | botparty_robot/client_commands.py:644-652 | a command is told the state `cancelled_by_stop` if and only if a stop finds it, a motion command, in the queue |
| `PipelineLifecycle.ExactlyOnePlaceAndOneResult` | botparty_robot/client_commands.py:457-528 | in every run each received command is once in the queue, or in the loop's hands, or finished; unfinished ones were told `accepted` only, finished ones exactly one terminal result |
| `PipelineLifecycle.EveryArrivalIsAnswered` | botparty_robot/client_commands.py:391-515 | in every run an arriving command gets the next ticket and at once exactly one result; each of `safety_latched`, `media_not_ready`, `unsupported_command`, `command_queue_full` and accepted is given if and only if its own condition holds |
| `PipelineLifecycle.EveryArrivalIsQueued` | botparty_robot/client_commands.py:457-515 | an accepted command is last in the queue with its ticket and number, behind everything it did not displace; a refused one leaves the queue as it was; motion that got to the queue raises the counter and arms a deadline |
| `PipelineLifecycle.NothingIsInvented` | botparty_robot/client_commands.py:545-575 | no result and no queued command exists for a command that was never received |
| `PipelineLifecycle.ClosedIsFinal` | botparty_robot/client_commands.py:545-575 | once a command has its terminal result, no further event adds a result |
| `PipelineProgress.EveryCommandCanFinish` | botparty_robot/client_commands.py:545-632 | from every state of every run the loop and its worker can come to rest by their own events, and then every command received so far has its one terminal result |
| `PipelineProgress.EveryStopCanReturn` | botparty_robot/client_commands.py:656-721 | from every state of every run all stop calls can still return, and every call that waits for the lock or whose worker has not failed can still return True |
| `PipelineStops.AtMostOneUnfinishedStopWorker` | botparty_robot/client_commands.py:659-671 | in every run at most one stop worker is unfinished, and it is the newest |
| `PipelineStops.TrueMeansOwnWorkerSucceeded` | botparty_robot/client_commands.py:638-721 | a stop call that returned True had a worker of its own, started at or after its own latch, that finished without error |
| `PipelineStops.StopReturnIsExact` | botparty_robot/client_commands.py:678-721 | in every run a stop call returns True if and only if it did not time out and its own worker succeeded; the status is confirmed, timeout or failed exactly under success, time-out or a raised worker |
| `PipelineStops.StopIsExact` | botparty_robot/client_commands.py:638-676 | a stop latches at the next epoch with the current event set, raises the motion counter, takes exactly the motion commands off the queue and the timers out of force, and waits, fails or starts its own worker exactly under its condition |
| `PipelineStops.StopStepsAreExact` | botparty_robot/remote_actions.py:73-82 | the other steps: a waiting call takes the lock, a worker ends, a reset passes its guard, gives up or commits, a timer of the current generation schedules a stop |
| `PipelineStops.ResetGuardNeedsConfirmedStop` | botparty_robot/remote_actions.py:73-78 | the reset guard passes exactly on status never or confirmed, and then no stop worker is unfinished and the newest one, if any, succeeded |
| `PipelineStops.UnconfirmedStopStaysLatched` | botparty_robot/remote_actions.py:77-80 | while the last stop is pending, failed or timed out and no reset is under way, the latch is released only after some stop was confirmed |
| `PipelineStops.ResetWithoutInterleaving` | botparty_robot/remote_actions.py:73-82 | the simple sufficient condition: without a stop trigger and without a waiting stop taking the stop lock between guard and commit, no stop worker becomes unfinished |
| `PipelineStops.ReleaseOverBusyWorkerIff` | botparty_robot/remote_actions.py:73-80 | exact condition, over every run: a guarded reset commits over an unfinished stop worker if and only if more workers were started than reported since its guard |
| `PipelineStops.ReleaseOverOpenStopIff` | botparty_robot/remote_actions.py:73-80 | exact condition, over every run: the commit releases the latch over a stop that has not returned if and only if the calls waiting for the lock at the guard and those triggered since outnumber the calls that ended since; at the guard no call holds the lock |
| `PipelineStops.StopsBalance` | botparty_robot/client_commands.py:656-721 | along every path unfinished workers = before + started - reported, and open stop calls = before + triggered - ended |
| `PipelineStops.ResetCanReleaseAPendingStop` | botparty_robot/remote_actions.py:79-80 | a run in which the commit releases the latch while the worker of a stop triggered after the guard is still running |
| `PipelineStops.ResetPassesOverAWaitingStop` | botparty_robot/remote_actions.py:73-80 | a run in which the guard passes over a stop triggered before it that still waits for the stop lock: the commit releases the latch over the waiting call, or over its running worker |
| `CommandHost.Host.EmitForEach` | botparty_robot/client_commands.py:501-507 | the loop reports one result to each command of the list, in order |
| `CommandHost.Host.ArmMotionDeadline` | botparty_robot/client_commands.py:119-139 | a new generation with a timer of its own |
| `CommandHost.Host.ExpireMotionDeadline` | botparty_robot/client_commands.py:131-137 | schedules a stop exactly for a timer of the current generation |
| `CommandHost.Host.ClearMotionDeadline` | botparty_robot/client_commands.py:141-148 | a new generation; every armed timer is of an older one |
| `CommandHost.Host.EnqueueHardwareCommand` | botparty_robot/client_commands.py:497-515 | the queue takes or refuses the command, superseded commands are told, a refused one is rejected |
| `CommandHost.Host.DispatchHardwareCommand` | botparty_robot/client_commands.py:457-488 | refuses what the adapter does not support; otherwise numbers motion, arms its deadline, queues the command and reports its admission |
| `CommandHost.Host.ProcessCommand` | botparty_robot/client_commands.py:391-407 | the Receive event, whose answer and place `PipelineLifecycle.EveryArrivalIsAnswered` and `EveryArrivalIsQueued` give: motion is refused while latched or without media, then anything unsupported, and the rest is queued |
| `CommandHost.Host.LatchAndCancel` | botparty_robot/client_commands.py:638-654 | the stop prefix: latch, raise the motion counter, cancel and report queued motion, clear the deadline |
| `CommandHost.Host.TriggerHardwareStop` | botparty_robot/client_commands.py:638-671 | the Stop event: the prefix, and the stop lock at once when it is free |
| `CommandHost.Host.StopUnderLock` | botparty_robot/client_commands.py:659-671 | fails while an earlier worker is unfinished, otherwise starts a worker of its own |
| `CommandHost.Host.FinishHardwareStop` | botparty_robot/client_commands.py:678-721 | returns True if and only if it did not time out and the worker succeeded; the status says which of the three it was |
| `CommandHost.Host.GuardReset` | botparty_robot/remote_actions.py:73-78 | allowed exactly when the ResetGuard event is possible |
| `CommandHost.Host.CommitReset` | botparty_robot/remote_actions.py:80-81 | the ResetCommit event |
| `CommandHost.Host.PopQueued` | botparty_robot/client_commands.py:517-522 | hands the head of the queue to the loop, or nothing exactly when the queue is empty |
| `CommandHost.Host.CheckBeforeLock` | botparty_robot/client_commands.py:589-594 | the first id check: superseded exactly when a newer motion number exists |
| `CommandHost.Host.CheckUnderLock` | botparty_robot/client_commands.py:596-615 | second id check, media check and permit in one stretch; a permit comes out exactly when none of them refuses |
| `CommandHost.Host.EmitWorkerResult` | botparty_robot/client_commands.py:616-632 | completed, or rejected with cancelled_by_stop or hardware_error, according to how the worker ended |
| `CommandHost.Host.BeginExecute` | botparty_robot/hardware/base.py:84-96 | the adapter is entered exactly with an active permit and a supported command |
| `CommandHost.Host.CheckBeforeWrite` | botparty_robot/safety.py:115-127 | the write is allowed exactly at the permit's epoch while unlatched |
| `CommandHost.Host.CheckAfterWrite` | botparty_robot/safety.py:128-133 | a write that outlived its epoch is reported as cancelled |
| `CommandHost.Host.CheckWhileSleeping` | botparty_robot/safety.py:47-53 | a sleeping worker goes on if and only if the controller is unlatched, at the permit's epoch, and the permit's event is unset; otherwise the adapter has seen a failed check |
| `CommandHost.Host.FinishExecute` | botparty_robot/hardware/base.py:99-102 | the final check decides between done and cancelled |
| `CommandHost.Host.RunGuardedWrite` | botparty_robot/safety.py:115-133 | check, operation, check: nothing cancelled while the permit is current, and the operation's own exception skips the second check |
| `CommandHost.Host.Execute` | botparty_robot/hardware/base.py:84-102 | an undisturbed execution of any adapter script ends as an adapter error exactly when unsupported, a write raises or the adapter fails, and otherwise done |
| `CommandHost.Host.RunHardwareCommand` | botparty_robot/client_commands.py:581-632 | the steps in the order of the source, undisturbed: a path of the pipeline from the popped command to its one result |
| `QuietCommand.QuietCommandIsAPath` | botparty_robot/client_commands.py:581-632 | that path exists from every state, and its result is `completed` if and only if the command is not outdated, has its media, meets no latch, is supported and its adapter succeeds |
| `Outbox.OutcomeOutbox.PersistState` | botparty_robot/outbox.py:193-219 | a failure before the rename leaves the file, one after it leaves the new file |
| `Outbox.OutcomeOutbox.Trim` | botparty_robot/outbox.py:138-144 | nothing below 2049 subjects; above, terminal subjects alone, the oldest first, until 2048 subjects or no terminal one is left |
| `Outbox.OutcomeOutbox.Enqueue` | botparty_robot/outbox.py:60-99 | duplicate if and only if the subject is terminal or `accepted` comes again; recorded if and only if the write persists, the subject is unknown or known as `accepted` with a terminal new state, the state is known, and payload and pending records fit; a recorded outcome is pending with the request's fields in memory and file; otherwise memory is as before |
| `Outbox.OutcomeOutbox.RecordAndPersist` | botparty_robot/outbox.py:88-99 | the changing part of enqueue, undone when trimming or writing fails |
| `Outbox.OutcomeOutbox.MarkConfirmed` | botparty_robot/outbox.py:127-136 | the record leaves its place in memory and file; after a failed write it is pending again, at the end |
| `Outbox.OutcomeOutbox.MarkAttempted` | botparty_robot/outbox.py:111-113 | only a pending outcome becomes attempted |
| `Outbox.OutcomeOutbox.ReadyForDelivery` | botparty_robot/outbox.py:104-109 | exactly the pending records that are not attempted, as a subsequence of the pending ones |
| `Outbox.OutcomeOutbox.Load` | botparty_robot/outbox.py:146-191 | succeeds exactly for a missing file or one that passes every check, and then memory is the file's content without attempts |
| `Outbox.OutcomeOutbox.BuildPending` | botparty_robot/outbox.py:162 | the dictionary built from the list of records, later ones replacing earlier ones of the same id |
| `Outbox.OutcomeOutbox.CheckPending` | botparty_robot/outbox.py:168-187 | true exactly when every record passes the record checks |
| `OutboxReload.RoundTrip` | botparty_robot/outbox.py:146-219 | with at most 2048 subjects and 4 MiB, writing and loading gives the same state map, the same pending sequence and no attempts, whatever the key order of the JSON text |
| `OutboxReload.ReloadableIffTrimIsSafe` | botparty_robot/outbox.py:138-144 | the file written by a successful enqueue can be loaded again if and only if the trim removes enough subjects and none that still has a pending record |
| `OutboxEviction.EvictionBlocksTheNextStart` | botparty_robot/outbox.py:138-144 | failing runs, from an empty ledger: for every 2048 distinct subjects finished in turn with the oldest result unacknowledged, one new command is recorded and leaves a file that no later start accepts |
| `OutboxEviction.SomeLedgerBlocksTheNextStart` | botparty_robot/outbox.py:138-144 | such subjects exist, so such a run does |
| `OutboxForgetting.ForgottenSubjectIsSentTwice` | botparty_robot/outbox.py:60-76 | failing runs: for every 2048 distinct subjects and one more, the server is sent a terminal state of the first subject, acknowledges it, and is later sent any other state of it |
| `OutboxForgetting.SomeServerIsToldBoth` | botparty_robot/outbox.py:60-76 | so for a subject that was trimmed the server can be told two different terminal states |
| `OutboxRuns.EnqueueIsExact` | botparty_robot/outbox.py:60-99 | both directions, in every ledger in order: a persisted enqueue of an unknown subject, or of a terminal state after `accepted`, within the limits, is promised and pending in memory and on disk, and its untrimmed subject carries the state; any other changes nothing |
| `OutboxRuns.StepsAreExact` | botparty_robot/outbox.py:104-117 | a drain takes exactly the pending outcomes not attempted, in order; a send marks a pending outcome attempted; a reconnect clears the marks |
| `OutboxRuns.NeverTwoTerminalStates` | botparty_robot/outbox.py:60-99 | over every run with failing writes, reconnects and crashes the server is never sent two terminal states of one subject whose state was not trimmed |
| `OutboxRuns.PromisedOutcomesAreOnDisk` | botparty_robot/outbox.py:88-99 | after every step every recorded and unacknowledged outcome is pending in memory and on disk |
| `OutboxRuns.SparingFilesLoad` | botparty_robot/outbox.py:146-191 | in every run whose trims spared the subjects with pending records, whatever writes failed, a file within the limits passes all checks and comes back unchanged |
| `OutboxRuns.RestartIffTrimIsSafe` | botparty_robot/outbox.py:138-191 | after such a run, an enqueue that replaces the file leaves one the next process can load if and only if its trim is safe |
| `OutboxRuns.UntrimmedRunIsSparing` | botparty_robot/outbox.py:138-144 | runs that never trimmed are such runs |
| `Delivery.EachConnectionSendsInOrder` | botparty_robot/client_commands.py:785-794 | over every run, trims included: each connection sends outcomes strictly in the order they became pending, none twice unless its subject was trimmed and it became pending again; attempted outcomes are pending |
| `Delivery.AcceptedIsSentFirst` | botparty_robot/client_commands.py:785-794 | each connection sends `accepted` before the terminal state of its subject, and never a terminal state past a pending `accepted`, for every subject that was not trimmed |
| `Delivery.UnacknowledgedIsResent` | botparty_robot/client_commands.py:796-800 | when a connection's latest drain ran to its end and no other is scheduled, everything unacknowledged has been sent on that connection, trims and earlier failed sends or not |
| `Delivery.QuietDrainSendsAll` | botparty_robot/client_commands.py:785-794 | from every state of every run an undisturbed drain on a live connection runs to its end, sends nothing attempted again, and then everything pending has been sent on that connection |
| `Delivery.QueueOutcomeIsExact` | botparty_robot/client_commands.py:751-783 | an outcome is recorded exactly under the conditions of the ledger, becomes pending under the next number and schedules a drain; any other changes nothing |
| `Delivery.StepsAreExact` | botparty_robot/client_commands.py:785-800 | a new connection forgets the attempts and schedules a drain; a drain takes what is not attempted; a send moves its head to the sent outcomes; a failed send ends the drain |
| `Delivery.NextStartIsInOrder` | botparty_robot/outbox.py:146-191 | a process leaves behind what these results assume of the next start |
| `Ota.InstallSafeIff` | botparty_robot/ota.py:261-281 | an install keeps the disk intact at every crash point if and only if it overwrites neither the target nor the previous slot of a pending update |
| `Ota.SecondInstallCanBlockBoot` | botparty_robot/ota.py:357-361 | an install over an attempted update wipes the slot the rollback needs: a crash there leaves a boot that raises |
| `Ota.SecondInstallIsReachable` | botparty_robot/ota.py:261-281 | that state is one completed install away from every good start with a current slot |
| `Ota.DiskStaysBootable` | botparty_robot/ota.py:441-473 | after any run with crashes anywhere: the current link is absent or on a complete slot, a pending previous slot is intact and not the target, and a completed boot does not raise and returns a complete slot or none |
| `Ota.UnconfirmedBootsAtMostOnce` | botparty_robot/ota.py:446-466 | a release never confirmed is returned by at most one completed boot |
| `Ota.FailedAttemptGoesBack` | botparty_robot/ota.py:394-423 | after a recorded attempt the next completed boot returns the slot in use before the install, or none, and clears both markers |
| `Ota.InterruptedRollbackConverges` | botparty_robot/ota.py:394-423 | however often and wherever a rollback is cut, the next completed boot ends in the same state and result; only a stale boot-attempted file may remain |
| `Ota.ConfirmIff` | botparty_robot/ota.py:283-312 | both directions, on any disk: a confirmation succeeds if and only if an update is pending, the link is on its target and that slot holds its release, attempted or not; then both markers go, cut anywhere; otherwise nothing changes |
| `Ota.ConfirmedReleaseStays` | botparty_robot/ota.py:261-312 | from every state a completed install and a completed confirmation make the release confirmed without markers; further boots, cut anywhere, leave the disk alone, and a completed one returns the new slot |
| `Ota.BootIsExact` | botparty_robot/ota.py:394-473 | on any disk, cut anywhere: after an attempt back to the previous slot, an untried update once, otherwise the current slot; raised exactly without an interpreter where one is needed |
| `Ota.BootsAreExact` | botparty_robot/ota.py:441-473 | a completed boot that returns a slot is counted under the release in that slot |
| `Ota.InstallIsExact` | botparty_robot/ota.py:157-281 | the staged release is complete before the other slot is touched, and in place before marker, link and attempt appear in this order, cut anywhere |
| `Ota.FailedInstallIsExact` | botparty_robot/ota.py:261-281 | an install that cannot remove the other slot leaves link and markers alone |
| `Ota.StateDirectory.Stage` | botparty_robot/ota.py:157-260 | the staging directory after each operation, up to the release file |
| `Ota.StateDirectory.RemoveSlot` | botparty_robot/ota.py:261 | a slot is half-removed before it is gone, or stays half-removed |
| `Ota.StateDirectory.Activate` | botparty_robot/ota.py:262-280 | rename, pending marker, link and attempt marker, cut anywhere |
| `Ota.StateDirectory.Install` | botparty_robot/ota.py:157-281 | the disk of the install trace at the crash point; completes or fails like the source |
| `Ota.StateDirectory.Confirm` | botparty_robot/ota.py:283-312 | both markers go if and only if an update is pending, the link is on its target and that slot holds its release, whether or not an attempt is on record; otherwise the artifact error and no change |
| `Ota.StateDirectory.RollbackStateDirectory` | botparty_robot/ota.py:394-423 | the disk of the rollback trace at the crash point; raises exactly without an interpreter in the previous slot |
| `Ota.StateDirectory.PrepareBoot` | botparty_robot/ota.py:441-473 | the disk of the boot trace at the crash point, and the slot it returns |
| `Gateway.NotificationsAreDisciplined` | botparty_robot/gateway.py:100-223 | over every sequence of attempts: a loss while running is notified exactly once and before the next attempt, which finds the latch set; between two notifications there is a claim |
| `Gateway.NoticeBeforeClaimIff` | botparty_robot/gateway.py:204-219 | exact condition, over every sequence of attempts: there is a notification without an earlier claim if and only if before the first claimed attempt one ends running with a shutdown announced during its claim or an earlier one |
| `Gateway.EarlyShutdownInALoop` | botparty_robot/gateway.py:95-219 | in the attempts the loop makes, that is an attempt before any claim that announces a shutdown and ends running |
| `Gateway.NoticeBeforeAnyClaim` | botparty_robot/gateway.py:204-219 | the smallest such run |
| `Gateway.GatewayConnection.HandleMessage` | botparty_robot/gateway.py:311-330 | a shutdown announcement leaves its reason, or the default for an empty one; a reset releases the latch; anything else changes nothing |
| `Gateway.GatewayConnection.MakeAttempt` | botparty_robot/gateway.py:100-219 | events, flags and latch of one turn: a claim and its loss exactly when claimed; a notification if and only if the client still runs and the turn was claimed, or a recovery is pending and nobody was notified since the last claim |
| `Gateway.GatewayConnection.HoldSession` | botparty_robot/gateway.py:145-189 | from the claim to the loss: flags, recovery and the messages of the session |
| `Gateway.GatewayConnection.Run` | botparty_robot/gateway.py:95-223 | attempts until the client stops, with disciplined events and an early notification exactly under the condition above |
| `Pacing.UpdateAdaptiveRate` | botparty_robot/camera.py:313-362 | the loop's update is the function `Adapted`, which keeps the rate between floor and full rate with the interval its reciprocal |
| `Pacing.AdaptedIsExact` | botparty_robot/camera.py:313-362 | cut by at most 2 fps exactly with eight overruns piled up above the floor; recovered by at most 1 fps exactly after twelve stable seconds on time; a schedule two intervals behind is moved to the present |
| `Pacing.DueFramesArePublished` | botparty_robot/camera.py:499-528 | a frame is dropped only before the schedule, which never runs more than one interval ahead of the last published frame |
| `Pacing.PublishLoop` | botparty_robot/camera.py:413-428 | exactly the frames that are due are published, each under an adapted pace; the published frames are paced, from a schedule that starts at the loop's start |
| `Pacing.Publish` | botparty_robot/camera.py:499-528 | a due frame adapts the rate, keeps the pacing and moves the schedule by one interval |
| `Pacing.NeverFasterThanTheFullRate` | botparty_robot/camera.py:499-528 | by time t at most 1 + (t - start) * publish_fps frames were published |
| `Pacing.NoBurstInAnyWindow` | botparty_robot/camera.py:359-360 | the same between any two publications, plus one longest interval of catching up |
| `Pacing.LoopRatesArePositive` | botparty_robot/camera.py:413-428 | the loop's rates are the request, at least 5 fps and at most the camera's, and a floor of 60 % but at least 8 fps; both are positive, and the longest interval is at most five thirds of a full-rate slot |
| `SpeechLimits.NoWindowOverTheLimit` | botparty_robot/tts/base.py:104-142 | on a non-decreasing clock no closed interval of the window's length holds more than the limit of accepted messages of a bucket |
| `SpeechLimits.LimitedIffWindowIsFull` | botparty_robot/tts/base.py:128-133 | a message is refused by the limiter if and only if its bucket has that many accepted messages inside the window |
| `SpeechLimits.VerdictIsExact` | botparty_robot/tts/base.py:104-142 | after any run a message counts for its own sender unless that one is unknown and 1023 buckets are known, those inside the window when a sweep is due; it is accepted and added to the history if and only if the window is not full and the budget allows it |
| `SpeechLimits.SweptKeys` | botparty_robot/tts/base.py:110-117 | a sweep keeps exactly the buckets with a timestamp inside the window, each without its leading old ones |
| `SpeechLimits.NothingLiveIsForgotten` | botparty_robot/tts/base.py:110-117 | sweeping never forgets a timestamp still inside the window |
| `SpeechLimits.AtMost1024Buckets` | botparty_robot/tts/base.py:118-125 | never more than 1024 buckets, the overflow bucket included |
| `SpeechLimits.RateLimiter.DropOld` | botparty_robot/tts/base.py:128-129 | the loop drops exactly the leading timestamps outside the window |
| `SpeechLimits.RateLimiter.SweepIdle` | botparty_robot/tts/base.py:113-117 | the loop leaves the live timestamps of every bucket and drops the empty ones |
| `SpeechLimits.RateLimiter.ShouldSpeak` | botparty_robot/tts/base.py:104-142 | bucket, verdict and state of the specification |
| `DailyBudget.GrantedWithinBudget` | botparty_robot/tts/base.py:144-192 | over every interleaving of consumers, restarts, backward clocks and failed writes, no recorded day is granted more than the budget |
| `DailyBudget.GrantIff` | botparty_robot/tts/base.py:144-192 | both directions: granted if and only if the write succeeds and the characters recorded for the day, none on a newer day, leave room for the whole request; it is added to the day's grants and the file |
| `DailyBudget.RecordedDayNeverGoesBack` | botparty_robot/tts/base.py:174-178 | the recorded day never goes back |
| `DailyBudget.BudgetConsumer.ConsumeDailyBudget` | botparty_robot/tts/base.py:144-192 | granted, exhausted or failed exactly under its condition: a newer day has nothing on record, an older clock counts for the recorded day; a grant is on file |
| `Restore.FileSystem.Prepare` | botparty_robot/backup.py:274-298 | remembers every target as it was, or stops at the failing step |
| `Restore.FileSystem.Replace` | botparty_robot/backup.py:299-305 | the targets before the failing step are new and backed up, the others untouched |
| `Restore.FileSystem.Undo` | botparty_robot/backup.py:307-312 | every replaced target has its old content and mode again or is absent again |
| `Restore.FileSystem.RestoreAll` | botparty_robot/backup.py:270-316 | an error exactly when one is raised; all targets new with their old contents as private backups, or all as before in presence, content and mode; the owners too if and only if the process is root or owned every file it had replaced; nothing else changes |
| `PublisherLogs.LinesConcat` | botparty_robot/publisher.py:324-330 | the lines of a concatenation are those of its first part, then those of its left-over and the second part |
| `PublisherLogs.ChunkingDoesNotMatter` | botparty_robot/publisher.py:317-333 | for a stream without lines over 16 KiB the handled messages are those of the whole stream, however it is cut |
| `PublisherLogs.WholeStreamLaws` | botparty_robot/publisher.py:317-333 | what those messages are: the first line's own unless it is empty, then those of the rest; a last piece without newline gives one |
| `PublisherLogs.Publisher.TakeLines` | botparty_robot/publisher.py:325-330 | handles the complete lines of the buffer and leaves the rest |
| `PublisherLogs.Publisher.FeedChunk` | botparty_robot/publisher.py:324-333 | one chunk: the messages of its complete lines, and a rest over 16 KiB is flushed, cut to 16 KiB |
| `PublisherLogs.Publisher.DrainLogs` | botparty_robot/publisher.py:317-333 | the handled messages, and a buffer that never exceeds 20 KiB |
| `PublisherLogs.Publisher.RecordRawFrameCount` | botparty_robot/publisher.py:497-505 | the frames added by one raw count |
| `PublisherLogs.Publisher.RecordRun` | botparty_robot/publisher.py:497-505 | the total grows by the sum of the last count of each non-decreasing run of the non-negative counts |

## Left out

- Cancelling the asyncio tasks at shutdown, which breaks the link between the hardware lock and the worker thread.
- Concrete adapters: an adapter is any sequence of guarded writes, interruptible sleeps and exceptions; nothing is said about writes outside `guarded_write`. `BaseHardware.close` and the swap of the handler by `restart_control` are not modelled.
- Validation of commands before the latch and media refusals (timestamp, replay, value schema, capabilities), chat and speech dispatch: each rejects in one branch before the pipeline.
- Emission to the ledger is assumed not to fail inside the pipeline; the ledger's own failures are in `Outbox`.
- PipelineStops.UnconfirmedStopStaysLatched: says nothing while a reset is between its guard and its commit, or while the status reads confirmed with another stop waiting for the stop lock, because the code does not hold the latch there; `PipelineStops.ReleaseOverOpenStopIff` says what happens then.
- CommandHost.Host.RunHardwareCommand: nothing else happens between its steps; runs with anything in between are runs of `Pipeline`, whose events the step methods are.
- Pipeline.Run: the stop lock admits its waiters in any order, and deadline timers may fire even after they were cancelled; both allow more runs than asyncio does.
- SHA-256, JSON text and file permissions: outcome ids are injective in kind, subject and state, JSON objects keep no key order, encoded sizes are parameters.
- OutboxRuns.NeverTwoTerminalStates: a crash loses the process, not the disk; a power loss that undoes a rename whose directory was not synchronised is not modelled. Subjects whose state `_trim` evicted are excluded, because the ledger forgets them; `OutboxForgetting.SomeServerIsToldBoth` shows that the exclusion is needed.
- Delivery.UnacknowledgedIsResent: a send and its attempt mark are one step and a lost connection ends the drain that used it, so a send that succeeds only after the next claim is not modelled; writes of confirmations succeed, because a failed one moves its record to the end; drains run as steps, since they interleave with everything else.
- Delivery.AcceptedIsSentFirst: subjects whose state `_trim` evicted are excluded, because the ledger forgets them and may admit a new `accepted` after their terminal state (`OutboxForgetting.ForgottenSubjectIsSentTwice` with `accepted` as second state).
- Delivery.NextStartIsInOrder: the file is the one the last write left when that write succeeded; what a failed write may leave is in `OutboxRuns`.
- Ota.DiskStaysBootable: installs start without a pending marker, which the source does not check (`Ota.InstallSafeIff` says what happens otherwise); the comparison of interpreters in `confirm`, marker permissions and the signed bundle's verification are left out, and staging is four steps.
- Gateway.NotificationsAreDisciplined: a reset is one step of the message that brings it; one still under way when the connection is lost is `PipelineStops`' matter. Reconnect delays, heartbeats and the parsing of messages are left out.
- Pacing.PublishLoop: rates and times are exact reals; the frame reader, logging counters and the yield every fourth frame do not affect pacing.
- SpeechLimits.RateLimiter.ShouldSpeak: the filters in front of the limiter are left out; the order of the buckets, which no code reads, is not kept; sender names are taken as already normalised.
- DailyBudget.GrantedWithinBudget: the state file stays readable; an unreadable file makes the source fall back on the consumer's own copy.
- Restore.FileSystem.RestoreAll: undo writes succeed, targets are regular files or absent, temporary files are not modelled, and archive decryption and checks come before.
- PublisherLogs.Publisher.DrainLogs: redaction and decoding are one function of the raw line; for streams with longer lines only the fold over the chunks is given, because the result then depends on the cuts. The `readline` fallback and the retry loop of `run` are left out.
- Sockets, media, HTTP, configuration, diagnostics, installer and release scripts.
