# Proofs about the workflow and controller runtime

This project models the crash-tolerant parts of the runtime in Dafny and proves what they
promise over every run. `dafny verify dfyconfig.toml` checks all of it.

## What is modelled

Each protocol appears twice. A **step system** gives the state, the atomic steps and the runs,
with crashes, expired leases, stale workers and callbacks that come late or never; history fields
(event logs, granted leases, messages sent) are never read by the steps. Where the source updates
an object in place there is a **class** beside it whose methods are held to the functions that the
steps are made of, so what is proved about the steps holds of the methods. One `BEGIN IMMEDIATE`
transaction or one SQL statement is one step. The clock never goes back, and tokens and uids are
fresh, as `randomUUID` makes them. A `Some`/`None` parameter such as `attempt`, `seen`, `answer`,
`fault` or `verdict` stands for what a callback, the network or a model answers.

| modules | what they are about |
|---|---|
| `ControllerStore`, `ControllerMachine`, `ControllerConvergence`, `ControllerWakeups`, `ControllerManager` | the level-triggered controller queue with any number of reconcilers over it |
| `RunQueue` | the workflow-run queue: seven states, leases, two partial unique indexes |
| `Effects` | the effect ledger: reserve, observe, apply, store |
| `TurnIntents`, `TurnDeliveries`, `TurnCoordinator` | the turn-intent outbox and its coordinator |
| `StepExecutor`, `ConversationStepExecutor` | one agent step at a time: holds, delivery generations, three retry budgets, racing submits |
| `SessionLog`, `SessionRecorder` | the gated, batched, single-flight event log of a session |
| `DecisionText` | cutting a decision into transport messages |
| `DecisionDelivery`, `TelegramChannel` | multi-part delivery of a decision that survives crashes |
| `JsonNormal`, `JsonAgain`, `JsonFaithful`, `StringOrder` | canonical JSON over shared or cyclic object graphs |
| `AutoimplementGraph`, `AutoimplementGates`, `AutoimplementSafety`, `AutoimplementDelivery`, `AutoimplementParsers`, `AutoimplementReach` | the autoimplement graph, its escape hatches and the gates they must not skip |
| `ChangeVerification` | attributing failures and the repair loop |
| `Monitor` | the monitor graph and its bounds |

## Where the code does less than it promises

Each of these is a theorem with a concrete input, beside one that says exactly when the promise is kept.

- *Quiescence means convergence* fails across incarnations: `resource_version` restarts when a key is
  deleted and created again, so a stale worker can write its status onto the next incarnation
  (`CrossIncarnationBreaksConvergence`). On every run a quiescent resource has converged exactly when its
  status was computed from its own uid (`QuiescenceMeansConvergence`), which holds unless a write crossed
  onto that very incarnation (`UncrossedConverges`); and a write that passes the version check converges
  exactly when the uid is still the one that was read (`UpdateConvergesIff`).
- A *throwing batch of fallbacks* leaves claims behind in two ways (`ThrowingBatchReleases`). A branch lookup
  that throws, or a resolve that throws for a message that was already in the branch, passes the release code
  by (`LookupThrowKeepsClaims`); and a release that throws stops itself and the ones behind it
  (`ReleaseThrowKeepsClaims`). A natural delivery leaves its claim in the same ways (`NaturalLeavesClaim`).
- A *step promise* stays open for ever in exactly one case: a valid submit whose `rangeSince` throws after
  the slot was cleared (`OrphanedExactly`, `RangeThrowOrphansStep`). The hook that the extension wires in
  (`src/extension/recorder.ts:481`) cannot throw, so this takes another implementation of the conversation hooks.
- A message end that is not queued, because capture failed before or fails by it, clears a running flush timer
  and leaves the queue idle. That is the only way to fall idle (`IdlesExactly`), and it happens
  (`RefusedEndIdles`). As `synchronize` returns at once when no message end is open, only `stop` drains such a
  queue (`OnlyStopDrains`), unless a call of `synchronize` was already waiting when it fell idle
  (`IdleEndsExactly`), which takes two overlapping calls (`WaitingCallWakes`).
- After a failed append the recorder's byte counter is exact as long as the message ends it dropped settle, in
  all, to the sizes they were queued with (`AccountingIsExact`, `ExactAfterSettling`); `AccountingDrifts` is a
  run in which they do not.
- One refusal on record hides every lost answer after it: a part goes out again without an answer exactly when
  one earlier send of it was refused and another was not (`ResendsUnansweredExactly`), and that any number of
  times (`RefusalThenCrashesResend`). Without a recorded refusal a part goes out at most once (`NoBlindResend`).
- The text packer's placeholder for a document of empty segments ignores the capacity
  (`BodiesFitExactly`, `PlaceholderCanOverflow`), so the length error is reached exactly for such a document
  under a very small limit (`LengthErrorExactly`). A decision document always has its choices, so it is never
  such a document (`DocumentsNeverTooLong`).
- JSON normalization drops an own key `__proto__`. The canonical text of a value is shared with a different
  value exactly when such a key can be reached from it (`TextIsSharedExactly`; `ProtoKeyIsLost` is an
  instance), and with an object under that key the result cannot be normalized again (`IdempotentExactly`).
- A selection skips the review run exactly when some earlier round succeeded on exactly the published heads,
  whatever it found (`SkipsReviewExactly`). So a head whose only review found something critical can be
  published again unchanged and delivered (`CriticalHeadIsDelivered`). A head that `verifyP2` pushed
  can be delivered with no review of its own (`UnreviewedHeadIsDelivered`), and is unless a review had
  succeeded on exactly that head before it was pushed (`DeliveredHeadIsReviewedExactly`).

## Model

| member | source | states |
|---|---|---|
| ControllerConvergence.QuiescenceMeansConvergence | src/controllers/manager.ts:274-407 | After any run of any number of interleaved, stale, expired or crashed reconcilers, a live resource with no queue row carries a status some reconcile computed; and it has `observedGeneration` equal to its generation and a status of its current spec if and only if that reconcile read its current uid |
| ControllerConvergence.UncrossedConverges | src/controllers/manager.ts:274-407 | Within one uid, whatever happened on other keys and to earlier incarnations, a live resource with no queue row has converged unless a write computed from another uid landed on it |
| ControllerConvergence.NextOwned | src/controllers/sqlite.ts:380-425 | No step but such a write gives an incarnation a status of another one |
| ControllerConvergence.UpdateConvergesIff | src/controllers/sqlite.ts:380-425 | A status write that passes the version check leaves its resource converged if and only if the stored uid is the one the worker read |
| ControllerConvergence.CrossIncarnationBreaksConvergence | src/controllers/sqlite.ts:475-494 | There is a run (delete, re-create, stale write) that ends with an empty queue and a status of the wrong incarnation |
| ControllerConvergence.UpdateConv | src/controllers/conditions.ts:33-54 | The status patch with the snapshot's generation keeps the convergence invariant, stale writes included |
| ControllerConvergence.CompleteConv | src/controllers/sqlite.ts:568-616 | Settling or requeueing keeps it: a row disappears only when no event arrived since the claim |
| ControllerConvergence.NextConv | src/controllers/manager.ts:274-433 | Every step of every actor keeps the convergence invariant |
| ControllerMachine.NextInv | src/controllers/sqlite.ts:504-616 | Every step keeps: queue rows belong to resources, a claim is an unreleased lease no newer than its row, a displaced lease has expired, and a snapshot of the same incarnation with the same version is the resource itself |
| ControllerMachine.RunInv | src/controllers/manager.ts:226-433 | The same in every reachable state |
| ControllerWakeups.NoLostWakeup | src/controllers/sqlite.ts:1031-1042 | A requested event on a still-existing resource that no later-granted, completed claim has covered has a queue row ready no later than requested |
| ControllerWakeups.CompletionCovers | src/controllers/sqlite.ts:568-593 | A claim that completes at an unchanged row version was granted after every request on its key |
| ControllerWakeups.OneLiveLease | src/controllers/sqlite.ts:504-566 | At most one unreleased token of a queue key is unexpired at any time |
| ControllerWakeups.DisplacedIsInert | src/controllers/sqlite.ts:554-616 | A token that no longer holds its row renews, settles and requeues nothing, and is told so |
| ControllerWakeups.FencedForGood | src/controllers/sqlite.ts:504-616 | Once another token is granted for a key, the old one stays inert after any further run, re-creations included |
| ControllerWakeups.RequeueWaits | src/controllers/sqlite.ts:595-616 | After a requeue at an unchanged row version, whatever happens next, no grant of the key comes before the asked time unless an event was requested for the key in between |
| ControllerWakeups.RequeueCounts | src/controllers/sqlite.ts:595-616 | A requeue by the holder completes its claim, with one error more after a failure and none after a pass that asked for it, and leaves the row version alone |
| ControllerStore.ClaimOrderTransitive | src/controllers/sqlite.ts:504-552 | The claim order (available time, controller, key) is transitive |
| ControllerStore.FirstCandidateExists | src/controllers/sqlite.ts:504-552 | Among ready rows exactly one comes first, so the ordered, limited query picks one row |
| ControllerStore.FirstIsEarliest | src/controllers/sqlite.ts:504-552 | The row that comes first was available no later than any other ready row, and among equals has the least controller and then the least key |
| ControllerStore.SqliteControllerStore.PutResource | src/controllers/sqlite.ts:299-355 | A new key starts at generation and version 1 and is enqueued; a changed spec raises both and enqueues; an equal spec changes nothing |
| ControllerStore.SqliteControllerStore.UpdateStatus | src/controllers/sqlite.ts:380-425 | Missing resource and stale version are told apart and change nothing; an unchanged status and finalizer list keeps the version; otherwise the version rises by one |
| ControllerStore.SqliteControllerStore.RequestDeletion | src/controllers/sqlite.ts:427-446 | The mark is set once, raising the version; the key is enqueued every time |
| ControllerStore.SqliteControllerStore.UpdateFinalizers | src/controllers/sqlite.ts:448-473 | Finalizers change only at the expected version, and no queue row changes |
| ControllerStore.SqliteControllerStore.DeleteResource | src/controllers/sqlite.ts:475-494 | Absent, not ready, or deleted with its queue row exactly at the expected version |
| ControllerStore.SqliteControllerStore.Enqueue | src/controllers/sqlite.ts:496-502 | An existing resource gets a row or a new row version; a missing one changes nothing |
| ControllerStore.SqliteControllerStore.EnqueueRow | src/controllers/sqlite.ts:1031-1042 | The row version rises with every request and its availability only moves earlier; claim and error count stay |
| ControllerStore.SqliteControllerStore.ClaimNext | src/controllers/sqlite.ts:504-552 | Nothing is granted exactly when no row is ready; otherwise the first ready row gets the token, its own version and the expiry, and no other row changes |
| ControllerStore.SqliteControllerStore.RenewClaim | src/controllers/sqlite.ts:554-566 | Only the holder of an unexpired claim moves the expiry |
| ControllerStore.SqliteControllerStore.SettleClaim | src/controllers/sqlite.ts:568-593 | The holder removes the row when its version is unchanged, and otherwise frees it for now at the latest |
| ControllerStore.SqliteControllerStore.RequeueClaim | src/controllers/sqlite.ts:595-616 | Only the holder frees its row; the row is then available exactly at the asked time when its version is unchanged, else at the earlier of that time and the one it had; errors rise by one after a failure and are zero otherwise; nothing else changes |
| ControllerManager.Manager.Begin | src/controllers/manager.ts:237-260 | Claims the first ready row among the controllers under their limit, nothing exactly when there is none, and counts the claim at once; counts stay within limits |
| ControllerManager.Manager.End | src/controllers/manager.ts:263-271 | Takes back exactly one claim of one controller; zero counts leave the map |
| ControllerManager.Manager.ReconcileClaim | src/controllers/manager.ts:274-328 | An uninterrupted pass leaves the tables as settle, requeue, status write or deletion requires, and is a run of the machine's worker, so the machine's theorems cover it |
| ControllerManager.Manager.FinishSuccessfulClaim | src/controllers/manager.ts:346-407 | A conflict requeues for now without an error, a missing resource requeues as a failure, a settled result settles or deletes, any other requeues after its delay; each as machine steps |
| ControllerManager.Manager.FinishDeletion | src/controllers/manager.ts:380-397 | Deletion after the last finalizer: gone already, refused as a failure, deleted, or lost to a newer version and requeued for now |
| ControllerManager.Manager.FinishFailedClaim | src/controllers/manager.ts:409-433 | A pass that failed and still holds its claim frees the key, with one more error, for exactly now plus the backoff if no event came in between; without the claim nothing changes |
| ControllerManager.FailedPass | src/controllers/manager.ts:409-433 | A whole pass that fails touches no resource and leaves its key free, one error up, and due after exactly the backoff unless an event came in between |
| ControllerManager.SuccessfulPass | src/controllers/manager.ts:346-407 | A whole pass that succeeds removes the resource exactly when it settled with the mark set and no finalizer left; otherwise it stores status and finalizers, drops the key exactly when it settled with no event in between, and else leaves it without errors, due after exactly the requested delay or, when settled, at once |
| ControllerManager.LateWrite | src/controllers/manager.ts:395-401 | A status write against a version that is gone changes no resource, is no error, and has the key tried again at once |
| RunQueue.ReachableRows | src/controllers/sqlite.ts:1082-1596 | In every reachable state runner, token and expiry are all set exactly when a run is starting or running; ended runs have scrubbed input and launch options and a finish time |
| RunQueue.OneActiveRunPerSession | src/controllers/sqlite.ts:2129-2161 | Two different runs never are active for one session, nor continue one parent |
| RunQueue.TerminalIsAbsorbing | src/controllers/sqlite.ts:1393-1477 | Done, failed and cancelled rows are never changed or deleted by any later run, but for the owner link |
| RunQueue.WhoTurnsRows | src/controllers/sqlite.ts:1233-1597 | In every reachable state, a step that changes the state of a run is a statement on that very run, by its holder where the statement asks for a token, and leads to that statement's own state: running only by mark-running, parked by park, failed by fail, cancelled by cancel, done by complete |
| RunQueue.EveryStateHasItsCall | src/controllers/sqlite.ts:1082-1597 | Whatever state a run is in after any history, the history holds the call that put it there: the latest change of its state is by the statement that leads to it |
| RunQueue.ChangedArrives | src/controllers/sqlite.ts:1233-1597 | Whenever a statement answers that it changed a row, that row stands in the statement's own state, and no other row has changed |
| RunQueue.WhoAddsAndRemovesRows | src/controllers/sqlite.ts:1082-1461 | A row is added only by a reservation, as queued, or by an insertion, as starting with the given token; it is removed only by its holder |
| RunQueue.OriginClearedExactly | src/controllers/sqlite.ts:2065-2076 | When a session lets go, exactly its done runs lose their owner, and nothing else changes |
| RunQueue.OneLiveLease | src/controllers/sqlite.ts:1233-1363 | At most one unreleased token of a run is unexpired |
| RunQueue.DisplacedIsInert | src/controllers/sqlite.ts:1261-1476 | A displaced token's mark-running, renew, park, fail, cancel, complete and delete match no row, and its fence check is false |
| RunQueue.FencedForGood | src/controllers/sqlite.ts:1365-1476 | Once a run holds another token the old one stays inert after any further run |
| RunQueue.WhoSeizesWhat | src/controllers/sqlite.ts:1233-1342 | In every reachable state, any step that gives an existing row a new token is a claim or repair of that row, and takes over an old token only after it expired; a queued row goes only to a claim by name or to a session host that may see it; a detached host gets parked rows, expired running rows and expired starting rows of no session |
| RunQueue.OnlyItsSessionStarts | src/controllers/sqlite.ts:1279-1342 | Over any run in which neither its own session's host nor a claim by name asks for it, a queued run of a session stays queued or is failed or cancelled, whatever detached hosts and other sessions do |
| RunQueue.RewriteOk | src/controllers/sqlite.ts:1233-1596 | Any statement keeps a row well formed, and replaces a token by another only after it expired |
| RunQueue.FirstExists | src/controllers/sqlite.ts:1306-1325 | Among claimable runs some run precedes all others, so the ordered query finds one exactly when there is one |
| RunQueue.CandidatesExactly | src/controllers/sqlite.ts:1279-1342 | State by state: a detached host may claim exactly parked runs, expired running ones and expired starting ones of no session; the host of a session exactly queued, parked and expired ones of its own session or of none |
| RunQueue.PickIsBest | src/controllers/sqlite.ts:1306-1325 | The claimed run has affinity to the host if any claimable run has, and is the oldest among those equal in that |
| RunQueue.LeaseOrClaimable | src/controllers/sqlite.ts:1365-1377 | In every reachable state, for a starting or running run, its token verifies if and only if the host of its session may not claim it |
| RunQueue.WorkflowRunStore.ReserveWorkflowRun | src/controllers/sqlite.ts:1082-1133 | A queued row is added, or a key or index violation leaves the table alone |
| RunQueue.WorkflowRunStore.EnqueueWorkflowRun | src/controllers/sqlite.ts:1135-1197 | A starting row with its lease is added, or a violation leaves the table alone |
| RunQueue.WorkflowRunStore.ClaimWorkflowRun | src/controllers/sqlite.ts:1233-1259 | A named run is claimed under the statement's conditions or nothing changes |
| RunQueue.WorkflowRunStore.ClaimNextWorkflowRun | src/controllers/sqlite.ts:1279-1342 | No run is picked exactly when none is claimable by this host; otherwise the first in order is leased |
| RunQueue.WorkflowRunStore.MarkWorkflowRunRunning | src/controllers/sqlite.ts:1261-1275 | Only the token of a starting run makes it running; its expiry is not looked at |
| RunQueue.WorkflowRunStore.RenewWorkflowRunClaim | src/controllers/sqlite.ts:1344-1363 | Only the unexpired holder moves the expiry |
| RunQueue.WorkflowRunStore.ParkWorkflowRun | src/controllers/sqlite.ts:1379-1391 | Only the token of a starting or running run parks it, dropping the lease |
| RunQueue.WorkflowRunStore.FailWorkflowRun | src/controllers/sqlite.ts:1393-1426 | A run that the condition admits ends as failed, with scrubbed input, no lease and a finish time; the answer says whether it was, and no other row changes |
| RunQueue.WorkflowRunStore.CancelWorkflowRun | src/controllers/sqlite.ts:1428-1448 | A queued run, or a starting one of the given token, ends as cancelled, with scrubbed input, no lease and a finish time; the answer says whether it was, and no other row changes |
| RunQueue.WorkflowRunStore.CompleteWorkflowRun | src/controllers/sqlite.ts:1463-1477 | Exactly the holder of a starting or running run ends it, as done, with scrubbed input, no lease and the time as its finish; any other call changes nothing and says so |
| RunQueue.WorkflowRunStore.DeleteWorkflowRun | src/controllers/sqlite.ts:1454-1461 | Only the holder's token removes a row |
| RunQueue.WorkflowRunStore.RepairCanonicalWorkflowSourceRun | src/controllers/sqlite.ts:1479-1536 | A source repair re-leases the run under the statement's conditions or changes nothing |
| RunQueue.WorkflowRunStore.ClaimLegacyWorkflowSourceRun | src/controllers/sqlite.ts:1538-1597 | A legacy source is replaced under a new lease only while it is the one expected |
| RunQueue.WorkflowRunStore.SetWorkflowRunOriginSession | src/controllers/sqlite.ts:2053-2063 | The owner session is set on a run that has none, and an index that this breaks refuses it |
| Effects.AtMostOnce | src/controllers/effects.ts:22-108 | With serial passes per key and a truthful observer, no run with any crashes and resource deletions lets one (uid, key) reach the external system twice |
| Effects.FinalForGood | src/controllers/sqlite.ts:681-715 | A key that is final, or whose resource is gone, with no pass under way is never observed or applied again, and its record never changes while it exists |
| Effects.RecordWasTold | src/controllers/effects.ts:22-108 | In every reachable state a record that is not pending says what some call under its key told: it is applied only if an apply answered so or an observer reported it, rejected only if an apply answered so |
| Effects.StoresWhatWasTold | src/controllers/effects.ts:53-108 | What is stored is what the latest call under the key told, so after an apply that threw the record becomes indeterminate |
| Effects.OnlyApplyReaches | src/controllers/effects.ts:53-108 | Of all steps only an apply that takes effect reaches the external system, once, under its own key; calls are made by observe and apply alone |
| Effects.NextClosed | src/controllers/effects.ts:22-50 | Each single step keeps a closed key closed and calls nothing for it |
| Effects.NextInv | src/controllers/effects.ts:22-108 | Every step keeps: what has reached the external system is at most one, and a pass about to apply has reached it with nothing |
| Effects.PassIsRun | src/controllers/effects.ts:22-108 | An uninterrupted `ensure` is a run of the machine with the same outcome |
| Effects.ControllerEffectService.Ensure | src/controllers/effects.ts:22-50 | A second call throws before it touches anything; a final record is returned without a call; otherwise an apply that threw gives indeterminate, one that answered gives its answer, and nothing is applied when the observer saw it applied or could not tell; as the reserve, observe and apply protocol has it |
| Effects.ControllerEffectService.Update | src/controllers/sqlite.ts:681-715 | A missing record, or a final one in another state, refuses the write; otherwise only the state changes |
| TurnIntents.OneMessagePerIntent | src/extension/deferred-turn-coordinator.ts:42-170 | Over all runs with crashes between claim, lookup, send and resolve, at most one message is sent for an intent, and a stored resolution names exactly that message |
| TurnIntents.ResolutionIsFinal | src/controllers/sqlite.ts:1842-1872 | A resolved intent's row never changes again and no message follows |
| TurnIntents.ClaimsRunOut | src/controllers/sqlite.ts:1738-1769 | In every state an unresolved intent can be claimed by anyone for its session at the latest when the lease on it has run out |
| TurnIntents.NextInv | src/controllers/sqlite.ts:1738-1891 | Every step keeps: a live claim belongs to one delivery, and only an intent without messages is about to be sent |
| TurnDeliveries.BatchLeaves | src/extension/deferred-turn-coordinator.ts:74-118 | The first throw divides a batch: every intent before it is resolved, and each from it on is still claimed exactly when the exception escaped the release code or a release up to its own threw |
| TurnDeliveries.BatchCounts | src/extension/deferred-turn-coordinator.ts:74-118 | A batch without a throw reports exactly the messages it appended, one fallback for each intent that had none |
| TurnDeliveries.BatchKeepsOneEach | src/extension/deferred-turn-coordinator.ts:74-118 | Whatever throws in a batch of claimed intents, each intent keeps at most one message and a resolution names it |
| TurnDeliveries.ThrowingBatchReleases | src/extension/deferred-turn-coordinator.ts:74-118 | A batch leaves no claim behind if and only if the first throw is not a lookup throw nor a resolve throw for a message found in the branch, and no release after it throws |
| TurnDeliveries.ReleaseFrees | src/extension/deferred-turn-coordinator.ts:107-115 | The releases free a claimed intent exactly when none up to its own throws |
| TurnDeliveries.LookupThrowKeepsClaims | src/extension/deferred-turn-coordinator.ts:84-116 | Two claimed intents and a throwing lookup: both stay claimed |
| TurnDeliveries.ReleaseThrowKeepsClaims | src/extension/deferred-turn-coordinator.ts:107-115 | Two claimed intents, a throwing send and a throwing release: both stay claimed |
| TurnDeliveries.NaturalLeavesClaim | src/extension/deferred-turn-coordinator.ts:124-170 | A natural delivery leaves its claim behind if and only if the claim was granted and the lookup throws, or the resolve of a found message does, or a send or its resolve throws and then the release |
| TurnDeliveries.NaturalAnswers | src/extension/deferred-turn-coordinator.ts:124-170 | Sent means the first and only message was appended and the intent resolved; suppressed means that this call appended none; deferred means that nothing but a token was used |
| TurnDeliveries.NaturalKeepsOneEach | src/extension/deferred-turn-coordinator.ts:124-170 | A natural delivery, whatever throws, keeps one message per intent and resolutions that name it |
| TurnDeliveries.FlushKeepsOneEach | src/extension/deferred-turn-coordinator.ts:61-72 | So does a flush of everything deferred, and it keeps only entries that were there |
| TurnDeliveries.FlushForgetsNothing | src/extension/deferred-turn-coordinator.ts:61-72 | What a flush no longer keeps is resolved, or is no intent of its session; everything else still waits |
| TurnDeliveries.FlushCounts | src/extension/deferred-turn-coordinator.ts:61-72 | A flush without a throw reports exactly the messages it appended |
| TurnDeliveries.FallbacksAreRun | src/extension/deferred-turn-coordinator.ts:74-118 | A call of `deliverFallbacks`, whatever throws in it, is a run of the outbox machine that leaves the same rows and messages and no delivery of its own, so the theorems on all runs hold of it |
| TurnDeliveries.NaturalIsRun | src/extension/deferred-turn-coordinator.ts:124-170 | So is a natural delivery, with the attempts and releases that its faults allow |
| TurnDeliveries.FlushIsRun | src/extension/deferred-turn-coordinator.ts:61-72 | So is a flush |
| TurnCoordinator.TurnIntentStore.FindPendingWorkflowTurnIntent | src/controllers/sqlite.ts:1722-1736 | The latest unresolved intent of a run and session by request time and id, or none exactly when there is none |
| TurnCoordinator.TurnIntentStore.ClaimWorkflowTurnIntent | src/controllers/sqlite.ts:1738-1769 | Only an unresolved intent of the session with no live claim is claimed |
| TurnCoordinator.TurnIntentStore.ClaimEligibleWorkflowTurnIntents | src/controllers/sqlite.ts:1771-1820 | Claims exactly the first eligible, unresolved, unclaimed intents of the session up to the limit, in order |
| TurnCoordinator.TurnIntentStore.MakeWorkflowTurnIntentEligible | src/controllers/sqlite.ts:1822-1840 | The eligibility time is set once, on unresolved intents only |
| TurnCoordinator.TurnIntentStore.ResolveWorkflowTurnIntent | src/controllers/sqlite.ts:1842-1872 | Only the holder of an unresolved intent resolves it and drops the claim |
| TurnCoordinator.TurnIntentStore.ReleaseWorkflowTurnIntentClaim | src/controllers/sqlite.ts:1874-1891 | Only the holder of an unresolved intent releases it |
| TurnCoordinator.DeferredTurnCoordinator.SendNatural | src/extension/deferred-turn-coordinator.ts:42-59 | Without a pending intent the message goes out unnamed; when busy or not claimable it is kept for later; otherwise it is one natural delivery |
| TurnCoordinator.DeferredTurnCoordinator.DeliverNatural | src/extension/deferred-turn-coordinator.ts:124-170 | Store, branch and answer are those of one natural delivery, whether its lookup, send, resolve or release throws |
| TurnCoordinator.DeferredTurnCoordinator.FlushNatural | src/extension/deferred-turn-coordinator.ts:61-72 | What stays deferred, what was sent and the count are those of the flush in order; an exception leaves the rest deferred |
| TurnCoordinator.DeferredTurnCoordinator.ClearDeferred | src/extension/deferred-turn-coordinator.ts:120-122 | Forgets every deferred delivery and touches no intent |
| TurnCoordinator.DeferredTurnCoordinator.DeliverFallbacks | src/extension/deferred-turn-coordinator.ts:74-118 | Idle, it claims one batch of at most twenty and leaves what the batch theorems describe, for throwing lookups, sends, resolves and releases; busy, nothing |
| TurnCoordinator.BatchIsClaimed | src/controllers/sqlite.ts:1771-1820 | A claimed batch is distinct and held under one token |
| TurnCoordinator.BatchTakesWaiting | src/controllers/sqlite.ts:1771-1820 | A batch takes only waiting intents of its session, within the limit, and leaves one behind only if it is full of intents that come before it |
| TurnCoordinator.BatchIsOrdered | src/controllers/sqlite.ts:1771-1820 | It lists them by eligible time and then by id |
| StepExecutor.TimerArmedExactly | src/extension/executor.ts:383-464 | After every run the activation timer is armed if and only if a step is pending, not held, its current generation delivered and agent start unseen, and then for that generation |
| StepExecutor.TimeoutAlwaysActs | src/extension/executor.ts:433-458 | A timer that fires never takes its early return: it retries or fails the step |
| StepExecutor.DeliveriesAreCounted | src/extension/executor.ts:313-402 | While pending, the delivery generation is one plus nudges, provider retries, activation retries and user resumes, and all but the resumes are within their budgets |
| StepExecutor.SemanticSettleNudges | src/extension/executor.ts:360-377 | A turn that settled without an answer delivers the step again with one nudge more, or rejects it exactly when the nudges are used up or the delivery throws |
| StepExecutor.ProviderErrorsRetry | src/extension/executor.ts:331-358 | A transient provider error or context overflow delivers it again with one provider retry more, or rejects it exactly when those are used up or the delivery throws |
| StepExecutor.TimeoutsRetry | src/extension/executor.ts:433-458 | A timer that fires delivers it again with one activation retry more, or rejects it exactly when those are used up or the delivery throws |
| StepExecutor.OtherOutcomes | src/extension/executor.ts:313-329 | A turn of an earlier delivery or one the user aborted changes nothing; a turn under a hold only asks for a new prompt; a terminal provider error rejects the step |
| StepExecutor.SettledExactlyOnce | src/extension/executor.ts:191-245 | Each promise settles at most once, and is unsettled exactly while its step holds the slot or was orphaned |
| StepExecutor.AcceptedMeansResolved | src/extension/executor.ts:247-307 | With racing submits, aborts and newer attempts, a submit returns accepted if and only if it is the one that resolved a step |
| StepExecutor.ResolvedByItsOwn | src/extension/executor.ts:247-307 | In every run a step is resolved only by a submit that named the node and the attempt with which that very step was begun, and whose output was found valid |
| StepExecutor.OrphanedExactly | src/extension/executor.ts:296-302 | One step clears the slot without settling it if and only if it is the verdict of a valid submit whose range read throws |
| StepExecutor.RangeThrowOrphansStep | src/extension/executor.ts:296-302 | Three calls after which a promise is open and its slot is empty |
| StepExecutor.RunInv | src/extension/executor.ts:131-480 | The timer, budget and settlement invariants hold after any run |
| ConversationStepExecutor.Executor.SetStreaming | src/extension/executor.ts:132-139 | The start of an agent turn marks a delivered step as seen and disarms its timer |
| ConversationStepExecutor.Executor.Hold | src/extension/executor.ts:158-162 | A hold disarms the timer and remembers an interruption until released |
| ConversationStepExecutor.Executor.Release | src/extension/executor.ts:169-189 | Re-delivers after an interruption, otherwise re-arms the timer of a delivered, unseen step |
| ConversationStepExecutor.Executor.RunAgentStep | src/extension/executor.ts:191-245 | Refused while a step is pending; a throwing hook installs nothing; an aborted or throwing start rejects; otherwise the step is pending with its first delivery |
| ConversationStepExecutor.Executor.Submit | src/extension/executor.ts:247-275 | It goes on to validation if and only if a step is pending with exactly the submitted node and attempt, so a delayed submit of an earlier attempt is refused; nothing but the race of submits changes |
| ConversationStepExecutor.Executor.FinishSubmit | src/extension/executor.ts:276-307 | Refused when the step was cleared or replaced meanwhile or the output is invalid; otherwise clears the slot and resolves |
| ConversationStepExecutor.Executor.HandleAgentSettled | src/extension/executor.ts:313-381 | True only when another delivery went out; each outcome spends its own budget or fails the step |
| ConversationStepExecutor.Executor.HandlePromptSent | src/extension/executor.ts:404-423 | The callback acts for the pending step's current generation only |
| ConversationStepExecutor.Executor.DeliverPrompt | src/extension/executor.ts:383-402 | The generation rises by one and delivery marks are cleared before the prompt is sent, so a callback inside the send counts |
| ConversationStepExecutor.Executor.HandleActivationTimeout | src/extension/executor.ts:433-458 | A spent budget fails the step, otherwise one more delivery; a throw rejects |
| ConversationStepExecutor.Executor.OnAbort | src/extension/executor.ts:466-479 | Clears and rejects its own step only |
| SessionLog.LogIsPrefix | src/extension/recorder.ts:516-642 | Persisted, in-flight and queued events together are numbered 1, 2, 3 up to the last number given until an append fails; what is persisted is such a prefix even then |
| SessionLog.BatchesAreGated | src/extension/recorder.ts:588-632 | A batch starts only with no message end open and no other batch out, and begins with the first number not yet persisted |
| SessionLog.BatchOfQueue | src/extension/recorder.ts:593-602 | A batch is non-empty, has at most 256 events, exceeds 256 KiB only as a single event, and stops early only when the next event would exceed it |
| SessionLog.AccountingIsExact | src/extension/recorder.ts:516-642 | On every run the record counter equals queued plus in-flight events; the byte counter equals their sizes until an append fails, and after that if and only if the changes of size with which dropped message ends settled add up to zero |
| SessionLog.ExactAfterSettling | src/extension/recorder.ts:363-387 | From an exact counter after a failed append, settling the dropped ends keeps it exact if and only if their final sizes add up to what they were queued with |
| SessionLog.ShiftsOnce | src/extension/recorder.ts:363-387 | No other step moves the byte counter away from what is queued and in flight |
| SessionLog.AccountingDrifts | src/extension/recorder.ts:603-631 | A run of eight steps that ends with nothing queued or in flight and five bytes still counted |
| SessionLog.DriftOfDroppedEnds | src/extension/recorder.ts:363-387 | After a failed append, settling the dropped ends moves the byte counter by the change of their sizes |
| SessionLog.AppendInOrder | src/extension/recorder.ts:603-621 | An append, whole or partial, leaves a prefix persisted |
| SessionLog.StopDrains | src/extension/recorder.ts:409-445 | A stopped recorder with nothing in flight has an empty queue and has persisted every number it gave, or an append failed |
| SessionLog.NothingIdles | src/extension/recorder.ts:577-632 | While capture has not failed, a queue with no open end has a batch in flight or a timer |
| SessionLog.IdlesExactly | src/extension/recorder.ts:270-294 | A step leaves waiting events with no open end, no batch, no timer and no stop if and only if it is a message end that is not queued while the timer runs over a non-empty queue |
| SessionLog.IdleEndsExactly | src/extension/recorder.ts:363-387 | An idle queue stays as it is under every step but `stop` and the settling by a `synchronize` that was already waiting, and no further one starts to wait |
| SessionLog.OnlyStopDrains | src/extension/recorder.ts:363-387 | Over any run from an idle queue with no waiting `synchronize`, the queue stays idle, with the same events in it and nothing more persisted, if and only if the run does not stop the recorder |
| SessionLog.WaitingCallWakes | src/extension/recorder.ts:363-387 | Two overlapping calls of `synchronize`, of which the second finds the queue idle and starts a timer |
| SessionLog.RefusedEndIdles | src/extension/recorder.ts:516-560 | Two runs that end idle: a message end that is too large, and one after another failure |
| SessionLog.SettleKeeps | src/extension/recorder.ts:363-387 | Re-pricing the settled ends and flushing keeps numbering, gates and accounting |
| SessionLog.NextInv | src/extension/recorder.ts:270-642 | Every step keeps them |
| SessionLog.EnqueuedExactly | src/extension/recorder.ts:516-560 | An event is queued if and only if the recorder is bound and accepting, capture has not failed, it fits or may be moved out, and neither 8192 records nor 16 MiB would be exceeded; each refusal fails capture with its own reason or not at all |
| SessionLog.FullQueueFlushes | src/extension/recorder.ts:562-602 | A queued event starts a batch at once exactly when 256 events or 256 KiB are reached, and otherwise a timer, unless a message end is open or a batch is out |
| SessionLog.OutstandingIsBounded | src/extension/recorder.ts:547-553 | After any run at most 8192 events are queued and in flight |
| SessionRecorder.Recorder.Push | src/extension/recorder.ts:516-560 | Refused before binding, after stopping or a failure; too large and overflow fail the capture; otherwise the event is priced and numbered once |
| SessionRecorder.Recorder.Enqueue | src/extension/recorder.ts:516-571 | A queued event flushes a full queue at once and otherwise schedules a flush |
| SessionRecorder.Recorder.HandleMessageEnd | src/extension/recorder.ts:270-294 | The timer is cleared whether or not the event is queued; a queued one opens the gate |
| SessionRecorder.Recorder.Synchronize | src/extension/recorder.ts:363-367 | Without an open end it returns at once and nothing changes; otherwise it goes on to record the entries |
| SessionRecorder.Recorder.Settle | src/extension/recorder.ts:368-382 | All open ends get their final sizes, in the queue while they are still there and in the byte total always; then the gate opens |
| SessionRecorder.Recorder.TakeBatch | src/extension/recorder.ts:593-602 | Takes off exactly the longest allowed front of the queue |
| SessionRecorder.Recorder.StartFlush | src/extension/recorder.ts:588-632 | Does nothing behind the gate, during a flush or without events; otherwise one batch is out and the timer is cleared |
| SessionRecorder.Recorder.AppendStored | src/extension/recorder.ts:603-608 | The whole batch is persisted, in order |
| SessionRecorder.Recorder.AppendFailed | src/extension/recorder.ts:609-621 | The first failure is kept, the queue is dropped and its records and bytes are given back |
| SessionRecorder.Recorder.Landed | src/extension/recorder.ts:622-631 | The batch is given back and the next one starts unless a write failed |
| SessionRecorder.Recorder.Stop | src/extension/recorder.ts:409-445 | Accepting ends, open ends are given up as they are, and the queue starts to drain |
| DecisionText.SplitIsLossless | src/channels/decision-channels.ts:1326-1338 | For every text and every capacity of at least one, the pieces concatenate to the text, each has one to `capacity` units, and only the empty text has none |
| DecisionText.SplitKeepsPairs | src/channels/decision-channels.ts:1340-1345 | With a capacity of at least two, no cut separates a surrogate pair (section 2 of RFC 2781) |
| DecisionText.PairsSpell | src/channels/decision-channels.ts:1340-1345 | The surrogate pairs that are kept spell exactly the code points beyond the basic plane (section 2.2 of RFC 2781) |
| DecisionText.NeighboursDoNotFit | src/channels/decision-channels.ts:1326-1338 | Two neighbouring pieces of one text never fit into one message with their separator |
| DecisionText.CodePointBoundary | src/channels/decision-channels.ts:1340-1345 | The end is positive, within text and limit, at most one unit short of the limit, and cuts no pair when the limit is at least two |
| DecisionText.LastNewline | src/channels/decision-channels.ts:1326-1338 | The last line break at or before an index, or -1 when there is none |
| DecisionText.SplitTransportText | src/channels/decision-channels.ts:1326-1338 | The loop ends for every capacity of at least one, with the pieces that the splitting theorems are about |
| DecisionText.PackingIsLossless | src/channels/decision-channels.ts:1302-1324 | The pieces of all messages in order concatenate to the segments; every message fits the capacity, and no message holds two pieces of one segment, so no separator lands inside a segment |
| DecisionText.PackDecisionSegments | src/channels/decision-channels.ts:1302-1324 | The loops produce exactly the texts of that layout, or the placeholder when there is none |
| DecisionText.BodiesFitExactly | src/channels/decision-channels.ts:1302-1324 | Every body fits the capacity if and only if some segment is non-empty or the placeholder fits |
| DecisionText.PlaceholderCanOverflow | src/channels/decision-channels.ts:1323-1323 | One empty segment and a capacity of seven: the placeholder has eight units |
| DecisionText.HeaderFits | src/channels/decision-channels.ts:1298-1300 | No header of at most twenty parts is longer than the reserved one |
| DecisionText.DigitsSpell | src/channels/decision-channels.ts:1298-1300 | The numbers printed in a header read back as the part and the total |
| DecisionText.LengthErrorExactly | src/channels/decision-channels.ts:1265-1296 | With at most twenty parts, some part exceeds the text limit if and only if all segments are empty and the reserve leaves fewer than six units |
| DecisionText.DocumentsNeverTooLong | src/workflows/decision-presentation.ts:142-177 | A decision document, which ends with its choices, is never empty, so once it has room for a body and at most twenty parts none of them exceeds the text limit |
| DecisionText.OperatorSafe | src/channels/decision-channels.ts:1347-1357 | Making a text safe to show never makes a non-empty one empty |
| DecisionText.SafeTextIsSafe | src/channels/decision-channels.ts:1347-1357 | A sanitized text holds no control character but tab and line feed |
| DecisionText.SafeTextStays | src/channels/decision-channels.ts:1347-1357 | A text without such characters is unchanged, so sanitizing twice is sanitizing once |
| DecisionText.RenderTelegramParts | src/channels/decision-channels.ts:1265-1296 | Each of the three errors occurs exactly under its condition; otherwise part i is header and body i and none exceeds the limit |
| DecisionDelivery.NoBlindResend | src/channels/decision-channels.ts:628-805 | Over any sequence of calls with a crash between any two store, projection and network operations, a (recipient, part, digest) is sent at most once unless a definite refusal of it is on record |
| DecisionDelivery.ConfirmedIsNeverResent | src/channels/decision-channels.ts:674-722 | A message goes out only after its intent is recorded, and never for a part with any confirmation on record for that recipient |
| DecisionDelivery.GateIsPerPart | src/channels/decision-channels.ts:1244-1256 | The gate stops a call if and only if some part has an intent and no outcome of any attempt |
| DecisionDelivery.LookExactly | src/channels/decision-channels.ts:674-722 | A part confirmed on record and filed with this digest and chat is skipped; any other trace of it is recorded as unknown and ends the call; without a trace its intent is recorded |
| DecisionDelivery.RecordsWereAnswered | src/channels/decision-channels.ts:723-788 | In every run a recorded refusal of a part was answered by a definite refusal of that part, and a recorded confirmation by its delivery |
| DecisionDelivery.ResendsUnansweredExactly | src/channels/decision-channels.ts:712-728 | In every reachable state a send repeats one whose answer is not on record if and only if the part has a recorded refusal and more sends than refusals; every answer of the part on record is then a refusal, and refusals never outnumber sends |
| DecisionDelivery.RefusalThenCrashesResend | src/channels/decision-channels.ts:628-805 | For every positive number there is a run with one refusal on record that sends one part that many times |
| DecisionDelivery.NextInv | src/channels/decision-channels.ts:628-805 | Every step keeps: sent parts have intents, parts sent twice have refusals, confirmed parts are on file |
| TelegramChannel.CarriedConfirms | src/channels/decision-channels.ts:653-805 | A call that is not interrupted and tells its caller it delivered has a confirmation on record for every part and every recipient |
| TelegramChannel.Channel.Deliver | src/channels/decision-channels.ts:628-805 | A call that finds evidence of an earlier one changes nothing and answers confirmed exactly when that call completed; any other goes part by part until one fails, answers with its last record, and each operation is a step of the machine |
| TelegramChannel.Channel.DeliverTo | src/channels/decision-channels.ts:669-790 | All parts of one recipient in order, stopping at the first that fails |
| TelegramChannel.Channel.DeliverPart | src/channels/decision-channels.ts:671-789 | Known to have arrived: skipped; evidence that does not fit: recorded as unknown and stopped; otherwise announced and sent |
| TelegramChannel.Channel.SendAnnounced | src/channels/decision-channels.ts:723-788 | Goes on exactly when the part arrived, was projected and its confirmation recorded; a definite refusal is recorded as failed, everything else as unknown |
| JsonNormal.NormalizeJson | src/controllers/json.ts:29-62 | Ends on every finite object graph, shared or cyclic, restores the path set on every exit, and returns the tree or the first error of the depth-first visit |
| JsonNormal.NormalizeChildren | src/controllers/json.ts:47-61 | The first child that fails ends the visit with its error, and the path set is restored |
| JsonNormal.FailsExactly | src/controllers/json.ts:29-62 | It throws if and only if a cycle, a non-finite number, a value outside JSON or an object with a foreign prototype is reachable; sharing is accepted |
| JsonNormal.ErrorShows | src/controllers/json.ts:29-62 | The error thrown names a fault that can be reached: a cycle error a cycle, and each other error a value of its own kind |
| JsonNormal.BlindToKeyOrder | src/controllers/json.ts:8-14 | Two graphs that differ only in the order of object keys give the same tree (objects as in section 4 of RFC 8259) |
| JsonAgain.IdempotentExactly | src/controllers/json.ts:29-62 | Normalizing the result again succeeds with the same text, in whatever order the result lists its keys, if and only if the original reaches no object with an object or array under an own key `__proto__`; otherwise it throws |
| JsonAgain.CustomExactly | src/controllers/json.ts:54-58 | The result holds an object with a foreign prototype if and only if such a key was reachable |
| JsonFaithful.RepresentsExactly | src/controllers/json.ts:29-62 | The result is the JSON value that was given, with the same own keys, items and scalars throughout, if and only if no own key `__proto__` can be reached from it |
| JsonFaithful.TextTellsApart | src/controllers/json.ts:8-14 | Two values that reach no such key have the same canonical text if and only if they are the same JSON value up to key order |
| JsonFaithful.TextIsSharedExactly | src/controllers/json.ts:8-14 | The value that a canonical text spells, with its keys in any order, has that text again, and is a different JSON value from the original if and only if the original reaches such a key |
| JsonAgain.ProtoKeyIsLost | src/controllers/json.ts:8-14 | Two different objects with the same canonical text |
| StringOrder.SortedForgetsOrder | src/controllers/json.ts:54-58 | Sorting gives one sequence for every order of the same keys |
| AutoimplementDelivery.DeliveryIsGated | src/builtins/autoimplement.workflow.ts:2529-2902 | Every valid history that stands at `finalizeDelivery`, fallbacks, retries and recoveries included, has accepted work after which nothing was attempted, a publication later than it, of verified work and later than every other publication attempt, a latest comment inspection after that routed to CI, and after that a latest CI result for the published heads that is green, or red and classified unrelated |
| AutoimplementDelivery.ReviewsCoverPublication | src/builtins/autoimplement.workflow.ts:1471-1536 | Wherever comments or CI are inspected or delivery starts, every repository of the latest publish output has an accepted, successful review of exactly its id, base, head and dependency fingerprint |
| AutoimplementDelivery.PublicationFollowsVerification | src/builtins/autoimplement.workflow.ts:2529-2902 | Nothing is published and no default branch finalized before a local verification later than the accepted work |
| AutoimplementDelivery.EscapesAreBounded | src/builtins/autoimplement.workflow.ts:588-712 | A run has at most three timeout fallbacks and three blocker challenges |
| AutoimplementDelivery.EscapesAreTaken | src/builtins/autoimplement.workflow.ts:588-622 | Below its bound a guard always lets the timeout recover or the blocker be challenged, and blocks the run at its bound |
| AutoimplementDelivery.FallbackByNode | src/builtins/autoimplement.workflow.ts:198-210 | After a timeout of a given node the parser accepts exactly: retry, replan and blocked, and beyond them verification, review, CI or delivery only after the nodes listed for it and with the accepted work, publication, comments or ready CI that it needs |
| AutoimplementDelivery.FallbackLeads | src/builtins/autoimplement.workflow.ts:569-586 | The route step after an accepted fallback leads to the very node that timed out for retry, and for every other answer to its own node |
| AutoimplementDelivery.ChallengeLeads | src/builtins/autoimplement.workflow.ts:638-711 | A challenge that goes on leads back to the recovery it claims, one that is listed for the kind of the very node that was blocked |
| AutoimplementDelivery.JudgementsLead | src/builtins/autoimplement.workflow.ts:2761-2814 | Whichever of the four judging nodes answers, redesign, fix and blocked lead to the same places, and the remaining answer to verification, CI or delivery depends on who was asked |
| AutoimplementDelivery.FailuresLead | src/builtins/autoimplement.workflow.ts:2593-2602 | A step that did not succeed goes to the timeout guard if and only if it is a supported source that timed out, to the second assessment only after the first timed out, and nowhere if it was cancelled or is not supported |
| AutoimplementDelivery.CiLeads | src/builtins/autoimplement.workflow.ts:2814-2838 | In every valid history a successful inspection saw exactly the published heads, and its route step leads to `classifyCi` if and only if some published pull request failed, to `trackCi` if and only if none failed and some is pending, to the blocker challenge if and only if neither and some is unavailable, and to delivery if and only if all are green |
| AutoimplementDelivery.WatchedCiLeads | src/builtins/autoimplement.workflow.ts:2849-2861 | The same after a watch, except that what is still pending then goes to the opportunistic tests |
| AutoimplementDelivery.RoundLeads | src/builtins/autoimplement.workflow.ts:2725-2762 | After a review round a failed review leads to the one repair of the command, or blocks after it; otherwise anything critical leads to triage, else any p2 to its repair, and only a clean round to the comments |
| AutoimplementDelivery.ReviewRunLeads | src/builtins/autoimplement.workflow.ts:2708-2718 | Review commands that do not run through are repaired if and only if no repair was attempted before, and block the run otherwise |
| AutoimplementDelivery.WatchLeads | src/builtins/autoimplement.workflow.ts:2838-2848 | Watching CI leads to its assessment or to a repair of its command, and the repair back to the watching or to a challenge, each by its own answer only |
| AutoimplementDelivery.ExitsLead | src/builtins/autoimplement.workflow.ts:2552-2562 | An included workflow that leaves blocked ends the run, except a local verification, which is challenged; one that leaves ready goes on to its own next node |
| AutoimplementDelivery.DeliveredIsReviewed | src/builtins/autoimplement.workflow.ts:1310-1347 | At delivery each repository of the latest publication is a reviewed one of the latest publish output, with the very same head unless a passed `verifyP2` put it up |
| AutoimplementDelivery.DeliveredHeadIsReviewedExactly | src/builtins/autoimplement.workflow.ts:1310-1347 | At delivery the head of a repository of the latest publication has a successful review of its own if and only if a publish step put it up or it already had one when `verifyP2` did: no round looks at such a head afterwards |
| AutoimplementSafety.AlwaysInv | src/builtins/autoimplement.workflow.ts:2529-2902 | Every valid history satisfies the invariant of the control location it stands at |
| AutoimplementSafety.FallbackIsSafe | src/builtins/autoimplement.workflow.ts:524-586 | Every accepted fallback route leads to a node whose entry condition the history already meets |
| AutoimplementSafety.RecoveryIsSafe | src/builtins/autoimplement.workflow.ts:638-711 | Every listed recovery leads back to a node that the claim's origin was already entitled to |
| AutoimplementSafety.IsLawful | src/builtins/autoimplement.workflow.ts:1746-2528 | What a successful node records agrees with the summary of the history it read |
| AutoimplementSafety.SuccessLeads | src/builtins/autoimplement.workflow.ts:2529-2902 | Each edge after a success leads to a node whose invariant holds |
| AutoimplementSafety.FailureLeads | src/builtins/autoimplement.workflow.ts:178-209 | So does each edge after a failure or timeout |
| AutoimplementGates.AcceptedMeans | src/builtins/autoimplement.workflow.ts:461-470 | The one-step summary of accepted work equals the search over the history |
| AutoimplementGates.PublishedMeans | src/builtins/autoimplement.workflow.ts:472-486 | The same for the current publication |
| AutoimplementGates.CommentsMean | src/builtins/autoimplement.workflow.ts:488-511 | The same for the current comment inspection |
| AutoimplementGates.ReadyMeans | src/builtins/autoimplement.workflow.ts:513-522 | The same for ready CI |
| AutoimplementGates.TimeoutMeans | src/builtins/autoimplement.workflow.ts:438-448 | The same for the latest timed-out node |
| AutoimplementGates.RoundReviews | src/builtins/autoimplement.workflow.ts:1593-1663 | A round whose every invocation succeeded reviews each selected repository at its selected head |
| AutoimplementGates.ReuseCovers | src/builtins/autoimplement.workflow.ts:1471-1536 | Selecting nothing means everything published is already reviewed |
| AutoimplementGates.CiOfHeadMeans | src/builtins/autoimplement.workflow.ts:1349-1430 | A CI result counted for the head was an inspection, or a watch of one, of exactly the published heads |
| AutoimplementGraph.FindLatestStep | src/builtins/autoimplement.workflow.ts:450-459 | The backward loop finds the last matching step, or -1 |
| AutoimplementGraph.LatestIsLatest | src/builtins/autoimplement.workflow.ts:450-459 | The step found matches and none after it does |
| AutoimplementParsers.ParseReviewAssessment | src/builtins/autoimplement.workflow.ts:1593-1663 | Accepted if and only if there is one entry for each selected repository and no other; success needs a clean command, and the route follows the severities |
| AutoimplementParsers.ParsePublishedRepositories | src/builtins/autoimplement-command-batches.ts:85-141 | Accepted if and only if there are one to 64 pushed entries, no repository twice, and no head that equals its base |
| AutoimplementParsers.ParseP2Verification | src/builtins/autoimplement.workflow.ts:1310-1347 | Accepted if and only if everything was pushed and it lists the published repositories, each once, past its base, with nothing but the head changed |
| AutoimplementParsers.ParseCiInspection | src/builtins/autoimplement.workflow.ts:1349-1403 | Accepted if and only if it has at most 64 entries, one legal route for each published repository and no other, and an allowed tracking command for each pending one; the aggregate is failed, pending, unavailable or green by the worst entry submitted, stated on the entries themselves; heads and pull requests come from the publication |
| AutoimplementGraph.AggregateMeans | src/builtins/autoimplement-command-batches.ts:615-621 | The route of an inspection is failed if and only if some pull request failed, pending if and only if none failed and some is pending, unavailable if and only if neither and some is unavailable, and green if and only if all are |
| AutoimplementGraph.ReviewRouteMeans | src/builtins/autoimplement.workflow.ts:1593-1663 | The route of a review round is a command error if and only if a review failed, critical if and only if none failed and some found something critical, and so on down to clean |
| AutoimplementReach.DeliveryIsReachable | src/builtins/autoimplement.workflow.ts:2529-2902 | For every head that differs from its base some valid history stands at delivery with it published |
| AutoimplementReach.SkipsReviewExactly | src/builtins/autoimplement.workflow.ts:1471-1536 | After a publication the selection leads on to the comments if and only if, for each published repository, some earlier accepted round succeeded on exactly its head, whatever it found; otherwise it leads to a review run |
| AutoimplementReach.CriticalHeadIsDelivered | src/builtins/autoimplement.workflow.ts:1471-1536 | For every head there is a run from the start that delivers it although every review round of the run found something critical in it |
| AutoimplementReach.UnreviewedHeadIsDelivered | src/builtins/autoimplement.workflow.ts:1310-1347 | For every head past a reviewed one there is a run from the start that delivers it with no review of it |
| ChangeVerification.ClassifyVerification | src/builtins/change-verification.workflow.ts:510-686 | The loop files each finding under the class of its check's verdict, in order, and derives route and fingerprint from them |
| ChangeVerification.ReadyExactly | src/builtins/change-verification.workflow.ts:510-686 | Ready if and only if every check passed on the candidate or failed identically on a complete failing base run, nothing was left unchecked, the cleanup worked and no fixer was rejected |
| ChangeVerification.ClearedExactly | src/builtins/change-verification.workflow.ts:417-434 | A check is cleared if and only if its verdict is neither related nor unknown |
| ChangeVerification.AttributedExactly | src/builtins/change-verification.workflow.ts:510-626 | When a check is related, unrelated, fixed on the candidate, unknown or silent, each if and only if in terms of its two results: a check that passes on a comparable base and fails on the candidate is related |
| ChangeVerification.PrintedExactly | src/builtins/change-verification.workflow.ts:522-612 | A finding carries the digest of the candidate run if related or unrelated, of the base run if fixed, of both if a complete candidate run is unknown, and of the candidate alone if it is incomplete |
| ChangeVerification.IncompleteIsUnknown | src/builtins/change-verification.workflow.ts:417-425 | A candidate run that timed out, was cancelled or truncated, or failed without an exit code makes its check unknown |
| ChangeVerification.PassedExactly | src/builtins/change-verification.workflow.ts:427-434 | And only a run that succeeded with exit code zero and all of its output counts as a pass |
| ChangeVerification.LookupIsLast | src/builtins/change-verification.workflow.ts:516-517 | Of several results for one check the last counts, and none exactly when there is none |
| ChangeVerification.FiledExactly | src/builtins/change-verification.workflow.ts:522-626 | A finding stands under a heading if and only if it is some check's verdict under that heading |
| ChangeVerification.OrderOfChecksIsIrrelevant | src/builtins/change-verification.workflow.ts:510-686 | Listing the checks in another order changes neither the route nor the failure fingerprint |
| ChangeVerification.ReadyExitMeansClear | src/builtins/change-verification.workflow.ts:1109-1145 | A run leaves as ready without the judge if and only if every check of its latest classification was cleared and nothing was left unchecked, uncleaned or rejected; the judge decides only about unknown or unchecked evidence, and never about a rejected fixer |
| ChangeVerification.ClassificationLeads | src/builtins/change-verification.workflow.ts:1109-1128 | After a classification the run is ready if and only if all is clear, blocked if and only if a fixer was rejected, judged if and only if something is unknown or unchecked, and repaired if and only if something is related and nothing of these |
| ChangeVerification.RepairRefusedExactly | src/builtins/change-verification.workflow.ts:957-988 | The guard refuses a repair if and only if two were made or one was made for the same failures |
| ChangeVerification.FailureForgetsOrderOnly | src/builtins/change-verification.workflow.ts:639-646 | Two failure fingerprints are equal if and only if the findings are the same up to order under each heading |
| ChangeVerification.RepairTerminates | src/builtins/change-verification.workflow.ts:957-988 | Every run makes at most two repairs, for different failures, and ends within twenty steps, so the thirty-step limit is never reached |
| ChangeVerification.TwentyStepsHappen | src/builtins/change-verification.workflow.ts:957-988 | Both bounds are reached: for any two different failures, and a third, there is a run of exactly twenty steps that repairs both and is then refused |
| Monitor.CountTimeouts | src/builtins/monitor.workflow.ts:949-968 | The backward loop counts the latest checks in a row that timed out |
| Monitor.ChecksAreBounded | src/builtins/monitor.workflow.ts:1161-1213 | Every run, repairs included, accepts at most `maxChecks` checks, starts at most three times as many, and has boundedly many steps |
| Monitor.ChecksAreUsedUp | src/builtins/monitor.workflow.ts:949-968 | Both bounds are reached: for every limit there is a run that accepts exactly `maxChecks` checks and starts exactly three times as many |
| Monitor.ThirdTimeoutStops | src/builtins/monitor.workflow.ts:949-968 | After a timeout the run goes on if and only if fewer than three in a row timed out, and stops if and only if it was the third |
| Monitor.DecideLeads | src/builtins/monitor.workflow.ts:1044-1061 | After an accepted check the monitor finishes if and only if the check says stop or the checks are used up, waits or acts exactly as the check asks otherwise |
| Monitor.WorkIsAsked | src/builtins/monitor.workflow.ts:1161-1213 | Over every run the target is changed only as asked: an action follows only a check that asked to advance or recover, a repair only one that asked for a repair and only past the guard and the plan |
| Monitor.FinishesOnlyThen | src/builtins/monitor.workflow.ts:1161-1213 | A run reaches `finish` only after a check that said stop or used up the checks, or over a repair that was refused or failed |

## Left out

- SQL text, schema checks, file modes, row conversion and the event feeds: tables are maps with their unique indexes and cascades.
- `ControllerWorkflowCoordinator` (`src/controllers/workflows.ts`), the agent group pool and the command-batch option scanner: separate protocols that no theorem here needs.
- The workflow notifications table and `clearWorkflowRunOriginSession` as a method; its effect is a step of `RunQueue`.
- Status conditions and their merging: the computed status is an abstract value with its `observedGeneration`.
- ControllerManager.Manager.ReconcileClaim: the backoff delay, with its jitter, is a parameter; events, logs and the abort plumbing have no counterpart.
- RunQueue.FirstExists: two runs with the same creation time may be picked in either order, as in the query.
- Effects.ControllerEffectService.Update: completion time, external reference and error text are not kept.
- Effects.AtMostOnce: an observer that answers falsely, or one that misses a send under way, is outside the theorem, as is the case that `apply` reaches the external system twice by itself.
- TurnIntents.OneMessagePerIntent: assumes that the branch lookup reports every message sent and that a send ends while its claim is live.
- TurnDeliveries.NaturalLeavesClaim: a claim or a lookup of the intent that throws, before anything is held, is not among the faults.
- TurnCoordinator.DeferredTurnCoordinator.DeliverFallbacks: fallback facts and their JSON are not modelled; intents are numbers in the order of their ids.
- ConversationStepExecutor.Executor.FinishSubmit: a pending step is compared by its number, and re-entrant calls inside `sendPrompt` other than `onSent` are not modelled.
- ConversationStepExecutor.Executor.HandleAgentSettled: the classification of a turn's messages is a parameter.
- SessionRecorder.Recorder.Stop: the entry chain, the capture file and the finish timer are not modelled.
- SessionRecorder.Recorder.Settle: message ends are matched to queued events by sequence number instead of by reference; records are their sizes.
- TelegramChannel.Channel.Deliver: callbacks, settlement, the sorting of chat ids and the text of error codes are not modelled; digests are numbers. A store write that throws is a crash, except the confirmation of a part.
- JsonNormal.NormalizeJson: accessors, symbol keys, sparse arrays and error paths; strings and numbers are mathematical values, so no text is printed.
- StringOrder.SortedForgetsOrder: characters are ordered by code point, not by UTF-16 unit as `sort()` orders those beyond the basic plane.
- JsonFaithful.TextTellsApart: a canonical text is the sorted tree that it prints; JavaScript prints keys that look like integers first, an order that the keys alone determine.
- The engine's own step limit of the autoimplement graph, and the nodes inside included workflows: an include is one step that leaves through an exit.
- Prompt text, presentation, plan discovery, review command attestation and the delivery result parser of autoimplement.
- AutoimplementDelivery.ChallengeLeads: the flags and texts that a blocker challenge must also carry.
- AutoimplementParsers.ParseReviewAssessment: findings are counts by severity.
- AutoimplementParsers.ParseCiInspection: whether a tracking command is allowed is a flag of the entry, as is the format of paths, revisions and pull requests everywhere.
- AutoimplementParsers.ParseP2Verification: takes published repositories with distinct ids, which `publish` guarantees by accepting one repository only.
- ChangeVerification.ClassifyVerification: outputs are their digests after path normalization, and a digest stands for what was digested.
- ChangeVerification.ReadyExitMeansClear: what the judge answers is free.
- ChangeVerification.RepairTerminates: which of the two repairs the guard picks is free; the file changes of a mechanical repair and the path checks around it are not modelled.
- The monitor's check validator and its repeated-repair rule: a guard may answer either way, which only allows more runs.
