# Acceptance, worker and widget protocols, verified

A Dafny 4.11 model of the parts of the agent platform whose correctness depends on interleaving, faults or
counting, with proofs about every run, every input or every crash point. `dafny verify dfyconfig.toml` checks
all of it.

| files | what they model |
|---|---|
| `DurableTasks`, `WriteEffects` | the durable task row, each write of `DurableWorkflowRepository` against it, versions and leases; and what each write means for the row |
| `TaskAttempt`, `AttemptEnds` | `processClaimedTask` and `releaseLeaseIfHeld` of `worker.ts`, with other writers at every await; and what an undisturbed attempt leaves, here and in the fleet |
| `Fleet`, `FleetSafety` | any number of workers over one table: claims, heartbeats, crashes, takeovers, other writers |
| `LeaseContinuity` | the heartbeat's timing bound |
| `PollerModel`, `PollerSafety`, `PollerTheorems`, `PollerProgress` | `createWorkerPoller` as a state machine, its invariant, its promises over every run, and how polling goes on |
| `WorkerPoller`, `WorkerAttempt` | the same poller as a class holding its attempts as objects, shared between the registry and the promises that captured them; every method makes exactly one step of the machine |
| `OfflineQueue`, `QueueSteps`, `StorefrontWidget`, `StorefrontPage` | the widget's queue in shared session storage: as a world of interleaved widgets, as the class with its fields, and as a page of such objects whose methods between awaits each make exactly one step of that world |
| `SseParser`, `SseStandard` | the stream line and payload loops, and the standard they partly follow |
| `ChunkedStream` | what the widget shows of a stream it reads chunk by chunk, beside what it would show of the whole |
| `CaseList`, `CasePairing`, `CaseCounts`, `CaseVerdicts`, `GeneratorRun` | the acceptance-specification generator's checks, when each fault is reported, and what an error-free run guarantees |
| `OutputFiles`, `OutputReports` | writing by temporary file and replace with a crash at every step, and the drift check; which paths are stale, protected or plannable |
| `TenantBinding` | `withTenantContext` on a reused connection, every query allowed to fail |
| `ApprovalExpirySweeper` | the single-flight sweeper |
| `Sums`, `Texts`, `Options` | sums, strings and sorting, an option type |

Concurrency is modelled at the granularity of awaits: the code between two awaits is one step, and arbitrary
other steps come between. What the code gets from outside (clock readings, replies, failures, other writers,
crash points) is a parameter of the step, so a statement about all steps is a statement about all environments.
Lemmas carry `{:induction false}` wherever Dafny would otherwise try automatic induction: every induction is
written out.

Where a method is proved against a specification function, a second statement fixes that function in other terms: which
call an attempt makes (`CallsMatch`), what payloads and lines say (`SaidByChunk`), which fault a case list deserves
(`Deserves`), which replies give a message up (`GivesUp`), which files are stale (`StaleExactly`).

Properties that turned out false of the code are kept as results, each with the exact condition under which
the code does meet them:

- A consumed event is documented to let its parked lease go. For `awaiting_human` the release is refused and the
  error escapes; it succeeds if and only if the row is not awaiting a human or still carries the event
  (`TaskAttempt.ReleaseFailsExactlyOnConsumedAwaitingRow`).
- A row that fails a check ends as failed if and only if it is not awaiting a human
  (`TaskAttempt.RefusedRowFailsExactlyUnlessAwaiting`); a refused event on an awaiting row is claimed again forever:
  any number of rounds leaves the row as it was, two versions further for each
  (`TaskAttempt.RefusedEventOnAwaitingRowIsRetriedForever`).
- Leases name workers, not attempts. In every reachable world, an overtaken attempt that reads under a live lease
  renews it, or gives it away by its release, if and only if its own worker claimed the run last
  (`FleetSafety.RenewalFencedExactlyFromOthers`, `FleetSafety.ReleaseFencedExactlyFromOthers`); its failure record
  and its parking are always refused.
- The last read of an attempt and the read of its release are two reads. A release requeues an effect in doubt, of an
  attempt begun without an event, if and only if the row came into doubt between the two
  (`TaskAttempt.DoubtfulRequeueExactly`).
- The attempt registry is exact until the first claim that returns a run already active in the process
  (`PollerTheorems.RegistryBreaksExactlyOnDuplicates`).
- Widget messages are conserved by a step if and only if the storage writes its message depends on succeed, spelled
  out for every step (`OfflineQueue.StepConservesExactly`), and by a run if and only if by each of its steps. The write
  of the session's identifier is one of them: a send that cannot make it is lost, its widget accepts nothing more until
  it comes online again (`OfflineQueue.StuckWidgetAcceptsNothing`), and a replay that cannot make it loses the queue.
- What the widget shows chunk by chunk is, after every chunk, what it would show of the whole if and only if it is so
  at every boundary, decided by the cut line, by which parts mention the field, and by the lines up to where both
  readings stand alike (`ChunkedStream.StreamShownExactly`). Behind a line end the condition is in what the two parts
  show (`ChunkedStream.LineEndedCutShowsExactly`). Elsewhere a field name cut in two is shown, the rest of a payload is
  dropped if its chunk mentions the field further on, and lines without the field are shown if their chunk has none.
- The reading agrees with the standard exactly for one finished data line per event (`SseStandard`); a bare field name,
  a lone carriage return and a byte order mark are read differently.
- After a withTenantContext result the writes are stored exactly when the callback swallowed no refused statement or
  had none to lose; after a thrown error nothing is stored exactly when no COMMIT with writes was carried out unheard;
  a ROLLBACK that is not carried out leaves a transaction that the next commit stores.
- A leftover temporary file is reported exactly at the top level.
- The reported number of preserved baseline identifiers is the length of the list exactly when no identifier that is
  produced more than once is repeated in the baseline.

Planned outputs are whole, old or new, at every crash point (`OutputFiles.PlannedOutputsAreAlwaysWhole`).
`write_outputs` by itself, given any outputs, needs that none is another's temporary name
(`OutputFiles.WholeExactlyWhenApart`); the generator never plans one that is.

## Model

| member | source | states |
|---|---|---|
| DurableTasks.Outcome | packages/database/src/repositories/durable-workflows.ts:476-526 | Every accepted write increments the version by one; only a claim grants a lease; a fenced write is accepted only with the stored owner and version |
| DurableTasks.VersionIdentifiesRow | packages/database/src/repositories/durable-workflows.sql.ts:124-161 | Over any writes by anyone versions never go back, and a version seen again means nothing was written in between |
| DurableTasks.GuardedWriteIsAtomic | packages/database/src/repositories/durable-workflows.ts:491-526 | A fenced write that takes effect after any interference finds exactly the row its version was read from, owned by its writer |
| DurableTasks.ClaimDoomsEarlierReads | packages/database/vitest.adversarial.config.ts:8-13 | A claim between a read and the write based on it makes that write fail, whoever claimed and whatever else is written |
| WriteEffects.ClaimTakesExactly | packages/database/src/repositories/durable-workflows.sql.ts:124-161 | A claim takes queued rows, running rows whose lease is over, and parked rows with an event and no live lease, and no others |
| WriteEffects.ClaimGrantsTheLease | packages/database/src/repositories/durable-workflows.ts:476-489 | Its worker and nobody else then holds the row for the time granted, and no claim takes it before; the payload is kept and parked work stays parked |
| WriteEffects.ClaimableIsFree | packages/database/src/repositories/durable-workflows.sql.ts:124-161 | No row is claimable and held at once |
| WriteEffects.FencedAcceptedExactly | packages/database/src/repositories/durable-workflows.ts:491-526 | A fenced write goes through if and only if its worker holds the live lease, the version is the stored one, and the state allows it, write by write |
| WriteEffects.RenewalExtends | packages/database/src/repositories/durable-workflows.ts:491-503 | A renewal moves the end of the lease and nothing else |
| WriteEffects.ReleaseFrees | packages/database/src/repositories/durable-workflows.ts:505-526 | A released row is in the state asked for, held by nobody, with its payload; queued or with an event it is claimable at every time |
| WriteEffects.FailureIsFinal | apps/worker/src/worker.ts:308-315 | A recorded failure leaves a failed row nobody holds, can claim or can write under a lease |
| WriteEffects.ParkingWaits | apps/worker/src/worker.ts:393-400 | Parking leaves a waiting row with its checkpoint and its lease, claimable again only with an event |
| WriteEffects.RefusalsAreNamed | packages/database/src/repositories/durable-workflows.ts:491-526 | Which refusal a fenced write meets, and that a refused write changes nothing |
| TaskAttempt.Decide | apps/worker/src/worker.ts:275-400 | The signal is processed if and only if the row is replayable with an enabled and accepting module; resumed if and only if resumable; an effect in doubt is parked, and a parked row left alone, on exactly their rows |
| TaskAttempt.AtomicRelease | apps/worker/src/worker.ts:224-258 | A release needs the live lease, clears it, keeps the payload, requeues running work only and leaves parked work parked; running work with a live lease is always released |
| TaskAttempt.ReleaseLeaseIfHeld | apps/worker/src/worker.ts:224-258 | Read then compare-and-set refines one atomic release, no change, a rethrown refusal or a lost call, for every interference between its read and its write and any delivery of either |
| TaskAttempt.ReleaseFailsExactlyOnConsumedAwaitingRow | apps/worker/src/worker.ts:469-491 | A held releasable lease with nobody interfering is given back if and only if the row is not awaiting a human or still has its event; otherwise the error is rethrown |
| TaskAttempt.WorkflowRepository.GetTask | packages/database/src/repositories/durable-workflows.ts:535-543 | Returns the stored row or none |
| TaskAttempt.WorkflowRepository.Interfere | packages/database/src/repositories/durable-workflows.sql.ts:220-249 | Other writers at an await: any sequence of writes to any rows |
| TaskAttempt.RunBody | apps/worker/src/worker.ts:275-465 | At most one call; the signal is processed if and only if the row is plain, unparked and not in doubt, its module enabled and accepting, the factory yields and nothing is aborted; resumed if and only if a same-tenant event of a known type meets a complete checkpoint; parked if and only if in doubt; failed with each code on exactly its rows; and the one write of its own, among whatever others write |
| TaskAttempt.ProcessClaimedTask | apps/worker/src/worker.ts:265-492 | The whole attempt, with that call and its `finally` on every path, a rejecting factory and lost reads, writes and releases included, for every abort stage and every interleaving |
| TaskAttempt.DoubtfulRequeueExactly | apps/worker/src/worker.ts:454-491 | For an attempt begun without an event: its release, heard or not, leaves the row queued with a mutating action in doubt if and only if the row was not in doubt at the last read, was in doubt, running and leased at the release's read, nobody wrote it after that, and the release was sent; it knows if and only if it was heard |
| TaskAttempt.DoubtfulRequeueNeedsAnEventOrARace | apps/worker/src/worker.ts:454-491 | So an attempt whose last two reads agree never requeues an effect in doubt |
| TaskAttempt.DoubtfulRequeueByRace | apps/worker/src/worker.ts:469-491 | An instance of such a race, from a claimed row and one foreign write |
| TaskAttempt.RefusedRowFailsExactlyUnlessAwaiting | apps/worker/src/worker.ts:284-333 | A claimed row that fails a check, under a live lease and with nobody writing first, ends as failed if and only if it is not awaiting a human |
| TaskAttempt.RefusedRoundRestores | apps/worker/src/worker.ts:284-307 | One claim and attempt on an awaiting row with a refused event restores the row but for two versions, whether or not the failure record is sent |
| TaskAttempt.RefusedEventOnAwaitingRowIsRetriedForever | apps/worker/src/worker.ts:284-307 | By induction over any number of such rounds by any workers: the same row, two versions further for each, claimable at every time |
| AttemptEnds.FinallyGivesBackExactly | apps/worker/src/worker.ts:454-491 | An undisturbed `finally` gives back running work as queued and parked work as it is, exactly if nothing was aborted and an event is or was there or no effect is in doubt; awaiting a human, only with an event, and the refusal escapes otherwise |
| AttemptEnds.OwnEffectExactly | apps/worker/src/worker.ts:275-465 | The attempt itself changes its row by a failure record or by parking, on exactly their rows, and otherwise not at all |
| AttemptEnds.DoubtIsParkedForGood | apps/worker/src/worker.ts:393-400 | An undisturbed attempt on a row in doubt only parks it, keeps it, and nobody can claim it without an event |
| AttemptEnds.WorkedRowIsGivenBack | apps/worker/src/worker.ts:454-491 | A row whose work leaves it alone is given back |
| AttemptEnds.FailedRowStaysFailed | apps/worker/src/worker.ts:299-369 | A row that fails a check is failed and not given back |
| AttemptEnds.ReleaseOutcomesExactly | apps/worker/src/worker.ts:224-258 | With others writing in between: released, rethrown or swallowed, each on exactly its rows |
| AttemptEnds.LostCallsGiveNothingBack | apps/worker/src/worker.ts:469-491 | An abort, a lost read or an unsent release gives nothing back, each at its own point |
| AttemptEnds.CrashStopsItsWorker | apps/worker/src/worker-polling.ts:119-215 | A crash stops exactly its worker's attempts |
| AttemptEnds.CrashedAttemptsDoNothingElse | apps/worker/src/worker-polling.ts:153-197 | Of a crashed attempt only a write on its way still lands |
| AttemptEnds.FleetPlaysTheAttempt | apps/worker/src/worker.ts:265-492 | The acts of an undisturbed attempt in the fleet end with exactly the table the whole attempt leaves |
| Fleet.NextKeepsInv | apps/worker/src/worker-polling.ts:119-215 | Every step of every worker, crash or other writer keeps the fleet invariant; a write on its way when its process dies may still land |
| Fleet.RunKeepsInv | apps/worker/src/worker-polling.ts:119-215 | Every run keeps it |
| FleetSafety.TakenOverAttemptsCannotWrite | apps/worker/src/worker-polling.ts:153-197 | Fencing: once another worker took the run over, no failure record, parking, release or renewal of the attempt changes any row, in any run |
| FleetSafety.TakenOverHeartbeatAborts | apps/worker/src/worker-polling.ts:153-191 | The first heartbeat that reads after a takeover settles the attempt and ends the chain; it aborts exactly the unsettled attempt of a run that is not stopped |
| FleetSafety.EffectiveWritesAreAtomic | apps/worker/src/worker.ts:224-258 | A write that changes anything acted on exactly the row its attempt had read |
| FleetSafety.OvertakenClaimVersionsAreRefused | apps/worker/src/worker.ts:308-400 | A claim by anyone, the same worker included, dooms the failure record and the parking of earlier attempts |
| FleetSafety.OvertakenAttemptsCannotWrite | packages/database/src/repositories/durable-workflows.guards.ts:288-303 | Over runs in which no worker claims a run it still has a live attempt on, a later claim fences every earlier attempt completely |
| FleetSafety.RenewalFencedExactlyFromOthers | packages/database/src/repositories/durable-workflows.guards.ts:288-303 | In every reachable world: an overtaken attempt whose heartbeat reads under a live lease renews that lease if and only if no other worker has claimed the run since |
| FleetSafety.ReleaseFencedExactlyFromOthers | apps/worker/src/worker.ts:224-258 | And an overtaken attempt at its release gives a releasable lease away under exactly the same condition |
| FleetSafety.SameWorkerReclaimIsNotFenced | packages/database/src/repositories/durable-workflows.guards.ts:288-303 | An instance from a queued row: a worker claims its own lapsed run again, and its first attempt requeues it under the second |
| FleetSafety.WorkOnlyOnAllowedRows | apps/worker/src/worker.ts:275-333 | In every run, work goes on only for attempts whose claimed row allows it |
| FleetSafety.DoubtIsNeverReplayed | apps/worker/src/worker.ts:387-400 | From any moment a row carries a mutating action in doubt, through claims, crashes, releases and resumes, no later attempt executes its original signal while nobody outside the worker settles the action |
| FleetSafety.ReleaseNeverMovesParkedWork | apps/worker/src/worker.ts:224-258 | In every run, a release that takes effect requeues running work only, keeps the payload and leaves parked states alone |
| LeaseContinuity.RoundIsSafeExactlyWithinTwoThirds | apps/worker/src/worker-polling.ts:192-201 | Over one heartbeat round no claim finds the row free if and only if the delays sum to at most two thirds of the lease |
| LeaseContinuity.LeaseHoldsBetweenRenewals | packages/database/src/repositories/durable-workflows.sql.ts:107-121 | Until the lease is due, every claim and every fenced write of others is refused and the lease stands |
| LeaseContinuity.LeaseNeverLapses | apps/worker/src/worker-polling.ts:153-201 | By induction over heartbeats, from claim to a settlement within a round as prompt as the others, no claim by anyone and no fenced write by another succeeds, and the lease outlives the attempt |
| LeaseContinuity.BeatIsTheFleetsHeartbeat | apps/worker/src/worker-polling.ts:153-201 | A beat is the fleet's heartbeat: it presents exactly that renewal, and is armed again exactly if the renewal is accepted and heard within the lease it grants; otherwise it settles and aborts |
| PollerSafety.NextKeepsInv | apps/worker/src/worker-polling.ts:82-356 | Every event keeps the poller's invariant |
| PollerTheorems.LedgerIsExact | apps/worker/src/worker-polling.ts:92-117 | In every reachable state each entry is pending claims plus unfinished attempts, at most the cap, never stored as zero, and the total is everything outstanding |
| PollerTheorems.DecrementDefaultIsNeverUsed | apps/worker/src/worker-polling.ts:112-117 | Whenever a claim or an attempt will be given back, its entry is there |
| PollerTheorems.DrainIsCorrect | apps/worker/src/worker-polling.ts:307-356 | A waiter is never asleep on a drained poller, the promise resolves at most once, a clean result only on a drained poller, a timeout only once marked |
| PollerTheorems.DrainEnds | apps/worker/src/worker-polling.ts:321-354 | While draining, the timer ends it with exactly what is outstanding, and any other event ends it exactly when nothing is |
| PollerTheorems.NothingStartsAfterACleanDrain | apps/worker/src/worker-polling.ts:217-235 | After a clean drain no claim and no attempt ever starts, and the result stands |
| PollerTheorems.RegistryBreaksExactlyOnDuplicates | apps/worker/src/worker-polling.ts:147-151 | The registry stays the set of racing attempts if and only if no claim returns a run already registered |
| PollerTheorems.RegistryStaysExact | apps/worker/src/worker-polling.ts:147-214 | So it is exact over every run without such a claim |
| PollerTheorems.AttemptKeyIsInjective | apps/worker/src/worker-polling.ts:127 | A key determines tenant and run, because tenants hold no colon |
| PollerTheorems.TimeoutReachesEveryRacingAttempt | apps/worker/src/worker-polling.ts:336-353 | The timeout marks and reports every racing attempt, aborts exactly the unsettled ones, and touches nobody else |
| PollerTheorems.LateClaimsAreTimedOut | apps/worker/src/worker-polling.ts:254-262 | A claim that returns after the timeout starts an attempt already marked, reported and aborted |
| PollerTheorems.EachAttemptIsReportedOnce | apps/worker/src/worker-polling.ts:263-269 | An attempt is reported at most once; a finished one exactly if it timed out or rejected |
| PollerTheorems.HeartbeatChain | apps/worker/src/worker-polling.ts:119-201 | At most one timer or running heartbeat, exactly one while unsettled, no timer once settled, at most one abort |
| PollerTheorems.AtMostOneRenewalAfterSettling | apps/worker/src/worker-polling.ts:153-179 | A settled attempt issues at most the one renewal of a heartbeat already reading |
| PollerProgress.TimedPollingGoesOn | apps/worker/src/worker-polling.ts:282-302 | Over every run: started, admitted and not stopped, exactly one poll timer is armed or one timed poll under way; otherwise no timer is |
| PollerProgress.AdvanceClaimsForTheFirst | apps/worker/src/worker-polling.ts:229-242 | The claim loops reserve for the first tenant below the cap, and for none once stopped |
| PollerProgress.TimerPollClaims | apps/worker/src/worker-polling.ts:282-291 | A timer that fires starts one timed poll that claims so |
| PollerProgress.CalledPollClaims | apps/worker/src/worker-polling.ts:217-242 | So does a poll that is called; one not admitted returns without a claim |
| PollerProgress.RejectedClaimIsRetried | apps/worker/src/worker-polling.ts:243-247 | A rejected claim is sent again for the same tenant on the same reservation, unless stopped |
| PollerProgress.EmptyClaimMovesOn | apps/worker/src/worker-polling.ts:249-252 | An empty one gives its reservation back and moves on to the next tenant below the cap |
| PollerProgress.ReturnedClaimGoesOn | apps/worker/src/worker-polling.ts:254-271 | A returned one starts its task in this poll and the same tenant is next, up to the cap |
| PollerProgress.PollsReturnAfterTheirTasks | apps/worker/src/worker-polling.ts:274-275 | In every reachable state each attempt belongs to a poll, and a poll that has returned has finished ones only |
| PollerProgress.GatheredPollReturns | apps/worker/src/worker-polling.ts:274-291 | A poll whose tasks are done returns, and a timed one arms the next while running |
| PollerProgress.StopStops | apps/worker/src/worker-polling.ts:307-335 | The first valid stop ends claiming and polling; it resolves at once if and only if nothing is outstanding, else a timer and a waiter race |
| PollerProgress.SecondStopIsTheFirst | apps/worker/src/worker-polling.ts:308 | Any later stop changes nothing |
| PollerProgress.SettledRaceLeavesTheRegistry | apps/worker/src/worker-polling.ts:210-214 | A race that is over stops its heartbeat and leaves the registry |
| PollerProgress.FinishedAttemptLeavesTheLedger | apps/worker/src/worker-polling.ts:263-269 | A finished attempt lowers its tenant by one and no other |
| WorkerPolling.WorkerPoller.constructor | apps/worker/src/worker-polling.ts:63-80 | Starts in the machine's first state |
| WorkerPolling.WorkerPoller.TotalInFlight | apps/worker/src/worker-polling.ts:92-96 | Sums the ledger |
| WorkerPolling.WorkerPoller.DecrementInFlight | apps/worker/src/worker-polling.ts:112-117 | Drops an entry that reaches zero and wakes a waiter exactly on a drained poller |
| WorkerPolling.WorkerPoller.ContinueClaims | apps/worker/src/worker-polling.ts:229-242 | The nested claim loops up to the next claim or their end |
| WorkerPolling.WorkerPoller.PollOnce | apps/worker/src/worker-polling.ts:217-235 | The head of a poll makes the machine's step |
| WorkerPolling.WorkerPoller.OnClaimRejected | apps/worker/src/worker-polling.ts:243-247 | A failed claim gives its reservation back and retries the same tenant |
| WorkerPolling.WorkerPoller.OnClaimEmpty | apps/worker/src/worker-polling.ts:249-252 | An empty claim gives its reservation back and moves to the next tenant |
| WorkerPolling.WorkerPoller.Register | apps/worker/src/worker-polling.ts:147-151 | The registry and the attempt's promise name the same object, under its key and at its slot |
| WorkerPolling.WorkerPoller.CreateAttempt | apps/worker/src/worker-polling.ts:119-151 | A fresh attempt object joins, already timed out through the registry if the drain timeout is past |
| WorkerPolling.WorkerPoller.OnClaimReturned | apps/worker/src/worker-polling.ts:254-271 | A claimed task is registered and started, timed out on the spot after the drain timeout |
| WorkerPolling.WorkerPoller.OnHeartbeatTimer | apps/worker/src/worker-polling.ts:153-156 | The timer's handler steps its own attempt and no other; a settled attempt reads nothing |
| WorkerPolling.WorkerPoller.OnTaskRead | apps/worker/src/worker-polling.ts:156-179 | Steps its own attempt; a renewal is sent if and only if the row read is held by this worker under a live lease, with the version just read |
| WorkerPolling.WorkerPoller.OnRenewed | apps/worker/src/worker-polling.ts:180-201 | Steps its own attempt by the answer; a settled attempt is not armed again |
| WorkerPolling.WorkerPoller.OnCatch | apps/worker/src/worker-polling.ts:263-266 | Steps its own attempt; one that was timed out is not reported again |
| WorkerPolling.WorkerPoller.OnRaceSettles | apps/worker/src/worker-polling.ts:203-214 | The attempt settles without a timer and whatever its key names leaves the registry |
| WorkerPolling.WorkerPoller.OnFinally | apps/worker/src/worker-polling.ts:263-269 | The attempt leaves the ledger |
| WorkerPolling.WorkerPoller.OnGathered | apps/worker/src/worker-polling.ts:274-291 | The poll returns its number of claims, and a timed one arms the next |
| WorkerPolling.WorkerPoller.Stop | apps/worker/src/worker-polling.ts:307-335 | Stops claiming and polling; drained at once, or a waiter and a timer race |
| WorkerPolling.WorkerPoller.TimeOutActiveAttempts | apps/worker/src/worker-polling.ts:344-348 | Reached through the registry in any order, the very objects the promises captured are timed out, each once and no other |
| WorkerPolling.WorkerPoller.OnDrainTimer | apps/worker/src/worker-polling.ts:336-353 | Clean on a drained poller; otherwise reports what remains after timing everything out |
| WorkerAttempts.ClaimedAttempt.constructor | apps/worker/src/worker-polling.ts:119-151 | A fresh attempt with its first heartbeat armed |
| WorkerAttempts.ClaimedAttempt.FailLease | apps/worker/src/worker-polling.ts:129-145 | Aborts once, and not at all once settled |
| WorkerAttempts.ClaimedAttempt.OnTaskRead | apps/worker/src/worker-polling.ts:156-179 | Stopped settles quietly, a lost or expired lease aborts, a held one is renewed with the version just read |
| WorkerAttempts.ClaimedAttempt.OnRenewed | apps/worker/src/worker-polling.ts:180-197 | A live renewal re-arms the heartbeat unless settled; anything else aborts |
| WorkerAttempts.HeartbeatsStayAlike | apps/worker/src/worker-polling.ts:119-201 | From a claim on, through any acts on any rows, the poller's and the fleet's models of the attempt are at the same point of the heartbeat, settled alike and aborted alike |
| OfflineQueue.EveryMessageIsInOnePlace | packages/storefront-widget/src/component.ts:145-192 | Conservation: over any interleaving of widgets, sends, replays, answers and network flips with storage writes succeeding, every accepted message is in exactly one of queue, a replay's remaining list, in flight, finished |
| OfflineQueue.StepConservesExactly | packages/storefront-widget/src/component.ts:120-192 | Any step of any widget conserves if and only if the writes its message depends on succeed, the session identifier's included: a send, a replay's iteration, a retryable answer, a broken stream, a mount, a network change |
| OfflineQueue.RunConservesExactly | packages/storefront-widget/src/component.ts:145-192 | A run conserves after every step if and only if the writes each of its steps depends on succeed |
| OfflineQueue.RequeueConservesExactly | packages/storefront-widget/src/component.ts:157-168 | A requeue, on any retryable end of any open dispatch, conserves if and only if its write succeeds |
| OfflineQueue.SendConservesExactly | packages/storefront-widget/src/component.ts:431-453 | A send conserves if and only if online its session has or gets an identifier, and offline its message is written |
| OfflineQueue.ContinueConservesExactly | packages/storefront-widget/src/component.ts:186-192 | So does an iteration of a replay; one that throws takes the rest of its list along |
| OfflineQueue.SendWithoutIdentifierIsLost | packages/storefront-widget/src/component.ts:123-137 | A send online whose session identifier cannot be stored leaves its message in no place and its widget sending, stuck if nothing else of it is under way |
| OfflineQueue.ReplayWithoutIdentifierLosesTheQueue | packages/storefront-widget/src/component.ts:182-192 | Coming online without one empties the queue into no place at all |
| OfflineQueue.StuckWidgetAcceptsNothing | packages/storefront-widget/src/component.ts:361-363 | A widget left sending so accepts no message over any run in which it does not come online again |
| OfflineQueue.FailedWriteLosesTheMessage | packages/storefront-widget/src/component.ts:483-527 | A server error or a failed fetch loses its message exactly when the write back fails |
| OfflineQueue.ReplayConservesExactlyWhenCleared | packages/storefront-widget/src/component.ts:182-192 | Starting a replay conserves if and only if there is nothing to replay, or the queue is cleared and its first message kept, or it is not cleared and its dispatch throws or is the only one and not written |
| OfflineQueue.AtMostOneTurnPerMessage | packages/storefront-widget/src/stream.ts:194-206 | Every request for a message carries its text and its one key, so a server that drops keys it has seen makes at most one turn of it, over any faults |
| OfflineQueue.LoneReplayRequeuesExactlyTheFailures | packages/storefront-widget/src/component.ts:186-192 | A replay with nothing interleaved leaves exactly the failed messages in order, text and key unchanged |
| OfflineQueue.ReconnectingAloneKeepsExactlyTheFailures | packages/storefront-widget/src/component.ts:338-344 | Coming online alone turns the queue into its failures |
| QueueSteps.SendGoesOutOrBehindTheQueue | packages/storefront-widget/src/component.ts:361-382 | A send is refused for blank text or while sending; otherwise on the network online, and behind the stored queue offline |
| QueueSteps.MountReplays | packages/storefront-widget/src/component.ts:89-110 | A widget mounted online takes the stored queue and sends its first message, or puts it back if the browser is offline |
| QueueSteps.NetworkChangeReplays | packages/storefront-widget/src/component.ts:338-344 | So does one that comes online; going offline changes the flag only |
| QueueSteps.AnswerWithoutBodyFrees | packages/storefront-widget/src/component.ts:463-531 | A dispatch answered without a body leaves its widget free to send and lets its replay go on |
| QueueSteps.EndedStreamFrees | packages/storefront-widget/src/component.ts:494-531 | So does a stream that ends or breaks |
| QueueSteps.EveryRequestIsADispatch | packages/storefront-widget/src/component.ts:455-459 | Over every run the requests on the network are the dispatched messages, one for one and in order |
| QueueSteps.ServerTurnsExactly | packages/storefront-widget/src/stream.ts:194-206 | The server takes a turn for a request exactly if its key is new |
| StorefrontWidgets.StorefrontWidget.GetOfflineQueue | packages/storefront-widget/src/component.ts:145-155 | An absent or unreadable entry is an empty queue |
| StorefrontWidgets.StorefrontWidget.SaveOfflineQueue | packages/storefront-widget/src/component.ts:157-168 | An empty queue removes the entry; a failed write changes nothing |
| StorefrontWidgets.StorefrontWidget.EnqueueOfflineMessage | packages/storefront-widget/src/component.ts:170-180 | Appends under the original key |
| StorefrontWidgets.StorefrontWidget.ReadStream | packages/storefront-widget/src/component.ts:489-522 | Shows the concatenated text of the chunks read |
| StorefrontWidgets.StorefrontWidget.BeginDispatch | packages/storefront-widget/src/component.ts:431-453 | Up to the fetch: queued if and only if offline, on the network if and only if online with a session identifier; otherwise it throws, left sending |
| StorefrontWidgets.StorefrontWidget.OnReply | packages/storefront-widget/src/component.ts:463-487 | Streams if and only if the status is 200 to 299 with a body; given up if and only if it is 401, 403 or 409; otherwise the message is the last of the stored queue again, under its key |
| StorefrontWidgets.StorefrontWidget.EndDispatch | packages/storefront-widget/src/component.ts:522-531 | Queued again exactly if interrupted, and never left sending |
| StorefrontWidgets.StorefrontWidget.DispatchStreamMessage | packages/storefront-widget/src/component.ts:431-531 | Queues while offline; throws and is left sending without a session identifier; otherwise one request, and the message back at the end of the queue unless the reply gave it up or its stream ended, whatever other code does to the entry meanwhile |
| StorefrontWidgets.StorefrontWidget.DrainOfflineQueue | packages/storefront-widget/src/component.ts:182-192 | Clears first, then replays each message in turn under its own key, with other code between, until one throws |
| StorefrontWidgets.StorefrontWidget.HandleSend | packages/storefront-widget/src/component.ts:361-382 | Refuses blank text and a second send under way; is left sending exactly if the dispatch throws |
| StorefrontWidgets.StorefrontWidget.HandleNetworkChange | packages/storefront-widget/src/component.ts:338-344 | Coming online drains; going offline does not touch the queue |
| StorefrontWidgets.ReplayInterleaves | packages/storefront-widget/src/component.ts:186-192 | With sends arriving during a replay, arrivals and failures end up in exactly the order of their writes, up to a dispatch that throws |
| StorefrontWidgets.DrainLeavesExactlyTheFailures | packages/storefront-widget/src/component.ts:182-192 | Without arrivals the queue is exactly the messages that failed or met an offline widget, in order, up to a dispatch that throws |
| StorefrontWidgets.ReplaySendsOrKeeps | packages/storefront-widget/src/component.ts:182-192 | Exactly the messages in front of a dispatch that throws are sent or kept |
| StorefrontPages.StorefrontPage.constructor | packages/storefront-widget/src/component.ts:145-155 | A page over an earlier page's queue starts in the world's first state, so the world's theorems hold of every run of the methods below |
| StorefrontPages.StorefrontPage.Mount | packages/storefront-widget/src/component.ts:89-110 | A new widget, and its drain up to the first await, is the world's step |
| StorefrontPages.StorefrontPage.HandleSend | packages/storefront-widget/src/component.ts:361-382 | A send up to its fetch is the world's step |
| StorefrontPages.StorefrontPage.HandleNetworkChange | packages/storefront-widget/src/component.ts:338-344 | So is a network change with the drain it starts |
| StorefrontPages.StorefrontPage.ResumeDrain | packages/storefront-widget/src/component.ts:186-192 | So is the replay loop's next iteration, behind the dispatch it awaited, or its end if the dispatch throws |
| StorefrontPages.StorefrontPage.OnReply | packages/storefront-widget/src/component.ts:455-487 | So is a fetch that settles: after 401, 403 or 409 the message is finished and the queue unchanged, after a delivery with a body it streams, and after anything else it is not finished and, if written, last in the stored queue |
| StorefrontPages.StorefrontPage.OnStreamOver | packages/storefront-widget/src/component.ts:494-531 | So is a stream that ends, which finishes its message, or breaks, which queues it again |
| StorefrontPages.StorefrontPage.OnServerHandles | packages/storefront-widget/src/stream.ts:194-206 | So is the server's turn, once per key |
| SseParser.ParseSseChunk | packages/storefront-widget/src/stream.ts:43-56 | The line loop collects the payload of every data line |
| SseParser.CutIsHarmlessExactly | packages/storefront-widget/src/stream.ts:43-56 | The line loop on cut text yields its payloads on the parts if and only if no line is cut, or the line has the payload of its first part and its second part alone has none |
| SseParser.ChunksReadRightExactly | packages/storefront-widget/src/stream.ts:43-56 | Run on every chunk alone, it has the whole's payloads after every chunk if and only if every boundary is harmless so |
| SseParser.SplitLaw | packages/storefront-widget/src/stream.ts:43-56 | Text cut after a line feed parses as its parts |
| SseParser.ChunkedStreamLaw | packages/storefront-widget/src/stream.ts:43-56 | In particular when every chunk but the last ends a line |
| SseParser.CutInsideTheFieldNameLosesThePayload | packages/storefront-widget/src/stream.ts:43-56 | To the line loop, a boundary inside the field name loses the payload, for every payload and boundary |
| SseParser.CutInsideThePayloadTruncatesIt | packages/storefront-widget/src/stream.ts:43-56 | To the line loop, a boundary inside the payload cuts off what lies behind it, unless that part is a data line itself |
| SseParser.CutBeforeAFieldNameInventsAPayload | packages/storefront-widget/src/stream.ts:43-56 | To the line loop, a boundary before a field name inside another line makes a payload of the rest of that line |
| SseParser.RoundTrip | packages/storefront-widget/src/stream.ts:46-53 | Encoding and parsing give the payloads back if and only if none holds a line feed or ends in a carriage return |
| SseParser.ParseStreamPayloads | packages/storefront-widget/src/stream.ts:101-151 | The text is, payload by payload, a delta as its text and anything else as it is, but for `[DONE]`, status markers and the one receipt, the first payload that reads as one; done if and only if `[DONE]` is among them; the status is the last marker |
| SseParser.ParseStreamChunk | packages/storefront-widget/src/stream.ts:97-188 | That of the chunk's payloads if it mentions the field; otherwise the same of its trimmed lines, blank ones left out, with a line feed before each text but the first |
| SseParser.EventsReadAsSaid | packages/storefront-widget/src/stream.ts:101-151 | The fold over event payloads has that reading, for all payloads and readers |
| SseParser.LinesReadAsSaid | packages/storefront-widget/src/stream.ts:155-187 | The fold over plain lines has theirs |
| SseParser.ChunksReadAsSaid | packages/storefront-widget/src/stream.ts:97-188 | And a chunk the one or the other, as it mentions the field or not |
| SseParser.PlainTextMentioningTheFieldIsDropped | packages/storefront-widget/src/stream.ts:99-152 | Plain text that mentions the field name, never at a line's start, is dropped whole |
| SseParser.ChunkingKeepsTextExactlyWithoutASecondReceipt | packages/storefront-widget/src/stream.ts:112-118 | Two chunks show their joint text if and only if the first had no receipt or nothing visible in the second is taken for one |
| SseParser.HarmlessCutShowsTheWholeExactly | packages/storefront-widget/src/stream.ts:97-152 | So two chunks that both mention the field, cut harmlessly, show the text of the whole under exactly that condition |
| ChunkedStream.ChunkText | packages/storefront-widget/src/stream.ts:97-188 | The text of a chunk is what its lines show one after the other, as events or as plain text |
| ChunkedStream.ChunksShowTheWholeExactly | packages/storefront-widget/src/stream.ts:97-188 | For any two chunks, whichever of them and of the whole mention the field: they show the text of the whole if and only if they do at the cut line and the lines behind it up to where both readings stand alike |
| ChunkedStream.StreamShownExactly | packages/storefront-widget/src/component.ts:489-510 | The widget shows, after every chunk, what it would show of everything received in one piece if and only if that holds at every boundary |
| ChunkedStream.LineEndedCutShowsExactly | packages/storefront-widget/src/stream.ts:97-188 | Behind a line end: if and only if nothing visible is taken for a second receipt, two plain parts do not both show something, and a plain part beside events shows nothing |
| ChunkedStream.PlainBehindEventsExactly | packages/storefront-widget/src/stream.ts:97-188 | Behind a chunk of events, plain text must show just what the cut line lacks |
| ChunkedStream.CutFieldNameExactly | packages/storefront-widget/src/stream.ts:97-188 | If only the whole mentions the field, both parts together must show just what the cut line does |
| ChunkedStream.CutLineDecides | packages/storefront-widget/src/stream.ts:97-188 | In one mode, with both readings at the same point, the cut line alone decides |
| ChunkedStream.CutFieldNameIsShown | packages/storefront-widget/src/component.ts:495-510 | A boundary inside the field name shows the name with an ordinary payload |
| ChunkedStream.CutPayloadIsShownExactly | packages/storefront-widget/src/component.ts:495-510 | A boundary inside an ordinary payload shows all of it, but for a space the field would drop |
| ChunkedStream.RestBehindACutIsDropped | packages/storefront-widget/src/component.ts:495-510 | The rest of a payload is dropped if its chunk mentions the field further on |
| ChunkedStream.FieldFreeLineIsShown | packages/storefront-widget/src/component.ts:495-510 | A line without the field, such as an event name, is shown if the field only comes in the next chunk |
| ChunkedStream.PlainLineBreakIsLost | packages/storefront-widget/src/component.ts:495-510 | A boundary behind a line of plain text loses the line break |
| SseStandard.EventsCounted | packages/storefront-widget/src/stream.ts:43-56 | The standard never dispatches more events than there are data lines, and as many exactly for one finished data line per event |
| SseStandard.SameLines | packages/storefront-widget/src/stream.ts:46-47 | Without a lone carriage return the code splits at exactly the standard's line ends |
| SseStandard.CodeFollowsTheStandardExactly | packages/storefront-widget/src/stream.ts:39-56 | On streams ended by line feeds or by carriage return and line feed, the code agrees with section 9.2.6 of the WHATWG HTML Living Standard if and only if every event has one data line and is finished, and no data line is cut off |
| SseStandard.BareNameIsSkipped | packages/storefront-widget/src/stream.ts:46-49 | A bare field name is nothing to the code and an empty data line to the standard, whatever follows |
| SseStandard.BareNameAloneIsAnEvent | packages/storefront-widget/src/stream.ts:46-49 | So on its own it is an event the code does not yield |
| SseStandard.LoneReturnDoesNotEndALine | packages/storefront-widget/src/stream.ts:46-49 | A lone carriage return makes one payload of two data lines |
| SseStandard.ByteOrderMarkHidesTheFirstLine | packages/storefront-widget/src/stream.ts:46-49 | A byte order mark the standard takes off hides the first line from the code |
| CaseList.ValidateCase | testcases/generators/validation.py:142-276 | Reports exactly the faults of the case, which `CaseVerdicts.CaseFaultsExactly` states one by one |
| CaseList.ValidateIds | testcases/generators/validation.py:279-291 | First occurrences by identifier, and exactly the duplicates |
| CaseList.ValidatePairAt | testcases/generators/validation.py:332-347 | One case's turn: its faults and its entry in the relation |
| CaseList.ValidatePair | testcases/generators/validation.py:345-391 | The checks of one link |
| CaseList.ValidatePairs | testcases/generators/validation.py:328-391 | Exactly the pair faults of the list, and the reported relation |
| CaseList.ValidateBothEnvironments | testcases/generators/validation.py:410-438 | Exactly the undeclared and uncovered criteria, and the sorted matrix |
| CasePairing.ByIdFindsTheFirst | testcases/generators/validation.py:279-291 | Each named case is found at its identifier's first occurrence and nothing else is found |
| CasePairing.DuplicatesReportedExactly | testcases/generators/validation.py:281-289 | No duplicate is reported if and only if identifiers are distinct |
| CasePairing.LiveHalfIsFine | testcases/generators/validation.py:380-391 | Between well-formed cases of opposite environments the live-half check never fires |
| CasePairing.PairsAcceptedExactlyWhenWellPaired | testcases/generators/validation.py:328-391 | Once cases and identifiers are clean, no pair fault if and only if every end-to-end case has another half |
| CasePairing.AcceptedPairingIsAnInvolution | testcases/generators/validation.py:328-391 | An accepted pairing is an involution without fixed points that swaps offline and live and keeps requirement and facet sets |
| CasePairing.ReportedRelationIsThePairing | testcases/generators/validation.py:344-344 | The reported relation is that involution |
| CasePairing.BothEnvironmentsClaimEquallyOften | testcases/generators/validation.py:410-438 | For any set of tokens, offline and live cases declaring it are equal in number |
| CasePairing.MatrixRowsBalance | testcases/generators/validation.py:422-437 | Both columns of each matrix row have equal length, and no token lacks only one environment |
| CaseCounts.ValidateBaseline | testcases/generators/validation.py:294-325 | The report and exactly its faults |
| CaseCounts.BaselineIsPartitioned | testcases/generators/validation.py:302-323 | Missing, preserved and duplicated hold each baseline identifier in exactly one of them, and nothing else |
| CaseCounts.PreservedCountsExactly | testcases/generators/validation.py:317-318 | The count equals the list if and only if no identifier produced more than once repeats in the baseline; so for every duplicate-free baseline |
| CaseCounts.BaselineAcceptedExactly | testcases/generators/validation.py:294-311 | No fault if and only if the baseline repeats nothing and each identifier is produced exactly once |
| CaseCounts.Record | testcases/generators/validation.py:448-453 | One case is appended once to each known token it declares |
| CaseCounts.BuildCoverage | testcases/generators/validation.py:441-461 | Listings and gaps |
| CaseCounts.CoverageInvertsDeclaration | testcases/generators/validation.py:444-453 | A token lists an identifier if and only if a case of that identifier declares it |
| CaseCounts.GapsExactly | testcases/generators/validation.py:454-455 | A token is a gap if and only if it is asked for and unknown, or declared by no identified case |
| CaseCounts.CoverageCountsDeclarations | testcases/generators/validation.py:441-453 | Listing lengths sum to the per-case numbers of declared known tokens |
| CaseVerdicts.CaseFaultsExactly | testcases/generators/validation.py:142-276 | Each fault of a case is reported if and only if its own condition holds of the case: identifier, layer, environment, lists, unknown requirement or facet token, live prerequisites and lock, pair |
| CaseVerdicts.CleanCaseDeclaresKnownTokens | testcases/generators/validation.py:193-210 | A case without faults declares only tokens that have metadata |
| CaseVerdicts.PlainIdExactly | testcases/generators/validation.py:152-160 | An identifier passes if and only if it matches the pattern with nothing behind it |
| CaseVerdicts.PairIdExactly | testcases/generators/validation.py:262-266 | A pair may besides end in one line feed |
| CaseVerdicts.DuplicatesExactly | testcases/generators/validation.py:279-291 | A duplicate is reported with its position and the first one, exactly for named cases whose identifier came before |
| CaseVerdicts.PairExactly | testcases/generators/validation.py:332-391 | Each pair fault of a case is reported if and only if its own condition holds of the case and the first case its pair names |
| CaseVerdicts.AllPairsExactly | testcases/generators/validation.py:328-391 | And of the list exactly those of its cases |
| CaseVerdicts.EnvironmentsExactly | testcases/generators/validation.py:410-438 | Undeclared criteria and criteria or acceptance tokens without a case in an environment, and nothing else |
| CaseVerdicts.BaselineExactly | testcases/generators/validation.py:294-311 | Repetitions with their number, baseline identifiers no case has, and those two cases have |
| CaseVerdicts.RelationsExactly | testcases/generators/validation.py:335-347 | The reported relation holds what the last linked case of an identifier names |
| CaseVerdicts.SideHolds | testcases/generators/validation.py:420-434 | A matrix cell holds, in order, the end-to-end cases of its environment that declare the token |
| CaseVerdicts.NewIdsExactly | testcases/generators/validation.py:312-326 | The report's new identifiers, each once and in order |
| GeneratorRun.Validate | testcases/_generate.py:84-94 | The whole run reports a fault if and only if its input deserves it, and in the order of the checks |
| GeneratorRun.RunReportsExactly | testcases/_generate.py:84-94 | A run reports a fault if and only if one of the conditions on cases, identifiers, baseline, pairs, environments or facets holds |
| GeneratorRun.ErrorFreeExactly | testcases/_generate.py:84-104 | So it is free of errors if and only if none does |
| GeneratorRun.ErrorFreeRunIsSound | testcases/_generate.py:84-104 | No error means accepted pairing, only known tokens declared, baseline preserved one for one, every mandatory facet known and declared |
| GeneratorRun.ErrorFreeRunBalancesEveryCriterion | testcases/generators/validation.py:412-437 | No error means every criterion is claimed in both environments equally often and at least once |
| OutputFiles.AssertOutputPaths | testcases/generators/output.py:83-95 | Accepts exactly when every path may be written |
| OutputFiles.Disk.WriteFile | testcases/generators/output.py:166-176 | One file through its temporary, with an error or death at each primitive step |
| OutputFiles.Disk.WriteOutputs | testcases/generators/output.py:160-178 | Sorted order, stopping at the first file refused or interrupted |
| OutputFiles.OnlyOutputsChange | testcases/generators/output.py:160-178 | No run changes a path other than outputs and their temporary names |
| OutputFiles.OldOrNew | testcases/generators/output.py:169-176 | An output that is nobody's temporary holds its whole old or whole new content, however the run ends |
| OutputFiles.WholeExactlyWhenApart | testcases/generators/output.py:160-178 | For write_outputs alone, over any outputs: all are whole at every crash point from every disk if and only if none is another's temporary |
| OutputFiles.PlannedOutputsAreAlwaysWhole | testcases/generators/output.py:38-80 | No output the generator plans is another's temporary, so planned outputs are whole, old or new, at every crash point from every disk |
| OutputFiles.TemporaryIsUnprotected | testcases/generators/validation.py:38-48 | The temporary name of an unprotected path is unprotected |
| OutputFiles.ProtectedPathsAreUntouched | testcases/generators/output.py:164-165 | No run, however it ends, changes a protected path |
| OutputFiles.AcceptedPathsAreNeverRefused | testcases/generators/output.py:83-95 | Planned paths that were accepted are never refused by the writing step |
| OutputFiles.CompletedFilesHold | testcases/generators/output.py:163-177 | When every file completes, every output holds its content, temporary names notwithstanding |
| OutputFiles.ReadTextExactly | testcases/generators/output.py:139-139 | Text reading changes a content exactly when it has a carriage return |
| OutputFiles.CheckOutputs | testcases/generators/output.py:131-157 | Zero exactly when every output matches and nothing is stale, three otherwise; the count of matches is the number of outputs that match |
| OutputFiles.CheckPassesAfterWritingExactly | testcases/generators/output.py:131-178 | After a completed write the check returns zero if and only if no content has a carriage return and nothing is stale |
| OutputFiles.LeftoverReportedExactly | testcases/generators/output.py:97-128 | A leftover temporary file is reported if and only if it lies at the top level |
| OutputReports.StaleExactly | testcases/generators/output.py:97-128 | A file is stale if and only if this run does not produce it and it is Markdown below a layer directory, or unprotected and of the kind and in the directory the generator writes |
| OutputReports.DroppedDocumentIsStale | testcases/generators/output.py:131-157 | A document a later run no longer plans is reported by its check |
| OutputReports.ProtectedExactly | testcases/generators/validation.py:38-48 | A path is protected if and only if it climbs, lies below a `results` directory in any case, or names a secret |
| OutputReports.PathWithoutAPartIsProtected | testcases/generators/validation.py:39-41 | A path without a part that counts is protected as well |
| OutputReports.LowerExactly | testcases/generators/validation.py:42 | Capital letters are lowered and nothing else changes |
| OutputReports.PartsExactly | testcases/generators/validation.py:39 | The parts of a path are what lies between its slashes |
| OutputReports.WritableExactly | testcases/generators/output.py:83-95 | What may be planned: relative, not climbing, no directory, no input of the generator, not protected |
| OutputReports.RunEndsExactly | testcases/generators/output.py:160-178 | A run writes a prefix of the sorted outputs and ends by what stops it at the next |
| OutputReports.WrittenFilesHold | testcases/generators/output.py:160-178 | However it ends, every output it reports as written holds its content |
| OutputReports.CompletionLeaves | testcases/generators/output.py:169-173 | A completed output leaves no temporary file and changes nothing else |
| OutputReports.InterruptionLeaves | testcases/generators/output.py:169-176 | After an error with clean-up no temporary file is left; otherwise at most a prefix of the content in it |
| OutputReports.ReadTextLineByLine | testcases/generators/output.py:139-139 | A carriage return ends a line, with a line feed behind it or not |
| TenantBinding.Connection.Query | packages/database/src/rls.ts:69-76 | One query under any outcome |
| TenantBinding.Connection.WithTenantContext | packages/database/src/rls.ts:60-90 | Every path of try, catch and finally; the connection is released exactly as often as obtained, and not obtained for anything but one tenant |
| TenantBinding.EveryStatementSeesItsOwnTenant | packages/database/src/rls.ts:69-74 | From any state of the connection, every statement carried out for a callback runs in a transaction under the application role and path, bound to its own tenant |
| TenantBinding.CallStoresAllOrNothing | packages/database/src/rls.ts:68-85 | From rest a call stores all writes or none, and all exactly when set-up succeeds, nothing throws or is refused, and COMMIT is carried out |
| TenantBinding.ReturnedMeansStoredExactlyWithoutRefusals | packages/database/src/rls.ts:74-78 | After a returned result the callback's writes are durable, and nothing else is new, if and only if no statement was refused or there was nothing to store |
| TenantBinding.ThrownMeansNothingStoredExactly | packages/database/src/rls.ts:76-85 | After a thrown error nothing new is durable if and only if no COMMIT with writes went through unheard |
| TenantBinding.ReturnsInATransactionExactly | packages/database/src/rls.ts:79-89 | A connection comes back inside a transaction if and only if the body left one and ROLLBACK was not carried out |
| TenantBinding.ReuseKeepsCallsApart | packages/database/src/rls.ts:60-102 | Over any sequence of calls whose ROLLBACKs are carried out, the connection is at rest between calls and durable writes are those of the committed calls |
| TenantBinding.LeftoversAreStoredByTheNextCommit | packages/database/src/rls.ts:80-84 | Otherwise the next call that commits stores what an earlier one left, whichever tenant it is for |
| TenantBinding.TenantIdExactly | packages/database/src/rls.ts:10-32 | A tenant identifier is five groups of hexadecimal digits joined by hyphens, and nothing else |
| TenantBinding.SetupSucceedsExactly | packages/database/src/rls.ts:69-72 | From rest, set-up succeeds if and only if each of its queries does |
| TenantBinding.SmoothCallStoresEverything | packages/database/src/rls.ts:60-90 | A call in which nothing goes wrong returns, stores all its writes in order and leaves the connection at rest |
| TenantBinding.ResetLeavesNoTenant | packages/database/src/rls.ts:96-102 | Whatever a connection was left with, a reset that is carried out leaves it without a tenant |
| ApprovalExpiry.DistinctKeepsFirstOccurrences | apps/worker/src/approval-expiry-sweeper.ts:58-58 | Tenants keep the order of their first occurrence |
| ApprovalExpiry.ApprovalExpirySweeper.constructor | apps/worker/src/approval-expiry-sweeper.ts:66-152 | Starts from the machine's first state, with the timer when asked to |
| ApprovalExpiry.ApprovalExpirySweeper.RunOnce | apps/worker/src/approval-expiry-sweeper.ts:105-118 | Shares the active sweep or begins one |
| ApprovalExpiry.ApprovalExpirySweeper.OnTick | apps/worker/src/approval-expiry-sweeper.ts:120-125 | The timer shares or begins a sweep like an explicit run |
| ApprovalExpiry.ApprovalExpirySweeper.ClearRun | apps/worker/src/approval-expiry-sweeper.ts:109-116 | A finished run clears the active one only if it still is that one |
| ApprovalExpiry.ApprovalExpirySweeper.ResumeStop | apps/worker/src/approval-expiry-sweeper.ts:134-137 | A stop resolves once its sweep has finished, and lets the timer be started again |
| ApprovalExpiry.ApprovalExpirySweeper.ResumeSweep | apps/worker/src/approval-expiry-sweeper.ts:91-103 | A failure is reported once and the next tenant follows, even if the report fails |
| ApprovalExpiry.ApprovalExpirySweeper.Start | apps/worker/src/approval-expiry-sweeper.ts:120-125 | Arms at most one timer and none while stopping |
| ApprovalExpiry.ApprovalExpirySweeper.StopSweeper | apps/worker/src/approval-expiry-sweeper.ts:127-138 | Cancels the timer and awaits exactly the sweep active at the call |
| ApprovalExpiry.OneSweepAtATime | apps/worker/src/approval-expiry-sweeper.ts:105-118 | In no run are two sweeps unfinished, and a run called meanwhile changes nothing |
| ApprovalExpiry.EverySweepCallsEachTenantOnce | apps/worker/src/approval-expiry-sweeper.ts:91-103 | Whatever fails, a finished sweep has called the repository once per distinct tenant in first-occurrence order |
| ApprovalExpiry.StopWaitsForTheActiveSweep | apps/worker/src/approval-expiry-sweeper.ts:127-138 | A stop that has resolved did so after the sweep active at its call had made all its calls and finished |
| ApprovalExpiry.StoppedTimersStayStopped | apps/worker/src/approval-expiry-sweeper.ts:120-138 | While a stop waits, no timer can be started unless another stop comes or resumes |
| ApprovalExpiry.TenantsExactly | apps/worker/src/approval-expiry-sweeper.ts:47-59 | The tenants swept: the list given, or what the setting, else the environment, names between commas, blanks left out; none twice |
| ApprovalExpiry.TickBeginsASweep | apps/worker/src/approval-expiry-sweeper.ts:105-125 | A tick or a run begins a sweep at its first tenant, exactly if none is under way |
| ApprovalExpiry.SettledTenantIsFollowed | apps/worker/src/approval-expiry-sweeper.ts:91-103 | Whatever a tenant's call does, the next tenant follows, and behind the last the sweep is over |
| ApprovalExpiry.FinishedSweepMakesWay | apps/worker/src/approval-expiry-sweeper.ts:109-116 | A sweep that is over makes way for the next |
| ApprovalExpiry.TimerStaysUntilAStop | apps/worker/src/approval-expiry-sweeper.ts:120-138 | Over any run without a stop an armed timer stays |
| ApprovalExpiry.StopCancelsAndWaits | apps/worker/src/approval-expiry-sweeper.ts:127-134 | A stop cancels the timer and waits exactly for the sweep under way |
| ApprovalExpiry.AwaitedStopResolves | apps/worker/src/approval-expiry-sweeper.ts:134-138 | It resolves once that sweep is over, and the sweeper can be started again |

## Left out

- PostgreSQL itself, row locks and retries of the repository: one call is one transaction, and a claim may take any claimable row, not only the oldest.
- DurableTasks.Outcome: of a failure record only the terminal one is modelled; retryable failures and retry counts are left out because the worker never issues them.
- TaskAttempt.ProcessClaimedTask: the orchestrator, the registry's factories and the checkpoint check are opaque; what the orchestrator writes is part of what other writers do.
- StorefrontPages.StorefrontPage.OnReply: which statements a suspended dispatch goes on with is kept as a record of its stage; reading the body's chunks, which touches neither the queue nor the flags, is not one of the page's steps.
- A `state_payload` that is not an object but contains the text `resume_event`, and a blank worker identifier: outside the row's model.
- The poller's `reportError`, `onError` and timer functions are taken to return; a `pollOnce` that never ends because claims fail forever is allowed by the model and by the code.
- Drain messages, interval and concurrency parsing, `isRunning`, readiness composition, `worker-bindings.ts`, `worker-database-autonomy.ts`, `index.ts` and the HTTP server.
- OfflineQueue.AtMostOneTurnPerMessage: the server is modelled only as dropping keys it has seen; queue ids and timestamps, minted anew at each queueing, are not modelled.
- The widget's DOM, banners, typing indicator, session and conversation identifiers, events and postMessage; JSON, the status pattern and `trim` are given functions.
- SseStandard.CodeFollowsTheStandardExactly: a lone carriage return, a byte order mark and a bare field name are excluded, and shown to be read differently in lemmas of their own; `event`, `id` and `retry` have no counterpart in the code.
- That a session identifier once stored stays: each dispatch may find it missing again, which only adds runs.
- CaseList.ValidateCase: the checks of title, suite, priority, gate, basis, texts, references, fixtures, steps and inputs are a given number of further faults; their order among the modelled ones, warnings and message wording are left out.
- CaseList.ValidatePairs: of its report only the relation is modelled; the sorted listings of unpaired and asymmetric cases, which need an `id` key, are left out, and so is a token field that is not a list of strings though not empty.
- OutputFiles.Disk.WriteOutputs: directories are not modelled (a path that is also a directory of another), paths are taken as already normalised, and `lower()` is modelled for ASCII letters.
- OutputFiles.CheckOutputs: directories that bear a document's name and undecodable files are left out, and so is the printed text.
- TenantBinding.Connection.WithTenantContext: a callback leaves transaction control, roles and settings alone; the pool hands a connection to one caller at a time.
- ApprovalExpiry.ApprovalExpirySweeper.RunOnce: a repository that calls back into the sweeper before its first await, while the sweep is not yet recorded, is left out.
- Rendering (`render.py`), case sources, configurations, seeds, generated types and scripts: text and data.
