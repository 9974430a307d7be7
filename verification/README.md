# Verification of the platform's execution core and its neighbours

This project models, in Dafny, the parts of the platform whose correctness does not show in any one
function, and proves what they guarantee. `dafny verify dfyconfig.toml` checks everything.

**The execution protocol.** A run is triggered, queued, claimed by an outbox relay, handed to a worker,
reported on, canceled or reaped, by services that share a table of runs, one lock per workspace and an
outbox log. `RunDomain` and `Tables` hold the run state machine and the atomic effect of every repository,
locker and outbox call. `Protocol` is the system as a step machine: any number of threads of each service,
one call per step, calls that fail, threads that crash. `ProtocolInvariants` proves the inductive invariant;
`ProtocolSafety` and `ProtocolDelivery` state the theorems about every schedule; `ProtocolWitnesses` gives
the schedules that refute the stronger promises one might expect, and `ProtocolOverwrites`, `ProtocolWorkers`
and `ProtocolPermanence` say exactly when those promises hold and what never mends by itself. `Repositories` and
`Services` are the code as it is written, in place and call after call. Each service is proved to do exactly what
its thread of the step machine does, whatever others do in between, and `Refinement` shows that every schedule
arises that way. `ProtocolOutcomes` writes out in rows, events, locks and assignments what each service leaves
behind. `Sweeping` and `Relaying` say what one uninterrupted pass of the stale-run reaper and of a relay achieves.

**The worker registry.** `WorkerFabric` has the atomic steps on channels, local directories and shared routing
keys, `Registry` the methods of one replica, `RegistryRuns` all replicas with their calls taken apart and
interleaved, `RegistryEngines` shows that workers get only work for engines they registered with, and
`RegistryDispatch` joins the registries to the protocol: its assignments are their dispatches.

**The audit log.** `AuditLog` is the append-only table, the cursor text and the page query; `AuditPaging` a
client that follows cursors while the table grows.

**Limits and replays.** `RateLimit` is the fixed-window limiter with its collector, `RateLimitCollecting` says
when a collection can be noticed, and `RateLimitKeys` that keys are independent and exactly when a call is allowed.
`Idempotency` is the key table with its reaper and the middleware that replays stored responses, `IdempotencyRuns`
interleaves requests in flight, and `IdempotencyKeys` shows that callers do not affect each other.

**Compose files.** `Templates` is placeholder substitution over text. `Compose` says what rendering and
scanning make of a parsed document, `ComposeRendering` has the loops that do it in place, `ComposeProperties`
the theorems, `Placeholders` what substitution leaves alone in a parsed value, `ComposeVariables` the table of
variables kept in step with a file's content and what is deployed from it.

**Text functions of the deploy executor.** `Scrubbing` redacts secrets from output, `ShellQuoting` quotes a
path and reads it back by sections 2.2.1 and 2.2.2 of the POSIX Shell Command Language. `Texts` and `Ordering`
hold string replacement and the order of strings.

Things the proofs found out about the code:

- A queued run can be lost with two relays (`ProtocolWitnesses.TwoRelaysLoseARun`); the two kinds of step that
  lose one are named and shown to be the only ones (`ProtocolDelivery.LostExactlyWhen`), and a lost run is never
  assigned again (`ProtocolPermanence.LostIsForever`).
- A terminal status can be overwritten by another, exactly by a thread that stores a row it read before the run
  ended (`ProtocolOverwrites.StatusChangesExactly`, `ProtocolOverwrites.FinalUnlessStoredLate`).
- Two workers can be busy in one workspace, but only after one was set adrift: its run was canceled, reaped, or
  assigned although it had ended (`ProtocolWorkers.SetAdriftExactly`, `ProtocolWorkers.OneWorkerPerWorkspace`).
- The reaper can error a young attempt of a run that was reverted before; what a sweep errors is fixed exactly
  (`Sweeping.SweepErrorsExactlyStale`).
- A lock leaks exactly when the only thread that owes its unlock crashes or fails in it, or when a report that
  ends a run names another workspace (`ProtocolSafety.OwedExactlyUnlessLeaked`);
  once no thread in flight can release it, it stays (`ProtocolPermanence.LeakIsForever`).
- The limiter lets through at most one call less than twice the limit within one interval, and that many can
  happen; over k intervals the bound is met as long as k instants fit into one (`RateLimit.RateBound`,
  `RateLimit.BurstMeetsBound`).
- A collection by the limiter can be noticed by callers with an older clock, exactly when it took a window that
  was not over for them (`RateLimitCollecting.CollectionSeenExactly`).
- A secret is always redacted exactly when it neither starts nor ends with the mask character nor contains a
  whole mask (`Scrubbing.RemovedExactly`); stream and stored output agree exactly for secrets of one line
  (`Scrubbing.StreamedEqualsStoredExactly`).
- Saving scans the content before placeholders are filled in. In a one-service file without placeholders in its
  environment, the deployed environment is the table of env variables exactly when the global file adds none and
  no declared key is held by a variable of another type (`ComposeVariables.DeployedEnvironmentIsTable`). In general
  the table must also have what the service declares once filled in (`ComposeVariables.DeployedEnvironmentExactly`),
  which it has not after saving `A={{ B }}` with any other value for B than that text.
- An unpublished event with a hundred older ones before it is in no batch, however long they stay
  (`Relaying.NeverFetched`).
- Rendering a compose document a second time changes it exactly when some service lists its environment and an
  injected key contains `=`; keys are only required to be non-empty (internal/fleet/domain/variable.go:65-79).
- A list entry such as `=value` makes saving a compose file fail half way, because a variable needs a key
  (`ComposeVariables.EntryWithoutKey`).
- An expired idempotency row that is not swept yet keeps a new response out, so that a retry runs its handler
  again (`Idempotency.RetryReplayedExactly`).

Where the code and its comments disagree the model follows the code: the comment on `Relay`
(internal/platform/outbox/relay.go:22-29) still says that a redelivery duplicates the audit entry, while the
insert has an ON CONFLICT clause that prevents it.

## Model

| member | source | states |
|---|---|---|
| RunDomain.Run.Cancel | internal/execution/domain/run.go:155-164 | a terminal run is refused and left as it is; any other becomes canceled with a finishing time |
| RunDomain.Run.MarkApplied | internal/execution/domain/run.go:170-178 | only an applying run becomes applied, with the finishing time and nothing else changed; any other is refused and left as it is |
| RunDomain.Run.MarkFailed | internal/execution/domain/run.go:180-188 | only an applying run becomes failed, with the finishing time and nothing else changed; any other is refused and left as it is |
| Repositories.ControlPlane.Create | internal/execution/adapters/postgres/run_repository.go:21-61 | the row and its RunQueued event appear together, or the call fails and nothing changes |
| Repositories.ControlPlane.GetByID | internal/execution/adapters/postgres/run_repository.go:63-88 | succeeds exactly on a stored run, with a fresh copy of its row |
| Repositories.ControlPlane.Update | internal/execution/adapters/postgres/run_repository.go:134-182 | writes the columns whatever the stored status is, with the event the new status calls for |
| Repositories.ControlPlane.TryStartApplying | internal/execution/adapters/postgres/run_repository.go:188-226 | claims exactly a queued run, with its RunApplying event, and answers whether it did |
| Repositories.ControlPlane.RevertToQueued | internal/execution/adapters/postgres/run_repository.go:234-254 | puts exactly an applying run back, without an event |
| Repositories.ControlPlane.FindStaleApplyingRuns | internal/execution/adapters/postgres/run_repository.go:266-290 | names the runs of all RunApplying events before the cutoff |
| Repositories.ControlPlane.MarkErroredIfStillApplying | internal/execution/adapters/postgres/run_repository.go:299-332 | errors exactly an applying run, with its event, and answers whether it did |
| Repositories.ControlPlane.TryLock | internal/workspace/adapters/postgres/workspace_repository.go:199-234 | takes a free lock for the run, refuses a taken one, and answers which |
| Repositories.ControlPlane.Unlock | internal/workspace/adapters/postgres/workspace_repository.go:240-260 | frees the lock only if this run holds it |
| Repositories.ControlPlane.FetchUnpublished | internal/platform/outbox/relay.go:63-83 | returns some batch of at most 100 oldest unpublished events, in time order |
| Services.TriggerRun | internal/execution/application/trigger_run.go:41-88 | lock, create, and compensating unlock, as the protocol's trigger thread; success exactly when both calls succeed on a free workspace |
| Services.CancelRun | internal/execution/application/cancel_run.go:25-69 | read, transition, update, unlock, best-effort notice, as the protocol's cancel thread; exactly when it succeeds and when it refuses a terminal run |
| Services.HandleReport | internal/execution/application/report_job_status.go:27-87 | the protocol's report thread; a late report of a run that is not applying succeeds without effect; "applied" leaves an applying run applied, "failed" and "errored" leave it failed, and exactly any other word is a validation error; the run's routing is forgotten exactly when its row was stored |
| Services.ReportOutcome | internal/execution/application/report_job_status.go:42-87 | a report nobody interferes with, written out by its words: status, output, event and lock of an applying run; any other word or run changes nothing |
| Services.CombineOutput | internal/execution/application/report_job_status.go:42-49 | log line and error message joined, with nothing stored when there is neither |
| Services.ReapOnce | internal/execution/application/reap_stale_runs.go:57-94 | the protocol's sweep thread; a failing call skips its candidate and the sweep goes on; the routing of exactly the runs errored and unlocked is forgotten |
| Services.Fail | internal/execution/application/dispatch_run.go:177-185 | marks an applying run failed, stores it, unlocks; any failure leaves the event for redelivery |
| Services.HandleEvent | internal/execution/application/dispatch_run.go:72-175 | claim, load, resolve, dispatch, and revert or fail, as the protocol's relay thread; the event counts as handled exactly when it succeeds |
| Services.Handle | cmd/control-plane/main.go:385-390 | the audit entry is recorded before the dispatcher sees the event |
| Services.RelayBatch | internal/platform/outbox/relay.go:62-96 | the whole batch as the protocol's relay thread: an event is marked published only after its handler succeeded; fails exactly when the batch cannot be fetched or a handled event cannot be marked |
| Refinement.SchedulesAreScripts | internal/execution/application/dispatch_run.go:92-174 | what a thread does in any schedule is what its service's code does when the other threads are replayed around it |
| ProtocolInvariants.NextKeepsInv | internal/execution/adapters/postgres/run_repository.go:134-332 | every single step of any thread, any start, crash and clock tick keeps the invariant, and the tables only grow |
| ProtocolInvariants.ReachableInv | internal/execution/application/ports.go:47-56 | the invariant holds in every reachable state |
| ProtocolOutcomes.TriggerOutcome | internal/execution/application/trigger_run.go:66-87 | alone, a trigger on a free workspace leaves a queued run, its lock and its RunQueued event; on a taken one, or with a failing insert, nothing |
| ProtocolOutcomes.CancelOutcome | internal/execution/application/cancel_run.go:35-69 | alone, a cancel of a live run of the workspace leaves it canceled with its event and the workspace free; a failing unlock leaves only the lock; anything else changes nothing |
| ProtocolOutcomes.DeliveryOutcome | internal/execution/application/dispatch_run.go:72-185 | alone, a RunQueued event of a queued run ends with the run assigned and the event published, with the run queued again as it was, with the run failed and its workspace free, or with it applying and the event unpublished, by how its inputs resolve and its last call ends |
| ProtocolOutcomes.OtherDeliveryOutcome | cmd/control-plane/main.go:385-390 | any other event, and a RunQueued event of a run no longer queued, is recorded once and published, and nothing else changes |
| ProtocolOutcomes.MissingFailsRun | internal/execution/application/dispatch_run.go:122-126 | in every reachable state, a dispatcher that finds no configuration or credential for its applying run leaves it failed, with RunFailed as the last event, the workspace free, the run never assigned and its event published |
| ProtocolSafety.AtMostOnceAssignment | internal/execution/application/dispatch_run.go:88-101 | assignments of a run plus dispatchers between claim and dispatch never exceed one, and a queued run has neither |
| ProtocolSafety.DroppedReportsAreLate | internal/execution/application/report_job_status.go:51-68 | a report of an assigned run is dropped as an invalid transition exactly when the run is over |
| ProtocolSafety.MutualExclusion | internal/execution/application/trigger_run.go:66-87 | a run that is not over holds its workspace's lock, so no workspace ever has two, however late old unlocks arrive |
| ProtocolSafety.LogTellsStatus | internal/execution/adapters/postgres/run_repository.go:155-179 | a run has a terminal status exactly when the last terminal event of the run in the log says so |
| ProtocolSafety.OverIsForever | internal/execution/domain/run.go:76-82 | a terminal run never becomes queued or applying again |
| ProtocolSafety.StoredRows | internal/execution/domain/run.go:50-60 | only six statuses are ever stored, with a finishing time exactly on terminal ones, and applying since the last claim |
| ProtocolSafety.ExactlyOnceAudit | internal/audit/adapters/postgres/audit_entry_repository.go:43-57 | each event has at most one audit entry, each published one exactly one, and a run is claimed only after its RunQueued event was recorded |
| ProtocolSafety.OwedExactlyUnlessLeaked | internal/execution/application/cancel_run.go:44-56 | a step keeps every lock accounted for exactly when it is not one of the three leaking steps |
| ProtocolSafety.OwedUnlocks | internal/execution/application/report_job_status.go:77-86 | in runs without leaks a locked workspace has a live run or a thread still to unlock it; with nobody in flight it is locked exactly when it has a live run |
| ProtocolDelivery.LostExactlyWhen | internal/execution/application/dispatch_run.go:162-174 | a step loses a queued run exactly when it reverts a run whose event is published, or publishes the event of a queued run |
| ProtocolDelivery.OneRelayLosesNothing | internal/platform/outbox/relay.go:85-93 | with one relay at a time, through crashes, redeliveries and reverts, the RunQueued event of every queued run is unpublished |
| ProtocolWitnesses.TwoRelaysLoseARun | internal/execution/application/dispatch_run.go:92-101 | a schedule of two relays that ends with a queued run whose event is published and which no relay has in hand |
| ProtocolPermanence.LostIsForever | internal/platform/outbox/relay.go:63-93 | such a run is never applying and never assigned in any continuation |
| ProtocolWitnesses.TerminalStatusCanChange | internal/execution/adapters/postgres/run_repository.go:145-150 | a schedule in which a cancel overwrites a report: applied becomes canceled |
| ProtocolOverwrites.StatusChangesExactly | internal/execution/adapters/postgres/run_repository.go:145-150 | a terminal status changes in a step exactly when a thread stores a row of the run with another status |
| ProtocolOverwrites.StatusStaysExactly | internal/execution/adapters/postgres/run_repository.go:145-150 | over any schedule a terminal status is kept throughout exactly when no step does |
| ProtocolOverwrites.FinalUnlessStoredLate | internal/execution/domain/run.go:155-188 | it is final as long as no thread stores a row of a run that has ended since the row was read |
| ProtocolWitnesses.TwoWorkersOneWorkspace | internal/execution/application/cancel_run.go:54-66 | a schedule that assigns a second run in a workspace before any report of the canceled first |
| ProtocolWorkers.OneOfTwoIsOver | internal/execution/application/trigger_run.go:66-87 | of two assigned runs of one workspace at least one is over, so of two busy workers one has a run that ended without its report |
| ProtocolWorkers.SetAdriftExactly | internal/execution/application/cancel_run.go:44-66 | a step leaves a worker with such a run exactly when it stores a cancel of an assigned run, reaps one, or assigns a run that has ended since its claim |
| ProtocolWorkers.NoneAdriftExactly | internal/execution/application/reap_stale_runs.go:65-88 | a whole schedule has no such worker exactly when it has no such step |
| ProtocolWorkers.OneWorkerPerWorkspace | internal/execution/application/dispatch_run.go:154-160 | without such a step at most one worker is ever busy in a workspace |
| ProtocolWitnesses.ReaperTakesYoungAttempt | internal/execution/adapters/postgres/run_repository.go:267-271 | a schedule in which a sweep errors a run whose current attempt began at the cutoff, because of a reverted one |
| ProtocolWitnesses.FailedUnlockLeaks | internal/execution/application/trigger_run.go:82-84 | a schedule after which nobody is in flight and the workspace is locked by a run that is over |
| ProtocolPermanence.LeakIsForever | internal/workspace/adapters/postgres/workspace_repository.go:240-260 | a lock held by a run that is over, and which no thread in flight may release, is held in every continuation, and no run is ever live in the workspace |
| Sweeping.SweepErrorsExactlyStale | internal/execution/application/reap_stale_runs.go:57-94 | a sweep on its own errors exactly the applying runs with a RunApplying event before the cutoff, frees exactly their workspaces, and changes nothing else |
| Sweeping.NoOldAttemptSurvives | internal/execution/adapters/postgres/run_repository.go:256-265 | a run applying since before the cutoff is always among them, and for a run claimed once that is the only way to be |
| Sweeping.SweepForgetsExactly | internal/execution/application/reap_stale_runs.go:71-92 | an undisturbed sweep drops from the routing exactly the runs it errors, each once |
| Relaying.BatchAssignsQueuedOnce | internal/platform/outbox/relay.go:62-96 | in any reachable state one batch on its own records and publishes every fetched event, assigns every fetched run that was still queued exactly once, and changes nothing else |
| Relaying.SurelyFetched | internal/platform/outbox/relay.go:63-66 | an unpublished event with fewer than 100 others as old or older is in every batch |
| Relaying.NeverFetched | internal/platform/outbox/relay.go:63-66 | an event with 100 older unpublished ones is in no batch |
| Relaying.QueuedRunIsDelivered | internal/platform/outbox/relay.go:62-96 | with one relay at a time, a queued run with fewer than 100 unpublished events as old or older as its own is assigned, exactly once in all, by the next uninterrupted batch |
| Registry.Registry.Register | internal/execution/adapters/grpc/registry.go:85-109 | a new channel, the running jobs routed to it, and the shared keys written; an empty id is refused, as internal/execution/adapters/grpc/server.go:31-33 does before calling it |
| Registry.Registry.Deregister | internal/execution/adapters/grpc/registry.go:111-125 | the worker is gone from the directory and from the owner keys |
| Registry.Registry.Dispatch | internal/execution/adapters/grpc/registry.go:145-183 | with some worker connected here that has the engine of the job and fewer than 16 waiting commands, exactly this job is put last in the channel of one such worker and routed to it; else every worker here with the engine has a full channel and nothing changes |
| Registry.Registry.CancelLocal | internal/execution/adapters/grpc/registry.go:244-290 | the command goes into the routed channel if there is room, and the routing is removed either way |
| Registry.Registry.CancelJob | internal/execution/adapters/grpc/registry.go:201-236 | here if routed here, else forwarded to the replica the shared keys name, with every failure |
| Registry.Registry.ReceiveCancel | internal/execution/adapters/grpc/registry.go:298-316 | a forwarded cancel is a local cancel of its run |
| Registry.Registry.Forget | internal/execution/adapters/grpc/registry.go:356-366 | the run's routing is removed here and from the shared keys |
| Registry.ForwardedIsLocal | internal/execution/adapters/grpc/registry.go:206-236 | with nothing in between, a cancel forwarded from another replica has the same effect on its owner and on everything shared as one asked of the owner |
| Registry.CancelFollowsJob | internal/execution/adapters/grpc/registry.go:185-200 | with nothing in between, after a dispatch a cancel asked of any replica ends directly behind the job in the channel that got it |
| Registry.LocalCancelIsAllItsSteps | internal/execution/adapters/grpc/registry.go:244-290 | the steps of a local cancel in the interleaved machine, run one after the other, unfold to the cancel |
| Registry.RemoteCancelIsAllItsSteps | internal/execution/adapters/grpc/registry.go:206-236 | likewise, by unfolding, the steps of a cancel that goes by the shared keys |
| Registry.DispatchIsAllItsSteps | internal/execution/adapters/grpc/registry.go:145-183 | likewise, by unfolding, the steps of a dispatch |
| RegistryRuns.NextKeepsInv | internal/execution/adapters/grpc/registry.go:85-316 | every step of every replica keeps the routing invariant |
| RegistryRuns.CommandsReachOnlyTheirWorker | internal/execution/adapters/grpc/registry.go:201-290 | in every interleaving no channel exceeds 16 commands, and every cancel or assignment of a run in a worker's channel comes after that worker was assigned the run or reported it active |
| RegistryRuns.ForwardedCancelReachesWorker | internal/execution/adapters/grpc/registry.go:298-316 | a forwarded cancel ends in the channel its owner routes the run to, whatever moves come between publishing and delivery, as long as none changes that routing |
| RegistryEngines.AssignmentsMatchEngine | internal/execution/adapters/grpc/registry.go:143-170 | in every interleaving, an assignment waiting in a channel is for an engine with which the worker of that channel registered when the channel was made |
| RegistryDispatch.MoveEnqueues | internal/execution/adapters/grpc/registry.go:145-183 | a step puts an assignment into a channel exactly when it dispatches that run, one only, and only a worker takes one out |
| RegistryDispatch.EnqueuedIsDispatched | internal/execution/adapters/grpc/registry.go:145-183 | what ever entered the channels of all replicas is what was dispatched |
| RegistryDispatch.AtMostOneAssignmentEnqueued | internal/execution/application/dispatch_run.go:88-101 | over all channels of all replicas at most one assignment of a run ever enters any, and none while it is queued, when the registries' dispatches are the assignments of the protocol |
| AuditLog.AuditEntryRepository.Create | internal/audit/adapters/postgres/audit_entry_repository.go:43-57 | one entry per source event: a redelivered event changes nothing |
| AuditLog.AuditEntryRepository.ListByOrganization | internal/audit/adapters/postgres/audit_entry_repository.go:69-111 | the newest matching entries below the cursor, in descending (created_at, id) order, up to the limit |
| AuditLog.SortedIsUnique | internal/audit/adapters/postgres/audit_entry_repository.go:60-68 | there is exactly one list of a table in descending (created_at, id) order, ties included |
| AuditLog.Codec.CursorRoundTrip | internal/audit/application/list_entries.go:117-136 | a cursor decodes to what it was made from, also when the id contains the separator, and is never empty |
| AuditLog.Execute | internal/audit/application/list_entries.go:64-108 | clamps the limit, fetches one row more, returns the page and a cursor exactly when there is more |
| AuditLog.FirstPage | internal/audit/application/list_entries.go:72-106 | without a cursor the page is the newest entries of the organization, 50 by default and 500 at most, with a cursor made from the last one exactly if there are more |
| AuditLog.PageBelow | internal/audit/application/list_entries.go:81-106 | with the cursor of an entry it is the same of the entries strictly older, ties broken by id |
| AuditLog.CursorRefusedExactly | internal/audit/application/list_entries.go:83-88 | a cursor is invalid exactly if it does not decode, has no separator, or begins with no time |
| AuditPaging.PagingWhileGrowing | internal/audit/application/list_entries.go:91-105 | while entries are appended: no repetition, order kept, every initial entry appears, and the walk ends unless the table outgrows it |
| AuditPaging.PagingEqualsSortedList | internal/audit/application/list_entries.go:31-36 | for any limits the pages together are exactly the sorted list, and following the cursor ends |
| RateLimit.Limiter.Allow | internal/platform/ratelimit/ratelimit.go:49-66 | every call counts, an expired window is replaced, the limit decides, and no window of another key changes |
| RateLimit.Limiter.GC | internal/platform/ratelimit/ratelimit.go:75-84 | exactly the unexpired windows remain, unchanged |
| RateLimit.GcIsInvisible | internal/platform/ratelimit/ratelimit.go:68-84 | in time order, collections anywhere in a history change no answer |
| RateLimit.GcIsVisibleToAnOldClock | internal/platform/ratelimit/ratelimit.go:50-53 | out of time order a collection can be seen: the clock is read before the lock is taken |
| RateLimitCollecting.CollectionSeenByCall | internal/platform/ratelimit/ratelimit.go:75-84 | a collection changes the answer to the next call exactly when it took the key's window too early for its clock, and the window was full |
| RateLimitCollecting.CollectionSeenExactly | internal/platform/ratelimit/ratelimit.go:49-84 | after any history, a collection changes some later answer to callers with clocks from an instant on exactly when it took a window not over at that instant, and the limit is positive |
| RateLimit.RateBound | internal/platform/ratelimit/ratelimit.go:24-29 | a closed span of length L > 0 has at most (ceil(L / interval) + 1) * limit - 1 allowed calls for a key |
| RateLimit.BurstMeetsBound | internal/platform/ratelimit/ratelimit.go:24-29 | that many calls do get through over every span of k intervals with k at most the interval, so there the bound cannot be lowered |
| RateLimitKeys.KeysAreIndependent | internal/platform/ratelimit/ratelimit.go:49-67 | whatever the clocks and collections, the calls of a key are answered as if no other key had ever been called |
| RateLimitKeys.AllowedExactly | internal/platform/ratelimit/ratelimit.go:49-67 | a call is allowed exactly if it is among the first limit calls of its key since the one that opened its window, in any clock order without collections and in time order with them |
| RateLimitKeys.LightUseIsAllowed | internal/platform/ratelimit/ratelimit.go:24-29 | in time order, a caller with fewer than limit calls within the last interval is never refused |
| Idempotency.Store.Get | internal/platform/idempotency/store.go:54-81 | the response stored for the key less than the window ago, if any |
| Idempotency.Store.Save | internal/platform/idempotency/store.go:98-120 | a row for a new key; an existing row, expired or not, stays |
| Idempotency.Store.ReapOnce | internal/platform/idempotency/reaper.go:67-77 | exactly the rows that are still fresh remain |
| Idempotency.RunHandler | internal/platform/idempotency/middleware.go:67-81 | what the client is sent and what is recorded, for any sequence of writes |
| Idempotency.Middleware | internal/platform/idempotency/middleware.go:20-61 | bypass without a key, 401, 500, replay of the row of this organization, user and key if it is younger than 24 hours, or run the handler and store a response with a status from 200 to 299 if there is no row |
| Idempotency.ReplayedWithinWindow | internal/platform/idempotency/middleware.go:35-59 | once a 2xx is stored at t, every request with the key before t + window gets it back without running its handler, whatever requests and sweeps come between |
| Idempotency.RetryReplayedExactly | internal/platform/idempotency/store.go:83-120 | an immediate retry is replayed exactly when no row for the key, not even an expired one, was in the table |
| Idempotency.ReplayIsVerbatim | internal/platform/idempotency/middleware.go:73-81 | the replay equals the original response exactly when the last status the handler sets is the one that took effect |
| Idempotency.OrderlyHandlerIsVerbatim | internal/platform/idempotency/middleware.go:68-81 | so it does for every handler that sets its status once, before its body |
| Idempotency.TableIsIdealExactly | internal/platform/idempotency/store.go:50-53 | after every step the table is indistinguishable from a write-once table with expiry exactly as long as no save meets an expired row not yet swept |
| Idempotency.SweepSeenExactly | internal/platform/idempotency/store.go:20-32 | a sweep is noticed exactly by a reader whose clock is behind the sweep's by enough |
| IdempotencyRuns.AloneIsServed | internal/platform/idempotency/middleware.go:35-59 | a request's steps with nothing in between are the middleware |
| IdempotencyRuns.AnsweredByTable | internal/platform/idempotency/store.go:83-97 | with any number of requests in flight, every answer is what the table said when the request read it |
| IdempotencyRuns.RepliesExplained | internal/platform/idempotency/middleware.go:35-59 | a client is sent what its own handler wrote, or the recorded response, with a status from 200 to 299, of an earlier request of the same organization and user with the same key, stored less than the window before |
| IdempotencyRuns.FirstSaveWins | internal/platform/idempotency/store.go:83-97 | from the first save until its window is over no other save changes the row, and every request that reads the table gets exactly that response |
| IdempotencyRuns.TwoInFlight | internal/platform/idempotency/store.go:83-97 | two requests with one fresh key may both run, and the one that saves first is stored |
| IdempotencyKeys.CallersAreIndependent | internal/platform/idempotency/store.go:66-75 | after any history, a request is answered as if no request of another organization, of another user or with another key had been made |
| Templates.MatchesExactlyPlaceholders | internal/fleet/application/render_compose.go:22-22 | the scan finds a match exactly where the text has a placeholder by the grammar, and it is that placeholder |
| Templates.SegmentsLossless | internal/fleet/application/render_compose.go:31-31 | splitting into literals and placeholders loses nothing |
| Templates.SegmentsFollowGrammar | internal/fleet/application/render_compose.go:31-31 | placeholder segments are placeholders, and none starts at a literal |
| Templates.CheckPassSeesKeys | internal/fleet/application/render_compose.go:31-40 | the checking pass sees the keys of exactly those segments, in order |
| Templates.ReplacePassRenders | internal/fleet/application/render_compose.go:46-49 | the replacing pass keeps literals and puts each value in once, never looking at a value again |
| Templates.PlaceholderBecomesValue | internal/fleet/application/render_compose.go:46-49 | at a placeholder comes its value, then what the rest comes to |
| Templates.SubstituteTemplateVars | internal/fleet/application/render_compose.go:28-50 | succeeds exactly when every key is defined, and then renders; else reports exactly the undefined keys, each once, sorted |
| Ordering.SortedKeysOf | internal/fleet/application/render_compose.go:242-249 | the keys of a map as the one sorted list of them, whatever order the map yields |
| Ordering.LeqIsDictionary | internal/fleet/application/render_compose.go:242-249 | the order is that of a dictionary by characters |
| ComposeRendering.Document.NormalizeTopLevel | internal/fleet/application/render_compose.go:121-136 | a legacy document has its services gathered under one key |
| ComposeRendering.Document.InjectEnv | internal/fleet/application/render_compose.go:140-173 | missing variables are added in the form the environment has, existing ones win |
| ComposeRendering.Document.InjectNetworks | internal/fleet/application/render_compose.go:181-206 | top-level entries and one reference per network in every service |
| ComposeRendering.Document.InjectVolumes | internal/fleet/application/render_compose.go:211-228 | one bind per volume in every service unless it is there already |
| ComposeRendering.Document.Render | internal/fleet/application/render_compose.go:69-111 | three passes over all services in any order come to one injection per service |
| ComposeRendering.ValidateComposeContent | internal/fleet/application/render_compose.go:259-285 | accepts exactly the documents whose services are non-empty mappings with an image or a build, and gives a true reason otherwise |
| ComposeRendering.ScanComposeEnvironment | internal/fleet/application/scan_compose_variables.go:22-61 | every key of every service, each with the value of a service that has it |
| ComposeProperties.RenderingKeepsServices | internal/fleet/application/render_compose.go:69-111 | rendering keeps every service and whether it is one |
| ComposeProperties.RenderingKeepsValidity | internal/fleet/application/render_compose.go:259-285 | a rendered document is valid exactly when the original is |
| ComposeProperties.NormalizationLosesNothing | internal/fleet/application/render_compose.go:121-136 | normalizing is idempotent and can be undone |
| ComposeProperties.RenderingTwice | internal/fleet/application/render_compose.go:138-228 | a second rendering changes nothing exactly when no service lists its environment or no injected key contains '=' |
| ComposeProperties.ScanOfInjected | internal/fleet/application/render_compose.go:138-173 | scanning after injection gives the variables overridden by what was there: always for a map or absent environment, for a list exactly when no key contains '=' |
| ComposeProperties.ScanOfRendered | internal/fleet/application/scan_compose_variables.go:30-60 | scanning a rendered file finds every variable, with its value unless some service had its own |
| ComposeProperties.NetworksKept | internal/fleet/application/render_compose.go:191-205 | attaching networks keeps those of a service exactly when it does not give them as a mapping, or all are attached anyway |
| ComposeProperties.AttachedIsRendered | internal/fleet/application/render_compose.go:181-228 | a rendered service lists what it listed before, each volume as host path, colon, container path, each network by name, and nothing else |
| ComposeProperties.NetworksAtTopLevel | internal/fleet/application/render_compose.go:181-190 | the top level says of every attached network whether it is external, for two with one name as the later one |
| ComposeVariables.VariableTable.SyncEnvVariablesFromCompose | internal/fleet/application/scan_compose_variables.go:78-113 | env variables take the file's values, others are untouched, new ones are created; fails exactly on a new empty key, with part of the keys done |
| ComposeVariables.SyncTwice | internal/fleet/application/scan_compose_variables.go:63-66 | saving the same content again changes nothing |
| ComposeVariables.SyncKeepsOthers | internal/fleet/application/scan_compose_variables.go:66-73 | no variable disappears, and one of another type keeps its value |
| ComposeVariables.EntryWithoutKey | internal/fleet/domain/variable.go:69-71 | a list entry with an empty key is read as such and makes saving fail |
| ComposeVariables.ResolveEnvVars | internal/fleet/application/resolve_compose_variables.go:38-93 | the env variables of the file, and those of the global file under keys the file does not use |
| ComposeVariables.ResolvedKeyByKey | internal/fleet/application/resolve_compose_variables.go:49-81 | key by key, the file's own variable decides if there is one, and the global file's otherwise |
| ComposeVariables.DeployedEnvironmentExactly | internal/fleet/application/resolve_compose_variables.go:49-81 | for any service whose environment scans back (see ComposeProperties.ScanOfInjected), the deployed environment is the file's table of env variables exactly when the global file adds none and the table has what the service declares once filled in |
| ComposeVariables.DeployedEnvironmentIsTable | internal/fleet/application/compose_file.go:154-154 | after saving a one-service file without placeholders in the keys or values of its environment, which scans back (see ComposeProperties.ScanOfInjected), it is the table exactly when the global file adds none and no declared key is held by another type |
| ComposeVariables.ScalarEnvironmentDeployed | internal/fleet/application/render_compose.go:141-172 | a scalar environment is left alone, which is the table exactly when it has no env variable |
| ComposeVariables.EqualsKeyNotDeployed | internal/fleet/application/render_compose.go:142-159 | with a list environment and a variable whose key contains '=', the deployed environment is not the table |
| ComposeVariables.PlaceholderIsDeployedFilled | internal/fleet/application/render_compose.go:69-76 | with a placeholder in a declared value the table keeps the placeholder and the service gets the value |
| ComposeVariables.PlaceholderKeyIsDeployedFilled | internal/fleet/application/render_compose.go:69-76 | with a placeholder in a declared key the table has the placeholder for a key and the service the key filled in |
| Placeholders.UntouchedExactly | internal/fleet/application/render_compose.go:28-50 | substitution leaves a parsed value, its keys included, alone for all values of the variables exactly when it has no placeholder in its keys or values |
| ComposeVariables.ContentWins | internal/fleet/application/scan_compose_variables.go:63-76 | whatever the table says, a key a service declares is deployed with the content's value |
| Scrubbing.SecretValuesFor | internal/fleet/application/deploy_executor.go:223-231 | exactly the non-empty values, in any order |
| Scrubbing.ScrubSecrets | internal/fleet/application/deploy_executor.go:233-238 | one replacement after the other, each on what the last one left |
| Scrubbing.ScrubLeavesNoSecret | internal/fleet/application/deploy_executor.go:214-238 | in any order of non-empty secrets, none that is solid (no mask character at its ends, no whole mask inside) occurs anywhere in the scrubbed text, although later replacements edit what earlier ones left |
| Scrubbing.RemovedExactly | internal/fleet/application/deploy_executor.go:233-238 | one secret is removed from every text exactly when it is solid |
| Scrubbing.StreamedEqualsStored | internal/fleet/application/deploy_executor.go:175-189 | for secrets without a newline the scrubbed lines together are the scrubbed output |
| Scrubbing.StreamedEqualsStoredExactly | internal/fleet/application/deploy_executor.go:175-189 | for one secret, scrubbed lines and scrubbed output agree for every output exactly when the secret is a single line |
| Scrubbing.ScrubKeepsCleanText | internal/fleet/application/deploy_executor.go:233-238 | text in which no secret occurs is left as it is |
| Scrubbing.ScrubMasks | internal/fleet/application/deploy_executor.go:233-238 | where a secret first occurs eight bullets stand for it, and the text before is kept |
| ShellQuoting.QuoteIsOneWord | internal/fleet/application/deploy_executor.go:167-170 | a quoted text is read as itself and ends where the command around it goes on |
| ShellQuoting.ShellQuoteRoundTrip | internal/fleet/application/deploy_executor.go:252-254 | for every string, reading its quotation gives exactly one word equal to it |

## Left out

- HTTP handlers, gRPC transport, SQL text, row-level security and the organization scoping of every query.
- Columns no execution step reads: trigger, triggered-by, plan output, creation time of runs.
- Engine, configuration and credential lookups of a dispatch: one call with a free outcome (all found, something missing, an error).
- Permission, membership, existence and archival checks: arbitrary booleans.
- Calls that return an error are taken to have committed nothing; a call is one atomic step.
- Identifiers are numbers or strings of which only identity matters; UUID collisions do not happen for runs.
- Workspace, project and organization purge, which deletes rows under live runs on purpose.
- The worker's side of the protocol, and when a worker takes a command from its channel.
- Repositories.ControlPlane.Dispatch: the protocol sees a dispatch as one step that assigns the run or refuses; RegistryDispatch takes the registries' dispatches, in order, from its log of assignments.
- Repositories.ControlPlane.TryLock: every workspace has its row; the not-found error for a missing one is a failing call here.
- RegistryRuns.CommandsReachOnlyTheirWorker: the worker-instance heartbeat appears as an expiry that may happen at any time.
- AuditLog.Codec.CursorRoundTrip: timestamps, UUID text and base64 are taken as invertible codecs.
- AuditLog.AuditEntryRepository.Create: metadata, actor and target are one opaque text.
- YAML parsing and printing are taken as inverse to each other; the model starts at the parsed document, and a parse error is not part of it.
- ComposeRendering.ScanComposeEnvironment: which of several colliding services wins depends on the order of a Go map, so the value is some service's.
- ComposeVariables.VariableTable.SyncEnvVariablesFromCompose: storage errors are not modelled, only the refusal of an empty key.
- ComposeVariables.EqualsKeyNotDeployed: a list environment in which only a variable of the global file has a '=' in its key is not characterized.
- ComposeVariables.DeployedEnvironmentIsTable: a value that changes the structure of the YAML when it is filled in is not covered; for that ComposeVariables.DeployedEnvironmentExactly takes the filled-in document as it is.
- Compose documents use values for nested mappings; aliasing of the service maps is the `services` field that `Render` puts back.
- Idempotency.RunHandler: informational statuses and statuses that forbid a body are not treated specially.
- Idempotency.ReplayedWithinWindow: requests are taken one after the other here; IdempotencyRuns has them in flight at once.
- Scrubbing.RemovedExactly: the converse is about one secret; among several, one that is not solid may still always be destroyed by the others.
- Scrubbing.ScrubLeavesNoSecret: text is a sequence of characters, not of UTF-8 bytes.
- ShellQuoting.ShellQuoteRoundTrip: the reader gives up on expansions and on double quotes, which no quoted text reaches.
- Slugs of compose file names: distinct names can give the same slug.
- The deploy-operation claim, secret resolution, cryptography, configuration loading and the web client.
