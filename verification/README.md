# tg-conductor: verified model

tg-conductor schedules jobs for Telegram accounts and runs workflows. Between its
edges (Telegram, HTTP, the database driver) sit several small concurrent protocols
whose guarantees belong to no single function. This project models them and proves
those guarantees for every input, every interleaving and every run.

| file | what it covers |
|---|---|
| `Jobs.dfy` | the jobs table and every statement on it, including the two-phase claim |
| `JobProtocol.dfy` | the job lifecycle between ticks, dispatches, cancels and workers, one SQL statement, commit or queue operation at a time, with row locks |
| `JobRuns.dfy` | over runs of that protocol: which step may write which job, by which clock jobs start and are retired, whose queue and hands they get into |
| `Backlog.dfy` | how long a due job can wait behind others |
| `Dispatcher.dfy` | the dispatcher object, `trigger_now` and the startup spawn |
| `Reload.dfy`, `Dedup.dfy` | the single-flight reloader; the duplicate-name filter it runs |
| `EventBus.dfy`, `Stream.dfy` | the bounded bus, and the event log to SSE stream protocol with the registration point as a parameter |
| `Workflows.dfy`, `Sync.dfy` | workflow rows and the YAML reconciliation |
| `Inserts.dfy`, `Referential.dfy` | what all job-creating transactions share, and when a pending job can outlive its workflow |
| `Cron.dfy`, `CronTicks.dfy`, `CronRuns.dfy`, `CronHiding.dfy`, `CronOverlap.dfy` | cron catch-up, per tick and over any sequence of ticks; which occurrences are never created, and which twice when passes overlap |
| `TimeWindow.dfy`, `Daily.dfy`, `DailyRuns.dfy`, `DailyOverlap.dfy` | min-gap sampling over the reals, the daily expansion, its polling loop; expansions that overlap |
| `RunLog.dfy`, `RoundRobin.dfy` | the executor, the worker's run and event log, variant rotation |
| `Throttle.dfy`, `Supervisor.dfy`, `Forum.dfy` | throttle, task supervisor, forum paginator |
| `Base.dfy` | options, results, distinct and increasing sequences |

How the model is built. Objects the program mutates are classes; their methods are
proved against specification functions or predicates, and the theorems are about
those. Concurrent protocols are state machines over values: a run is any sequence of
enabled steps, each `await`, statement or transaction being one step, and theorems
quantify over all runs. Time is a real number. Clocks, random draws, the cron engine,
the duration token pattern, the window parser, step outcomes and server responses are
parameters, restricted only by what their contracts promise. Where code and contract
share a definition (which rows are due, which accounts are usable, what stops a run), a
theorem about the operation says what it comes to in columns, accounts, step outcomes or
clock times, without that definition.

What was found about the code, each with a proof:

- The comment at `tg_conductor/api/routes/runs.py:112-114` says the stream subscribes
  before paging. `subscribe` is an async generator, so the queue is registered at the
  first `__anext__` (line 167). Events published in between are never emitted
  (`Stream.LateRegistrationLosesAnEvent`; exactly which: `Stream.LiveExitMissesTheLost`).
  A run that finishes between the last page and the status check ends the stream without
  `run.finished` (`Stream.LateFinishIsNotEmitted`), which matters exactly when the
  reader's `since` was before it (`Stream.StatusExitIsAPrefix`). Order and absence of
  duplicates hold anyway.
- `tg_conductor/scheduler/cron_tick.py:8-14` promises a job for every missed slot. The
  anchor is the latest job of any origin, so a job fired by hand after a slot hides it
  (`CronHiding.FiredByHandHidesASlot`), and a workflow without jobs forgets what is older
  than the lookback. Over any ticks and any other jobs an occurrence is created exactly
  if some tick reaches it while it is in view (`CronHiding.CreatedExactly`); with no
  other jobs, exactly if it was in view at the first tick
  (`CronHiding.HiddenExactlyByLaterJobs`).
- `tg_conductor/scheduler/dispatcher.py:82` calls `tick_once` safe to call concurrently.
  Claims are, but two passes can create the same cron slot
  (`CronOverlap.OverlappingPassesCreateASlotTwice`): exactly if the later one read before
  the other had committed, the first slot after the later of their anchors had come for
  both, and the cap of the other reaches it (`CronOverlap.CreatedTwiceExactly`).
- `tg_conductor/scheduler/daily_expander.py:24-26` says overlapping expansions create no
  duplicates. They do exactly if two calls that have something to place both count zero
  before either commits (`DailyOverlap.OneCallExactly`).
- Jobs and workflows have no foreign key. A pending job always has its workflow exactly
  when no sync deletes a workflow between a transaction's read and its insert of a job for
  it (`Referential.OrphansExactly`); isolated transactions suffice, split ones do not.
- The supervisor can give up exactly if its window is longer than the back-offs it sleeps
  between that many crashes (`Supervisor.GivesUpExactly`). With the defaults the back-offs
  alone fill the window, so it never does; one crash less in the budget and it can.
- A minimum gap such as `0m` passes the schema's pattern but raises in the expansion,
  and the rollback takes the owner's whole day with it (`Daily.ZeroGapStopsTheDay`).

## Model

| member | source | states |
|---|---|---|
| Jobs.JobTable.CreatePending | tg_conductor/scheduler/repo.py:39-62 | inserts exactly one pending row under a new id; no other row changes |
| Jobs.JobTable.CreateRunning | tg_conductor/scheduler/dispatcher.py:139-150 | inserts one row that is running from the start |
| Jobs.JobTable.CancelPending | tg_conductor/scheduler/repo.py:108-124 | reports true exactly for a pending row of the owner, and then changes only its status and finish time |
| Jobs.JobTable.CancelPendingForWorkflows | tg_conductor/scheduler/repo.py:127-150 | cancels exactly the pending rows of the owner and the listed workflows, column by column, and returns how many |
| Jobs.JobTable.MarkFailed | tg_conductor/scheduler/repo.py:153-173 | writes status, reason, finish time and run, whatever the status was; well-stamped rows stay so if it was running |
| Jobs.JobTable.MarkSucceeded | tg_conductor/scheduler/repo.py:176-194 | writes status, finish time and run, whatever the status was; well-stamped rows stay so if it was running |
| Jobs.JobTable.SelectCandidates | tg_conductor/scheduler/repo.py:230-242 | distinct rows of the owner, pending, firing between cutoff and now, by fire time, as many as the limit and none left out fires earlier; ties in any order |
| Jobs.CandidatesAreFlipped | tg_conductor/scheduler/repo.py:246-257 | inside one transaction the claim flips exactly the selected rows and no others |
| Jobs.JobTable.ClaimDueJobs | tg_conductor/scheduler/repo.py:200-258 | reports exactly the owner's pending rows older than the window as skipped; each claimed row was the owner's, pending and due inside the window, and is now running since this claim; claimed ids come back each once, in any order |
| Jobs.ClaimChangesRows | tg_conductor/scheduler/repo.py:213-258 | the whole new table in columns: claimed rows were pending and due inside the window, too-old ones are retired, every other row is the same, and a due row is passed over only by a full batch that fires no later |
| Jobs.JobTable.CountForExpansion | tg_conductor/scheduler/repo.py:87-102 | zero exactly if no job of the workflow carries the date; otherwise how many do |
| JobProtocol.InvPreserved | tg_conductor/scheduler/repo.py:108-258 | every step of ticks, dispatches, cancels and workers keeps the invariant: places and running jobs correspond one to one, staged writes are legal first edges, queues hold no repeats |
| JobProtocol.RunningMeansOnePlace | tg_conductor/scheduler/dispatcher.py:83-99 | in every reachable state a job is running exactly when it is claimed and not yet enqueued, in one queue, in one worker's hands or abandoned, and only in one of them |
| JobProtocol.LifecycleOverRun | tg_conductor/scheduler/repo.py:108-194 | over any stretch of any run a job is never lost, keeps its identity, follows the lifecycle edges, and is frozen once terminal |
| JobProtocol.EdgeAtATime | tg_conductor/scheduler/models.py:30-50 | each step leaves a row alone or takes one of the edges pending to running, skipped, canceled and running to succeeded, failed |
| JobProtocol.EnqueuedAtMostOnce | tg_conductor/scheduler/dispatcher.py:98-99 | no two enqueue steps of a run, by any dispatchers, enqueue the same job |
| JobProtocol.TakenAtMostOnce | tg_conductor/scheduler/account_worker.py:101-115 | no two dequeue steps hand out the same job, so each job is executed at most once |
| JobProtocol.MarksFindRunningJobs | tg_conductor/scheduler/account_worker.py:207-238 | the unguarded terminal update always finds a running row of its own owner |
| JobProtocol.MarksNeverBlock | tg_conductor/scheduler/account_worker.py:207-238 | no tick ever holds a lock on a row that a worker has in hand |
| JobProtocol.CandidatesCanOverlap | tg_conductor/scheduler/repo.py:246-256 | two ticks can really select the same candidate, so the status double-check is needed |
| JobProtocol.QueuesGrowOverRun | tg_conductor/scheduler/dispatcher.py:68-74 | a queue only ever grows at the back and is taken from the front |
| JobRuns.WhatStepsWrite | tg_conductor/scheduler/repo.py:108-258 | in any run a stored row changes only so: cancels turn the caller's pending jobs, a worker marks the job in its hands, a commit starts or retires pending jobs of the dispatcher's owner |
| JobRuns.WhatStepsInsert | tg_conductor/scheduler/dispatcher.py:139-150 | a row is new only by a creation, a commit, or an immediate dispatch, which writes it running with its workflow and account |
| JobRuns.SkipRetiresAll | tg_conductor/scheduler/repo.py:213-227 | retiring leaves no too-old pending job of the owner in what the tick sees, and touches nothing else |
| JobRuns.SelectTakesTheDue | tg_conductor/scheduler/repo.py:230-244 | a tick selects due jobs of the owner from what it sees, passes one over only for a full list that fires no later, and goes on to claim just these |
| JobRuns.ClaimFlipsAll | tg_conductor/scheduler/repo.py:246-257 | claiming flips exactly the candidates that are still pending in what the tick sees |
| JobRuns.CommitsByTheClock | tg_conductor/scheduler/repo.py:213-258 | over the steps of a run: what a commit starts is stamped with the clock of its tick's retiring step and fires between cutoff and clock; what it retires is older than the cutoff |
| JobRuns.NothingStartsEarly | tg_conductor/scheduler/repo.py:230-257 | in any run no job starts before its fire time |
| JobRuns.QueuedForItsAccount | tg_conductor/scheduler/dispatcher.py:98-99 | whatever a queue has held is a job of the queue's account, put there by a tick of its dispatcher |
| JobRuns.HandsAreOfTheAccount | tg_conductor/scheduler/account_worker.py:101-115 | so a worker only ever holds jobs of its own account and dispatcher |
| JobRuns.TakenInOrder | tg_conductor/scheduler/account_worker.py:101-115 | of two jobs taken from a queue the first taken is ahead in the queue's history |
| Backlog.TickShrinksBacklog | tg_conductor/scheduler/repo.py:213-258 | a tick settles a due job or takes a full batch from in front of it |
| Backlog.BacklogBound | tg_conductor/scheduler/repo.py:230-258 | while the job waits, r ticks have removed r batches from in front of it |
| Backlog.BacklogDrains | tg_conductor/scheduler/repo.py:213-258 | a due job is settled within any ticks whose batches exceed the jobs ahead of it, for any breaking of ties, if none is inserted ahead |
| Backlog.SettledInTime | tg_conductor/scheduler/repo.py:213-258 | a pending job with k pending jobs of its owner firing no later is no longer pending within k / batch + 1 ticks |
| Dispatcher.Dispatcher.Put | tg_conductor/scheduler/dispatcher.py:68-74 | creates the account's queue on first use and appends to it |
| Dispatcher.Dispatcher.TickOnce | tg_conductor/scheduler/dispatcher.py:81-104 | one cron catch-up and one claim, with the created, claimed and skipped ids reported; each claimed job is the owner's, due inside the window at the claim's clock, running since then, and at the back of its own account's queue and no other; queues hold non-pending jobs of their account, each once |
| Dispatcher.Dispatcher.DispatchImmediate | tg_conductor/scheduler/dispatcher.py:108-153 | refused exactly for a missing, foreign or disabled workflow; otherwise one running row, enqueued once |
| Dispatcher.ForAccountKeepsOrder | tg_conductor/scheduler/dispatcher.py:98-99 | an account receives exactly its own claimed jobs, without repeats, in the order given |
| Dispatcher.TriggerNow | tg_conductor/scheduler/control.py:76-101 | refused exactly for a missing, foreign or disabled workflow; otherwise one pending row for that workflow's account |
| Dispatcher.StartupTracker.Consume | tg_conductor/triggers/startup.py:23-28 | true on the first call only |
| Dispatcher.SpawnStartupJobs | tg_conductor/scheduler/control.py:30-73 | on the first call one job for each enabled startup workflow and no others, all reported; later calls change nothing |
| Dispatcher.SpawnCreatesExactly | tg_conductor/scheduler/control.py:49-66 | in columns: exactly the owner's enabled startup workflows get a job, one each, pending and due now; stored rows stay |
| Reload.InvPreserved | tg_conductor/config_loader/reload.py:82-119 | every step of callers and tasks, failing executions and the self-await included, keeps the slot invariant |
| Reload.SingleFlight | tg_conductor/config_loader/reload.py:82-119 | at most one execution is active, and it is the one in the running slot |
| Reload.PendingIsFresh | tg_conductor/config_loader/reload.py:87-92 | a task in the pending slot has not begun executing |
| Reload.AnswersAreFresh | tg_conductor/config_loader/reload.py:82-93 | every caller's result comes from an execution that began after its call |
| Reload.CallsAreRequests | tg_conductor/config_loader/reload.py:82-93 | over the steps of a run: a call waits on a new task if nothing was running when it was made, else on the pending one |
| Reload.AnswersAreReturned | tg_conductor/config_loader/reload.py:82-119 | each finished call has its request, its task's first step of execution and the return of exactly its answer in the run, in this order |
| Reload.Coalesced | tg_conductor/config_loader/reload.py:90-92 | over any stretch, executions created equal those finished plus the change in occupied slots, however many calls arrive |
| Reload.NeverStuck | tg_conductor/config_loader/reload.py:95-119 | while a slot is occupied some task can take a step |
| Reload.Drains | tg_conductor/config_loader/reload.py:95-119 | once calls stop at most eight steps remain, after which both slots are empty and every caller is answered |
| Reload.PromotedBeforeItsFirstStep | tg_conductor/config_loader/reload.py:106-113 | a queued task can find itself in the running slot and go straight on to execute |
| Reload.Reloader.Reload | tg_conductor/config_loader/reload.py:82-93 | takes the request step; the returned task has not begun executing |
| Reload.Reloader.BeginRun | tg_conductor/config_loader/reload.py:95-97 | the first task starts executing at once, as the schedule step says |
| Reload.Reloader.ReadPrevious | tg_conductor/config_loader/reload.py:106-115 | waits for the running task, or executes at once exactly when that is itself |
| Reload.Reloader.Promote | tg_conductor/config_loader/reload.py:98-104 | moves pending to running and empties pending |
| Dedup.Deduplicate | tg_conductor/config_loader/reload.py:128-145 | returns exactly the first use of each name and an error for each later one, naming the first path |
| Dedup.DeduplicationKeepsFirstUses | tg_conductor/config_loader/reload.py:125-145 | kept entries are the first uses in order of loading; the clashes are the other uses in order, each with its own file and the file of the first use |
| EventBus.OfferKeepsBacklog | tg_conductor/runs/event_bus.py:38-48 | dropping the oldest keeps a queue a gap-free suffix of what was published, within its bound |
| EventBus.InMemoryEventBus.Subscribe | tg_conductor/runs/event_bus.py:50-52 | registers one new empty queue behind the others of its topic |
| EventBus.Subscription.Get | tg_conductor/runs/event_bus.py:54-56 | takes the oldest message and leaves a gap-free suffix |
| EventBus.InMemoryEventBus.Publish | tg_conductor/runs/event_bus.py:38-48 | every queue of the topic gets the message once, losing its oldest exactly if it is bounded and full; no other queue changes |
| Stream.InvPreserved | tg_conductor/api/routes/runs.py:111-183 | every step of writer, bus and reader keeps the invariant that accounts for each committed event |
| Stream.StreamIsOrdered | tg_conductor/api/routes/runs.py:119-183 | emitted seqs strictly increase for any page size, drops and lost writes, and any registration not ahead of the writer |
| Stream.StreamAsWrittenIsOrdered | tg_conductor/api/routes/runs.py:163-183 | registered where the code registers, the order needs no condition on `since` |
| Stream.StartSplitsTheLog | tg_conductor/runs/repo.py:105-115 | the model's start position is where seqs exceed `since` in the final log |
| Stream.HistoryExitIsComplete | tg_conductor/api/routes/runs.py:138-139 | a stream that ends inside the history has emitted exactly the events after `since` |
| Stream.StatusDecides | tg_conductor/api/routes/runs.py:146-151 | over the steps of a run: the status check ends the stream exactly if the run was marked terminal before it, else the drain starts |
| Stream.StatusExitIsAPrefix | tg_conductor/api/routes/runs.py:146-151 | a stream that ends on the status check emitted a prefix without run.finished, although the log has it; complete exactly when `since` was at or past run.finished |
| Stream.LiveExitMissesTheUnheard | tg_conductor/api/routes/runs.py:163-183 | a stream that ends live misses an event exactly when it was neither paged nor heard |
| Stream.LiveExitMissesTheLost | tg_conductor/api/routes/runs.py:115-183 | over the steps of the run: an event after `since` is missing exactly if it was committed after the last page and was published before the registration, dropped or never published |
| Stream.RegisteredFirstIsComplete | tg_conductor/api/routes/runs.py:112-183 | registered before the first page, with no overflow or lost publish, a live end means exactly the committed events after `since`, each once, in order |
| Stream.LateRegistrationLosesAnEvent | tg_conductor/api/routes/runs.py:115-167 | with the registration of the code a published event can be missing from a finished stream |
| Stream.LateFinishIsNotEmitted | tg_conductor/api/routes/runs.py:146-151 | the stream can end without emitting a committed run.finished |
| Stream.UnfairRegistrationBreaksOrder | tg_conductor/api/routes/runs.py:115-183 | registered early with `since` ahead of the writer, the stream can go backwards |
| Stream.EventStream.CatchUp | tg_conductor/api/routes/runs.py:119-141 | one page is emitted in order and remembered, the cursor is its last seq, and paging goes on exactly after a full page without run.finished; this is the machine's page step |
| Stream.EventStream.CheckStatus | tg_conductor/api/routes/runs.py:146-151 | closes on a terminal run, else starts draining |
| Stream.EventStream.Receive | tg_conductor/api/routes/runs.py:175-183 | a message already paged is dropped, any other emitted; run.finished closes |
| Sync.Validate | tg_conductor/config_loader/sync.py:69-76 | the last workflow of each name whose account exists, is the owner's and is not disabled, and the names of all others |
| Sync.ValidExactly | tg_conductor/workflows/validate.py:25-56 | a name is valid exactly if some workflow of it has an account that is there, the owner's and not disabled, with the last such; it has failed exactly if some workflow of it has another |
| Sync.UpsertBySource | tg_conductor/workflows/repo.py:60-98 | inserts, updates in place, or fails exactly where a row of another source has the name |
| Sync.WorkflowTable.SyncToDb | tg_conductor/config_loader/sync.py:46-116 | fails exactly on a name clash with another source, leaving tables unchanged; otherwise the reconciled rows, the report and the cancelled jobs, all at once |
| Sync.ClashExactly | tg_conductor/workflows/repo.py:60-91 | a sync fails exactly on an accepted workflow whose name the owner has from the API |
| Sync.WrittenExactly | tg_conductor/config_loader/sync.py:65-93 | reported as created or updated are exactly the names with an accepted account, updated if the owner had them from YAML; as invalid those with a refused one |
| Sync.DeletedExactly | tg_conductor/config_loader/sync.py:95-105 | reported as deleted are exactly the owner's YAML rows that no desired workflow names |
| Sync.RowExactly | tg_conductor/config_loader/sync.py:65-105 | what becomes of each stored row, column by column: untouched, the content of the last accepted workflow of its name, kept for a refused one, or deleted |
| Sync.NewRowExactly | tg_conductor/workflows/repo.py:72-84 | a new row is the last accepted workflow of a name the owner did not have, with a counter of zero |
| Sync.AcceptedIsStored | tg_conductor/config_loader/sync.py:83-93 | every accepted name has a row of the owner afterwards |
| Sync.WorkflowTable.BumpRrCounter | tg_conductor/workflows/repo.py:117-137 | returns the incremented counter, or nothing for a missing or foreign row |
| Sync.DeleteMissing | tg_conductor/config_loader/sync.py:97-105 | deletes exactly the owner's YAML rows that are neither valid nor kept for failing validation |
| Sync.FinalYamlRows | tg_conductor/config_loader/sync.py:65-105 | after a sync a YAML row of a name exists exactly if the name is valid, or failed validation and had a row |
| Sync.ValidContentIsStored | tg_conductor/workflows/repo.py:92-98 | the stored content is the desired one; an updated row keeps id, name, source and round-robin counter |
| Sync.OthersUntouched | tg_conductor/config_loader/sync.py:78-81 | rows of other owners and API rows are the same rows before and after |
| Sync.SyncIsIdempotent | tg_conductor/config_loader/sync.py:46-116 | repeating a sync changes no row and reports nothing created or deleted |
| Sync.OutcomesPartitionNames | tg_conductor/config_loader/sync.py:69-93 | with distinct names, valid and failed names partition the desired ones |
| Referential.SyncLeavesNoOrphans | tg_conductor/config_loader/sync.py:97-114 | a sync removes a workflow only together with its pending jobs |
| Referential.StepLeavesNoOrphans | tg_conductor/scheduler/hooks.py:19-24 | from an orphan-free state only an insert can leave an orphan, and it does exactly if one of its jobs has no workflow left |
| Referential.OvertakenExactly | tg_conductor/scheduler/expander.py:56-100 | an insert finds all its workflows exactly if no sync since its read deleted one it inserts a job for |
| Referential.InsertedWereEnabled | tg_conductor/scheduler/expander.py:55-100 | a job is inserted only for a workflow that was its owner's and enabled at the read, and for its account |
| Referential.OrphansExactly | tg_conductor/scheduler/control.py:49-65 | over a run no pending job is ever without its workflow exactly if no sync deletes a workflow between a transaction's read and its insert of a job for it |
| Referential.PendingJobsHaveWorkflows | tg_conductor/scheduler/expander.py:56-100 | with isolated creating transactions every pending job's workflow exists under the job's owner, throughout every run |
| Referential.OvertakenInsertLeavesAnOrphan | tg_conductor/scheduler/cron_tick.py:54-86 | without isolation an orphan is reachable |
| Inserts.BatchFills | tg_conductor/scheduler/repo.py:39-62 | a batch of inserts gives its workflow one job per slot and no other workflow any |
| Cron.LastFireAt | tg_conductor/scheduler/cron_tick.py:103-107 | the latest fire time over all jobs of the workflow, nothing if there are none |
| Cron.SlotExtends | tg_conductor/triggers/cron.py:15-29 | the least occurrence after the last slot extends the gap-free block, or the block is complete |
| Cron.CatchUp | tg_conductor/scheduler/cron_tick.py:74-90 | inserts one job for each of the first `cap` occurrences after the anchor up to now, in order and without a gap |
| Cron.Tick | tg_conductor/scheduler/cron_tick.py:35-100 | every enabled cron workflow of the owner catches up from its own anchor; nothing else is inserted or changed; the report lists the new ids |
| CronTicks.TickCreatesExactly | tg_conductor/scheduler/cron_tick.py:54-90 | in columns: a tick adds a job at an instant for a workflow exactly if that is the owner's, enabled and has a cron trigger, and the instant has come and is among the next `cap` occurrences after its latest job or the lookback; stored rows stay |
| CronTicks.AddedJobs | tg_conductor/scheduler/cron_tick.py:80-86 | added jobs are pending, undated and of their workflow's account, no two for one workflow and instant |
| CronTicks.TickOnceCreatesExactly | tg_conductor/scheduler/cron_tick.py:35-43 | so a dispatcher tick adds exactly those that have come of the next sixty occurrences after the latest job, or after two minutes ago without one |
| CronRuns.TickIsRound | tg_conductor/scheduler/cron_tick.py:64-90 | a tick acts on a workflow's fire times as one round of the run model |
| CronRuns.CreatedTimesIncrease | tg_conductor/scheduler/cron_tick.py:64-90 | over any ticks, with any other jobs in between, created times are occurrences and strictly increase |
| CronRuns.QuietResumes | tg_conductor/scheduler/cron_tick.py:64-90 | with no other jobs each tick resumes exactly after the last created slot |
| CronRuns.CreatedIsContiguous | tg_conductor/scheduler/cron_tick.py:71-90 | with no other jobs the created slots are a contiguous block after the first creating tick's anchor, complete to now unless the cap was hit |
| CronRuns.NothingIsSkipped | tg_conductor/scheduler/cron_tick.py:64-69 | if ticks are at most the lookback apart until the first job, no occurrence after the first tick's anchor is skipped |
| CronRuns.HeldBackOnlyByCap | tg_conductor/scheduler/cron_tick.py:76-90 | an occurrence not yet created has a full batch created before it in every tick |
| CronRuns.CapOnlyDelays | tg_conductor/scheduler/cron_tick.py:71-97 | with k occurrences in front an occurrence is created within k / cap + 1 ticks |
| CronHiding.SlotExactly | tg_conductor/scheduler/cron_tick.py:76-90 | a tick creates exactly those of the next `cap` occurrences after its anchor that have come |
| CronHiding.CreatedExactly | tg_conductor/scheduler/cron_tick.py:64-90 | over any ticks and any other jobs an instant is created exactly if some tick finds it come, among the next `cap` occurrences, with no job at or after it and, without jobs, inside the lookback |
| CronHiding.HiddenForGood | tg_conductor/scheduler/cron_tick.py:103-107 | from the first tick that finds a job at or after an instant on, that instant is never created |
| CronHiding.HiddenExactlyByLaterJobs | tg_conductor/scheduler/cron_tick.py:64-90 | with no other jobs after the start and enough ticks an occurrence is created exactly if at the first tick no job was at or after it and, without jobs, it was inside the lookback |
| CronHiding.FiredByHandHidesASlot | tg_conductor/scheduler/cron_tick.py:64-69 | a concrete slot that a tick creates, and passes over once a later job was fired by hand |
| CronOverlap.ShareExactly | tg_conductor/scheduler/cron_tick.py:64-90 | two ticks, whatever each has seen of the other, create a common slot exactly if the first slot after the later anchor has come for both and is among the next `cap` of the other |
| CronOverlap.NoDuplicatesExactly | tg_conductor/scheduler/cron_tick.py:64-90 | over any list of ticks no instant is created by two of them exactly if no two meet that condition |
| CronOverlap.SequentialTicksNeverCollide | tg_conductor/scheduler/cron_tick.py:103-107 | ticks that see what earlier ones created never meet it, so they create no instant twice |
| CronOverlap.CreatedTwiceExactly | tg_conductor/scheduler/dispatcher.py:81-89 | in any run of passes cut into read, inserts and commit, with rollbacks and other inserts, two committed passes share a slot exactly if the later one read before the other committed and they meet the condition |
| CronOverlap.NothingCreatedTwiceExactly | tg_conductor/scheduler/dispatcher.py:81-89 | so a run creates nothing twice exactly if no two overlapping passes meet it |
| CronOverlap.OverlappingPassesCreateASlotTwice | tg_conductor/scheduler/dispatcher.py:81-89 | a concrete run: passes at 11.5 and at 12, both reading before either inserts, both create the slot at 11 |
| TimeWindow.ParseDuration | tg_conductor/triggers/duration.py:16-25 | total of hours, minutes and seconds, positive; an error exactly when no token has a positive amount |
| TimeWindow.DurationsAdd | tg_conductor/triggers/duration.py:12-25 | durations add up over tokens; a token is worth its amount in seconds, sixty of them in minutes, sixty of those in hours |
| TimeWindow.SortSorts | tg_conductor/triggers/time_window.py:96 | the sorted draws are a permutation of the draws |
| TimeWindow.FeasibleIsLargest | tg_conductor/triggers/time_window.py:79-80 | no min-gap schedule in the window has more times than the feasible count |
| TimeWindow.ReducedIsMin | tg_conductor/triggers/time_window.py:77-93 | the count placed is the smaller of the sampled and the feasible count, and leaves free space |
| TimeWindow.ExpandIsSpaced | tg_conductor/triggers/time_window.py:37-100 | for every draw: times inside the window, none past, spaced by the gap, at most the sampled count and no such times are more; none once the window has closed; an error exactly for a gap without length while it is open |
| TimeWindow.ExpandFailsExactly | tg_conductor/triggers/time_window.py:61-76 | it fails exactly with something to place in the remaining window and no positive amount among the gap's tokens |
| TimeWindow.EveryScheduleIsReachable | tg_conductor/triggers/time_window.py:95-100 | any times inside the window, not past and spaced, if no more could be placed, are the outcome of some draws |
| Daily.InsertAll | tg_conductor/scheduler/expander.py:89-99 | one dated pending job for each time, on consecutive ids |
| Daily.ExpandDaily | tg_conductor/scheduler/expander.py:37-111 | each workflow without jobs for the date gets exactly its schedule, no other any; an error exactly if one of them still has its window open, something to place and no positive amount in its gap, and then nothing changes |
| Daily.DayCreatesExactly | tg_conductor/scheduler/expander.py:55-100 | in columns: only an enabled window workflow of the owner without a job for the date gets jobs, pending and dated, at times that fit its window and gap, as many as its count asks for or as can fit; stored rows stay |
| Daily.ExpansionFailsExactly | tg_conductor/triggers/duration.py:20-25 | for a workflow to expand, the expansion raises exactly on an open window, a positive count and a gap without a positive amount |
| Daily.ZeroGapStopsTheDay | tg_conductor/scheduler/expander.py:61-100 | a concrete day: a workflow with a gap of zero minutes fails it also for the sound workflow beside it |
| DailyRuns.TicksKeepDates | tg_conductor/scheduler/dispatcher.py:81-96 | a dispatcher tick never touches or adds a dated job |
| DailyRuns.SingleOperationsKeepDates | tg_conductor/scheduler/repo.py:39-194 | nor does a trigger by hand, an immediate dispatch, a cancel or a terminal mark |
| DailyRuns.SpawnKeepsDates | tg_conductor/scheduler/control.py:53-66 | nor does the startup spawn |
| DailyRuns.ExpansionCreatesAllOrNothing | tg_conductor/scheduler/expander.py:61-100 | a call leaves a workflow's jobs of a date alone or is the one that creates them all |
| DailyRuns.OneCallPerDate | tg_conductor/scheduler/expander.py:61-100 | over any run all jobs of a workflow and date come from one expand call |
| DailyOverlap.ExpansionIsACall | tg_conductor/scheduler/expander.py:61-100 | an expansion in one piece is a count and a commit with nothing in between |
| DailyOverlap.StepKeepsInv | tg_conductor/scheduler/expander.py:61-100 | counts, commits, rollbacks and other transactions keep the account of which call made each dated job, and a zero count means that no call committed before it had made one |
| DailyOverlap.OneCallExactly | tg_conductor/scheduler/daily_expander.py:103-117 | in any run of overlapping calls all jobs of a workflow and date are one call's schedule, each slot once, exactly if no two calls with something to place both count zero before either commits |
| DailyOverlap.OverlappingCallsExpandTwice | tg_conductor/scheduler/daily_expander.py:103-117 | a concrete run: two calls give two jobs to a workflow that asks for one a day |
| DailyRuns.JobsOfADateAreSpaced | tg_conductor/scheduler/expander.py:73-99 | so their fire times stay pairwise at least that call's minimum gap apart |
| DailyRuns.DailyExpander.PollOnce | tg_conductor/scheduler/daily_expander.py:127-140 | one turn runs the expansion when due, and marks the day exactly if no workflow of the day fails |
| DailyRuns.DailyExpander.Loop | tg_conductor/scheduler/daily_expander.py:125-146 | under nondecreasing days each day is expanded at most once, and exactly if some poll past the hour succeeds |
| RoundRobin.SelectSteps | tg_conductor/actions/executor.py:175-205 | plain steps, the random variant, or variant counter mod n of the stored counter, the first if the row is gone; the counter is bumped by one when it selects and untouched otherwise |
| RoundRobin.PicksAreConsecutive | tg_conductor/actions/executor.py:182-196 | reloads and switches do not move the rotation |
| RoundRobin.EveryVariantGetsItsShare | tg_conductor/workflows/repo.py:129-137 | over any m consecutive picks of n variants each is picked m / n times, rounded down or up |
| RunLog.ActionContext.Emit | tg_conductor/actions/context.py:124-148 | takes a new number before writing; a cut leaves the log with or without the event, never with a repeated number |
| RunLog.AttemptStep | tg_conductor/actions/executor.py:100-152 | logs the step's events in order, all of them or, if cut off, the first few |
| RunLog.RunSteps | tg_conductor/actions/executor.py:99-167 | attempted steps are a prefix ending at the first stopping failure; success exactly if there is none; errors listed in order; the timeout strikes exactly when the awaits run out |
| RunLog.StopsExactly | tg_conductor/actions/executor.py:117-152 | no attempted step but the last failed without continue_on_error; a run that returned early ended at such a failure; success exactly if all steps were attempted and only steps with continue_on_error failed |
| RunLog.ErrorsExactly | tg_conductor/actions/executor.py:131-149 | the step errors are those of the attempted steps that timed out or raised, with their texts, in order |
| RunLog.EventsExactly | tg_conductor/actions/executor.py:106-147 | the logged events are exactly the delays, action events and failures of the attempted steps, each once, in the order of the steps |
| RunLog.Execute | tg_conductor/actions/executor.py:94-167 | the attempted steps are those the plan selects, with the counter bumped as that says; they run as above; the job timeout strikes exactly when the awaits, selection included, exceed what is left |
| RunLog.RunTable.MarkFinished | tg_conductor/runs/repo.py:61-85 | finishes a run only while it is running |
| RunLog.StepsDoNotBracket | tg_conductor/actions/executor.py:94-167 | no step emits run.started or run.finished |
| RunLog.Perform | tg_conductor/scheduler/account_worker.py:149-197 | the log has increasing numbers, starts with run.started, ends with the one run.finished, and in between holds what was executed |
| RunLog.HandleJob | tg_conductor/scheduler/account_worker.py:117-238 | a missing workflow fails the job without a run; otherwise the steps come from the workflow's plan, its counter is all that changes in the workflow table, and run, job and log end with the same outcome for every script and cut |
| RunLog.MarkedExactly | tg_conductor/scheduler/account_worker.py:190-238 | what the job row becomes, column by column, for a success, a failure, the job timeout and an escaped error |
| RunLog.OutcomeIsRecordedOnce | tg_conductor/scheduler/account_worker.py:190-204 | job status and the only run.finished agree, with the cause; success means every step was attempted and each failed one may be continued from, a returned failure that the last attempted one may not |
| Throttle.StepKeepsInv | tg_conductor/tg_core/throttle.py:45-73 | every step of every caller keeps lock, log, timing and retry budget consistent |
| Throttle.CallsNeverOverlap | tg_conductor/tg_core/throttle.py:48-58 | executions of fn never overlap under any interleaving |
| Throttle.CallsAreSpaced | tg_conductor/tg_core/throttle.py:50-73 | each start is at least the interval after every earlier success or FloodWait, and after a retried FloodWait its seconds plus padding |
| Throttle.RestIsServed | tg_conductor/tg_core/throttle.py:50-73 | over the steps of a run: after fn returned or raised a FloodWait nobody's invocation begins before the interval is over, and after a retried FloodWait not before the seconds the server asked for and the padding |
| Throttle.SleepsExactly | tg_conductor/tg_core/throttle.py:50-73 | and no longer: a pause ends the interval after the last return or FloodWait, crashes not counted, a back-off exactly the asked seconds, if positive, and the padding after the caller's own FloodWait |
| Throttle.GivesUpExactly | tg_conductor/tg_core/throttle.py:60-63 | a FloodWait reaches the caller exactly if fn has been invoked max_retries + 1 times |
| Throttle.RetriesAreBounded | tg_conductor/tg_core/throttle.py:46-63 | one call invokes fn at most max_retries + 1 times |
| Throttle.AccountThrottle.Call | tg_conductor/tg_core/throttle.py:40-73 | an uncontended call: every invocation recorded as fn went, each retry after interval, asked seconds and padding, all but the last retried FloodWaits, and it gives up on a FloodWait only with the retries used up |
| Supervisor.CarriedListIsWindow | tg_conductor/api/lifespan.py:259-260 | pruning the carried list equals filtering the whole crash history |
| Supervisor.Supervise | tg_conductor/api/lifespan.py:249-275 | crashes at the times the runs and back-offs add up to, and gives up exactly at the first crash with more than the budget inside the window, which needs a window longer than that many back-offs |
| Supervisor.GiveUpAlong | tg_conductor/api/lifespan.py:249-275 | every series of crashes paced by the back-offs that exceeds the budget is one the supervisor goes through: fed the runs between its crashes it repeats the series up to the first excess and gives up there |
| Supervisor.GivesUpExactly | tg_conductor/api/lifespan.py:258-275 | for every window and budget some series of crashes makes it give up exactly if the budget is zero or the back-offs between budget + 1 crashes are shorter than the window |
| Supervisor.DefaultsNeverGiveUp | tg_conductor/api/lifespan.py:240-241 | the instance of the defaults: 2, 4, 8, 16 and 30 seconds of back-off keep a sixth crash out of the window |
| Supervisor.BackoffDoubles | tg_conductor/api/lifespan.py:271-275 | the back-off starts at two seconds and doubles up to thirty |
| Supervisor.SmallerBudgetGivesUp | tg_conductor/api/lifespan.py:261-269 | the instance of one crash less in the budget: it can be exceeded |
| Forum.ReadPage | tg_conductor/tg_core/_kurigram_patches.py:72-78 | the parsed topics of a page with new ids, each id once |
| Forum.AllNewKeepsEachIdOnce | tg_conductor/tg_core/_kurigram_patches.py:72-78 | over any responses each id sent is kept once and nothing else is |
| Forum.CursorExactly | tg_conductor/tg_core/_kurigram_patches.py:80-99 | paging goes on from the last entry of a response whose id was new, by its top message's date, that message and the topic id, and ends exactly if there is no such dated entry |
| Forum.AskedExactly | tg_conductor/tg_core/_kurigram_patches.py:44-60 | each request is for what is still wanted, a hundred at most |
| Forum.GetForumTopics | tg_conductor/tg_core/_kurigram_patches.py:31-99 | terminates for finitely many ids; yields the first occurrences up to the limit, stops early only at a dead end, and asks each page from the right cursor |

## Left out

- Telegram, OpenAI, FastAPI, CLI, logging, YAML, Pydantic, AES-GCM and SSE framing: edges without protocol content.
- Regular expressions, croniter, window parsing, time zones and daylight saving: functions with a stated contract; a cron expression with no further occurrence, which makes croniter raise, is excluded.
- Floating-point rounding and microsecond truncation: times are reals; asyncio sleeps never wake early.
- Task cancellation other than the job and step timeouts, process crashes, and jobs left `running` by them: the code has no recovery path.
- `JobProtocol`: the database is read-committed with row locks; SQLite's single writer gives a subset of these interleavings.
- CronRuns.CreatedTimesIncrease: ticks are one after the other; `CronOverlap.NothingCreatedTwiceExactly` says when overlapping passes create nothing twice.
- DailyRuns.OneCallPerDate: expansions are one after the other; `DailyOverlap.OneCallExactly` covers overlapping ones.
- Reuse of SQLite row ids after a delete: new ids are never old ones in the model.
- A file that fails to parse is simply absent from the desired workflows, so its row is deleted; the parser itself is not part of this model.
- Stream.StatusExitIsAPrefix: a run that is missing for the owner ends the stream like a terminal one; it is not modelled apart, its history being empty.
- Disconnecting clients, keep-alive frames and unsubscribing from the bus: they change neither order nor content.
- Failures of the worker's own writes: they lose events as a cut does, and a handler that raises is the abandoned place of the job protocol; the log theorems assume run.started, run.finished and the terminal update succeed.
- Extras, matched messages and variant labels handed between steps: plain data flow.
- RunLog.StepsDoNotBracket: assumes of the actions that they emit no run.started or run.finished, as all of them emit `action.` events.
- DailyRuns.DailyExpander.Loop: whether a poll would succeed is part of the poll; `PollOnce` says when that is.
- Throttle.AccountThrottle.Call: finds the lock free each time; contention is in the state machine.
- TTL purge of events, account status, usage, pricing, update modes, proxies and message matching: one query or one branch each.
