# A verified model of the task scheduler

The repository is a small distributed scheduler: a server keeps tasks in one SQLite
table, workers pull due tasks, execute them and report back, and a cron scheduler
inserts one-shot children of recurring definitions. This project models that system in
Dafny and proves what holds of it over whole runs.

## How the model is laid out

- `Tasks`, `Lifecycle`: the row, and what each transaction does to the rows, as functions.
- `Store`: the store as a class; every method computes its `Lifecycle` function in place,
  with the table scans as loops in rowid order.
- `Protocol`: the table, the cron entries and the executions in flight (tokens), moved by
  one event at a time under a monotone clock. A run is a list of steps, so counts such as
  "claims of this id" are functions of the run and not extra state.
- `History`: a second account of the rows, from the events alone, and the proof that it is
  the same.
- `Ownership`, `Conservation`, `Bypass`, `Finality`, `Pause`, `Drain`: theorems about
  every run of the protocol.
- `Pool`, `Worker`: a worker process, as steps between two synchronisation points and as a
  class that computes them and records its run; `Fleet` puts the server, any number of
  workers and the messages between them together and proves that the whole refines the
  protocol; `StopDelivery` follows a stop from the table to the execution it is meant for,
  and `StopLimits` says exactly when it gets there; `EndToEnd` follows a command from the
  request to the execution and its outcome back; `DrainLoop` is one slot run against the
  store.
- `Server`, `Scheduler`: the handlers and the cron scheduler over the store and the lock.
- `Lease`, `RateLimiter`, `Registry`, `Filters`, `Paging`, `PageBar`: the components around
  the table, each with its own runs or its own reference meaning.

## Conventions

- A transaction is one atomic step at one instant: the pool has a single connection
  (`internal/store/store.go:44`). The shutdown of all cron work is two events. Calls of the
  lock are atomic, and so is a spawn with respect to a resync. Time in the table is an
  integer number of nanoseconds; the rate limiter computes in minutes over the reals.
- `Valid` runs let anyone send any report, as the result endpoint does. `Honest` adds that
  reports carry a worker id. `Disciplined` adds one report per claim and restarts only of
  rows with no execution in flight, which an operator can tell from an empty worker_id.
  Each theorem names the weakest of these it needs, and `Fleet` proves that the worker code
  supplies everything but the restart rule.
- An execution whose context was cancelled, by a stop or by its timeout, reports with that
  cancelled context (`internal/worker/pool.go:264`, `internal/worker/pool.go:285`), so it
  ends as a lost token. A report sent in time may still arrive after its client has given
  up, and so may a claim (`Fleet.Message`).

## Where the code and its comments differ

The model follows the code.

- The terminal branch of ReportResult has no status guard, so a second report from the
  owner rewrites an outcome (`Finality.LateReportIsHarmlessIff`); outcomes are final only
  under the discipline, and a restart of a row whose execution is still about breaks it
  (`Finality.RestartHypothesisIsNeeded`; `Finality.RestartIsSafeIff` has the exact
  condition).
- `internal/worker/pool.go:331-333` expects a sweep to recover a running row whose report
  was lost. There is none (`Drain.LostExecutionIsNotRecovered`), so a table drains by itself
  only as far as its executions live (`Drain.ProgressIsPossibleIff`).
- A report with an empty worker id can finish a pending row
  (`Ownership.PendingRowIsSafeIff`).
- The retry delay grows linearly per retry, so the total is quadratic; `README.md:47` of the
  repository calls it exponential.
- `internal/model/task.go:31-34` says the server never takes a cron row past pending. It does
  so exactly when somebody stops the row by hand (`Pause.DefinitionStaysPendingIff`,
  `Pause.DefinitionCanBeStopped`), and a row so stopped goes on spawning while it is enabled
  (`Pause.StoppedDefinitionStillSpawns`).
- The map of cancel functions is keyed by task id alone: an execution that leaves removes
  the cancel function of another one of the same task, which a stop then misses, also when
  every restart is careful (`StopLimits.StopCanMissAnExecution`).
  `Pool.RegistrationIsStoppableIff` gives the exact condition for a worker that may be sent
  any list, and `StopLimits.CleanIsExact` for a worker in a fleet, over the lists its server
  can send.
- The page bar includes the last page only while the current page is at most two past it
  (`PageBar.BarIsCompleteIff`); `renderUI` does not clamp the page it is asked for.
- Two cron ticks of one name in the same millisecond carry the same lock token and both
  enter, and so does one that comes after the first outstayed its lease
  (`Lease.OverlapEntersIff`).
- `itoa` is wrong for the least 64-bit integer and for no other (`PageBar.Itoa`).

## Model

| member | source | states |
|---|---|---|
| Protocol.RowCases | internal/store/store.go:170-604 | A row that survives a step is left alone, stopped, restarted, claimed or reported by its owner; nothing else happens to it |
| Protocol.NewRows | internal/store/store.go:132-151 | Rows appear only under the next id, by a creation or a spawn, in the initial shape |
| History.RowIsItsHistory | internal/store/store.go:132-604 | In every run, under arbitrary reports, each of the sixteen columns of each row is what the events of its history wrote last: the work from its birth, the status, owner, result, due time and timestamp from the last event that sets them, the retry count from the failures, the flag from the last switch |
| History.EnabledIsTheLastSwitch | internal/store/store.go:170-203 | A row is enabled exactly when its last switch since it was made, by hand or in a shutdown, turned it on, or there was none |
| History.SwitchSetsOneFlag | internal/store/store.go:177-181 | A switch sets the flag to what was asked, and no other row's |
| History.SwitchDecidesTheEntry | internal/server/scheduler.go:79-127 | After a switch and a resync a definition has its entry, and may spawn, exactly when it was switched on |
| History.FailureIsRetried | internal/store/store.go:570-598 | A failure of a running row with retries left makes it pending, detached, with the output, one more retry, and due 5 seconds per retry later |
| History.RetryIsDueExactly | internal/store/store.go:588-594 | An unfinished task that was never restarted is due exactly 5k seconds after its k-th failure, or when it was created |
| History.PullAnswersIff | internal/store/store.go:489-530 | A pull can be given a row exactly when the row is one-shot, pending, due, and no due row comes earlier, and nothing exactly when no row is due |
| History.ChildrenDoTheDefinitionsWork | internal/server/scheduler.go:101-127 | A spawned row carries the command, retries and timeout of the request that created its definition, the definition's id as parent, and the tick in its name |
| Store.Store.Create | internal/store/store.go:132-151 | Inserts under a fresh id, fills the timestamps, defaults next_run_at to now, forces enabled |
| Store.Store.SetEnabled | internal/store/store.go:170-203 | Sets the row's flag to what was asked, no other row's, and, when pausing, stops exactly its pending and running children; an unknown id changes nothing |
| Store.Store.StopAllCron | internal/store/store.go:398-415 | Disables every definition, then, at its own instant, stops every child in flight, and returns how many of each there were |
| Store.Store.StopTask | internal/store/store.go:421-434 | Stops a pending or running row of any type; anything else is not found |
| Store.Store.ResumeTask | internal/store/store.go:438-451 | Returns a stopped row to pending, detached and due now; anything else is not found |
| Store.Store.GetStopList | internal/store/store.go:456-472 | Lists exactly the stopped rows attached to the worker, each once |
| Store.Store.ClaimPending | internal/store/store.go:489-530 | Claims an earliest due pending one-shot row, or nothing when nothing is due |
| Store.Store.ReportResult | internal/store/store.go:535-604 | Applies the owner's report: detach when stopped, otherwise success, dead or a retry due in exactly 5 seconds per retry; errors change nothing |
| Store.Store.ListCron | internal/store/store.go:371-390 | Returns exactly the enabled cron rows |
| Store.Store.List | internal/store/store.go:319-351 | Returns the requested stretch of the filtered rows, newest first; a limit outside 1 to 500 is 100 and a negative offset 0 |
| Store.Store.Count | internal/store/store.go:355-366 | Counts exactly the rows List ranges over |
| Ownership.TableInvariant | internal/store/store.go:132-604 | In every reachable table pending rows have no owner, running and finished rows have one, failed is never written, dead rows exhausted their retries, cron rows are pending or stopped and unowned, and parents are cron rows with smaller ids |
| Ownership.OwnerIsLatestClaimer | internal/store/store.go:484-530 | The owner of a running, success or dead row, and any attached worker, is the worker of the latest claim |
| Ownership.IdsAreNeverReused | internal/store/store.go:78-96 | A deleted id never comes back |
| Ownership.OutcomeSetIsNeverLeft | internal/store/store.go:535-604 | Under arbitrary reports a success or dead row stays success or dead until deleted |
| Ownership.StopTakesPrecedence | internal/store/store.go:558-568 | Under arbitrary reports a stopped row stays stopped, with the same result, until restarted or deleted |
| Ownership.PendingRowIsSafeIff | internal/store/store.go:552-598 | A pending row cannot be disturbed by a reporter, whatever it sends, exactly when the reporter's worker id is not empty |
| Conservation.ExecutionsBalance | internal/store/store.go:421-604 | Claims plus stops-from-pending plus one if pending equals one plus retries plus restarts; retry_count equals the retries of an unfinished row and retries never exceed max(0, max_retry) |
| Conservation.ClaimsAreBounded | internal/store/store.go:489-604 | A task is claimed at most 1 + max(0, max_retry) + restarts times |
| Conservation.ClaimsAreSeparated | internal/store/store.go:489-604 | Between two claims of an id lies a retry or a restart |
| Conservation.DeletedIsOver | internal/store/store.go:156-159 | No claim, retry, restart or stop is counted for a deleted id |
| Conservation.BackoffIsQuadratic | internal/store/store.go:588-594 | The retry delays add up to 5k(k+1)/2 seconds |
| Conservation.RetriesAreSpaced | internal/store/store.go:570-594 | In a task that is never restarted each retry is scheduled, and runs, no earlier than the summed delays after the first claim |
| Conservation.ClaimBacksOffQuadratically | internal/store/store.go:496-594 | The claim at retry_count k comes at least 5k(k+1)/2 seconds after the first claim |
| Conservation.DeathTakesQuadraticTime | internal/store/store.go:570-598 | A never restarted task with M retries is not dead before 5M(M+1)/2 seconds after its first claim |
| Bypass.QueueNeverGrows | internal/store/store.go:496-530 | While an overdue task waits, the set scheduled no later never grows, shrinks with each successful claim, and no claim comes back empty |
| Bypass.OverdueTaskIsServed | internal/store/store.go:496-530 | An overdue task that is not stopped or deleted is claimed within as many successful claims as that set had members |
| Finality.TokenInvariant | internal/store/store.go:484-604 | In disciplined runs each task has at most one execution in flight, held by the row's owner, on a running or stopped row |
| Finality.IdleRowsHaveNoToken | internal/store/store.go:484-604 | Pending and finished rows have no execution in flight |
| Finality.OutcomeIsFinal | internal/store/store.go:535-604 | In disciplined runs a success or dead row never changes status, result, retry_count or owner again |
| Finality.OutcomeIsTheLastVerdict | internal/store/store.go:570-598 | In any run a finished row shows the status, output and worker of the last deciding report, and none is finished without one |
| Finality.LateReportIsHarmlessIff | internal/store/store.go:554-598 | A worker cannot disturb a finished row, whatever it reports, exactly when it is not the owner |
| Finality.DetachedRowsAreIdle | internal/store/store.go:554-568 | In disciplined runs a row with an empty worker_id has no execution in flight, so it may be restarted |
| Finality.RestartIsSafeIff | internal/store/store.go:438-451 | After a restart some continuation with one report per claim and no other careless restart rewrites a recorded outcome exactly when an execution of the restarted row was in flight |
| Finality.RestartHypothesisIsNeeded | internal/store/store.go:438-451 | A run with one report per claim in which a careless restart lets success turn into dead |
| Pause.PauseStopsEveryChild | internal/store/store.go:170-203 | Right after a pause no child of the definition is pending or running |
| Pause.UnscheduledStaysQuiet | internal/server/scheduler.go:79-127 | Without an entry a disabled definition spawns nothing and only restarted children become active |
| Pause.ReactivationTakesARestart | internal/store/store.go:421-451 | In any honest run a child that is not pending or running becomes so again only by a restart |
| Pause.PausedChildNeedsARestart | internal/store/store.go:170-203 | From a pause on, whatever entries are still installed, a child it found is active only if restarted since |
| Pause.PausedCronStaysQuiet | internal/server/scheduler.go:79-127 | From the first resync after a pause, until re-enabled: no spawn, no new child, and only restarted children become active again; a child the pause found is active only if restarted since the pause |
| Pause.DefinitionMovesIff | internal/store/store.go:421-434 | Of all events only a stop by hand takes a pending definition out of pending |
| Pause.DefinitionStaysPendingIff | internal/model/task.go:31-34 | A definition is pending throughout a run exactly when nobody stops it by hand |
| Pause.DefinitionCanBeStopped | internal/store/store.go:421-434 | A two-step run that ends with a stopped definition |
| Pause.StoppedDefinitionStillSpawns | internal/server/scheduler.go:79-127 | A stopped definition that is still enabled gets its entry at the next resync and spawns due children as before |
| Drain.RankDropsOnEffect | internal/store/store.go:421-604 | Every effective claim, report or stop lowers the table's rank, and nothing but new work raises it |
| Drain.EffectiveStepsAreBounded | internal/store/store.go:421-604 | In any run without new work the effective steps are bounded by the rank |
| Drain.RankZeroIsDrained | internal/model/task.go:14-21 | Rank zero means exactly that every one-shot row is finished or stopped |
| Drain.ProgressIsPossibleIff | internal/store/store.go:489-604 | A claim, or a report of an execution in flight, can still have an effect at some instant exactly while a one-shot row is pending or runs with its execution in flight |
| Drain.LostExecutionIsNotRecovered | internal/worker/pool.go:331-352 | A running row whose execution was lost stays running with none in flight until it is stopped or deleted |
| Drain.ExecutionIsLost | internal/worker/pool.go:217-232 | A disciplined run that loses its only execution and from which nothing can progress |
| DrainLoop.DrainStore | internal/worker/pool.go:221-286 | For one slot, whatever its executions yield and however long they take, the pull, execute, report and wait cycle terminates with every waiting row finished and all others untouched |
| Pool.CancelAllEffect | internal/worker/pool.go:131-146 | A stop list cancels exactly the executing slots stored under a listed id and forgets those ids |
| Pool.RepeatedListingIsNoOp | internal/worker/pool.go:131-146 | Listing ids that are not stored changes nothing |
| Pool.RegistrationIsStoppableIff | internal/worker/pool.go:105-146 | In every later run of the worker, until the task registers again, a stop list that names the newly registered execution leaves it cancelled, exactly when no other slot was executing the task or lingering after it |
| Pool.ShapeIsKept | internal/worker/pool.go:63-117 | Whatever count is configured a worker has at least one slot, its queue never exceeds twice the slots, and every stored cancel function belongs to a slot with that task |
| Pool.TasksStartInOrder | internal/worker/pool.go:150-256 | Tasks start in the order they were received; the rest are queued or in the fetcher's hand |
| Pool.TasksAreConserved | internal/worker/pool.go:150-286 | Every received task is in the hand, the queue, a slot, or finished, and in one of them only |
| Pool.UnfinishedWorkIsBounded | internal/worker/pool.go:63-82 | A worker holds at most 3 * workers + 1 unfinished tasks |
| Pool.UnfinishedBoundIsReached | internal/worker/pool.go:63-82 | A run in which the worker, with the configured slots and at least one, holds exactly that many |
| Pool.TimeoutIsFinal | internal/worker/pool.go:262-274 | An execution whose timeout fired stays cancelled until it ends |
| Pool.ActiveCountIsBounded | internal/worker/pool.go:119-129 | The active count never exceeds the busy slots, hence the total, even when one id runs twice |
| Worker.Worker.CancelActive | internal/worker/pool.go:134-146 | Cancels and forgets the execution stored under an id, and says whether there was one |
| Worker.Worker.Deliver | internal/worker/pool.go:242-256 | Processing the stop list front to back is one delivery step of the recorded run, and the claimed task stays in hand |
| Worker.Worker.Push | internal/worker/pool.go:251-255 | Afterwards every received task is started or queued, in order, and the queue holds at most twice the slots |
| Worker.Worker.Take | internal/worker/pool.go:156-165 | The executor gets the first task, in order of receipt, that has not started |
| Worker.Worker.RegisterActive | internal/worker/pool.go:105-109 | From then on every stop list that names the execution cancels it, exactly when no other slot had the task |
| Worker.Worker.UnregisterActive | internal/worker/pool.go:113-117 | The task is finished, and a stop list that names it cancels nothing, not even in another slot |
| Worker.Worker.ActiveSnapshot | internal/worker/pool.go:121-129 | Returns the active ids, each once, never more than the slots |
| Fleet.WorkersRunTheirPools | internal/worker/pool.go:150-286 | Every worker of a fleet goes through a valid pool run, so what holds of pool runs holds of it |
| Fleet.FleetRefinesProtocol | internal/worker/pool.go:221-355 | The server's view of any fleet of workers is a valid protocol run with one report per claim, whose tokens are exactly the executions in the pools and the messages under way, a report or claim committed after its client gave up included |
| Fleet.CarefulExecutionsAreUnique | internal/worker/pool.go:221-286 | With careful restarts a task has at most one unreported execution across all workers and messages |
| Fleet.DetachedRowsMayBeRestarted | internal/store/store.go:438-451 | A restart of a row with an empty worker_id is careful |
| Fleet.FleetOutcomesAreFinal | internal/worker/pool.go:258-286 | With careful restarts no behaviour of workers or network changes a recorded outcome |
| EndToEnd.WorkersHaveWhatWasMade | internal/worker/pool.go:221-256 | Whatever a worker has in its fetcher, queue or slots does the work its row was made for, also when the row has changed or gone meanwhile |
| EndToEnd.ExecutionsWereRequested | internal/worker/pool.go:258-286 | Every execution runs the command, with the timeout, of a request somebody made for the task or its definition |
| EndToEnd.FinishedRowsWereExecuted | internal/worker/pool.go:276-286 | A row shown as success or dead was executed by the worker it names, to that end, with that output, before any cancellation |
| StopDelivery.StopListKeepsNagging | internal/store/store.go:453-472 | A stopped row stays on its owner's stop list until reported, restarted or deleted |
| StopDelivery.EveryLaterPullListsIt | internal/server/server.go:473-501 | Every later pull lists it, wherever the worker keeps the task |
| StopDelivery.OnlyStoppedTasksAreCancelled | internal/worker/pool.go:242-247 | Whatever executions linger, a pull response cancels only executions of listed tasks whose rows are at that moment stopped and owned by the worker, or deleted |
| StopDelivery.ListedExecutionIsCancelled | internal/worker/pool.go:105-146 | If the task's own registrations on the worker were clean, a response cancels its execution exactly when it lists the task, and listing it again does nothing |
| StopDelivery.StopReachesItsExecution | internal/worker/pool.go:217-286 | A task stopped while a worker owns it, listed by any later pull before the stop is answered, and registered by the time that response is processed, is cancelled then |
| StopLimits.CleanIsExact | internal/worker/pool.go:105-117 | Over every careful continuation of a fleet, until the task registers again, each response that lists the newly registered execution leaves it cancelled, exactly when no earlier execution of the task lingers on the worker, or the row is gone and no list under way names it |
| StopLimits.StopCanMissAnExecution | internal/worker/pool.go:260-286 | A story with careful restarts in which a stopped, owned, listed and executing task is not cancelled, because its previous execution left late |
| Server.TableEventsAreLocal | internal/server/server.go:250-523 | What a handler does to the table is a possible protocol event in every state with that table |
| Server.Server.CreateTask | internal/server/server.go:250-298 | Accepts exactly the valid requests; the row holds the request's name, command, kind, expression, retries and timeout and is pending, unowned and due now; asks for a resync for cron definitions |
| Server.Server.ListTasks | internal/server/server.go:300-344 | Serves the page asked for, page 1 below one, with the size asked for, or 20 outside 1 to 500, and the least page count |
| Server.RepliesMakeUpTheList | internal/server/server.go:300-344 | The answers to requests for pages 1 to the page count, with one size, concatenated, are the filtered rows |
| Server.Server.DeleteTask | internal/server/server.go:422-428 | Always succeeds, and is the deletion event |
| Server.Server.SetTaskEnabled | internal/server/server.go:430-443 | Pauses or resumes, asking for a resync only when the row exists |
| Server.Server.StopTask | internal/server/server.go:445-455 | Stops, or answers not found |
| Server.Server.RestartTask | internal/server/server.go:457-467 | Restarts a stopped row, or answers not found |
| Server.Server.HandlePull | internal/server/server.go:473-501 | Refuses an empty worker id; otherwise hands out exactly the stored row, now running under the worker, and lists the stopped rows of the resulting table |
| Server.Server.HandleResult | internal/server/server.go:504-523 | Takes any report; only the owner's changes the table |
| Scheduler.Scheduler.Resync | internal/server/scheduler.go:79-96 | The entries become exactly the enabled cron rows whose expression parses |
| Scheduler.Scheduler.Spawn | internal/server/scheduler.go:101-127 | Inserts one child with the definition's command, retries and timeout under the lock and releases it, or does nothing when the lock is held |
| Lease.MemoryLock.Acquire | internal/lock/memory.go:40-62 | Succeeds exactly when the key is free, expired or already held under the token |
| Lease.MemoryLock.Release | internal/lock/memory.go:64-75 | Frees the key only for the token that holds it |
| Lease.LeaseIsRecorded | internal/lock/memory.go:40-75 | A lease that history says is unexpired and unreleased is the one in the table |
| Lease.LeaseExcludesOthers | internal/lock/memory.go:17-27 | While a token's lease lasts no other token acquires, frees or holds the key |
| Lease.GrantedIffNobodyElseHolds | internal/lock/memory.go:40-62 | A token gets the key exactly when, by the history of calls, no other token holds an unexpired, unreleased lease on it |
| Lease.SpawnsAreExclusive | internal/server/scheduler.go:98-127 | Among spawns of one name that finish within the lease, at most one is in the create section |
| Lease.OverlapEntersIff | internal/server/scheduler.go:102-111 | While a spawn is inside, another of its name enters exactly when its millisecond stamp is the same or 30 seconds have passed since the first entered |
| RateLimiter.RateLimiter.Allow | internal/server/server.go:653-677 | Refills the client's tokens up to perMin, grants when at least one is there, charges one for a grant, and stamps the access |
| RateLimiter.RateLimiter.Cleanup | internal/server/server.go:682-692 | Drops exactly the buckets last used before the cutoff |
| RateLimiter.CleanupKeepsRecentClients | internal/server/server.go:679-692 | After a cleanup the table holds exactly the clients that asked within the ttl |
| RateLimiter.EvictionIsInvisible | internal/server/server.go:679-692 | With a ttl of at least a minute every answer, past or later, is that of a limiter that never evicts |
| RateLimiter.RejectionsAreInvisible | internal/server/server.go:668-672 | Leaving rejected requests out of a run changes no later answer |
| RateLimiter.WindowBound | internal/server/server.go:650-677 | In any window of d minutes a client gets at most perMin * (1 + d) grants |
| RateLimiter.BurstIsServed | internal/server/server.go:650-677 | A client that was fresh or idle for a minute when a window began is refused in it only after more than perMin - 1 grants, whenever its requests come |
| RateLimiter.PoliteClientsAreServed | internal/server/server.go:650-677 | A client that leaves 1/perMin minutes between requests is always granted |
| Registry.WorkerRegistry.List | internal/server/server.go:53-66 | Returns, once each, exactly the workers whose latest heartbeat ever was at most a minute ago, as that heartbeat reported them |
| Registry.ListingMatchesHistory | internal/server/server.go:34-66 | Dropping stale entries early or late never shows: the table agrees with the latest heartbeats of the full history |
| Filters.SplitStatuses | internal/store/store.go:237-250 | Yields the fields that are not blank, without the blanks at their ends, in order |
| Filters.SplitIsExact | internal/store/store.go:241 | Splitting cuts at every separator and loses nothing |
| Filters.TrimIsExact | internal/store/store.go:244 | Trimming takes off the blanks at both ends and nothing else |
| Filters.StatusClause | internal/store/store.go:259-291 | The IN list accepts the statuses the filter names, with the done alias and no constraint for a blank list |
| Filters.BuildWhere | internal/store/store.go:255-315 | Evaluating the clauses with the arguments from left to right accepts exactly the rows the filter matches, and the arguments fit the placeholders |
| Filters.MatchesIsAccepts | internal/store/store.go:255-315 | A filter matches exactly the rows that pass each of its parameters, column by column, with the done alias and the top-level default |
| Paging.ListIsTheFilteredTable | internal/store/store.go:317-332 | The listing holds exactly the filtered rows, each once, in descending id order |
| Paging.PagesPartitionTheList | internal/server/server.go:300-336 | Pages 1 to the page count make up the list, all but the last are full, the last is non-empty unless the list is, and later pages are empty |
| Paging.TotalPages | internal/server/server.go:330-336 | The least number of pages, never below one, that holds the total |
| PageBar.BuildPageItems | internal/server/ui.go:52-89 | Builds the first page, the window, the last page and the ellipses between them |
| PageBar.BarExpandsToAllPages | internal/server/ui.go:50-89 | Expanding the ellipses yields every page once, in order |
| PageBar.BarIsCompleteIff | internal/server/ui.go:50-89 | The bar stands for all pages exactly when the current page is at most two past the last |
| PageBar.BarMarksTheCurrentPage | internal/server/ui.go:50-89 | At most nine items, first and last page included, the current page marked and nothing else |
| PageBar.EllipsesStandForGaps | internal/server/ui.go:73-87 | An ellipsis stands exactly where at least one page is skipped |
| PageBar.PagesRise | internal/server/ui.go:64-88 | Page numbers rise from left to right |
| PageBar.Itoa | internal/server/ui.go:257-280 | The text fits 20 bytes and reads back as the id, for every 64-bit integer but the least |

## Left out

- SQL text, the driver, migrations, WAL and file permissions: the table is a map of rows and each transaction one step; two reads of the clock inside one transaction are one instant.
- Ties in ORDER BY next_run_at: the method picks the lowest id, the theorems allow any choice.
- HTTP, JSON, TLS, tokens, audit log, signals, scripts and HTML: requests and responses are values.
- Shell execution, command filters, timeouts and cron expression parsing: an execution ends in any outcome or is lost, and the accepted expressions are a given set.
- Worker shutdown, and a process restarted under the same id: the pool is modelled until its context is cancelled, and the code drains nothing afterwards.
- Data races inside the memory lock, and a tick that fires while a resync removes its entry: calls and spawns are atomic.
- Floating-point rounding, overflow of durations and of the paging offset: reals and unbounded integers.
- ClearWorker: it has no caller.
- Filters.BuildWhere: LIKE is an uninterpreted predicate on pattern and text, so its wildcard and case rules are not stated.
- RateLimiter.EvictionIsInvisible: stated for a ttl of a minute or more, which the fixed two hours meet; smaller values are not analysed.
- StopDelivery.StopReachesItsExecution: asks that the task's own registrations on the worker wait for its previous execution there to leave, because without that the property is false (StopLimits.StopCanMissAnExecution).
- Store.Store.StopAllCron: the method runs its two statements back to back; other transactions between them are covered by the two separate events of the protocol.
- Scheduler.Scheduler.Spawn: the method acquires, inserts and releases back to back, so the held lock is visible only in the runs of module Lease.
- Server.Server.HandlePull: the method claims and reads the stop list back to back; module Fleet has them as two moves with anything in between.
- DrainLoop.DrainStore: one slot, one execution at a time, no queue and no lost execution.
- Looking up one task (Store.Get and its handler): a plain read.
- truncate, truncStr, taskTimeout, clientIP and parseParentID: one-branch helpers.
