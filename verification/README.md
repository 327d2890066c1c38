# Camouflare: verified resource ownership, body decoding and time budgets

This project models the parts of Camouflare whose correctness spans many operations and proves properties of
them with Dafny 4.11. `dafny verify dfyconfig.toml` checks everything.

- **Browser pool** (`pool_*.dfy`, `browser_pool.dfy`). Each section of `BrowserPool` that runs under the pool's
  condition without awaiting is one step. `PoolState` gives the steps as functions from state to state,
  `PoolRuns` lets an environment pick the next step and the outcome of every launch, close and cancellation,
  and `BrowserPools` is the object itself, updated in place, each method proved to be the step of that name.
  A browser is named by the launch that produced it. The invariant (`PoolInvariant`) says who holds every
  browser and every context; the files between build its preservation step by step.
- **Cleanup supervisor** (`cleanup_*.dfy`). Tasks, groups, holds, events that are replaced while callers sleep,
  timers and deadlines, under any schedule.
- **Session registry** (`session_*.dfy`). Live sessions, closing tombstones, use counts, session locks, close
  tasks and the requests that use them; `session_cleanup.dfy` joins the registry to the supervisor.
- **Response bodies** (`zlib_stream.dfy`, `content_coding.dfy`, `content_decoders.dfy`, `response_body.dfy`).
  One zlib stream is an abstract codec with a few laws, whose every reply is a function of the calls before it;
  each decoder call, layer and read is proved to be a function of its input, chunk for chunk. The decoders,
  the byte limits, the stacking and the early cut of the wire are the program's own.
- **Redirects** (`redirect_run.dfy`). The redirect loop against servers that may answer anything.
- **Navigation budget** (`navigation_budget.dfy`) and the **block-page parser** (`block_page*.dfy`).

The files `*_promises.dfy` and `block_page_meaning.dfy` state what single operations do in plain terms, in
both directions and without the functions that define them; the other theorems are about whole runs.

Names: a step function and the method that performs it share their name. Steps are total: a step that cannot
happen in a state leaves it alone. The pool's defensive `RuntimeError`s set the field `raised`, which is proved
never to be set. `accepted` in the pool and `done`, `fired` in the supervisor are the environment's history.

Five facts about the code that its comments could suggest otherwise. Ready browsers and launches together can
exceed `max_browsers`, because leasing works before `start()` and `_start_once` checks only the physical
ceiling, so the ceiling proved for acquisition is the physical one. And once the pool is closed, a browser may be
both watched as an abandoned launch and closing, because its startup's registration and the watcher both see it;
"exactly one owner" is therefore stated for the open pool, and for the closed one that exception is the only one.
A startup that is cancelled twice, the second time while it waits for the pool's lock to abandon its launches,
leaves them in flight with nobody waiting until shutdown. A slot can reach its maximum age between the two
looks an acquisition takes at it; it then counts as usable but is not leased.
Last, an acquisition that retires a ready browser, whether because it dies, ages or is used up, frees launch
capacity without notifying the callers that already wait.

## Model

| member | source | states |
|---|---|---|
| PoolRuns.NoBrowserIsLost | camouflare/pool.py:246-360 | In every reachable state a browser that a factory returned is owned by a launch, a watcher, the slot list, a close task or the failed closes until its close is accepted; by exactly one of them while the pool is open |
| PoolRuns.NoLaunchIsForgotten | camouflare/pool.py:268-360 | A running launch is in flight or watched; a launch in flight is awaited, by its supervisor or its startup, exactly if its startup was not cancelled again while it waited for the lock to abandon its launches |
| PoolRuns.DesertedLaunch | camouflare/pool.py:274-283 | A reachable pool in which that happened: nobody waits for the launch, and shutdown hands it to a watcher |
| PoolRuns.ShutdownTakes | camouflare/pool.py:426-480 | quiesce and close leave no launch in flight: every one goes to a watcher, awaited or not |
| PoolRuns.StepInv | camouflare/pool.py:174-196 | Every critical section, with every outcome of launches, closes and cancellations, keeps the whole invariant and only moves browsers forward |
| PoolRuns.RunInv | camouflare/pool.py:190-196 | The same along every interleaving of sections |
| PoolRuns.PhysicalCeiling | camouflare/pool.py:171-171 | An open pool never has more slots, launches, abandoned launches, closing and failed-close browsers together than max(1, 2 * max_browsers) |
| PoolRuns.ReplenishWithinLimits | camouflare/pool.py:1115-1141 | Whenever the maintenance loop or a finished close replenishes: if it launches, the same total afterwards is at most max_browsers, the pool serves and nobody waits; and it stops only at its target or at that limit, unless the launch circuit is open |
| PoolRuns.ContextsAreConserved | camouflare/pool.py:512-765 | The contexts on the listed browsers are exactly the unreleased slot reservations; each counter equals the leases or tickets behind it; no browser and no session quota is overdrawn |
| PoolRuns.NoAccountingError | camouflare/pool.py:907-910 | No run reaches one of the defensive underflow and overflow errors, however leases are released or cancelled |
| PoolRuns.FreshAcquisitionIsServed | camouflare/pool.py:837-872 | With no transient lease and no launch in flight a fresh acquisition leases exactly if a slot is available when it looks, and below the physical ceiling leases or launches exactly if one is or fewer than max_browsers are ready. Unless a ready slot with room reaches its maximum age between the refresh and that look, this is always so, and even at the ceiling it leases if only ready and softly retired browsers make it up: sessions cannot starve stateless work |
| PoolRuns.AgeingSlotIsNotServed | camouflare/pool.py:1066-1071 | A reachable pool whose one browser reaches its maximum age in between: the caller neither leases nor launches |
| PoolRuns.EveryLeaseIsSound | camouflare/pool.py:837-857 | A turn leases exactly if some refreshed slot can serve at its second clock reading; the slot has room, its browser is alive, and it is a healthy one whenever there is one |
| PoolWakeups.OpportunitiesAreAnnounced | camouflare/pool.py:822-890 | No section without notify_all makes room on a browser in service, closes the pool or reports a failed launch, and only an acquisition that retires a ready browser opens the launch gate |
| PoolWakeups.LastUseOpensTheGate | camouflare/pool.py:1048-1064 | A reachable pool where that happens: a lease uses the only browser up, another caller could launch, and nobody is told |
| PoolRuns.BrowsersNeverComeBack | camouflare/pool.py:1048-1113 | Along every run a browser goes from ready over retiring to closing only, a hard retirement stays hard, from then on it gets no lease, a closing browser has no context, and at most one recycle is recorded for it |
| PoolClosing.AcceptedMeansGone | camouflare/pool.py:1285-1294 | A browser leaves the pool only once its close succeeded, it reported itself closed, or its process ended, given that a reconciliation of a process exit follows such an exit |
| PoolClosing.BackgroundRetriesEnd | camouflare/pool.py:1143-1163 | While the pool serves, no close has failed more often than the retry limit, and one that has is not tried again |
| PoolClosing.FailedClosesWait | camouflare/pool.py:1295-1300 | Of two consecutive failed closes of one browser, on any run: the first puts the close off by two to the power of its failures, a minute at most; while the pool serves only a refresh takes it up again, none before that time; the second puts it off twice as long, up to that minute |
| PoolRuns.ClosedPoolDrains | camouflare/pool.py:490-499 | Once closed the pool has no launch in flight and lists only retiring browsers with an active context |
| PoolRuns.ClosedPoolOnlyDrains | camouflare/pool.py:831-832 | After shutdown began no run leases or launches anything and the measure of the wait loop of close never grows |
| PoolRuns.EveryReleaseCounts | camouflare/pool.py:903-945 | Releasing a lease of a closed pool shrinks that measure |
| PoolRuns.EveryWatcherCounts | camouflare/pool.py:1492-1507 | So does the end of an abandoned launch |
| PoolRuns.CloseCanFinish | camouflare/pool.py:490-499 | From every reachable closed state some run of releases and finishing launches empties the slots, launches and watchers that close waits for |
| PoolSlotPromises.ReleaseIsExact | camouflare/pool.py:892-945 | Releasing a live lease takes one context from its browser and one from the quota. Discarding, it retires the browser for the reason given, for good if that reason is hard; otherwise the browser stops being ready exactly if its uses reached max_uses or its age max_age. It is off the list with a close task exactly if it is retiring and that was its last context; no other browser changes, and a second release changes nothing |
| PoolSlotPromises.RefreshIsExact | camouflare/pool.py:1048-1163 | A refresh retires exactly the listed browsers that are disconnected, too old or used up, each for its own reason, closes exactly the idle retiring ones, and retries exactly the failed closes that failed fewer than three times and are due |
| PoolServicePromises.MaintenanceRefreshes | camouflare/pool.py:393-424 | A refresh or maintenance of a pool that has started and is not closed refreshes it, and maintenance adds only launches to that; any other pool stays as it is |
| PoolSlotPromises.ServesExactly | camouflare/pool.py:1066-1084 | A listed browser with room counts as available exactly if it is ready and neither old nor used up, or in use and retiring for age or use only, and as healthy in the first case |
| PoolSlotPromises.TurnIsExact | camouflare/pool.py:837-878 | Each answer of a turn exactly when: PoolClosed if the pool is closed; Leased if there is time and some refreshed browser can serve; LaunchFailed if there is time, none can and the last launch failed since the caller came; TimedOut if the time was up at the start, or is now that neither applies; Parked otherwise |
| PoolSlotPromises.LeaseIsExact | camouflare/pool.py:1048-1064 | A leasing turn adds one live lease, on a browser that could serve, ready if one was; that browser has one context and one use more, and stops being ready exactly if its uses reached the maximum; nothing else changes |
| PoolSlotPromises.LaunchIsExact | camouflare/pool.py:858-876 | A turn that neither leases nor fails launches exactly if the caller has not launched yet, ready browsers and launches in flight are below max_browsers, and all processes and the abandoned launches below max(1, 2 * max_browsers); then one launch is added and nothing else |
| PoolServicePromises.ReplenishmentHitsItsTarget | camouflare/pool.py:1115-1141 | Maintenance or the end of a close never launches past min_browsers ready, unworn browsers and launches in flight, nor past max_browsers processes, and launches only while the pool serves and nobody waits; and then it stops only at one of the two, unless the abandoned launches are at the physical ceiling |
| PoolServicePromises.StartIsExact | camouflare/pool.py:246-266 | A startup begins exactly if the pool is neither started nor closed and min_browsers more processes fit under the physical ceiling; it has exactly that many launches, all new and its own, and with none it is over at once |
| PoolServicePromises.LaunchEndsOnce | camouflare/pool.py:1537-1557 | A running launch ends once, with a new ready browser without contexts or uses, or in failure |
| PoolServicePromises.LateLaunchIsAbandoned | camouflare/pool.py:1346-1357 | A supervised launch that is late moves from the launches in flight to a watcher; nothing else changes |
| PoolServicePromises.EndedLaunchIsSettled | camouflare/pool.py:1359-1380 | A supervised launch that has ended leaves the launches in flight; its browser is listed, or its failure is published in a new generation |
| PoolServicePromises.WatcherIsExact | camouflare/pool.py:1492-1507 | A watcher goes when its launch has ended, and the browser, if there is one, is retired for shutdown of a closed pool and for an error otherwise, and closed |
| PoolServicePromises.InterruptedStartup | camouflare/pool.py:268-283 | An interrupted startup hands exactly its launches in flight to watchers, and the pool may start again unless it is closed |
| PoolServicePromises.FailedStartup | camouflare/pool.py:293-319 | A startup that is not complete leaves no launch of its own in flight: what ended in time is dropped and its browsers closed, and the rest is watched |
| PoolServicePromises.CompletedStartup | camouflare/pool.py:321-332 | A startup goes on to its registration exactly once all its launches returned a browser, in the order they came |
| PoolServicePromises.RegistrationIsExact | camouflare/pool.py:1421-1441 | Registration lists every browser of the startup, or, after shutdown or cancellation, closes each, for shutdown or an error |
| PoolServicePromises.ResumedStartup | camouflare/pool.py:333-347 | A registered startup that was not cancelled returns; one cancelled around its registration is left to recovery, and the pool counts as not started |
| PoolServicePromises.RecoveryIsExact | camouflare/pool.py:1443-1466 | Recovery of a cancelled startup retires every browser of it, listed or not, closes the idle ones and drops its launches in flight |
| PoolServicePromises.BackoffIs | camouflare/pool.py:1295-1321 | A failed close waits 2, 4, 8, 16, 32 seconds, and 60 from the sixth failure on |
| PoolServicePromises.CloseEndIsExact | camouflare/pool.py:1285-1305 | The end of a close is accepted exactly if it succeeded, the browser says it is closed or its process was seen to end; else it is among the failed closes, counted and put off by the backoff; no other browser changes |
| PoolServicePromises.LateEndsAreExact | camouflare/pool.py:1600-1632 | A close task that dies only leaves its close owed; a process exit is noted for a closing browser; late reconciliation lets a failed close go exactly if no close task runs |
| PoolServicePromises.ShutdownIsExact | camouflare/pool.py:426-480 | Quiesce and close take every idle browser off the list into a close, retire every busy one for shutdown, watch every launch in flight, and close alone retries every failed close |
| PoolServicePromises.PersistentQuotaIsExact | camouflare/pool.py:575-674 | A persistent context is promised exactly if the pool is open and the promises are below max_browsers times max_contexts less the reserve for transient work; giving it back frees it once |
| PoolServicePromises.CallersBeginAfresh | camouflare/pool.py:822-828 | A caller notes its deadline and the failures so far and has launched nothing; a persistent one needs a promise not used yet, and uses it |
| PoolServicePromises.WaitingIsCounted | camouflare/pool.py:877-890 | The count of parked callers is theirs exactly, and a caller that leaves is counted out once |
| BrowserPools.BrowserPool.MarkRetiring | camouflare/pool.py:1165-1175 | Retires one slot: a hard reason replaces a soft one, the recycle is recorded once |
| BrowserPools.BrowserPool.ScheduleClose | camouflare/pool.py:1177-1197 | Takes an idle slot out of the list into a close task, once |
| BrowserPools.BrowserPool.RefreshRecycling | camouflare/pool.py:1097-1113 | Retires dead and aged browsers, closes the idle ones and retries due failed closes |
| BrowserPools.BrowserPool.RetryFailedCloses | camouflare/pool.py:1143-1163 | Exactly the failed closes below the retry limit whose backoff is over get a new close task |
| BrowserPools.BrowserPool.Replenish | camouflare/pool.py:1115-1141 | Launches the missing browsers there is room for, while serving and nobody waits |
| BrowserPools.BrowserPool.StartCreate | camouflare/pool.py:1323-1343 | Adds one launch in flight |
| BrowserPools.BrowserPool.AbandonAll | camouflare/pool.py:1468-1490 | Moves launches in flight to their watchers, once each |
| BrowserPools.BrowserPool.StartOnce | camouflare/pool.py:246-266 | Starts the minimum number of launches unless started, closed or quarantined; the invariant is kept |
| BrowserPools.BrowserPool.StartupAborted | camouflare/pool.py:268-283 | An interrupted startup abandons all its launches; the invariant is kept |
| BrowserPools.BrowserPool.StartupDeserted | camouflare/pool.py:274-283 | A startup cancelled again before its cleanup holds the lock leaves its launches as they are; the invariant is kept |
| BrowserPools.BrowserPool.StartupFailed | camouflare/pool.py:293-319 | A failed startup discards finished launches, abandons pending ones and closes the browsers it got; the invariant is kept |
| BrowserPools.BrowserPool.StartupCompleted | camouflare/pool.py:321-332 | Every launch returned: the startup owes a registration; the invariant is kept |
| BrowserPools.BrowserPool.RegisterStarted | camouflare/pool.py:1421-1441 | All browsers of the startup enter the list, or are closed if the pool shut down or the start was cancelled; the invariant is kept |
| BrowserPools.BrowserPool.StartupReturned | camouflare/pool.py:345-347 | An undisturbed startup ends; the invariant is kept |
| BrowserPools.BrowserPool.StartupCancelled | camouflare/pool.py:333-344 | A startup cancelled around its registration leaves the rest to recovery; the invariant is kept |
| BrowserPools.BrowserPool.RecoverStart | camouflare/pool.py:1443-1466 | Recovery retires every browser of the cancelled startup and closes the idle ones, listed or not; the invariant is kept |
| BrowserPools.BrowserPool.Refresh | camouflare/pool.py:393-405 | A refresh of a serving pool; the invariant is kept |
| BrowserPools.BrowserPool.Maintain | camouflare/pool.py:407-424 | A refresh followed by replenishment; the invariant is kept |
| BrowserPools.BrowserPool.Quiesce | camouflare/pool.py:426-438 | Closes the pool to new work, abandons launches, closes idle browsers and retires the rest; the invariant is kept |
| BrowserPools.BrowserPool.CloseBegin | camouflare/pool.py:443-480 | The first section of close: as quiesce, and every failed close is retried; the invariant is kept |
| BrowserPools.BrowserPool.AcquireBegin | camouflare/pool.py:822-828 | A caller notes its deadline and the failure generation; the invariant is kept |
| BrowserPools.BrowserPool.AcquireTurn | camouflare/pool.py:829-878 | One turn of the acquisition loop, with its result; the invariant is kept |
| BrowserPools.BrowserPool.Unpark | camouflare/pool.py:877-890 | A parked caller stops waiting and is counted out; the invariant is kept |
| BrowserPools.BrowserPool.ReleaseSlot | camouflare/pool.py:892-945 | Gives a lease back once, retires the browser if told to, closes it if it is the last lease; the invariant is kept |
| BrowserPools.BrowserPool.PersistentOpen | camouflare/pool.py:575-588 | Reserves persistent capacity or refuses; the invariant is kept |
| BrowserPools.BrowserPool.PersistentRelease | camouflare/pool.py:662-674 | Gives persistent capacity back once; the invariant is kept |
| BrowserPools.BrowserPool.LaunchReturns | camouflare/pool.py:1537-1557 | A factory returns a browser; the invariant is kept |
| BrowserPools.BrowserPool.LaunchFails | camouflare/pool.py:1538-1555 | A factory fails; the invariant is kept |
| BrowserPools.BrowserPool.SuperviseTimedOut | camouflare/pool.py:1346-1357 | The supervisor abandons a launch that takes too long; the invariant is kept |
| BrowserPools.BrowserPool.SuperviseSettled | camouflare/pool.py:1359-1380 | The supervisor lists the browser or records the failure; the invariant is kept |
| BrowserPools.BrowserPool.WatcherFinished | camouflare/pool.py:1492-1507 | The watcher closes the browser of an abandoned launch; the invariant is kept |
| BrowserPools.BrowserPool.FinishClose | camouflare/pool.py:1285-1305 | A close is accepted, or counted as failed and put off; then the pool is replenished; the invariant is kept |
| BrowserPools.BrowserPool.CloseAborted | camouflare/pool.py:1248-1268 | A close task dies without publishing; the invariant is kept |
| BrowserPools.BrowserPool.ReconcileAborted | camouflare/pool.py:1270-1283 | Reconciliation finishes the close that the dead task owed, if it is still the current one; the invariant is kept |
| BrowserPools.BrowserPool.PhysicalCloseFinished | camouflare/pool.py:1600-1619 | The physical close of a browser succeeds; the invariant is kept |
| BrowserPools.BrowserPool.LateReconcile | camouflare/pool.py:1621-1632 | A late physical close clears a failed one, unless a close task still runs; the invariant is kept |
| BrowserPools.BrowserPool.BrowserDies | camouflare/pool.py:1086-1095 | A browser disconnects; the invariant is kept |
| CleanupRuns.NoLostWakeup | camouflare/cleanup.py:226-233 | A sleeping caller of wait_for_group can resume, or sleeps on the current event of a group that still has a task or a hold; resuming, it returns exactly if the group has neither, and else sleeps on an event that is not set |
| CleanupRuns.IdleGroupIsDone | camouflare/cleanup.py:309-350 | When a group is found idle, every task ever tracked in it has finished |
| CleanupRuns.BusyExactly | camouflare/cleanup.py:384-409 | A group counts as idle exactly if no tracked task names it and no unreleased hold is on it: the index is the inverse of the groups of the tasks |
| CleanupRuns.StepInv | camouflare/cleanup.py:80-88 | Every action keeps the invariant, and unfinished work stays tracked |
| CleanupRuns.DeadlinesOnlyShrink | camouflare/cleanup.py:370-382 | Along every run the deadline of an unfinished task never moves later, and it only joins groups |
| CleanupRuns.NestedWorkIsBounded | camouflare/cleanup.py:116-145 | Work tracked from inside tracked work ends, on every later run, by the deadline of its scope at that moment, which is its owner's unless a scope was given, and counts for that scope's groups |
| CleanupRuns.OwnerBoundsExactly | camouflare/cleanup.py:121-132 | Whatever its own budget, new work is bounded by its owner's deadline exactly if the scope it was given is not later, or shutdown comes when the owner's deadline does |
| CleanupRuns.TrackInv | camouflare/cleanup.py:106-164 | The deadline of tracked work is the earliest of its own budget, its scope, the shutdown deadline and the one it had |
| CleanupRuns.ShutdownBoundsEverything | camouflare/cleanup.py:274-298 | After close began, every present and future deadline lies within its budget |
| CleanupRuns.EveryTaskIsTimed | camouflare/cleanup.py:157-162 | A tracked task has a timer armed for its current deadline, or its deadline has passed and it is finished or marked as timed out; no mark outlives the callers that read it |
| CleanupRuns.HoldsNeverUnderflow | camouflare/cleanup.py:394-402 | Hold counts never underflow and a second release does nothing |
| CleanupPromises.NewWorkIsItsOwnGroup | camouflare/cleanup.py:106-164 | Work tracked outside other work is the only task of a new group; its deadline is the end of its budget, or of shutdown if that is sooner, and its timer is armed for it or for at once |
| CleanupPromises.TrackedWorkIsShortened | camouflare/cleanup.py:106-164 | Work without a budget is refused; work tracked already gets the new deadline exactly if that is earlier |
| CleanupPromises.ExpiryMarksTheUnfinished | camouflare/cleanup.py:352-368 | A due timer is used up and marks its task exactly if that is unfinished |
| CleanupPromises.FinishedWorkIsForgotten | camouflare/cleanup.py:309-350 | A finished task, its timer and its groups are forgotten; its mark too, unless a caller still reads it |
| CleanupPromises.RunsAreCounted | camouflare/cleanup.py:235-272 | A caller of run is counted in and out, marks the work it gave up exactly if that is unfinished, and as the last one takes the mark of finished work with it |
| CleanupPromises.HoldsAreExact | camouflare/cleanup.py:176-198 | A hold adds one to the count of every group of its scope, and its release takes exactly those back, once |
| CleanupPromises.WaitingBeginsExactly | camouflare/cleanup.py:226-231 | A caller that begins to wait sleeps exactly if some tracked task names the group or an unreleased hold is on it, and on an event that is not set |
| CleanupPromises.ShutdownIsExact | camouflare/cleanup.py:274-298 | Shutdown moves every later deadline to its own and leaves the others; when its time has come it marks exactly the unfinished work |
| CleanupSupervisors.CleanupSupervisor.Track | camouflare/cleanup.py:106-164 | Tracks new work, or shortens and regroups work already tracked |
| CleanupSupervisors.CleanupSupervisor.AddTaskToGroups | camouflare/cleanup.py:166-174 | A group that gains work replaces an event that is already set |
| CleanupSupervisors.CleanupSupervisor.RetainScope | camouflare/cleanup.py:189-198 | Holds every group of a scope |
| CleanupSupervisors.CleanupSupervisor.ReleaseHold | camouflare/cleanup.py:60-65 | Releases a hold once, setting the events of groups that became idle |
| CleanupSupervisors.CleanupSupervisor.LeaveAll | camouflare/cleanup.py:384-392 | A finished task leaves its groups; those it was the last of may become idle |
| CleanupSupervisors.CleanupSupervisor.TaskFinished | camouflare/cleanup.py:309-350 | The done callback forgets the task, its timer and, unless a caller still reads it, its mark |
| CleanupSupervisors.CleanupSupervisor.ShortenDeadline | camouflare/cleanup.py:370-382 | Moves a deadline earlier and arms the timer again |
| CleanupSupervisors.CleanupSupervisor.DeadlineExpired | camouflare/cleanup.py:352-368 | An expired timer marks an unfinished task |
| CleanupSupervisors.CleanupSupervisor.WaitTurn | camouflare/cleanup.py:226-231 | One test of the waiting loop |
| CleanupSupervisors.CleanupSupervisor.Wake | camouflare/cleanup.py:231-233 | A woken waiter drops the event if it is still current and tests again |
| CleanupSupervisors.CleanupSupervisor.RunBegin | camouflare/cleanup.py:235-255 | run counts its caller |
| CleanupSupervisors.CleanupSupervisor.RunEnd | camouflare/cleanup.py:256-272 | run counts its caller out and drops the mark of a finished task |
| CleanupSupervisors.CleanupSupervisor.CloseBegin | camouflare/cleanup.py:274-298 | Fixes the shutdown deadline and shortens every tracked deadline |
| CleanupSupervisors.CleanupSupervisor.CloseTurn | camouflare/cleanup.py:286-298 | A later turn of the same loop |
| SessionRuns.EverySessionIsAccountedFor | camouflare/sessions.py:286-432 | Every session ever registered is live, or held by exactly one closing tombstone with its close task, or cleaned up, and only one of these: no removal drops a session |
| SessionRuns.CapacityHolds | camouflare/sessions.py:175-183 | Live and closing ids are disjoint and together never exceed max_sessions |
| SessionRuns.NoContextClosesUnderARequest | camouflare/commands.py:347-416 | The context of a session is open, and cannot start closing, as long as a request that passed the identity check holds the lock; no two requests are inside |
| SessionRuns.RemovedMeansUnreachable | camouflare/commands.py:356-365 | A session that left the registry never returns, no request gets inside it any more, and one still queued for it leaves again, without having touched the context, whenever it gets the lock |
| SessionRuns.EvictionIsPrecise | camouflare/sessions.py:314-329 | A stale eviction changes nothing, so it never removes a replacement; a current one closes that session and no other |
| SessionRuns.RemovalIsPrecise | camouflare/sessions.py:373-388 | Removing ids turns exactly their live sessions into closing ones |
| SessionRuns.PruneTakesOnlyIdle | camouflare/sessions.py:286-304 | Pruning removes exactly the expired sessions that no request uses, waits for or holds, apart from the excluded id |
| SessionRuns.IdIsReusedOnlyAfterCleanup | camouflare/sessions.py:415-432 | An id is registered again only when the cleanup of every earlier session of that id is settled and its close task is over |
| SessionCleanup.IdIsReusedOnlyAfterWork | camouflare/sessions.py:415-432 | Registry and supervisor together: once an id can be registered again, every task that ever worked in the cleanup group of a session of that id while the session was closing has finished |
| SessionCleanup.ClosingStartsWork | camouflare/sessions.py:394-400 | The cleanup that the close task starts works in the group it waits for |
| SessionCleanup.IdleGroupWakesTheCloser | camouflare/cleanup.py:226-233 | A close task asleep in wait_for_group can wake once its group is idle, and waking then settles its session, and only then |
| SessionCleanup.StepInv | camouflare/sessions.py:390-420 | Each side of the pair runs as it does alone, and a context is being closed only with a group to wait for |
| SessionRuns.CloseRemovesEverySession | camouflare/sessions.py:355-364 | After close no session is live and none is ever registered again |
| SessionRuns.UseCountsAreExact | camouflare/sessions.py:142-150 | in_use is exactly the number of requests that checked the session out, so mark_released never underflows |
| SessionRuns.StepInv | camouflare/sessions.py:126-130 | Every section keeps the invariant |
| SessionPromises.IdentityCheck | camouflare/commands.py:356-365 | The identity check passes exactly if the id of the session still names this very session |
| SessionPromises.RegistrationIsExact | camouflare/sessions.py:160-197 | A registration makes a new session live under the id exactly if the manager is open, the id is neither live nor closing, and live and closing sessions are below max_sessions; the session is open, unused and unheld with the expiry given; otherwise nothing changes |
| SessionPromises.RegistrationAnswers | camouflare/sessions.py:175-197 | A live id gives back its own session, and each of the three refusals has its exact condition |
| SessionPromises.NewcomerIsExact | camouflare/commands.py:291-304 | A request with a new context queues for the session it registered and counts at once, chooses the live session of the id if there is one, or leaves all as it was |
| SessionPromises.ArrivalIsExact | camouflare/commands.py:654-658 | A request queues for the live session of its id, and counts, exactly if that has not expired, is held or is in use |
| SessionPromises.ResumptionIsExact | camouflare/commands.py:291-304 | A request that lost the race to register queues for the session it chose and counts |
| SessionPromises.EntryIsExact | camouflare/commands.py:356-365 | A queued request waits while the lock is held; with it, it gets inside exactly if the id still names its session, and else leaves and gives its use back |
| SessionPromises.LeavingIsExact | camouflare/commands.py:406-415 | Leaving frees the lock, if it was held, and gives one use back |
| SessionPromises.PruningIsExact | camouflare/sessions.py:286-302 | Pruning an open manager removes a live id exactly if its session has expired, is unused and unheld, and is not the excluded one |
| SessionPromises.DestroyingIsExact | camouflare/sessions.py:331-364 | Destroying removes the live session of the id and nothing else; closing removes every session and every later registration; all removed sessions start closing |
| SessionPromises.ClosingCanComplete | camouflare/sessions.py:390-432 | From every reachable registry the steps left of a closing session that no request holds lead to its cleanup, a free lock and an id that is no longer closing |
| SessionManagers.SessionManager.RegisterOrGet | camouflare/sessions.py:160-197 | Registers, returns the winner, or refuses, with the right result |
| SessionManagers.SessionManager.MarkInUse | camouflare/sessions.py:142-144 | Counts a use |
| SessionManagers.SessionManager.MarkReleased | camouflare/sessions.py:146-150 | Counts a use out |
| SessionManagers.SessionManager.Arrive | camouflare/commands.py:654-658 | A request shares a live session that is not expired or is in use anyway |
| SessionManagers.SessionManager.ArriveNew | camouflare/commands.py:291-304 | A request registers the context it built, or takes the winner's session |
| SessionManagers.SessionManager.Enter | camouflare/commands.py:356-365 | A request takes the lock and checks the identity of its session |
| SessionManagers.SessionManager.Leave | camouflare/commands.py:406-415 | A request lets go of the lock and of its use |
| SessionManagers.SessionManager.StartClosing | camouflare/sessions.py:373-388 | Starts one close task per id |
| SessionManagers.SessionManager.PruneExpired | camouflare/sessions.py:286-302 | Prunes and returns the pruned ids |
| SessionManagers.SessionManager.EvictIfCurrent | camouflare/sessions.py:322-329 | Evicts only the registered session object |
| SessionManagers.SessionManager.Destroy | camouflare/sessions.py:331-342 | Removes a live session or attaches to its running cleanup |
| SessionManagers.SessionManager.Close | camouflare/sessions.py:355-364 | Removes every session |
| SessionManagers.SessionManager.CloserEnter | camouflare/sessions.py:394-400 | The close task takes the lock and starts the cleanup |
| SessionManagers.SessionManager.CloserEnd | camouflare/sessions.py:418-420 | The close task ends once the cleanup group is idle |
| SessionManagers.SessionManager.ClosingDone | camouflare/sessions.py:422-432 | The tombstone goes with its own task only |
| ContentDecoders.GzipDecoder.Decompress | camouflare/http_transport.py:1099-1122 | One call returns at most 65536 bytes, and whatever was given in whatever pieces, all that was returned is a prefix of what the bytes decode to; an error means the body is malformed |
| ContentDecoders.GzipDecoder.OutputSoFar | camouflare/http_transport.py:1088-1126 | With nothing pending everything the bytes decode to has been returned, and the state tells whether the body may end |
| ContentDecoders.GzipDecoder.Finish | camouflare/http_transport.py:1124-1126 | finish accepts exactly a body at a member boundary |
| ContentDecoders.DeflateDecoder.Decompress | camouflare/http_transport.py:1144-1168 | The same for deflate, zlib-wrapped or raw; data after the end is an error |
| ContentDecoders.DeflateDecoder.Finish | camouflare/http_transport.py:1170-1172 | finish accepts exactly a complete stream |
| ZlibStreams.EagerIsLawful | camouflare/http_transport.py:1111-1112 | The laws assumed of zlib are met by a library that decodes all it can, for every lawful format |
| ContentCoding.ParseGrows | camouflare/http_transport.py:1088-1172 | More bytes only add output and never mend a malformed body |
| ContentCoding.MembersDecode | camouflare/http_transport.py:1104-1117 | Any sequence of complete gzip members, each with any NUL padding after it, decodes to the concatenated contents |
| ContentCoding.GzipParseMeans | camouflare/http_transport.py:1088-1126 | Every gzip body read from its bytes: clean exactly if it is complete members, at least one, with NUL padding and nothing else; malformed exactly if what follows the members is; the output is what they hold |
| ContentCoding.HeaderIsRead | camouflare/http_transport.py:1178-1182 | The two bytes an encoder writes, from its window, level and dictionary bits and a check that makes them a multiple of 31, are a zlib header |
| ContentCoding.HeaderWasWritten | camouflare/http_transport.py:1178-1182 | Only those are: whatever is read as a header is what an encoder with some window, level and dictionary bit writes |
| ContentCoding.HeaderDecides | camouflare/http_transport.py:1144-1156 | A deflate body goes to the zlib decoder exactly if it begins with such a header, and to the raw one otherwise |
| ContentCoding.ZlibDecodes | camouflare/http_transport.py:1144-1182 | A complete zlib stream behind any header an encoder writes decodes to its content |
| ContentCoding.RawDecodes | camouflare/http_transport.py:1144-1182 | A complete raw stream that no such header begins decodes to its content |
| ContentCoding.DeflateParseMeans | camouflare/http_transport.py:1144-1172 | Every deflate body read from its bytes with the format its header decides: clean exactly if it is one complete stream, malformed if something follows one or none can be completed, truncated otherwise; the output is that of the stream |
| ResponseBody.LimitedBodyChunks | camouflare/http_transport.py:1010-1029 | The limiter, chunk by chunk |
| ResponseBody.LimitMeans | camouflare/http_transport.py:968-975 | A layer passes a body within the limit unchanged; a longer one fails, or passes exactly its first maximum_bytes in prefix mode; never more passes |
| ResponseBody.DrainDecoder | camouflare/http_transport.py:1039-1051 | The output_pending loop terminates and loses, repeats and invents nothing |
| ResponseBody.DecodedBodyChunks | camouflare/http_transport.py:1032-1052 | A decoding layer yields what the bytes below decode to, and fails exactly if they are malformed, end too early or failed |
| ResponseBody.DecodeBodyFull | camouflare/http_transport.py:961-998 | A full read returns a body exactly if every layer is clean and within the limit, and then that body: the chunks make no difference |
| ResponseBody.DecodeBodyPrefix | camouflare/http_transport.py:961-998 | A prefix read that succeeds returns, at every layer, the first maximum_bytes of what the first maximum_bytes below decode to, and it succeeds when no layer is malformed or cut short |
| ResponseBody.ChunkingIsIrrelevant | camouflare/http_transport.py:1032-1052 | Two splits of the same bytes succeed alike, with the same body |
| ResponseBody.ReadWire | camouflare/http_transport.py:934-942 | The wire is read up to the first chunk past the limit and no further |
| ResponseBody.CutIsUnseen | camouflare/http_transport.py:1017-1029 | To the first limiter the wire cut there and the whole wire look the same in both modes: the same chunks, the same ending |
| ResponseBody.CutIsHarmless | camouflare/http_transport.py:932-942 | Stopping there gives the outcome of reading the whole body, value or error, in full and in prefix mode |
| ResponseBody.ContentCodings | camouflare/http_transport.py:1068-1085 | The last coding applied comes off first; more than four or unknown ones are refused |
| ResponseBody.ReadResponseBody | camouflare/http_transport.py:917-950 | The full read of a response has the outcome of decoding the whole wire: all its content, or an error, exactly as its bytes, codings and declared length say |
| ResponseBody.ReadResponsePrefix | camouflare/http_transport.py:917-950 | The prefix read of a response has the outcome of decoding the whole wire, error or value; a value is the prefix that the bytes determine |
| ResponseBody.CutStops | camouflare/http_transport.py:934-942 | The wire as read is its shortest run of chunks longer than the limit, or all of it |
| ResponseBody.WrittenIsRead | camouflare/http_transport.py:1088-1172 | What an encoder wrote, gzip members with any padding, a zlib stream behind any header or a raw deflate stream, decodes cleanly to what it was given |
| ResponseBody.StackedCodingsRoundTrip | camouflare/http_transport.py:1068-1085 | Removing stacked codings in reversed order returns the body the server encoded if every layer fits the limit, and nothing otherwise |
| ResponseBody.ServedBodyIsRead | camouflare/http_transport.py:917-950 | A full read of what the server encoded returns that body, however the wire splits it, exactly if every layer and the declared length fit the limit |
| RedirectRun.RunFetch | camouflare/http_transport.py:273-358 | The loop makes exactly the hops of the run it specifies and terminates |
| RedirectRun.EveryHopIsPermitted | camouflare/http_transport.py:733-750 | At most max_redirects + 1 hops, each to a URL that meets the HTTPS and non-public-literal policy in force |
| RedirectRun.OriginIsSchemeHostPort | camouflare/http_transport.py:1200-1204 | Two URLs have one origin exactly if scheme, host and effective port agree: the port given unless it is absent or 0, and then 443 for https and 80 otherwise |
| RedirectRun.OriginBoundHeadersStay | camouflare/http_transport.py:1185-1198 | A caller header is on a hop exactly if it is not origin-bound or the hop has the first URL's scheme, host and effective port |
| RedirectRun.AddedHeaders | camouflare/http_transport.py:295-307 | Besides the caller's headers a hop carries the jar's cookies exactly if there are any and the caller gave no Cookie, and a Host field exactly if the URL needs one and the caller gave none |
| RedirectRun.FailuresHaveReasons | camouflare/http_transport.py:281-340 | A run fails only if nothing answers, the policy forbids the URL it stands at, or that URL or a header does not fit on the wire |
| RedirectRun.RedirectIsReturnedOnlyIfNotFollowed | camouflare/http_transport.py:320-336 | A redirect status is returned only at the limit or when its Location is absent, empty or unrequestable |
| RedirectRun.HopsFollowTheServer | camouflare/http_transport.py:317-336 | Every later hop is where the answer to the hop before it redirected to |
| NavigationBudget.ReserveIsHalfOrASecond | camouflare/navigation.py:244-279 | The navigation reserve is min(1000, max(1, unspent / 2)) |
| NavigationBudget.DerivedDeadline | camouflare/navigation.py:258-268 | A derived timer ends exactly reserve before its parent, whenever it is looked at, and exists exactly while that is in the future |
| NavigationBudget.ShortBudgetsStillNavigate | camouflare/navigation.py:271-279 | A navigation gets a timer exactly when two milliseconds are left, and leaves the reserve |
| NavigationBudget.TimersEndAtTheirDeadline | camouflare/timer.py:6-17 | What is left is the time to the deadline, and a timer is given a millisecond at least |
| NavigationBudget.StageTimeouts | camouflare/navigation.py:282-288 | With a millisecond left before the reserve a stage gets exactly 15000 or ends exactly where the reserve begins, whichever is sooner; otherwise it gets exactly 1 |
| NavigationBudget.FallbackShare | camouflare/navigation.py:143-180 | The time kept for an eligible fallback is half of what is left, 15000 at most, and none is kept otherwise |
| NavigationBudget.StagesLeaveTheShare | camouflare/navigation.py:159-180 | DOM wait and commit wait together end by the browser deadline, apart from time lost between them |
| NavigationBudget.BrowserStages | camouflare/navigation.py:143-241 | An eligible timeout fallback is left min(15000, half the navigation budget), less only time lost outside the stages |
| NavigationBudget.NavigateGet | camouflare/navigation.py:104-241 | The same for the whole navigation, and exactly when it is refused at once; origin-bound headers never go through the browser, are rejected exactly without leave for a direct fetch or with a screenshot, and an answered request still has time to collect |
| NavigationBudget.FetchDirectly | camouflare/navigation.py:128-130 | A direct fetch ends before the time kept for collecting |
| BlockPage.BlockedMeansFoundInContainer | camouflare/challenge.py:286-336 | For every event stream the page is blocked exactly if block structure was found with the container open, and nothing is collected while it is closed |
| BlockPage.ContainerFollowsNesting | camouflare/challenge.py:288-328 | For every well-nested document the container is open exactly inside a container element, as the tree alone says |
| BlockPage.TitledAfter | camouflare/challenge.py:286-290 | The parser has met a title exactly if the document had one so far |
| BlockPage.StaysOpen | camouflare/challenge.py:291-298 | Nested elements of the same tag and void elements leave the container open at the same depth |
| BlockPage.BlockedDocumentHasContainer | camouflare/challenge.py:300-308 | A well-nested document without a container element is never blocked |
| BlockPageMeaning.BlockedExactly | camouflare/challenge.py:286-336 | For every event stream, read off the tags and texts alone: the page is blocked exactly if an element of the container is marked as the headline, the text of one of its headings is the headline, or the text of its first code element still open at that end tag is a code of a block |
| BlockPageMeaning.ContainerAndTitle | camouflare/challenge.py:286-328 | For every event stream the container is open exactly while its own tags are unbalanced, from the first start tag with its id that is neither void nor the first title; and the title is the text of the first title that ended |
| BlockPage.HardBlockStructureParser.HandleStartTag | camouflare/challenge.py:286-308 | Handles a start tag in place as the specified machine does |
| BlockPage.HardBlockStructureParser.HandleEndTag | camouflare/challenge.py:310-328 | Handles an end tag in place as the specified machine does |
| BlockPage.HardBlockStructureParser.HandleData | camouflare/challenge.py:330-336 | Handles text in place as the specified machine does |
| BlockPage.HardBlockStructureParser.Feed | camouflare/challenge.py:272-336 | Handles the events of a document in place as the specified machine does |

## Left out

- Metrics, logging, `snapshot()`, `is_full_and_serving()`: read-only views.
- `start()` above `_start_once` (sharing one startup between callers and counting them): the model lets a startup begin, be cancelled and end at any time.
- `_create_supervisors`, `_accounting_tasks`, `_cleanup_tasks`, the cleanup scopes held by pool tasks, `_close_lock`: bookkeeping of tasks; the model keeps what the tasks do to the pool.
- BrowserPools.BrowserPool.PersistentRelease: needs the persistent lease's slot to be released first, the order in which the pool-owned finalizer gives the two back; nothing in the repository cancels that finalizer, and one that is cancelled in between is not modelled.
- Clock readings within one pass over the slots: a refresh reads the clock once, the choice of a slot once more; the source reads it for each slot.
- BrowserPools.BrowserPool.StartupFailed: closes the browsers in the order of the startup's launches; the source's order is that of a set.
- The immediate second attempt inside `_run_close_slot`: both attempts are one close of the model.
- Whom the pool's `notify_all` wakes: a parked caller of the model may wake at any time, which allows more runs; `PoolWakeups` says which sections must notify.
- One outcome per cleanup task in the metrics, the kinds of cleanup, and the last pass of `CleanupSupervisor.close` over unfinished tasks as a loop (it is a step of `CleanupRuns`).
- Same-id creation waiters (`creating`, `wait_for_creation`), proxies and time-to-live resolution of sessions, session rotation as one operation: a rotation is a `destroy` followed by a registration here.
- Cancellation of the manager's own close task: nothing in the repository cancels it; every request may be cancelled anywhere.
- The context that loses a registration race: it is closed by the request that built it and never enters the registry.
- zlib itself: `ZlibStreams.Lawful` is what is assumed of it. A `decompress` call that raises is assumed to lose its output, as in the source.
- Deadlines inside body decoding (`_ensure_deadline`) and the wording and kind of decoding errors, which do depend on the chunks.
- Header parsing of Content-Encoding and Content-Length, responses without a body, URL parsing, cookies, IDNA and address classification: parameters of `RedirectRun.World` and of the read methods.
- The request semaphore and shutdown of `HttpTransport`, SOCKS and TLS.
- NavigationBudget.NavigateGet: what a fallback fetch does with its time is not modelled, nor which exceptions count as a timeout; fractions of a millisecond are not.
- `wait_for_challenge_cleared`, page titles and the corroboration of a block page by its title or status; text comparisons of the block-page parser are given as `Texts`.
- Playwright and Camoufox, captchas, screenshots, HTTP routing, HTML documentation, the SOCKS bridge.
