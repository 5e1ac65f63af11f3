# cpptb, modelled and proved in Dafny

cpptb runs C++ coroutine testbenches against a hardware simulator. This project models its single-threaded
scheduler, the primitives built on it, and the arithmetic, random, coverage, text and phase-loop code around it,
and proves what they promise.

* **Scheduler.** `Registrations`, `EdgeWaits`, `PhaseWaits` and `TimerQueue` hold the wait tables: registrations
  tagged by generations, queues that drop dead entries lazily, a timer heap with a cached minimum, and counters that
  repeat what the queues say. `WaitCore` puts them together, `Delivery` says whom an edge, a time or a phase wakes.
  `SchedulerState` gives every operation as a function on the state; `SchedulerLife`, `SchedulerEnd`, `Cancellation`,
  `SchedulerRun` and `ReadyRun` show that each keeps the invariant; `SchedulerRuns` proves it over whole runs in
  which coroutines make arbitrary calls. `Schedulers` has the class whose methods update the fields step by step; each
  is proved equal to its function, with the aborts of the source shown unreachable or reported, and `Drivers` shows that
  the class makes every run.
* **Over whole runs.** `Lifecycle` follows each coroutine from ready to running to waiting and back, with nobody who is
  ready forgotten; `Handover` says what a drain leaves behind, `Clocks` what time it is, `Alarms` that the simulator side
  is never left waiting for a time that is past. `Requests` and `Timeouts` tie what a coroutine asked for to what wakes
  it, `ProcessWaits` the completion of a process to those who wait for it, `JoinCounts`
  the counter of a join to its living children, `RequestedCancels` a cancellation asked for to the one carried out.
  `Interests` and `StickySources` say what the simulator side knows of whom to report edges for, and
  `Deadlock` and `WaitGraph` what the verdict of the wait graph means. `ResumeStack` keeps account of resumes that have
  not returned.
* **Reservations.** `ExternalWaits` is what `Queues`, `Semaphores` and `Locks` share: a waker reserves for a waiter, who
  may be cancelled before it runs and is then found by a sweep or by its destructor. Runs interleave arrivals, wakes,
  resumes, cancellations, sweeps and destructors in any order. `QueueIdle` says exactly when a queue leaves something
  idle, and `Locks` what becomes of ownership when somebody releases a lock that is not its own.
* **Both together.** `ParkedWaits` proves that nothing but its primitive wakes a wait of a primitive; `WaitLink` ties
  what a primitive sees of its waits to the slots and generations of the scheduler; `JointRuns` shows that every
  interleaving is a run of both, and `JointPrimitives` draws the conclusions for lock, semaphore and queue.
* **Numbers and texts.** `PackedBits`, `TextForms` and `FixedPoint` work on bits and unbounded integers with every
  cut to 32 or 128 bits written out.
* **Random, coverage, phases.** `Randomness` counts which words give which value, and `RandomWords` gives the generator
  in numbers, forwards and backwards; `Crosses`, `Coverpoints` and `Snapshots` account for every hit, over one run and
  two; `PhaseLoop` is the direct timing loop with deferred writes.

Four promises turned out not to hold on all inputs. The code is modelled as it is, each has a concrete example, and
the exact condition is proved:

* `quantize` with saturation gives the highest value for a negative source exactly when a left shift pushes its whole
  magnitude out of 128 bits (`FixedPoint.Quantize`; `SignLostExample`).
* `CoverageSnapshot::merge` adds every counter but the illegal count of a cross, although it is described as the
  accumulation across runs. A merged cross is that of both runs together exactly when the run merged in met no illegal
  combination (`Snapshots.MergedRuns`; `CrossIllegalExample`).
* `Queue::cleanup` frees the item of a cancelled consumer, and the place of a cancelled producer, without offering it
  again, so that it can lie idle while somebody is parked for it. For every event the exact condition on the state
  before it is given (`QueueIdle.IdleItemExact`, `StrandsExact` and `IdlePlaceExact`; `Queues.IdleItemExample` and
  `QueueIdle.IdlePlaceExample`).
* A direction of interest in a sticky source is announced once only. A consumer that adds up what it reads, as the
  generated bindings do for clocks, covers whoever listens exactly unless a change was read when the wait behind it was
  over already: that direction is never announced again (`StickySources.StickyExact`; `LostExample`).

`Lock` promises no owner, and `docs/testbench-authoring.md:153` says so: mutual exclusion rests on who releases. The
owners agree with the lock exactly as long as every release is made by one of them (`Locks.OwnersExact`,
`AtMostOneOwner`; `TwoOwnersExample`).

Each file holds the module of its name. `dafny verify dfyconfig.toml` checks everything.

## Model

| member | source | states |
|---|---|---|
| Registrations.CountEnd | include/cpptb/coro_runtime.hpp:2408-2441 | ending a wait kills exactly the queue entries of that wait: the live count of any queue drops by the entries it holds |
| Registrations.CountBegin | include/cpptb/coro_runtime.hpp:2362-2406 | a wait under a fresh generation revives no old entry of any queue |
| Registrations.WakeOrderExact | include/cpptb/coro_runtime.hpp:2541-2564 | resuming the entries of a queue one by one wakes every slot with a live entry once and no other slot, and ends exactly those waits |
| Registrations.AfterWakeAllDead | include/cpptb/coro_runtime.hpp:2552-2564 | once all its entries have been resumed a queue holds no live entry |
| EdgeWaits.RaiseInterestExact | include/cpptb/coro_runtime.hpp:2327-2342 | adding interest raises the counter of its own edge alone and announces the change unless the source is static |
| EdgeWaits.EnqueueExact | include/cpptb/coro_runtime.hpp:1418-1429 | a new entry raises the totals it belongs to, and only its own queue |
| EdgeWaits.RegisterKeeps | include/cpptb/coro_runtime.hpp:2327-2342 | registering keeps the edge bookkeeping exact: entry total, dead total, falling total, interest and per-slot counters agree with the queues |
| EdgeWaits.ReleaseKeeps | include/cpptb/coro_runtime.hpp:2344-2360 | releasing a slot keeps the edge bookkeeping exact and announces every change of interest |
| EdgeWaits.ReleaseNothing | include/cpptb/coro_runtime.hpp:2408-2441 | the early return of end_wait skips nothing: a slot without edge registrations has nothing to release |
| EdgeWaits.CompactExact | include/cpptb/coro_runtime.hpp:2566-2587 | compaction removes exactly the dead entries of all queues, loses no live one, and sets the stale counter to zero |
| EdgeWaits.StaleCoversQueue | include/cpptb/coro_runtime.hpp:2552-2564 | the stale counter is never smaller than the dead entries of a queue, so counting them off cannot underflow |
| PhaseWaits.CountsCoverWait | include/cpptb/coro_runtime.hpp:2408-2441 | a slot never holds more phase registrations than the phase counter shows, so the underflow abort is unreachable |
| PhaseWaits.PhaseRegisterKeeps | include/cpptb/coro_runtime.hpp:2490-2512 | registering for a phase keeps the phase counters equal to the live registrations |
| PhaseWaits.PhaseReleaseKeeps | include/cpptb/coro_runtime.hpp:2408-2441 | releasing a slot keeps the phase counters equal to the live registrations |
| TimerQueue.PushExact | include/cpptb/coro_runtime.hpp:2602-2615 | pushing keeps cached minimum and heap sorted as one list that gains exactly the new timer |
| TimerQueue.DiscardExact | include/cpptb/coro_runtime.hpp:2589-2600 | discarding drops exactly the dead timers before the first live one, and an empty cache means an empty heap |
| TimerQueue.AddTimerExact | include/cpptb/coro_runtime.hpp:2470-2489 | arming adds exactly one timer, and marks the schedule whenever the earliest live deadline moved forward |
| TimerQueue.EarliestAfterEnd | include/cpptb/coro_runtime.hpp:1902-1912 | timers that die can only move the earliest live deadline back |
| WaitCore.ValidIsLive | include/cpptb/coro_runtime.hpp:2534-2539 | a registration is valid just when it is live under the tokens of the slots |
| WaitCore.EndWaitIsRelease | include/cpptb/coro_runtime.hpp:2408-2441 | with or without its early return, end_wait is the full release of the slot |
| WaitCore.EndWaitKeeps | include/cpptb/coro_runtime.hpp:2408-2441 | end_wait keeps the whole wait invariant and touches no other slot |
| WaitCore.BeginWaitKeeps | include/cpptb/coro_runtime.hpp:2362-2406 | begin_wait supersedes the old wait and starts one that is valid and has no timer or registration yet |
| WaitCore.RegisterWaitKeeps | include/cpptb/coro_runtime.hpp:2461-2515 | an accepted registration keeps the wait invariant, ends nobody's wait, and leaves the ready queue alone |
| WaitCore.ParkFirstKeeps | include/cpptb/coro_runtime.hpp:1432-1446 | a wait for the first of several triggers keeps the wait invariant with exact summary flags |
| WaitCore.MakeReadyKeeps | include/cpptb/coro_runtime.hpp:2617-2629 | making ready queues the slot unless it is queued, and keeps the number of ready slots equal to its counter |
| WaitCore.ResumeRegWakes | include/cpptb/coro_runtime.hpp:2541-2550 | resuming a registration wakes its slot if, and only if, the registration is live |
| Delivery.ResumeEntriesExact | include/cpptb/coro_runtime.hpp:2552-2564 | the guard against underflow when entries are counted off never changes the outcome |
| Delivery.ResumeEdgeQueueWakes | include/cpptb/coro_runtime.hpp:2552-2564 | an edge queue wakes each coroutine with a live registration in it once, in order, and nobody else, and ends empty |
| Delivery.DeliverEdgeExact | include/cpptb/coro_runtime.hpp:1762-1781 | an edge wakes exactly the coroutines with a live registration for it or for any edge of the signal, the specific ones first |
| Delivery.DiscardRestores | include/cpptb/coro_runtime.hpp:2589-2600 | discarding restores the full invariant after the cache was emptied |
| Delivery.DeliverTimeExact | include/cpptb/coro_runtime.hpp:1783-1804 | advancing wakes exactly the coroutines with a live timer due by then, each once, by deadline and then by order of arming |
| Delivery.DeliverPhaseExact | include/cpptb/coro_runtime.hpp:1806-1822 | a phase wakes exactly the coroutines that wait for it, in order of registration, and its counter ends at zero |
| SchedulerLife.AdoptKeeps | include/cpptb/coro_runtime.hpp:1368-1407 | adopting takes a free or a new slot and keeps the whole invariant |
| SchedulerLife.SpawnKeeps | include/cpptb/coro_runtime.hpp:1305-1352 | spawning a process keeps the whole invariant |
| SchedulerLife.SpawnDetachedKeeps | include/cpptb/coro_runtime.hpp:1354-1366 | spawning a detached task keeps the whole invariant |
| SchedulerLife.StartJoinKeeps | include/cpptb/coro_runtime.hpp:1449-1474 | starting a join keeps the whole invariant, its children being younger than the parent |
| SchedulerLife.BeginTimeoutKeeps | include/cpptb/coro_runtime.hpp:1477-1492 | entering a timed wait keeps the whole invariant but for the flags of the parent, whose timer is armed later |
| SchedulerEnd.FinishKeeps | include/cpptb/coro_runtime.hpp:1599-1624 | finishing keeps the whole invariant when no child is alive |
| SchedulerEnd.CancelOneKeeps | include/cpptb/coro_runtime.hpp:2220-2261 | cancelling a coroutine without living children ends it as a finished child does and keeps the whole invariant |
| Cancellation.ReachesThroughChild | include/cpptb/coro_runtime.hpp:2220-2240 | whoever will resume into a coroutine does so through one that awaits it directly: a continuation or a join child |
| Cancellation.DependentsSplit | include/cpptb/coro_runtime.hpp:2220-2240 | the scan finds the way to every dependent: they are the coroutine itself and the dependents of the children found |
| Cancellation.CancelStateExact | include/cpptb/coro_runtime.hpp:2220-2261 | the recursion over the children ends exactly the coroutines that reach the target |
| Cancellation.CancelExact | include/cpptb/coro_runtime.hpp:2220-2261 | cancelling marks done exactly the target and the live coroutines that reach it, lowers the active count by their number, leaves none of them ready or waiting and no old registration of theirs valid |
| Cancellation.CancelWakesWaiters | include/cpptb/coro_runtime.hpp:2131-2156 | the survivors notice only through the completion waiters of the target's process, which are woken if still valid |
| SchedulerRun.ParkStep | include/cpptb/coro_runtime.hpp:1409-1416 | parking keeps the whole invariant and revives no registration |
| SchedulerRun.ParkFirstStep | include/cpptb/coro_runtime.hpp:1432-1446 | so does parking for several triggers |
| SchedulerRun.ParkProcessStep | include/cpptb/coro_runtime.hpp:1502-1532 | so does waiting for a process |
| SchedulerRun.EndTimeoutStep | include/cpptb/coro_runtime.hpp:1493-1500 | arming the timer of a timed wait never aborts and restores exact flags, whether or not the wait was superseded meanwhile |
| SchedulerRun.JoinChildStep | include/cpptb/coro_runtime.hpp:1668-1682 | the last child of a join wakes the parent only if it still waits |
| SchedulerRun.FinalSuspendStep | include/cpptb/coro_runtime.hpp:2914-2931 | the final suspension keeps the whole invariant |
| SchedulerRun.CancelProcessStep | include/cpptb/coro_runtime.hpp:1626-1640 | cancelling a process at once or on request keeps the whole invariant |
| SchedulerRun.ApplyPendingStep | include/cpptb/coro_runtime.hpp:2211-2218 | applying the requested cancellations keeps the whole invariant |
| SchedulerRun.CancelAwaitedStep | include/cpptb/coro_runtime.hpp:1750-1760 | cancelling a timed task keeps the whole invariant |
| SchedulerRun.ForgetExact | include/cpptb/coro_runtime.hpp:1719-1742 | reclaiming an awaited task takes exactly its entry off the list of finished ones |
| SchedulerRun.ReclaimAwaitedStep | include/cpptb/coro_runtime.hpp:1719-1742 | reclaiming a finished awaited task succeeds and keeps the whole invariant |
| SchedulerRun.BoundaryStep | include/cpptb/coro_runtime.hpp:2691-2752 | the boundary reclaims finished slots and keeps the whole invariant |
| ReadyRun.TakeEntryExact | include/cpptb/coro_runtime.hpp:2642-2666 | consuming an entry, with or without compacting the prefix, loses no other entry |
| ReadyRun.PopReadyStep | include/cpptb/coro_runtime.hpp:2642-2666 | one turn of the drain keeps the whole invariant |
| ReadyRun.EndDrainStep | include/cpptb/coro_runtime.hpp:2631-2666 | a finished drain leaves nobody ready |
| ReadyRun.OnlyReady | include/cpptb/coro_runtime.hpp:1534-1591 | when one slot is ready the truncation of the queue drops only stale entries |
| ReadyRun.BeginInlineStep | include/cpptb/coro_runtime.hpp:1534-1591 | running a process inline keeps the whole invariant |
| ReadyRun.ResumeEdgeStep | include/cpptb/coro_runtime.hpp:1762-1781 | delivering an edge keeps the whole invariant |
| ReadyRun.AdvanceTimeStep | include/cpptb/coro_runtime.hpp:1783-1804 | advancing time keeps the whole invariant |
| ReadyRun.ResumePhaseStep | include/cpptb/coro_runtime.hpp:1806-1822 | delivering a phase keeps the whole invariant |
| SchedulerRuns.RunKeepsInvariant | include/cpptb/coro_runtime.hpp:1215-2816 | the invariant, with every counter, list and flag, holds in every state of every run of calls, drain turns and deliveries |
| SchedulerRuns.DeadStaysDead | include/cpptb/coro_runtime.hpp:2534-2550 | a dead registration stays dead for the rest of any run, however often its slot is recycled |
| SchedulerRuns.ReplayMirrors | include/cpptb/coro_runtime.hpp:1894-1900 | in every run a consumer that replays the interest changes agrees with edge_interest for every signal that is not sticky and has no change left to read |
| SchedulerRuns.NoMissedDeadline | include/cpptb/coro_runtime.hpp:1902-1912 | in every run, while the schedule is not marked, the deadline read last is at most every live deadline |
| Interests.MaskExact | include/cpptb/coro_runtime.hpp:2297-2308 | the interest in a source that is not static says rising exactly when a rising edge would wake somebody, and falling likewise; a wait for any edge is in both |
| Interests.NoMissedEdge | include/cpptb/coro_runtime.hpp:1894-1900 | in every run an edge that would wake somebody lies within what a replaying consumer believes, once no change of its source is left to read, unless the source is static or sticky |
| StickySources.StepSticky | include/cpptb/coro_runtime.hpp:2310-2325 | a direction of a sticky source is announced, unknown to a consumer that adds up what it reads and not about to be read just when it was so before or a change was read after the wait that caused it was over |
| StickySources.StickyExact | include/cpptb/coro_runtime.hpp:2310-2325 | in every run such a consumer covers an edge of a sticky source that would wake somebody exactly if its direction was not lost when the last change of the source was read |
| StickySources.LostExample | include/cpptb/coro_runtime.hpp:2310-2325 | a wait for a falling edge begins, ends and begins again, with its change read in between: nothing is left to read and the direction was never in what was read |
| Requests.ParkHolds | include/cpptb/coro_runtime.hpp:1409-1429 | parking leaves the one trigger asked for, with the deadline counted from the time of the call, in the queues and nothing else for the new wait |
| Requests.ParkFirstHolds | include/cpptb/coro_runtime.hpp:1432-1446 | parking for the first of several triggers leaves exactly these, each under its index |
| Requests.HearsEdge | include/cpptb/coro_runtime.hpp:1762-1781 | an edge ends a wait exactly when one of its triggers is that edge, or any edge, of the signal, and the index of the first such trigger wins |
| Requests.HearsPhase | include/cpptb/coro_runtime.hpp:1806-1822 | a phase ends a wait exactly when it is one of its triggers, and the first such trigger wins |
| Requests.HearsTime | include/cpptb/coro_runtime.hpp:1783-1804 | advancing to a time ends a wait exactly when one of its deadlines is due, and the earliest wins, the first among equals |
| Requests.AskedIsHeard | include/cpptb/coro_runtime.hpp:1409-1446 | in every run, as long as a coroutine is in the wait it asked for, it is woken by the edges, phases and times it asked for and by no others, with the right winner |
| Timeouts.TimeoutIsHeard | include/cpptb/coro_runtime.hpp:1477-1500 | in every run a timed wait is ended by the delay asked for, counted from the return of the child, and by no other delivery |
| ProcessWaits.AwaitedExact | include/cpptb/coro_runtime.hpp:1502-1532 | in every run a coroutine that is still in its wait for a process is parked, and listed with the process, exactly while the process has not completed |
| ProcessWaits.CompletionWakes | include/cpptb/coro_runtime.hpp:2142-2156 | the step that ends such a wait is the one in which the process completes, by finishing or by cancellation, and it makes the coroutine ready |
| JoinCounts.StartJoinKids | include/cpptb/coro_runtime.hpp:1449-1474 | a join of n begins with n living children and n to count down, and no other join gets any |
| JoinCounts.RemainingExact | include/cpptb/coro_runtime.hpp:1666-1682 | in every run what a join has left to count down is the number of its living children and of those that were cancelled by themselves |
| JoinCounts.LastChildWakes | include/cpptb/coro_runtime.hpp:1666-1682 | in every run the final suspension of a child ends the wait of the parent exactly when no other child of the join is alive and none was cancelled by itself |
| Lifecycle.StepAdvances | include/cpptb/coro_runtime.hpp:2362-2666 | every step takes each coroutine the one way: whoever is ready stays so until it is resumed, ends or waits; a wait ends by becoming ready; new coroutines are ready or, if awaited, have control; the drain gives control to the first entry that is not stale |
| Lifecycle.ReadyIsResumed | include/cpptb/coro_runtime.hpp:2631-2666 | in every run whoever was ready before the end of a drain has been resumed by then, or has ended |
| Handover.NobodyForgotten | include/cpptb/coro_runtime.hpp:2631-2640 | in every run in which coroutines call while they run, nobody is ready unless a drain is under way |
| Handover.LeavesNothing | include/cpptb/coro_runtime.hpp:2691-2752 | in every run a drain ends with nobody ready, no finished coroutine in a slot and few dead edge registrations; a coroutine that gives up control leaves no finished process behind |
| Handover.SpawnBegins | include/cpptb/coro_runtime.hpp:1305-1352 | a spawned process is one new coroutine, ready, in a drain, under the control that the caller gets |
| Handover.SpawnDetachedBegins | include/cpptb/coro_runtime.hpp:1354-1366 | so is a detached task, without a control |
| Handover.AwaitBegins | include/cpptb/coro_runtime.hpp:2941-2958 | an awaited task is one new coroutine that has control and that its parent depends on |
| Handover.CancelMarks | include/cpptb/coro_runtime.hpp:1626-1640 | whatever is cancelled, at once or later on request, the schedule is marked changed |
| Handover.InlineExact | include/cpptb/coro_runtime.hpp:1534-1566 | a process is run inline exactly when it has not completed, nobody else is ready and fewer than 64 resumes on the stack are inline, so that the drain would run it next anyway |
| ResumeStack.StepStack | include/cpptb/coro_runtime.hpp:2631-2666 | what every step pushes on and pops off the stack of resumes, and exactly when a drain is under way after it |
| RequestedCancels.CancelControls | include/cpptb/coro_runtime.hpp:2220-2261 | cancelling a coroutine completes its own process as cancelled, and no other process |
| RequestedCancels.StepProcesses | include/cpptb/coro_runtime.hpp:2131-2156 | in any step a process completes uncancelled only by finishing in its own slot; a request stays until the process has completed, and the next return to the drain leaves none unmet |
| RequestedCancels.RequestsExact | include/cpptb/coro_runtime.hpp:1626-1640 | in every run cancellation is outstanding for exactly the listed processes that have not completed |
| RequestedCancels.RequestIsMet | include/cpptb/coro_runtime.hpp:2211-2218 | in every run a process whose cancellation was asked for has completed, and no coroutine runs it, at once or when the next coroutine has given up control; it was cancelled unless it finished by itself in between |
| Clocks.ClockExact | include/cpptb/coro_runtime.hpp:1762-1822 | in every run the current time and phase are those of the last delivery |
| Clocks.DelayExact | include/cpptb/coro_runtime.hpp:2517-2533 | a delay is accepted just when it is a whole number of ticks other than zero |
| Clocks.AcceptedExact | include/cpptb/coro_runtime.hpp:2461-2515 | in every run a wait is rejected exactly for a bad delay, or for ReadWrite or ReadOnly when ReadOnly was the last delivery |
| Clocks.ScheduleExact | include/cpptb/coro_runtime.hpp:1902-1912 | in every run reading a marked schedule gives the earliest deadline of a live timer, or none, and takes the mark off unless dead timers were dropped on the way |
| Alarms.AlarmAhead | include/cpptb/coro_runtime.hpp:1783-1804 | in every run every timer is due later than now, or never, and unless the schedule is marked the deadline read last is exactly that of the cached timer: no alarm is left in the past |
| Alarms.FireMarks | include/cpptb/coro_runtime.hpp:1787-1798 | advancing past the cached timer marks the schedule, whether the timer is taken or dropped as dead |
| Clocks.RegisteredExact | include/cpptb/coro_runtime.hpp:2461-2515 | in every run the mark that forbids further configuration of sources is set just when some step has registered a wait |
| Deadlock.FlagsExact | include/cpptb/coro_runtime.hpp:2033-2084 | at a quiescent moment both summary flags of every coroutine say exactly whether it has live timers and live edge or phase registrations |
| Deadlock.DeadlockExact | include/cpptb/coro_runtime.hpp:1928-2084 | at a quiescent moment the verdict is Deadlocked just when somebody is alive and nobody has a live timer, edge or phase registration |
| Deadlock.VerdictExact | include/cpptb/coro_runtime.hpp:2070-2084 | at such a moment a live timer anywhere makes it WaitingForTime, only without one a live edge or phase registration makes it WaitingForSimulator, Complete means nobody is alive, and Runnable does not occur |
| Deadlock.VerdictMeans | include/cpptb/coro_runtime.hpp:1928-2084 | WaitingForTime exactly when some advance of time would make somebody ready, WaitingForSimulator exactly when some edge or phase would and no advance of time |
| Deadlock.VerdictAfterDrain | include/cpptb/coro_runtime.hpp:2631-2666 | every finished drain of every run is such a moment, so there every verdict is exact |
| Deadlock.DeadlockIsForever | include/cpptb/coro_runtime.hpp:1762-1822 | after a deadlock no sequence of edges, times and phases makes anybody ready or changes the verdict |
| Deadlock.DeadlockIsUnwakeable | include/cpptb/coro_runtime.hpp:1928-2084 | at a quiescent moment with somebody alive, the verdict is Deadlocked just when no single delivery would make anybody ready |
| WaitGraph.EdgesExact | include/cpptb/coro_runtime.hpp:2037-2060 | the edges of the wait graph are exactly those of the wait forest: who is to resume whom |
| WaitGraph.RunnableExact | include/cpptb/coro_runtime.hpp:2062-2076 | at any moment the verdict is Runnable exactly when somebody whom nobody alive is to resume is ready or was resumed last; a child that got control from its parent does not count |
| WaitGraph.StepRunning | include/cpptb/coro_runtime.hpp:1567-1574 | who was resumed last and has not returned, after every step |
| Schedulers.Scheduler.constructor | include/cpptb/coro_runtime.hpp:1217-1223 | a new scheduler is in the initial state of every run |
| Schedulers.Scheduler.RecordInterestChange | include/cpptb/coro_runtime.hpp:2310-2325 | refines the announcement of one interest change |
| Schedulers.Scheduler.RemoveEdgeInterests | include/cpptb/coro_runtime.hpp:2344-2360 | refines the loop over a slot's edges; neither underflow abort can be reached |
| Schedulers.Scheduler.BeginSlotWait | include/cpptb/coro_runtime.hpp:2362-2406 | refines begin_wait and returns the fresh generation |
| Schedulers.Scheduler.EndSlotWait | include/cpptb/coro_runtime.hpp:2408-2441 | refines end_wait; the phase underflow abort cannot be reached |
| Schedulers.Scheduler.AddEdgeInterest | include/cpptb/coro_runtime.hpp:2327-2342 | refines add_edge_interest |
| Schedulers.Scheduler.RegisterPhase | include/cpptb/coro_runtime.hpp:2490-2512 | refines the registration for a phase |
| Schedulers.Scheduler.RegisterEdge | include/cpptb/coro_runtime.hpp:1418-1429 | refines the registration for one edge |
| Schedulers.Scheduler.RegisterRequest | include/cpptb/coro_runtime.hpp:2461-2515 | refines register_wait, including the two cases in which it aborts |
| Schedulers.Scheduler.ParkFor | include/cpptb/coro_runtime.hpp:1409-1416 | refines park, including its abort |
| Schedulers.Scheduler.ParkForFirst | include/cpptb/coro_runtime.hpp:1432-1446 | refines park_first, trigger by trigger, including its abort |
| Schedulers.Scheduler.DiscardStaleTimers | include/cpptb/coro_runtime.hpp:2589-2600 | refines the discarding loop over cache and heap |
| Schedulers.Scheduler.PushTimer | include/cpptb/coro_runtime.hpp:2602-2615 | refines push_timer |
| Schedulers.Scheduler.NextTimerDeadline | include/cpptb/coro_runtime.hpp:1908-1912 | refines next_timer_deadline |
| Schedulers.Scheduler.ResumeRegistration | include/cpptb/coro_runtime.hpp:2541-2550 | refines resume_registration and tells whether the registration was valid |
| Schedulers.Scheduler.ResumeQueue | include/cpptb/coro_runtime.hpp:2552-2564 | refines resume_edge_queue with its per-entry counting |
| Schedulers.Scheduler.CompactStaleEdgeQueues | include/cpptb/coro_runtime.hpp:2566-2587 | refines the compaction loop over all queues |
| Schedulers.Scheduler.DeliverEdgeTo | include/cpptb/coro_runtime.hpp:1762-1771 | refines resume_edge up to the drain or boundary |
| Schedulers.Scheduler.FireDue | include/cpptb/coro_runtime.hpp:1787-1798 | refines the loop of advance_time |
| Schedulers.Scheduler.DeliverTimeTo | include/cpptb/coro_runtime.hpp:1783-1798 | refines advance_time up to the drain or boundary, including its early return |
| Schedulers.Scheduler.DeliverPhaseTo | include/cpptb/coro_runtime.hpp:1806-1816 | refines resume_phase up to the drain or boundary |
| Schedulers.Scheduler.MakeSlotReady | include/cpptb/coro_runtime.hpp:2617-2629 | refines make_ready |
| Schedulers.Scheduler.ClearReadySlot | include/cpptb/coro_runtime.hpp:2679-2683 | refines clear_ready |
| Schedulers.Scheduler.AdoptCoroutine | include/cpptb/coro_runtime.hpp:1368-1407 | refines adopt and returns the slot taken |
| Schedulers.Scheduler.SpawnProcess | include/cpptb/coro_runtime.hpp:1305-1352 | refines spawn_owned up to the drain |
| Schedulers.Scheduler.SpawnDetachedTask | include/cpptb/coro_runtime.hpp:1354-1366 | refines spawn_detached up to the drain |
| Schedulers.Scheduler.StartJoinOf | include/cpptb/coro_runtime.hpp:1449-1474 | refines start_join |
| Schedulers.Scheduler.StartTimeout | include/cpptb/coro_runtime.hpp:1477-1492 | refines start_timeout up to the resume of the child, including its abort |
| Schedulers.Scheduler.FinishTimeout | include/cpptb/coro_runtime.hpp:1493-1500 | refines the rest of start_timeout |
| Schedulers.Scheduler.ParkForProcess | include/cpptb/coro_runtime.hpp:1502-1532 | refines park_process and tells whether the coroutine has to wait |
| Schedulers.Scheduler.RunProcessIfOnlyReady | include/cpptb/coro_runtime.hpp:1534-1574 | refines the inline fast path up to the resume, with its depth limit, and tells whether the process was done already |
| Schedulers.Scheduler.AfterInline | include/cpptb/coro_runtime.hpp:1575-1591 | refines what follows the inline resume; the parent is deferred just when the process is done and it failed, cancellations are pending or somebody is ready |
| Schedulers.Scheduler.CompleteProcessOf | include/cpptb/coro_runtime.hpp:2142-2156 | refines complete_process: it marks the process and wakes its valid waiters |
| Schedulers.Scheduler.FinishCoroutine | include/cpptb/coro_runtime.hpp:1599-1624 | refines finish |
| Schedulers.Scheduler.JoinChildDone | include/cpptb/coro_runtime.hpp:1668-1682 | refines finish_join_child |
| Schedulers.Scheduler.SuspendFinally | include/cpptb/coro_runtime.hpp:2914-2931 | refines the final suspension |
| Schedulers.Scheduler.ScanForChildren | include/cpptb/coro_runtime.hpp:2220-2240 | refines the scan of cancel_state |
| Schedulers.Scheduler.CancelSlot | include/cpptb/coro_runtime.hpp:2220-2261 | refines cancel_state by recursion over the children, which ends |
| Schedulers.Scheduler.CancelProcessOf | include/cpptb/coro_runtime.hpp:1626-1640 | refines cancel_process |
| Schedulers.Scheduler.ApplyPendingCancellations | include/cpptb/coro_runtime.hpp:2211-2218 | refines apply_pending_cancellations |
| Schedulers.Scheduler.CancelAwaitedTask | include/cpptb/coro_runtime.hpp:1750-1760 | refines cancel_awaited |
| Schedulers.Scheduler.ReclaimSlot | include/cpptb/coro_runtime.hpp:2714-2752 | refines reclaim_finished_state |
| Schedulers.Scheduler.CollectFinishedRoots | include/cpptb/coro_runtime.hpp:2697-2712 | refines the collection of finished processes |
| Schedulers.Scheduler.CollectFinishedStates | include/cpptb/coro_runtime.hpp:2701-2712 | refines the collection of finished children |
| Schedulers.Scheduler.SchedulerBoundary | include/cpptb/coro_runtime.hpp:2691-2695 | refines scheduler_boundary |
| Schedulers.Scheduler.ReclaimAwaitedTask | include/cpptb/coro_runtime.hpp:1719-1742 | refines reclaim_awaited, including its abort |
| Schedulers.Scheduler.NextReady | include/cpptb/coro_runtime.hpp:2642-2660 | refines one turn of the drain up to the resume |
| Schedulers.Scheduler.AfterResume | include/cpptb/coro_runtime.hpp:2642-2666 | refines what follows a resume in the drain |
| Schedulers.Scheduler.FinishDrain | include/cpptb/coro_runtime.hpp:2642-2666 | refines the end of the drain |
| Schedulers.Scheduler.ResumeOnEdge | include/cpptb/coro_runtime.hpp:1762-1781 | refines resume_edge |
| Schedulers.Scheduler.AdvanceTo | include/cpptb/coro_runtime.hpp:1783-1804 | refines advance_time |
| Schedulers.Scheduler.ResumeOnPhase | include/cpptb/coro_runtime.hpp:1806-1822 | refines resume_phase |
| Schedulers.Scheduler.ConsumeInterestChange | include/cpptb/coro_runtime.hpp:1894-1900 | refines consume_edge_interest_change |
| Schedulers.Scheduler.ReadSchedule | include/cpptb/coro_runtime.hpp:1902-1912 | refines the reading of the changed mark and the deadline |
| Schedulers.Scheduler.WaitGraphStatus | include/cpptb/coro_runtime.hpp:1928-2084 | refines the verdict of the unfiltered wait_graph |
| Drivers.Perform | include/cpptb/coro_runtime.hpp:1215-2816 | whatever event a run makes in a state, the class takes the same step by its own methods |
| Drivers.Drive | include/cpptb/coro_runtime.hpp:1215-2816 | a new scheduler, called for the events of any run, goes through exactly its states |
| WaitLink.AliveExact | include/cpptb/coro_runtime.hpp:1693-1708 | the statuses that primitives sweep and wake by are external_wait_alive and external_wait_valid |
| WaitLink.WakeExact | include/cpptb/coro_runtime.hpp:1710-1713 | wake_external succeeds just for a valid registration, and shows as waking that one wait |
| WaitLink.ParkExact | include/cpptb/coro_runtime.hpp:1684-1691 | park_external shows as one more parked wait |
| WaitLink.StatusAdvances | include/cpptb/coro_runtime.hpp:1699-1708 | in any run a wait only goes from parked to woken to gone |
| WaitLink.CancelShows | include/cpptb/coro_runtime.hpp:2220-2261 | cancelling shows as the waits of exactly the dependents being gone: any other wait begun by park_external stays parked |
| ParkedWaits.StepRests | include/cpptb/coro_runtime.hpp:1684-1713 | no step of the scheduler but its own wake_external wakes a wait begun by park_external, which no queue knows; and none but the completion of the process wakes one begun by park_process |
| WaitLink.WokenExact | include/cpptb/coro_runtime.hpp:1684-1713 | over any run a wait begun by park_external has been woken and not cancelled exactly when its coroutine is alive in it and wake_external was called for it since |
| WaitLink.StepTracks | include/cpptb/coro_runtime.hpp:1693-1708 | any step of the scheduler that is not for a primitive shows to it as some of its waits being gone, and nothing else |
| JointRuns.EveryInterleaving | include/cpptb/coro_runtime.hpp:1684-1715 | every interleaving of coroutines, simulator and a primitive is both a run of the scheduler and a run of the primitive, which sees of its waits what the scheduler says of them |
| ExternalWaits.GrantPicks | include/cpptb/coro_runtime.hpp:4042-4063 | a handout goes to the first parked waiter by arrival, if there is one |
| ExternalWaits.ServedInOrder | include/cpptb/coro_runtime.hpp:4042-4063 | nobody is woken while an earlier arrival is still parked |
| ExternalWaits.GrantEachServes | include/cpptb/coro_runtime.hpp:3804-3836 | among living waiters everybody gets a reservation unless the supply is used up |
| ExternalWaits.ResumedKeeps | include/cpptb/coro_runtime.hpp:4012-4027 | a woken waiter is listed with a reservation, which leaves the list with it |
| ExternalWaits.AbandonedKeeps | include/cpptb/coro_runtime.hpp:4029-4040 | a cancelled waiter that is still listed leaves with the reservation it held, once |
| ExternalWaits.WaitTable.WakeExternal | include/cpptb/coro_runtime.hpp:1710-1713 | waking succeeds just for a parked wait |
| ExternalWaits.HandOut | include/cpptb/coro_runtime.hpp:4042-4063 | refines the search for the first waiter that can be woken |
| ExternalWaits.HandOutEach | include/cpptb/coro_runtime.hpp:3804-3836 | refines the loop that reserves one thing after another |
| ExternalWaits.SweepOut | include/cpptb/coro_runtime.hpp:4076-4093 | refines the liveness sweep and counts the reservations it frees |
| ExternalWaits.Search | include/cpptb/coro_runtime.hpp:4012-4027 | refines the search by identity |
| Semaphores.PermitsAreConserved | include/cpptb/coro_runtime.hpp:3914-4093 | in every run, with any cancellations: available, reserved, owed and granted permits add up to the initial and released ones, an available permit means no unreserved waiter, grants are first come first served, a woken waiter finds its permit |
| Semaphores.DispatchExact | include/cpptb/coro_runtime.hpp:4042-4063 | permits that are dispatched wake as many parked waiters as there are permits, and what is left over becomes available |
| Semaphores.TryAcquireExact | include/cpptb/coro_runtime.hpp:3919-3924 | try_acquire succeeds exactly when a permit is available or more come back from cancelled waiters than coroutines are parked, and takes one |
| Semaphores.TakingExact | include/cpptb/coro_runtime.hpp:3919-3924 | in every run taking a permit succeeds exactly when one is available, and then nobody is parked |
| Semaphores.DispatchKeeps | include/cpptb/coro_runtime.hpp:4042-4063 | dispatching permits conserves them |
| Semaphores.CleanupKeeps | include/cpptb/coro_runtime.hpp:4076-4093 | the sweep conserves permits: those of the dead are handed on |
| Semaphores.Semaphore.DispatchPermits | include/cpptb/coro_runtime.hpp:4042-4063 | refines dispatch |
| Semaphores.Semaphore.CleanUp | include/cpptb/coro_runtime.hpp:4076-4093 | refines cleanup |
| Semaphores.Semaphore.TryAcquire | include/cpptb/coro_runtime.hpp:3919-3924 | refines try_acquire |
| Semaphores.Semaphore.Release | include/cpptb/coro_runtime.hpp:3974-3978 | refines release |
| Semaphores.Semaphore.Suspend | include/cpptb/coro_runtime.hpp:3993-4010 | refines suspend, which takes a permit at once if there is one |
| Semaphores.Semaphore.FinishAcquire | include/cpptb/coro_runtime.hpp:4012-4027 | refines finish_acquire, including its aborts |
| Semaphores.Semaphore.AbandonWait | include/cpptb/coro_runtime.hpp:4029-4040 | refines abandon |
| Locks.PromisesKept | include/cpptb/coro_runtime.hpp:4125-4326 | in every run, whoever releases and is cancelled: a handoff is pending just when one waiter is reserved and then the lock is locked, an unlocked lock has no waiters, nobody overtakes, a woken waiter finds its promise, and release succeeds just while the lock is taken and promised to nobody |
| Locks.AtMostOneOwner | include/cpptb/coro_runtime.hpp:4125-4326 | while every release is made by a party that owns the lock, at most one party owns it or is promised it, whoever takes it or is resumed with it does so while nobody owns it, and release succeeds just while somebody does |
| Locks.OwnersExact | include/cpptb/coro_runtime.hpp:4184-4207 | the number of owners agrees with the lock in every state of a run exactly when every release in it was made by an owner |
| Locks.RightfulExact | include/cpptb/coro_runtime.hpp:4184-4207 | the caller of release is not checked: a release by somebody else leaves the lock free or promised although it has an owner, and no other step does |
| Locks.TwoOwnersExample | include/cpptb/coro_runtime.hpp:4184-4207 | a run of three steps with two owners: one party takes the lock, another releases it and takes it |
| Locks.HandoffExact | include/cpptb/coro_runtime.hpp:4274-4291 | ownership that comes back goes to the first parked waiter, else the lock is free with nobody waiting |
| Locks.CleanupPassesOn | include/cpptb/coro_runtime.hpp:4304-4326 | a promise to a cancelled waiter passes to the next live one or unlocks |
| Locks.ReleaseExact | include/cpptb/coro_runtime.hpp:4184-4207 | release succeeds just while the lock is taken and promised to nobody, whoever calls it; then the first parked waiter is promised the lock, or it is free |
| Locks.Lock.HandoffOrUnlock | include/cpptb/coro_runtime.hpp:4274-4291 | refines handoff_or_unlock |
| Locks.Lock.CleanUp | include/cpptb/coro_runtime.hpp:4304-4326 | refines cleanup |
| Locks.Lock.TryAcquire | include/cpptb/coro_runtime.hpp:4130-4135 | refines try_acquire |
| Locks.Lock.ReleaseLock | include/cpptb/coro_runtime.hpp:4184-4207 | refines release, including its aborts |
| Locks.Lock.Suspend | include/cpptb/coro_runtime.hpp:4222-4239 | refines suspend |
| Locks.Lock.FinishAcquire | include/cpptb/coro_runtime.hpp:4241-4258 | refines finish_acquire, including its aborts |
| Locks.Lock.AbandonWait | include/cpptb/coro_runtime.hpp:4260-4272 | refines abandon |
| Queues.NothingLost | include/cpptb/coro_runtime.hpp:3539-3877 | in every run, with any cancellations: counters equal the reserved waiters, reserved items are stored, items and promised places fit a non-zero bound, every accepted value is stored, in order, or has been delivered once, and no resumed waiter misses its item or place |
| Queues.IdleItemExample | include/cpptb/coro_runtime.hpp:3848-3877 | a run of five events that leaves an item idle: the sweep frees the item of a cancelled consumer without offering it again |
| QueueIdle.IdleItemExact | include/cpptb/coro_runtime.hpp:3541-3877 | for every event and every state: an item is idle afterwards exactly when a condition on the state before holds, given event by event |
| QueueIdle.StrandsExact | include/cpptb/coro_runtime.hpp:3848-3877 | when nothing was idle before: an item becomes idle exactly when the event sweeps out reservations of cancelled consumers, more than it takes itself, offers them to nobody, and another consumer is parked |
| QueueIdle.IdleRunExact | include/cpptb/coro_runtime.hpp:3539-3877 | no state of a run has an idle item exactly when no event of it strands one in this way |
| QueueIdle.NoIdleItems | include/cpptb/coro_runtime.hpp:3804-3819 | while no consumer has been cancelled, no item is idle with a consumer parked |
| QueueIdle.IdlePlaceExact | include/cpptb/coro_runtime.hpp:3541-3877 | the same exact condition, for every event and every state, for a free place with a producer parked |
| QueueIdle.NoIdlePlaces | include/cpptb/coro_runtime.hpp:3821-3836 | while no producer has been cancelled and no wake_producers is due, no place is free with a producer parked |
| QueueIdle.IdlePlaceExample | include/cpptb/coro_runtime.hpp:3848-3877 | a run of six events that leaves a place idle after a producer has been cancelled |
| QueueIdle.DeliveredInOrder | include/cpptb/coro_runtime.hpp:3712-3731 | in every run the consumers that waited receive values in the order of acceptance, and nothing older stays behind |
| QueueIdle.FirstUnreserved | include/cpptb/coro_runtime.hpp:3549-3558 | a consumer that did not wait takes the oldest value that no living consumer has reserved |
| JointPrimitives.LockTogether | include/cpptb/coro_runtime.hpp:4222-4326 | together with the scheduler, in every interleaving: whoever it has parked for the lock finds it locked, and a living coroutine that was woken finds its handoff |
| JointPrimitives.SemaphoreTogether | include/cpptb/coro_runtime.hpp:3993-4093 | together with the scheduler: no permit is available while it has a coroutine parked for one, and a living coroutine that was woken finds its permit |
| JointPrimitives.QueueTogether | include/cpptb/coro_runtime.hpp:3680-3877 | together with the scheduler: a living consumer that was woken finds its item, and a living producer its place |
| Queues.Queue.CleanUp | include/cpptb/coro_runtime.hpp:3848-3877 | refines cleanup |
| Queues.Queue.OfferItems | include/cpptb/coro_runtime.hpp:3804-3819 | refines wake_consumers |
| Queues.Queue.OfferPlaces | include/cpptb/coro_runtime.hpp:3821-3836 | refines wake_producers |
| Queues.Queue.PutNowait | include/cpptb/coro_runtime.hpp:3541-3547 | refines put_nowait |
| Queues.Queue.GetNowait | include/cpptb/coro_runtime.hpp:3549-3558 | refines get_nowait |
| Queues.Queue.SuspendGet | include/cpptb/coro_runtime.hpp:3682-3695 | refines suspend_get |
| Queues.Queue.SuspendPut | include/cpptb/coro_runtime.hpp:3697-3710 | refines suspend_put |
| Queues.Queue.ConsumeGet | include/cpptb/coro_runtime.hpp:3712-3747 | refines consume_get for a waiter, including its aborts |
| Queues.Queue.ProduceFor | include/cpptb/coro_runtime.hpp:3749-3776 | refines produce, including its aborts |
| Queues.Queue.AbandonGetting | include/cpptb/coro_runtime.hpp:3778-3789 | refines abandon_get |
| Queues.Queue.AbandonPutting | include/cpptb/coro_runtime.hpp:3791-3802 | refines abandon_put |
| PackedBits.MaskedExact | include/cpptb/packed_bits.hpp:240-253 | masking clears exactly the bits above the width |
| PackedBits.WordInside | include/cpptb/packed_bits.hpp:161-172 | the words that a slice reads or writes exist |
| PackedBits.SliceOfInserted | include/cpptb/packed_bits.hpp:153-214 | a slice reads back what was inserted in its place, and the rest is unchanged |
| PackedBits.Bits.Slice | include/cpptb/packed_bits.hpp:153-172 | returns bits lsb .. lsb + K - 1 for every width and offset, and fails just out of bounds |
| PackedBits.Bits.SetSlice | include/cpptb/packed_bits.hpp:174-214 | changes exactly bits lsb .. lsb + K - 1, keeps the padding zero, and fails just out of bounds; the value may be the target itself |
| PackedBits.Bits.BitAt | include/cpptb/packed_bits.hpp:138-141 | reads one bit, failing just out of bounds |
| PackedBits.Bits.SetBit | include/cpptb/packed_bits.hpp:143-151 | changes exactly one bit |
| PackedBits.Bits.SetWord | include/cpptb/packed_bits.hpp:130-136 | changes exactly one word, cut to the width |
| PackedBits.Bits.ToUint128 | include/cpptb/packed_bits.hpp:230-236 | the number with these bits |
| PackedBits.Bits.constructor | include/cpptb/packed_bits.hpp:77-82 | keeps the given bits below the width and clears the padding |
| PackedBits.FromUint128 | include/cpptb/packed_bits.hpp:66-75 | the number modulo 2 to the width |
| TextForms.FromHex | include/cpptb/packed_bits.hpp:84-113 | accepts just the texts with digits that fit the width and gives their bits |
| TextForms.HexRoundTrip | include/cpptb/diagnostic.hpp:55-70 | printed digits parse to the same bits for every width, with underscores anywhere between them |
| TextForms.PrintedBits | include/cpptb/diagnostic.hpp:55-70 | the printed digits stand for exactly the bits of the value |
| TextForms.FromString | include/cpptb/logic_bits.hpp:54-91 | accepts just the texts with one state per bit and gives these states |
| TextForms.LogicRoundTrip | include/cpptb/diagnostic.hpp:72-93 | printed states parse to the same value for every width, with underscores anywhere between them |
| TextForms.FormatBits | include/cpptb/diagnostic.hpp:55-70 | prints exactly the digits of the value |
| TextForms.LogicBits.StateAt | include/cpptb/logic_bits.hpp:130-135 | reads one state from the two planes, failing just out of bounds |
| TextForms.LogicBits.Format | include/cpptb/diagnostic.hpp:72-93 | prints exactly the states of the value |
| TextForms.PrintedAgain | include/cpptb/logic_bits.hpp:54-91 | printing what was parsed gives the text back, in capitals and without underscores |
| FixedPoint.DecomposeExact | include/cpptb/fixed.hpp:67-78 | sign and magnitude are those of the two's complement value |
| FixedPoint.EncodeExact | include/cpptb/fixed.hpp:80-85 | a value in range is encoded to raw bits that stand for it |
| FixedPoint.EncodeDecompose | include/cpptb/fixed.hpp:67-85 | encoding undoes decomposing, for every raw value |
| FixedPoint.MulFullExact | include/cpptb/fixed.hpp:212-236 | the product is the exact integer product for every mix of signs |
| FixedPoint.Gcd | include/cpptb/fixed.hpp:39-46 | the loop ends with the greatest common divisor, which is a combination of both numbers |
| FixedPoint.PowerDivides | include/cpptb/fixed.hpp:168-175 | 2^p times an odd number divides a power of two just when the odd number is one and p is small enough |
| FixedPoint.FromRatio | include/cpptb/fixed.hpp:155-202 | succeeds just when some number in range is exactly the ratio, and returns that number |
| FixedPoint.RoundedExact | include/cpptb/fixed.hpp:252-263 | rounding on the magnitude is the one number within an ulp toward zero, or within half an ulp with ties to even |
| FixedPoint.ScaledUp | include/cpptb/fixed.hpp:267-271 | the overflow flag is set just when the shifted magnitude does not fit in 128 bits |
| FixedPoint.WrapExact | include/cpptb/fixed.hpp:288-291 | wrapped bits stand for the target modulo 2 to the width |
| FixedPoint.Quantize | include/cpptb/fixed.hpp:238-306 | wraps to the one value that is the target modulo 2^width; traps just outside the range; clamps to the nearest limit if and only if the sign is not lost, and gives the highest value when it is |
| FixedPoint.SignLostExample | include/cpptb/fixed.hpp:267-274 | the most negative 128-bit value, shifted left by one, saturates at the top of the range |
| FixedPoint.NarrowKeepsSign | include/cpptb/fixed.hpp:267-274 | a shift within 128 bits never loses the sign |
| FixedPoint.Rescale | include/cpptb/fixed.hpp:246-274 | scaling and rounding leave the magnitude of the target cut to 128 bits, whether bits were lost, and the sign unless nothing of the magnitude is left |
| FixedPoint.SaturatedOrder | include/cpptb/fixed.hpp:238-306 | saturated results keep the order of the source values, except exactly where the smaller value has lost its sign and the larger result is not the highest |
| Randomness.SeedsDiffer | include/cpptb/random.hpp:41-60 | the mixing loses nothing: streams of one master, and masters of one stream, get different seeds |
| Randomness.SeededAlive | include/cpptb/random.hpp:99-108 | no seed gives the all-zero state, so the guard of reseed never fires |
| Randomness.NextOnce | include/cpptb/random.hpp:112-123 | no two states step to the same one |
| Randomness.NeverDead | include/cpptb/random.hpp:112-123 | a state that is not all zero never becomes so |
| Randomness.ThresholdExact | include/cpptb/random.hpp:212-222 | the rejection threshold is 2^64 modulo the bound |
| Randomness.CountGiving | include/cpptb/random.hpp:212-222 | among the accepted words every remainder comes up equally often |
| Randomness.ChosenMeans | include/cpptb/random.hpp:125-141 | the value drawn is the minimum plus the word modulo the number of values, full range and signed types included |
| Randomness.RandintIsFair | include/cpptb/random.hpp:125-141 | every value of the range comes from the same number of accepted words, and no other value comes up |
| Randomness.AddWeights | include/cpptb/random.hpp:175-189 | the sum of the weights, or the overflow just when it does not fit |
| Randomness.Pick | include/cpptb/random.hpp:190-197 | finds the one entry whose share holds the draw; the exception after the loop is unreachable |
| Randomness.WeightedIsFair | include/cpptb/random.hpp:171-197 | an entry is chosen by accepted words in proportion to its weight |
| Randomness.ShuffledKeeps | include/cpptb/random.hpp:202-209 | shuffling keeps the values |
| Randomness.ShuffledOnce | include/cpptb/random.hpp:202-209 | with distinct values different draws give different orders |
| Randomness.ShuffledReaches | include/cpptb/random.hpp:202-209 | every order of the values comes from some draws |
| Randomness.Shuffle | include/cpptb/random.hpp:202-209 | the in-place exchanges compute the shuffle of the draws |
| Randomness.Random.Reseed | include/cpptb/random.hpp:99-108 | sets the four words without ever needing the guard |
| Randomness.Random.NextU64 | include/cpptb/random.hpp:112-123 | refines the step and the output of the generator |
| Randomness.Random.UniformBelow | include/cpptb/random.hpp:212-222 | takes the first accepted word, reduced by the bound |
| Randomness.Random.Randint | include/cpptb/random.hpp:125-141 | fails just on a reversed range, otherwise draws a value of the range |
| RandomWords.OutputExact | include/cpptb/random.hpp:112-113 | the word that comes out is a bijection of the second state word alone, with its inverse |
| RandomWords.NextExact | include/cpptb/random.hpp:112-123 | the step is a bijection of the states, with the state before each |
| RandomWords.KnownWord | tests/unit/random_test.cpp:26-36 | seed 42 gives the first word that the unit test expects |
| Crosses.ExcludedExact | include/cpptb/coverage.hpp:915-926 | an ignoring filter wins over an illegal one, of either kind the first that matches decides, and none means that nothing matches |
| Crosses.IndexSnoc | include/cpptb/coverage.hpp:902-913 | the loop's rule builds the mixed-radix number |
| Crosses.IndexBound | include/cpptb/coverage.hpp:902-913 | every combination has a number below the total |
| Crosses.IndexOnce | include/cpptb/coverage.hpp:902-913 | different combinations have different numbers |
| Crosses.VisitedInOrder | include/cpptb/coverage.hpp:976-997 | collecting goes through the combinations in the order of their numbers, 0 to total - 1 |
| Crosses.EachOnce | include/cpptb/coverage.hpp:936-958 | walking visits each chosen combination once and no other |
| Crosses.EveryVisitCounted | include/cpptb/coverage.hpp:936-958 | every visit is counted once, in a bin or a filter, and the illegal count is that of the illegal filters |
| Crosses.RunAccounted | include/cpptb/coverage.hpp:928-958 | over any run bin hits plus filter hits are the sum of the products of the hit-set sizes of the unguarded samples |
| Crosses.RunBinExact | include/cpptb/coverage.hpp:928-958 | over any run a bin counts the unguarded samples that chose its combination, or nothing if it is filtered |
| Crosses.RunJoin | include/cpptb/coverage.hpp:928-958 | one run after another counts what both count apart |
| Crosses.LawfulExact | include/cpptb/coverage.hpp:917-958 | over any run the illegal count is zero exactly when no unguarded sample chose a combination whose deciding filter is illegal |
| Crosses.ReportedExact | include/cpptb/coverage.hpp:960-997 | a snapshot lists exactly the unfiltered combinations, once each, in increasing order, with their counters |
| Crosses.Cross.constructor | include/cpptb/coverage.hpp:885-893 | one counter for each combination |
| Crosses.Cross.IndexOf | include/cpptb/coverage.hpp:902-913 | computes the mixed-radix number |
| Crosses.Cross.ExcludedBy | include/cpptb/coverage.hpp:915-926 | computes the deciding filter |
| Crosses.Cross.Sample | include/cpptb/coverage.hpp:928-934 | counts every combination of an unguarded sample and returns the illegal ones |
| Crosses.Cross.Walk | include/cpptb/coverage.hpp:936-958 | refines the recursion over the shared combination in place |
| Crosses.Cross.Snapshot | include/cpptb/coverage.hpp:960-974 | lists the unfiltered combinations in order |
| Crosses.Cross.Collect | include/cpptb/coverage.hpp:976-997 | refines the recursion over all bins |
| Coverpoints.ParseWildcard | include/cpptb/coverage.hpp:561-597 | accepts just patterns of known characters and gives the masks of their digits |
| Coverpoints.WildcardExact | include/cpptb/coverage.hpp:533-540 | a wildcard bin matches just the values with its digits in their places |
| Coverpoints.MatchedExact | include/cpptb/coverage.hpp:447-455 | the list for crosses is increasing and names exactly the ordinary bins that matched |
| Coverpoints.HandedOver | include/cpptb/coverage.hpp:447-455 | what coverpoints hand over is what a cross expects |
| Coverpoints.RunExact | include/cpptb/coverage.hpp:406-477 | a value that the guard rejects is no sample: counters are those of the kept values, and transitions are between consecutive kept ones |
| Coverpoints.Coverpoint.Sample | include/cpptb/coverage.hpp:415-477 | hits exactly the bins that the value and the value before it call for, and returns the illegal hits |
| Coverpoints.RunsJoin | include/cpptb/coverage.hpp:406-477 | one run after another counts what both count apart, and once more every bin hit by the transition between them |
| Snapshots.MergeGroups | include/cpptb/coverage.hpp:138-211 | merging gives the same in whatever grouping |
| Snapshots.MergeSwaps | include/cpptb/coverage.hpp:138-211 | swapping the two runs matters just for the illegal counts of crosses |
| Snapshots.CrossIllegalLost | include/cpptb/coverage.hpp:200-210 | the illegal count of a merged cross is the sum just when the run merged in has none |
| Snapshots.CrossIllegalExample | include/cpptb/coverage.hpp:200-210 | two runs with one illegal combination each: the merged row says one, the row of both runs two |
| Snapshots.MergedRuns | include/cpptb/coverage.hpp:138-211 | merging the rows of two runs of a cross gives the bins of the run that makes both, and the whole row exactly when no unguarded sample of the run merged in chose an illegal combination |
| Snapshots.CoverageSnapshot.Merge | include/cpptb/coverage.hpp:138-211 | fails without change just on different models, otherwise adds the counters |
| Snapshots.MergedPoints | include/cpptb/coverage.hpp:187-199 | merging the rows of two runs of a coverpoint gives the counters of the run that makes both, exactly when the transition from the one to the other hits no bin, and otherwise what is missing |
| PhaseLoop.QuietInReadOnly | include/cpptb/probe.hpp:75-81 | user code in ReadOnly neither writes nor adds a ReadWrite waiter |
| PhaseLoop.LeftOver | include/cpptb/dpi_runtime.hpp:364-400 | after a ReadOnly turn those wait for ReadWrite whom late timers made wait, less those cancelled since |
| PhaseLoop.LateTimerExample | src/verilator_timing_main.cpp:99-159 | a timestep driven to its close with a ReadWrite waiter left over by a timer that came due only with ReadOnly |
| PhaseLoop.Testbench.FlushDeferred | include/cpptb/coro_runtime.hpp:4387-4400 | applies the deferred writes in their order and keeps what is deferred meanwhile for the next round |
| PhaseLoop.Testbench.Dispatch | include/cpptb/dpi_runtime.hpp:364-400 | what one dispatched phase leaves of waiters, deferred writes and port values, and when it aborts; ReadOnly is only ever dispatched with no ReadWrite waiter and no deferred write |
| PhaseLoop.Testbench.DispatchIfPending | src/verilator_timing_main.cpp:52-58 | dispatches just when the phase is pending |
| PhaseLoop.Testbench.RunTimestep | src/verilator_timing_main.cpp:99-159 | what a timestep runs: the NextTimeStep turn, the rounds up to the first in which ReadWrite was not dispatched and the simulator asks for no evaluation, then ReadOnly; it is open exactly if there is no such round, and closes exactly if there is one and the ReadOnly turn makes no banned call; waiters, deferred writes and ports afterwards are those of exactly these turns, every write was applied in order by the first ReadWrite round after it, and how many wait for ReadWrite is given exactly |
| PhaseLoop.Testbench.Run | src/verilator_timing_main.cpp:99-181 | the timesteps are gone through as long as they close, the state handed from each to the next, and the loop stops short just at one that cannot close; every write is applied within its timestep in order, and after a timestep without late timers nobody waits for ReadWrite |

## Left out

- Coroutine frames, handles and exceptions, and the memory behind them: a coroutine is a slot, and what it does when it
  is resumed is an arbitrary list of calls. The address of a continuation is the number of the coroutine.
- Completion handlers, execution contexts and owner cleanup callbacks, with the destructors they may run inside the
  scheduler.
- Wrap-around of 64-bit generations, sequence numbers, hit counters and permit counts: they are unbounded.
- Diagnostics text, wait-graph edges and filtering by owner: only the unfiltered verdict is modelled.
- Signals become static or sticky sources when the scheduler is made; the source allows it until the first wait.
- The slots of process controls are not recycled, and the completion waiters of a process are one list.
- The timer heap is a sorted sequence: only its minimum is ever taken.
- A coroutine makes calls only while it runs: it awaits a task in no wait, and parks when nobody alive is still to
  resume it (`ParkedWaits.Lawful`). The scheduler does not check this; the joint runs and `ProcessWaits` take it for granted.
  Likewise `Handover.NobodyForgotten` takes calls of coroutines and wakes by primitives to happen during a drain.
- The generated bindings read the interest of every clock when any change is announced; `StickySources` follows a
  consumer that reads the source whose change is announced.
- `flush_external_wakes` means that the woken coroutines run later, as further events of the run.
- Termination of loops that user code drives: drains, ReadWrite rounds and rejected draws run for as many turns as the
  run has.
- Randomness.Random.UniformBelow: draws at most a given number of words, because the rejection loop has no bound.
- Randomness.Shuffle: is given the numbers that `randint` draws, so that every list of draws is covered.
- PhaseLoop.Testbench.Dispatch: counts the waiters of a phase instead of carrying the scheduler, whose counters are
  proved exact elsewhere; the request mask of `step` and the transport to the simulator are not part of this model.
- Coverpoints.Coverpoint.Sample: values are integers in their natural order, and the guard is a parameter.
- Crosses.Cross.Snapshot: gives bins by number; names belong to the rows of `Snapshots`.
- The `Event` primitive, `choice`, `randbits`, JSON reports, probes beyond the write ban, bindings, DPI and VPI calls,
  clock discovery, tracing, benchmarks and the test registry.
