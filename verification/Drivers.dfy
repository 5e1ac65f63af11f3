/** The class `Scheduler` makes every run: called for the events of a run one after another it goes through exactly
its states. */
module Drivers {
  import opened Registrations
  import opened WaitCore
  import opened SchedulerState
  import opened SchedulerLife
  import opened SchedulerEnd
  import opened Cancellation
  import opened SchedulerRun
  import opened ReadyRun
  import opened SchedulerRuns
  import opened Schedulers
  import E = EdgeWaits
  import P = PhaseWaits
  import T = TimerQueue

  lemma InvCoversSlot(s: Sched, i: nat)
    requires SchedInv(s) && i < |s.core.slots|
    ensures Covered(s.core, i)
  {
    hide LifeInv, RunInv, Covered;
    TablesCover(s.core, i);
  }

  lemma InvCoversReg(s: Sched, r: Reg)
    requires SchedInv(s)
    ensures ValidReg(s.core, r) ==> Covered(s.core, r.slot)
  {
    hide LifeInv, RunInv, Covered, WaitInv;
    InvWait(s);
    InvCovers(s.core, r);
  }

  predicate StartsWait(e: Event) {
    e.Joining? || e.TimingOut? || e.TimingSet? || e.Parking? || e.ParkingFirst? || e.ParkingExternally?
    || e.ParkingForProcess?
  }

  /** The calls by which a coroutine starts to wait. */
  method PerformWait(scheduler: Scheduler, e: Event, ghost r: Sched)
    requires SchedInv(scheduler.View()) && Call(scheduler.View(), e, r)
    requires StartsWait(e)
    modifies scheduler
    ensures scheduler.View() == r
  {
    hide SchedInv, Covered, StartJoin, BeginTimeout, EndTimeout, Park, ParkFirst, BeginWait, ParkProcess;
    ghost var s := scheduler.View();
    if e.TimingSet? {
      var accepted := scheduler.FinishTimeout();
    } else {
      InvCoversSlot(s, e.slot);
      match e
      case Joining(i, n) => scheduler.StartJoinOf(i, n);
      case TimingOut(i, timeout) => var accepted := scheduler.StartTimeout(i, timeout);
      case Parking(i, request) => var accepted := scheduler.ParkFor(i, request);
      case ParkingFirst(i, requests) => var accepted := scheduler.ParkForFirst(i, requests);
      case ParkingExternally(i, reason) => var generation := scheduler.BeginSlotWait(i, reason);
      case ParkingForProcess(i, p) => var waits := scheduler.ParkForProcess(i, p);
    }
  }

  /** The other calls. */
  method PerformCall(scheduler: Scheduler, e: Event, ghost r: Sched)
    requires SchedInv(scheduler.View()) && Call(scheduler.View(), e, r)
    requires !StartsWait(e)
    modifies scheduler
    ensures scheduler.View() == r
  {
    hide SchedInv, Covered, Spawn, SpawnDetached, Adopt, FinalSuspend, CancelProcess, CancelAwaited, ReclaimAwaited,
      ResumeReg, DrainReady, MakeReady, Childless, Linked;
    ghost var s := scheduler.View();
    match e
    case Spawning => var process := scheduler.SpawnProcess();
    case SpawningDetached => scheduler.SpawnDetachedTask();
    case Awaiting(i) => var slot := scheduler.AdoptCoroutine(Awaited(scheduler.slots[i].life.id), None);
    case Finishing(i) => scheduler.SuspendFinally(i);
    case CancellingProcess(p) => scheduler.CancelProcessOf(p);
    case CancellingAwaited(i) => scheduler.CancelAwaitedTask(i);
    case ReclaimingAwaited(i) => var complete := scheduler.ReclaimAwaitedTask(i);
    case Waking(w) =>
      InvCoversReg(s, w);
      var woken := scheduler.ResumeRegistration(w);
    case Flushing => scheduler.StartDrain();
    case Deferring(i) => scheduler.MakeSlotReady(i);
  }

  method PerformTurn(scheduler: Scheduler, e: Event, ghost r: Sched)
    requires SchedInv(scheduler.View()) && Turn(scheduler.View(), e, r)
    modifies scheduler
    ensures scheduler.View() == r
  {
    hide SchedInv, PopReady, EndResume, EndDrain, BeginInline, EndInline, Linked;
    match e
    case Taking => var next := scheduler.NextReady();
    case Returning => scheduler.AfterResume();
    case Emptying => scheduler.FinishDrain();
    case RunningInline(p) => var runs, complete := scheduler.RunProcessIfOnlyReady(p);
    case ReturningInline => var complete, deferParent := scheduler.AfterInline(false);
  }

  method PerformDelivery(scheduler: Scheduler, e: Event, ghost r: Sched)
    requires SchedInv(scheduler.View()) && (Delivers(scheduler.View(), e, r) || Reads(scheduler.View(), e, r))
    modifies scheduler
    ensures scheduler.View() == r
  {
    hide SchedInv, WaitInv, ResumeEdge, AdvanceTime, ResumePhase, PollTimer;
    InvWait(scheduler.View());
    match e
    case EdgeSeen(signal, edge) => scheduler.ResumeOnEdge(signal, edge);
    case TimePassed(time) => scheduler.AdvanceTo(time);
    case PhaseReached(phase) => scheduler.ResumeOnPhase(phase);
    case ScheduleRead => var deadline := scheduler.ReadSchedule();
    case InterestRead => var change := scheduler.ConsumeInterestChange();
  }

  predicate IsTurn(e: Event) {
    e.Taking? || e.Returning? || e.Emptying? || e.RunningInline? || e.ReturningInline?
  }

  predicate IsSimulator(e: Event) {
    e.EdgeSeen? || e.TimePassed? || e.PhaseReached? || e.ScheduleRead? || e.InterestRead?
  }

  lemma KindOfStep(s: Sched, e: Event, r: Sched)
    requires Step(s, e, r)
    ensures IsTurn(e) ==> Turn(s, e, r)
    ensures IsSimulator(e) ==> Delivers(s, e, r) || Reads(s, e, r)
    ensures !IsTurn(e) && !IsSimulator(e) ==> Call(s, e, r)
  {
    hide Call, Turn, Delivers, Reads;
    CallKind(s, e, r);
    TurnKind(s, e, r);
    SimulatorKind(s, e, r);
  }

  lemma CallKind(s: Sched, e: Event, r: Sched)
    ensures Call(s, e, r) ==> !IsTurn(e) && !IsSimulator(e)
  {
    hide Spawn, SpawnDetached, StartJoin, BeginTimeout, EndTimeout, Park, ParkFirst, BeginWait, ParkProcess, Childless,
      Lives, FinalSuspend, CancelProcess, CancelAwaited, ReclaimAwaited, ResumeReg, DrainReady, MakeReady, Linked;
  }

  lemma TurnKind(s: Sched, e: Event, r: Sched)
    ensures Turn(s, e, r) ==> IsTurn(e)
  {
    hide PopReady, EndResume, EndDrain, BeginInline, EndInline, Linked;
  }

  lemma SimulatorKind(s: Sched, e: Event, r: Sched)
    ensures Delivers(s, e, r) || Reads(s, e, r) ==> IsSimulator(e)
  {
    hide ResumeEdge, AdvanceTime, ResumePhase, PollTimer, TakeChange;
  }

  method Perform(scheduler: Scheduler, e: Event, ghost r: Sched)
    requires SchedInv(scheduler.View()) && Step(scheduler.View(), e, r)
    modifies scheduler
    ensures scheduler.View() == r && SchedInv(r)
  {
    hide SchedInv, Call, Turn, Delivers, Reads;
    KindOfStep(scheduler.View(), e, r);
    StepKeeps(scheduler.View(), e, r);
    if IsTurn(e) {
      PerformTurn(scheduler, e, r);
    } else if IsSimulator(e) {
      PerformDelivery(scheduler, e, r);
    } else if StartsWait(e) {
      PerformWait(scheduler, e, r);
    } else {
      PerformCall(scheduler, e, r);
    }
  }

  /** A new scheduler, driven by the events of a run, ends in the run's last state, having gone through all others. */
  method Drive(precision: nat, statics: set<nat>, sticky: set<nat>, events: seq<Event>, ghost states: seq<Sched>)
    returns (scheduler: Scheduler)
    requires precision != 0 && |states| == |events| + 1 && states[0] == Initial(precision, statics, sticky)
    requires forall k {:trigger events[k]} :: 0 <= k < |events| ==> Step(states[k], events[k], states[k + 1])
    ensures fresh(scheduler) && scheduler.View() == states[|events|]
  {
    hide Step, SchedInv, Initial;
    scheduler := new Scheduler(precision, statics, sticky);
    InitialKeeps(precision, statics, sticky);
    for k := 0 to |events|
      invariant fresh(scheduler) && scheduler.View() == states[k] && SchedInv(states[k])
    {
      Perform(scheduler, events[k], states[k + 1]);
    }
  }
}
