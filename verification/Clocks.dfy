/** What time it is: the clock shows the last delivery, and it decides which waits are accepted. */
module Clocks {
  import opened PackedBits
  import opened Registrations
  import opened WaitCore
  import opened SchedulerState
  import opened SchedulerLife
  import opened SchedulerRun
  import opened SchedulerRuns
  import opened Lifecycle
  import P = PhaseWaits
  import T = TimerQueue

  /** The time of the last advance. */
  function LastTime(events: seq<Event>, n: nat): nat
    requires n <= |events|
  {
    if n == 0 then 0 else if events[n - 1].TimePassed? then events[n - 1].time else LastTime(events, n - 1)
  }

  /** Where the last delivery has put the simulation. */
  function LastPhase(events: seq<Event>, n: nat): SimPhase
    requires n <= |events|
  {
    if n == 0 then Evaluation
    else match events[n - 1]
      case EdgeSeen(_, _) => Evaluation
      case TimePassed(_) => Evaluation
      case PhaseReached(phase) => InPhase(phase)
      case _ => LastPhase(events, n - 1)
  }

  /** In every state of every run, the current time and phase are those of the last delivery. */
  lemma {:induction false} ClockExact(states: seq<Sched>, events: seq<Event>, n: nat)
    requires IsRun(states, events) && n < |states|
    ensures states[n].core.clock.now == LastTime(events, n) && states[n].core.clock.phase == LastPhase(events, n)
    ensures states[n].core.clock.precision == states[0].core.clock.precision
  {
    hide SchedInv, Step, Own, AdvancesAt;
    if n == 0 {
      ClockStarts(states, events);
    } else {
      ClockExact(states, events, n - 1);
      RunKeepsInvariant(states, events, n - 1);
      assert Step(states[n - 1], events[n - 1], states[n]);
      StepAdvances(states[n - 1], events[n - 1], states[n]);
    }
  }

  lemma ClockStarts(states: seq<Sched>, events: seq<Event>)
    requires IsRun(states, events)
    ensures states[0].core.clock.now == 0 && states[0].core.clock.phase == Evaluation
    ensures !states[0].core.clock.registered
  {
  }

  /** A delay is accepted just when it is a whole number of ticks, and not zero. */
  lemma DelayExact(clock: Clock, femtoseconds: nat)
    ensures DelayAccepted(clock, femtoseconds)
       <==> clock.precision != 0 && exists ticks: nat :: ticks > 0 && femtoseconds == ticks * clock.precision
  {
    if DelayAccepted(clock, femtoseconds) {
      var ticks := femtoseconds / clock.precision;
      assert femtoseconds == ticks * clock.precision;
    }
    if ticks: nat :| clock.precision != 0 && ticks > 0 && femtoseconds == ticks * clock.precision {
      assert clock.precision * ticks == ticks * clock.precision;
      ModUnique(femtoseconds, clock.precision, ticks, 0);
      MulOrder(clock.precision, 0, ticks);
    }
  }

  /** At any moment of any run, a wait is accepted exactly if it is for an edge, for a whole number of ticks other than
      zero, or for a phase that can still come: in ReadOnly only the next timestep's. */
  lemma AcceptedExact(states: seq<Sched>, events: seq<Event>, n: nat, i: nat, request: Request)
    requires IsRun(states, events) && n < |states| && states[n].Alive(i)
    ensures Park(states[n].core, i, request).Some? <==>
      match request
      case OnEdge(_, _) => true
      case After(femtoseconds) =>
        var precision := states[0].core.clock.precision;
        precision != 0 && exists ticks: nat :: ticks > 0 && femtoseconds == ticks * precision
      case OnPhase(phase) => LastPhase(events, n) != InPhase(P.ReadOnly) || phase == P.NextTimeStep
  {
    ClockExact(states, events, n);
    ParkClock(states[n].core, i, request);
    if request.After? {
      DelayExact(states[n].core.clock, request.femtoseconds);
    }
  }

  lemma ParkClock(c: Core, i: nat, request: Request)
    ensures Park(c, i, request).Some? <==> Accepted(c.clock, request)
  {
  }

  /** Reading the schedule takes the mark off, unless it drops dead timers, which marks it once more; and when it was
      marked it gives the earliest deadline of a live timer, or `NO_DEADLINE` if there is none. */
  lemma ScheduleExact(states: seq<Sched>, events: seq<Event>, n: nat)
    requires IsRun(states, events) && n < |events| && events[n] == ScheduleRead
    ensures var s, last := states[n], LastRead(states, events, n + 1);
      && (states[n + 1].core.timers.changed <==> T.All(states[n + 1].core.timers) != T.All(s.core.timers))
      && (!s.core.timers.changed ==> last == LastRead(states, events, n))
      && (s.core.timers.changed ==>
            (forall t :: t in T.All(s.core.timers) && ValidReg(s.core, t.reg) ==> last <= t.deadline)
            && (last == T.NO_DEADLINE
                || exists t :: t in T.All(s.core.timers) && ValidReg(s.core, t.reg) && t.deadline == last))
  {
    hide SchedInv;
    RunKeepsInvariant(states, events, n);
    assert Step(states[n], events[n], states[n + 1]);
    ReadSchedule(states[n], states[n + 1]);
  }

  lemma ReadSchedule(s: Sched, t: Sched)
    requires SchedInv(s) && Step(s, ScheduleRead, t)
    ensures t.core.timers.changed <==> T.All(t.core.timers) != T.All(s.core.timers)
    ensures var poll := PollTimer(s.core).1;
      (poll.Some? <==> s.core.timers.changed) && (poll.Some? ==> poll.value == Soonest(s.core))
    ensures forall x :: x in T.All(s.core.timers) && ValidReg(s.core, x.reg) ==> Soonest(s.core) <= x.deadline
    ensures Soonest(s.core) == T.NO_DEADLINE
      || exists x :: x in T.All(s.core.timers) && ValidReg(s.core, x.reg) && x.deadline == Soonest(s.core)
  {
    hide SchedInv, WaitInv, Soonest, ValidReg, Settles, NoneRevived, PollTimer;
    InvWait(s);
    SoonestExact(s.core);
    PollTimerKeeps(s.core);
    PollMark(s.core);
  }

  lemma PollMark(c: Core)
    requires WaitInv(c)
    ensures var (d, read) := PollTimer(c);
      && (read.Some? <==> c.timers.changed) && (d.timers.changed <==> T.All(d.timers) != T.All(c.timers))
  {
    hide WaitInv;
    var q := c.timers.(changed := false);
    CacheFirst(c);
    T.DiscardExact(q, Waits(c.slots));
    assert T.All(q) == T.All(c.timers);
  }

  lemma CacheFirst(c: Core)
    requires WaitInv(c)
    ensures c.timers.next.None? ==> c.timers.heap == []
  {
  }

  lemma SoonestExact(c: Core)
    requires WaitInv(c)
    ensures forall x :: x in T.All(c.timers) && ValidReg(c, x.reg) ==> Soonest(c) <= x.deadline
    ensures Soonest(c) == T.NO_DEADLINE
      || exists x :: x in T.All(c.timers) && ValidReg(c, x.reg) && x.deadline == Soonest(c)
  {
    var tokens := Waits(c.slots);
    T.EarliestExact(T.All(c.timers), tokens);
    forall x: T.Timer
      ensures Live(tokens, x.reg) <==> ValidReg(c, x.reg)
    {
      ValidIsLive(c, x.reg);
    }
  }

  /** The step registers a wait for a trigger. */
  predicate Registers(s: Sched, e: Event) {
    match e
    case Parking(_, _) => true
    case ParkingFirst(_, requests) => requests != []
    case TimingSet =>
      s.frames != [] && s.frames[|s.frames| - 1].Timing? && ValidReg(s.core, s.frames[|s.frames| - 1].wait)
    case _ => false
  }

  lemma {:induction false} RegisterFirstNotes(c: Core, requests: seq<Request>, i: nat, k: nat)
    requires RegisterFirst(c, requests, i, k).Some? && i < |c.slots|
    ensures RegisterFirst(c, requests, i, k).value.clock.registered == (c.clock.registered || k < |requests|)
    decreases |requests| - k
  {
    if k < |requests| {
      RegisterFirstNotes(RegisterWait(c, requests[k], Reg(i, c.lastGen, Some(k))).value, requests, i, k + 1);
    }
  }

  lemma StepRegisters(s: Sched, e: Event, t: Sched)
    requires SchedInv(s) && Step(s, e, t)
    ensures t.core.clock.registered == (s.core.clock.registered || Registers(s, e))
  {
    hide SchedInv, Step, Own, AdvancesAt;
    if !MovesTimers(e) {
      StepAdvances(s, e, t);
    } else {
      MovingRegisters(s, e, t);
    }
  }

  lemma MovingRegisters(s: Sched, e: Event, t: Sched)
    requires SchedInv(s) && Step(s, e, t) && MovesTimers(e)
    ensures t.core.clock.registered == (s.core.clock.registered || Registers(s, e))
  {
    hide SchedInv, FireTimers, BeginWait, RegisterFirst, DeliverTime, AfterDelivery;
    match e
    case Parking(i, request) => BeginSlots(s.core, i, RequestReason(request));
    case ParkingFirst(i, requests) =>
      BeginSlots(s.core, i, FirstWait);
      RegisterFirstNotes(SetWinner(BeginWait(s.core, i, FirstWait), i, None), requests, i, 0);
    case TimePassed(time) => PassingRegisters(s, time);
    case _ =>
  }

  lemma PassingRegisters(s: Sched, time: nat)
    ensures AdvanceTime(s, time).core.clock.registered == s.core.clock.registered
  {
    hide FireTimers, Boundary;
    FireClock(Clocked(s.core, TimePassed(time)));
    BoundaryRest(s.(core := DeliverTime(s.core, time).0));
  }

  lemma {:induction false} FireClock(c: Core)
    ensures FireTimers(c).0.clock == c.clock
    decreases T.Size(c.timers)
  {
    hide ResumeReg;
    var timers := T.Discard(c.timers, Waits(c.slots));
    if timers.next.Some? && timers.next.value.deadline <= c.clock.now {
      var d := c.(timers := timers.(next := None));
      ResumeOnward(d, timers.next.value.reg);
      FireClock(ResumeReg(d, timers.next.value.reg));
    }
  }

  /** In every run, a wait has been registered, and sources can no longer be made static or sticky, just when some step
      has registered one. */
  lemma {:induction false} RegisteredExact(states: seq<Sched>, events: seq<Event>, n: nat)
    requires IsRun(states, events) && n < |states|
    ensures states[n].core.clock.registered <==> exists k :: 0 <= k < n && Registers(states[k], events[k])
  {
    hide SchedInv, Step, Registers;
    if n == 0 {
      ClockStarts(states, events);
    } else {
      RegisteredExact(states, events, n - 1);
      RunKeepsInvariant(states, events, n - 1);
      assert Step(states[n - 1], events[n - 1], states[n]);
      StepRegisters(states[n - 1], events[n - 1], states[n]);
    }
  }
}
