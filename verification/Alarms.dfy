/** The alarm of the simulator side: unless the schedule is marked, the deadline that was read last is that of the
cached timer, and it lies ahead. */
module Alarms {
  import opened Registrations
  import opened WaitCore
  import opened SchedulerState
  import opened SchedulerLife
  import opened SchedulerEnd
  import opened Cancellation
  import opened Delivery
  import opened SchedulerRun
  import opened SchedulerRuns
  import opened Lifecycle
  import T = TimerQueue

  /** The deadline of the cached timer, which may be dead. */
  function First(q: T.TimerTable): nat {
    if q.next.None? then T.NO_DEADLINE else q.next.value.deadline
  }

  /** Every timer, dead ones included, is due later, or never. */
  predicate Ahead(c: Core) {
    First(c.timers) > c.clock.now || First(c.timers) == T.NO_DEADLINE
  }

  /** Unless the schedule ends up marked, it was not marked and the cached timer is due when it was. */
  predicate Steadfast(q: T.TimerTable, r: T.TimerTable) {
    !r.changed ==> !q.changed && First(r) == First(q)
  }

  ghost predicate Ordered(q: T.TimerTable) {
    (q.next.None? ==> q.heap == []) && T.Sorted(T.All(q)) && forall t :: t in T.All(q) ==> t.deadline <= T.NO_DEADLINE
  }

  // ---------------------------------------------------------------------------------------------
  // Timers armed and dropped
  // ---------------------------------------------------------------------------------------------

  lemma {:induction false} DiscardFirst(q: T.TimerTable, tokens: Tokens)
    requires Ordered(q)
    ensures var r := T.Discard(q, tokens); First(r) >= First(q) && Steadfast(q, r) && Ordered(r)
    decreases |q.heap|
  {
    if !(q.next.Some? && Live(tokens, q.next.value.reg)) && q.heap != [] {
      var d := q.(next := Some(q.heap[0]), heap := q.heap[1..], changed := q.changed || q.next.Some?);
      assert T.All(d) == q.heap == T.All(q)[1..];
      assert T.All(q)[0] == q.next.value && T.All(q)[1] == q.heap[0];
      DiscardFirst(d, tokens);
    }
  }

  lemma AddFirst(q: T.TimerTable, tokens: Tokens, deadline: nat, reg: Reg)
    requires Ordered(q) && deadline <= T.NO_DEADLINE
    ensures var r := T.AddTimer(q, tokens, deadline, reg);
      Steadfast(q, r) && (First(r) >= First(q) || First(r) == deadline)
  {
    DiscardFirst(q, tokens);
  }

  lemma CoreOrdered(c: Core)
    requires WaitInv(c)
    ensures Ordered(c.timers)
  {
  }

  lemma DeadlineAhead(clock: Clock, femtoseconds: nat)
    requires DelayAccepted(clock, femtoseconds) && clock.now <= T.NO_DEADLINE
    ensures var d := DeadlineAfter(clock, femtoseconds); d <= T.NO_DEADLINE && (d > clock.now || d == T.NO_DEADLINE)
  {
    assert femtoseconds == clock.precision * (femtoseconds / clock.precision);
  }

  lemma NowInRange(c: Core)
    requires WaitInv(c)
    ensures c.clock.now <= T.NO_DEADLINE
  {
  }

  lemma RegisterAhead(c: Core, request: Request, r: Reg)
    requires WaitInv(c) && Ahead(c) && RegisterWait(c, request, r).Some?
    ensures var d := RegisterWait(c, request, r).value; Ahead(d) && Steadfast(c.timers, d.timers)
  {
    hide WaitInv, T.AddTimer;
    if request.After? {
      NowInRange(c);
      CoreOrdered(c);
      DeadlineAhead(c.clock, request.femtoseconds);
      AddFirst(c.timers, Waits(Note(c, r.slot, request).slots), DeadlineAfter(c.clock, request.femtoseconds), r);
    }
  }

  lemma {:induction false} RegisterFirstAhead(c: Core, requests: seq<Request>, i: nat, k: nat)
    requires WaitInv(c) && Ahead(c) && ValidReg(c, Reg(i, c.lastGen, None))
    requires RegisterFirst(c, requests, i, k).Some?
    ensures var d := RegisterFirst(c, requests, i, k).value; Ahead(d) && Steadfast(c.timers, d.timers)
    decreases |requests| - k
  {
    hide WaitInv, EvolvesBut, RegisterWait;
    if k < |requests| {
      var r := Reg(i, c.lastGen, Some(k));
      var d := RegisterWait(c, requests[k], r).value;
      Accepts(c, requests[k], r);
      RegisterWaitKeeps(c, requests[k], r);
      RegisterAhead(c, requests[k], r);
      ValidIsLive(c, Reg(i, c.lastGen, None));
      ValidIsLive(d, Reg(i, c.lastGen, None));
      RegisterFirstAhead(d, requests, i, k + 1);
    }
  }

  lemma Accepts(c: Core, request: Request, r: Reg)
    requires RegisterWait(c, request, r).Some?
    ensures Accepted(c.clock, request)
  {
  }

  lemma BegunAhead(c: Core, i: nat, reason: WaitReason)
    requires WaitInv(c) && i < |c.slots| && c.slots[i].Alive() && Ahead(c)
    ensures var d := BeginWait(c, i, reason);
      && WaitInv(d) && Ahead(d) && d.timers == c.timers && ValidReg(d, Reg(i, d.lastGen, None))
  {
    hide WaitInv, EvolvesBut, HasTimer, HasRegistrations;
    SlotIsOk(c, i);
    BeginWaitShape(c, i, reason);
    BeginWaitKeeps(c, i, reason);
  }

  // ---------------------------------------------------------------------------------------------
  // Timers taken
  // ---------------------------------------------------------------------------------------------

  lemma {:induction false} FireAhead(c: Core)
    requires WaitInvButCache(c)
    ensures Ahead(FireTimers(c).0) && FireTimers(c).0.clock == c.clock
    decreases T.Size(c.timers)
  {
    hide WaitInvButCache, ResumeReg;
    var q := T.Discard(c.timers, Waits(c.slots));
    if q.next.Some? && q.next.value.deadline <= c.clock.now {
      var b := c.(timers := q.(next := None));
      var d := ResumeReg(b, q.next.value.reg);
      FireOne(c);
      ResumeOnward(b, q.next.value.reg);
      FireAhead(d);
    }
  }

  /** Advancing past the cached timer takes it off, or drops it because it is dead; either marks the schedule. */
  lemma FireMarks(c: Core)
    requires WaitInv(c) && First(c.timers) <= c.clock.now && c.timers.next.Some?
    ensures var (d, popped) := FireTimers(c); popped || d.timers.changed
  {
    CoreOrdered(c);
    T.DiscardExact(c.timers, Waits(c.slots));
    var r := T.Discard(c.timers, Waits(c.slots));
    assert r.next.Some? && r.next.value.deadline > c.clock.now ==> T.All(r)[0] != T.All(c.timers)[0];
  }

  lemma AdvanceAhead(c: Core, time: nat)
    requires WaitInv(c) && time <= T.NO_DEADLINE
    ensures var d := DeliverTime(c, time).0; Ahead(d) && Steadfast(c.timers, d.timers)
  {
    hide WaitInv, FireTimers;
    var a := c.(clock := c.clock.(phase := Evaluation, now := time));
    SetTimeKeeps(c, time);
    if c.timers.next.Some? && c.timers.next.value.deadline <= time {
      CacheIsSound(a);
      FireAhead(a);
      FireMarks(a);
    }
  }

  lemma ReadAhead(c: Core)
    requires WaitInv(c) && Ahead(c)
    ensures var (d, read) := PollTimer(c);
      && Ahead(d) && (read.Some? && !d.timers.changed ==> read.value == First(d.timers))
      && (read.None? ==> d == c)
  {
    var q := c.timers.(changed := false);
    CoreOrdered(c);
    assert T.All(q) == T.All(c.timers);
    DiscardFirst(q, Waits(c.slots));
  }

  // ---------------------------------------------------------------------------------------------
  // Over runs
  // ---------------------------------------------------------------------------------------------

  lemma CallAhead(s: Sched, e: Event, t: Sched)
    requires SchedInv(s) && Call(s, e, t) && Ahead(s.core) && MovesTimers(e)
    ensures Ahead(t.core) && Steadfast(s.core.timers, t.core.timers)
  {
    hide WaitInv, LifeInv, RunInv, BeginWait, RegisterWait, RegisterFirst;
    InvWait(s);
    match e
    case Parking(i, request) =>
      BegunAhead(s.core, i, RequestReason(request));
      var c := BeginWait(s.core, i, RequestReason(request));
      RegisterAhead(c, request, Reg(i, c.lastGen, None));
    case ParkingFirst(i, requests) =>
      BegunAhead(s.core, i, FirstWait);
      var c := BeginWait(s.core, i, FirstWait);
      SetWinnerKeeps(c, i, None);
      ValidIsLive(c, Reg(i, c.lastGen, None));
      ValidIsLive(SetWinner(c, i, None), Reg(i, c.lastGen, None));
      RegisterFirstAhead(SetWinner(c, i, None), requests, i, 0);
    case TimingSet =>
      var frame := s.frames[|s.frames| - 1];
      if ValidReg(s.core, frame.wait) {
        RegisterAhead(s.core, After(frame.timeout), frame.wait);
      }
    case _ =>
  }

  lemma OtherAhead(s: Sched, e: Event, t: Sched)
    requires SchedInv(s) && Step(s, e, t) && Ahead(s.core) && !MovesTimers(e)
    ensures Ahead(t.core) && Steadfast(s.core.timers, t.core.timers)
  {
    hide SchedInv, Call, Turn, Delivers, Reads, Own, AdvancesAt;
    StepAdvances(s, e, t);
    StepKeeps(s, e, t);
    if Reads(s, e, t) {
      ReadsMark(s, e, t);
    }
    assert Clocked(s.core, e).clock.now == s.core.clock.now;
  }

  lemma ReadsMark(s: Sched, e: Event, t: Sched)
    requires Reads(s, e, t) && !MovesTimers(e)
    ensures t.core.timers == s.core.timers
  {
  }

  lemma DeliveredTimers(s: Sched, delivered: (Core, bool))
    ensures var t := AfterDelivery(s, delivered);
      t.core.timers == delivered.0.timers && t.core.clock.now == delivered.0.clock.now
  {
    BoundaryRest(s.(core := delivered.0));
  }

  lemma TimeAhead(s: Sched, time: nat, t: Sched)
    requires SchedInv(s) && Step(s, TimePassed(time), t)
    ensures Ahead(t.core) && Steadfast(s.core.timers, t.core.timers)
  {
    hide SchedInv, WaitInv, DeliverTime, AfterDelivery;
    InvWait(s);
    AdvanceAhead(s.core, time);
    DeliveredTimers(s, DeliverTime(s.core, time));
  }

  lemma ScheduleAhead(s: Sched, t: Sched, last: nat)
    requires SchedInv(s) && Step(s, ScheduleRead, t) && Ahead(s.core)
    requires !s.core.timers.changed ==> last == First(s.core.timers)
    ensures Ahead(t.core) && (!t.core.timers.changed ==> NowRead(s, ScheduleRead, last) == First(t.core.timers))
  {
    hide SchedInv, WaitInv;
    InvWait(s);
    ReadAhead(s.core);
  }

  lemma StepAhead(s: Sched, e: Event, t: Sched, last: nat)
    requires SchedInv(s) && Step(s, e, t) && Ahead(s.core)
    requires !s.core.timers.changed ==> last == First(s.core.timers)
    ensures Ahead(t.core) && (!t.core.timers.changed ==> NowRead(s, e, last) == First(t.core.timers))
  {
    hide SchedInv, Step, Ahead;
    if !MovesTimers(e) {
      OtherAhead(s, e, t);
    } else if e.TimePassed? {
      TimeAhead(s, e.time, t);
    } else if e.ScheduleRead? {
      ScheduleAhead(s, t, last);
    } else {
      MovingCall(s, e, t);
      CallAhead(s, e, t);
    }
  }

  lemma MovingCall(s: Sched, e: Event, t: Sched)
    requires Step(s, e, t) && (e.Parking? || e.ParkingFirst? || e.TimingSet?)
    ensures Call(s, e, t)
  {
  }

  /** In every state of every run every timer lies ahead, and unless the schedule is marked the deadline read last is
      exactly that of the cached timer: the simulator side is never left waiting for a time that is past. */
  lemma {:induction false} AlarmAhead(states: seq<Sched>, events: seq<Event>, n: nat)
    requires IsRun(states, events) && n <= |events|
    ensures Ahead(states[n].core)
    ensures !states[n].core.timers.changed ==> LastRead(states, events, n) == First(states[n].core.timers)
  {
    hide SchedInv, Step, Ahead, NowRead;
    if n == 0 {
      NoAlarm(states, events);
    } else {
      AlarmAhead(states, events, n - 1);
      RunKeepsInvariant(states, events, n - 1);
      StepAhead(states[n - 1], events[n - 1], states[n], LastRead(states, events, n - 1));
    }
  }

  lemma NoAlarm(states: seq<Sched>, events: seq<Event>)
    requires IsRun(states, events)
    ensures Ahead(states[0].core) && First(states[0].core.timers) == T.NO_DEADLINE
  {
  }
}
