/** The deadlock verdict. The wait graph reads only two flags per coroutine, yet at a quiescent moment
it says `Deadlocked` exactly when nothing the simulator can ever deliver will wake anybody. */
module Deadlock {
  import opened Registrations
  import opened WaitCore
  import opened SchedulerState
  import opened SchedulerLife
  import opened SchedulerEnd
  import opened Cancellation
  import opened Delivery
  import opened SchedulerRun
  import opened ReadyRun
  import opened SchedulerRuns
  import E = EdgeWaits
  import P = PhaseWaits
  import T = TimerQueue

  /** Nothing runs and nothing is queued: the simulator has control. */
  ghost predicate Quiescent(s: Sched) {
    !s.draining && s.frames == [] && s.core.queue.entries == []
  }

  ghost predicate HasEdge(c: Core, i: nat) {
    exists k, r :: 0 <= k < |c.edges.queues| && r in c.edges.queues[k] && r.slot == i && ValidReg(c, r)
  }

  ghost predicate HasPhase(c: Core, i: nat) {
    exists k, r :: 0 <= k < |c.phases.queues| && r in c.phases.queues[k] && r.slot == i && ValidReg(c, r)
  }

  /** Some coroutine is alive, and none has a live timer, edge or phase registration. */
  ghost predicate Stuck(c: Core) {
    && (exists i :: 0 <= i < |c.slots| && c.slots[i].Alive())
    && forall i :: 0 <= i < |c.slots| ==> !HasTimer(c, i) && !HasEdge(c, i) && !HasPhase(c, i)
  }

  lemma {:induction false} TotalPositive(qs: seq<seq<Reg>>, m: Measure)
    ensures Total(qs, m, false) > 0 <==> exists k, r :: 0 <= k < |qs| && r in qs[k] && Counts(m, r)
  {
    if qs != [] {
      var n := |qs| - 1;
      TotalPositive(qs[..n], m);
      CountPositive(qs[n], m);
      if k, r :| 0 <= k < n && r in qs[..n][k] && Counts(m, r) {
        assert r in qs[k];
      }
      if k, r :| 0 <= k < |qs| && r in qs[k] && Counts(m, r) {
        assert k < n ==> r in qs[..n][k];
      }
    }
  }

  lemma EdgeWaitsExact(c: Core, i: nat)
    requires WaitInv(c) && i < |c.slots| && c.slots[i].Token().Some?
    ensures i < |c.edges.waits| && (c.edges.waits[i] != 0 <==> HasEdge(c, i))
  {
    var tokens := Waits(c.slots);
    var m := HeldBy(i, tokens[i].value);
    assert c.edges.waits[i] == E.Held(c.edges, tokens, i, false);
    TotalPositive(c.edges.queues, m);
    assert forall r :: Counts(m, r) <==> r.slot == i && ValidReg(c, r);
  }

  lemma PhaseWaitsExact(c: Core, i: nat)
    requires WaitInv(c) && i < |c.slots| && c.slots[i].Token().Some?
    ensures i < |c.phases.waits| && (c.phases.waits[i] != [0, 0, 0] <==> HasPhase(c, i))
  {
    var tokens := Waits(c.slots);
    var m := HeldBy(i, tokens[i].value);
    assert forall r :: Counts(m, r) <==> r.slot == i && ValidReg(c, r);
    forall p | 0 <= p < P.PHASES
      ensures c.phases.waits[i][p] == Count(c.phases.queues[p], m)
      ensures c.phases.waits[i][p] > 0 <==> exists r :: r in c.phases.queues[p] && r.slot == i && ValidReg(c, r)
    {
      assert c.phases.waits[i][p] == P.HeldPhase(c.phases, tokens, i, p);
      CountPositive(c.phases.queues[p], m);
    }
    assert c.phases.waits[i] == [c.phases.waits[i][0], c.phases.waits[i][1], c.phases.waits[i][2]];
  }

  /** The counters behind the flags are about the queues. */
  lemma RegistrationsExact(c: Core, i: nat)
    requires WaitInv(c) && i < |c.slots|
    ensures c.slots[i].Token().Some? ==> (HasRegistrations(c, i) <==> HasEdge(c, i) || HasPhase(c, i))
    ensures c.slots[i].Token().None? ==> !HasTimer(c, i) && !HasEdge(c, i) && !HasPhase(c, i)
  {
    if c.slots[i].Token().Some? {
      EdgeWaitsExact(c, i);
      PhaseWaitsExact(c, i);
    }
  }

  /** At a quiescent moment both flags of every coroutine are exact. */
  lemma FlagsExact(s: Sched, i: nat)
    requires SchedInv(s) && s.frames == [] && i < |s.core.slots|
    ensures s.core.slots[i].progress.time <==> HasTimer(s.core, i)
    ensures s.core.slots[i].progress.simulator <==> HasEdge(s.core, i) || HasPhase(s.core, i)
    ensures !s.Alive(i) ==> s.core.slots[i].progress == INTERNAL
  {
    hide LifeInv, WaitInv;
    InvWait(s);
    SlotIsOk(s.core, i);
    RegistrationsExact(s.core, i);
    assert FlagAt(s.core, s.frames, i);
  }

  lemma QuietNotRunnable(s: Sched)
    requires SchedInv(s) && Quiescent(s)
    ensures NobodyReady(s) && !AnyRunnable(s)
  {
    InvWait(s);
    InvQueue(s.core);
  }

  /** The verdict is exact: `Deadlocked` just when some coroutine is alive and none of them has a live
      timer, edge or phase registration. */
  lemma DeadlockExact(s: Sched)
    requires SchedInv(s) && Quiescent(s)
    ensures GraphStatus(s) == Deadlocked <==> Stuck(s.core)
  {
    hide SchedInv, HasTimer, HasEdge, HasPhase;
    QuietNotRunnable(s);
    forall i | 0 <= i < |s.core.slots|
      ensures (s.Alive(i) && (s.core.slots[i].progress.time || s.core.slots[i].progress.simulator))
         <==> HasTimer(s.core, i) || HasEdge(s.core, i) || HasPhase(s.core, i)
    {
      FlagsExact(s, i);
    }
    assert forall i :: 0 <= i < |s.core.slots| ==> (s.Alive(i) <==> s.core.slots[i].Alive());
  }

  /** Every verdict at a quiescent moment is exact: a live timer anywhere makes it `WaitingForTime`, and only without
      one does a live edge or phase registration make it `WaitingForSimulator`. */
  lemma VerdictExact(s: Sched)
    requires SchedInv(s) && Quiescent(s)
    ensures GraphStatus(s) == Complete <==> forall i :: 0 <= i < |s.core.slots| ==> !s.Alive(i)
    ensures GraphStatus(s) == WaitingForTime <==> exists i :: 0 <= i < |s.core.slots| && HasTimer(s.core, i)
    ensures GraphStatus(s) == WaitingForSimulator <==> (
        && (forall i :: 0 <= i < |s.core.slots| ==> !HasTimer(s.core, i))
        && exists i :: 0 <= i < |s.core.slots| && (HasEdge(s.core, i) || HasPhase(s.core, i)))
    ensures GraphStatus(s) == Deadlocked <==> Stuck(s.core)
    ensures GraphStatus(s) != Runnable
  {
    hide SchedInv, HasTimer, HasEdge, HasPhase, Stuck;
    QuietNotRunnable(s);
    DeadlockExact(s);
    forall i | 0 <= i < |s.core.slots|
      ensures (s.Alive(i) && s.core.slots[i].progress.time) <==> HasTimer(s.core, i)
      ensures (s.Alive(i) && s.core.slots[i].progress.simulator) <==> HasEdge(s.core, i) || HasPhase(s.core, i)
    {
      FlagsExact(s, i);
    }
  }

  // ---------------------------------------------------------------------------------------------
  // Nothing can wake a deadlocked system
  // ---------------------------------------------------------------------------------------------

  ghost predicate NoTimers(c: Core) {
    forall i: nat :: !HasTimer(c, i)
  }

  ghost predicate NoEdges(c: Core) {
    forall i: nat :: !HasEdge(c, i)
  }

  ghost predicate NoPhases(c: Core) {
    forall i: nat :: !HasPhase(c, i)
  }

  lemma StuckListens(c: Core)
    requires Stuck(c)
    ensures NoTimers(c) && NoEdges(c) && NoPhases(c)
  {
    forall i: nat
      ensures !HasTimer(c, i) && !HasEdge(c, i) && !HasPhase(c, i)
    {
      if i >= |c.slots| {
        assert forall r: Reg :: r.slot == i ==> !ValidReg(c, r);
      }
    }
  }

  lemma EdgeWakesNobody(c: Core, signal: nat, edge: E.EdgeKind)
    requires WaitInv(c) && NoEdges(c)
    ensures WakeOrder(EdgeAudience(c, signal, edge), Waits(c.slots)) == []
  {
    var rs := EdgeAudience(c, signal, edge);
    var order := WakeOrder(rs, Waits(c.slots));
    WakeOrderExact(rs, Waits(c.slots));
    if order != [] {
      assert order[0] in order;
      var r :| r in rs && Live(Waits(c.slots), r) && r.slot == order[0];
      ValidIsLive(c, r);
      assert HasEdge(c, r.slot) by { AudienceQueued(c, signal, edge, r); }
      assert false;
    }
  }

  lemma AudienceQueued(c: Core, signal: nat, edge: E.EdgeKind, r: Reg)
    requires r in EdgeAudience(c, signal, edge)
    ensures exists k :: 0 <= k < |c.edges.queues| && r in c.edges.queues[k]
  {
    var k, any := E.QueueIndex(signal, edge), E.QueueIndex(signal, E.Any);
    assert r in E.QueueAt(c.edges, k) || r in E.QueueAt(c.edges, any);
  }

  lemma TimeWakesNobody(c: Core, time: nat)
    requires WaitInv(c) && NoTimers(c)
    ensures WakeOrder(DueRegs(c, time), Waits(c.slots)) == []
  {
    var order := WakeOrder(DueRegs(c, time), Waits(c.slots));
    WakeOrderExact(DueRegs(c, time), Waits(c.slots));
    if order != [] {
      assert order[0] in order;
      DueMembers(c, time, order[0]);
      assert HasTimer(c, order[0]);
      assert false;
    }
  }

  lemma PhaseWakesNobody(c: Core, phase: P.Phase)
    requires WaitInv(c) && NoPhases(c)
    ensures |c.phases.queues| == P.PHASES
    ensures WakeOrder(c.phases.queues[P.PhaseIndex(phase)], Waits(c.slots)) == []
  {
    ThreePhases(c);
    var rs := c.phases.queues[P.PhaseIndex(phase)];
    WakeOrderExact(rs, Waits(c.slots));
    var order := WakeOrder(rs, Waits(c.slots));
    if order != [] {
      assert order[0] in order;
      var r :| r in rs && Live(Waits(c.slots), r) && r.slot == order[0];
      ValidIsLive(c, r);
      assert HasPhase(c, r.slot);
      assert false;
    }
  }

  /** A delivery that woke nobody: everything about the coroutines is as before. */
  ghost predicate Unheard(c: Core, d: Core) {
    && |d.slots| == |c.slots| && d.lastGen == c.lastGen && d.queue.entries == c.queue.entries && Settles(c, d)
    && forall i :: 0 <= i < |c.slots| ==>
         d.slots[i].Token() == c.slots[i].Token() && (d.slots[i].Alive() <==> c.slots[i].Alive())
  }

  lemma UnheardEdge(s: Sched, signal: nat, edge: E.EdgeKind)
    requires SchedInv(s) && NoEdges(s.core)
    ensures var (d, woke) := DeliverEdge(s.core, signal, edge); !woke && Unheard(s.core, d)
  {
    hide LifeInv, RunInv, WaitInv, Settles, NoEdges;
    EdgeWakesNobody(s.core, signal, edge);
    DeliverEdgeExact(s.core, signal, edge);
    assert Steady(s.core, DeliverEdge(s.core, signal, edge).0);
  }

  lemma UnheardTime(s: Sched, time: nat)
    requires SchedInv(s) && NoTimers(s.core) && time <= T.NO_DEADLINE
    ensures var (d, woke) := DeliverTime(s.core, time); !woke && Unheard(s.core, d)
  {
    hide LifeInv, RunInv, WaitInv, Settles, NoTimers;
    TimeWakesNobody(s.core, time);
    DeliverTimeExact(s.core, time);
    DeliverTimeKeeps(s.core, time);
    assert Steady(s.core, DeliverTime(s.core, time).0);
  }

  lemma UnheardPhase(s: Sched, phase: P.Phase)
    requires SchedInv(s) && NoPhases(s.core)
    ensures var (d, woke) := DeliverPhase(s.core, phase); !woke && Unheard(s.core, d)
  {
    hide LifeInv, RunInv, WaitInv, Settles, NoPhases;
    PhaseWakesNobody(s.core, phase);
    DeliverPhaseExact(s.core, phase);
    var d := DeliverPhase(s.core, phase).0;
    assert Steady(s.core, d);
    assert forall i :: 0 <= i < |s.core.slots| ==> Waits(d.slots)[i] == Waits(s.core.slots)[i] by {
      WakeOrderExact(s.core.phases.queues[P.PhaseIndex(phase)], Waits(s.core.slots));
    }
  }

  lemma StillStuckAt(c: Core, d: Core, i: nat)
    requires WaitInv(c) && WaitInv(d) && Stuck(c) && Unheard(c, d) && i < |d.slots|
    ensures !HasTimer(d, i) && !HasEdge(d, i) && !HasPhase(d, i)
  {
    hide WaitInv, HasTimer, HasEdge, HasPhase, HasRegistrations;
    RegistrationsExact(c, i);
    RegistrationsExact(d, i);
    SlotIsOk(d, i);
    assert SettledAt(c, d, i);
  }

  /** What nobody heard leaves nobody listening. */
  lemma StillStuck(c: Core, d: Core)
    requires WaitInv(c) && WaitInv(d) && Stuck(c) && Unheard(c, d)
    ensures Stuck(d)
  {
    forall i | 0 <= i < |d.slots|
      ensures !HasTimer(d, i) && !HasEdge(d, i) && !HasPhase(d, i)
    {
      StillStuckAt(c, d, i);
    }
    var i :| 0 <= i < |c.slots| && c.slots[i].Alive();
    assert d.slots[i].Alive();
  }

  /** Reclaiming only empties slots whose coroutine is done. */
  ghost predicate Vacates(s: Sched, r: Sched) {
    && |r.core.slots| == |s.core.slots| && r.core.lastGen == s.core.lastGen && r.core.queue == s.core.queue
    && r.draining == s.draining && r.frames == s.frames
    && forall i :: 0 <= i < |s.core.slots| ==>
         r.core.slots[i] == s.core.slots[i] || (!s.Alive(i) && r.core.slots[i] == VACANT)
  }

  lemma {:induction false} ReclaimRootsVacates(s: Sched, listed: seq<nat>)
    ensures Vacates(s, ReclaimRoots(s, listed))
    decreases |listed|
  {
    if listed != [] {
      ReclaimRootsVacates(Reclaim(s, listed[0]), listed[1..]);
    }
  }

  lemma {:induction false} ReclaimChildrenVacates(s: Sched, listed: seq<Option<nat>>)
    ensures Vacates(s, ReclaimChildren(s, listed))
    decreases |listed|
  {
    if listed != [] {
      ReclaimChildrenVacates(if listed[0].Some? then Reclaim(s, listed[0].value) else s, listed[1..]);
    }
  }

  lemma BoundaryVacates(s: Sched)
    ensures Vacates(s, Boundary(s))
  {
    ReclaimRootsVacates(s, s.pool.finishedRoots);
    var a := CollectRoots(s);
    ReclaimChildrenVacates(a, a.pool.finished);
  }

  lemma VacatesUnheard(s: Sched, r: Sched)
    requires Vacates(s, r) && Settles(s.core, r.core)
    ensures Unheard(s.core, r.core)
  {
  }

  lemma BoundaryStuck(s: Sched)
    requires SchedInv(s) && Stuck(s.core) && Quiescent(s)
    ensures Stuck(Boundary(s).core) && Quiescent(Boundary(s))
  {
    hide SchedInv, WaitInv, Settles, Stuck, Moves, Boundary, Unheard;
    BoundaryStep(s);
    BoundaryVacates(s);
    VacatesUnheard(s, Boundary(s));
    InvWait(s);
    InvWait(Boundary(s));
    StillStuck(s.core, Boundary(s).core);
  }

  lemma UnheardStuck(s: Sched, d: Core)
    requires SchedInv(s) && Quiescent(s) && Stuck(s.core) && WaitInv(d) && Unheard(s.core, d)
    ensures Stuck(d) && Quiescent(s.(core := d))
  {
    hide WaitInv, Stuck;
    InvWait(s);
    StillStuck(s.core, d);
  }

  /** A delivery to a deadlocked system leaves it deadlocked, with nobody ready. */
  lemma DeliveryStuck(s: Sched, e: Event, r: Sched)
    requires SchedInv(s) && Quiescent(s) && Stuck(s.core) && Delivers(s, e, r)
    ensures Quiescent(r) && Stuck(r.core)
  {
    hide SchedInv, WaitInv, Stuck, Unheard, NoTimers, NoEdges, NoPhases, Settles, Moves, Steady, Quiescent, Boundary;
    StuckListens(s.core);
    InvWait(s);
    match e
    case EdgeSeen(signal, edge) =>
      var d := DeliverEdge(s.core, signal, edge).0;
      UnheardEdge(s, signal, edge);
      DeliverEdgeKeeps(s.core, signal, edge);
      assert Steady(s.core, d);
      DeliveredStuck(s, d, r);
    case TimePassed(time) =>
      var d := DeliverTime(s.core, time).0;
      UnheardTime(s, time);
      DeliverTimeKeeps(s.core, time);
      assert Steady(s.core, d);
      DeliveredStuck(s, d, r);
    case PhaseReached(phase) =>
      var d := DeliverPhase(s.core, phase).0;
      UnheardPhase(s, phase);
      DeliverPhaseExact(s.core, phase);
      assert Steady(s.core, d);
      DeliveredStuck(s, d, r);
    case _ =>
  }

  lemma DeliveredStuck(s: Sched, d: Core, r: Sched)
    requires SchedInv(s) && Quiescent(s) && Stuck(s.core) && Unheard(s.core, d)
    requires WaitInv(d) && Evolves(s.core, d) && Steady(s.core, d)
    requires r == s.(core := d) || r == Boundary(s.(core := d))
    ensures Quiescent(r) && Stuck(r.core)
  {
    hide SchedInv, WaitInv, Stuck, Unheard, Moves, Settles, Steady, Boundary;
    UnheardStuck(s, d);
    SteadyStep(s, d);
    BoundaryStuck(s.(core := d));
  }

  lemma ReadingStuck(s: Sched, e: Event, r: Sched)
    requires SchedInv(s) && Quiescent(s) && Stuck(s.core) && Reads(s, e, r)
    ensures Quiescent(r) && Stuck(r.core)
  {
    hide SchedInv, WaitInv, Stuck, Settles, NoneRevived;
    ReadsKeeps(s, e, r);
    InvWait(s);
    InvWait(r);
    match e
    case ScheduleRead =>
      PollTimerKeeps(s.core);
      StillStuck(s.core, r.core);
    case InterestRead =>
      ConsumeKeeps(s.core);
      StillStuck(s.core, r.core);
    case _ =>
  }

  /** States of a system of which only the simulator side still takes steps. */
  ghost predicate SimulatorRun(states: seq<Sched>, events: seq<Event>) {
    && |states| == |events| + 1
    && forall k {:trigger events[k]} :: 0 <= k < |events| ==>
         Delivers(states[k], events[k], states[k + 1]) || Reads(states[k], events[k], states[k + 1])
  }

  /** A deadlock is for ever: whatever edges, times and phases follow, the verdict stays and nobody
      becomes ready. */
  lemma {:induction false} DeadlockIsForever(states: seq<Sched>, events: seq<Event>, n: nat)
    requires SimulatorRun(states, events) && n < |states|
    requires SchedInv(states[0]) && Quiescent(states[0]) && GraphStatus(states[0]) == Deadlocked
    ensures SchedInv(states[n]) && Quiescent(states[n]) && NobodyReady(states[n])
    ensures GraphStatus(states[n]) == Deadlocked && Stuck(states[n].core)
  {
    hide SchedInv, Stuck, Quiescent, NobodyReady, Delivers, Reads, GraphStatus, NoneRevived, Moves;
    if n == 0 {
      DeadlockExact(states[0]);
      QuietNotRunnable(states[0]);
    } else {
      DeadlockIsForever(states, events, n - 1);
      var s, e, r := states[n - 1], events[n - 1], states[n];
      StepKeeps(s, e, r);
      if Delivers(s, e, r) {
        DeliveryStuck(s, e, r);
      } else {
        ReadingStuck(s, e, r);
      }
      DeadlockExact(r);
      QuietNotRunnable(r);
    }
  }

  // ---------------------------------------------------------------------------------------------
  // Anything else can still be woken
  // ---------------------------------------------------------------------------------------------

  ghost predicate WakesSomebody(s: Sched, e: Event, r: Sched) {
    Delivers(s, e, r) && exists i :: 0 <= i < |r.core.slots| && r.core.slots[i].ready
  }

  lemma SplitQueue(k: nat)
    ensures k == E.QueueIndex(k / 3, if k % 3 == 0 then E.Rising else if k % 3 == 1 then E.Falling else E.Any)
  {
  }

  lemma ListenerWoken(s: Sched, i: nat) returns (e: Event, r: Sched)
    requires SchedInv(s) && Quiescent(s) && i < |s.core.slots|
    requires HasTimer(s.core, i) || HasEdge(s.core, i) || HasPhase(s.core, i)
    ensures WakesSomebody(s, e, r)
  {
    hide LifeInv, RunInv, WaitInv, Evolves;
    if HasTimer(s.core, i) {
      e, r := TimerWoken(s, i);
    } else if HasEdge(s.core, i) {
      e, r := EdgeWoken(s, i);
    } else {
      e, r := PhaseWoken(s, i);
    }
  }

  lemma WokenSlots(s: Sched, delivered: (Core, bool))
    requires delivered.1
    ensures AfterDelivery(s, delivered).core.slots == delivered.0.slots
  {
  }

  lemma EdgeWoken(s: Sched, i: nat) returns (e: Event, r: Sched)
    requires SchedInv(s) && i < |s.core.slots| && HasEdge(s.core, i)
    ensures WakesSomebody(s, e, r)
  {
    hide LifeInv, RunInv, WaitInv, Evolves, AfterDelivery, Steady, DeliverEdge;
    var k, w :| 0 <= k < |s.core.edges.queues| && w in s.core.edges.queues[k] && w.slot == i && ValidReg(s.core, w);
    var signal, edge := k / 3, if k % 3 == 0 then E.Rising else if k % 3 == 1 then E.Falling else E.Any;
    SplitQueue(k);
    e := EdgeSeen(signal, edge);
    r := ResumeEdge(s, signal, edge);
    DeliverEdgeExact(s.core, signal, edge);
    assert w in EdgeAudience(s.core, signal, edge);
    var order := WakeOrder(EdgeAudience(s.core, signal, edge), Waits(s.core.slots));
    assert i in order;
    WokenSlots(s, DeliverEdge(s.core, signal, edge));
    assert r.core.slots[i].ready;
  }

  lemma TimerWoken(s: Sched, i: nat) returns (e: Event, r: Sched)
    requires SchedInv(s) && i < |s.core.slots| && HasTimer(s.core, i)
    ensures e.TimePassed? && WakesSomebody(s, e, r)
  {
    hide LifeInv, RunInv, WaitInv, Evolves, AfterDelivery, Steady, DeliverTime;
    var t :| t in T.All(s.core.timers) && t.reg.slot == i && Live(Waits(s.core.slots), t.reg);
    TimerInRange(s.core, t);
    e := TimePassed(t.deadline);
    r := AdvanceTime(s, t.deadline);
    DeliverTimeExact(s.core, t.deadline);
    ValidIsLive(s.core, t.reg);
    assert HasDueTimer(s.core, i, t.deadline);
    var order := WakeOrder(DueRegs(s.core, t.deadline), Waits(s.core.slots));
    assert i in order;
    NotEarly(s.core, t);
    WokenSlots(s, DeliverTime(s.core, t.deadline));
    assert r.core.slots[i].ready;
  }

  lemma TimerInRange(c: Core, t: T.Timer)
    requires WaitInv(c) && t in T.All(c.timers)
    ensures t.deadline <= T.NO_DEADLINE
  {
  }

  /** The cached timer is due no later than any other. */
  lemma NotEarly(c: Core, t: T.Timer)
    requires WaitInv(c) && t in T.All(c.timers)
    ensures c.timers.next.Some? && c.timers.next.value.deadline <= t.deadline
  {
    var all := T.All(c.timers);
    var k :| 0 <= k < |all| && all[k] == t;
    assert k == 0 || T.Before(all[0], all[k]);
  }

  lemma PhaseWoken(s: Sched, i: nat) returns (e: Event, r: Sched)
    requires SchedInv(s) && i < |s.core.slots| && HasPhase(s.core, i)
    ensures WakesSomebody(s, e, r)
  {
    hide LifeInv, RunInv, WaitInv, Evolves, AfterDelivery, Steady, DeliverPhase;
    ThreePhases(s.core);
    var k, w :| 0 <= k < |s.core.phases.queues| && w in s.core.phases.queues[k] && w.slot == i && ValidReg(s.core, w);
    var phase := if k == 0 then P.ReadWrite else if k == 1 then P.ReadOnly else P.NextTimeStep;
    assert P.PhaseIndex(phase) == k;
    e := PhaseReached(phase);
    r := ResumePhase(s, phase);
    DeliverPhaseExact(s.core, phase);
    var order := WakeOrder(s.core.phases.queues[k], Waits(s.core.slots));
    assert i in order;
    WokenSlots(s, DeliverPhase(s.core, phase));
    assert r.core.slots[i].ready;
  }

  /** At a quiescent moment with somebody alive, the verdict is `Deadlocked` just when no delivery at
      all would make anybody ready. */
  lemma DeadlockIsUnwakeable(s: Sched)
    requires SchedInv(s) && Quiescent(s) && exists i :: 0 <= i < |s.core.slots| && s.Alive(i)
    ensures GraphStatus(s) == Deadlocked <==> forall e, r :: !WakesSomebody(s, e, r)
  {
    hide SchedInv, HasTimer, HasEdge, HasPhase, GraphStatus, Delivers;
    DeadlockExact(s);
    if Stuck(s.core) {
      forall e, r | Delivers(s, e, r)
        ensures !WakesSomebody(s, e, r)
      {
        DeliveryStuck(s, e, r);
        DeliversKeeps(s, e, r);
        KeepsInv(s, r);
        QuietNotRunnable(r);
      }
    } else {
      var i :| 0 <= i < |s.core.slots| && (HasTimer(s.core, i) || HasEdge(s.core, i) || HasPhase(s.core, i));
      var e, r := ListenerWoken(s, i);
    }
  }

  /** Whoever a delivery could wake would have a live registration of its kind. */
  ghost predicate Deaf(c: Core, e: Event) {
    match e
    case EdgeSeen(_, _) => NoEdges(c)
    case TimePassed(_) => NoTimers(c)
    case PhaseReached(_) => NoPhases(c)
    case _ => true
  }

  lemma DeafDelivery(s: Sched, e: Event, r: Sched)
    requires SchedInv(s) && Quiescent(s) && Deaf(s.core, e)
    ensures !WakesSomebody(s, e, r)
  {
    hide SchedInv, WaitInv, NoTimers, NoEdges, NoPhases, Settles, Moves, Steady, Boundary, DeliverEdge, DeliverTime,
      DeliverPhase;
    if Delivers(s, e, r) {
      match e {
        case EdgeSeen(signal, edge) =>
          UnheardEdge(s, signal, edge);
          UnheardQuiet(s, DeliverEdge(s.core, signal, edge).0);
        case TimePassed(time) =>
          UnheardTime(s, time);
          UnheardQuiet(s, DeliverTime(s.core, time).0);
        case PhaseReached(phase) =>
          UnheardPhase(s, phase);
          UnheardQuiet(s, DeliverPhase(s.core, phase).0);
        case _ =>
      }
      DeliversKeeps(s, e, r);
      KeepsInv(s, r);
      QuietNotRunnable(r);
    }
  }

  lemma UnheardQuiet(s: Sched, d: Core)
    requires Quiescent(s) && Unheard(s.core, d)
    ensures Quiescent(s.(core := d)) && Quiescent(Boundary(s.(core := d)))
  {
    BoundaryVacates(s.(core := d));
  }

  lemma TimersInRange(c: Core)
    requires forall i :: 0 <= i < |c.slots| ==> !HasTimer(c, i)
    ensures NoTimers(c)
  {
    forall i: nat
      ensures !HasTimer(c, i)
    {
      assert i >= |c.slots| ==> forall r: Reg :: r.slot == i ==> !Live(Waits(c.slots), r);
    }
  }

  lemma EdgesInRange(c: Core)
    requires forall i :: 0 <= i < |c.slots| ==> !HasEdge(c, i) && !HasPhase(c, i)
    ensures NoEdges(c) && NoPhases(c)
  {
    forall i: nat
      ensures !HasEdge(c, i) && !HasPhase(c, i)
    {
      assert i >= |c.slots| ==> forall r: Reg :: r.slot == i ==> !ValidReg(c, r);
    }
  }

  /** `WaitingForTime` means that letting time pass will make somebody ready; `WaitingForSimulator` that some edge or
      phase will, and time alone never. */
  lemma VerdictMeans(s: Sched)
    requires SchedInv(s) && Quiescent(s)
    ensures GraphStatus(s) == WaitingForTime <==> exists time, r :: WakesSomebody(s, TimePassed(time), r)
    ensures GraphStatus(s) == WaitingForSimulator <==> (
        && (exists e, r :: WakesSomebody(s, e, r))
        && forall time, r :: !WakesSomebody(s, TimePassed(time), r))
  {
    hide SchedInv, HasTimer, HasEdge, HasPhase, GraphStatus, Quiescent, Stuck, WakesSomebody;
    VerdictExact(s);
    if i :| 0 <= i < |s.core.slots| && HasTimer(s.core, i) {
      var e, r := TimerWoken(s, i);
      assert WakesSomebody(s, TimePassed(e.time), r);
    } else {
      TimersInRange(s.core);
      forall time, r
        ensures !WakesSomebody(s, TimePassed(time), r)
      {
        DeafDelivery(s, TimePassed(time), r);
      }
      if i :| 0 <= i < |s.core.slots| && (HasEdge(s.core, i) || HasPhase(s.core, i)) {
        var e, r := ListenerWoken(s, i);
      } else {
        EdgesInRange(s.core);
        forall e, r
          ensures !WakesSomebody(s, e, r)
        {
          DeafDelivery(s, e, r);
        }
      }
    }
  }

  /** Every drain that ends, in any run, hands control to the simulator at a quiescent moment, so the verdict is
      exact there. */
  lemma VerdictAfterDrain(states: seq<Sched>, events: seq<Event>, n: nat)
    requires IsRun(states, events) && n < |events| && events[n] == Emptying
    ensures Quiescent(states[n + 1])
    ensures var s := states[n + 1];
      && (GraphStatus(s) == Deadlocked <==> Stuck(s.core))
      && (GraphStatus(s) == WaitingForTime <==> exists i :: 0 <= i < |s.core.slots| && HasTimer(s.core, i))
      && (GraphStatus(s) == Complete <==> forall i :: 0 <= i < |s.core.slots| ==> !s.Alive(i))
      && GraphStatus(s) != Runnable
  {
    hide SchedInv, GraphStatus, Stuck, Quiescent;
    RunKeepsInvariant(states, events, n + 1);
    DrainQuiets(states[n], events[n], states[n + 1]);
    VerdictExact(states[n + 1]);
  }

  lemma DrainQuiets(s: Sched, e: Event, r: Sched)
    requires Step(s, e, r) && e == Emptying
    ensures Quiescent(r)
  {
    var t := s.(core := s.core.(queue := s.core.queue.(entries := [], cursor := 0)), draining := false);
    hide Boundary;
    BoundaryVacates(t);
  }
}
