/** What the scheduler leaves behind when it gives control back: after a drain nobody is ready and no finished coroutine
occupies a slot, and while no drain is under way nobody who is ready is left waiting for one. */
module Handover {
  import opened Registrations
  import opened WaitCore
  import opened SchedulerState
  import opened SchedulerLife
  import opened SchedulerEnd
  import opened Cancellation
  import opened Delivery
  import opened SchedulerRun
  import opened ReadyRun
  import opened SchedulerRuns
  import opened Deadlock
  import opened Lifecycle
  import opened ResumeStack
  import opened RequestedCancels
  import E = EdgeWaits

  // ---------------------------------------------------------------------------------------------
  // Reclaiming
  // ---------------------------------------------------------------------------------------------

  /** Every slot is vacant or has a living coroutine in it. */
  ghost predicate NoneFinished(s: Sched) {
    forall i :: 0 <= i < |s.core.slots| ==> s.core.slots[i].life.occupied ==> s.Alive(i)
  }

  /** No finished process occupies a slot. */
  ghost predicate NoProcessFinished(s: Sched) {
    forall i :: 0 <= i < |s.core.slots| && s.core.slots[i].life.occupied && s.core.slots[i].life.control.Some? ==>
      s.Alive(i)
  }

  lemma RootsCollected(s: Sched)
    requires SchedInv(s) && s.pool.finishedRoots == []
    ensures NoProcessFinished(s)
  {
    hide WaitInv, RunInv;
    var lives := Lives(s.core.slots);
    forall i: nat | i < |s.core.slots| && s.core.slots[i].life.occupied && s.core.slots[i].life.control.Some?
      ensures s.Alive(i)
    {
      assert lives[i] == s.core.slots[i].life;
      assert !Listed(s.pool, i);
    }
  }

  lemma AllCollected(s: Sched)
    requires SchedInv(s) && s.pool.finishedRoots == [] && s.pool.finished == []
    ensures NoneFinished(s)
  {
    hide WaitInv, RunInv;
    var lives := Lives(s.core.slots);
    forall i: nat | i < |s.core.slots| && s.core.slots[i].life.occupied
      ensures s.Alive(i)
    {
      assert lives[i] == s.core.slots[i].life;
      assert !Listed(s.pool, i);
    }
  }

  lemma CollectLeaves(s: Sched)
    requires SchedInv(s)
    ensures NoProcessFinished(CollectRoots(s))
  {
    hide SchedInv, Keeps;
    CollectRootsStep(s);
    KeepsInv(s, CollectRoots(s));
    RootsCollected(CollectRoots(s));
  }

  /** The boundary empties every slot of a finished coroutine and leaves few dead edge registrations in the queues. */
  lemma BoundaryLeaves(s: Sched)
    requires SchedInv(s)
    ensures NoneFinished(Boundary(s)) && FewStale(Boundary(s))
  {
    hide SchedInv, Keeps, CollectRoots;
    var a := CollectRoots(s);
    CollectRootsStep(s);
    KeepsInv(s, a);
    CollectFinishedStep(a);
    var b := CollectFinished(a);
    KeepsInv(a, b);
    ListsEmpty(s);
    AllCollected(b);
    FewAfterCompact(b);
  }

  lemma ListsEmpty(s: Sched)
    ensures var b := CollectFinished(CollectRoots(s)); b.pool.finishedRoots == [] && b.pool.finished == []
  {
    var a := CollectRoots(s);
    ReclaimChildrenLists(a, a.pool.finished);
  }

  lemma {:induction false} ReclaimChildrenLists(s: Sched, listed: seq<Option<nat>>)
    ensures ReclaimChildren(s, listed).pool.finishedRoots == s.pool.finishedRoots
    decreases |listed|
  {
    if listed != [] {
      ReclaimChildrenLists(if listed[0].Some? then Reclaim(s, listed[0].value) else s, listed[1..]);
    }
  }

  ghost function LiveEdges(c: Core): nat {
    Total(c.edges.queues, LiveUnder(Waits(c.slots)), false)
  }

  /** The edge registrations that are queued although their wait is over. */
  ghost function DeadEdges(c: Core): int {
    Total(c.edges.queues, Every, false) - LiveEdges(c)
  }

  ghost predicate FewStale(s: Sched) {
    DeadEdges(s.core) < E.COMPACT_THRESHOLD || DeadEdges(s.core) < LiveEdges(s.core)
  }

  lemma FewAfterCompact(s: Sched)
    requires SchedInv(s)
    ensures FewStale(s.(core := s.core.(edges := E.Compact(s.core.edges, Waits(s.core.slots)))))
  {
    hide LifeInv, RunInv;
    E.CompactExact(s.core.edges, Waits(s.core.slots), s.core.lastGen);
  }

  /** When a coroutine gives up control, finished processes have been reclaimed; when the drain is over, so has
      everybody else who has finished. */
  lemma TurnLeaves(s: Sched, e: Event, t: Sched)
    requires SchedInv(s) && Turn(s, e, t)
    ensures e.Returning? || e.ReturningInline? ==> NoProcessFinished(t)
    ensures e.Emptying? ==> NoneFinished(t) && FewStale(t) && !t.draining
  {
    hide SchedInv, CollectRoots, Boundary, Keeps, Linked, EndResume;
    match e
    case Returning => ReturningLeaves(s);
    case ReturningInline =>
      PopFrameKeeps(s);
      CollectLeaves(s.(frames := s.frames[..|s.frames| - 1]));
    case Emptying =>
      var u := s.(core := s.core.(queue := s.core.queue.(entries := [], cursor := 0)), draining := false);
      EmptyQueueKeeps(s);
      KeepsInv(s, u);
      BoundaryLeaves(u);
      BoundaryVacates(u);
    case _ =>
  }

  lemma ReturningLeaves(s: Sched)
    requires SchedInv(s) && Linked(s) && s.frames != [] && s.frames[|s.frames| - 1].Drained?
    ensures NoProcessFinished(EndResume(s))
  {
    hide SchedInv, CollectRoots, Keeps, Linked, ApplyPending;
    var popped := s.(frames := s.frames[..|s.frames| - 1]);
    PopFrameKeeps(s);
    ShapeKeepsLinked(s, popped);
    ApplyPendingStep(popped);
    KeepsInv(popped, ApplyPending(popped));
    CollectLeaves(ApplyPending(popped));
  }

  lemma DeliveryLeaves(s: Sched, e: Event, t: Sched)
    requires SchedInv(s) && Step(s, e, t) && (e.EdgeSeen? || e.PhaseReached?)
    ensures t.draining || (NoneFinished(t) && FewStale(t))
  {
    hide WaitInv, LifeInv, RunInv, Evolves, Steady, Boundary, DeliverEdge, DeliverPhase, NoneFinished, FewStale, Keeps;
    InvWait(s);
    if e.EdgeSeen? {
      var d := DeliverEdge(s.core, e.signal, e.edge).0;
      DeliverEdgeKeeps(s.core, e.signal, e.edge);
      SteadyStep(s, d);
      KeepsInv(s, s.(core := d));
      BoundaryLeaves(s.(core := d));
    } else {
      var d := DeliverPhase(s.core, e.phase).0;
      DeliverPhaseExact(s.core, e.phase);
      SteadyStep(s, d);
      KeepsInv(s, s.(core := d));
      BoundaryLeaves(s.(core := d));
    }
  }

  /** In every run: a drain that is over has left nobody ready and no finished coroutine in a slot, and has cleared the
      edge queues, and so has an edge or a phase that wakes nobody; whenever a coroutine has given up control no
      finished process is left. */
  lemma LeavesNothing(states: seq<Sched>, events: seq<Event>, n: nat)
    requires IsRun(states, events) && n < |events|
    ensures var e, t := events[n], states[n + 1];
      && (e.Returning? || e.ReturningInline? ==> NoProcessFinished(t))
      && (e.Emptying? ==> NobodyReady(t) && NoneFinished(t) && FewStale(t) && !t.draining)
      && ((e.EdgeSeen? || e.PhaseReached?) && !t.draining ==> NoneFinished(t) && FewStale(t))
  {
    hide SchedInv, Turn, NobodyReady, NoneFinished, FewStale, NoProcessFinished;
    RunKeepsInvariant(states, events, n);
    var s, e, t := states[n], events[n], states[n + 1];
    assert Step(s, e, t);
    if e.EdgeSeen? || e.PhaseReached? {
      DeliveryLeaves(s, e, t);
    }
    if e.Returning? || e.ReturningInline? || e.Emptying? {
      TurnLeaves(s, e, t);
      if e.Emptying? {
        DrainLeavesNobody(s, t);
      }
    }
  }

  // ---------------------------------------------------------------------------------------------
  // Nobody is left waiting for a drain
  // ---------------------------------------------------------------------------------------------

  /** What only a running coroutine or a primitive it uses does happens during a drain. */
  predicate Placed(s: Sched, e: Event) {
    match e
    case Awaiting(_) => s.draining
    case Joining(_, _) => s.draining
    case Parking(_, _) => s.draining
    case ParkingFirst(_, _) => s.draining
    case ParkingExternally(_, _) => s.draining
    case ParkingForProcess(_, _) => s.draining
    case Finishing(_) => s.draining
    case CancellingAwaited(_) => s.draining
    case Waking(_) => s.draining
    case Deferring(_) => s.draining
    case _ => true
  }

  lemma UnheardReady(s: Sched, e: Event, t: Sched)
    requires SchedInv(s) && Delivers(s, e, t) && NobodyReady(s) && !DrainsAfter(s, e)
    ensures NobodyReady(t)
  {
    hide WaitInv, LifeInv, RunInv, Evolves, Boundary, DeliverEdge, DeliverTime, DeliverPhase;
    InvWait(s);
    match e {
      case EdgeSeen(signal, edge) =>
        DeliverEdgeExact(s.core, signal, edge);
        BoundaryReady(s.(core := DeliverEdge(s.core, signal, edge).0));
      case TimePassed(time) =>
        DeliverTimeExact(s.core, time);
        BoundaryReady(s.(core := DeliverTime(s.core, time).0));
      case PhaseReached(phase) =>
        DeliverPhaseExact(s.core, phase);
        BoundaryReady(s.(core := DeliverPhase(s.core, phase).0));
      case _ =>
    }
  }

  lemma IdleCall(s: Sched, e: Event, t: Sched)
    requires SchedInv(s) && Call(s, e, t) && Placed(s, e) && NobodyReady(s) && !s.draining && !DrainsAfter(s, e)
    ensures NobodyReady(t)
  {
    hide WaitInv, LifeInv, Linked, CancelState;
    assert s.frames == [];
  }

  lemma TurnsDrain(s: Sched, e: Event, t: Sched)
    requires SchedInv(s) && Turn(s, e, t)
    ensures s.draining
  {
    hide WaitInv, LifeInv, Linked;
  }

  lemma StepForgetsNobody(s: Sched, e: Event, t: Sched)
    requires SchedInv(s) && Step(s, e, t) && Placed(s, e) && (s.draining || NobodyReady(s))
    ensures t.draining || NobodyReady(t)
  {
    hide SchedInv, Call, Turn, Delivers, Placed, NobodyReady;
    StepStack(s, e, t);
    if e.Emptying? {
      DrainLeavesNobody(s, t);
    } else if !t.draining {
      if Call(s, e, t) {
        IdleCall(s, e, t);
      } else if Turn(s, e, t) {
        TurnsDrain(s, e, t);
      } else if Delivers(s, e, t) {
        UnheardReady(s, e, t);
      } else {
        ReadsReady(s, e, t);
      }
    }
  }

  lemma ReadsReady(s: Sched, e: Event, t: Sched)
    requires Reads(s, e, t) && NobodyReady(s)
    ensures NobodyReady(t)
  {
  }

  /** While no drain is under way nobody is ready: whatever makes a coroutine ready either happens during a drain or
      begins one. */
  lemma {:induction false} NobodyForgotten(states: seq<Sched>, events: seq<Event>, n: nat)
    requires IsRun(states, events) && n < |states| && forall k :: 0 <= k < n ==> Placed(states[k], events[k])
    ensures states[n].draining || NobodyReady(states[n])
  {
    hide SchedInv, Step, Placed, NobodyReady;
    if n == 0 {
      NobodyYet(states, events);
    } else {
      NobodyForgotten(states, events, n - 1);
      RunKeepsInvariant(states, events, n - 1);
      StepForgetsNobody(states[n - 1], events[n - 1], states[n]);
    }
  }

  lemma NobodyYet(states: seq<Sched>, events: seq<Event>)
    requires IsRun(states, events)
    ensures NobodyReady(states[0])
  {
  }

  // ---------------------------------------------------------------------------------------------
  // New coroutines
  // ---------------------------------------------------------------------------------------------

  /** The one coroutine that a step adds, in the slot that was next. */
  ghost predicate Begins(s: Sched, t: Sched, mode: Mode) {
    var i := NextSlot(s);
    && !s.Alive(i) && t.Alive(i) && t.core.slots[i].life.id == s.lastId + 1 == t.lastId
    && ModeOf(t.core.slots[i]) == mode
  }

  /** A spawned process begins ready, in a drain, as the process that the caller gets. */
  lemma SpawnBegins(s: Sched, t: Sched)
    requires SchedInv(s) && Step(s, Spawning, t)
    ensures Begins(s, t, Queued) && t.draining
    ensures t.controls == s.controls + [Control(NextSlot(s), true, false, false, false, [])]
    ensures t.core.slots[NextSlot(s)].life.control == Some(|s.controls|)
  {
    hide WaitInv, RunInv;
    AdoptShape(s, Root, Some(|s.controls|));
    NextIsVacant(s);
  }

  lemma SpawnDetachedBegins(s: Sched, t: Sched)
    requires SchedInv(s) && Step(s, SpawningDetached, t)
    ensures Begins(s, t, Queued) && t.draining && t.core.slots[NextSlot(s)].life.link == Root
  {
    hide WaitInv, RunInv;
    AdoptShape(s, Root, None);
    NextIsVacant(s);
  }

  /** An awaited task begins with control, and its end is what its parent goes on with. */
  lemma AwaitBegins(s: Sched, i: nat, t: Sched)
    requires SchedInv(s) && Step(s, Awaiting(i), t)
    ensures Begins(s, t, Active) && Awaits(Lives(t.core.slots), t.joins, NextSlot(s), i)
  {
    hide WaitInv, RunInv, PoolInv, ForestInv, ProcInv;
    AdoptShape(s, Awaited(s.core.slots[i].life.id), None);
    hide Adopt;
    NextIsVacant(s);
    InvIds(s);
    assert Lives(t.core.slots)[i] == t.core.slots[i].life;
  }

  lemma NextIsVacant(s: Sched)
    requires SchedInv(s)
    ensures !s.Alive(NextSlot(s))
  {
    hide WaitInv, RunInv;
    var free := s.pool.free;
    if free != [] {
      assert free[|free| - 1] in free;
      assert NextSlot(s) < |s.core.slots| ==> Lives(s.core.slots)[NextSlot(s)] == s.core.slots[NextSlot(s)].life;
    }
  }

  // ---------------------------------------------------------------------------------------------
  // The schedule after a cancellation
  // ---------------------------------------------------------------------------------------------

  lemma KeepsMark(s: Sched, t: Sched)
    requires Keeps(s, t) && s.core.timers.changed
    ensures t.core.timers.changed
  {
  }

  lemma RequestedMarks(s: Sched, p: nat)
    requires SchedInv(s) && Linked(s) && p < |s.controls| && !s.controls[p].done
    ensures CancelRequested(s, p).core.timers.changed
  {
    hide SchedInv, CancelState, Linked;
    LivingProcess(s, p);
  }

  lemma {:induction false} RequestsMark(s: Sched, ps: seq<nat>, p: nat)
    requires SchedInv(s) && Linked(s) && p in ps && p < |s.controls| && !s.controls[p].done
    ensures CancelRequests(s, ps).core.timers.changed
    decreases |ps|
  {
    hide SchedInv, Keeps, Linked, CancelRequested;
    var t := CancelRequested(s, ps[0]);
    CancelRequestedStep(s, ps[0]);
    CancelRequestedControls(s, ps[0]);
    ShapeKeepsLinked(s, t);
    KeepsInv(s, t);
    if ps[0] == p {
      RequestedMarks(s, p);
      CancelRequestsStep(t, ps[1..]);
      KeepsMark(t, CancelRequests(t, ps[1..]));
    } else {
      RequestsMark(t, ps[1..], p);
    }
  }

  lemma ReturningMarks(s: Sched, t: Sched, p: nat)
    requires SchedInv(s) && Turn(s, Returning, t) && p in s.cancels && p < |s.controls| && !s.controls[p].done
    ensures t.core.timers.changed
  {
    hide SchedInv, Linked, CancelRequests, CollectRoots, Keeps;
    var popped := s.(frames := s.frames[..|s.frames| - 1]);
    PopFrameKeeps(s);
    ShapeKeepsLinked(s, popped);
    RequestsMark(popped, s.cancels, p);
    ApplyPendingStep(popped);
    KeepsInv(popped, ApplyPending(popped));
    CollectRootsStep(ApplyPending(popped));
    KeepsMark(ApplyPending(popped), t);
  }

  /** The step cancels a process, at once or because it was asked for before, or an awaited task. */
  ghost predicate Cancels(s: Sched, e: Event) {
    match e
    case CancellingProcess(p) => p < |s.controls| && !s.controls[p].done && !s.draining
    case CancellingAwaited(i) => s.Alive(i)
    case Returning => exists p :: p in s.cancels && p < |s.controls| && !s.controls[p].done
    case _ => false
  }

  /** Whenever anything has been cancelled the schedule is marked, so that the simulator side reads again which deadline
      is the next. */
  lemma CancelMarks(s: Sched, e: Event, t: Sched)
    requires SchedInv(s) && Step(s, e, t) && Cancels(s, e)
    ensures t.core.timers.changed
  {
    hide WaitInv, RunInv, LifeInv, Linked, CancelState, EndResume;
    if e.CancellingProcess? {
      LivingProcess(s, e.process);
    } else if e.Returning? {
      var p :| p in s.cancels && p < |s.controls| && !s.controls[p].done;
      ReturningMarks(s, t, p);
    }
  }

  // ---------------------------------------------------------------------------------------------
  // The inline fast path
  // ---------------------------------------------------------------------------------------------

  lemma {:induction false} NoneCounted(slots: seq<Slot>)
    requires forall k :: 0 <= k < |slots| ==> !slots[k].ready
    ensures ReadyCount(slots) == 0
  {
    if slots != [] {
      NoneCounted(slots[..|slots| - 1]);
    }
  }

  lemma {:induction false} OneCounted(slots: seq<Slot>, i: nat)
    requires i < |slots| && slots[i].ready && forall k :: 0 <= k < |slots| && k != i ==> !slots[k].ready
    ensures ReadyCount(slots) == 1
  {
    var n := |slots| - 1;
    if i == n {
      NoneCounted(slots[..n]);
    } else {
      OneCounted(slots[..n], i);
    }
  }

  /** A process is run inline just when the drain would run it next anyway, because nobody else is ready, and fewer than
      64 resumes on the stack are inline. */
  lemma InlineExact(s: Sched, p: nat)
    requires SchedInv(s)
    ensures CanRunInline(s, p) <==>
      && s.draining && p < |s.controls| && !s.controls[p].done && InlineDepth(s.frames) < 64
      && forall k :: 0 <= k < |s.core.slots| ==> (ModeOf(s.core.slots[k]) == Queued <==> k == s.controls[p].slot)
  {
    hide LifeInv, RunInv;
    if p < |s.controls| && !s.controls[p].done {
      LivingProcess(s, p);
      var slots, i := s.core.slots, s.controls[p].slot;
      InvQueue(s.core);
      forall k | 0 <= k < |slots|
        ensures slots[k].ready <==> ModeOf(slots[k]) == Queued
      {
        SlotIsOk(s.core, k);
      }
      if slots[i].ready && s.core.queue.live == 1 {
        OnlyReady(slots, s.core.queue, i);
      }
      if forall k :: 0 <= k < |slots| ==> (slots[k].ready <==> k == i) {
        OneCounted(slots, i);
      }
    }
  }
}
