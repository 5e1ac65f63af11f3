/** The life of a coroutine: it is ready, it waits, or it has control (or has passed it to a child that it started
directly). Each step moves it along in one way only, and whoever is ready is resumed before the drain is over. */
module Lifecycle {
  import opened Registrations
  import opened WaitCore
  import opened SchedulerState
  import opened SchedulerLife
  import opened SchedulerEnd
  import opened Cancellation
  import opened Delivery
  import opened SchedulerRun
  import opened ReadyRun
  import opened SchedulerRuns
  import opened Deadlock
  import E = EdgeWaits
  import P = PhaseWaits
  import T = TimerQueue

  datatype Mode = Waiting(gen: nat) | Queued | Active

  function ModeOf(x: Slot): Mode {
    if x.waiting then Waiting(x.gen) else if x.ready then Queued else Active
  }

  /** What a step that is not its own does to a coroutine: its wait may end, and it is then ready; or it may end
      itself. No coroutine appears. */
  predicate Onward(a: Slot, b: Slot) {
    b.Alive() ==>
      && a.Alive() && b.life.id == a.life.id
      && (ModeOf(b) == ModeOf(a) || (ModeOf(a).Waiting? && ModeOf(b) == Queued))
  }

  /** No timer is armed or taken, though the schedule may have been marked. */
  predicate SameTimers(c: Core, d: Core) {
    d.timers == c.timers.(changed := d.timers.changed)
  }

  /** With the timers of another state, and its mark that a wait has been registered. */
  function With(c: Core, d: Core): Core {
    c.(timers := d.timers, clock := c.clock.(registered := d.clock.registered))
  }

  ghost predicate AllOnward(c: Core, d: Core) {
    && |d.slots| == |c.slots| && d.clock == c.clock && SameTimers(c, d)
    && forall i :: 0 <= i < |c.slots| ==> Onward(c.slots[i], d.slots[i])
  }

  ghost predicate OthersOnward(c: Core, d: Core, k: nat) {
    && |d.slots| == |c.slots| && d.clock == c.clock && SameTimers(c, d)
    && forall i :: 0 <= i < |c.slots| && i != k ==> Onward(c.slots[i], d.slots[i])
  }

  lemma OnwardTransitive(a: Core, b: Core, c: Core)
    requires AllOnward(a, b) && AllOnward(b, c)
    ensures AllOnward(a, c)
  {
    forall i | 0 <= i < |a.slots|
      ensures Onward(a.slots[i], c.slots[i])
    {
      assert Onward(a.slots[i], b.slots[i]) && Onward(b.slots[i], c.slots[i]);
    }
  }

  // ---------------------------------------------------------------------------------------------
  // Waking
  // ---------------------------------------------------------------------------------------------

  lemma ResumeOnward(c: Core, r: Reg)
    ensures AllOnward(c, ResumeReg(c, r))
  {
  }

  lemma {:induction false} ResumeAllOnward(c: Core, rs: seq<Reg>)
    ensures AllOnward(c, ResumeAll(c, rs))
    decreases |rs|
  {
    hide ResumeReg, AllOnward;
    if rs == [] {
      SameSlots(c, c);
    } else {
      ResumeOnward(c, rs[0]);
      ResumeAllOnward(ResumeReg(c, rs[0]), rs[1..]);
      OnwardTransitive(c, ResumeReg(c, rs[0]), ResumeAll(c, rs));
    }
  }

  lemma SameSlots(c: Core, d: Core)
    requires c.slots == d.slots && d.clock == c.clock && SameTimers(c, d)
    ensures AllOnward(c, d)
  {
  }

  lemma {:induction false} ResumeEntriesOnward(c: Core, rs: seq<Reg>)
    ensures AllOnward(c, ResumeEntries(c, rs))
    decreases |rs|
  {
    hide ResumeReg, AllOnward;
    if rs == [] {
      SameSlots(c, c);
    } else {
      var d := ResumeReg(c, rs[0]);
      var e := d.(edges := E.Consume(d.edges));
      ResumeOnward(c, rs[0]);
      SameSlots(d, e);
      OnwardTransitive(c, d, e);
      ResumeEntriesOnward(e, rs[1..]);
      OnwardTransitive(c, e, ResumeEntries(c, rs));
    }
  }

  lemma ResumeQueueOnward(c: Core, k: nat)
    ensures AllOnward(c, ResumeEdgeQueue(c, k))
  {
    hide AllOnward, ResumeEntries;
    if k < |c.edges.queues| {
      var d := ResumeEntries(c, c.edges.queues[k]);
      ResumeEntriesOnward(c, c.edges.queues[k]);
      SameSlots(d, ResumeEdgeQueue(c, k));
      OnwardTransitive(c, d, ResumeEdgeQueue(c, k));
    } else {
      SameSlots(c, c);
    }
  }

  /** The clock of a delivery. */
  function Clocked(c: Core, e: Event): Core {
    match e
    case EdgeSeen(_, _) => c.(clock := c.clock.(phase := Evaluation))
    case TimePassed(time) => c.(clock := c.clock.(phase := Evaluation, now := time))
    case PhaseReached(phase) => c.(clock := c.clock.(phase := InPhase(phase)))
    case _ => c
  }

  /** The step may register a wait, or arm timers or take them off. */
  predicate MovesTimers(e: Event) {
    e.Parking? || e.ParkingFirst? || e.TimingSet? || e.TimePassed? || e.ScheduleRead?
  }

  /** What a step starts from, but for the time that it brings and the timers it arms or takes. */
  function Before(c: Core, e: Event, d: Core): Core {
    if MovesTimers(e) then With(Clocked(c, e), d) else Clocked(c, e)
  }

  lemma EdgeOnward(c: Core, signal: nat, edge: E.EdgeKind)
    ensures AllOnward(Clocked(c, EdgeSeen(signal, edge)), DeliverEdge(c, signal, edge).0)
  {
    hide AllOnward, ResumeEdgeQueue;
    var d := Clocked(c, EdgeSeen(signal, edge));
    var k, any := E.QueueIndex(signal, edge), E.QueueIndex(signal, E.Any);
    var specific := ResumeEdgeQueue(d, k);
    ResumeQueueOnward(d, k);
    ResumeQueueOnward(specific, any);
    OnwardTransitive(d, specific, ResumeEdgeQueue(specific, any));
  }

  lemma Retimed(c: Core, d: Core, e: Core)
    requires AllOnward(c, d)
    ensures AllOnward(With(c, e), With(d, e))
  {
  }

  lemma OwnTimers(c: Core, d: Core, e: Core)
    requires AllOnward(With(c, e), d)
    ensures AllOnward(With(c, d), d)
  {
  }

  lemma {:induction false} FireOnward(c: Core)
    ensures AllOnward(With(c, FireTimers(c).0), FireTimers(c).0)
    decreases T.Size(c.timers)
  {
    hide AllOnward, ResumeReg;
    var timers, last := T.Discard(c.timers, Waits(c.slots)), FireTimers(c).0;
    if timers.next.None? || timers.next.value.deadline > c.clock.now {
      SameSlots(With(c, last), FireTimers(c).0);
    } else {
      var d := c.(timers := timers.(next := None));
      var e := ResumeReg(d, timers.next.value.reg);
      ResumeOnward(d, timers.next.value.reg);
      FireOnward(e);
      Retimed(d, e, last);
      OnwardTransitive(With(c, last), With(e, last), FireTimers(e).0);
    }
  }

  lemma TimeOnward(c: Core, time: nat)
    ensures var d := DeliverTime(c, time).0; AllOnward(With(Clocked(c, TimePassed(time)), d), d)
  {
    hide AllOnward, FireTimers;
    var d, e := Clocked(c, TimePassed(time)), DeliverTime(c, time).0;
    var f := FireTimers(d).0;
    SameSlots(d, d);
    FireOnward(d);
    SameSlots(f, ScheduleChanged(f));
    OnwardTransitive(With(d, f), f, ScheduleChanged(f));
    OwnTimers(d, ScheduleChanged(f), f);
  }

  lemma PhaseOnward(c: Core, phase: P.Phase)
    ensures AllOnward(Clocked(c, PhaseReached(phase)), DeliverPhase(c, phase).0)
  {
    hide AllOnward, ResumeAll;
    var d := Clocked(c, PhaseReached(phase));
    SameSlots(d, d);
    var k := P.PhaseIndex(phase);
    if k < |c.phases.queues| {
      var e := ResumeAll(d, c.phases.queues[k]);
      ResumeAllOnward(d, c.phases.queues[k]);
      SameSlots(e, DeliverPhase(c, phase).0);
      OnwardTransitive(d, e, DeliverPhase(c, phase).0);
    }
  }

  // ---------------------------------------------------------------------------------------------
  // Reclaiming
  // ---------------------------------------------------------------------------------------------

  lemma VacatesOnward(s: Sched, r: Sched)
    requires Vacates(s, r) && r.core.clock == s.core.clock && r.core.timers == s.core.timers
    ensures AllOnward(s.core, r.core)
  {
  }

  lemma CollectOnward(s: Sched)
    ensures AllOnward(s.core, CollectRoots(s).core)
  {
    ReclaimRootsVacates(s, s.pool.finishedRoots);
    ReclaimRootsRest(s, s.pool.finishedRoots);
    VacatesOnward(s, ReclaimRoots(s, s.pool.finishedRoots));
  }

  lemma BoundaryOnward(s: Sched)
    ensures AllOnward(s.core, Boundary(s).core)
  {
    BoundaryVacates(s);
    BoundaryRest(s);
    VacatesOnward(s, Boundary(s));
  }

  /** Reclaiming leaves the clock, the timers and the counter of coroutines alone. */
  lemma {:induction false} ReclaimRootsRest(s: Sched, listed: seq<nat>)
    ensures ReclaimRoots(s, listed).core.clock == s.core.clock && ReclaimRoots(s, listed).lastId == s.lastId
    ensures ReclaimRoots(s, listed).core.timers == s.core.timers
    decreases |listed|
  {
    if listed != [] {
      ReclaimRootsRest(Reclaim(s, listed[0]), listed[1..]);
    }
  }

  lemma {:induction false} ReclaimChildrenRest(s: Sched, listed: seq<Option<nat>>)
    ensures ReclaimChildren(s, listed).core.clock == s.core.clock && ReclaimChildren(s, listed).lastId == s.lastId
    ensures ReclaimChildren(s, listed).core.timers == s.core.timers
    decreases |listed|
  {
    if listed != [] {
      ReclaimChildrenRest(if listed[0].Some? then Reclaim(s, listed[0].value) else s, listed[1..]);
    }
  }

  lemma BoundaryRest(s: Sched)
    ensures Boundary(s).core.clock == s.core.clock && Boundary(s).lastId == s.lastId
    ensures Boundary(s).core.timers == s.core.timers
  {
    ReclaimRootsRest(s, s.pool.finishedRoots);
    var t := CollectRoots(s);
    ReclaimChildrenRest(t, t.pool.finished);
  }

  lemma DeliveredOnward(s: Sched, c: Core, delivered: (Core, bool))
    requires AllOnward(c, delivered.0)
    ensures AllOnward(c, AfterDelivery(s, delivered).core)
  {
    hide AllOnward, Boundary;
    var t := s.(core := delivered.0);
    if delivered.1 {
      SameSlots(t.core, DrainReady(t).core);
    } else {
      BoundaryOnward(t);
    }
    OnwardTransitive(c, t.core, AfterDelivery(s, delivered).core);
  }

  // ---------------------------------------------------------------------------------------------
  // Ending
  // ---------------------------------------------------------------------------------------------

  lemma CompleteOnward(s: Sched, p: nat, cancelled: bool)
    ensures AllOnward(s.core, CompleteProcess(s, p, cancelled).core)
  {
    hide AllOnward, ResumeAll;
    SameSlots(s.core, s.core);
    if p < |s.controls| {
      ResumeAllOnward(s.core, s.controls[p].waiters);
    }
  }

  lemma EndedOnward(s: Sched, t: Sched, i: nat, cancelled: bool, child: bool)
    requires i < |s.core.slots| && i < |t.core.slots| && !t.core.slots[i].Alive()
    requires OthersOnward(s.core, t.core, i)
    ensures AllOnward(s.core, ListDone(if child then t else Completed(t, i, cancelled), i, child).core)
    ensures AllOnward(s.core, ListDone(Completed(t, i, cancelled), i, child).core)
  {
    assert AllOnward(s.core, t.core);
    hide AllOnward, CompleteProcess;
    var control := t.core.slots[i].life.control;
    if control.Some? {
      CompleteOnward(t, control.value, cancelled);
      OnwardTransitive(s.core, t.core, Completed(t, i, cancelled).core);
    }
  }

  lemma FinishOnward(s: Sched, i: nat)
    requires i < |s.core.slots|
    ensures AllOnward(s.core, Finish(s, i).core)
  {
    var t := MarkDone(s.(core := StopReady(EndWait(s.core, i), i)), i);
    EndedOnward(s, t, i, false, s.core.slots[i].life.link != Root);
  }

  lemma CancelOneOnward(s: Sched, i: nat)
    requires i < |s.core.slots|
    ensures AllOnward(s.core, CancelOne(s, i).core)
  {
    var t := Unlink(MarkDone(s.(core := StopWaiting(s.core, i)), i), i);
    EndedOnward(s, t, i, true, s.core.slots[i].life.link != Root);
  }

  lemma {:induction false} CancelOnward(s: Sched, i: nat)
    requires Linked(s) && i < |s.core.slots|
    ensures AllOnward(s.core, CancelState(s, i).core)
    decreases Rank(s, i), 1, 0
  {
    hide AllOnward, Linked, CancelOne, AllYounger;
    SameSlots(s.core, s.core);
    if !s.core.slots[i].life.done {
      var ks := ChildrenUpTo(s.core.slots, s.joins, i, |s.core.slots|);
      ChildrenYounger(s, i);
      var t := CancelEach(s, ks, i);
      CancelEachOnward(s, ks, i);
      CancelOneOnward(t, i);
      OnwardTransitive(s.core, t.core, CancelOne(t, i).core);
    }
  }

  lemma {:induction false} CancelEachOnward(s: Sched, ks: seq<nat>, i: nat)
    requires Linked(s) && i < |s.core.slots| && AllYounger(s, ks, i)
    ensures AllOnward(s.core, CancelEach(s, ks, i).core)
    decreases Rank(s, i), 0, |ks|
  {
    hide AllOnward, Linked, AllYounger;
    if ks == [] {
      SameSlots(s.core, s.core);
    } else {
      YoungerHead(s, ks, i);
      var t := CancelState(s, ks[0]);
      CancelOnward(s, ks[0]);
      YoungerTail(s, t, ks, i);
      CancelEachOnward(t, ks[1..], i);
      OnwardTransitive(s.core, t.core, CancelEach(t, ks[1..], i).core);
    }
  }

  lemma JoinOnward(s: Sched, join: nat)
    ensures AllOnward(s.core, FinishJoinChild(s, join).core)
  {
  }

  lemma FinalOnward(s: Sched, i: nat)
    requires i < |s.core.slots|
    ensures AllOnward(s.core, FinalSuspend(s, i).core)
  {
    hide AllOnward, Finish, FinishJoinChild;
    var t, link := Finish(s, i), s.core.slots[i].life.link;
    FinishOnward(s, i);
    if link.Joined? {
      JoinOnward(t, link.join);
      OnwardTransitive(s.core, t.core, FinishJoinChild(t, link.join).core);
    }
  }

  lemma RequestedOnward(s: Sched, p: nat)
    requires Linked(s)
    ensures AllOnward(s.core, CancelRequested(s, p).core)
  {
    hide AllOnward, Linked, CancelState;
    SameSlots(s.core, s.core);
    if p < |s.controls| && s.controls[p].attached && !s.controls[p].done && s.controls[p].slot < |s.core.slots| {
      var t := CancelState(s, s.controls[p].slot);
      CancelOnward(s, s.controls[p].slot);
      SameSlots(t.core, MarkSchedule(t).core);
      OnwardTransitive(s.core, t.core, MarkSchedule(t).core);
    } else {
      SameSlots(s.core, MarkSchedule(s).core);
    }
  }

  lemma {:induction false} RequestsOnward(s: Sched, ps: seq<nat>)
    requires Linked(s)
    ensures AllOnward(s.core, CancelRequests(s, ps).core)
    decreases |ps|
  {
    hide AllOnward, Linked, CancelRequested;
    if ps == [] {
      SameSlots(s.core, s.core);
    } else {
      var t := CancelRequested(s, ps[0]);
      RequestedOnward(s, ps[0]);
      ShapeKeepsLinked(s, t);
      RequestsOnward(t, ps[1..]);
      OnwardTransitive(s.core, t.core, CancelRequests(t, ps[1..]).core);
    }
  }

  lemma ReturnOnward(s: Sched)
    requires Linked(s) && s.frames != []
    ensures AllOnward(s.core, EndResume(s).core)
  {
    hide AllOnward, Linked, CancelRequests, CollectRoots;
    var popped := s.(frames := s.frames[..|s.frames| - 1]);
    ShapeKeepsLinked(s, popped);
    RequestsOnward(popped, s.cancels);
    CollectOnward(ApplyPending(popped));
    OnwardTransitive(s.core, ApplyPending(popped).core, EndResume(s).core);
  }

  lemma CancelProcessOnward(s: Sched, p: nat)
    requires Linked(s)
    ensures AllOnward(s.core, CancelProcess(s, p).core)
  {
    hide AllOnward, Linked, CancelState;
    SameSlots(s.core, s.core);
    if p < |s.controls| && s.controls[p].attached && !s.controls[p].done && !s.draining {
      var asked := s.(controls := s.controls[p := s.controls[p].(requested := true)]);
      ShapeKeepsLinked(s, asked);
      SameSlots(s.core, asked.core);
      var t := CancelIfSlot(asked, s.controls[p].slot);
      if s.controls[p].slot < |s.core.slots| {
        CancelOnward(asked, s.controls[p].slot);
      }
      SameSlots(t.core, DrainReady(MarkSchedule(t)).core);
      OnwardTransitive(s.core, t.core, DrainReady(MarkSchedule(t)).core);
    }
  }

  lemma CancelAwaitedOnward(s: Sched, i: nat)
    requires Linked(s) && i < |s.core.slots|
    ensures AllOnward(s.core, CancelAwaited(s, i).core)
  {
    hide AllOnward, Linked, CancelState;
    SameSlots(s.core, s.core);
    CancelOnward(s, i);
    var t := CancelState(s, i);
    SameSlots(t.core, MarkSchedule(t).core);
    OnwardTransitive(s.core, t.core, MarkSchedule(t).core);
  }

  // ---------------------------------------------------------------------------------------------
  // One step
  // ---------------------------------------------------------------------------------------------

  /** Where a step takes the coroutine that it is about. */
  datatype Move = Move(slot: nat, mode: Mode)

  /** The same coroutine occupies slot k before and after. */
  predicate SameCoroutine(s: Sched, t: Sched, k: nat) {
    s.Alive(k) && t.Alive(k) && t.core.slots[k].life.id == s.core.slots[k].life.id
  }

  /** Slot k after a step: the coroutine that was there has moved as its own call or the drain says, or else is where
      it was or ready because its wait has ended; and a new one is where new ones begin. */
  predicate AdvancesAt(s: Sched, t: Sched, own: Option<Move>, born: Mode, k: nat)
    requires k < |t.core.slots|
  {
    t.Alive(k) ==>
      var mode := ModeOf(t.core.slots[k]);
      if SameCoroutine(s, t, k) then
        if own.Some? && own.value.slot == k then mode == own.value.mode
        else mode == ModeOf(s.core.slots[k]) || (ModeOf(s.core.slots[k]).Waiting? && mode == Queued)
      else t.core.slots[k].life.id > s.lastId && mode == born
  }

  ghost predicate Advances(s: Sched, t: Sched, own: Option<Move>, born: Mode) {
    && |s.core.slots| <= |t.core.slots| && s.lastId <= t.lastId && t.core.clock == s.core.clock
    && SameTimers(s.core, t.core)
    && forall k :: 0 <= k < |t.core.slots| ==> AdvancesAt(s, t, own, born, k)
  }

  lemma OnwardAdvances(s: Sched, t: Sched, born: Mode)
    requires AllOnward(s.core, t.core) && s.lastId <= t.lastId
    ensures Advances(s, t, None, born)
  {
    forall k | 0 <= k < |t.core.slots|
      ensures AdvancesAt(s, t, None, born, k)
    {
      assert Onward(s.core.slots[k], t.core.slots[k]);
    }
  }

  /** Coroutines have been added and nothing else has happened. */
  ghost predicate Adopts(s: Sched, t: Sched, born: Mode) {
    && |s.core.slots| <= |t.core.slots| && s.lastId <= t.lastId && t.core.clock == s.core.clock
    && SameTimers(s.core, t.core)
    && forall k :: 0 <= k < |t.core.slots| ==> AddedAt(s, t, born, k)
  }

  predicate AddedAt(s: Sched, t: Sched, born: Mode, k: nat)
    requires k < |t.core.slots|
  {
    t.Alive(k) ==>
      if SameCoroutine(s, t, k) then ModeOf(t.core.slots[k]) == ModeOf(s.core.slots[k])
      else t.core.slots[k].life.id > s.lastId && ModeOf(t.core.slots[k]) == born
  }

  ghost predicate OldIds(s: Sched) {
    forall k :: 0 <= k < |s.core.slots| && s.Alive(k) ==> s.core.slots[k].life.id <= s.lastId
  }

  lemma InvIds(s: Sched)
    requires SchedInv(s)
    ensures OldIds(s)
  {
    hide WaitInv, RunInv;
    assert forall k :: 0 <= k < |s.core.slots| ==> Lives(s.core.slots)[k] == s.core.slots[k].life;
  }

  lemma AdoptsTransitive(a: Sched, b: Sched, c: Sched, born: Mode)
    requires OldIds(a) && Adopts(a, b, born) && Adopts(b, c, born)
    ensures Adopts(a, c, born)
  {
    forall k | 0 <= k < |c.core.slots|
      ensures AddedAt(a, c, born, k)
    {
      assert AddedAt(b, c, born, k);
      assert k < |b.core.slots| ==> AddedAt(a, b, born, k);
    }
  }

  lemma AdvancesAdopts(a: Sched, b: Sched, c: Sched, own: Option<Move>, born: Mode)
    requires OldIds(a) && Advances(a, b, own, born) && Adopts(b, c, born)
    ensures Advances(a, c, own, born)
  {
    forall k | 0 <= k < |c.core.slots|
      ensures AdvancesAt(a, c, own, born, k)
    {
      assert AddedAt(b, c, born, k);
      assert k < |b.core.slots| ==> AdvancesAt(a, b, own, born, k);
    }
  }

  lemma AdoptsNothing(s: Sched, t: Sched, born: Mode)
    requires t.core.slots == s.core.slots && t.lastId == s.lastId && t.core.clock == s.core.clock
    requires SameTimers(s.core, t.core)
    ensures Adopts(s, t, born)
  {
  }

  lemma AdoptAdopts(s: Sched, link: Link, control: Option<nat>)
    requires SchedInv(s)
    ensures var t := Adopt(s, link, control);
      Adopts(s, t, Active) && Adopts(s, Ready(t, NextSlot(s)), Queued)
  {
    hide WaitInv, RunInv;
    InvIds(s);
    AdoptShape(s, link, control);
    var i, t := NextSlot(s), Adopt(s, link, control);
    assert forall k :: 0 <= k < |s.core.slots| ==> Lives(s.core.slots)[k] == s.core.slots[k].life;
    forall k | 0 <= k < |t.core.slots|
      ensures AddedAt(s, t, Active, k) && AddedAt(s, Ready(t, i), Queued, k)
    {
    }
  }

  lemma {:induction false} ChildrenAdopts(s: Sched, join: nat, n: nat)
    requires SchedInv(s) && MayJoin(s, join)
    ensures Adopts(s, AdoptChildren(s, join, n), Queued)
    decreases n
  {
    hide SchedInv, Adopts, MayJoin, MayAdopt, Evolves;
    if n == 0 {
      AdoptsNothing(s, s, Queued);
    } else {
      var t := AdoptReady(s, Joined(join));
      AdoptAdopts(s, Joined(join), None);
      InvIds(s);
      MayJoinAdopt(s, join);
      AdoptReadyKeeps(s, Joined(join));
      ChildrenAdopts(t, join, n - 1);
      AdoptsTransitive(s, t, AdoptChildren(t, join, n - 1), Queued);
    }
  }

  /** Whom the step resumes: the drain takes the first entry of the ready queue, unless it is stale. */
  function Resumes(s: Sched, e: Event): Option<nat> {
    match e
    case Taking =>
      var q := s.core.queue;
      if q.cursor < |q.entries| && q.entries[q.cursor] < |s.core.slots| && s.core.slots[q.entries[q.cursor]].ready
      then Some(q.entries[q.cursor]) else None
    case RunningInline(p) => if p < |s.controls| then Some(s.controls[p].slot) else None
    case _ => None
  }

  /** The coroutine that the step makes wait by its own call. */
  function BeginsWait(e: Event): Option<nat> {
    match e
    case Joining(i, _) => Some(i)
    case TimingOut(i, _) => Some(i)
    case Parking(i, _) => Some(i)
    case ParkingFirst(i, _) => Some(i)
    case ParkingExternally(i, _) => Some(i)
    case ParkingForProcess(i, _) => Some(i)
    case _ => None
  }

  function Own(s: Sched, e: Event): Option<Move> {
    if BeginsWait(e).Some? then Some(Move(BeginsWait(e).value, Waiting(s.core.lastGen + 1)))
    else if e.Deferring? then Some(Move(e.slot, Queued))
    else if Resumes(s, e).Some? then Some(Move(Resumes(s, e).value, Active))
    else None
  }

  /** A child that is awaited, with or without a timeout, gets control at once; other new coroutines are ready. */
  function Born(e: Event): Mode {
    if e.Awaiting? || e.TimingOut? then Active else Queued
  }

  lemma BeginAdvances(s: Sched, i: nat, reason: WaitReason, t: Sched, born: Mode)
    requires i < |s.core.slots| && t.lastId == s.lastId && t.core == BeginWait(s.core, i, reason)
    ensures Advances(s, t, Some(Move(i, Waiting(s.core.lastGen + 1))), born)
  {
    BeginSlots(s.core, i, reason);
  }

  lemma BeginSlots(c: Core, i: nat, reason: WaitReason)
    requires i < |c.slots|
    ensures var d := BeginWait(c, i, reason);
      && |d.slots| == |c.slots| && d.slots[i].waiting && d.slots[i].gen == c.lastGen + 1
      && d.slots[i].life == c.slots[i].life && d.clock == c.clock && d.timers == c.timers
      && forall k :: 0 <= k < |c.slots| && k != i ==> d.slots[k] == c.slots[k]
  {
  }

  /** Registering for a trigger leaves everybody where they are. */
  lemma RegisterModes(c: Core, request: Request, r: Reg)
    requires RegisterWait(c, request, r).Some?
    ensures SameModes(c, RegisterWait(c, request, r).value)
  {
  }

  ghost predicate SameModes(c: Core, d: Core) {
    && |d.slots| == |c.slots| && d.clock == c.clock.(registered := d.clock.registered)
    && forall k :: 0 <= k < |c.slots| ==> d.slots[k].life == c.slots[k].life && ModeOf(d.slots[k]) == ModeOf(c.slots[k])
  }

  lemma {:induction false} RegisterFirstModes(c: Core, requests: seq<Request>, i: nat, k: nat)
    requires RegisterFirst(c, requests, i, k).Some?
    ensures SameModes(c, RegisterFirst(c, requests, i, k).value)
    decreases |requests| - k
  {
    hide SameModes, RegisterWait;
    if k < |requests| {
      RegisterModes(c, requests[k], Reg(i, c.lastGen, Some(k)));
      var d := RegisterWait(c, requests[k], Reg(i, c.lastGen, Some(k))).value;
      RegisterFirstModes(d, requests, i, k + 1);
      ModesTransitive(c, d, RegisterFirst(c, requests, i, k).value);
    } else {
      ModesRefl(c);
    }
  }

  lemma ModesRefl(c: Core)
    ensures SameModes(c, c)
  {
  }

  lemma ModesTransitive(a: Core, b: Core, c: Core)
    requires SameModes(a, b) && SameModes(b, c)
    ensures SameModes(a, c)
  {
  }

  lemma AdvancesModes(s: Sched, t: Sched, u: Sched, own: Option<Move>, born: Mode)
    requires Advances(s, t, own, born) && SameModes(t.core, u.core) && u.lastId == t.lastId
    ensures Advances(s.(core := With(s.core, u.core)), u, own, born)
  {
    var v := s.(core := With(s.core, u.core));
    forall k | 0 <= k < |u.core.slots|
      ensures AdvancesAt(v, u, own, born, k)
    {
      assert AdvancesAt(s, t, own, born, k);
    }
  }

  lemma ParkingAdvances(s: Sched, i: nat, request: Request)
    requires i < |s.core.slots| && Park(s.core, i, request).Some?
    ensures var d := Park(s.core, i, request).value;
      Advances(s.(core := With(s.core, d)), s.(core := d), Some(Move(i, Waiting(s.core.lastGen + 1))), Queued)
  {
    hide Advances, BeginWait, RegisterWait, SameModes;
    var c := BeginWait(s.core, i, RequestReason(request));
    BeginAdvances(s, i, RequestReason(request), s.(core := c), Queued);
    RegisterModes(c, request, Reg(i, c.lastGen, None));
    AdvancesModes(s, s.(core := c), s.(core := Park(s.core, i, request).value),
      Some(Move(i, Waiting(s.core.lastGen + 1))), Queued);
  }

  lemma WinnerModes(c: Core, i: nat)
    ensures SameModes(c, SetWinner(c, i, None))
  {
  }

  lemma ParkingFirstAdvances(s: Sched, i: nat, requests: seq<Request>)
    requires i < |s.core.slots| && ParkFirst(s.core, i, requests).Some?
    ensures var d := ParkFirst(s.core, i, requests).value;
      Advances(s.(core := With(s.core, d)), s.(core := d), Some(Move(i, Waiting(s.core.lastGen + 1))), Queued)
  {
    hide Advances, BeginWait, RegisterFirst, SameModes, SetWinner;
    var c := BeginWait(s.core, i, FirstWait);
    var d := SetWinner(c, i, None);
    BeginAdvances(s, i, FirstWait, s.(core := c), Queued);
    WinnerModes(c, i);
    RegisterFirstModes(d, requests, i, 0);
    ModesTransitive(c, d, ParkFirst(s.core, i, requests).value);
    AdvancesModes(s, s.(core := c), s.(core := ParkFirst(s.core, i, requests).value),
      Some(Move(i, Waiting(s.core.lastGen + 1))), Queued);
  }

  lemma JoiningAdvances(s: Sched, i: nat, n: nat)
    requires SchedInv(s) && s.Alive(i)
    ensures Advances(s, StartJoin(s, i, n), Some(Move(i, Waiting(s.core.lastGen + 1))), Queued)
  {
    hide SchedInv, Advances, BeginWait, AdoptChildren, Adopts, Evolves, MayJoin;
    var j := s.(core := BeginWait(s.core, i, JoinWait), joins := s.joins + [Join(n, i)]);
    JoinBegun(s, i, n);
    BeginAdvances(s, i, JoinWait, j, Queued);
    ChildrenAdopts(j, |s.joins|, n);
    InvIds(s);
    AdvancesAdopts(s, j, StartJoin(s, i, n), Some(Move(i, Waiting(s.core.lastGen + 1))), Queued);
  }

  lemma JoinBegun(s: Sched, i: nat, n: nat)
    requires SchedInv(s) && s.Alive(i)
    ensures var j := s.(core := BeginWait(s.core, i, JoinWait), joins := s.joins + [Join(n, i)]);
      SchedInv(j) && MayJoin(j, |s.joins|)
  {
    var b := s.(core := BeginWait(s.core, i, JoinWait));
    BeginKeeps(s, i, JoinWait);
    NewJoinKeeps(b, Join(n, i));
  }

  lemma TimeoutBegun(s: Sched, i: nat, timeout: nat)
    requires SchedInv(s) && s.Alive(i) && s.draining && BeginTimeout(s, i, timeout).Some?
    ensures var core := BeginWait(s.core, i, TimeoutWait);
      SchedInv(s.(core := core, joins := s.joins + [Join(1, i)],
                  frames := s.frames + [Timing(Reg(i, core.lastGen, None), timeout)]))
  {
    hide WaitInv, RunInv, EvolvesBut, Evolves;
    EnterTimeoutRun(s, i, timeout);
    NewJoinKeeps(s.(core := BeginWait(s.core, i, TimeoutWait)), Join(1, i));
  }

  lemma TimingOutAdvances(s: Sched, i: nat, timeout: nat)
    requires SchedInv(s) && s.Alive(i) && s.draining && BeginTimeout(s, i, timeout).Some?
    ensures Advances(s, BeginTimeout(s, i, timeout).value, Some(Move(i, Waiting(s.core.lastGen + 1))), Active)
  {
    hide SchedInv, Advances, BeginWait, Adopts;
    var core := BeginWait(s.core, i, TimeoutWait);
    TimeoutBegun(s, i, timeout);
    var j := s.(core := core, joins := s.joins + [Join(1, i)],
                frames := s.frames + [Timing(Reg(i, core.lastGen, None), timeout)]);
    BeginAdvances(s, i, TimeoutWait, j, Active);
    AdoptAdopts(j, Joined(|s.joins|), None);
    InvIds(s);
    AdvancesAdopts(s, j, BeginTimeout(s, i, timeout).value, Some(Move(i, Waiting(s.core.lastGen + 1))), Active);
  }

  lemma TakingAdvances(s: Sched, t: Sched)
    requires SchedInv(s) && Turn(s, Taking, t)
    ensures Advances(s, t, Own(s, Taking), Queued)
    ensures Resumes(s, Taking).Some? ==> t.frames == s.frames + [Drained(Resumes(s, Taking).value)]
  {
    hide WaitInv, LifeInv, RunInv;
    InvWait(s);
    var q := s.core.queue;
    if q.entries[q.cursor] < |s.core.slots| {
      SlotIsOk(s.core, q.entries[q.cursor]);
    }
  }

  lemma InlineAdvances(s: Sched, p: nat, t: Sched)
    requires SchedInv(s) && Turn(s, RunningInline(p), t)
    ensures Advances(s, t, Own(s, RunningInline(p)), Queued)
    ensures t.frames == s.frames + [Inline(s.controls[p].slot, p)]
  {
    hide WaitInv, LifeInv, RunInv;
    InvWait(s);
    SlotIsOk(s.core, s.controls[p].slot);
  }

  lemma DeferringAdvances(s: Sched, i: nat, t: Sched)
    requires Call(s, Deferring(i), t)
    ensures Advances(s, t, Some(Move(i, Queued)), Queued)
  {
  }

  lemma SpawningAdvances(s: Sched, t: Sched)
    requires SchedInv(s) && (t == Spawn(s) || t == SpawnDetached(s))
    ensures Advances(s, t, None, Queued)
  {
    hide SchedInv, Advances, Adopt, MakeReady;
    SpawnAdopts(s);
    AdoptsAdvances(s, t, Queued);
  }

  lemma SpawnAdopts(s: Sched)
    requires SchedInv(s)
    ensures Adopts(s, Spawn(s), Queued) && Adopts(s, SpawnDetached(s), Queued)
  {
    hide SchedInv, Adopt, MakeReady, Adopts;
    AdoptAdopts(s, Root, None);
    AdoptAdopts(s, Root, Some(|s.controls|));
    AdoptsSame(s, Ready(Adopt(s, Root, Some(|s.controls|)), NextSlot(s)), Spawn(s), Queued);
    AdoptsSame(s, AdoptReady(s, Root), SpawnDetached(s), Queued);
  }

  lemma AdoptsSame(s: Sched, t: Sched, u: Sched, born: Mode)
    requires Adopts(s, t, born) && u.core.slots == t.core.slots && u.lastId == t.lastId && u.core.clock == t.core.clock
    requires SameTimers(t.core, u.core)
    ensures Adopts(s, u, born)
  {
    forall k | 0 <= k < |u.core.slots|
      ensures AddedAt(s, u, born, k)
    {
      assert AddedAt(s, t, born, k);
    }
  }

  lemma AdoptsAdvances(s: Sched, t: Sched, born: Mode)
    requires Adopts(s, t, born)
    ensures Advances(s, t, None, born)
  {
    forall k | 0 <= k < |t.core.slots|
      ensures AdvancesAt(s, t, None, born, k)
    {
      assert AddedAt(s, t, born, k);
    }
  }

  lemma TimingSetOnward(s: Sched, t: Sched)
    requires TopIs(s, true, false) && EndTimeout(s) == Some(t)
    ensures AllOnward(With(s.core, t.core), t.core) && t.lastId == s.lastId
  {
    hide RegisterWait, SameModes;
    var frame := s.frames[|s.frames| - 1];
    if ValidReg(s.core, frame.wait) {
      RegisterModes(s.core, After(frame.timeout), frame.wait);
      ModesOnward(s.core, t.core);
    }
  }

  lemma ModesOnward(c: Core, d: Core)
    requires SameModes(c, d)
    ensures AllOnward(With(c, d), d)
  {
  }

  lemma WaitingAdvances(s: Sched, e: Event, t: Sched)
    requires SchedInv(s) && Call(s, e, t) && BeginsWait(e).Some?
    ensures Advances(s.(core := Before(s.core, e, t.core)), t, Own(s, e), Born(e))
  {
    hide SchedInv, Advances, StartJoin, BeginTimeout, Park, ParkFirst, BeginWait;
    match e
    case Joining(i, n) => JoiningAdvances(s, i, n);
    case TimingOut(i, timeout) => TimingOutAdvances(s, i, timeout);
    case Parking(i, request) => ParkingAdvances(s, i, request);
    case ParkingFirst(i, requests) => ParkingFirstAdvances(s, i, requests);
    case ParkingExternally(i, reason) => BeginAdvances(s, i, reason, t, Queued);
    case ParkingForProcess(i, p) => ParkingProcessAdvances(s, i, p, t);
  }

  lemma CallAdvances(s: Sched, e: Event, t: Sched)
    requires SchedInv(s) && Call(s, e, t)
    ensures Advances(s.(core := Before(s.core, e, t.core)), t, Own(s, e), Born(e))
  {
    hide SchedInv, Advances, AllOnward, Linked, Adopts, Childless, Spawn, SpawnDetached, AwaitTask, StartJoin,
      BeginTimeout, EndTimeout, Park, ParkFirst, BeginWait, FinalSuspend, CancelProcess, CancelAwaited, ResumeReg,
      DrainReady, Ready, Adopt, TopIs, ReclaimAwaited;
    if BeginsWait(e).Some? {
      WaitingAdvances(s, e, t);
    } else {
      match e
      case Spawning => SpawningAdvances(s, t);
      case SpawningDetached => SpawningAdvances(s, t);
      case Awaiting(i) => AwaitingAdvances(s, i);
      case TimingSet => TimingSetOnward(s, t); OnwardAdvances(s.(core := With(s.core, t.core)), t, Queued);
      case Deferring(i) => DeferringAdvances(s, i, t);
      case _ => OtherCallOnward(s, e, t); OnwardAdvances(s, t, Queued);
    }
  }

  lemma AwaitingAdvances(s: Sched, i: nat)
    requires SchedInv(s) && s.Alive(i)
    ensures Advances(s, AwaitTask(s, i), None, Active)
  {
    hide SchedInv, Advances, Adopt, Adopts;
    AdoptAdopts(s, Awaited(s.core.slots[i].life.id), None);
    AdoptsAdvances(s, AwaitTask(s, i), Active);
  }

  lemma ParkingProcessAdvances(s: Sched, i: nat, p: nat, t: Sched)
    requires Call(s, ParkingForProcess(i, p), t)
    ensures Advances(s, t, Some(Move(i, Waiting(s.core.lastGen + 1))), Queued)
  {
    hide Advances, BeginWait;
    BeginAdvances(s, i, ProcessWait, t, Queued);
  }

  lemma OtherCallOnward(s: Sched, e: Event, t: Sched)
    requires Call(s, e, t)
    requires e.Finishing? || e.CancellingProcess? || e.CancellingAwaited? || e.ReclaimingAwaited? || e.Waking?
      || e.Flushing?
    ensures AllOnward(s.core, t.core) && s.lastId <= t.lastId
  {
    hide AllOnward, Linked, Childless, FinalSuspend, CancelProcess, CancelAwaited, ResumeReg;
    match e
    case Finishing(i) => FinalOnward(s, i); FinalIds(s, i);
    case CancellingProcess(p) => CancelProcessOnward(s, p); CancelIds(s, p);
    case CancellingAwaited(i) => CancelAwaitedOnward(s, i); CancelAwaitedIds(s, i);
    case ReclaimingAwaited(i) => ReclaimingOnward(s, i, t);
    case Waking(w) => ResumeOnward(s.core, w);
    case Flushing => SameSlots(s.core, t.core);
  }

  lemma FinalIds(s: Sched, i: nat)
    requires i < |s.core.slots|
    ensures FinalSuspend(s, i).lastId == s.lastId
  {
  }

  lemma CancelIds(s: Sched, p: nat)
    requires Linked(s)
    ensures CancelProcess(s, p).lastId == s.lastId
  {
  }

  lemma CancelAwaitedIds(s: Sched, i: nat)
    requires Linked(s) && i < |s.core.slots|
    ensures CancelAwaited(s, i).lastId == s.lastId
  {
  }

  lemma ReclaimingOnward(s: Sched, i: nat, t: Sched)
    requires i < |s.core.slots| && ReclaimAwaited(s, i) == Some(t)
    ensures AllOnward(s.core, t.core) && t.lastId == s.lastId
  {
  }

  lemma TurnAdvances(s: Sched, e: Event, t: Sched)
    requires SchedInv(s) && Turn(s, e, t)
    ensures Advances(s, t, Own(s, e), Born(e))
  {
    hide SchedInv, Advances, AllOnward, Linked, PopReady, EndResume, EndDrain, BeginInline, EndInline, CollectRoots,
      Boundary;
    match e
    case Taking => TakingAdvances(s, t);
    case RunningInline(p) => InlineAdvances(s, p, t);
    case Returning =>
      ReturnOnward(s);
      ReturnIds(s);
      OnwardAdvances(s, t, Queued);
    case Emptying =>
      EmptyingOnward(s);
      OnwardAdvances(s, t, Queued);
    case ReturningInline =>
      EndInlineOnward(s);
      OnwardAdvances(s, t, Queued);
  }

  lemma EndInlineOnward(s: Sched)
    requires s.frames != []
    ensures AllOnward(s.core, EndInline(s).core) && EndInline(s).lastId == s.lastId
  {
    hide AllOnward;
    var popped := s.(frames := s.frames[..|s.frames| - 1]);
    CollectOnward(popped);
    ReclaimRootsRest(popped, popped.pool.finishedRoots);
  }

  lemma ReturnIds(s: Sched)
    requires Linked(s) && s.frames != []
    ensures EndResume(s).lastId == s.lastId
  {
    hide CancelRequests;
    var popped := s.(frames := s.frames[..|s.frames| - 1]);
    ShapeKeepsLinked(s, popped);
    ReclaimRootsRest(ApplyPending(popped), ApplyPending(popped).pool.finishedRoots);
  }

  lemma EmptyingOnward(s: Sched)
    ensures AllOnward(s.core, EndDrain(s).core) && EndDrain(s).lastId == s.lastId
  {
    hide AllOnward, Boundary;
    var t := s.(core := s.core.(queue := s.core.queue.(entries := [], cursor := 0)), draining := false);
    SameSlots(s.core, t.core);
    BoundaryOnward(t);
    OnwardTransitive(s.core, t.core, Boundary(t).core);
    BoundaryRest(t);
  }

  lemma DeliversAdvances(s: Sched, e: Event, t: Sched)
    requires Delivers(s, e, t)
    ensures Advances(s.(core := Before(s.core, e, t.core)), t, None, Queued)
  {
    hide AllOnward, Advances, AfterDelivery, DeliverEdge, DeliverTime, DeliverPhase;
    match e {
      case EdgeSeen(signal, edge) =>
        EdgeOnward(s.core, signal, edge);
        DeliveredOnward(s, Clocked(s.core, e), DeliverEdge(s.core, signal, edge));
        DeliveredIds(s, DeliverEdge(s.core, signal, edge));
      case TimePassed(time) =>
        TimeOnward(s.core, time);
        DeliveredOnward(s, With(Clocked(s.core, e), DeliverTime(s.core, time).0), DeliverTime(s.core, time));
        OwnTimers(Clocked(s.core, e), t.core, DeliverTime(s.core, time).0);
        DeliveredIds(s, DeliverTime(s.core, time));
      case PhaseReached(phase) =>
        PhaseOnward(s.core, phase);
        DeliveredOnward(s, Clocked(s.core, e), DeliverPhase(s.core, phase));
        DeliveredIds(s, DeliverPhase(s.core, phase));
      case _ =>
    }
    OnwardAdvances(s.(core := Before(s.core, e, t.core)), t, Queued);
  }

  lemma DeliveredIds(s: Sched, delivered: (Core, bool))
    ensures AfterDelivery(s, delivered).lastId == s.lastId
  {
    BoundaryRest(s.(core := delivered.0));
  }

  lemma ReadsOnward(s: Sched, e: Event, t: Sched)
    requires Reads(s, e, t)
    ensures AllOnward(Before(s.core, e, t.core), t.core) && t.lastId == s.lastId
  {
  }

  /** Every step takes every coroutine from one of its modes to the next and no other way: whoever is ready stays ready
      until it is resumed, ends, or itself waits; a wait ends by becoming ready; new coroutines begin ready or, if they
      are awaited, with control. Only the drain gives control back, to whoever is on top of the stack afterwards. */
  lemma StepAdvances(s: Sched, e: Event, t: Sched)
    requires SchedInv(s) && Step(s, e, t)
    ensures Advances(s.(core := Before(s.core, e, t.core)), t, Own(s, e), Born(e))
    ensures Resumes(s, e).Some? ==> t.frames != [] && Running(t.frames) == Resumes(s, e)
  {
    hide SchedInv, Call, Turn, Delivers, Reads, Advances;
    if Call(s, e, t) {
      CallAdvances(s, e, t);
      CallsResumeNobody(s, e, t);
    } else if Turn(s, e, t) {
      TurnAdvances(s, e, t);
      TurnResumes(s, e, t);
    } else if Delivers(s, e, t) {
      DeliversAdvances(s, e, t);
      OthersResumeNobody(s, e, t);
    } else {
      ReadsOnward(s, e, t);
      OnwardAdvances(s.(core := Before(s.core, e, t.core)), t, Queued);
      OthersResumeNobody(s, e, t);
    }
  }

  lemma CallsResumeNobody(s: Sched, e: Event, t: Sched)
    requires Call(s, e, t)
    ensures Resumes(s, e).None?
  {
  }

  lemma TurnResumes(s: Sched, e: Event, t: Sched)
    requires SchedInv(s) && Turn(s, e, t)
    ensures Resumes(s, e).Some? ==> t.frames != [] && Running(t.frames) == Resumes(s, e)
    ensures Before(s.core, e, t.core) == s.core
  {
    hide SchedInv, Advances, PopReady, BeginInline, EndResume, EndDrain, EndInline, Linked, CanRunInline;
    match e
    case Taking => TakingAdvances(s, t);
    case RunningInline(p) => InlineAdvances(s, p, t);
    case _ =>
  }

  lemma OthersResumeNobody(s: Sched, e: Event, t: Sched)
    requires Delivers(s, e, t) || Reads(s, e, t)
    ensures Own(s, e).None? && Born(e) == Queued && Resumes(s, e).None?
  {
  }

  // ---------------------------------------------------------------------------------------------
  // Whoever is ready is resumed
  // ---------------------------------------------------------------------------------------------

  /** The coroutine with this identity occupies slot k. */
  predicate Holds(s: Sched, k: nat, id: nat) {
    s.Alive(k) && s.core.slots[k].life.id == id
  }

  lemma StillThere(s: Sched, e: Event, t: Sched, k: nat, id: nat)
    requires SchedInv(s) && Step(s, e, t) && Holds(t, k, id) && id <= s.lastId
    ensures Holds(s, k, id) && s.lastId <= t.lastId && AdvancesAt(s, t, Own(s, e), Born(e), k)
  {
    hide SchedInv, Step, Own;
    StepAdvances(s, e, t);
    var c := s.(core := Before(s.core, e, t.core));
    assert AdvancesAt(c, t, Own(s, e), Born(e), k) && SameCoroutine(c, t, k) == SameCoroutine(s, t, k);
  }

  lemma {:induction false} IdsGrow(states: seq<Sched>, events: seq<Event>, m: nat, n: nat)
    requires IsRun(states, events) && m <= n < |states|
    ensures states[m].lastId <= states[n].lastId
    decreases n
  {
    hide SchedInv, Step, Own, AdvancesAt;
    if m < n {
      IdsGrow(states, events, m, n - 1);
      RunKeepsInvariant(states, events, n - 1);
      assert Step(states[n - 1], events[n - 1], states[n]);
      StepAdvances(states[n - 1], events[n - 1], states[n]);
    }
  }

  /** The coroutine in slot k has not been resumed from state m up to state n, nor has it begun to wait. */
  ghost predicate LeftAlone(states: seq<Sched>, events: seq<Event>, m: nat, n: nat, k: nat)
    requires |states| == |events| + 1 && m <= n <= |events|
  {
    forall j :: m <= j < n ==> Resumes(states[j], events[j]) != Some(k) && BeginsWait(events[j]) != Some(k)
  }

  lemma {:induction false} QueuedStays(states: seq<Sched>, events: seq<Event>, m: nat, n: nat, k: nat, id: nat)
    requires IsRun(states, events) && m <= n < |states| && LeftAlone(states, events, m, n, k)
    requires Holds(states[m], k, id) && ModeOf(states[m].core.slots[k]) == Queued && Holds(states[n], k, id)
    ensures ModeOf(states[n].core.slots[k]) == Queued
    decreases n
  {
    hide SchedInv, Step, Resumes;
    if m < n {
      RunKeepsInvariant(states, events, m);
      InvIds(states[m]);
      IdsGrow(states, events, m, n - 1);
      RunKeepsInvariant(states, events, n - 1);
      assert Step(states[n - 1], events[n - 1], states[n]);
      StillThere(states[n - 1], events[n - 1], states[n], k, id);
      QueuedStays(states, events, m, n - 1, k, id);
      assert Resumes(states[n - 1], events[n - 1]) != Some(k) && BeginsWait(events[n - 1]) != Some(k);
    }
  }

  /** Nobody who is ready is forgotten: when the drain is over, every coroutine that was ready at some moment before has
      been resumed since, unless it has ended. */
  lemma ReadyIsResumed(states: seq<Sched>, events: seq<Event>, m: nat, n: nat, k: nat, id: nat)
    requires IsRun(states, events) && m <= n < |events| && events[n] == Emptying
    requires Holds(states[m], k, id) && ModeOf(states[m].core.slots[k]) == Queued && Holds(states[n + 1], k, id)
    ensures !LeftAlone(states, events, m, n + 1, k)
  {
    hide SchedInv, Resumes, Step, LeftAlone;
    if LeftAlone(states, events, m, n + 1, k) {
      QueuedStays(states, events, m, n + 1, k, id);
      RunKeepsInvariant(states, events, n);
      assert Step(states[n], events[n], states[n + 1]);
      DrainLeavesNobody(states[n], states[n + 1]);
    }
  }

  lemma DrainLeavesNobody(s: Sched, t: Sched)
    requires SchedInv(s) && Step(s, Emptying, t)
    ensures NobodyReady(t)
  {
    hide SchedInv, Keeps, EndDrain;
    EndDrainStep(s);
  }
}
