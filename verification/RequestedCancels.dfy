/** Asking for a process to be cancelled. While a drain is under way the request is only noted, and it is met when the
coroutine that runs has given up control; otherwise it is met at once. */
module RequestedCancels {
  import opened Registrations
  import opened WaitCore
  import opened SchedulerState
  import opened SchedulerLife
  import opened SchedulerEnd
  import opened Cancellation
  import opened SchedulerRun
  import opened ReadyRun
  import opened SchedulerRuns

  /** A request is outstanding for exactly the processes on the list that have not completed. */
  ghost predicate RequestsListed(s: Sched) {
    && (forall p :: p in s.cancels ==> p < |s.controls|)
    && forall p :: 0 <= p < |s.controls| ==> (s.controls[p].requested <==> p in s.cancels && !s.controls[p].done)
  }

  predicate SameMarks(a: Control, b: Control) {
    b.slot == a.slot && b.done == a.done && b.cancelled == a.cancelled && b.requested == a.requested
  }

  /** Processes may have been added; none completes, and nothing is requested. */
  ghost predicate Unmarked(a: seq<Control>, b: seq<Control>) {
    && |a| <= |b| && (forall p :: 0 <= p < |a| ==> SameMarks(a[p], b[p]))
    && forall p :: |a| <= p < |b| ==> !b[p].done && !b[p].requested
  }

  /** Nobody's process is asked about, and the list of requests stays. */
  ghost predicate Unasked(s: Sched, t: Sched) {
    t.cancels == s.cancels && Unmarked(s.controls, t.controls)
  }

  // ---------------------------------------------------------------------------------------------
  // Most steps say nothing about processes
  // ---------------------------------------------------------------------------------------------

  lemma {:induction false} ReclaimRootsMarks(s: Sched, listed: seq<nat>)
    ensures Unasked(s, ReclaimRoots(s, listed))
    decreases |listed|
  {
    if listed != [] {
      ReclaimRootsMarks(Reclaim(s, listed[0]), listed[1..]);
    }
  }

  lemma {:induction false} ReclaimChildrenMarks(s: Sched, listed: seq<Option<nat>>)
    ensures Unasked(s, ReclaimChildren(s, listed))
    decreases |listed|
  {
    if listed != [] {
      ReclaimChildrenMarks(if listed[0].Some? then Reclaim(s, listed[0].value) else s, listed[1..]);
    }
  }

  lemma CollectRootsMarks(s: Sched)
    ensures Unasked(s, CollectRoots(s))
  {
    ReclaimRootsMarks(s, s.pool.finishedRoots);
  }

  lemma BoundaryMarks(s: Sched)
    ensures Unasked(s, Boundary(s))
  {
    CollectRootsMarks(s);
    var t := CollectRoots(s);
    ReclaimChildrenMarks(t, t.pool.finished);
  }

  lemma {:induction false} AdoptChildrenMarks(s: Sched, join: nat, n: nat)
    ensures AdoptChildren(s, join, n).controls == s.controls && AdoptChildren(s, join, n).cancels == s.cancels
    decreases n
  {
    if n != 0 {
      AdoptChildrenMarks(AdoptReady(s, Joined(join)), join, n - 1);
    }
  }

  predicate EndsProcesses(e: Event) {
    e.Finishing? || e.CancellingProcess? || e.CancellingAwaited? || e.Returning?
  }

  lemma CallMarks(s: Sched, e: Event, t: Sched)
    requires Call(s, e, t) && !EndsProcesses(e)
    ensures Unasked(s, t)
  {
    hide Park, ParkFirst, BeginWait, ResumeReg, Ready, DrainReady, Adopt, EndTimeout, BeginTimeout;
    match e
    case Spawning => SpawnMarks(s);
    case SpawningDetached => SpawnMarks(s);
    case Awaiting(i) => AdoptMarks(s, Awaited(s.core.slots[i].life.id));
    case Joining(i, n) =>
      AdoptChildrenMarks(s.(core := BeginWait(s.core, i, JoinWait), joins := s.joins + [Join(n, i)]), |s.joins|, n);
    case TimingOut(i, timeout) => TimeoutMarks(s, i, timeout, t);
    case TimingSet => TimeoutSetMarks(s, t);
    case Flushing => DrainMarks(s);
    case Deferring(i) => ReadyMarks(s, i);
    case _ =>
  }

  lemma SpawnMarks(s: Sched)
    ensures Unasked(s, Spawn(s)) && Unasked(s, SpawnDetached(s))
  {
  }

  lemma AdoptMarks(s: Sched, link: Link)
    ensures Unasked(s, Adopt(s, link, None))
  {
  }

  lemma DrainMarks(s: Sched)
    ensures Unasked(s, DrainReady(s))
  {
  }

  lemma ReadyMarks(s: Sched, i: nat)
    ensures Unasked(s, Ready(s, i))
  {
  }

  lemma TimeoutMarks(s: Sched, i: nat, timeout: nat, t: Sched)
    requires BeginTimeout(s, i, timeout) == Some(t)
    ensures Unasked(s, t)
  {
  }

  lemma TimeoutSetMarks(s: Sched, t: Sched)
    requires TopIs(s, true, false) && EndTimeout(s) == Some(t)
    ensures Unasked(s, t)
  {
  }

  lemma OtherMarks(s: Sched, e: Event, t: Sched)
    requires Step(s, e, t) && !EndsProcesses(e)
    ensures Unasked(s, t)
  {
    hide Unmarked, Boundary, CollectRoots, DrainReady, DeliverEdge, DeliverTime, DeliverPhase;
    if Call(s, e, t) {
      CallMarks(s, e, t);
    } else {
      MarksRefl(s, t);
      match e
      case Emptying =>
        BoundaryMarks(s.(core := s.core.(queue := s.core.queue.(entries := [], cursor := 0)), draining := false));
      case ReturningInline => CollectRootsMarks(s.(frames := s.frames[..|s.frames| - 1]));
      case EdgeSeen(signal, edge) => DeliveredMarks(s, DeliverEdge(s.core, signal, edge));
      case TimePassed(time) => DeliveredMarks(s, DeliverTime(s.core, time));
      case PhaseReached(phase) => DeliveredMarks(s, DeliverPhase(s.core, phase));
      case _ =>
    }
  }

  lemma MarksRefl(s: Sched, t: Sched)
    ensures t.controls == s.controls && t.cancels == s.cancels ==> Unasked(s, t)
  {
  }

  lemma DeliveredMarks(s: Sched, delivered: (Core, bool))
    ensures Unasked(s, AfterDelivery(s, delivered))
  {
    BoundaryMarks(s.(core := delivered.0));
  }

  // ---------------------------------------------------------------------------------------------
  // How processes end
  // ---------------------------------------------------------------------------------------------

  /** Cancelling a coroutine completes its own process, if it has one, and no other. */
  lemma CancelControls(s: Sched, i: nat)
    requires SchedInv(s) && s.Alive(i) && Linked(s)
    ensures var r := CancelState(s, i);
      && r.controls == EndedControls(s.controls, s.core.slots[i].life.control, true) && r.cancels == s.cancels
  {
    hide SchedInv, WaitInv, LifeInv, Evolves, Cut, Ended;
    var ks := ChildrenUpTo(s.core.slots, s.joins, i, |s.core.slots|);
    InvLife(s);
    ChildrenYounger(s, i);
    ScanFindsChildren(s, i);
    CancelEachExact(s, ks, i);
    var t := CancelEach(s, ks, i);
    ChildlessAfter(s, t, i, ks);
    CancelOneControls(t, i);
    CutCancels(s, t, DependentsOf(s, ks));
  }

  lemma CutCancels(s: Sched, t: Sched, gone: set<nat>)
    requires Cut(s, t, gone)
    ensures t.cancels == s.cancels
  {
  }

  lemma CancelOneControls(s: Sched, i: nat)
    requires SchedInv(s) && s.Alive(i)
    ensures CancelOne(s, i).controls == EndedControls(s.controls, s.core.slots[i].life.control, true)
    ensures CancelOne(s, i).cancels == s.cancels
  {
    CancelOneIs(s, i);
  }

  /** The one process, if it had not completed, completes; every other is as before. */
  ghost predicate Completes(s: Sched, t: Sched, control: Option<nat>, cancelled: bool) {
    t.cancels == s.cancels && t.controls == EndedControls(s.controls, control, cancelled)
  }

  lemma FinalSuspendControls(s: Sched, i: nat)
    requires SchedInv(s) && s.Alive(i)
    ensures Completes(s, FinalSuspend(s, i), s.core.slots[i].life.control, false)
  {
    hide WaitInv, LifeInv, RunInv;
    InvLife(s);
    FinishIs(s, i);
  }

  lemma CancelRequestedControls(s: Sched, p: nat)
    requires SchedInv(s) && Linked(s)
    ensures Completes(s, CancelRequested(s, p), Some(p), true)
  {
    hide WaitInv, RunInv, CancelState, Linked;
    if p < |s.controls| && !s.controls[p].done {
      LivingProcess(s, p);
      CancelControls(s, s.controls[p].slot);
    }
  }

  /** The listed processes complete by cancellation, unless they had completed; the others are as before. */
  ghost predicate Granted(a: seq<Control>, b: seq<Control>, ps: seq<nat>) {
    && |a| <= |b| && (forall p :: |a| <= p < |b| ==> !b[p].done && !b[p].requested)
    && forall p :: 0 <= p < |a| ==>
         if p in ps && !a[p].done then b[p].done && b[p].cancelled && !b[p].requested && b[p].slot == a[p].slot
         else SameMarks(a[p], b[p])
  }

  lemma {:induction false} CancelRequestsControls(s: Sched, ps: seq<nat>)
    requires SchedInv(s) && Linked(s)
    ensures Granted(s.controls, CancelRequests(s, ps).controls, ps) && CancelRequests(s, ps).cancels == s.cancels
    decreases |ps|
  {
    hide SchedInv, Keeps, Linked, CancelRequested;
    if ps != [] {
      var t := CancelRequested(s, ps[0]);
      CancelRequestedControls(s, ps[0]);
      CancelRequestedStep(s, ps[0]);
      ShapeKeepsLinked(s, t);
      KeepsInv(s, t);
      CancelRequestsControls(t, ps[1..]);
      assert ps == [ps[0]] + ps[1..];
    }
  }

  lemma ReturningControls(s: Sched, t: Sched)
    requires SchedInv(s) && Turn(s, Returning, t)
    ensures Granted(s.controls, t.controls, s.cancels) && t.cancels == []
  {
    hide SchedInv, Linked, CancelRequests, CollectRoots;
    var popped := s.(frames := s.frames[..|s.frames| - 1]);
    PopFrameKeeps(s);
    ShapeKeepsLinked(s, popped);
    CancelRequestsControls(popped, s.cancels);
    CollectRootsMarks(ApplyPending(popped));
  }

  /** What `cancel_process` does to the processes. */
  lemma CancellingControls(s: Sched, p: nat, t: Sched)
    requires SchedInv(s) && Call(s, CancellingProcess(p), t)
    ensures p >= |s.controls| || s.controls[p].done || (s.draining && s.controls[p].requested) ==>
      t.cancels == s.cancels && t.controls == s.controls
    ensures p < |s.controls| && !s.controls[p].done && !s.draining ==> Completes(s, t, Some(p), true)
    ensures p < |s.controls| && !s.controls[p].done && s.draining && !s.controls[p].requested ==>
      t.cancels == s.cancels + [p] && t.controls == s.controls[p := s.controls[p].(requested := true)]
  {
    hide SchedInv, CancelState, Linked;
    if p < |s.controls| && !s.controls[p].done {
      LivingProcess(s, p);
      var asked := s.(controls := s.controls[p := s.controls[p].(requested := true)]);
      RequestKeeps(s, p);
      KeepsInv(s, asked);
      ShapeKeepsLinked(s, asked);
      CancelControls(asked, s.controls[p].slot);
    }
  }

  // ---------------------------------------------------------------------------------------------
  // Every step
  // ---------------------------------------------------------------------------------------------

  /** What any step does to a process: only finishing in its own slot completes it uncancelled, a request stays until
      the process has completed, and a coroutine that gives up control leaves no request unmet. */
  ghost predicate ProcessStep(s: Sched, e: Event, t: Sched, p: nat)
    requires p < |s.controls|
  {
    && p < |t.controls|
    && var a, b := s.controls[p], t.controls[p];
    && b.slot == a.slot
    && (a.done ==> b.done && b.cancelled == a.cancelled)
    && (!a.done && b.done ==> (b.cancelled <==> e != Finishing(a.slot)))
    && (!a.done && e == CancellingProcess(p) ==> if s.draining then b.requested && !b.done else b.done)
    && (!a.done && a.requested && !b.done ==> b.requested && e != Returning)
  }

  /** The four things a step can do to processes: nothing, complete one, note a request, or meet all requests. */
  ghost predicate Marked(s: Sched, e: Event, t: Sched) {
    || (Unasked(s, t) && e != Returning
        && (e.CancellingProcess? && e.process < |s.controls| && !s.controls[e.process].done ==>
              s.draining && s.controls[e.process].requested))
    || (exists q :: 0 <= q < |s.controls| && !s.controls[q].done && Ending(s, e, q)
                    && Completes(s, t, Some(q), !e.Finishing?))
    || (e.CancellingProcess? && Noted(s, e.process, t))
    || (e == Returning && Granted(s.controls, t.controls, s.cancels) && t.cancels == [])
  }

  /** The step is one that may complete process q. */
  predicate Ending(s: Sched, e: Event, q: nat)
    requires q < |s.controls|
  {
    match e
    case Finishing(i) => i == s.controls[q].slot
    case CancellingAwaited(i) => true
    case CancellingProcess(p) => q == p && !s.draining
    case _ => false
  }

  predicate Noted(s: Sched, p: nat, t: Sched) {
    && p < |s.controls| && !s.controls[p].done && s.draining && !s.controls[p].requested
    && t.cancels == s.cancels + [p] && t.controls == s.controls[p := s.controls[p].(requested := true)]
  }

  lemma ProcessOf(s: Sched, i: nat)
    requires SchedInv(s) && s.Alive(i)
    ensures var control := s.core.slots[i].life.control;
      control.None? || (&& control.value < |s.controls| && !s.controls[control.value].done
                        && s.controls[control.value].slot == i)
  {
    hide WaitInv, RunInv;
    assert Lives(s.core.slots)[i].control == s.core.slots[i].life.control;
  }

  lemma FinishingMarks(s: Sched, i: nat, t: Sched)
    requires SchedInv(s) && Call(s, Finishing(i), t)
    ensures Marked(s, Finishing(i), t)
  {
    hide SchedInv, FinalSuspend, Childless;
    FinalSuspendControls(s, i);
    ProcessOf(s, i);
    if s.core.slots[i].life.control.Some? {
      assert Ending(s, Finishing(i), s.core.slots[i].life.control.value);
    } else {
      MarksRefl(s, t);
    }
  }

  lemma CancellingAwaitedMarks(s: Sched, i: nat, t: Sched)
    requires SchedInv(s) && Call(s, CancellingAwaited(i), t)
    ensures Marked(s, CancellingAwaited(i), t)
  {
    hide SchedInv, CancelState, Linked;
    MarksRefl(s, t);
    if s.Alive(i) {
      CancelControls(s, i);
      ProcessOf(s, i);
      if s.core.slots[i].life.control.Some? {
        assert Ending(s, CancellingAwaited(i), s.core.slots[i].life.control.value);
      }
    }
  }

  lemma CancellingProcessMarks(s: Sched, p: nat, t: Sched)
    requires SchedInv(s) && Call(s, CancellingProcess(p), t)
    ensures Marked(s, CancellingProcess(p), t)
  {
    hide SchedInv, CancelProcess, Linked;
    CancellingControls(s, p, t);
    MarksRefl(s, t);
    if p < |s.controls| && !s.controls[p].done && !s.draining {
      assert Ending(s, CancellingProcess(p), p);
    }
  }

  lemma StepMarks(s: Sched, e: Event, t: Sched)
    requires SchedInv(s) && Step(s, e, t)
    ensures Marked(s, e, t)
  {
    hide SchedInv, Marked, Unasked, FinalSuspend, CancelState, CancelProcess, Linked, EndResume;
    match e
    case Finishing(i) => FinishingMarks(s, i, t);
    case CancellingProcess(p) => CancellingProcessMarks(s, p, t);
    case CancellingAwaited(i) => CancellingAwaitedMarks(s, i, t);
    case Returning => ReturningMarks(s, t);
    case _ => OtherIsMarked(s, e, t);
  }

  lemma ReturningMarks(s: Sched, t: Sched)
    requires SchedInv(s) && Turn(s, Returning, t)
    ensures Marked(s, Returning, t)
  {
    hide SchedInv, Turn;
    ReturningControls(s, t);
  }

  lemma OtherIsMarked(s: Sched, e: Event, t: Sched)
    requires Step(s, e, t) && !EndsProcesses(e)
    ensures Marked(s, e, t)
  {
    hide Step, Unasked;
    OtherMarks(s, e, t);
  }

  lemma StepProcesses(s: Sched, e: Event, t: Sched, p: nat)
    requires SchedInv(s) && RequestsListed(s) && Step(s, e, t) && p < |s.controls|
    ensures ProcessStep(s, e, t, p)
  {
    hide SchedInv, Step;
    StepMarks(s, e, t);
  }

  lemma StepRequests(s: Sched, e: Event, t: Sched)
    requires SchedInv(s) && RequestsListed(s) && Step(s, e, t)
    ensures RequestsListed(t)
  {
    hide SchedInv, Step;
    StepMarks(s, e, t);
  }

  // ---------------------------------------------------------------------------------------------
  // Over runs
  // ---------------------------------------------------------------------------------------------

  /** At any moment of any run, a cancellation is outstanding for exactly the listed processes that have not
      completed. */
  lemma {:induction false} RequestsExact(states: seq<Sched>, events: seq<Event>, n: nat)
    requires IsRun(states, events) && n < |states|
    ensures RequestsListed(states[n])
  {
    hide SchedInv, Step, RequestsListed;
    if n == 0 {
      NothingRequested(states, events);
    } else {
      RequestsExact(states, events, n - 1);
      RunKeepsInvariant(states, events, n - 1);
      StepRequests(states[n - 1], events[n - 1], states[n]);
    }
  }

  lemma NothingRequested(states: seq<Sched>, events: seq<Event>)
    requires IsRun(states, events)
    ensures RequestsListed(states[0])
  {
  }

  /** From the request on, the process has completed or its request is outstanding; and it has completed by
      cancellation unless a coroutine has finished in its slot meanwhile. */
  lemma {:induction false} RequestLasts(states: seq<Sched>, events: seq<Event>, m: nat, n: nat)
    requires IsRun(states, events) && m < n < |states| && events[m].CancellingProcess?
    requires events[m].process < |states[m].controls| && !states[m].controls[events[m].process].done
    ensures var p := events[m].process;
      && p < |states[n].controls| && states[n].controls[p].slot == states[m].controls[p].slot
      && (states[n].controls[p].done || (states[n].controls[p].requested && states[m].draining))
    ensures var p := events[m].process;
      states[n].controls[p].done && (forall k :: m < k < n ==> events[k] != Finishing(states[m].controls[p].slot)) ==>
        states[n].controls[p].cancelled
  {
    hide SchedInv, Step, RequestsListed;
    var p := events[m].process;
    RequestsExact(states, events, n - 1);
    RunKeepsInvariant(states, events, n - 1);
    if n > m + 1 {
      RequestLasts(states, events, m, n - 1);
    }
    StepProcesses(states[n - 1], events[n - 1], states[n], p);
  }

  /** A cancellation that is asked for is carried out: at once if no drain is under way, and otherwise no later than
      when the coroutine that runs next gives up control. The process has then been cancelled, unless it finished by
      itself in between. */
  lemma RequestIsMet(states: seq<Sched>, events: seq<Event>, m: nat, n: nat)
    requires IsRun(states, events) && m < n < |states| && events[m].CancellingProcess?
    requires events[m].process < |states[m].controls| && !states[m].controls[events[m].process].done
    requires !states[m].draining || exists k :: m < k < n && events[k] == Returning
    ensures var p, slot := events[m].process, states[m].controls[events[m].process].slot;
      && p < |states[n].controls| && states[n].controls[p].done
      && (states[n].controls[p].cancelled || exists k :: m < k < n && events[k] == Finishing(slot))
      && !(exists i :: 0 <= i < |states[n].core.slots| && states[n].Alive(i)
                       && states[n].core.slots[i].life.control == Some(p))
  {
    hide SchedInv, Step, RequestsListed;
    var p := events[m].process;
    RequestLasts(states, events, m, n);
    if states[m].draining {
      var k :| m < k < n && events[k] == Returning;
      MetByReturning(states, events, m, k, n);
    }
    forall i | 0 <= i < |states[n].core.slots| && states[n].Alive(i)
      ensures states[n].core.slots[i].life.control != Some(p)
    {
      RunKeepsInvariant(states, events, n);
      ProcessOf(states[n], i);
    }
  }

  lemma {:induction false} MetByReturning(states: seq<Sched>, events: seq<Event>, m: nat, k: nat, n: nat)
    requires IsRun(states, events) && m < k < n < |states| && events[m].CancellingProcess? && events[k] == Returning
    requires events[m].process < |states[m].controls| && !states[m].controls[events[m].process].done
    ensures var p := events[m].process; p < |states[n].controls| && states[n].controls[p].done
    decreases n
  {
    hide SchedInv, Step, RequestsListed;
    RequestsExact(states, events, n - 1);
    RunKeepsInvariant(states, events, n - 1);
    RequestLasts(states, events, m, n - 1);
    if n > k + 1 {
      MetByReturning(states, events, m, k, n - 1);
    }
    StepProcesses(states[n - 1], events[n - 1], states[n], events[m].process);
  }
}
