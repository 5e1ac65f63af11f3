/** The stack of resumes that have not returned: what a step pushes and pops. */
module ResumeStack {
  import opened Registrations
  import opened WaitCore
  import opened SchedulerState
  import opened SchedulerLife
  import opened SchedulerEnd
  import opened Cancellation
  import opened SchedulerRun
  import opened ReadyRun
  import opened SchedulerRuns
  import opened Deadlock

  /** Whether a drain is under way after the step: one begins when coroutines are spawned, when a process is cancelled
      from outside, on request, and with each delivery that wakes somebody. */
  function DrainsAfter(s: Sched, e: Event): bool {
    match e
    case Spawning => true
    case SpawningDetached => true
    case Flushing => true
    case CancellingProcess(p) => s.draining || (p < |s.controls| && !s.controls[p].done)
    case EdgeSeen(signal, edge) => s.draining || DeliverEdge(s.core, signal, edge).1
    case TimePassed(time) => s.draining || DeliverTime(s.core, time).1
    case PhaseReached(phase) => s.draining || DeliverPhase(s.core, phase).1
    case Emptying => false
    case _ => s.draining
  }

  lemma {:induction false} AdoptChildrenStack(s: Sched, join: nat, n: nat)
    ensures AdoptChildren(s, join, n).frames == s.frames && AdoptChildren(s, join, n).draining == s.draining
    decreases n
  {
    if n > 0 {
      AdoptChildrenStack(AdoptReady(s, Joined(join)), join, n - 1);
    }
  }

  lemma CancelStack(s: Sched, i: nat)
    requires SchedInv(s) && Linked(s) && i < |s.core.slots| && s.core.slots[i].life.occupied
    ensures CancelState(s, i).frames == s.frames && CancelState(s, i).draining == s.draining
  {
    hide SchedInv, Evolves;
    CancelStateExact(s, i);
  }

  lemma CancelRequestedStack(s: Sched, p: nat)
    requires SchedInv(s) && Linked(s)
    ensures CancelRequested(s, p).frames == s.frames && CancelRequested(s, p).draining == s.draining
  {
    hide SchedInv, Linked, CancelState;
    if p < |s.controls| && s.controls[p].attached && !s.controls[p].done {
      LivingProcess(s, p);
      CancelStack(s, s.controls[p].slot);
    }
  }

  lemma {:induction false} CancelRequestsStack(s: Sched, ps: seq<nat>)
    requires SchedInv(s) && Linked(s)
    ensures CancelRequests(s, ps).frames == s.frames && CancelRequests(s, ps).draining == s.draining
    decreases |ps|
  {
    hide SchedInv, Linked, Keeps, CancelRequested;
    if ps != [] {
      var t := CancelRequested(s, ps[0]);
      CancelRequestedStack(s, ps[0]);
      CancelRequestedStep(s, ps[0]);
      KeepsInv(s, t);
      ShapeKeepsLinked(s, t);
      CancelRequestsStack(t, ps[1..]);
    }
  }

  lemma CancelProcessStack(s: Sched, p: nat)
    requires SchedInv(s) && Linked(s)
    ensures CancelProcess(s, p).frames == s.frames
    ensures CancelProcess(s, p).draining == DrainsAfter(s, CancellingProcess(p))
  {
    hide SchedInv, Linked, CancelState, Keeps;
    if p < |s.controls| && !s.controls[p].done {
      LivingProcess(s, p);
      var t := s.(controls := s.controls[p := s.controls[p].(requested := true)]);
      RequestKeeps(s, p);
      KeepsInv(s, t);
      ShapeKeepsLinked(s, t);
      CancelStack(t, s.controls[p].slot);
    }
  }

  lemma CancelAwaitedStack(s: Sched, i: nat)
    requires SchedInv(s) && Linked(s) && i < |s.core.slots| && s.core.slots[i].life.occupied
    ensures CancelAwaited(s, i).frames == s.frames && CancelAwaited(s, i).draining == s.draining
  {
    hide SchedInv, Linked, CancelState;
    CancelStack(s, i);
  }

  lemma CollectStack(s: Sched)
    ensures CollectRoots(s).frames == s.frames && CollectRoots(s).draining == s.draining
  {
    ReclaimRootsVacates(s, s.pool.finishedRoots);
  }

  lemma EndResumeStack(s: Sched)
    requires SchedInv(s) && Linked(s) && s.frames != [] && s.frames[|s.frames| - 1].Drained?
    ensures EndResume(s).frames == s.frames[..|s.frames| - 1] && EndResume(s).draining == s.draining
  {
    hide SchedInv, Linked, CancelRequests, CollectRoots;
    var t := s.(frames := s.frames[..|s.frames| - 1]);
    PopFrameKeeps(s);
    ShapeKeepsLinked(s, t);
    CancelRequestsStack(t, t.cancels);
    CollectStack(ApplyPending(t));
  }

  lemma DeliveryStack(s: Sched, delivered: (Core, bool))
    ensures AfterDelivery(s, delivered).frames == s.frames
    ensures AfterDelivery(s, delivered).draining == (s.draining || delivered.1)
  {
    BoundaryVacates(s.(core := delivered.0));
  }

  function TimingFrame(s: Sched, i: nat, timeout: nat): Frame {
    Timing(Reg(i, s.core.lastGen + 1, None), timeout)
  }

  /** What a step does to the stack: a timed wait that begins is pushed, and whoever returns is popped; and whether the
      stack is that of a drain. */
  ghost predicate StackMove(s: Sched, e: Event, t: Sched) {
    t.draining == DrainsAfter(s, e) &&
    match e
    case TimingOut(i, timeout) => t.frames == s.frames + [TimingFrame(s, i, timeout)]
    case TimingSet => s.frames != [] && t.frames == s.frames[..|s.frames| - 1]
    case Returning => s.frames != [] && t.frames == s.frames[..|s.frames| - 1]
    case ReturningInline => s.frames != [] && t.frames == s.frames[..|s.frames| - 1]
    case Taking => t.frames == s.frames || exists i :: t.frames == s.frames + [Drained(i)]
    case RunningInline(p) => exists i :: t.frames == s.frames + [Inline(i, p)]
    case _ => t.frames == s.frames
  }

  lemma FinalStack(s: Sched, i: nat)
    requires i < |s.core.slots|
    ensures FinalSuspend(s, i).frames == s.frames && FinalSuspend(s, i).draining == s.draining
  {
    hide EndWait, MakeReady, ResumeAll, StopReady;
  }

  lemma CallStack(s: Sched, e: Event, t: Sched)
    requires SchedInv(s) && Call(s, e, t)
    ensures StackMove(s, e, t)
  {
    hide SchedInv, Linked, CancelProcess, CancelAwaited, AdoptChildren, Childless, BeginWait, RegisterWait, MakeReady,
      FinalSuspend, ResumeReg, Park, ParkFirst, Adopt, DeliverEdge, DeliverTime, DeliverPhase, Spawn, SpawnDetached,
      ReclaimAwaited, BeginTimeout, EndTimeout, Ready;
    match e
    case Spawning => SpawnStack(s);
    case SpawningDetached => SpawnStack(s);
    case Awaiting(i) => AdoptStack(s, Awaited(s.core.slots[i].life.id));
    case Joining(i, n) =>
      AdoptChildrenStack(s.(core := BeginWait(s.core, i, JoinWait), joins := s.joins + [Join(n, i)]), |s.joins|, n);
    case TimingOut(i, timeout) =>
      TimingOutStack(s, i, timeout);
    case TimingSet => TimingSetStack(s);
    case ReclaimingAwaited(i) => ReclaimedStack(s, i);
    case Deferring(i) => ReadyStack(s, i);
    case Finishing(i) => FinalStack(s, i);
    case CancellingProcess(p) => CancelProcessStack(s, p);
    case CancellingAwaited(i) => CancelAwaitedStack(s, i);
    case _ =>
  }

  lemma TimingOutStack(s: Sched, i: nat, timeout: nat)
    requires SchedInv(s) && s.Alive(i) && BeginTimeout(s, i, timeout).Some?
    ensures var t := BeginTimeout(s, i, timeout).value;
      t.frames == s.frames + [TimingFrame(s, i, timeout)] && t.draining == s.draining
  {
    hide SchedInv, BeginWait, Adopt;
    BeginGen(s, i);
    var core := BeginWait(s.core, i, TimeoutWait);
    AdoptStack(s.(core := core, joins := s.joins + [Join(1, i)],
                  frames := s.frames + [Timing(Reg(i, core.lastGen, None), timeout)]), Joined(|s.joins|));
  }

  lemma TimingSetStack(s: Sched)
    requires s.frames != [] && s.frames[|s.frames| - 1].Timing? && EndTimeout(s).Some?
    ensures EndTimeout(s).value.frames == s.frames[..|s.frames| - 1] && EndTimeout(s).value.draining == s.draining
  {
    hide RegisterWait;
  }

  lemma ReclaimedStack(s: Sched, i: nat)
    requires i < |s.core.slots| && ReclaimAwaited(s, i).Some?
    ensures ReclaimAwaited(s, i).value.frames == s.frames && ReclaimAwaited(s, i).value.draining == s.draining
  {
  }

  lemma ReadyStack(s: Sched, i: nat)
    ensures Ready(s, i).frames == s.frames && Ready(s, i).draining == s.draining
  {
  }

  lemma AdoptStack(s: Sched, link: Link)
    ensures Adopt(s, link, None).frames == s.frames && Adopt(s, link, None).draining == s.draining
  {
  }

  lemma SpawnStack(s: Sched)
    ensures Spawn(s).frames == s.frames && Spawn(s).draining
    ensures SpawnDetached(s).frames == s.frames && SpawnDetached(s).draining
  {
  }

  lemma BeginGen(s: Sched, i: nat)
    requires SchedInv(s) && s.Alive(i)
    ensures BeginWait(s.core, i, TimeoutWait).lastGen == s.core.lastGen + 1
  {
    hide WaitInv, LifeInv, RunInv;
    InvWait(s);
    SlotIsOk(s.core, i);
    BeginWaitShape(s.core, i, TimeoutWait);
  }

  lemma StepStack(s: Sched, e: Event, t: Sched)
    requires SchedInv(s) && Step(s, e, t)
    ensures StackMove(s, e, t)
  {
    hide SchedInv, Linked, Call, EndResume, CollectRoots, Boundary, AfterDelivery;
    if Call(s, e, t) {
      CallStack(s, e, t);
    } else {
      match e
      case Returning => EndResumeStack(s);
      case ReturningInline => CollectStack(s.(frames := s.frames[..|s.frames| - 1]));
      case Emptying =>
        BoundaryVacates(s.(core := s.core.(queue := s.core.queue.(entries := [], cursor := 0)), draining := false));
      case EdgeSeen(signal, edge) => DeliveryStack(s, DeliverEdge(s.core, signal, edge));
      case TimePassed(time) => DeliveryStack(s, DeliverTime(s.core, time));
      case PhaseReached(phase) => DeliveryStack(s, DeliverPhase(s.core, phase));
      case _ =>
    }
  }

  // ---------------------------------------------------------------------------------------------
  // Timed waits
  // ---------------------------------------------------------------------------------------------

  predicate TimedFor(f: Frame, g: nat) {
    f.Timing? && f.wait.gen == g
  }

  /** No timeout is about to arm a timer for a wait of this generation. */
  ghost predicate Untimed(s: Sched, g: nat) {
    forall k :: 0 <= k < |s.frames| ==> !TimedFor(s.frames[k], g)
  }

  lemma StepUntimed(s: Sched, e: Event, t: Sched, g: nat)
    requires SchedInv(s) && Step(s, e, t) && Untimed(s, g) && g <= s.core.lastGen
    ensures Untimed(t, g)
  {
    hide SchedInv, Step;
    StepStack(s, e, t);
  }

  lemma FramesIssued(s: Sched, g: nat)
    requires SchedInv(s) && g > s.core.lastGen
    ensures Untimed(s, g)
  {
    hide WaitInv, LifeInv, FlagsInv;
    forall k | 0 <= k < |s.frames|
      ensures !TimedFor(s.frames[k], g)
    {
      assert FrameOk(s.core, s.frames[k]);
    }
  }

  /** The frame f is on the stack, and it is the only one for its wait. */
  ghost predicate OnStack(s: Sched, f: Frame) {
    && f.Timing? && f in s.frames
    && (forall k :: 0 <= k < |s.frames| && TimedFor(s.frames[k], f.wait.gen) ==> s.frames[k] == f)
    && (forall a, b :: 0 <= a < b < |s.frames| && TimedFor(s.frames[a], f.wait.gen) ==>
      !TimedFor(s.frames[b], f.wait.gen))
  }

  /** The event arms the timer of the wait. */
  ghost predicate ArmsWait(s: Sched, e: Event, g: nat) {
    e.TimingSet? && s.frames != [] && TimedFor(s.frames[|s.frames| - 1], g)
  }

  lemma StaysOnStack(s: Sched, e: Event, t: Sched, f: Frame)
    requires StackMove(s, e, t) && Step(s, e, t) && OnStack(s, f) && f.wait.gen <= s.core.lastGen
    requires !ArmsWait(s, e, f.wait.gen)
    ensures OnStack(t, f)
  {
    hide Step;
    var k :| 0 <= k < |s.frames| && s.frames[k] == f;
    if |t.frames| >= |s.frames| {
      assert t.frames[k] == f;
    } else {
      PoppedAnother(s, e, t);
      assert k < |t.frames| && t.frames[k] == f;
    }
  }

  /** Only the arming of a timer pops such a frame. */
  lemma PoppedAnother(s: Sched, e: Event, t: Sched)
    requires StackMove(s, e, t) && Step(s, e, t) && |t.frames| < |s.frames|
    ensures e.TimingSet? || !s.frames[|s.frames| - 1].Timing?
  {
    hide SchedInv, Linked, EndResume, EndInline, EndTimeout;
  }
}
