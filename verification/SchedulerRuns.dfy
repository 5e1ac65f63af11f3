/** Runs of the scheduler: any interleaving of calls from coroutines, turns of the drain and deliveries
from the simulator.

Whatever a coroutine does between two suspensions is a list of calls, so a run lets any living
coroutine make any call at any time. Two rules of the language are kept: a coroutine finishes only when
nobody alive still has to resume it, and it re-queues itself only when it is not suspended. */
module SchedulerRuns {
  import opened Registrations
  import opened WaitCore
  import opened SchedulerState
  import opened SchedulerLife
  import opened SchedulerEnd
  import opened Cancellation
  import opened Delivery
  import opened SchedulerRun
  import opened ReadyRun
  import E = EdgeWaits
  import P = PhaseWaits
  import T = TimerQueue

  datatype Event =
    // calls from coroutines and from outside
    | Spawning | SpawningDetached
    | Awaiting(slot: nat) | Joining(slot: nat, children: nat)
    | TimingOut(slot: nat, timeout: nat) | TimingSet
    | Parking(slot: nat, request: Request) | ParkingFirst(slot: nat, requests: seq<Request>)
    | ParkingExternally(slot: nat, reason: WaitReason) | ParkingForProcess(slot: nat, process: nat)
    | Finishing(slot: nat)
    | CancellingProcess(process: nat) | CancellingAwaited(slot: nat) | ReclaimingAwaited(slot: nat)
    | Waking(wait: Reg) | Flushing | Deferring(slot: nat)
    // the drain
    | Taking | Returning | Emptying | RunningInline(process: nat) | ReturningInline
    // the simulator
    | EdgeSeen(signal: nat, edge: E.EdgeKind) | TimePassed(time: nat) | PhaseReached(phase: P.Phase)
    | ScheduleRead | InterestRead

  function Initial(precision: nat, statics: set<nat>, sticky: set<nat>): Sched {
    var interest := E.Interest([], [], [], 0, statics, map signal | signal in sticky :: E.NO_INTEREST);
    Sched(Core([], 0,
               E.EdgeTable([], 0, 0, 0, [], [], [], interest),
               P.PhaseTable([[], [], []], [0, 0, 0], []),
               T.TimerTable(None, [], 0, false),
               Clock(0, precision, Evaluation, false), ReadyQueue([], 0, 0)),
          0, false, [], Pool([], [], [], 0), [], [], [])
  }

  predicate TopIs(s: Sched, timing: bool, isInline: bool) {
    && s.frames != []
    && (var f := s.frames[|s.frames| - 1]; f.Timing? == timing && f.Inline? == isInline)
  }

  /** The calls. */
  ghost predicate Call(s: Sched, e: Event, r: Sched) {
    match e
    case Spawning => r == Spawn(s)
    case SpawningDetached => r == SpawnDetached(s)
    case Awaiting(i) => s.Alive(i) && r == AwaitTask(s, i)
    case Joining(i, n) => s.Alive(i) && r == StartJoin(s, i, n)
    case TimingOut(i, timeout) => s.Alive(i) && s.draining && BeginTimeout(s, i, timeout) == Some(r)
    case TimingSet => TopIs(s, true, false) && EndTimeout(s) == Some(r)
    case Parking(i, request) => s.Alive(i) && (var c := Park(s.core, i, request); c.Some? && r == s.(core := c.value))
    case ParkingFirst(i, requests) =>
      s.Alive(i) && (var c := ParkFirst(s.core, i, requests); c.Some? && r == s.(core := c.value))
    case ParkingExternally(i, reason) =>
      s.Alive(i) && ReasonProgress(reason) == INTERNAL && r == s.(core := BeginWait(s.core, i, reason))
    case ParkingForProcess(i, p) => s.Alive(i) && p < |s.controls| && ParkProcess(s, i, p) == Some(r)
    case Finishing(i) => s.Alive(i) && Childless(Lives(s.core.slots), s.joins, i) && r == FinalSuspend(s, i)
    case CancellingProcess(p) => Linked(s) && r == CancelProcess(s, p)
    case CancellingAwaited(i) =>
      Linked(s) && i < |s.core.slots| && s.core.slots[i].life.occupied && r == CancelAwaited(s, i)
    case ReclaimingAwaited(i) =>
      i < |s.core.slots| && Some(i) in s.pool.finished && ReclaimAwaited(s, i) == Some(r)
    case Waking(w) => r == s.(core := ResumeReg(s.core, w))
    case Flushing => r == DrainReady(s)
    case Deferring(i) => s.Alive(i) && !s.core.slots[i].waiting && r == Ready(s, i)
    case _ => false
  }

  /** The turns of the drain. */
  ghost predicate Turn(s: Sched, e: Event, r: Sched) {
    match e
    case Taking => s.draining && s.core.queue.cursor < |s.core.queue.entries| && r == PopReady(s)
    case Returning => TopIs(s, false, false) && Linked(s) && r == EndResume(s)
    case Emptying =>
      s.draining && s.frames == [] && s.core.queue.cursor == |s.core.queue.entries| && r == EndDrain(s)
    case RunningInline(p) =>
      CanRunInline(s, p) && s.core.queue.cursor <= |s.core.queue.entries| && r == BeginInline(s, p)
    case ReturningInline => TopIs(s, false, true) && r == EndInline(s)
    case _ => false
  }

  /** What the simulator delivers. */
  ghost predicate Delivers(s: Sched, e: Event, r: Sched) {
    match e
    case EdgeSeen(signal, edge) => r == ResumeEdge(s, signal, edge)
    case TimePassed(time) => time <= T.NO_DEADLINE && r == AdvanceTime(s, time)
    case PhaseReached(phase) => r == ResumePhase(s, phase)
    case _ => false
  }

  /** What the simulator reads. */
  ghost predicate Reads(s: Sched, e: Event, r: Sched) {
    match e
    case ScheduleRead => r == s.(core := PollTimer(s.core).0)
    case InterestRead => r == s.(core := TakeChange(s.core))
    case _ => false
  }

  function TakeChange(c: Core): Core {
    c.(edges := c.edges.(interest := E.ConsumeChange(c.edges.interest).0))
  }

  ghost predicate Step(s: Sched, e: Event, r: Sched) {
    Call(s, e, r) || Turn(s, e, r) || Delivers(s, e, r) || Reads(s, e, r)
  }

  /** The states of a run that starts with nothing and makes the events one after another. */
  ghost predicate IsRun(states: seq<Sched>, events: seq<Event>) {
    && |states| == |events| + 1
    && (exists precision: nat, statics, sticky :: states[0] == Initial(precision, statics, sticky))
    && forall k {:trigger events[k]} :: 0 <= k < |events| ==> Step(states[k], events[k], states[k + 1])
  }

  // ---------------------------------------------------------------------------------------------
  // Every step keeps the invariant
  // ---------------------------------------------------------------------------------------------

  lemma InitialEdges(s: Sched, precision: nat, statics: set<nat>, sticky: set<nat>)
    requires s == Initial(precision, statics, sticky)
    ensures E.EdgeInv(s.core.edges, [], 0)
  {
  }

  lemma InitialWaits(s: Sched, precision: nat, statics: set<nat>, sticky: set<nat>)
    requires s == Initial(precision, statics, sticky)
    ensures WaitInv(s.core)
  {
    hide E.EdgeInv;
    InitialEdges(s, precision, statics, sticky);
    assert Waits(s.core.slots) == [];
  }

  lemma InitialLife(s: Sched, precision: nat, statics: set<nat>, sticky: set<nat>)
    requires s == Initial(precision, statics, sticky)
    ensures LifeInv(s) && RunInv(s)
  {
    assert Lives(s.core.slots) == [];
  }

  lemma InitialKeeps(precision: nat, statics: set<nat>, sticky: set<nat>)
    ensures SchedInv(Initial(precision, statics, sticky))
  {
    hide WaitInv, LifeInv, RunInv;
    var s := Initial(precision, statics, sticky);
    InitialWaits(s, precision, statics, sticky);
    InitialLife(s, precision, statics, sticky);
  }

  /** The wait of slot i is still being set up in this step: a timeout begins, or arms its timer. */
  predicate Arms(s: Sched, e: Event, i: nat) {
    match e
    case TimingOut(j, _) => j == i
    case TimingSet =>
      s.frames != []
      && (var f := s.frames[|s.frames| - 1]; f.Timing? && f.wait.slot == i && ValidReg(s.core, f.wait))
    case _ => false
  }

  /** The step keeps the invariant, revives no registration, and leaves every other wait and what is registered for
      it as it was. */
  ghost predicate Sound(s: Sched, e: Event, r: Sched) {
    && SchedInv(r) && Moves(s.core, r.core)
    && forall i {:trigger SettledAt(s.core, r.core, i)} :: 0 <= i < |r.core.slots| && !Arms(s, e, i) ==>
         SettledAt(s.core, r.core, i)
  }

  lemma KeepsIsSound(s: Sched, e: Event, r: Sched)
    requires Keeps(s, r)
    ensures Sound(s, e, r)
  {
    hide SchedInv, Moves, SettledAt, Arms;
  }

  lemma PairIsSound(s: Sched, e: Event, r: Sched)
    requires SchedInv(r) && Evolves(s.core, r.core)
    ensures Sound(s, e, r)
  {
    hide SchedInv, Moves, SettledAt, Arms;
  }

  lemma TimeoutIsSound(s: Sched, e: Event, r: Sched)
    requires SchedInv(s) && Call(s, e, r) && (e.TimingOut? || e.TimingSet?)
    ensures Sound(s, e, r)
  {
    hide SchedInv, SettledAt, Moves, BeginTimeout, EndTimeout, ValidReg;
    if e.TimingOut? {
      BeginTimeoutKeeps(s, e.slot, e.timeout);
    } else {
      EndTimeoutStep(s);
    }
  }

  lemma CallKeeps(s: Sched, e: Event, r: Sched)
    requires SchedInv(s) && Call(s, e, r)
    ensures Sound(s, e, r)
  {
    hide SchedInv, Sound, Keeps, Evolves, Moves, Childless, Linked, Spawn, SpawnDetached, AwaitTask, StartJoin,
      BeginTimeout,
      EndTimeout, Park, ParkFirst, BeginWait, ParkProcess, FinalSuspend, CancelProcess, CancelAwaited, ReclaimAwaited;
    match e
    case Spawning =>
      SpawnKeeps(s);
      PairIsSound(s, e, r);
    case SpawningDetached =>
      SpawnDetachedKeeps(s);
      PairIsSound(s, e, r);
    case Awaiting(i) =>
      AwaitTaskKeeps(s, i);
      PairIsSound(s, e, r);
    case Joining(i, n) =>
      StartJoinKeeps(s, i, n);
      PairIsSound(s, e, r);
    case TimingOut(_, _) => TimeoutIsSound(s, e, r);
    case TimingSet => TimeoutIsSound(s, e, r);
    case Parking(i, request) =>
      ParkStep(s, i, request);
      KeepsIsSound(s, e, r);
    case ParkingFirst(i, requests) =>
      ParkFirstStep(s, i, requests);
      KeepsIsSound(s, e, r);
    case ParkingExternally(i, reason) =>
      BeginStep(s, i, reason);
      KeepsIsSound(s, e, r);
    case ParkingForProcess(i, p) =>
      ParkProcessStep(s, i, p);
      KeepsIsSound(s, e, r);
    case _ => EndingCallKeeps(s, e, r);
  }

  lemma EndingCallKeeps(s: Sched, e: Event, r: Sched)
    requires SchedInv(s) && Call(s, e, r)
    requires !e.Spawning? && !e.SpawningDetached? && !e.Awaiting? && !e.Joining? && !e.TimingOut? && !e.TimingSet?
    requires !e.Parking? && !e.ParkingFirst? && !e.ParkingExternally? && !e.ParkingForProcess?
    ensures Sound(s, e, r)
  {
    hide SchedInv, Sound, Keeps, Evolves, Moves, Childless, Linked;
    match e
    case Finishing(i) =>
      FinalSuspendStep(s, i);
      KeepsIsSound(s, e, r);
    case CancellingProcess(p) =>
      CancelProcessStep(s, p);
      KeepsIsSound(s, e, r);
    case CancellingAwaited(i) =>
      CancelAwaitedStep(s, i);
      KeepsIsSound(s, e, r);
    case ReclaimingAwaited(i) =>
      ReclaimAwaitedStep(s, i);
      KeepsIsSound(s, e, r);
    case Waking(w) =>
      WakeStep(s, w);
      KeepsIsSound(s, e, r);
    case Flushing =>
      DrainReadyStep(s);
      KeepsIsSound(s, e, r);
    case Deferring(i) =>
      ReadyKeeps(s, i);
      PairIsSound(s, e, r);
    case _ =>
  }

  lemma TurnKeeps(s: Sched, e: Event, r: Sched)
    requires SchedInv(s) && Turn(s, e, r)
    ensures Sound(s, e, r)
  {
    hide SchedInv, Sound, Keeps, Evolves, Moves, Linked;
    match e
    case Taking =>
      PopReadyStep(s);
      KeepsIsSound(s, e, r);
    case Returning =>
      EndResumeStep(s);
      KeepsIsSound(s, e, r);
    case Emptying =>
      EndDrainStep(s);
      KeepsIsSound(s, e, r);
    case RunningInline(p) =>
      BeginInlineStep(s, p);
      KeepsIsSound(s, e, r);
    case ReturningInline =>
      EndInlineStep(s);
      KeepsIsSound(s, e, r);
    case _ =>
  }

  lemma DeliversKeeps(s: Sched, e: Event, r: Sched)
    requires SchedInv(s) && Delivers(s, e, r)
    ensures Keeps(s, r)
  {
    hide SchedInv, Keeps;
    match e
    case EdgeSeen(signal, edge) => ResumeEdgeStep(s, signal, edge);
    case TimePassed(time) => AdvanceTimeStep(s, time);
    case PhaseReached(phase) => ResumePhaseStep(s, phase);
    case _ =>
  }

  /** Reading the schedule clears the mark and drops timers that are dead. */
  lemma PollTimerKeeps(c: Core)
    requires WaitInv(c)
    ensures var (d, read) := PollTimer(c);
      && WaitInv(d) && NoneRevived(c, d) && Settles(c, d) && d.edges == c.edges && d == c.(timers := d.timers)
      && (read.Some? ==> read.value == Soonest(c)) && Soonest(d) == Soonest(c)
      && (read.None? ==> d == c && !c.timers.changed)
  {
    if c.timers.changed {
      var q := c.timers.(changed := false);
      var a := c.(timers := q);
      assert T.All(q) == T.All(c.timers);
      assert WaitInv(a);
      T.DiscardKeeps(q, Waits(c.slots), |c.slots|, c.lastGen);
      T.DiscardExact(q, Waits(c.slots));
      T.DropDeadExact(T.All(q), Waits(c.slots));
      HeldStay(c);
      SettlesTimers(c, PollTimer(c).0);
    } else {
      EvolvesRefl(c);
    }
  }

  lemma ConsumeKeeps(c: Core)
    requires WaitInv(c)
    ensures WaitInv(TakeChange(c)) && NoneRevived(c, TakeChange(c)) && Settles(c, TakeChange(c))
  {
    var n := c.edges.interest;
    var (after, change) := E.ConsumeChange(n);
    E.ConsumeChangeKeeps(n);
    assert forall k: nat :: E.CountAt(after, k) == E.CountAt(n, k);
    SettlesSlots(c, TakeChange(c));
  }

  lemma ReadStep(s: Sched, d: Core)
    requires SchedInv(s) && WaitInv(d) && NoneRevived(s.core, d) && Settles(s.core, d)
    requires d == s.core.(timers := d.timers, edges := d.edges)
    ensures SchedInv(s.(core := d))
  {
    hide WaitInv, NoneRevived, Settles, FlagsInv;
    assert Lives(d.slots) == Lives(s.core.slots);
    FramesStay(s.core, d, s.frames);
    SettlesFlags(s.core, d, s.frames);
  }

  lemma SettlesFlags(c: Core, d: Core, frames: seq<Frame>)
    requires FlagsInv(c, frames) && Settles(c, d)
    ensures FlagsInv(d, frames)
  {
    forall i | 0 <= i < |d.slots|
      ensures FlagAt(d, frames, i)
    {
      assert SettledAt(c, d, i) && (i < |c.slots| ==> FlagAt(c, frames, i));
    }
  }

  lemma ReadsKeeps(s: Sched, e: Event, r: Sched)
    requires SchedInv(s) && Reads(s, e, r)
    ensures SchedInv(r) && NoneRevived(s.core, r.core) && Settles(s.core, r.core)
  {
    hide SchedInv, WaitInv, NoneRevived, Settles;
    InvWait(s);
    match e
    case ScheduleRead =>
      PollTimerKeeps(s.core);
      ReadStep(s, r.core);
    case InterestRead =>
      ConsumeKeeps(s.core);
      ReadStep(s, r.core);
    case _ =>
  }

  lemma StepKeeps(s: Sched, e: Event, r: Sched)
    requires SchedInv(s) && Step(s, e, r)
    ensures SchedInv(r) && NoneRevived(s.core, r.core)
    ensures !Reads(s, e, r) ==> Moves(s.core, r.core)
    ensures forall i {:trigger SettledAt(s.core, r.core, i)} :: 0 <= i < |r.core.slots| && !Arms(s, e, i) ==>
      SettledAt(s.core, r.core, i)
  {
    hide SchedInv, Keeps, NoneRevived, Call, Turn, Delivers, Reads, SettledAt, Arms;
    if Call(s, e, r) {
      CallKeeps(s, e, r);
    } else if Turn(s, e, r) {
      TurnKeeps(s, e, r);
    } else if Delivers(s, e, r) {
      DeliversKeeps(s, e, r);
      KeepsIsSound(s, e, r);
    } else {
      ReadsKeeps(s, e, r);
    }
  }

  /** The invariant holds in every state of every run. */
  lemma {:induction false} RunKeepsInvariant(states: seq<Sched>, events: seq<Event>, n: nat)
    requires IsRun(states, events) && n < |states|
    ensures SchedInv(states[n])
  {
    hide SchedInv, Step;
    if n == 0 {
      var precision: nat, statics, sticky :| states[0] == Initial(precision, statics, sticky);
      InitialKeeps(precision, statics, sticky);
    } else {
      RunKeepsInvariant(states, events, n - 1);
      StepKeeps(states[n - 1], events[n - 1], states[n]);
    }
  }

  // ---------------------------------------------------------------------------------------------
  // What holds across a run
  // ---------------------------------------------------------------------------------------------

  lemma NoneRevivedTransitive(a: Core, b: Core, c: Core)
    requires NoneRevived(a, b) && NoneRevived(b, c)
    ensures NoneRevived(a, c)
  {
    forall i | 0 <= i < |c.slots| && c.slots[i].Alive() && 0 < c.slots[i].gen <= a.lastGen
      ensures i < |a.slots| && a.slots[i].Alive() && a.slots[i].gen == c.slots[i].gen
      ensures c.slots[i].waiting ==> a.slots[i].waiting
    {
      assert b.slots[i].Alive() && b.slots[i].gen == c.slots[i].gen;
    }
  }

  lemma {:induction false} RunRevivesNothing(states: seq<Sched>, events: seq<Event>, m: nat, n: nat)
    requires IsRun(states, events) && m <= n < |states|
    ensures NoneRevived(states[m].core, states[n].core)
    decreases n
  {
    hide SchedInv, Step, NoneRevived;
    if m == n {
      RevivedRefl(states[m].core);
    } else {
      RunRevivesNothing(states, events, m, n - 1);
      RunKeepsInvariant(states, events, n - 1);
      StepKeeps(states[n - 1], events[n - 1], states[n]);
      NoneRevivedTransitive(states[m].core, states[n - 1].core, states[n].core);
    }
  }

  lemma RevivedRefl(c: Core)
    ensures NoneRevived(c, c)
  {
  }

  /** A registration that is dead stays dead, however often its slot is recycled afterwards: neither it
      nor a losing trigger of a `First` can ever resume a later occupant. */
  lemma DeadStaysDead(states: seq<Sched>, events: seq<Event>, m: nat, n: nat, w: Reg)
    requires IsRun(states, events) && m <= n < |states| && 0 < w.gen <= states[m].core.lastGen
    requires !ValidReg(states[m].core, w)
    ensures !ValidReg(states[n].core, w) && ResumeReg(states[n].core, w) == states[n].core
  {
    RunRevivesNothing(states, events, m, n);
  }

  /** What a consumer believes before it has read anything. */
  const NO_BELIEFS: E.Replay := map[]

  /** What a consumer believes that starts with nothing and replays every change it reads. */
  ghost function ReplayAfter(states: seq<Sched>, events: seq<Event>, n: nat): E.Replay
    requires n <= |events| && |states| == |events| + 1
  {
    if n == 0 then NO_BELIEFS
    else
      Heard(states[n - 1], events[n - 1], ReplayAfter(states, events, n - 1))
  }

  ghost function Heard(s: Sched, e: Event, replay: E.Replay): E.Replay {
    if e.InterestRead? then E.Replayed(replay, E.ConsumeChange(s.core.edges.interest).1) else replay
  }

  lemma StepMirrors(s: Sched, e: Event, r: Sched, replay: E.Replay)
    requires SchedInv(s) && Step(s, e, r) && E.Mirrors(replay, s.core.edges.interest)
    ensures E.Mirrors(Heard(s, e, replay), r.core.edges.interest)
  {
    hide Call, Turn, Delivers, LifeInv, RunInv;
    StepKeeps(s, e, r);
    if Reads(s, e, r) {
      if e.InterestRead? {
        E.ConsumeChangeExact(s.core.edges.interest, replay);
      }
    } else {
      assert !e.InterestRead? by { NotRead(s, e, r); }
      E.AnnouncedKeepsMirror(replay, s.core.edges.interest, r.core.edges.interest);
    }
  }

  lemma NotRead(s: Sched, e: Event, r: Sched)
    requires Step(s, e, r) && !Reads(s, e, r)
    ensures !e.InterestRead? && !e.ScheduleRead?
  {
  }

  /** A consumer that replays the interest changes agrees with the scheduler, at any moment of any run,
      about every signal that is not sticky and has no change left to read. */
  lemma {:induction false} ReplayMirrors(states: seq<Sched>, events: seq<Event>, n: nat)
    requires IsRun(states, events) && n <= |events|
    ensures E.Mirrors(ReplayAfter(states, events, n), states[n].core.edges.interest)
  {
    hide SchedInv, Step, E.Mirrors;
    if n == 0 {
      var precision: nat, statics, sticky :| states[0] == Initial(precision, statics, sticky);
      MirrorsInitially(precision, statics, sticky);
    } else {
      ReplayMirrors(states, events, n - 1);
      RunKeepsInvariant(states, events, n - 1);
      StepMirrors(states[n - 1], events[n - 1], states[n], ReplayAfter(states, events, n - 1));
    }
  }

  lemma MirrorsInitially(precision: nat, statics: set<nat>, sticky: set<nat>)
    ensures E.Mirrors(NO_BELIEFS, Initial(precision, statics, sticky).core.edges.interest)
  {
  }

  /** The deadline that the simulator has read last. */
  ghost function LastRead(states: seq<Sched>, events: seq<Event>, n: nat): nat
    requires n <= |events| && |states| == |events| + 1
  {
    if n == 0 then T.NO_DEADLINE
    else
      NowRead(states[n - 1], events[n - 1], LastRead(states, events, n - 1))
  }

  ghost function NowRead(s: Sched, e: Event, last: nat): nat {
    var poll := if e.ScheduleRead? then PollTimer(s.core).1 else None;
    if poll.Some? then poll.value else last
  }

  lemma StepKeepsDeadline(s: Sched, e: Event, r: Sched, last: nat)
    requires SchedInv(s) && Step(s, e, r) && (!s.core.timers.changed ==> last <= Soonest(s.core))
    ensures !r.core.timers.changed ==> NowRead(s, e, last) <= Soonest(r.core)
  {
    hide Call, Turn, Delivers, LifeInv, RunInv, WaitInv;
    StepKeeps(s, e, r);
    if Reads(s, e, r) {
      PollTimerKeeps(s.core);
    } else {
      NotRead(s, e, r);
    }
  }

  /** No deadline is missed: while the schedule is not marked as changed, the deadline read last is not
      later than any live timer, although timers die without notice and new ones are armed. */
  lemma NoMissedDeadline(states: seq<Sched>, events: seq<Event>, n: nat, t: T.Timer)
    requires IsRun(states, events) && n <= |events| && !states[n].core.timers.changed
    requires t in T.All(states[n].core.timers) && ValidReg(states[n].core, t.reg)
    ensures LastRead(states, events, n) <= t.deadline
  {
    RunKeepsDeadline(states, events, n);
    RunKeepsInvariant(states, events, n);
    SoonestBounds(states[n].core, t);
  }

  lemma SoonestBounds(c: Core, t: T.Timer)
    requires WaitInv(c) && t in T.All(c.timers) && ValidReg(c, t.reg)
    ensures Soonest(c) <= t.deadline
  {
    T.EarliestExact(T.All(c.timers), Waits(c.slots));
  }

  lemma {:induction false} RunKeepsDeadline(states: seq<Sched>, events: seq<Event>, n: nat)
    requires IsRun(states, events) && n <= |events|
    ensures !states[n].core.timers.changed ==> LastRead(states, events, n) <= Soonest(states[n].core)
  {
    hide SchedInv, Step, Soonest;
    if n == 0 {
      var precision: nat, statics, sticky :| states[0] == Initial(precision, statics, sticky);
      NothingSooner(precision, statics, sticky);
    } else {
      RunKeepsDeadline(states, events, n - 1);
      RunKeepsInvariant(states, events, n - 1);
      StepKeepsDeadline(states[n - 1], events[n - 1], states[n], LastRead(states, events, n - 1));
    }
  }

  lemma NothingSooner(precision: nat, statics: set<nat>, sticky: set<nat>)
    ensures Soonest(Initial(precision, statics, sticky).core) == T.NO_DEADLINE
  {
  }
}
