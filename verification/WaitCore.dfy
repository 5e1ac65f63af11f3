/** Coroutine slots, the waits they are in and the queue of those that are ready: everything the
scheduler touches when a coroutine starts to wait or is woken. */
module WaitCore {
  import opened Registrations
  import E = EdgeWaits
  import P = PhaseWaits
  import T = TimerQueue

  datatype WaitReason =
    | TaskWait | ProcessWait | JoinWait | EdgeWait | DelayWait | PhaseWait
    | EventWait | QueueWait | SemaphoreWait | LockWait | TimeoutWait | FirstWait

  /** `wait_progress`: what can end the wait from outside the coroutines. */
  datatype Progress = Progress(time: bool, simulator: bool)

  const INTERNAL := Progress(false, false)

  /** Who is resumed when a coroutine finishes: nobody, the awaiting coroutine (by identity), or the
      parent of a join. */
  datatype Link = Root | Awaited(parent: nat) | Joined(join: nat)

  /** The coroutine that occupies a slot. `id` numbers the coroutines; it stands for the address of
      the frame, which no two living coroutines share. */
  datatype Life = Life(occupied: bool, id: nat, done: bool, link: Link, control: Option<nat>) {
    predicate Alive() {
      occupied && !done
    }
  }

  /** `CoroutineState` with the parts of the promise that the scheduler reads. */
  datatype Slot = Slot(life: Life, waiting: bool, ready: bool, gen: nat, progress: Progress, winner: Option<nat>) {
    predicate Alive() {
      life.Alive()
    }

    function Token(): Option<nat> {
      if life.Alive() && waiting then Some(gen) else None
    }
  }

  const NOBODY := Life(false, 0, false, Root, None)
  const VACANT := Slot(NOBODY, false, false, 0, INTERNAL, None)

  datatype SimPhase = Evaluation | InPhase(phase: P.Phase)

  /** `registered` is `wait_registered_`. */
  datatype Clock = Clock(now: nat, precision: nat, phase: SimPhase, registered: bool)

  /** `ready_`, `ready_cursor_` and `live_ready_count_` */
  datatype ReadyQueue = ReadyQueue(entries: seq<nat>, cursor: nat, live: int)

  datatype Core = Core(
    slots: seq<Slot>, lastGen: nat,
    edges: E.EdgeTable, phases: P.PhaseTable, timers: T.TimerTable,
    clock: Clock, queue: ReadyQueue)

  function Waits(slots: seq<Slot>): (r: Tokens)
    ensures |r| == |slots| && forall i :: 0 <= i < |slots| ==> r[i] == slots[i].Token()
  {
    seq(|slots|, i requires 0 <= i < |slots| => slots[i].Token())
  }

  /** `registration_valid` */
  predicate ValidReg(c: Core, r: Reg) {
    r.slot < |c.slots| && c.slots[r.slot].Alive() && c.slots[r.slot].waiting && c.slots[r.slot].gen == r.gen
  }

  /** `external_wait_alive`: the coroutine has not been cancelled and has started no other wait. */
  predicate AliveReg(c: Core, r: Reg) {
    r.slot < |c.slots| && c.slots[r.slot].Alive() && c.slots[r.slot].gen == r.gen
  }

  // ---------------------------------------------------------------------------------------------
  // Operations
  // ---------------------------------------------------------------------------------------------

  /** `clear_ready` */
  function ClearReady(c: Core, i: nat): Core {
    if i < |c.slots| && c.slots[i].ready then
      c.(slots := c.slots[i := c.slots[i].(ready := false)], queue := c.queue.(live := c.queue.live - 1))
    else c
  }

  /** `make_ready` */
  function MakeReady(c: Core, i: nat): (d: Core)
    ensures SameLife(c, d) && d.timers == c.timers
  {
    if i >= |c.slots| || c.slots[i].life.done || c.slots[i].ready then c
    else
      c.(slots := c.slots[i := c.slots[i].(ready := true)],
         queue := c.queue.(live := c.queue.live + 1, entries := c.queue.entries + [i]))
  }

  predicate HasRegistrations(c: Core, i: nat) {
    || (i < |c.edges.waits| && c.edges.waits[i] != 0)
    || (i < |c.phases.waits| && c.phases.waits[i] != [0, 0, 0])
  }

  /** `end_wait` */
  function EndWait(c: Core, i: nat): (d: Core)
    ensures SameLife(c, d) && d.timers == c.timers
  {
    if i >= |c.slots| || !c.slots[i].waiting then c
    else
      var c := c.(slots := c.slots[i := c.slots[i].(waiting := false, progress := INTERNAL)]);
      if !HasRegistrations(c, i) then c
      else c.(edges := E.Release(c.edges, i), phases := P.Release(c.phases, i))
  }

  function ReasonProgress(reason: WaitReason): Progress {
    match reason
    case DelayWait | TimeoutWait => Progress(true, false)
    case EdgeWait | PhaseWait => Progress(false, true)
    case _ => INTERNAL
  }

  /** The rest of `begin_wait`, for a slot that is not waiting. */
  function EnterWait(c: Core, i: nat, reason: WaitReason): Core {
    if i >= |c.slots| then c
    else
      var c := ClearReady(c, i);
      c.(slots := c.slots[i := c.slots[i].(waiting := true, progress := ReasonProgress(reason), gen := c.lastGen + 1)],
         lastGen := c.lastGen + 1)
  }

  /** `begin_wait`; the new generation is `lastGen` of the result. */
  function BeginWait(c: Core, i: nat, reason: WaitReason): Core {
    EnterWait(EndWait(c, i), i, reason)
  }

  datatype Request = OnEdge(signal: nat, edge: E.EdgeKind) | After(femtoseconds: nat) | OnPhase(phase: P.Phase)

  function RequestReason(request: Request): WaitReason {
    match request case OnEdge(_, _) => EdgeWait case After(_) => DelayWait case OnPhase(_) => PhaseWait
  }

  /** `validate_delay`, which aborts when this is false. */
  predicate DelayAccepted(clock: Clock, femtoseconds: nat) {
    femtoseconds != 0 && clock.precision != 0 && femtoseconds % clock.precision == 0
  }

  /** The deadline of a delay started now; it saturates at the last tick. */
  function DeadlineAfter(clock: Clock, femtoseconds: nat): nat {
    var ticks := if clock.precision == 0 then 0 else femtoseconds / clock.precision;
    if clock.now + ticks > T.NO_DEADLINE then T.NO_DEADLINE else clock.now + ticks
  }

  /** Whether `register_wait` accepts the request: it aborts on a delay that is zero or not a whole
      number of ticks, and on a phase that can no longer happen in this timestep. */
  predicate Accepted(clock: Clock, request: Request) {
    match request
    case OnEdge(_, _) => true
    case After(femtoseconds) => DelayAccepted(clock, femtoseconds)
    case OnPhase(phase) => clock.phase != InPhase(P.ReadOnly) || phase.NextTimeStep?
  }

  function Note(c: Core, i: nat, request: Request): Core {
    if i >= |c.slots| then c
    else
      var was := c.slots[i].progress;
      var progress := if request.After? then was.(time := true) else was.(simulator := true);
      c.(slots := c.slots[i := c.slots[i].(progress := progress)], clock := c.clock.(registered := true))
  }

  function Enter(c: Core, request: Request, r: Reg): Core {
    match request
    case OnEdge(signal, edge) => c.(edges := E.Register(c.edges, r, signal, edge))
    case After(femtoseconds) =>
      c.(timers := T.AddTimer(c.timers, Waits(c.slots), DeadlineAfter(c.clock, femtoseconds), r))
    case OnPhase(phase) => c.(phases := P.Register(c.phases, r, phase))
  }

  /** `register_wait`; `None` when it aborts. */
  function RegisterWait(c: Core, request: Request, r: Reg): Option<Core> {
    if Accepted(c.clock, request) then Some(Enter(Note(c, r.slot, request), request, r)) else None
  }

  /** `park` and `park_edge` */
  function Park(c: Core, i: nat, request: Request): Option<Core> {
    var c := BeginWait(c, i, RequestReason(request));
    RegisterWait(c, request, Reg(i, c.lastGen, None))
  }

  function RegisterFirst(c: Core, requests: seq<Request>, i: nat, k: nat): Option<Core>
    decreases |requests| - k
  {
    if k >= |requests| then Some(c)
    else
      match RegisterWait(c, requests[k], Reg(i, c.lastGen, Some(k)))
      case None => None
      case Some(d) => RegisterFirst(d, requests, i, k + 1)
  }

  function SetWinner(c: Core, i: nat, winner: Option<nat>): Core {
    if i >= |c.slots| then c else c.(slots := c.slots[i := c.slots[i].(winner := winner)])
  }

  /** `park_first` */
  function ParkFirst(c: Core, i: nat, requests: seq<Request>): Option<Core> {
    RegisterFirst(SetWinner(BeginWait(c, i, FirstWait), i, None), requests, i, 0)
  }

  /** `resume_registration` */
  function ResumeReg(c: Core, r: Reg): (d: Core)
    ensures Steady(c, d) && d.timers == c.timers
  {
    if !ValidReg(c, r) then c
    else
      var c := EndWait(c, r.slot);
      MakeReady(if r.sibling.None? then c else SetWinner(c, r.slot, r.sibling), r.slot)
  }

  function ResumeAll(c: Core, rs: seq<Reg>): (d: Core)
    ensures Steady(c, d) && d.timers == c.timers
    decreases |rs|
  {
    if rs == [] then c else ResumeAll(ResumeReg(c, rs[0]), rs[1..])
  }

  function ResumeEntries(c: Core, rs: seq<Reg>): (d: Core)
    ensures Steady(c, d)
    decreases |rs|
  {
    if rs == [] then c
    else
      var c := ResumeReg(c, rs[0]);
      ResumeEntries(c.(edges := E.Consume(c.edges)), rs[1..])
  }

  /** `resume_edge_queue` */
  function ResumeEdgeQueue(c: Core, k: nat): (d: Core)
    ensures Steady(c, d)
  {
    if k >= |c.edges.queues| then c
    else
      var c := ResumeEntries(c, c.edges.queues[k]);
      c.(edges := E.ClearQueue(c.edges, k))
  }

  /** Whether resuming these registrations wakes anybody. */
  predicate Wakes(c: Core, rs: seq<Reg>) {
    WakeOrder(rs, Waits(c.slots)) != []
  }

  /** The two queues that `resume_edge` visits, and whether either woke somebody. */
  function DeliverEdge(c: Core, signal: nat, edge: E.EdgeKind): (r: (Core, bool))
    ensures Steady(c, r.0)
  {
    var k, any := E.QueueIndex(signal, edge), E.QueueIndex(signal, E.Any);
    var c := c.(clock := c.clock.(phase := Evaluation));
    var specific := ResumeEdgeQueue(c, k);
    if edge.Any? then (specific, Wakes(c, E.QueueAt(c.edges, k)))
    else (ResumeEdgeQueue(specific, any),
          Wakes(c, E.QueueAt(c.edges, k)) || Wakes(specific, E.QueueAt(specific.edges, any)))
  }

  /** The loop of `advance_time`, and whether it took a timer. */
  function FireTimers(c: Core): (r: (Core, bool))
    ensures Steady(c, r.0)
    decreases T.Size(c.timers)
  {
    var timers := T.Discard(c.timers, Waits(c.slots));
    if timers.next.None? || timers.next.value.deadline > c.clock.now then (c.(timers := timers), false)
    else (FireTimers(ResumeReg(c.(timers := timers.(next := None)), timers.next.value.reg)).0, true)
  }

  function ScheduleChanged(c: Core): Core {
    c.(timers := c.timers.(changed := true))
  }

  /** `advance_time` up to the drain, and whether it woke somebody. */
  function DeliverTime(c: Core, time: nat): (r: (Core, bool))
    ensures Steady(c, r.0)
  {
    var c := c.(clock := c.clock.(phase := Evaluation, now := time));
    if c.timers.next.None? || c.timers.next.value.deadline > time then (c, false)
    else
      var (d, popped) := FireTimers(c);
      (if popped then ScheduleChanged(d) else d, popped)
  }

  /** `resume_phase` up to the drain, and whether it woke somebody. */
  function DeliverPhase(c: Core, phase: P.Phase): (r: (Core, bool))
    ensures Steady(c, r.0)
  {
    var c := c.(clock := c.clock.(phase := InPhase(phase)));
    var k := P.PhaseIndex(phase);
    if k >= |c.phases.queues| then (c, false)
    else
      var rs := c.phases.queues[k];
      var d := ResumeAll(c, rs);
      (d.(phases := P.EraseFront(d.phases, phase, |rs|)), Wakes(c, rs))
  }

  // ---------------------------------------------------------------------------------------------
  // The invariant
  // ---------------------------------------------------------------------------------------------

  ghost predicate SameLife(c: Core, d: Core) {
    |d.slots| == |c.slots| && forall i :: 0 <= i < |c.slots| ==> d.slots[i].life == c.slots[i].life
  }

  /** What deliveries leave alone. */
  ghost predicate Steady(c: Core, d: Core) {
    && SameLife(c, d) && d.queue.cursor == c.queue.cursor && d.lastGen == c.lastGen
    && d.clock.precision == c.clock.precision
  }

  ghost predicate SlotOk(x: Slot, lastGen: nat) {
    && (x.waiting ==> x.Alive()) && (x.ready ==> x.Alive() && !x.waiting)
    && x.gen <= lastGen && (!x.waiting ==> x.progress == INTERNAL)
  }

  ghost predicate SlotsOk(slots: seq<Slot>, lastGen: nat) {
    forall i :: 0 <= i < |slots| ==> SlotOk(slots[i], lastGen)
  }

  ghost predicate TableInv(c: Core) {
    && E.EdgeInv(c.edges, Waits(c.slots), c.lastGen)
    && P.PhaseInv(c.phases, Waits(c.slots), c.lastGen)
    && T.TimerInv(c.timers, |c.slots|, c.lastGen)
    && c.clock.now <= T.NO_DEADLINE
  }

  function ReadyCount(slots: seq<Slot>): nat {
    if slots == [] then 0
    else ReadyCount(slots[..|slots| - 1]) + if slots[|slots| - 1].ready then 1 else 0
  }

  /** The counter counts the ready slots, and each of them has an entry that has not been consumed. */
  ghost predicate QueueInv(slots: seq<Slot>, q: ReadyQueue) {
    && q.cursor <= |q.entries|
    && q.live == ReadyCount(slots)
    && forall i :: 0 <= i < |slots| && slots[i].ready ==> i in q.entries[q.cursor..]
  }

  ghost predicate WaitInv(c: Core) {
    SlotsOk(c.slots, c.lastGen) && TableInv(c) && QueueInv(c.slots, c.queue)
  }

  /** No registration issued before is valid, or alive, now unless it was then. */
  ghost predicate NoneRevived(c: Core, d: Core) {
    && c.lastGen <= d.lastGen && |c.slots| <= |d.slots|
    && (forall i :: 0 <= i < |d.slots| && d.slots[i].Alive() && 0 < d.slots[i].gen <= c.lastGen ==>
          && i < |c.slots| && c.slots[i].Alive() && c.slots[i].gen == d.slots[i].gen
          && (d.slots[i].waiting ==> c.slots[i].waiting))
  }

  ghost function Soonest(c: Core): nat {
    T.Earliest(T.All(c.timers), Waits(c.slots))
  }

  /** Unless the schedule is marked changed, the earliest live deadline has not moved forward. */
  ghost predicate DeadlineKept(c: Core, d: Core) {
    && (c.timers.changed ==> d.timers.changed)
    && (!d.timers.changed ==> Soonest(d) >= Soonest(c))
  }

  /** How the state may move between two readings by the simulator side. */
  ghost predicate Moves(c: Core, d: Core) {
    NoneRevived(c, d) && E.Announced(c.edges.interest, d.edges.interest) && DeadlineKept(c, d)
  }

  /** Slot i waits for a timer of the list. */
  ghost predicate TimerFor(ts: seq<T.Timer>, tokens: Tokens, i: nat) {
    exists t :: t in ts && t.reg.slot == i && Live(tokens, t.reg)
  }

  ghost predicate HasTimer(c: Core, i: nat) {
    TimerFor(T.All(c.timers), Waits(c.slots), i)
  }

  /** The two flags that summarise a wait are exact. */
  ghost predicate FlagOk(c: Core, i: nat)
    requires i < |c.slots|
  {
    && (c.slots[i].progress.time <==> HasTimer(c, i))
    && (c.slots[i].progress.simulator <==> HasRegistrations(c, i))
  }

  /** What is queued for the wait of slot i under generation g is what was queued for it, in the same order. */
  ghost predicate SameHeld(c: Core, d: Core, i: nat, g: nat) {
    && (forall k: nat :: HeldOf(E.QueueAt(d.edges, k), i, g) == HeldOf(E.QueueAt(c.edges, k), i, g))
    && (forall k: nat :: HeldOf(P.QueueAt(d.phases, k), i, g) == HeldOf(P.QueueAt(c.phases, k), i, g))
    && T.HeldTimers(T.All(d.timers), i, g) == T.HeldTimers(T.All(c.timers), i, g)
  }

  /** The wait of slot i, and everything registered for it, is what it was. */
  ghost predicate QuietAt(c: Core, d: Core, i: nat)
    requires i < |d.slots|
  {
    && i < |c.slots| && c.slots[i].Token() == d.slots[i].Token() && c.slots[i].progress == d.slots[i].progress
    && (HasTimer(c, i) <==> HasTimer(d, i)) && (HasRegistrations(c, i) <==> HasRegistrations(d, i))
    && SameHeld(c, d, i, d.slots[i].gen)
  }

  ghost predicate SettledAt(c: Core, d: Core, i: nat)
    requires i < |d.slots|
  {
    var token := d.slots[i].Token();
    token.Some? ==> QuietAt(c, d, i) || (token.value > c.lastGen && FlagOk(d, i))
  }

  /** Every wait has not changed, or is new and has exact flags. */
  ghost predicate Settles(c: Core, d: Core) {
    forall i {:trigger SettledAt(c, d, i)} :: 0 <= i < |d.slots| ==> SettledAt(c, d, i)
  }

  /** How any operation may change the state. */
  ghost predicate Evolves(c: Core, d: Core) {
    Moves(c, d) && Settles(c, d)
  }

  /** As `Evolves`, but nothing is said about the flags of slot j, whose wait is being set up. */
  ghost predicate EvolvesBut(c: Core, d: Core, j: nat) {
    Moves(c, d) && forall i {:trigger SettledAt(c, d, i)} :: 0 <= i < |d.slots| && i != j ==> SettledAt(c, d, i)
  }

  lemma EvolvesRefl(c: Core)
    ensures Evolves(c, c)
  {
    forall i | 0 <= i < |c.slots|
      ensures SettledAt(c, c, i)
    {
    }
  }

  lemma MovesTransitive(a: Core, b: Core, c: Core)
    requires Moves(a, b) && Moves(b, c)
    ensures Moves(a, c)
  {
    E.AnnouncedTransitive(a.edges.interest, b.edges.interest, c.edges.interest);
    forall i | 0 <= i < |c.slots| && c.slots[i].Alive() && 0 < c.slots[i].gen <= a.lastGen
      ensures i < |a.slots| && a.slots[i].Alive() && a.slots[i].gen == c.slots[i].gen
      ensures c.slots[i].waiting ==> a.slots[i].waiting
    {
      assert b.slots[i].Alive() && b.slots[i].gen == c.slots[i].gen;
    }
  }

  lemma MovesGrows(a: Core, b: Core)
    requires Moves(a, b)
    ensures a.lastGen <= b.lastGen
  {
  }

  lemma SettledTransitive(a: Core, b: Core, c: Core, i: nat)
    requires i < |c.slots| && SettledAt(b, c, i) && (i < |b.slots| ==> SettledAt(a, b, i)) && a.lastGen <= b.lastGen
    ensures SettledAt(a, c, i)
  {
  }

  lemma EvolvesTransitive(a: Core, b: Core, c: Core)
    requires Evolves(a, b) && Evolves(b, c)
    ensures Evolves(a, c)
  {
    hide Moves, SettledAt;
    MovesTransitive(a, b, c);
    MovesGrows(a, b);
    forall i | 0 <= i < |c.slots|
      ensures SettledAt(a, c, i)
    {
      SettledTransitive(a, b, c, i);
    }
  }

  lemma EvolvesButTransitive(a: Core, b: Core, c: Core, j: nat)
    requires EvolvesBut(a, b, j) && EvolvesBut(b, c, j)
    ensures EvolvesBut(a, c, j)
  {
    hide Moves, SettledAt;
    MovesTransitive(a, b, c);
    MovesGrows(a, b);
    forall i | 0 <= i < |c.slots| && i != j
      ensures SettledAt(a, c, i)
    {
      SettledTransitive(a, b, c, i);
    }
  }

  lemma EvolvesIsBut(c: Core, d: Core, j: nat)
    requires Evolves(c, d)
    ensures EvolvesBut(c, d, j)
  {
    hide Moves, SettledAt;
  }

  /** Once the flags of the remaining slot are exact, nothing is left open. */
  lemma ButIsEvolves(c: Core, d: Core, j: nat)
    requires EvolvesBut(c, d, j)
    requires j < |d.slots| && d.slots[j].Token().Some? ==> FlagOk(d, j) && d.slots[j].Token().value > c.lastGen
    ensures Evolves(c, d)
  {
    hide Moves, FlagOk;
    assert j < |d.slots| ==> SettledAt(c, d, j);
  }

  lemma TimerForLocal(ts: seq<T.Timer>, before: Tokens, after: Tokens, i: nat)
    requires i < |before| && i < |after| && before[i] == after[i]
    ensures TimerFor(ts, before, i) <==> TimerFor(ts, after, i)
  {
  }

  /** A slot whose wait and registrations are untouched. */
  lemma QuietSlot(c: Core, d: Core, i: nat)
    requires i < |c.slots| && i < |d.slots| && c.slots[i].Token() == d.slots[i].Token()
    requires c.slots[i].progress == d.slots[i].progress && T.All(c.timers) == T.All(d.timers)
    requires HasRegistrations(c, i) <==> HasRegistrations(d, i)
    requires d.slots[i].Token().Some? ==> SameHeld(c, d, i, d.slots[i].gen)
    ensures SettledAt(c, d, i)
  {
    TimerForLocal(T.All(c.timers), Waits(c.slots), Waits(d.slots), i);
  }

  ghost predicate SameProgress(c: Core, d: Core) {
    && |c.slots| == |d.slots|
    && forall i :: 0 <= i < |d.slots| && d.slots[i].Token().Some? ==> c.slots[i].progress == d.slots[i].progress
  }

  lemma EvolvesTables(c: Core, d: Core)
    requires NoneRevived(c, d) && d.edges == c.edges && d.phases == c.phases && d.timers == c.timers
    requires Waits(c.slots) == Waits(d.slots) && SameProgress(c, d)
    ensures Evolves(c, d)
  {
    forall i | 0 <= i < |d.slots|
      ensures SettledAt(c, d, i)
    {
      assert Waits(c.slots)[i] == Waits(d.slots)[i];
      if d.slots[i].Token().Some? {
        QuietSlot(c, d, i);
      }
    }
  }

  lemma SettlesSlots(c: Core, d: Core)
    requires d.slots == c.slots && T.All(c.timers) == T.All(d.timers)
    requires d.edges.waits == c.edges.waits && d.phases.waits == c.phases.waits
    requires forall i :: 0 <= i < |d.slots| && d.slots[i].Token().Some? ==> SameHeld(c, d, i, d.slots[i].gen)
    ensures Settles(c, d)
  {
    forall i | 0 <= i < |d.slots|
      ensures SettledAt(c, d, i)
    {
      QuietSlot(c, d, i);
    }
  }

  lemma {:induction false} ReadyCountUpdate(slots: seq<Slot>, i: nat, x: Slot)
    requires i < |slots|
    ensures ReadyCount(slots[i := x])
         == ReadyCount(slots) + (if x.ready then 1 else 0) - (if slots[i].ready then 1 else 0)
  {
    var n := |slots| - 1;
    if i < n {
      ReadyCountUpdate(slots[..n], i, x);
      assert slots[i := x][..n] == slots[..n][i := x];
    } else {
      assert slots[i := x][..n] == slots[..n];
    }
  }

  lemma ReadyCountPush(slots: seq<Slot>, x: Slot)
    ensures ReadyCount(slots + [x]) == ReadyCount(slots) + if x.ready then 1 else 0
  {
    assert (slots + [x])[..|slots|] == slots;
  }

  lemma {:induction false} ReadyCountPositive(slots: seq<Slot>, i: nat)
    requires i < |slots| && slots[i].ready
    ensures ReadyCount(slots) > 0
  {
    if i < |slots| - 1 {
      ReadyCountPositive(slots[..|slots| - 1], i);
    }
  }

  lemma {:induction false} ReadyCountTwo(slots: seq<Slot>, i: nat, j: nat)
    requires i < |slots| && j < |slots| && i != j && slots[i].ready && slots[j].ready
    ensures ReadyCount(slots) >= 2
  {
    var n := |slots| - 1;
    if i < n && j < n {
      ReadyCountTwo(slots[..n], i, j);
    } else {
      ReadyCountPositive(slots[..n], if i < n then i else j);
    }
  }

  /** A registration is valid just when it is live under the tokens of the slots. */
  lemma ValidIsLive(c: Core, r: Reg)
    ensures ValidReg(c, r) <==> Live(Waits(c.slots), r)
  {
  }

  // ---------------------------------------------------------------------------------------------
  // Ending and starting a wait
  // ---------------------------------------------------------------------------------------------

  /** Whether or not `end_wait` returns early, its effect on the tables is the full release. */
  lemma EndWaitIsRelease(c: Core, i: nat)
    requires WaitInv(c) && i < |c.slots| && c.slots[i].waiting
    ensures EndWait(c, i) == c.(slots := c.slots[i := c.slots[i].(waiting := false, progress := INTERNAL)],
                                edges := E.Release(c.edges, i), phases := P.Release(c.phases, i))
  {
    if !HasRegistrations(c, i) {
      E.ReleaseNothing(c.edges, Waits(c.slots), c.lastGen, i);
      P.PhaseReleaseNothing(c.phases, i);
    }
  }

  lemma SlotIsOk(c: Core, i: nat)
    requires WaitInv(c) && i < |c.slots|
    ensures SlotOk(c.slots[i], c.lastGen)
  {
  }

  lemma EndWaitTables(c: Core, i: nat)
    requires WaitInv(c) && i < |c.slots| && c.slots[i].waiting
    ensures TableInv(EndWait(c, i)) && E.Announced(c.edges.interest, EndWait(c, i).edges.interest)
    ensures Waits(EndWait(c, i).slots) == Waits(c.slots)[i := None]
    ensures Soonest(EndWait(c, i)) >= Soonest(c)
  {
    EndWaitIsRelease(c, i);
    assert SlotOk(c.slots[i], c.lastGen);
    assert Waits(EndWait(c, i).slots) == Waits(c.slots)[i := None];
    E.ReleaseKeeps(c.edges, Waits(c.slots), c.lastGen, i);
    P.PhaseReleaseKeeps(c.phases, Waits(c.slots), c.lastGen, i);
    T.EarliestAfterEnd(T.All(c.timers), Waits(c.slots), Waits(c.slots)[i := None]);
  }

  /** Releasing a slot leaves the counts of every other slot alone. */
  lemma ReleaseOthers(c: Core, i: nat, k: nat)
    requires WaitInv(c) && i < |c.slots| && k < |c.slots| && k != i
    ensures E.Release(c.edges, i).waits[k] == c.edges.waits[k] && |E.Release(c.edges, i).waits| == |c.edges.waits|
    ensures P.Release(c.phases, i).waits[k] == c.phases.waits[k] && |P.Release(c.phases, i).waits| == |c.phases.waits|
  {
    E.RemoveInterestsExact(c.edges, Waits(c.slots), c.lastGen, i);
    P.ReleaseIsLowered(c.phases, i);
  }

  lemma EndWaitSettles(c: Core, i: nat)
    requires WaitInv(c) && i < |c.slots|
    ensures Settles(c, EndWait(c, i))
  {
    hide WaitInv, FlagOk, QuietAt, E.Release, P.Release;
    var d := EndWait(c, i);
    forall k | 0 <= k < |d.slots|
      ensures SettledAt(c, d, k)
    {
      if c.slots[i].waiting {
        EndWaitIsRelease(c, i);
        if k != i {
          ReleaseOthers(c, i, k);
          ReleaseQueues(c, i);
          QuietSlot(c, d, k);
        }
      } else {
        QuietSlot(c, d, k);
      }
    }
  }

  lemma EndWaitMoves(c: Core, i: nat)
    requires WaitInv(c) && i < |c.slots|
    ensures var d := EndWait(c, i);
      && WaitInv(d) && Moves(c, d)
      && d.slots == c.slots[i := c.slots[i].(waiting := false, progress := INTERNAL)]
      && d == c.(slots := d.slots, edges := d.edges, phases := d.phases)
      && Waits(d.slots) == Waits(c.slots)[i := None]
  {
    SlotIsOk(c, i);
    if c.slots[i].waiting {
      EndWaitTables(c, i);
      EndWaitIsRelease(c, i);
      ReadyCountUpdate(c.slots, i, c.slots[i].(waiting := false, progress := INTERNAL));
    } else {
      assert Waits(c.slots)[i := None] == Waits(c.slots);
    }
  }

  lemma EndWaitKeeps(c: Core, i: nat)
    requires WaitInv(c) && i < |c.slots|
    ensures var d := EndWait(c, i);
      && WaitInv(d) && Evolves(c, d)
      && d.slots == c.slots[i := c.slots[i].(waiting := false, progress := INTERNAL)]
      && d == c.(slots := d.slots, edges := d.edges, phases := d.phases)
      && Waits(d.slots) == Waits(c.slots)[i := None]
  {
    hide WaitInv, Moves, Settles;
    EndWaitMoves(c, i);
    EndWaitSettles(c, i);
  }

  lemma ClearReadyKeeps(c: Core, i: nat)
    requires WaitInv(c) && i < |c.slots|
    ensures var d := ClearReady(c, i);
      && WaitInv(d) && Evolves(c, d)
      && d.slots == c.slots[i := c.slots[i].(ready := false)]
      && d == c.(slots := d.slots, queue := c.queue.(live := d.queue.live))
      && Waits(d.slots) == Waits(c.slots)
  {
    var d := ClearReady(c, i);
    assert SlotOk(c.slots[i], c.lastGen);
    ReadyCountUpdate(c.slots, i, c.slots[i].(ready := false));
    assert Waits(d.slots) == Waits(c.slots);
    EvolvesTables(c, d);
  }

  lemma MakeReadyKeeps(c: Core, i: nat)
    requires WaitInv(c) && i < |c.slots| && c.slots[i].Alive() && !c.slots[i].waiting
    ensures var d := MakeReady(c, i);
      && WaitInv(d) && Evolves(c, d)
      && d.slots == c.slots[i := c.slots[i].(ready := true)]
      && d.queue.entries == c.queue.entries + (if c.slots[i].ready then [] else [i])
      && d == c.(slots := d.slots, queue := c.queue.(live := d.queue.live, entries := d.queue.entries))
      && Waits(d.slots) == Waits(c.slots)
  {
    hide E.EdgeInv, P.PhaseInv, Evolves;
    var d := MakeReady(c, i);
    assert SlotOk(c.slots[i], c.lastGen);
    ReadyCountUpdate(c.slots, i, c.slots[i].(ready := true));
    assert Waits(d.slots) == Waits(c.slots);
    EvolvesTables(c, d);
    if !c.slots[i].ready {
      assert d.queue.entries[d.queue.cursor..] == c.queue.entries[c.queue.cursor..] + [i];
    }
  }

  lemma EnterTables(c: Core, i: nat, x: Slot)
    requires TableInv(c) && i < |c.slots| && c.slots[i].Token().None?
    requires x.Token() == Some(c.lastGen + 1)
    ensures TableInv(c.(slots := c.slots[i := x], lastGen := c.lastGen + 1))
    ensures Soonest(c.(slots := c.slots[i := x], lastGen := c.lastGen + 1)) == Soonest(c)
  {
    var d := c.(slots := c.slots[i := x], lastGen := c.lastGen + 1);
    assert Waits(d.slots) == Waits(c.slots)[i := Some(c.lastGen + 1)];
    E.BeginKeeps(c.edges, Waits(c.slots), c.lastGen, i);
    P.PhaseBeginKeeps(c.phases, Waits(c.slots), c.lastGen, i);
    T.EarliestAfterBegin(T.All(c.timers), Waits(c.slots), i, c.lastGen);
  }

  lemma EnterKeeps(c: Core, i: nat, x: Slot)
    requires WaitInv(c) && i < |c.slots| && c.slots[i].Alive() && !c.slots[i].waiting && !c.slots[i].ready
    requires x == c.slots[i].(waiting := true, gen := c.lastGen + 1, progress := x.progress)
    ensures var d := c.(slots := c.slots[i := x], lastGen := c.lastGen + 1); WaitInv(d) && Moves(c, d)
  {
    var d := c.(slots := c.slots[i := x], lastGen := c.lastGen + 1);
    EnterTables(c, i, x);
    ReadyCountUpdate(c.slots, i, x);
    assert SlotOk(c.slots[i], c.lastGen);
    assert QueueInv(d.slots, d.queue);
  }

  /** A slot that does not wait has nothing registered. */
  lemma IdleIsFree(c: Core, i: nat)
    requires WaitInv(c) && i < |c.slots| && c.slots[i].Token().None?
    ensures !HasRegistrations(c, i)
  {
    assert Waits(c.slots)[i].None?;
    assert c.edges.waits[i] == E.Held(c.edges, Waits(c.slots), i, false);
    assert forall p :: 0 <= p < P.PHASES ==> c.phases.waits[i][p] == P.HeldPhase(c.phases, Waits(c.slots), i, p);
    assert c.phases.waits[i] == [0, 0, 0];
  }

  /** A wait starts with nothing registered for it. */
  lemma EnterIsFree(c: Core, i: nat, x: Slot)
    requires WaitInv(c) && i < |c.slots| && c.slots[i].Token().None? && x.Token() == Some(c.lastGen + 1)
    ensures var d := c.(slots := c.slots[i := x], lastGen := c.lastGen + 1);
      && !HasTimer(d, i) && !HasRegistrations(d, i)
      && forall k :: 0 <= k < |d.slots| && k != i ==> SettledAt(c, d, k)
  {
    var d := c.(slots := c.slots[i := x], lastGen := c.lastGen + 1);
    IdleIsFree(c, i);
    forall t | t in T.All(d.timers) && t.reg.slot == i
      ensures !Live(Waits(d.slots), t.reg)
    {
    }
    forall k | 0 <= k < |d.slots| && k != i
      ensures SettledAt(c, d, k)
    {
      QuietSlot(c, d, k);
    }
  }

  lemma EnterWaitKeeps(c: Core, i: nat, reason: WaitReason)
    requires WaitInv(c) && i < |c.slots| && c.slots[i].Alive() && !c.slots[i].waiting
    ensures var d := EnterWait(c, i, reason);
      && WaitInv(d) && EvolvesBut(c, d, i)
      && d.slots == c.slots[i := c.slots[i].(waiting := true, ready := false, gen := c.lastGen + 1,
                                             progress := ReasonProgress(reason))]
      && d == c.(slots := d.slots, lastGen := c.lastGen + 1, queue := c.queue.(live := d.queue.live))
      && !HasTimer(d, i) && !HasRegistrations(d, i)
  {
    hide WaitInv, Evolves, Moves, SettledAt, HasTimer, HasRegistrations;
    var b := ClearReady(c, i);
    ClearReadyKeeps(c, i);
    var x := b.slots[i].(waiting := true, progress := ReasonProgress(reason), gen := b.lastGen + 1);
    EnterKeeps(b, i, x);
    EnterIsFree(b, i, x);
    EvolvesIsBut(c, b, i);
    EvolvesButTransitive(c, b, EnterWait(c, i, reason), i);
  }

  lemma BeginWaitShape(c: Core, i: nat, reason: WaitReason)
    requires i < |c.slots| && SlotOk(c.slots[i], c.lastGen)
    ensures var d := BeginWait(c, i, reason);
      && d.slots == c.slots[i := c.slots[i].(waiting := true, ready := false, gen := c.lastGen + 1,
                                             progress := ReasonProgress(reason))]
      && d == c.(slots := d.slots, lastGen := c.lastGen + 1, edges := d.edges, phases := d.phases,
                 queue := c.queue.(live := d.queue.live))
  {
    var b := EndWait(c, i);
    assert b.slots == c.slots[i := c.slots[i].(waiting := false, progress := INTERNAL)];
  }

  lemma BeginWaitKeeps(c: Core, i: nat, reason: WaitReason)
    requires WaitInv(c) && i < |c.slots| && c.slots[i].Alive()
    ensures var d := BeginWait(c, i, reason);
      && WaitInv(d) && EvolvesBut(c, d, i) && ValidReg(d, Reg(i, c.lastGen + 1, None))
      && !HasTimer(d, i) && !HasRegistrations(d, i)
  {
    hide WaitInv, Evolves, EvolvesBut, HasTimer, HasRegistrations;
    var b := EndWait(c, i);
    EndWaitKeeps(c, i);
    EnterWaitKeeps(b, i, reason);
    EvolvesIsBut(c, b, i);
    EvolvesButTransitive(c, b, BeginWait(c, i, reason), i);
  }

  /** A wait that only other coroutines can end has exact flags from the start. */
  lemma BeginInternal(c: Core, i: nat, reason: WaitReason)
    requires WaitInv(c) && i < |c.slots| && c.slots[i].Alive() && ReasonProgress(reason) == INTERNAL
    ensures Evolves(c, BeginWait(c, i, reason))
  {
    hide WaitInv, Evolves, EvolvesBut, HasTimer, HasRegistrations;
    SlotIsOk(c, i);
    BeginWaitShape(c, i, reason);
    BeginWaitKeeps(c, i, reason);
    ButIsEvolves(c, BeginWait(c, i, reason), i);
  }

  // ---------------------------------------------------------------------------------------------
  // Registering
  // ---------------------------------------------------------------------------------------------

  lemma NoteKeeps(c: Core, i: nat, request: Request)
    requires WaitInv(c) && i < |c.slots| && c.slots[i].waiting
    ensures var d := Note(c, i, request);
      && WaitInv(d) && Moves(c, d) && Waits(d.slots) == Waits(c.slots)
  {
    var d := Note(c, i, request);
    assert SlotOk(c.slots[i], c.lastGen);
    ReadyCountUpdate(c.slots, i, d.slots[i]);
    assert Waits(d.slots) == Waits(c.slots);
  }

  lemma EnterRequestKeeps(c: Core, request: Request, r: Reg)
    requires WaitInv(c) && ValidReg(c, r) && Accepted(c.clock, request)
    ensures WaitInv(Enter(c, request, r)) && Moves(c, Enter(c, request, r))
  {
    assert SlotOk(c.slots[r.slot], c.lastGen);
    match request
    case OnEdge(signal, edge) => E.RegisterKeeps(c.edges, Waits(c.slots), c.lastGen, r, signal, edge);
    case After(femtoseconds) =>
      T.AddTimerExact(c.timers, Waits(c.slots), c.lastGen, DeadlineAfter(c.clock, femtoseconds), r);
    case OnPhase(phase) => P.PhaseRegisterKeeps(c.phases, Waits(c.slots), c.lastGen, r, phase);
  }

  /** Who has a timer after one more has been armed: those who had one, and the new one's slot. */
  lemma TimerAdded(c: Core, femtoseconds: nat, r: Reg, i: nat)
    requires WaitInv(c) && ValidReg(c, r) && i < |c.slots|
    ensures HasTimer(Enter(c, After(femtoseconds), r), i) <==> HasTimer(c, i) || i == r.slot
  {
    var deadline := DeadlineAfter(c.clock, femtoseconds);
    var d := Enter(c, After(femtoseconds), r);
    assert SlotOk(c.slots[r.slot], c.lastGen);
    T.AddTimerExact(c.timers, Waits(c.slots), c.lastGen, deadline, r);
    T.DropDeadExact(T.All(c.timers), Waits(c.slots));
    assert T.Timer(deadline, c.timers.nextOrder, r) in T.All(d.timers);
  }

  /** Who has edge or phase registrations after one more has been made. */
  lemma RegistrationAdded(c: Core, request: Request, r: Reg, i: nat)
    requires WaitInv(c) && ValidReg(c, r) && i < |c.slots| && !request.After?
    ensures HasRegistrations(Enter(c, request, r), i) <==> HasRegistrations(c, i) || i == r.slot
  {
    assert SlotOk(c.slots[r.slot], c.lastGen);
    var tokens := Waits(c.slots);
    assert c.edges.waits[r.slot] == E.Held(c.edges, tokens, r.slot, false);
    match request
    case OnEdge(signal, edge) => E.RegisterShape(c.edges, tokens, c.lastGen, r, signal, edge);
    case OnPhase(phase) =>
      var p := P.PhaseIndex(phase);
      assert c.phases.waits[r.slot][p] == P.HeldPhase(c.phases, tokens, r.slot, p);
      assert Enter(c, request, r).phases.waits[r.slot][p] > 0 && [0, 0, 0][p] == 0;
  }

  /** What registering does to the sources that can end the wait of slot i. */
  lemma EnterSources(c: Core, request: Request, r: Reg, i: nat)
    requires WaitInv(c) && ValidReg(c, r) && i < |c.slots|
    ensures var d := Enter(c, request, r);
      && (HasTimer(d, i) <==> HasTimer(c, i) || (request.After? && i == r.slot))
      && (HasRegistrations(d, i) <==> HasRegistrations(c, i) || (!request.After? && i == r.slot))
  {
    if request.After? {
      TimerAdded(c, request.femtoseconds, r, i);
    } else {
      RegistrationAdded(c, request, r, i);
    }
  }

  /** The flag that the request is not about is exact. */
  ghost predicate OtherFlagOk(c: Core, request: Request, i: nat)
    requires i < |c.slots|
  {
    if request.After? then c.slots[i].progress.simulator <==> HasRegistrations(c, i)
    else c.slots[i].progress.time <==> HasTimer(c, i)
  }

  /** The queue that a request goes to, among those of edges and phases. */
  predicate AsksEdge(request: Request, k: nat) {
    request.OnEdge? && k == E.QueueIndex(request.signal, request.edge)
  }

  predicate AsksPhase(request: Request, k: nat) {
    request.OnPhase? && k == P.PhaseIndex(request.phase)
  }

  ghost predicate EdgesAdded(c: Core, d: Core, request: Request, i: nat, g: nat, added: seq<Reg>) {
    forall k: nat :: HeldOf(E.QueueAt(d.edges, k), i, g)
      == HeldOf(E.QueueAt(c.edges, k), i, g) + if AsksEdge(request, k) then added else []
  }

  ghost predicate PhasesAdded(c: Core, d: Core, request: Request, i: nat, g: nat, added: seq<Reg>) {
    forall k: nat :: HeldOf(P.QueueAt(d.phases, k), i, g)
      == HeldOf(P.QueueAt(c.phases, k), i, g) + if AsksPhase(request, k) then added else []
  }

  lemma EnterEdgeHeld(c: Core, signal: nat, edge: E.EdgeKind, r: Reg, i: nat, g: nat)
    requires WaitInv(c) && ValidReg(c, r)
    ensures var request := OnEdge(signal, edge);
      EdgesAdded(c, Enter(c, request, r), request, i, g, if Counts(HeldBy(i, g), r) then [r] else [])
  {
    hide HeldOf;
    var k := E.QueueIndex(signal, edge);
    E.RegisterShape(c.edges, Waits(c.slots), c.lastGen, r, signal, edge);
    HeldPush(E.QueueAt(c.edges, k), r, i, g);
  }

  lemma EnterPhaseHeld(c: Core, phase: P.Phase, r: Reg, i: nat, g: nat)
    requires WaitInv(c) && ValidReg(c, r)
    ensures var request := OnPhase(phase);
      PhasesAdded(c, Enter(c, request, r), request, i, g, if Counts(HeldBy(i, g), r) then [r] else [])
  {
    hide HeldOf, E.EdgeInv;
    HeldPush(P.QueueAt(c.phases, P.PhaseIndex(phase)), r, i, g);
  }

  /** A request adds its registration at the end of its own queue and touches none of another wait. */
  lemma EnterHeld(c: Core, request: Request, r: Reg, i: nat, g: nat)
    requires WaitInv(c) && ValidReg(c, r) && i < |c.slots| && c.slots[i].Token() == Some(g)
    ensures var d := Enter(c, request, r); var added := if Counts(HeldBy(i, g), r) then [r] else [];
      && EdgesAdded(c, d, request, i, g, added) && PhasesAdded(c, d, request, i, g, added)
      && (!request.After? || added == [] ==>
            T.HeldTimers(T.All(d.timers), i, g) == T.HeldTimers(T.All(c.timers), i, g))
  {
    hide HeldOf, T.HeldTimers, E.EdgeInv, P.PhaseInv, E.Register, P.Register, T.AddTimer;
    match request
    case OnEdge(signal, edge) => EnterEdgeHeld(c, signal, edge, r, i, g);
    case OnPhase(phase) => EnterPhaseHeld(c, phase, r, i, g);
    case After(femtoseconds) =>
      if !Counts(HeldBy(i, g), r) {
        T.HeldAddTimer(c.timers, Waits(c.slots), DeadlineAfter(c.clock, femtoseconds), r, i, g);
      }
  }

  lemma RegisterWaitSettles(c: Core, request: Request, r: Reg, i: nat)
    requires WaitInv(c) && ValidReg(c, r) && Accepted(c.clock, request) && i < |c.slots|
    ensures var d := RegisterWait(c, request, r).value;
      && |d.slots| == |c.slots| && (i != r.slot ==> SettledAt(c, d, i))
      && (i == r.slot && OtherFlagOk(c, request, i) ==> FlagOk(d, i))
  {
    hide WaitInv, Moves, Enter, HasTimer, HasRegistrations;
    var n := Note(c, r.slot, request);
    NoteKeeps(c, r.slot, request);
    EnterSources(n, request, r, i);
    NoteSources(c, r.slot, request, i);
    EnterSlots(n, request, r);
    if n.slots[i].Token().Some? && i != r.slot {
      EnterHeld(n, request, r, i, n.slots[i].gen);
      NoteHeld(c, r.slot, request, i, n.slots[i].gen);
    }
  }

  lemma EnterSlots(c: Core, request: Request, r: Reg)
    ensures Enter(c, request, r).slots == c.slots
  {
  }

  lemma NoteHeld(c: Core, j: nat, request: Request, i: nat, g: nat)
    ensures SameHeld(c, Note(c, j, request), i, g)
  {
  }

  lemma NoteSources(c: Core, j: nat, request: Request, i: nat)
    requires i < |c.slots|
    ensures HasTimer(Note(c, j, request), i) <==> HasTimer(c, i)
    ensures HasRegistrations(Note(c, j, request), i) <==> HasRegistrations(c, i)
  {
    assert Waits(Note(c, j, request).slots) == Waits(c.slots);
  }

  lemma RegisterWaitKeeps(c: Core, request: Request, r: Reg)
    requires WaitInv(c) && ValidReg(c, r) && Accepted(c.clock, request)
    ensures var d := RegisterWait(c, request, r).value;
      && WaitInv(d) && EvolvesBut(c, d, r.slot) && d.lastGen == c.lastGen && d.queue == c.queue
      && d.slots == Note(c, r.slot, request).slots && SameLife(c, d)
      && Waits(d.slots) == Waits(c.slots)
  {
    hide WaitInv, Moves, SettledAt;
    var n := Note(c, r.slot, request);
    NoteKeeps(c, r.slot, request);
    EnterRequestKeeps(n, request, r);
    var d := RegisterWait(c, request, r).value;
    MovesTransitive(c, n, d);
    forall i | 0 <= i < |d.slots| && i != r.slot
      ensures SettledAt(c, d, i)
    {
      RegisterWaitSettles(c, request, r, i);
    }
  }

  lemma SetWinnerKeeps(c: Core, i: nat, winner: Option<nat>)
    requires WaitInv(c)
    ensures var d := SetWinner(c, i, winner);
      && WaitInv(d) && Evolves(c, d) && SameLife(c, d) && Waits(d.slots) == Waits(c.slots)
  {
    if i < |c.slots| {
      var d := SetWinner(c, i, winner);
      assert SlotOk(c.slots[i], c.lastGen);
      ReadyCountUpdate(c.slots, i, d.slots[i]);
      assert Waits(d.slots) == Waits(c.slots);
      EvolvesTables(c, d);
    }
  }

  lemma ParkKeeps(c: Core, i: nat, request: Request)
    requires WaitInv(c) && i < |c.slots| && c.slots[i].Alive()
    ensures var d := Park(c, i, request);
      d.Some? ==> WaitInv(d.value) && Evolves(c, d.value) && SameLife(c, d.value)
  {
    hide WaitInv, Evolves, EvolvesBut, HasTimer, HasRegistrations;
    var b := BeginWait(c, i, RequestReason(request));
    SlotIsOk(c, i);
    BeginWaitShape(c, i, RequestReason(request));
    BeginWaitKeeps(c, i, RequestReason(request));
    if Accepted(b.clock, request) {
      var r := Reg(i, b.lastGen, None);
      var d := RegisterWait(b, request, r).value;
      RegisterWaitKeeps(b, request, r);
      RegisterWaitSettles(b, request, r, i);
      EvolvesButTransitive(c, b, d, i);
      ButIsEvolves(c, d, i);
    }
  }

  lemma {:induction false} RegisterFirstKeeps(c: Core, requests: seq<Request>, i: nat, k: nat)
    requires WaitInv(c) && ValidReg(c, Reg(i, c.lastGen, None)) && FlagOk(c, i)
    ensures var d := RegisterFirst(c, requests, i, k);
      d.Some? ==> WaitInv(d.value) && EvolvesBut(c, d.value, i) && SameLife(c, d.value) && FlagOk(d.value, i)
                  && Waits(d.value.slots) == Waits(c.slots)
    decreases |requests| - k
  {
    hide WaitInv, EvolvesBut, HasTimer, HasRegistrations;
    if k < |requests| && Accepted(c.clock, requests[k]) {
      var r := Reg(i, c.lastGen, Some(k));
      RegisterWaitKeeps(c, requests[k], r);
      RegisterWaitSettles(c, requests[k], r, i);
      var d := RegisterWait(c, requests[k], r).value;
      ValidIsLive(c, r);
      ValidIsLive(d, r);
      RegisterFirstKeeps(d, requests, i, k + 1);
      if RegisterFirst(d, requests, i, k + 1).Some? {
        EvolvesButTransitive(c, d, RegisterFirst(d, requests, i, k + 1).value, i);
      }
    } else {
      EvolvesRefl(c);
      EvolvesIsBut(c, c, i);
    }
  }

  lemma SetWinnerFlags(c: Core, i: nat, winner: Option<nat>)
    requires i < |c.slots| && FlagOk(c, i)
    ensures FlagOk(SetWinner(c, i, winner), i)
  {
    assert Waits(SetWinner(c, i, winner).slots) == Waits(c.slots);
  }

  lemma ParkFirstKeeps(c: Core, i: nat, requests: seq<Request>)
    requires WaitInv(c) && i < |c.slots| && c.slots[i].Alive()
    ensures var d := ParkFirst(c, i, requests);
      d.Some? ==> WaitInv(d.value) && Evolves(c, d.value) && SameLife(c, d.value)
  {
    hide WaitInv, Evolves, EvolvesBut, HasTimer, HasRegistrations;
    var b := BeginWait(c, i, FirstWait);
    SlotIsOk(c, i);
    BeginWaitShape(c, i, FirstWait);
    BeginWaitKeeps(c, i, FirstWait);
    var w := SetWinner(b, i, None);
    SetWinnerKeeps(b, i, None);
    SetWinnerFlags(b, i, None);
    EvolvesIsBut(b, w, i);
    EvolvesButTransitive(c, b, w, i);
    RegisterFirstKeeps(w, requests, i, 0);
    if ParkFirst(c, i, requests).Some? {
      assert Waits(w.slots)[i] == Some(c.lastGen + 1);
      EvolvesButTransitive(c, w, ParkFirst(c, i, requests).value, i);
      ButIsEvolves(c, ParkFirst(c, i, requests).value, i);
    }
  }

  // ---------------------------------------------------------------------------------------------
  // Waking
  // ---------------------------------------------------------------------------------------------

  lemma WakeOne(r: Reg, tokens: Tokens)
    ensures AfterWake([r], tokens) == if Live(tokens, r) then tokens[r.slot := None] else tokens
    ensures WakeOrder([r], tokens) == if Live(tokens, r) then [r.slot] else []
  {
    assert [r][1..] == [];
  }

  lemma WakeCons(r: Reg, rs: seq<Reg>, tokens: Tokens)
    ensures AfterWake([r] + rs, tokens) == AfterWake(rs, AfterWake([r], tokens))
    ensures WakeOrder([r] + rs, tokens) == WakeOrder([r], tokens) + WakeOrder(rs, AfterWake([r], tokens))
  {
    assert ([r] + rs)[1..] == rs && [r][1..] == [];
  }

  /** The slots of `order` are ready now, and queued in that order; nothing else changed about who is. */
  ghost predicate ReadyAfter(c: Core, d: Core, order: seq<nat>) {
    && d.queue.entries == c.queue.entries + order && |c.slots| == |d.slots|
    && forall i :: 0 <= i < |d.slots| ==> (d.slots[i].ready <==> c.slots[i].ready || i in order)
  }

  /** The effect of resuming the registrations rs: exactly the slots with a live one are ready, in
      the order of the list, and nothing else about the coroutines changes. */
  ghost predicate Woken(c: Core, rs: seq<Reg>, d: Core) {
    && Waits(d.slots) == AfterWake(rs, Waits(c.slots))
    && SameLife(c, d) && ReadyAfter(c, d, WakeOrder(rs, Waits(c.slots))) && d.lastGen == c.lastGen
      && d.timers == c.timers && d.clock == c.clock
    && d.queue.cursor == c.queue.cursor
    && d.edges.queues == c.edges.queues && d.phases.queues == c.phases.queues
  }

  /** Resuming a registration wakes its slot if, and only if, the registration is live. */
  lemma ResumeRegWakes(c: Core, r: Reg)
    requires WaitInv(c)
    ensures Woken(c, [r], ResumeReg(c, r))
  {
    ValidIsLive(c, r);
    WakeOne(r, Waits(c.slots));
    if ValidReg(c, r) {
      assert SlotOk(c.slots[r.slot], c.lastGen);
      EndWaitIsRelease(c, r.slot);
      ReleaseQueues(c, r.slot);
    }
  }

  lemma ReleaseQueues(c: Core, i: nat)
    requires WaitInv(c) && i < |c.slots|
    ensures E.Release(c.edges, i).queues == c.edges.queues && P.Release(c.phases, i).queues == c.phases.queues
  {
    E.RemoveInterestsExact(c.edges, Waits(c.slots), c.lastGen, i);
    P.ReleaseIsLowered(c.phases, i);
  }

  lemma ResumeRegKeeps(c: Core, r: Reg)
    requires WaitInv(c)
    ensures WaitInv(ResumeReg(c, r)) && Evolves(c, ResumeReg(c, r))
  {
    if ValidReg(c, r) {
      var a := EndWait(c, r.slot);
      EndWaitKeeps(c, r.slot);
      var b := if r.sibling.None? then a else SetWinner(a, r.slot, r.sibling);
      assert WaitInv(b) && Evolves(c, b) by {
        SetWinnerKeeps(a, r.slot, r.sibling);
        EvolvesTransitive(c, a, b);
      }
      assert Evolves(b, ResumeReg(c, r)) && WaitInv(ResumeReg(c, r)) by {
        MakeReadyKeeps(b, r.slot);
      }
      EvolvesTransitive(c, b, ResumeReg(c, r));
    }
  }

  lemma WokenCompose(c: Core, r: Reg, m: Core, rs: seq<Reg>, d: Core)
    requires Woken(c, [r], m) && Woken(m, rs, d)
    ensures Woken(c, [r] + rs, d)
  {
    WakeCons(r, rs, Waits(c.slots));
  }

  lemma {:induction false} ResumeAllKeeps(c: Core, rs: seq<Reg>)
    requires WaitInv(c)
    ensures var d := ResumeAll(c, rs); WaitInv(d) && Evolves(c, d) && Woken(c, rs, d)
    decreases |rs|
  {
    if rs != [] {
      var m := ResumeReg(c, rs[0]);
      ResumeRegKeeps(c, rs[0]);
      ResumeRegWakes(c, rs[0]);
      ResumeAllKeeps(m, rs[1..]);
      EvolvesTransitive(c, m, ResumeAll(c, rs));
      assert rs == [rs[0]] + rs[1..];
      WokenCompose(c, rs[0], m, rs[1..], ResumeAll(c, rs));
    } else {
      assert c.queue.entries == c.queue.entries + [];
    }
  }
}
