/** What a coroutine asked for is what wakes it.

A wait has one or several triggers. As long as it lasts, the queues hold exactly what was registered for them, so that
an edge, a phase or a time wakes the coroutine just if one of its triggers names it. */
module Requests {
  import opened Registrations
  import opened WaitCore
  import opened SchedulerState
  import opened SchedulerLife
  import opened Delivery
  import opened SchedulerRun
  import opened SchedulerRuns
  import opened ResumeStack
  import opened Deadlock
  import E = EdgeWaits
  import P = PhaseWaits
  import T = TimerQueue

  /** A request at the moment it is made: a delay has become a deadline. */
  datatype Trigger = AtEdge(signal: nat, edge: E.EdgeKind) | AtTime(deadline: nat) | AtPhase(phase: P.Phase)

  /** The whole ticks of the delay from now, or the last tick if that is too late. */
  function TriggerOf(clock: Clock, request: Request): Trigger {
    match request
    case OnEdge(signal, edge) => AtEdge(signal, edge)
    case OnPhase(phase) => AtPhase(phase)
    case After(femtoseconds) =>
      var ticks := if clock.precision == 0 then 0 else femtoseconds / clock.precision;
      AtTime(if clock.now + ticks <= T.NO_DEADLINE then clock.now + ticks else T.NO_DEADLINE)
  }

  function TriggersOf(clock: Clock, requests: seq<Request>): (ts: seq<Trigger>)
    ensures |ts| == |requests| && forall k :: 0 <= k < |ts| ==> ts[k] == TriggerOf(clock, requests[k])
  {
    seq(|requests|, k requires 0 <= k < |requests| => TriggerOf(clock, requests[k]))
  }

  /** The wait of slot i under generation g; with `numbered` the triggers are those of a `First`, which tells them
      apart by their index. */
  datatype Wait = Wait(slot: nat, gen: nat, numbered: bool) {
    function Trigger(k: nat): Reg {
      Reg(slot, gen, if numbered then Some(k) else None)
    }

    function Plain(): Reg {
      Reg(slot, gen, None)
    }
  }

  /** The registrations of those triggers that are t, in order. */
  function Picked(w: Wait, ts: seq<Trigger>, t: Trigger): seq<Reg> {
    if ts == [] then []
    else
      var n := |ts| - 1;
      Picked(w, ts[..n], t) + if ts[n] == t then [w.Trigger(n)] else []
  }

  /** Every timer is that of a trigger. */
  ghost predicate TimersAsked(w: Wait, ts: seq<Trigger>, timers: seq<T.Timer>) {
    forall t :: t in timers ==>
      exists k {:trigger ts[k]} :: 0 <= k < |ts| && ts[k] == AtTime(t.deadline) && t.reg == w.Trigger(k)
  }

  ghost predicate HasTimerFor(r: Reg, deadline: nat, timers: seq<T.Timer>) {
    exists t :: t in timers && t.deadline == deadline && t.reg == r
  }

  /** Every trigger that is a time has its timer. */
  ghost predicate TimersSet(w: Wait, ts: seq<Trigger>, timers: seq<T.Timer>) {
    forall k :: 0 <= k < |ts| && ts[k].AtTime? ==> HasTimerFor(w.Trigger(k), ts[k].deadline, timers)
  }

  /** Those armed later belong to later triggers. */
  ghost predicate TimersOrdered(timers: seq<T.Timer>) {
    forall t, u :: t in timers && u in timers && t.order < u.order ==>
      t.reg.sibling.Some? && u.reg.sibling.Some? && t.reg.sibling.value < u.reg.sibling.value
  }

  ghost predicate TimersFit(w: Wait, ts: seq<Trigger>, timers: seq<T.Timer>) {
    TimersAsked(w, ts, timers) && TimersSet(w, ts, timers) && (w.numbered ==> TimersOrdered(timers))
  }

  ghost predicate EdgesHold(c: Core, w: Wait, ts: seq<Trigger>) {
    forall signal: nat, edge: E.EdgeKind ::
      HeldOf(E.QueueAt(c.edges, E.QueueIndex(signal, edge)), w.slot, w.gen) == Picked(w, ts, AtEdge(signal, edge))
  }

  ghost predicate PhasesHold(c: Core, w: Wait, ts: seq<Trigger>) {
    forall phase: P.Phase ::
      HeldOf(P.QueueAt(c.phases, P.PhaseIndex(phase)), w.slot, w.gen) == Picked(w, ts, AtPhase(phase))
  }

  /** What is registered for the wait is what its triggers ask for, each in the order of the triggers. */
  ghost predicate Holds(c: Core, w: Wait, ts: seq<Trigger>) {
    EdgesHold(c, w, ts) && PhasesHold(c, w, ts)
    && TimersFit(w, ts, T.HeldTimers(T.All(c.timers), w.slot, w.gen))
  }

  // ---------------------------------------------------------------------------------------------
  // Registering
  // ---------------------------------------------------------------------------------------------

  lemma IndexOnce(s: nat, e: E.EdgeKind, t: nat, f: E.EdgeKind)
    ensures E.QueueIndex(s, e) == E.QueueIndex(t, f) <==> s == t && e == f
  {
  }

  lemma PickedPush(w: Wait, ts: seq<Trigger>, x: Trigger, t: Trigger)
    ensures Picked(w, ts + [x], t) == Picked(w, ts, t) + if x == t then [w.Trigger(|ts|)] else []
  {
    assert (ts + [x])[..|ts|] == ts;
  }

  /** The timers after one more trigger: one more if it is a time. */
  ghost predicate Armed(w: Wait, timers: seq<T.Timer>, k: nat, x: Trigger, order: nat, more: seq<T.Timer>) {
    forall t :: t in more <==> t in timers || (x.AtTime? && t == T.Timer(x.deadline, order, w.Trigger(k)))
  }

  lemma AskedPush(w: Wait, ts: seq<Trigger>, timers: seq<T.Timer>, x: Trigger, more: seq<T.Timer>, order: nat)
    requires TimersAsked(w, ts, timers) && Armed(w, timers, |ts|, x, order, more)
    ensures TimersAsked(w, ts + [x], more)
  {
    var us := ts + [x];
    assert us[|ts|] == x;
    forall t | t in more
      ensures exists k {:trigger us[k]} :: 0 <= k < |us| && us[k] == AtTime(t.deadline) && t.reg == w.Trigger(k)
    {
      if t in timers {
        var k :| 0 <= k < |ts| && ts[k] == AtTime(t.deadline) && t.reg == w.Trigger(k);
        assert us[k] == ts[k];
      }
    }
  }

  lemma SetPush(w: Wait, ts: seq<Trigger>, timers: seq<T.Timer>, x: Trigger, more: seq<T.Timer>, order: nat)
    requires TimersSet(w, ts, timers) && Armed(w, timers, |ts|, x, order, more)
    ensures TimersSet(w, ts + [x], more)
  {
    var us := ts + [x];
    forall k | 0 <= k < |us| && us[k].AtTime?
      ensures HasTimerFor(w.Trigger(k), us[k].deadline, more)
    {
      if k < |ts| {
        assert us[k] == ts[k];
        assert HasTimerFor(w.Trigger(k), ts[k].deadline, timers);
      } else {
        assert T.Timer(x.deadline, order, w.Trigger(|ts|)) in more;
      }
    }
  }

  lemma OrderedPush(w: Wait, ts: seq<Trigger>, timers: seq<T.Timer>, x: Trigger, more: seq<T.Timer>, order: nat)
    requires TimersAsked(w, ts, timers) && TimersOrdered(timers) && Armed(w, timers, |ts|, x, order, more) && w.numbered
    requires forall t :: t in timers ==> t.order < order
    ensures TimersOrdered(more)
  {
    forall t, u | t in more && u in more && t.order < u.order
      ensures t.reg.sibling.Some? && u.reg.sibling.Some? && t.reg.sibling.value < u.reg.sibling.value
    {
      if u !in timers {
        var k :| 0 <= k < |ts| && ts[k] == AtTime(t.deadline) && t.reg == w.Trigger(k);
      }
    }
  }

  lemma FitPush(w: Wait, ts: seq<Trigger>, timers: seq<T.Timer>, x: Trigger, more: seq<T.Timer>, order: nat)
    requires TimersFit(w, ts, timers) && Armed(w, timers, |ts|, x, order, more)
    requires forall t :: t in timers ==> t.order < order
    ensures TimersFit(w, ts + [x], more)
  {
    hide TimersAsked, TimersSet, TimersOrdered, Armed;
    AskedPush(w, ts, timers, x, more, order);
    SetPush(w, ts, timers, x, more, order);
    if w.numbered {
      OrderedPush(w, ts, timers, x, more, order);
    }
  }

  lemma {:induction false} HeldTimersExact(ts: seq<T.Timer>, i: nat, g: nat)
    ensures forall t :: t in T.HeldTimers(ts, i, g) <==> t in ts && Counts(HeldBy(i, g), t.reg)
  {
    if ts != [] {
      HeldTimersExact(ts[1..], i, g);
      assert forall t :: t in ts <==> t == ts[0] || t in ts[1..];
    }
  }

  lemma EdgesPush(c: Core, w: Wait, ts: seq<Trigger>, request: Request)
    requires WaitInv(c) && ValidReg(c, w.Plain()) && EdgesHold(c, w, ts)
    ensures EdgesHold(Enter(c, request, w.Trigger(|ts|)), w, ts + [TriggerOf(c.clock, request)])
  {
    hide WaitInv, Enter, HeldOf, Picked, E.QueueAt;
    var r, x := w.Trigger(|ts|), TriggerOf(c.clock, request);
    var d := Enter(c, request, r);
    EnterHeld(c, request, r, w.slot, w.gen);
    forall signal: nat, edge: E.EdgeKind
      ensures HeldOf(E.QueueAt(d.edges, E.QueueIndex(signal, edge)), w.slot, w.gen)
           == Picked(w, ts + [x], AtEdge(signal, edge))
    {
      PickedPush(w, ts, x, AtEdge(signal, edge));
      if request.OnEdge? {
        IndexOnce(signal, edge, request.signal, request.edge);
      }
    }
  }

  lemma PhasesPush(c: Core, w: Wait, ts: seq<Trigger>, request: Request)
    requires WaitInv(c) && ValidReg(c, w.Plain()) && PhasesHold(c, w, ts)
    ensures PhasesHold(Enter(c, request, w.Trigger(|ts|)), w, ts + [TriggerOf(c.clock, request)])
  {
    hide WaitInv, Enter, HeldOf, Picked, P.QueueAt;
    var r, x := w.Trigger(|ts|), TriggerOf(c.clock, request);
    EnterHeld(c, request, r, w.slot, w.gen);
    forall phase: P.Phase
      ensures HeldOf(P.QueueAt(Enter(c, request, r).phases, P.PhaseIndex(phase)), w.slot, w.gen)
           == Picked(w, ts + [x], AtPhase(phase))
    {
      PickedPush(w, ts, x, AtPhase(phase));
      assert AsksPhase(request, P.PhaseIndex(phase)) <==> x == AtPhase(phase);
    }
  }

  /** One more trigger of the wait. */
  lemma RegisterHolds(c: Core, w: Wait, ts: seq<Trigger>, request: Request)
    requires WaitInv(c) && ValidReg(c, w.Plain()) && Holds(c, w, ts) && Accepted(c.clock, request)
    ensures Holds(RegisterWait(c, request, w.Trigger(|ts|)).value, w, ts + [TriggerOf(c.clock, request)])
  {
    hide WaitInv, Moves, Enter, TimersFit, EdgesHold, PhasesHold;
    var n := Note(c, w.slot, request);
    NoteKeeps(c, w.slot, request);
    NoteHolds(c, w, ts, request);
    EdgesPush(n, w, ts, request);
    PhasesPush(n, w, ts, request);
    RegisterFits(n, w, ts, request);
  }

  lemma NoteHolds(c: Core, w: Wait, ts: seq<Trigger>, request: Request)
    requires Holds(c, w, ts) && ValidReg(c, w.Plain())
    ensures var n := Note(c, w.slot, request); Holds(n, w, ts) && ValidReg(n, w.Plain())
  {
  }

  lemma TimersArmed(c: Core, w: Wait, k: nat, request: Request)
    requires WaitInv(c) && ValidReg(c, w.Plain()) && Accepted(c.clock, request)
    ensures Armed(w, T.HeldTimers(T.All(c.timers), w.slot, w.gen), k, TriggerOf(c.clock, request), c.timers.nextOrder,
                  T.HeldTimers(T.All(Enter(c, request, w.Trigger(k)).timers), w.slot, w.gen))
  {
    hide E.EdgeInv, P.PhaseInv, T.HeldTimers, T.AddTimer, T.All, E.Register, P.Register;
    var r, x, tokens := w.Trigger(k), TriggerOf(c.clock, request), Waits(c.slots);
    HeldTimersExact(T.All(c.timers), w.slot, w.gen);
    HeldTimersExact(T.All(Enter(c, request, r).timers), w.slot, w.gen);
    if request.After? {
      SlotIsOk(c, w.slot);
      T.AddTimerExact(c.timers, tokens, c.lastGen, x.deadline, r);
      T.DropDeadExact(T.All(c.timers), tokens);
    }
  }

  lemma RegisterFits(c: Core, w: Wait, ts: seq<Trigger>, request: Request)
    requires WaitInv(c) && ValidReg(c, w.Plain()) && Accepted(c.clock, request)
    requires TimersFit(w, ts, T.HeldTimers(T.All(c.timers), w.slot, w.gen))
    ensures var d := Enter(c, request, w.Trigger(|ts|));
      TimersFit(w, ts + [TriggerOf(c.clock, request)], T.HeldTimers(T.All(d.timers), w.slot, w.gen))
  {
    hide TimersFit, Armed, E.EdgeInv, P.PhaseInv, T.HeldTimers, Enter;
    var x, d := TriggerOf(c.clock, request), Enter(c, request, w.Trigger(|ts|));
    var held := T.HeldTimers(T.All(c.timers), w.slot, w.gen);
    HeldTimersExact(T.All(c.timers), w.slot, w.gen);
    TimersArmed(c, w, |ts|, request);
    FitPush(w, ts, held, x, T.HeldTimers(T.All(d.timers), w.slot, w.gen), c.timers.nextOrder);
  }

  /** A wait that has just begun has no trigger yet. */
  lemma BeginHolds(c: Core, i: nat, reason: WaitReason, numbered: bool)
    requires WaitInv(c) && i < |c.slots| && c.slots[i].Alive()
    ensures Holds(BeginWait(c, i, reason), Wait(i, c.lastGen + 1, numbered), [])
  {
    hide Evolves;
    var b, g := EndWait(c, i), c.lastGen + 1;
    EndWaitKeeps(c, i);
    forall k: nat
      ensures HeldOf(E.QueueAt(b.edges, k), i, g) == []
    {
      assert forall r :: r in E.QueueAt(b.edges, k) ==> r.gen < g;
      HeldNone(E.QueueAt(b.edges, k), i, g);
    }
    forall k: nat
      ensures HeldOf(P.QueueAt(b.phases, k), i, g) == []
    {
      assert forall r :: r in P.QueueAt(b.phases, k) ==> r.gen < g;
      HeldNone(P.QueueAt(b.phases, k), i, g);
    }
    HeldTimersExact(T.All(b.timers), i, g);
    assert forall t :: t in T.All(b.timers) ==> t.reg.gen < g;
  }

  lemma ParkHolds(c: Core, i: nat, request: Request)
    requires WaitInv(c) && i < |c.slots| && c.slots[i].Alive() && Park(c, i, request).Some?
    ensures var d := Park(c, i, request).value; var w := Wait(i, c.lastGen + 1, false);
      d.lastGen == w.gen && ValidReg(d, w.Plain()) && Holds(d, w, [TriggerOf(c.clock, request)])
  {
    hide WaitInv, EvolvesBut, Holds;
    var b, w := BeginWait(c, i, RequestReason(request)), Wait(i, c.lastGen + 1, false);
    SlotIsOk(c, i);
    BeginWaitShape(c, i, RequestReason(request));
    BeginWaitKeeps(c, i, RequestReason(request));
    BeginHolds(c, i, RequestReason(request), false);
    RegisterHolds(b, w, [], request);
    RegisterWaitKeeps(b, request, w.Plain());
    ValidIsLive(b, w.Plain());
    ValidIsLive(Park(c, i, request).value, w.Plain());
    assert [] + [TriggerOf(c.clock, request)] == [TriggerOf(c.clock, request)];
  }

  lemma {:induction false} RegisterFirstHolds(c: Core, requests: seq<Request>, i: nat, k: nat)
    requires WaitInv(c) && ValidReg(c, Reg(i, c.lastGen, None)) && k <= |requests|
    requires Holds(c, Wait(i, c.lastGen, true), TriggersOf(c.clock, requests[..k]))
    requires RegisterFirst(c, requests, i, k).Some?
    ensures var d := RegisterFirst(c, requests, i, k).value; var w := Wait(i, c.lastGen, true);
      d.lastGen == c.lastGen && ValidReg(d, w.Plain()) && Holds(d, w, TriggersOf(c.clock, requests))
    decreases |requests| - k
  {
    hide WaitInv, EvolvesBut, Holds, RegisterWait;
    if k == |requests| {
      assert requests[..k] == requests;
    } else {
      var w, request := Wait(i, c.lastGen, true), requests[k];
      var d := RegisterWait(c, request, w.Trigger(k)).value;
      RegisterAccepted(c, request, w.Trigger(k));
      RegisterHolds(c, w, TriggersOf(c.clock, requests[..k]), request);
      RegisterWaitKeeps(c, request, w.Trigger(k));
      ValidIsLive(c, w.Plain());
      ValidIsLive(d, w.Plain());
      assert TriggersOf(c.clock, requests[..k]) + [TriggerOf(c.clock, request)]
        == TriggersOf(c.clock, requests[..k + 1]);
      SameTriggers(c.clock, d.clock, requests[..k + 1]);
      SameTriggers(c.clock, d.clock, requests);
      RegisterFirstHolds(d, requests, i, k + 1);
    }
  }

  lemma RegisterAccepted(c: Core, request: Request, r: Reg)
    requires RegisterWait(c, request, r).Some?
    ensures Accepted(c.clock, request)
    ensures var k := RegisterWait(c, request, r).value.clock; k.now == c.clock.now && k.precision == c.clock.precision
  {
  }

  lemma SameTriggers(a: Clock, b: Clock, requests: seq<Request>)
    requires b.now == a.now && b.precision == a.precision
    ensures TriggersOf(b, requests) == TriggersOf(a, requests)
  {
  }

  lemma ParkFirstHolds(c: Core, i: nat, requests: seq<Request>)
    requires WaitInv(c) && i < |c.slots| && c.slots[i].Alive() && ParkFirst(c, i, requests).Some?
    ensures var d := ParkFirst(c, i, requests).value; var w := Wait(i, c.lastGen + 1, true);
      d.lastGen == w.gen && ValidReg(d, w.Plain()) && Holds(d, w, TriggersOf(c.clock, requests))
  {
    hide WaitInv, EvolvesBut, Evolves, RegisterFirst, TimersFit;
    var b := BeginWait(c, i, FirstWait);
    SlotIsOk(c, i);
    BeginWaitShape(c, i, FirstWait);
    BeginWaitKeeps(c, i, FirstWait);
    BeginHolds(c, i, FirstWait, true);
    SetWinnerKeeps(b, i, None);
    var n := SetWinner(b, i, None);
    ValidIsLive(b, Reg(i, b.lastGen, None));
    ValidIsLive(n, Reg(i, b.lastGen, None));
    assert requests[..0] == [] && TriggersOf(n.clock, []) == [];
    RegisterFirstHolds(n, requests, i, 0);
  }

  lemma SettledHolds(c: Core, d: Core, w: Wait, ts: seq<Trigger>)
    requires Holds(c, w, ts) && w.gen <= c.lastGen && ValidReg(d, w.Plain()) && SettledAt(c, d, w.slot)
    ensures Holds(d, w, ts)
  {
    hide HasTimer, HasRegistrations, FlagOk, TimersFit;
  }

  // ---------------------------------------------------------------------------------------------
  // As long as the wait lasts
  // ---------------------------------------------------------------------------------------------

  /** Nobody arms anything for the wait any more. */
  lemma UntimedArms(s: Sched, e: Event, w: Wait)
    requires Untimed(s, w.gen) && ValidReg(s.core, w.Plain()) && !e.TimingOut?
    ensures !Arms(s, e, w.slot)
  {
  }

  lemma StepHolds(s: Sched, e: Event, t: Sched, w: Wait, ts: seq<Trigger>)
    requires SchedInv(s) && Step(s, e, t) && 0 < w.gen <= s.core.lastGen && (!e.TimingOut? ==> !Arms(s, e, w.slot))
    requires Holds(s.core, w, ts) && ValidReg(t.core, w.Plain())
    ensures Holds(t.core, w, ts)
  {
    hide SchedInv, Step, Holds, SettledAt, Arms;
    StepKeeps(s, e, t);
    if e.TimingOut? {
      TimingOutElsewhere(s, e, t, w);
    }
    SettledHolds(s.core, t.core, w, ts);
  }

  /** A timeout begins a wait of its own. */
  lemma TimingOutElsewhere(s: Sched, e: Event, t: Sched, w: Wait)
    requires SchedInv(s) && Step(s, e, t) && e.TimingOut? && w.gen <= s.core.lastGen && ValidReg(t.core, w.Plain())
    ensures !Arms(s, e, w.slot)
  {
    hide WaitInv, RunInv;
    var core := BeginWait(s.core, e.slot, TimeoutWait);
    SlotIsOk(s.core, e.slot);
    BeginWaitShape(s.core, e.slot, TimeoutWait);
    var frames := s.frames + [Timing(Reg(e.slot, core.lastGen, None), e.timeout)];
    var j := s.(core := core, joins := s.joins + [Join(1, e.slot)], frames := frames);
    assert Lives(core.slots) == Lives(s.core.slots);
    NewJoinKeeps(s.(core := core), Join(1, e.slot));
    AdoptShape(j, Joined(|s.joins|), None);
  }

  lemma {:induction false} RunHolds(states: seq<Sched>, events: seq<Event>, m: nat, n: nat, w: Wait, ts: seq<Trigger>)
    requires IsRun(states, events) && m <= n < |states| && 0 < w.gen <= states[m].core.lastGen
    requires Untimed(states[m], w.gen) && Holds(states[m].core, w, ts) && ValidReg(states[n].core, w.Plain())
    ensures Holds(states[n].core, w, ts) && Untimed(states[n], w.gen)
  {
    hide SchedInv, Step, Untimed, Holds, ValidReg, Arms;
    if m < n {
      var s, e, t := states[n - 1], events[n - 1], states[n];
      RunKeepsInvariant(states, events, n - 1);
      RunRevivesNothing(states, events, m, n - 1);
      RunRevivesNothing(states, events, n - 1, n);
      StillValid(s.core, t.core, w.Plain());
      RunHolds(states, events, m, n - 1, w, ts);
      assert Step(s, e, t);
      StepUntimed(s, e, t, w.gen);
      if !e.TimingOut? {
        UntimedArms(s, e, w);
      }
      StepHolds(s, e, t, w, ts);
    }
  }

  lemma StillValid(c: Core, d: Core, r: Reg)
    requires NoneRevived(c, d) && 0 < r.gen <= c.lastGen && ValidReg(d, r)
    ensures ValidReg(c, r)
  {
  }

  // ---------------------------------------------------------------------------------------------
  // Which trigger wins
  // ---------------------------------------------------------------------------------------------

  lemma {:induction false} HeldConcat(a: seq<Reg>, b: seq<Reg>, i: nat, g: nat)
    ensures HeldOf(a + b, i, g) == HeldOf(a, i, g) + HeldOf(b, i, g)
  {
    if b == [] {
      assert a + b == a;
    } else {
      var n := |b| - 1;
      HeldConcat(a, b[..n], i, g);
      assert (a + b)[..|a + b| - 1] == a + b[..n];
    }
  }

  lemma HeldFirst(q: seq<Reg>, i: nat, g: nat)
    requires q != []
    ensures HeldOf(q, i, g) == (if Counts(HeldBy(i, g), q[0]) then [q[0]] else []) + HeldOf(q[1..], i, g)
  {
    assert q == [q[0]] + q[1..];
    HeldConcat([q[0]], q[1..], i, g);
    HeldPush([], q[0], i, g);
    assert [] + [q[0]] == [q[0]];
  }

  /** The winner of a slot once the first of these registrations has been resumed. */
  function WonBy(x: Slot, held: seq<Reg>): Option<nat> {
    if held == [] || held[0].sibling.None? then x.winner else held[0].sibling
  }

  function HeldIn(x: Slot, q: seq<Reg>, i: nat): seq<Reg> {
    if x.Token().None? then [] else HeldOf(q, i, x.Token().value)
  }

  lemma ResumeRegWinner(c: Core, r: Reg, i: nat)
    requires i < |c.slots|
    ensures |ResumeReg(c, r).slots| == |c.slots| && ResumeReg(c, r).slots[i].gen == c.slots[i].gen
    ensures ResumeReg(c, r).slots[i].winner == WonBy(c.slots[i], HeldIn(c.slots[i], [r], i))
    ensures ResumeReg(c, r).slots[i].Token()
         == if c.slots[i].Token().Some? && Counts(HeldBy(i, c.slots[i].gen), r) then None else c.slots[i].Token()
  {
    hide E.Release, P.Release, HasRegistrations;
    HeldPush([], r, i, c.slots[i].gen);
    assert [] + [r] == [r];
  }

  /** The first registration of a wait that is resumed names the winner; the later ones are dead by then. */
  lemma {:induction false} ResumeAllWinner(c: Core, rs: seq<Reg>, i: nat)
    requires WaitInv(c) && i < |c.slots|
    ensures ResumeAll(c, rs).slots[i].winner == WonBy(c.slots[i], HeldIn(c.slots[i], rs, i))
    ensures ResumeAll(c, rs).slots[i].gen == c.slots[i].gen
    decreases |rs|
  {
    hide WaitInv, Evolves, ResumeReg, Steady;
    if rs != [] {
      var m := ResumeReg(c, rs[0]);
      ResumeRegKeeps(c, rs[0]);
      ResumeRegWinner(c, rs[0], i);
      ResumeAllWinner(m, rs[1..], i);
      if c.slots[i].Token().Some? {
        HeldFirst(rs, i, c.slots[i].gen);
        HeldPush([], rs[0], i, c.slots[i].gen);
        assert [] + [rs[0]] == [rs[0]];
      }
    }
  }

  lemma EdgeQueueWinner(c: Core, k: nat, i: nat)
    requires WaitInv(c) && i < |c.slots|
    ensures ResumeEdgeQueue(c, k).slots[i].winner == WonBy(c.slots[i], HeldIn(c.slots[i], E.QueueAt(c.edges, k), i))
    ensures ResumeEdgeQueue(c, k).slots[i].gen == c.slots[i].gen
    ensures ResumeEdgeQueue(c, k).slots[i].Token()
         == if HeldIn(c.slots[i], E.QueueAt(c.edges, k), i) != [] then None else c.slots[i].Token()
  {
    hide WaitInv;
    if k < |c.edges.queues| {
      ResumeEdgeQueueIs(c, k);
      ResumeAllWinner(c, c.edges.queues[k], i);
    }
    ResumeEdgeQueueWakes(c, k);
    QueueToken(E.QueueAt(c.edges, k), Waits(c.slots), i);
    assert Waits(ResumeEdgeQueue(c, k).slots)[i] == ResumeEdgeQueue(c, k).slots[i].Token();
  }

  lemma QueueToken(q: seq<Reg>, tokens: Tokens, i: nat)
    requires i < |tokens|
    ensures AfterWake(q, tokens)[i]
         == if tokens[i].Some? && HeldOf(q, i, tokens[i].value) != [] then None else tokens[i]
  {
    WakeOrderExact(q, tokens);
    if tokens[i].Some? {
      var held := HeldOf(q, i, tokens[i].value);
      HeldMembers(q, i, tokens[i].value);
      if held != [] {
        assert held[0] in held;
      }
      if r :| r in q && Live(tokens, r) && r.slot == i {
        assert r in held;
      }
    }
  }

  lemma DeliverEdgeWinner(c: Core, signal: nat, edge: E.EdgeKind, i: nat)
    requires WaitInv(c) && i < |c.slots|
    ensures var d, held := DeliverEdge(c, signal, edge).0, HeldIn(c.slots[i], EdgeAudience(c, signal, edge), i);
      && d.slots[i].winner == WonBy(c.slots[i], held)
      && d.slots[i].Token() == (if held != [] then None else c.slots[i].Token())
      && d.slots[i].gen == c.slots[i].gen
  {
    hide WaitInv, Evolves, ResumeEdgeQueue, Steady, WonBy, HeldOf;
    var k, any := E.QueueIndex(signal, edge), E.QueueIndex(signal, E.Any);
    var a := c.(clock := c.clock.(phase := Evaluation));
    SetPhaseKeeps(c, Evaluation);
    var b := ResumeEdgeQueue(a, k);
    EdgeQueueWinner(a, k, i);
    ResumeEdgeQueueKeeps(a, k);
    ResumeEdgeQueueWakes(a, k);
    if edge.Any? {
      assert EdgeAudience(c, signal, edge) == E.QueueAt(c.edges, k);
    } else {
      var first, second := E.QueueAt(c.edges, k), E.QueueAt(c.edges, any);
      assert k != any && E.QueueAt(b.edges, any) == second;
      EdgeQueueWinner(b, any, i);
      if c.slots[i].Token().Some? {
        HeldConcat(first, second, i, c.slots[i].gen);
      }
      assert HeldIn(c.slots[i], first + second, i) == HeldIn(c.slots[i], first, i) + HeldIn(c.slots[i], second, i);
      SecondQueue(c.slots[i], b.slots[i], first, second, i);
    }
  }

  /** What the second of two queues adds. */
  lemma SecondQueue(x: Slot, y: Slot, first: seq<Reg>, second: seq<Reg>, i: nat)
    requires y.winner == WonBy(x, HeldIn(x, first, i))
    requires y.Token() == if HeldIn(x, first, i) != [] then None else x.Token()
    ensures WonBy(y, HeldIn(y, second, i)) == WonBy(x, HeldIn(x, first, i) + HeldIn(x, second, i))
  {
  }

  lemma DeliverPhaseWinner(c: Core, phase: P.Phase, i: nat)
    requires WaitInv(c) && i < |c.slots|
    ensures var d := DeliverPhase(c, phase).0;
      var held := HeldIn(c.slots[i], P.QueueAt(c.phases, P.PhaseIndex(phase)), i);
      && d.slots[i].winner == WonBy(c.slots[i], held)
      && d.slots[i].Token() == (if held != [] then None else c.slots[i].Token())
      && d.slots[i].gen == c.slots[i].gen
  {
    hide WaitInv, Evolves, Steady, ResumeAll;
    ThreePhases(c);
    var rs, a := c.phases.queues[P.PhaseIndex(phase)], c.(clock := c.clock.(phase := InPhase(phase)));
    SetPhaseKeeps(c, InPhase(phase));
    ResumeAllWinner(a, rs, i);
    DeliverPhaseExact(c, phase);
    QueueToken(rs, Waits(c.slots), i);
    var d := DeliverPhase(c, phase).0;
    assert d.slots == ResumeAll(a, rs).slots;
    assert Waits(d.slots)[i] == d.slots[i].Token();
  }

  /** The registrations of the timers that a wait has, in the order in which they fire, up to a time. */
  function DueOf(x: Slot, ts: seq<T.Timer>, now: nat, i: nat): seq<Reg> {
    if x.Token().None? then [] else T.DueRegs(T.HeldTimers(ts, i, x.Token().value), now)
  }

  lemma {:induction false} FireWinner(c: Core, i: nat)
    requires WaitInvButCache(c) && i < |c.slots|
    ensures FireTimers(c).0.slots[i].winner
         == WonBy(c.slots[i], DueOf(c.slots[i], T.All(c.timers), c.clock.now, i))
    ensures FireTimers(c).0.slots[i].gen == c.slots[i].gen
    decreases T.Size(c.timers)
  {
    hide WaitInvButCache, Evolves, Steady, WonBy, T.Discard, DueOf;
    var q := T.Discard(c.timers, Waits(c.slots));
    if q.next.Some? && q.next.value.deadline <= c.clock.now {
      var d := ResumeReg(c.(timers := q.(next := None)), q.next.value.reg);
      FireOne(c);
      FireWinner(d, i);
      FireOneWinner(c, i);
    } else {
      NothingDue(c, i);
      WonByNone(c.slots[i]);
    }
  }

  lemma WonByNone(x: Slot)
    ensures WonBy(x, []) == x.winner
  {
  }

  lemma FireOneWinner(c: Core, i: nat)
    requires WaitInvButCache(c) && i < |c.slots|
    requires var q := T.Discard(c.timers, Waits(c.slots)); q.next.Some? && q.next.value.deadline <= c.clock.now
    ensures var q := T.Discard(c.timers, Waits(c.slots));
      var d := ResumeReg(c.(timers := q.(next := None)), q.next.value.reg);
      && |d.slots| == |c.slots| && d.slots[i].gen == c.slots[i].gen
      && WonBy(d.slots[i], DueOf(d.slots[i], T.All(d.timers), d.clock.now, i))
         == WonBy(c.slots[i], DueOf(c.slots[i], T.All(c.timers), c.clock.now, i))
  {
    hide WaitInvButCache, Evolves, ResumeReg, T.Discard;
    var q, live := T.Discard(c.timers, Waits(c.slots)), T.DropDead(T.All(c.timers), Waits(c.slots));
    var m := c.(timers := q.(next := None));
    FireOne(c);
    ResumeRegWinner(m, q.next.value.reg, i);
    if c.slots[i].Token().Some? {
      var g := c.slots[i].gen;
      T.HeldDropDead(T.All(c.timers), Waits(c.slots), i, g);
      var r := q.next.value.reg;
      HeldPush([], r, i, g);
      assert [] + [r] == [r];
      assert Live(Waits(c.slots), r);
      if r.slot == i {
        assert Waits(c.slots)[i] == Some(g);
        assert T.HeldTimers(live, i, g) == [live[0]] + T.HeldTimers(live[1..], i, g);
      }
    }
  }

  lemma NothingDue(c: Core, i: nat)
    requires WaitInvButCache(c) && i < |c.slots|
    requires var q := T.Discard(c.timers, Waits(c.slots)); q.next.None? || q.next.value.deadline > c.clock.now
    ensures DueOf(c.slots[i], T.All(c.timers), c.clock.now, i) == []
    ensures FireTimers(c).0.slots == c.slots
  {
    hide Evolves, T.Discard, T.HeldTimers, T.DropDead, WaitInv, E.EdgeInv, P.PhaseInv;
    var b, live := c.(timers := T.Discard(c.timers, Waits(c.slots))), T.DropDead(T.All(c.timers), Waits(c.slots));
    DiscardRestores(c);
    if c.slots[i].Token().Some? {
      var g := c.slots[i].gen;
      T.HeldDropDead(T.All(c.timers), Waits(c.slots), i, g);
      var held := T.HeldTimers(live, i, g);
      HeldTimersExact(live, i, g);
      if held != [] {
        assert held[0] in live;
        T.DropDeadSorted(T.All(c.timers), Waits(c.slots));
        var k :| 0 <= k < |live| && live[k] == held[0];
        assert k == 0 || T.Before(live[0], live[k]);
        assert live[0] == b.timers.next.value;
      }
    }
  }

  lemma DeliverTimeWinner(c: Core, time: nat, i: nat)
    requires WaitInv(c) && time <= T.NO_DEADLINE && i < |c.slots|
    ensures DeliverTime(c, time).0.slots[i].winner == WonBy(c.slots[i], DueOf(c.slots[i], T.All(c.timers), time, i))
    ensures DeliverTime(c, time).0.slots[i].gen == c.slots[i].gen
  {
    hide WaitInv, WaitInvButCache, Evolves, Steady, FireTimers;
    var a := c.(clock := c.clock.(phase := Evaluation, now := time));
    SetTimeKeeps(c, time);
    if a.timers.next.None? || a.timers.next.value.deadline > time {
      AllLater(a, time);
      TimersSorted(c);
      NoneDue(c, time, i);
    } else {
      CacheIsSound(a);
      FireWinner(a, i);
    }
  }

  lemma TimersSorted(c: Core)
    requires WaitInv(c)
    ensures T.Sorted(T.All(c.timers))
  {
  }

  lemma NoneDue(c: Core, time: nat, i: nat)
    requires DueRegs(c, time) == [] && T.Sorted(T.All(c.timers)) && i < |c.slots|
    ensures DueOf(c.slots[i], T.All(c.timers), time, i) == []
  {
    if c.slots[i].Token().Some? {
      var all, held := T.All(c.timers), T.HeldTimers(T.All(c.timers), i, c.slots[i].gen);
      HeldTimersExact(all, i, c.slots[i].gen);
      if held != [] {
        assert held[0] in all;
        T.DueRegsExact(all, time, held[0].reg);
      }
    }
  }

  lemma HeldSorted(ts: seq<T.Timer>, i: nat, g: nat)
    requires T.Sorted(ts)
    ensures T.Sorted(T.HeldTimers(ts, i, g))
  {
    if ts != [] {
      HeldSorted(ts[1..], i, g);
      HeldTimersExact(ts[1..], i, g);
      forall x | x in T.HeldTimers(ts[1..], i, g)
        ensures T.Before(ts[0], x)
      {
        var k :| 0 <= k < |ts[1..]| && ts[1..][k] == x;
        assert T.Before(ts[0], ts[k + 1]);
      }
      T.SortedCons(ts[0], T.HeldTimers(ts[1..], i, g));
    }
  }

  // ---------------------------------------------------------------------------------------------
  // What the coroutine hears
  // ---------------------------------------------------------------------------------------------

  /** The first trigger that is t. */
  function FirstOf(ts: seq<Trigger>, t: Trigger): (k: nat)
    requires t in ts
    ensures k < |ts| && ts[k] == t && forall j :: 0 <= j < k ==> ts[j] != t
  {
    if ts[0] == t then 0 else 1 + FirstOf(ts[1..], t)
  }

  lemma {:induction false} PickedExact(w: Wait, ts: seq<Trigger>, t: Trigger)
    ensures Picked(w, ts, t) != [] <==> t in ts
    ensures t in ts ==> Picked(w, ts, t)[0] == w.Trigger(FirstOf(ts, t))
  {
    if ts != [] {
      var n := |ts| - 1;
      PickedExact(w, ts[..n], t);
      assert t in ts <==> t in ts[..n] || t == ts[n];
      if t in ts[..n] {
        assert ts[..n][FirstOf(ts[..n], t)] == t;
      }
    }
  }

  /** The wait is over and the coroutine is ready to run; if it waited for the first of several, it finds the winner. */
  ghost predicate Answered(s: Sched, w: Wait, winner: nat) {
    && w.slot < |s.core.slots| && s.core.slots[w.slot].Alive() && s.core.slots[w.slot].gen == w.gen
    && s.core.slots[w.slot].ready && !s.core.slots[w.slot].waiting
    && (w.numbered ==> s.core.slots[w.slot].winner == Some(winner))
  }

  lemma DeliveredStays(s: Sched, delivered: (Core, bool), i: nat)
    requires i < |delivered.0.slots| && delivered.0.slots[i].Alive()
    ensures i < |AfterDelivery(s, delivered).core.slots|
    ensures AfterDelivery(s, delivered).core.slots[i] == delivered.0.slots[i]
  {
    BoundaryVacates(s.(core := delivered.0));
  }

  /** The trigger that an edge answers: one for that very edge before one for any. */
  function EdgeAnswer(ts: seq<Trigger>, signal: nat, edge: E.EdgeKind): Option<nat> {
    if AtEdge(signal, edge) in ts then Some(FirstOf(ts, AtEdge(signal, edge)))
    else if AtEdge(signal, E.Any) in ts then Some(FirstOf(ts, AtEdge(signal, E.Any)))
    else None
  }

  lemma HearsEdge(s: Sched, w: Wait, ts: seq<Trigger>, signal: nat, edge: E.EdgeKind)
    requires SchedInv(s) && ValidReg(s.core, w.Plain()) && Holds(s.core, w, ts)
    ensures var t, k := ResumeEdge(s, signal, edge), EdgeAnswer(ts, signal, edge);
      if k.Some? then Answered(t, w, k.value) else ValidReg(t.core, w.Plain())
  {
    hide SchedInv, WaitInv, Evolves, PhasesHold, TimersFit, DeliverEdge, AfterDelivery, HeldOf, Picked, FirstOf;
    var c, i := s.core, w.slot;
    InvWait(s);
    DeliverEdgeWinner(c, signal, edge, i);
    DeliverEdgeExact(c, signal, edge);
    var d := DeliverEdge(c, signal, edge).0;
    HeldConcat(E.QueueAt(c.edges, E.QueueIndex(signal, edge)),
               if edge.Any? then [] else E.QueueAt(c.edges, E.QueueIndex(signal, E.Any)), i, w.gen);
    HeldNone([], i, w.gen);
    PickedExact(w, ts, AtEdge(signal, edge));
    PickedExact(w, ts, AtEdge(signal, E.Any));
    DeliveredStays(s, DeliverEdge(c, signal, edge), i);
  }

  lemma HearsPhase(s: Sched, w: Wait, ts: seq<Trigger>, phase: P.Phase)
    requires SchedInv(s) && ValidReg(s.core, w.Plain()) && Holds(s.core, w, ts)
    ensures var t := ResumePhase(s, phase);
      if AtPhase(phase) in ts then Answered(t, w, FirstOf(ts, AtPhase(phase))) else ValidReg(t.core, w.Plain())
  {
    hide SchedInv, WaitInv, Evolves, EdgesHold, TimersFit, DeliverPhase, AfterDelivery;
    var c, i := s.core, w.slot;
    InvWait(s);
    DeliverPhaseWinner(c, phase, i);
    DeliverPhaseExact(c, phase);
    PickedExact(w, ts, AtPhase(phase));
    DeliveredStays(s, DeliverPhase(c, phase), i);
    PhaseOrder(c, phase, w);
  }

  /** Whose wait the queue of a phase holds is in the order in which it wakes. */
  lemma PhaseOrder(c: Core, phase: P.Phase, w: Wait)
    requires WaitInv(c) && ValidReg(c, w.Plain())
    ensures var q := P.QueueAt(c.phases, P.PhaseIndex(phase));
      HeldOf(q, w.slot, w.gen) != [] ==> w.slot in WakeOrder(q, Waits(c.slots))
  {
    var q := P.QueueAt(c.phases, P.PhaseIndex(phase));
    WakeOrderExact(q, Waits(c.slots));
    HeldMembers(q, w.slot, w.gen);
    if HeldOf(q, w.slot, w.gen) != [] {
      var r := HeldOf(q, w.slot, w.gen)[0];
      assert r in HeldOf(q, w.slot, w.gen);
      assert r in q && Live(Waits(c.slots), r);
    }
  }

  /** The trigger is a time that has come, and none that has come is earlier, or as early and before it in the list. */
  ghost predicate EarliestDue(ts: seq<Trigger>, time: nat, k: nat) {
    && k < |ts| && ts[k].AtTime? && ts[k].deadline <= time
    && forall j :: 0 <= j < |ts| && ts[j].AtTime? ==>
         ts[k].deadline < ts[j].deadline || (ts[k].deadline == ts[j].deadline && k <= j)
  }

  ghost predicate SomeDue(ts: seq<Trigger>, time: nat) {
    exists k :: 0 <= k < |ts| && ts[k].AtTime? && ts[k].deadline <= time
  }

  /** The first timer of the wait is that of the earliest trigger. */
  lemma FirstTimer(c: Core, w: Wait, ts: seq<Trigger>, time: nat) returns (k: nat)
    requires WaitInv(c) && Holds(c, w, ts) && SomeDue(ts, time)
    ensures var held := T.HeldTimers(T.All(c.timers), w.slot, w.gen);
      held != [] && held[0].deadline <= time && k < |ts| && held[0].reg == w.Trigger(k)
    ensures k < |ts| && ts[k].AtTime? && ts[k].deadline <= time && (w.numbered ==> EarliestDue(ts, time, k))
  {
    var held := T.HeldTimers(T.All(c.timers), w.slot, w.gen);
    var j :| 0 <= j < |ts| && ts[j].AtTime? && ts[j].deadline <= time;
    assert HasTimerFor(w.Trigger(j), ts[j].deadline, held);
    TimersSorted(c);
    HeldSorted(T.All(c.timers), w.slot, w.gen);
    var u :| u in held && u.deadline == ts[j].deadline && u.reg == w.Trigger(j);
    FirstIsEarliest(held, u);
    assert held[0] in held;
    k :| 0 <= k < |ts| && ts[k] == AtTime(held[0].deadline) && held[0].reg == w.Trigger(k);
    if w.numbered {
      forall m | 0 <= m < |ts| && ts[m].AtTime?
        ensures ts[k].deadline < ts[m].deadline || (ts[k].deadline == ts[m].deadline && k <= m)
      {
        assert HasTimerFor(w.Trigger(m), ts[m].deadline, held);
        var v :| v in held && v.deadline == ts[m].deadline && v.reg == w.Trigger(m);
        FirstIsEarliest(held, v);
      }
    }
  }

  lemma FirstIsEarliest(ts: seq<T.Timer>, t: T.Timer)
    requires T.Sorted(ts) && t in ts
    ensures t == ts[0] || T.Before(ts[0], t)
  {
    var k :| 0 <= k < |ts| && ts[k] == t;
  }

  lemma DueIsAsked(c: Core, w: Wait, ts: seq<Trigger>, time: nat)
    requires Holds(c, w, ts) && HasDueTimer(c, w.slot, time) && ValidReg(c, w.Plain())
    ensures SomeDue(ts, time)
  {
    HeldTimersExact(T.All(c.timers), w.slot, w.gen);
    var t :| t in T.All(c.timers) && t.deadline <= time && ValidReg(c, t.reg) && t.reg.slot == w.slot;
    assert t in T.HeldTimers(T.All(c.timers), w.slot, w.gen);
    var k :| 0 <= k < |ts| && ts[k] == AtTime(t.deadline) && t.reg == w.Trigger(k);
  }

  lemma HearsTime(s: Sched, w: Wait, ts: seq<Trigger>, time: nat) returns (k: nat)
    requires SchedInv(s) && ValidReg(s.core, w.Plain()) && Holds(s.core, w, ts) && time <= T.NO_DEADLINE
    ensures var t := AdvanceTime(s, time);
      if SomeDue(ts, time) then Answered(t, w, k) && (w.numbered ==> EarliestDue(ts, time, k))
      else ValidReg(t.core, w.Plain())
  {
    hide SchedInv, WaitInv, Evolves, Holds, DeliverTime, AfterDelivery, SomeDue, EarliestDue, HasDueTimer;
    var c, i := s.core, w.slot;
    InvWait(s);
    DeliverTimeWinner(c, time, i);
    DeliverTimeExact(c, time);
    DeliveredStays(s, DeliverTime(c, time), i);
    if SomeDue(ts, time) {
      k := FirstTimer(c, w, ts, time);
      HasFirstTimer(c, w, time);
    } else {
      k := 0;
      if HasDueTimer(c, w.slot, time) {
        DueIsAsked(c, w, ts, time);
      }
    }
  }

  lemma HasFirstTimer(c: Core, w: Wait, time: nat)
    requires ValidReg(c, w.Plain())
    requires var held := T.HeldTimers(T.All(c.timers), w.slot, w.gen); held != [] && held[0].deadline <= time
    ensures HasDueTimer(c, w.slot, time)
  {
    var held := T.HeldTimers(T.All(c.timers), w.slot, w.gen);
    HeldTimersExact(T.All(c.timers), w.slot, w.gen);
    assert held[0] in held;
  }

  ghost predicate HearsEdges(s: Sched, w: Wait, ts: seq<Trigger>) {
    forall signal: nat, edge: E.EdgeKind ::
      var t, k := ResumeEdge(s, signal, edge), EdgeAnswer(ts, signal, edge);
      if k.Some? then Answered(t, w, k.value) else ValidReg(t.core, w.Plain())
  }

  ghost predicate HearsPhases(s: Sched, w: Wait, ts: seq<Trigger>) {
    forall phase: P.Phase ::
      var t := ResumePhase(s, phase);
      if AtPhase(phase) in ts then Answered(t, w, FirstOf(ts, AtPhase(phase))) else ValidReg(t.core, w.Plain())
  }

  ghost predicate HearsTimes(s: Sched, w: Wait, ts: seq<Trigger>) {
    forall time: nat :: time <= T.NO_DEADLINE ==>
      var t := AdvanceTime(s, time);
      if SomeDue(ts, time) then exists k :: Answered(t, w, k) && (w.numbered ==> EarliestDue(ts, time, k))
      else ValidReg(t.core, w.Plain())
  }

  /** The simulator ends the wait just by what its triggers name, and then the coroutine is ready. */
  ghost predicate Hears(s: Sched, w: Wait, ts: seq<Trigger>) {
    HearsEdges(s, w, ts) && HearsPhases(s, w, ts) && HearsTimes(s, w, ts)
  }

  lemma HoldsHears(s: Sched, w: Wait, ts: seq<Trigger>)
    requires SchedInv(s) && ValidReg(s.core, w.Plain()) && Holds(s.core, w, ts)
    ensures Hears(s, w, ts)
  {
    hide SchedInv, Holds, ResumeEdge, ResumePhase, AdvanceTime, Answered, EarliestDue, SomeDue;
    forall signal: nat, edge: E.EdgeKind
      ensures var t, k := ResumeEdge(s, signal, edge), EdgeAnswer(ts, signal, edge);
        if k.Some? then Answered(t, w, k.value) else ValidReg(t.core, w.Plain())
    {
      HearsEdge(s, w, ts, signal, edge);
    }
    forall phase: P.Phase
      ensures var t := ResumePhase(s, phase);
        if AtPhase(phase) in ts then Answered(t, w, FirstOf(ts, AtPhase(phase))) else ValidReg(t.core, w.Plain())
    {
      HearsPhase(s, w, ts, phase);
    }
    forall time: nat | time <= T.NO_DEADLINE
      ensures var t := AdvanceTime(s, time);
        if SomeDue(ts, time) then exists k :: Answered(t, w, k) && (w.numbered ==> EarliestDue(ts, time, k))
        else ValidReg(t.core, w.Plain())
    {
      var k := HearsTime(s, w, ts, time);
    }
  }

  lemma SameStack(s: Sched, e: Event, t: Sched, g: nat)
    requires SchedInv(s) && Step(s, e, t) && (e.Parking? || e.ParkingFirst?) && Untimed(s, g)
    ensures Untimed(t, g)
  {
    hide SchedInv, Step;
    StepStack(s, e, t);
  }

  lemma HearsOn(states: seq<Sched>, events: seq<Event>, m: nat, n: nat, w: Wait, ts: seq<Trigger>)
    requires IsRun(states, events) && m < n < |states| && (events[m].Parking? || events[m].ParkingFirst?)
    requires w.gen == states[m].core.lastGen + 1 == states[m + 1].core.lastGen
    requires Holds(states[m + 1].core, w, ts) && ValidReg(states[n].core, w.Plain())
    ensures Hears(states[n], w, ts)
  {
    hide SchedInv, Step, Holds, Untimed, Hears;
    RunKeepsInvariant(states, events, m);
    assert Step(states[m], events[m], states[m + 1]);
    FramesIssued(states[m], w.gen);
    SameStack(states[m], events[m], states[m + 1], w.gen);
    RunHolds(states, events, m + 1, n, w, ts);
    RunKeepsInvariant(states, events, n);
    HoldsHears(states[n], w, ts);
  }

  /** The wait that a call of `park` or `park_first` begins. */
  function Begun(states: seq<Sched>, events: seq<Event>, m: nat): Wait
    requires m < |events| && |states| == |events| + 1 && (events[m].Parking? || events[m].ParkingFirst?)
  {
    Wait(events[m].slot, states[m].core.lastGen + 1, events[m].ParkingFirst?)
  }

  /** Its triggers, at the time of the call. */
  function Asked(states: seq<Sched>, events: seq<Event>, m: nat): seq<Trigger>
    requires m < |events| && |states| == |events| + 1 && (events[m].Parking? || events[m].ParkingFirst?)
  {
    TriggersOf(states[m].core.clock, if events[m].Parking? then [events[m].request] else events[m].requests)
  }

  /** Whatever happens in between: as long as a coroutine is in the wait that it asked for, the simulator wakes it by
      what it asked for and by nothing else, and the first of several triggers wins. */
  lemma AskedIsHeard(states: seq<Sched>, events: seq<Event>, m: nat, n: nat)
    requires IsRun(states, events) && m < n < |states| && (events[m].Parking? || events[m].ParkingFirst?)
    requires ValidReg(states[n].core, Begun(states, events, m).Plain())
    ensures Hears(states[n], Begun(states, events, m), Asked(states, events, m))
  {
    hide SchedInv, WaitInv, Park, ParkFirst, Holds, Hears, ValidReg;
    RunKeepsInvariant(states, events, m);
    InvWait(states[m]);
    var s, e, t := states[m], events[m], states[m + 1];
    assert Step(s, e, t);
    if e.Parking? {
      ParkHolds(s.core, e.slot, e.request);
      assert Asked(states, events, m) == [TriggerOf(s.core.clock, e.request)];
    } else {
      ParkFirstHolds(s.core, e.slot, e.requests);
    }
    HearsOn(states, events, m, n, Begun(states, events, m), Asked(states, events, m));
  }
}
