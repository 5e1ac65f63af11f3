/** What the simulator delivers to the scheduler: edges, phases and the passing of time. Each delivery
wakes exactly the coroutines with a live registration for it. */
module Delivery {
  import opened Registrations
  import opened WaitCore
  import E = EdgeWaits
  import P = PhaseWaits
  import T = TimerQueue

  lemma SetPhaseKeeps(c: Core, phase: SimPhase)
    requires WaitInv(c)
    ensures var d := c.(clock := c.clock.(phase := phase)); WaitInv(d) && Evolves(c, d)
  {
    EvolvesTables(c, c.(clock := c.clock.(phase := phase)));
  }

  // ---------------------------------------------------------------------------------------------
  // Phases
  // ---------------------------------------------------------------------------------------------

  lemma EraseFrontStep(c: Core, phase: P.Phase)
    requires WaitInv(c) && Count(c.phases.queues[P.PhaseIndex(phase)], LiveUnder(Waits(c.slots))) == 0
    ensures var k := P.PhaseIndex(phase);
      var d := c.(phases := P.EraseFront(c.phases, phase, |c.phases.queues[k]|));
      && WaitInv(d) && Evolves(c, d) && d.phases.queues == c.phases.queues[k := []] && d.phases.counts[k] == 0
  {
    var k := P.PhaseIndex(phase);
    var d := c.(phases := P.EraseFront(c.phases, phase, |c.phases.queues[k]|));
    P.EraseFrontKeeps(c.phases, Waits(c.slots), c.lastGen, phase);
    forall i | 0 <= i < |d.slots| && d.slots[i].Token().Some?
      ensures SameHeld(c, d, i, d.slots[i].gen)
    {
      HeldDead(c.phases.queues[k], Waits(c.slots), i, d.slots[i].gen);
    }
    SettlesSlots(c, d);
    assert d.phases.counts[k] == Count(d.phases.queues[k], LiveUnder(Waits(d.slots)));
  }

  lemma DeliverPhaseKeeps(c: Core, phase: P.Phase)
    requires WaitInv(c)
    ensures var d := DeliverPhase(c, phase).0; var k := P.PhaseIndex(phase);
      && WaitInv(d) && Evolves(c, d) && Woken(c, c.phases.queues[k], d.(clock := c.clock, phases := c.phases))
      && d.clock == c.clock.(phase := InPhase(phase))
      && d.phases.queues == c.phases.queues[k := []] && d.phases.counts[k] == 0
  {
    hide WaitInv, Evolves;
    var k := P.PhaseIndex(phase);
    ThreePhases(c);
    var rs, a := c.phases.queues[k], c.(clock := c.clock.(phase := InPhase(phase)));
    var b := ResumeAll(a, rs);
    SetPhaseKeeps(c, InPhase(phase));
    ResumeAllKeeps(a, rs);
    EvolvesTransitive(c, a, b);
    AfterWakeAllDead(rs, Waits(c.slots));
    EraseFrontStep(b, phase);
    EvolvesTransitive(c, b, DeliverPhase(c, phase).0);
  }

  lemma ThreePhases(c: Core)
    requires WaitInv(c)
    ensures |c.phases.queues| == P.PHASES
  {
  }

  /** A phase wakes every coroutine waiting for it, in the order of registration, and nobody else;
      afterwards nobody waits for it. */
  lemma DeliverPhaseExact(c: Core, phase: P.Phase)
    requires WaitInv(c)
    ensures var (d, woke) := DeliverPhase(c, phase);
      var k := P.PhaseIndex(phase); var order := WakeOrder(c.phases.queues[k], Waits(c.slots));
      && WaitInv(d) && Evolves(c, d)
      && SameLife(c, d) && d.clock == c.clock.(phase := InPhase(phase))
      && ReadyAfter(c, d, order) && (woke <==> order != [])
      && (forall i: nat :: i in order <==> exists r :: r in c.phases.queues[k] && ValidReg(c, r) && r.slot == i)
      && Waits(d.slots) == AfterWake(c.phases.queues[k], Waits(c.slots))
      && d.phases.queues == c.phases.queues[k := []] && d.phases.counts[k] == 0
  {
    hide WaitInv, Evolves;
    ThreePhases(c);
    var rs := c.phases.queues[P.PhaseIndex(phase)];
    DeliverPhaseKeeps(c, phase);
    WakeOrderExact(rs, Waits(c.slots));
    forall r
      ensures ValidReg(c, r) <==> Live(Waits(c.slots), r)
    {
      ValidIsLive(c, r);
    }
  }

  // ---------------------------------------------------------------------------------------------
  // Edges
  // ---------------------------------------------------------------------------------------------

  /** The counters with n entries of a queue already counted off. */
  function CountOff(t: E.EdgeTable, n: nat): E.EdgeTable {
    t.(entries := t.entries - n, stale := t.stale - n)
  }

  function Shift(c: Core, n: nat): Core {
    c.(edges := CountOff(c.edges, n))
  }

  lemma ReleaseCommutes(t: E.EdgeTable, i: nat, n: nat)
    ensures E.Release(CountOff(t, n), i) == CountOff(E.Release(t, i), n)
  {
  }

  lemma ResumeRegCommutes(c: Core, r: Reg, n: nat)
    ensures ResumeReg(Shift(c, n), r) == Shift(ResumeReg(c, r), n)
  {
    if ValidReg(c, r) {
      ReleaseCommutes(c.edges, r.slot, n);
      assert EndWait(Shift(c, n), r.slot) == Shift(EndWait(c, r.slot), n);
    }
  }

  lemma CountOneOff(t: E.EdgeTable, tokens: Tokens, last: nat, k: nat, past: seq<Reg>, r: Reg, rest: seq<Reg>)
    requires E.EdgeInv(t, tokens, last) && k < |t.queues| && t.queues[k] == (past + [r]) + rest
    requires Count(past + [r], LiveUnder(tokens)) == 0
    ensures E.Consume(CountOff(t, |past|)) == CountOff(t, |past| + 1)
  {
    E.StaleCoversQueue(t, tokens, last, k);
    CountAppend(past + [r], rest, LiveUnder(tokens));
    CountAtMost(rest, LiveUnder(tokens));
  }

  lemma ResumeEntryQueue(c: Core, k: nat, past: seq<Reg>, r: Reg, rest: seq<Reg>)
    requires WaitInv(c) && k < |c.edges.queues| && c.edges.queues[k] == past + ([r] + rest)
    requires Count(past, LiveUnder(Waits(c.slots))) == 0
    ensures var m := ResumeReg(c, r);
      m.edges.queues[k] == (past + [r]) + rest && Count(past + [r], LiveUnder(Waits(m.slots))) == 0
  {
    ResumeRegWakes(c, r);
    PastStaysDead(c, ResumeReg(c, r), past, r);
    assert past + ([r] + rest) == (past + [r]) + rest;
  }

  lemma ResumeEntryStep(c: Core, m: Core, k: nat, past: seq<Reg>, r: Reg, rest: seq<Reg>)
    requires m == ResumeReg(c, r) && WaitInv(m)
    requires k < |m.edges.queues| && m.edges.queues[k] == (past + [r]) + rest
    requires Count(past + [r], LiveUnder(Waits(m.slots))) == 0
    ensures var s := ResumeReg(Shift(c, |past|), r); s.(edges := E.Consume(s.edges)) == Shift(m, |past| + 1)
  {
    ResumeRegCommutes(c, r, |past|);
    CountOneOff(m.edges, Waits(m.slots), m.lastGen, k, past, r, rest);
  }

  /** Counting an entry off right after resuming it, with the guard against underflow that the source
      has, is the same as resuming all entries and counting them off together: every entry is dead by
      the time it is counted, so the guard never matters. */
  lemma {:induction false} ResumeEntriesExact(c: Core, k: nat, past: seq<Reg>, rs: seq<Reg>)
    requires WaitInv(c) && k < |c.edges.queues| && c.edges.queues[k] == past + rs
    requires Count(past, LiveUnder(Waits(c.slots))) == 0
    ensures ResumeEntries(Shift(c, |past|), rs) == Shift(ResumeAll(c, rs), |past| + |rs|)
    decreases |rs|
  {
    hide WaitInv, Evolves;
    if rs != [] {
      assert rs == [rs[0]] + rs[1..];
      var m := ResumeReg(c, rs[0]);
      ResumeEntryQueue(c, k, past, rs[0], rs[1..]);
      ResumeRegKeeps(c, rs[0]);
      ResumeEntryStep(c, m, k, past, rs[0], rs[1..]);
      ResumeEntriesExact(m, k, past + [rs[0]], rs[1..]);
    }
  }

  lemma {:induction false} CountAppend(a: seq<Reg>, b: seq<Reg>, m: Measure)
    ensures Count(a + b, m) == Count(a, m) + Count(b, m)
  {
    if b == [] {
      assert a + b == a;
    } else {
      var n := |b| - 1;
      CountAppend(a, b[..n], m);
      assert (a + b)[..|a + b| - 1] == a + b[..n];
    }
  }

  lemma PastStaysDead(c: Core, m: Core, past: seq<Reg>, r: Reg)
    requires Woken(c, [r], m) && Count(past, LiveUnder(Waits(c.slots))) == 0
    ensures Count(past + [r], LiveUnder(Waits(m.slots))) == 0
  {
    WakeOne(r, Waits(c.slots));
    CountPositive(past, LiveUnder(Waits(c.slots)));
    CountNone(past, LiveUnder(Waits(m.slots)));
    CountPush(past, r, LiveUnder(Waits(m.slots)));
  }

  lemma ResumeEdgeQueueIs(c: Core, k: nat)
    requires WaitInv(c) && k < |c.edges.queues|
    ensures var rs := c.edges.queues[k]; var a := ResumeAll(c, rs);
      ResumeEdgeQueue(c, k) == a.(edges := E.ClearQueue(CountOff(a.edges, |rs|), k))
  {
    hide WaitInv, Evolves, Steady;
    var rs := c.edges.queues[k];
    assert [] + rs == rs && Shift(c, 0) == c;
    ResumeEntriesExact(c, k, [], rs);
  }

  /** A queue without live entries can be emptied. */
  lemma ClearHeld(a: Core, k: nat)
    requires k < |a.edges.queues| && Count(a.edges.queues[k], LiveUnder(Waits(a.slots))) == 0
    ensures var d := a.(edges := E.ClearQueue(CountOff(a.edges, |a.edges.queues[k]|), k));
      forall i :: 0 <= i < |d.slots| && d.slots[i].Token().Some? ==> SameHeld(a, d, i, d.slots[i].gen)
  {
    hide HeldOf, Count;
    forall i | 0 <= i < |a.slots| && a.slots[i].Token().Some?
      ensures HeldOf(a.edges.queues[k], i, a.slots[i].gen) == [] == HeldOf([], i, a.slots[i].gen)
    {
      HeldDead(a.edges.queues[k], Waits(a.slots), i, a.slots[i].gen);
      HeldNone([], i, a.slots[i].gen);
    }
  }

  lemma ClearQueueKeeps(a: Core, k: nat)
    requires WaitInv(a) && k < |a.edges.queues| && Count(a.edges.queues[k], LiveUnder(Waits(a.slots))) == 0
    ensures var d := a.(edges := E.ClearQueue(CountOff(a.edges, |a.edges.queues[k]|), k)); WaitInv(d) && Evolves(a, d)
  {
    hide SameHeld;
    var n := |a.edges.queues[k]|;
    E.ClearKeeps(a.edges, Waits(a.slots), a.lastGen, k);
    ClearHeld(a, k);
    SettlesSlots(a, a.(edges := E.ClearQueue(CountOff(a.edges, n), k)));
    assert E.ClearQueue(CountOff(a.edges, n), k) == CountOff(E.ClearQueue(a.edges, k), n);
  }

  lemma ResumeEdgeQueueKeeps(c: Core, k: nat)
    requires WaitInv(c)
    ensures WaitInv(ResumeEdgeQueue(c, k)) && Evolves(c, ResumeEdgeQueue(c, k))
  {
    if k < |c.edges.queues| {
      var rs := c.edges.queues[k];
      var a := ResumeAll(c, rs);
      assert WaitInv(a) && Evolves(c, a) && a.edges.queues == c.edges.queues
        && Waits(a.slots) == AfterWake(rs, Waits(c.slots)) by {
        ResumeAllKeeps(c, rs);
      }
      AfterWakeAllDead(rs, Waits(c.slots));
      assert ResumeEdgeQueue(c, k) == a.(edges := E.ClearQueue(CountOff(a.edges, |rs|), k)) by {
        ResumeEdgeQueueIs(c, k);
      }
      ClearQueueKeeps(a, k);
      EvolvesTransitive(c, a, ResumeEdgeQueue(c, k));
    }
  }

  /** Delivering an edge queue wakes every coroutine with a live registration in it, once, in the
      order of registration, and nobody else, and leaves the queue empty. */
  lemma ResumeEdgeQueueWakes(c: Core, k: nat)
    requires WaitInv(c)
    ensures var d := ResumeEdgeQueue(c, k); var rs := E.QueueAt(c.edges, k);
      && SameLife(c, d) && d.clock == c.clock && d.timers == c.timers && d.lastGen == c.lastGen
      && Waits(d.slots) == AfterWake(rs, Waits(c.slots))
      && ReadyAfter(c, d, WakeOrder(rs, Waits(c.slots)))
      && d.edges.queues == (if k < |c.edges.queues| then c.edges.queues[k := []] else c.edges.queues)
      && d.phases.queues == c.phases.queues
  {
    if k < |c.edges.queues| {
      ResumeEdgeQueueIs(c, k);
      ResumeAllKeeps(c, c.edges.queues[k]);
    } else {
      assert c.queue.entries == c.queue.entries + [];
    }
  }

  /** The registrations that an edge of a signal reaches: the queue of that edge first, then the queue
      that takes any edge. */
  function EdgeAudience(c: Core, signal: nat, edge: E.EdgeKind): seq<Reg> {
    E.QueueAt(c.edges, E.QueueIndex(signal, edge))
    + if edge.Any? then [] else E.QueueAt(c.edges, E.QueueIndex(signal, E.Any))
  }

  lemma DeliverEdgeKeeps(c: Core, signal: nat, edge: E.EdgeKind)
    requires WaitInv(c)
    ensures WaitInv(DeliverEdge(c, signal, edge).0) && Evolves(c, DeliverEdge(c, signal, edge).0)
  {
    var k, any := E.QueueIndex(signal, edge), E.QueueIndex(signal, E.Any);
    var a := c.(clock := c.clock.(phase := Evaluation));
    SetPhaseKeeps(c, Evaluation);
    var b := ResumeEdgeQueue(a, k);
    assert WaitInv(b) && Evolves(c, b) by {
      ResumeEdgeQueueKeeps(a, k);
      EvolvesTransitive(c, a, b);
    }
    if !edge.Any? {
      ResumeEdgeQueueKeeps(b, any);
      EvolvesTransitive(c, b, ResumeEdgeQueue(b, any));
    }
  }

  ghost predicate Delivered(c: Core, rs: seq<Reg>, d: Core) {
    && SameLife(c, d) && Waits(d.slots) == AfterWake(rs, Waits(c.slots))
    && ReadyAfter(c, d, WakeOrder(rs, Waits(c.slots)))
  }

  lemma DeliveredCompose(c: Core, first: seq<Reg>, b: Core, second: seq<Reg>, d: Core)
    requires Delivered(c, first, b) && Delivered(b, second, d)
    ensures Delivered(c, first + second, d)
    ensures WakeOrder(first + second, Waits(c.slots)) == [] <==>
      WakeOrder(first, Waits(c.slots)) == [] && WakeOrder(second, Waits(b.slots)) == []
  {
    WakeConcat(first, second, Waits(c.slots));
  }

  lemma DeliverEdgeWakes(c: Core, signal: nat, edge: E.EdgeKind)
    requires WaitInv(c)
    ensures Delivered(c, EdgeAudience(c, signal, edge), DeliverEdge(c, signal, edge).0)
    ensures DeliverEdge(c, signal, edge).1 <==> WakeOrder(EdgeAudience(c, signal, edge), Waits(c.slots)) != []
  {
    var k, any := E.QueueIndex(signal, edge), E.QueueIndex(signal, E.Any);
    var a := c.(clock := c.clock.(phase := Evaluation));
    assert WaitInv(a) by { SetPhaseKeeps(c, Evaluation); }
    var b, first, second := ResumeEdgeQueue(a, k), E.QueueAt(c.edges, k), E.QueueAt(c.edges, any);
    assert Delivered(c, first, b) && (k != any ==> E.QueueAt(b.edges, any) == second) by {
      ResumeEdgeQueueWakes(a, k);
    }
    if edge.Any? {
      assert EdgeAudience(c, signal, edge) == first;
    } else {
      var d := ResumeEdgeQueue(b, any);
      assert Delivered(b, second, d) by {
        assert WaitInv(b) by { ResumeEdgeQueueKeeps(a, k); }
        ResumeEdgeQueueWakes(b, any);
      }
      DeliveredCompose(c, first, b, second, d);
    }
  }

  /** `resume_edge` wakes exactly the coroutines with a live registration that the edge reaches. */
  lemma DeliverEdgeExact(c: Core, signal: nat, edge: E.EdgeKind)
    requires WaitInv(c)
    ensures var (d, woke) := DeliverEdge(c, signal, edge);
      var rs := EdgeAudience(c, signal, edge); var order := WakeOrder(rs, Waits(c.slots));
      && WaitInv(d) && Evolves(c, d) && SameLife(c, d)
      && ReadyAfter(c, d, order) && (woke <==> order != [])
      && (forall i: nat :: i in order <==> exists r :: r in rs && ValidReg(c, r) && r.slot == i)
      && (forall i :: 0 <= i < |c.slots| ==> d.slots[i].Token() == if i in order then None else c.slots[i].Token())
  {
    DeliverEdgeKeeps(c, signal, edge);
    DeliverEdgeWakes(c, signal, edge);
    WakeOrderExact(EdgeAudience(c, signal, edge), Waits(c.slots));
    forall r
      ensures ValidReg(c, r) <==> Live(Waits(c.slots), r)
    {
      ValidIsLive(c, r);
    }
  }

  lemma {:induction false} WakeConcat(a: seq<Reg>, b: seq<Reg>, tokens: Tokens)
    ensures WakeOrder(a + b, tokens) == WakeOrder(a, tokens) + WakeOrder(b, AfterWake(a, tokens))
    ensures AfterWake(a + b, tokens) == AfterWake(b, AfterWake(a, tokens))
    decreases |a|
  {
    if a == [] {
      assert a + b == b;
    } else {
      assert (a + b)[1..] == a[1..] + b && (a + b)[0] == a[0];
      WakeConcat(a[1..], b, if Live(tokens, a[0]) then tokens[a[0].slot := None] else tokens);
    }
  }

  // ---------------------------------------------------------------------------------------------
  // Time
  // ---------------------------------------------------------------------------------------------

  /** What it means for the timers rs to have fired between c and d. */
  ghost predicate Fired(c: Core, rs: seq<Reg>, d: Core) {
    && Waits(d.slots) == AfterWake(rs, Waits(c.slots))
    && ReadyAfter(c, d, WakeOrder(rs, Waits(c.slots)))
    && SameLife(c, d) && d.lastGen == c.lastGen && d.clock == c.clock
  }

  /** Dropping timers that are dead changes no slot's sources. */
  lemma SettlesTimers(c: Core, d: Core)
    requires d == c.(timers := d.timers)
    requires forall t :: t in T.All(d.timers) ==> t in T.All(c.timers)
    requires forall t :: t in T.All(c.timers) && Live(Waits(c.slots), t.reg) ==> t in T.All(d.timers)
    requires forall i: nat, g: nat :: i < |c.slots| && c.slots[i].Token() == Some(g) ==>
      T.HeldTimers(T.All(d.timers), i, g) == T.HeldTimers(T.All(c.timers), i, g)
    ensures Settles(c, d)
  {
    forall i | 0 <= i < |d.slots|
      ensures SettledAt(c, d, i)
    {
    }
  }

  lemma HeldStay(c: Core)
    ensures forall i: nat, g: nat :: i < |c.slots| && c.slots[i].Token() == Some(g) ==>
      T.HeldTimers(T.DropDead(T.All(c.timers), Waits(c.slots)), i, g) == T.HeldTimers(T.All(c.timers), i, g)
  {
    forall i: nat, g: nat | i < |c.slots| && c.slots[i].Token() == Some(g)
      ensures T.HeldTimers(T.DropDead(T.All(c.timers), Waits(c.slots)), i, g) == T.HeldTimers(T.All(c.timers), i, g)
    {
      T.HeldDropDead(T.All(c.timers), Waits(c.slots), i, g);
    }
  }

  lemma DiscardKeepsCore(c: Core)
    requires WaitInv(c)
    ensures var d := c.(timers := T.Discard(c.timers, Waits(c.slots))); WaitInv(d) && Evolves(c, d)
  {
    hide Settles;
    T.DiscardKeeps(c.timers, Waits(c.slots), |c.slots|, c.lastGen);
    T.DiscardExact(c.timers, Waits(c.slots));
    T.DropDeadExact(T.All(c.timers), Waits(c.slots));
    HeldStay(c);
    SettlesTimers(c, c.(timers := T.Discard(c.timers, Waits(c.slots))));
  }

  /** Taking the first timer and waking its slot. */
  lemma TakeTimerKeeps(c: Core)
    requires WaitInv(c) && c.timers.next.Some? && Live(Waits(c.slots), c.timers.next.value.reg)
    ensures var r := c.timers.next.value.reg; var d := ResumeReg(c.(timers := c.timers.(next := None)), r);
      && WaitInvButCache(d) && Evolves(c, d) && Fired(c, [r], d)
      && d.timers == c.timers.(next := None)
  {
    hide WaitInv, WaitInvButCache, Evolves, Steady;
    var r := c.timers.next.value.reg;
    var a := ResumeReg(c, r);
    ResumeRegKeeps(c, r);
    ResumeRegWakes(c, r);
    var d := ResumeReg(c.(timers := c.timers.(next := None)), r);
    assert d == a.(timers := c.timers.(next := None));
    WakeOne(r, Waits(c.slots));
    assert !Live(Waits(a.slots), r);
    DropDeadNext(c, a);
  }

  /** The first timer can be taken once its slot no longer waits for it. */
  lemma DropDeadNext(c: Core, a: Core)
    requires WaitInv(a) && Evolves(c, a) && a.timers.next.Some? && !Live(Waits(a.slots), a.timers.next.value.reg)
    ensures var d := a.(timers := a.timers.(next := None)); WaitInvButCache(d) && Evolves(c, d)
  {
    hide WaitInv, WaitInvButCache, Evolves;
    TakeDead(a);
    EvolvesTransitive(c, a, a.(timers := a.timers.(next := None)));
  }

  lemma TakeDead(a: Core)
    requires WaitInv(a) && a.timers.next.Some? && !Live(Waits(a.slots), a.timers.next.value.reg)
    ensures var d := a.(timers := a.timers.(next := None)); WaitInvButCache(d) && Evolves(a, d)
  {
    hide T.HeldTimers, Settles, E.Announced, T.Earliest, WaitInv, WaitInvButCache, NoneRevived;
    E.AnnouncedRefl(a.edges.interest);
    var d := a.(timers := a.timers.(next := None));
    assert T.All(a.timers)[0] == a.timers.next.value && T.All(d.timers) == T.All(a.timers)[1..];
    TailKeeps(a);
    SlotsUnmoved(a, d);
    EarliestTail(T.All(a.timers), Waits(a.slots));
    HeldTail(a);
    SettlesTimers(a, d);
  }

  lemma TailKeeps(a: Core)
    requires WaitInv(a) && a.timers.next.Some?
    ensures WaitInvButCache(a.(timers := a.timers.(next := None)))
  {
    hide E.EdgeInv, P.PhaseInv;
    assert T.All(a.timers.(next := None)) == T.All(a.timers)[1..];
  }

  lemma SlotsUnmoved(c: Core, d: Core)
    requires d.slots == c.slots && d.lastGen == c.lastGen
    ensures NoneRevived(c, d)
  {
  }

  lemma HeldTail(a: Core)
    requires T.All(a.timers) != [] && !Live(Waits(a.slots), T.All(a.timers)[0].reg)
    ensures forall i: nat, g: nat :: i < |a.slots| && a.slots[i].Token() == Some(g) ==>
      T.HeldTimers(T.All(a.timers)[1..], i, g) == T.HeldTimers(T.All(a.timers), i, g)
  {
  }

  lemma EarliestTail(ts: seq<T.Timer>, tokens: Tokens)
    requires ts != [] && !Live(tokens, ts[0].reg)
    ensures T.Earliest(ts[1..], tokens) == T.Earliest(ts, tokens)
  {
  }

  /** The invariant while the cached timer has just been taken and not yet replaced. */
  ghost predicate WaitInvButCache(c: Core) {
    && SlotsOk(c.slots, c.lastGen) && QueueInv(c.slots, c.queue)
    && E.EdgeInv(c.edges, Waits(c.slots), c.lastGen) && P.PhaseInv(c.phases, Waits(c.slots), c.lastGen)
    && T.Sorted(T.All(c.timers)) && T.Genuine(T.All(c.timers), |c.slots|, c.lastGen, c.timers.nextOrder)
    && c.clock.now <= T.NO_DEADLINE
  }

  /** Discarding stale timers drops the dead ones in front, refilling the cache from the heap. */
  lemma DiscardRestores(c: Core)
    requires WaitInvButCache(c)
    ensures var d := c.(timers := T.Discard(c.timers, Waits(c.slots)));
      && WaitInv(d) && Evolves(c, d) && T.All(d.timers) == T.DropDead(T.All(c.timers), Waits(c.slots))
      && (d.timers.next.Some? ==> Live(Waits(c.slots), d.timers.next.value.reg))
      && (d.timers.next.None? ==> d.timers.heap == [])
  {
    var q := Refilled(c.timers);
    var f := c.(timers := q);
    RefilledKeeps(c);
    T.DiscardExact(q, Waits(c.slots));
    assert T.Discard(c.timers, Waits(c.slots)) == T.Discard(q, Waits(c.slots));
    DiscardKeepsCore(f);
    EvolvesTransitive(c, f, c.(timers := T.Discard(q, Waits(c.slots))));
  }

  /** The cache filled from the heap when it is empty. */
  function Refilled(q: T.TimerTable): T.TimerTable {
    if q.next.None? && q.heap != [] then q.(next := Some(q.heap[0]), heap := q.heap[1..]) else q
  }

  lemma RefilledKeeps(c: Core)
    requires WaitInvButCache(c)
    ensures var f := c.(timers := Refilled(c.timers));
      WaitInv(f) && Evolves(c, f) && T.All(f.timers) == T.All(c.timers)
  {
    var f := c.(timers := Refilled(c.timers));
    assert T.All(f.timers) == T.All(c.timers);
    SettlesSlots(c, f);
  }

  /** The registrations of the timers that are due, in the order of deadline and registration. */
  function DueRegs(c: Core, now: nat): seq<Reg> {
    T.DueRegs(T.All(c.timers), now)
  }

  /** One turn of the loop that takes a timer. */
  lemma FireOne(c: Core)
    requires WaitInvButCache(c)
    requires var q := T.Discard(c.timers, Waits(c.slots)); q.next.Some? && q.next.value.deadline <= c.clock.now
    ensures var q := T.Discard(c.timers, Waits(c.slots));
      var d := ResumeReg(c.(timers := q.(next := None)), q.next.value.reg);
      var live := T.DropDead(T.All(c.timers), Waits(c.slots));
      && WaitInvButCache(d) && Evolves(c, d) && Fired(c, [q.next.value.reg], d)
      && live != [] && live[0] == q.next.value && T.All(d.timers) == live[1..]
      && Live(Waits(c.slots), q.next.value.reg)
  {
    var b := c.(timers := T.Discard(c.timers, Waits(c.slots)));
    DiscardRestores(c);
    TakeTimerKeeps(b);
    EvolvesTransitive(c, b, ResumeReg(b.(timers := b.timers.(next := None)), b.timers.next.value.reg));
    assert T.All(b.timers)[0] == b.timers.next.value && T.All(b.timers)[1..] == b.timers.heap;
  }

  lemma {:induction false} FireTimersKeeps(c: Core)
    requires WaitInvButCache(c)
    ensures WaitInv(FireTimers(c).0) && Evolves(c, FireTimers(c).0)
    ensures Soonest(FireTimers(c).0) > c.clock.now || T.All(FireTimers(c).0.timers) == []
    decreases T.Size(c.timers)
  {
    hide WaitInvButCache, WaitInv, Evolves;
    var q := T.Discard(c.timers, Waits(c.slots));
    if q.next.Some? && q.next.value.deadline <= c.clock.now {
      var d := ResumeReg(c.(timers := q.(next := None)), q.next.value.reg);
      FireOne(c);
      FireTimersKeeps(d);
      EvolvesTransitive(c, d, FireTimers(d).0);
    } else {
      DiscardRestores(c);
    }
  }

  lemma FiredCompose(c: Core, r: Reg, d: Core, rs: seq<Reg>, e: Core)
    requires Live(Waits(c.slots), r) && Fired(c, [r], d) && Fired(d, rs, e)
    ensures Fired(c, [r] + rs, e) && WakeOrder([r] + rs, Waits(c.slots)) != []
  {
    WakeCons(r, rs, Waits(c.slots));
    WakeOne(r, Waits(c.slots));
  }

  lemma {:induction false} FireTimersWakes(c: Core)
    requires WaitInvButCache(c)
    ensures Fired(c, DueRegs(c, c.clock.now), FireTimers(c).0)
    ensures FireTimers(c).1 <==> WakeOrder(DueRegs(c, c.clock.now), Waits(c.slots)) != []
    decreases T.Size(c.timers)
  {
    var q := T.Discard(c.timers, Waits(c.slots));
    if q.next.Some? && q.next.value.deadline <= c.clock.now {
      var d := ResumeReg(c.(timers := q.(next := None)), q.next.value.reg);
      FireOne(c);
      FireTimersWakes(d);
      T.DueWakes(T.All(c.timers), Waits(c.slots), c.clock.now);
      FiredCompose(c, q.next.value.reg, d, DueRegs(d, c.clock.now), FireTimers(d).0);
    } else {
      FireNothing(c);
    }
  }

  lemma FireNothing(c: Core)
    requires WaitInvButCache(c)
    requires var q := T.Discard(c.timers, Waits(c.slots)); q.next.None? || q.next.value.deadline > c.clock.now
    ensures Fired(c, DueRegs(c, c.clock.now), FireTimers(c).0)
    ensures WakeOrder(DueRegs(c, c.clock.now), Waits(c.slots)) == []
  {
    var b := c.(timers := T.Discard(c.timers, Waits(c.slots)));
    DiscardRestores(c);
    var live := T.DropDead(T.All(c.timers), Waits(c.slots));
    assert live != [] ==> live[0] == b.timers.next.value;
    T.DueWakes(T.All(c.timers), Waits(c.slots), c.clock.now);
    assert c.queue.entries == c.queue.entries + [];
  }

  lemma SetTimeKeeps(c: Core, time: nat)
    requires WaitInv(c) && time <= T.NO_DEADLINE
    ensures var d := c.(clock := c.clock.(phase := Evaluation, now := time)); WaitInv(d) && Evolves(c, d)
  {
    EvolvesTables(c, c.(clock := c.clock.(phase := Evaluation, now := time)));
  }

  lemma DeliverTimeKeeps(c: Core, time: nat)
    requires WaitInv(c) && time <= T.NO_DEADLINE
    ensures var d := DeliverTime(c, time).0;
      WaitInv(d) && Evolves(c, d) && (Soonest(d) > time || T.All(d.timers) == [])
  {
    hide WaitInv, Evolves, Steady;
    var a := c.(clock := c.clock.(phase := Evaluation, now := time));
    SetTimeKeeps(c, time);
    if a.timers.next.None? || a.timers.next.value.deadline > time {
      AllLater(a, time);
    } else {
      var (d, popped) := FireTimers(a);
      CacheIsSound(a);
      FireTimersKeeps(a);
      EvolvesTransitive(c, a, d);
      MarkChangedKeeps(c, d);
    }
  }

  lemma CacheIsSound(c: Core)
    requires WaitInv(c)
    ensures WaitInvButCache(c)
  {
  }

  lemma MarkChangedKeeps(c: Core, d: Core)
    requires WaitInv(d) && Evolves(c, d)
    ensures WaitInv(ScheduleChanged(d)) && Evolves(c, ScheduleChanged(d)) && Soonest(ScheduleChanged(d)) == Soonest(d)
  {
    assert T.All(ScheduleChanged(d).timers) == T.All(d.timers);
    assert Evolves(d, ScheduleChanged(d)) by { SettlesSlots(d, ScheduleChanged(d)); }
    EvolvesTransitive(c, d, ScheduleChanged(d));
  }

  /** A cached timer that is not due, dead or alive, means that no timer is due. */
  lemma AllLater(c: Core, time: nat)
    requires WaitInv(c) && (c.timers.next.None? || c.timers.next.value.deadline > time)
    ensures DueRegs(c, time) == []
    ensures Soonest(c) > time || T.All(c.timers) == []
  {
    var all := T.All(c.timers);
    if all != [] {
      assert all[0] == c.timers.next.value;
      assert all[0] in all;
      T.EarliestExact(all, Waits(c.slots));
      forall t | t in all
        ensures t.deadline > time
      {
        var k :| 0 <= k < |all| && all[k] == t;
        assert k == 0 || T.Before(all[0], all[k]);
      }
    }
  }

  lemma DeliverTimeWakes(c: Core, time: nat)
    requires WaitInv(c) && time <= T.NO_DEADLINE
    ensures var (d, woke) := DeliverTime(c, time);
      var order := WakeOrder(DueRegs(c, time), Waits(c.slots));
      && SameLife(c, d) && ReadyAfter(c, d, order) && (woke <==> order != [])
      && Waits(d.slots) == AfterWake(DueRegs(c, time), Waits(c.slots))
  {
    var a := c.(clock := c.clock.(phase := Evaluation, now := time));
    SetTimeKeeps(c, time);
    assert DueRegs(a, time) == DueRegs(c, time);
    if a.timers.next.None? || a.timers.next.value.deadline > time {
      AllLater(a, time);
      assert DueRegs(c, time) == [];
      assert c.queue.entries == c.queue.entries + [];
    } else {
      FireTimersWakes(a);
    }
  }

  /** Advancing to a time wakes every coroutine with a live timer due by then, once, in the order of
      deadline and registration, and nobody else. */
  lemma DeliverTimeExact(c: Core, time: nat)
    requires WaitInv(c) && time <= T.NO_DEADLINE
    ensures var (d, woke) := DeliverTime(c, time);
      var order := WakeOrder(DueRegs(c, time), Waits(c.slots));
      && SameLife(c, d) && ReadyAfter(c, d, order) && (woke <==> order != [])
      && (forall i: nat :: i in order <==> HasDueTimer(c, i, time))
      && (forall i :: 0 <= i < |c.slots| ==> d.slots[i].Token() == if i in order then None else c.slots[i].Token())
  {
    DeliverTimeWakes(c, time);
    WakeOrderExact(DueRegs(c, time), Waits(c.slots));
    forall i: nat
      ensures i in WakeOrder(DueRegs(c, time), Waits(c.slots)) <==> HasDueTimer(c, i, time)
    {
      DueMembers(c, time, i);
    }
  }

  ghost predicate HasDueTimer(c: Core, i: nat, time: nat) {
    exists t :: t in T.All(c.timers) && t.deadline <= time && ValidReg(c, t.reg) && t.reg.slot == i
  }

  lemma DueMembers(c: Core, time: nat, i: nat)
    requires T.Sorted(T.All(c.timers))
    ensures (exists r :: r in DueRegs(c, time) && Live(Waits(c.slots), r) && r.slot == i) <==> HasDueTimer(c, i, time)
  {
    var all := T.All(c.timers);
    if r :| r in DueRegs(c, time) && Live(Waits(c.slots), r) && r.slot == i {
      T.DueRegsExact(all, time, r);
      ValidIsLive(c, r);
    }
    if t :| t in all && t.deadline <= time && ValidReg(c, t.reg) && t.reg.slot == i {
      T.DueRegsExact(all, time, t.reg);
      ValidIsLive(c, t.reg);
    }
  }
}
