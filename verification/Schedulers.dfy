/** The class `Scheduler`: the source's methods, with its loops and its updates in place, each shown to
do what the function of the same purpose says. A check that aborts when a counter would underflow is an
assertion here: the invariant shows that it never fails. */
module Schedulers {
  import opened Registrations
  import opened WaitCore
  import opened SchedulerState
  import opened SchedulerLife
  import opened SchedulerEnd
  import opened Cancellation
  import opened Delivery
  import opened SchedulerRun
  import opened ReadyRun
  import SchedulerRuns
  import E = EdgeWaits
  import P = PhaseWaits
  import T = TimerQueue

  /** Every counter is at least the number of times it occurs in ks. */
  ghost predicate Covers(n: E.Interest, ks: seq<nat>) {
    && (forall k: nat :: E.CountAt(n, k) >= multiset(ks)[k])
    && (forall k :: k in ks ==> k < |n.counts|)
  }

  lemma DropCounts(n: E.Interest, k: nat)
    requires k < |n.counts|
    ensures E.DropInterest(n, k).counts == n.counts[k := n.counts[k] - 1]
  {
  }

  /** Lowering the counter of the first one keeps the others covered. */
  lemma DropCovers(n: E.Interest, ks: seq<nat>)
    requires Covers(n, ks) && ks != []
    ensures ks[0] < |n.counts| && n.counts[ks[0]] > 0
    ensures Covers(E.DropInterest(n, ks[0]), ks[1..])
  {
    hide E.DropInterest;
    var first, rest := ks[0], ks[1..];
    assert ks == [first] + rest;
    var all: multiset<nat>, left: multiset<nat> := multiset(ks), multiset(rest);
    assert forall k: nat :: all[k] == left[k] + if k == first then 1 else 0;
    assert first in ks && E.CountAt(n, first) > 0;
    DropCounts(n, first);
    forall k | k in rest
      ensures k < |n.counts|
    {
      assert k in ks;
    }
  }

  /** The counters are at least what ending the wait of slot i takes off them. */
  ghost predicate Covered(c: Core, i: nat) {
    && i < |c.slots| && |c.edges.waits| == |c.edges.fallingWaits| == |c.edges.indices| == |c.slots| == |c.phases.waits|
    && Covers(c.edges.interest, c.edges.indices[i])
    && PhasesCover(c.phases, i)
  }

  ghost predicate PhasesCover(t: P.PhaseTable, i: nat) {
    && i < |t.waits| && |t.counts| == |t.waits[i]| == P.PHASES
    && forall p :: 0 <= p < P.PHASES ==> t.waits[i][p] <= t.counts[p]
  }

  lemma TablesCover(c: Core, i: nat)
    requires E.EdgeInv(c.edges, Waits(c.slots), c.lastGen) && P.PhaseInv(c.phases, Waits(c.slots), c.lastGen)
    requires i < |c.slots|
    ensures Covered(c, i)
  {
    forall k: nat
      ensures E.CountAt(c.edges.interest, k) >= multiset(c.edges.indices[i])[k]
      ensures k in c.edges.indices[i] ==> k < |c.edges.interest.counts|
    {
      E.InterestCoversWait(c.edges, Waits(c.slots), c.lastGen, i, k);
    }
    forall p | 0 <= p < P.PHASES
      ensures c.phases.waits[i][p] <= c.phases.counts[p]
    {
      P.CountsCoverWait(c.phases, Waits(c.slots), c.lastGen, i, p);
    }
  }

  lemma InvCovers(c: Core, r: Reg)
    requires WaitInv(c)
    ensures ValidReg(c, r) ==> Covered(c, r.slot)
  {
    if ValidReg(c, r) {
      TablesCover(c, r.slot);
    }
  }

  /** The source marks the wait before it clears the ready flag; the order does not matter. */
  lemma BeginOrder(c: Core, i: nat, reason: WaitReason)
    requires i < |c.slots|
    ensures var a := EndWait(c, i); var x := a.slots[i].(waiting := true, progress := ReasonProgress(reason));
      var b := ClearReady(a.(slots := a.slots[i := x]), i);
      BeginWait(c, i, reason) == b.(slots := b.slots[i := b.slots[i].(gen := c.lastGen + 1)], lastGen := c.lastGen + 1)
  {
    var a := EndWait(c, i);
    var x := a.slots[i].(waiting := true, progress := ReasonProgress(reason));
    var b := ClearReady(a.(slots := a.slots[i := x]), i);
    var d := ClearReady(a, i);
    assert b.slots[i := b.slots[i].(gen := c.lastGen + 1)]
        == d.slots[i := d.slots[i].(waiting := true, progress := ReasonProgress(reason), gen := c.lastGen + 1)];
  }

  lemma TimerArmed(q: T.TimerTable, tokens: Tokens, deadline: nat, r: Reg)
    ensures var d := T.Discard(q, tokens);
      var p := T.Push(d.(nextOrder := d.nextOrder + 1), T.Timer(deadline, d.nextOrder, r));
      T.AddTimer(q, tokens, deadline, r)
        == if deadline < T.NextDeadline(q, tokens) then p.(changed := true) else p
  {
    DiscardOrder(q, tokens);
  }

  lemma {:induction false} DiscardOrder(q: T.TimerTable, tokens: Tokens)
    ensures T.Discard(q, tokens).nextOrder == q.nextOrder
    decreases |q.heap|
  {
    if !(q.next.Some? && Live(tokens, q.next.value.reg)) && q.heap != [] {
      DiscardOrder(q.(next := Some(q.heap[0]), heap := q.heap[1..], changed := q.changed || q.next.Some?), tokens);
    }
  }

  lemma NoteGen(c: Core, i: nat, request: Request)
    ensures Note(c, i, request).lastGen == c.lastGen
  {
  }

  /** Whether anybody is woken, one registration at a time. */
  lemma WakesStep(c: Core, rs: seq<Reg>)
    requires WaitInv(c) && rs != []
    ensures Wakes(c, rs) == (ValidReg(c, rs[0]) || Wakes(ResumeReg(c, rs[0]), rs[1..]))
  {
    hide WaitInv;
    ResumeRegWakes(c, rs[0]);
    WakeOne(rs[0], Waits(c.slots));
    ValidIsLive(c, rs[0]);
  }

  lemma ShiftCovers(m: Core, n: nat, r: Reg)
    requires WaitInv(m)
    ensures ValidReg(Shift(m, n), r) == ValidReg(m, r)
    ensures ValidReg(m, r) ==> Covered(Shift(m, n), r.slot)
  {
    InvCovers(m, r);
  }

  /** One turn of the loop over an edge queue, with the counters already lowered for n entries. */
  lemma QueueTurn(m: Core, k: nat, rs: seq<Reg>, n: nat)
    requires WaitInv(m) && k < |m.edges.queues| && m.edges.queues[k] == rs && n < |rs|
    requires Count(rs[..n], LiveUnder(Waits(m.slots))) == 0
    ensures var d := ResumeReg(m, rs[n]); var s := ResumeReg(Shift(m, n), rs[n]);
      && WaitInv(d) && d.edges.queues == m.edges.queues && Count(rs[..n + 1], LiveUnder(Waits(d.slots))) == 0
      && s.(edges := E.Consume(s.edges)) == Shift(d, n + 1)
      && ResumeEntries(Shift(m, n), rs[n..]) == ResumeEntries(Shift(d, n + 1), rs[n + 1..])
      && Wakes(m, rs[n..]) == (ValidReg(m, rs[n]) || Wakes(d, rs[n + 1..]))
    ensures ValidReg(Shift(m, n), rs[n]) == ValidReg(m, rs[n])
    ensures ValidReg(m, rs[n]) ==> Covered(Shift(m, n), rs[n].slot)
  {
    hide WaitInv, Evolves, Covered;
    var past, rest := rs[..n], rs[n + 1..];
    assert rs == past + ([rs[n]] + rest) && rs[..n + 1] == past + [rs[n]] && rs[n..][1..] == rest;
    ShiftCovers(m, n, rs[n]);
    WakesStep(m, rs[n..]);
    ResumeEntryQueue(m, k, past, rs[n], rest);
    ResumeRegKeeps(m, rs[n]);
    ResumeRegWakes(m, rs[n]);
    ResumeEntryStep(m, ResumeReg(m, rs[n]), k, past, rs[n], rest);
  }

  lemma WakesPhase(c: Core, rs: seq<Reg>)
    ensures forall clock :: Wakes(c.(clock := clock), rs) == Wakes(c, rs)
  {
  }

  lemma FireCovers(c: Core)
    requires WaitInvButCache(c)
    ensures var q := T.Discard(c.timers, Waits(c.slots)); var d := c.(timers := q.(next := None));
      q.next.Some? && q.next.value.deadline <= c.clock.now ==>
        ValidReg(d, q.next.value.reg) && Covered(d, q.next.value.reg.slot)
  {
    hide Covered;
    var q := T.Discard(c.timers, Waits(c.slots));
    if q.next.Some? && q.next.value.deadline <= c.clock.now {
      FireOne(c);
      TablesCover(c.(timers := q.(next := None)), q.next.value.reg.slot);
    }
  }

  lemma PhaseQueuesStay(c: Core, rs: seq<Reg>)
    requires WaitInv(c)
    ensures ResumeAll(c, rs).phases.queues == c.phases.queues
  {
    ResumeAllKeeps(c, rs);
  }

  lemma RemovedStep(qs: seq<seq<Reg>>, k: nat, tokens: Tokens)
    requires k < |qs|
    ensures E.Removed(qs[..k + 1], tokens) == E.Removed(qs[..k], tokens) + |qs[k]| - |LiveOnly(qs[k], tokens)|
  {
    var more, less := E.CompactAll(qs[..k + 1], tokens), E.CompactAll(qs[..k], tokens);
    assert qs[..k + 1][..k] == qs[..k] && more[..k] == less;
    CountEvery(qs[k]);
    CountEvery(LiveOnly(qs[k], tokens));
  }

  lemma AdoptControls(s: Sched, link: Link, control: Option<nat>)
    ensures Adopt(s, link, control).controls == s.controls
  {
  }

  /** The intermediate states of `finish`. */
  lemma FinishParts(s: Sched, i: nat)
    requires SchedInv(s) && s.Alive(i)
    ensures s.core.slots[i].waiting ==> Covered(s.core, i)
    ensures !s.core.slots[i].waiting ==> EndWait(s.core, i) == s.core
    ensures var a := s.(core := EndWait(s.core, i)); var b := a.(core := StopReady(a.core, i)); var c := MarkDone(b, i);
      && i < |b.core.slots| && i < |c.core.slots| && WaitInv(c.core)
      && b.core == ClearReady(a.core, i)
      && c.core.slots[i].life == s.core.slots[i].life.(done := true)
  {
    hide LifeInv, RunInv, Evolves;
    InvCovers(s.core, Reg(i, s.core.slots[i].gen, None));
    QuietKeeps(s.core, i);
    DoneKeeps(StopReady(EndWait(s.core, i), i), i, s.core.slots[i].life.(done := true));
  }

  /** The intermediate states of `cancel_state` after the children. */
  lemma CancelParts(s: Sched, i: nat)
    requires SchedInv(s) && s.Alive(i)
    ensures s.core.slots[i].waiting ==> Covered(s.core, i)
    ensures |EndWait(s.core, i).slots| == |s.core.slots| && EndWait(s.core, i).lastGen == s.core.lastGen
    ensures var a := s.(core := StopWaiting(s.core, i)); var b := MarkDone(a, i); var c := Unlink(b, i);
      && i < |a.core.slots| && i < |b.core.slots| && WaitInv(c.core)
      && a.core == ClearReady(Regenerate(EndWait(s.core, i), i), i)
      && b.core.slots[i].life == s.core.slots[i].life.(done := true)
      && c == b.(core := SetLife(b.core, i, b.core.slots[i].life.(link := Root)))
      && i < |c.core.slots| && c.core.slots[i].life.control == s.core.slots[i].life.control
  {
    hide LifeInv, RunInv, Evolves, Covered;
    InvCovers(s.core, Reg(i, s.core.slots[i].gen, None));
    SlotIsOk(s.core, i);
    EndWaitKeeps(s.core, i);
    StopWaitingKeeps(s.core, i);
    var x := s.core.slots[i].life.(done := true);
    var a := StopWaiting(s.core, i);
    DoneKeeps(a, i, x);
    DoneKeeps(SetLife(a, i, x), i, x.(link := Root));
  }

  /** One turn of the loop over the children. */
  lemma CancelTurn(t: Sched, rest: seq<nat>, i: nat)
    requires SchedInv(t) && Linked(t) && i < |t.core.slots| && rest != []
    requires AllYounger(t, rest, i) && AllChildren(t, rest)
    ensures rest[0] < |t.core.slots|
    ensures var u := CancelState(t, rest[0]);
      && SchedInv(u) && Linked(u) && i < |u.core.slots| && Rank(u, i) == Rank(t, i)
      && AllYounger(u, rest[1..], i) && AllChildren(u, rest[1..])
      && CancelEach(u, rest[1..], i) == CancelEach(t, rest, i)
  {
    hide SchedInv, CancelledAs, AllYounger, AllChildren, Cut, Linked;
    YoungerHead(t, rest, i);
    HeadIsChild(t, rest);
    CancelStateExact(t, rest[0]);
    var u := CancelState(t, rest[0]);
    YoungerTail(t, u, rest, i);
    CancelledStep(t, u, Dependents(t, rest[0]), t.core.slots[rest[0]].life.link != Root);
    AllChildrenAfter(t, u, rest, Dependents(t, rest[0]));
  }

  lemma CancelledStep(s: Sched, t: Sched, gone: set<nat>, spares: bool)
    requires CancelledAs(s, t, gone, spares)
    ensures SchedInv(t) && Cut(s, t, gone)
  {
  }

  lemma RequestShape(s: Sched, p: nat)
    requires Linked(s) && p < |s.controls|
    ensures Linked(s.(controls := s.controls[p := s.controls[p].(requested := true)]))
  {
    ShapeKeepsLinked(s, s.(controls := s.controls[p := s.controls[p].(requested := true)]));
  }

  /** One turn of the loop over the requested cancellations. */
  lemma RequestedTurn(t: Sched, p: nat)
    requires SchedInv(t) && Linked(t)
    ensures p < |t.controls| && !t.controls[p].done ==>
      t.controls[p].slot < |t.core.slots| && t.core.slots[t.controls[p].slot].life.occupied
    ensures SchedInv(CancelRequested(t, p)) && Linked(CancelRequested(t, p))
  {
    hide SchedInv, Linked, Keeps, SameShape;
    if p < |t.controls| && !t.controls[p].done {
      LivingProcess(t, p);
    }
    CancelRequestedStep(t, p);
    KeepsInv(t, CancelRequested(t, p));
    ShapeKeepsLinked(t, CancelRequested(t, p));
  }

  ghost predicate RunnableNode(s: Sched, i: nat)
    requires i < |s.core.slots|
  {
    && s.Alive(i) && (forall k :: 0 <= k < |s.core.slots| ==> !GraphChild(s, k, i))
    && (s.core.slots[i].ready || Running(s.frames) == Some(i))
  }

  ghost predicate SomeRunnable(s: Sched, n: nat)
    requires n <= |s.core.slots|
  {
    exists k :: 0 <= k < n && RunnableNode(s, k)
  }

  lemma SomeRunnableStep(s: Sched, n: nat)
    requires n < |s.core.slots|
    ensures SomeRunnable(s, n + 1) <==> SomeRunnable(s, n) || RunnableNode(s, n)
  {
    if SomeRunnable(s, n) {
      var k :| 0 <= k < n && RunnableNode(s, k);
      assert 0 <= k < n + 1;
    }
  }

  lemma NodeIs(s: Sched, i: nat)
    requires s.Alive(i)
    ensures RunnableNode(s, i) <==>
      (forall k :: 0 <= k < |s.core.slots| ==> !GraphChild(s, k, i))
      && (s.core.slots[i].ready || Running(s.frames) == Some(i))
  {
  }

  lemma AllRunnable(s: Sched)
    ensures SomeRunnable(s, |s.core.slots|) <==> AnyRunnable(s)
  {
    if AnyRunnable(s) {
      var i :| 0 <= i < |s.core.slots| && s.Alive(i)
               && (forall k :: 0 <= k < |s.core.slots| ==> !GraphChild(s, k, i))
               && (s.core.slots[i].ready || Running(s.frames) == Some(i));
      assert RunnableNode(s, i);
    }
  }

  lemma ForgetFrom(finished: seq<Option<nat>>, i: nat, k: nat, after: seq<Option<nat>>)
    requires k <= |finished| && (k < |finished| ==> finished[k] == Some(i))
    requires Forget(finished, i) == finished[..k] + Forget(finished[k..], i)
    requires after == if k < |finished| then finished[k := None] else finished
    ensures after == Forget(finished, i)
  {
    if k < |finished| {
      assert finished[k..][1..] == finished[k + 1..];
      assert after == finished[..k] + ([None] + finished[k + 1..]);
    }
  }

  lemma FramePopped(s: Sched)
    requires SchedInv(s) && Linked(s) && s.frames != [] && !s.frames[|s.frames| - 1].Timing?
    ensures var t := s.(frames := s.frames[..|s.frames| - 1]); SchedInv(t) && Linked(t)
  {
    hide SchedInv;
    PopFrameKeeps(s);
    ShapeKeepsLinked(s, s.(frames := s.frames[..|s.frames| - 1]));
  }

  class Scheduler {
    var slots: seq<Slot>
    var lastGen: nat
    var lastId: nat
    var edges: E.EdgeTable
    var phases: P.PhaseTable
    var timers: T.TimerTable
    var clock: Clock
    var queue: ReadyQueue
    var draining: bool
    var frames: seq<Frame>
    var pool: Pool
    var controls: seq<Control>
    var cancels: seq<nat>
    var joins: seq<Join>

    /** The signals configured as static and sticky sources are given here; the source lets them be named
        until the first wait is registered. A precision of zero is refused. */
    constructor (precision: nat, statics: set<nat>, sticky: set<nat>)
      requires precision != 0
      ensures View() == SchedulerRuns.Initial(precision, statics, sticky)
    {
      var interest := E.Interest([], [], [], 0, statics, map signal | signal in sticky :: E.NO_INTEREST);
      slots := [];
      lastGen := 0;
      lastId := 0;
      edges := E.EdgeTable([], 0, 0, 0, [], [], [], interest);
      phases := P.PhaseTable([[], [], []], [0, 0, 0], []);
      timers := T.TimerTable(None, [], 0, false);
      clock := Clock(0, precision, Evaluation, false);
      queue := ReadyQueue([], 0, 0);
      draining := false;
      frames := [];
      pool := Pool([], [], [], 0);
      controls := [];
      cancels := [];
      joins := [];
    }

    ghost function View(): Sched
      reads this
    {
      Sched(Core(slots, lastGen, edges, phases, timers, clock, queue), lastId, draining, frames, pool, controls,
        cancels, joins)
    }

    // -------------------------------------------------------------------------------------------
    // Waits
    // -------------------------------------------------------------------------------------------

    method AnnounceInterest(signal: nat)
      modifies this`edges
      ensures edges == old(edges).(interest := E.Announce(old(edges).interest, signal))
    {
      var n := edges.interest;
      n := n.(version := n.version + 1);
      if signal < |n.pending| && !n.pending[signal] {
        n := n.(pending := n.pending[signal := true], changes := n.changes + [signal]);
      }
      edges := edges.(interest := n);
    }

    method RecordInterestChange(signal: nat, previous: E.Mask)
      modifies this`edges
      ensures edges == old(edges).(interest := E.RecordChange(old(edges).interest, signal, previous))
    {
      var n := edges.interest;
      var current := E.MaskOf(n, signal);
      if signal in n.sticky {
        if current.Within(n.sticky[signal]) {
          return;
        }
        edges := edges.(interest := n.(sticky := n.sticky[signal := n.sticky[signal].Or(current)]));
      } else if current == previous {
        return;
      }
      AnnounceInterest(signal);
    }

    /** The counters it lowers are never zero. */
    method RemoveEdgeInterests(i: nat)
      requires Covered(View().core, i)
      modifies this
      ensures View() == old(View()).(core := old(View()).core.(edges := E.RemoveInterests(old(edges), i)))
    {
      var ks := edges.indices[i];
      assert ks[0..] == ks;
      for n := 0 to |ks|
        invariant View() == old(View()).(core := old(View()).core.(edges := edges))
        invariant edges == old(edges).(interest := edges.interest)
        invariant E.DropInterests(edges.interest, ks[n..]) == E.DropInterests(old(edges).interest, ks)
        invariant Covers(edges.interest, ks[n..])
      {
        var k := ks[n];
        var signal, previous := k / 3, E.MaskOf(edges.interest, k / 3);
        DropCovers(edges.interest, ks[n..]);
        assert ks[n..][1..] == ks[n + 1..];
        assert edges.interest.counts[k] != 0;
        edges := edges.(interest := E.Adjust(edges.interest, k, -1));
        RecordInterestChange(signal, previous);
      }
      edges := edges.(indices := edges.indices[i := []]);
    }

    method ClearReadySlot(i: nat)
      modifies this
      ensures View() == old(View()).(core := ClearReady(old(View()).core, i))
    {
      if i < |slots| && slots[i].ready {
        slots := slots[i := slots[i].(ready := false)];
        queue := queue.(live := queue.live - 1);
      }
    }

    method MakeSlotReady(i: nat)
      modifies this
      ensures View() == old(View()).(core := MakeReady(old(View()).core, i))
    {
      if i >= |slots| || slots[i].life.done || slots[i].ready {
        return;
      }
      slots := slots[i := slots[i].(ready := true)];
      queue := queue.(live := queue.live + 1, entries := queue.entries + [i]);
    }

    /** Takes the phase registrations of the slot off the counters, which are large enough. */
    method ReleasePhases(i: nat)
      requires PhasesCover(phases, i)
      modifies this`phases
      ensures phases == P.Release(old(phases), i)
    {
      for p := 0 to P.PHASES
        invariant i < |phases.waits| && |phases.counts| == |phases.waits[i]| == P.PHASES
        invariant forall q :: p <= q < P.PHASES ==> phases.waits[i][q] <= phases.counts[q]
        invariant P.ReleaseFrom(phases, i, p) == P.Release(old(phases), i)
      {
        assert phases.waits[i][p] <= phases.counts[p];
        phases := phases.(counts := phases.counts[p := phases.counts[p] - phases.waits[i][p]],
                          waits := phases.waits[i := phases.waits[i][p := 0]]);
      }
    }

    method ReleaseEdges(i: nat)
      requires Covered(View().core, i)
      modifies this
      ensures View() == old(View()).(core := old(View()).core.(edges := E.Release(old(edges), i)))
    {
      RemoveEdgeInterests(i);
      var t := edges;
      t := t.(stale := t.stale + t.waits[i], waits := t.waits[i := 0]);
      t := t.(falling := t.falling - t.fallingWaits[i], fallingWaits := t.fallingWaits[i := 0]);
      edges := t;
    }

    method EndSlotWait(i: nat)
      requires i < |slots| && slots[i].waiting ==> Covered(View().core, i)
      modifies this
      ensures View() == old(View()).(core := EndWait(old(View()).core, i))
    {
      hide E.Release, P.Release, Covers, PhasesCover;
      if i >= |slots| || !slots[i].waiting {
        return;
      }
      slots := slots[i := slots[i].(waiting := false, progress := INTERNAL)];
      if edges.waits[i] == 0 && phases.waits[i] == [0, 0, 0] {
        return;
      }
      ReleaseEdges(i);
      ReleasePhases(i);
    }

    /** `begin_wait`, which returns the generation of the new wait. */
    method BeginSlotWait(i: nat, reason: WaitReason) returns (generation: nat)
      requires i < |slots| && (slots[i].waiting ==> Covered(View().core, i))
      modifies this
      ensures View() == old(View()).(core := BeginWait(old(View()).core, i, reason))
      ensures generation == lastGen == old(lastGen) + 1
    {
      EndSlotWait(i);
      assert |slots| == |old(slots)|;
      slots := slots[i := slots[i].(waiting := true, progress := ReasonProgress(reason))];
      ClearReadySlot(i);
      lastGen := lastGen + 1;
      slots := slots[i := slots[i].(gen := lastGen)];
      generation := lastGen;
      BeginOrder(old(View()).core, i, reason);
    }

    // -------------------------------------------------------------------------------------------
    // Registrations and timers
    // -------------------------------------------------------------------------------------------

    /** `add_edge_interest` */
    method AddEdgeInterest(slot: nat, k: nat)
      modifies this`edges
      ensures edges == E.AddInterest(old(edges), slot, k)
    {
      var signal := k / 3;
      if signal in edges.interest.statics || slot >= |edges.indices| {
        return;
      }
      var n := edges.interest;
      if signal >= |n.pending| {
        var more := signal + 1 - |n.pending|;
        n := n.(counts := n.counts + E.Zeros(3 * more), pending := n.pending + seq(more, _ => false));
      }
      var previous := E.MaskOf(n, signal);
      if k < |n.counts| {
        n := n.(counts := n.counts[k := n.counts[k] + 1]);
      }
      edges := edges.(interest := n, indices := edges.indices[slot := edges.indices[slot] + [k]]);
      RecordInterestChange(signal, previous);
    }

    method RegisterEdge(signal: nat, edge: E.EdgeKind, r: Reg)
      modifies this`edges
      ensures edges == E.Register(old(edges), r, signal, edge)
    {
      var k := E.QueueIndex(signal, edge);
      var queues := Grow(edges.queues, k + 1);
      edges := edges.(queues := queues[k := queues[k] + [r]], entries := edges.entries + 1);
      AddEdgeInterest(r.slot, k);
      if r.slot < |edges.waits| && r.slot < |edges.fallingWaits| {
        edges := edges.(waits := edges.waits[r.slot := edges.waits[r.slot] + 1]);
        if !edge.Rising? {
          edges := edges.(falling := edges.falling + 1,
                          fallingWaits := edges.fallingWaits[r.slot := edges.fallingWaits[r.slot] + 1]);
        }
      }
    }

    predicate RegistrationValid(r: Reg)
      reads this
    {
      r.slot < |slots| && slots[r.slot].Alive() && slots[r.slot].waiting && slots[r.slot].gen == r.gen
    }

    method DiscardStaleTimers()
      modifies this`timers
      ensures timers == T.Discard(old(timers), Waits(slots))
    {
      while true
        invariant T.Discard(timers, Waits(slots)) == T.Discard(old(timers), Waits(slots))
        decreases T.Size(timers), |timers.heap|
      {
        if timers.next.Some? && RegistrationValid(timers.next.value.reg) {
          return;
        }
        if timers.next.Some? {
          timers := timers.(next := None, changed := true);
        }
        if timers.heap == [] {
          return;
        }
        timers := timers.(next := Some(timers.heap[0]), heap := timers.heap[1..]);
      }
    }

    method PushTimer(t: T.Timer)
      modifies this`timers
      ensures timers == T.Push(old(timers), t)
    {
      if timers.next.None? {
        timers := timers.(next := Some(t));
      } else if T.Before(t, timers.next.value) {
        timers := timers.(heap := T.Insert(timers.heap, timers.next.value), next := Some(t));
      } else {
        timers := timers.(heap := T.Insert(timers.heap, t));
      }
    }

    method NextTimerDeadline() returns (deadline: nat)
      modifies this`timers
      ensures deadline == T.NextDeadline(old(timers), Waits(slots)) && timers == T.Discard(old(timers), Waits(slots))
    {
      DiscardStaleTimers();
      deadline := if timers.next.None? then T.NO_DEADLINE else timers.next.value.deadline;
    }

    method ArmTimer(femtoseconds: nat, r: Reg)
      modifies this`timers
      ensures timers == T.AddTimer(old(timers), Waits(slots), DeadlineAfter(clock, femtoseconds), r)
    {
      var deadline := DeadlineAfter(clock, femtoseconds);
      var previous := NextTimerDeadline();
      var order := timers.nextOrder;
      timers := timers.(nextOrder := order + 1);
      PushTimer(T.Timer(deadline, order, r));
      if deadline < previous {
        timers := timers.(changed := true);
      }
      TimerArmed(old(timers), Waits(slots), deadline, r);
    }

    method NoteProgress(i: nat, request: Request)
      modifies this
      ensures View() == old(View()).(core := Note(old(View()).core, i, request))
    {
      if i < |slots| {
        var was := slots[i].progress;
        var progress := if request.After? then was.(time := true) else was.(simulator := true);
        slots := slots[i := slots[i].(progress := progress)];
        clock := clock.(registered := true);
      }
    }

    /** False where the source aborts. */
    method RegisterRequest(request: Request, r: Reg) returns (accepted: bool)
      modifies this
      ensures var d := RegisterWait(old(View()).core, request, r);
        accepted == d.Some? && (accepted ==> View() == old(View()).(core := d.value))
      ensures lastGen == old(lastGen)
    {
      hide E.Register, T.AddTimer, P.Register, Note;
      accepted := Accepted(clock, request);
      if !accepted {
        return;
      }
      NoteProgress(r.slot, request);
      NoteGen(old(View()).core, r.slot, request);
      match request {
        case OnEdge(signal, edge) => RegisterEdge(signal, edge, r);
        case After(femtoseconds) => ArmTimer(femtoseconds, r);
        case OnPhase(phase) => RegisterPhase(phase, r);
      }
    }

    method RegisterPhase(phase: P.Phase, r: Reg)
      modifies this`phases
      ensures phases == P.Register(old(phases), r, phase)
    {
      var p := P.PhaseIndex(phase);
      if p < |phases.queues| && p < |phases.counts| && r.slot < |phases.waits| && p < |phases.waits[r.slot]| {
        phases := phases.(queues := phases.queues[p := phases.queues[p] + [r]]);
        phases := phases.(counts := phases.counts[p := phases.counts[p] + 1]);
        var waits := phases.waits[r.slot];
        phases := phases.(waits := phases.waits[r.slot := waits[p := waits[p] + 1]]);
      }
    }

    method ParkFor(i: nat, request: Request) returns (accepted: bool)
      requires i < |slots| && (slots[i].waiting ==> Covered(View().core, i))
      modifies this
      ensures var d := Park(old(View()).core, i, request);
        accepted == d.Some? && (accepted ==> View() == old(View()).(core := d.value))
    {
      hide BeginWait, RegisterWait;
      var generation := BeginSlotWait(i, RequestReason(request));
      accepted := RegisterRequest(request, Reg(i, generation, None));
    }

    method ParkForFirst(i: nat, requests: seq<Request>) returns (accepted: bool)
      requires i < |slots| && (slots[i].waiting ==> Covered(View().core, i))
      modifies this
      ensures var d := ParkFirst(old(View()).core, i, requests);
        accepted == d.Some? && (accepted ==> View() == old(View()).(core := d.value))
    {
      hide BeginWait, RegisterWait;
      var generation := BeginSlotWait(i, FirstWait);
      if i < |slots| {
        slots := slots[i := slots[i].(winner := None)];
      }
      accepted := true;
      var k := 0;
      ghost var first := View().core;
      while k < |requests|
        invariant k <= |requests| && lastGen == generation
        invariant View() == old(View()).(core := View().core)
        invariant RegisterFirst(View().core, requests, i, k) == RegisterFirst(first, requests, i, 0)
      {
        accepted := RegisterRequest(requests[k], Reg(i, generation, Some(k)));
        if !accepted {
          return;
        }
        k := k + 1;
      }
    }

    // -------------------------------------------------------------------------------------------
    // Waking
    // -------------------------------------------------------------------------------------------

    method ResumeRegistration(r: Reg) returns (resumed: bool)
      requires ValidReg(View().core, r) ==> Covered(View().core, r.slot)
      modifies this
      ensures resumed == ValidReg(old(View()).core, r)
      ensures View() == old(View()).(core := ResumeReg(old(View()).core, r))
    {
      hide EndWait, MakeReady;
      resumed := RegistrationValid(r);
      if !resumed {
        return;
      }
      EndSlotWait(r.slot);
      if r.sibling.Some? {
        slots := slots[r.slot := slots[r.slot].(winner := r.sibling)];
      }
      MakeSlotReady(r.slot);
    }

    /** Resumes a list of registrations and tells whether any of them was valid. */
    method ResumeAllOf(rs: seq<Reg>) returns (resumed: bool)
      requires WaitInv(View().core)
      modifies this
      ensures View() == old(View()).(core := ResumeAll(old(View()).core, rs))
      ensures resumed == Wakes(old(View()).core, rs)
    {
      hide WaitInv, Evolves, ResumeReg, Woken;
      resumed := false;
      ghost var first := View();
      assert rs[0..] == rs;
      for n := 0 to |rs|
        invariant WaitInv(View().core) && View() == first.(core := View().core)
        invariant ResumeAll(View().core, rs[n..]) == ResumeAll(first.core, rs)
        invariant Wakes(first.core, rs) == (resumed || Wakes(View().core, rs[n..]))
      {
        ghost var before := View().core;
        InvCovers(before, rs[n]);
        assert rs[n..][1..] == rs[n + 1..];
        WakesStep(before, rs[n..]);
        var woken := ResumeRegistration(rs[n]);
        resumed := resumed || woken;
        ResumeRegKeeps(before, rs[n]);
      }
    }

    method ResumeQueue(k: nat) returns (resumed: bool)
      requires WaitInv(View().core)
      modifies this
      ensures View() == old(View()).(core := ResumeEdgeQueue(old(View()).core, k))
      ensures resumed == Wakes(old(View()).core, E.QueueAt(old(edges), k))
    {
      hide WaitInv, Evolves, ResumeReg, Woken, Steady;
      resumed := false;
      if k >= |edges.queues| {
        return;
      }
      var rs := edges.queues[k];
      ghost var first := View();
      ghost var m := View().core;
      assert rs[0..] == rs && Shift(m, 0) == m;
      for n := 0 to |rs|
        invariant WaitInv(m) && View() == first.(core := Shift(m, n))
        invariant m.edges.queues == first.core.edges.queues
        invariant ResumeEntries(Shift(m, n), rs[n..]) == ResumeEntries(first.core, rs)
        invariant Count(rs[..n], LiveUnder(Waits(m.slots))) == 0
        invariant Wakes(first.core, rs) == (resumed || Wakes(m, rs[n..]))
      {
        QueueTurn(m, k, rs, n);
        var woken := ResumeRegistration(rs[n]);
        resumed := resumed || woken;
        edges := edges.(entries := edges.entries - 1, stale := if edges.stale != 0 then edges.stale - 1 else 0);
        m := ResumeReg(m, rs[n]);
      }
      edges := edges.(queues := edges.queues[k := []]);
    }

    // -------------------------------------------------------------------------------------------
    // The simulator
    // -------------------------------------------------------------------------------------------

    /** `resume_edge` up to the drain or the boundary, and whether it woke anybody. */
    method DeliverEdgeTo(signal: nat, edge: E.EdgeKind) returns (resumed: bool)
      requires WaitInv(View().core)
      modifies this
      ensures var (d, woke) := DeliverEdge(old(View()).core, signal, edge);
        View() == old(View()).(core := d) && resumed == woke
    {
      hide WaitInv, Evolves, ResumeEdgeQueue, Wakes, Steady;
      clock := clock.(phase := Evaluation);
      SetPhaseKeeps(old(View()).core, Evaluation);
      ghost var a := View().core;
      WakesPhase(old(View()).core, E.QueueAt(edges, E.QueueIndex(signal, edge)));
      resumed := ResumeQueue(E.QueueIndex(signal, edge));
      if !edge.Any? {
        ResumeEdgeQueueKeeps(a, E.QueueIndex(signal, edge));
        var any := ResumeQueue(E.QueueIndex(signal, E.Any));
        resumed := resumed || any;
      }
    }

    /** The loop of `advance_time`: whether it took a timer, and whether it woke anybody. */
    method FireDue() returns (popped: bool, resumed: bool)
      requires WaitInvButCache(View().core)
      modifies this
      ensures View() == old(View()).(core := FireTimers(old(View()).core).0)
      ensures popped == resumed == FireTimers(old(View()).core).1
    {
      hide WaitInv, WaitInvButCache, Evolves, ResumeReg, Fired, Steady;
      popped := false;
      resumed := false;
      ghost var first := View();
      while true
        invariant WaitInvButCache(View().core) && View() == first.(core := View().core)
        invariant FireTimers(first.core).0 == FireTimers(View().core).0
        invariant popped == resumed && FireTimers(first.core).1 == (popped || FireTimers(View().core).1)
        decreases T.Size(timers)
      {
        ghost var before := View().core;
        DiscardStaleTimers();
        if timers.next.None? || timers.next.value.deadline > clock.now {
          return;
        }
        var t := timers.next.value;
        timers := timers.(next := None);
        popped := true;
        FireCovers(before);
        FireOne(before);
        var woken := ResumeRegistration(t.reg);
        resumed := resumed || woken;
      }
    }

    /** `advance_time` up to the drain or the boundary: `None` when it returns at once, otherwise whether it
        woke anybody. */
    method DeliverTimeTo(time: nat) returns (resumed: Option<bool>)
      requires WaitInv(View().core) && time <= T.NO_DEADLINE
      modifies this
      ensures var (d, woke) := DeliverTime(old(View()).core, time); var next := old(timers).next;
        && View() == old(View()).(core := d)
        && resumed == if next.None? || next.value.deadline > time then None else Some(woke)
    {
      hide WaitInv, WaitInvButCache, Evolves, FireTimers, Steady;
      clock := clock.(phase := Evaluation, now := time);
      if timers.next.None? || timers.next.value.deadline > clock.now {
        return None;
      }
      SetTimeKeeps(old(View()).core, time);
      CacheIsSound(View().core);
      var popped, woken := FireDue();
      if popped {
        timers := timers.(changed := true);
      }
      resumed := Some(woken);
    }

    /** `resume_phase` up to the drain or the boundary, and whether it woke anybody. */
    method DeliverPhaseTo(phase: P.Phase) returns (resumed: bool)
      requires WaitInv(View().core)
      modifies this
      ensures var (d, woke) := DeliverPhase(old(View()).core, phase);
        View() == old(View()).(core := d) && resumed == woke
    {
      hide WaitInv, Evolves, ResumeAll, Wakes, Steady;
      var k := P.PhaseIndex(phase);
      ThreePhases(old(View()).core);
      clock := clock.(phase := InPhase(phase));
      SetPhaseKeeps(old(View()).core, InPhase(phase));
      var rs := phases.queues[k];
      WakesPhase(old(View()).core, rs);
      ghost var a := View().core;
      resumed := ResumeAllOf(rs);
      PhaseQueuesStay(a, rs);
      phases := phases.(queues := phases.queues[k := phases.queues[k][|rs|..]]);
    }

    method CompactStaleEdgeQueues()
      modifies this`edges
      ensures edges == E.Compact(old(edges), Waits(slots))
    {
      if edges.stale < E.COMPACT_THRESHOLD || edges.stale * 2 < edges.entries {
        return;
      }
      var removed := 0;
      ghost var first := edges.queues;
      for k := 0 to |edges.queues|
        invariant edges == old(edges).(queues := edges.queues) && |edges.queues| == |first|
        invariant forall j :: 0 <= j < |first| ==>
          edges.queues[j] == if j < k then LiveOnly(first[j], Waits(slots)) else first[j]
        invariant removed == E.Removed(first[..k], Waits(slots))
      {
        var q := edges.queues[k];
        var output := [];
        for n := 0 to |q|
          invariant output == LiveOnly(q[..n], Waits(slots))
        {
          assert q[..n + 1][..n] == q[..n];
          if RegistrationValid(q[n]) {
            output := output + [q[n]];
          }
        }
        assert q[..|q|] == q;
        RemovedStep(first, k, Waits(slots));
        removed := removed + |q| - |output|;
        edges := edges.(queues := edges.queues[k := output]);
      }
      assert first[..|first|] == first;
      assert edges.queues == E.CompactAll(first, Waits(slots));
      edges := edges.(entries := edges.entries - removed, stale := edges.stale - removed);
    }

    // -------------------------------------------------------------------------------------------
    // Coroutines
    // -------------------------------------------------------------------------------------------

    /** `adopt`, which returns the slot. */
    method AdoptCoroutine(link: Link, control: Option<nat>) returns (i: nat)
      modifies this
      ensures View() == Adopt(old(View()), link, control) && i == NextSlot(old(View()))
    {
      hide TakeSlot;
      lastId := lastId + 1;
      var life := Life(true, lastId, false, link, control);
      i := TakeFreeSlot(life);
      pool := pool.(active := pool.active + 1);
    }

    method TakeFreeSlot(life: Life) returns (i: nat)
      modifies this
      ensures var free := old(pool).free; var c := TakeSlot(old(View()).core, free, life);
        && View() == old(View()).(core := c, pool := old(pool).(free := if free == [] then [] else free[..|free| - 1]))
        && i == NextSlot(old(View()))
    {
      if pool.free == [] {
        i := |slots|;
        slots := slots + [VACANT.(life := life)];
        edges := edges.(waits := edges.waits + [0], fallingWaits := edges.fallingWaits + [0],
                        indices := edges.indices + [[]]);
        phases := phases.(waits := phases.waits + [[0, 0, 0]]);
      } else {
        var n := |pool.free|;
        i := pool.free[n - 1];
        pool := pool.(free := pool.free[..n - 1]);
        if i < |slots| {
          slots := slots[i := VACANT.(life := life)];
        }
      }
    }

    method StartDrain()
      modifies this
      ensures View() == DrainReady(old(View()))
    {
      if draining {
        return;
      }
      draining := true;
      queue := queue.(cursor := 0);
    }

    /** `spawn` and `spawn_owned`, up to the drain; it returns the process. */
    method SpawnProcess() returns (process: nat)
      modifies this
      ensures View() == Spawn(old(View())) && process == |old(controls)|
    {
      hide Adopt, MakeReady, DrainReady;
      process := |controls|;
      var i := AdoptCoroutine(Root, Some(process));
      AdoptControls(old(View()), Root, Some(process));
      controls := controls + [Control(i, true, false, false, false, [])];
      MakeSlotReady(i);
      StartDrain();
    }

    method SpawnDetachedTask()
      modifies this
      ensures View() == SpawnDetached(old(View()))
    {
      hide Adopt, MakeReady, DrainReady;
      var i := AdoptCoroutine(Root, None);
      MakeSlotReady(i);
      StartDrain();
    }

    method StartJoinOf(parent: nat, children: nat)
      requires parent < |slots| && (slots[parent].waiting ==> Covered(View().core, parent))
      modifies this
      ensures View() == StartJoin(old(View()), parent, children)
    {
      hide BeginWait, Adopt, MakeReady;
      var generation := BeginSlotWait(parent, JoinWait);
      var join := |joins|;
      joins := joins + [Join(children, parent)];
      ghost var first := View();
      for n := 0 to children
        invariant AdoptChildren(View(), join, children - n) == AdoptChildren(first, join, children)
      {
        var i := AdoptCoroutine(Joined(join), None);
        MakeSlotReady(i);
      }
    }

    /** `start_timeout` up to the resume of the child; false where it aborts. */
    method StartTimeout(parent: nat, timeout: nat) returns (accepted: bool)
      requires parent < |slots| && (slots[parent].waiting ==> Covered(View().core, parent))
      modifies this
      ensures var r := BeginTimeout(old(View()), parent, timeout);
        accepted == r.Some? && View() == if accepted then r.value else old(View())
    {
      hide BeginWait, Adopt;
      accepted := DelayAccepted(clock, timeout);
      if !accepted {
        return;
      }
      var generation := BeginSlotWait(parent, TimeoutWait);
      var join := |joins|;
      joins := joins + [Join(1, parent)];
      frames := frames + [Timing(Reg(parent, generation, None), timeout)];
      var i := AdoptCoroutine(Joined(join), None);
    }

    /** The rest of `start_timeout`; false where it aborts. */
    method FinishTimeout() returns (accepted: bool)
      requires frames != [] && frames[|frames| - 1].Timing?
      modifies this
      ensures var r := EndTimeout(old(View())); accepted == r.Some? && (accepted ==> View() == r.value)
    {
      hide RegisterWait;
      var frame := frames[|frames| - 1];
      frames := frames[..|frames| - 1];
      accepted := true;
      if RegistrationValid(frame.wait) {
        accepted := RegisterRequest(After(frame.timeout), frame.wait);
      }
    }

    /** `park_process`, and whether the coroutine has to wait. */
    method ParkForProcess(i: nat, p: nat) returns (waits: bool)
      requires p < |controls| && i < |slots| && (slots[i].waiting ==> Covered(View().core, i))
      modifies this
      ensures var r := ParkProcess(old(View()), i, p);
        waits == r.Some? && View() == if waits then r.value else old(View())
    {
      hide BeginWait;
      waits := !controls[p].done;
      if waits {
        var generation := BeginSlotWait(i, ProcessWait);
        controls := controls[p := controls[p].(waiters := controls[p].waiters + [Reg(i, generation, None)])];
      }
    }

    method CompleteProcessOf(p: nat, cancelled: bool)
      requires WaitInv(View().core)
      modifies this
      ensures View() == CompleteProcess(old(View()), p, cancelled)
    {
      hide WaitInv, ResumeAll, Wakes, Steady;
      if p >= |controls| || controls[p].done {
        return;
      }
      var waiters := controls[p].waiters;
      controls := controls[p := controls[p].(done := true, cancelled := cancelled, requested := false, waiters := [])];
      var woken := ResumeAllOf(waiters);
    }

    /** The common end of `finish` and `cancel_state`. */
    method MarkSlotDone(i: nat)
      requires i < |slots|
      modifies this
      ensures View() == MarkDone(old(View()), i)
    {
      slots := slots[i := slots[i].(life := slots[i].life.(done := true))];
      if pool.active != 0 {
        pool := pool.(active := pool.active - 1);
      }
    }

    method ListFinished(i: nat, child: bool)
      modifies this
      ensures View() == ListDone(old(View()), i, child)
    {
      if child {
        pool := pool.(finished := pool.finished + [Some(i)]);
      } else {
        pool := pool.(finishedRoots := pool.finishedRoots + [i]);
      }
    }

    method FinishCoroutine(i: nat)
      requires SchedInv(View()) && View().Alive(i)
      modifies this
      ensures View() == Finish(old(View()), i)
    {
      hide SchedInv, WaitInv, EndWait, StopReady, CompleteProcess, MarkDone, ListDone, Evolves, SameLife;
      ghost var s := View();
      InvWait(s);
      InvCovers(s.core, Reg(i, slots[i].gen, None));
      FinishParts(s, i);
      var child := slots[i].life.link != Root;
      if slots[i].waiting {
        EndSlotWait(i);
      }
      ClearReadySlot(i);
      MarkSlotDone(i);
      if !child && slots[i].life.control.Some? {
        CompleteProcessOf(slots[i].life.control.value, false);
      }
      ListFinished(i, child);
    }

    method JoinChildDone(join: nat)
      requires WaitInv(View().core)
      modifies this
      ensures View() == FinishJoinChild(old(View()), join)
    {
      hide WaitInv, EndWait, MakeReady, SameLife;
      if join >= |joins| || joins[join].remaining == 0 {
        return;
      }
      joins := joins[join := joins[join].(remaining := joins[join].remaining - 1)];
      var parent := joins[join].parent;
      if joins[join].remaining != 0 || parent >= |slots| || slots[parent].life.done || !slots[parent].waiting {
        return;
      }
      SlotIsOk(View().core, parent);
      InvCovers(View().core, Reg(parent, slots[parent].gen, None));
      EndSlotWait(parent);
      MakeSlotReady(parent);
    }

    method SuspendFinally(i: nat)
      requires SchedInv(View()) && View().Alive(i) && Childless(Lives(slots), joins, i)
      modifies this
      ensures View() == FinalSuspend(old(View()), i)
    {
      hide SchedInv, WaitInv, Finish, FinishJoinChild, Evolves, Childless;
      var link := slots[i].life.link;
      FinishKeeps(View(), i);
      FinishCoroutine(i);
      InvWait(View());
      if link.Joined? {
        JoinChildDone(link.join);
      }
    }

    // -------------------------------------------------------------------------------------------
    // Cancellation
    // -------------------------------------------------------------------------------------------

    /** The scan of `cancel_state` for the children of slot i. */
    method ScanForChildren(i: nat) returns (children: seq<nat>)
      requires i < |slots|
      ensures children == ChildrenUpTo(slots, joins, i, |slots|)
    {
      children := [];
      for k := 0 to |slots|
        invariant children == ChildrenUpTo(slots, joins, i, k)
      {
        var life := slots[k].life;
        if k != i && life.occupied && !life.done {
          if Continuation(life) == Handle(slots[i].life)
             || (life.link.Joined? && life.link.join < |joins| && joins[life.link.join].parent == i) {
            children := children + [k];
          }
        }
      }
    }

    /** `cancel_state` after its loop over the children. */
    method CancelAlone(i: nat)
      requires SchedInv(View()) && View().Alive(i)
      modifies this
      ensures View() == CancelOne(old(View()), i)
    {
      hide SchedInv, WaitInv, EndWait, CompleteProcess, MarkDone, ListDone, Unlink, Evolves, SameLife, SameShape;
      ghost var s := View();
      CancelParts(s, i);
      EndSlotWait(i);
      lastGen := lastGen + 1;
      slots := slots[i := slots[i].(gen := lastGen)];
      ClearReadySlot(i);
      MarkSlotDone(i);
      var child := slots[i].life.link != Root;
      if slots[i].life.occupied {
        slots := slots[i := slots[i].(life := slots[i].life.(link := Root))];
      }
      if slots[i].life.control.Some? {
        CompleteProcessOf(slots[i].life.control.value, true);
      }
      ListFinished(i, child);
    }

    method CancelSlot(i: nat)
      requires SchedInv(View()) && Linked(View()) && i < |slots| && slots[i].life.occupied
      modifies this
      ensures View() == CancelState(old(View()), i)
      decreases Rank(View(), i)
    {
      hide SchedInv, CancelOne, Cut, CancelledAs, AllYounger, AllChildren, Linked, SameShape, LifeInv;
      if slots[i].life.done {
        return;
      }
      ghost var s := View();
      var children := ScanForChildren(i);
      InvLife(s);
      ChildrenYounger(s, i);
      ScanFindsChildren(s, i);
      assert children[0..] == children;
      for n := 0 to |children|
        invariant SchedInv(View()) && Linked(View()) && i < |slots| && Rank(View(), i) == Rank(s, i)
        invariant AllYounger(View(), children[n..], i) && AllChildren(View(), children[n..])
        invariant CancelEach(View(), children[n..], i) == CancelEach(s, children, i)
      {
        ghost var t := View();
        ghost var rest := children[n..];
        assert rest[0] == children[n] && rest[1..] == children[n + 1..];
        YoungerHead(t, rest, i);
        HeadIsChild(t, rest);
        CancelSlot(children[n]);
        CancelTurn(t, rest, i);
      }
      CancelEachExact(s, children, i);
      CancelledParts(s, View(), DependentsOf(s, children));
      ChildlessAfter(s, View(), i, children);
      CancelAlone(i);
    }

    method MarkScheduleChanged()
      modifies this`timers
      ensures View() == MarkSchedule(old(View()))
    {
      timers := timers.(changed := true);
    }

    method CancelProcessOf(p: nat)
      requires SchedInv(View()) && Linked(View())
      modifies this
      ensures View() == CancelProcess(old(View()), p)
    {
      hide SchedInv, Linked, CancelState, DrainReady, SameShape;
      if p >= |controls| || !controls[p].attached || controls[p].done {
        return;
      }
      if draining {
        if !controls[p].requested {
          controls := controls[p := controls[p].(requested := true)];
          cancels := cancels + [p];
        }
        return;
      }
      LivingProcess(View(), p);
      RequestKeeps(View(), p);
      RequestShape(View(), p);
      KeepsInv(View(), View().(controls := controls[p := controls[p].(requested := true)]));
      controls := controls[p := controls[p].(requested := true)];
      CancelSlot(controls[p].slot);
      MarkScheduleChanged();
      StartDrain();
    }

    method ApplyPendingCancellations()
      requires SchedInv(View()) && Linked(View())
      modifies this
      ensures View() == ApplyPending(old(View()))
    {
      hide SchedInv, Linked, CancelState, SameShape;
      ghost var s := View();
      var ps := cancels;
      assert ps[0..] == ps;
      for n := 0 to |ps|
        invariant SchedInv(View()) && Linked(View())
        invariant CancelRequests(View(), ps[n..]) == CancelRequests(s, ps)
      {
        ghost var t := View();
        assert ps[n..][1..] == ps[n + 1..];
        RequestedTurn(t, ps[n]);
        var p := ps[n];
        if p < |controls| && controls[p].attached && !controls[p].done {
          CancelSlot(controls[p].slot);
          MarkScheduleChanged();
        }
      }
      cancels := [];
    }

    method CancelAwaitedTask(i: nat)
      requires SchedInv(View()) && Linked(View()) && i < |slots| && slots[i].life.occupied
      modifies this
      ensures View() == CancelAwaited(old(View()), i)
    {
      hide SchedInv, Linked, CancelState;
      if !slots[i].life.done {
        CancelSlot(i);
        MarkScheduleChanged();
      }
    }

    // -------------------------------------------------------------------------------------------
    // Reclaiming
    // -------------------------------------------------------------------------------------------

    method ReclaimSlot(i: nat)
      modifies this
      ensures View() == Reclaim(old(View()), i)
    {
      if i >= |slots| || !slots[i].life.occupied || !slots[i].life.done {
        return;
      }
      var control := slots[i].life.control;
      slots := slots[i := VACANT];
      pool := pool.(free := pool.free + [i]);
      if control.Some? && control.value < |controls| {
        controls := controls[control.value := controls[control.value].(attached := false)];
      }
    }

    method CollectFinishedRoots()
      modifies this
      ensures View() == CollectRoots(old(View()))
    {
      hide Reclaim;
      var listed := pool.finishedRoots;
      ghost var s := View();
      assert listed[0..] == listed;
      for n := 0 to |listed|
        invariant ReclaimRoots(View(), listed[n..]) == ReclaimRoots(s, listed)
      {
        assert listed[n..][1..] == listed[n + 1..];
        ReclaimSlot(listed[n]);
      }
      pool := pool.(finishedRoots := []);
    }

    method CollectFinishedStates()
      modifies this
      ensures View() == CollectFinished(old(View()))
    {
      hide Reclaim;
      var listed := pool.finished;
      ghost var s := View();
      assert listed[0..] == listed;
      for n := 0 to |listed|
        invariant ReclaimChildren(View(), listed[n..]) == ReclaimChildren(s, listed)
      {
        assert listed[n..][1..] == listed[n + 1..];
        if listed[n].Some? {
          ReclaimSlot(listed[n].value);
        }
      }
      pool := pool.(finished := []);
    }

    method SchedulerBoundary()
      modifies this
      ensures View() == Boundary(old(View()))
    {
      hide CollectRoots, CollectFinished, E.Compact;
      CollectFinishedRoots();
      CollectFinishedStates();
      CompactStaleEdgeQueues();
    }

    /** Takes the slot off the list of finished states. */
    method ForgetFinished(i: nat)
      modifies this`pool
      ensures pool == old(pool).(finished := AfterAwait(old(pool).finished, i))
    {
      var finished := pool.finished;
      var n := |finished|;
      if n > 0 && finished[n - 1] == Some(i) {
        pool := pool.(finished := finished[..n - 1]);
        return;
      }
      var k := 0;
      while k < n && finished[k] != Some(i)
        invariant k <= n && Forget(finished, i) == finished[..k] + Forget(finished[k..], i)
      {
        assert finished[k..][1..] == finished[k + 1..];
        k := k + 1;
      }
      if k < n {
        pool := pool.(finished := finished[k := None]);
      }
      ForgetFrom(finished, i, k, pool.finished);
    }

    /** False where the source aborts. */
    method ReclaimAwaitedTask(i: nat) returns (complete: bool)
      requires i < |slots|
      modifies this
      ensures var r := ReclaimAwaited(old(View()), i); complete == r.Some? && (complete ==> View() == r.value)
    {
      complete := slots[i].life.occupied && slots[i].life.done;
      if !complete {
        return;
      }
      ForgetFinished(i);
      slots := slots[i := VACANT];
      pool := pool.(free := pool.free + [i]);
    }

    // -------------------------------------------------------------------------------------------
    // The drain
    // -------------------------------------------------------------------------------------------

    /** One turn of `drain_ready_queue` up to the resume: the coroutine to resume, if the entry is not stale. */
    method NextReady() returns (next: Option<nat>)
      requires queue.cursor < |queue.entries|
      modifies this
      ensures View() == PopReady(old(View()))
      ensures next == if |frames| > |old(frames)| then Some(old(queue).entries[old(queue).cursor]) else None
    {
      var i := queue.entries[queue.cursor];
      queue := queue.(cursor := queue.cursor + 1);
      if queue.cursor >= COMPACT_AFTER && queue.cursor * 2 >= |queue.entries| {
        queue := queue.(entries := queue.entries[queue.cursor..], cursor := 0);
      }
      next := None;
      if i < |slots| && slots[i].Alive() && slots[i].ready {
        slots := slots[i := slots[i].(ready := false)];
        queue := queue.(live := queue.live - 1);
        frames := frames + [Drained(i)];
        next := Some(i);
      }
    }

    /** What follows when the coroutine has given up control. */
    method AfterResume()
      requires SchedInv(View()) && Linked(View()) && frames != [] && frames[|frames| - 1].Drained?
      modifies this
      ensures View() == EndResume(old(View()))
    {
      hide SchedInv, Linked, ApplyPending, CollectRoots, SameShape;
      FramePopped(View());
      frames := frames[..|frames| - 1];
      ApplyPendingCancellations();
      CollectFinishedRoots();
    }

    method FinishDrain()
      modifies this
      ensures View() == EndDrain(old(View()))
    {
      hide Boundary;
      queue := queue.(entries := [], cursor := 0);
      draining := false;
      SchedulerBoundary();
    }

    /** `run_process_if_only_ready` up to the resume: whether it resumes the process, and if not, whether it tells
        the parent that the process is done already. */
    method RunProcessIfOnlyReady(p: nat) returns (runs: bool, complete: bool)
      requires queue.cursor <= |queue.entries|
      modifies this
      ensures runs == CanRunInline(old(View()), p)
      ensures complete == (!runs && p < |controls| && controls[p].done)
      ensures View() == if runs then BeginInline(old(View()), p) else old(View())
    {
      runs, complete := false, false;
      if !draining || p >= |controls| || !controls[p].attached || controls[p].done || controls[p].slot >= |slots| {
        complete := p < |controls| && controls[p].done;
        return;
      }
      var depth := InlineDepth(frames);
      if depth >= MAX_INLINE_DEPTH {
        return;
      }
      var target := controls[p].slot;
      if !slots[target].Alive() || !slots[target].ready || queue.live != 1 {
        return;
      }
      var n := |queue.entries|;
      if n == queue.cursor + 1 {
        queue := queue.(entries := queue.entries[..n - 1]);
      } else {
        queue := queue.(entries := queue.entries[..queue.cursor]);
      }
      slots := slots[target := slots[target].(ready := false)];
      queue := queue.(live := queue.live - 1);
      frames := frames + [Inline(target, p)];
      runs := true;
    }

    /** The rest of it: whether the process is done, and whether its parent has to queue behind others; `failed`
        says that the process ended with an exception. */
    method AfterInline(failed: bool) returns (complete: bool, deferParent: bool)
      requires SchedInv(View()) && frames != [] && frames[|frames| - 1].Inline?
      modifies this
      ensures View() == EndInline(old(View()))
      ensures var p := old(frames)[|old(frames)| - 1].control; complete == (p < |controls| && controls[p].done)
      ensures deferParent <==> complete && (failed || cancels != [] || !NobodyReady(View()))
    {
      hide CollectRoots, SchedInv, NobodyReady;
      ghost var s := View();
      var p := frames[|frames| - 1].control;
      frames := frames[..|frames| - 1];
      CollectFinishedRoots();
      EndInlineStep(s);
      KeepsInv(s, View());
      LiveIsReady(View());
      complete := p < |controls| && controls[p].done;
      deferParent := complete && (failed || cancels != [] || queue.live != 0);
    }

    // -------------------------------------------------------------------------------------------
    // Calls from the simulator
    // -------------------------------------------------------------------------------------------

    method ResumeOnEdge(signal: nat, edge: E.EdgeKind)
      requires WaitInv(View().core)
      modifies this
      ensures View() == ResumeEdge(old(View()), signal, edge)
    {
      hide WaitInv, DeliverEdge, Boundary, DrainReady;
      var resumed := DeliverEdgeTo(signal, edge);
      if resumed {
        StartDrain();
      } else {
        SchedulerBoundary();
      }
    }

    method AdvanceTo(time: nat)
      requires WaitInv(View().core) && time <= T.NO_DEADLINE
      modifies this
      ensures View() == AdvanceTime(old(View()), time)
    {
      hide WaitInv, DeliverTime, Boundary, DrainReady;
      var resumed := DeliverTimeTo(time);
      if resumed == Some(true) {
        StartDrain();
      } else if resumed == Some(false) {
        SchedulerBoundary();
      }
    }

    method ResumeOnPhase(phase: P.Phase)
      requires WaitInv(View().core)
      modifies this
      ensures View() == ResumePhase(old(View()), phase)
    {
      hide WaitInv, DeliverPhase, Boundary, DrainReady;
      var resumed := DeliverPhaseTo(phase);
      if resumed {
        StartDrain();
      } else {
        SchedulerBoundary();
      }
    }

    method ConsumeInterestChange() returns (change: Option<E.Change>)
      modifies this`edges
      ensures (edges.interest, change) == E.ConsumeChange(old(edges).interest)
      ensures edges == old(edges).(interest := edges.interest)
    {
      var n := edges.interest;
      if n.changes == [] {
        return None;
      }
      var signal := n.changes[0];
      n := n.(changes := n.changes[1..]);
      if signal < |n.pending| {
        n := n.(pending := n.pending[signal := false]);
      }
      edges := edges.(interest := n);
      change := Some(E.Change(signal, E.MaskOf(n, signal)));
    }

    /** How the simulator side reads the schedule. */
    method ReadSchedule() returns (deadline: Option<nat>)
      modifies this`timers
      ensures (View().core, deadline) == PollTimer(old(View()).core)
    {
      var changed := timers.changed;
      timers := timers.(changed := false);
      deadline := None;
      if changed {
        var next := NextTimerDeadline();
        deadline := Some(next);
      }
    }

    /** Whether the scan of `wait_graph` finds no child of slot i. */
    method HasNoDependencies(i: nat) returns (none: bool)
      requires i < |slots| && slots[i].Alive()
      ensures none <==> forall k :: 0 <= k < |slots| ==> !GraphChild(View(), k, i)
    {
      none := true;
      ghost var s := View();
      for k := 0 to |slots|
        invariant none <==> forall j :: 0 <= j < k ==> !GraphChild(s, j, i)
      {
        var link := slots[k].life.link;
        var depends := slots[k].Alive()
                       && ((link.Awaited? && slots[i].life.id == link.parent)
                           || (link.Joined? && link.join < |joins| && joins[link.join].parent == i));
        assert depends == GraphChild(s, k, i);
        none := none && !depends;
      }
    }

    /** The verdict of `wait_graph`, over all processes. */
    method WaitGraphStatus() returns (status: Status)
      ensures status == GraphStatus(View())
    {
      ghost var s := View();
      var nodes, runnable, time, simulator := false, false, false, false;
      for i := 0 to |slots|
        invariant nodes <==> exists k :: 0 <= k < i && s.Alive(k)
        invariant runnable <==> SomeRunnable(s, i)
        invariant time <==> exists k :: 0 <= k < i && s.Alive(k) && slots[k].progress.time
        invariant simulator <==> exists k :: 0 <= k < i && s.Alive(k) && slots[k].progress.simulator
      {
        assert s.Alive(i) == slots[i].Alive() && View() == s;
        SomeRunnableStep(s, i);
        if slots[i].Alive() {
          nodes := true;
          NodeIs(s, i);
          ghost var was := runnable;
          var independent := HasNoDependencies(i);
          assert View() == s;
          if independent {
            runnable := runnable || slots[i].ready || Running(frames) == Some(i);
          }
          assert runnable <==> was || RunnableNode(s, i);
          time := time || slots[i].progress.time;
          simulator := simulator || slots[i].progress.simulator;
        }
      }
      AllRunnable(s);
      status := if !nodes then Complete else if runnable then Runnable else if time then WaitingForTime
                else if simulator then WaitingForSimulator else Deadlocked;
    }
  }

  /** The counter of ready slots is zero just when nobody is ready. */
  lemma LiveIsReady(s: Sched)
    requires SchedInv(s)
    ensures s.core.queue.live == 0 <==> NobodyReady(s)
  {
    hide LifeInv, RunInv;
    ReadyWhenLive(s.core.slots, s.core.queue);
  }

  lemma ReadyWhenLive(slots: seq<Slot>, q: ReadyQueue)
    requires QueueInv(slots, q)
    ensures q.live == 0 <==> forall i :: 0 <= i < |slots| ==> !slots[i].ready
  {
    if i :| 0 <= i < |slots| && slots[i].ready {
      ReadyCountPositive(slots, i);
    } else {
      NoneReady(slots);
    }
  }

  lemma {:induction false} NoneReady(slots: seq<Slot>)
    requires forall i :: 0 <= i < |slots| ==> !slots[i].ready
    ensures ReadyCount(slots) == 0
  {
    if slots != [] {
      NoneReady(slots[..|slots| - 1]);
    }
  }
}
