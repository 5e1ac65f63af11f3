/** Draining the ready queue, running a process inline, and what the simulator delivers. */
module ReadyRun {
  import opened Registrations
  import opened WaitCore
  import opened SchedulerState
  import opened SchedulerLife
  import opened SchedulerEnd
  import opened Cancellation
  import opened Delivery
  import opened SchedulerRun
  import E = EdgeWaits
  import P = PhaseWaits
  import T = TimerQueue

  // ---------------------------------------------------------------------------------------------
  // One turn of the drain
  // ---------------------------------------------------------------------------------------------

  function SetQueue(c: Core, q: ReadyQueue): Core {
    c.(queue := q)
  }

  lemma SetQueueKeeps(c: Core, q: ReadyQueue)
    requires WaitInv(c) && QueueInv(c.slots, q)
    ensures WaitInv(SetQueue(c, q)) && Evolves(c, SetQueue(c, q))
  {
    EvolvesTables(c, SetQueue(c, q));
  }

  /** Consuming an entry, with or without moving the rest to the front, loses no other entry. */
  lemma TakeEntryExact(q: ReadyQueue)
    requires q.cursor < |q.entries|
    ensures var r := TakeEntry(q);
      && r.cursor <= |r.entries| && r.live == q.live
      && r.entries[r.cursor..] == q.entries[q.cursor + 1..]
  {
  }

  /** The entry of a slot that is no longer ready is stale and can be dropped. */
  lemma TakeStaleKeeps(slots: seq<Slot>, q: ReadyQueue)
    requires QueueInv(slots, q) && q.cursor < |q.entries|
    requires var i := q.entries[q.cursor]; i < |slots| ==> !slots[i].ready
    ensures QueueInv(slots, TakeEntry(q))
  {
    TakeEntryExact(q);
    assert q.entries[q.cursor..] == [q.entries[q.cursor]] + q.entries[q.cursor + 1..];
  }

  /** The slot taken from the queue is no longer ready; everybody else's entry is still there. */
  lemma TakeReadyKeeps(slots: seq<Slot>, q: ReadyQueue)
    requires QueueInv(slots, q) && q.cursor < |q.entries|
    requires var i := q.entries[q.cursor]; i < |slots| && slots[i].ready
    ensures var i := q.entries[q.cursor];
      QueueInv(slots[i := slots[i].(ready := false)], TakeEntry(q).(live := q.live - 1))
  {
    var i := q.entries[q.cursor];
    TakeEntryExact(q);
    ReadyCountUpdate(slots, i, slots[i].(ready := false));
    assert q.entries[q.cursor..] == [i] + q.entries[q.cursor + 1..];
  }

  lemma ResumeSlotKeeps(c: Core)
    requires WaitInv(c) && c.queue.cursor < |c.queue.entries|
    requires var i := c.queue.entries[c.queue.cursor]; i < |c.slots| && c.slots[i].ready
    ensures var i := c.queue.entries[c.queue.cursor];
      var d := ClearReady(SetQueue(c, TakeEntry(c.queue)), i);
      && WaitInv(d) && Evolves(c, d) && SameLife(c, d)
      && d == c.(slots := d.slots, queue := d.queue)
      && d.slots[i].Alive() && !d.slots[i].waiting && !d.slots[i].ready
  {
    var i := c.queue.entries[c.queue.cursor];
    var d := ClearReady(SetQueue(c, TakeEntry(c.queue)), i);
    SlotIsOk(c, i);
    TakeReadyKeeps(c.slots, c.queue);
    assert Waits(d.slots) == Waits(c.slots);
    EvolvesTables(c, d);
  }

  lemma NotReadyWhenDead(c: Core, i: nat)
    requires WaitInv(c) && i < |c.slots|
    ensures c.slots[i].ready ==> c.slots[i].Alive()
  {
    SlotIsOk(c, i);
  }

  lemma PushFrameKeeps(s: Sched, d: Core, f: Frame)
    requires SchedInv(s) && s.draining && WaitInv(d) && Evolves(s.core, d) && SameLife(s.core, d)
    requires d.clock.precision == s.core.clock.precision && FrameOk(d, f)
    requires InlineDepth(s.frames) + (if f.Inline? then 1 else 0) <= MAX_INLINE_DEPTH
    ensures Keeps(s, s.(core := d, frames := s.frames + [f]))
  {
    hide WaitInv, Evolves, FlagsInv;
    CoreStep(s, d);
    assert (s.frames + [f])[..|s.frames|] == s.frames;
    EvolvesGrows(s.core, d);
    FramesStay(s.core, d, s.frames);
    KeepsFlags(s.(core := d), f);
  }

  lemma KeepsFlags(s: Sched, f: Frame)
    requires RunInv(s)
    ensures FlagsInv(s.core, s.frames + [f])
  {
    var more := s.frames + [f];
    forall i | 0 <= i < |s.core.slots|
      ensures FlagAt(s.core, more, i)
    {
      assert FlagAt(s.core, s.frames, i);
      if TimingFor(s.frames, i, s.core.slots[i].Token()) {
        var k :| 0 <= k < |s.frames| && s.frames[k].Timing? && s.frames[k].wait.slot == i
                 && s.core.slots[i].Token() == Some(s.frames[k].wait.gen);
        assert more[k] == s.frames[k];
      }
    }
  }

  lemma EvolvesGrows(c: Core, d: Core)
    requires Evolves(c, d)
    ensures c.lastGen <= d.lastGen
  {
  }

  lemma PopReadyStep(s: Sched)
    requires SchedInv(s) && s.draining && s.core.queue.cursor < |s.core.queue.entries|
    ensures Keeps(s, PopReady(s))
  {
    hide WaitInv, Evolves, LifeInv;
    var i, q := s.core.queue.entries[s.core.queue.cursor], TakeEntry(s.core.queue);
    if i < |s.core.slots| && s.core.slots[i].ready {
      NotReadyWhenDead(s.core, i);
      ResumeSlotKeeps(s.core);
      PushFrameKeeps(s, ClearReady(SetQueue(s.core, q), i), Drained(i));
    } else {
      InvQueue(s.core);
      TakeStaleKeeps(s.core.slots, s.core.queue);
      SetQueueKeeps(s.core, q);
      CoreStep(s, SetQueue(s.core, q));
    }
  }

  lemma InvQueue(c: Core)
    requires WaitInv(c)
    ensures QueueInv(c.slots, c.queue)
  {
  }

  lemma EndResumeStep(s: Sched)
    requires SchedInv(s) && Linked(s) && s.frames != [] && s.frames[|s.frames| - 1].Drained?
    ensures Keeps(s, EndResume(s))
  {
    hide SchedInv, WaitInv, Evolves, Keeps, Linked;
    var t := s.(frames := s.frames[..|s.frames| - 1]);
    DrainingFrames(s);
    PopFrameKeeps(s);
    EvolvesRefl(s.core);
    KeepsOf(s, t);
    ShapeKeepsLinked(s, t);
    ApplyPendingStep(t);
    var u := ApplyPending(t);
    KeepsInv(t, u);
    CollectRootsStep(u);
    KeepsTransitive(s, t, u);
    KeepsTransitive(s, u, CollectRoots(u));
  }

  // ---------------------------------------------------------------------------------------------
  // The end of a drain
  // ---------------------------------------------------------------------------------------------

  ghost predicate NobodyReady(s: Sched) {
    forall i :: 0 <= i < |s.core.slots| ==> !s.core.slots[i].ready
  }

  /** A drain that has consumed its queue has left nobody ready. */
  lemma DrainedAll(c: Core)
    requires WaitInv(c) && c.queue.cursor == |c.queue.entries|
    ensures forall i :: 0 <= i < |c.slots| ==> !c.slots[i].ready
  {
    assert c.queue.entries[c.queue.cursor..] == [];
  }

  lemma EmptyQueueKeeps(s: Sched)
    requires SchedInv(s) && s.frames == [] && s.core.queue.cursor == |s.core.queue.entries|
    ensures Keeps(s, s.(core := s.core.(queue := s.core.queue.(entries := [], cursor := 0)), draining := false))
  {
    hide WaitInv, Evolves, LifeInv, FlagsInv;
    var d := s.core.(queue := s.core.queue.(entries := [], cursor := 0));
    DrainedAll(s.core);
    InvQueue(s.core);
    SetQueueKeeps(s.core, d.queue);
    FlagsStay(s.core, d, s.frames);
    EmptyQueueLife(s, d);
  }

  lemma EmptyQueueLife(s: Sched, d: Core)
    requires LifeInv(s) && d.slots == s.core.slots
    ensures LifeInv(s.(core := d, draining := false))
  {
  }

  lemma {:induction false} ReclaimRootsReady(s: Sched, listed: seq<nat>)
    requires NobodyReady(s)
    ensures NobodyReady(ReclaimRoots(s, listed))
    decreases |listed|
  {
    if listed != [] {
      ReclaimRootsReady(Reclaim(s, listed[0]), listed[1..]);
    }
  }

  lemma {:induction false} ReclaimChildrenReady(s: Sched, listed: seq<Option<nat>>)
    requires NobodyReady(s)
    ensures NobodyReady(ReclaimChildren(s, listed))
    decreases |listed|
  {
    if listed != [] {
      ReclaimChildrenReady(if listed[0].Some? then Reclaim(s, listed[0].value) else s, listed[1..]);
    }
  }

  lemma BoundaryReady(s: Sched)
    requires NobodyReady(s)
    ensures NobodyReady(Boundary(s))
  {
    ReclaimRootsReady(s, s.pool.finishedRoots);
    var a := CollectRoots(s);
    ReclaimChildrenReady(a, a.pool.finished);
  }

  /** A finished drain leaves nobody ready. */
  lemma EndDrainStep(s: Sched)
    requires SchedInv(s) && s.frames == [] && s.core.queue.cursor == |s.core.queue.entries|
    ensures Keeps(s, EndDrain(s)) && NobodyReady(EndDrain(s))
  {
    hide SchedInv, WaitInv, Evolves, Keeps;
    var t := s.(core := s.core.(queue := s.core.queue.(entries := [], cursor := 0)), draining := false);
    EmptyQueueKeeps(s);
    KeepsInv(s, t);
    BoundaryStep(t);
    KeepsTransitive(s, t, Boundary(t));
    InvWait(s);
    DrainedAll(s.core);
    BoundaryReady(t);
  }

  // ---------------------------------------------------------------------------------------------
  // Running a process inline
  // ---------------------------------------------------------------------------------------------

  /** When one slot is ready, dropping every entry that has not been consumed loses nobody else. */
  lemma OnlyReady(slots: seq<Slot>, q: ReadyQueue, i: nat)
    requires QueueInv(slots, q) && q.live == 1 && i < |slots| && slots[i].ready
    ensures forall k :: 0 <= k < |slots| && k != i ==> !slots[k].ready
    ensures QueueInv(slots[i := slots[i].(ready := false)], q.(entries := q.entries[..q.cursor], live := 0))
  {
    forall k | 0 <= k < |slots| && k != i
      ensures !slots[k].ready
    {
      if slots[k].ready {
        ReadyCountTwo(slots, i, k);
      }
    }
    ReadyCountUpdate(slots, i, slots[i].(ready := false));
  }

  lemma InlineCoreKeeps(c: Core, i: nat)
    requires WaitInv(c) && i < |c.slots| && c.slots[i].ready && c.queue.live == 1
    ensures c.queue.cursor <= |c.queue.entries|
    ensures var d := ClearReady(SetQueue(c, c.queue.(entries := c.queue.entries[..c.queue.cursor])), i);
      && WaitInv(d) && Evolves(c, d) && SameLife(c, d) && d == c.(slots := d.slots, queue := d.queue)
  {
    var d := ClearReady(SetQueue(c, c.queue.(entries := c.queue.entries[..c.queue.cursor])), i);
    SlotIsOk(c, i);
    OnlyReady(c.slots, c.queue, i);
    assert Waits(d.slots) == Waits(c.slots);
    EvolvesTables(c, d);
  }

  lemma BeginInlineStep(s: Sched, p: nat)
    requires SchedInv(s) && CanRunInline(s, p)
    ensures s.core.queue.cursor <= |s.core.queue.entries|
    ensures Keeps(s, BeginInline(s, p))
  {
    hide WaitInv, Evolves, LifeInv;
    var i, q := s.controls[p].slot, s.core.queue;
    InlineCoreKeeps(s.core, i);
    PushFrameKeeps(s, ClearReady(SetQueue(s.core, q.(entries := q.entries[..q.cursor])), i), Inline(i, p));
  }

  lemma EndInlineStep(s: Sched)
    requires SchedInv(s) && s.frames != [] && s.frames[|s.frames| - 1].Inline?
    ensures Keeps(s, EndInline(s))
  {
    hide SchedInv, WaitInv, Evolves, Keeps;
    var t := s.(frames := s.frames[..|s.frames| - 1]);
    DrainingFrames(s);
    PopFrameKeeps(s);
    EvolvesRefl(s.core);
    KeepsOf(s, t);
    CollectRootsStep(t);
    KeepsTransitive(s, t, CollectRoots(t));
  }

  // ---------------------------------------------------------------------------------------------
  // Deliveries
  // ---------------------------------------------------------------------------------------------

  lemma AfterDeliveryStep(s: Sched, delivered: (Core, bool))
    requires SchedInv(s) && WaitInv(delivered.0) && Evolves(s.core, delivered.0) && Steady(s.core, delivered.0)
    ensures Keeps(s, AfterDelivery(s, delivered))
  {
    hide SchedInv, WaitInv, Evolves, Keeps, Steady;
    var t := s.(core := delivered.0);
    SteadyStep(s, delivered.0);
    KeepsInv(s, t);
    if delivered.1 {
      DrainReadyStep(t);
      KeepsTransitive(s, t, DrainReady(t));
    } else {
      BoundaryStep(t);
      KeepsTransitive(s, t, Boundary(t));
    }
  }

  lemma ResumeEdgeStep(s: Sched, signal: nat, edge: E.EdgeKind)
    requires SchedInv(s)
    ensures Keeps(s, ResumeEdge(s, signal, edge))
  {
    hide SchedInv, WaitInv, Evolves, Keeps, Steady;
    InvWait(s);
    DeliverEdgeKeeps(s.core, signal, edge);
    AfterDeliveryStep(s, DeliverEdge(s.core, signal, edge));
  }

  lemma AdvanceTimeStep(s: Sched, time: nat)
    requires SchedInv(s) && time <= T.NO_DEADLINE
    ensures Keeps(s, AdvanceTime(s, time))
  {
    hide SchedInv, WaitInv, Evolves, Keeps, Steady;
    InvWait(s);
    DeliverTimeKeeps(s.core, time);
    var next := s.core.timers.next;
    if next.None? || next.value.deadline > time {
      SteadyStep(s, DeliverTime(s.core, time).0);
    } else {
      AfterDeliveryStep(s, DeliverTime(s.core, time));
    }
  }

  lemma ResumePhaseStep(s: Sched, phase: P.Phase)
    requires SchedInv(s)
    ensures Keeps(s, ResumePhase(s, phase))
  {
    hide SchedInv, WaitInv, Evolves, Keeps, Steady;
    InvWait(s);
    DeliverPhaseExact(s.core, phase);
    AfterDeliveryStep(s, DeliverPhase(s.core, phase));
  }
}
