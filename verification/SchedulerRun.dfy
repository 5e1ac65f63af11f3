/** The other operations that a run is made of keep the invariant: waits begun and ended by calls,
reclaiming, the ready queue and what the simulator delivers. */
module SchedulerRun {
  import opened Registrations
  import opened WaitCore
  import opened SchedulerState
  import opened SchedulerLife
  import opened SchedulerEnd
  import opened Cancellation
  import opened Delivery
  import E = EdgeWaits
  import P = PhaseWaits
  import T = TimerQueue

  /** An operation keeps the invariant, and moves the state only as `Evolves` allows. */
  ghost predicate Keeps(s: Sched, r: Sched) {
    SchedInv(r) && Evolves(s.core, r.core)
  }

  lemma KeepsTransitive(s: Sched, t: Sched, r: Sched)
    requires Keeps(s, t) && Keeps(t, r)
    ensures Keeps(s, r)
  {
    hide SchedInv, Evolves;
    EvolvesTransitive(s.core, t.core, r.core);
  }

  lemma KeepsRefl(s: Sched)
    requires SchedInv(s)
    ensures Keeps(s, s)
  {
    hide SchedInv, Evolves;
    EvolvesRefl(s.core);
  }

  lemma InvWait(s: Sched)
    requires SchedInv(s)
    ensures WaitInv(s.core)
  {
  }

  lemma {:induction false} SteadyStep(s: Sched, d: Core)
    requires SchedInv(s) && WaitInv(d) && Evolves(s.core, d) && Steady(s.core, d)
    ensures Keeps(s, s.(core := d))
  {
    hide WaitInv, Evolves;
    CoreStep(s, d);
  }

  // ---------------------------------------------------------------------------------------------
  // Waiting
  // ---------------------------------------------------------------------------------------------

  lemma ParkStep(s: Sched, i: nat, request: Request)
    requires SchedInv(s) && s.Alive(i) && Park(s.core, i, request).Some?
    ensures Keeps(s, s.(core := Park(s.core, i, request).value))
  {
    hide WaitInv, Evolves;
    ParkKeeps(s.core, i, request);
    CoreStep(s, Park(s.core, i, request).value);
  }

  lemma {:induction false} RegisterFirstQueue(c: Core, requests: seq<Request>, i: nat, k: nat)
    ensures var d := RegisterFirst(c, requests, i, k);
      d.Some? ==> d.value.queue == c.queue && d.value.clock.precision == c.clock.precision
    decreases |requests| - k
  {
    if k < |requests| {
      var d := RegisterWait(c, requests[k], Reg(i, c.lastGen, Some(k)));
      if d.Some? {
        RegisterFirstQueue(d.value, requests, i, k + 1);
      }
    }
  }

  lemma ParkFirstStep(s: Sched, i: nat, requests: seq<Request>)
    requires SchedInv(s) && s.Alive(i) && ParkFirst(s.core, i, requests).Some?
    ensures Keeps(s, s.(core := ParkFirst(s.core, i, requests).value))
  {
    hide WaitInv, Evolves;
    ParkFirstKeeps(s.core, i, requests);
    RegisterFirstQueue(SetWinner(BeginWait(s.core, i, FirstWait), i, None), requests, i, 0);
    CoreStep(s, ParkFirst(s.core, i, requests).value);
  }

  lemma BeginStep(s: Sched, i: nat, reason: WaitReason)
    requires SchedInv(s) && s.Alive(i) && ReasonProgress(reason) == INTERNAL
    ensures Keeps(s, s.(core := BeginWait(s.core, i, reason)))
  {
    hide SchedInv, Evolves;
    BeginKeeps(s, i, reason);
  }

  /** A later waiter of a process. */
  lemma AddWaiterLife(lives: seq<Life>, controls: seq<Control>, p: nat, waiters: seq<Reg>)
    requires ProcInv(lives, controls) && p < |controls|
    ensures ProcInv(lives, controls[p := controls[p].(waiters := waiters)])
  {
  }

  lemma AddWaiterKeeps(s: Sched, p: nat, w: Reg)
    requires SchedInv(s) && p < |s.controls| && 0 < w.gen <= s.core.lastGen
    ensures SchedInv(s.(controls := s.controls[p := s.controls[p].(waiters := s.controls[p].waiters + [w])]))
  {
    hide WaitInv;
    AddWaiterLife(Lives(s.core.slots), s.controls, p, s.controls[p].waiters + [w]);
  }

  lemma ParkProcessStep(s: Sched, i: nat, p: nat)
    requires SchedInv(s) && s.Alive(i) && p < |s.controls| && ParkProcess(s, i, p).Some?
    ensures Keeps(s, ParkProcess(s, i, p).value)
  {
    hide SchedInv, Evolves;
    var b := s.(core := BeginWait(s.core, i, ProcessWait));
    BeginKeeps(s, i, ProcessWait);
    AddWaiterKeeps(b, p, Reg(i, b.core.lastGen, None));
  }

  /** Waking an external wait. */
  lemma WakeStep(s: Sched, w: Reg)
    requires SchedInv(s)
    ensures Keeps(s, s.(core := ResumeReg(s.core, w)))
  {
    hide SchedInv, WaitInv, Evolves;
    InvWait(s);
    ResumeRegKeeps(s.core, w);
    SteadyStep(s, ResumeReg(s.core, w));
  }

  lemma FewerFrames(c: Core, frames: seq<Frame>)
    requires FlagsInv(c, frames) && frames != [] && !frames[|frames| - 1].Timing?
    ensures FlagsInv(c, frames[..|frames| - 1])
  {
    var less := frames[..|frames| - 1];
    forall i | 0 <= i < |c.slots|
      ensures FlagAt(c, less, i)
    {
      assert FlagAt(c, frames, i);
    }
  }

  lemma PopFrameKeeps(s: Sched)
    requires SchedInv(s) && s.frames != [] && !s.frames[|s.frames| - 1].Timing?
    ensures SchedInv(s.(frames := s.frames[..|s.frames| - 1]))
  {
    hide WaitInv, FlagsInv;
    FewerFrames(s.core, s.frames);
  }

  /** The timer of a timeout is armed: its flags are exact from now on. */
  lemma TimeoutArmed(c: Core, d: Core, frames: seq<Frame>)
    requires FlagsInv(c, frames) && frames != [] && frames[|frames| - 1].Timing?
    requires var w := frames[|frames| - 1].wait;
      EvolvesBut(c, d, w.slot) && (w.slot < |d.slots| && d.slots[w.slot].Token() == Some(w.gen) ==> FlagOk(d, w.slot))
      && (w.slot < |d.slots| ==> w.slot < |c.slots| && d.slots[w.slot].Token() == c.slots[w.slot].Token())
      && (ValidReg(c, w) || d == c)
    ensures FlagsInv(d, frames[..|frames| - 1])
  {
    hide Moves, FlagOk;
    var less, w := frames[..|frames| - 1], frames[|frames| - 1].wait;
    forall i | 0 <= i < |d.slots|
      ensures FlagAt(d, less, i)
    {
      assert i < |c.slots| ==> FlagAt(c, frames, i);
      if i != w.slot {
        assert SettledAt(c, d, i);
        OtherFrames(c, d, frames, i);
      }
    }
  }

  lemma OtherFrames(c: Core, d: Core, frames: seq<Frame>, i: nat)
    requires i < |d.slots| && SettledAt(c, d, i) && (i < |c.slots| ==> FlagAt(c, frames, i))
    requires frames != [] && frames[|frames| - 1].Timing? && frames[|frames| - 1].wait.slot != i
    ensures FlagAt(d, frames[..|frames| - 1], i)
  {
    if i < |c.slots| && TimingFor(frames, i, c.slots[i].Token()) {
      var k :| 0 <= k < |frames| && frames[k].Timing? && frames[k].wait.slot == i
        && c.slots[i].Token() == Some(frames[k].wait.gen);
      assert frames[..|frames| - 1][k] == frames[k];
    }
  }

  lemma TopFrame(s: Sched)
    requires SchedInv(s) && s.frames != []
    ensures FrameOk(s.core, s.frames[|s.frames| - 1]) && s.draining && FlagsInv(s.core, s.frames)
  {
    hide WaitInv, LifeInv, FlagsInv;
  }

  /** Every wait is settled but the one, if it lasts, that the frame on top is for. */
  ghost predicate ArmsTop(s: Sched, r: Sched)
    requires s.frames != [] && s.frames[|s.frames| - 1].Timing?
  {
    var w := s.frames[|s.frames| - 1].wait;
    forall i {:trigger SettledAt(s.core, r.core, i)} ::
      0 <= i < |r.core.slots| && !(ValidReg(s.core, w) && w.slot == i) ==> SettledAt(s.core, r.core, i)
  }

  /** Armed or superseded, the timeout leaves exact flags behind. */
  lemma EndTimeoutFlags(s: Sched)
    requires SchedInv(s) && s.frames != [] && s.frames[|s.frames| - 1].Timing?
    ensures EndTimeout(s).Some?
    ensures var r := EndTimeout(s).value;
      && FlagsInv(r.core, r.frames) && WaitInv(r.core) && Moves(s.core, r.core) && SameLife(s.core, r.core)
      && ArmsTop(s, r)
      && r.core.queue == s.core.queue && r.core.clock.precision == s.core.clock.precision
        && r.core.lastGen == s.core.lastGen
  {
    hide WaitInv, LifeInv, RunInv, Moves, FlagsInv, FlagOk, SettledAt;
    TopFrame(s);
    InvWait(s);
    EvolvesRefl(s.core);
    EvolvesIsBut(s.core, s.core, s.frames[|s.frames| - 1].wait.slot);
    var frame := s.frames[|s.frames| - 1];
    if ValidReg(s.core, frame.wait) {
      var d := RegisterWait(s.core, After(frame.timeout), frame.wait).value;
      RegisterWaitKeeps(s.core, After(frame.timeout), frame.wait);
      RegisterWaitSettles(s.core, After(frame.timeout), frame.wait, frame.wait.slot);
      TopIsPending(s);
      assert Waits(d.slots)[frame.wait.slot] == Waits(s.core.slots)[frame.wait.slot];
      TimeoutArmed(s.core, d, s.frames);
    } else {
      SupersededFlags(s);
    }
  }

  lemma TopIsPending(s: Sched)
    requires SchedInv(s) && s.frames != [] && s.frames[|s.frames| - 1].Timing?
    requires ValidReg(s.core, s.frames[|s.frames| - 1].wait)
    ensures OtherFlagOk(s.core, After(s.frames[|s.frames| - 1].timeout), s.frames[|s.frames| - 1].wait.slot)
  {
    hide WaitInv, LifeInv;
    assert FlagAt(s.core, s.frames, s.frames[|s.frames| - 1].wait.slot);
  }

  /** When another event has ended the wait first, the frame says nothing about any wait. */
  lemma SupersededFlags(s: Sched)
    requires SchedInv(s) && s.frames != [] && s.frames[|s.frames| - 1].Timing?
    requires !ValidReg(s.core, s.frames[|s.frames| - 1].wait)
    ensures FlagsInv(s.core, s.frames[..|s.frames| - 1])
  {
    hide WaitInv, LifeInv;
    var frames, less := s.frames, s.frames[..|s.frames| - 1];
    forall i | 0 <= i < |s.core.slots|
      ensures FlagAt(s.core, less, i)
    {
      assert FlagAt(s.core, frames, i);
      if TimingFor(frames, i, s.core.slots[i].Token()) {
        var k :| 0 <= k < |frames| && frames[k].Timing? && frames[k].wait.slot == i
                 && s.core.slots[i].Token() == Some(frames[k].wait.gen);
        assert k < |less| ==> less[k] == frames[k];
      }
    }
  }

  lemma EndTimeoutStep(s: Sched)
    requires SchedInv(s) && s.frames != [] && s.frames[|s.frames| - 1].Timing?
    ensures EndTimeout(s).Some? && SchedInv(EndTimeout(s).value) && Moves(s.core, EndTimeout(s).value.core)
    ensures ArmsTop(s, EndTimeout(s).value)
  {
    hide WaitInv, Moves, FlagsInv;
    EndTimeoutFlags(s);
    var r := EndTimeout(s).value;
    SameLives(s.core, r.core);
    FramesStay(s.core, r.core, s.frames);
  }

  lemma DrainingFrames(s: Sched)
    requires SchedInv(s) && s.frames != []
    ensures s.draining
  {
    hide WaitInv, LifeInv;
  }

  // ---------------------------------------------------------------------------------------------
  // Finishing
  // ---------------------------------------------------------------------------------------------

  lemma SameParents(s: Sched, join: nat, remaining: nat)
    requires SchedInv(s) && join < |s.joins|
    ensures SchedInv(s.(joins := s.joins[join := s.joins[join].(remaining := remaining)]))
  {
    hide WaitInv;
    var lives := Lives(s.core.slots);
    forall k | 0 <= k < |lives| && lives[k].Alive()
      ensures HasParent(lives, s.joins[join := s.joins[join].(remaining := remaining)], k)
    {
      assert HasParent(lives, s.joins, k);
    }
  }

  /** The wait of a join's parent ends and the parent becomes ready. */
  lemma WakeParentKeeps(s: Sched, i: nat)
    requires SchedInv(s) && i < |s.core.slots| && s.core.slots[i].waiting
    ensures Keeps(s, s.(core := MakeReady(EndWait(s.core, i), i)))
  {
    hide WaitInv, Evolves;
    SlotIsOk(s.core, i);
    EndWaitKeeps(s.core, i);
    var a := EndWait(s.core, i);
    MakeReadyKeeps(a, i);
    EvolvesTransitive(s.core, a, MakeReady(a, i));
    CoreStep(s, MakeReady(a, i));
  }

  lemma JoinChildStep(s: Sched, join: nat)
    requires SchedInv(s)
    ensures Keeps(s, FinishJoinChild(s, join))
  {
    hide SchedInv, WaitInv, Evolves;
    KeepsRefl(s);
    if join < |s.joins| && s.joins[join].remaining != 0 {
      var j := s.joins[join].(remaining := s.joins[join].remaining - 1);
      var t := s.(joins := s.joins[join := j]);
      SameParents(s, join, j.remaining);
      EvolvesRefl(s.core);
      if j.remaining == 0 && j.parent < |s.core.slots| && s.core.slots[j.parent].waiting
        && !s.core.slots[j.parent].life.done {
        WakeParentKeeps(t, j.parent);
      }
    }
  }

  lemma FinalSuspendStep(s: Sched, i: nat)
    requires SchedInv(s) && s.Alive(i) && Childless(Lives(s.core.slots), s.joins, i)
    ensures Keeps(s, FinalSuspend(s, i))
  {
    hide SchedInv, WaitInv, Evolves, Keeps, Childless;
    FinishKeeps(s, i);
    var t, link := Finish(s, i), s.core.slots[i].life.link;
    assert Keeps(s, t) by { KeepsOf(s, t); }
    if link.Joined? {
      JoinChildStep(t, link.join);
      KeepsTransitive(s, t, FinishJoinChild(t, link.join));
    }
  }

  lemma KeepsOf(s: Sched, r: Sched)
    requires SchedInv(r) && Evolves(s.core, r.core)
    ensures Keeps(s, r)
  {
    hide SchedInv, Evolves;
  }

  lemma KeepsInv(s: Sched, r: Sched)
    requires Keeps(s, r)
    ensures SchedInv(r)
  {
    hide SchedInv, Evolves;
  }

  // ---------------------------------------------------------------------------------------------
  // Cancelling
  // ---------------------------------------------------------------------------------------------

  lemma MarkScheduleStep(s: Sched)
    requires SchedInv(s)
    ensures Keeps(s, MarkSchedule(s))
  {
    hide SchedInv, WaitInv, Evolves;
    InvWait(s);
    EvolvesRefl(s.core);
    MarkChangedKeeps(s.core, s.core);
    SteadyStep(s, ScheduleChanged(s.core));
  }

  lemma CancelStateStep(s: Sched, i: nat)
    requires SchedInv(s) && Linked(s) && s.Alive(i)
    ensures Keeps(s, MarkSchedule(CancelState(s, i)))
  {
    hide SchedInv, WaitInv, Evolves, Keeps;
    CancelExact(s, i);
    var t := CancelState(s, i);
    KeepsOf(s, t);
    MarkScheduleStep(t);
    KeepsTransitive(s, t, MarkSchedule(t));
  }

  /** A process that has not completed is attached, and runs in its slot. */
  lemma LivingProcess(s: Sched, p: nat)
    requires SchedInv(s) && p < |s.controls| && !s.controls[p].done
    ensures s.Alive(s.controls[p].slot) && s.controls[p].attached
    ensures s.core.slots[s.controls[p].slot].life.control == Some(p)
  {
    hide WaitInv, RunInv;
    assert Lives(s.core.slots)[s.controls[p].slot] == s.core.slots[s.controls[p].slot].life;
  }

  lemma CancelRequestedStep(s: Sched, p: nat)
    requires SchedInv(s) && Linked(s)
    ensures Keeps(s, CancelRequested(s, p))
  {
    hide SchedInv, WaitInv, Evolves, Keeps, Linked;
    KeepsRefl(s);
    if p < |s.controls| && s.controls[p].attached && !s.controls[p].done {
      LivingProcess(s, p);
      CancelStateStep(s, s.controls[p].slot);
    }
  }

  lemma {:induction false} CancelRequestsStep(s: Sched, ps: seq<nat>)
    requires SchedInv(s) && Linked(s)
    ensures Keeps(s, CancelRequests(s, ps))
    decreases |ps|
  {
    hide SchedInv, WaitInv, Evolves, Keeps, Linked;
    if ps == [] {
      KeepsRefl(s);
    } else {
      var t := CancelRequested(s, ps[0]);
      CancelRequestedStep(s, ps[0]);
      ShapeKeepsLinked(s, t);
      KeepsInv(s, t);
      CancelRequestsStep(t, ps[1..]);
      KeepsTransitive(s, t, CancelRequests(t, ps[1..]));
    }
  }

  lemma SetCancelsKeeps(s: Sched, cancels: seq<nat>)
    requires SchedInv(s)
    ensures Keeps(s, s.(cancels := cancels))
  {
    hide WaitInv, Evolves;
    EvolvesRefl(s.core);
  }

  lemma ApplyPendingStep(s: Sched)
    requires SchedInv(s) && Linked(s)
    ensures Keeps(s, ApplyPending(s))
  {
    hide SchedInv, WaitInv, Evolves, Keeps, Linked;
    CancelRequestsStep(s, s.cancels);
    var t := CancelRequests(s, s.cancels);
    KeepsInv(s, t);
    SetCancelsKeeps(t, []);
    KeepsTransitive(s, t, t.(cancels := []));
  }

  lemma RequestKeeps(s: Sched, p: nat)
    requires SchedInv(s) && p < |s.controls|
    ensures Keeps(s, s.(controls := s.controls[p := s.controls[p].(requested := true)]))
  {
    hide WaitInv, Evolves;
    EvolvesRefl(s.core);
  }

  lemma DrainReadyStep(s: Sched)
    requires SchedInv(s)
    ensures Keeps(s, DrainReady(s))
  {
    hide SchedInv, Evolves;
    DrainReadyKeeps(s);
  }

  lemma CancelProcessStep(s: Sched, p: nat)
    requires SchedInv(s) && Linked(s)
    ensures Keeps(s, CancelProcess(s, p))
  {
    hide SchedInv, WaitInv, Evolves, Keeps, Linked;
    KeepsRefl(s);
    if p < |s.controls| && s.controls[p].attached && !s.controls[p].done {
      var t := s.(controls := s.controls[p := s.controls[p].(requested := true)]);
      RequestKeeps(s, p);
      KeepsInv(s, t);
      if s.draining {
        SetCancelsKeeps(t, s.cancels + [p]);
        KeepsTransitive(s, t, t.(cancels := s.cancels + [p]));
      } else {
        LivingProcess(s, p);
        ShapeKeepsLinked(s, t);
        CancelStateStep(t, s.controls[p].slot);
        var u := MarkSchedule(CancelState(t, s.controls[p].slot));
        KeepsInv(t, u);
        DrainReadyStep(u);
        KeepsTransitive(s, t, u);
        KeepsTransitive(s, u, DrainReady(u));
      }
    }
  }

  lemma CancelAwaitedStep(s: Sched, i: nat)
    requires SchedInv(s) && Linked(s) && i < |s.core.slots| && s.core.slots[i].life.occupied
    ensures Keeps(s, CancelAwaited(s, i))
  {
    hide SchedInv, WaitInv, Evolves, Keeps, Linked;
    KeepsRefl(s);
    if !s.core.slots[i].life.done {
      CancelStateStep(s, i);
    }
  }

  // ---------------------------------------------------------------------------------------------
  // Reclaiming
  // ---------------------------------------------------------------------------------------------

  /** The slot of a finished coroutine becomes vacant. */
  lemma VacateKeeps(c: Core, i: nat)
    requires WaitInv(c) && i < |c.slots| && !c.slots[i].Alive()
    ensures var d := c.(slots := c.slots[i := VACANT]); WaitInv(d) && Evolves(c, d)
  {
    FillSlotKeeps(c, i, NOBODY);
  }

  ghost predicate Unlisted(before: Pool, after: Pool, i: nat) {
    && after.active == before.active && after.free == before.free + [i] && Listed(before, i)
    && (forall j: nat :: Listed(after, j) <==> Listed(before, j) && j != i)
    && (forall j :: j in after.finishedRoots ==> j in before.finishedRoots)
    && (forall j: nat :: Some(j) in after.finished ==> Some(j) in before.finished)
    && Distinct(after.finishedRoots)
    && (forall a, b :: 0 <= a < b < |after.finished| && after.finished[a].Some? ==>
      after.finished[a] != after.finished[b])
  }

  lemma VacatePool(lives: seq<Life>, pool: Pool, after: Pool, i: nat)
    requires PoolInv(lives, pool) && i < |lives| && Unlisted(pool, after, i)
    ensures PoolInv(lives[i := NOBODY], after) && !lives[i].Alive() && lives[i].occupied
  {
    LivingUpdate(lives, i, NOBODY);
    assert forall j :: j in after.free <==> j in pool.free || j == i;
  }

  lemma VacateForest(lives: seq<Life>, joins: seq<Join>, lastId: nat, i: nat)
    requires IdInv(lives, lastId) && ForestInv(lives, joins) && i < |lives| && !lives[i].Alive()
    ensures IdInv(lives[i := NOBODY], lastId) && ForestInv(lives[i := NOBODY], joins)
  {
    var after := lives[i := NOBODY];
    forall k | 0 <= k < |after| && after[k].Alive()
      ensures HasParent(after, joins, k)
    {
      assert HasParent(lives, joins, k);
      if lives[k].link.Awaited? {
        var j :| 0 <= j < |lives| && lives[j].Alive() && lives[j].id == lives[k].link.parent;
        assert after[j] == lives[j];
      }
    }
  }

  function Detached(controls: seq<Control>, control: Option<nat>): seq<Control> {
    if control.Some? && control.value < |controls|
    then controls[control.value := controls[control.value].(attached := false)]
    else controls
  }

  lemma VacateProcs(lives: seq<Life>, controls: seq<Control>, i: nat)
    requires ProcInv(lives, controls) && i < |lives| && lives[i].occupied && lives[i].done
    ensures ProcInv(lives[i := NOBODY], Detached(controls, lives[i].control))
  {
  }

  lemma VacateLife(s: Sched, pool: Pool, i: nat)
    requires LifeInv(s) && i < |s.core.slots| && Unlisted(s.pool, pool, i)
    ensures LifeInv(s.(core := s.core.(slots := s.core.slots[i := VACANT]), pool := pool,
                       controls := Detached(s.controls, s.core.slots[i].life.control)))
    ensures s.core.slots[i].life.occupied && s.core.slots[i].life.done
  {
    var lives := Lives(s.core.slots);
    VacatePool(lives, s.pool, pool, i);
    VacateForest(lives, s.joins, s.lastId, i);
    VacateProcs(lives, s.controls, i);
    assert Lives(s.core.slots[i := VACANT]) == lives[i := NOBODY];
  }

  lemma VacateRun(s: Sched, pool: Pool, i: nat)
    requires RunInv(s) && i < |s.core.slots| && Evolves(s.core, s.core.(slots := s.core.slots[i := VACANT]))
    ensures RunInv(s.(core := s.core.(slots := s.core.slots[i := VACANT]), pool := pool,
                      controls := Detached(s.controls, s.core.slots[i].life.control)))
  {
    hide Evolves, FlagsInv;
    var d := s.core.(slots := s.core.slots[i := VACANT]);
    FramesStay(s.core, d, s.frames);
    FlagsStay(s.core, d, s.frames);
  }

  /** Reclaiming a listed slot, which drops it from its list. */
  lemma VacateStep(s: Sched, pool: Pool, i: nat)
    requires SchedInv(s) && i < |s.core.slots| && Unlisted(s.pool, pool, i)
    ensures var r := s.(core := s.core.(slots := s.core.slots[i := VACANT]), pool := pool,
                        controls := Detached(s.controls, s.core.slots[i].life.control));
      Keeps(s, r)
    ensures s.core.slots[i].life.occupied && s.core.slots[i].life.done
  {
    hide WaitInv, LifeInv, RunInv, Evolves, Unlisted;
    VacateLife(s, pool, i);
    VacateKeeps(s.core, i);
    VacateRun(s, pool, i);
  }

  function WithRoots(s: Sched, listed: seq<nat>): Sched {
    s.(pool := s.pool.(finishedRoots := listed))
  }

  function WithChildren(s: Sched, listed: seq<Option<nat>>): Sched {
    s.(pool := s.pool.(finished := listed))
  }

  lemma RootsTail(s: Sched, listed: seq<nat>)
    requires LifeInv(WithRoots(s, listed)) && listed != []
    ensures listed[0] < |s.core.slots|
    ensures Unlisted(s.pool.(finishedRoots := listed),
      s.pool.(finishedRoots := listed[1..], free := s.pool.free + [listed[0]]), listed[0])
  {
    var before := s.pool.(finishedRoots := listed);
    assert listed[0] in listed && listed == [listed[0]] + listed[1..];
    assert Listed(before, listed[0]);
    assert forall j :: j in listed <==> j == listed[0] || j in listed[1..];
  }

  lemma {:induction false} ReclaimRootsStep(s: Sched, listed: seq<nat>)
    requires SchedInv(WithRoots(s, listed))
    ensures Keeps(WithRoots(s, listed), WithRoots(ReclaimRoots(s, listed), []))
    decreases |listed|
  {
    hide SchedInv, WaitInv, LifeInv, RunInv, Evolves, Keeps, Unlisted;
    if listed == [] {
      KeepsRefl(WithRoots(s, listed));
    } else {
      InvLife(WithRoots(s, listed));
      RootsTail(s, listed);
      var i := listed[0];
      var t := Reclaim(s, i);
      VacateStep(WithRoots(s, listed), s.pool.(finishedRoots := listed[1..], free := s.pool.free + [i]), i);
      assert Keeps(WithRoots(s, listed), WithRoots(t, listed[1..]));
      KeepsInv(WithRoots(s, listed), WithRoots(t, listed[1..]));
      ReclaimRootsStep(t, listed[1..]);
      KeepsTransitive(WithRoots(s, listed), WithRoots(t, listed[1..]), WithRoots(ReclaimRoots(t, listed[1..]), []));
    }
  }

  lemma CollectRootsStep(s: Sched)
    requires SchedInv(s)
    ensures Keeps(s, CollectRoots(s))
  {
    hide SchedInv, Keeps;
    assert WithRoots(s, s.pool.finishedRoots) == s;
    ReclaimRootsStep(s, s.pool.finishedRoots);
  }

  lemma ChildrenTail(s: Sched, listed: seq<Option<nat>>)
    requires LifeInv(WithChildren(s, listed)) && listed != []
    ensures listed[0].Some? ==>
      (&& listed[0].value < |s.core.slots|
       && Unlisted(s.pool.(finished := listed),
                   s.pool.(finished := listed[1..], free := s.pool.free + [listed[0].value]), listed[0].value))
  {
    assert listed == [listed[0]] + listed[1..];
    assert forall x :: x in listed <==> x == listed[0] || x in listed[1..];
    if listed[0].Some? {
      assert Listed(s.pool.(finished := listed), listed[0].value);
      assert listed[0] !in listed[1..];
    }
  }

  lemma DropHole(s: Sched, listed: seq<Option<nat>>)
    requires SchedInv(WithChildren(s, listed)) && listed != [] && listed[0].None?
    ensures Keeps(WithChildren(s, listed), WithChildren(s, listed[1..]))
  {
    hide WaitInv, RunInv, Evolves;
    EvolvesRefl(s.core);
    DropHolePool(Lives(s.core.slots), s.pool, listed);
    DropHoleRun(s, listed);
  }

  lemma DropHoleRun(s: Sched, listed: seq<Option<nat>>)
    requires RunInv(WithChildren(s, listed)) && listed != []
    ensures RunInv(WithChildren(s, listed[1..]))
  {
  }

  lemma DropHolePool(lives: seq<Life>, pool: Pool, listed: seq<Option<nat>>)
    requires PoolInv(lives, pool.(finished := listed)) && listed != [] && listed[0].None?
    ensures PoolInv(lives, pool.(finished := listed[1..]))
  {
    assert listed == [listed[0]] + listed[1..];
    assert forall i: nat :: Some(i) in listed <==> Some(i) in listed[1..];
    assert forall i: nat :: Listed(pool.(finished := listed), i) <==> Listed(pool.(finished := listed[1..]), i);
  }

  lemma {:induction false} ReclaimChildrenStep(s: Sched, listed: seq<Option<nat>>)
    requires SchedInv(WithChildren(s, listed))
    ensures Keeps(WithChildren(s, listed), WithChildren(ReclaimChildren(s, listed), []))
    decreases |listed|
  {
    hide SchedInv, WaitInv, LifeInv, RunInv, Evolves, Keeps, Unlisted;
    if listed == [] {
      KeepsRefl(WithChildren(s, listed));
    } else {
      InvLife(WithChildren(s, listed));
      ChildrenTail(s, listed);
      var t := if listed[0].Some? then Reclaim(s, listed[0].value) else s;
      if listed[0].Some? {
        var i := listed[0].value;
        VacateStep(WithChildren(s, listed), s.pool.(finished := listed[1..], free := s.pool.free + [i]), i);
      } else {
        DropHole(s, listed);
      }
      assert Keeps(WithChildren(s, listed), WithChildren(t, listed[1..]));
      KeepsInv(WithChildren(s, listed), WithChildren(t, listed[1..]));
      ReclaimChildrenStep(t, listed[1..]);
      KeepsTransitive(WithChildren(s, listed), WithChildren(t, listed[1..]),
        WithChildren(ReclaimChildren(t, listed[1..]), []));
    }
  }

  lemma CollectFinishedStep(s: Sched)
    requires SchedInv(s)
    ensures Keeps(s, CollectFinished(s))
  {
    hide SchedInv, Keeps;
    assert WithChildren(s, s.pool.finished) == s;
    ReclaimChildrenStep(s, s.pool.finished);
  }

  /** Compaction takes nothing from a wait that lasts. */
  lemma CompactHeld(c: Core)
    ensures var d := c.(edges := E.Compact(c.edges, Waits(c.slots)));
      forall i :: 0 <= i < |c.slots| && c.slots[i].Token().Some? ==> SameHeld(c, d, i, c.slots[i].gen)
  {
    forall i: nat, k: nat | i < |c.slots| && c.slots[i].Token().Some? && k < |c.edges.queues|
      ensures HeldOf(LiveOnly(c.edges.queues[k], Waits(c.slots)), i, c.slots[i].gen)
           == HeldOf(c.edges.queues[k], i, c.slots[i].gen)
    {
      HeldLive(c.edges.queues[k], Waits(c.slots), i, c.slots[i].gen);
    }
  }

  lemma CompactStep(s: Sched)
    requires SchedInv(s)
    ensures Keeps(s, s.(core := s.core.(edges := E.Compact(s.core.edges, Waits(s.core.slots)))))
  {
    hide LifeInv, RunInv;
    var d := s.core.(edges := E.Compact(s.core.edges, Waits(s.core.slots)));
    assert WaitInv(d) && Evolves(s.core, d) by {
      E.CompactExact(s.core.edges, Waits(s.core.slots), s.core.lastGen);
      CompactHeld(s.core);
    }
    SteadyStep(s, d);
  }

  lemma BoundaryStep(s: Sched)
    requires SchedInv(s)
    ensures Keeps(s, Boundary(s))
  {
    hide SchedInv, Keeps;
    var a := CollectRoots(s);
    CollectRootsStep(s);
    KeepsInv(s, a);
    var b := CollectFinished(a);
    CollectFinishedStep(a);
    KeepsInv(a, b);
    CompactStep(b);
    KeepsTransitive(s, a, b);
    KeepsTransitive(s, b, Boundary(s));
  }

  lemma {:induction false} ForgetExact(finished: seq<Option<nat>>, i: nat)
    requires Some(i) in finished
    requires forall a, b :: 0 <= a < b < |finished| && finished[a].Some? ==> finished[a] != finished[b]
    ensures var r := Forget(finished, i);
      && |r| == |finished|
      && (forall a :: 0 <= a < |r| ==> r[a] == if finished[a] == Some(i) then None else finished[a])
  {
    if finished[0] != Some(i) {
      ForgetExact(finished[1..], i);
    }
  }

  function AfterAwait(finished: seq<Option<nat>>, i: nat): seq<Option<nat>> {
    var n := |finished|;
    if n > 0 && finished[n - 1] == Some(i) then finished[..n - 1] else Forget(finished, i)
  }

  lemma AwaitUnlists(lives: seq<Life>, pool: Pool, i: nat)
    requires PoolInv(lives, pool) && Some(i) in pool.finished
    ensures i < |lives|
    ensures Unlisted(pool, pool.(finished := AfterAwait(pool.finished, i), free := pool.free + [i]), i)
  {
    var after := pool.(finished := AfterAwait(pool.finished, i), free := pool.free + [i]);
    assert Listed(pool, i);
    AfterAwaitExact(pool.finished, i);
    forall j: nat
      ensures Listed(after, j) <==> Listed(pool, j) && j != i
    {
    }
  }

  lemma AfterAwaitExact(finished: seq<Option<nat>>, i: nat)
    requires Some(i) in finished
    requires forall a, b :: 0 <= a < b < |finished| && finished[a].Some? ==> finished[a] != finished[b]
    ensures var r := AfterAwait(finished, i);
      && (forall j: nat :: Some(j) in r <==> Some(j) in finished && j != i)
      && (forall a, b :: 0 <= a < b < |r| && r[a].Some? ==> r[a] != r[b])
  {
    hide Forget;
    ForgetExact(finished, i);
    var r, n := AfterAwait(finished, i), |finished|;
    if finished[n - 1] == Some(i) {
      assert finished == r + [Some(i)];
    }
    forall j: nat
      ensures Some(j) in r <==> Some(j) in finished && j != i
    {
      if Some(j) in finished && j != i {
        var a :| 0 <= a < |finished| && finished[a] == Some(j);
        assert a < |r| && r[a] == Some(j);
      }
      if Some(j) in r {
        var a :| 0 <= a < |r| && r[a] == Some(j);
        assert finished[a] == Some(j);
      }
    }
  }

  lemma ReclaimAwaitedStep(s: Sched, i: nat)
    requires SchedInv(s) && i < |s.core.slots| && Some(i) in s.pool.finished
    ensures ReclaimAwaited(s, i).Some? && Keeps(s, ReclaimAwaited(s, i).value)
  {
    hide WaitInv, RunInv, Evolves, Unlisted, Keeps;
    AwaitUnlists(Lives(s.core.slots), s.pool, i);
    VacateStep(s, s.pool.(finished := AfterAwait(s.pool.finished, i), free := s.pool.free + [i]), i);
  }
}
