/** Waits that a primitive begins with `park_external`: only `wake_external` wakes them.

Such a wait has no registration with the simulator and no process knows it. So in any run it stays
parked until its primitive wakes it or its coroutine is gone, whatever is delivered, finished or
cancelled in between. */
module ParkedWaits {
  import opened Registrations
  import opened WaitCore
  import opened SchedulerState
  import opened SchedulerLife
  import opened SchedulerEnd
  import opened Cancellation
  import opened Delivery
  import opened SchedulerRun
  import opened ReadyRun
  import opened SchedulerRuns
  import opened Deadlock
  import E = EdgeWaits
  import P = PhaseWaits
  import T = TimerQueue

  /** Who else may end a wait besides its own waking: nobody, or the completion of a process; with `recent` the
      coroutine has not run since. */
  datatype Home = Nobody | Process(p: nat, recent: bool)

  /** No process but its own will wake the wait, and no timeout is about to arm a timer for it. */
  ghost predicate Private(s: Sched, r: Reg, h: Home) {
    && (forall p, w :: 0 <= p < |s.controls| && w in s.controls[p].waiters && w.gen == r.gen ==> h.Process? && p == h.p)
    && (forall k :: 0 <= k < |s.frames| && s.frames[k].Timing? ==> s.frames[k].wait.gen != r.gen)
  }

  /** The coroutine is parked, its flags announce nothing, and nobody alive is to resume it. */
  ghost predicate Secluded(s: Sched, i: nat) {
    && i < |s.core.slots| && s.core.slots[i].waiting && s.core.slots[i].progress == INTERNAL
    && Childless(Lives(s.core.slots), s.joins, i)
  }

  /** The process has not completed and knows the wait. */
  ghost predicate Attended(s: Sched, r: Reg, h: Home) {
    h.Process? ==> h.p < |s.controls| && !s.controls[h.p].done && r in s.controls[h.p].waiters
  }

  /** The process has completed and the coroutine has been woken. */
  ghost predicate Notified(s: Sched, r: Reg, h: Home)
    requires r.slot < |s.core.slots|
  {
    && h.Process? && h.p < |s.controls| && s.controls[h.p].done && !s.core.slots[r.slot].waiting
    && (h.recent ==> s.core.slots[r.slot].ready)
  }

  /** The wait is parked where only waking it, or its process, can reach it; or its process has ended it; or its
      coroutine has gone on or is gone. */
  ghost predicate Rests(s: Sched, r: Reg, h: Home) {
    Private(s, r, h)
    && (AliveReg(s.core, r) ==> (Secluded(s, r.slot) && Attended(s, r, h)) || Notified(s, r, h))
  }

  // ---------------------------------------------------------------------------------------------
  // What has to stay as it is
  // ---------------------------------------------------------------------------------------------

  /** Only waits that are new have been listed with a process or a timeout. */
  ghost predicate ListsNew(s: Sched, t: Sched) {
    && (forall p, w :: 0 <= p < |t.controls| && w in t.controls[p].waiters ==>
          w.gen > s.core.lastGen || (p < |s.controls| && w in s.controls[p].waiters))
    && (forall k :: 0 <= k < |t.frames| && t.frames[k].Timing? ==>
          t.frames[k].wait.gen > s.core.lastGen || t.frames[k] in s.frames)
  }

  ghost predicate SameWait(x: Slot, y: Slot) {
    y.life == x.life && y.waiting == x.waiting && y.gen == x.gen && y.progress == x.progress
  }

  /** Whoever is to resume the coroutine of slot i was to do so before. */
  ghost predicate SameKin(s: Sched, t: Sched, i: nat)
    requires i < |s.core.slots| && i < |t.core.slots|
  {
    forall k :: 0 <= k < |t.core.slots| && t.core.slots[k].Alive()
                && Names(t.core.slots[k].life, t.core.slots[i].life, t.joins, i) ==>
      && k < |s.core.slots| && s.core.slots[k].Alive()
      && Names(s.core.slots[k].life, s.core.slots[i].life, s.joins, i)
  }

  /** The process of the wait knows about it what it knew, and the coroutine is ready if it was. */
  ghost predicate SameHome(s: Sched, t: Sched, r: Reg, h: Home)
    requires r.slot < |s.core.slots| && r.slot < |t.core.slots|
  {
    h.Process? ==>
      && (h.p < |s.controls| ==>
            && h.p < |t.controls| && t.controls[h.p].done == s.controls[h.p].done
            && (r in s.controls[h.p].waiters ==> r in t.controls[h.p].waiters))
      && (h.recent && s.core.slots[r.slot].ready ==> t.core.slots[r.slot].ready)
  }

  lemma PrivateOn(s: Sched, t: Sched, r: Reg, h: Home)
    requires Private(s, r, h) && r.gen <= s.core.lastGen && ListsNew(s, t)
    ensures Private(t, r, h)
  {
    forall k | 0 <= k < |t.frames| && t.frames[k].Timing?
      ensures t.frames[k].wait.gen != r.gen
    {
      if t.frames[k] in s.frames {
        var j :| 0 <= j < |s.frames| && s.frames[j] == t.frames[k];
        assert s.frames[j].Timing?;
      }
    }
  }

  lemma SecludedOn(s: Sched, t: Sched, i: nat)
    requires Secluded(s, i) && i < |t.core.slots| && SameWait(s.core.slots[i], t.core.slots[i]) && SameKin(s, t, i)
    ensures Secluded(t, i)
  {
    forall k | 0 <= k < |t.core.slots| && t.core.slots[k].Alive()
      ensures !Names(t.core.slots[k].life, t.core.slots[i].life, t.joins, i)
    {
      if k < |s.core.slots| && s.core.slots[k].Alive() {
        assert Lives(s.core.slots)[k] == s.core.slots[k].life;
      }
    }
  }

  lemma RestsOn(s: Sched, t: Sched, r: Reg, h: Home)
    requires Rests(s, r, h) && r.gen <= s.core.lastGen && ListsNew(s, t)
    requires AliveReg(t.core, r) ==>
      && r.slot < |s.core.slots| && SameWait(s.core.slots[r.slot], t.core.slots[r.slot]) && SameHome(s, t, r, h)
      && (Secluded(s, r.slot) ==> SameKin(s, t, r.slot))
    ensures Rests(t, r, h)
  {
    hide Private, Secluded, ListsNew, SameKin;
    PrivateOn(s, t, r, h);
    if AliveReg(t.core, r) && Secluded(s, r.slot) {
      SecludedOn(s, t, r.slot);
    }
  }

  /** Every slot is as it was but for the ready flag and the winner. */
  ghost predicate SameWaits(c: Core, d: Core) {
    && |d.slots| == |c.slots| && d.lastGen == c.lastGen
    && forall k :: 0 <= k < |c.slots| ==> SameWait(c.slots[k], d.slots[k])
  }

  ghost predicate SameReady(c: Core, d: Core, r: Reg, h: Home) {
    h.Process? && h.recent && r.slot < |c.slots| && r.slot < |d.slots| && c.slots[r.slot].ready ==>
      d.slots[r.slot].ready
  }

  lemma CoreRests(s: Sched, t: Sched, r: Reg, h: Home)
    requires Rests(s, r, h) && r.gen <= s.core.lastGen
    requires SameWaits(s.core, t.core) && t.controls == s.controls && t.joins == s.joins && ListsNew(s, t)
    requires SameReady(s.core, t.core, r, h)
    ensures Rests(t, r, h)
  {
    RestsOn(s, t, r, h);
  }

  /** The token of the wait is as it was, and nobody has ended. */
  lemma TokenRests(s: Sched, d: Core, r: Reg, h: Home)
    requires WaitInv(s.core) && WaitInv(d) && Rests(s, r, h) && 0 < r.gen <= s.core.lastGen
    requires SameLife(s.core, d) && Evolves(s.core, d) && SameReady(s.core, d, r, h)
    requires AliveReg(s.core, r) ==> d.slots[r.slot].Token() == s.core.slots[r.slot].Token()
    ensures Rests(s.(core := d), r, h)
  {
    hide WaitInv, Private, Secluded, Attended, ListsNew;
    var t := s.(core := d);
    StillGone(s.core, d, r);
    if AliveReg(d, r) {
      SlotIsOk(s.core, r.slot);
      SlotIsOk(d, r.slot);
      assert SettledAt(s.core, d, r.slot);
    }
    SameLists(s, d);
    RestsOn(s, t, r, h);
  }

  lemma SameLists(s: Sched, d: Core)
    ensures ListsNew(s, s.(core := d))
  {
  }

  // ---------------------------------------------------------------------------------------------
  // Coroutines begin
  // ---------------------------------------------------------------------------------------------

  lemma AdoptRests(s: Sched, link: Link, control: Option<nat>, r: Reg, h: Home)
    requires LifeInv(s) && Rests(s, r, h) && 0 < r.gen <= s.core.lastGen
    requires ValidReg(s.core, r) ==>
      !Names(Life(true, s.lastId + 1, false, link, control), s.core.slots[r.slot].life, s.joins, r.slot)
    ensures Rests(Adopt(s, link, control), r, h)
  {
    AdoptShape(s, link, control);
    RestsOn(s, Adopt(s, link, control), r, h);
  }

  lemma ReadyRests(s: Sched, i: nat, r: Reg, h: Home)
    requires Rests(s, r, h) && r.gen <= s.core.lastGen
    ensures Rests(Ready(s, i), r, h)
  {
    CoreRests(s, Ready(s, i), r, h);
  }

  lemma DrainRests(s: Sched, r: Reg, h: Home)
    requires Rests(s, r, h) && r.gen <= s.core.lastGen
    ensures Rests(DrainReady(s), r, h)
  {
    CoreRests(s, DrainReady(s), r, h);
  }

  lemma AddControlRests(s: Sched, control: Control, r: Reg, h: Home)
    requires Rests(s, r, h) && r.gen <= s.core.lastGen && control.waiters == []
    ensures Rests(s.(controls := s.controls + [control]), r, h)
  {
    RestsOn(s, s.(controls := s.controls + [control]), r, h);
  }

  lemma SpawnRests(s: Sched, r: Reg, h: Home)
    requires LifeInv(s) && Rests(s, r, h) && 0 < r.gen <= s.core.lastGen
    ensures Rests(Spawn(s), r, h)
  {
    hide Rests;
    var i, a := NextSlot(s), Adopt(s, Root, Some(|s.controls|));
    AdoptRests(s, Root, Some(|s.controls|), r, h);
    AdoptShape(s, Root, Some(|s.controls|));
    var b := a.(controls := s.controls + [Control(i, true, false, false, false, [])]);
    AddControlRests(a, Control(i, true, false, false, false, []), r, h);
    ReadyRests(b, i, r, h);
    DrainRests(Ready(b, i), r, h);
  }

  lemma SpawnDetachedRests(s: Sched, r: Reg, h: Home)
    requires LifeInv(s) && Rests(s, r, h) && 0 < r.gen <= s.core.lastGen
    ensures Rests(SpawnDetached(s), r, h)
  {
    hide Rests;
    AdoptRests(s, Root, None, r, h);
    AdoptShape(s, Root, None);
    ReadyRests(Adopt(s, Root, None), NextSlot(s), r, h);
    DrainRests(AdoptReady(s, Root), r, h);
  }

  /** The task is to resume whoever awaits it, and that one is not parked. */
  lemma AwaitRests(s: Sched, i: nat, r: Reg, h: Home)
    requires LifeInv(s) && Rests(s, r, h) && 0 < r.gen <= s.core.lastGen
    requires s.Alive(i) && (ValidReg(s.core, r) ==> !s.core.slots[i].waiting)
    ensures Rests(AwaitTask(s, i), r, h)
  {
    if AliveReg(s.core, r) {
      assert Lives(s.core.slots)[i].occupied && Lives(s.core.slots)[r.slot].occupied;
    }
    AdoptRests(s, Awaited(s.core.slots[i].life.id), None, r, h);
  }

  /** Slot i has begun a new wait. */
  lemma BeganRests(s: Sched, t: Sched, i: nat, r: Reg, h: Home)
    requires Rests(s, r, h) && r.gen <= s.core.lastGen
    requires i < |s.core.slots| == |t.core.slots| && t.core.slots[i].gen > s.core.lastGen
    requires forall k :: 0 <= k < |s.core.slots| && k != i ==> SameWait(s.core.slots[k], t.core.slots[k])
    requires t.core.slots[i].life == s.core.slots[i].life && t.joins == s.joins && ListsNew(s, t)
    requires r.slot < |s.core.slots| && r.slot != i ==> SameHome(s, t, r, h)
    ensures Rests(t, r, h)
  {
    RestsOn(s, t, r, h);
  }

  lemma BeginRests(s: Sched, i: nat, reason: WaitReason, r: Reg, h: Home)
    requires WaitInv(s.core) && Rests(s, r, h) && r.gen <= s.core.lastGen && s.Alive(i)
    ensures Rests(s.(core := BeginWait(s.core, i, reason)), r, h)
  {
    SlotIsOk(s.core, i);
    BeginWaitShape(s.core, i, reason);
    BeganRests(s, s.(core := BeginWait(s.core, i, reason)), i, r, h);
  }

  lemma RegisterShape(c: Core, request: Request, w: Reg)
    requires RegisterWait(c, request, w).Some?
    ensures var d := RegisterWait(c, request, w).value;
      && |d.slots| == |c.slots| && d.lastGen == c.lastGen
      && forall k :: 0 <= k < |c.slots| ==>
           && d.slots[k].life == c.slots[k].life && d.slots[k].gen == c.slots[k].gen
           && (k != w.slot ==> SameWait(c.slots[k], d.slots[k]) && d.slots[k].ready == c.slots[k].ready)
  {
  }

  lemma ParkRests(s: Sched, i: nat, request: Request, r: Reg, h: Home)
    requires WaitInv(s.core) && Rests(s, r, h) && r.gen <= s.core.lastGen && s.Alive(i)
    requires Park(s.core, i, request).Some?
    ensures Rests(s.(core := Park(s.core, i, request).value), r, h)
  {
    hide RegisterWait, Rests;
    var b := BeginWait(s.core, i, RequestReason(request));
    SlotIsOk(s.core, i);
    BeginWaitShape(s.core, i, RequestReason(request));
    RegisterShape(b, request, Reg(i, b.lastGen, None));
    BeganRests(s, s.(core := Park(s.core, i, request).value), i, r, h);
  }

  lemma {:induction false} RegisterFirstShape(c: Core, requests: seq<Request>, i: nat, k: nat)
    requires RegisterFirst(c, requests, i, k).Some?
    ensures var d := RegisterFirst(c, requests, i, k).value;
      && |d.slots| == |c.slots| && d.lastGen == c.lastGen
      && forall j :: 0 <= j < |c.slots| ==>
           && d.slots[j].life == c.slots[j].life && d.slots[j].gen == c.slots[j].gen
           && (j != i ==> SameWait(c.slots[j], d.slots[j]) && d.slots[j].ready == c.slots[j].ready)
    decreases |requests| - k
  {
    hide RegisterWait;
    if k < |requests| {
      var w := Reg(i, c.lastGen, Some(k));
      RegisterShape(c, requests[k], w);
      RegisterFirstShape(RegisterWait(c, requests[k], w).value, requests, i, k + 1);
    }
  }

  lemma ParkFirstRests(s: Sched, i: nat, requests: seq<Request>, r: Reg, h: Home)
    requires WaitInv(s.core) && Rests(s, r, h) && r.gen <= s.core.lastGen && s.Alive(i)
    requires ParkFirst(s.core, i, requests).Some?
    ensures Rests(s.(core := ParkFirst(s.core, i, requests).value), r, h)
  {
    hide RegisterFirst, Rests;
    var b := BeginWait(s.core, i, FirstWait);
    SlotIsOk(s.core, i);
    BeginWaitShape(s.core, i, FirstWait);
    RegisterFirstShape(SetWinner(b, i, None), requests, i, 0);
    BeganRests(s, s.(core := ParkFirst(s.core, i, requests).value), i, r, h);
  }

  lemma ParkProcessRests(s: Sched, i: nat, p: nat, r: Reg, h: Home)
    requires WaitInv(s.core) && Rests(s, r, h) && r.gen <= s.core.lastGen && s.Alive(i)
    requires p < |s.controls| && ParkProcess(s, i, p).Some?
    ensures Rests(ParkProcess(s, i, p).value, r, h)
  {
    SlotIsOk(s.core, i);
    BeginWaitShape(s.core, i, ProcessWait);
    BeganRests(s, ParkProcess(s, i, p).value, i, r, h);
  }

  lemma NewJoinRests(s: Sched, join: Join, r: Reg, h: Home)
    requires LifeInv(s) && Rests(s, r, h) && r.gen <= s.core.lastGen
    ensures Rests(s.(joins := s.joins + [join]), r, h)
  {
    var t := s.(joins := s.joins + [join]);
    if AliveReg(t.core, r) {
      forall k | 0 <= k < |t.core.slots| && t.core.slots[k].Alive()
                 && Names(t.core.slots[k].life, t.core.slots[r.slot].life, t.joins, r.slot)
        ensures Names(s.core.slots[k].life, s.core.slots[r.slot].life, s.joins, r.slot)
      {
        assert HasParent(Lives(s.core.slots), s.joins, k);
      }
    }
    RestsOn(s, t, r, h);
  }

  /** One more child of a join whose parent is another coroutine. */
  lemma AdoptReadyRests(s: Sched, join: nat, r: Reg, h: Home)
    requires LifeInv(s) && MayJoin(s, join) && Rests(s, r, h) && 0 < r.gen <= s.core.lastGen
    requires ValidReg(s.core, r) ==> s.joins[join].parent != r.slot
    ensures Rests(AdoptReady(s, Joined(join)), r, h) && AdoptReady(s, Joined(join)).joins == s.joins
  {
    hide LifeInv, Rests;
    AdoptRests(s, Joined(join), None, r, h);
    AdoptShape(s, Joined(join), None);
    ReadyRests(Adopt(s, Joined(join), None), NextSlot(s), r, h);
  }

  lemma MayJoinJoin(s: Sched, join: nat)
    requires MayJoin(s, join)
    ensures join < |s.joins|
  {
  }

  lemma {:induction false} AdoptChildrenRests(s: Sched, join: nat, n: nat, r: Reg, h: Home)
    requires SchedInv(s) && MayJoin(s, join) && Rests(s, r, h) && 0 < r.gen <= s.core.lastGen
    requires ValidReg(s.core, r) ==> s.joins[join].parent != r.slot
    ensures Rests(AdoptChildren(s, join, n), r, h)
    decreases n
  {
    hide SchedInv, Rests, Evolves, MayAdopt, MayJoin, AdoptReady, AliveReg, ValidReg;
    if n > 0 {
      var t := AdoptReady(s, Joined(join));
      InvLife(s);
      MayJoinJoin(s, join);
      AdoptReadyRests(s, join, r, h);
      MayJoinAdopt(s, join);
      AdoptReadyKeeps(s, Joined(join));
      StillGone(s.core, t.core, r);
      AdoptChildrenRests(t, join, n - 1, r, h);
    }
  }

  lemma StillGone(c: Core, d: Core, r: Reg)
    requires Evolves(c, d) && 0 < r.gen <= c.lastGen
    ensures AliveReg(d, r) ==> AliveReg(c, r)
    ensures ValidReg(d, r) ==> ValidReg(c, r)
    ensures r.gen <= d.lastGen
  {
  }

  lemma StartJoinRests(s: Sched, i: nat, n: nat, r: Reg, h: Home)
    requires SchedInv(s) && Rests(s, r, h) && 0 < r.gen <= s.core.lastGen && s.Alive(i)
    ensures Rests(StartJoin(s, i, n), r, h)
  {
    hide SchedInv, Rests, Evolves;
    var b := s.(core := BeginWait(s.core, i, JoinWait));
    BeginKeeps(s, i, JoinWait);
    InvWait(s);
    BeginRests(s, i, JoinWait, r, h);
    InvLife(b);
    NewJoinRests(b, Join(n, i), r, h);
    NewJoinKeeps(b, Join(n, i));
    var j := b.(joins := s.joins + [Join(n, i)]);
    NewJoinInv(b, Join(n, i));
    SlotIsOk(s.core, i);
    BeginWaitShape(s.core, i, JoinWait);
    assert Lives(j.core.slots)[i] == Lives(s.core.slots)[i];
    AdoptChildrenRests(j, |s.joins|, n, r, h);
  }

  lemma NewJoinInv(s: Sched, join: Join)
    requires SchedInv(s)
    ensures SchedInv(s.(joins := s.joins + [join]))
  {
    hide WaitInv, FlagsInv;
    NewJoinKeeps(s, join);
  }

  lemma BeginTimeoutRests(s: Sched, i: nat, timeout: nat, r: Reg, h: Home)
    requires SchedInv(s) && Rests(s, r, h) && 0 < r.gen <= s.core.lastGen && s.Alive(i)
    requires BeginTimeout(s, i, timeout).Some?
    ensures Rests(BeginTimeout(s, i, timeout).value, r, h)
  {
    hide WaitInv, RunInv, Rests, BeginWait, DelayAccepted;
    var core := BeginWait(s.core, i, TimeoutWait);
    var b := s.(core := core, frames := s.frames + [Timing(Reg(i, core.lastGen, None), timeout)]);
    SlotIsOk(s.core, i);
    BeginWaitShape(s.core, i, TimeoutWait);
    BeganRests(s, b, i, r, h);
    assert Lives(core.slots) == Lives(s.core.slots);
    NewJoinRests(b, Join(1, i), r, h);
    NewJoinKeeps(b, Join(1, i));
    AdoptRests(b.(joins := b.joins + [Join(1, i)]), Joined(|s.joins|), None, r, h);
  }

  /** The timer is armed for a wait that has a timeout, which this one has not. */
  lemma EndTimeoutRests(s: Sched, r: Reg, h: Home)
    requires Rests(s, r, h) && r.gen <= s.core.lastGen
    requires s.frames != [] && s.frames[|s.frames| - 1].Timing? && EndTimeout(s).Some?
    ensures Rests(EndTimeout(s).value, r, h)
  {
    hide RegisterWait;
    var frame, t := s.frames[|s.frames| - 1], EndTimeout(s).value;
    if ValidReg(s.core, frame.wait) {
      RegisterShape(s.core, After(frame.timeout), frame.wait);
    }
    RestsOn(s, t, r, h);
  }

  // ---------------------------------------------------------------------------------------------
  // Coroutines end
  // ---------------------------------------------------------------------------------------------

  /** Resuming registrations that are not for the wait leaves it alone. */
  lemma ResumeRests(s: Sched, ws: seq<Reg>, r: Reg, h: Home)
    requires WaitInv(s.core) && Rests(s, r, h) && 0 < r.gen <= s.core.lastGen
    requires ValidReg(s.core, r) ==> forall w :: w in ws && w.slot == r.slot ==> w.gen != r.gen
    ensures Rests(s.(core := ResumeAll(s.core, ws)), r, h)
  {
    hide WaitInv, Rests, Evolves;
    var d := ResumeAll(s.core, ws);
    ResumeAllKeeps(s.core, ws);
    WakeOrderExact(ws, Waits(s.core.slots));
    if r.slot < |s.core.slots| {
      assert d.slots[r.slot].Token() == Waits(d.slots)[r.slot];
    }
    TokenRests(s, d, r, h);
  }

  lemma ResumeOneRests(s: Sched, w: Reg, r: Reg, h: Home)
    requires WaitInv(s.core) && Rests(s, r, h) && 0 < r.gen <= s.core.lastGen
    requires ValidReg(s.core, r) ==> (w.slot, w.gen) != (r.slot, r.gen)
    ensures Rests(s.(core := ResumeReg(s.core, w)), r, h)
  {
    hide WaitInv, Rests;
    assert ResumeAll(s.core, [w]) == ResumeReg(s.core, w);
    ResumeRests(s, [w], r, h);
  }

  /** A coroutine is done that is not to resume the one that is parked; it may be that one itself. */
  lemma EndsRests(s: Sched, t: Sched, i: nat, r: Reg, h: Home)
    requires Rests(s, r, h) && r.gen <= s.core.lastGen
    requires i < |s.core.slots| == |t.core.slots| && !t.core.slots[i].Alive()
    requires forall k :: 0 <= k < |s.core.slots| && k != i ==>
      SameWait(s.core.slots[k], t.core.slots[k]) && t.core.slots[k].ready == s.core.slots[k].ready
    requires t.joins == s.joins && t.controls == s.controls && ListsNew(s, t)
    ensures Rests(t, r, h)
  {
    RestsOn(s, t, r, h);
  }

  /** The process of the wait completes, and wakes it. */
  lemma NotifiedBy(s: Sched, cancelled: bool, r: Reg, h: Home)
    requires WaitInv(s.core) && Rests(s, r, h) && 0 < r.gen <= s.core.lastGen
    requires h.Process? && h.p < |s.controls| && !s.controls[h.p].done
    ensures Rests(s.(core := ResumeAll(s.core, s.controls[h.p].waiters),
                     controls := EndedControls(s.controls, Some(h.p), cancelled)), r, h)
  {
    hide WaitInv, Evolves, Secluded;
    var ws := s.controls[h.p].waiters;
    var t := s.(core := ResumeAll(s.core, ws), controls := EndedControls(s.controls, Some(h.p), cancelled));
    ResumeAllKeeps(s.core, ws);
    WakeOrderExact(ws, Waits(s.core.slots));
    StillGone(s.core, t.core, r);
    PrivateOn(s, t, r, h);
    if AliveReg(t.core, r) {
      SlotIsOk(t.core, r.slot);
      assert t.core.slots[r.slot].Token() == Waits(t.core.slots)[r.slot];
      assert Secluded(s, r.slot) ==> s.core.slots[r.slot].waiting by {
        SecludedWaits(s, r.slot);
      }
      ValidIsLive(s.core, r);
    }
  }

  lemma SecludedWaits(s: Sched, i: nat)
    requires Secluded(s, i)
    ensures i < |s.core.slots| && s.core.slots[i].waiting
  {
  }

  /** What is left of `finish` and `cancel_state` when the coroutine of slot i has been marked done. */
  lemma CompletedRests(s: Sched, control: Option<nat>, cancelled: bool, r: Reg, h: Home)
    requires WaitInv(s.core) && Rests(s, r, h) && 0 < r.gen <= s.core.lastGen
    ensures Rests(s.(core := CompletedCore(s.core, s.controls, control),
                     controls := EndedControls(s.controls, control, cancelled)), r, h)
  {
    hide WaitInv, Secluded;
    if control.Some? && control.value < |s.controls| && !s.controls[control.value].done {
      if h.Process? && h.p == control.value {
        NotifiedBy(s, cancelled, r, h);
      } else {
        var ws := s.controls[control.value].waiters;
        ResumeRests(s, ws, r, h);
        ResumeAllKeeps(s.core, ws);
        var u := s.(core := ResumeAll(s.core, ws));
        EndOtherRests(u, control, cancelled, r, h);
      }
    }
  }

  lemma EndOtherRests(s: Sched, control: Option<nat>, cancelled: bool, r: Reg, h: Home)
    requires Rests(s, r, h) && r.gen <= s.core.lastGen && (h.Process? ==> control != Some(h.p))
    ensures Rests(s.(controls := EndedControls(s.controls, control, cancelled)), r, h)
  {
    RestsOn(s, s.(controls := EndedControls(s.controls, control, cancelled)), r, h);
  }

  lemma FinishRests(s: Sched, i: nat, r: Reg, h: Home)
    requires SchedInv(s) && Rests(s, r, h) && 0 < r.gen <= s.core.lastGen && s.Alive(i)
    ensures Rests(Finish(s, i), r, h)
  {
    hide SchedInv, WaitInv, LifeInv, RunInv, Rests, Evolves, CompletedCore, EndedControls;
    InvLife(s);
    InvWait(s);
    FinishIs(s, i);
    QuietKeeps(s.core, i);
    var life := s.core.slots[i].life;
    var q := StopReady(EndWait(s.core, i), i);
    DoneKeeps(q, i, life.(done := true));
    var c := SetLife(q, i, life.(done := true));
    var t := s.(core := c);
    EndWaitShape(s.core, i);
    EndsRests(s, t, i, r, h);
    CompletedRests(t, life.control, false, r, h);
    var u := t.(core := CompletedCore(c, s.controls, life.control),
                controls := EndedControls(s.controls, life.control, false));
    assert Finish(s, i) == u.(pool := Finish(s, i).pool);
    PoolRests(u, Finish(s, i).pool, r, h);
  }

  lemma EndWaitShape(c: Core, i: nat)
    requires i < |c.slots|
    ensures var d := StopReady(EndWait(c, i), i);
      && |d.slots| == |c.slots| && d.lastGen == c.lastGen
      && (forall k :: 0 <= k < |c.slots| && k != i ==> d.slots[k] == c.slots[k])
  {
  }

  lemma PoolRests(s: Sched, pool: Pool, r: Reg, h: Home)
    requires Rests(s, r, h)
    ensures Rests(s.(pool := pool), r, h)
  {
  }

  /** The last child of a join wakes a parent that waits; whoever is parked here has no child. */
  lemma JoinRests(s: Sched, join: nat, r: Reg, h: Home)
    requires WaitInv(s.core) && Rests(s, r, h) && r.gen <= s.core.lastGen
    requires ValidReg(s.core, r) ==> join >= |s.joins| || s.joins[join].parent != r.slot
    ensures Rests(FinishJoinChild(s, join), r, h)
  {
    hide WaitInv;
    if join < |s.joins| && s.joins[join].remaining != 0 {
      var j := s.joins[join].(remaining := s.joins[join].remaining - 1);
      var t := s.(joins := s.joins[join := j]);
      RestsOn(s, t, r, h);
      if j.remaining == 0 && j.parent < |s.core.slots| && s.core.slots[j.parent].waiting
        && !s.core.slots[j.parent].life.done {
        SlotIsOk(s.core, j.parent);
        EndWaitKeeps(s.core, j.parent);
        MakeReadyKeeps(EndWait(s.core, j.parent), j.parent);
        WakeParentRests(t, j.parent, r, h);
      }
    }
  }

  lemma WakeParentRests(s: Sched, i: nat, r: Reg, h: Home)
    requires Rests(s, r, h) && r.gen <= s.core.lastGen && i < |s.core.slots| && s.core.slots[i].waiting
      && (ValidReg(s.core, r) ==> i != r.slot)
    ensures Rests(s.(core := MakeReady(EndWait(s.core, i), i)), r, h)
  {
    RestsOn(s, s.(core := MakeReady(EndWait(s.core, i), i)), r, h);
  }

  lemma FinalSuspendRests(s: Sched, i: nat, r: Reg, h: Home)
    requires SchedInv(s) && Rests(s, r, h) && 0 < r.gen <= s.core.lastGen
    requires s.Alive(i) && Childless(Lives(s.core.slots), s.joins, i)
    ensures Rests(FinalSuspend(s, i), r, h)
  {
    hide SchedInv, WaitInv, LifeInv, RunInv, Evolves, Finish;
    FinishRests(s, i, r, h);
    FinishKeeps(s, i);
    InvWait(Finish(s, i));
    var link := s.core.slots[i].life.link;
    StillGone(s.core, Finish(s, i).core, r);
    if link.Joined? {
      assert Finish(s, i).joins == s.joins by {
        InvLife(s);
        FinishIs(s, i);
      }
      if AliveReg(s.core, r) {
        assert Lives(s.core.slots)[i] == s.core.slots[i].life;
      }
      JoinRests(Finish(s, i), link.join, r, h);
    }
  }

  // ---------------------------------------------------------------------------------------------
  // Cancellation
  // ---------------------------------------------------------------------------------------------

  lemma ShapeKin(s: Sched, t: Sched, i: nat)
    requires SameShape(s, t) && i < |s.core.slots|
    ensures SameKin(s, t, i)
  {
    forall k | 0 <= k < |t.core.slots| && t.core.slots[k].Alive()
               && Names(t.core.slots[k].life, t.core.slots[i].life, t.joins, i)
      ensures s.core.slots[k].Alive() && Names(s.core.slots[k].life, s.core.slots[i].life, s.joins, i)
    {
      assert LifeKept(s.core.slots[k].life, t.core.slots[k].life);
      assert LifeKept(s.core.slots[i].life, t.core.slots[i].life);
    }
  }

  lemma RestsParked(s: Sched, r: Reg, h: Home)
    requires Rests(s, r, h)
    ensures AliveReg(s.core, r) && !(h.Process? && h.p < |s.controls| && s.controls[h.p].done) ==> ValidReg(s.core, r)
  {
  }

  /** Cancelling the children leaves every survivor untouched. */
  lemma SparedRests(s: Sched, t: Sched, r: Reg, h: Home)
    requires Spared(s, t) && SameShape(s, t) && t.frames == s.frames
    requires Rests(s, r, h) && r.gen <= s.core.lastGen
    ensures Rests(t, r, h)
  {
    hide SameShape;
    if AliveReg(t.core, r) {
      ShapeKin(s, t, r.slot);
    }
    RestsOn(s, t, r, h);
  }

  /** `cancel_state` after the children: as `finish`, but for the generation and the link. */
  lemma CancelOneRests(s: Sched, i: nat, r: Reg, h: Home)
    requires SchedInv(s) && Rests(s, r, h) && 0 < r.gen <= s.core.lastGen && s.Alive(i)
    ensures Rests(CancelOne(s, i), r, h)
  {
    hide SchedInv, WaitInv, LifeInv, RunInv, Rests, Evolves, CompletedCore, EndedControls, CancelOne;
    InvLife(s);
    InvWait(s);
    CancelOneIs(s, i);
    StopWaitingKeeps(s.core, i);
    StopWaitingSpares(s.core, i);
    var life := s.core.slots[i].life;
    var x := life.(done := true, link := Root);
    DoneKeeps(StopWaiting(s.core, i), i, x);
    var c := SetLife(StopWaiting(s.core, i), i, x);
    var t := s.(core := c);
    EndsRests(s, t, i, r, h);
    CompletedRests(t, life.control, true, r, h);
    var u := t.(core := CompletedCore(c, s.controls, life.control),
                controls := EndedControls(s.controls, life.control, true));
    assert CancelOne(s, i) == u.(pool := CancelOne(s, i).pool);
    PoolRests(u, CancelOne(s, i).pool, r, h);
  }

  /** The state between the children and the coroutine itself. */
  lemma CancelHalf(s: Sched, i: nat) returns (t: Sched)
    requires SchedInv(s) && Linked(s) && s.Alive(i)
    ensures SchedInv(t) && t.Alive(i) && t.core.slots[i].life == s.core.slots[i].life
    ensures CancelState(s, i) == CancelOne(t, i)
    ensures Spared(s, t) && SameShape(s, t) && t.frames == s.frames && Evolves(s.core, t.core)
  {
    hide SchedInv, Linked, Evolves, SameShape, CancelOne, Spared;
    var ks := ChildrenUpTo(s.core.slots, s.joins, i, |s.core.slots|);
    InvLife(s);
    ChildrenYounger(s, i);
    ScanFindsChildren(s, i);
    CancelEachExact(s, ks, i);
    t := CancelEach(s, ks, i);
    ChildlessAfter(s, t, i, ks);
  }

  lemma CancelRests(s: Sched, i: nat, r: Reg, h: Home)
    requires SchedInv(s) && Linked(s) && s.Alive(i) && Rests(s, r, h) && 0 < r.gen <= s.core.lastGen
    ensures Rests(CancelState(s, i), r, h)
  {
    hide SchedInv, Linked, Evolves, Rests, SameShape, CancelOne, CancelState, Spared;
    var t := CancelHalf(s, i);
    StillGone(s.core, t.core, r);
    SparedRests(s, t, r, h);
    CancelOneRests(t, i, r, h);
  }

  lemma {:induction false} ResumeAllGens(c: Core, ws: seq<Reg>)
    ensures var d := ResumeAll(c, ws); forall k :: 0 <= k < |c.slots| ==> d.slots[k].gen == c.slots[k].gen
    decreases |ws|
  {
    if ws != [] {
      ResumeAllGens(ResumeReg(c, ws[0]), ws[1..]);
    }
  }

  lemma CancelOneGen(s: Sched, i: nat, k: nat)
    requires SchedInv(s) && s.Alive(i) && CancelOne(s, i).Alive(k)
    ensures s.Alive(k) && CancelOne(s, i).core.slots[k].gen == s.core.slots[k].gen
  {
    hide SchedInv, Linked, Evolves, CancelOne;
    InvLife(s);
    InvWait(s);
    CancelOneIs(s, i);
    StopWaitingSpares(s.core, i);
    var life := s.core.slots[i].life;
    var c := SetLife(StopWaiting(s.core, i), i, life.(done := true, link := Root));
    if life.control.Some? && life.control.value < |s.controls| {
      ResumeAllGens(c, s.controls[life.control.value].waiters);
    }
    OneEnds(s, i, k);
  }

  /** A survivor is in no wait that it was not in before. */
  lemma SurvivorGen(s: Sched, i: nat, k: nat)
    requires SchedInv(s) && Linked(s) && s.Alive(i) && CancelState(s, i).Alive(k)
    ensures k < |s.core.slots| && CancelState(s, i).core.slots[k].gen == s.core.slots[k].gen
  {
    hide SchedInv, Linked, Evolves, CancelState, CancelOne;
    var t := CancelHalf(s, i);
    CancelOneGen(t, i, k);
  }

  lemma MarkRests(s: Sched, r: Reg, h: Home)
    requires Rests(s, r, h) && r.gen <= s.core.lastGen
    ensures Rests(MarkSchedule(s), r, h)
  {
    CoreRests(s, MarkSchedule(s), r, h);
  }

  lemma CancelMarkRests(s: Sched, i: nat, r: Reg, h: Home)
    requires SchedInv(s) && Linked(s) && s.Alive(i) && Rests(s, r, h) && 0 < r.gen <= s.core.lastGen
    ensures Rests(MarkSchedule(CancelState(s, i)), r, h)
  {
    hide SchedInv, Linked, Evolves, Rests;
    CancelRests(s, i, r, h);
    CancelExact(s, i);
    StillGone(s.core, CancelState(s, i).core, r);
    MarkRests(CancelState(s, i), r, h);
  }

  lemma CancelRequestedRests(s: Sched, p: nat, r: Reg, h: Home)
    requires SchedInv(s) && Linked(s) && Rests(s, r, h) && 0 < r.gen <= s.core.lastGen
    ensures Rests(CancelRequested(s, p), r, h)
  {
    hide SchedInv, Linked, Rests;
    if p < |s.controls| && s.controls[p].attached && !s.controls[p].done {
      LivingProcess(s, p);
      CancelMarkRests(s, s.controls[p].slot, r, h);
    }
  }

  lemma {:induction false} CancelRequestsRests(s: Sched, ps: seq<nat>, r: Reg, h: Home)
    requires SchedInv(s) && Linked(s) && Rests(s, r, h) && 0 < r.gen <= s.core.lastGen
    ensures Rests(CancelRequests(s, ps), r, h)
    decreases |ps|
  {
    hide SchedInv, Linked, Rests, Evolves;
    if ps != [] {
      var t := CancelRequested(s, ps[0]);
      CancelRequestedRests(s, ps[0], r, h);
      CancelRequestedStep(s, ps[0]);
      ShapeKeepsLinked(s, t);
      StillGone(s.core, t.core, r);
      CancelRequestsRests(t, ps[1..], r, h);
    }
  }

  lemma ApplyPendingRests(s: Sched, r: Reg, h: Home)
    requires SchedInv(s) && Linked(s) && Rests(s, r, h) && 0 < r.gen <= s.core.lastGen
    ensures Rests(ApplyPending(s), r, h)
  {
    hide SchedInv, Linked, CancelRequests;
    CancelRequestsRests(s, s.cancels, r, h);
  }

  lemma CancelProcessRests(s: Sched, p: nat, r: Reg, h: Home)
    requires SchedInv(s) && Linked(s) && Rests(s, r, h) && 0 < r.gen <= s.core.lastGen
    ensures Rests(CancelProcess(s, p), r, h)
  {
    hide SchedInv, Linked, Rests, Evolves, CancelState;
    if p < |s.controls| && s.controls[p].attached && !s.controls[p].done {
      var t := s.(controls := s.controls[p := s.controls[p].(requested := true)]);
      RequestRests(s, p, r, h);
      if s.draining {
        CancelsRests(t, s.cancels + [p], r, h);
      } else {
        RequestKeeps(s, p);
        LivingProcess(s, p);
        ShapeKeepsLinked(s, t);
        CancelMarkRests(t, s.controls[p].slot, r, h);
        CancelStateStep(t, s.controls[p].slot);
        var u := MarkSchedule(CancelState(t, s.controls[p].slot));
        StillGone(s.core, u.core, r);
        DrainRests(u, r, h);
      }
    }
  }

  lemma RequestRests(s: Sched, p: nat, r: Reg, h: Home)
    requires Rests(s, r, h) && r.gen <= s.core.lastGen && p < |s.controls|
    ensures Rests(s.(controls := s.controls[p := s.controls[p].(requested := true)]), r, h)
  {
    RestsOn(s, s.(controls := s.controls[p := s.controls[p].(requested := true)]), r, h);
  }

  lemma CancelsRests(s: Sched, cancels: seq<nat>, r: Reg, h: Home)
    requires Rests(s, r, h)
    ensures Rests(s.(cancels := cancels), r, h)
  {
  }

  lemma CancelAwaitedRests(s: Sched, i: nat, r: Reg, h: Home)
    requires SchedInv(s) && Linked(s) && Rests(s, r, h) && 0 < r.gen <= s.core.lastGen
    requires i < |s.core.slots| && s.core.slots[i].life.occupied
    ensures Rests(CancelAwaited(s, i), r, h)
  {
    hide SchedInv, Linked, Rests;
    if !s.core.slots[i].life.done {
      CancelMarkRests(s, i, r, h);
    }
  }

  // ---------------------------------------------------------------------------------------------
  // Reclaiming and the drain
  // ---------------------------------------------------------------------------------------------

  lemma ReclaimRests(s: Sched, i: nat, r: Reg, h: Home)
    requires Rests(s, r, h) && 0 < r.gen <= s.core.lastGen
    ensures Rests(Reclaim(s, i), r, h) && Reclaim(s, i).core.lastGen == s.core.lastGen
  {
    RestsOn(s, Reclaim(s, i), r, h);
  }

  lemma {:induction false} ReclaimRootsRests(s: Sched, listed: seq<nat>, r: Reg, h: Home)
    requires Rests(s, r, h) && 0 < r.gen <= s.core.lastGen
    ensures Rests(ReclaimRoots(s, listed), r, h) && ReclaimRoots(s, listed).core.lastGen == s.core.lastGen
    decreases |listed|
  {
    hide Rests, Reclaim;
    if listed != [] {
      ReclaimRests(s, listed[0], r, h);
      ReclaimRootsRests(Reclaim(s, listed[0]), listed[1..], r, h);
    }
  }

  lemma {:induction false} ReclaimChildrenRests(s: Sched, listed: seq<Option<nat>>, r: Reg, h: Home)
    requires Rests(s, r, h) && 0 < r.gen <= s.core.lastGen
    ensures Rests(ReclaimChildren(s, listed), r, h) && ReclaimChildren(s, listed).core.lastGen == s.core.lastGen
    decreases |listed|
  {
    hide Rests, Reclaim;
    if listed != [] {
      if listed[0].Some? {
        ReclaimRests(s, listed[0].value, r, h);
      }
      ReclaimChildrenRests(if listed[0].Some? then Reclaim(s, listed[0].value) else s, listed[1..], r, h);
    }
  }

  lemma CollectRests(s: Sched, r: Reg, h: Home)
    requires Rests(s, r, h) && 0 < r.gen <= s.core.lastGen
    ensures Rests(CollectRoots(s), r, h) && CollectRoots(s).core.lastGen == s.core.lastGen
  {
    hide ReclaimRoots;
    ReclaimRootsRests(s, s.pool.finishedRoots, r, h);
  }

  lemma BoundaryRests(s: Sched, r: Reg, h: Home)
    requires Rests(s, r, h) && 0 < r.gen <= s.core.lastGen
    ensures Rests(Boundary(s), r, h)
  {
    hide ReclaimChildren, CollectRoots;
    CollectRests(s, r, h);
    var a := CollectRoots(s);
    ReclaimChildrenRests(a, a.pool.finished, r, h);
    CoreRests(CollectFinished(a), Boundary(s), r, h);
  }

  lemma ReclaimAwaitedRests(s: Sched, i: nat, r: Reg, h: Home)
    requires Rests(s, r, h) && 0 < r.gen <= s.core.lastGen && i < |s.core.slots| && ReclaimAwaited(s, i).Some?
    ensures Rests(ReclaimAwaited(s, i).value, r, h)
  {
    RestsOn(s, ReclaimAwaited(s, i).value, r, h);
  }

  lemma PopReadyRests(s: Sched, r: Reg, h: Home)
    requires Rests(s, r, h) && r.gen <= s.core.lastGen && s.core.queue.cursor < |s.core.queue.entries|
    requires h.Process? ==> !h.recent
    ensures Rests(PopReady(s), r, h)
  {
    CoreRests(s, PopReady(s), r, h);
  }

  lemma PopFrameRests(s: Sched, r: Reg, h: Home)
    requires Rests(s, r, h) && r.gen <= s.core.lastGen && s.frames != []
    ensures Rests(s.(frames := s.frames[..|s.frames| - 1]), r, h)
  {
    CoreRests(s, s.(frames := s.frames[..|s.frames| - 1]), r, h);
  }

  lemma EndResumeRests(s: Sched, r: Reg, h: Home)
    requires SchedInv(s) && Linked(s) && Rests(s, r, h) && 0 < r.gen <= s.core.lastGen
    requires s.frames != [] && s.frames[|s.frames| - 1].Drained?
    ensures Rests(EndResume(s), r, h)
  {
    hide SchedInv, Linked, Rests, Evolves;
    var t := s.(frames := s.frames[..|s.frames| - 1]);
    PopFrameRests(s, r, h);
    PopFrameKeeps(s);
    ShapeKeepsLinked(s, t);
    ApplyPendingRests(t, r, h);
    ApplyPendingStep(t);
    StillGone(t.core, ApplyPending(t).core, r);
    CollectRests(ApplyPending(t), r, h);
  }

  lemma EndDrainRests(s: Sched, r: Reg, h: Home)
    requires Rests(s, r, h) && 0 < r.gen <= s.core.lastGen
    ensures Rests(EndDrain(s), r, h)
  {
    hide Boundary;
    var t := s.(core := s.core.(queue := s.core.queue.(entries := [], cursor := 0)), draining := false);
    CoreRests(s, t, r, h);
    BoundaryRests(t, r, h);
  }

  lemma BeginInlineRests(s: Sched, p: nat, r: Reg, h: Home)
    requires Rests(s, r, h) && r.gen <= s.core.lastGen && CanRunInline(s, p)
    requires s.core.queue.cursor <= |s.core.queue.entries| && (h.Process? ==> !h.recent)
    ensures Rests(BeginInline(s, p), r, h)
  {
    CoreRests(s, BeginInline(s, p), r, h);
  }

  lemma EndInlineRests(s: Sched, r: Reg, h: Home)
    requires Rests(s, r, h) && 0 < r.gen <= s.core.lastGen && s.frames != []
    ensures Rests(EndInline(s), r, h)
  {
    hide CollectRoots;
    PopFrameRests(s, r, h);
    CollectRests(s.(frames := s.frames[..|s.frames| - 1]), r, h);
  }

  // ---------------------------------------------------------------------------------------------
  // What the simulator delivers and reads
  // ---------------------------------------------------------------------------------------------

  /** Nothing is registered for the wait. */
  lemma RestsUnheard(s: Sched, r: Reg, h: Home)
    requires SchedInv(s) && Rests(s, r, h) && AliveReg(s.core, r)
    ensures !HasTimer(s.core, r.slot) && !HasEdge(s.core, r.slot) && !HasPhase(s.core, r.slot)
  {
    hide WaitInv, LifeInv;
    InvWait(s);
    RegistrationsExact(s.core, r.slot);
    assert FlagAt(s.core, s.frames, r.slot);
  }

  lemma EdgeSpares(c: Core, signal: nat, edge: E.EdgeKind, i: nat)
    requires WaitInv(c) && i < |c.slots| && !HasEdge(c, i)
    ensures DeliverEdge(c, signal, edge).0.slots[i].Token() == c.slots[i].Token()
  {
    hide WaitInv;
    DeliverEdgeExact(c, signal, edge);
    if w :| w in EdgeAudience(c, signal, edge) && ValidReg(c, w) && w.slot == i {
      AudienceQueued(c, signal, edge, w);
      assert false;
    }
  }

  lemma PhaseSpares(c: Core, phase: P.Phase, i: nat)
    requires WaitInv(c) && i < |c.slots| && !HasPhase(c, i)
    ensures DeliverPhase(c, phase).0.slots[i].Token() == c.slots[i].Token()
  {
    hide WaitInv;
    ThreePhases(c);
    DeliverPhaseExact(c, phase);
    var k := P.PhaseIndex(phase);
    WakeOrderExact(c.phases.queues[k], Waits(c.slots));
    assert forall w :: w in c.phases.queues[k] && ValidReg(c, w) ==> w.slot != i;
    assert DeliverPhase(c, phase).0.slots[i].Token() == Waits(DeliverPhase(c, phase).0.slots)[i];
  }

  lemma TimeSpares(c: Core, time: nat, i: nat)
    requires WaitInv(c) && time <= T.NO_DEADLINE && i < |c.slots| && !HasTimer(c, i)
    ensures DeliverTime(c, time).0.slots[i].Token() == c.slots[i].Token()
  {
    hide WaitInv;
    DeliverTimeExact(c, time);
    if t :| t in T.All(c.timers) && t.deadline <= time && ValidReg(c, t.reg) && t.reg.slot == i {
      ValidIsLive(c, t.reg);
      assert false;
    }
  }

  lemma AfterDeliveryRests(s: Sched, delivered: (Core, bool), r: Reg, h: Home)
    requires Rests(s.(core := delivered.0), r, h) && 0 < r.gen <= delivered.0.lastGen
    ensures Rests(AfterDelivery(s, delivered), r, h)
  {
    var t := s.(core := delivered.0);
    hide Rests, DrainReady, Boundary;
    if delivered.1 {
      DrainRests(t, r, h);
    } else {
      BoundaryRests(t, r, h);
    }
  }

  lemma EdgeRests(s: Sched, signal: nat, edge: E.EdgeKind, r: Reg, h: Home)
    requires SchedInv(s) && Rests(s, r, h) && 0 < r.gen <= s.core.lastGen
    ensures Rests(ResumeEdge(s, signal, edge), r, h)
  {
    hide SchedInv, WaitInv, Rests, Moves, Settles;
    InvWait(s);
    var d := DeliverEdge(s.core, signal, edge).0;
    DeliverEdgeExact(s.core, signal, edge);
    StillGone(s.core, d, r);
    if AliveReg(s.core, r) {
      RestsUnheard(s, r, h);
      EdgeSpares(s.core, signal, edge, r.slot);
    }
    TokenRests(s, d, r, h);
    AfterDeliveryRests(s, DeliverEdge(s.core, signal, edge), r, h);
  }

  lemma TimeRests(s: Sched, time: nat, r: Reg, h: Home)
    requires SchedInv(s) && Rests(s, r, h) && 0 < r.gen <= s.core.lastGen && time <= T.NO_DEADLINE
    ensures Rests(AdvanceTime(s, time), r, h)
  {
    hide SchedInv, WaitInv, Rests, Moves, Settles;
    InvWait(s);
    var d := DeliverTime(s.core, time).0;
    DeliverTimeKeeps(s.core, time);
    DeliverTimeExact(s.core, time);
    StillGone(s.core, d, r);
    if AliveReg(s.core, r) {
      RestsUnheard(s, r, h);
      TimeSpares(s.core, time, r.slot);
    }
    TokenRests(s, d, r, h);
    AfterDeliveryRests(s, DeliverTime(s.core, time), r, h);
  }

  lemma PhaseRests(s: Sched, phase: P.Phase, r: Reg, h: Home)
    requires SchedInv(s) && Rests(s, r, h) && 0 < r.gen <= s.core.lastGen
    ensures Rests(ResumePhase(s, phase), r, h)
  {
    hide SchedInv, WaitInv, Rests, Moves, Settles;
    InvWait(s);
    var d := DeliverPhase(s.core, phase).0;
    DeliverPhaseExact(s.core, phase);
    StillGone(s.core, d, r);
    if AliveReg(s.core, r) {
      RestsUnheard(s, r, h);
      PhaseSpares(s.core, phase, r.slot);
    }
    TokenRests(s, d, r, h);
    AfterDeliveryRests(s, DeliverPhase(s.core, phase), r, h);
  }

  lemma ReadsRests(s: Sched, e: Event, t: Sched, r: Reg, h: Home)
    requires Reads(s, e, t) && Rests(s, r, h) && r.gen <= s.core.lastGen
    ensures Rests(t, r, h)
  {
    CoreRests(s, t, r, h);
  }

  // ---------------------------------------------------------------------------------------------
  // Any step
  // ---------------------------------------------------------------------------------------------

  /** Two more rules of the language, both because a coroutine makes calls only while it runs: it awaits
      a task in no wait, and when it parks nobody alive is still to resume it. */
  ghost predicate Lawful(s: Sched, e: Event) {
    match e
    case Awaiting(i) => i < |s.core.slots| ==> !s.core.slots[i].waiting
    case ParkingExternally(i, _) => i < |s.core.slots| ==> Childless(Lives(s.core.slots), s.joins, i)
    case ParkingForProcess(i, _) => i < |s.core.slots| ==> Childless(Lives(s.core.slots), s.joins, i)
    case _ => true
  }

  /** The event is the waking of this wait. */
  predicate WakesWait(e: Event, r: Reg) {
    e.Waking? && e.wait.slot == r.slot && e.wait.gen == r.gen
  }

  lemma CallRests(s: Sched, e: Event, t: Sched, r: Reg, h: Home)
    requires SchedInv(s) && Call(s, e, t) && (AliveReg(s.core, r) ==> Lawful(s, e) && !WakesWait(e, r))
    requires Rests(s, r, h) && 0 < r.gen <= s.core.lastGen
    ensures Rests(t, r, h)
  {
    hide SchedInv, WaitInv, LifeInv, Rests, Childless, Linked, Spawn, SpawnDetached, AwaitTask, StartJoin, BeginTimeout,
      EndTimeout, Park, ParkFirst, BeginWait, ParkProcess, FinalSuspend, CancelProcess, CancelAwaited, ReclaimAwaited,
      ResumeReg, Ready, DrainReady, WakesWait;
    InvLife(s);
    InvWait(s);
    match e
    case Spawning => SpawnRests(s, r, h);
    case SpawningDetached => SpawnDetachedRests(s, r, h);
    case Awaiting(i) => AwaitRests(s, i, r, h);
    case Joining(i, n) => StartJoinRests(s, i, n, r, h);
    case TimingOut(i, timeout) => BeginTimeoutRests(s, i, timeout, r, h);
    case TimingSet => EndTimeoutRests(s, r, h);
    case Parking(i, request) => ParkRests(s, i, request, r, h);
    case ParkingFirst(i, requests) => ParkFirstRests(s, i, requests, r, h);
    case ParkingExternally(i, reason) => BeginRests(s, i, reason, r, h);
    case ParkingForProcess(i, p) => ParkProcessRests(s, i, p, r, h);
    case _ => EndingCallRests(s, e, t, r, h);
  }

  lemma EndingCallRests(s: Sched, e: Event, t: Sched, r: Reg, h: Home)
    requires SchedInv(s) && Call(s, e, t) && (AliveReg(s.core, r) ==> !WakesWait(e, r))
    requires Rests(s, r, h) && 0 < r.gen <= s.core.lastGen
    requires !e.Spawning? && !e.SpawningDetached? && !e.Awaiting? && !e.Joining? && !e.TimingOut? && !e.TimingSet?
    requires !e.Parking? && !e.ParkingFirst? && !e.ParkingExternally? && !e.ParkingForProcess?
    ensures Rests(t, r, h)
  {
    hide SchedInv, WaitInv, Rests, Childless, Linked, FinalSuspend, CancelProcess, CancelAwaited, ReclaimAwaited,
      ResumeReg, Ready, DrainReady;
    InvWait(s);
    match e
    case Finishing(i) => FinalSuspendRests(s, i, r, h);
    case CancellingProcess(p) => CancelProcessRests(s, p, r, h);
    case CancellingAwaited(i) => CancelAwaitedRests(s, i, r, h);
    case ReclaimingAwaited(i) => ReclaimAwaitedRests(s, i, r, h);
    case Waking(w) => ResumeOneRests(s, w, r, h);
    case Flushing => DrainRests(s, r, h);
    case Deferring(i) => ReadyRests(s, i, r, h);
    case _ =>
  }

  lemma TurnRests(s: Sched, e: Event, t: Sched, r: Reg, h: Home)
    requires SchedInv(s) && Turn(s, e, t) && Rests(s, r, h) && 0 < r.gen <= s.core.lastGen
    requires h.Process? && h.recent ==> !e.Taking? && !e.RunningInline?
    ensures Rests(t, r, h)
  {
    hide SchedInv, Rests, Linked, PopReady, EndResume, EndDrain, BeginInline, EndInline;
    match e
    case Taking => PopReadyRests(s, r, h);
    case Returning => EndResumeRests(s, r, h);
    case Emptying => EndDrainRests(s, r, h);
    case RunningInline(p) => BeginInlineRests(s, p, r, h);
    case ReturningInline => EndInlineRests(s, r, h);
    case _ =>
  }

  lemma DeliversRests(s: Sched, e: Event, t: Sched, r: Reg, h: Home)
    requires SchedInv(s) && Delivers(s, e, t) && Rests(s, r, h) && 0 < r.gen <= s.core.lastGen
    ensures Rests(t, r, h)
  {
    hide SchedInv, Rests, ResumeEdge, AdvanceTime, ResumePhase;
    match e
    case EdgeSeen(signal, edge) => EdgeRests(s, signal, edge, r, h);
    case TimePassed(time) => TimeRests(s, time, r, h);
    case PhaseReached(phase) => PhaseRests(s, phase, r, h);
    case _ =>
  }

  /** No step but its own waking wakes a wait that rests. */
  lemma StepRests(s: Sched, e: Event, t: Sched, r: Reg, h: Home)
    requires SchedInv(s) && Step(s, e, t) && (AliveReg(s.core, r) ==> Lawful(s, e) && !WakesWait(e, r))
    requires Rests(s, r, h) && 0 < r.gen <= s.core.lastGen
    requires h.Process? && h.recent ==> !e.Taking? && !e.RunningInline?
    ensures Rests(t, r, h)
  {
    hide SchedInv, Rests, Lawful, Call, Turn, Delivers, Reads;
    if Call(s, e, t) {
      CallRests(s, e, t, r, h);
    } else if Turn(s, e, t) {
      TurnRests(s, e, t, r, h);
    } else if Delivers(s, e, t) {
      DeliversRests(s, e, t, r, h);
    } else {
      ReadsRests(s, e, t, r, h);
    }
  }

  /** The registration that `park_external` returns stands for a wait that rests. */
  lemma ParkingRests(s: Sched, e: Event, t: Sched)
    requires SchedInv(s) && Step(s, e, t) && Lawful(s, e) && e.ParkingExternally?
    ensures var r := Reg(e.slot, t.core.lastGen, None);
      Rests(t, r, Nobody) && ValidReg(t.core, r) && t.core.lastGen == s.core.lastGen + 1
  {
    hide WaitInv, LifeInv;
    InvWait(s);
    SlotIsOk(s.core, e.slot);
    BeginWaitShape(s.core, e.slot, e.reason);
    var r := Reg(e.slot, t.core.lastGen, None);
    assert Lives(t.core.slots) == Lives(s.core.slots);
    forall k | 0 <= k < |t.frames| && t.frames[k].Timing?
      ensures t.frames[k].wait.gen != r.gen
    {
      assert FrameOk(s.core, s.frames[k]);
    }
  }
}
