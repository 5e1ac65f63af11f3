/** Joins: what is left to count down is the number of children that still run, so the last one wakes the parent. */
module JoinCounts {
  import opened Registrations
  import opened WaitCore
  import opened SchedulerState
  import opened SchedulerLife
  import opened SchedulerEnd
  import opened Cancellation
  import opened Delivery
  import opened SchedulerRun
  import opened ReadyRun
  import opened SchedulerRuns
  import opened Deadlock

  /** How many living coroutines are children of the join. */
  function Kids(lives: seq<Life>, join: nat): nat {
    if lives == [] then 0
    else
      var x := lives[|lives| - 1];
      Kids(lives[..|lives| - 1], join) + if x.Alive() && x.link == Joined(join) then 1 else 0
  }

  function KidsOf(s: Sched, join: nat): nat {
    Kids(Lives(s.core.slots), join)
  }

  function One(x: Life, join: nat): nat {
    if x.Alive() && x.link == Joined(join) then 1 else 0
  }

  lemma {:induction false} KidsUpdate(lives: seq<Life>, i: nat, x: Life, join: nat)
    requires i < |lives|
    ensures Kids(lives[i := x], join) == Kids(lives, join) + One(x, join) - One(lives[i], join)
  {
    var n := |lives| - 1;
    if i < n {
      KidsUpdate(lives[..n], i, x, join);
      assert lives[i := x][..n] == lives[..n][i := x];
    } else {
      assert lives[i := x][..n] == lives[..n];
    }
  }

  lemma KidsPush(lives: seq<Life>, x: Life, join: nat)
    ensures Kids(lives + [x], join) == Kids(lives, join) + One(x, join)
  {
    assert (lives + [x])[..|lives|] == lives;
  }

  lemma {:induction false} KidsExact(lives: seq<Life>, join: nat)
    ensures Kids(lives, join) > 0 <==> exists k :: 0 <= k < |lives| && lives[k].Alive() && lives[k].link == Joined(join)
  {
    if lives != [] {
      var front := lives[..|lives| - 1];
      KidsExact(front, join);
      if k :| 0 <= k < |front| && front[k].Alive() && front[k].link == Joined(join) {
        assert lives[k] == front[k];
      }
      if k :| 0 <= k < |lives| && lives[k].Alive() && lives[k].link == Joined(join) {
        assert k < |front| ==> front[k] == lives[k];
      }
    }
  }

  /** Who is a child of the join is as it was, for everybody. */
  lemma {:induction false} KidsSame(a: seq<Life>, b: seq<Life>, join: nat)
    requires |a| == |b| && forall k :: 0 <= k < |a| ==> One(a[k], join) == One(b[k], join)
    ensures Kids(a, join) == Kids(b, join)
  {
    if a != [] {
      var n := |a| - 1;
      assert forall k :: 0 <= k < n ==> One(a[..n][k], join) == One(b[..n][k], join);
      KidsSame(a[..n], b[..n], join);
    }
  }

  /** A join that living children still belong to: how many children have left it without counting down, in a step. */
  ghost predicate CountsOn(s: Sched, t: Sched, join: nat, lost: nat) {
    && join < |s.joins| && join < |t.joins| && t.joins[join].parent == s.joins[join].parent
    && KidsOf(s, join) > 0
    && (s.joins[join].remaining >= KidsOf(s, join) ==>
          t.joins[join].remaining - KidsOf(t, join) == s.joins[join].remaining - KidsOf(s, join) + lost)
  }

  /** The step leaves the join alone. */
  ghost predicate Same(s: Sched, t: Sched, join: nat) {
    && KidsOf(t, join) == KidsOf(s, join)
    && (join < |s.joins| ==> join < |t.joins| && t.joins[join] == s.joins[join])
  }

  lemma SameTransitive(a: Sched, b: Sched, c: Sched, join: nat)
    requires Same(a, b, join) && Same(b, c, join)
    ensures Same(a, c, join)
  {
  }

  lemma LivesSame(s: Sched, t: Sched, join: nat)
    requires SameLife(s.core, t.core) && t.joins == s.joins
    ensures Same(s, t, join)
  {
    assert Lives(t.core.slots) == Lives(s.core.slots);
  }

  /** A living child's join exists. */
  lemma KidsHaveJoin(s: Sched, join: nat)
    requires LifeInv(s) && KidsOf(s, join) > 0
    ensures join < |s.joins|
  {
    var lives := Lives(s.core.slots);
    KidsExact(lives, join);
    var k :| 0 <= k < |lives| && lives[k].Alive() && lives[k].link == Joined(join);
    assert HasParent(lives, s.joins, k);
  }

  // ---------------------------------------------------------------------------------------------
  // Coroutines begin
  // ---------------------------------------------------------------------------------------------

  lemma AdoptKids(s: Sched, link: Link, control: Option<nat>, join: nat)
    requires LifeInv(s)
    ensures var t := Adopt(s, link, control);
      t.joins == s.joins && KidsOf(t, join) == KidsOf(s, join) + if link == Joined(join) then 1 else 0
  {
    AdoptShape(s, link, control);
    var lives, life, free := Lives(s.core.slots), Life(true, s.lastId + 1, false, link, control), s.pool.free;
    if free == [] {
      KidsPush(lives, life, join);
    } else {
      assert free[|free| - 1] in free;
      KidsUpdate(lives, free[|free| - 1], life, join);
    }
  }

  lemma ReadySame(s: Sched, i: nat, join: nat)
    ensures Same(s, Ready(s, i), join)
  {
    LivesSame(s, Ready(s, i), join);
  }

  lemma DrainSame(s: Sched, join: nat)
    ensures Same(s, DrainReady(s), join)
  {
    LivesSame(s, DrainReady(s), join);
  }

  lemma SpawnSame(s: Sched, join: nat)
    requires LifeInv(s)
    ensures Same(s, Spawn(s), join) && Same(s, SpawnDetached(s), join)
  {
    hide LifeInv, Adopt;
    AdoptKids(s, Root, Some(|s.controls|), join);
    AdoptKids(s, Root, None, join);
    var i, a, c := NextSlot(s), Adopt(s, Root, Some(|s.controls|)), Adopt(s, Root, None);
    var b := a.(controls := s.controls + [Control(i, true, false, false, false, [])]);
    ReadySame(b, i, join);
    DrainSame(Ready(b, i), join);
    ReadySame(c, i, join);
    DrainSame(Ready(c, i), join);
  }

  lemma {:induction false} AdoptChildrenKids(s: Sched, parent: nat, n: nat, join: nat)
    requires SchedInv(s) && MayJoin(s, parent)
    ensures var t := AdoptChildren(s, parent, n);
      t.joins == s.joins && KidsOf(t, join) == KidsOf(s, join) + if join == parent then n else 0
    decreases n
  {
    hide SchedInv, Evolves, MayAdopt, MayJoin, Adopt;
    if n > 0 {
      var a := Adopt(s, Joined(parent), None);
      InvLife(s);
      AdoptKids(s, Joined(parent), None, join);
      ReadySame(a, NextSlot(s), join);
      MayJoinAdopt(s, parent);
      AdoptReadyKeeps(s, Joined(parent));
      AdoptChildrenKids(AdoptReady(s, Joined(parent)), parent, n - 1, join);
    }
  }

  /** A join begins with its n children alive and to be counted down. */
  lemma StartJoinKids(s: Sched, i: nat, n: nat, join: nat)
    requires SchedInv(s) && s.Alive(i)
    ensures var t := StartJoin(s, i, n);
      && t.joins == s.joins + [Join(n, i)]
      && KidsOf(t, join) == KidsOf(s, join) + if join == |s.joins| then n else 0
  {
    hide SchedInv, Evolves, AdoptChildren;
    var b := s.(core := BeginWait(s.core, i, JoinWait));
    BeginKeeps(s, i, JoinWait);
    InvLife(b);
    NewJoinKeeps(b, Join(n, i));
    var j := b.(joins := s.joins + [Join(n, i)]);
    JoinedInv(b, Join(n, i));
    assert Lives(j.core.slots)[i] == Lives(s.core.slots)[i];
    AdoptChildrenKids(j, |s.joins|, n, join);
  }

  lemma JoinedInv(s: Sched, join: Join)
    requires SchedInv(s)
    ensures SchedInv(s.(joins := s.joins + [join]))
  {
    hide WaitInv, FlagsInv;
    NewJoinKeeps(s, join);
  }

  lemma BeginTimeoutKids(s: Sched, i: nat, timeout: nat, join: nat)
    requires SchedInv(s) && s.Alive(i) && BeginTimeout(s, i, timeout).Some?
    ensures var t := BeginTimeout(s, i, timeout).value;
      && t.joins == s.joins + [Join(1, i)]
      && KidsOf(t, join) == KidsOf(s, join) + if join == |s.joins| then 1 else 0
  {
    hide WaitInv, RunInv, DelayAccepted, BeginWait, Adopt;
    var core := BeginWait(s.core, i, TimeoutWait);
    SlotIsOk(s.core, i);
    BeginWaitShape(s.core, i, TimeoutWait);
    assert Lives(core.slots) == Lives(s.core.slots);
    NewJoinKeeps(s.(core := core), Join(1, i));
    AdoptKids(s.(core := core, joins := s.joins + [Join(1, i)],
                 frames := s.frames + [Timing(Reg(i, core.lastGen, None), timeout)]), Joined(|s.joins|), None, join);
  }

  // ---------------------------------------------------------------------------------------------
  // Coroutines end
  // ---------------------------------------------------------------------------------------------

  lemma FinishKids(s: Sched, i: nat, join: nat)
    requires SchedInv(s) && s.Alive(i)
    ensures var t := Finish(s, i);
      t.joins == s.joins && KidsOf(t, join) == KidsOf(s, join) - One(s.core.slots[i].life, join)
    ensures KidsOf(s, join) >= One(s.core.slots[i].life, join)
  {
    hide SchedInv, Evolves, Finish;
    InvLife(s);
    InvWait(s);
    FinishEnded(s, i);
    KidsUpdate(Lives(s.core.slots), i, s.core.slots[i].life.(done := true), join);
    KidsExact(Lives(s.core.slots), join);
  }

  /** A child that suspends finally counts down its own join and no other. */
  lemma FinalSuspendCounts(s: Sched, i: nat, join: nat)
    requires SchedInv(s) && s.Alive(i)
    requires KidsOf(FinalSuspend(s, i), join) > 0
    ensures CountsOn(s, FinalSuspend(s, i), join, 0)
  {
    hide SchedInv, Evolves, Finish, MakeReady, EndWait;
    InvLife(s);
    FinishKids(s, i, join);
    var t, link := Finish(s, i), s.core.slots[i].life.link;
    if link.Joined? {
      JoinChildKids(t, link.join, join);
    }
    KidsHaveJoin(s, join);
  }

  lemma JoinChildKids(s: Sched, child: nat, join: nat)
    ensures KidsOf(FinishJoinChild(s, child), join) == KidsOf(s, join)
  {
    assert Lives(FinishJoinChild(s, child).core.slots) == Lives(s.core.slots);
  }

  /** The siblings of a survivor survive, but for the target itself. */
  lemma SiblingsSurvive(s: Sched, t: Sched, i: nat, k: nat, join: nat)
    requires LifeInv(s) && s.Alive(i) && Cut(s, t, Dependents(s, i)) && KidsOf(t, join) > 0
    requires k < |s.core.slots| && k != i && s.core.slots[k].Alive() && s.core.slots[k].life.link == Joined(join)
    ensures k < |t.core.slots| && t.core.slots[k].Alive()
  {
    var lives, after := Lives(s.core.slots), Lives(t.core.slots);
    KidsExact(after, join);
    var m :| 0 <= m < |after| && after[m].Alive() && after[m].link == Joined(join);
    assert lives[m] == after[m];
    assert HasParent(lives, s.joins, m);
    if Reaches(lives, s.joins, k, i) {
      SiblingReaches(lives, s.joins, k, m, i, join);
    }
  }

  /** What one child of a join reaches through its parent, the other children reach too. */
  lemma SiblingReaches(lives: seq<Life>, joins: seq<Join>, k: nat, m: nat, i: nat, join: nat)
    requires k < |lives| && lives[k].Alive() && lives[k].link == Joined(join) && k != i && Reaches(lives, joins, k, i)
    requires m < |lives| && lives[m].Alive() && lives[m].link == Joined(join) && HasParent(lives, joins, m)
    ensures Reaches(lives, joins, m, i)
  {
    var j: nat :| Awaits(lives, joins, k, j) && Reaches(lives, joins, j, i);
    assert Awaits(lives, joins, m, j);
  }

  /** Cancelling takes from a join that survives at most the target, and counts nothing down. */
  lemma CancelKids(s: Sched, i: nat, join: nat)
    requires SchedInv(s) && Linked(s) && s.Alive(i) && KidsOf(CancelState(s, i), join) > 0
    ensures var t := CancelState(s, i);
      t.joins == s.joins && KidsOf(t, join) == KidsOf(s, join) - One(s.core.slots[i].life, join)
  {
    hide SchedInv, Evolves, Linked, CancelState, Dependents, Reaches;
    InvLife(s);
    CancelStateExact(s, i);
    var t, life := CancelState(s, i), s.core.slots[i].life;
    var lives, after := Lives(s.core.slots), Lives(t.core.slots);
    var ended := lives[i := life.(done := true)];
    KidsUpdate(lives, i, life.(done := true), join);
    TargetGone(s, i);
    forall k | 0 <= k < |after|
      ensures One(after[k], join) == One(ended[k], join)
    {
      if k != i && One(lives[k], join) == 1 {
        SiblingsSurvive(s, t, i, k, join);
      }
    }
    KidsSame(after, ended, join);
  }

  lemma TargetGone(s: Sched, i: nat)
    requires SchedInv(s) && Linked(s) && s.Alive(i)
    ensures !CancelState(s, i).Alive(i)
  {
    hide SchedInv, Linked, Evolves;
    CancelExact(s, i);
    assert Reaches(Lives(s.core.slots), s.joins, i, i);
  }

  /** A join that has children after the step has the same ones as before, and counts as before. */
  ghost predicate Lasts(s: Sched, t: Sched, join: nat) {
    KidsOf(t, join) > 0 ==>
      KidsOf(s, join) == KidsOf(t, join) && (join < |s.joins| ==> join < |t.joins| && t.joins[join] == s.joins[join])
  }

  lemma LastsTransitive(a: Sched, b: Sched, c: Sched, join: nat)
    requires Lasts(a, b, join) && Lasts(b, c, join)
    ensures Lasts(a, c, join)
  {
  }

  lemma SameLasts(s: Sched, t: Sched, join: nat)
    requires Same(s, t, join)
    ensures Lasts(s, t, join)
  {
  }

  lemma CancelRequestedLasts(s: Sched, p: nat, join: nat)
    requires SchedInv(s) && Linked(s)
    ensures Lasts(s, CancelRequested(s, p), join)
  {
    hide SchedInv, Linked, CancelState, Evolves;
    if p < |s.controls| && s.controls[p].attached && !s.controls[p].done {
      ProcessLasts(s, p, join);
    }
  }

  /** A process is nobody's child. */
  lemma ProcessLasts(s: Sched, p: nat, join: nat)
    requires SchedInv(s) && Linked(s) && p < |s.controls| && !s.controls[p].done
    ensures s.Alive(s.controls[p].slot) && Lasts(s, MarkSchedule(CancelState(s, s.controls[p].slot)), join)
  {
    hide SchedInv, Linked, CancelState, Evolves;
    LivingProcess(s, p);
    var i := s.controls[p].slot;
    ProcessIsRoot(s, p);
    var t := CancelState(s, i);
    LivesSame(t, MarkSchedule(t), join);
    if KidsOf(t, join) > 0 {
      CancelKids(s, i, join);
    }
  }

  lemma ProcessIsRoot(s: Sched, p: nat)
    requires SchedInv(s) && p < |s.controls| && !s.controls[p].done && s.Alive(s.controls[p].slot)
    ensures s.core.slots[s.controls[p].slot].life.link == Root
  {
    hide WaitInv, RunInv;
    var i := s.controls[p].slot;
    assert Lives(s.core.slots)[i].control == Some(p);
  }

  lemma {:induction false} CancelRequestsLasts(s: Sched, ps: seq<nat>, join: nat)
    requires SchedInv(s) && Linked(s)
    ensures Lasts(s, CancelRequests(s, ps), join)
    decreases |ps|
  {
    hide SchedInv, Linked, Keeps, Lasts, CancelRequested;
    if ps == [] {
      LastsRefl(s, join);
    } else {
      var t := CancelRequested(s, ps[0]);
      CancelRequestedLasts(s, ps[0], join);
      CancelRequestedStep(s, ps[0]);
      KeepsInv(s, t);
      ShapeKeepsLinked(s, t);
      CancelRequestsLasts(t, ps[1..], join);
      LastsTransitive(s, t, CancelRequests(t, ps[1..]), join);
    }
  }

  lemma LastsRefl(s: Sched, join: nat)
    ensures Lasts(s, s, join)
  {
  }

  lemma CancelProcessLasts(s: Sched, p: nat, join: nat)
    requires SchedInv(s) && Linked(s)
    ensures Lasts(s, CancelProcess(s, p), join)
  {
    hide SchedInv, Linked, CancelState, Keeps;
    if p < |s.controls| && s.controls[p].attached && !s.controls[p].done && !s.draining {
      var t := s.(controls := s.controls[p := s.controls[p].(requested := true)]);
      RequestKeeps(s, p);
      KeepsInv(s, t);
      ShapeKeepsLinked(s, t);
      ProcessLasts(t, p, join);
      var u := MarkSchedule(CancelState(t, s.controls[p].slot));
      DrainSame(u, join);
    }
  }

  /** Slots are emptied whose coroutine is done. */
  lemma VacatesSame(s: Sched, t: Sched, join: nat)
    requires Vacates(s, t) && t.joins == s.joins
    ensures Same(s, t, join)
  {
    var a, b := Lives(s.core.slots), Lives(t.core.slots);
    forall k | 0 <= k < |a|
      ensures One(a[k], join) == One(b[k], join)
    {
      assert a[k] == s.core.slots[k].life && b[k] == t.core.slots[k].life;
    }
    KidsSame(a, b, join);
  }

  lemma {:induction false} ReclaimRootsJoins(s: Sched, listed: seq<nat>)
    ensures ReclaimRoots(s, listed).joins == s.joins
    decreases |listed|
  {
    if listed != [] {
      ReclaimRootsJoins(Reclaim(s, listed[0]), listed[1..]);
    }
  }

  lemma {:induction false} ReclaimChildrenJoins(s: Sched, listed: seq<Option<nat>>)
    ensures ReclaimChildren(s, listed).joins == s.joins
    decreases |listed|
  {
    if listed != [] {
      ReclaimChildrenJoins(if listed[0].Some? then Reclaim(s, listed[0].value) else s, listed[1..]);
    }
  }

  lemma CollectSame(s: Sched, join: nat)
    ensures Same(s, CollectRoots(s), join)
  {
    ReclaimRootsVacates(s, s.pool.finishedRoots);
    ReclaimRootsJoins(s, s.pool.finishedRoots);
    VacatesSame(s, CollectRoots(s), join);
  }

  lemma BoundarySame(s: Sched, join: nat)
    ensures Same(s, Boundary(s), join)
  {
    BoundaryVacates(s);
    ReclaimRootsJoins(s, s.pool.finishedRoots);
    var a := CollectRoots(s);
    ReclaimChildrenJoins(a, a.pool.finished);
    VacatesSame(s, Boundary(s), join);
  }

  lemma ReclaimAwaitedSame(s: Sched, i: nat, join: nat)
    requires i < |s.core.slots| && ReclaimAwaited(s, i).Some?
    ensures Same(s, ReclaimAwaited(s, i).value, join)
  {
    var t := ReclaimAwaited(s, i).value;
    var a, b := Lives(s.core.slots), Lives(t.core.slots);
    assert b == a[i := NOBODY];
    KidsUpdate(a, i, NOBODY, join);
  }

  lemma EndResumeLasts(s: Sched, join: nat)
    requires SchedInv(s) && Linked(s) && s.frames != [] && s.frames[|s.frames| - 1].Drained?
    ensures Lasts(s, EndResume(s), join)
  {
    hide SchedInv, Linked, CancelRequests, CollectRoots;
    var t := s.(frames := s.frames[..|s.frames| - 1]);
    PopFrameKeeps(s);
    ShapeKeepsLinked(s, t);
    CancelRequestsLasts(t, t.cancels, join);
    CollectSame(ApplyPending(t), join);
  }

  lemma DeliverySame(s: Sched, delivered: (Core, bool), join: nat)
    requires SameLife(s.core, delivered.0)
    ensures Same(s, AfterDelivery(s, delivered), join)
  {
    hide DrainReady, Boundary;
    var t := s.(core := delivered.0);
    LivesSame(s, t, join);
    DrainSame(t, join);
    BoundarySame(t, join);
  }

  // ---------------------------------------------------------------------------------------------
  // Any step
  // ---------------------------------------------------------------------------------------------

  /** A child of the join is cancelled by itself, as a timed task is whose time has come. */
  predicate LeavesBehind(s: Sched, e: Event, join: nat) {
    e.CancellingAwaited? && s.Alive(e.slot) && s.core.slots[e.slot].life.link == Joined(join)
  }

  /** The join is new and counts its children, or is older and counts on. */
  ghost predicate Counted(s: Sched, e: Event, t: Sched, join: nat) {
    if join >= |s.joins| then join < |t.joins| && t.joins[join].remaining == KidsOf(t, join)
    else CountsOn(s, t, join, if LeavesBehind(s, e, join) then 1 else 0)
  }

  lemma LastsCounted(s: Sched, e: Event, t: Sched, join: nat)
    requires LifeInv(s) && Lasts(s, t, join) && KidsOf(t, join) > 0 && !LeavesBehind(s, e, join)
    ensures Counted(s, e, t, join)
  {
    KidsHaveJoin(s, join);
  }

  lemma CallLasts(s: Sched, e: Event, t: Sched, join: nat)
    requires SchedInv(s) && Call(s, e, t) && !e.Joining? && !e.TimingOut? && !e.Finishing? && !e.CancellingAwaited?
    ensures Lasts(s, t, join)
  {
    hide SchedInv, WaitInv, LifeInv, Linked, Same, Spawn, SpawnDetached, Adopt, Park, ParkFirst, BeginWait, ParkProcess,
      CancelProcess, ReclaimAwaited, ResumeReg, DrainReady, MakeReady, RegisterWait, Childless;
    InvLife(s);
    match e
    case Spawning =>
      SpawnSame(s, join);
      SameLasts(s, t, join);
    case SpawningDetached =>
      SpawnSame(s, join);
      SameLasts(s, t, join);
    case Awaiting(i) => AdoptKids(s, Awaited(s.core.slots[i].life.id), None, join);
    case CancellingProcess(p) => CancelProcessLasts(s, p, join);
    case ReclaimingAwaited(i) =>
      ReclaimAwaitedSame(s, i, join);
      SameLasts(s, t, join);
    case _ =>
      CallLives(s, e, t);
      LivesSame(s, t, join);
      SameLasts(s, t, join);
  }

  /** Parking, waking and the like end nobody and begin nobody. */
  lemma CallLives(s: Sched, e: Event, t: Sched)
    requires SchedInv(s) && Call(s, e, t)
    requires !e.Spawning? && !e.SpawningDetached? && !e.Awaiting? && !e.Joining? && !e.TimingOut? && !e.Finishing?
    requires !e.CancellingProcess? && !e.CancellingAwaited? && !e.ReclaimingAwaited?
    ensures SameLife(s.core, t.core) && t.joins == s.joins
  {
    hide WaitInv, LifeInv, RunInv, Evolves, Park, ParkFirst, BeginWait, RegisterWait, Linked, Childless;
    InvWait(s);
    match e
    case Parking(i, request) => ParkKeeps(s.core, i, request);
    case ParkingFirst(i, requests) => ParkFirstKeeps(s.core, i, requests);
    case ParkingExternally(i, reason) =>
      SlotIsOk(s.core, i);
      BeginWaitShape(s.core, i, reason);
    case ParkingForProcess(i, p) =>
      SlotIsOk(s.core, i);
      BeginWaitShape(s.core, i, ProcessWait);
    case TimingSet =>
      var f := s.frames[|s.frames| - 1];
      if ValidReg(s.core, f.wait) {
        RegisterLives(s.core, After(f.timeout), f.wait);
      }
    case _ =>
  }

  lemma RegisterLives(c: Core, request: Request, r: Reg)
    ensures RegisterWait(c, request, r).Some? ==> SameLife(c, RegisterWait(c, request, r).value)
  {
  }

  lemma CallCounted(s: Sched, e: Event, t: Sched, join: nat)
    requires SchedInv(s) && Call(s, e, t) && KidsOf(t, join) > 0
    ensures Counted(s, e, t, join)
  {
    hide SchedInv, Linked, Lasts, StartJoin, BeginTimeout, FinalSuspend, CancelState, KidsOf, Childless;
    InvLife(s);
    if e.Joining? {
      StartJoinKids(s, e.slot, e.children, join);
      NewKids(s, join);
    } else if e.TimingOut? {
      BeginTimeoutKids(s, e.slot, e.timeout, join);
      NewKids(s, join);
    } else if e.Finishing? {
      FinalSuspendCounts(s, e.slot, join);
    } else if e.CancellingAwaited? {
      CancelAwaitedCounts(s, e.slot, join);
    } else {
      CallLasts(s, e, t, join);
      LastsCounted(s, e, t, join);
    }
  }

  lemma NewKids(s: Sched, join: nat)
    requires LifeInv(s)
    ensures join >= |s.joins| ==> KidsOf(s, join) == 0
  {
    if KidsOf(s, join) > 0 {
      KidsHaveJoin(s, join);
    }
  }

  lemma CancelAwaitedCounts(s: Sched, i: nat, join: nat)
    requires SchedInv(s) && Linked(s) && i < |s.core.slots| && s.core.slots[i].life.occupied
    requires KidsOf(CancelAwaited(s, i), join) > 0
    ensures CountsOn(s, CancelAwaited(s, i), join,
                     if s.Alive(i) && s.core.slots[i].life.link == Joined(join) then 1 else 0)
  {
    hide SchedInv, Linked, CancelState, Evolves;
    InvLife(s);
    var t := CancelState(s, i);
    if !s.core.slots[i].life.done {
      LivesSame(t, MarkSchedule(t), join);
      CancelKids(s, i, join);
    }
    KidsHaveJoin(s, join);
  }

  /** Any step counts a join on that has living children after it. */
  lemma StepCounted(s: Sched, e: Event, t: Sched, join: nat)
    requires SchedInv(s) && Step(s, e, t) && KidsOf(t, join) > 0
    ensures Counted(s, e, t, join)
  {
    hide SchedInv, LifeInv, Linked, Call, Counted, Lasts, Same, KidsOf, PopReady, EndResume, EndDrain, BeginInline,
      EndInline, ResumeEdge, AdvanceTime, ResumePhase, LeavesBehind;
    if Call(s, e, t) {
      CallCounted(s, e, t, join);
    } else {
      InvLife(s);
      OtherLasts(s, e, t, join);
      NotLeft(s, e, t, join);
      LastsCounted(s, e, t, join);
    }
  }

  lemma NotLeft(s: Sched, e: Event, t: Sched, join: nat)
    requires Step(s, e, t) && !Call(s, e, t)
    ensures !LeavesBehind(s, e, join)
  {
    hide Linked, CancelAwaited, EndResume;
  }

  lemma OtherLasts(s: Sched, e: Event, t: Sched, join: nat)
    requires SchedInv(s) && Step(s, e, t) && !Call(s, e, t)
    ensures Lasts(s, t, join)
  {
    hide SchedInv, Linked, Call, Same, Lasts, EndResume, CollectRoots, Boundary, AfterDelivery, DeliverEdge,
      DeliverTime,
      DeliverPhase;
    match e
    case Returning => EndResumeLasts(s, join);
    case ReturningInline =>
      var u := s.(frames := s.frames[..|s.frames| - 1]);
      LivesSame(s, u, join);
      CollectSame(u, join);
      SameTransitive(s, u, t, join);
      SameLasts(s, t, join);
    case Emptying =>
      var u := s.(core := s.core.(queue := s.core.queue.(entries := [], cursor := 0)), draining := false);
      LivesSame(s, u, join);
      BoundarySame(u, join);
      SameTransitive(s, u, t, join);
      SameLasts(s, t, join);
    case EdgeSeen(signal, edge) =>
      DeliverySame(s, DeliverEdge(s.core, signal, edge), join);
      SameLasts(s, t, join);
    case TimePassed(time) =>
      DeliverySame(s, DeliverTime(s.core, time), join);
      LivesSame(s, s.(core := DeliverTime(s.core, time).0), join);
      SameLasts(s, t, join);
    case PhaseReached(phase) =>
      DeliverySame(s, DeliverPhase(s.core, phase), join);
      SameLasts(s, t, join);
    case _ =>
      LivesSame(s, t, join);
      SameLasts(s, t, join);
  }

  // ---------------------------------------------------------------------------------------------
  // Runs
  // ---------------------------------------------------------------------------------------------

  /** How many children of the join have been cancelled by themselves since it began. */
  ghost function LeftBehind(states: seq<Sched>, events: seq<Event>, n: nat, join: nat): nat
    requires n <= |events| && |states| == |events| + 1
  {
    if n == 0 || KidsOf(states[n - 1], join) == 0 then 0
    else LeftBehind(states, events, n - 1, join) + if LeavesBehind(states[n - 1], events[n - 1], join) then 1 else 0
  }

  /** In any state of any run: what is left to count down of a join that still has children is their number, and that
      of the children that were cancelled by themselves. */
  lemma {:induction false} RemainingExact(states: seq<Sched>, events: seq<Event>, n: nat, join: nat)
    requires IsRun(states, events) && n <= |events| && KidsOf(states[n], join) > 0
    ensures join < |states[n].joins|
    ensures states[n].joins[join].remaining == KidsOf(states[n], join) + LeftBehind(states, events, n, join)
  {
    hide SchedInv, Step, KidsOf, LeavesBehind;
    if n == 0 {
      NoKidsYet(states, events, join);
    } else {
      var s, e, t := states[n - 1], events[n - 1], states[n];
      RunKeepsInvariant(states, events, n - 1);
      assert Step(s, e, t);
      StepCounted(s, e, t, join);
      if join < |s.joins| {
        RemainingExact(states, events, n - 1, join);
      } else {
        InvLife(s);
        NewKids(s, join);
      }
    }
  }

  lemma NoKidsYet(states: seq<Sched>, events: seq<Event>, join: nat)
    requires IsRun(states, events)
    ensures KidsOf(states[0], join) == 0
  {
    hide Step;
    assert Lives(states[0].core.slots) == [];
  }

  /** No other living coroutine is a child of the join. */
  ghost predicate LastKid(s: Sched, i: nat, join: nat) {
    forall k: nat :: s.Alive(k) && s.core.slots[k].life.link == Joined(join) ==> k == i
  }

  lemma LastKidExact(s: Sched, i: nat, join: nat)
    requires s.Alive(i) && s.core.slots[i].life.link == Joined(join)
    ensures KidsOf(s, join) >= 1 && (KidsOf(s, join) == 1 <==> LastKid(s, i, join))
  {
    var lives := Lives(s.core.slots);
    var rest := lives[i := NOBODY];
    KidsUpdate(lives, i, NOBODY, join);
    KidsExact(rest, join);
    if k: nat :| s.Alive(k) && s.core.slots[k].life.link == Joined(join) && k != i {
      assert rest[k] == lives[k];
    }
    if k :| 0 <= k < |rest| && rest[k].Alive() && rest[k].link == Joined(join) {
      assert k != i && s.Alive(k);
    }
  }

  /** What the final suspension of a child does to a parent that waits. */
  lemma ParentSlot(s: Sched, i: nat, join: nat)
    requires SchedInv(s) && s.Alive(i) && s.core.slots[i].life.link == Joined(join) && KidsOf(s, join) > 0
    ensures join < |s.joins| && s.Alive(s.joins[join].parent)
    ensures var p := s.joins[join].parent; var t := FinalSuspend(s, i);
      s.core.slots[p].waiting && s.joins[join].remaining > 0 ==>
        if s.joins[join].remaining == 1 then t.Alive(p) && !t.core.slots[p].waiting && t.core.slots[p].ready
        else p < |t.core.slots| && t.core.slots[p] == s.core.slots[p]
  {
    hide WaitInv, RunInv, Evolves;
    KidsHaveJoin(s, join);
    assert HasParent(Lives(s.core.slots), s.joins, i);
    var p := s.joins[join].parent;
    FinishIs(s, i);
    var t := Finish(s, i);
    assert Lives(s.core.slots)[i].control.None?;
    FinishSlots(s, i, p);
  }

  lemma FinishSlots(s: Sched, i: nat, p: nat)
    requires LifeInv(s) && s.Alive(i) && s.core.slots[i].life.control.None? && p < |s.core.slots| && p != i
    ensures |Finish(s, i).core.slots| == |s.core.slots| && Finish(s, i).core.slots[p] == s.core.slots[p]
    ensures Finish(s, i).joins == s.joins
  {
    FinishIs(s, i);
    EndWaitOthers(s.core, i);
  }

  lemma EndWaitOthers(c: Core, i: nat)
    requires i < |c.slots|
    ensures var d := StopReady(EndWait(c, i), i);
      |d.slots| == |c.slots| && forall k :: 0 <= k < |c.slots| && k != i ==> d.slots[k] == c.slots[k]
  {
  }

  /** In any run the final suspension of a child wakes a parent that waits exactly when no other child of the join is
      alive and none was cancelled by itself; otherwise it leaves the parent untouched. */
  lemma LastChildWakes(states: seq<Sched>, events: seq<Event>, n: nat, i: nat, join: nat)
    requires IsRun(states, events) && n < |events| && events[n] == Finishing(i)
    requires states[n].Alive(i) && states[n].core.slots[i].life.link == Joined(join)
    ensures var s, t := states[n], states[n + 1];
      && join < |s.joins| && s.Alive(s.joins[join].parent)
      && var p := s.joins[join].parent;
         s.core.slots[p].waiting ==>
           if LastKid(s, i, join) && LeftBehind(states, events, n, join) == 0
           then t.Alive(p) && !t.core.slots[p].waiting && t.core.slots[p].ready
           else p < |t.core.slots| && t.core.slots[p] == s.core.slots[p]
  {
    hide SchedInv, Step, FinalSuspend, LastKid;
    RunKeepsInvariant(states, events, n);
    LastKidExact(states[n], i, join);
    RemainingExact(states, events, n, join);
    ParentSlot(states[n], i, join);
    assert Step(states[n], events[n], states[n + 1]);
    FinishingIs(states[n], events[n], states[n + 1]);
  }

  lemma FinishingIs(s: Sched, e: Event, t: Sched)
    requires Step(s, e, t) && e.Finishing?
    ensures e.slot < |s.core.slots| && t == FinalSuspend(s, e.slot)
  {
    hide FinalSuspend, Childless;
  }
}
