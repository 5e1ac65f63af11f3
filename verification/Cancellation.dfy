/** Cancelling a coroutine ends exactly the coroutines that would, directly or not, resume it. */
module Cancellation {
  import opened Registrations
  import opened WaitCore
  import opened SchedulerState
  import opened SchedulerLife
  import opened SchedulerEnd

  // ---------------------------------------------------------------------------------------------
  // The wait forest
  // ---------------------------------------------------------------------------------------------

  /** k is a living coroutine that is to resume the living coroutine j. */
  ghost predicate Awaits(lives: seq<Life>, joins: seq<Join>, k: nat, j: nat) {
    && k < |lives| && j < |lives| && lives[k].Alive() && lives[j].Alive() && lives[j].id < lives[k].id
    && Names(lives[k], lives[j], joins, j)
  }

  /** k is i, or resumes i through a chain of continuations and joins. */
  ghost predicate Reaches(lives: seq<Life>, joins: seq<Join>, k: nat, i: nat)
    decreases if k < |lives| then lives[k].id else 0
  {
    k == i || exists j: nat :: Awaits(lives, joins, k, j) && Reaches(lives, joins, j, i)
  }

  lemma {:induction false} ReachesOlder(lives: seq<Life>, joins: seq<Join>, k: nat, i: nat)
    requires k < |lives| && i < |lives| && Reaches(lives, joins, k, i)
    ensures k == i || (lives[k].Alive() && lives[i].Alive() && lives[i].id < lives[k].id)
    decreases lives[k].id
  {
    if k != i {
      var j: nat :| Awaits(lives, joins, k, j) && Reaches(lives, joins, j, i);
      ReachesOlder(lives, joins, j, i);
    }
  }

  lemma {:induction false} ReachesTransitive(lives: seq<Life>, joins: seq<Join>, k: nat, j: nat, i: nat)
    requires k < |lives| && Reaches(lives, joins, k, j) && Reaches(lives, joins, j, i)
    ensures Reaches(lives, joins, k, i)
    decreases lives[k].id
  {
    if k != j {
      var m: nat :| Awaits(lives, joins, k, m) && Reaches(lives, joins, m, j);
      ReachesTransitive(lives, joins, m, j, i);
    }
  }

  /** Whoever reaches i from elsewhere does so through one of the coroutines that await i. */
  lemma {:induction false} ReachesThroughChild(lives: seq<Life>, joins: seq<Join>, k: nat, i: nat) returns (child: nat)
    requires k < |lives| && k != i && Reaches(lives, joins, k, i)
    ensures Awaits(lives, joins, child, i) && Reaches(lives, joins, k, child)
    decreases lives[k].id
  {
    var j: nat :| Awaits(lives, joins, k, j) && Reaches(lives, joins, j, i);
    if j == i {
      child := k;
    } else {
      child := ReachesThroughChild(lives, joins, j, i);
    }
  }

  /** The lives after: those in `gone` have ended, the others are as before. */
  ghost predicate Without(before: seq<Life>, after: seq<Life>, gone: set<nat>) {
    && |after| == |before|
    && (forall k :: 0 <= k < |after| && after[k].Alive() ==> after[k] == before[k])
    && (forall k: nat :: k < |after| ==> (after[k].Alive() <==> before[k].Alive() && k !in gone))
  }

  /** Ending everybody who reaches a leaves the chains of the others as they were. */
  lemma {:induction false} ReachesAfter(
    before: seq<Life>, after: seq<Life>, joins: seq<Join>, a: nat, gone: set<nat>, k: nat, i: nat)
    requires Without(before, after, gone) && k < |after| && after[k].Alive()
    requires forall j: nat :: j in gone <==> j < |before| && before[j].Alive() && Reaches(before, joins, j, a)
    ensures Reaches(after, joins, k, i) <==> Reaches(before, joins, k, i)
    decreases before[k].id
  {
    if k != i {
      forall j: nat
        ensures Awaits(after, joins, k, j) && Reaches(after, joins, j, i)
           <==> Awaits(before, joins, k, j) && Reaches(before, joins, j, i)
      {
        if Awaits(before, joins, k, j) {
          assert j !in gone;
          assert Awaits(after, joins, k, j);
        }
        if Awaits(after, joins, k, j) {
          assert Awaits(before, joins, k, j);
          ReachesAfter(before, after, joins, a, gone, j, i);
        }
      }
    }
  }

  /** Everybody alive who reaches i. */
  ghost function Dependents(s: Sched, i: nat): set<nat> {
    set k: nat | k < |s.core.slots| && s.Alive(k) && Reaches(Lives(s.core.slots), s.joins, k, i)
  }

  ghost function DependentsOf(s: Sched, ks: seq<nat>): set<nat> {
    set k: nat | k < |s.core.slots| && s.Alive(k) && exists j :: j in ks && Reaches(Lives(s.core.slots), s.joins, k, j)
  }

  // ---------------------------------------------------------------------------------------------
  // cancel_state
  // ---------------------------------------------------------------------------------------------

  lemma LifeIsLinked(s: Sched)
    requires LifeInv(s)
    ensures Linked(s)
  {
    var lives := Lives(s.core.slots);
    forall k | 0 <= k < |s.core.slots|
      ensures LinkDown(s.core.slots, s.joins, s.lastId, k)
    {
      assert lives[k].Alive() ==> HasParent(lives, s.joins, k);
    }
  }

  lemma ChildIsAwaiting(s: Sched, k: nat, i: nat)
    requires LifeInv(s) && s.Alive(i) && k < |s.core.slots|
    ensures ChildOf(s.core.slots, s.joins, k, i) <==> Awaits(Lives(s.core.slots), s.joins, k, i)
  {
    var lives := Lives(s.core.slots);
    if lives[k].Alive() {
      assert HasParent(lives, s.joins, k);
    }
  }

  /** What cancelling does to the rest of the state. */
  ghost predicate Cut(s: Sched, r: Sched, gone: set<nat>) {
    && Without(Lives(s.core.slots), Lives(r.core.slots), gone)
    && r == s.(core := r.core, pool := r.pool, controls := r.controls) && r.pool.free == s.pool.free
    && r.core.clock == s.core.clock && r.core.queue.cursor == s.core.queue.cursor
    && |r.controls| == |s.controls|
  }

  /** The survivors are not touched. */
  ghost predicate Spared(s: Sched, r: Sched) {
    && |r.core.slots| == |s.core.slots| && r.controls == s.controls
    && forall k :: 0 <= k < |r.core.slots| && r.Alive(k) ==> r.core.slots[k] == s.core.slots[k]
  }

  lemma CutNothing(s: Sched, i: nat)
    requires i < |s.core.slots| && !s.Alive(i)
    ensures Cut(s, s, Dependents(s, i))
  {
    var lives := Lives(s.core.slots);
    forall k: nat | k < |lives| && lives[k].Alive()
      ensures !Reaches(lives, s.joins, k, i)
    {
      if Reaches(lives, s.joins, k, i) {
        ReachesOlder(lives, s.joins, k, i);
      }
    }
  }

  lemma CutCompose(s: Sched, t: Sched, r: Sched, first: nat, rest: seq<nat>)
    requires Cut(s, t, Dependents(s, first)) && Cut(t, r, DependentsOf(t, rest))
    ensures Cut(s, r, DependentsOf(s, [first] + rest))
  {
    var a, b, c := Lives(s.core.slots), Lives(t.core.slots), Lives(r.core.slots);
    forall k: nat | k < |c|
      ensures c[k].Alive() <==> a[k].Alive() && k !in DependentsOf(s, [first] + rest)
    {
      if b[k].Alive() {
        forall j | j in rest
          ensures Reaches(b, s.joins, k, j) <==> Reaches(a, s.joins, k, j)
        {
          ReachesAfter(a, b, s.joins, first, Dependents(s, first), k, j);
        }
      }
      assert forall j :: j in [first] + rest <==> j == first || j in rest;
    }
  }

  /** The chain condition of `cancel_state`: it goes through the children found by the scan. */
  lemma DependentsSplit(s: Sched, i: nat, ks: seq<nat>, k: nat)
    requires LifeInv(s) && s.Alive(i) && ks == ChildrenUpTo(s.core.slots, s.joins, i, |s.core.slots|)
    requires k < |s.core.slots| && s.Alive(k)
    ensures k in Dependents(s, i) <==> k == i || k in DependentsOf(s, ks)
    ensures i !in DependentsOf(s, ks)
  {
    var lives := Lives(s.core.slots);
    if k != i && Reaches(lives, s.joins, k, i) {
      var child := ReachesThroughChild(lives, s.joins, k, i);
      ChildIsAwaiting(s, child, i);
    }
    if k in DependentsOf(s, ks) {
      var child :| child in ks && Reaches(lives, s.joins, k, child);
      ChildIsAwaiting(s, child, i);
      assert Reaches(lives, s.joins, child, i) by { assert Reaches(lives, s.joins, i, i); }
      ReachesTransitive(lives, s.joins, k, child, i);
    }
    forall child | child in ks
      ensures !Reaches(lives, s.joins, i, child)
    {
      ChildIsAwaiting(s, child, i);
      if Reaches(lives, s.joins, i, child) {
        ReachesOlder(lives, s.joins, i, child);
      }
    }
  }

  /** Once its children are gone, nobody alive will resume the coroutine. */
  lemma ChildlessAfter(s: Sched, t: Sched, i: nat, ks: seq<nat>)
    requires LifeInv(s) && s.Alive(i) && ks == ChildrenUpTo(s.core.slots, s.joins, i, |s.core.slots|)
    requires Cut(s, t, DependentsOf(s, ks))
    ensures t.Alive(i) && t.core.slots[i].life == s.core.slots[i].life
    ensures Childless(Lives(t.core.slots), t.joins, i)
  {
    var a, b := Lives(s.core.slots), Lives(t.core.slots);
    DependentsSplit(s, i, ks, i);
    assert b[i].Alive();
    forall k | 0 <= k < |b| && b[k].Alive()
      ensures !Names(b[k], b[i], t.joins, i)
    {
      assert a[k] == b[k];
      NamedIsGone(s, i, ks, k);
    }
  }

  lemma NamedIsGone(s: Sched, i: nat, ks: seq<nat>, k: nat)
    requires LifeInv(s) && s.Alive(i) && s.Alive(k)
    requires ks == ChildrenUpTo(s.core.slots, s.joins, i, |s.core.slots|)
    ensures Names(s.core.slots[k].life, s.core.slots[i].life, s.joins, i) ==> k in DependentsOf(s, ks)
  {
    var lives := Lives(s.core.slots);
    ChildIsAwaiting(s, k, i);
    assert HasParent(lives, s.joins, k);
    assert Reaches(lives, s.joins, k, k);
  }

  lemma CutOne(s: Sched, t: Sched, r: Sched, i: nat, ks: seq<nat>, x: Life)
    requires LifeInv(s) && s.Alive(i) && ks == ChildrenUpTo(s.core.slots, s.joins, i, |s.core.slots|)
    requires Cut(s, t, DependentsOf(s, ks)) && |t.core.slots| == |s.core.slots| && Ended(t, r, i, x, true) && !x.Alive()
    ensures Cut(s, r, Dependents(s, i))
  {
    hide LifeInv, Ended;
    var a, b := Lives(s.core.slots), Lives(t.core.slots);
    forall k: nat | k < |a| && a[k].Alive()
      ensures k in Dependents(s, i) <==> k == i || k in DependentsOf(s, ks)
    {
      DependentsSplit(s, i, ks, k);
    }
    WithoutOne(a, b, DependentsOf(s, ks), i, x, Dependents(s, i));
    CutBy(s, t, r, DependentsOf(s, ks), Dependents(s, i), i, x);
  }

  lemma CutBy(s: Sched, t: Sched, r: Sched, first: set<nat>, all: set<nat>, i: nat, x: Life)
    requires i < |t.core.slots| && Cut(s, t, first) && Ended(t, r, i, x, true)
    requires Without(Lives(s.core.slots), Lives(t.core.slots)[i := x], all)
    ensures Cut(s, r, all)
  {
  }

  lemma WithoutOne(a: seq<Life>, b: seq<Life>, gone: set<nat>, i: nat, x: Life, all: set<nat>)
    requires Without(a, b, gone) && i < |b| && !x.Alive()
    requires forall k: nat :: k < |a| && a[k].Alive() ==> (k in all <==> k == i || k in gone)
    ensures Without(a, b[i := x], all)
  {
  }

  lemma StopWaitingSpares(c: Core, i: nat)
    requires WaitInv(c) && i < |c.slots|
    ensures forall k :: 0 <= k < |c.slots| && k != i ==> StopWaiting(c, i).slots[k] == c.slots[k]
  {
  }

  /** A coroutine that runs no process is cancelled without anybody else noticing. */
  lemma OneSpares(s: Sched, i: nat)
    requires WaitInv(s.core) && LifeInv(s) && s.Alive(i) && s.core.slots[i].life.link != Root
    ensures Spared(s, CancelOne(s, i))
  {
    assert Lives(s.core.slots)[i].control.None?;
    CancelOneIs(s, i);
    StopWaitingSpares(s.core, i);
    CancelOneEnded(s, i);
  }

  lemma SparedTransitive(a: Sched, b: Sched, c: Sched)
    requires Spared(a, b) && Spared(b, c)
    requires forall k :: 0 <= k < |c.core.slots| && c.Alive(k) ==> b.Alive(k)
    ensures Spared(a, c)
  {
  }

  ghost predicate AllChildren(s: Sched, ks: seq<nat>) {
    forall k :: k in ks ==> k < |s.core.slots| && s.core.slots[k].life.occupied
                            && (s.Alive(k) ==> s.core.slots[k].life.link != Root)
  }

  lemma HeadIsChild(s: Sched, ks: seq<nat>)
    requires AllChildren(s, ks) && ks != []
    ensures ks[0] < |s.core.slots| && s.core.slots[ks[0]].life.occupied
    ensures s.Alive(ks[0]) ==> s.core.slots[ks[0]].life.link != Root
  {
    assert ks[0] in ks;
  }

  lemma AllChildrenAfter(s: Sched, t: Sched, ks: seq<nat>, gone: set<nat>)
    requires AllChildren(s, ks) && ks != [] && SameShape(s, t) && Cut(s, t, gone)
    ensures AllChildren(t, ks[1..])
  {
    forall k | k in ks[1..]
      ensures k < |t.core.slots| && t.core.slots[k].life.occupied && (t.Alive(k) ==> t.core.slots[k].life.link != Root)
    {
      assert k in ks;
      assert LifeKept(s.core.slots[k].life, t.core.slots[k].life);
      assert t.Alive(k) ==> Lives(t.core.slots)[k] == Lives(s.core.slots)[k];
    }
  }

  lemma ScanFindsChildren(s: Sched, i: nat)
    requires LifeInv(s) && s.Alive(i)
    ensures AllChildren(s, ChildrenUpTo(s.core.slots, s.joins, i, |s.core.slots|))
  {
    forall k | k in ChildrenUpTo(s.core.slots, s.joins, i, |s.core.slots|)
      ensures s.core.slots[k].life.link != Root
    {
      ChildIsAwaiting(s, k, i);
    }
  }

  /** What `cancel_state` does: it ends the target and all that reach it, keeps the invariant, and
      unless the target is a process it leaves everybody else untouched. */
  ghost predicate CancelledAs(s: Sched, r: Sched, gone: set<nat>, spares: bool) {
    SchedInv(r) && Evolves(s.core, r.core) && Cut(s, r, gone) && (spares ==> Spared(s, r))
  }

  lemma CancelledNothing(s: Sched, i: nat)
    requires SchedInv(s) && i < |s.core.slots| && !s.Alive(i)
    ensures CancelledAs(s, s, Dependents(s, i), true)
  {
    hide SchedInv, Evolves, Cut;
    CutNothing(s, i);
    EvolvesRefl(s.core);
  }

  lemma CancelledLast(s: Sched, t: Sched, i: nat, ks: seq<nat>)
    requires SchedInv(s) && s.Alive(i) && ks == ChildrenUpTo(s.core.slots, s.joins, i, |s.core.slots|)
    requires CancelledAs(s, t, DependentsOf(s, ks), true) && |t.core.slots| == |s.core.slots|
    ensures CancelledAs(s, CancelOne(t, i), Dependents(s, i), s.core.slots[i].life.link != Root)
  {
    hide WaitInv, Evolves, RunInv, Ended, Cut, Childless, LifeInv;
    var r := CancelOne(t, i);
    ChildlessAfter(s, t, i, ks);
    CancelOneKeeps(t, i);
    CutOne(s, t, r, i, ks, t.core.slots[i].life.(done := true, link := Root));
    EvolvesTransitive(s.core, t.core, r.core);
    if s.core.slots[i].life.link != Root {
      OneSpares(t, i);
      AliveBefore(t, r, i, t.core.slots[i].life.(done := true, link := Root));
      SparedTransitive(s, t, r);
    }
  }

  lemma AliveBefore(t: Sched, r: Sched, i: nat, x: Life)
    requires i < |t.core.slots| && Ended(t, r, i, x, true) && !x.Alive()
    ensures forall k :: 0 <= k < |r.core.slots| && r.Alive(k) ==> t.Alive(k)
  {
    forall k | 0 <= k < |r.core.slots| && r.Alive(k)
      ensures t.Alive(k)
    {
      assert Lives(r.core.slots)[k] == Lives(t.core.slots)[i := x][k];
    }
  }

  lemma {:induction false} CancelStateExact(s: Sched, i: nat)
    requires SchedInv(s) && Linked(s) && i < |s.core.slots| && s.core.slots[i].life.occupied
    ensures CancelledAs(s, CancelState(s, i), Dependents(s, i), s.core.slots[i].life.link != Root)
    decreases Rank(s, i), 1, 0
  {
    hide SchedInv, CancelledAs;
    if s.core.slots[i].life.done {
      CancelledNothing(s, i);
      Weaken(s, s, Dependents(s, i));
    } else {
      var ks := ChildrenUpTo(s.core.slots, s.joins, i, |s.core.slots|);
      InvLife(s);
      ChildrenYounger(s, i);
      ScanFindsChildren(s, i);
      CancelEachExact(s, ks, i);
      CancelledLast(s, CancelEach(s, ks, i), i, ks);
    }
  }

  lemma Weaken(s: Sched, r: Sched, gone: set<nat>)
    requires CancelledAs(s, r, gone, true)
    ensures CancelledAs(s, r, gone, false)
  {
  }

  lemma InvLife(s: Sched)
    requires SchedInv(s)
    ensures LifeInv(s)
  {
  }

  lemma CancelledCompose(s: Sched, t: Sched, r: Sched, first: nat, rest: seq<nat>)
    requires CancelledAs(s, t, Dependents(s, first), true)
    requires CancelledAs(t, r, DependentsOf(t, rest), true)
    ensures CancelledAs(s, r, DependentsOf(s, [first] + rest), true)
  {
    hide SchedInv, Evolves;
    CutCompose(s, t, r, first, rest);
    EvolvesTransitive(s.core, t.core, r.core);
    forall k | 0 <= k < |r.core.slots| && r.Alive(k)
      ensures t.Alive(k)
    {
      assert Lives(r.core.slots)[k] == Lives(t.core.slots)[k];
    }
    SparedTransitive(s, t, r);
  }

  lemma CancelledNobody(s: Sched)
    requires SchedInv(s)
    ensures CancelledAs(s, s, DependentsOf(s, []), true)
  {
    hide SchedInv, Evolves;
    EvolvesRefl(s.core);
  }

  lemma {:induction false} CancelEachExact(s: Sched, ks: seq<nat>, i: nat)
    requires SchedInv(s) && Linked(s) && i < |s.core.slots| && AllYounger(s, ks, i) && AllChildren(s, ks)
    ensures CancelledAs(s, CancelEach(s, ks, i), DependentsOf(s, ks), true)
    decreases Rank(s, i), 0, |ks|
  {
    hide SchedInv, CancelledAs, AllChildren, AllYounger, Cut, Linked;
    if ks == [] {
      CancelledNobody(s);
    } else {
      YoungerHead(s, ks, i);
      var t := CancelState(s, ks[0]);
      HeadIsChild(s, ks);
      CancelStateExact(s, ks[0]);
      if !s.Alive(ks[0]) {
        CancelledNothing(s, ks[0]);
      }
      YoungerTail(s, t, ks, i);
      CancelledParts(s, t, Dependents(s, ks[0]));
      AllChildrenAfter(s, t, ks, Dependents(s, ks[0]));
      CancelEachExact(t, ks[1..], i);
      CancelledCompose(s, t, CancelEach(t, ks[1..], i), ks[0], ks[1..]);
      assert ks == [ks[0]] + ks[1..];
    }
  }

  lemma CancelledParts(s: Sched, t: Sched, gone: set<nat>)
    requires CancelledAs(s, t, gone, true)
    ensures SchedInv(t) && Cut(s, t, gone)
  {
  }

  // ---------------------------------------------------------------------------------------------
  // Cancellation is exact
  // ---------------------------------------------------------------------------------------------

  lemma {:induction false} SizeWithout(a: set<nat>, gone: set<nat>)
    requires gone <= a
    ensures |a - gone| == |a| - |gone|
  {
    assert a == (a - gone) + gone;
  }

  lemma ActiveAfter(s: Sched, r: Sched, gone: set<nat>)
    requires SchedInv(s) && SchedInv(r) && Without(Lives(s.core.slots), Lives(r.core.slots), gone)
    requires forall k :: k in gone ==> s.Alive(k)
    ensures r.pool.active == s.pool.active - |gone|
  {
    var a, b := Lives(s.core.slots), Lives(r.core.slots);
    LivingIsSize(a);
    LivingIsSize(b);
    assert AliveSet(b) == AliveSet(a) - gone;
    SizeWithout(AliveSet(a), gone);
  }

  predicate Idle(s: Sched, i: nat) {
    i < |s.core.slots| && !s.core.slots[i].waiting && !s.core.slots[i].ready
  }

  /** Cancelling ends exactly the target and everybody whose continuations and joins lead to it, counts
      them off, and leaves none of them waiting or ready. No registration made before can become valid
      through it, and none of theirs is valid any more. */
  lemma CancelExact(s: Sched, i: nat)
    requires SchedInv(s) && s.Alive(i)
    ensures Linked(s)
    ensures var r := CancelState(s, i);
      && SchedInv(r) && Evolves(s.core, r.core)
      && (forall k: nat :: r.Alive(k) <==> s.Alive(k) && !Reaches(Lives(s.core.slots), s.joins, k, i))
      && r.pool.active == s.pool.active - |Dependents(s, i)|
      && (forall k :: k in Dependents(s, i) ==> Idle(r, k))
      && (forall w: Reg :: 0 < w.gen <= s.core.lastGen && ValidReg(r.core, w) ==>
            ValidReg(s.core, w) && w.slot !in Dependents(s, i))
  {
    InvLife(s);
    LifeIsLinked(s);
    CancelStateExact(s, i);
    var r := CancelState(s, i);
    CancelFacts(s, r, i);
  }

  lemma CancelFacts(s: Sched, r: Sched, i: nat)
    requires SchedInv(s) && s.Alive(i)
    requires CancelledAs(s, r, Dependents(s, i), s.core.slots[i].life.link != Root)
    ensures forall k: nat :: r.Alive(k) <==> s.Alive(k) && !Reaches(Lives(s.core.slots), s.joins, k, i)
    ensures r.pool.active == s.pool.active - |Dependents(s, i)|
    ensures forall k :: k in Dependents(s, i) ==> Idle(r, k)
    ensures forall w: Reg :: 0 < w.gen <= s.core.lastGen && ValidReg(r.core, w) ==>
      ValidReg(s.core, w) && w.slot !in Dependents(s, i)
  {
    hide LifeInv, RunInv;
    var gone := Dependents(s, i);
    AliveWithout(s, r, gone);
    ActiveAfter(s, r, gone);
    IdleWithout(s, r, gone);
  }

  lemma AliveWithout(s: Sched, r: Sched, gone: set<nat>)
    requires Without(Lives(s.core.slots), Lives(r.core.slots), gone)
    ensures forall k: nat :: r.Alive(k) <==> s.Alive(k) && k !in gone
  {
    var a, b := Lives(s.core.slots), Lives(r.core.slots);
    assert forall k: nat :: k < |b| ==> (r.Alive(k) <==> b[k].Alive()) && (s.Alive(k) <==> a[k].Alive());
  }

  lemma IdleWithout(s: Sched, r: Sched, gone: set<nat>)
    requires WaitInv(r.core) && Without(Lives(s.core.slots), Lives(r.core.slots), gone)
    requires forall k :: k in gone ==> s.Alive(k)
    ensures forall k :: k in gone ==> Idle(r, k)
  {
    forall k | k in gone
      ensures Idle(r, k)
    {
      assert !Lives(r.core.slots)[k].Alive();
      SlotIsOk(r.core, k);
    }
  }

  /** The survivors notice a cancellation only through the process of the target: its completion
      waiters with a valid registration are woken, and nobody else. */
  lemma CancelWakesWaiters(s: Sched, i: nat, k: nat)
    requires SchedInv(s) && s.Alive(i) && Linked(s) && CancelState(s, i).Alive(k)
    ensures var r := CancelState(s, i); var control := s.core.slots[i].life.control;
      && r.controls == EndedControls(s.controls, control, true)
      && (control.Some? ==> control.value < |s.controls|)
      && r.core.slots[k].Token() ==
           if control.Some? && exists w :: w in s.controls[control.value].waiters && ValidReg(s.core, w) && w.slot == k
           then None else s.core.slots[k].Token()
  {
    hide SchedInv, CancelledAs;
    var ks := ChildrenUpTo(s.core.slots, s.joins, i, |s.core.slots|);
    InvLife(s);
    ChildrenYounger(s, i);
    ScanFindsChildren(s, i);
    CancelEachExact(s, ks, i);
    WakesWaitersLast(s, CancelEach(s, ks, i), i, ks, k);
  }

  lemma WakesWaitersLast(s: Sched, t: Sched, i: nat, ks: seq<nat>, k: nat)
    requires SchedInv(s) && s.Alive(i) && ks == ChildrenUpTo(s.core.slots, s.joins, i, |s.core.slots|)
    requires CancelledAs(s, t, DependentsOf(s, ks), true) && |t.core.slots| == |s.core.slots|
    requires CancelOne(t, i).Alive(k)
    ensures var r := CancelOne(t, i); var control := s.core.slots[i].life.control;
      && r.controls == EndedControls(s.controls, control, true)
      && (control.Some? ==> control.value < |s.controls|)
      && r.core.slots[k].Token() ==
           if control.Some? && exists w :: w in s.controls[control.value].waiters && ValidReg(s.core, w) && w.slot == k
           then None else s.core.slots[k].Token()
  {
    hide WaitInv, Evolves, RunInv, LifeInv, Cut, Childless;
    ChildlessAfter(s, t, i, ks);
    OneWakes(t, i, k);
    OneEnds(t, i, k);
    assert t.core.slots[k] == s.core.slots[k];
    ProcessOfLiving(s, i);
    assert forall w: Reg :: w.slot == k ==> (ValidReg(s.core, w) <==> ValidReg(t.core, w));
  }

  lemma OneEnds(s: Sched, i: nat, k: nat)
    requires SchedInv(s) && s.Alive(i) && CancelOne(s, i).Alive(k)
    ensures CancelOne(s, i).controls == EndedControls(s.controls, s.core.slots[i].life.control, true)
    ensures s.Alive(k) && k != i
  {
    CancelOneEnded(s, i);
    var r := CancelOne(s, i);
    assert Lives(r.core.slots)[k] == Lives(s.core.slots)[i := s.core.slots[i].life.(done := true, link := Root)][k];
  }

  lemma OneWakes(s: Sched, i: nat, k: nat)
    requires SchedInv(s) && s.Alive(i) && k < |s.core.slots| && k != i
    ensures var control := s.core.slots[i].life.control;
      CancelOne(s, i).core.slots[k].Token() ==
        if control.Some? && control.value < |s.controls|
           && exists w :: w in s.controls[control.value].waiters && ValidReg(s.core, w) && w.slot == k
        then None else s.core.slots[k].Token()
  {
    var life := s.core.slots[i].life;
    var x := life.(done := true, link := Root);
    CancelOneIs(s, i);
    StopWaitingSpares(s.core, i);
    StopWaitingKeeps(s.core, i);
    var b := SetLife(StopWaiting(s.core, i), i, x);
    DoneKeeps(StopWaiting(s.core, i), i, x);
    assert b.slots[k] == s.core.slots[k];
    ProcessOfLiving(s, i);
    if life.control.Some? {
      WakesExactly(b, s.controls[life.control.value].waiters, k);
      forall w: Reg | w.slot == k
        ensures ValidReg(s.core, w) <==> ValidReg(b, w)
      {
      }
    }
  }

  lemma ProcessOfLiving(s: Sched, i: nat)
    requires LifeInv(s) && s.Alive(i)
    ensures var control := s.core.slots[i].life.control;
      control.Some? ==> control.value < |s.controls| && !s.controls[control.value].done
  {
    assert Lives(s.core.slots)[i].control == s.core.slots[i].life.control;
  }

  lemma WakesExactly(c: Core, ws: seq<Reg>, k: nat)
    requires WaitInv(c) && k < |c.slots|
    ensures ResumeAll(c, ws).slots[k].Token()
         == if exists w :: w in ws && ValidReg(c, w) && w.slot == k then None else c.slots[k].Token()
  {
    ResumeAllKeeps(c, ws);
    WakeOrderExact(ws, Waits(c.slots));
    var d := ResumeAll(c, ws);
    assert d.slots[k].Token() == Waits(d.slots)[k];
    assert forall w :: ValidReg(c, w) <==> Live(Waits(c.slots), w);
  }
}
