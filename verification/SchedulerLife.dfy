/** The life of coroutines: slots are taken, coroutines finish or are cancelled, slots are reclaimed. */
module SchedulerLife {
  import opened Registrations
  import opened WaitCore
  import opened SchedulerState
  import E = EdgeWaits
  import P = PhaseWaits
  import T = TimerQueue

  function Lives(slots: seq<Slot>): (r: seq<Life>)
    ensures |r| == |slots| && forall i :: 0 <= i < |slots| ==> r[i] == slots[i].life
  {
    seq(|slots|, i requires 0 <= i < |slots| => slots[i].life)
  }

  ghost predicate Distinct<X(!new)>(xs: seq<X>) {
    forall a, b :: 0 <= a < b < |xs| ==> xs[a] != xs[b]
  }

  function Living(lives: seq<Life>): nat {
    if lives == [] then 0
    else Living(lives[..|lives| - 1]) + if lives[|lives| - 1].Alive() then 1 else 0
  }

  ghost predicate IdInv(lives: seq<Life>, lastId: nat) {
    && (forall i :: 0 <= i < |lives| && lives[i].occupied ==> lives[i].id <= lastId)
    && (forall i, j :: 0 <= i < j < |lives| && lives[i].occupied && lives[j].occupied ==> lives[i].id != lives[j].id)
  }

  /** A slot that waits to be reclaimed. */
  ghost predicate Listed(pool: Pool, i: nat) {
    i in pool.finishedRoots || Some(i) in pool.finished
  }

  /** The vacant slots are exactly the free ones, each listed once. */
  ghost predicate FreeInv(lives: seq<Life>, free: seq<nat>) {
    Distinct(free) && forall i: nat :: i in free <==> i < |lives| && !lives[i].occupied
  }

  /** The finished coroutines that still occupy a slot are exactly the listed ones, each listed once, processes
      apart from children. */
  ghost predicate ListInv(lives: seq<Life>, pool: Pool) {
    && (forall i: nat :: Listed(pool, i) <==> i < |lives| && lives[i].occupied && lives[i].done)
    && Distinct(pool.finishedRoots)
    && (forall a, b :: 0 <= a < b < |pool.finished| && pool.finished[a].Some? ==> pool.finished[a] != pool.finished[b])
    && (forall i: nat :: i in pool.finishedRoots ==> Some(i) !in pool.finished)
    && (forall i: nat :: i in pool.finishedRoots && i < |lives| ==> lives[i].link == Root)
    && (forall i: nat :: Some(i) in pool.finished && i < |lives| ==> lives[i].control.None?)
  }

  ghost predicate PoolInv(lives: seq<Life>, pool: Pool) {
    FreeInv(lives, pool.free) && ListInv(lives, pool) && pool.active == Living(lives)
  }

  ghost predicate HasParent(lives: seq<Life>, joins: seq<Join>, k: nat)
    requires k < |lives|
  {
    match lives[k].link
    case Root => true
    case Awaited(parent) =>
      parent < lives[k].id && exists i :: 0 <= i < |lives| && lives[i].Alive() && lives[i].id == parent
    case Joined(join) =>
      join < |joins| && joins[join].parent < |lives| && lives[joins[join].parent].Alive()
      && lives[joins[join].parent].id < lives[k].id
  }

  /** Whoever a living coroutine will resume is alive, and older. */
  ghost predicate ForestInv(lives: seq<Life>, joins: seq<Join>) {
    forall k {:trigger HasParent(lives, joins, k)} ::
      0 <= k < |lives| && lives[k].Alive() ==> HasParent(lives, joins, k)
  }

  /** Processes and the slots they run in name each other, and a process is done when its coroutine is. */
  ghost predicate ProcInv(lives: seq<Life>, controls: seq<Control>) {
    && (forall p :: 0 <= p < |controls| && !controls[p].done ==>
          && controls[p].attached && controls[p].slot < |lives|
          && lives[controls[p].slot].Alive() && lives[controls[p].slot].control == Some(p))
    && (forall i :: 0 <= i < |lives| && lives[i].occupied && lives[i].control.Some? ==>
          var p := lives[i].control.value;
          && lives[i].link == Root && p < |controls| && controls[p].slot == i && controls[p].attached
          && (lives[i].done <==> controls[p].done))
    && (forall p :: 0 <= p < |controls| && controls[p].attached ==>
          controls[p].slot < |lives| && lives[controls[p].slot].occupied
          && lives[controls[p].slot].control == Some(p))
  }

  ghost predicate WaitersIssued(controls: seq<Control>, lastGen: nat) {
    forall p, r :: 0 <= p < |controls| && r in controls[p].waiters ==> 0 < r.gen <= lastGen
  }

  ghost predicate FrameOk(c: Core, f: Frame) {
    match f
    case Drained(slot) => slot < |c.slots|
    case Inline(slot, _) => slot < |c.slots|
    case Timing(wait, timeout) =>
      wait.slot < |c.slots| && 0 < wait.gen <= c.lastGen && DelayAccepted(c.clock, timeout)
  }

  ghost predicate FramesOk(c: Core, frames: seq<Frame>) {
    InlineDepth(frames) <= MAX_INLINE_DEPTH && forall k :: 0 <= k < |frames| ==> FrameOk(c, frames[k])
  }

  ghost predicate LifeInv(s: Sched) {
    var lives := Lives(s.core.slots);
    && IdInv(lives, s.lastId) && PoolInv(lives, s.pool) && ForestInv(lives, s.joins) && ProcInv(lives, s.controls)
  }

  /** A timeout of slot i has started its child and has not armed its timer yet. */
  ghost predicate TimingFor(frames: seq<Frame>, i: nat, token: Option<nat>) {
    exists k :: 0 <= k < |frames| && frames[k].Timing? && frames[k].wait.slot == i && token == Some(frames[k].wait.gen)
  }

  /** The flags announce a timer, and nothing is registered yet. */
  ghost predicate PendingOk(c: Core, i: nat)
    requires i < |c.slots|
  {
    c.slots[i].progress == Progress(true, false) && !HasRegistrations(c, i)
  }

  ghost predicate FlagAt(c: Core, frames: seq<Frame>, i: nat)
    requires i < |c.slots|
  {
    var token := c.slots[i].Token();
    token.Some? ==> FlagOk(c, i) || (PendingOk(c, i) && TimingFor(frames, i, token))
  }

  /** The flags of every wait are exact, except while a timeout is being set up. */
  ghost predicate FlagsInv(c: Core, frames: seq<Frame>) {
    forall i {:trigger FlagAt(c, frames, i)} :: 0 <= i < |c.slots| ==> FlagAt(c, frames, i)
  }

  ghost predicate RunInv(s: Sched) {
    && WaitersIssued(s.controls, s.core.lastGen) && FramesOk(s.core, s.frames) && FlagsInv(s.core, s.frames)
    && (!s.draining ==> s.frames == [] && s.core.queue.cursor == 0)
  }

  /** What holds of the scheduler between any two operations. */
  ghost predicate SchedInv(s: Sched) {
    WaitInv(s.core) && LifeInv(s) && RunInv(s)
  }

  // ---------------------------------------------------------------------------------------------
  // Counting the living
  // ---------------------------------------------------------------------------------------------

  lemma {:induction false} LivingUpdate(lives: seq<Life>, i: nat, x: Life)
    requires i < |lives|
    ensures Living(lives[i := x]) == Living(lives) + (if x.Alive() then 1 else 0) - (if lives[i].Alive() then 1 else 0)
  {
    var n := |lives| - 1;
    if i < n {
      LivingUpdate(lives[..n], i, x);
      assert lives[i := x][..n] == lives[..n][i := x];
    } else {
      assert lives[i := x][..n] == lives[..n];
    }
  }

  lemma LivingPush(lives: seq<Life>, x: Life)
    ensures Living(lives + [x]) == Living(lives) + if x.Alive() then 1 else 0
  {
    assert (lives + [x])[..|lives|] == lives;
  }

  function AliveSet(lives: seq<Life>): set<nat> {
    set i: nat | i < |lives| && lives[i].Alive()
  }

  lemma {:induction false} LivingIsSize(lives: seq<Life>)
    ensures Living(lives) == |AliveSet(lives)|
  {
    if lives == [] {
      assert AliveSet(lives) == {};
    } else {
      var n := |lives| - 1;
      LivingIsSize(lives[..n]);
      assert AliveSet(lives) == AliveSet(lives[..n]) + if lives[n].Alive() then {n} else {};
    }
  }

  // ---------------------------------------------------------------------------------------------
  // Operations that only wait and wake
  // ---------------------------------------------------------------------------------------------

  lemma SameLives(c: Core, d: Core)
    requires SameLife(c, d)
    ensures Lives(c.slots) == Lives(d.slots)
  {
  }

  lemma FlagsStay(c: Core, d: Core, frames: seq<Frame>)
    requires FlagsInv(c, frames) && Evolves(c, d)
    ensures FlagsInv(d, frames)
  {
    hide Moves;
    forall i | 0 <= i < |d.slots|
      ensures FlagAt(d, frames, i)
    {
      assert SettledAt(c, d, i) && (i < |c.slots| ==> FlagAt(c, frames, i));
    }
  }

  lemma FramesStay(c: Core, d: Core, frames: seq<Frame>)
    requires FramesOk(c, frames) && |c.slots| <= |d.slots| && c.lastGen <= d.lastGen
    requires d.clock.precision == c.clock.precision
    ensures FramesOk(d, frames)
  {
    forall k | 0 <= k < |frames|
      ensures FrameOk(d, frames[k])
    {
      assert FrameOk(c, frames[k]);
    }
  }

  /** An operation on waits alone keeps the whole invariant. */
  lemma CoreStep(s: Sched, d: Core)
    requires SchedInv(s) && WaitInv(d) && Evolves(s.core, d) && SameLife(s.core, d)
    requires d.clock.precision == s.core.clock.precision && (s.draining || d.queue.cursor == 0)
    ensures SchedInv(s.(core := d))
  {
    hide WaitInv, Settles, FlagsInv;
    SameLives(s.core, d);
    FramesStay(s.core, d, s.frames);
    FlagsStay(s.core, d, s.frames);
  }

  // ---------------------------------------------------------------------------------------------
  // Adopting
  // ---------------------------------------------------------------------------------------------

  lemma AppendSlotMoves(c: Core, life: Life)
    requires WaitInv(c)
    ensures WaitInv(AppendSlot(c, life)) && Moves(c, AppendSlot(c, life))
  {
    var d := AppendSlot(c, life);
    assert Waits(d.slots) == Waits(c.slots) + [None];
    E.NewSlotKeeps(c.edges, Waits(c.slots), c.lastGen);
    P.PhaseNewSlotKeeps(c.phases, Waits(c.slots), c.lastGen);
    ReadyCountPush(c.slots, VACANT.(life := life));
    T.EarliestAfterEnd(T.All(c.timers), Waits(c.slots), Waits(d.slots));
    assert forall i :: 0 <= i < |c.slots| ==> SlotOk(c.slots[i], c.lastGen);
  }

  lemma TablesSized(c: Core)
    requires WaitInv(c)
    ensures |c.edges.waits| == |c.phases.waits| == |c.slots|
  {
  }

  lemma AppendSlotKeeps(c: Core, life: Life)
    requires WaitInv(c)
    ensures WaitInv(AppendSlot(c, life)) && Evolves(c, AppendSlot(c, life))
  {
    hide WaitInv, Moves;
    var d := AppendSlot(c, life);
    AppendSlotMoves(c, life);
    TablesSized(c);
    forall i | 0 <= i < |d.slots|
      ensures SettledAt(c, d, i)
    {
      if i < |c.slots| {
        QuietSlot(c, d, i);
      }
    }
  }

  lemma FillSlotKeeps(c: Core, i: nat, life: Life)
    requires WaitInv(c) && i < |c.slots| && !c.slots[i].Alive()
    ensures WaitInv(FillSlot(c, i, life)) && Evolves(c, FillSlot(c, i, life))
  {
    var d := FillSlot(c, i, life);
    assert SlotOk(c.slots[i], c.lastGen);
    ReadyCountUpdate(c.slots, i, VACANT.(life := life));
    assert Waits(d.slots) == Waits(c.slots);
    EvolvesTables(c, d);
  }

  function AdoptedLives(lives: seq<Life>, free: seq<nat>, life: Life): seq<Life> {
    if free == [] then lives + [life]
    else if free[|free| - 1] < |lives| then lives[free[|free| - 1] := life]
    else lives
  }

  function AdoptedPool(pool: Pool): Pool {
    pool.(active := pool.active + 1, free := if pool.free == [] then [] else pool.free[..|pool.free| - 1])
  }

  /** The slot taken is vacant and no other is touched. */
  lemma AdoptShape(s: Sched, link: Link, control: Option<nat>)
    requires LifeInv(s)
    ensures var r := Adopt(s, link, control); var i := NextSlot(s);
      var life := Life(true, s.lastId + 1, false, link, control);
      && i < |r.core.slots| && i !in AliveSet(Lives(s.core.slots))
      && r.core.slots[i] == VACANT.(life := life)
      && |s.core.slots| <= |r.core.slots| <= |s.core.slots| + 1
      && (forall k :: 0 <= k < |s.core.slots| && k != i ==> r.core.slots[k] == s.core.slots[k])
      && (i < |s.core.slots| ==> !s.core.slots[i].life.occupied && |r.core.slots| == |s.core.slots|)
      && Lives(r.core.slots) == AdoptedLives(Lives(s.core.slots), s.pool.free, life)
      && r.pool == AdoptedPool(s.pool)
      && r == s.(core := r.core, lastId := s.lastId + 1, pool := r.pool)
      && r.core == s.core.(slots := r.core.slots, edges := r.core.edges, phases := r.core.phases)
  {
    var free := s.pool.free;
    if free != [] {
      assert free[|free| - 1] in free;
    }
  }

  lemma AdoptKeepsFree(lives: seq<Life>, free: seq<nat>, life: Life)
    requires FreeInv(lives, free) && life.occupied
    ensures FreeInv(AdoptedLives(lives, free, life), if free == [] then [] else free[..|free| - 1])
  {
    if free != [] {
      var i, rest := free[|free| - 1], free[..|free| - 1];
      assert i in free && i !in rest;
      assert forall j :: j in free <==> j in rest || j == i;
    }
  }

  lemma AdoptKeepsPool(lives: seq<Life>, pool: Pool, life: Life)
    requires PoolInv(lives, pool) && life.Alive()
    ensures PoolInv(AdoptedLives(lives, pool.free, life), AdoptedPool(pool))
  {
    AdoptKeepsFree(lives, pool.free, life);
    LivingPush(lives, life);
    if pool.free != [] {
      assert pool.free[|pool.free| - 1] in pool.free;
      LivingUpdate(lives, pool.free[|pool.free| - 1], life);
    }
    assert forall j: nat :: Listed(AdoptedPool(pool), j) <==> Listed(pool, j);
    assert !Listed(pool, |lives|);
  }

  lemma AdoptKeepsForest(lives: seq<Life>, pool: Pool, joins: seq<Join>, lastId: nat, life: Life)
    requires IdInv(lives, lastId) && PoolInv(lives, pool) && ForestInv(lives, joins)
    requires life.Alive() && life.id == lastId + 1
    requires HasParent(lives + [life], joins, |lives|)
    ensures var after := AdoptedLives(lives, pool.free, life); IdInv(after, lastId + 1) && ForestInv(after, joins)
  {
    var after := AdoptedLives(lives, pool.free, life);
    var i := if pool.free == [] then |lives| else pool.free[|pool.free| - 1];
    assert pool.free != [] ==> i in pool.free;
    forall k | 0 <= k < |after| && after[k].Alive()
      ensures HasParent(after, joins, k)
    {
      if k == i {
        if life.link.Awaited? {
          var j :| 0 <= j < |lives + [life]| && (lives + [life])[j].Alive()
            && (lives + [life])[j].id == life.link.parent;
          assert j < |lives| && after[j] == lives[j];
        }
      } else {
        assert HasParent(lives, joins, k);
        if lives[k].link.Awaited? {
          var j :| 0 <= j < |lives| && lives[j].Alive() && lives[j].id == lives[k].link.parent;
          assert after[j] == lives[j];
        }
      }
    }
  }

  /** The processes after the next slot has been taken by a coroutine without a process. */
  lemma AdoptKeepsProcs(lives: seq<Life>, free: seq<nat>, controls: seq<Control>, life: Life)
    requires FreeInv(lives, free) && ProcInv(lives, controls) && life.Alive() && life.control.None?
    ensures ProcInv(AdoptedLives(lives, free, life), controls)
  {
    var after := AdoptedLives(lives, free, life);
    assert free != [] ==> free[|free| - 1] in free;
    assert forall i :: 0 <= i < |lives| && lives[i].occupied ==> after[i] == lives[i];
    assert forall i :: 0 <= i < |after| && after[i].control.Some? && after[i].occupied ==>
      i < |lives| && after[i] == lives[i];
  }

  /** The processes after the next slot has been taken for a new process. */
  lemma AdoptAddsProc(lives: seq<Life>, free: seq<nat>, controls: seq<Control>, life: Life)
    requires FreeInv(lives, free) && ProcInv(lives, controls)
    requires life.Alive() && life.control == Some(|controls|) && life.link == Root
    ensures var i := if free == [] then |lives| else free[|free| - 1];
      ProcInv(AdoptedLives(lives, free, life), controls + [Control(i, true, false, false, false, [])])
  {
    var after := AdoptedLives(lives, free, life);
    var i := if free == [] then |lives| else free[|free| - 1];
    var more := controls + [Control(i, true, false, false, false, [])];
    assert free != [] ==> i in free;
    assert forall k :: 0 <= k < |lives| && lives[k].occupied ==> k != i && after[k] == lives[k];
    forall p | 0 <= p < |more| && !more[p].done
      ensures more[p].attached && more[p].slot < |after| && after[more[p].slot].Alive()
      ensures after[more[p].slot].control == Some(p)
    {
      assert p < |controls| ==> more[p] == controls[p];
    }
    forall k | 0 <= k < |after| && after[k].occupied && after[k].control.Some?
      ensures var p := after[k].control.value;
        && after[k].link == Root && p < |more| && more[p].slot == k && more[p].attached
        && (after[k].done <==> more[p].done)
    {
      assert k != i ==> k < |lives| && after[k] == lives[k];
    }
  }

  /** The core after adopting. */
  lemma AdoptCore(s: Sched, link: Link, control: Option<nat>)
    requires WaitInv(s.core) && VacantFree(s)
    ensures WaitInv(Adopt(s, link, control).core) && Evolves(s.core, Adopt(s, link, control).core)
  {
    AdoptIs(s, link, control);
    TakeSlotKeeps(s.core, s.pool.free, Life(true, s.lastId + 1, false, link, control));
  }

  lemma AdoptIs(s: Sched, link: Link, control: Option<nat>)
    ensures Adopt(s, link, control).core
      == TakeSlot(s.core, s.pool.free, Life(true, s.lastId + 1, false, link, control))
  {
  }

  ghost predicate VacantFree(s: Sched) {
    forall i :: i in s.pool.free ==> i < |s.core.slots| && !s.core.slots[i].life.occupied
  }

  lemma TakeSlotKeeps(c: Core, free: seq<nat>, life: Life)
    requires WaitInv(c) && forall i :: i in free ==> i < |c.slots| && !c.slots[i].life.occupied
    ensures WaitInv(TakeSlot(c, free, life)) && Evolves(c, TakeSlot(c, free, life))
  {
    if free == [] {
      AppendSlotKeeps(c, life);
    } else {
      assert free[|free| - 1] in free;
      FillSlotKeeps(c, free[|free| - 1], life);
    }
  }

  ghost predicate MayAdopt(s: Sched, link: Link) {
    HasParent(Lives(s.core.slots) + [Life(true, s.lastId + 1, false, link, None)], s.joins, |s.core.slots|)
  }

  lemma AdoptLife(s: Sched, link: Link)
    requires LifeInv(s) && MayAdopt(s, link)
    ensures LifeInv(Adopt(s, link, None))
  {
    AdoptShape(s, link, None);
    var lives, life := Lives(s.core.slots), Life(true, s.lastId + 1, false, link, None);
    AdoptKeepsPool(lives, s.pool, life);
    AdoptKeepsForest(lives, s.pool, s.joins, s.lastId, life);
    AdoptKeepsProcs(lives, s.pool.free, s.controls, life);
  }

  lemma AdoptRun(s: Sched, link: Link, control: Option<nat>)
    requires WaitInv(s.core) && LifeInv(s) && RunInv(s)
    ensures RunInv(Adopt(s, link, control))
  {
    hide WaitInv, Evolves, FlagsInv;
    var r := Adopt(s, link, control);
    AdoptCore(s, link, control);
    AdoptShape(s, link, control);
    FramesStay(s.core, r.core, s.frames);
    FlagsStay(s.core, r.core, s.frames);
  }

  lemma AdoptKeeps(s: Sched, link: Link)
    requires SchedInv(s) && MayAdopt(s, link)
    ensures var r := Adopt(s, link, None);
      && SchedInv(r) && Evolves(s.core, r.core) && NextSlot(s) < |r.core.slots|
      && r.core.slots[NextSlot(s)].Alive() && !r.core.slots[NextSlot(s)].waiting
  {
    hide WaitInv, RunInv, Evolves;
    AdoptCore(s, link, None);
    AdoptLife(s, link);
    AdoptRun(s, link, None);
    AdoptShape(s, link, None);
  }

  lemma ReadyKeeps(s: Sched, i: nat)
    requires SchedInv(s) && s.Alive(i) && !s.core.slots[i].waiting
    ensures SchedInv(Ready(s, i)) && Evolves(s.core, Ready(s, i).core)
  {
    MakeReadyKeeps(s.core, i);
    CoreStep(s, MakeReady(s.core, i));
  }

  lemma DrainReadyKeeps(s: Sched)
    requires SchedInv(s)
    ensures SchedInv(DrainReady(s)) && Evolves(s.core, DrainReady(s).core)
  {
    if !s.draining {
      assert DrainReady(s).core == s.core;
    }
    EvolvesTables(s.core, s.core);
  }

  lemma SpawnLife(s: Sched)
    requires LifeInv(s)
    ensures var i := NextSlot(s); var a := Adopt(s, Root, Some(|s.controls|));
      LifeInv(a.(controls := s.controls + [Control(i, true, false, false, false, [])]))
  {
    AdoptShape(s, Root, Some(|s.controls|));
    var lives, life := Lives(s.core.slots), Life(true, s.lastId + 1, false, Root, Some(|s.controls|));
    AdoptKeepsPool(lives, s.pool, life);
    AdoptKeepsForest(lives, s.pool, s.joins, s.lastId, life);
    AdoptAddsProc(lives, s.pool.free, s.controls, life);
  }

  lemma FreeIsVacant(s: Sched)
    requires LifeInv(s)
    ensures VacantFree(s)
  {
  }

  lemma AdoptProcessKeeps(s: Sched)
    requires SchedInv(s)
    ensures var i := NextSlot(s);
      var b := Adopt(s, Root, Some(|s.controls|))
        .(controls := s.controls + [Control(i, true, false, false, false, [])]);
      SchedInv(b) && Evolves(s.core, b.core) && b.Alive(i) && !b.core.slots[i].waiting
  {
    hide WaitInv, Evolves, FlagsInv, LifeInv, Adopt;
    var i, a := NextSlot(s), Adopt(s, Root, Some(|s.controls|));
    var b := a.(controls := s.controls + [Control(i, true, false, false, false, [])]);
    FreeIsVacant(s);
    AdoptCore(s, Root, Some(|s.controls|));
    SpawnLife(s);
    AdoptShape(s, Root, Some(|s.controls|));
    AdoptRun(s, Root, Some(|s.controls|));
  }

  lemma SpawnKeeps(s: Sched)
    requires SchedInv(s)
    ensures SchedInv(Spawn(s)) && Evolves(s.core, Spawn(s).core)
  {
    var i, a := NextSlot(s), Adopt(s, Root, Some(|s.controls|));
    var b := a.(controls := s.controls + [Control(i, true, false, false, false, [])]);
    AdoptProcessKeeps(s);
    ReadyKeeps(b, i);
    DrainReadyKeeps(Ready(b, i));
    EvolvesTransitive(s.core, b.core, Ready(b, i).core);
    EvolvesTransitive(s.core, Ready(b, i).core, Spawn(s).core);
  }

  lemma SpawnDetachedKeeps(s: Sched)
    requires SchedInv(s)
    ensures SchedInv(SpawnDetached(s)) && Evolves(s.core, SpawnDetached(s).core)
  {
    var r := AdoptReady(s, Root);
    AdoptReadyKeeps(s, Root);
    DrainReadyKeeps(r);
    EvolvesTransitive(s.core, r.core, SpawnDetached(s).core);
  }

  lemma AwaitTaskKeeps(s: Sched, i: nat)
    requires SchedInv(s) && s.Alive(i)
    ensures SchedInv(AwaitTask(s, i)) && Evolves(s.core, AwaitTask(s, i).core)
  {
    var lives := Lives(s.core.slots) + [Life(true, s.lastId + 1, false, Awaited(s.core.slots[i].life.id), None)];
    assert lives[i].Alive() && lives[i].id == s.core.slots[i].life.id;
    AdoptKeeps(s, Awaited(s.core.slots[i].life.id));
  }

  lemma AdoptReadyKeeps(s: Sched, link: Link)
    requires SchedInv(s) && MayAdopt(s, link)
    ensures SchedInv(AdoptReady(s, link)) && Evolves(s.core, AdoptReady(s, link).core)
  {
    var i, a := NextSlot(s), Adopt(s, link, None);
    AdoptKeeps(s, link);
    ReadyKeeps(a, i);
    EvolvesTransitive(s.core, a.core, Ready(a, i).core);
  }

  ghost predicate MayJoin(s: Sched, join: nat) {
    join < |s.joins| && s.Alive(s.joins[join].parent)
  }

  lemma MayJoinAdopt(s: Sched, join: nat)
    requires SchedInv(s) && MayJoin(s, join)
    ensures MayAdopt(s, Joined(join)) && MayJoin(AdoptReady(s, Joined(join)), join)
  {
    AdoptShape(s, Joined(join), None);
    var parent, lives := s.joins[join].parent, Lives(s.core.slots);
    assert lives[parent].Alive() && lives[parent].id <= s.lastId;
  }

  lemma {:induction false} AdoptChildrenKeeps(s: Sched, join: nat, n: nat, r: Sched)
    requires SchedInv(s) && MayJoin(s, join) && r == AdoptChildren(s, join, n)
    ensures SchedInv(r) && Evolves(s.core, r.core)
    decreases n
  {
    hide SchedInv, Evolves, MayJoin, MayAdopt;
    if n == 0 {
      EvolvesRefl(s.core);
    } else {
      var t := AdoptReady(s, Joined(join));
      MayJoinAdopt(s, join);
      AdoptReadyKeeps(s, Joined(join));
      AdoptChildrenKeeps(t, join, n - 1, r);
      EvolvesTransitive(s.core, t.core, r.core);
    }
  }

  lemma NewJoinKeeps(s: Sched, join: Join)
    requires LifeInv(s)
    ensures LifeInv(s.(joins := s.joins + [join]))
  {
    var lives := Lives(s.core.slots);
    forall k | 0 <= k < |lives| && lives[k].Alive()
      ensures HasParent(lives, s.joins + [join], k)
    {
      assert HasParent(lives, s.joins, k);
    }
  }

  lemma StartJoinKeeps(s: Sched, parent: nat, n: nat)
    requires SchedInv(s) && s.Alive(parent)
    ensures SchedInv(StartJoin(s, parent, n)) && Evolves(s.core, StartJoin(s, parent, n).core)
  {
    var b := s.(core := BeginWait(s.core, parent, JoinWait));
    BeginKeeps(s, parent, JoinWait);
    var j := b.(joins := s.joins + [Join(n, parent)]);
    NewJoinKeeps(b, Join(n, parent));
    AdoptChildrenKeeps(j, |s.joins|, n, StartJoin(s, parent, n));
    EvolvesTransitive(s.core, b.core, StartJoin(s, parent, n).core);
  }

  lemma BeginKeeps(s: Sched, i: nat, reason: WaitReason)
    requires SchedInv(s) && s.Alive(i) && ReasonProgress(reason) == INTERNAL
    ensures var r := s.(core := BeginWait(s.core, i, reason));
      && SchedInv(r) && Evolves(s.core, r.core) && Lives(r.core.slots) == Lives(s.core.slots)
      && r.core.lastGen == s.core.lastGen + 1 && r.core.clock == s.core.clock
      && r.core.slots[i].waiting
  {
    hide WaitInv, Evolves, EvolvesBut, HasTimer, HasRegistrations, LifeInv, FlagsInv;
    SlotIsOk(s.core, i);
    BeginWaitShape(s.core, i, reason);
    BeginWaitKeeps(s.core, i, reason);
    BeginInternal(s.core, i, reason);
    CoreStep(s, BeginWait(s.core, i, reason));
  }

  /** A timeout enters a wait whose timer is armed only after its child has run. */
  lemma TimingFlags(c: Core, d: Core, frames: seq<Frame>, f: Frame)
    requires FlagsInv(c, frames) && f.Timing? && EvolvesBut(c, d, f.wait.slot) && f.wait.slot < |d.slots|
    requires d.slots[f.wait.slot].Token() == Some(f.wait.gen) && PendingOk(d, f.wait.slot)
    ensures FlagsInv(d, frames + [f])
  {
    hide Moves, FlagOk, QuietAt;
    var all := frames + [f];
    assert all[|frames|] == f;
    forall i | 0 <= i < |d.slots|
      ensures FlagAt(d, all, i)
    {
      if i != f.wait.slot {
        assert SettledAt(c, d, i) && (i < |c.slots| ==> FlagAt(c, frames, i));
        MoreFrames(c, d, frames, f, i);
      }
    }
  }

  lemma MoreFrames(c: Core, d: Core, frames: seq<Frame>, f: Frame, i: nat)
    requires i < |d.slots| && SettledAt(c, d, i) && (i < |c.slots| ==> FlagAt(c, frames, i))
    ensures FlagAt(d, frames + [f], i)
  {
    if i < |c.slots| && TimingFor(frames, i, c.slots[i].Token()) {
      var k :| 0 <= k < |frames| && frames[k].Timing? && frames[k].wait.slot == i
        && c.slots[i].Token() == Some(frames[k].wait.gen);
      assert (frames + [f])[k] == frames[k];
    }
  }

  lemma EnterTimeoutRun(s: Sched, parent: nat, timeout: nat)
    requires SchedInv(s) && s.Alive(parent) && s.draining && DelayAccepted(s.core.clock, timeout)
    ensures var core := BeginWait(s.core, parent, TimeoutWait);
      var t := s.(core := core, joins := s.joins + [Join(1, parent)],
                  frames := s.frames + [Timing(Reg(parent, core.lastGen, None), timeout)]);
      && RunInv(t) && WaitInv(core) && EvolvesBut(s.core, core, parent) && Lives(core.slots) == Lives(s.core.slots)
  {
    hide WaitInv, LifeInv, Moves, SettledAt, FlagAt, HasTimer, HasRegistrations;
    var core := BeginWait(s.core, parent, TimeoutWait);
    SlotIsOk(s.core, parent);
    BeginWaitShape(s.core, parent, TimeoutWait);
    BeginWaitKeeps(s.core, parent, TimeoutWait);
    var frame := Timing(Reg(parent, core.lastGen, None), timeout);
    TimingFlags(s.core, core, s.frames, frame);
    FramesStay(s.core, core, s.frames);
    assert (s.frames + [frame])[..|s.frames|] == s.frames;
  }

  lemma BeginTimeoutKeeps(s: Sched, parent: nat, timeout: nat)
    requires SchedInv(s) && s.Alive(parent) && s.draining && BeginTimeout(s, parent, timeout).Some?
    ensures var r := BeginTimeout(s, parent, timeout).value; SchedInv(r) && EvolvesBut(s.core, r.core, parent)
  {
    hide WaitInv, RunInv, EvolvesBut, Evolves;
    var core := BeginWait(s.core, parent, TimeoutWait);
    EnterTimeoutRun(s, parent, timeout);
    var b := s.(core := core);
    NewJoinKeeps(b, Join(1, parent));
    var j := s.(core := core, joins := s.joins + [Join(1, parent)],
                frames := s.frames + [Timing(Reg(parent, core.lastGen, None), timeout)]);
    assert Lives(j.core.slots)[parent].Alive();
    AdoptKeeps(j, Joined(|s.joins|));
    EvolvesIsBut(core, BeginTimeout(s, parent, timeout).value.core, parent);
    EvolvesButTransitive(s.core, core, BeginTimeout(s, parent, timeout).value.core, parent);
  }
}
