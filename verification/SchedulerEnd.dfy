/** How coroutines end: they finish or are cancelled, whoever waited for them is woken, and their slots
are reclaimed. */
module SchedulerEnd {
  import opened Registrations
  import opened WaitCore
  import opened SchedulerState
  import opened SchedulerLife
  import E = EdgeWaits
  import P = PhaseWaits
  import T = TimerQueue

  // ---------------------------------------------------------------------------------------------
  // The life of one coroutine ends
  // ---------------------------------------------------------------------------------------------

  /** Nobody alive will resume i. */
  ghost predicate Childless(lives: seq<Life>, joins: seq<Join>, i: nat)
    requires i < |lives|
  {
    forall k :: 0 <= k < |lives| && lives[k].Alive() ==> !Names(lives[k], lives[i], joins, i)
  }

  /** The coroutine is to resume the one in slot i, whose life is `parent`. */
  predicate Names(life: Life, parent: Life, joins: seq<Join>, i: nat) {
    match life.link
    case Root => false
    case Awaited(id) => parent.occupied && parent.id == id
    case Joined(join) => join < |joins| && joins[join].parent == i
  }

  function EndedPool(pool: Pool, i: nat, child: bool): Pool {
    if child then pool.(active := pool.active - 1, finished := pool.finished + [Some(i)])
    else pool.(active := pool.active - 1, finishedRoots := pool.finishedRoots + [i])
  }

  function EndedControls(controls: seq<Control>, control: Option<nat>, cancelled: bool): seq<Control> {
    if control.None? || control.value >= |controls| || controls[control.value].done then controls
    else
      controls[control.value := controls[control.value].(done := true, cancelled := cancelled, requested := false,
                                                        waiters := [])]
  }

  /** The life x of slot i once it has ended; its link may have been cut. */
  predicate Ends(life: Life, x: Life) {
    life.Alive() && x == life.(done := true, link := x.link) && (x.link == life.link || x.link == Root)
  }

  lemma {:induction false} LivingPositive(lives: seq<Life>, i: nat)
    requires i < |lives| && lives[i].Alive()
    ensures Living(lives) > 0
  {
    if i < |lives| - 1 {
      LivingPositive(lives[..|lives| - 1], i);
    }
  }

  lemma EndKeepsList(lives: seq<Life>, pool: Pool, i: nat, x: Life)
    requires ListInv(lives, pool) && i < |lives| && Ends(lives[i], x)
    requires lives[i].link != Root ==> lives[i].control.None?
    ensures ListInv(lives[i := x], EndedPool(pool, i, lives[i].link != Root))
  {
    var after, p := lives[i := x], EndedPool(pool, i, lives[i].link != Root);
    assert !Listed(pool, i);
    forall j: nat
      ensures Listed(p, j) <==> j < |after| && after[j].occupied && after[j].done
    {
      assert Listed(p, j) <==> Listed(pool, j) || j == i;
    }
  }

  lemma EndKeepsPool(lives: seq<Life>, pool: Pool, i: nat, x: Life)
    requires PoolInv(lives, pool) && i < |lives| && Ends(lives[i], x)
    requires lives[i].link != Root ==> lives[i].control.None?
    ensures PoolInv(lives[i := x], EndedPool(pool, i, lives[i].link != Root)) && pool.active > 0
  {
    EndKeepsList(lives, pool, i, x);
    LivingUpdate(lives, i, x);
    LivingPositive(lives, i);
  }

  lemma EndKeepsForest(lives: seq<Life>, joins: seq<Join>, lastId: nat, i: nat, x: Life)
    requires IdInv(lives, lastId) && ForestInv(lives, joins) && i < |lives| && Ends(lives[i], x)
    requires Childless(lives, joins, i)
    ensures IdInv(lives[i := x], lastId) && ForestInv(lives[i := x], joins)
  {
    var after := lives[i := x];
    forall k | 0 <= k < |after| && after[k].Alive()
      ensures HasParent(after, joins, k)
    {
      assert HasParent(lives, joins, k) && !Names(lives[k], lives[i], joins, i);
      if lives[k].link.Awaited? {
        var j :| 0 <= j < |lives| && lives[j].Alive() && lives[j].id == lives[k].link.parent;
        assert after[j] == lives[j];
      }
    }
  }

  lemma EndKeepsProcs(lives: seq<Life>, controls: seq<Control>, i: nat, x: Life, cancelled: bool)
    requires ProcInv(lives, controls) && i < |lives| && Ends(lives[i], x)
    ensures ProcInv(lives[i := x], EndedControls(controls, lives[i].control, cancelled))
  {
    var after, ended := lives[i := x], EndedControls(controls, lives[i].control, cancelled);
    assert lives[i].control.Some? ==> lives[i].link == Root;
    forall p | 0 <= p < |ended| && !ended[p].done
      ensures ended[p].attached && ended[p].slot < |after|
      ensures after[ended[p].slot].Alive() && after[ended[p].slot].control == Some(p)
    {
      assert ended[p] == controls[p];
    }
    forall k | 0 <= k < |after| && after[k].occupied && after[k].control.Some?
      ensures var p := after[k].control.value;
        && after[k].link == Root && p < |ended| && ended[p].slot == k && ended[p].attached
        && (after[k].done <==> ended[p].done)
    {
      assert lives[k].control == after[k].control;
    }
  }

  /** What ending the coroutine of slot i does to the scheduler, apart from the waits. */
  ghost predicate Ended(s: Sched, r: Sched, i: nat, x: Life, cancelled: bool)
    requires i < |s.core.slots|
  {
    && Lives(r.core.slots) == Lives(s.core.slots)[i := x]
    && r == s.(core := r.core, pool := EndedPool(s.pool, i, s.core.slots[i].life.link != Root),
               controls := EndedControls(s.controls, s.core.slots[i].life.control, cancelled))
    && r.core.queue.cursor == s.core.queue.cursor && r.core.clock == s.core.clock
    && |r.core.slots| == |s.core.slots| && r.core.lastGen >= s.core.lastGen
  }

  lemma EndedLife(s: Sched, r: Sched, i: nat, x: Life, cancelled: bool)
    requires LifeInv(s) && i < |s.core.slots| && Ends(s.core.slots[i].life, x)
    requires Childless(Lives(s.core.slots), s.joins, i) && Ended(s, r, i, x, cancelled)
    ensures LifeInv(r)
  {
    var lives := Lives(s.core.slots);
    EndKeepsPool(lives, s.pool, i, x);
    EndKeepsForest(lives, s.joins, s.lastId, i, x);
    EndKeepsProcs(lives, s.controls, i, x, cancelled);
  }

  lemma EndedRun(s: Sched, r: Sched, i: nat, x: Life, cancelled: bool)
    requires RunInv(s) && i < |s.core.slots| && Ended(s, r, i, x, cancelled) && Evolves(s.core, r.core)
    ensures RunInv(r)
  {
    hide Evolves, FlagsInv;
    FramesStay(s.core, r.core, s.frames);
    FlagsStay(s.core, r.core, s.frames);
    forall p, w | 0 <= p < |r.controls| && w in r.controls[p].waiters
      ensures 0 < w.gen <= r.core.lastGen
    {
      assert w in s.controls[p].waiters;
    }
  }

  lemma EndedKeeps(s: Sched, r: Sched, i: nat, x: Life, cancelled: bool)
    requires SchedInv(s) && i < |s.core.slots| && Ends(s.core.slots[i].life, x)
    requires Childless(Lives(s.core.slots), s.joins, i) && Ended(s, r, i, x, cancelled) && WaitInv(r.core)
    requires Evolves(s.core, r.core)
    ensures SchedInv(r)
  {
    hide Evolves, WaitInv, LifeInv, RunInv, Ended, Ends, Childless;
    EndedLife(s, r, i, x, cancelled);
    EndedRun(s, r, i, x, cancelled);
  }

  // ---------------------------------------------------------------------------------------------
  // What happens to its wait
  // ---------------------------------------------------------------------------------------------

  /** A coroutine that is neither waiting nor ready can be marked done. */
  lemma DoneKeeps(c: Core, i: nat, life: Life)
    requires WaitInv(c) && i < |c.slots| && !c.slots[i].waiting && !c.slots[i].ready && !life.Alive()
    ensures WaitInv(SetLife(c, i, life)) && Evolves(c, SetLife(c, i, life))
  {
    var d := SetLife(c, i, life);
    assert SlotOk(c.slots[i], c.lastGen);
    ReadyCountUpdate(c.slots, i, d.slots[i]);
    assert Waits(d.slots) == Waits(c.slots);
    EvolvesTables(c, d);
  }

  lemma {:induction false} LaterTables(c: Core, last: nat)
    requires TableInv(c) && last >= c.lastGen
    ensures TableInv(c.(lastGen := last))
  {
    assert forall k :: 0 <= k < |c.edges.queues| ==> Issued(c.edges.queues[k], |c.slots|, c.lastGen);
    assert forall p :: 0 <= p < P.PHASES ==> Issued(c.phases.queues[p], |c.slots|, c.lastGen);
  }

  lemma RegenerateKeeps(c: Core, i: nat)
    requires WaitInv(c) && i < |c.slots| && !c.slots[i].waiting
    ensures var d := Regenerate(c, i);
      && WaitInv(d) && Evolves(c, d) && d == c.(slots := d.slots, lastGen := c.lastGen + 1)
      && d.slots == c.slots[i := c.slots[i].(gen := c.lastGen + 1)]
  {
    var d := Regenerate(c, i);
    assert SlotOk(c.slots[i], c.lastGen);
    ReadyCountUpdate(c.slots, i, d.slots[i]);
    assert Waits(d.slots) == Waits(c.slots);
    LaterTables(c, c.lastGen + 1);
    EvolvesTables(c, d);
  }

  /** The wait is over: what `finish` and `cancel_state` do first. */
  lemma QuietKeeps(c: Core, i: nat)
    requires WaitInv(c) && i < |c.slots|
    ensures var d := StopReady(EndWait(c, i), i);
      && WaitInv(d) && Evolves(c, d) && !d.slots[i].waiting && !d.slots[i].ready
      && SameLife(c, d) && d.clock == c.clock && d.lastGen == c.lastGen && d.queue.cursor == c.queue.cursor
  {
    hide WaitInv, Evolves;
    var a := EndWait(c, i);
    EndWaitKeeps(c, i);
    ClearReadyKeeps(a, i);
    EvolvesTransitive(c, a, ClearReady(a, i));
  }

  lemma StopWaitingKeeps(c: Core, i: nat)
    requires WaitInv(c) && i < |c.slots|
    ensures var d := StopWaiting(c, i);
      && WaitInv(d) && Evolves(c, d) && !d.slots[i].waiting && !d.slots[i].ready
      && SameLife(c, d) && d.clock == c.clock && d.lastGen == c.lastGen + 1 && d.queue.cursor == c.queue.cursor
  {
    hide WaitInv, Evolves;
    var a := EndWait(c, i);
    EndWaitKeeps(c, i);
    var b := Regenerate(a, i);
    RegenerateKeeps(a, i);
    EvolvesTransitive(c, a, b);
    ClearReadyKeeps(b, i);
    EvolvesTransitive(c, b, ClearReady(b, i));
  }

  function CompletedCore(c: Core, controls: seq<Control>, control: Option<nat>): Core {
    if control.None? || control.value >= |controls| || controls[control.value].done then c
    else ResumeAll(c, controls[control.value].waiters)
  }

  lemma CompletedCoreKeeps(c: Core, controls: seq<Control>, control: Option<nat>)
    requires WaitInv(c)
    ensures var d := CompletedCore(c, controls, control);
      && WaitInv(d) && Evolves(c, d) && SameLife(c, d) && d.clock == c.clock && d.lastGen == c.lastGen
      && d.queue.cursor == c.queue.cursor
  {
    hide WaitInv, Evolves;
    EvolvesRefl(c);
    if control.Some? && control.value < |controls| && !controls[control.value].done {
      ResumeAllKeeps(c, controls[control.value].waiters);
    }
  }

  // ---------------------------------------------------------------------------------------------
  // finish and cancel_state
  // ---------------------------------------------------------------------------------------------

  /** `finish`, taken apart. */
  lemma FinishIs(s: Sched, i: nat)
    requires LifeInv(s) && s.Alive(i)
    ensures var life := s.core.slots[i].life; var x := life.(done := true);
      var c := SetLife(StopReady(EndWait(s.core, i), i), i, x);
      Finish(s, i) == s.(core := CompletedCore(c, s.controls, life.control),
                         pool := EndedPool(s.pool, i, life.link != Root),
                         controls := EndedControls(s.controls, life.control, false))
  {
    LivingPositive(Lives(s.core.slots), i);
    var life := s.core.slots[i].life;
    assert Lives(s.core.slots)[i].control.Some? ==> life.link == Root;
  }

  lemma FinishEnded(s: Sched, i: nat)
    requires WaitInv(s.core) && LifeInv(s) && s.Alive(i)
    ensures var r := Finish(s, i);
      && Ended(s, r, i, s.core.slots[i].life.(done := true), false)
      && WaitInv(r.core) && Evolves(s.core, r.core)
  {
    hide WaitInv, Evolves;
    FinishIs(s, i);
    var life := s.core.slots[i].life;
    var x := life.(done := true);
    var a := StopReady(EndWait(s.core, i), i);
    QuietKeeps(s.core, i);
    var b := SetLife(a, i, x);
    DoneKeeps(a, i, x);
    EvolvesTransitive(s.core, a, b);
    var d := CompletedCore(b, s.controls, life.control);
    CompletedCoreKeeps(b, s.controls, life.control);
    EvolvesTransitive(s.core, b, d);
    assert Lives(d.slots) == Lives(s.core.slots)[i := x];
  }

  /** A coroutine that finishes must have no living child: the language resumes it only when the
      children it started are done or cancelled. */
  lemma FinishKeeps(s: Sched, i: nat)
    requires SchedInv(s) && s.Alive(i) && Childless(Lives(s.core.slots), s.joins, i)
    ensures SchedInv(Finish(s, i)) && Evolves(s.core, Finish(s, i).core)
  {
    hide WaitInv, Evolves, Childless, Ended;
    FinishEnded(s, i);
    EndedKeeps(s, Finish(s, i), i, s.core.slots[i].life.(done := true), false);
  }

  /** `cancel_state` after the children, taken apart. */
  lemma CancelOneIs(s: Sched, i: nat)
    requires LifeInv(s) && s.Alive(i)
    ensures var life := s.core.slots[i].life; var x := life.(done := true, link := Root);
      var c := SetLife(StopWaiting(s.core, i), i, x);
      CancelOne(s, i) == s.(core := CompletedCore(c, s.controls, life.control),
                            pool := EndedPool(s.pool, i, life.link != Root),
                            controls := EndedControls(s.controls, life.control, true))
  {
    LivingPositive(Lives(s.core.slots), i);
    var life, a := s.core.slots[i].life, StopWaiting(s.core, i);
    var b := SetLife(a, i, life.(done := true));
    var c := SetLife(a, i, life.(done := true, link := Root));
    assert SetLife(b, i, life.(done := true, link := Root)) == c by {
      assert b.slots[i := c.slots[i]] == c.slots;
    }
    var marked := MarkDone(s.(core := a), i);
    assert marked == s.(core := b, pool := s.pool.(active := s.pool.active - 1));
    assert Unlink(marked, i) == marked.(core := c);
  }

  lemma CancelOneEnded(s: Sched, i: nat)
    requires WaitInv(s.core) && LifeInv(s) && s.Alive(i)
    ensures var r := CancelOne(s, i);
      && Ended(s, r, i, s.core.slots[i].life.(done := true, link := Root), true)
      && WaitInv(r.core) && Evolves(s.core, r.core)
  {
    hide WaitInv, Evolves;
    CancelOneIs(s, i);
    var life := s.core.slots[i].life;
    var x := life.(done := true, link := Root);
    var a := StopWaiting(s.core, i);
    StopWaitingKeeps(s.core, i);
    var b := SetLife(a, i, x);
    DoneKeeps(a, i, x);
    EvolvesTransitive(s.core, a, b);
    var d := CompletedCore(b, s.controls, life.control);
    CompletedCoreKeeps(b, s.controls, life.control);
    EvolvesTransitive(s.core, b, d);
    assert Lives(d.slots) == Lives(s.core.slots)[i := x];
  }

  lemma CancelOneKeeps(s: Sched, i: nat)
    requires SchedInv(s) && s.Alive(i) && Childless(Lives(s.core.slots), s.joins, i)
    ensures SchedInv(CancelOne(s, i)) && Evolves(s.core, CancelOne(s, i).core)
    ensures Ended(s, CancelOne(s, i), i, s.core.slots[i].life.(done := true, link := Root), true)
  {
    hide WaitInv, Evolves, Childless, Ended;
    CancelOneEnded(s, i);
    EndedKeeps(s, CancelOne(s, i), i, s.core.slots[i].life.(done := true, link := Root), true);
  }
}
