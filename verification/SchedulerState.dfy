/** The scheduler as a value: its whole state, and every operation as a function on it.

A coroutine body is user code. Each operation that resumes one is cut at the resume, and what runs
in between is recorded on `frames`: whoever is on top of the stack may call back into the scheduler
any number of times before it returns. */
module SchedulerState {
  import opened Registrations
  import opened WaitCore
  import E = EdgeWaits
  import P = PhaseWaits
  import T = TimerQueue

  /** `ProcessControl`. The inline completion waiter and the extra ones form one list; `attached` is
      false once the process has been reclaimed. */
  datatype Control = Control(
    slot: nat, attached: bool, done: bool, cancelled: bool, requested: bool, waiters: seq<Reg>)

  /** `JoinState` */
  datatype Join = Join(remaining: nat, parent: nat)

  /** A resume that has not returned. */
  datatype Frame = Drained(slot: nat) | Inline(slot: nat, control: nat) | Timing(wait: Reg, timeout: nat)

  /** Vacant slots, slots waiting to be reclaimed, and the number of living coroutines. */
  datatype Pool = Pool(free: seq<nat>, finished: seq<Option<nat>>, finishedRoots: seq<nat>, active: int)

  datatype Sched = Sched(
    core: Core, lastId: nat, draining: bool, frames: seq<Frame>, pool: Pool,
    controls: seq<Control>, cancels: seq<nat>, joins: seq<Join>)
  {
    predicate Alive(i: nat) {
      i < |core.slots| && core.slots[i].Alive()
    }
  }

  function SetLife(c: Core, i: nat, life: Life): Core
    requires i < |c.slots|
  {
    c.(slots := c.slots[i := c.slots[i].(life := life)])
  }

  // ---------------------------------------------------------------------------------------------
  // Coroutines
  // ---------------------------------------------------------------------------------------------

  /** The slot `adopt` will use. */
  function NextSlot(s: Sched): nat {
    if s.pool.free == [] then |s.core.slots| else s.pool.free[|s.pool.free| - 1]
  }

  /** A slot more, at the end, occupied by the coroutine. */
  function AppendSlot(c: Core, life: Life): Core {
    c.(slots := c.slots + [VACANT.(life := life)],
       edges := c.edges.(waits := c.edges.waits + [0], fallingWaits := c.edges.fallingWaits + [0],
                         indices := c.edges.indices + [[]]),
       phases := c.phases.(waits := c.phases.waits + [[0, 0, 0]]))
  }

  function FillSlot(c: Core, i: nat, life: Life): Core {
    if i < |c.slots| then c.(slots := c.slots[i := VACANT.(life := life)]) else c
  }

  /** The last free slot, or else a new one, is occupied. */
  function TakeSlot(c: Core, free: seq<nat>, life: Life): Core {
    if free == [] then AppendSlot(c, life) else FillSlot(c, free[|free| - 1], life)
  }

  /** `adopt` */
  function Adopt(s: Sched, link: Link, control: Option<nat>): Sched {
    var life := Life(true, s.lastId + 1, false, link, control);
    var free := s.pool.free;
    var pool := s.pool.(active := s.pool.active + 1, free := if free == [] then [] else free[..|free| - 1]);
    s.(lastId := s.lastId + 1, pool := pool, core := TakeSlot(s.core, free, life))
  }

  function Ready(s: Sched, i: nat): Sched {
    s.(core := MakeReady(s.core, i))
  }

  /** `drain_ready` up to its loop; while a drain is under way it does nothing. */
  function DrainReady(s: Sched): Sched {
    if s.draining then s
    else s.(draining := true, core := s.core.(queue := s.core.queue.(cursor := 0)))
  }

  /** `spawn` and `spawn_owned`, up to the drain. */
  function Spawn(s: Sched): Sched {
    var i := NextSlot(s);
    var s := Adopt(s, Root, Some(|s.controls|));
    DrainReady(Ready(s.(controls := s.controls + [Control(i, true, false, false, false, [])]), i))
  }

  /** `spawn_detached` */
  function SpawnDetached(s: Sched): Sched {
    DrainReady(AdoptReady(s, Root))
  }

  /** Awaiting a task adopts it; control passes to it directly, without a wait. */
  function AwaitTask(s: Sched, i: nat): Sched
    requires i < |s.core.slots|
  {
    Adopt(s, Awaited(s.core.slots[i].life.id), None)
  }

  function AdoptReady(s: Sched, link: Link): Sched {
    Ready(Adopt(s, link, None), NextSlot(s))
  }

  function AdoptChildren(s: Sched, join: nat, n: nat): Sched
    decreases n
  {
    if n == 0 then s else AdoptChildren(AdoptReady(s, Joined(join)), join, n - 1)
  }

  /** `start_join` */
  function StartJoin(s: Sched, parent: nat, n: nat): Sched {
    AdoptChildren(s.(core := BeginWait(s.core, parent, JoinWait), joins := s.joins + [Join(n, parent)]), |s.joins|, n)
  }

  /** `start_timeout` up to the resume of the child; `None` when the delay is rejected. */
  function BeginTimeout(s: Sched, parent: nat, timeout: nat): Option<Sched> {
    if !DelayAccepted(s.core.clock, timeout) then None
    else
      var core := BeginWait(s.core, parent, TimeoutWait);
      var wait := Reg(parent, core.lastGen, None);
      Some(Adopt(s.(core := core, joins := s.joins + [Join(1, parent)], frames := s.frames + [Timing(wait, timeout)]),
                 Joined(|s.joins|), None))
  }

  /** `start_timeout` after the child has given up control. */
  function EndTimeout(s: Sched): Option<Sched>
    requires s.frames != [] && s.frames[|s.frames| - 1].Timing?
  {
    var frame := s.frames[|s.frames| - 1];
    var s := s.(frames := s.frames[..|s.frames| - 1]);
    if !ValidReg(s.core, frame.wait) then Some(s)
    else
      match RegisterWait(s.core, After(frame.timeout), frame.wait)
      case None => None
      case Some(core) => Some(s.(core := core))
  }

  /** `park_process`: `None` when the process is already done and nothing needs to wait. */
  function ParkProcess(s: Sched, i: nat, p: nat): Option<Sched>
    requires p < |s.controls|
  {
    if s.controls[p].done then None
    else
      var core := BeginWait(s.core, i, ProcessWait);
      var control := s.controls[p].(waiters := s.controls[p].waiters + [Reg(i, core.lastGen, None)]);
      Some(s.(core := core, controls := s.controls[p := control]))
  }

  /** `complete_process` */
  function CompleteProcess(s: Sched, p: nat, cancelled: bool): Sched {
    if p >= |s.controls| || s.controls[p].done then s
    else
      var control := s.controls[p].(done := true, cancelled := cancelled, requested := false, waiters := []);
      s.(core := ResumeAll(s.core, s.controls[p].waiters), controls := s.controls[p := control])
  }

  function MarkDone(s: Sched, i: nat): Sched
    requires i < |s.core.slots|
  {
    s.(core := SetLife(s.core, i, s.core.slots[i].life.(done := true)),
       pool := s.pool.(active := if s.pool.active != 0 then s.pool.active - 1 else 0))
  }

  function ListDone(s: Sched, i: nat, child: bool): Sched {
    if child then s.(pool := s.pool.(finished := s.pool.finished + [Some(i)]))
    else s.(pool := s.pool.(finishedRoots := s.pool.finishedRoots + [i]))
  }

  /** The process that runs in slot i, if any, completes. */
  function Completed(s: Sched, i: nat, cancelled: bool): Sched
    requires i < |s.core.slots|
  {
    var control := s.core.slots[i].life.control;
    if control.Some? then CompleteProcess(s, control.value, cancelled) else s
  }

  /** `finish` */
  function Finish(s: Sched, i: nat): Sched
    requires i < |s.core.slots|
  {
    var child := s.core.slots[i].life.link != Root;
    var s := s.(core := EndWait(s.core, i));
    var s := MarkDone(s.(core := StopReady(s.core, i)), i);
    ListDone(if child then s else Completed(s, i, false), i, child)
  }

  /** `clear_ready`, with what it leaves alone. */
  function StopReady(c: Core, i: nat): (d: Core)
    ensures SameLife(c, d) && d.timers == c.timers
  {
    ClearReady(c, i)
  }

  /** `finish_join_child` */
  function FinishJoinChild(s: Sched, join: nat): Sched {
    if join >= |s.joins| || s.joins[join].remaining == 0 then s
    else
      var j := s.joins[join].(remaining := s.joins[join].remaining - 1);
      var s := s.(joins := s.joins[join := j]);
      if j.remaining != 0 || j.parent >= |s.core.slots| then s
      else if s.core.slots[j.parent].life.done || !s.core.slots[j.parent].waiting then s
      else s.(core := MakeReady(EndWait(s.core, j.parent), j.parent))
  }

  /** The final suspension of a coroutine. */
  function FinalSuspend(s: Sched, i: nat): Sched
    requires i < |s.core.slots|
  {
    var link := s.core.slots[i].life.link;
    var s := Finish(s, i);
    match link case Joined(join) => FinishJoinChild(s, join) case _ => s
  }

  // ---------------------------------------------------------------------------------------------
  // Cancellation
  // ---------------------------------------------------------------------------------------------

  function Handle(life: Life): Option<nat> {
    if life.occupied then Some(life.id) else None
  }

  function Continuation(life: Life): Option<nat> {
    match life.link case Awaited(parent) => Some(parent) case _ => None
  }

  /** Whether `cancel_state(i)` takes k to be a child of i. The continuation is compared by address,
      and a missing continuation equals a missing frame. */
  predicate ChildOf(slots: seq<Slot>, joins: seq<Join>, k: nat, i: nat)
    requires k < |slots| && i < |slots|
  {
    var life := slots[k].life;
    && k != i && life.Alive()
    && (|| Continuation(life) == Handle(slots[i].life)
        || (life.link.Joined? && life.link.join < |joins| && joins[life.link.join].parent == i))
  }

  function ChildrenUpTo(slots: seq<Slot>, joins: seq<Join>, i: nat, n: nat): (r: seq<nat>)
    requires i < |slots| && n <= |slots|
    ensures forall k: nat :: k in r <==> k < n && ChildOf(slots, joins, k, i)
  {
    if n == 0 then []
    else ChildrenUpTo(slots, joins, i, n - 1) + (if ChildOf(slots, joins, n - 1, i) then [n - 1] else [])
  }

  /** Links lead from younger coroutines to older ones. */
  ghost predicate LinkDown(slots: seq<Slot>, joins: seq<Join>, lastId: nat, k: nat)
    requires k < |slots|
  {
    var life := slots[k].life;
    && (life.occupied ==> life.id <= lastId)
    && (life.Alive() && life.link.Awaited? ==> life.link.parent < life.id)
    && (life.Alive() && life.link.Joined? ==>
          && life.link.join < |joins|
          && joins[life.link.join].parent < |slots|
          && slots[joins[life.link.join].parent].life.occupied
          && slots[joins[life.link.join].parent].life.id < life.id)
  }

  ghost predicate Linked(s: Sched) {
    forall k :: 0 <= k < |s.core.slots| ==> LinkDown(s.core.slots, s.joins, s.lastId, k)
  }

  ghost function Rank(s: Sched, i: nat): nat
    requires Linked(s) && i < |s.core.slots|
  {
    assert LinkDown(s.core.slots, s.joins, s.lastId, i);
    if s.core.slots[i].life.occupied then s.lastId - s.core.slots[i].life.id else s.lastId + 1
  }

  ghost predicate LifeKept(a: Life, b: Life) {
    && b.occupied == a.occupied && b.id == a.id && b.control == a.control
    && (b.link == a.link || b.link == Root) && (a.done ==> b.done)
  }

  /** What finishing and cancelling leave alone. */
  ghost predicate SameShape(s: Sched, r: Sched) {
    && |r.core.slots| == |s.core.slots| && r.lastId == s.lastId && r.joins == s.joins
    && forall i :: 0 <= i < |s.core.slots| ==> LifeKept(s.core.slots[i].life, r.core.slots[i].life)
  }

  lemma ShapeKeepsLinked(s: Sched, r: Sched)
    requires Linked(s) && SameShape(s, r)
    ensures Linked(r) && forall i :: 0 <= i < |s.core.slots| ==> Rank(r, i) == Rank(s, i)
  {
    forall k | 0 <= k < |s.core.slots|
      ensures LinkDown(r.core.slots, r.joins, r.lastId, k)
    {
      assert LinkDown(s.core.slots, s.joins, s.lastId, k);
      assert LifeKept(s.core.slots[k].life, r.core.slots[k].life);
      var link := s.core.slots[k].life.link;
      if s.core.slots[k].Alive() && link.Joined? {
        assert LifeKept(s.core.slots[s.joins[link.join].parent].life, r.core.slots[s.joins[link.join].parent].life);
      }
    }
  }

  lemma ShapeTransitive(a: Sched, b: Sched, c: Sched)
    requires SameShape(a, b) && SameShape(b, c)
    ensures SameShape(a, c)
  {
    forall i | 0 <= i < |a.core.slots|
      ensures LifeKept(a.core.slots[i].life, c.core.slots[i].life)
    {
      assert LifeKept(a.core.slots[i].life, b.core.slots[i].life)
        && LifeKept(b.core.slots[i].life, c.core.slots[i].life);
    }
  }

  ghost predicate AllYounger(s: Sched, ks: seq<nat>, i: nat)
    requires Linked(s) && i < |s.core.slots|
  {
    forall k :: k in ks ==> k < |s.core.slots| && Rank(s, k) < Rank(s, i)
  }

  lemma ChildrenYounger(s: Sched, i: nat)
    requires Linked(s) && i < |s.core.slots|
    ensures AllYounger(s, ChildrenUpTo(s.core.slots, s.joins, i, |s.core.slots|), i)
  {
    forall k | k in ChildrenUpTo(s.core.slots, s.joins, i, |s.core.slots|)
      ensures k < |s.core.slots| && Rank(s, k) < Rank(s, i)
    {
      assert LinkDown(s.core.slots, s.joins, s.lastId, k) && LinkDown(s.core.slots, s.joins, s.lastId, i);
    }
  }

  lemma YoungerHead(s: Sched, ks: seq<nat>, i: nat)
    requires Linked(s) && i < |s.core.slots| && AllYounger(s, ks, i) && ks != []
    ensures ks[0] < |s.core.slots| && Rank(s, ks[0]) < Rank(s, i)
  {
    assert ks[0] in ks;
  }

  lemma YoungerTail(s: Sched, t: Sched, ks: seq<nat>, i: nat)
    requires Linked(s) && i < |s.core.slots| && AllYounger(s, ks, i) && ks != [] && SameShape(s, t)
    ensures Linked(t) && Rank(t, i) == Rank(s, i) && AllYounger(t, ks[1..], i)
  {
    ShapeKeepsLinked(s, t);
    forall k | k in ks[1..]
      ensures k < |t.core.slots| && Rank(t, k) < Rank(t, i)
    {
      assert k in ks;
    }
  }

  function Regenerate(c: Core, i: nat): Core
    requires i < |c.slots|
  {
    c.(slots := c.slots[i := c.slots[i].(gen := c.lastGen + 1)], lastGen := c.lastGen + 1)
  }

  function Unlink(s: Sched, i: nat): Sched
    requires i < |s.core.slots|
  {
    var life := s.core.slots[i].life;
    if life.occupied then s.(core := SetLife(s.core, i, life.(link := Root))) else s
  }

  /** The end of the wait of a coroutine that is being cancelled, under a generation of its own. */
  function StopWaiting(c: Core, i: nat): (d: Core)
    requires i < |c.slots|
    ensures SameLife(c, d)
  {
    StopReady(Regenerate(EndWait(c, i), i), i)
  }

  /** The part of `cancel_state` after the children. */
  function CancelOne(s: Sched, i: nat): (r: Sched)
    requires i < |s.core.slots|
    ensures SameShape(s, r)
  {
    var child := s.core.slots[i].life.link != Root;
    var stopped := s.(core := StopWaiting(s.core, i));
    CutDone(stopped, i);
    ListDone(Completed(Unlink(MarkDone(stopped, i), i), i, true), i, child)
  }

  lemma CutDone(s: Sched, i: nat)
    requires i < |s.core.slots|
    ensures SameShape(s, Unlink(MarkDone(s, i), i))
  {
  }

  /** `cancel_state`: the children first, then the coroutine itself. */
  function CancelState(s: Sched, i: nat): (r: Sched)
    requires Linked(s) && i < |s.core.slots|
    ensures SameShape(s, r)
    decreases Rank(s, i), 1, 0
  {
    if s.core.slots[i].life.done then s
    else
      ChildrenYounger(s, i);
      var t := CancelEach(s, ChildrenUpTo(s.core.slots, s.joins, i, |s.core.slots|), i);
      var r := CancelOne(t, i);
      ShapeTransitive(s, t, r);
      r
  }

  function CancelEach(s: Sched, ks: seq<nat>, i: nat): (r: Sched)
    requires Linked(s) && i < |s.core.slots| && AllYounger(s, ks, i)
    ensures SameShape(s, r)
    decreases Rank(s, i), 0, |ks|
  {
    if ks == [] then s
    else
      YoungerHead(s, ks, i);
      var t := CancelState(s, ks[0]);
      YoungerTail(s, t, ks, i);
      var r := CancelEach(t, ks[1..], i);
      ShapeTransitive(s, t, r);
      r
  }

  function CancelIfSlot(s: Sched, i: nat): (r: Sched)
    requires Linked(s)
    ensures SameShape(s, r)
  {
    if i < |s.core.slots| then CancelState(s, i) else s
  }

  function MarkSchedule(s: Sched): Sched {
    s.(core := ScheduleChanged(s.core))
  }

  /** `cancel_process` */
  function CancelProcess(s: Sched, p: nat): Sched
    requires Linked(s)
  {
    if p >= |s.controls| || !s.controls[p].attached || s.controls[p].done then s
    else
      var requested := s.(controls := s.controls[p := s.controls[p].(requested := true)]);
      if s.draining then
        if s.controls[p].requested then s else requested.(cancels := s.cancels + [p])
      else
        assert SameShape(s, requested);
        ShapeKeepsLinked(s, requested);
        DrainReady(MarkSchedule(CancelIfSlot(requested, s.controls[p].slot)))
  }

  function CancelRequested(s: Sched, p: nat): (r: Sched)
    requires Linked(s)
    ensures SameShape(s, r)
  {
    if p >= |s.controls| || !s.controls[p].attached || s.controls[p].done then s
    else MarkSchedule(CancelIfSlot(s, s.controls[p].slot))
  }

  function CancelRequests(s: Sched, ps: seq<nat>): (r: Sched)
    requires Linked(s)
    ensures SameShape(s, r)
    decreases |ps|
  {
    if ps == [] then s
    else
      var t := CancelRequested(s, ps[0]);
      ShapeKeepsLinked(s, t);
      var r := CancelRequests(t, ps[1..]);
      ShapeTransitive(s, t, r);
      r
  }

  /** `apply_pending_cancellations` */
  function ApplyPending(s: Sched): (r: Sched)
    requires Linked(s)
    ensures SameShape(s, r)
  {
    CancelRequests(s, s.cancels).(cancels := [])
  }

  /** `cancel_awaited` */
  function CancelAwaited(s: Sched, i: nat): Sched
    requires Linked(s) && i < |s.core.slots|
  {
    if s.core.slots[i].life.done then s else MarkSchedule(CancelState(s, i))
  }

  // ---------------------------------------------------------------------------------------------
  // Reclaiming
  // ---------------------------------------------------------------------------------------------

  /** `reclaim_finished_state` */
  function Reclaim(s: Sched, i: nat): Sched {
    if i >= |s.core.slots| || !s.core.slots[i].life.occupied || !s.core.slots[i].life.done then s
    else
      var control := s.core.slots[i].life.control;
      var s := s.(core := s.core.(slots := s.core.slots[i := VACANT]), pool := s.pool.(free := s.pool.free + [i]));
      if control.Some? && control.value < |s.controls| then
        s.(controls := s.controls[control.value := s.controls[control.value].(attached := false)])
      else s
  }

  function ReclaimRoots(s: Sched, listed: seq<nat>): Sched
    decreases |listed|
  {
    if listed == [] then s else ReclaimRoots(Reclaim(s, listed[0]), listed[1..])
  }

  /** `collect_finished_roots` */
  function CollectRoots(s: Sched): Sched {
    var r := ReclaimRoots(s, s.pool.finishedRoots);
    r.(pool := r.pool.(finishedRoots := []))
  }

  function ReclaimChildren(s: Sched, listed: seq<Option<nat>>): Sched
    decreases |listed|
  {
    if listed == [] then s else ReclaimChildren(if listed[0].Some? then Reclaim(s, listed[0].value) else s, listed[1..])
  }

  /** `collect_finished_states` */
  function CollectFinished(s: Sched): Sched {
    var r := ReclaimChildren(s, s.pool.finished);
    r.(pool := r.pool.(finished := []))
  }

  /** `scheduler_boundary` */
  function Boundary(s: Sched): Sched {
    var s := CollectFinished(CollectRoots(s));
    s.(core := s.core.(edges := E.Compact(s.core.edges, Waits(s.core.slots))))
  }

  function Forget(finished: seq<Option<nat>>, i: nat): seq<Option<nat>> {
    if finished == [] then []
    else if finished[0] == Some(i) then [None] + finished[1..]
    else [finished[0]] + Forget(finished[1..], i)
  }

  /** `reclaim_awaited`; `None` when it aborts because the task is not complete. */
  function ReclaimAwaited(s: Sched, i: nat): Option<Sched>
    requires i < |s.core.slots|
  {
    if !s.core.slots[i].life.occupied || !s.core.slots[i].life.done then None
    else
      var finished := s.pool.finished;
      var n := |finished|;
      var finished := if n > 0 && finished[n - 1] == Some(i) then finished[..n - 1] else Forget(finished, i);
      Some(s.(core := s.core.(slots := s.core.slots[i := VACANT]),
              pool := s.pool.(finished := finished, free := s.pool.free + [i])))
  }

  // ---------------------------------------------------------------------------------------------
  // The ready queue
  // ---------------------------------------------------------------------------------------------

  const COMPACT_AFTER: nat := 1024

  function TakeEntry(q: ReadyQueue): ReadyQueue
    requires q.cursor < |q.entries|
  {
    var cursor := q.cursor + 1;
    if cursor >= COMPACT_AFTER && cursor * 2 >= |q.entries| then q.(entries := q.entries[cursor..], cursor := 0)
    else q.(cursor := cursor)
  }

  /** One turn of `drain_ready_queue` up to the resume. */
  function PopReady(s: Sched): Sched
    requires s.core.queue.cursor < |s.core.queue.entries|
  {
    var i := s.core.queue.entries[s.core.queue.cursor];
    var s := s.(core := s.core.(queue := TakeEntry(s.core.queue)));
    if i >= |s.core.slots| || !s.core.slots[i].Alive() || !s.core.slots[i].ready then s
    else s.(core := ClearReady(s.core, i), frames := s.frames + [Drained(i)])
  }

  /** The rest of the turn, after the coroutine has given up control. */
  function EndResume(s: Sched): Sched
    requires Linked(s) && s.frames != []
  {
    var popped := s.(frames := s.frames[..|s.frames| - 1]);
    assert SameShape(s, popped);
    ShapeKeepsLinked(s, popped);
    CollectRoots(ApplyPending(popped))
  }

  /** The end of `drain_ready`. */
  function EndDrain(s: Sched): Sched {
    var queue := s.core.queue.(entries := [], cursor := 0);
    Boundary(s.(core := s.core.(queue := queue), draining := false))
  }

  const MAX_INLINE_DEPTH: nat := 64

  function InlineDepth(frames: seq<Frame>): nat {
    if frames == [] then 0
    else InlineDepth(frames[..|frames| - 1]) + if frames[|frames| - 1].Inline? then 1 else 0
  }

  /** Whether `run_process_if_only_ready` runs the process. */
  predicate CanRunInline(s: Sched, p: nat) {
    && s.draining && p < |s.controls| && s.controls[p].attached && !s.controls[p].done
    && s.controls[p].slot < |s.core.slots|
    && InlineDepth(s.frames) < MAX_INLINE_DEPTH
    && s.core.slots[s.controls[p].slot].Alive() && s.core.slots[s.controls[p].slot].ready
    && s.core.queue.live == 1
  }

  /** `run_process_if_only_ready` up to the resume: what is left of the ready queue is dropped. */
  function BeginInline(s: Sched, p: nat): Sched
    requires CanRunInline(s, p) && s.core.queue.cursor <= |s.core.queue.entries|
  {
    var i, queue := s.controls[p].slot, s.core.queue;
    var core := s.core.(queue := queue.(entries := queue.entries[..queue.cursor]));
    s.(core := ClearReady(core, i), frames := s.frames + [Inline(i, p)])
  }

  /** The rest of it, after the process has given up control. */
  function EndInline(s: Sched): Sched
    requires s.frames != []
  {
    CollectRoots(s.(frames := s.frames[..|s.frames| - 1]))
  }

  // ---------------------------------------------------------------------------------------------
  // The simulator
  // ---------------------------------------------------------------------------------------------

  /** What follows a delivery: a drain if somebody was woken. */
  function AfterDelivery(s: Sched, delivered: (Core, bool)): Sched {
    var s := s.(core := delivered.0);
    if delivered.1 then DrainReady(s) else Boundary(s)
  }

  /** `resume_edge` */
  function ResumeEdge(s: Sched, signal: nat, edge: E.EdgeKind): Sched {
    AfterDelivery(s, DeliverEdge(s.core, signal, edge))
  }

  /** `advance_time`; it returns at once when the cached timer is not due. */
  function AdvanceTime(s: Sched, time: nat): Sched {
    var next := s.core.timers.next;
    if next.None? || next.value.deadline > time then s.(core := DeliverTime(s.core, time).0)
    else AfterDelivery(s, DeliverTime(s.core, time))
  }

  /** `resume_phase` */
  function ResumePhase(s: Sched, phase: P.Phase): Sched {
    AfterDelivery(s, DeliverPhase(s.core, phase))
  }

  /** `consume_timer_schedule_changed`, followed by `next_timer_deadline` when the schedule did
      change: how the simulator side reads the schedule. */
  function PollTimer(c: Core): (Core, Option<nat>) {
    if !c.timers.changed then (c, None)
    else
      var timers := c.timers.(changed := false);
      (c.(timers := T.Discard(timers, Waits(c.slots))), Some(T.NextDeadline(timers, Waits(c.slots))))
  }

  // ---------------------------------------------------------------------------------------------
  // The wait graph
  // ---------------------------------------------------------------------------------------------

  datatype Status = Complete | Runnable | WaitingForTime | WaitingForSimulator | Deadlocked

  /** `current_state_index_`: the slot whose resume is innermost; a timeout's child runs under its
      parent's. */
  function Running(frames: seq<Frame>): Option<nat> {
    if frames == [] then None
    else if frames[|frames| - 1].Timing? then Running(frames[..|frames| - 1])
    else Some(frames[|frames| - 1].slot)
  }

  /** Whether i depends on k in the graph: k names i as its join parent, or continues into it. */
  predicate GraphChild(s: Sched, k: nat, i: nat) {
    && s.Alive(k) && s.Alive(i)
    && match s.core.slots[k].life.link
       case Root => false
       case Awaited(parent) => s.core.slots[i].life.id == parent
       case Joined(join) => join < |s.joins| && s.joins[join].parent == i
  }

  predicate AnyRunnable(s: Sched) {
    exists i :: 0 <= i < |s.core.slots| && s.Alive(i)
                && (forall k :: 0 <= k < |s.core.slots| ==> !GraphChild(s, k, i))
                && (s.core.slots[i].ready || Running(s.frames) == Some(i))
  }

  /** `wait_graph().status`, over all processes. */
  function GraphStatus(s: Sched): Status {
    if forall i :: 0 <= i < |s.core.slots| ==> !s.Alive(i) then Complete
    else if AnyRunnable(s) then Runnable
    else if exists i :: 0 <= i < |s.core.slots| && s.Alive(i) && s.core.slots[i].progress.time then WaitingForTime
    else if exists i :: 0 <= i < |s.core.slots| && s.Alive(i) && s.core.slots[i].progress.simulator
      then WaitingForSimulator
    else Deadlocked
  }
}
