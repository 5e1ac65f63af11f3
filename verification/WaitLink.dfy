/** What `Queue`, `Semaphore` and `Lock` are told about a wait is what the scheduler's slots and generations say.

The primitives see a list of statuses, one for each wait they ever began; the scheduler sees registrations. */
module WaitLink {
  import opened Registrations
  import opened WaitCore
  import opened SchedulerState
  import opened SchedulerLife
  import opened SchedulerRun
  import opened Cancellation
  import opened SchedulerRuns
  import opened ParkedWaits
  import X = ExternalWaits

  /** The status of a wait, as far as the scheduler can tell: a coroutine that has been resumed looks as one that
      is about to be. */
  function StatusOf(c: Core, r: Reg): X.Status {
    if ValidReg(c, r) then X.Parked else if AliveReg(c, r) then X.Woken else X.Gone
  }

  /** The registrations of the waits, no two under one generation. */
  ghost predicate Separate(regs: seq<Reg>) {
    forall v, w :: 0 <= v < w < |regs| ==> regs[v].gen != regs[w].gen
  }

  /** The statuses are those of the registrations, but for the waits whose coroutine has gone on. */
  ghost predicate Shows(c: Core, regs: seq<Reg>, world: X.World) {
    && |regs| == |world| && Separate(regs)
    && forall w :: 0 <= w < |world| && !world[w].Resumed? ==> world[w] == StatusOf(c, regs[w])
  }

  /** `external_wait_alive` is the status the primitives sweep by, and `external_wait_valid` that of a parked one. */
  lemma AliveExact(c: Core, regs: seq<Reg>, world: X.World, w: nat)
    requires Shows(c, regs, world) && w < |world| && !world[w].Resumed?
    ensures world[w].Alive() <==> AliveReg(c, regs[w])
    ensures world[w].Parked? <==> ValidReg(c, regs[w])
  {
  }

  lemma ResumeRegSlots(c: Core, r: Reg)
    requires WaitInv(c) && ValidReg(c, r) && r.sibling.None?
    ensures ResumeReg(c, r).slots
         == c.slots[r.slot := c.slots[r.slot].(waiting := false, progress := INTERNAL, ready := true)]
  {
    hide WaitInv, Evolves;
    EndWaitKeeps(c, r.slot);
    MakeReadyKeeps(EndWait(c, r.slot), r.slot);
  }

  /** `wake_external` succeeds just for a wait that the scheduler finds valid, and what it does to the scheduler shows
      as waking that one wait. */
  lemma WakeExact(c: Core, regs: seq<Reg>, world: X.World, w: nat)
    requires WaitInv(c) && Shows(c, regs, world) && w < |world| && !world[w].Resumed? && regs[w].sibling.None?
    ensures ValidReg(c, regs[w]) <==> X.Wakeable(world, X.Waiter(w, false))
    ensures Shows(ResumeReg(c, regs[w]), regs, X.Wake(world, w))
  {
    if ValidReg(c, regs[w]) {
      ResumeRegSlots(c, regs[w]);
      forall v | 0 <= v < |world| && v != w
        ensures StatusOf(ResumeReg(c, regs[w]), regs[v]) == StatusOf(c, regs[v])
      {
        assert regs[v].gen != regs[w].gen;
      }
    }
  }

  /** `park_external` begins a wait that shows as parked, if the coroutine, which is running, has gone on from every
      wait it was in. */
  lemma ParkExact(c: Core, regs: seq<Reg>, world: X.World, i: nat, reason: WaitReason)
    requires WaitInv(c) && Shows(c, regs, world) && i < |c.slots| && c.slots[i].Alive()
    requires forall w :: 0 <= w < |regs| ==> regs[w].gen <= c.lastGen
    requires forall w :: 0 <= w < |world| && regs[w].slot == i ==> world[w].Resumed? || world[w].Gone?
    ensures Shows(BeginWait(c, i, reason), regs + [Reg(i, c.lastGen + 1, None)], world + [X.Parked])
  {
    hide TableInv, QueueInv;
    BeginWaitShape(c, i, reason);
    var d, more := BeginWait(c, i, reason), regs + [Reg(i, c.lastGen + 1, None)];
    forall w | 0 <= w < |world| && !world[w].Resumed?
      ensures StatusOf(d, more[w]) == world[w]
    {
      assert more[w] == regs[w];
    }
  }

  function Stage(s: X.Status): nat {
    match s case Parked => 0 case Woken => 1 case Resumed => 1 case Gone => 2
  }

  /** In any run a wait only goes from parked to woken to gone, whatever becomes of its slot. */
  lemma StatusAdvances(states: seq<Sched>, events: seq<Event>, m: nat, n: nat, r: Reg)
    requires IsRun(states, events) && m <= n < |states| && 0 < r.gen <= states[m].core.lastGen
    ensures Stage(StatusOf(states[m].core, r)) <= Stage(StatusOf(states[n].core, r))
  {
    hide IsRun;
    RunRevivesNothing(states, events, m, n);
  }

  /** A wait that began with `park_external` rests until its primitive wakes it, whatever else is run, delivered
      or cancelled. */
  lemma {:induction false} ParkedRests(states: seq<Sched>, events: seq<Event>, m: nat, n: nat)
    requires IsRun(states, events) && m < n < |states| && events[m].ParkingExternally?
    requires forall k :: m <= k < n ==> Lawful(states[k], events[k])
    requires var r := Reg(events[m].slot, states[m + 1].core.lastGen, None);
      forall k :: m < k < n ==> !WakesWait(events[k], r)
    ensures Rests(states[n], Reg(events[m].slot, states[m + 1].core.lastGen, None), Nobody)
  {
    hide SchedInv, Step, Lawful, Rests, WakesWait;
    var r := Reg(events[m].slot, states[m + 1].core.lastGen, None);
    RunKeepsInvariant(states, events, n - 1);
    assert Step(states[n - 1], events[n - 1], states[n]);
    if n == m + 1 {
      ParkingRests(states[m], events[m], states[n]);
    } else {
      ParkedRests(states, events, m, n - 1);
      RunKeepsInvariant(states, events, m);
      assert Step(states[m], events[m], states[m + 1]);
      ParkingRests(states[m], events[m], states[m + 1]);
      RunRevivesNothing(states, events, m + 1, n - 1);
      StepRests(states[n - 1], events[n - 1], states[n], r, Nobody);
    }
  }

  lemma WakingEnds(s: Sched, e: Event, t: Sched, r: Reg)
    requires SchedInv(s) && Step(s, e, t) && WakesWait(e, r)
    ensures !ValidReg(t.core, r)
  {
    hide SchedInv, WaitInv;
    InvWait(s);
    ResumeRegWakes(s.core, e.wait);
    if ValidReg(s.core, e.wait) {
      ValidIsLive(s.core, e.wait);
      ValidIsLive(t.core, r);
      assert WakeOrder([e.wait], Waits(s.core.slots)) == [r.slot];
      WakeOrderExact([e.wait], Waits(s.core.slots));
    }
  }

  /** Over any run: a wait is one that has been woken and not resumed otherwise just if its coroutine is alive in it
      and its primitive has woken it since it began. */
  lemma WokenExact(states: seq<Sched>, events: seq<Event>, m: nat, n: nat)
    requires IsRun(states, events) && m < n < |states| && events[m].ParkingExternally?
    requires forall k :: m <= k < n ==> Lawful(states[k], events[k])
    ensures var r := Reg(events[m].slot, states[m + 1].core.lastGen, None);
      StatusOf(states[n].core, r) == X.Woken
      <==> AliveReg(states[n].core, r) && exists k :: m < k < n && WakesWait(events[k], r)
  {
    hide SchedInv, Step, Lawful, WakesWait;
    var r := Reg(events[m].slot, states[m + 1].core.lastGen, None);
    if k :| m < k < n && WakesWait(events[k], r) {
      RunKeepsInvariant(states, events, m);
      assert Step(states[m], events[m], states[m + 1]);
      ParkingRests(states[m], events[m], states[m + 1]);
      RunKeepsInvariant(states, events, k);
      assert Step(states[k], events[k], states[k + 1]);
      WakingEnds(states[k], events[k], states[k + 1], r);
      RunRevivesNothing(states, events, m + 1, k + 1);
      DeadStaysDead(states, events, k + 1, n, r);
    } else {
      ParkedRests(states, events, m, n);
    }
  }

  /** Cancelling shows as the waits of exactly the dependents being gone: the others that were parked are parked
      still. */
  lemma CancelShows(s: Sched, i: nat, r: Reg)
    requires SchedInv(s) && s.Alive(i) && 0 < r.gen <= s.core.lastGen && ValidReg(s.core, r) && Rests(s, r, Nobody)
    ensures Linked(s)
    ensures StatusOf(CancelState(s, i).core, r) == if r.slot in Dependents(s, i) then X.Gone else X.Parked
  {
    hide SchedInv, Evolves, Linked, Rests;
    CancelExact(s, i);
    if r.slot !in Dependents(s, i) {
      assert CancelState(s, i).Alive(r.slot);
      SurvivorGen(s, i, r.slot);
      CancelRests(s, i, r, Nobody);
      RestsParked(CancelState(s, i), r, Nobody);
    }
  }

  // ---------------------------------------------------------------------------------------------
  // A primitive and the scheduler together
  // ---------------------------------------------------------------------------------------------

  /** The statuses show what the scheduler says of the waits, and those that are parked rest. */
  ghost predicate Tracks(s: Sched, regs: seq<Reg>, world: X.World) {
    && Shows(s.core, regs, world)
    && forall w :: 0 <= w < |regs| ==>
         && 0 < regs[w].gen <= s.core.lastGen && regs[w].sibling.None?
         && (world[w].Parked? ==> Rests(s, regs[w], Nobody))
  }

  /** What the scheduler does by itself shows as waits that are gone. */
  function FadedAt(c: Core, r: Reg, status: X.Status): X.Status {
    if status.Alive() && StatusOf(c, r) == X.Gone then X.Gone else status
  }

  function Faded(c: Core, regs: seq<Reg>, world: X.World): (after: X.World)
    requires |regs| == |world|
    ensures |after| == |world| && forall w :: 0 <= w < |world| ==> after[w] == FadedAt(c, regs[w], world[w])
  {
    seq(|world|, w requires 0 <= w < |world| => FadedAt(c, regs[w], world[w]))
  }

  ghost predicate WakesNone(e: Event, regs: seq<Reg>) {
    forall w :: 0 <= w < |regs| ==> !WakesWait(e, regs[w])
  }

  /** Any step of the scheduler that is not the waking of one of the waits shows as some of them being gone. */
  lemma StepTracks(s: Sched, e: Event, t: Sched, regs: seq<Reg>, world: X.World)
    requires SchedInv(s) && Step(s, e, t) && Lawful(s, e) && Tracks(s, regs, world) && WakesNone(e, regs)
    ensures Tracks(t, regs, Faded(t.core, regs, world))
  {
    hide SchedInv, Step, Lawful, Rests, WakesWait;
    StepKeeps(s, e, t);
    forall w | 0 <= w < |regs|
      ensures 0 < regs[w].gen <= t.core.lastGen
      ensures var after := Faded(t.core, regs, world)[w];
        (after.Parked? ==> Rests(t, regs[w], Nobody)) && (!after.Resumed? ==> after == StatusOf(t.core, regs[w]))
    {
      if world[w].Parked? {
        StepRests(s, e, t, regs[w], Nobody);
        RestsParked(t, regs[w], Nobody);
      }
    }
  }

  /** No wait of one table has the generation of a wait of the other. */
  ghost predicate Apart(first: seq<Reg>, second: seq<Reg>) {
    forall v, w :: 0 <= v < |first| && 0 <= w < |second| ==> first[v].gen != second[w].gen
  }

  /** The scheduler after the calls of `wake_external` that a primitive made for its first n waits, in the order of
      their arrival, which is the order in which it hands out. */
  function WakeEach(s: Sched, regs: seq<Reg>, before: X.World, after: X.World, n: nat): Sched
    requires n <= |regs| == |before| == |after|
  {
    if n == 0 then s
    else
      var t := WakeEach(s, regs, before, after, n - 1);
      if before[n - 1].Parked? && after[n - 1].Woken? then t.(core := ResumeReg(t.core, regs[n - 1])) else t
  }

  /** Some run leads to this state. */
  ghost predicate Reached(s: Sched) {
    exists states, events :: IsRun(states, events) && states[|events|] == s
  }

  lemma ReachedNext(s: Sched, e: Event, t: Sched)
    requires Reached(s) && Step(s, e, t)
    ensures Reached(t)
  {
    hide Step;
    var states, events :| IsRun(states, events) && states[|events|] == s;
    var more, longer := states + [t], events + [e];
    forall k | 0 <= k < |longer|
      ensures Step(more[k], longer[k], more[k + 1])
    {
      if k < |events| {
        assert longer[k] == events[k] && more[k] == states[k] && more[k + 1] == states[k + 1];
      }
    }
    assert more[0] == states[0];
    assert IsRun(more, longer);
  }

  lemma ReachedInv(s: Sched)
    requires Reached(s)
    ensures SchedInv(s)
  {
    hide SchedInv, Step;
    var states, events :| IsRun(states, events) && states[|events|] == s;
    RunKeepsInvariant(states, events, |events|);
  }

  lemma WakeTracks(s: Sched, regs: seq<Reg>, world: X.World, w: nat)
    requires SchedInv(s) && Tracks(s, regs, world) && w < |world| && world[w].Parked?
    ensures Tracks(s.(core := ResumeReg(s.core, regs[w])), regs, world[w := X.Woken])
    ensures Step(s, Waking(regs[w]), s.(core := ResumeReg(s.core, regs[w])))
  {
    hide SchedInv, WaitInv, Rests, ResumeReg, StatusOf;
    InvWait(s);
    WakeExact(s.core, regs, world, w);
    var t := s.(core := ResumeReg(s.core, regs[w]));
    forall v | 0 <= v < |regs| && v != w && world[v].Parked?
      ensures Rests(t, regs[v], Nobody)
    {
      assert regs[v].gen != regs[w].gen;
      ResumeOneRests(s, regs[w], regs[v], Nobody);
    }
  }

  /** Waking one wait shows as nothing happening to those of another table. */
  lemma WakeSparesOthers(s: Sched, r: Reg, regs: seq<Reg>, world: X.World)
    requires SchedInv(s) && Tracks(s, regs, world) && r.sibling.None?
    requires forall w :: 0 <= w < |regs| ==> regs[w].gen != r.gen
    ensures Tracks(s.(core := ResumeReg(s.core, r)), regs, world)
  {
    hide SchedInv, WaitInv, Rests;
    InvWait(s);
    var t := s.(core := ResumeReg(s.core, r));
    if ValidReg(s.core, r) {
      ResumeRegSlots(s.core, r);
    }
    forall w | 0 <= w < |regs|
      ensures StatusOf(t.core, regs[w]) == StatusOf(s.core, regs[w])
      ensures world[w].Parked? ==> Rests(t, regs[w], Nobody)
    {
      assert regs[w].gen != r.gen;
      if world[w].Parked? {
        ResumeOneRests(s, r, regs[w], Nobody);
      }
    }
  }

  lemma TracksSized(s: Sched, regs: seq<Reg>, world: X.World)
    requires Tracks(s, regs, world)
    ensures |regs| == |world|
  {
  }

  /** One more wait is woken. */
  lemma WakeNext(s: Sched, regs: seq<Reg>, now: X.World, others: seq<Reg>, world: X.World, k: nat)
    requires Reached(s) && Tracks(s, regs, now) && Tracks(s, others, world) && Apart(regs, others)
    requires k < |now| && now[k].Parked?
    ensures |regs| == |now|
    ensures var t := s.(core := ResumeReg(s.core, regs[k]));
      Reached(t) && Tracks(t, regs, now[k := X.Woken]) && Tracks(t, others, world)
  {
    hide Reached, Rests, ResumeReg, StatusOf, SchedInv, Step;
    ReachedInv(s);
    WakeTracks(s, regs, now, k);
    WakeSparesOthers(s, regs[k], others, world);
    ReachedNext(s, Waking(regs[k]), s.(core := ResumeReg(s.core, regs[k])));
  }

  /** A coroutine that was woken goes on. */
  lemma ResumedTracks(s: Sched, regs: seq<Reg>, now: X.World, k: nat)
    requires Tracks(s, regs, now) && k < |now| && now[k].Woken?
    ensures Tracks(s, regs, now[k := X.Resumed])
  {
    hide Rests, StatusOf;
  }

  lemma ServedSized(before: X.World, after: X.World)
    requires X.Served(before, after)
    ensures |after| == |before|
  {
  }

  /** The waits after one more of them has been served. */
  lemma ServedOne(before: X.World, after: X.World, k: nat)
    requires X.Served(before, after) && k < |before|
    ensures var now := after[..k] + before[k..];
      && after[..k + 1] + before[k + 1..] == now[k := after[k]] && now[k] == before[k]
      && (after[k] == before[k] ==> now[k := after[k]] == now)
    ensures after[k] == before[k] || (before[k].Parked? && after[k].Woken?) || (before[k].Woken? && after[k].Resumed?)
  {
  }

  /** Waking all of them is a run of the scheduler, shows as the primitive left its waits, and as nothing in another
      table. */
  lemma {:induction false} WakeEachTracks(s: Sched, regs: seq<Reg>, before: X.World, after: X.World,
    others: seq<Reg>, world: X.World, n: nat)
    requires Reached(s) && Tracks(s, regs, before) && X.Served(before, after) && n <= |before|
    requires Tracks(s, others, world) && Apart(regs, others)
    ensures |regs| == |before|
    ensures var t := WakeEach(s, regs, before, after, n);
      Reached(t) && Tracks(t, regs, after[..n] + before[n..]) && Tracks(t, others, world)
  {
    hide Reached, ResumeReg, SchedInv, Tracks, Apart, X.Served;
    TracksSized(s, regs, before);
    ServedSized(before, after);
    if n == 0 {
      assert after[..0] + before[0..] == before;
    } else {
      var k := n - 1;
      WakeEachTracks(s, regs, before, after, others, world, k);
      var t, now := WakeEach(s, regs, before, after, k), after[..k] + before[k..];
      ServedOne(before, after, k);
      if before[k].Parked? && after[k].Woken? {
        WakeNext(t, regs, now, others, world, k);
      } else if after[k] != before[k] {
        ResumedTracks(t, regs, now, k);
      }
    }
  }

  /** Parking shows as one more wait. */
  lemma ParkTracks(s: Sched, e: Event, t: Sched, regs: seq<Reg>, world: X.World)
    requires SchedInv(s) && Step(s, e, t) && Lawful(s, e) && e.ParkingExternally? && Tracks(s, regs, world)
    requires forall w :: 0 <= w < |world| && regs[w].slot == e.slot ==> world[w].Resumed? || world[w].Gone?
    ensures Tracks(t, regs + [Reg(e.slot, t.core.lastGen, None)], world + [X.Parked])
  {
    hide SchedInv, WaitInv, Rests, Lawful, StatusOf;
    InvWait(s);
    ParkingRests(s, e, t);
    ParkExact(s.core, regs, world, e.slot, e.reason);
    forall w | 0 <= w < |regs| && world[w].Parked?
      ensures Rests(t, regs[w], Nobody)
    {
      StepRests(s, e, t, regs[w], Nobody);
    }
    assert t.core == BeginWait(s.core, e.slot, e.reason);
  }

  /** To another table, in which the coroutine has no wait either, parking shows as nothing. */
  lemma ParkSparesOthers(s: Sched, e: Event, t: Sched, regs: seq<Reg>, world: X.World)
    requires SchedInv(s) && Step(s, e, t) && Lawful(s, e) && e.ParkingExternally? && Tracks(s, regs, world)
    requires forall w :: 0 <= w < |world| && regs[w].slot == e.slot ==> world[w].Resumed? || world[w].Gone?
    ensures Tracks(t, regs, world)
  {
    hide SchedInv, WaitInv, Rests, Lawful;
    InvWait(s);
    SlotIsOk(s.core, e.slot);
    BeginWaitShape(s.core, e.slot, e.reason);
    assert t.core == BeginWait(s.core, e.slot, e.reason);
    forall w | 0 <= w < |regs|
      ensures !world[w].Resumed? ==> StatusOf(t.core, regs[w]) == world[w]
      ensures world[w].Parked? ==> Rests(t, regs[w], Nobody)
    {
      if world[w].Parked? {
        StepRests(s, e, t, regs[w], Nobody);
      }
    }
  }

  /** The new wait has a generation of its own. */
  lemma IssuedBefore(s: Sched, e: Event, t: Sched, regs: seq<Reg>, world: X.World)
    requires SchedInv(s) && Step(s, e, t) && e.ParkingExternally? && Tracks(s, regs, world)
    ensures forall w :: 0 <= w < |regs| ==> regs[w].gen < t.core.lastGen
  {
    hide SchedInv, WaitInv, Rests;
    InvWait(s);
    SlotIsOk(s.core, e.slot);
    BeginWaitShape(s.core, e.slot, e.reason);
  }
}
