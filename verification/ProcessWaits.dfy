/** Waiting for a process: whoever waits is woken by its completion and by nothing else. */
module ProcessWaits {
  import opened Registrations
  import opened WaitCore
  import opened SchedulerState
  import opened SchedulerLife
  import opened SchedulerEnd
  import opened SchedulerRun
  import opened SchedulerRuns
  import opened ParkedWaits

  /** The registration that a coroutine has made with a process by calling `park_process`. */
  function Awaiting(states: seq<Sched>, events: seq<Event>, m: nat): Reg
    requires m < |events| && |states| == |events| + 1 && events[m].ParkingForProcess?
  {
    Reg(events[m].slot, states[m + 1].core.lastGen, None)
  }

  lemma ParkingProcessRests(s: Sched, e: Event, t: Sched)
    requires SchedInv(s) && Step(s, e, t) && Lawful(s, e) && e.ParkingForProcess?
    ensures var r := Reg(e.slot, t.core.lastGen, None);
      Rests(t, r, Process(e.process, true)) && ValidReg(t.core, r) && t.core.lastGen == s.core.lastGen + 1
  {
    hide WaitInv, LifeInv;
    InvWait(s);
    SlotIsOk(s.core, e.slot);
    BeginWaitShape(s.core, e.slot, ProcessWait);
    var r := Reg(e.slot, t.core.lastGen, None);
    assert Lives(t.core.slots) == Lives(s.core.slots);
    forall k | 0 <= k < |t.frames| && t.frames[k].Timing?
      ensures t.frames[k].wait.gen != r.gen
    {
      assert FrameOk(s.core, s.frames[k]);
    }
    assert r in t.controls[e.process].waiters;
  }

  /** What is known of the wait as long as it is not forgotten that the coroutine has run. */
  lemma RestsStale(s: Sched, r: Reg, p: nat)
    requires Rests(s, r, Process(p, true))
    ensures Rests(s, r, Process(p, false))
  {
  }

  lemma RestsExact(s: Sched, r: Reg, p: nat, recent: bool)
    requires Rests(s, r, Process(p, recent)) && AliveReg(s.core, r)
    ensures p < |s.controls| && (ValidReg(s.core, r) <==> !s.controls[p].done)
    ensures ValidReg(s.core, r) ==> r in s.controls[p].waiters && Rests(s, r, Process(p, true))
    ensures !ValidReg(s.core, r) && recent ==> s.core.slots[r.slot].ready
  {
  }

  lemma {:induction false} AwaitedRests(states: seq<Sched>, events: seq<Event>, m: nat, n: nat)
    requires IsRun(states, events) && m < n < |states| && events[m].ParkingForProcess?
    requires forall k :: m <= k < n ==> Lawful(states[k], events[k])
    requires forall k :: m < k < n ==> !WakesWait(events[k], Awaiting(states, events, m))
    ensures Rests(states[n], Awaiting(states, events, m), Process(events[m].process, false))
  {
    hide SchedInv, Step, Lawful, Rests, WakesWait;
    var r := Awaiting(states, events, m);
    RunKeepsInvariant(states, events, n - 1);
    assert Step(states[n - 1], events[n - 1], states[n]);
    if n == m + 1 {
      ParkingProcessRests(states[m], events[m], states[n]);
      RestsStale(states[n], r, events[m].process);
    } else {
      AwaitedRests(states, events, m, n - 1);
      RunKeepsInvariant(states, events, m);
      assert Step(states[m], events[m], states[m + 1]);
      ParkingProcessRests(states[m], events[m], states[m + 1]);
      RunRevivesNothing(states, events, m + 1, n - 1);
      StepRests(states[n - 1], events[n - 1], states[n], r, Process(events[m].process, false));
    }
  }

  /** As long as a coroutine is in the wait that `park_process` began, it is parked, and the process knows it, just
      while the process has not completed. */
  lemma AwaitedExact(states: seq<Sched>, events: seq<Event>, m: nat, n: nat)
    requires IsRun(states, events) && m < n < |states| && events[m].ParkingForProcess?
    requires forall k :: m <= k < n ==> Lawful(states[k], events[k])
    requires forall k :: m < k < n ==> !WakesWait(events[k], Awaiting(states, events, m))
    ensures var r, s, p := Awaiting(states, events, m), states[n], events[m].process;
      AliveReg(s.core, r) ==>
        && p < |s.controls| && (ValidReg(s.core, r) <==> !s.controls[p].done)
        && (ValidReg(s.core, r) ==> r in s.controls[p].waiters)
  {
    hide SchedInv, Step, Lawful, Rests, WakesWait;
    var r := Awaiting(states, events, m);
    AwaitedRests(states, events, m, n);
    if AliveReg(states[n].core, r) {
      RestsExact(states[n], r, events[m].process, false);
    }
  }

  lemma TakingCompletesNobody(s: Sched, e: Event, t: Sched)
    requires Step(s, e, t) && (e.Taking? || e.RunningInline?)
    ensures t.controls == s.controls
  {
  }

  /** The step that ends the wait is the one in which the process completes, whether it finishes or is cancelled, and
      it makes the coroutine ready. */
  lemma CompletionWakes(states: seq<Sched>, events: seq<Event>, m: nat, n: nat)
    requires IsRun(states, events) && m < n < |events| && events[m].ParkingForProcess?
    requires forall k :: m <= k <= n ==> Lawful(states[k], events[k])
    requires forall k :: m < k <= n ==> !WakesWait(events[k], Awaiting(states, events, m))
    requires ValidReg(states[n].core, Awaiting(states, events, m))
    ensures var r, t, p := Awaiting(states, events, m), states[n + 1], events[m].process;
      AliveReg(t.core, r) ==>
        && p < |t.controls| && (!ValidReg(t.core, r) <==> t.controls[p].done)
        && (t.controls[p].done ==> t.core.slots[r.slot].ready)
  {
    hide SchedInv, Step, Lawful, Rests, WakesWait, AliveReg, ValidReg;
    var r, s, e, t, p := Awaiting(states, events, m), states[n], events[n], states[n + 1], events[m].process;
    AwaitedRests(states, events, m, n);
    AwaitedRests(states, events, m, n + 1);
    ValidIsAlive(s.core, r);
    RestsExact(s, r, p, false);
    assert Step(s, e, t);
    if AliveReg(t.core, r) {
      RestsExact(t, r, p, false);
      if e.Taking? || e.RunningInline? {
        TakingCompletesNobody(s, e, t);
      } else {
        RunKeepsInvariant(states, events, n);
        RunKeepsInvariant(states, events, m);
        assert Step(states[m], events[m], states[m + 1]);
        ParkingProcessRests(states[m], events[m], states[m + 1]);
        RunRevivesNothing(states, events, m + 1, n);
        StepRests(s, e, t, r, Process(p, true));
        RestsExact(t, r, p, true);
      }
    }
  }

  lemma ValidIsAlive(c: Core, r: Reg)
    requires ValidReg(c, r)
    ensures AliveReg(c, r)
  {
  }
}
