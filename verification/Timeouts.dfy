/** Timeouts: between the start of a timed wait and the arming of its timer a child runs, which may do anything. */
module Timeouts {
  import opened Registrations
  import opened WaitCore
  import opened SchedulerState
  import opened SchedulerLife
  import opened SchedulerRun
  import opened SchedulerRuns
  import opened ResumeStack
  import opened Requests

  /** The wait that a call of `start_timeout` begins, and the frame that remembers its delay. */
  function Timed(states: seq<Sched>, events: seq<Event>, m: nat): Wait
    requires m < |events| && |states| == |events| + 1 && events[m].TimingOut?
  {
    Wait(events[m].slot, states[m].core.lastGen + 1, false)
  }

  lemma TimedBegins(s: Sched, e: Event, t: Sched)
    requires SchedInv(s) && Step(s, e, t) && e.TimingOut?
    ensures var w := Wait(e.slot, s.core.lastGen + 1, false);
      OnStack(t, TimingFrame(s, e.slot, e.timeout)) && Holds(t.core, w, []) && t.core.lastGen == w.gen
  {
    hide WaitInv, RunInv, Evolves, Holds, ResumeStack.Untimed;
    var f, w := TimingFrame(s, e.slot, e.timeout), Wait(e.slot, s.core.lastGen + 1, false);
    StepStack(s, e, t);
    FramesIssued(s, w.gen);
    TimedOnStack(s, t, f);
    InvWait(s);
    BeginHolds(s.core, e.slot, TimeoutWait, false);
    var core := BeginWait(s.core, e.slot, TimeoutWait);
    SlotIsOk(s.core, e.slot);
    BeginWaitShape(s.core, e.slot, TimeoutWait);
    var j := s.(core := core, joins := s.joins + [Join(1, e.slot)], frames := s.frames + [f]);
    assert Lives(core.slots) == Lives(s.core.slots);
    NewJoinKeeps(s.(core := core), Join(1, e.slot));
    AdoptShape(j, Joined(|s.joins|), None);
    AdoptQueues(core, t.core, w);
  }

  lemma TimedOnStack(s: Sched, t: Sched, f: Frame)
    requires t.frames == s.frames + [f] && f.Timing? && Untimed(s, f.wait.gen)
    ensures OnStack(t, f)
  {
    assert t.frames[|s.frames|] == f;
  }

  /** Adopting the child registers nothing. */
  lemma AdoptQueues(c: Core, d: Core, w: Wait)
    requires Holds(c, w, []) && d == c.(slots := d.slots, edges := d.edges, phases := d.phases)
    requires d.edges.queues == c.edges.queues && d.phases.queues == c.phases.queues
    ensures Holds(d, w, [])
  {
  }

  /** Until its timer is armed nothing is registered for the wait, whatever the child does. */
  lemma {:induction false} TimedHolds(states: seq<Sched>, events: seq<Event>, m: nat, k: nat)
    requires IsRun(states, events) && m < k < |states| && events[m].TimingOut?
    requires forall j :: m < j < k ==> !ArmsWait(states[j], events[j], Timed(states, events, m).gen)
    ensures OnStack(states[k], TimingFrame(states[m], events[m].slot, events[m].timeout))
    ensures var w := Timed(states, events, m);
      states[k].core.lastGen >= w.gen && (ValidReg(states[k].core, w.Plain()) ==> Holds(states[k].core, w, []))
  {
    hide SchedInv, Step, Holds, OnStack, ValidReg, ArmsWait, Arms;
    var w, f := Timed(states, events, m), TimingFrame(states[m], events[m].slot, events[m].timeout);
    RunKeepsInvariant(states, events, k - 1);
    var s, e, t := states[k - 1], events[k - 1], states[k];
    assert Step(s, e, t);
    if k == m + 1 {
      TimedBegins(s, e, t);
    } else {
      TimedHolds(states, events, m, k - 1);
      StepStack(s, e, t);
      StaysOnStack(s, e, t, f);
      StepKeeps(s, e, t);
      if ValidReg(t.core, w.Plain()) {
        StillValid(s.core, t.core, w.Plain());
        ArmsIsWait(s, e, w);
        StepHolds(s, e, t, w, []);
      }
    }
  }

  lemma ArmsIsWait(s: Sched, e: Event, w: Wait)
    requires !ArmsWait(s, e, w.gen) && ValidReg(s.core, w.Plain())
    ensures !e.TimingOut? ==> !Arms(s, e, w.slot)
  {
  }

  /** Arming the timer gives the wait this one trigger, counted from now. */
  lemma TimerArmed(s: Sched, e: Event, t: Sched, f: Frame, w: Wait)
    requires SchedInv(s) && Step(s, e, t) && OnStack(s, f) && ArmsWait(s, e, f.wait.gen)
    requires w == Wait(f.wait.slot, f.wait.gen, false) && f.wait == w.Plain() && Holds(s.core, w, [])
    requires ValidReg(t.core, w.Plain())
    ensures Holds(t.core, w, [TriggerOf(s.core.clock, After(f.timeout))]) && Untimed(t, w.gen)
  {
    hide WaitInv, LifeInv, Holds, RegisterWait, FlagsInv;
    InvWait(s);
    assert s.frames[|s.frames| - 1] == f;
    assert FrameOk(s.core, f);
    RegisterHolds(s.core, w, [], After(f.timeout));
    assert [] + [TriggerOf(s.core.clock, After(f.timeout))] == [TriggerOf(s.core.clock, After(f.timeout))];
  }

  /** A timed wait is ended by the time that was asked for, counted from when the child gave up control, and by no
      other delivery; whatever happens in between. */
  lemma TimeoutIsHeard(states: seq<Sched>, events: seq<Event>, m: nat, k: nat, n: nat)
    requires IsRun(states, events) && m < k < n < |states| && events[m].TimingOut?
    requires forall j :: m < j < k ==> !ArmsWait(states[j], events[j], Timed(states, events, m).gen)
    requires ArmsWait(states[k], events[k], Timed(states, events, m).gen)
    requires ValidReg(states[n].core, Timed(states, events, m).Plain())
    ensures Hears(states[n], Timed(states, events, m), [TriggerOf(states[k].core.clock, After(events[m].timeout))])
  {
    hide SchedInv, Step, Holds, OnStack, ValidReg, ArmsWait, Hears, Untimed;
    var w, f := Timed(states, events, m), TimingFrame(states[m], events[m].slot, events[m].timeout);
    var ts := [TriggerOf(states[k].core.clock, After(events[m].timeout))];
    TimedHolds(states, events, m, k);
    RunKeepsInvariant(states, events, k);
    RunRevivesNothing(states, events, k, n);
    RunRevivesNothing(states, events, k + 1, n);
    RunRevivesNothing(states, events, k, k + 1);
    StillValid(states[k].core, states[n].core, w.Plain());
    StillValid(states[k + 1].core, states[n].core, w.Plain());
    assert Step(states[k], events[k], states[k + 1]);
    TimerArmed(states[k], events[k], states[k + 1], f, w);
    RunHolds(states, events, k + 1, n, w, ts);
    RunKeepsInvariant(states, events, n);
    HoldsHears(states[n], w, ts);
  }
}
