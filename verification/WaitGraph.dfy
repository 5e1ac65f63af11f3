/** The wait graph while coroutines run: its edges are those of the wait forest, and its verdict is `Runnable` exactly
when somebody who waits for no child is ready or has control. */
module WaitGraph {
  import opened Registrations
  import opened WaitCore
  import opened SchedulerState
  import opened SchedulerLife
  import opened SchedulerEnd
  import opened Cancellation
  import opened SchedulerRun
  import opened SchedulerRuns
  import opened ResumeStack
  import opened Lifecycle

  /** Coroutine k keeps i waiting in the graph exactly when k is to resume i. */
  lemma EdgesExact(s: Sched, k: nat, i: nat)
    requires SchedInv(s)
    ensures GraphChild(s, k, i) <==> Awaits(Lives(s.core.slots), s.joins, k, i)
  {
    hide WaitInv, RunInv;
    var lives := Lives(s.core.slots);
    if s.Alive(k) && s.Alive(i) {
      assert lives[k] == s.core.slots[k].life && lives[i] == s.core.slots[i].life;
      assert HasParent(lives, s.joins, k);
    }
  }

  /** Nobody alive is to resume i. */
  ghost predicate AwaitsNobody(s: Sched, i: nat) {
    forall k: nat :: !Awaits(Lives(s.core.slots), s.joins, k, i)
  }

  lemma RunnableExact(s: Sched)
    requires SchedInv(s)
    ensures GraphStatus(s) == Runnable <==>
      exists i :: 0 <= i < |s.core.slots| && s.Alive(i) && AwaitsNobody(s, i)
        && (ModeOf(s.core.slots[i]) == Queued || Running(s.frames) == Some(i))
  {
    hide SchedInv, Awaits;
    forall i | 0 <= i < |s.core.slots| && s.Alive(i)
      ensures AwaitsNobody(s, i) <==> forall k :: 0 <= k < |s.core.slots| ==> !GraphChild(s, k, i)
      ensures s.core.slots[i].ready <==> ModeOf(s.core.slots[i]) == Queued
    {
      ReadyIsQueued(s, i);
      forall k: nat
        ensures GraphChild(s, k, i) <==> Awaits(Lives(s.core.slots), s.joins, k, i)
      {
        EdgesExact(s, k, i);
      }
    }
  }

  lemma ReadyIsQueued(s: Sched, i: nat)
    requires SchedInv(s) && i < |s.core.slots|
    ensures s.core.slots[i].ready <==> ModeOf(s.core.slots[i]) == Queued
  {
    hide LifeInv, RunInv;
    SlotIsOk(s.core, i);
  }

  /** Who has control is whoever was resumed last and has not returned; a timed wait leaves it with its parent. */
  lemma StepRunning(s: Sched, e: Event, t: Sched)
    requires SchedInv(s) && Step(s, e, t)
    ensures e.Returning? || e.ReturningInline? || e.TimingSet? ==> s.frames != []
    ensures Running(t.frames)
         == if Resumes(s, e).Some? then Resumes(s, e)
            else if e.Returning? || e.ReturningInline? then Running(s.frames[..|s.frames| - 1])
            else Running(s.frames)
  {
    hide SchedInv, Step;
    StepStack(s, e, t);
    StepAdvances(s, e, t);
    if e.TimingOut? {
      assert t.frames[..|t.frames| - 1] == s.frames;
    } else if e.TimingSet? {
      TimingOnTop(s, t);
    } else if e.Taking? {
      assert e == Taking;
      StaleTaken(s, t);
    } else if e.RunningInline? {
      InlineResumes(s, e);
    }
  }

  lemma InlineResumes(s: Sched, e: Event)
    requires e.RunningInline? && exists t :: Step(s, e, t)
    ensures Resumes(s, e).Some?
  {
  }

  lemma TimingOnTop(s: Sched, t: Sched)
    requires Step(s, TimingSet, t)
    ensures s.frames != [] && s.frames[|s.frames| - 1].Timing?
  {
  }

  lemma StaleTaken(s: Sched, t: Sched)
    requires SchedInv(s) && Step(s, Taking, t)
    ensures Resumes(s, Taking).None? ==> t.frames == s.frames
  {
    hide LifeInv, RunInv;
  }
}
