/** A primitive and the scheduler running together.

Coroutines call the primitive and the scheduler in any order, and the scheduler runs, delivers and cancels in between.
Every such interleaving is at once a run of the scheduler and a run of the primitive, so what is proved of either
alone holds of both together. */
module JointRuns {
  import opened Registrations
  import opened WaitCore
  import opened SchedulerState
  import opened SchedulerLife
  import opened ParkedWaits
  import opened WaitLink
  import R = SchedulerRuns
  import X = ExternalWaits

  /** What the scheduler meets of a primitive: its steps and up to two tables of waits, such as the consumers (false)
      and the producers (true) of a queue. */
  datatype Primitive<!S, !E> = Primitive(
    start: S, step: (S, E, S) -> bool, world: (S, bool) -> X.World,
    cancels: E -> bool, cancelling: (bool, nat) -> E, cancel: (S, bool, nat) -> S)

  ghost predicate Parks<S(!new), E(!new)>(p: Primitive<S, E>, a: S, b: S, t: bool) {
    p.world(b, t) == p.world(a, t) + [X.Parked] && p.world(b, !t) == p.world(a, !t)
  }

  ghost predicate Serves<S(!new), E(!new)>(p: Primitive<S, E>, a: S, b: S) {
    X.Served(p.world(a, false), p.world(b, false)) && X.Served(p.world(a, true), p.world(b, true))
  }

  /** Any operation wakes and resumes waits, or begins one; and a wait that is alive can be cancelled at any time. */
  ghost predicate Cooperates<S(!new), E(!new)>(p: Primitive<S, E>) {
    && (forall a: S, e: E, b: S :: p.step(a, e, b) && !p.cancels(e) ==>
          Serves(p, a, b) || Parks(p, a, b, false) || Parks(p, a, b, true))
    && (forall a: S, t: bool, w: nat :: w < |p.world(a, t)| && p.world(a, t)[w].Alive() ==>
          var b := p.cancel(a, t, w);
          && p.step(a, p.cancelling(t, w), b)
          && p.world(b, t) == p.world(a, t)[w := X.Gone] && p.world(b, !t) == p.world(a, !t))
  }

  ghost predicate PrimitiveRun<S(!new), E(!new)>(p: Primitive<S, E>, states: seq<S>, events: seq<E>) {
    && |states| == |events| + 1 && states[0] == p.start
    && forall k {:trigger events[k]} :: 0 <= k < |events| ==> p.step(states[k], events[k], states[k + 1])
  }

  /** Some run of the primitive leads to this state. */
  ghost predicate PrimitiveReached<S(!new), E(!new)>(p: Primitive<S, E>, a: S) {
    exists states, events :: PrimitiveRun(p, states, events) && states[|events|] == a
  }

  lemma PrimitiveNext<S(!new), E(!new)>(p: Primitive<S, E>, a: S, e: E, b: S)
    requires PrimitiveReached(p, a) && p.step(a, e, b)
    ensures PrimitiveReached(p, b)
  {
    var states, events :| PrimitiveRun(p, states, events) && states[|events|] == a;
    var more, longer := states + [b], events + [e];
    forall k | 0 <= k < |longer|
      ensures p.step(more[k], longer[k], more[k + 1])
    {
      if k < |events| {
        assert longer[k] == events[k] && more[k] == states[k] && more[k + 1] == states[k + 1];
      }
    }
    assert more[0] == states[0];
    assert PrimitiveRun(p, more, longer);
  }

  // ---------------------------------------------------------------------------------------------
  // Joint runs
  // ---------------------------------------------------------------------------------------------

  /** The scheduler, the registrations of the waits in either table, and the primitive. */
  datatype Joint<S> = Joint(sched: Sched, first: seq<Reg>, second: seq<Reg>, own: S) {
    function Regs(t: bool): seq<Reg> {
      if t then second else first
    }
  }

  /** The primitive after the first n waits of a table that the scheduler says are gone have been cancelled. */
  ghost function CancelGone<S(!new), E(!new)>(p: Primitive<S, E>, a: S, t: bool, c: Core, regs: seq<Reg>, n: nat): S
    requires n <= |regs|
  {
    if n == 0 then a
    else
      var b := CancelGone(p, a, t, c, regs, n - 1);
      var world := p.world(b, t);
      if n <= |world| && FadedAt(c, regs[n - 1], world[n - 1]) != world[n - 1] then p.cancel(b, t, n - 1) else b
  }

  datatype Event<E> =
    | Inside(event: R.Event)
    | Parking(slot: nat, reason: WaitReason, table: bool, call: E)
    | Acting(call: E)

  ghost predicate FitsTables<S(!new), E(!new)>(p: Primitive<S, E>, j: Joint<S>) {
    |j.first| == |p.world(j.own, false)| && |j.second| == |p.world(j.own, true)|
  }

  /** Every wait of the coroutine in slot i has been resumed or is gone. */
  ghost predicate Runs(regs: seq<Reg>, world: X.World, i: nat)
    requires |regs| == |world|
  {
    forall w :: 0 <= w < |regs| && regs[w].slot == i ==> world[w].Resumed? || world[w].Gone?
  }

  ghost predicate Step<S(!new), E(!new)>(p: Primitive<S, E>, a: Joint<S>, e: Event<E>, b: Joint<S>) {
    && FitsTables(p, a) && FitsTables(p, b)
    && match e
       // the scheduler does something that is not for the primitive
       case Inside(x) =>
         && R.Step(a.sched, x, b.sched) && Lawful(a.sched, x)
         && WakesNone(x, a.first) && WakesNone(x, a.second) && b.first == a.first && b.second == a.second
         && var own := CancelGone(p, a.own, false, b.sched.core, a.first, |a.first|);
            b.own == CancelGone(p, own, true, b.sched.core, a.second, |a.second|)
       // a coroutine that runs, and so is in no wait, parks
       case Parking(i, reason, t, x) =>
         var park := R.ParkingExternally(i, reason);
         && R.Step(a.sched, park, b.sched) && Lawful(a.sched, park)
         && Runs(a.first, p.world(a.own, false), i) && Runs(a.second, p.world(a.own, true), i)
         && p.step(a.own, x, b.own) && !p.cancels(x) && Parks(p, a.own, b.own, t)
         && b.Regs(t) == a.Regs(t) + [Reg(i, b.sched.core.lastGen, None)] && b.Regs(!t) == a.Regs(!t)
       // the primitive does something else, and the scheduler wakes whom it names
       case Acting(x) =>
         && p.step(a.own, x, b.own) && !p.cancels(x)
         && !Parks(p, a.own, b.own, false) && !Parks(p, a.own, b.own, true)
         && b.first == a.first && b.second == a.second
         && var s := WakeEach(a.sched, a.first, p.world(a.own, false), p.world(b.own, false), |a.first|);
            b.sched == WakeEach(s, a.second, p.world(a.own, true), p.world(b.own, true), |a.second|)
  }

  ghost predicate IsRun<S(!new), E(!new)>(p: Primitive<S, E>, states: seq<Joint<S>>, events: seq<Event<E>>) {
    && |states| == |events| + 1
    && Reached(states[0].sched) && states[0] == Joint(states[0].sched, [], [], p.start)
    && p.world(p.start, false) == [] && p.world(p.start, true) == []
    && forall k {:trigger events[k]} :: 0 <= k < |events| ==> Step(p, states[k], events[k], states[k + 1])
  }

  // ---------------------------------------------------------------------------------------------
  // One run is both
  // ---------------------------------------------------------------------------------------------

  ghost predicate Both<S(!new), E(!new)>(p: Primitive<S, E>, j: Joint<S>) {
    && Reached(j.sched) && PrimitiveReached(p, j.own) && Apart(j.first, j.second)
    && Tracks(j.sched, j.first, p.world(j.own, false)) && Tracks(j.sched, j.second, p.world(j.own, true))
  }

  /** Cancelling the waits that are gone is a run of the primitive, and leaves the table as the scheduler says. */
  lemma {:induction false} CancelGoneExact<S(!new), E(!new)>(
    p: Primitive<S, E>, a: S, t: bool, c: Core, regs: seq<Reg>, n: nat)
    requires Cooperates(p) && PrimitiveReached(p, a) && |regs| == |p.world(a, t)| && n <= |regs|
    ensures var b := CancelGone(p, a, t, c, regs, n);
      && PrimitiveReached(p, b) && p.world(b, !t) == p.world(a, !t)
      && p.world(b, t) == Faded(c, regs, p.world(a, t))[..n] + p.world(a, t)[n..]
  {
    hide PrimitiveReached, StatusOf;
    var world := p.world(a, t);
    var faded := Faded(c, regs, world);
    if n == 0 {
      assert faded[..0] + world[0..] == world;
    } else {
      var k := n - 1;
      CancelGoneExact(p, a, t, c, regs, k);
      var b := CancelGone(p, a, t, c, regs, k);
      var now := faded[..k] + world[k..];
      assert now[k] == world[k];
      assert faded[..n] + world[n..] == now[k := faded[k]];
      if faded[k] != world[k] {
        PrimitiveNext(p, b, p.cancelling(t, k), p.cancel(b, t, k));
      } else {
        assert now[k := faded[k]] == now;
      }
    }
  }

  lemma InsideBoth<S(!new), E(!new)>(p: Primitive<S, E>, a: Joint<S>, x: R.Event, b: Joint<S>)
    requires Cooperates(p) && Both(p, a) && Step(p, a, Inside(x), b)
    ensures Both(p, b)
  {
    hide Reached, PrimitiveReached, Tracks, R.Step, Lawful, WakesNone, SchedInv, Cooperates;
    ReachedInv(a.sched);
    R.StepKeeps(a.sched, x, b.sched);
    ReachedNext(a.sched, x, b.sched);
    StepTracks(a.sched, x, b.sched, a.first, p.world(a.own, false));
    StepTracks(a.sched, x, b.sched, a.second, p.world(a.own, true));
    var own := CancelGone(p, a.own, false, b.sched.core, a.first, |a.first|);
    CancelGoneExact(p, a.own, false, b.sched.core, a.first, |a.first|);
    CancelGoneExact(p, own, true, b.sched.core, a.second, |a.second|);
    var first, second := Faded(b.sched.core, a.first, p.world(a.own, false)),
      Faded(b.sched.core, a.second, p.world(a.own, true));
    assert first[..|a.first|] + p.world(a.own, false)[|a.first|..] == first;
    assert second[..|a.second|] + p.world(a.own, true)[|a.second|..] == second;
  }

  lemma ParkingBoth<S(!new), E(!new)>(p: Primitive<S, E>, a: Joint<S>, e: Event<E>, b: Joint<S>)
    requires Both(p, a) && Step(p, a, e, b) && e.Parking?
    ensures Both(p, b)
  {
    hide Reached, PrimitiveReached, Tracks, R.Step, Lawful, SchedInv;
    ReachedInv(a.sched);
    var park, t := R.ParkingExternally(e.slot, e.reason), e.table;
    ReachedNext(a.sched, park, b.sched);
    PrimitiveNext(p, a.own, e.call, b.own);
    ParkTracks(a.sched, park, b.sched, a.Regs(t), p.world(a.own, t));
    ParkSparesOthers(a.sched, park, b.sched, a.Regs(!t), p.world(a.own, !t));
    assert Apart(b.first, b.second) by {
      IssuedBefore(a.sched, park, b.sched, a.Regs(!t), p.world(a.own, !t));
    }
  }

  lemma ActingBoth<S(!new), E(!new)>(p: Primitive<S, E>, a: Joint<S>, x: E, b: Joint<S>)
    requires Cooperates(p) && Both(p, a) && Step(p, a, Acting(x), b)
    ensures Both(p, b)
  {
    hide Reached, PrimitiveReached, Tracks, SchedInv, X.Served;
    assert Serves(p, a.own, b.own);
    PrimitiveNext(p, a.own, x, b.own);
    var first, second := p.world(a.own, false), p.world(a.own, true);
    var s := WakeEach(a.sched, a.first, first, p.world(b.own, false), |a.first|);
    WakeEachTracks(a.sched, a.first, first, p.world(b.own, false), a.second, second, |a.first|);
    assert p.world(b.own, false)[..|a.first|] + first[|a.first|..] == p.world(b.own, false);
    WakeEachTracks(s, a.second, second, p.world(b.own, true), a.first, p.world(b.own, false), |a.second|);
    assert p.world(b.own, true)[..|a.second|] + second[|a.second|..] == p.world(b.own, true);
  }

  /** Every interleaving of coroutines, simulator and primitive is a run of the scheduler and a run of the primitive,
      and at any moment the primitive sees of its waits what the scheduler says of them. */
  lemma {:induction false} EveryInterleaving<S(!new), E(!new)>(
    p: Primitive<S, E>, states: seq<Joint<S>>, events: seq<Event<E>>, n: nat)
    requires Cooperates(p) && IsRun(p, states, events) && n < |states|
    ensures Both(p, states[n])
  {
    hide Step, Reached, Both, Cooperates;
    if n == 0 {
      StartsBoth(p, states[0]);
    } else {
      var a, e, b := states[n - 1], events[n - 1], states[n];
      EveryInterleaving(p, states, events, n - 1);
      assert Step(p, a, e, b);
      match e
      case Inside(x) => InsideBoth(p, a, x, b);
      case Parking(_, _, _, _) => ParkingBoth(p, a, e, b);
      case Acting(x) => ActingBoth(p, a, x, b);
    }
  }

  lemma StartsBoth<S(!new), E(!new)>(p: Primitive<S, E>, j: Joint<S>)
    requires Reached(j.sched) && j == Joint(j.sched, [], [], p.start)
    requires p.world(p.start, false) == [] && p.world(p.start, true) == []
    ensures Both(p, j)
  {
    hide Reached;
    assert PrimitiveRun(p, [p.start], []);
  }
}
