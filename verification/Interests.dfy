/** What the simulator is asked to report: the interest in a signal is what its queues hold. */
module Interests {
  import opened Registrations
  import opened WaitCore
  import opened SchedulerState
  import opened SchedulerLife
  import opened Delivery
  import opened SchedulerRun
  import opened SchedulerRuns
  import E = EdgeWaits

  /** Some coroutine would be woken by this edge of the signal. */
  ghost predicate Listens(c: Core, signal: nat, edge: E.EdgeKind) {
    exists r :: r in EdgeAudience(c, signal, edge) && ValidReg(c, r)
  }

  /** The interest covers the edge; one that is delivered without its direction is covered by both. */
  predicate Covers(m: E.Mask, edge: E.EdgeKind) {
    match edge
    case Rising => m.rising
    case Falling => m.falling
    case Any => m.rising && m.falling
  }

  lemma LiveQueue(c: Core, k: nat)
    requires WaitInv(c) && k / 3 !in c.edges.interest.statics
    ensures E.CountAt(c.edges.interest, k) != 0 <==> exists r :: r in E.QueueAt(c.edges, k) && ValidReg(c, r)
  {
    var q, tokens := E.QueueAt(c.edges, k), Waits(c.slots);
    assert E.CountAt(c.edges.interest, k) == Count(q, LiveUnder(tokens));
    CountPositive(q, LiveUnder(tokens));
    assert forall r :: Counts(LiveUnder(tokens), r) <==> ValidReg(c, r);
  }

  /** Where the interest counts, it says rising just when a rising edge would wake somebody, and falling likewise. */
  lemma MaskExact(c: Core, signal: nat)
    requires WaitInv(c) && signal !in c.edges.interest.statics
    ensures var m := E.MaskOf(c.edges.interest, signal);
      && (m.rising <==> Listens(c, signal, E.Rising))
      && (m.falling <==> Listens(c, signal, E.Falling))
    ensures Listens(c, signal, E.Any) ==> Listens(c, signal, E.Rising) && Listens(c, signal, E.Falling)
  {
    hide WaitInv;
    assert forall d: nat {:trigger signal * 3 + d} :: d < 3 ==> (signal * 3 + d) / 3 == signal;
    LiveQueue(c, signal * 3);
    LiveQueue(c, signal * 3 + 1);
    LiveQueue(c, signal * 3 + 2);
    assert E.QueueIndex(signal, E.Rising) == signal * 3 && E.QueueIndex(signal, E.Falling) == signal * 3 + 1;
    assert E.QueueIndex(signal, E.Any) == signal * 3 + 2;
  }

  lemma WakingListens(c: Core, signal: nat, edge: E.EdgeKind)
    requires WaitInv(c)
    ensures DeliverEdge(c, signal, edge).1 <==> Listens(c, signal, edge)
  {
    hide WaitInv;
    DeliverEdgeExact(c, signal, edge);
    var order := WakeOrder(EdgeAudience(c, signal, edge), Waits(c.slots));
    if order != [] {
      assert order[0] in order;
    }
    if r :| r in EdgeAudience(c, signal, edge) && ValidReg(c, r) {
      assert r.slot in order;
    }
  }

  /** In any state of any run, an edge that would wake somebody is covered by the interest that a consumer believes
      in who has replayed every change announced so far, if the source is neither static nor sticky. */
  lemma NoMissedEdge(states: seq<Sched>, events: seq<Event>, n: nat, signal: nat, edge: E.EdgeKind)
    requires IsRun(states, events) && n <= |events|
    ensures var interest := states[n].core.edges.interest;
      DeliverEdge(states[n].core, signal, edge).1 && signal !in interest.statics && signal !in interest.sticky
      && !E.Pending(interest, signal)
      ==> Covers(E.Believed(ReplayAfter(states, events, n), signal), edge)
  {
    hide Step, WaitInv, LifeInv, RunInv, Listens;
    RunKeepsInvariant(states, events, n);
    ReplayMirrors(states, events, n);
    var c := states[n].core;
    if signal !in c.edges.interest.statics {
      WakingListens(c, signal, edge);
      MaskExact(c, signal);
    }
  }
}
