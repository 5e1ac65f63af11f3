/** `Lock`, `Semaphore` and `Queue`, each running together with the scheduler: what it promises holds of the
coroutines that the scheduler knows. */
module JointPrimitives {
  import opened Registrations
  import opened WaitCore
  import opened WaitLink
  import opened JointRuns
  import X = ExternalWaits
  import L = Locks
  import S = Semaphores
  import Q = Queues

  /** The coroutine is parked in its wait, as far as the scheduler can tell. */
  predicate ParkedIn(c: Core, regs: seq<Reg>, world: X.World, w: nat) {
    w < |world| && w < |regs| && !world[w].Resumed? && ValidReg(c, regs[w])
  }

  /** The coroutine has been woken from its wait and not been cancelled, and is about to go on. */
  predicate WokenFrom(c: Core, regs: seq<Reg>, world: X.World, w: nat) {
    w < |world| && w < |regs| && !world[w].Resumed? && AliveReg(c, regs[w]) && !ValidReg(c, regs[w])
  }

  lemma SeenAsParked(c: Core, regs: seq<Reg>, world: X.World, w: nat)
    requires Shows(c, regs, world)
    ensures ParkedIn(c, regs, world, w) <==> w < |world| && world[w].Parked? && ValidReg(c, regs[w])
    ensures WokenFrom(c, regs, world, w) ==> world[w].Woken?
  {
  }

  // ---------------------------------------------------------------------------------------------
  // Lock
  // ---------------------------------------------------------------------------------------------

  function LockWorld(a: L.Ownership, t: bool): X.World {
    if t then [] else a.lock.world
  }

  function LockCancel(a: L.Ownership, t: bool, w: nat): L.Ownership {
    if t || w >= |a.lock.world| then a else a.(lock := a.lock.(world := a.lock.world[w := X.Gone]))
  }

  ghost function LockPrimitive(): Primitive<L.Ownership, L.Event> {
    Primitive(L.Unlocked(), L.Step, LockWorld, (e: L.Event) => e.Cancelling?, (t, w) => L.Cancelling(w), LockCancel)
  }

  lemma LockCooperates()
    ensures Cooperates(LockPrimitive())
  {
    hide L.Cleanup, L.Release, L.Handoff, L.Finish, L.Abandon;
    var p := LockPrimitive();
    forall a: L.Ownership, e: L.Event, b: L.Ownership | p.step(a, e, b) && !p.cancels(e)
      ensures Serves(p, a, b) || Parks(p, a, b, false) || Parks(p, a, b, true)
    {
      if !e.Arriving? {
        L.StepServes(a, e, b);
      }
    }
  }

  /** Whoever the scheduler has parked for the lock finds it taken or promised, and a coroutine that was woken and is
      alive finds its promise; so no interleaving leaves a living waiter behind at a free lock. */
  lemma LockTogether(states: seq<Joint<L.Ownership>>, events: seq<Event<L.Event>>, n: nat, w: nat)
    requires IsRun(LockPrimitive(), states, events) && n < |states|
    ensures var j := states[n]; var s := j.own.lock;
      && (ParkedIn(j.sched.core, j.first, s.world, w) ==> s.locked)
      && (WokenFrom(j.sched.core, j.first, s.world, w) ==> L.Finish(s, w).Some?)
  {
    hide Cooperates, L.Step, Reached, IsRun;
    var p, j := LockPrimitive(), states[n];
    LockCooperates();
    EveryInterleaving(p, states, events, n);
    SeenAsParked(j.sched.core, j.first, j.own.lock.world, w);
    var own, steps :| PrimitiveRun(p, own, steps) && own[|steps|] == j.own;
    assert L.IsRun(own, steps);
    L.PromisesKept(own, steps, |steps|);
  }

  // ---------------------------------------------------------------------------------------------
  // Semaphore
  // ---------------------------------------------------------------------------------------------

  function SemaphoreWorld(a: S.Account, t: bool): X.World {
    if t then [] else a.sem.world
  }

  function SemaphoreCancel(a: S.Account, t: bool, w: nat): S.Account {
    if t || w >= |a.sem.world| then a else a.(sem := a.sem.(world := a.sem.world[w := X.Gone]))
  }

  ghost function SemaphorePrimitive(initial: nat): Primitive<S.Account, S.Event> {
    Primitive(S.Account(S.Sem(initial, [], []), 0, 0, 0), S.Step, SemaphoreWorld, (e: S.Event) => e.Cancelling?,
              (t, w) => S.Cancelling(w), SemaphoreCancel)
  }

  lemma SemaphoreCooperates(initial: nat)
    ensures Cooperates(SemaphorePrimitive(initial))
  {
    hide S.Cleanup, S.Dispatch, S.Finish, S.Abandon;
    var p := SemaphorePrimitive(initial);
    forall a: S.Account, e: S.Event, b: S.Account | p.step(a, e, b) && !p.cancels(e)
      ensures Serves(p, a, b) || Parks(p, a, b, false) || Parks(p, a, b, true)
    {
      if !e.Arriving? {
        S.StepServes(a, e, b);
      }
    }
  }

  /** While the scheduler has a coroutine parked for the semaphore no permit is available, and a coroutine that was
      woken and is alive finds its permit. */
  lemma SemaphoreTogether(
    initial: nat, states: seq<Joint<S.Account>>, events: seq<Event<S.Event>>, n: nat, w: nat)
    requires IsRun(SemaphorePrimitive(initial), states, events) && n < |states|
    ensures var j := states[n]; var s := j.own.sem;
      && (ParkedIn(j.sched.core, j.first, s.world, w) ==> s.permits == 0)
      && (WokenFrom(j.sched.core, j.first, s.world, w) ==> S.Finish(s, w).Some?)
  {
    hide Cooperates, S.Step, Reached, IsRun;
    var p, j := SemaphorePrimitive(initial), states[n];
    SemaphoreCooperates(initial);
    EveryInterleaving(p, states, events, n);
    SeenAsParked(j.sched.core, j.first, j.own.sem.world, w);
    var own, steps :| PrimitiveRun(p, own, steps) && own[|steps|] == j.own;
    assert S.IsRun(own, steps, initial);
    S.PermitsAreConserved(own, steps, initial, |steps|);
  }

  // ---------------------------------------------------------------------------------------------
  // Queue
  // ---------------------------------------------------------------------------------------------

  function QueueWorld<T>(a: Q.Ledger<T>, t: bool): X.World {
    if t then a.store.putters.world else a.store.getters.world
  }

  function QueueCancel<T>(a: Q.Ledger<T>, t: bool, w: nat): Q.Ledger<T> {
    var world := QueueWorld(a, t);
    if w >= |world| then a
    else a.(store := if t then Q.SetPuts(a.store, world[w := X.Gone]) else Q.SetGets(a.store, world[w := X.Gone]))
  }

  ghost function QueuePrimitive<T(!new)>(bound: nat): Primitive<Q.Ledger<T>, Q.Event<T>> {
    Primitive(Q.Ledger(Q.Empty(bound), [], [], []), Q.Step, QueueWorld,
              (e: Q.Event<T>) => e.CancellingGet? || e.CancellingPut?,
              (t, w) => if t then Q.CancellingPut(w) else Q.CancellingGet(w), QueueCancel)
  }

  lemma CleanupWorlds<T>(q: Q.Store<T>)
    ensures var c := Q.Cleanup(q); c.getters.world == q.getters.world && c.putters.world == q.putters.world
  {
  }

  lemma QueueCooperates<T(!new)>(bound: nat)
    ensures Cooperates(QueuePrimitive<T>(bound))
  {
    hide Q.Cleanup, Q.WakeConsumers, Q.WakeProducers, Q.PutNow, Q.GetNow, Q.ConsumeReserved, Q.ProduceReserved,
      Q.AbandonGet, Q.AbandonPut;
    var p := QueuePrimitive<T>(bound);
    forall a: Q.Ledger<T>, e: Q.Event<T>, b: Q.Ledger<T> | p.step(a, e, b) && !p.cancels(e)
      ensures Serves(p, a, b) || Parks(p, a, b, false) || Parks(p, a, b, true)
    {
      Q.StepServes(a, e, b);
      CleanupWorlds(a.store);
    }
  }

  /** A consumer that was woken and is alive finds its item, and a producer its place. */
  lemma QueueTogether<T(!new)>(
    bound: nat, states: seq<Joint<Q.Ledger<T>>>, events: seq<Event<Q.Event<T>>>, n: nat, w: nat, x: T)
    requires IsRun(QueuePrimitive<T>(bound), states, events) && n < |states|
    ensures var j := states[n]; var q := j.own.store; var gets, puts := q.getters.world, q.putters.world;
      && (WokenFrom(j.sched.core, j.first, gets, w) ==>
            Q.ConsumeReserved(Q.SetGets(q, gets[w := X.Resumed]), w).Some?)
      && (WokenFrom(j.sched.core, j.second, puts, w) ==>
            Q.ProduceReserved(Q.SetPuts(q, puts[w := X.Resumed]), w, x).Some?)
  {
    hide Cooperates, Q.Step, Reached, IsRun, Q.ConsumeReserved, Q.ProduceReserved, Q.Balanced;
    var p, j := QueuePrimitive<T>(bound), states[n];
    QueueCooperates<T>(bound);
    EveryInterleaving(p, states, events, n);
    SeenAsParked(j.sched.core, j.first, j.own.store.getters.world, w);
    SeenAsParked(j.sched.core, j.second, j.own.store.putters.world, w);
    var own, steps :| PrimitiveRun(p, own, steps) && own[|steps|] == j.own;
    assert Q.IsRun(own, steps, bound);
    Q.NothingLost(own, steps, bound, |steps|, x);
  }
}
