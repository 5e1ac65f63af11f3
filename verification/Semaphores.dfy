/** `Semaphore`: permits are reserved for waiters before they run, and come back when a waiter with a
reservation is cancelled. */
module Semaphores {
  import opened Registrations
  import opened ExternalWaits

  datatype Sem = Sem(permits: nat, waiters: seq<Waiter>, world: World)

  /** One permit goes to the first waiter that can be woken, or else becomes available. */
  function DispatchOne(s: Sem): Sem {
    var g := Grant(s.waiters, s.world);
    Sem(if g.taken then s.permits else s.permits + 1, g.waiters, g.world)
  }

  /** `dispatch` */
  function Dispatch(s: Sem, n: nat): Sem
    decreases n
  {
    if n == 0 then s else Dispatch(DispatchOne(s), n - 1)
  }

  /** `cleanup` */
  function Cleanup(s: Sem): Sem {
    Dispatch(s.(waiters := Sweep(s.waiters, s.world)), Returned(s.waiters, s.world))
  }

  /** What `try_acquire` does after its cleanup, and whether a permit was taken. */
  function Take(s: Sem): (Sem, bool) {
    if s.permits == 0 then (s, false) else (s.(permits := s.permits - 1), true)
  }

  /** What `suspend` does after its cleanup, when no permit is left. */
  function Arrive(s: Sem): Sem {
    s.(waiters := s.waiters + [Waiter(|s.world|, false)], world := s.world + [Parked])
  }

  /** The start of `finish_acquire`; `None` when it aborts because there is no permit for the waiter. */
  function Finish(s: Sem, wait: nat): Option<Sem> {
    var i := Find(s.waiters, wait);
    if i == |s.waiters| || !s.waiters[i].reserved then None else Some(s.(waiters := Without(s.waiters, i)))
  }

  /** The start of `abandon`, and how many permits it has to give back. */
  function Abandon(s: Sem, wait: nat): (Sem, nat) {
    var i := Find(s.waiters, wait);
    if i == |s.waiters| then (s, 0)
    else (s.(waiters := Without(s.waiters, i)), if s.waiters[i].reserved then 1 else 0)
  }

  // ---------------------------------------------------------------------------------------------
  // Runs
  // ---------------------------------------------------------------------------------------------

  /** Every operation may let other coroutines run after each of its parts (`flush_external_wakes`), so
      a run interleaves the parts. */
  datatype Event =
    | Cleaning | Taking | Arriving
    | Cancelling(wait: nat) | Resuming(wait: nat) | Abandoning(wait: nat)
    | Releasing(n: nat) | Dispatching(n: nat)

  /** The semaphore, the permits that an operation under way has still to hand out, and the totals of
      permits granted and released. */
  datatype Account = Account(sem: Sem, owed: nat, granted: nat, released: nat)

  ghost predicate Step(a: Account, e: Event, b: Account) {
    var s := a.sem;
    match e
    case Cleaning => b == a.(sem := Cleanup(s))
    case Taking =>
      var (t, taken) := Take(s); b == a.(sem := t, granted := if taken then a.granted + 1 else a.granted)
    case Arriving => s.permits == 0 && b == a.(sem := Arrive(s))
    case Cancelling(w) => w < |s.world| && s.world[w].Alive() && b == a.(sem := s.(world := s.world[w := Gone]))
    case Resuming(w) =>
      w < |s.world| && s.world[w].Woken? && Finish(s, w).Some?
      && b == a.(sem := Finish(s, w).value.(world := s.world[w := Resumed]), granted := a.granted + 1)
    case Abandoning(w) =>
      w < |s.world| && s.world[w].Gone?
      && var (t, n) := Abandon(s, w); b == a.(sem := t, owed := a.owed + n)
    case Releasing(n) => b == a.(owed := a.owed + n, released := a.released + n)
    case Dispatching(n) => n <= a.owed && b == a.(sem := Dispatch(s, n), owed := a.owed - n)
  }

  ghost predicate AllReserved(ws: seq<Waiter>) {
    forall i :: 0 <= i < |ws| ==> ws[i].reserved
  }

  ghost predicate SemOk(s: Sem) {
    WaitersOk(s.waiters, s.world) && AllListed(s.waiters, s.world) && (s.permits > 0 ==> AllReserved(s.waiters))
  }

  /** Permits are conserved: what is available, reserved, on its way or granted was there at the start
      or has been released. */
  ghost predicate Conserved(a: Account, initial: nat) {
    a.sem.permits + Reserved(a.sem.waiters) + a.owed + a.granted == initial + a.released
  }

  ghost predicate Inv(a: Account, initial: nat) {
    SemOk(a.sem) && Conserved(a, initial)
  }

  lemma TakenUnreserved(ws: seq<Waiter>, world: World)
    requires WaitersOk(ws, world) && AllReserved(ws)
    ensures !Grant(ws, world).taken
  {
    GrantPrefix(ws, [], world);
    assert ws + [] == ws;
  }

  lemma {:induction false} DispatchKeeps(s: Sem, n: nat)
    requires SemOk(s)
    ensures var r := Dispatch(s, n);
      SemOk(r) && r.permits + Reserved(r.waiters) == s.permits + Reserved(s.waiters) + n
    decreases n
  {
    if n > 0 {
      var g := Grant(s.waiters, s.world);
      GrantExact(s.waiters, s.world);
      GrantKeeps(s.waiters, s.world);
      GrantWorld(s.waiters, s.world);
      if s.permits > 0 {
        TakenUnreserved(s.waiters, s.world);
      }
      forall w: nat | w < |g.world| && g.world[w].Alive()
        ensures Listed(g.waiters, w)
      {
        assert s.world[w].Alive();
        GrantAllListed(s.waiters, s.world, w);
      }
      DispatchKeeps(DispatchOne(s), n - 1);
    }
  }

  lemma CleanupKeeps(s: Sem)
    requires SemOk(s)
    ensures SemOk(Cleanup(s)) && Cleanup(s).permits + Reserved(Cleanup(s).waiters) == s.permits + Reserved(s.waiters)
  {
    SweepExact(s.waiters, s.world);
    SweepKeeps(s.waiters, s.world);
    SweepAllListed(s.waiters, s.world);
    var swept := Sweep(s.waiters, s.world);
    if s.permits > 0 {
      forall i | 0 <= i < |swept|
        ensures swept[i].reserved
      {
        assert swept[i] in s.waiters;
      }
    }
    DispatchKeeps(s.(waiters := swept), Returned(s.waiters, s.world));
  }

  lemma RemoveKeeps(s: Sem, i: nat, world: World)
    requires SemOk(s) && i < |s.waiters|
    requires WaitersOk(Without(s.waiters, i), world) && AllListed(Without(s.waiters, i), world)
    ensures SemOk(s.(waiters := Without(s.waiters, i), world := world))
  {
  }

  lemma StepKeeps(a: Account, e: Event, b: Account, initial: nat)
    requires Inv(a, initial) && Step(a, e, b)
    ensures Inv(b, initial)
  {
    var s := a.sem;
    match e
    case Cleaning => CleanupKeeps(s);
    case Taking =>
    case Arriving => ArriveExact(s.waiters, s.world);
    case Cancelling(w) => CancelledKeeps(s.waiters, s.world, w);
    case Resuming(w) =>
      ResumedKeeps(s.waiters, s.world, w);
      RemoveKeeps(s, Find(s.waiters, w), s.world[w := Resumed]);
    case Abandoning(w) =>
      if Find(s.waiters, w) < |s.waiters| {
        AbandonedKeeps(s.waiters, s.world, w);
        RemoveKeeps(s, Find(s.waiters, w), s.world);
      }
    case Releasing(n) =>
    case Dispatching(n) => DispatchKeeps(s, n);
  }

  // ---------------------------------------------------------------------------------------------
  // When a permit can be had
  // ---------------------------------------------------------------------------------------------

  function ParkedIn(world: World): nat {
    if world == [] then 0
    else ParkedIn(world[..|world| - 1]) + if world[|world| - 1].Parked? then 1 else 0
  }

  lemma {:induction false} ParkedSome(world: World)
    ensures ParkedIn(world) > 0 <==> SomeParked(world)
  {
    if world != [] {
      var n := |world| - 1;
      ParkedSome(world[..n]);
      assert forall w: nat :: w < n ==> world[..n][w] == world[w];
      if SomeParked(world) && !world[n].Parked? {
        var w: nat :| w < |world| && world[w].Parked?;
        assert world[..n][w].Parked?;
      }
    }
  }

  lemma {:induction false} ParkedWake(world: World, w: nat)
    requires w < |world| && world[w].Parked?
    ensures ParkedIn(Wake(world, w)) == ParkedIn(world) - 1
  {
    var n := |world| - 1;
    if w < n {
      ParkedWake(world[..n], w);
      assert Wake(world, w)[..n] == Wake(world[..n], w);
    } else {
      assert Wake(world, w)[..n] == world[..n];
    }
  }

  lemma OneDispatched(s: Sem)
    requires SemOk(s)
    ensures var parked := ParkedIn(s.world); var t := DispatchOne(s);
      && SemOk(t) && t.permits == s.permits + (if parked == 0 then 1 else 0)
      && ParkedIn(t.world) == if parked == 0 then 0 else parked - 1
  {
    var g := Grant(s.waiters, s.world);
    DispatchKeeps(s, 1);
    assert Dispatch(s, 1) == Dispatch(DispatchOne(s), 0);
    GrantPicks(s.waiters, s.world);
    ParkedSome(s.world);
    if g.taken {
      var w :| FirstParked(s.world, w) && g.world == Wake(s.world, w);
      ParkedWake(s.world, w);
    } else {
      UntakenWorld(s);
    }
  }

  /** Permits that come back go to those who are parked first, and only the rest is available. */
  lemma {:induction false} DispatchExact(s: Sem, n: nat)
    requires SemOk(s)
    ensures var parked := ParkedIn(s.world); var r := Dispatch(s, n);
      && r.permits == s.permits + (if n > parked then n - parked else 0)
      && ParkedIn(r.world) == if n > parked then 0 else parked - n
    decreases n
  {
    hide SemOk;
    if n > 0 {
      OneDispatched(s);
      assert Dispatch(s, n) == Dispatch(DispatchOne(s), n - 1);
      DispatchExact(DispatchOne(s), n - 1);
    }
  }

  lemma UntakenWorld(s: Sem)
    requires SemOk(s) && !Grant(s.waiters, s.world).taken
    ensures Grant(s.waiters, s.world).world == s.world
  {
    GrantExact(s.waiters, s.world);
  }

  /** `try_acquire` succeeds exactly when a permit is available, or more come back from cancelled waiters than there are
      coroutines parked to take them; and it then takes one. */
  lemma TryAcquireExact(s: Sem)
    requires SemOk(s)
    ensures var (t, taken) := Take(Cleanup(s)); var parked := ParkedIn(s.world);
      && (taken <==> s.permits > 0 || Returned(s.waiters, s.world) > parked)
      && t.permits + (if taken then 1 else 0)
         == s.permits + if Returned(s.waiters, s.world) > parked then Returned(s.waiters, s.world) - parked else 0
  {
    SweepKeeps(s.waiters, s.world);
    SweepAllListed(s.waiters, s.world);
    var swept := Sweep(s.waiters, s.world);
    SweepExact(s.waiters, s.world);
    forall i | 0 <= i < |swept| && s.permits > 0
      ensures swept[i].reserved
    {
      assert swept[i] in s.waiters;
    }
    DispatchExact(s.(waiters := swept), Returned(s.waiters, s.world));
  }

  /** In any run, an attempt to take a permit succeeds exactly when one is available; then nobody is parked. */
  lemma TakingExact(states: seq<Account>, events: seq<Event>, initial: nat, n: nat)
    requires IsRun(states, events, initial) && n < |events| && events[n].Taking?
    ensures var a, b := states[n], states[n + 1];
      && (b.granted == a.granted + 1 <==> a.sem.permits > 0)
      && b.sem.permits == (if a.sem.permits > 0 then a.sem.permits - 1 else 0)
      && (a.sem.permits > 0 ==> ParkedIn(a.sem.world) == 0)
  {
    PermitsAreConserved(states, events, initial, n);
    ParkedSome(states[n].sem.world);
    assert Step(states[n], events[n], states[n + 1]);
  }

  lemma {:induction false} DispatchWakes(s: Sem, n: nat)
    ensures OnlyWoken(s.world, Dispatch(s, n).world)
    decreases n
  {
    if n > 0 {
      GrantWorld(s.waiters, s.world);
      DispatchWakes(DispatchOne(s), n - 1);
    }
  }

  /** What an operation of the semaphore does to the waits: it wakes some that were parked, and a coroutine that was
      woken goes on. */
  lemma StepServes(a: Account, e: Event, b: Account)
    requires Step(a, e, b) && !e.Arriving? && !e.Cancelling?
    ensures Served(a.sem.world, b.sem.world)
  {
    match e
    case Cleaning =>
      DispatchWakes(a.sem.(waiters := Sweep(a.sem.waiters, a.sem.world)), Returned(a.sem.waiters, a.sem.world));
    case Dispatching(n) => DispatchWakes(a.sem, n);
    case _ =>
  }

  ghost predicate IsRun(states: seq<Account>, events: seq<Event>, initial: nat) {
    && |states| == |events| + 1 && states[0] == Account(Sem(initial, [], []), 0, 0, 0)
    && forall k {:trigger events[k]} :: 0 <= k < |events| ==> Step(states[k], events[k], states[k + 1])
  }

  lemma {:induction false} RunKeeps(states: seq<Account>, events: seq<Event>, initial: nat, n: nat)
    requires IsRun(states, events, initial) && n < |states|
    ensures Inv(states[n], initial)
  {
    if n > 0 {
      RunKeeps(states, events, initial, n - 1);
      StepKeeps(states[n - 1], events[n - 1], states[n], initial);
    }
  }

  /** In every state of every run, whoever is cancelled when: permits are conserved, a permit is
      available only when nobody is left without a reservation, nobody is served before an earlier
      waiter, and a woken waiter finds its permit. */
  lemma PermitsAreConserved(states: seq<Account>, events: seq<Event>, initial: nat, n: nat)
    requires IsRun(states, events, initial) && n < |states|
    ensures var a := states[n]; var ws := a.sem.waiters;
      && a.sem.permits + Reserved(ws) + a.owed + a.granted == initial + a.released
      && (a.sem.permits > 0 ==> forall i :: 0 <= i < |ws| ==> ws[i].reserved)
      && (forall w: nat :: w < |a.sem.world| && a.sem.world[w].Parked? ==> a.sem.permits == 0)
      && (forall v: nat, w: nat :: v < w < |a.sem.world| && a.sem.world[w].Woken? ==> !a.sem.world[v].Parked?)
      && (forall w: nat :: w < |a.sem.world| && a.sem.world[w].Woken? ==> Finish(a.sem, w).Some?)
  {
    RunKeeps(states, events, initial, n);
    var s := states[n].sem;
    forall w: nat | w < |s.world| && s.world[w].Parked?
      ensures s.permits == 0
    {
      assert Listed(s.waiters, w);
      var i :| 0 <= i < |s.waiters| && s.waiters[i].wait == w;
      assert Fits(s.world, s.waiters[i]);
    }
    forall w: nat | w < |s.world| && s.world[w].Woken?
      ensures Finish(s, w).Some?
    {
      ResumedKeeps(s.waiters, s.world, w);
    }
    forall v: nat, w: nat | v < w < |s.world| && s.world[w].Woken?
      ensures !s.world[v].Parked?
    {
      ServedInOrder(s.waiters, s.world, v, w);
    }
  }

  // ---------------------------------------------------------------------------------------------
  // The class
  // ---------------------------------------------------------------------------------------------

  class Semaphore {
    const table: WaitTable
    var permits: nat
    var waiters: seq<Waiter>

    constructor (permits: nat, table: WaitTable)
      ensures this.table == table && this.permits == permits && waiters == []
    {
      this.table := table;
      this.permits := permits;
      waiters := [];
    }

    ghost function View(): Sem
      reads this, table
    {
      Sem(permits, waiters, table.world)
    }

    /** Hands out n permits, each to the first waiter without one; what nobody takes is available. */
    method DispatchPermits(n: nat)
      modifies this, table
      ensures View() == Dispatch(old(View()), n)
    {
      for permit := 0 to n
        invariant Dispatch(View(), n - permit) == Dispatch(old(View()), n)
      {
        var after, taken := HandOut(waiters, table);
        waiters := after;
        if !taken {
          permits := permits + 1;
        }
      }
    }

    /** Drops the waiters that have been cancelled and hands their permits on. */
    method CleanUp()
      modifies this, table
      ensures View() == Cleanup(old(View()))
    {
      var after, returned := SweepOut(waiters, table);
      waiters := after;
      if returned != 0 {
        DispatchPermits(returned);
      }
    }

    method TryAcquire() returns (taken: bool)
      modifies this, table
      ensures (View(), taken) == Take(Cleanup(old(View())))
    {
      CleanUp();
      taken := permits != 0;
      if taken {
        permits := permits - 1;
      }
    }

    method Release(n: nat)
      modifies this, table
      ensures View() == if n == 0 then old(View()) else Dispatch(Cleanup(old(View())), n)
    {
      if n != 0 {
        CleanUp();
        DispatchPermits(n);
      }
    }

    /** `None` when a permit was available after all, otherwise the wait that has begun. */
    method Suspend() returns (wait: Option<nat>)
      modifies this, table
      ensures var s := Cleanup(old(View()));
        if s.permits != 0 then wait == None && View() == Take(s).0
        else wait == Some(|s.world|) && View() == Arrive(s)
    {
      CleanUp();
      if permits != 0 {
        permits := permits - 1;
        wait := None;
      } else {
        var w := table.Park();
        waiters := waiters + [Waiter(w, false)];
        wait := Some(w);
      }
    }

    /** False where the source aborts. */
    method FinishAcquire(wait: nat) returns (ok: bool)
      modifies this, table
      ensures ok <==> Finish(old(View()), wait).Some?
      ensures ok ==> View() == Cleanup(Finish(old(View()), wait).value)
      ensures !ok ==> View() == old(View())
    {
      var i := Search(waiters, wait);
      ok := i < |waiters| && waiters[i].reserved;
      if ok {
        waiters := waiters[..i] + waiters[i + 1..];
        CleanUp();
      }
    }

    method AbandonWait(wait: nat)
      modifies this, table
      ensures var (s, n) := Abandon(old(View()), wait);
        View() == if Find(old(waiters), wait) == |old(waiters)| then old(View()) else Dispatch(Cleanup(s), n)
    {
      var i := Search(waiters, wait);
      if i < |waiters| {
        var returnPermit := waiters[i].reserved;
        waiters := waiters[..i] + waiters[i + 1..];
        CleanUp();
        if returnPermit {
          DispatchPermits(1);
        }
      }
    }
  }
}
