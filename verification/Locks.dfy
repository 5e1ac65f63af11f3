/** `Lock`: ownership is handed to the next waiter before it runs. */
module Locks {
  import opened Registrations
  import opened ExternalWaits

  datatype LockState = LockState(locked: bool, pending: bool, waiters: seq<Waiter>, world: World)

  /** `handoff_or_unlock` */
  function Handoff(s: LockState): LockState {
    var g := Grant(s.waiters, s.world);
    if g.taken then s.(pending := true, waiters := g.waiters, world := g.world)
    else
      s.(locked := false, pending := if |g.waiters| < |s.waiters| then false else s.pending,
         waiters := g.waiters, world := g.world)
  }

  /** `cleanup` */
  function Cleanup(s: LockState): LockState {
    var swept := s.(waiters := Sweep(s.waiters, s.world));
    if Returned(s.waiters, s.world) == 0 then swept else Handoff(swept.(pending := false))
  }

  /** What `try_acquire` does after its cleanup. */
  function Take(s: LockState): (LockState, bool) {
    if s.locked then (s, false) else (s.(locked := true), true)
  }

  /** What `suspend` does after its cleanup, when the lock is taken. */
  function Arrive(s: LockState): LockState {
    s.(waiters := s.waiters + [Waiter(|s.world|, false)], world := s.world + [Parked])
  }

  /** `release`; `None` when it aborts. */
  function Release(s: LockState): Option<LockState> {
    if s.waiters == [] && !s.pending then
      if s.locked then Some(s.(locked := false)) else None
    else
      var c := Cleanup(s);
      if !c.locked || c.pending then None else Some(Handoff(c))
  }

  /** `finish_acquire` before its cleanup; `None` when it aborts. */
  function Finish(s: LockState, wait: nat): Option<LockState> {
    var i := Find(s.waiters, wait);
    if i == |s.waiters| || !s.waiters[i].reserved || !s.pending then None
    else Some(s.(waiters := Without(s.waiters, i), pending := false))
  }

  /** `abandon` */
  function Abandon(s: LockState, wait: nat): LockState {
    var i := Find(s.waiters, wait);
    if i == |s.waiters| then s
    else
      var promised := s.waiters[i].reserved;
      var c := Cleanup(s.(waiters := Without(s.waiters, i), pending := if promised then false else s.pending));
      if promised then Handoff(c) else c
  }

  // ---------------------------------------------------------------------------------------------
  // Runs
  // ---------------------------------------------------------------------------------------------

  datatype Event =
    | Cleaning
    | Taking(party: nat)
    | Arriving(party: nat)
    | Releasing(party: nat)
    | Cancelling(wait: nat)
    | Resuming(wait: nat)
    | Abandoning(wait: nat)

  /** The lock, the parties that took it or were resumed with it and have not released it since, each as
      often as it did, and the party that began each wait. The lock itself keeps no account of either. */
  datatype Ownership = Ownership(lock: LockState, owners: multiset<nat>, callers: seq<nat>)

  ghost predicate Step(a: Ownership, e: Event, b: Ownership) {
    var s := a.lock;
    match e
    case Cleaning => b == a.(lock := Cleanup(s))
    case Taking(p) =>
      var (t, taken) := Take(s);
      b == a.(lock := t, owners := if taken then a.owners + multiset{p} else a.owners)
    case Arriving(p) => s.locked && b == a.(lock := Arrive(s), callers := a.callers + [p])
    case Releasing(p) => Release(s).Some? && b == a.(lock := Release(s).value, owners := a.owners - multiset{p})
    case Cancelling(w) => w < |s.world| && s.world[w].Alive() && b == a.(lock := s.(world := s.world[w := Gone]))
    case Resuming(w) =>
      && w < |s.world| && w < |a.callers| && s.world[w].Woken? && Finish(s, w).Some?
      && b == a.(lock := Finish(s, w).value.(world := s.world[w := Resumed]),
                 owners := a.owners + multiset{a.callers[w]})
    case Abandoning(w) => w < |s.world| && s.world[w].Gone? && b == a.(lock := Abandon(s, w))
  }

  ghost predicate ListOk(s: LockState) {
    WaitersOk(s.waiters, s.world) && AllListed(s.waiters, s.world)
  }

  /** A handoff is pending just while one waiter is promised the lock, which is then not free; and nobody
      waits for a lock that is free. */
  ghost predicate Inv(s: LockState) {
    && ListOk(s)
    && Reserved(s.waiters) == (if s.pending then 1 else 0)
    && (s.pending ==> s.locked)
    && (!s.locked ==> s.waiters == [])
  }

  /** The lock is not free and is promised to nobody. */
  predicate Taken(s: LockState) {
    s.locked && !s.pending
  }

  lemma GrantListOk(s: LockState)
    requires ListOk(s)
    ensures var g := Grant(s.waiters, s.world); WaitersOk(g.waiters, g.world) && AllListed(g.waiters, g.world)
  {
    var g := Grant(s.waiters, s.world);
    GrantKeeps(s.waiters, s.world);
    GrantWorld(s.waiters, s.world);
    forall w: nat | w < |g.world| && g.world[w].Alive()
      ensures Listed(g.waiters, w)
    {
      assert s.world[w].Alive();
      GrantAllListed(s.waiters, s.world, w);
    }
  }

  /** Ownership that has come back goes to the next waiter who is still parked; if there is none the
      lock is free, with nobody waiting. */
  lemma HandoffExact(s: LockState)
    requires ListOk(s) && s.locked && !s.pending && Reserved(s.waiters) == 0
    ensures Inv(Handoff(s)) && !Taken(Handoff(s))
    ensures Handoff(s).locked <==> SomeParked(s.world)
    ensures SomeParked(s.world) ==> exists w :: FirstParked(s.world, w) && Handoff(s).world == Wake(s.world, w)
  {
    var g := Grant(s.waiters, s.world);
    GrantListOk(s);
    GrantExact(s.waiters, s.world);
    GrantPicks(s.waiters, s.world);
    if !g.taken {
      ReservedAll(g.waiters);
    }
  }

  lemma SweepListOk(s: LockState)
    requires ListOk(s)
    ensures ListOk(s.(waiters := Sweep(s.waiters, s.world)))
    ensures Reserved(s.waiters) == Reserved(Sweep(s.waiters, s.world)) + Returned(s.waiters, s.world)
    ensures s.waiters == [] ==> Sweep(s.waiters, s.world) == []
  {
    SweepExact(s.waiters, s.world);
    SweepKeeps(s.waiters, s.world);
    SweepAllListed(s.waiters, s.world);
  }

  lemma CleanupKeeps(s: LockState)
    requires Inv(s)
    ensures Inv(Cleanup(s)) && |Cleanup(s).world| == |s.world|
    ensures Taken(Cleanup(s)) <==> Taken(s)
    ensures !s.pending ==> Cleanup(s) == s.(waiters := Sweep(s.waiters, s.world))
  {
    SweepListOk(s);
    if Returned(s.waiters, s.world) != 0 {
      var t := s.(waiters := Sweep(s.waiters, s.world), pending := false);
      HandoffExact(t);
      GrantWorld(t.waiters, t.world);
    }
  }

  /** A promise to a cancelled waiter passes to the next one still parked, or the lock becomes free. */
  lemma CleanupPassesOn(s: LockState, w: nat)
    requires Inv(s) && s.pending && w < |s.world| && s.world[w].Gone?
    requires exists i :: 0 <= i < |s.waiters| && s.waiters[i] == Waiter(w, true)
    ensures var c := Cleanup(s);
      && (c.locked <==> SomeParked(s.world)) && (c.pending <==> SomeParked(s.world))
      && (SomeParked(s.world) ==> exists v :: FirstParked(s.world, v) && c.world == Wake(s.world, v))
  {
    SweepListOk(s);
    var i :| 0 <= i < |s.waiters| && s.waiters[i] == Waiter(w, true);
    DeadReservation(s.waiters, s.world, i);
    HandoffExact(s.(waiters := Sweep(s.waiters, s.world), pending := false));
  }

  lemma {:induction false} DeadReservation(ws: seq<Waiter>, world: World, i: nat)
    requires i < |ws| && ws[i].reserved && !Lives(world, ws[i])
    ensures Returned(ws, world) > 0
  {
    if i < |ws| - 1 {
      DeadReservation(ws[..|ws| - 1], world, i);
    }
  }

  /** A release succeeds just while the lock is taken and promised to nobody; who calls it is not checked.
      The lock then goes to the waiter parked longest, or is free if there is none. */
  lemma ReleaseExact(s: LockState)
    requires Inv(s)
    ensures Release(s).Some? <==> Taken(s)
    ensures Taken(s) ==> var t := Release(s).value;
      && Inv(t) && !Taken(t) && |t.world| == |s.world|
      && (t.locked <==> SomeParked(s.world))
      && (SomeParked(s.world) ==> exists w :: FirstParked(s.world, w) && t.world == Wake(s.world, w))
  {
    CleanupKeeps(s);
    if Taken(s) {
      if SomeParked(s.world) {
        ParkedListed(s);
      }
      if s.waiters != [] {
        HandoffExact(Cleanup(s));
        GrantWorld(Cleanup(s).waiters, s.world);
      }
    }
  }

  lemma ParkedListed(s: LockState)
    requires ListOk(s) && SomeParked(s.world)
    ensures s.waiters != []
  {
    var w: nat :| w < |s.world| && s.world[w].Parked?;
    assert Listed(s.waiters, w);
  }

  lemma AbandonKeeps(s: LockState, w: nat)
    requires Inv(s) && w < |s.world| && s.world[w].Gone?
    ensures Inv(Abandon(s, w)) && |Abandon(s, w).world| == |s.world|
    ensures Taken(Abandon(s, w)) <==> Taken(s)
  {
    var i := Find(s.waiters, w);
    if i < |s.waiters| {
      AbandonedKeeps(s.waiters, s.world, w);
      var t := s.(waiters := Without(s.waiters, i), pending := if s.waiters[i].reserved then false else s.pending);
      if s.waiters[i].reserved {
        SweepListOk(t);
        HandoffExact(Cleanup(t));
        GrantWorld(Cleanup(t).waiters, t.world);
      } else {
        CleanupKeeps(t);
      }
    }
  }

  ghost predicate WithCallers(a: Ownership) {
    Inv(a.lock) && |a.callers| == |a.lock.world|
  }

  /** Exactly one party owns the lock while it is taken, and nobody owns it while it is free or promised. */
  ghost predicate Accounted(a: Ownership) {
    |a.owners| == if Taken(a.lock) then 1 else 0
  }

  /** The one thing that the lock cannot see: a release that is not made by an owner. */
  predicate Rightful(a: Ownership, e: Event) {
    e.Releasing? ==> e.party in a.owners
  }

  lemma StepKeeps(a: Ownership, e: Event, b: Ownership)
    requires WithCallers(a) && Step(a, e, b)
    ensures WithCallers(b)
    ensures match e
      case Taking(_) => (if a.lock.locked then b == a else Taken(b.lock))
      case Releasing(_) => Taken(a.lock) && !Taken(b.lock)
      case Resuming(_) => a.lock.pending && Taken(b.lock)
      case _ => Taken(b.lock) == Taken(a.lock)
  {
    var s := a.lock;
    match e
    case Cleaning => CleanupKeeps(s);
    case Taking(_) =>
    case Arriving(_) => ArriveExact(s.waiters, s.world);
    case Releasing(_) => ReleaseExact(s);
    case Cancelling(w) => CancelledKeeps(s.waiters, s.world, w);
    case Resuming(w) => ResumedKeeps(s.waiters, s.world, w);
    case Abandoning(w) => AbandonKeeps(s, w);
  }

  /** What an operation of the lock does to the waits: it wakes some that were parked, and a coroutine that was
      woken goes on. */
  lemma StepServes(a: Ownership, e: Event, b: Ownership)
    requires Step(a, e, b) && !e.Arriving? && !e.Cancelling?
    ensures Served(a.lock.world, b.lock.world)
  {
    var s := a.lock;
    match e
    case Taking(_) =>
    case Resuming(_) =>
    case Cleaning => CleanupServes(s);
    case Releasing(_) =>
      var c := Cleanup(s);
      CleanupServes(s);
      if c.locked && !c.pending && s.waiters != [] {
        GrantWorld(c.waiters, c.world);
      }
    case Abandoning(w) =>
      var i := Find(s.waiters, w);
      if i < |s.waiters| {
        var t := s.(waiters := Without(s.waiters, i), pending := if s.waiters[i].reserved then false else s.pending);
        CleanupServes(t);
        GrantWorld(Cleanup(t).waiters, Cleanup(t).world);
      }
  }

  lemma CleanupServes(s: LockState)
    ensures Served(s.world, Cleanup(s).world)
  {
    GrantWorld(Sweep(s.waiters, s.world), s.world);
  }

  /** Where the owners agree with the lock, a step keeps them in agreement just if it is not a release by
      somebody else. After such a release either a waiter is promised a lock that has an owner, or the lock
      is free although it has one, and whoever tries gets it too. */
  lemma RightfulExact(a: Ownership, e: Event, b: Ownership)
    requires WithCallers(a) && Accounted(a) && Step(a, e, b)
    ensures Accounted(b) <==> Rightful(a, e)
    ensures !Rightful(a, e) ==> |b.owners| == 1 && if b.lock.locked then b.lock.pending else Take(b.lock).1
  {
    hide Inv, Cleanup, Release, Handoff, Abandon, Finish;
    StepKeeps(a, e, b);
  }

  /** The lock that nobody has used yet. */
  function Unlocked(): Ownership {
    Ownership(LockState(false, false, [], []), multiset{}, [])
  }

  ghost predicate IsRun(states: seq<Ownership>, events: seq<Event>) {
    && |states| == |events| + 1
    && states[0] == Unlocked()
    && forall k {:trigger events[k]} :: 0 <= k < |events| ==> Step(states[k], events[k], states[k + 1])
  }

  lemma {:induction false} RunKeeps(states: seq<Ownership>, events: seq<Event>, n: nat)
    requires IsRun(states, events) && n < |states|
    ensures WithCallers(states[n])
  {
    if n > 0 {
      RunKeeps(states, events, n - 1);
      StepKeeps(states[n - 1], events[n - 1], states[n]);
    }
  }

  lemma StartsAccounted()
    ensures Accounted(Unlocked())
  {
  }

  ghost predicate AllRightful(states: seq<Ownership>, events: seq<Event>, n: nat)
    requires |states| > |events| >= n
  {
    forall k {:trigger events[k]} :: 0 <= k < n ==> Rightful(states[k], events[k])
  }

  /** The owners agree with the lock in every state of a run up to one just if every release before it was
      made by an owner. */
  lemma {:induction false} OwnersExact(states: seq<Ownership>, events: seq<Event>, n: nat)
    requires IsRun(states, events) && n < |states|
    ensures (forall k :: 0 <= k <= n ==> Accounted(states[k])) <==> AllRightful(states, events, n)
  {
    hide Accounted, Rightful, Step;
    if n == 0 {
      StartsAccounted();
    } else {
      var m := n - 1;
      OwnersExact(states, events, m);
      RunKeeps(states, events, m);
      assert Step(states[m], events[m], states[m + 1]);
      if Accounted(states[m]) {
        RightfulExact(states[m], events[m], states[n]);
      }
      assert AllRightful(states, events, n) <==> AllRightful(states, events, m) && Rightful(states[m], events[m]);
    }
  }

  /** In every state of every run a handoff is pending just when one waiter holds the promise, a free lock
      has no waiters, a woken waiter finds its promise, nobody overtakes an earlier waiter, and a release
      succeeds just while the lock is taken and promised to nobody. */
  lemma PromisesKept(states: seq<Ownership>, events: seq<Event>, n: nat)
    requires IsRun(states, events) && n < |states|
    ensures var s := states[n].lock;
      && (s.pending <==> Reserved(s.waiters) == 1) && Reserved(s.waiters) <= 1 && (s.pending ==> s.locked)
      && (!s.locked ==> s.waiters == [] && !SomeParked(s.world))
      && (forall w: nat :: w < |s.world| && s.world[w].Woken? ==> Finish(s, w).Some?)
      && (forall v: nat, w: nat :: v < w < |s.world| && s.world[w].Woken? ==> !s.world[v].Parked?)
      && (Release(s).Some? <==> Taken(s))
  {
    RunKeeps(states, events, n);
    var s := states[n].lock;
    ReleaseExact(s);
    if SomeParked(s.world) {
      ParkedListed(s);
    }
    forall w: nat | w < |s.world| && s.world[w].Woken?
      ensures Finish(s, w).Some?
    {
      ResumedKeeps(s.waiters, s.world, w);
    }
    forall v: nat, w: nat | v < w < |s.world| && s.world[w].Woken?
      ensures !s.world[v].Parked?
    {
      ServedInOrder(s.waiters, s.world, v, w);
    }
  }

  /** If every release so far was made by an owner, at most one party owns the lock or has been promised
      it, one of the two just while the lock is not free, and whoever can take the lock now, or be resumed
      with it, does so while nobody owns it; and a release succeeds just while somebody does. */
  lemma AtMostOneOwner(states: seq<Ownership>, events: seq<Event>, n: nat)
    requires IsRun(states, events) && n < |states| && AllRightful(states, events, n)
    ensures var a := states[n]; var s := a.lock;
      && |a.owners| + Reserved(s.waiters) == (if s.locked then 1 else 0)
      && (Take(s).1 ==> a.owners == multiset{})
      && (forall w: nat :: w < |s.world| && s.world[w].Woken? ==> a.owners == multiset{})
      && (Release(s).Some? <==> exists p :: p in a.owners)
  {
    OwnersExact(states, events, n);
    var a := states[n];
    RunKeeps(states, events, n);
    ReleaseExact(a.lock);
    assert Accounted(a);
    if |a.owners| == 1 {
      var p :| p in a.owners;
    }
    forall w: nat | w < |a.lock.world| && a.lock.world[w].Woken?
      ensures a.owners == multiset{}
    {
      ResumedKeeps(a.lock.waiters, a.lock.world, w);
    }
  }

  /** Without that discipline two parties come to own the lock in three steps: one takes it, the other
      releases it and then takes it. */
  lemma TwoOwnersExample(p: nat, q: nat)
    requires p != q
    ensures exists states: seq<Ownership>, events: seq<Event> ::
      IsRun(states, events) && events == [Taking(p), Releasing(q), Taking(q)]
      && !Rightful(states[1], events[1]) && states[3].owners == multiset{p, q}
  {
    var free, taken := LockState(false, false, [], []), LockState(true, false, [], []);
    var states := [Ownership(free, multiset{}, []), Ownership(taken, multiset{p}, []),
                   Ownership(free, multiset{p}, []), Ownership(taken, multiset{p, q}, [])];
    assert IsRun(states, [Taking(p), Releasing(q), Taking(q)]);
  }

  // ---------------------------------------------------------------------------------------------
  // The class
  // ---------------------------------------------------------------------------------------------

  class Lock {
    const table: WaitTable
    var locked: bool
    var handoffPending: bool
    var waiters: seq<Waiter>

    constructor (table: WaitTable)
      ensures this.table == table && !locked && !handoffPending && waiters == []
    {
      this.table := table;
      locked := false;
      handoffPending := false;
      waiters := [];
    }

    ghost function View(): LockState
      reads this, table
    {
      LockState(locked, handoffPending, waiters, table.world)
    }

    method HandoffOrUnlock()
      modifies this, table
      ensures View() == Handoff(old(View()))
    {
      var after, taken := HandOut(waiters, table);
      if taken {
        handoffPending := true;
      } else {
        if |after| < |waiters| {
          handoffPending := false;
        }
        locked := false;
      }
      waiters := after;
    }

    method CleanUp()
      modifies this, table
      ensures View() == Cleanup(old(View()))
    {
      if waiters != [] {
        var after, returned := SweepOut(waiters, table);
        waiters := after;
        if returned != 0 {
          handoffPending := false;
          HandoffOrUnlock();
        }
      }
    }

    method TryAcquire() returns (taken: bool)
      modifies this, table
      ensures (View(), taken) == Take(Cleanup(old(View())))
    {
      CleanUp();
      taken := !locked;
      locked := true;
    }

    /** False where the source aborts. */
    method ReleaseLock() returns (ok: bool)
      modifies this, table
      ensures ok <==> Release(old(View())).Some?
      ensures ok ==> View() == Release(old(View())).value
    {
      if waiters == [] && !handoffPending {
        ok := locked;
        locked := false;
      } else {
        CleanUp();
        ok := locked && !handoffPending;
        if ok {
          HandoffOrUnlock();
        }
      }
    }

    /** `None` when the lock was free after all, otherwise the wait that has begun. */
    method Suspend() returns (wait: Option<nat>)
      modifies this, table
      ensures var s := Cleanup(old(View()));
        if !s.locked then wait == None && View() == Take(s).0
        else wait == Some(|s.world|) && View() == Arrive(s)
    {
      CleanUp();
      if !locked {
        locked := true;
        wait := None;
      } else {
        var w := table.Park();
        waiters := waiters + [Waiter(w, false)];
        wait := Some(w);
      }
    }

    /** False where the source aborts. */
    method FinishAcquire(wait: nat) returns (ok: bool)
      modifies this, table
      ensures ok <==> Finish(old(View()), wait).Some?
      ensures ok ==> View() == Cleanup(Finish(old(View()), wait).value)
    {
      var i := Search(waiters, wait);
      ok := i < |waiters| && waiters[i].reserved && handoffPending;
      if ok {
        waiters := waiters[..i] + waiters[i + 1..];
        handoffPending := false;
        CleanUp();
      }
    }

    method AbandonWait(wait: nat)
      modifies this, table
      ensures View() == Abandon(old(View()), wait)
    {
      var i := Search(waiters, wait);
      if i < |waiters| {
        var returnOwnership := waiters[i].reserved;
        waiters := waiters[..i] + waiters[i + 1..];
        if returnOwnership {
          handoffPending := false;
        }
        CleanUp();
        if returnOwnership {
          HandoffOrUnlock();
        }
      }
    }
  }
}
