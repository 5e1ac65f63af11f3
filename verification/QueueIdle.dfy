/** Exactly when a step of a `Queue` leaves an item idle while a consumer is parked, or a free place while a
producer is parked; and the order in which values are delivered. */
module QueueIdle {
  import opened ExternalWaits
  import opened Queues

  /** The items that no living consumer has reserved: what a cleanup leaves free. */
  function FreeItems<T>(q: Store<T>): int {
    |q.items| - q.getters.reserved + Returned(q.getters.waiters, q.getters.world)
  }

  /** After a cleanup at least n places are free. */
  predicate PlacesFree<T>(q: Store<T>, n: nat) {
    q.bound == 0 || |q.items| + q.putters.reserved - Returned(q.putters.waiters, q.putters.world) + n <= q.bound
  }

  /** Somebody other than w is parked. */
  ghost predicate OtherParked(world: World, w: nat) {
    exists v: nat :: v < |world| && v != w && world[v].Parked?
  }

  predicate InLine(l: Line, w: nat) {
    Find(l.waiters, w) < |l.waiters|
  }

  /** What a step leaves of items and of consumers in wait, read from the state before it: an item stays free
      with a consumer parked. */
  ghost predicate LeavesItemIdle<T>(q: Store<T>, e: Event<T>) {
    var parked := SomeParked(q.getters.world);
    match e
    case Cleaning => FreeItems(q) > 0 && parked
    case WakingProducers => FreeItems(q) > 0 && parked
    case PuttingNow(_) => !PlacesFree(q, 1) && FreeItems(q) > 0 && parked
    case Putting(_) => !PlacesFree(q, 1) && FreeItems(q) > 0 && parked
    case GettingNow => FreeItems(q) > 1 && parked
    case Getting => FreeItems(q) > 1 && parked
    case ResumingGet(_) => false
    case ResumingPut(_, _) => false
    case CancellingGet(w) => HasItem(q) && OtherParked(q.getters.world, w)
    case CancellingPut(_) => HasItem(q) && parked
    case AbandoningGet(w) => !InLine(q.getters, w) && HasItem(q) && parked
    case AbandoningPut(w) => (if InLine(q.putters, w) then FreeItems(q) > 0 else HasItem(q)) && parked
  }

  /** The same for places and producers. */
  ghost predicate LeavesPlaceIdle<T>(q: Store<T>, e: Event<T>) {
    var parked := SomeParked(q.putters.world);
    match e
    case Cleaning => PlacesFree(q, 1) && parked
    case WakingProducers => false
    case PuttingNow(_) => PlacesFree(q, 2) && parked
    case Putting(_) => PlacesFree(q, 2) && parked
    case GettingNow => FreeItems(q) <= 0 && PlacesFree(q, 1) && parked
    case Getting => FreeItems(q) <= 0 && PlacesFree(q, 1) && parked
    case ResumingGet(_) => parked
    case ResumingPut(_, _) => PlacesFree(q, 1) && parked
    case CancellingGet(_) => HasPlace(q) && parked
    case CancellingPut(w) => HasPlace(q) && OtherParked(q.putters.world, w)
    case AbandoningGet(w) => (if InLine(q.getters, w) then PlacesFree(q, 1) else HasPlace(q)) && parked
    case AbandoningPut(w) => !InLine(q.putters, w) && HasPlace(q) && parked
  }

  // ---------------------------------------------------------------------------------------------
  // The parts of a step
  // ---------------------------------------------------------------------------------------------

  lemma CleanFacts<T>(q: Store<T>)
    ensures HasItem(Cleanup(q)) <==> FreeItems(q) > 0
    ensures HasPlace(Cleanup(q)) <==> PlacesFree(q, 1)
    ensures FreeItems(Cleanup(q)) == FreeItems(q)
    ensures forall n :: PlacesFree(Cleanup(q), n) <==> PlacesFree(q, n)
    ensures Cleanup(q).getters.world == q.getters.world && Cleanup(q).putters.world == q.putters.world
  {
    SweepTwice(q.getters);
    SweepTwice(q.putters);
    SweptReturns(q.getters);
    SweptReturns(q.putters);
  }

  lemma SweptReturns(l: Line)
    ensures var s := SweepLine(l); Returned(s.waiters, s.world) == 0
  {
    SweepAlive(l.waiters, l.world);
    SweepAllAlive(Sweep(l.waiters, l.world), l.world);
  }

  lemma PutFacts<T>(q: Store<T>, x: T)
    requires StoreOk(q) && HasPlace(Cleanup(q))
    ensures var r := PutNow(q, x);
      && r.Some? && NoIdleItem(r.value)
      && (HasPlace(r.value) <==> PlacesFree(q, 2)) && r.value.putters.world == q.putters.world
  {
    hide WakeConsumers;
    PutNowKeeps(q, x);
    CleanupKeeps(q);
    var t := Cleanup(q).(items := q.items + [x]);
    WakeConsumersKeeps(t);
    SweepTwice(q.putters);
    assert WakeConsumers(t).bound == q.bound by { WakeBound(t); }
  }

  lemma WakeBound<T>(q: Store<T>)
    ensures WakeConsumers(q).bound == q.bound && WakeProducers(q).bound == q.bound
    ensures WakeProducers(q).getters.world == q.getters.world && WakeConsumers(q).putters.world == q.putters.world
  {
  }

  lemma GetFacts<T>(q: Store<T>)
    requires StoreOk(q) && HasItem(Cleanup(q))
    ensures var r := GetNow(q).0;
      && NoIdlePlace(r) && (HasItem(r) <==> FreeItems(q) > 1) && r.getters.world == q.getters.world
  {
    hide WakeProducers;
    GetNowKeeps(q);
    CleanupKeeps(q);
    var c := Cleanup(q);
    var t := c.(items := RemoveAt(c.items, c.getters.reserved));
    WakeProducersKeeps(t);
    WakeBound(t);
    SweepTwice(q.getters);
  }

  lemma ResumeGetFacts<T>(q: Store<T>, w: nat)
    requires StoreOk(q) && w < |q.getters.world| && q.getters.world[w].Woken?
    ensures var r := ConsumeReserved(SetGets(q, q.getters.world[w := Resumed]), w);
      && r.Some? && NoIdleItem(r.value.0) && HasPlace(r.value.0) && r.value.0.putters.world == q.putters.world
  {
    hide WakeConsumers, LineOk;
    ResumeGetKeeps(q, w);
    var l := q.getters;
    ResumeLine(l, w);
    var t := q.(items := q.items[1..], getters := Leave(l, Find(l.waiters, w)).(world := l.world[w := Resumed]));
    WakeConsumersKeeps(t);
    WakeBound(t);
  }

  lemma {:induction false} OthersReturn(ws: seq<Waiter>, world: World, w: nat, s: Status)
    requires w < |world| && forall i :: 0 <= i < |ws| ==> ws[i].wait != w
    ensures Returned(ws, world[w := s]) == Returned(ws, world)
  {
    if ws != [] {
      OthersReturn(ws[..|ws| - 1], world, w, s);
    }
  }

  lemma {:induction false} LeaveReturns(ws: seq<Waiter>, i: nat, world: World)
    requires i < |ws|
    ensures Returned(ws, world)
         == Returned(Without(ws, i), world) + if ws[i].reserved && !Lives(world, ws[i]) then 1 else 0
  {
    var n := |ws| - 1;
    if i == n {
      assert Without(ws, i) == ws[..n];
    } else {
      LeaveReturns(ws[..n], i, world);
      assert Without(ws, i)[..|Without(ws, i)| - 1] == Without(ws[..n], i);
    }
  }

  lemma ResumedParked(world: World, w: nat)
    requires w < |world| && world[w].Woken?
    ensures SomeParked(world[w := Resumed]) <==> SomeParked(world)
  {
    var after := world[w := Resumed];
    if SomeParked(world) {
      var v: nat :| v < |world| && world[v].Parked?;
      assert after[v].Parked?;
    }
    if SomeParked(after) {
      var v: nat :| v < |after| && after[v].Parked?;
      assert world[v].Parked?;
    }
  }

  lemma OthersStay(ws: seq<Waiter>, i: nat, world: World)
    requires i < |ws| && WaitersOk(ws, world)
    ensures forall k :: 0 <= k < |Without(ws, i)| ==> Without(ws, i)[k].wait != ws[i].wait
  {
    forall k | 0 <= k < |Without(ws, i)|
      ensures Without(ws, i)[k].wait != ws[i].wait
    {
      assert Without(ws, i)[k] == ws[if k < i then k else k + 1];
    }
  }

  lemma ResumedReturns(ws: seq<Waiter>, world: World, w: nat)
    requires WaitersOk(ws, world) && AllListed(ws, world) && w < |world| && world[w].Woken?
    ensures var i := Find(ws, w);
      i < |ws| && Returned(Without(ws, i), world[w := Resumed]) == Returned(ws, world)
    ensures SomeParked(world[w := Resumed]) <==> SomeParked(world)
  {
    hide WaitersOk, AllListed, Reserved, SomeParked, Without, Returned;
    ResumedKeeps(ws, world, w);
    LeaveReturns(ws, Find(ws, w), world);
    OthersStay(ws, Find(ws, w), world);
    OthersReturn(Without(ws, Find(ws, w)), world, w, Resumed);
    ResumedParked(world, w);
  }

  lemma ResumePutFacts<T>(q: Store<T>, w: nat, x: T)
    requires StoreOk(q) && w < |q.putters.world| && q.putters.world[w].Woken?
    ensures var r := ProduceReserved(SetPuts(q, q.putters.world[w := Resumed]), w, x);
      && r.Some? && NoIdleItem(r.value)
      && (NoIdlePlace(r.value) <==> !PlacesFree(q, 1) || !SomeParked(q.putters.world))
  {
    hide WakeConsumers, SomeParked, WaitersOk, AllListed;
    ResumePutKeeps(q, w, x);
    var l := q.putters;
    ResumeLine(l, w);
    ResumedReturns(l.waiters, l.world, w);
    var t := q.(items := q.items + [x], putters := Leave(l, Find(l.waiters, w)).(world := l.world[w := Resumed]));
    CleanupKeeps(t);
    WakeConsumersKeeps(Cleanup(t));
    WakeBound(Cleanup(t));
    SweepTwice(t.putters);
  }

  lemma AbandonGetFacts<T>(q: Store<T>, w: nat)
    requires StoreOk(q) && w < |q.getters.world| && q.getters.world[w].Gone? && InLine(q.getters, w)
    ensures var r := AbandonGet(q, w);
      NoIdleItem(r) && (HasPlace(r) <==> PlacesFree(q, 1)) && r.putters.world == q.putters.world
  {
    hide WakeConsumers;
    AbandonedKeeps(q.getters.waiters, q.getters.world, w);
    LeaveKeeps(q.getters, Find(q.getters.waiters, w), q.getters.world);
    var t := q.(getters := Leave(q.getters, Find(q.getters.waiters, w)));
    CleanupKeeps(t);
    WakeConsumersKeeps(Cleanup(t));
    WakeBound(Cleanup(t));
    SweepTwice(t.putters);
  }

  lemma AbandonPutFacts<T>(q: Store<T>, w: nat)
    requires StoreOk(q) && w < |q.putters.world| && q.putters.world[w].Gone? && InLine(q.putters, w)
    ensures var r := AbandonPut(q, w);
      NoIdlePlace(r) && (HasItem(r) <==> FreeItems(q) > 0) && r.getters.world == q.getters.world
  {
    hide WakeProducers;
    AbandonedKeeps(q.putters.waiters, q.putters.world, w);
    LeaveKeeps(q.putters, Find(q.putters.waiters, w), q.putters.world);
    var t := q.(putters := Leave(q.putters, Find(q.putters.waiters, w)));
    CleanupKeeps(t);
    WakeProducersKeeps(Cleanup(t));
    WakeBound(Cleanup(t));
    SweepTwice(t.getters);
  }

  lemma CancelFacts(world: World, w: nat)
    requires w < |world|
    ensures SomeParked(world[w := Gone]) <==> OtherParked(world, w)
  {
    var after := world[w := Gone];
    if OtherParked(world, w) {
      var v: nat :| v < |world| && v != w && world[v].Parked?;
      assert after[v].Parked?;
    }
    if SomeParked(after) {
      var v: nat :| v < |after| && after[v].Parked?;
      assert v != w && world[v].Parked?;
    }
  }

  // ---------------------------------------------------------------------------------------------
  // Items
  // ---------------------------------------------------------------------------------------------

  /** Whatever the step and whatever the state, an item is idle after it exactly when the state before says so. */
  lemma IdleItemExact<T>(a: Ledger<T>, e: Event<T>, b: Ledger<T>)
    requires Inv(a) && Step(a, e, b)
    ensures NoIdleItem(b.store) <==> !LeavesItemIdle(a.store, e)
  {
    hide Balanced, StoreOk, FreeItems, PlacesFree, WakeConsumers, WakeProducers, Serve, Sweep, Returned, SomeParked,
      OtherParked, Find, PutNow, GetNow, ConsumeReserved, ProduceReserved;
    var q, c := a.store, Cleanup(a.store);
    CleanFacts(q);
    CleanupKeeps(q);
    CleanTwice(q);
    match e
    case Cleaning =>
    case WakingProducers => ProducersFacts(q);
    case PuttingNow(x) => PutStepFacts(q, x);
    case Putting(x) => PutStepFacts(c, x);
    case GettingNow => GetStepFacts(a, q, b);
    case Getting =>
      if HasItem(c) {
        GetStepFacts(a, c, b);
      } else {
        assert b.store.items == q.items && b.store.getters.reserved == c.getters.reserved;
      }
    case ResumingGet(w) => ResumeGetFacts(q, w);
    case ResumingPut(w, x) => ResumePutFacts(q, w, x);
    case CancellingGet(w) => CancelFacts(q.getters.world, w);
    case CancellingPut(w) =>
    case AbandoningGet(w) =>
      if InLine(q.getters, w) {
        AbandonGetFacts(q, w);
      }
    case AbandoningPut(w) =>
      if InLine(q.putters, w) {
        AbandonPutFacts(q, w);
      }
  }

  lemma ProducersFacts<T>(q: Store<T>)
    requires StoreOk(q)
    ensures var r := WakeProducers(q);
      NoIdlePlace(r) && (HasItem(r) <==> FreeItems(q) > 0) && r.getters.world == q.getters.world
  {
    WakeProducersKeeps(q);
    WakeBound(q);
  }

  lemma PutStepFacts<T>(q: Store<T>, x: T)
    requires StoreOk(q)
    ensures PutNow(q, x).Some? <==> PlacesFree(q, 1)
    ensures PlacesFree(q, 1) ==>
      var r := PutNow(q, x).value;
      NoIdleItem(r) && (HasPlace(r) <==> PlacesFree(q, 2)) && r.putters.world == q.putters.world
  {
    PutNowKeeps(q, x);
    CleanFacts(q);
    if PlacesFree(q, 1) {
      PutFacts(q, x);
    }
  }

  lemma GetStepFacts<T>(a: Ledger<T>, q: Store<T>, b: Ledger<T>)
    requires StoreOk(q) && Takes(a, q, b)
    ensures b.store.getters.world == q.getters.world
    ensures HasItem(b.store) <==> FreeItems(q) > 1
    ensures FreeItems(q) > 0 ==> NoIdlePlace(b.store)
    ensures FreeItems(q) <= 0 ==> b.store == Cleanup(q)
  {
    GetNowKeeps(q);
    CleanFacts(q);
    if HasItem(Cleanup(q)) {
      GetFacts(q);
    }
  }

  /** The failing family when nothing was idle before: the step sweeps out cancelled consumers with items
      reserved, more of them than it takes items itself, offers the freed items to nobody, and another consumer is
      parked. */
  ghost predicate Strands<T>(q: Store<T>, e: Event<T>) {
    var freed := Returned(q.getters.waiters, q.getters.world);
    && SomeParked(q.getters.world)
    && match e
       case Cleaning => freed > 0
       case WakingProducers => freed > 0
       case PuttingNow(_) => !PlacesFree(q, 1) && freed > 0
       case Putting(_) => !PlacesFree(q, 1) && freed > 0
       case GettingNow => freed > 1
       case Getting => freed > 1
       case AbandoningPut(w) => InLine(q.putters, w) && freed > 0
       case _ => false
  }

  lemma StrandsExact<T>(a: Ledger<T>, e: Event<T>, b: Ledger<T>)
    requires Inv(a) && Step(a, e, b) && NoIdleItem(a.store)
    ensures NoIdleItem(b.store) <==> !Strands(a.store, e)
  {
    hide Balanced, Returned, WakeConsumers, WakeProducers, Find, Cleanup;
    IdleItemExact(a, e, b);
    var world := a.store.getters.world;
    if e.CancellingGet? && OtherParked(world, e.wait) {
      var v: nat :| v < |world| && v != e.wait && world[v].Parked?;
      assert SomeParked(world);
    }
  }

  /** Over a whole run: no item is ever idle with a consumer parked, exactly when no step of it strands one. */
  lemma {:induction false} IdleRunExact<T>(states: seq<Ledger<T>>, events: seq<Event<T>>, bound: nat, n: nat)
    requires IsRun(states, events, bound) && n < |states|
    ensures (forall k :: 0 <= k <= n ==> NoIdleItem(states[k].store))
       <==> (forall k :: 0 <= k < n ==> !Strands(states[k].store, events[k]))
  {
    hide NoIdleItem, Strands, Step;
    if n > 0 {
      IdleRunExact(states, events, bound, n - 1);
      RunKeeps(states, events, bound, n - 1);
      if NoIdleItem(states[n - 1].store) {
        StrandsExact(states[n - 1], events[n - 1], states[n]);
      }
    } else {
      StartsBusy(states[0].store, bound);
    }
  }

  lemma StartsBusy<T>(q: Store<T>, bound: nat)
    requires q == Empty(bound)
    ensures NoIdleItem(q) && NoIdlePlace(q)
  {
  }

  ghost predicate NobodyGone(world: World) {
    forall w: nat :: w < |world| ==> !world[w].Gone?
  }

  lemma {:induction false} NothingReturned(ws: seq<Waiter>, world: World)
    requires WaitersOk(ws, world) && NobodyGone(world)
    ensures Returned(ws, world) == 0
  {
    if ws != [] {
      var front, last := ws[..|ws| - 1], ws[|ws| - 1];
      assert Fits(world, last);
      NothingReturned(front, world);
    }
  }

  lemma {:induction false} ServeNobodyGone(ws: seq<Waiter>, world: World, supply: int)
    requires NobodyGone(world)
    ensures NobodyGone(GrantEach(ws, world, supply).world)
  {
    if ws != [] && supply > 0 {
      if ws[0].reserved || !Wakeable(world, ws[0]) {
        ServeNobodyGone(ws[1..], world, supply);
      } else {
        ServeNobodyGone(ws[1..], Wake(world, ws[0].wait), supply - 1);
      }
    }
  }

  lemma WakeNobodyGone<T>(q: Store<T>)
    requires NobodyGone(q.getters.world)
    ensures NobodyGone(WakeConsumers(q).getters.world)
  {
    var c := Cleanup(q);
    ServeNobodyGone(c.getters.waiters, c.getters.world, |c.items| - c.getters.reserved);
  }

  lemma StillNobodyGone<T>(a: Ledger<T>, e: Event<T>, b: Ledger<T>)
    requires Step(a, e, b) && NobodyGone(a.store.getters.world) && !e.CancellingGet?
    ensures NobodyGone(b.store.getters.world)
  {
    hide WakeConsumers, Serve, Sweep, Returned, Without;
    var q, c := a.store, Cleanup(a.store);
    match e
    case PuttingNow(x) => WakeNobodyGone(c.(items := c.items + [x]));
    case Putting(x) =>
      var d := Cleanup(c);
      WakeNobodyGone(d.(items := d.items + [x]));
    case ResumingGet(w) =>
      var t := SetGets(q, q.getters.world[w := Resumed]);
      var i := Find(t.getters.waiters, w);
      WakeNobodyGone(t.(items := t.items[1..], getters := Leave(t.getters, i)));
    case ResumingPut(w, x) =>
      var t := SetPuts(q, q.putters.world[w := Resumed]);
      var i := Find(t.putters.waiters, w);
      WakeNobodyGone(Cleanup(t.(items := t.items + [x], putters := Leave(t.putters, i))));
    case _ =>
  }

  lemma NoConsumerReturned<T>(q: Store<T>)
    requires StoreOk(q) && NobodyGone(q.getters.world)
    ensures Returned(q.getters.waiters, q.getters.world) == 0
  {
    NothingReturned(q.getters.waiters, q.getters.world);
  }

  /** As long as no consumer is cancelled, no item lies idle while a consumer is parked. */
  lemma {:induction false} NoIdleItems<T>(states: seq<Ledger<T>>, events: seq<Event<T>>, bound: nat, n: nat)
    requires IsRun(states, events, bound) && n < |states|
    requires forall k :: 0 <= k < n ==> !events[k].CancellingGet?
    ensures NoIdleItem(states[n].store) && NobodyGone(states[n].store.getters.world)
  {
    hide Step, NoIdleItem, StoreOk, Returned;
    if n == 0 {
      StartsBusy(states[0].store, bound);
      StartsWithNobody(states[0].store, bound);
    } else {
      var q := states[n - 1].store;
      NoIdleItems(states, events, bound, n - 1);
      RunKeeps(states, events, bound, n - 1);
      NoConsumerReturned(q);
      StrandsExact(states[n - 1], events[n - 1], states[n]);
      StillNobodyGone(states[n - 1], events[n - 1], states[n]);
    }
  }

  // ---------------------------------------------------------------------------------------------
  // Places
  // ---------------------------------------------------------------------------------------------

  /** Whatever the step and whatever the state, a place is idle after it exactly when the state before says so. */
  lemma IdlePlaceExact<T>(a: Ledger<T>, e: Event<T>, b: Ledger<T>)
    requires Inv(a) && Step(a, e, b)
    ensures NoIdlePlace(b.store) <==> !LeavesPlaceIdle(a.store, e)
  {
    hide Balanced, StoreOk, FreeItems, PlacesFree, WakeConsumers, WakeProducers, Serve, Sweep, Returned, SomeParked,
      OtherParked, Find, PutNow, GetNow, ConsumeReserved, ProduceReserved;
    var q, c := a.store, Cleanup(a.store);
    CleanFacts(q);
    CleanupKeeps(q);
    CleanTwice(q);
    FewerFree(q);
    match e
    case Cleaning =>
    case WakingProducers => ProducersFacts(q);
    case PuttingNow(x) => PutStepFacts(q, x);
    case Putting(x) =>
      PutStepFacts(c, x);
      if !HasPlace(c) {
        assert !HasPlace(b.store);
      }
    case GettingNow => GetStepFacts(a, q, b);
    case Getting =>
      if HasItem(c) {
        GetStepFacts(a, c, b);
      } else {
        assert b.store.putters == c.putters;
      }
    case ResumingGet(w) => ResumeGetFacts(q, w);
    case ResumingPut(w, x) => ResumePutFacts(q, w, x);
    case CancellingGet(w) =>
    case CancellingPut(w) => CancelFacts(q.putters.world, w);
    case AbandoningGet(w) =>
      if InLine(q.getters, w) {
        AbandonGetFacts(q, w);
      }
    case AbandoningPut(w) =>
      if InLine(q.putters, w) {
        AbandonPutFacts(q, w);
      }
  }

  lemma FewerFree<T>(q: Store<T>)
    ensures PlacesFree(q, 2) ==> PlacesFree(q, 1)
  {
  }

  lemma PlacesWhenNobodyGone<T>(q: Store<T>)
    requires StoreOk(q) && NobodyGone(q.putters.world)
    ensures PlacesFree(q, 1) <==> HasPlace(q)
  {
    NothingReturned(q.putters.waiters, q.putters.world);
  }

  lemma ProducersNobodyGone<T>(q: Store<T>)
    requires NobodyGone(q.putters.world)
    ensures NobodyGone(WakeProducers(q).putters.world)
  {
    var c := Cleanup(q);
    ServeNobodyGone(c.putters.waiters, c.putters.world, Places(c));
  }

  lemma StillNoProducerGone<T>(a: Ledger<T>, e: Event<T>, b: Ledger<T>)
    requires Step(a, e, b) && NobodyGone(a.store.putters.world) && !e.CancellingPut?
    ensures NobodyGone(b.store.putters.world)
  {
    hide WakeProducers, Serve, Sweep, Returned, Without;
    var q, c := a.store, Cleanup(a.store);
    match e
    case WakingProducers => ProducersNobodyGone(q);
    case GettingNow => TakesNobodyGone(a, q, b);
    case Getting =>
      if HasItem(c) {
        TakesNobodyGone(a, c, b);
      }
    case _ =>
  }

  lemma TakesNobodyGone<T>(a: Ledger<T>, q: Store<T>, b: Ledger<T>)
    requires Takes(a, q, b) && NobodyGone(q.putters.world)
    ensures NobodyGone(b.store.putters.world)
  {
    hide WakeProducers;
    var c := Cleanup(q);
    if 0 <= c.getters.reserved < |c.items| {
      ProducersNobodyGone(c.(items := RemoveAt(c.items, c.getters.reserved)));
    }
  }

  /** A consumer has taken its reserved item and has not got to `wake_producers` yet. */
  ghost predicate WakeDue<T>(events: seq<Event<T>>, n: nat)
    requires n <= |events|
  {
    n > 0 && (events[n - 1].ResumingGet? || (WakeDue(events, n - 1) && !events[n - 1].WakingProducers?))
  }

  /** As long as no producer is cancelled, no place is free with a producer parked, but for the moment between a
      consumer's taking its item and its waking of the producers. */
  lemma {:induction false} NoIdlePlaces<T>(states: seq<Ledger<T>>, events: seq<Event<T>>, bound: nat, n: nat)
    requires IsRun(states, events, bound) && n < |states|
    requires forall k :: 0 <= k < n ==> !events[k].CancellingPut?
    ensures NobodyGone(states[n].store.putters.world) && (WakeDue(events, n) || NoIdlePlace(states[n].store))
  {
    hide Step, NoIdlePlace, NobodyGone, LeavesPlaceIdle;
    if n == 0 {
      StartsBusy(states[0].store, bound);
      StartsWithNobody(states[0].store, bound);
    } else {
      var a, e, b := states[n - 1], events[n - 1], states[n];
      NoIdlePlaces(states, events, bound, n - 1);
      RunKeeps(states, events, bound, n - 1);
      StillNoProducerGone(a, e, b);
      IdlePlaceExact(a, e, b);
      if !WakeDue(events, n) {
        StaysBusy(a.store, e);
      }
    }
  }

  lemma StartsWithNobody<T>(q: Store<T>, bound: nat)
    requires q == Empty(bound)
    ensures NobodyGone(q.getters.world) && NobodyGone(q.putters.world)
  {
  }

  lemma StaysBusy<T>(q: Store<T>, e: Event<T>)
    requires StoreOk(q) && NobodyGone(q.putters.world) && !e.CancellingPut? && !e.ResumingGet?
    ensures e.WakingProducers? || NoIdlePlace(q) ==> !LeavesPlaceIdle(q, e)
  {
    PlacesWhenNobodyGone(q);
    FewerFree(q);
    hide StoreOk, PlacesFree, FreeItems, SomeParked;
  }

  // ---------------------------------------------------------------------------------------------
  // A place that lies idle
  // ---------------------------------------------------------------------------------------------

  /** With one place, taken, two producers park; the item is fetched, which promises the place to the first of
      them; he is cancelled, and somebody looks at the size. */
  function PlaceExample(k: nat): Ledger<int> {
    var nobody := Line([], [], 0);
    var first, both := Waiter(0, false), [Waiter(0, false), Waiter(1, false)];
    match k
    case 0 => Ledger(Empty(1), [], [], [])
    case 1 => Ledger(Store([7], nobody, nobody, 1), [7], [0], [])
    case 2 => Ledger(Store([7], nobody, Line([first], [Parked], 0), 1), [7], [0], [])
    case 3 => Ledger(Store([7], nobody, Line(both, [Parked, Parked], 0), 1), [7], [0], [])
    case 4 => Ledger(Store([], nobody, Line([Waiter(0, true), both[1]], [Woken, Parked], 1), 1), [7], [], [0])
    case 5 => Ledger(Store([], nobody, Line([Waiter(0, true), both[1]], [Gone, Parked], 1), 1), [7], [], [0])
    case _ => Ledger(Store([], nobody, Line([both[1]], [Gone, Parked], 0), 1), [7], [], [0])
  }

  lemma NothingSwept<T>(q: Store<T>)
    requires q.getters.waiters == [] && AllAlive(q.putters.waiters, q.putters.world)
    ensures Cleanup(q) == q
  {
    SweepAllAlive(q.putters.waiters, q.putters.world);
  }

  lemma PlaceStart(s0: Ledger<int>, s1: Ledger<int>)
    requires s0 == PlaceExample(0) && s1 == PlaceExample(1)
    ensures Step(s0, PuttingNow(7), s1)
  {
    hide Step, Cleanup, GrantEach;
    var q := s0.store;
    NothingSwept(q);
    var t := q.(items := q.items + [7]);
    NothingSwept(t);
    assert GrantEach([], [], 1) == Handouts([], [], 0) by { NobodyToServe(1); }
    assert WakeConsumers(t) == s1.store;
    PutStep(s0, 7, s1);
  }

  lemma NobodyToServe(supply: int)
    ensures GrantEach([], [], supply) == Handouts([], [], 0)
  {
  }

  lemma PlaceArrivals(s1: Ledger<int>, s2: Ledger<int>, s3: Ledger<int>)
    requires s1 == PlaceExample(1) && s2 == PlaceExample(2) && s3 == PlaceExample(3)
    ensures Step(s1, Putting(8), s2) && Step(s2, Putting(9), s3)
  {
    hide Step, Cleanup;
    NothingSwept(s1.store);
    NothingSwept(s2.store);
    ProducerParks(s1, 8, s2);
    ProducerParks(s2, 9, s3);
  }

  lemma ProducerParks<T>(a: Ledger<T>, x: T, b: Ledger<T>)
    requires Cleanup(a.store) == a.store && !HasPlace(a.store) && b == a.(store := Wait(a.store, false))
    ensures Step(a, Putting(x), b)
  {
  }

  lemma PlaceTaken(s3: Ledger<int>, s4: Ledger<int>)
    requires s3 == PlaceExample(3) && s4 == PlaceExample(4)
    ensures Step(s3, GettingNow, s4)
  {
    hide Step, Cleanup, Serve;
    var q := s3.store;
    NothingSwept(q);
    var t := q.(items := RemoveAt(q.items, 0));
    assert t.items == [];
    NothingSwept(t);
    assert Example(2).store.getters == q.putters;
    ExampleServe(q.putters);
    assert WakeProducers(t) == s4.store;
    FetchStep(s3, s4);
  }

  lemma FetchStep<T>(a: Ledger<T>, b: Ledger<T>)
    requires var (r, got) := GetNow(a.store);
      && got.Some? && Cleanup(a.store).getters.reserved == 0 && a.stored != [] && b == Deliver(a, r, 0)
    ensures Step(a, GettingNow, b)
  {
  }

  lemma PlaceCancelled(s4: Ledger<int>, s5: Ledger<int>)
    requires s4 == PlaceExample(4) && s5 == PlaceExample(5)
    ensures Step(s4, CancellingPut(0), s5)
  {
    hide Cleanup, WakeConsumers, WakeProducers, PutNow, GetNow, ConsumeReserved, ProduceReserved, AbandonGet,
      AbandonPut;
    assert [Woken, Parked][0 := Gone] == [Gone, Parked];
  }

  lemma PlaceDropped(s5: Ledger<int>, s6: Ledger<int>)
    requires s5 == PlaceExample(5) && s6 == PlaceExample(6)
    ensures Step(s5, Cleaning, s6)
  {
    hide Step, SweepLine;
    assert Example(4).store.getters == s5.store.putters;
    ExampleSweep(s5.store.putters);
    SweepNobody(s5.store.getters);
    CleanStep(s5, s6);
  }

  /** Cancelling a producer who has a place promised can leave that place idle in the same way. */
  lemma IdlePlaceExample()
    ensures exists states: seq<Ledger<int>>, events: seq<Event<int>> ::
      IsRun(states, events, 1) && |events| == 6 && !WakeDue(events, 6) && !NoIdlePlace(states[6].store)
  {
    hide Step;
    var s0, s1, s2, s3 := PlaceExample(0), PlaceExample(1), PlaceExample(2), PlaceExample(3);
    var s4, s5, s6 := PlaceExample(4), PlaceExample(5), PlaceExample(6);
    PlaceStart(s0, s1);
    PlaceArrivals(s1, s2, s3);
    PlaceTaken(s3, s4);
    PlaceCancelled(s4, s5);
    PlaceDropped(s5, s6);
    var states := [s0, s1, s2, s3, s4, s5, s6];
    var events := [PuttingNow(7), Putting(8), Putting(9), GettingNow, CancellingPut(0), Cleaning];
    forall k | 0 <= k < |events|
      ensures Step(states[k], events[k], states[k + 1])
    {
      assert k == 0 || k == 1 || k == 2 || k == 3 || k == 4 || k == 5;
    }
    assert IsRun(states, events, 1);
    assert s6.store.putters.world[1].Parked?;
    NeverDue(events, 6);
  }

  lemma {:induction false} NeverDue<T>(events: seq<Event<T>>, n: nat)
    requires n <= |events| && forall k :: 0 <= k < n ==> !events[k].ResumingGet?
    ensures !WakeDue(events, n)
  {
    if n > 0 {
      NeverDue(events, n - 1);
    }
  }

  // ---------------------------------------------------------------------------------------------
  // The order of delivery
  // ---------------------------------------------------------------------------------------------

  /** The numbers delivered to consumers that had waited, in the order of delivery. */
  ghost function Fetched<T>(states: seq<Ledger<T>>, events: seq<Event<T>>, n: nat): seq<nat>
    requires n <= |events| && |states| == |events| + 1
  {
    if n == 0 then []
    else if events[n - 1].ResumingGet? && states[n - 1].stored != [] then
      Fetched(states, events, n - 1) + [states[n - 1].stored[0]]
    else Fetched(states, events, n - 1)
  }

  ghost predicate Rising(xs: seq<nat>) {
    forall i, j :: 0 <= i < j < |xs| ==> xs[i] < xs[j]
  }

  ghost predicate AllBelow(xs: seq<nat>, ys: seq<nat>) {
    forall x, y :: x in xs && y in ys ==> x < y
  }

  /** What a step does to the stored numbers: nothing, one more, or one less. */
  lemma StepStored<T>(a: Ledger<T>, e: Event<T>, b: Ledger<T>)
    requires Inv(a) && Step(a, e, b)
    ensures e.ResumingGet? ==> a.stored != [] && b.stored == RemoveAt(a.stored, 0)
    ensures forall y :: y in b.stored ==> y in a.stored || y == |a.accepted|
    ensures |a.accepted| <= |b.accepted|
  {
    hide StoreOk, WakeConsumers, WakeProducers, Cleanup, PutNow, ConsumeReserved, ProduceReserved;
    forall i | 0 <= i < |a.stored|
      ensures forall y :: y in RemoveAt(a.stored, i) ==> y in a.stored
    {
    }
  }

  /** Over any run the consumers that waited receive values in the order in which these were accepted, and none
      of those still stored was accepted before one of them. */
  lemma {:induction false} DeliveredInOrder<T>(states: seq<Ledger<T>>, events: seq<Event<T>>, bound: nat, n: nat)
    requires IsRun(states, events, bound) && n < |states|
    ensures Rising(Fetched(states, events, n)) && AllBelow(Fetched(states, events, n), states[n].stored)
    ensures forall x :: x in Fetched(states, events, n) ==> x < |states[n].accepted|
  {
    hide Step, StoreOk;
    if n > 0 {
      var a, e, b := states[n - 1], events[n - 1], states[n];
      DeliveredInOrder(states, events, bound, n - 1);
      RunKeeps(states, events, bound, n - 1);
      StepStored(a, e, b);
      if e.ResumingGet? {
        NextFetched(Fetched(states, events, n - 1), a.stored, |a.accepted|);
      }
    }
  }

  lemma NextFetched(xs: seq<nat>, stored: seq<nat>, top: nat)
    requires Rising(xs) && AllBelow(xs, stored) && stored != [] && Rising(stored)
    requires forall y :: y in stored ==> y < top
    ensures Rising(xs + [stored[0]]) && AllBelow(xs + [stored[0]], RemoveAt(stored, 0)) && stored[0] < top
  {
    assert stored[0] in stored;
    forall i | 0 <= i < |xs|
      ensures xs[i] < stored[0]
    {
      assert xs[i] in xs;
    }
    RemovedFrom(stored, 0);
    forall y | y in RemoveAt(stored, 0)
      ensures y in stored && y > stored[0]
    {
      var k :| 0 <= k < |RemoveAt(stored, 0)| && RemoveAt(stored, 0)[k] == y;
      assert stored[k + 1] == y;
    }
  }

  /** A consumer that did not wait takes the first value that no living consumer has reserved: as many stored
      values are older than it as there are such reservations. */
  lemma FirstUnreserved<T>(a: Ledger<T>, e: Event<T>, b: Ledger<T>)
    requires Inv(a) && Step(a, e, b) && (e.GettingNow? || e.Getting?) && b.delivered != a.delivered
    ensures var r := a.store.getters.reserved - Returned(a.store.getters.waiters, a.store.getters.world);
      && 0 <= r < |a.stored| && b.delivered == a.delivered + [a.stored[r]]
      && (forall k :: 0 <= k < |a.stored| ==> (a.stored[k] < a.stored[r] <==> k < r))
  {
    hide StoreOk, WakeProducers, Returned, Sweep;
    CleanTwice(a.store);
  }
}
