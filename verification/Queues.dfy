/** `Queue`: stored items are reserved for consumers and free places for producers before they run. */
module Queues {
  import opened Registrations
  import opened ExternalWaits

  /** A list of waiters with the counter that says how many of them hold a reservation. */
  datatype Line = Line(waiters: seq<Waiter>, world: World, reserved: int)

  /** A bound of 0 means that the queue is unbounded. */
  datatype Store<T> = Store(items: seq<T>, getters: Line, putters: Line, bound: nat)

  function SweepLine(l: Line): Line {
    l.(waiters := Sweep(l.waiters, l.world), reserved := l.reserved - Returned(l.waiters, l.world))
  }

  /** `cleanup` */
  function Cleanup<T>(q: Store<T>): Store<T> {
    q.(getters := SweepLine(q.getters), putters := SweepLine(q.putters))
  }

  predicate HasItem<T>(q: Store<T>) {
    |q.items| > q.getters.reserved
  }

  predicate HasPlace<T>(q: Store<T>) {
    q.bound == 0 || |q.items| + q.putters.reserved < q.bound
  }

  function Serve(l: Line, supply: int): Line {
    var g := GrantEach(l.waiters, l.world, supply);
    Line(g.waiters, g.world, l.reserved + g.count)
  }

  /** How many more producers may be promised a place. */
  function Places<T>(q: Store<T>): int {
    if q.bound == 0 then |q.putters.waiters| else q.bound - |q.items| - q.putters.reserved
  }

  /** `wake_consumers` */
  function WakeConsumers<T>(q: Store<T>): Store<T> {
    var q := Cleanup(q);
    q.(getters := Serve(q.getters, |q.items| - q.getters.reserved))
  }

  /** `wake_producers` */
  function WakeProducers<T>(q: Store<T>): Store<T> {
    var q := Cleanup(q);
    q.(putters := Serve(q.putters, Places(q)))
  }

  function RemoveAt<X>(xs: seq<X>, i: nat): seq<X>
    requires i < |xs|
  {
    xs[..i] + xs[i + 1..]
  }

  function ParkIn(l: Line): Line {
    l.(waiters := l.waiters + [Waiter(|l.world|, false)], world := l.world + [Parked])
  }

  /** The waiter leaves the line, and gives up its reservation if it has one. */
  function Leave(l: Line, i: nat): Line
    requires i < |l.waiters|
  {
    l.(waiters := Without(l.waiters, i), reserved := l.reserved - if l.waiters[i].reserved then 1 else 0)
  }

  /** `put_nowait`; `None` when there is no place. */
  function PutNow<T>(q: Store<T>, x: T): Option<Store<T>> {
    var c := Cleanup(q);
    if !HasPlace(c) then None else Some(WakeConsumers(c.(items := c.items + [x])))
  }

  /** The item a consumer takes that has none reserved: the first that is not reserved for another. */
  function TakeFree<T>(q: Store<T>): (Store<T>, Option<T>) {
    var i := q.getters.reserved;
    if 0 <= i < |q.items| then (WakeProducers(q.(items := RemoveAt(q.items, i))), Some(q.items[i])) else (q, None)
  }

  /** `get_nowait`, and `consume_get` without a registration: `None` when nothing is free, where the
      latter aborts. */
  function GetNow<T>(q: Store<T>): (Store<T>, Option<T>) {
    TakeFree(Cleanup(q))
  }

  /** `produce` without a registration; `None` when it aborts. */
  function Produce<T>(q: Store<T>, x: T): Option<Store<T>> {
    PutNow(q, x)
  }

  /** `consume_get` for a registration, up to the flush in `wake_consumers`; `None` when it aborts. */
  function ConsumeReserved<T>(q: Store<T>, wait: nat): Option<(Store<T>, T)> {
    var i := Find(q.getters.waiters, wait);
    if i == |q.getters.waiters| || !q.getters.waiters[i].reserved || q.items == [] then None
    else Some((WakeConsumers(q.(items := q.items[1..], getters := Leave(q.getters, i))), q.items[0]))
  }

  /** `produce` for a registration; `None` when it aborts. */
  function ProduceReserved<T>(q: Store<T>, wait: nat, x: T): Option<Store<T>> {
    var i := Find(q.putters.waiters, wait);
    if i == |q.putters.waiters| || !q.putters.waiters[i].reserved then None
    else Some(WakeConsumers(Cleanup(q.(items := q.items + [x], putters := Leave(q.putters, i)))))
  }

  /** `abandon_get` */
  function AbandonGet<T>(q: Store<T>, wait: nat): Store<T> {
    var i := Find(q.getters.waiters, wait);
    if i == |q.getters.waiters| then q else WakeConsumers(Cleanup(q.(getters := Leave(q.getters, i))))
  }

  /** `abandon_put` */
  function AbandonPut<T>(q: Store<T>, wait: nat): Store<T> {
    var i := Find(q.putters.waiters, wait);
    if i == |q.putters.waiters| then q else WakeProducers(Cleanup(q.(putters := Leave(q.putters, i))))
  }

  // ---------------------------------------------------------------------------------------------
  // The invariant
  // ---------------------------------------------------------------------------------------------

  /** The counter counts the reservations. */
  ghost predicate LineOk(l: Line) {
    WaitersOk(l.waiters, l.world) && AllListed(l.waiters, l.world) && l.reserved == Reserved(l.waiters)
  }

  /** No more items are reserved than are stored, and items and promised places fit the bound. */
  ghost predicate StoreOk<T>(q: Store<T>) {
    && LineOk(q.getters) && LineOk(q.putters)
    && q.getters.reserved <= |q.items|
    && (q.bound != 0 ==> |q.items| + q.putters.reserved <= q.bound)
  }

  lemma SweepLineKeeps(l: Line)
    requires LineOk(l)
    ensures LineOk(SweepLine(l)) && AllAlive(SweepLine(l).waiters, l.world)
    ensures SweepLine(l).reserved == l.reserved - Returned(l.waiters, l.world) <= l.reserved
  {
    SweepExact(l.waiters, l.world);
    SweepKeeps(l.waiters, l.world);
    SweepAllListed(l.waiters, l.world);
    SweepAlive(l.waiters, l.world);
  }

  lemma CleanupKeeps<T>(q: Store<T>)
    requires StoreOk(q)
    ensures StoreOk(Cleanup(q))
    ensures AllAlive(Cleanup(q).getters.waiters, q.getters.world)
      && AllAlive(Cleanup(q).putters.waiters, q.putters.world)
  {
    SweepLineKeeps(q.getters);
    SweepLineKeeps(q.putters);
  }

  lemma ServeKeeps(l: Line, supply: int)
    requires LineOk(l) && AllAlive(l.waiters, l.world)
    ensures var r := Serve(l, supply);
      && LineOk(r) && l.reserved <= r.reserved && (r.reserved > l.reserved ==> r.reserved <= l.reserved + supply)
      && (r.reserved < l.reserved + supply ==> forall i :: 0 <= i < |r.waiters| ==> r.waiters[i].reserved)
  {
    GrantEachCount(l.waiters, l.world, supply);
    GrantEachServes(l.waiters, l.world, supply);
    GrantEachKeeps(l.waiters, l.world, supply);
    GrantEachListed(l.waiters, l.world, supply);
  }

  lemma NoneParked(l: Line)
    requires LineOk(l) && forall i :: 0 <= i < |l.waiters| ==> l.waiters[i].reserved
    ensures !SomeParked(l.world)
  {
    assert forall i :: 0 <= i < |l.waiters| ==> Fits(l.world, l.waiters[i]);
    assert forall w: nat :: w < |l.world| && l.world[w].Alive() ==> Listed(l.waiters, w);
  }

  /** No item lies free while a consumer is parked. */
  ghost predicate NoIdleItem<T>(q: Store<T>) {
    HasItem(q) ==> !SomeParked(q.getters.world)
  }

  /** No place is free while a producer is parked. */
  ghost predicate NoIdlePlace<T>(q: Store<T>) {
    HasPlace(q) ==> !SomeParked(q.putters.world)
  }

  lemma WakeConsumersKeeps<T>(q: Store<T>)
    requires StoreOk(q)
    ensures StoreOk(WakeConsumers(q)) && NoIdleItem(WakeConsumers(q))
    ensures WakeConsumers(q).items == q.items && WakeConsumers(q).putters == SweepLine(q.putters)
  {
    CleanupKeeps(q);
    var c := Cleanup(q);
    ServeKeeps(c.getters, |c.items| - c.getters.reserved);
    var r := WakeConsumers(q);
    if HasItem(r) {
      NoneParked(r.getters);
    }
  }

  lemma {:induction false} ReservedAtMost(ws: seq<Waiter>)
    ensures Reserved(ws) <= |ws|
    ensures Reserved(ws) == |ws| ==> forall i :: 0 <= i < |ws| ==> ws[i].reserved
  {
    if ws != [] {
      ReservedAtMost(ws[..|ws| - 1]);
    }
  }

  lemma WakeProducersKeeps<T>(q: Store<T>)
    requires StoreOk(q)
    ensures StoreOk(WakeProducers(q)) && NoIdlePlace(WakeProducers(q))
    ensures WakeProducers(q).items == q.items && WakeProducers(q).getters == SweepLine(q.getters)
  {
    CleanupKeeps(q);
    var c := Cleanup(q);
    ServeKeeps(c.putters, Places(c));
    GrantEachSame(c.putters.waiters, c.putters.world, Places(c));
    GrantEachCount(c.putters.waiters, c.putters.world, Places(c));
    var r := WakeProducers(q);
    ReservedAtMost(r.putters.waiters);
    if HasPlace(r) {
      NoneParked(r.putters);
    }
  }

  lemma LeaveKeeps(l: Line, i: nat, world: World)
    requires LineOk(l) && i < |l.waiters|
    requires WaitersOk(Without(l.waiters, i), world) && AllListed(Without(l.waiters, i), world)
    ensures LineOk(Leave(l, i).(world := world))
  {
    WithoutCount(l.waiters, i);
  }

  lemma ParkInKeeps(l: Line)
    requires LineOk(l)
    ensures LineOk(ParkIn(l))
  {
    ArriveExact(l.waiters, l.world);
  }

  // ---------------------------------------------------------------------------------------------
  // Runs
  // ---------------------------------------------------------------------------------------------

  /** The parts of the operations: after each of them other coroutines may run. A coroutine that finds an
      item or a place goes on at once; one that does not parks. */
  datatype Event<T> =
    | Cleaning | WakingProducers
    | PuttingNow(value: T) | GettingNow | Getting | Putting(value: T)
    | ResumingGet(wait: nat) | ResumingPut(wait: nat, value: T)
    | CancellingGet(wait: nat) | CancellingPut(wait: nat)
    | AbandoningGet(wait: nat) | AbandoningPut(wait: nat)

  /** The queue, everything it has accepted so far, which of that is stored (by number, in the order of
      the items) and which has been delivered. */
  datatype Ledger<T> = Ledger(store: Store<T>, accepted: seq<T>, stored: seq<nat>, delivered: seq<nat>)

  function Accept<T>(a: Ledger<T>, q: Store<T>, x: T): Ledger<T> {
    Ledger(q, a.accepted + [x], a.stored + [|a.accepted|], a.delivered)
  }

  function Deliver<T>(a: Ledger<T>, q: Store<T>, i: nat): Ledger<T>
    requires i < |a.stored|
  {
    Ledger(q, a.accepted, RemoveAt(a.stored, i), a.delivered + [a.stored[i]])
  }

  function Wait<T>(q: Store<T>, getter: bool): Store<T> {
    if getter then q.(getters := ParkIn(q.getters)) else q.(putters := ParkIn(q.putters))
  }

  function SetGets<T>(q: Store<T>, world: World): Store<T> {
    q.(getters := q.getters.(world := world))
  }

  function SetPuts<T>(q: Store<T>, world: World): Store<T> {
    q.(putters := q.putters.(world := world))
  }

  /** One part of an operation on the queue. */
  ghost predicate Step<T>(a: Ledger<T>, e: Event<T>, b: Ledger<T>) {
    var q, c := a.store, Cleanup(a.store);
    match e
    case Cleaning => b == a.(store := c)
    case WakingProducers => b == a.(store := WakeProducers(q))
    case PuttingNow(x) => var r := PutNow(q, x); b == if r.Some? then Accept(a, r.value, x) else a.(store := c)
    case Putting(x) =>
      if HasPlace(c) then Produce(c, x).Some? && b == Accept(a, Produce(c, x).value, x)
      else b == a.(store := Wait(c, false))
    case GettingNow => Takes(a, q, b)
    case Getting => if HasItem(c) then Takes(a, c, b) else b == a.(store := Wait(c, true))
    case ResumingGet(w) =>
      var world := q.getters.world;
      && w < |world| && world[w].Woken? && a.stored != []
      && ConsumeReserved(SetGets(q, world[w := Resumed]), w).Some?
      && b == Deliver(a, ConsumeReserved(SetGets(q, world[w := Resumed]), w).value.0, 0)
    case ResumingPut(w, x) =>
      var world := q.putters.world;
      && w < |world| && world[w].Woken? && ProduceReserved(SetPuts(q, world[w := Resumed]), w, x).Some?
      && b == Accept(a, ProduceReserved(SetPuts(q, world[w := Resumed]), w, x).value, x)
    case CancellingGet(w) =>
      var world := q.getters.world; w < |world| && world[w].Alive() && b == a.(store := SetGets(q, world[w := Gone]))
    case CancellingPut(w) =>
      var world := q.putters.world; w < |world| && world[w].Alive() && b == a.(store := SetPuts(q, world[w := Gone]))
    case AbandoningGet(w) =>
      w < |q.getters.world| && q.getters.world[w].Gone? && b == a.(store := AbandonGet(q, w))
    case AbandoningPut(w) =>
      w < |q.putters.world| && q.putters.world[w].Gone? && b == a.(store := AbandonPut(q, w))
  }

  /** A free item is taken, if there is one. */
  ghost predicate Takes<T>(a: Ledger<T>, q: Store<T>, b: Ledger<T>) {
    var (r, got) := GetNow(q);
    var i := Cleanup(q).getters.reserved;
    if got.Some? then 0 <= i < |a.stored| && b == Deliver(a, r, i) else b == a.(store := r)
  }

  /** Every accepted value is stored or has been delivered, exactly once, and the stored ones are in the
      order in which they were accepted. */
  ghost predicate Balanced<T>(a: Ledger<T>) {
    && |a.stored| == |a.store.items| && |a.stored| + |a.delivered| == |a.accepted|
    && (forall i :: 0 <= i < |a.stored| ==> a.stored[i] < |a.accepted| && a.accepted[a.stored[i]] == a.store.items[i])
    && (forall i, j :: 0 <= i < j < |a.stored| ==> a.stored[i] < a.stored[j])
    && (forall i :: 0 <= i < |a.delivered| ==> a.delivered[i] < |a.accepted| && a.delivered[i] !in a.stored)
    && (forall i, j :: 0 <= i < j < |a.delivered| ==> a.delivered[i] != a.delivered[j])
  }

  ghost predicate Inv<T>(a: Ledger<T>) {
    StoreOk(a.store) && Balanced(a)
  }

  lemma AcceptBalanced<T>(a: Ledger<T>, q: Store<T>, x: T)
    requires Balanced(a) && q.items == a.store.items + [x]
    ensures Balanced(Accept(a, q, x))
  {
  }

  lemma RemovedFrom(xs: seq<nat>, i: nat)
    requires i < |xs| && forall a, b :: 0 <= a < b < |xs| ==> xs[a] < xs[b]
    ensures var r := RemoveAt(xs, i);
      && xs[i] !in r && (forall x :: x in r ==> x in xs)
      && (forall a, b :: 0 <= a < b < |r| ==> r[a] < r[b])
  {
    var r := RemoveAt(xs, i);
    assert forall k :: 0 <= k < |r| ==> r[k] == xs[if k < i then k else k + 1];
  }

  lemma DeliverBalanced<T>(a: Ledger<T>, q: Store<T>, i: nat)
    requires Balanced(a) && i < |a.stored| && q.items == RemoveAt(a.store.items, i)
    ensures Balanced(Deliver(a, q, i))
  {
    RemovedFrom(a.stored, i);
    var s := RemoveAt(a.stored, i);
    forall k | 0 <= k < |s|
      ensures s[k] < |a.accepted| && a.accepted[s[k]] == q.items[k]
    {
      var j := if k < i then k else k + 1;
      assert s[k] == a.stored[j] && q.items[k] == a.store.items[j];
    }
  }

  lemma PutNowKeeps<T>(q: Store<T>, x: T)
    requires StoreOk(q)
    ensures var r := PutNow(q, x);
      && (r.Some? <==> HasPlace(Cleanup(q)))
      && (r.Some? ==> StoreOk(r.value) && r.value.items == q.items + [x] && NoIdleItem(r.value))
  {
    CleanupKeeps(q);
    if HasPlace(Cleanup(q)) {
      WakeConsumersKeeps(Cleanup(q).(items := q.items + [x]));
    }
  }

  lemma GetNowKeeps<T>(q: Store<T>)
    requires StoreOk(q)
    ensures var (r, got) := GetNow(q); var i := Cleanup(q).getters.reserved;
      && StoreOk(r) && (got.Some? <==> HasItem(Cleanup(q)))
      && (got.Some? ==> 0 <= i < |q.items| && r.items == RemoveAt(q.items, i) && got.value == q.items[i])
      && (got.None? ==> r == Cleanup(q))
  {
    CleanupKeeps(q);
    var c := Cleanup(q);
    if HasItem(c) {
      WakeProducersKeeps(c.(items := RemoveAt(c.items, c.getters.reserved)));
    }
  }

  /** A woken waiter leaves the line with its reservation. */
  lemma ResumeLine(l: Line, w: nat)
    requires LineOk(l) && w < |l.world| && l.world[w].Woken?
    ensures var i := Find(l.waiters, w);
      && i < |l.waiters| && l.waiters[i].reserved && l.reserved > 0
      && LineOk(Leave(l, i).(world := l.world[w := Resumed])) && Leave(l, i).reserved == l.reserved - 1
  {
    ResumedKeeps(l.waiters, l.world, w);
    LeaveKeeps(l, Find(l.waiters, w), l.world[w := Resumed]);
  }

  lemma ResumeGetKeeps<T>(q: Store<T>, w: nat)
    requires StoreOk(q) && w < |q.getters.world| && q.getters.world[w].Woken?
    ensures var r := ConsumeReserved(SetGets(q, q.getters.world[w := Resumed]), w);
      && r.Some? && StoreOk(r.value.0) && r.value.1 == q.items[0] && r.value.0.items == q.items[1..]
      && NoIdleItem(r.value.0)
  {
    hide LineOk, WakeConsumers;
    var l := q.getters;
    ResumeLine(l, w);
    var i := Find(l.waiters, w);
    WakeConsumersKeeps(q.(items := q.items[1..], getters := Leave(l, i).(world := l.world[w := Resumed])));
  }

  lemma ResumePutKeeps<T>(q: Store<T>, w: nat, x: T)
    requires StoreOk(q) && w < |q.putters.world| && q.putters.world[w].Woken?
    ensures var r := ProduceReserved(SetPuts(q, q.putters.world[w := Resumed]), w, x);
      && r.Some? && StoreOk(r.value) && r.value.items == q.items + [x] && NoIdleItem(r.value)
  {
    hide LineOk, WakeConsumers, Cleanup;
    var l := q.putters;
    ResumeLine(l, w);
    var i := Find(l.waiters, w);
    var t := q.(items := q.items + [x], putters := Leave(l, i).(world := l.world[w := Resumed]));
    CleanupKeeps(t);
    CleanupItems(t);
    WakeConsumersKeeps(Cleanup(t));
  }

  lemma CleanupItems<T>(q: Store<T>)
    ensures Cleanup(q).items == q.items
  {
  }

  lemma AbandonGetKeeps<T>(q: Store<T>, w: nat)
    requires StoreOk(q) && w < |q.getters.world| && q.getters.world[w].Gone?
    ensures StoreOk(AbandonGet(q, w)) && AbandonGet(q, w).items == q.items
  {
    var i := Find(q.getters.waiters, w);
    if i < |q.getters.waiters| {
      AbandonedKeeps(q.getters.waiters, q.getters.world, w);
      LeaveKeeps(q.getters, i, q.getters.world);
      var t := q.(getters := Leave(q.getters, i));
      CleanupKeeps(t);
      WakeConsumersKeeps(Cleanup(t));
    }
  }

  lemma AbandonPutKeeps<T>(q: Store<T>, w: nat)
    requires StoreOk(q) && w < |q.putters.world| && q.putters.world[w].Gone?
    ensures StoreOk(AbandonPut(q, w)) && AbandonPut(q, w).items == q.items
  {
    var i := Find(q.putters.waiters, w);
    if i < |q.putters.waiters| {
      AbandonedKeeps(q.putters.waiters, q.putters.world, w);
      LeaveKeeps(q.putters, i, q.putters.world);
      var t := q.(putters := Leave(q.putters, i));
      CleanupKeeps(t);
      WakeProducersKeeps(Cleanup(t));
    }
  }

  lemma WaitKeeps<T>(q: Store<T>, getter: bool)
    requires StoreOk(q)
    ensures StoreOk(Wait(q, getter)) && Wait(q, getter).items == q.items
  {
    ParkInKeeps(q.getters);
    ParkInKeeps(q.putters);
  }

  lemma TakesKeeps<T>(a: Ledger<T>, q: Store<T>, b: Ledger<T>)
    requires Inv(a) && StoreOk(q) && q.items == a.store.items && Takes(a, q, b)
    ensures Inv(b)
  {
    GetNowKeeps(q);
    var (r, got) := GetNow(q);
    if got.Some? {
      DeliverBalanced(a, r, Cleanup(q).getters.reserved);
    }
  }

  lemma StepKeeps<T>(a: Ledger<T>, e: Event<T>, b: Ledger<T>)
    requires Inv(a) && Step(a, e, b)
    ensures Inv(b)
  {
    hide StoreOk, Balanced;
    var q, c := a.store, Cleanup(a.store);
    CleanupKeeps(q);
    match e
    case Cleaning => MoveBalanced(a, b);
    case WakingProducers =>
      WakeProducersKeeps(q);
      MoveBalanced(a, b);
    case PuttingNow(x) =>
      PutNowKeeps(q, x);
      if PutNow(q, x).Some? {
        AcceptBalanced(a, PutNow(q, x).value, x);
      } else {
        MoveBalanced(a, b);
      }
    case Putting(x) =>
      PutNowKeeps(c, x);
      WaitKeeps(c, false);
      if HasPlace(c) {
        AcceptBalanced(a, Produce(c, x).value, x);
      } else {
        MoveBalanced(a, b);
      }
    case GettingNow => TakesKeeps(a, q, b);
    case Getting =>
      WaitKeeps(c, true);
      if HasItem(c) {
        TakesKeeps(a, c, b);
      } else {
        MoveBalanced(a, b);
      }
    case _ => WaiterStepKeeps(a, e, b);
  }

  lemma MoveBalanced<T>(a: Ledger<T>, b: Ledger<T>)
    requires Balanced(a) && b == a.(store := b.store) && b.store.items == a.store.items
    ensures Balanced(b)
  {
  }

  lemma WaiterStepKeeps<T>(a: Ledger<T>, e: Event<T>, b: Ledger<T>)
    requires Inv(a) && Step(a, e, b)
    requires e.ResumingGet? || e.ResumingPut? || e.CancellingGet? || e.CancellingPut? || e.AbandoningGet?
      || e.AbandoningPut?
    ensures Inv(b)
  {
    hide Balanced;
    var q := a.store;
    match e
    case ResumingGet(w) =>
      ResumeGetKeeps(q, w);
      assert RemoveAt(q.items, 0) == q.items[1..];
      StoredItems(a);
      DeliverBalanced(a, b.store, 0);
    case ResumingPut(w, x) =>
      ResumePutKeeps(q, w, x);
      AcceptBalanced(a, b.store, x);
    case CancellingGet(w) =>
      CancelledKeeps(q.getters.waiters, q.getters.world, w);
      MoveBalanced(a, b);
    case CancellingPut(w) =>
      CancelledKeeps(q.putters.waiters, q.putters.world, w);
      MoveBalanced(a, b);
    case AbandoningGet(w) =>
      AbandonGetKeeps(q, w);
      MoveBalanced(a, b);
    case AbandoningPut(w) =>
      AbandonPutKeeps(q, w);
      MoveBalanced(a, b);
    case _ =>
  }

  lemma StoredItems<T>(a: Ledger<T>)
    requires Balanced(a)
    ensures |a.stored| == |a.store.items|
  {
  }

  function Empty<T>(bound: nat): Store<T> {
    Store([], Line([], [], 0), Line([], [], 0), bound)
  }

  lemma WakeWorlds<T>(q: Store<T>)
    ensures OnlyWoken(q.getters.world, WakeConsumers(q).getters.world)
    ensures OnlyWoken(q.putters.world, WakeProducers(q).putters.world)
    ensures WakeConsumers(q).putters.world == q.putters.world && WakeProducers(q).getters.world == q.getters.world
  {
    var c := Cleanup(q);
    GrantEachWorld(c.getters.waiters, c.getters.world, |c.items| - c.getters.reserved);
    GrantEachWorld(c.putters.waiters, c.putters.world, Places(c));
  }

  ghost predicate BothServed<T>(q: Store<T>, r: Store<T>) {
    Served(q.getters.world, r.getters.world) && Served(q.putters.world, r.putters.world)
  }

  lemma PutServes<T>(q: Store<T>, x: T)
    ensures PutNow(q, x).Some? ==> BothServed(q, PutNow(q, x).value)
  {
    hide WakeConsumers;
    WakeWorlds(Cleanup(q).(items := Cleanup(q).items + [x]));
  }

  lemma TakesServes<T>(a: Ledger<T>, q: Store<T>, b: Ledger<T>)
    requires Takes(a, q, b)
    ensures BothServed(q, b.store)
  {
    hide WakeProducers;
    var c := Cleanup(q);
    if 0 <= c.getters.reserved < |c.items| {
      WakeWorlds(c.(items := RemoveAt(c.items, c.getters.reserved)));
    }
  }

  lemma ResumeGetServes<T>(q: Store<T>, w: nat)
    requires w < |q.getters.world| && q.getters.world[w].Woken?
    ensures var r := ConsumeReserved(SetGets(q, q.getters.world[w := Resumed]), w);
      r.Some? ==> BothServed(q, r.value.0)
  {
    hide WakeConsumers;
    var t := SetGets(q, q.getters.world[w := Resumed]);
    var i := Find(t.getters.waiters, w);
    if i < |t.getters.waiters| && t.items != [] {
      WakeWorlds(t.(items := t.items[1..], getters := Leave(t.getters, i)));
    }
  }

  lemma ResumePutServes<T>(q: Store<T>, w: nat, x: T)
    requires w < |q.putters.world| && q.putters.world[w].Woken?
    ensures var r := ProduceReserved(SetPuts(q, q.putters.world[w := Resumed]), w, x);
      r.Some? ==> BothServed(q, r.value)
  {
    hide WakeConsumers;
    var t := SetPuts(q, q.putters.world[w := Resumed]);
    var i := Find(t.putters.waiters, w);
    if i < |t.putters.waiters| {
      WakeWorlds(Cleanup(t.(items := t.items + [x], putters := Leave(t.putters, i))));
    }
  }

  lemma AbandonServes<T>(q: Store<T>, w: nat)
    ensures BothServed(q, AbandonGet(q, w)) && BothServed(q, AbandonPut(q, w))
  {
    hide WakeConsumers, WakeProducers;
    var i, j := Find(q.getters.waiters, w), Find(q.putters.waiters, w);
    if i < |q.getters.waiters| {
      WakeWorlds(Cleanup(q.(getters := Leave(q.getters, i))));
    }
    if j < |q.putters.waiters| {
      WakeWorlds(Cleanup(q.(putters := Leave(q.putters, j))));
    }
  }

  /** What an operation of the queue does to the waits: it wakes some that were parked, a coroutine that was woken
      goes on, or one more parks. */
  lemma StepServes<T>(a: Ledger<T>, e: Event<T>, b: Ledger<T>)
    requires Step(a, e, b) && !e.CancellingGet? && !e.CancellingPut?
    ensures BothServed(a.store, b.store)
      || (e.Getting? && b.store == Wait(Cleanup(a.store), true))
      || (e.Putting? && b.store == Wait(Cleanup(a.store), false))
  {
    hide WakeConsumers, WakeProducers, ConsumeReserved, ProduceReserved, PutNow, GetNow, AbandonGet, AbandonPut;
    var q, c := a.store, Cleanup(a.store);
    match e
    case Cleaning =>
    case WakingProducers => WakeWorlds(q);
    case PuttingNow(x) => PutServes(q, x);
    case Putting(x) => PutServes(c, x);
    case GettingNow => TakesServes(a, q, b);
    case Getting =>
      if HasItem(c) {
        TakesServes(a, c, b);
      }
    case ResumingGet(w) => ResumeGetServes(q, w);
    case ResumingPut(w, x) => ResumePutServes(q, w, x);
    case AbandoningGet(w) => AbandonServes(q, w);
    case AbandoningPut(w) => AbandonServes(q, w);
  }

  ghost predicate IsRun<T>(states: seq<Ledger<T>>, events: seq<Event<T>>, bound: nat) {
    && |states| == |events| + 1 && states[0] == Ledger(Empty(bound), [], [], [])
    && forall k {:trigger events[k]} :: 0 <= k < |events| ==> Step(states[k], events[k], states[k + 1])
  }

  lemma {:induction false} RunKeeps<T>(states: seq<Ledger<T>>, events: seq<Event<T>>, bound: nat, n: nat)
    requires IsRun(states, events, bound) && n < |states|
    ensures Inv(states[n])
  {
    if n > 0 {
      RunKeeps(states, events, bound, n - 1);
      StepKeeps(states[n - 1], events[n - 1], states[n]);
    }
  }

  lemma {:induction false} BoundStays<T>(states: seq<Ledger<T>>, events: seq<Event<T>>, bound: nat, n: nat)
    requires IsRun(states, events, bound) && n < |states|
    ensures states[n].store.bound == bound
  {
    if n > 0 {
      BoundStays(states, events, bound, n - 1);
      StepBound(states[n - 1], events[n - 1], states[n]);
    }
  }

  lemma StepBound<T>(a: Ledger<T>, e: Event<T>, b: Ledger<T>)
    requires Step(a, e, b)
    ensures b.store.bound == a.store.bound
  {
  }

  /** In every state of every run, with any cancellations: reservations and counters agree, no more items
      are reserved than stored, items and promised places fit the bound, every accepted value is stored, in the
      order of acceptance, or has been delivered exactly once, and whoever is resumed finds his item or place. */
  lemma NothingLost<T>(states: seq<Ledger<T>>, events: seq<Event<T>>, bound: nat, n: nat, x: T)
    requires IsRun(states, events, bound) && n < |states|
    ensures var a := states[n]; var q := a.store; var gets, puts := q.getters.world, q.putters.world;
      && q.getters.reserved == Reserved(q.getters.waiters) <= |q.items|
      && q.putters.reserved == Reserved(q.putters.waiters)
      && (bound != 0 ==> |q.items| + q.putters.reserved <= bound)
      && Balanced(a)
      && (forall w: nat :: w < |gets| && gets[w].Woken? ==> ConsumeReserved(SetGets(q, gets[w := Resumed]), w).Some?)
      && (forall w: nat :: w < |puts| && puts[w].Woken? ==> ProduceReserved(SetPuts(q, puts[w := Resumed]), w, x).Some?)
      && (HasItem(Cleanup(q)) ==> GetNow(Cleanup(q)).1.Some?)
      && (HasPlace(Cleanup(q)) ==> Produce(Cleanup(q), x).Some?)
  {
    RunKeeps(states, events, bound, n);
    BoundStays(states, events, bound, n);
    var q := states[n].store;
    var gets, puts := q.getters.world, q.putters.world;
    forall w: nat | w < |gets| && gets[w].Woken?
      ensures ConsumeReserved(SetGets(q, gets[w := Resumed]), w).Some?
    {
      ResumeGetKeeps(q, w);
    }
    forall w: nat | w < |puts| && puts[w].Woken?
      ensures ProduceReserved(SetPuts(q, puts[w := Resumed]), w, x).Some?
    {
      ResumePutKeeps(q, w, x);
    }
    CleanTwice(q);
    CleanupKeeps(q);
    GetNowKeeps(Cleanup(q));
    PutNowKeeps(Cleanup(q), x);
  }

  lemma {:induction false} SweepAllAlive(ws: seq<Waiter>, world: World)
    requires AllAlive(ws, world)
    ensures Sweep(ws, world) == ws && Returned(ws, world) == 0
  {
    if ws != [] {
      assert AllAlive(ws[..|ws| - 1], world);
      SweepAllAlive(ws[..|ws| - 1], world);
    }
  }

  lemma SweepTwice(l: Line)
    ensures SweepLine(SweepLine(l)) == SweepLine(l)
  {
    SweepAlive(l.waiters, l.world);
    SweepAllAlive(Sweep(l.waiters, l.world), l.world);
  }

  lemma CleanTwice<T>(q: Store<T>)
    ensures Cleanup(Cleanup(q)) == Cleanup(q)
  {
    hide SweepLine;
    SweepTwice(q.getters);
    SweepTwice(q.putters);
  }

  // ---------------------------------------------------------------------------------------------
  // An item that lies idle
  // ---------------------------------------------------------------------------------------------

  /** Two consumers park, an item arrives for the first, who is cancelled, and somebody looks at the size. */
  function Example(k: nat): Ledger<int> {
    var nobody := Line([], [], 0);
    var first, both := Waiter(0, false), [Waiter(0, false), Waiter(1, false)];
    match k
    case 0 => Ledger(Empty(0), [], [], [])
    case 1 => Ledger(Store([], Line([first], [Parked], 0), nobody, 0), [], [], [])
    case 2 => Ledger(Store([], Line(both, [Parked, Parked], 0), nobody, 0), [], [], [])
    case 3 => Ledger(Store([7], Line([Waiter(0, true), both[1]], [Woken, Parked], 1), nobody, 0), [7], [0], [])
    case 4 => Ledger(Store([7], Line([Waiter(0, true), both[1]], [Gone, Parked], 1), nobody, 0), [7], [0], [])
    case _ => Ledger(Store([7], Line([both[1]], [Gone, Parked], 0), nobody, 0), [7], [0], [])
  }

  lemma NothingToClean<T>(q: Store<T>)
    requires AllAlive(q.getters.waiters, q.getters.world) && q.putters.waiters == []
    ensures Cleanup(q) == q
  {
    SweepAllAlive(q.getters.waiters, q.getters.world);
  }

  lemma ParkStep<T>(a: Ledger<T>, b: Ledger<T>)
    requires Cleanup(a.store) == a.store && !HasItem(a.store) && b == a.(store := Wait(a.store, true))
    ensures Step(a, Getting, b)
  {
  }

  lemma PutStep<T>(a: Ledger<T>, x: T, b: Ledger<T>)
    requires PutNow(a.store, x).Some? && b == Accept(a, PutNow(a.store, x).value, x)
    ensures Step(a, PuttingNow(x), b)
  {
  }

  lemma CancelStep<T>(a: Ledger<T>, w: nat, b: Ledger<T>)
    requires w < |a.store.getters.world| && a.store.getters.world[w].Alive()
    requires b == a.(store := SetGets(a.store, a.store.getters.world[w := Gone]))
    ensures Step(a, CancellingGet(w), b)
  {
  }

  lemma CleanStep<T>(a: Ledger<T>, b: Ledger<T>)
    requires b == a.(store := Cleanup(a.store))
    ensures Step(a, Cleaning, b)
  {
  }

  lemma ExampleArrivals(s0: Ledger<int>, s1: Ledger<int>, s2: Ledger<int>)
    requires s0 == Example(0) && s1 == Example(1) && s2 == Example(2)
    ensures Step(s0, Getting, s1) && Step(s1, Getting, s2)
  {
    hide Step, Cleanup;
    NothingToClean(s0.store);
    NothingToClean(s1.store);
    ParkStep(s0, s1);
    ParkStep(s1, s2);
  }

  lemma ExampleServe(l: Line)
    requires l == Example(2).store.getters
    ensures Serve(l, 1) == Example(3).store.getters
  {
    var woken := Wake(l.world, 0);
    assert woken == [Woken, Parked];
    assert l.waiters[1..] == [Waiter(1, false)];
    assert GrantEach(l.waiters[1..], woken, 0) == Handouts(l.waiters[1..], woken, 0);
  }

  lemma ExamplePut(s2: Ledger<int>, s3: Ledger<int>)
    requires s2 == Example(2) && s3 == Example(3)
    ensures Step(s2, PuttingNow(7), s3)
  {
    hide Step, Cleanup, Serve;
    var q := s2.store;
    NothingToClean(q);
    var t := q.(items := q.items + [7]);
    NothingToClean(t);
    ExampleServe(q.getters);
    assert WakeConsumers(t) == s3.store;
    PutStep(s2, 7, s3);
  }

  lemma ExampleCancel(s3: Ledger<int>, s4: Ledger<int>)
    requires s3 == Example(3) && s4 == Example(4)
    ensures Step(s3, CancellingGet(0), s4)
  {
    hide Step;
    assert [Woken, Parked][0 := Gone] == [Gone, Parked];
    CancelStep(s3, 0, s4);
  }

  lemma ExampleSweep(l: Line)
    requires l == Example(4).store.getters
    ensures SweepLine(l) == Example(5).store.getters
  {
    var one := l.waiters[..1];
    assert one == [Waiter(0, true)] && one[..0] == [] && !Lives(l.world, one[0]);
    assert Returned(one[..0], l.world) == 0 && Sweep(one[..0], l.world) == [];
    assert Sweep(one, l.world) == [] && Returned(one, l.world) == 1;
  }

  lemma SweepNobody(l: Line)
    requires l.waiters == []
    ensures SweepLine(l) == l
  {
  }

  lemma ExampleDrop(s4: Ledger<int>, s5: Ledger<int>)
    requires s4 == Example(4) && s5 == Example(5)
    ensures Step(s4, Cleaning, s5)
  {
    hide Step, SweepLine;
    ExampleSweep(s4.store.getters);
    SweepNobody(s4.store.putters);
    CleanStep(s4, s5);
  }

  /** Cancelling a consumer who has an item reserved can leave that item idle: the next look at the queue
      frees it, yet the consumer behind stays parked. */
  lemma IdleItemExample()
    ensures exists states: seq<Ledger<int>>, events: seq<Event<int>> ::
      IsRun(states, events, 0) && |events| == 5 && !NoIdleItem(states[5].store)
  {
    hide Step;
    var s0, s1, s2, s3, s4, s5 := Example(0), Example(1), Example(2), Example(3), Example(4), Example(5);
    ExampleArrivals(s0, s1, s2);
    ExamplePut(s2, s3);
    ExampleCancel(s3, s4);
    ExampleDrop(s4, s5);
    var states, events := [s0, s1, s2, s3, s4, s5], [Getting, Getting, PuttingNow(7), CancellingGet(0), Cleaning];
    forall k | 0 <= k < |events|
      ensures Step(states[k], events[k], states[k + 1])
    {
      assert k == 0 || k == 1 || k == 2 || k == 3 || k == 4;
    }
    assert IsRun(states, events, 0);
    assert s5.store.getters.world[1].Parked?;
  }

  lemma WakeAfterCleanup<T>(q: Store<T>)
    ensures WakeConsumers(Cleanup(q)) == WakeConsumers(q)
  {
    CleanTwice(q);
  }

  // ---------------------------------------------------------------------------------------------
  // The class
  // ---------------------------------------------------------------------------------------------

  class Queue<T> {
    const maxsize: nat
    const getTable: WaitTable
    const putTable: WaitTable
    var items: seq<T>
    var getWaiters: seq<Waiter>
    var putWaiters: seq<Waiter>
    var reservedItems: int
    var reservedPutSlots: int

    constructor (maxsize: nat, getTable: WaitTable, putTable: WaitTable)
      ensures this.maxsize == maxsize && this.getTable == getTable && this.putTable == putTable
      ensures items == [] && getWaiters == [] && putWaiters == [] && reservedItems == 0 && reservedPutSlots == 0
    {
      this.maxsize := maxsize;
      this.getTable := getTable;
      this.putTable := putTable;
      items := [];
      getWaiters := [];
      putWaiters := [];
      reservedItems := 0;
      reservedPutSlots := 0;
    }

    ghost function View(): Store<T>
      reads this, getTable, putTable
    {
      Store(items, Line(getWaiters, getTable.world, reservedItems), Line(putWaiters, putTable.world, reservedPutSlots),
        maxsize)
    }

    method CleanUp()
      modifies this
      ensures View() == Cleanup(old(View()))
    {
      var getters, freedItems := SweepOut(getWaiters, getTable);
      getWaiters := getters;
      reservedItems := reservedItems - freedItems;
      var putters, freedSlots := SweepOut(putWaiters, putTable);
      putWaiters := putters;
      reservedPutSlots := reservedPutSlots - freedSlots;
    }

    method OfferItems()
      requires getTable != putTable
      modifies this, getTable
      ensures View() == WakeConsumers(old(View()))
    {
      CleanUp();
      var after, count := HandOutEach(getWaiters, getTable, |items| - reservedItems);
      getWaiters := after;
      reservedItems := reservedItems + count;
    }

    method OfferPlaces()
      requires getTable != putTable
      modifies this, putTable
      ensures View() == WakeProducers(old(View()))
    {
      CleanUp();
      var places := if maxsize == 0 then |putWaiters| else maxsize - |items| - reservedPutSlots;
      var after, count := HandOutEach(putWaiters, putTable, places);
      putWaiters := after;
      reservedPutSlots := reservedPutSlots + count;
    }

    method PutNowait(value: T) returns (stored: bool)
      requires getTable != putTable
      modifies this, getTable
      ensures stored <==> PutNow(old(View()), value).Some?
      ensures View() == if stored then PutNow(old(View()), value).value else Cleanup(old(View()))
    {
      CleanUp();
      stored := maxsize == 0 || |items| + reservedPutSlots < maxsize;
      if stored {
        items := items + [value];
        OfferItems();
      }
    }

    /** `get_nowait`, and `consume_get` without a registration. */
    method GetNowait() returns (value: Option<T>)
      requires getTable != putTable
      requires StoreOk(View())
      modifies this, putTable
      ensures (View(), value) == GetNow(old(View()))
    {
      ghost var before := View();
      CleanUp();
      CleanupKeeps(before);
      if |items| > reservedItems {
        value := Some(items[reservedItems]);
        items := items[..reservedItems] + items[reservedItems + 1..];
        OfferPlaces();
      } else {
        value := None;
      }
    }

    /** `None` when an item is free after all, otherwise the wait that has begun. */
    method SuspendGet() returns (wait: Option<nat>)
      modifies this, getTable
      requires getTable != putTable
      ensures var c := Cleanup(old(View()));
        if HasItem(c) then wait == None && View() == c else wait == Some(|c.getters.world|) && View() == Wait(c, true)
    {
      CleanUp();
      if |items| > reservedItems {
        wait := None;
      } else {
        var w := getTable.Park();
        getWaiters := getWaiters + [Waiter(w, false)];
        wait := Some(w);
      }
    }

    method SuspendPut() returns (wait: Option<nat>)
      modifies this, putTable
      requires getTable != putTable
      ensures var c := Cleanup(old(View()));
        if HasPlace(c) then wait == None && View() == c else wait == Some(|c.putters.world|) && View() == Wait(c, false)
    {
      CleanUp();
      if maxsize == 0 || |items| + reservedPutSlots < maxsize {
        wait := None;
      } else {
        var w := putTable.Park();
        putWaiters := putWaiters + [Waiter(w, false)];
        wait := Some(w);
      }
    }

    /** `None` where the source aborts. */
    method ConsumeGet(wait: nat) returns (value: Option<T>)
      requires getTable != putTable
      modifies this, getTable, putTable
      ensures var r := ConsumeReserved(old(View()), wait);
        if r.None? then value == None && View() == old(View())
        else value == Some(r.value.1) && View() == WakeProducers(r.value.0)
    {
      hide Cleanup, WakeConsumers, WakeProducers, GrantEach, Sweep;
      var i := Search(getWaiters, wait);
      if i == |getWaiters| || !getWaiters[i].reserved || items == [] {
        value := None;
      } else {
        ghost var before := View();
        value := Some(items[0]);
        items := items[1..];
        reservedItems := reservedItems - 1;
        getWaiters := getWaiters[..i] + getWaiters[i + 1..];
        assert View() == before.(items := before.items[1..], getters := Leave(before.getters, i));
        WakeAfterCleanup(View());
        CleanUp();
        OfferItems();
        OfferPlaces();
      }
    }

    /** False where the source aborts. */
    method ProduceFor(wait: nat, value: T) returns (ok: bool)
      requires getTable != putTable
      modifies this, getTable
      ensures var r := ProduceReserved(old(View()), wait, value);
        ok == r.Some? && View() == if ok then r.value else old(View())
    {
      hide Cleanup, WakeConsumers, GrantEach, Sweep;
      var i := Search(putWaiters, wait);
      ok := i < |putWaiters| && putWaiters[i].reserved;
      if ok {
        ghost var before := View();
        reservedPutSlots := reservedPutSlots - 1;
        putWaiters := putWaiters[..i] + putWaiters[i + 1..];
        items := items + [value];
        assert View() == before.(items := before.items + [value], putters := Leave(before.putters, i));
        CleanUp();
        OfferItems();
      }
    }

    method AbandonGetting(wait: nat)
      requires getTable != putTable
      modifies this, getTable
      ensures View() == AbandonGet(old(View()), wait)
    {
      hide Cleanup, WakeConsumers, WakeProducers, GrantEach, Sweep;
      var i := Search(getWaiters, wait);
      if i < |getWaiters| {
        ghost var before := View();
        if getWaiters[i].reserved {
          reservedItems := reservedItems - 1;
        }
        getWaiters := getWaiters[..i] + getWaiters[i + 1..];
        assert View() == before.(getters := Leave(before.getters, i));
        CleanUp();
        OfferItems();
      }
    }

    method AbandonPutting(wait: nat)
      requires getTable != putTable
      modifies this, putTable
      ensures View() == AbandonPut(old(View()), wait)
    {
      hide Cleanup, WakeConsumers, WakeProducers, GrantEach, Sweep;
      var i := Search(putWaiters, wait);
      if i < |putWaiters| {
        ghost var before := View();
        if putWaiters[i].reserved {
          reservedPutSlots := reservedPutSlots - 1;
        }
        putWaiters := putWaiters[..i] + putWaiters[i + 1..];
        assert View() == before.(putters := Leave(before.putters, i));
        CleanUp();
        OfferPlaces();
      }
    }
  }
}
