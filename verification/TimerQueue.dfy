/** Timers: a heap with its minimum kept outside it. */
module TimerQueue {
  import opened Registrations

  /** The largest `uint64_t`; as a deadline it means that no timer is set. */
  const NO_DEADLINE: nat := 0xffff_ffff_ffff_ffff

  datatype Timer = Timer(deadline: nat, order: nat, reg: Reg)

  predicate Before(a: Timer, b: Timer) {
    a.deadline < b.deadline || (a.deadline == b.deadline && a.order < b.order)
  }

  /** `next` is the cached minimum (`next_timer_`), `heap` the priority queue, kept in the order in
      which it hands its elements out. `changed` is `timer_schedule_changed_`. */
  datatype TimerTable = TimerTable(next: Option<Timer>, heap: seq<Timer>, nextOrder: nat, changed: bool)

  function Insert(heap: seq<Timer>, t: Timer): seq<Timer> {
    if heap != [] && Before(heap[0], t) then [heap[0]] + Insert(heap[1..], t) else [t] + heap
  }

  function Size(q: TimerTable): nat {
    |q.heap| + if q.next.Some? then 1 else 0
  }

  /** `discard_stale_timers` */
  function Discard(q: TimerTable, tokens: Tokens): (r: TimerTable)
    ensures Size(r) <= Size(q)
    decreases |q.heap|
  {
    if q.next.Some? && Live(tokens, q.next.value.reg) then q
    else
      var changed := q.changed || q.next.Some?;
      if q.heap == [] then q.(next := None, changed := changed)
      else Discard(q.(next := Some(q.heap[0]), heap := q.heap[1..], changed := changed), tokens)
  }

  /** `push_timer` */
  function Push(q: TimerTable, t: Timer): TimerTable {
    if q.next.None? then q.(next := Some(t))
    else if Before(t, q.next.value) then q.(next := Some(t), heap := Insert(q.heap, q.next.value))
    else q.(heap := Insert(q.heap, t))
  }

  /** The value of `next_timer_deadline`; reading it also discards stale timers. */
  function NextDeadline(q: TimerTable, tokens: Tokens): nat {
    var q := Discard(q, tokens);
    if q.next.None? then NO_DEADLINE else q.next.value.deadline
  }

  /** The delay branch of `register_wait`. */
  function AddTimer(q: TimerTable, tokens: Tokens, deadline: nat, reg: Reg): TimerTable {
    var previous := NextDeadline(q, tokens);
    var q := Discard(q, tokens);
    var q := Push(q.(nextOrder := q.nextOrder + 1), Timer(deadline, q.nextOrder, reg));
    if deadline < previous then q.(changed := true) else q
  }

  /** Every timer in the table, as one list. */
  function All(q: TimerTable): seq<Timer> {
    (if q.next.Some? then [q.next.value] else []) + q.heap
  }

  /** The timers armed for the wait of a slot under a generation, in order. */
  function HeldTimers(ts: seq<Timer>, i: nat, g: nat): seq<Timer> {
    if ts == [] then []
    else (if Counts(HeldBy(i, g), ts[0].reg) then [ts[0]] else []) + HeldTimers(ts[1..], i, g)
  }

  ghost predicate Sorted(ts: seq<Timer>) {
    forall a, b :: 0 <= a < b < |ts| ==> Before(ts[a], ts[b])
  }

  ghost predicate Genuine(ts: seq<Timer>, slots: nat, last: nat, nextOrder: nat) {
    forall t :: t in ts ==> t.order < nextOrder && t.deadline <= NO_DEADLINE && t.reg.slot < slots && t.reg.gen <= last
  }

  /** An empty cache means an empty heap, and the cached timer, dead or alive, precedes every other. */
  ghost predicate TimerInv(q: TimerTable, slots: nat, last: nat) {
    && (q.next.None? ==> q.heap == [])
    && Sorted(All(q))
    && Genuine(All(q), slots, last, q.nextOrder)
  }

  /** The deadline of the first live timer of a sorted list: the earliest live deadline. */
  ghost function Earliest(ts: seq<Timer>, tokens: Tokens): nat {
    if ts == [] then NO_DEADLINE
    else if Live(tokens, ts[0].reg) then ts[0].deadline
    else Earliest(ts[1..], tokens)
  }

  lemma {:induction false} EarliestExact(ts: seq<Timer>, tokens: Tokens)
    requires Sorted(ts) && forall t :: t in ts ==> t.deadline <= NO_DEADLINE
    ensures forall t :: t in ts && Live(tokens, t.reg) ==> Earliest(ts, tokens) <= t.deadline
    ensures Earliest(ts, tokens) <= NO_DEADLINE
    ensures Earliest(ts, tokens) == NO_DEADLINE
      || exists t :: t in ts && Live(tokens, t.reg) && t.deadline == Earliest(ts, tokens)
  {
    if ts != [] {
      assert ts[0] in ts;
      assert forall t :: t in ts <==> t == ts[0] || t in ts[1..];
      EarliestExact(ts[1..], tokens);
    }
  }

  function DropDead(ts: seq<Timer>, tokens: Tokens): seq<Timer> {
    if ts != [] && !Live(tokens, ts[0].reg) then DropDead(ts[1..], tokens) else ts
  }

  lemma {:induction false} DropDeadExact(ts: seq<Timer>, tokens: Tokens)
    ensures forall t :: t in ts && Live(tokens, t.reg) ==> t in DropDead(ts, tokens)
    ensures forall t :: t in DropDead(ts, tokens) ==> t in ts
    ensures DropDead(ts, tokens) != [] ==> Live(tokens, DropDead(ts, tokens)[0].reg)
    ensures Earliest(DropDead(ts, tokens), tokens) == Earliest(ts, tokens)
    ensures |DropDead(ts, tokens)| <= |ts|
  {
    if ts != [] && !Live(tokens, ts[0].reg) {
      DropDeadExact(ts[1..], tokens);
      assert forall t :: t in ts <==> t == ts[0] || t in ts[1..];
    }
  }

  lemma {:induction false} DropDeadSorted(ts: seq<Timer>, tokens: Tokens)
    requires Sorted(ts)
    ensures Sorted(DropDead(ts, tokens))
  {
    if ts != [] && !Live(tokens, ts[0].reg) {
      DropDeadSorted(ts[1..], tokens);
    }
  }

  /** Discarding drops exactly the dead timers before the first live one. */
  lemma {:induction false} DiscardExact(q: TimerTable, tokens: Tokens)
    requires q.next.None? ==> q.heap == []
    ensures var r := Discard(q, tokens);
      && All(r) == DropDead(All(q), tokens)
      && (r.next.None? ==> r.heap == [])
      && (r.next.Some? ==> Live(tokens, r.next.value.reg))
      && r.nextOrder == q.nextOrder && (q.changed ==> r.changed)
      && (r.changed <==> q.changed || All(r) != All(q))
    decreases |q.heap|
  {
    if !(q.next.Some? && Live(tokens, q.next.value.reg)) && q.heap != [] {
      var d := q.(next := Some(q.heap[0]), heap := q.heap[1..], changed := q.changed || q.next.Some?);
      DiscardExact(d, tokens);
      assert All(d) == q.heap == All(q)[1..];
      DropDeadExact(All(d), tokens);
      assert |All(Discard(q, tokens))| < |All(q)|;
    }
  }

  lemma DiscardKeeps(q: TimerTable, tokens: Tokens, slots: nat, last: nat)
    requires TimerInv(q, slots, last)
    ensures TimerInv(Discard(q, tokens), slots, last)
    ensures NextDeadline(q, tokens) == Earliest(All(q), tokens)
    ensures Earliest(All(Discard(q, tokens)), tokens) == Earliest(All(q), tokens)
  {
    DiscardExact(q, tokens);
    DropDeadExact(All(q), tokens);
    DropDeadSorted(All(q), tokens);
  }

  lemma SortedCons(t: Timer, ts: seq<Timer>)
    requires Sorted(ts) && forall x :: x in ts ==> Before(t, x)
    ensures Sorted([t] + ts)
  {
    assert forall k :: 0 <= k < |ts| ==> ts[k] in ts;
  }

  lemma {:induction false} InsertExact(heap: seq<Timer>, t: Timer)
    requires Sorted(heap) && forall x :: x in heap ==> Before(x, t) || Before(t, x)
    ensures Sorted(Insert(heap, t)) && multiset(Insert(heap, t)) == multiset(heap) + multiset{t}
    ensures forall x :: x in Insert(heap, t) <==> x in heap || x == t
  {
    if heap != [] {
      var head, rest := heap[0], heap[1..];
      assert heap == [head] + rest;
      if Before(head, t) {
        InsertExact(rest, t);
        SortedCons(head, Insert(rest, t));
      } else {
        assert head in heap && forall x :: x in rest ==> Before(head, x);
        SortedCons(t, heap);
      }
    }
  }

  lemma PushExact(q: TimerTable, t: Timer)
    requires (q.next.None? ==> q.heap == []) && Sorted(All(q)) && forall x :: x in All(q) ==> x.order != t.order
    ensures var r := Push(q, t);
      && r.next.Some? && Sorted(All(r)) && r.nextOrder == q.nextOrder && r.changed == q.changed
      && (forall x :: x in All(r) <==> x in All(q) || x == t)
  {
    var r := Push(q, t);
    if q.next.Some? {
      var next := q.next.value;
      assert All(q)[0] == next && All(q)[1..] == q.heap;
      assert forall x :: x in All(q) <==> x == next || x in q.heap;
      forall x | x in q.heap
        ensures Before(next, x) && (Before(x, t) || Before(t, x))
      {
        var k :| 0 <= k < |q.heap| && q.heap[k] == x;
        assert All(q)[k + 1] == x;
      }
      InsertExact(q.heap, if Before(t, next) then next else t);
      SortedCons(r.next.value, r.heap);
      assert All(r) == [r.next.value] + r.heap;
    } else {
      assert All(q) == [] && All(r) == [t];
    }
  }

  lemma AddTimerContents(q: TimerTable, tokens: Tokens, last: nat, deadline: nat, reg: Reg)
    requires TimerInv(q, |tokens|, last) && reg.slot < |tokens| && reg.gen <= last && deadline <= NO_DEADLINE
    ensures var r := AddTimer(q, tokens, deadline, reg);
      && TimerInv(r, |tokens|, last)
      && (forall x :: x in All(r) <==> x in DropDead(All(q), tokens) || x == Timer(deadline, q.nextOrder, reg))
      && r.next.Some?
  {
    DiscardExact(q, tokens);
    DiscardKeeps(q, tokens, |tokens|, last);
    var d := Discard(q, tokens).(nextOrder := q.nextOrder + 1);
    assert All(d) == All(Discard(q, tokens));
    PushExact(d, Timer(deadline, q.nextOrder, reg));
    var p := Push(d, Timer(deadline, q.nextOrder, reg));
    assert All(AddTimer(q, tokens, deadline, reg)) == All(p);
  }

  /** Timers of other waits come and go without touching those of a wait that lasts. */
  lemma {:induction false} HeldInsert(heap: seq<Timer>, t: Timer, i: nat, g: nat)
    requires !Counts(HeldBy(i, g), t.reg)
    ensures HeldTimers(Insert(heap, t), i, g) == HeldTimers(heap, i, g)
  {
    if heap != [] && Before(heap[0], t) {
      HeldInsert(heap[1..], t, i, g);
      assert Insert(heap, t)[1..] == Insert(heap[1..], t);
    } else {
      assert ([t] + heap)[1..] == heap;
    }
  }

  lemma {:induction false} HeldDropDead(ts: seq<Timer>, tokens: Tokens, i: nat, g: nat)
    requires i < |tokens| && tokens[i] == Some(g)
    ensures HeldTimers(DropDead(ts, tokens), i, g) == HeldTimers(ts, i, g)
  {
    if ts != [] && !Live(tokens, ts[0].reg) {
      HeldDropDead(ts[1..], tokens, i, g);
    }
  }

  lemma HeldCons(t: Timer, ts: seq<Timer>, i: nat, g: nat)
    ensures HeldTimers([t] + ts, i, g) == (if Counts(HeldBy(i, g), t.reg) then [t] else []) + HeldTimers(ts, i, g)
  {
    assert ([t] + ts)[1..] == ts;
  }

  lemma HeldPushed(q: TimerTable, t: Timer, i: nat, g: nat)
    requires (q.next.None? ==> q.heap == []) && Sorted(All(q)) && !Counts(HeldBy(i, g), t.reg)
    ensures HeldTimers(All(Push(q, t)), i, g) == HeldTimers(All(q), i, g)
  {
    hide HeldTimers, Sorted;
    var p := Push(q, t);
    if q.next.None? {
      HeldCons(t, [], i, g);
      assert All(p) == [t] + [] && All(q) == [];
    } else if Before(t, q.next.value) {
      assert Insert(q.heap, q.next.value) == All(q) by {
        NextFirst(q);
      }
      HeldCons(t, All(q), i, g);
    } else {
      HeldInsert(q.heap, t, i, g);
      HeldCons(q.next.value, q.heap, i, g);
      HeldCons(q.next.value, Insert(q.heap, t), i, g);
    }
  }

  lemma NextFirst(q: TimerTable)
    requires q.next.Some? && Sorted(All(q))
    ensures Insert(q.heap, q.next.value) == All(q)
  {
    if q.heap != [] {
      assert All(q)[0] == q.next.value && All(q)[1] == q.heap[0];
    }
  }

  lemma HeldAddTimer(q: TimerTable, tokens: Tokens, deadline: nat, reg: Reg, i: nat, g: nat)
    requires (q.next.None? ==> q.heap == []) && Sorted(All(q))
    requires i < |tokens| && tokens[i] == Some(g) && !Counts(HeldBy(i, g), reg)
    ensures HeldTimers(All(AddTimer(q, tokens, deadline, reg)), i, g) == HeldTimers(All(q), i, g)
  {
    hide HeldTimers, Sorted, Push, Discard, DropDead;
    DiscardExact(q, tokens);
    HeldDropDead(All(q), tokens, i, g);
    DropDeadSorted(All(q), tokens);
    var d := Discard(q, tokens).(nextOrder := q.nextOrder + 1);
    assert All(d) == All(Discard(q, tokens));
    HeldPushed(d, Timer(deadline, q.nextOrder, reg), i, g);
  }

  /** Arming a timer adds exactly that timer, and marks the schedule changed whenever the earliest
      live deadline moved forward. */
  lemma AddTimerExact(q: TimerTable, tokens: Tokens, last: nat, deadline: nat, reg: Reg)
    requires TimerInv(q, |tokens|, last) && Live(tokens, reg) && reg.gen <= last && deadline <= NO_DEADLINE
    ensures var r := AddTimer(q, tokens, deadline, reg);
      && TimerInv(r, |tokens|, last)
      && (forall x :: x in All(r) <==> x in DropDead(All(q), tokens) || x == Timer(deadline, q.nextOrder, reg))
      && (q.changed ==> r.changed)
      && (!r.changed ==> Earliest(All(r), tokens) >= Earliest(All(q), tokens))
  {
    AddTimerContents(q, tokens, last, deadline, reg);
    DiscardExact(q, tokens);
    DiscardKeeps(q, tokens, |tokens|, last);
    DropDeadExact(All(q), tokens);
    var r := AddTimer(q, tokens, deadline, reg);
    if !r.changed {
      EarliestExact(All(r), tokens);
      EarliestExact(All(q), tokens);
    }
  }

  /** Ending waits can only move the earliest live deadline back. */
  lemma {:induction false} EarliestAfterEnd(ts: seq<Timer>, before: Tokens, after: Tokens)
    requires Sorted(ts) && forall t :: t in ts ==> t.deadline <= NO_DEADLINE
    requires forall t :: t in ts && Live(after, t.reg) ==> Live(before, t.reg)
    ensures Earliest(ts, after) >= Earliest(ts, before)
  {
    EarliestExact(ts, before);
    EarliestExact(ts, after);
  }

  /** A wait under a fresh generation revives no timer. */
  lemma {:induction false} EarliestAfterBegin(ts: seq<Timer>, tokens: Tokens, i: nat, last: nat)
    requires i < |tokens| && tokens[i].None? && forall t :: t in ts ==> t.reg.gen <= last
    ensures Earliest(ts, tokens[i := Some(last + 1)]) == Earliest(ts, tokens)
  {
    if ts != [] {
      assert ts[0] in ts;
      EarliestAfterBegin(ts[1..], tokens, i, last);
    }
  }

  /** The registrations of the timers at the front of a sorted list that are due. */
  function DueRegs(ts: seq<Timer>, now: nat): seq<Reg> {
    if ts == [] || ts[0].deadline > now then [] else [ts[0].reg] + DueRegs(ts[1..], now)
  }

  lemma {:induction false} DueRegsExact(ts: seq<Timer>, now: nat, r: Reg)
    requires Sorted(ts)
    ensures r in DueRegs(ts, now) <==> exists t :: t in ts && t.deadline <= now && t.reg == r
  {
    if ts != [] {
      assert forall t :: t in ts <==> t == ts[0] || t in ts[1..];
      if ts[0].deadline > now {
        forall t | t in ts
          ensures t.deadline > now
        {
          var k :| 0 <= k < |ts| && ts[k] == t;
          assert k == 0 || Before(ts[0], ts[k]);
        }
      } else {
        DueRegsExact(ts[1..], now, r);
      }
    }
  }

  /** When the first live timer is not due, the due ones wake nobody. When it is due, they wake what
      its registration and those due after it wake. */
  lemma {:induction false} DueWakes(ts: seq<Timer>, tokens: Tokens, now: nat)
    requires Sorted(ts)
    ensures var live := DropDead(ts, tokens);
      if live == [] || live[0].deadline > now
      then WakeOrder(DueRegs(ts, now), tokens) == [] && AfterWake(DueRegs(ts, now), tokens) == tokens
      else var rs := [live[0].reg] + DueRegs(live[1..], now);
        WakeOrder(DueRegs(ts, now), tokens) == WakeOrder(rs, tokens)
        && AfterWake(DueRegs(ts, now), tokens) == AfterWake(rs, tokens)
  {
    if ts != [] && !Live(tokens, ts[0].reg) {
      DueWakes(ts[1..], tokens, now);
      DropDeadExact(ts[1..], tokens);
      var live := DropDead(ts[1..], tokens);
      if live != [] {
        assert live[0] in ts[1..];
        var k :| 0 <= k < |ts[1..]| && ts[1..][k] == live[0];
        assert Before(ts[0], ts[k + 1]);
      }
      assert ([ts[0].reg] + DueRegs(ts[1..], now))[1..] == DueRegs(ts[1..], now);
    }
  }
}
