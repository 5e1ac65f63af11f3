/** Wait registrations and how many of them a queue holds.

A coroutine that waits owns one fresh generation. Every queue entry made for that wait carries the
slot and the generation, and the entry is live exactly while the slot still waits under that
generation. Entries of finished waits stay in their queues until somebody drops them, so all the
counters kept by the scheduler are statements about how many entries of each queue are live. */
module Registrations {

  datatype Option<+T> = None | Some(value: T)

  /** `WaitRegistration`; `sibling` is the winner index when the wait is one trigger of a `First`. */
  datatype Reg = Reg(slot: nat, gen: nat, sibling: Option<nat>)

  /** For each slot, the generation of the wait it is in, if it is in one. */
  type Tokens = seq<Option<nat>>

  predicate Live(tokens: Tokens, r: Reg) {
    r.slot < |tokens| && tokens[r.slot] == Some(r.gen)
  }

  /** What to count in a queue. */
  datatype Measure = Every | LiveUnder(tokens: Tokens) | HeldBy(slot: nat, gen: nat)

  predicate Counts(m: Measure, r: Reg) {
    match m
    case Every => true
    case LiveUnder(tokens) => Live(tokens, r)
    case HeldBy(slot, gen) => r.slot == slot && r.gen == gen
  }

  function Count(q: seq<Reg>, m: Measure): nat {
    if q == [] then 0
    else Count(q[..|q| - 1], m) + (if Counts(m, q[|q| - 1]) then 1 else 0)
  }

  /** The sum of the counts of all queues; with `falling` only of those that a falling edge wakes
      (every third queue, starting with the first, belongs to rising edges). */
  function Total(qs: seq<seq<Reg>>, m: Measure, falling: bool): nat {
    if qs == [] then 0
    else
      var k := |qs| - 1;
      Total(qs[..k], m, falling) + (if falling && k % 3 == 0 then 0 else Count(qs[k], m))
  }

  ghost predicate Issued(q: seq<Reg>, slots: nat, last: nat) {
    forall r :: r in q ==> r.slot < slots && r.gen <= last
  }

  lemma CountPush(q: seq<Reg>, r: Reg, m: Measure)
    ensures Count(q + [r], m) == Count(q, m) + (if Counts(m, r) then 1 else 0)
  {
    assert (q + [r])[..|q|] == q;
  }

  lemma {:induction false} CountEvery(q: seq<Reg>)
    ensures Count(q, Every) == |q|
  {
    if q != [] {
      CountEvery(q[..|q| - 1]);
    }
  }

  lemma {:induction false} CountSplit(q: seq<Reg>, whole: Measure, left: Measure, right: Measure)
    requires forall r :: r in q ==> (Counts(whole, r) <==> Counts(left, r) || Counts(right, r))
    requires forall r :: r in q ==> !(Counts(left, r) && Counts(right, r))
    ensures Count(q, whole) == Count(q, left) + Count(q, right)
  {
    if q != [] {
      CountSplit(q[..|q| - 1], whole, left, right);
    }
  }

  lemma {:induction false} CountSame(q: seq<Reg>, a: Measure, b: Measure)
    requires forall r :: r in q ==> (Counts(a, r) <==> Counts(b, r))
    ensures Count(q, a) == Count(q, b)
  {
    if q != [] {
      CountSame(q[..|q| - 1], a, b);
    }
  }

  lemma {:induction false} CountNone(q: seq<Reg>, m: Measure)
    requires forall r :: r in q ==> !Counts(m, r)
    ensures Count(q, m) == 0
  {
    if q != [] {
      CountNone(q[..|q| - 1], m);
    }
  }

  lemma {:induction false} CountPositive(q: seq<Reg>, m: Measure)
    ensures Count(q, m) > 0 <==> exists r :: r in q && Counts(m, r)
  {
    if q != [] {
      var front, last := q[..|q| - 1], q[|q| - 1];
      CountPositive(front, m);
      assert last in q;
      assert forall r :: r in q <==> r in front || r == last;
    }
  }

  lemma {:induction false} CountAtMost(q: seq<Reg>, m: Measure)
    ensures Count(q, m) <= |q|
  {
    if q != [] {
      CountAtMost(q[..|q| - 1], m);
    }
  }

  /** Ending a wait turns exactly the entries of that wait from live to dead. */
  lemma CountEnd(q: seq<Reg>, tokens: Tokens, i: nat)
    requires i < |tokens| && tokens[i].Some?
    ensures Count(q, LiveUnder(tokens))
         == Count(q, LiveUnder(tokens[i := None])) + Count(q, HeldBy(i, tokens[i].value))
  {
    CountSplit(q, LiveUnder(tokens), LiveUnder(tokens[i := None]), HeldBy(i, tokens[i].value));
  }

  /** Starting a wait under a generation never issued before makes no old entry live. */
  lemma CountBegin(q: seq<Reg>, tokens: Tokens, i: nat, last: nat)
    requires i < |tokens| && tokens[i].None?
    requires Issued(q, |tokens|, last)
    ensures Count(q, LiveUnder(tokens[i := Some(last + 1)])) == Count(q, LiveUnder(tokens))
    ensures Count(q, HeldBy(i, last + 1)) == 0
  {
    CountNone(q, HeldBy(i, last + 1));
    CountSplit(q, LiveUnder(tokens[i := Some(last + 1)]), LiveUnder(tokens), HeldBy(i, last + 1));
  }

  lemma {:induction false} TotalSplit(qs: seq<seq<Reg>>, whole: Measure, left: Measure, right: Measure, falling: bool)
    requires forall k :: 0 <= k < |qs| ==> Count(qs[k], whole) == Count(qs[k], left) + Count(qs[k], right)
    ensures Total(qs, whole, falling) == Total(qs, left, falling) + Total(qs, right, falling)
  {
    if qs != [] {
      TotalSplit(qs[..|qs| - 1], whole, left, right, falling);
    }
  }

  lemma {:induction false} TotalSame(qs: seq<seq<Reg>>, rs: seq<seq<Reg>>, a: Measure, b: Measure, falling: bool)
    requires |qs| == |rs|
    requires forall k :: 0 <= k < |qs| ==> Count(qs[k], a) == Count(rs[k], b)
    ensures Total(qs, a, falling) == Total(rs, b, falling)
  {
    if qs != [] {
      TotalSame(qs[..|qs| - 1], rs[..|qs| - 1], a, b, falling);
    }
  }

  lemma {:induction false} TotalNone(qs: seq<seq<Reg>>, m: Measure, falling: bool)
    requires forall k :: 0 <= k < |qs| ==> Count(qs[k], m) == 0
    ensures Total(qs, m, falling) == 0
  {
    if qs != [] {
      TotalNone(qs[..|qs| - 1], m, falling);
    }
  }

  lemma {:induction false} TotalAtLeast(qs: seq<seq<Reg>>, m: Measure, k: nat)
    requires k < |qs|
    ensures Total(qs, m, false) >= Count(qs[k], m)
  {
    if k < |qs| - 1 {
      TotalAtLeast(qs[..|qs| - 1], m, k);
    }
  }

  lemma {:induction false} TotalUpdate(qs: seq<seq<Reg>>, k: nat, q: seq<Reg>, m: Measure, falling: bool)
    requires k < |qs|
    ensures Total(qs[k := q], m, falling)
         == Total(qs, m, falling) + (if falling && k % 3 == 0 then 0 else Count(q, m) - Count(qs[k], m))
  {
    var n := |qs| - 1;
    if k < n {
      TotalUpdate(qs[..n], k, q, m, falling);
      assert qs[k := q][..n] == qs[..n][k := q];
    } else {
      assert qs[k := q][..n] == qs[..n];
    }
  }

  /** `resize`: more empty queues at the end. */
  function Grow(qs: seq<seq<Reg>>, n: nat): (r: seq<seq<Reg>>)
    ensures |r| == if |qs| < n then n else |qs|
    ensures forall k :: 0 <= k < |r| ==> r[k] == if k < |qs| then qs[k] else []
    decreases n - |qs|
  {
    if |qs| < n then Grow(qs + [[]], n) else qs
  }

  lemma {:induction false} TotalGrow(qs: seq<seq<Reg>>, n: nat, m: Measure, falling: bool)
    ensures Total(Grow(qs, n), m, falling) == Total(qs, m, falling)
    decreases n - |qs|
  {
    if |qs| < n {
      TotalGrow(qs + [[]], n, m, falling);
      assert (qs + [[]])[..|qs|] == qs;
    }
  }

  /** The live entries of a queue, in order. */
  function LiveOnly(q: seq<Reg>, tokens: Tokens): seq<Reg> {
    if q == [] then []
    else LiveOnly(q[..|q| - 1], tokens) + (if Live(tokens, q[|q| - 1]) then [q[|q| - 1]] else [])
  }

  lemma {:induction false} LiveOnlyCounts(q: seq<Reg>, tokens: Tokens)
    ensures |LiveOnly(q, tokens)| == Count(q, LiveUnder(tokens)) == Count(LiveOnly(q, tokens), LiveUnder(tokens))
    ensures forall r :: r in LiveOnly(q, tokens) <==> r in q && Live(tokens, r)
    ensures forall i: nat, g: nat :: i < |tokens| && tokens[i] == Some(g) ==>
      Count(LiveOnly(q, tokens), HeldBy(i, g)) == Count(q, HeldBy(i, g))
  {
    if q != [] {
      var front, last := q[..|q| - 1], q[|q| - 1];
      LiveOnlyCounts(front, tokens);
      assert forall r :: r in q <==> r in front || r == last;
      if Live(tokens, last) {
        CountPush(LiveOnly(front, tokens), last, LiveUnder(tokens));
        forall i: nat, g: nat | i < |tokens| && tokens[i] == Some(g)
          ensures Count(LiveOnly(q, tokens), HeldBy(i, g)) == Count(q, HeldBy(i, g))
        {
          CountPush(LiveOnly(front, tokens), last, HeldBy(i, g));
        }
      } else {
        assert LiveOnly(q, tokens) == LiveOnly(front, tokens);
      }
    }
  }

  /** The entries made for the wait of a slot under a generation, in order. */
  function HeldOf(q: seq<Reg>, i: nat, g: nat): seq<Reg> {
    if q == [] then []
    else HeldOf(q[..|q| - 1], i, g) + if Counts(HeldBy(i, g), q[|q| - 1]) then [q[|q| - 1]] else []
  }

  lemma HeldPush(q: seq<Reg>, r: Reg, i: nat, g: nat)
    ensures HeldOf(q + [r], i, g) == HeldOf(q, i, g) + if Counts(HeldBy(i, g), r) then [r] else []
  {
    assert (q + [r])[..|q|] == q;
  }

  lemma {:induction false} HeldNone(q: seq<Reg>, i: nat, g: nat)
    requires forall r :: r in q ==> !Counts(HeldBy(i, g), r)
    ensures HeldOf(q, i, g) == []
  {
    if q != [] {
      HeldNone(q[..|q| - 1], i, g);
    }
  }

  lemma {:induction false} HeldMembers(q: seq<Reg>, i: nat, g: nat)
    ensures forall r :: r in HeldOf(q, i, g) <==> r in q && Counts(HeldBy(i, g), r)
  {
    if q != [] {
      var front, last := q[..|q| - 1], q[|q| - 1];
      HeldMembers(front, i, g);
      assert forall r :: r in q <==> r in front || r == last;
    }
  }

  /** A queue without live entries has none of a wait that lasts. */
  lemma HeldDead(q: seq<Reg>, tokens: Tokens, i: nat, g: nat)
    requires Count(q, LiveUnder(tokens)) == 0 && i < |tokens| && tokens[i] == Some(g)
    ensures HeldOf(q, i, g) == []
  {
    CountPositive(q, LiveUnder(tokens));
    forall r | r in q
      ensures !Counts(HeldBy(i, g), r)
    {
      assert !Counts(LiveUnder(tokens), r);
    }
    HeldNone(q, i, g);
  }

  /** Dropping dead entries drops none of a wait that lasts. */
  lemma {:induction false} HeldLive(q: seq<Reg>, tokens: Tokens, i: nat, g: nat)
    requires i < |tokens| && tokens[i] == Some(g)
    ensures HeldOf(LiveOnly(q, tokens), i, g) == HeldOf(q, i, g)
  {
    if q != [] {
      var front, last := q[..|q| - 1], q[|q| - 1];
      HeldLive(front, tokens, i, g);
      if Live(tokens, last) {
        HeldPush(LiveOnly(front, tokens), last, i, g);
      } else {
        assert LiveOnly(q, tokens) == LiveOnly(front, tokens);
      }
    }
  }

  /** The slots woken when the entries of a queue are resumed in order: each live entry wakes its
      slot, which ends that slot's wait. */
  function WakeOrder(q: seq<Reg>, tokens: Tokens): seq<nat>
    decreases |q|
  {
    if q == [] then []
    else if Live(tokens, q[0]) then [q[0].slot] + WakeOrder(q[1..], tokens[q[0].slot := None])
    else WakeOrder(q[1..], tokens)
  }

  /** The waits left when the entries of a queue have been resumed. */
  function AfterWake(q: seq<Reg>, tokens: Tokens): (r: Tokens)
    ensures |r| == |tokens|
    decreases |q|
  {
    if q == [] then tokens
    else if Live(tokens, q[0]) then AfterWake(q[1..], tokens[q[0].slot := None])
    else AfterWake(q[1..], tokens)
  }

  /** Every slot with a live entry is woken, once, and no other slot. */
  lemma {:induction false} WakeOrderExact(q: seq<Reg>, tokens: Tokens)
    ensures forall i: nat :: i in WakeOrder(q, tokens) <==> exists r :: r in q && Live(tokens, r) && r.slot == i
    ensures forall a, b :: 0 <= a < b < |WakeOrder(q, tokens)| ==> WakeOrder(q, tokens)[a] != WakeOrder(q, tokens)[b]
    ensures forall i :: 0 <= i < |tokens| ==>
      AfterWake(q, tokens)[i] == if i in WakeOrder(q, tokens) then None else tokens[i]
    decreases |q|
  {
    if q != [] {
      var next := if Live(tokens, q[0]) then tokens[q[0].slot := None] else tokens;
      WakeOrderExact(q[1..], next);
      assert forall r :: r in q <==> r == q[0] || r in q[1..];
      if Live(tokens, q[0]) {
        assert forall r :: Live(next, r) <==> Live(tokens, r) && r.slot != q[0].slot;
      }
    }
  }

  lemma {:induction false} AfterWakeAllDead(q: seq<Reg>, tokens: Tokens)
    ensures Count(q, LiveUnder(AfterWake(q, tokens))) == 0
  {
    WakeOrderExact(q, tokens);
    CountNone(q, LiveUnder(AfterWake(q, tokens)));
  }
}
