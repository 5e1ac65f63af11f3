/** Sticky edge sources: what has been announced for one is not announced again, so a consumer adds up what it reads. It
has what the scheduler listens for unless a change was read only when the wait that had caused it was over. */
module StickySources {
  import opened Registrations
  import opened WaitCore
  import opened SchedulerState
  import opened SchedulerLife
  import opened Delivery
  import opened SchedulerRun
  import opened SchedulerRuns
  import opened Interests
  import E = EdgeWaits

  predicate Has(m: E.Mask, falling: bool) {
    if falling then m.falling else m.rising
  }

  /** The step reads a change of the signal's interest. */
  predicate ReadsOf(s: Sched, e: Event, signal: nat) {
    e.InterestRead? && s.core.edges.interest.changes != [] && s.core.edges.interest.changes[0] == signal
  }

  /** What a consumer has of a signal's interest that adds up all it has read. */
  ghost function Gathered(states: seq<Sched>, events: seq<Event>, n: nat, signal: nat): E.Mask
    requires n <= |events| && |states| == |events| + 1
  {
    if n == 0 then E.NO_INTEREST
    else Gather(states[n - 1], events[n - 1], Gathered(states, events, n - 1, signal), signal)
  }

  function Gather(s: Sched, e: Event, had: E.Mask, signal: nat): E.Mask {
    if ReadsOf(s, e, signal) then had.Or(E.MaskOf(s.core.edges.interest, signal)) else had
  }

  /** The direction has been announced and the consumer does not have it. */
  predicate Unread(n: E.Interest, had: E.Mask, signal: nat, falling: bool) {
    signal in n.sticky && Has(n.sticky[signal], falling) && !Has(had, falling)
  }

  /** The step reads the announcement of a direction that nobody waits for any more. */
  predicate Loses(s: Sched, e: Event, had: E.Mask, signal: nat, falling: bool) {
    var n := s.core.edges.interest;
    ReadsOf(s, e, signal) && Unread(n, had, signal, falling) && !Has(E.MaskOf(n, signal), falling)
  }

  ghost predicate Tallied(n: E.Interest, had: E.Mask, signal: nat) {
    E.StickyHeld(n) && signal in n.sticky && had.Within(n.sticky[signal])
  }

  lemma ChangesAre(c: Core)
    requires WaitInv(c)
    ensures E.ChangesExact(c.edges.interest)
  {
  }

  lemma ReadSticky(s: Sched, t: Sched, had: E.Mask, signal: nat, falling: bool)
    requires SchedInv(s) && Reads(s, InterestRead, t) && Tallied(s.core.edges.interest, had, signal)
    ensures var n, m := s.core.edges.interest, t.core.edges.interest;
      var has := Gather(s, InterestRead, had, signal);
      && Tallied(m, has, signal) && m.sticky == n.sticky && E.MaskOf(m, signal) == E.MaskOf(n, signal)
      && (ReadsOf(s, InterestRead, signal) ==> E.Pending(n, signal) && !E.Pending(m, signal))
      && (!ReadsOf(s, InterestRead, signal) ==> E.Pending(n, signal) == E.Pending(m, signal))
  {
    hide WaitInv, LifeInv, RunInv;
    InvWait(s);
    ChangesAre(s.core);
    var n := s.core.edges.interest;
    if n.changes != [] {
      assert n.changes[0] in n.changes;
    }
    assert forall j: nat :: E.MaskOf(t.core.edges.interest, j) == E.MaskOf(n, j);
  }

  /** A direction is announced, not with the consumer and not about to be read just when it was so before, or has just
      been lost. */
  lemma StepSticky(s: Sched, e: Event, t: Sched, had: E.Mask, signal: nat, falling: bool)
    requires SchedInv(s) && Step(s, e, t) && Tallied(s.core.edges.interest, had, signal)
    ensures var n, m := s.core.edges.interest, t.core.edges.interest; var has := Gather(s, e, had, signal);
      && Tallied(m, has, signal)
      && (E.Pending(n, signal) ==> E.Pending(m, signal) || ReadsOf(s, e, signal))
      && (ReadsOf(s, e, signal) ==> E.Pending(n, signal) && !E.Pending(m, signal))
      && (Unread(m, has, signal, falling) && !E.Pending(m, signal) <==>
            || Loses(s, e, had, signal, falling)
            || (Unread(n, had, signal, falling) && !E.Pending(n, signal) && !E.Pending(m, signal)))
  {
    hide SchedInv, Call, Turn, Delivers, Reads;
    StepKeeps(s, e, t);
    if Reads(s, e, t) {
      if e.InterestRead? {
        ReadSticky(s, t, had, signal, falling);
      } else {
        ScheduleUnread(s, e, t);
      }
    } else {
      NotRead(s, e, t);
      hide Step, NoneRevived, DeadlineKept;
    }
  }

  lemma ScheduleUnread(s: Sched, e: Event, t: Sched)
    requires Reads(s, e, t) && !e.InterestRead?
    ensures t.core.edges == s.core.edges
  {
  }

  // ---------------------------------------------------------------------------------------------
  // Over runs
  // ---------------------------------------------------------------------------------------------

  /** The last change of the signal that was read before state n lost the direction. */
  ghost predicate LostLast(states: seq<Sched>, events: seq<Event>, n: nat, signal: nat, falling: bool)
    requires n <= |events| && |states| == |events| + 1
  {
    n > 0 &&
      if ReadsOf(states[n - 1], events[n - 1], signal)
      then Loses(states[n - 1], events[n - 1], Gathered(states, events, n - 1, signal), signal, falling)
      else LostLast(states, events, n - 1, signal, falling)
  }

  lemma {:induction false} GatheredTallied(states: seq<Sched>, events: seq<Event>, n: nat, signal: nat, falling: bool)
    requires IsRun(states, events) && n <= |events| && signal in states[0].core.edges.interest.sticky
    ensures var i := states[n].core.edges.interest; var had := Gathered(states, events, n, signal);
      && Tallied(i, had, signal)
      && (!E.Pending(i, signal) ==> (Unread(i, had, signal, falling) <==> LostLast(states, events, n, signal, falling)))
  {
    hide SchedInv, Step, Tallied, Unread;
    if n == 0 {
      NothingGathered(states, events, signal, falling);
    } else {
      GatheredTallied(states, events, n - 1, signal, falling);
      RunKeepsInvariant(states, events, n - 1);
      StepSticky(states[n - 1], events[n - 1], states[n], Gathered(states, events, n - 1, signal), signal, falling);
    }
  }

  lemma NothingGathered(states: seq<Sched>, events: seq<Event>, signal: nat, falling: bool)
    requires IsRun(states, events) && signal in states[0].core.edges.interest.sticky
    ensures Tallied(states[0].core.edges.interest, E.NO_INTEREST, signal)
    ensures !Unread(states[0].core.edges.interest, E.NO_INTEREST, signal, falling)
  {
  }

  /** For a sticky source with no change left to read, the consumer covers an edge that would wake somebody exactly if
      its direction was not lost when the source's last change was read. */
  lemma StickyExact(states: seq<Sched>, events: seq<Event>, n: nat, signal: nat, falling: bool)
    requires IsRun(states, events) && n <= |events|
    requires var i := states[n].core.edges.interest;
      signal in states[0].core.edges.interest.sticky && signal !in i.statics && !E.Pending(i, signal)
    ensures var edge := if falling then E.Falling else E.Rising;
      DeliverEdge(states[n].core, signal, edge).1 ==>
        (Covers(Gathered(states, events, n, signal), edge) <==> !LostLast(states, events, n, signal, falling))
  {
    hide Step, WaitInv, LifeInv, RunInv, Listens, LostLast;
    RunKeepsInvariant(states, events, n);
    GatheredTallied(states, events, n, signal, falling);
    WakingListens(states[n].core, signal, if falling then E.Falling else E.Rising);
    MaskExact(states[n].core, signal);
  }

  /** A wait for a falling edge of a sticky source begins and ends before its announcement is read, and another begins
      after: nothing is announced for it, and the consumer has never heard of the direction. */
  lemma LostExample(n: E.Interest, signal: nat)
    requires E.ChangesExact(n) && signal in n.sticky && n.sticky[signal] == E.NO_INTEREST
    requires |n.counts| == 3 * |n.pending| && n.changes == [] && E.MaskOf(n, signal) == E.NO_INTEREST
    ensures var k := E.QueueIndex(signal, E.Falling);
      var (after, change) := E.ConsumeChange(E.DropInterest(E.RaiseInterest(n, k), k));
      var again := E.RaiseInterest(after, k);
      && change == Some(E.Change(signal, E.NO_INTEREST))
      && E.MaskOf(again, signal).falling && !E.Pending(again, signal)
  {
    var k := E.QueueIndex(signal, E.Falling);
    assert k / 3 == signal;
    var up := E.RaiseInterest(n, k);
    RaiseSticky(n, signal);
    DropSticky(up, signal);
    ReadLast(E.DropInterest(up, k), signal);
    RaiseSticky(E.ConsumeChange(E.DropInterest(up, k)).0, signal);
  }

  /** A wait for a falling edge is announced if the direction has not been before. */
  lemma RaiseSticky(n: E.Interest, signal: nat)
    requires E.ChangesExact(n) && signal in n.sticky && |n.counts| == 3 * |n.pending| && !n.sticky[signal].rising
    requires n.changes == [] && E.MaskOf(n, signal) == E.NO_INTEREST
    ensures var up := E.RaiseInterest(n, E.QueueIndex(signal, E.Falling));
      && |up.counts| == 3 * |up.pending| && signal < |up.pending|
      && up.changes == (if n.sticky[signal].falling then [] else [signal])
      && (E.Pending(up, signal) <==> !n.sticky[signal].falling)
      && up.sticky == n.sticky[signal := E.Mask(false, true)]
      && E.MaskOf(up, signal) == E.Mask(false, true)
      && E.CountAt(up, signal * 3 + 1) == 1 + E.CountAt(n, signal * 3 + 1)
  {
    assert !E.Pending(n, signal);
  }

  lemma DropSticky(n: E.Interest, signal: nat)
    requires signal in n.sticky && n.sticky[signal] == E.MaskOf(n, signal) == E.Mask(false, true)
    requires signal < |n.pending| && |n.counts| == 3 * |n.pending| && E.CountAt(n, signal * 3 + 1) == 1
    ensures var down := E.DropInterest(n, E.QueueIndex(signal, E.Falling));
      E.MaskOf(down, signal) == E.NO_INTEREST && down == n.(counts := down.counts) && |down.counts| == |n.counts|
  {
  }

  lemma ReadLast(n: E.Interest, signal: nat)
    requires n.changes == [signal] && signal < |n.pending|
    ensures var (after, change) := E.ConsumeChange(n);
      && change == Some(E.Change(signal, E.MaskOf(n, signal)))
      && after == n.(changes := [], pending := n.pending[signal := false])
      && E.MaskOf(after, signal) == E.MaskOf(n, signal)
  {
  }
}
