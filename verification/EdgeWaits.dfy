/** Edge waits: per-signal queues, the counters that summarise them, and the stream of interest
changes read by the simulator side. */
module EdgeWaits {
  import opened Registrations

  datatype EdgeKind = Rising | Falling | Any

  /** `EdgeInterest` as two flags. */
  datatype Mask = Mask(rising: bool, falling: bool) {
    predicate Within(m: Mask) {
      (rising ==> m.rising) && (falling ==> m.falling)
    }

    function Or(m: Mask): Mask {
      Mask(rising || m.rising, falling || m.falling)
    }
  }

  const NO_INTEREST := Mask(false, false)

  /** Who is interested in which edges. `counts` is indexed by signal * 3 + edge, `sticky` maps each
      sticky source to the interest already announced for it. */
  datatype Interest = Interest(
    counts: seq<int>, pending: seq<bool>, changes: seq<nat>, version: int,
    statics: set<nat>, sticky: map<nat, Mask>)

  /** The edge part of the scheduler. Queues are indexed by signal * 3 + edge. `waits`,
      `fallingWaits` and `indices` hold one entry per coroutine slot. */
  datatype EdgeTable = EdgeTable(
    queues: seq<seq<Reg>>, entries: int, stale: int, falling: int,
    waits: seq<int>, fallingWaits: seq<int>, indices: seq<seq<nat>>, interest: Interest)

  function QueueIndex(signal: nat, edge: EdgeKind): nat {
    signal * 3 + match edge { case Rising => 0 case Falling => 1 case Any => 2 }
  }

  function QueueAt(t: EdgeTable, k: nat): seq<Reg> {
    if k < |t.queues| then t.queues[k] else []
  }

  function CountAt(n: Interest, k: nat): int {
    if k < |n.counts| then n.counts[k] else 0
  }

  /** `edge_interest` */
  function MaskOf(n: Interest, signal: nat): Mask {
    var any := CountAt(n, signal * 3 + 2) != 0;
    Mask(CountAt(n, signal * 3) != 0 || any, CountAt(n, signal * 3 + 1) != 0 || any)
  }

  predicate Pending(n: Interest, signal: nat) {
    signal < |n.pending| && n.pending[signal]
  }

  function Announce(n: Interest, signal: nat): Interest {
    var n := n.(version := n.version + 1);
    if signal < |n.pending| && !n.pending[signal] then
      n.(pending := n.pending[signal := true], changes := n.changes + [signal])
    else n
  }

  /** `record_edge_interest_change` */
  function RecordChange(n: Interest, signal: nat, previous: Mask): Interest {
    var current := MaskOf(n, signal);
    if signal in n.sticky then
      if current.Within(n.sticky[signal]) then n
      else Announce(n.(sticky := n.sticky[signal := n.sticky[signal].Or(current)]), signal)
    else if current == previous then n
    else Announce(n, signal)
  }

  function Zeros(n: nat): (r: seq<int>)
    ensures |r| == n && forall k :: 0 <= k < n ==> r[k] == 0
  {
    seq(n, _ => 0)
  }

  function GrowInterest(n: Interest, signal: nat): Interest {
    if signal < |n.pending| then n
    else
      var more := signal + 1 - |n.pending|;
      n.(counts := n.counts + Zeros(3 * more), pending := n.pending + seq(more, _ => false))
  }

  function Adjust(n: Interest, k: nat, delta: int): Interest {
    if k < |n.counts| then n.(counts := n.counts[k := n.counts[k] + delta]) else n
  }

  /** The part of `add_edge_interest` that concerns the signal. */
  function RaiseInterest(n: Interest, k: nat): Interest {
    var n := GrowInterest(n, k / 3);
    RecordChange(Adjust(n, k, 1), k / 3, MaskOf(n, k / 3))
  }

  function DropInterest(n: Interest, k: nat): Interest {
    RecordChange(Adjust(n, k, -1), k / 3, MaskOf(n, k / 3))
  }

  function DropInterests(n: Interest, ks: seq<nat>): Interest
    decreases |ks|
  {
    if ks == [] then n else DropInterests(DropInterest(n, ks[0]), ks[1..])
  }

  /** `add_edge_interest` */
  function AddInterest(t: EdgeTable, slot: nat, k: nat): EdgeTable {
    if k / 3 in t.interest.statics || slot >= |t.indices| then t
    else t.(interest := RaiseInterest(t.interest, k), indices := t.indices[slot := t.indices[slot] + [k]])
  }

  /** `remove_edge_interests` */
  function RemoveInterests(t: EdgeTable, slot: nat): EdgeTable {
    if slot >= |t.indices| then t
    else t.(interest := DropInterests(t.interest, t.indices[slot]), indices := t.indices[slot := []])
  }

  /** What `end_wait` does to the edge part. */
  function Release(t: EdgeTable, slot: nat): EdgeTable {
    var t := RemoveInterests(t, slot);
    if slot < |t.waits| && slot < |t.fallingWaits| then
      t.(stale := t.stale + t.waits[slot], waits := t.waits[slot := 0],
         falling := t.falling - t.fallingWaits[slot], fallingWaits := t.fallingWaits[slot := 0])
    else t
  }

  function Enqueue(t: EdgeTable, r: Reg, k: nat): EdgeTable {
    var queues := Grow(t.queues, k + 1);
    t.(queues := queues[k := queues[k] + [r]], entries := t.entries + 1)
  }

  function CountWait(t: EdgeTable, slot: nat, edge: EdgeKind): EdgeTable {
    if slot >= |t.waits| || slot >= |t.fallingWaits| then t
    else
      var t := t.(waits := t.waits[slot := t.waits[slot] + 1]);
      if edge.Rising? then t
      else t.(falling := t.falling + 1, fallingWaits := t.fallingWaits[slot := t.fallingWaits[slot] + 1])
  }

  /** `register_edge_wait` */
  function Register(t: EdgeTable, r: Reg, signal: nat, edge: EdgeKind): EdgeTable {
    var k := QueueIndex(signal, edge);
    CountWait(AddInterest(Enqueue(t, r, k), r.slot, k), r.slot, edge)
  }

  /** What `resume_edge_queue` does to the counters for one entry. */
  function Consume(t: EdgeTable): EdgeTable {
    t.(entries := t.entries - 1, stale := if t.stale != 0 then t.stale - 1 else 0)
  }

  function ClearQueue(t: EdgeTable, k: nat): EdgeTable {
    if k < |t.queues| then t.(queues := t.queues[k := []]) else t
  }

  const COMPACT_THRESHOLD: nat := 64

  function CompactAll(qs: seq<seq<Reg>>, tokens: Tokens): (r: seq<seq<Reg>>)
    ensures |r| == |qs| && forall k :: 0 <= k < |qs| ==> r[k] == LiveOnly(qs[k], tokens)
  {
    seq(|qs|, k requires 0 <= k < |qs| => LiveOnly(qs[k], tokens))
  }

  function Removed(qs: seq<seq<Reg>>, tokens: Tokens): int {
    Total(qs, Every, false) - Total(CompactAll(qs, tokens), Every, false)
  }

  /** `compact_stale_edge_queues` */
  function Compact(t: EdgeTable, tokens: Tokens): EdgeTable {
    if t.stale < COMPACT_THRESHOLD || t.stale * 2 < t.entries then t
    else
      var removed := Removed(t.queues, tokens);
      t.(queues := CompactAll(t.queues, tokens), entries := t.entries - removed, stale := t.stale - removed)
  }

  datatype Change = Change(signal: nat, interest: Mask)

  /** `consume_edge_interest_change` */
  function ConsumeChange(n: Interest): (Interest, Option<Change>) {
    if n.changes == [] then (n, None)
    else
      var signal := n.changes[0];
      var pending := if signal < |n.pending| then n.pending[signal := false] else n.pending;
      (n.(changes := n.changes[1..], pending := pending), Some(Change(signal, MaskOf(n, signal))))
  }

  // ---------------------------------------------------------------------------------------------
  // The counters agree with the queues
  // ---------------------------------------------------------------------------------------------

  ghost predicate Shaped(t: EdgeTable, slots: nat, last: nat) {
    && |t.waits| == |t.fallingWaits| == |t.indices| == slots
    && |t.interest.counts| == 3 * |t.interest.pending|
    && forall k :: 0 <= k < |t.queues| ==> Issued(t.queues[k], slots, last)
  }

  ghost predicate TotalsExact(t: EdgeTable, tokens: Tokens) {
    && t.entries == Total(t.queues, Every, false)
    && t.entries == t.stale + Total(t.queues, LiveUnder(tokens), false)
    && t.falling == Total(t.queues, LiveUnder(tokens), true)
  }

  ghost function Held(t: EdgeTable, tokens: Tokens, i: nat, falling: bool): nat
    requires i < |tokens|
  {
    if tokens[i].None? then 0 else Total(t.queues, HeldBy(i, tokens[i].value), falling)
  }

  ghost predicate SlotsExact(t: EdgeTable, tokens: Tokens)
    requires |t.waits| == |t.fallingWaits| == |tokens|
  {
    forall i :: 0 <= i < |tokens| ==>
      t.waits[i] == Held(t, tokens, i, false) && t.fallingWaits[i] == Held(t, tokens, i, true)
  }

  ghost predicate InterestExact(t: EdgeTable, tokens: Tokens) {
    forall k: nat :: CountAt(t.interest, k) == if k / 3 in t.interest.statics then 0
      else Count(QueueAt(t, k), LiveUnder(tokens))
  }

  ghost function Noted(t: EdgeTable, tokens: Tokens, i: nat, k: nat): nat
    requires i < |tokens|
  {
    if tokens[i].None? || k / 3 in t.interest.statics then 0 else Count(QueueAt(t, k), HeldBy(i, tokens[i].value))
  }

  ghost predicate IndicesExact(t: EdgeTable, tokens: Tokens)
    requires |t.indices| == |tokens|
  {
    forall i: nat, k: nat :: i < |tokens| ==> multiset(t.indices[i])[k] == Noted(t, tokens, i, k)
  }

  ghost predicate ChangesExact(n: Interest) {
    && (forall signal: nat :: signal in n.changes <==> Pending(n, signal))
    && (forall a, b :: 0 <= a < b < |n.changes| ==> n.changes[a] != n.changes[b])
  }

  ghost predicate EdgeInv(t: EdgeTable, tokens: Tokens, last: nat) {
    && Shaped(t, |tokens|, last)
    && TotalsExact(t, tokens)
    && SlotsExact(t, tokens)
    && InterestExact(t, tokens)
    && IndicesExact(t, tokens)
    && ChangesExact(t.interest)
  }

  // ---------------------------------------------------------------------------------------------
  // No interest change is silent
  // ---------------------------------------------------------------------------------------------

  /** The interest in a sticky source is never more than has been announced for it. */
  ghost predicate StickyHeld(n: Interest) {
    forall signal: nat :: signal in n.sticky ==> MaskOf(n, signal).Within(n.sticky[signal])
  }

  /** What has been announced for sticky sources only grows, and whenever it does a change waits to be read. */
  ghost predicate StickyGrows(before: Interest, after: Interest)
    requires before.sticky.Keys == after.sticky.Keys
  {
    forall signal: nat :: signal in before.sticky ==>
      && before.sticky[signal].Within(after.sticky[signal])
      && (after.sticky[signal] != before.sticky[signal] ==> Pending(after, signal))
  }

  /** Between the two states every change of a signal's interest has been announced and no
      announcement has been taken back. */
  ghost predicate Announced(before: Interest, after: Interest) {
    && before.sticky.Keys == after.sticky.Keys && StickyGrows(before, after)
    && (StickyHeld(before) ==> StickyHeld(after))
    && (forall signal: nat :: Pending(before, signal) ==> Pending(after, signal))
    && (forall signal: nat :: signal !in before.sticky && MaskOf(before, signal) != MaskOf(after, signal)
          ==> Pending(after, signal))
  }

  /** The interest a consumer believes in after replaying the changes it has consumed. */
  type Replay = map<nat, Mask>

  function Believed(replay: Replay, signal: nat): Mask {
    if signal in replay then replay[signal] else NO_INTEREST
  }

  ghost predicate Mirrors(replay: Replay, n: Interest) {
    forall signal: nat :: signal !in n.sticky && !Pending(n, signal) ==> Believed(replay, signal) == MaskOf(n, signal)
  }

  lemma AnnouncedRefl(n: Interest)
    ensures Announced(n, n)
  {
  }

  lemma AnnouncedTransitive(a: Interest, b: Interest, c: Interest)
    requires Announced(a, b) && Announced(b, c)
    ensures Announced(a, c)
  {
  }

  lemma AnnouncedKeepsMirror(replay: Replay, before: Interest, after: Interest)
    requires Mirrors(replay, before) && Announced(before, after)
    ensures Mirrors(replay, after)
  {
  }

  function Replayed(replay: Replay, change: Option<Change>): Replay {
    if change.Some? then replay[change.value.signal := change.value.interest] else replay
  }

  /** Consuming a change settles its signal: the consumer then agrees with the scheduler about it. */
  lemma ConsumeChangeExact(n: Interest, replay: Replay)
    requires ChangesExact(n) && Mirrors(replay, n)
    ensures var (after, change) := ConsumeChange(n);
      && (change.None? <==> forall signal: nat :: !Pending(n, signal))
      && ChangesExact(after)
      && (change.Some? ==> !Pending(after, change.value.signal))
      && Mirrors(Replayed(replay, change), after)
  {
    var (after, change) := ConsumeChange(n);
    if n.changes == [] {
      assert forall signal: nat :: !Pending(n, signal);
    } else {
      var signal := n.changes[0];
      assert signal in n.changes;
      assert Pending(n, signal);
      assert forall s: nat :: Pending(after, s) <==> Pending(n, s) && s != signal;
      TailChanges(n.changes);
      assert forall s: nat :: MaskOf(after, s) == MaskOf(n, s);
    }
  }

  lemma ConsumeChangeKeeps(n: Interest)
    requires ChangesExact(n)
    ensures var after := ConsumeChange(n).0;
      && ChangesExact(after) && |after.pending| == |n.pending|
      && after == n.(changes := after.changes, pending := after.pending)
  {
    if n.changes != [] {
      assert n.changes[0] in n.changes;
      TailChanges(n.changes);
    }
  }

  lemma TailChanges(xs: seq<nat>)
    requires xs != [] && forall a, b :: 0 <= a < b < |xs| ==> xs[a] != xs[b]
    ensures forall x :: x in xs[1..] <==> x in xs && x != xs[0]
    ensures forall a, b :: 0 <= a < b < |xs[1..]| ==> xs[1..][a] != xs[1..][b]
  {
    assert xs == [xs[0]] + xs[1..];
  }

  lemma AnnounceExact(n: Interest, signal: nat)
    requires signal < |n.pending| && ChangesExact(n)
    ensures var r := Announce(n, signal);
      && ChangesExact(r)
      && (forall s: nat :: Pending(r, s) <==> Pending(n, s) || s == signal)
      && r == n.(pending := r.pending, changes := r.changes, version := r.version)
      && |r.pending| == |n.pending|
  {
    if !n.pending[signal] {
      assert !Pending(n, signal);
      assert forall a :: 0 <= a < |n.changes| ==> n.changes[a] in n.changes;
    }
  }

  /** Recording after the interest of one signal moved restores every promise of the stream. */
  lemma RecordExact(before: Interest, n: Interest, signal: nat)
    requires ChangesExact(n) && signal < |n.pending|
    requires before.sticky == n.sticky
    requires forall s: nat :: Pending(before, s) <==> Pending(n, s)
    requires forall s: nat :: s != signal ==> MaskOf(before, s) == MaskOf(n, s)
    ensures var r := RecordChange(n, signal, MaskOf(before, signal));
      && ChangesExact(r) && Announced(before, r)
      && |r.pending| == |n.pending| && r.counts == n.counts && r.statics == n.statics
  {
    var r := RecordChange(n, signal, MaskOf(before, signal));
    AnnounceExact(n, signal);
    if signal in n.sticky && !MaskOf(n, signal).Within(n.sticky[signal]) {
      var u := n.(sticky := n.sticky[signal := n.sticky[signal].Or(MaskOf(n, signal))]);
      assert forall s: nat :: Pending(u, s) <==> Pending(n, s);
      AnnounceExact(u, signal);
    }
    assert forall s: nat :: MaskOf(r, s) == MaskOf(n, s);
  }

  ghost predicate Sized(n: Interest) {
    ChangesExact(n) && |n.counts| == 3 * |n.pending|
  }

  lemma AdjustExact(n: Interest, k: nat, delta: int)
    requires Sized(n) && k < |n.counts|
    ensures var r := RecordChange(Adjust(n, k, delta), k / 3, MaskOf(n, k / 3));
      && Sized(r) && Announced(n, r) && r.statics == n.statics
      && |r.counts| == |n.counts|
      && (forall j: nat :: CountAt(r, j) == CountAt(n, j) + if j == k then delta else 0)
  {
    var u := Adjust(n, k, delta);
    assert forall s: nat :: s != k / 3 ==> MaskOf(n, s) == MaskOf(u, s);
    assert forall s: nat :: Pending(n, s) <==> Pending(u, s);
    RecordExact(n, u, k / 3);
  }

  lemma {:induction false} DropInterestsExact(n: Interest, ks: seq<nat>)
    requires Sized(n)
    requires forall k :: k in ks ==> k < |n.counts|
    ensures var r := DropInterests(n, ks);
      && Sized(r) && Announced(n, r) && r.statics == n.statics
      && (forall k: nat :: CountAt(r, k) == CountAt(n, k) - multiset(ks)[k])
    decreases |ks|
  {
    if ks != [] {
      assert ks[0] in ks;
      AdjustExact(n, ks[0], -1);
      assert forall j :: j in ks[1..] ==> j in ks;
      DropInterestsExact(DropInterest(n, ks[0]), ks[1..]);
      AnnouncedTransitive(n, DropInterest(n, ks[0]), DropInterests(n, ks));
      assert ks == [ks[0]] + ks[1..];
    }
  }

  // ---------------------------------------------------------------------------------------------
  // Every operation keeps the counters exact
  // ---------------------------------------------------------------------------------------------

  /** The counters `remove_edge_interests` is about to lower are large enough, so the underflow
      abort cannot be reached. */
  lemma InterestCoversWait(t: EdgeTable, tokens: Tokens, last: nat, i: nat, k: nat)
    requires EdgeInv(t, tokens, last) && i < |tokens|
    ensures CountAt(t.interest, k) >= multiset(t.indices[i])[k]
    ensures k in t.indices[i] ==> k < |t.interest.counts|
  {
    assert multiset(t.indices[i])[k] == Noted(t, tokens, i, k);
    assert CountAt(t.interest, k) == if k / 3 in t.interest.statics then 0 else Count(QueueAt(t, k), LiveUnder(tokens));
    if tokens[i].Some? {
      CountEnd(QueueAt(t, k), tokens, i);
    }
  }

  lemma RemoveInterestsExact(t: EdgeTable, tokens: Tokens, last: nat, i: nat)
    requires EdgeInv(t, tokens, last) && i < |tokens|
    ensures var r := RemoveInterests(t, i);
      && Sized(r.interest) && Announced(t.interest, r.interest) && r.interest.statics == t.interest.statics
      && (forall k: nat :: CountAt(r.interest, k) == CountAt(t.interest, k) - multiset(t.indices[i])[k])
      && r == t.(interest := r.interest, indices := t.indices[i := []])
  {
    forall k | k in t.indices[i]
      ensures k < |t.interest.counts|
    {
      InterestCoversWait(t, tokens, last, i, k);
    }
    DropInterestsExact(t.interest, t.indices[i]);
  }

  lemma ReleaseKeepsTotals(t: EdgeTable, tokens: Tokens, last: nat, i: nat)
    requires EdgeInv(t, tokens, last) && i < |tokens| && tokens[i].Some?
    ensures TotalsExact(Release(t, i), tokens[i := None])
  {
    RemoveInterestsExact(t, tokens, last, i);
    forall falling: bool
      ensures Total(t.queues, LiveUnder(tokens), falling)
           == Total(t.queues, LiveUnder(tokens[i := None]), falling)
             + Total(t.queues, HeldBy(i, tokens[i].value), falling)
    {
      forall k | 0 <= k < |t.queues|
        ensures Count(t.queues[k], LiveUnder(tokens))
             == Count(t.queues[k], LiveUnder(tokens[i := None])) + Count(t.queues[k], HeldBy(i, tokens[i].value))
      {
        CountEnd(t.queues[k], tokens, i);
      }
      TotalSplit(t.queues, LiveUnder(tokens), LiveUnder(tokens[i := None]), HeldBy(i, tokens[i].value), falling);
    }
    assert t.waits[i] == Held(t, tokens, i, false) && t.fallingWaits[i] == Held(t, tokens, i, true);
  }

  lemma ReleaseKeepsInterest(t: EdgeTable, tokens: Tokens, last: nat, i: nat)
    requires EdgeInv(t, tokens, last) && i < |tokens| && tokens[i].Some?
    ensures InterestExact(Release(t, i), tokens[i := None])
  {
    RemoveInterestsExact(t, tokens, last, i);
    var r := Release(t, i);
    forall k: nat
      ensures CountAt(r.interest, k) == if k / 3 in r.interest.statics then 0
        else Count(QueueAt(r, k), LiveUnder(tokens[i := None]))
    {
      assert CountAt(t.interest, k) == if k / 3 in t.interest.statics then 0
        else Count(QueueAt(t, k), LiveUnder(tokens));
      assert multiset(t.indices[i])[k] == Noted(t, tokens, i, k);
      CountEnd(QueueAt(t, k), tokens, i);
      assert QueueAt(r, k) == QueueAt(t, k);
    }
  }

  lemma ReleaseKeepsSlots(t: EdgeTable, tokens: Tokens, last: nat, i: nat)
    requires EdgeInv(t, tokens, last) && i < |tokens| && tokens[i].Some?
    ensures var r := Release(t, i);
      Shaped(r, |tokens|, last) && SlotsExact(r, tokens[i := None]) && IndicesExact(r, tokens[i := None])
  {
    RemoveInterestsExact(t, tokens, last, i);
    var r, after := Release(t, i), tokens[i := None];
    forall j | 0 <= j < |after|
      ensures r.waits[j] == Held(r, after, j, false) && r.fallingWaits[j] == Held(r, after, j, true)
    {
      assert t.waits[j] == Held(t, tokens, j, false) && t.fallingWaits[j] == Held(t, tokens, j, true);
    }
    forall j: nat, k: nat | j < |after|
      ensures multiset(r.indices[j])[k] == Noted(r, after, j, k)
    {
      assert multiset(t.indices[j])[k] == Noted(t, tokens, j, k);
      assert QueueAt(r, k) == QueueAt(t, k);
    }
  }

  lemma ReleaseKeeps(t: EdgeTable, tokens: Tokens, last: nat, i: nat)
    requires EdgeInv(t, tokens, last) && i < |tokens| && tokens[i].Some?
    ensures EdgeInv(Release(t, i), tokens[i := None], last)
    ensures Announced(t.interest, Release(t, i).interest)
  {
    RemoveInterestsExact(t, tokens, last, i);
    ReleaseKeepsTotals(t, tokens, last, i);
    ReleaseKeepsInterest(t, tokens, last, i);
    ReleaseKeepsSlots(t, tokens, last, i);
  }

  /** A slot without edge registrations has nothing to release: the early return of `end_wait`. */
  lemma ReleaseNothing(t: EdgeTable, tokens: Tokens, last: nat, i: nat)
    requires EdgeInv(t, tokens, last) && i < |tokens| && t.waits[i] == 0
    ensures Release(t, i) == t && t.indices[i] == [] && t.fallingWaits[i] == 0
  {
    forall k: nat
      ensures multiset(t.indices[i])[k] == 0
    {
      assert multiset(t.indices[i])[k] == Noted(t, tokens, i, k);
      assert t.waits[i] == Held(t, tokens, i, false);
      if tokens[i].Some? && k < |t.queues| {
        TotalAtLeast(t.queues, HeldBy(i, tokens[i].value), k);
      }
    }
    SomeMultiplicity(t.indices[i]);
    assert t.fallingWaits[i] == Held(t, tokens, i, true);
    if tokens[i].Some? {
      FallingAtMost(t.queues, HeldBy(i, tokens[i].value));
    }
    assert t.indices[i := []] == t.indices && t.waits[i := 0] == t.waits && t.fallingWaits[i := 0] == t.fallingWaits;
  }

  lemma SomeMultiplicity(ks: seq<nat>)
    ensures ks != [] ==> exists k :: multiset(ks)[k] > 0
  {
    if ks != [] {
      assert ks[0] in multiset(ks);
    }
  }

  lemma {:induction false} FallingAtMost(qs: seq<seq<Reg>>, m: Measure)
    ensures 0 <= Total(qs, m, true) <= Total(qs, m, false)
  {
    if qs != [] {
      FallingAtMost(qs[..|qs| - 1], m);
    }
  }

  /** A new wait starts without registrations. */
  lemma BeginKeeps(t: EdgeTable, tokens: Tokens, last: nat, i: nat)
    requires EdgeInv(t, tokens, last) && i < |tokens| && tokens[i].None?
    ensures EdgeInv(t, tokens[i := Some(last + 1)], last + 1)
  {
    var after := tokens[i := Some(last + 1)];
    forall k | 0 <= k < |t.queues|
      ensures Count(t.queues[k], LiveUnder(after)) == Count(t.queues[k], LiveUnder(tokens))
      ensures Count(t.queues[k], HeldBy(i, last + 1)) == 0
    {
      CountBegin(t.queues[k], tokens, i, last);
    }
    TotalSame(t.queues, t.queues, LiveUnder(after), LiveUnder(tokens), false);
    TotalSame(t.queues, t.queues, LiveUnder(after), LiveUnder(tokens), true);
    TotalNone(t.queues, HeldBy(i, last + 1), false);
    TotalNone(t.queues, HeldBy(i, last + 1), true);
    forall j | 0 <= j < |after|
      ensures t.waits[j] == Held(t, after, j, false) && t.fallingWaits[j] == Held(t, after, j, true)
    {
      assert t.waits[j] == Held(t, tokens, j, false) && t.fallingWaits[j] == Held(t, tokens, j, true);
    }
    forall j: nat, k: nat | j < |after|
      ensures multiset(t.indices[j])[k] == Noted(t, after, j, k)
    {
      assert multiset(t.indices[j])[k] == Noted(t, tokens, j, k);
    }
    forall k: nat
      ensures CountAt(t.interest, k) == if k / 3 in t.interest.statics then 0
        else Count(QueueAt(t, k), LiveUnder(after))
    {
      assert CountAt(t.interest, k) == if k / 3 in t.interest.statics then 0
        else Count(QueueAt(t, k), LiveUnder(tokens));
    }
  }

  /** A new slot starts without registrations. */
  lemma NewSlotKeeps(t: EdgeTable, tokens: Tokens, last: nat)
    requires EdgeInv(t, tokens, last)
    ensures EdgeInv(t.(waits := t.waits + [0], fallingWaits := t.fallingWaits + [0], indices := t.indices + [[]]),
                    tokens + [None], last)
  {
    var r := t.(waits := t.waits + [0], fallingWaits := t.fallingWaits + [0], indices := t.indices + [[]]);
    var after := tokens + [None];
    forall k | 0 <= k < |t.queues|
      ensures Count(t.queues[k], LiveUnder(after)) == Count(t.queues[k], LiveUnder(tokens))
    {
      CountSame(t.queues[k], LiveUnder(after), LiveUnder(tokens));
    }
    TotalSame(t.queues, t.queues, LiveUnder(after), LiveUnder(tokens), false);
    TotalSame(t.queues, t.queues, LiveUnder(after), LiveUnder(tokens), true);
    forall j | 0 <= j < |tokens|
      ensures r.waits[j] == Held(r, after, j, false) && r.fallingWaits[j] == Held(r, after, j, true)
    {
      assert t.waits[j] == Held(t, tokens, j, false) && t.fallingWaits[j] == Held(t, tokens, j, true);
    }
    forall j: nat, k: nat | j < |after|
      ensures multiset(r.indices[j])[k] == Noted(r, after, j, k)
    {
      if j < |tokens| {
        assert multiset(t.indices[j])[k] == Noted(t, tokens, j, k);
        assert QueueAt(r, k) == QueueAt(t, k);
      }
    }
    forall k: nat
      ensures CountAt(r.interest, k) == if k / 3 in t.interest.statics then 0
        else Count(QueueAt(r, k), LiveUnder(after))
    {
      assert CountAt(t.interest, k) == if k / 3 in t.interest.statics then 0
        else Count(QueueAt(t, k), LiveUnder(tokens));
      assert QueueAt(r, k) == QueueAt(t, k);
    }
  }

  lemma RaiseInterestExact(n: Interest, k: nat)
    requires Sized(n)
    ensures var r := RaiseInterest(n, k);
      && Sized(r) && Announced(n, r) && r.statics == n.statics
      && (forall j: nat :: CountAt(r, j) == CountAt(n, j) + if j == k then 1 else 0)
  {
    var g := GrowInterest(n, k / 3);
    assert forall j: nat :: CountAt(g, j) == CountAt(n, j);
    assert forall s: nat :: Pending(g, s) <==> Pending(n, s);
    assert forall s: nat :: MaskOf(g, s) == MaskOf(n, s);
    AdjustExact(g, k, 1);
  }

  lemma EnqueueExact(t: EdgeTable, r: Reg, k: nat, m: Measure)
    ensures var u := Enqueue(t, r, k);
      && Total(u.queues, m, false) == Total(t.queues, m, false) + (if Counts(m, r) then 1 else 0)
      && Total(u.queues, m, true) == Total(t.queues, m, true) + (if Counts(m, r) && k % 3 != 0 then 1 else 0)
      && (forall j: nat ::
        Count(QueueAt(u, j), m) == Count(QueueAt(t, j), m) + (if j == k && Counts(m, r) then 1 else 0))
  {
    hide Total, Count, Counts;
    var grown := Grow(t.queues, k + 1);
    TotalGrow(t.queues, k + 1, m, false);
    TotalGrow(t.queues, k + 1, m, true);
    TotalUpdate(grown, k, grown[k] + [r], m, false);
    TotalUpdate(grown, k, grown[k] + [r], m, true);
    CountPush(grown[k], r, m);
  }

  lemma CountWaitShape(t: EdgeTable, slot: nat, signal: nat, edge: EdgeKind)
    requires slot < |t.waits| == |t.fallingWaits|
    ensures var u := CountWait(t, slot, edge);
      var more := if QueueIndex(signal, edge) % 3 != 0 then 1 else 0;
      u == t.(waits := t.waits[slot := t.waits[slot] + 1], falling := t.falling + more,
              fallingWaits := t.fallingWaits[slot := t.fallingWaits[slot] + more])
  {
    if edge.Rising? {
      assert QueueIndex(signal, edge) % 3 == 0;
      assert t.fallingWaits == t.fallingWaits[slot := t.fallingWaits[slot]];
    } else {
      assert QueueIndex(signal, edge) % 3 != 0;
    }
  }

  lemma EnqueueIssued(t: EdgeTable, slots: nat, last: nat, r: Reg, k: nat)
    requires Shaped(t, slots, last) && r.slot < slots && r.gen <= last
    ensures forall j :: 0 <= j < |Enqueue(t, r, k).queues| ==> Issued(Enqueue(t, r, k).queues[j], slots, last)
  {
    var u := Enqueue(t, r, k);
    forall j | 0 <= j < |u.queues|
      ensures Issued(u.queues[j], slots, last)
    {
      assert u.queues[j] == QueueAt(t, j) + if j == k then [r] else [];
    }
  }

  lemma RegisterShape(t: EdgeTable, tokens: Tokens, last: nat, r: Reg, signal: nat, edge: EdgeKind)
    requires EdgeInv(t, tokens, last) && Live(tokens, r) && r.gen <= last
    ensures var u := Register(t, r, signal, edge); var k := QueueIndex(signal, edge);
      var noted := k / 3 !in t.interest.statics;
      && Announced(t.interest, u.interest) && Sized(u.interest) && u.interest.statics == t.interest.statics
      && Shaped(u, |tokens|, last)
      && u == Enqueue(t, r, k).(interest := u.interest,
               falling := t.falling + (if k % 3 != 0 then 1 else 0),
               waits := t.waits[r.slot := t.waits[r.slot] + 1],
               fallingWaits := t.fallingWaits[r.slot := t.fallingWaits[r.slot] + if k % 3 != 0 then 1 else 0],
               indices := if noted then t.indices[r.slot := t.indices[r.slot] + [k]] else t.indices)
      && forall j: nat :: CountAt(u.interest, j) == CountAt(t.interest, j) + if j == k && noted then 1 else 0
  {
    hide Announced, RaiseInterest;
    var k := QueueIndex(signal, edge);
    RaiseInterestExact(t.interest, k);
    AnnouncedRefl(t.interest);
    CountWaitShape(AddInterest(Enqueue(t, r, k), r.slot, k), r.slot, signal, edge);
    EnqueueIssued(t, |tokens|, last, r, k);
  }

  lemma RegisterKeepsSlots(t: EdgeTable, tokens: Tokens, last: nat, r: Reg, signal: nat, edge: EdgeKind)
    requires EdgeInv(t, tokens, last) && Live(tokens, r) && r.gen <= last
    requires Shaped(Register(t, r, signal, edge), |tokens|, last)
    ensures SlotsExact(Register(t, r, signal, edge), tokens)
  {
    hide Announced, RaiseInterest;
    RegisterShape(t, tokens, last, r, signal, edge);
    var k := QueueIndex(signal, edge);
    var u := Register(t, r, signal, edge);
    forall j | 0 <= j < |tokens|
      ensures u.waits[j] == Held(u, tokens, j, false) && u.fallingWaits[j] == Held(u, tokens, j, true)
    {
      assert t.waits[j] == Held(t, tokens, j, false) && t.fallingWaits[j] == Held(t, tokens, j, true);
      if tokens[j].Some? {
        EnqueueExact(t, r, k, HeldBy(j, tokens[j].value));
      }
    }
  }

  lemma RegisterKeepsIndices(t: EdgeTable, tokens: Tokens, last: nat, r: Reg, signal: nat, edge: EdgeKind)
    requires EdgeInv(t, tokens, last) && Live(tokens, r) && r.gen <= last
    requires Shaped(Register(t, r, signal, edge), |tokens|, last)
    ensures IndicesExact(Register(t, r, signal, edge), tokens)
  {
    hide Announced, RaiseInterest;
    RegisterShape(t, tokens, last, r, signal, edge);
    var k := QueueIndex(signal, edge);
    var e, u := Enqueue(t, r, k), Register(t, r, signal, edge);
    forall i: nat, j: nat | i < |tokens|
      ensures multiset(u.indices[i])[j] == Noted(u, tokens, i, j)
    {
      assert multiset(t.indices[i])[j] == Noted(t, tokens, i, j);
      assert QueueAt(u, j) == QueueAt(e, j);
      if tokens[i].Some? {
        EnqueueExact(t, r, k, HeldBy(i, tokens[i].value));
      }
    }
  }

  lemma RegisterKeeps(t: EdgeTable, tokens: Tokens, last: nat, r: Reg, signal: nat, edge: EdgeKind)
    requires EdgeInv(t, tokens, last) && Live(tokens, r) && r.gen <= last
    ensures EdgeInv(Register(t, r, signal, edge), tokens, last)
    ensures Announced(t.interest, Register(t, r, signal, edge).interest)
  {
    hide Announced, RaiseInterest;
    RegisterShape(t, tokens, last, r, signal, edge);
    RegisterKeepsSlots(t, tokens, last, r, signal, edge);
    RegisterKeepsIndices(t, tokens, last, r, signal, edge);
    var k := QueueIndex(signal, edge);
    var u := Register(t, r, signal, edge);
    EnqueueExact(t, r, k, Every);
    EnqueueExact(t, r, k, LiveUnder(tokens));
    forall j: nat
      ensures CountAt(u.interest, j) == if j / 3 in u.interest.statics then 0
        else Count(QueueAt(u, j), LiveUnder(tokens))
    {
      assert CountAt(t.interest, j) == if j / 3 in t.interest.statics then 0
        else Count(QueueAt(t, j), LiveUnder(tokens));
      assert QueueAt(u, j) == QueueAt(Enqueue(t, r, k), j);
    }
  }

  // ---------------------------------------------------------------------------------------------
  // Compaction and queue delivery
  // ---------------------------------------------------------------------------------------------

  /** One compacted queue against the original: its live entries, and nothing else. */
  lemma CompactQueue(t: EdgeTable, tokens: Tokens, k: nat)
    requires t.stale >= COMPACT_THRESHOLD && t.stale * 2 >= t.entries
    ensures var before, after := QueueAt(t, k), QueueAt(Compact(t, tokens), k);
      && (forall r :: r in after <==> r in before && Live(tokens, r))
      && Count(after, LiveUnder(tokens)) == Count(before, LiveUnder(tokens)) == Count(after, Every)
      && (forall i: nat, g: nat :: i < |tokens| && tokens[i] == Some(g) ==>
            Count(after, HeldBy(i, g)) == Count(before, HeldBy(i, g)))
  {
    LiveOnlyCounts(QueueAt(t, k), tokens);
    CountEvery(LiveOnly(QueueAt(t, k), tokens));
  }

  lemma CompactKeepsTotals(t: EdgeTable, tokens: Tokens, last: nat)
    requires EdgeInv(t, tokens, last)
    requires t.stale >= COMPACT_THRESHOLD && t.stale * 2 >= t.entries
    ensures TotalsExact(Compact(t, tokens), tokens) && Compact(t, tokens).stale == 0
  {
    var u := Compact(t, tokens);
    forall k | 0 <= k < |t.queues|
      ensures Count(u.queues[k], LiveUnder(tokens)) == Count(t.queues[k], LiveUnder(tokens))
        == Count(u.queues[k], Every)
    {
      CompactQueue(t, tokens, k);
    }
    TotalSame(u.queues, t.queues, LiveUnder(tokens), LiveUnder(tokens), false);
    TotalSame(u.queues, t.queues, LiveUnder(tokens), LiveUnder(tokens), true);
    TotalSame(u.queues, u.queues, LiveUnder(tokens), Every, false);
  }

  lemma CompactKeepsSlots(t: EdgeTable, tokens: Tokens, last: nat)
    requires EdgeInv(t, tokens, last)
    requires t.stale >= COMPACT_THRESHOLD && t.stale * 2 >= t.entries
    ensures SlotsExact(Compact(t, tokens), tokens) && Shaped(Compact(t, tokens), |tokens|, last)
  {
    var u := Compact(t, tokens);
    forall i | 0 <= i < |tokens|
      ensures u.waits[i] == Held(u, tokens, i, false) && u.fallingWaits[i] == Held(u, tokens, i, true)
    {
      assert t.waits[i] == Held(t, tokens, i, false) && t.fallingWaits[i] == Held(t, tokens, i, true);
      if tokens[i].Some? {
        var m := HeldBy(i, tokens[i].value);
        forall k | 0 <= k < |t.queues|
          ensures Count(u.queues[k], m) == Count(t.queues[k], m)
        {
          CompactQueue(t, tokens, k);
        }
        TotalSame(u.queues, t.queues, m, m, false);
        TotalSame(u.queues, t.queues, m, m, true);
      }
    }
    forall k | 0 <= k < |u.queues|
      ensures Issued(u.queues[k], |tokens|, last)
    {
      CompactQueue(t, tokens, k);
      assert Issued(t.queues[k], |tokens|, last);
    }
  }

  lemma CompactKeepsInterest(t: EdgeTable, tokens: Tokens, last: nat)
    requires EdgeInv(t, tokens, last)
    requires t.stale >= COMPACT_THRESHOLD && t.stale * 2 >= t.entries
    ensures InterestExact(Compact(t, tokens), tokens)
  {
    forall k: nat
      ensures Count(QueueAt(Compact(t, tokens), k), LiveUnder(tokens)) == Count(QueueAt(t, k), LiveUnder(tokens))
    {
      CompactQueue(t, tokens, k);
    }
    assert InterestExact(t, tokens);
  }

  lemma CompactNoted(t: EdgeTable, tokens: Tokens, i: nat, k: nat)
    requires i < |tokens| && t.stale >= COMPACT_THRESHOLD && t.stale * 2 >= t.entries
    ensures Noted(Compact(t, tokens), tokens, i, k) == Noted(t, tokens, i, k)
  {
    CompactQueue(t, tokens, k);
  }

  lemma CompactKeepsIndices(t: EdgeTable, tokens: Tokens, last: nat)
    requires EdgeInv(t, tokens, last)
    requires t.stale >= COMPACT_THRESHOLD && t.stale * 2 >= t.entries
    ensures IndicesExact(Compact(t, tokens), tokens)
  {
    hide Noted;
    var u := Compact(t, tokens);
    forall i: nat, k: nat | i < |tokens|
      ensures multiset(u.indices[i])[k] == Noted(u, tokens, i, k)
    {
      CompactNoted(t, tokens, i, k);
      assert multiset(t.indices[i])[k] == Noted(t, tokens, i, k);
    }
  }

  /** Compaction removes exactly the dead entries: when it runs every entry left is live, and it
      never loses a live one. */
  lemma CompactExact(t: EdgeTable, tokens: Tokens, last: nat)
    requires EdgeInv(t, tokens, last)
    ensures EdgeInv(Compact(t, tokens), tokens, last) && Compact(t, tokens).interest == t.interest
    ensures forall k: nat, r :: Live(tokens, r) ==> (r in QueueAt(Compact(t, tokens), k) <==> r in QueueAt(t, k))
    ensures t.stale >= COMPACT_THRESHOLD && t.stale * 2 >= t.entries ==>
      Compact(t, tokens).stale == 0 && forall k: nat, r :: r in QueueAt(Compact(t, tokens), k) ==> Live(tokens, r)
  {
    if t.stale >= COMPACT_THRESHOLD && t.stale * 2 >= t.entries {
      CompactKeepsTotals(t, tokens, last);
      CompactKeepsSlots(t, tokens, last);
      CompactKeepsInterest(t, tokens, last);
      CompactKeepsIndices(t, tokens, last);
      forall k: nat
        ensures forall r :: r in QueueAt(Compact(t, tokens), k) <==> r in QueueAt(t, k) && Live(tokens, r)
      {
        CompactQueue(t, tokens, k);
      }
    }
  }

  /** A queue whose entries have all been resumed and consumed can be dropped. */
  lemma ClearKeeps(t: EdgeTable, tokens: Tokens, last: nat, k: nat)
    requires EdgeInv(t, tokens, last) && k < |t.queues|
    requires Count(t.queues[k], LiveUnder(tokens)) == 0
    ensures var n := |t.queues[k]|;
      var u := ClearQueue(t, k).(entries := t.entries - n, stale := t.stale - n);
      EdgeInv(u, tokens, last)
  {
    var n := |t.queues[k]|;
    var u := ClearQueue(t, k).(entries := t.entries - n, stale := t.stale - n);
    CountEvery(t.queues[k]);
    TotalUpdate(t.queues, k, [], Every, false);
    TotalUpdate(t.queues, k, [], LiveUnder(tokens), false);
    TotalUpdate(t.queues, k, [], LiveUnder(tokens), true);
    forall i: nat | i < |tokens| && tokens[i].Some?
      ensures Count(t.queues[k], HeldBy(i, tokens[i].value)) == 0
      ensures Total(u.queues, HeldBy(i, tokens[i].value), false) == Total(t.queues, HeldBy(i, tokens[i].value), false)
      ensures Total(u.queues, HeldBy(i, tokens[i].value), true) == Total(t.queues, HeldBy(i, tokens[i].value), true)
    {
      CountEnd(t.queues[k], tokens, i);
      TotalUpdate(t.queues, k, [], HeldBy(i, tokens[i].value), false);
      TotalUpdate(t.queues, k, [], HeldBy(i, tokens[i].value), true);
    }
    forall i | 0 <= i < |tokens|
      ensures u.waits[i] == Held(u, tokens, i, false) && u.fallingWaits[i] == Held(u, tokens, i, true)
    {
      assert t.waits[i] == Held(t, tokens, i, false) && t.fallingWaits[i] == Held(t, tokens, i, true);
    }
    forall j: nat
      ensures CountAt(u.interest, j) == if j / 3 in u.interest.statics then 0
        else Count(QueueAt(u, j), LiveUnder(tokens))
    {
      assert CountAt(t.interest, j) == if j / 3 in t.interest.statics then 0
        else Count(QueueAt(t, j), LiveUnder(tokens));
    }
    forall i: nat, j: nat | i < |tokens|
      ensures multiset(u.indices[i])[j] == Noted(u, tokens, i, j)
    {
      assert multiset(t.indices[i])[j] == Noted(t, tokens, i, j);
    }
  }

  /** Dead entries of a queue are covered by the stale counter. */
  lemma StaleCoversQueue(t: EdgeTable, tokens: Tokens, last: nat, k: nat)
    requires EdgeInv(t, tokens, last) && k < |t.queues|
    ensures t.stale >= |t.queues[k]| - Count(t.queues[k], LiveUnder(tokens))
  {
    TotalUpdate(t.queues, k, [], Every, false);
    TotalUpdate(t.queues, k, [], LiveUnder(tokens), false);
    CountEvery(t.queues[k]);
    LiveAtMostEvery(t.queues[k := []], tokens);
  }

  lemma {:induction false} LiveAtMostEvery(qs: seq<seq<Reg>>, tokens: Tokens)
    ensures Total(qs, LiveUnder(tokens), false) <= Total(qs, Every, false)
  {
    if qs != [] {
      LiveAtMostEvery(qs[..|qs| - 1], tokens);
      CountAtMost(qs[|qs| - 1], LiveUnder(tokens));
      CountEvery(qs[|qs| - 1]);
    }
  }
}
