/** Waits for the three simulator phases. */
module PhaseWaits {
  import opened Registrations

  datatype Phase = ReadWrite | ReadOnly | NextTimeStep

  const PHASES: nat := 3

  /** `phase_wait_index` */
  function PhaseIndex(p: Phase): (k: nat)
    ensures k < PHASES
  {
    match p case ReadWrite => 0 case ReadOnly => 1 case NextTimeStep => 2
  }

  /** One queue and one counter per phase, and for every slot how often it waits for each phase. */
  datatype PhaseTable = PhaseTable(queues: seq<seq<Reg>>, counts: seq<int>, waits: seq<seq<int>>)

  function QueueAt(t: PhaseTable, p: nat): seq<Reg> {
    if p < |t.queues| then t.queues[p] else []
  }

  /** What `end_wait` does to the phase part. */
  function Release(t: PhaseTable, slot: nat): PhaseTable {
    if slot >= |t.waits| then t
    else ReleaseFrom(t, slot, 0)
  }

  function ReleaseFrom(t: PhaseTable, slot: nat, p: nat): PhaseTable
    requires slot < |t.waits|
    decreases PHASES - p
  {
    if p >= PHASES || p >= |t.counts| || p >= |t.waits[slot]| then t
    else
      ReleaseFrom(t.(counts := t.counts[p := t.counts[p] - t.waits[slot][p]],
                     waits := t.waits[slot := t.waits[slot][p := 0]]), slot, p + 1)
  }

  /** The phase branch of `register_wait`. */
  function Register(t: PhaseTable, r: Reg, phase: Phase): PhaseTable {
    var p := PhaseIndex(phase);
    if p >= |t.queues| || p >= |t.counts| || r.slot >= |t.waits| || p >= |t.waits[r.slot]| then t
    else
      t.(queues := t.queues[p := t.queues[p] + [r]],
         counts := t.counts[p := t.counts[p] + 1],
         waits := t.waits[r.slot := t.waits[r.slot][p := t.waits[r.slot][p] + 1]])
  }

  /** The `erase` at the end of `resume_phase`. */
  function EraseFront(t: PhaseTable, phase: Phase, n: nat): PhaseTable {
    var p := PhaseIndex(phase);
    if p >= |t.queues| || n > |t.queues[p]| then t
    else t.(queues := t.queues[p := t.queues[p][n..]])
  }

  ghost function HeldPhase(t: PhaseTable, tokens: Tokens, i: nat, p: nat): nat
    requires i < |tokens| && p < |t.queues|
  {
    if tokens[i].None? then 0 else Count(t.queues[p], HeldBy(i, tokens[i].value))
  }

  ghost predicate PhaseShaped(t: PhaseTable, slots: nat, last: nat) {
    && |t.queues| == |t.counts| == PHASES && |t.waits| == slots
    && (forall i :: 0 <= i < slots ==> |t.waits[i]| == PHASES)
    && (forall p :: 0 <= p < PHASES ==> Issued(t.queues[p], slots, last))
  }

  /** Each counter is the number of live registrations of its phase. */
  ghost predicate PhaseInv(t: PhaseTable, tokens: Tokens, last: nat) {
    && PhaseShaped(t, |tokens|, last)
    && (forall p :: 0 <= p < PHASES ==> t.counts[p] == Count(t.queues[p], LiveUnder(tokens)))
    && (forall i, p :: 0 <= i < |tokens| && 0 <= p < PHASES ==> t.waits[i][p] == HeldPhase(t, tokens, i, p))
  }

  ghost function Lowered(t: PhaseTable, slot: nat): PhaseTable
    requires |t.counts| == PHASES && slot < |t.waits| && |t.waits[slot]| == PHASES
  {
    var w := t.waits[slot];
    t.(counts := [t.counts[0] - w[0], t.counts[1] - w[1], t.counts[2] - w[2]], waits := t.waits[slot := [0, 0, 0]])
  }

  lemma ReleaseIsLowered(t: PhaseTable, slot: nat)
    requires |t.counts| == PHASES && slot < |t.waits| && |t.waits[slot]| == PHASES
    ensures Release(t, slot) == Lowered(t, slot)
  {
    var w, c := t.waits[slot], t.counts;
    var t1 := t.(counts := c[0 := c[0] - w[0]], waits := t.waits[slot := w[0 := 0]]);
    var t2 := t1.(counts := t1.counts[1 := c[1] - w[1]], waits := t1.waits[slot := w[0 := 0][1 := 0]]);
    var t3 := t2.(counts := t2.counts[2 := c[2] - w[2]], waits := t2.waits[slot := w[0 := 0][1 := 0][2 := 0]]);
    assert ReleaseFrom(t, slot, 0) == ReleaseFrom(t1, slot, 1);
    assert ReleaseFrom(t1, slot, 1) == ReleaseFrom(t2, slot, 2);
    assert ReleaseFrom(t2, slot, 2) == ReleaseFrom(t3, slot, 3) == t3;
    assert w[0 := 0][1 := 0][2 := 0] == [0, 0, 0];
    assert t3.counts == Lowered(t, slot).counts;
    assert t3.waits == Lowered(t, slot).waits;
  }

  /** The check in `end_wait` never fires: a slot never holds more than the phase has in all. */
  lemma CountsCoverWait(t: PhaseTable, tokens: Tokens, last: nat, i: nat, p: nat)
    requires PhaseInv(t, tokens, last) && i < |tokens| && p < PHASES
    ensures 0 <= t.waits[i][p] <= t.counts[p]
  {
    assert t.waits[i][p] == HeldPhase(t, tokens, i, p);
    if tokens[i].Some? {
      CountEnd(t.queues[p], tokens, i);
    }
  }

  lemma PhaseReleaseKeeps(t: PhaseTable, tokens: Tokens, last: nat, i: nat)
    requires PhaseInv(t, tokens, last) && i < |tokens| && tokens[i].Some?
    ensures PhaseInv(Release(t, i), tokens[i := None], last)
  {
    ReleaseIsLowered(t, i);
    var r, after := Release(t, i), tokens[i := None];
    forall p | 0 <= p < PHASES
      ensures r.counts[p] == Count(r.queues[p], LiveUnder(after))
      ensures forall j :: 0 <= j < |after| ==> r.waits[j][p] == HeldPhase(r, after, j, p)
    {
      CountEnd(t.queues[p], tokens, i);
      assert t.waits[i][p] == HeldPhase(t, tokens, i, p);
      forall j | 0 <= j < |after|
        ensures r.waits[j][p] == HeldPhase(r, after, j, p)
      {
        assert t.waits[j][p] == HeldPhase(t, tokens, j, p);
      }
    }
  }

  lemma PhaseReleaseNothing(t: PhaseTable, slot: nat)
    requires |t.counts| == PHASES && slot < |t.waits| && t.waits[slot] == [0, 0, 0]
    ensures Release(t, slot) == t
  {
    ReleaseIsLowered(t, slot);
    assert Lowered(t, slot).counts == t.counts && Lowered(t, slot).waits == t.waits;
  }

  lemma PhaseBeginKeeps(t: PhaseTable, tokens: Tokens, last: nat, i: nat)
    requires PhaseInv(t, tokens, last) && i < |tokens| && tokens[i].None?
    ensures PhaseInv(t, tokens[i := Some(last + 1)], last + 1)
  {
    var after := tokens[i := Some(last + 1)];
    forall p | 0 <= p < PHASES
      ensures t.counts[p] == Count(t.queues[p], LiveUnder(after))
      ensures forall j :: 0 <= j < |after| ==> t.waits[j][p] == HeldPhase(t, after, j, p)
    {
      CountBegin(t.queues[p], tokens, i, last);
      forall j | 0 <= j < |after|
        ensures t.waits[j][p] == HeldPhase(t, after, j, p)
      {
        assert t.waits[j][p] == HeldPhase(t, tokens, j, p);
      }
    }
  }

  lemma PhaseNewSlotKeeps(t: PhaseTable, tokens: Tokens, last: nat)
    requires PhaseInv(t, tokens, last)
    ensures PhaseInv(t.(waits := t.waits + [[0, 0, 0]]), tokens + [None], last)
  {
    var r, after := t.(waits := t.waits + [[0, 0, 0]]), tokens + [None];
    forall p | 0 <= p < PHASES
      ensures r.counts[p] == Count(r.queues[p], LiveUnder(after))
      ensures forall j :: 0 <= j < |after| ==> r.waits[j][p] == HeldPhase(r, after, j, p)
    {
      CountSame(t.queues[p], LiveUnder(after), LiveUnder(tokens));
      forall j | 0 <= j < |after|
        ensures r.waits[j][p] == HeldPhase(r, after, j, p)
      {
        if j < |tokens| {
          assert t.waits[j][p] == HeldPhase(t, tokens, j, p);
        }
      }
    }
  }

  lemma PhaseRegisterKeeps(t: PhaseTable, tokens: Tokens, last: nat, r: Reg, phase: Phase)
    requires PhaseInv(t, tokens, last) && Live(tokens, r) && r.gen <= last
    ensures PhaseInv(Register(t, r, phase), tokens, last)
  {
    var u := Register(t, r, phase);
    forall p | 0 <= p < PHASES
      ensures Issued(u.queues[p], |tokens|, last)
      ensures u.counts[p] == Count(u.queues[p], LiveUnder(tokens))
    {
      CountPush(t.queues[p], r, LiveUnder(tokens));
    }
    forall j, p | 0 <= j < |tokens| && 0 <= p < PHASES
      ensures u.waits[j][p] == HeldPhase(u, tokens, j, p)
    {
      RegisterKeepsHeld(t, tokens, last, r, phase, j, p);
    }
  }

  lemma RegisterKeepsHeld(t: PhaseTable, tokens: Tokens, last: nat, r: Reg, phase: Phase, j: nat, p: nat)
    requires PhaseInv(t, tokens, last) && Live(tokens, r) && j < |tokens| && p < PHASES
    ensures Register(t, r, phase).waits[j][p] == HeldPhase(Register(t, r, phase), tokens, j, p)
  {
    assert t.waits[j][p] == HeldPhase(t, tokens, j, p);
    if tokens[j].Some? {
      CountPush(t.queues[p], r, HeldBy(j, tokens[j].value));
    }
  }

  /** A phase queue whose entries are all dead can be emptied. */
  lemma EraseFrontKeeps(t: PhaseTable, tokens: Tokens, last: nat, phase: Phase)
    requires PhaseInv(t, tokens, last)
    requires Count(t.queues[PhaseIndex(phase)], LiveUnder(tokens)) == 0
    ensures var k := PhaseIndex(phase); var u := EraseFront(t, phase, |t.queues[k]|);
      PhaseInv(u, tokens, last) && u.queues == t.queues[k := []]
  {
    var k := PhaseIndex(phase);
    var u := EraseFront(t, phase, |t.queues[k]|);
    assert u.queues[k] == [];
    forall j | 0 <= j < |tokens|
      ensures forall p :: 0 <= p < PHASES ==> u.waits[j][p] == HeldPhase(u, tokens, j, p)
    {
      forall p | 0 <= p < PHASES
        ensures u.waits[j][p] == HeldPhase(u, tokens, j, p)
      {
        assert t.waits[j][p] == HeldPhase(t, tokens, j, p);
        if tokens[j].Some? {
          CountEnd(t.queues[k], tokens, j);
        }
      }
    }
  }
}
