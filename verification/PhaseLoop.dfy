/** One simulator run under the direct timing loop: in each timestep NextTimeStep, then rounds of evaluation and
ReadWrite until nothing asks for another, then ReadOnly. Writes made by user code wait for the next ReadWrite.

What the simulator and the user code do is given from outside, as the lists of calls that user code makes
whenever it runs. The waiters of a phase are counted by the scheduler, which wakes all of them when the phase
comes. */
module PhaseLoop {
  import opened PhaseWaits

  /** What user code does while it runs: it defers a write, starts to wait for a phase, or cancels somebody who
      waits for one. */
  datatype Action = Write(write: PortWrite) | Await(phase: Phase) | Cancel(phase: Phase)

  /** A deferred write; applying it may defer others. */
  datatype PortWrite = PortWrite(value: int, issues: seq<PortWrite>)

  /** `SimulationPhase`, and also the phase of the callback that user code runs in. */
  datatype Region = Evaluation | In(phase: Phase)

  /** The calls the source answers by aborting: writing in a ReadOnly callback, and awaiting ReadWrite or ReadOnly
      in the ReadOnly region. */
  predicate Banned(a: Action, callback: Region, region: Region) {
    match a
    case Write(_) => callback == In(ReadOnly)
    case Await(p) => region == In(ReadOnly) && p != NextTimeStep
    case Cancel(_) => false
  }

  predicate Allowed(actions: seq<Action>, callback: Region, region: Region) {
    forall i :: 0 <= i < |actions| ==> !Banned(actions[i], callback, region)
  }

  /** How many wait for a phase after some actions. */
  function Waiting(count: nat, actions: seq<Action>, p: Phase): nat {
    if actions == [] then count
    else
      var n := |actions| - 1;
      var before := Waiting(count, actions[..n], p);
      if actions[n] == Await(p) then before + 1
      else if actions[n] == Cancel(p) && before > 0 then before - 1
      else before
  }

  function Writes(actions: seq<Action>): seq<PortWrite> {
    if actions == [] then []
    else
      var n := |actions| - 1;
      Writes(actions[..n]) + if actions[n].Write? then [actions[n].write] else []
  }

  function Cancels(actions: seq<Action>, p: Phase): nat {
    if actions == [] then 0
    else
      var n := |actions| - 1;
      Cancels(actions[..n], p) + (if actions[n] == Cancel(p) then 1 else 0)
  }

  function Values(ws: seq<PortWrite>): (r: seq<int>)
    ensures |r| == |ws| && forall i :: 0 <= i < |ws| ==> r[i] == ws[i].value
  {
    seq(|ws|, i requires 0 <= i < |ws| => ws[i].value)
  }

  /** What is deferred while these writes are applied. */
  function Issues(ws: seq<PortWrite>): seq<PortWrite> {
    if ws == [] then [] else Issues(ws[..|ws| - 1]) + ws[|ws| - 1].issues
  }

  /** When a write was made or applied: the timestep, and how many ReadWrite rounds the run had started. */
  datatype Stamp = Stamp(value: int, timestep: nat, round: nat)

  /** What happens during one dispatched phase: timers that come due first, then the waiters of the phase. */
  datatype Turn = Turn(late: seq<Action>, woken: seq<Action>)

  /** One round: what the edges and delays of the evaluation run, the ReadWrite turn if there is one, and whether
      the simulator asks for another evaluation. */
  datatype Round = Round(evaluated: seq<seq<Action>>, readWrite: Turn, evalNeeded: bool)

  datatype Timestep = Timestep(nextTimeStep: Turn, rounds: seq<Round>, readOnly: Turn)

  /** `Open`: the timestep needs more rounds than the list has. */
  datatype Status = Closed | Open | Aborted

  /** How many wait for phase q after phase p was dispatched. */
  function AfterTurn(waiting: seq<nat>, p: Phase, turn: Turn, q: Phase): nat
    requires |waiting| == 3
  {
    var others := Waiting(waiting[PhaseIndex(q)], turn.late, q);
    if Waiting(waiting[PhaseIndex(p)], turn.late, p) == 0 then others
    else Waiting(if p == q then 0 else others, turn.woken, q)
  }

  /** Whether the waiters of the phase run in the turn. */
  predicate Wakes(waiting: seq<nat>, p: Phase, turn: Turn)
    requires |waiting| == 3
  {
    Waiting(waiting[PhaseIndex(p)], turn.late, p) != 0
  }

  /** The turn makes no banned call. */
  predicate Lawful(waiting: seq<nat>, p: Phase, turn: Turn)
    requires |waiting| == 3
  {
    Allowed(turn.late, In(p), Evaluation) && (Wakes(waiting, p, turn) ==> Allowed(turn.woken, In(p), In(p)))
  }

  /** The part of the testbench that the phases read and change: who waits, what is deferred, what was written. */
  datatype Bench = Bench(waiting: seq<nat>, deferred: seq<PortWrite>, ports: seq<int>) {
    predicate Pending(p: Phase)
      requires |waiting| == 3
    {
      waiting[PhaseIndex(p)] != 0 || (p == ReadWrite && deferred != [])
    }
  }

  /** The numbers of waiters of the three phases, from those of each. */
  function Triple(count: Phase -> nat): (r: seq<nat>)
    ensures |r| == 3 && forall p :: r[PhaseIndex(p)] == count(p)
  {
    [count(ReadWrite), count(ReadOnly), count(NextTimeStep)]
  }

  /** After user code has run. */
  function Ran(b: Bench, actions: seq<Action>): (r: Bench)
    requires |b.waiting| == 3
    ensures |r.waiting| == 3
  {
    var waiting := b.waiting;
    Bench(Triple(p => if |waiting| == 3 then Waiting(waiting[PhaseIndex(p)], actions, p) else 0),
          b.deferred + Writes(actions), b.ports)
  }

  /** After the edges and delays of an evaluation have run. */
  function Evaluated(b: Bench, evaluated: seq<seq<Action>>): (r: Bench)
    requires |b.waiting| == 3
    ensures |r.waiting| == 3
  {
    if evaluated == [] then b
    else Ran(Evaluated(b, evaluated[..|evaluated| - 1]), evaluated[|evaluated| - 1])
  }

  /** After a phase has been dispatched, if somebody waits for it. */
  function Turned(b: Bench, p: Phase, turn: Turn): (r: Bench)
    requires |b.waiting| == 3
    ensures |r.waiting| == 3
  {
    if !b.Pending(p) then b
    else
      var waiting, before := b.waiting, b.deferred + Writes(turn.late);
      Bench(Triple(q => if |waiting| == 3 then AfterTurn(waiting, p, turn, q) else 0),
            (if p == ReadWrite then Issues(before) else before)
              + if Wakes(b.waiting, p, turn) then Writes(turn.woken) else [],
            b.ports + if p == ReadWrite then Values(before) else [])
  }

  /** The dispatch makes no banned call. */
  predicate TurnAllowed(b: Bench, p: Phase, turn: Turn)
    requires |b.waiting| == 3
  {
    b.Pending(p) ==> Lawful(b.waiting, p, turn)
  }

  /** After n rounds. */
  function Rounded(b: Bench, rounds: seq<Round>, n: nat): (r: Bench)
    requires |b.waiting| == 3 && n <= |rounds|
    ensures |r.waiting| == 3
  {
    if n == 0 then b
    else Turned(Evaluated(Rounded(b, rounds, n - 1), rounds[n - 1].evaluated), ReadWrite, rounds[n - 1].readWrite)
  }

  /** The testbench of round n when its evaluation is over. */
  function AtReadWrite(b: Bench, rounds: seq<Round>, n: nat): (r: Bench)
    requires |b.waiting| == 3 && n < |rounds|
    ensures |r.waiting| == 3
  {
    Evaluated(Rounded(b, rounds, n), rounds[n].evaluated)
  }

  /** Round n is to be followed by another: ReadWrite was dispatched in it, or the simulator asks for an evaluation. */
  predicate Again(b: Bench, rounds: seq<Round>, n: nat)
    requires |b.waiting| == 3 && n < |rounds|
  {
    AtReadWrite(b, rounds, n).Pending(ReadWrite) || rounds[n].evalNeeded
  }

  /** Round k is the last: it is the first that is not to be followed by another. */
  ghost predicate LastRound(b: Bench, rounds: seq<Round>, k: nat)
    requires |b.waiting| == 3
  {
    k < |rounds| && !Again(b, rounds, k) && forall j :: 0 <= j < k ==> Again(b, rounds, j)
  }

  ghost predicate NoLastRound(b: Bench, rounds: seq<Round>)
    requires |b.waiting| == 3
  {
    forall j :: 0 <= j < |rounds| ==> Again(b, rounds, j)
  }

  /** The timestep runs through, with round k as the last; only its ReadOnly turn can make a banned call. */
  ghost predicate Closes(b: Bench, t: Timestep, k: nat)
    requires |b.waiting| == 3
  {
    var start := Turned(b, NextTimeStep, t.nextTimeStep);
    LastRound(start, t.rounds, k) && TurnAllowed(Rounded(start, t.rounds, k + 1), ReadOnly, t.readOnly)
  }

  /** After a timestep whose last round is the given one. */
  function Passed(b: Bench, t: Timestep, last: nat): (r: Bench)
    requires |b.waiting| == 3 && last < |t.rounds|
    ensures |r.waiting| == 3
  {
    Turned(Rounded(Turned(b, NextTimeStep, t.nextTimeStep), t.rounds, last + 1), ReadOnly, t.readOnly)
  }

  /** The timesteps close one after the other, with these last rounds, and lead from b to e. */
  ghost predicate Passes(b: Bench, timesteps: seq<Timestep>, lasts: seq<nat>, e: Bench)
    requires |b.waiting| == 3 && |lasts| <= |timesteps|
    decreases |lasts|
  {
    if lasts == [] then e == b
    else
      var n := |lasts| - 1;
      exists before: Bench :: |before.waiting| == 3 && Passes(b, timesteps, lasts[..n], before)
        && lasts[n] < |timesteps[n].rounds| && Closes(before, timesteps[n], lasts[n])
        && e == Passed(before, timesteps[n], lasts[n])
  }

  lemma PassesNone(b: Bench, timesteps: seq<Timestep>)
    requires |b.waiting| == 3
    ensures Passes(b, timesteps, [], b)
  {
  }

  lemma OnePassed(b: Bench, timesteps: seq<Timestep>, lasts: seq<nat>, before: Bench, last: nat)
    requires |b.waiting| == 3 && |lasts| < |timesteps| && |before.waiting| == 3
    requires Passes(b, timesteps, lasts, before)
    requires last < |timesteps[|lasts|].rounds| && Closes(before, timesteps[|lasts|], last)
    ensures Passes(b, timesteps, lasts + [last], Passed(before, timesteps[|lasts|], last))
  {
    hide Closes, Passed;
    assert (lasts + [last])[..|lasts|] == lasts;
  }

  lemma LastRoundOnce(b: Bench, rounds: seq<Round>, k: nat, m: nat)
    requires |b.waiting| == 3 && LastRound(b, rounds, k) && m != k
    ensures !LastRound(b, rounds, m)
  {
    if m < k {
      assert Again(b, rounds, m);
    }
  }

  lemma AllowedPrefix(actions: seq<Action>, n: nat, callback: Region, region: Region)
    requires n <= |actions| && Allowed(actions, callback, region)
    ensures Allowed(actions[..n], callback, region)
  {
  }

  /** User code that is allowed in ReadOnly neither writes nor adds to the waiters of ReadWrite. */
  lemma {:induction false} QuietInReadOnly(actions: seq<Action>, count: nat, callback: Region, region: Region)
    requires Allowed(actions, callback, region)
    ensures callback == In(ReadOnly) ==> Writes(actions) == []
    ensures region == In(ReadOnly) && count == 0 ==> Waiting(count, actions, ReadWrite) == 0
  {
    if actions != [] {
      AllowedPrefix(actions, |actions| - 1, callback, region);
      QuietInReadOnly(actions[..|actions| - 1], count, callback, region);
      assert !Banned(actions[|actions| - 1], callback, region);
    }
  }

  /** In the ReadOnly region the waiters of ReadWrite can only be cancelled. */
  lemma {:induction false} OnlyCancelled(actions: seq<Action>, count: nat)
    requires Allowed(actions, In(ReadOnly), In(ReadOnly))
    ensures Waiting(count, actions, ReadWrite)
         == if Cancels(actions, ReadWrite) <= count then count - Cancels(actions, ReadWrite) else 0
  {
    if actions != [] {
      AllowedPrefix(actions, |actions| - 1, In(ReadOnly), In(ReadOnly));
      OnlyCancelled(actions[..|actions| - 1], count);
      assert !Banned(actions[|actions| - 1], In(ReadOnly), In(ReadOnly));
    }
  }

  /** Who waits for ReadWrite after a lawful ReadOnly turn that began with nobody waiting for it: those that timers
      due only then have made wait, less those that are cancelled. */
  lemma LeftOver(waiting: seq<nat>, turn: Turn)
    requires |waiting| == 3 && waiting[PhaseIndex(ReadWrite)] == 0 && waiting[PhaseIndex(ReadOnly)] != 0
    requires Lawful(waiting, ReadOnly, turn)
    ensures var late := Waiting(0, turn.late, ReadWrite);
      var cancelled := if Wakes(waiting, ReadOnly, turn) then Cancels(turn.woken, ReadWrite) else 0;
      AfterTurn(waiting, ReadOnly, turn, ReadWrite) == if cancelled <= late then late - cancelled else 0
  {
    if Wakes(waiting, ReadOnly, turn) {
      OnlyCancelled(turn.woken, Waiting(0, turn.late, ReadWrite));
    }
  }

  function Stamps(ws: seq<PortWrite>, timestep: nat, round: nat): (r: seq<Stamp>)
    ensures |r| == |ws| && forall i :: 0 <= i < |ws| ==> r[i] == Stamp(ws[i].value, timestep, round)
  {
    seq(|ws|, i requires 0 <= i < |ws| => Stamp(ws[i].value, timestep, round))
  }

  /** Every write that was issued is applied, taken out to be applied, or deferred, in the order of issue. An applied
      one was applied in its own timestep, by the first ReadWrite round after it; those taken out were issued before
      this round began, and a deferred one was issued in this timestep and since. */
  ghost predicate Consistent(issued: seq<Stamp>, applied: seq<Stamp>, taken: seq<PortWrite>, deferred: seq<PortWrite>,
                             ports: seq<int>, timestep: nat, round: nat)
  {
    && |ports| == |applied| <= |issued| && (taken != [] ==> round > 0)
    && (forall i :: 0 <= i < |applied| ==>
          ports[i] == applied[i].value && applied[i] == Stamp(issued[i].value, issued[i].timestep, issued[i].round + 1))
    && issued[|applied|..]
       == (if round > 0 then Stamps(taken, timestep, round - 1) else []) + Stamps(deferred, timestep, round)
  }

  lemma IssueKeeps(issued: seq<Stamp>, applied: seq<Stamp>, taken: seq<PortWrite>, deferred: seq<PortWrite>,
                   ports: seq<int>, timestep: nat, round: nat, ws: seq<PortWrite>)
    requires Consistent(issued, applied, taken, deferred, ports, timestep, round)
    ensures Consistent(issued + Stamps(ws, timestep, round), applied, taken, deferred + ws, ports, timestep, round)
  {
    var more := issued + Stamps(ws, timestep, round);
    assert more[|applied|..] == issued[|applied|..] + Stamps(ws, timestep, round);
    assert Stamps(deferred + ws, timestep, round) == Stamps(deferred, timestep, round) + Stamps(ws, timestep, round);
  }

  /** A round begins: everything deferred is taken out. */
  lemma TakeKeeps(issued: seq<Stamp>, applied: seq<Stamp>, deferred: seq<PortWrite>, ports: seq<int>, timestep: nat,
                  round: nat)
    requires Consistent(issued, applied, [], deferred, ports, timestep, round)
    ensures Consistent(issued, applied, deferred, [], ports, timestep, round + 1)
  {
    assert issued[|applied|..] == Stamps(deferred, timestep, round);
  }

  /** Applying the first of the writes that were taken out. */
  lemma ApplyKeeps(issued: seq<Stamp>, applied: seq<Stamp>, taken: seq<PortWrite>, deferred: seq<PortWrite>,
                   ports: seq<int>, timestep: nat, round: nat)
    requires Consistent(issued, applied, taken, deferred, ports, timestep, round) && taken != []
    ensures Consistent(issued, applied + [Stamp(taken[0].value, timestep, round)], taken[1..], deferred,
                       ports + [taken[0].value], timestep, round)
  {
    var rest, first := Stamps(taken[1..], timestep, round - 1), Stamp(taken[0].value, timestep, round - 1);
    assert Stamps(taken, timestep, round - 1) == [first] + rest;
    hide Stamps;
    var open := Stamps(deferred, timestep, round);
    FirstOpen(issued, |applied|, first, rest + open);
    assert ([first] + rest) + open == [first] + (rest + open);
  }

  lemma FirstOpen(issued: seq<Stamp>, n: nat, first: Stamp, rest: seq<Stamp>)
    requires n <= |issued| && issued[n..] == [first] + rest
    ensures n < |issued| && issued[n] == first && issued[n + 1..] == rest
  {
    assert issued[n..][0] == first && issued[n..][1..] == rest;
  }

  /** With nothing deferred the next timestep may begin. */
  lemma NothingDeferred(issued: seq<Stamp>, applied: seq<Stamp>, ports: seq<int>, timestep: nat, round: nat, t: nat)
    requires Consistent(issued, applied, [], [], ports, timestep, round)
    ensures Consistent(issued, applied, [], [], ports, t, round) && |applied| == |issued|
  {
    assert |issued[|applied|..]| == 0;
  }

  lemma SameTriple(a: seq<nat>, b: seq<nat>)
    requires |a| == 3 && |b| == 3 && forall p: Phase :: a[PhaseIndex(p)] == b[PhaseIndex(p)]
    ensures a == b
  {
    assert a[PhaseIndex(ReadWrite)] == b[PhaseIndex(ReadWrite)] && a[PhaseIndex(ReadOnly)] == b[PhaseIndex(ReadOnly)];
    assert a[PhaseIndex(NextTimeStep)] == b[PhaseIndex(NextTimeStep)];
  }

  /** No call is banned but in a ReadOnly callback or in the ReadOnly region. */
  lemma OnlyReadOnlyBans(actions: seq<Action>, callback: Region, region: Region)
    requires callback != In(ReadOnly) && region != In(ReadOnly)
    ensures Allowed(actions, callback, region)
  {
  }

  lemma OthersLawful(waiting: seq<nat>, p: Phase, turn: Turn)
    requires |waiting| == 3 && p != ReadOnly
    ensures Lawful(waiting, p, turn)
  {
    OnlyReadOnlyBans(turn.late, In(p), Evaluation);
    OnlyReadOnlyBans(turn.woken, In(p), In(p));
  }

  lemma BannedReadOnly(b: Bench, t: Timestep, start: Bench, k: nat)
    requires |b.waiting| == 3 && start == Turned(b, NextTimeStep, t.nextTimeStep) && LastRound(start, t.rounds, k)
    requires !TurnAllowed(Rounded(start, t.rounds, k + 1), ReadOnly, t.readOnly)
    ensures forall m :: !Closes(b, t, m)
  {
    hide Turned, Evaluated, Lawful;
    forall m: nat
      ensures !Closes(b, t, m)
    {
      if m != k {
        LastRoundOnce(start, t.rounds, k, m);
      }
    }
  }

  class Testbench {
    var waiting: seq<nat>
    var deferred: seq<PortWrite>
    var region: Region
    var ports: seq<int>
    ghost var timestep: nat
    ghost var round: nat
    ghost var issued: seq<Stamp>
    ghost var applied: seq<Stamp>

    ghost predicate Logged()
      reads this
    {
      |waiting| == 3 && Consistent(issued, applied, [], deferred, ports, timestep, round)
    }

    /** `pending_phase_mask`: a deferred write alone asks for a ReadWrite round. */
    predicate Pending(p: Phase)
      requires |waiting| == 3
      reads this
    {
      waiting[PhaseIndex(p)] != 0 || (p == ReadWrite && deferred != [])
    }

    ghost function View(): Bench
      reads this
    {
      Bench(waiting, deferred, ports)
    }

    constructor ()
      ensures Logged() && !Pending(ReadWrite) && issued == [] && waiting == [0, 0, 0] && timestep == round == 0
      ensures region == Evaluation && deferred == [] && ports == []
    {
      waiting, deferred, region, ports := [0, 0, 0], [], Evaluation, [];
      timestep, round, issued, applied := 0, 0, [], [];
    }

    /** User code runs, up to a banned call. */
    method RunUser(actions: seq<Action>, callback: Region) returns (ok: bool)
      requires Logged()
      modifies this`waiting, this`deferred, this`issued
      ensures Logged() && old(issued) <= issued && ok == Allowed(actions, callback, region)
      ensures ok ==> deferred == old(deferred) + Writes(actions)
      ensures ok ==> forall p :: waiting[PhaseIndex(p)] == Waiting(old(waiting[PhaseIndex(p)]), actions, p)
      ensures ok ==> View() == Ran(old(View()), actions)
    {
      hide Consistent, Banned;
      ghost var before := waiting;
      for i := 0 to |actions|
        invariant Logged() && old(issued) <= issued && Allowed(actions[..i], callback, region)
        invariant deferred == old(deferred) + Writes(actions[..i])
        invariant forall p :: waiting[PhaseIndex(p)] == Waiting(before[PhaseIndex(p)], actions[..i], p)
      {
        var a := actions[i];
        assert actions[..i + 1][..i] == actions[..i] && actions[..i + 1][i] == a;
        if Banned(a, callback, region) {
          return false;
        }
        match a
        case Write(w) =>
          IssueKeeps(issued, applied, [], deferred, ports, timestep, round, [w]);
          deferred, issued := deferred + [w], issued + Stamps([w], timestep, round);
        case Await(p) =>
          waiting := waiting[PhaseIndex(p) := waiting[PhaseIndex(p)] + 1];
        case Cancel(p) =>
          if waiting[PhaseIndex(p)] > 0 {
            waiting := waiting[PhaseIndex(p) := waiting[PhaseIndex(p)] - 1];
          }
      }
      assert actions[..|actions|] == actions;
      SameTriple(waiting, Ran(old(View()), actions).waiting);
      ok := true;
    }

    /** `flush_deferred_writes`: the writes are taken out before they are applied, in their order, and what is
        deferred meanwhile stays for the next round. */
    method FlushDeferred()
      requires Logged()
      modifies this`deferred, this`ports, this`applied, this`issued, this`round
      ensures Logged() && old(issued) <= issued && round == old(round) + 1
      ensures deferred == Issues(old(deferred)) && ports == old(ports) + Values(old(deferred))
    {
      hide Consistent;
      TakeKeeps(issued, applied, deferred, ports, timestep, round);
      var applying := deferred;
      deferred := [];
      round := round + 1;
      for i := 0 to |applying|
        invariant round == old(round) + 1 && |waiting| == 3 && old(issued) <= issued
        invariant deferred == Issues(applying[..i]) && ports == old(ports) + Values(applying[..i])
        invariant Consistent(issued, applied, applying[i..], deferred, ports, timestep, round)
      {
        var w := applying[i];
        assert applying[i..][1..] == applying[i + 1..] && applying[..i + 1][..i] == applying[..i];
        assert Values(applying[..i + 1]) == Values(applying[..i]) + [w.value];
        ApplyKeeps(issued, applied, applying[i..], deferred, ports, timestep, round);
        ports, applied := ports + [w.value], applied + [Stamp(w.value, timestep, round)];
        IssueKeeps(issued, applied, applying[i + 1..], deferred, ports, timestep, round, w.issues);
        deferred, issued := deferred + w.issues, issued + Stamps(w.issues, timestep, round);
      }
      assert applying[..|applying|] == applying && applying[|applying|..] == [];
    }

    /** One `step` for a phase. The timers that are due run first, in the region of an evaluation but in the
        callback of the phase; then the phase is notified. */
    method Dispatch(p: Phase, turn: Turn) returns (ok: bool)
      requires Logged() && Pending(p)
      requires p == ReadOnly ==> !Pending(ReadWrite)
      modifies this`waiting, this`deferred, this`issued, this`region, this`ports, this`applied, this`round
      ensures Logged() && old(issued) <= issued
      ensures ok == Lawful(old(waiting), p, turn)
      ensures ok ==> round == old(round) + if p == ReadWrite then 1 else 0
      ensures ok ==> forall q :: waiting[PhaseIndex(q)] == AfterTurn(old(waiting), p, turn, q)
      ensures ok ==>
        var before := old(deferred) + Writes(turn.late);
        && deferred == (if p == ReadWrite then Issues(before) else before)
             + (if Wakes(old(waiting), p, turn) then Writes(turn.woken) else [])
        && ports == old(ports) + (if p == ReadWrite then Values(before) else [])
      ensures ok && p == ReadOnly ==> deferred == []
    {
      hide Consistent, Allowed;
      region := Evaluation;
      ok := RunUser(turn.late, In(p));
      if !ok {
        return;
      }
      if p == ReadOnly {
        QuietInReadOnly(turn.late, 0, In(p), region);
      }
      if p == ReadWrite {
        FlushDeferred();
      }
      region := In(p);
      if waiting[PhaseIndex(p)] != 0 {
        waiting := waiting[PhaseIndex(p) := 0];
        ok := RunUser(turn.woken, In(p));
        if ok && p == ReadOnly {
          QuietInReadOnly(turn.woken, 0, In(p), region);
        }
      }
    }

    /** `dispatch_if_pending` */
    method DispatchIfPending(p: Phase, turn: Turn) returns (called: bool, ok: bool)
      requires Logged()
      requires p == ReadOnly ==> !Pending(ReadWrite)
      modifies this`waiting, this`deferred, this`issued, this`region, this`ports, this`applied, this`round
      ensures Logged() && old(issued) <= issued && called == old(Pending(p))
      ensures !called ==> ok && unchanged(this)
      ensures called ==> ok == Lawful(old(waiting), p, turn)
      ensures called && ok ==> forall q :: waiting[PhaseIndex(q)] == AfterTurn(old(waiting), p, turn, q)
      ensures ok && p == ReadOnly ==> deferred == []
      ensures ok ==> View() == Turned(old(View()), p, turn)
    {
      hide Consistent, Lawful, Wakes, AfterTurn;
      if !Pending(p) {
        return false, true;
      }
      ok := Dispatch(p, turn);
      if ok {
        SameTriple(waiting, Turned(old(View()), p, turn).waiting);
      }
      called := true;
    }

    /** The evaluation of the design: its edges and delays run user code, which may make any call. */
    method Evaluate(evaluated: seq<seq<Action>>)
      requires Logged()
      modifies this`waiting, this`deferred, this`issued, this`region
      ensures Logged() && old(issued) <= issued
      ensures View() == Evaluated(old(View()), evaluated)
    {
      hide Consistent, Allowed, Ran;
      region := Evaluation;
      for i := 0 to |evaluated|
        invariant Logged() && old(issued) <= issued && region == Evaluation
        invariant View() == Evaluated(old(View()), evaluated[..i])
      {
        OnlyReadOnlyBans(evaluated[i], Evaluation, Evaluation);
        var ok := RunUser(evaluated[i], Evaluation);
        assert evaluated[..i + 1][..i] == evaluated[..i];
      }
      assert evaluated[..|evaluated|] == evaluated;
    }

    /** One turn of the outer loop. It runs the NextTimeStep turn, then the rounds up to the first in which ReadWrite
        was not dispatched and the simulator asks for no other evaluation, then the ReadOnly turn. It is `Open` just
        when no such round is given, and aborts just when the ReadOnly turn makes a banned call.

        However it is driven, when the timestep closes every write issued so far has been applied; ReadOnly is
        dispatched only when nobody waits for ReadWrite and no write is deferred. Somebody waits for ReadWrite
        afterwards exactly when timers that came due only with ReadOnly made more coroutines wait for it than were
        cancelled since. `last` is the last round, if the timestep closes. */
    method RunTimestep(t: Timestep) returns (status: Status, ghost last: nat)
      requires Logged() && deferred == []
      modifies this
      ensures Logged() && old(issued) <= issued && timestep == old(timestep) + 1
      ensures status.Closed? <==> exists k :: Closes(old(View()), t, k)
      ensures status.Closed? ==> last < |t.rounds| && Closes(old(View()), t, last)
      ensures status.Closed? ==>
        var settled := Rounded(Turned(old(View()), NextTimeStep, t.nextTimeStep), t.rounds, last + 1);
        && View() == Passed(old(View()), t, last)
        && !settled.Pending(ReadWrite) && deferred == [] && |applied| == |issued|
        && waiting[PhaseIndex(ReadWrite)]
           == var late := Waiting(0, t.readOnly.late, ReadWrite);
              var cancelled := if Wakes(settled.waiting, ReadOnly, t.readOnly)
                then Cancels(t.readOnly.woken, ReadWrite) else 0;
              if settled.waiting[PhaseIndex(ReadOnly)] == 0 || late <= cancelled then 0 else late - cancelled
      ensures var start := Turned(old(View()), NextTimeStep, t.nextTimeStep);
        status.Open? <==> NoLastRound(start, t.rounds)
      ensures status.Closed? && t.readOnly.late == [] ==> !Pending(ReadWrite)
    {
      hide Consistent, Lawful, Wakes, Turned, Evaluated, AfterTurn, Allowed;
      ghost var b := View();
      last := 0;
      NothingDeferred(issued, applied, ports, timestep, round, timestep + 1);
      timestep := timestep + 1;
      assert View() == b;
      OthersLawful(waiting, NextTimeStep, t.nextTimeStep);
      var called, ok := DispatchIfPending(NextTimeStep, t.nextTimeStep);
      ghost var start := View();
      var k := 0;
      while true
        invariant k <= |t.rounds| && Logged() && old(issued) <= issued && timestep == old(timestep) + 1
        invariant View() == Rounded(start, t.rounds, k)
        invariant forall j :: 0 <= j < k ==> Again(start, t.rounds, j)
        decreases |t.rounds| - k
      {
        if k == |t.rounds| {
          return Open, last;
        }
        var round := t.rounds[k];
        Evaluate(round.evaluated);
        assert View() == AtReadWrite(start, t.rounds, k);
        OthersLawful(waiting, ReadWrite, round.readWrite);
        called, ok := DispatchIfPending(ReadWrite, round.readWrite);
        if !called && !round.evalNeeded {
          break;
        }
        k := k + 1;
      }
      last := k;
      assert LastRound(start, t.rounds, k);
      ghost var settled := View();
      assert settled == Rounded(start, t.rounds, k + 1);
      called, ok := DispatchIfPending(ReadOnly, t.readOnly);
      if ok {
        assert Closes(b, t, k);
        NothingDeferred(issued, applied, ports, timestep, round, timestep);
        if called {
          LeftOver(settled.waiting, t.readOnly);
        }
      } else {
        BannedReadOnly(b, t, start, k);
      }
      status := if ok then Closed else Aborted;
    }

    /** The outer loop, until the simulation finishes, aborts or is cut off. It goes through the timesteps as long as
        they close, and stops short just at one that cannot. */
    method Run(timesteps: seq<Timestep>) returns (status: Status, ghost lasts: seq<nat>)
      requires Logged() && deferred == []
      modifies this
      ensures Logged() && old(issued) <= issued && |lasts| <= |timesteps|
      ensures status.Closed? <==> |lasts| == |timesteps|
      ensures status.Closed? ==> Passes(old(View()), timesteps, lasts, View()) && deferred == []
      ensures !status.Closed? ==> exists stuck: Bench ::
          |stuck.waiting| == 3 && Passes(old(View()), timesteps, lasts, stuck)
          && forall k :: !Closes(stuck, timesteps[|lasts|], k)
      ensures status.Closed? && timesteps != [] ==> |applied| == |issued| && timestep == old(timestep) + |timesteps|
      ensures status.Closed? && timesteps != [] && timesteps[|timesteps| - 1].readOnly.late == [] ==>
        !Pending(ReadWrite)
    {
      hide Consistent, Closes, Passed, Passes;
      ghost var b := View();
      status, lasts := Closed, [];
      PassesNone(b, timesteps);
      for i := 0 to |timesteps|
        invariant Logged() && old(issued) <= issued && deferred == [] && status.Closed?
        invariant |lasts| == i && Passes(b, timesteps, lasts, View())
        invariant timestep == old(timestep) + i && (i > 0 ==> |applied| == |issued|)
        invariant i > 0 && timesteps[i - 1].readOnly.late == [] ==> !Pending(ReadWrite)
      {
        ghost var before, last := View(), 0;
        status, last := RunTimestep(timesteps[i]);
        if !status.Closed? {
          return;
        }
        OnePassed(b, timesteps, lasts, before, last);
        lasts := lasts + [last];
      }
    }
  }

  /** A timestep that closes with somebody still waiting for ReadWrite: a coroutine waits for ReadOnly, and a timer
      that comes due only with it makes another wait for ReadWrite. */
  method LateTimerExample() returns (testbench: Testbench, status: Status)
    ensures fresh(testbench) && testbench.Logged() && status.Closed? && testbench.Pending(ReadWrite)
  {
    hide Consistent;
    testbench := new Testbench();
    var first: seq<Action> := [Await(ReadOnly)];
    OneWait(0, first, ReadOnly);
    var ok := testbench.RunUser(first, Evaluation);
    var late: seq<Action> := [Await(ReadWrite)];
    OneWait(0, late, ReadWrite);
    OneWait(1, late, ReadWrite);
    assert testbench.waiting[PhaseIndex(ReadWrite)] == 0 && testbench.waiting[PhaseIndex(NextTimeStep)] == 0;
    assert testbench.waiting[PhaseIndex(ReadOnly)] == 1;
    var rounds := [Round([], Turn([], []), false)];
    OneEmptyRound(testbench.View(), rounds);
    assert Closes(testbench.View(), Timestep(Turn([], []), rounds, Turn(late, [])), 0);
    ghost var last;
    status, last := testbench.RunTimestep(Timestep(Turn([], []), rounds, Turn(late, [])));
  }

  lemma OneEmptyRound(b: Bench, rounds: seq<Round>)
    requires |b.waiting| == 3 && b.deferred == [] && b.waiting[PhaseIndex(ReadWrite)] == 0
    requires rounds == [Round([], Turn([], []), false)]
    ensures LastRound(b, rounds, 0) && Rounded(b, rounds, 1) == b
    ensures forall k :: LastRound(b, rounds, k) ==> k == 0
  {
    assert Rounded(b, rounds, 0) == b && AtReadWrite(b, rounds, 0) == b;
  }

  lemma OneWait(count: nat, actions: seq<Action>, p: Phase)
    requires actions == [Await(p)]
    ensures Waiting(count, actions, p) == count + 1 && (forall q :: q != p ==> Waiting(count, actions, q) == count)
    ensures Writes(actions) == [] && Allowed(actions, Evaluation, Evaluation)
      && Allowed(actions, In(ReadOnly), Evaluation)
  {
    assert actions[..0] == [];
  }
}
