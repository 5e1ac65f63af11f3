/** Waits that another coroutine ends, as `Semaphore`, `Lock` and `Queue` use them, and the list of
waiters each of them keeps.

A waker reserves what it hands over before the waiter runs. Until then the waiter may be cancelled, and
the reservation has to find its way back. */
module ExternalWaits {

  /** What the scheduler knows about a wait: parked in it, woken and about to run, resumed, or cancelled. */
  datatype Status = Parked | Woken | Resumed | Gone {
    /** `external_wait_alive` */
    predicate Alive() {
      Parked? || Woken?
    }
  }

  /** The status of every wait begun so far, by number. */
  type World = seq<Status>

  datatype Waiter = Waiter(wait: nat, reserved: bool)

  predicate Lives(world: World, w: Waiter) {
    w.wait < |world| && world[w.wait].Alive()
  }

  /** `wake_external` succeeds just when the coroutine is still parked. */
  predicate Wakeable(world: World, w: Waiter) {
    w.wait < |world| && world[w.wait].Parked?
  }

  function Wake(world: World, wait: nat): World {
    if wait < |world| && world[wait].Parked? then world[wait := Woken] else world
  }

  /** A primitive has woken some of the waits that were parked, or resumed one that had been woken. */
  ghost predicate Served(before: World, after: World) {
    && |after| == |before|
    && forall w :: 0 <= w < |before| ==>
         after[w] == before[w] || (before[w].Parked? && after[w].Woken?) || (before[w].Woken? && after[w].Resumed?)
  }

  ghost predicate OnlyWoken(before: World, after: World) {
    && |after| == |before|
    && forall w :: 0 <= w < |before| ==> after[w] == before[w] || (before[w].Parked? && after[w].Woken?)
  }

  /** The waiters that are alive, in order: what a cleanup keeps. */
  function Sweep(ws: seq<Waiter>, world: World): seq<Waiter> {
    if ws == [] then []
    else Sweep(ws[..|ws| - 1], world) + if Lives(world, ws[|ws| - 1]) then [ws[|ws| - 1]] else []
  }

  function Reserved(ws: seq<Waiter>): nat {
    if ws == [] then 0 else Reserved(ws[..|ws| - 1]) + if ws[|ws| - 1].reserved then 1 else 0
  }

  /** How many reservations a cleanup gives back. */
  function Returned(ws: seq<Waiter>, world: World): nat {
    if ws == [] then 0
    else
      var w := ws[|ws| - 1];
      Returned(ws[..|ws| - 1], world) + if w.reserved && !Lives(world, w) then 1 else 0
  }

  /** The list and the world after one thing has been handed out, and whether somebody took it. */
  datatype Handout = Handout(waiters: seq<Waiter>, world: World, taken: bool)

  /** Hand one thing to the first waiter without one that can be woken; those that cannot are dropped. */
  function Grant(ws: seq<Waiter>, world: World): Handout {
    if ws == [] then Handout([], world, false)
    else if ws[0].reserved then
      var rest := Grant(ws[1..], world);
      rest.(waiters := [ws[0]] + rest.waiters)
    else if Wakeable(world, ws[0]) then
      Handout([ws[0].(reserved := true)] + ws[1..], Wake(world, ws[0].wait), true)
    else Grant(ws[1..], world)
  }

  /** The first waiter with this wait, or the length of the list. */
  function Find(ws: seq<Waiter>, wait: nat): (i: nat)
    ensures i <= |ws| && (i < |ws| ==> ws[i].wait == wait)
    ensures forall k :: 0 <= k < i ==> ws[k].wait != wait
  {
    if ws == [] || ws[0].wait == wait then 0 else 1 + Find(ws[1..], wait)
  }

  function Without(ws: seq<Waiter>, i: nat): seq<Waiter>
    requires i < |ws|
  {
    ws[..i] + ws[i + 1..]
  }

  // ---------------------------------------------------------------------------------------------
  // The discipline of the list
  // ---------------------------------------------------------------------------------------------

  ghost predicate Fits(world: World, w: Waiter) {
    w.wait < |world| && if w.reserved then !world[w.wait].Parked? && !world[w.wait].Resumed?
                        else !world[w.wait].Woken? && !world[w.wait].Resumed?
  }

  ghost predicate Listed(ws: seq<Waiter>, wait: nat) {
    exists i :: 0 <= i < |ws| && ws[i].wait == wait
  }

  /** The waiters are listed in the order in which they arrived, whoever has something reserved has been
      woken, nobody else has, and the waiters with a reservation come first. */
  ghost predicate WaitersOk(ws: seq<Waiter>, world: World) {
    && (forall i :: 0 <= i < |ws| ==> Fits(world, ws[i]))
    && (forall i, j :: 0 <= i < j < |ws| ==> ws[i].wait < ws[j].wait)
    && (forall i, j :: 0 <= i < j < |ws| && ws[j].reserved ==> ws[i].reserved)
  }

  /** Nobody who waits has been forgotten. */
  ghost predicate AllListed(ws: seq<Waiter>, world: World) {
    forall w: nat :: w < |world| && world[w].Alive() ==> Listed(ws, w)
  }

  lemma {:induction false} SweepExact(ws: seq<Waiter>, world: World)
    ensures forall w :: w in Sweep(ws, world) <==> w in ws && Lives(world, w)
    ensures Reserved(ws) == Reserved(Sweep(ws, world)) + Returned(ws, world)
  {
    if ws != [] {
      var front, last := ws[..|ws| - 1], ws[|ws| - 1];
      SweepExact(front, world);
      assert forall w :: w in ws <==> w in front || w == last;
      if Lives(world, last) {
        assert Sweep(ws, world)[..|Sweep(ws, world)| - 1] == Sweep(front, world);
      } else {
        assert Sweep(ws, world) == Sweep(front, world);
      }
    }
  }

  /** One more waiter at the end of the others. */
  lemma WaitersSnoc(ws: seq<Waiter>, w: Waiter, world: World)
    requires WaitersOk(ws, world) && Fits(world, w)
    requires forall x :: x in ws ==> x.wait < w.wait && (w.reserved ==> x.reserved)
    ensures WaitersOk(ws + [w], world)
  {
  }

  lemma {:induction false} SweepKeeps(ws: seq<Waiter>, world: World)
    requires WaitersOk(ws, world)
    ensures WaitersOk(Sweep(ws, world), world)
  {
    if ws != [] {
      var front, last := ws[..|ws| - 1], ws[|ws| - 1];
      SweepKeeps(front, world);
      SweepExact(front, world);
      forall x | x in Sweep(front, world)
        ensures x.wait < last.wait && (last.reserved ==> x.reserved)
      {
        assert x in front;
      }
      if Lives(world, last) {
        WaitersSnoc(Sweep(front, world), last, world);
      }
    }
  }

  lemma ListedMember(ws: seq<Waiter>, wait: nat)
    ensures Listed(ws, wait) <==> exists w :: w in ws && w.wait == wait
  {
    if w :| w in ws && w.wait == wait {
      var i :| 0 <= i < |ws| && ws[i] == w;
    }
    if Listed(ws, wait) {
      var i :| 0 <= i < |ws| && ws[i].wait == wait;
      assert ws[i] in ws;
    }
  }

  lemma SweepAllListed(ws: seq<Waiter>, world: World)
    requires AllListed(ws, world)
    ensures AllListed(Sweep(ws, world), world)
  {
    SweepExact(ws, world);
    forall w: nat | w < |world| && world[w].Alive()
      ensures Listed(Sweep(ws, world), w)
    {
      ListedMember(ws, w);
      ListedMember(Sweep(ws, world), w);
    }
  }

  lemma ReservedCons(w: Waiter, ws: seq<Waiter>)
    ensures Reserved([w] + ws) == Reserved(ws) + if w.reserved then 1 else 0
    decreases |ws|
  {
    if ws == [] {
      assert [w] + ws == [w] && [w][..0] == [];
    } else {
      ReservedCons(w, ws[..|ws| - 1]);
      assert ([w] + ws)[..|ws|] == [w] + ws[..|ws| - 1];
    }
  }

  lemma {:induction false} ReservedAll(ws: seq<Waiter>)
    requires forall i :: 0 <= i < |ws| ==> ws[i].reserved
    ensures Reserved(ws) == |ws|
  {
    if ws != [] {
      ReservedAll(ws[..|ws| - 1]);
    }
  }

  lemma WaitersTail(ws: seq<Waiter>, world: World)
    requires WaitersOk(ws, world) && ws != []
    ensures WaitersOk(ws[1..], world)
  {
  }

  /** What a handout does: one more reservation if somebody took it; and if nobody did, then nobody
      without a reservation is left. */
  lemma {:induction false} GrantExact(ws: seq<Waiter>, world: World)
    requires WaitersOk(ws, world)
    ensures var g := Grant(ws, world);
      && Reserved(g.waiters) == Reserved(ws) + (if g.taken then 1 else 0)
      && (!g.taken ==> g.world == world && forall i :: 0 <= i < |g.waiters| ==> g.waiters[i].reserved)
      && |g.world| == |world|
  {
    if ws != [] {
      assert ws == [ws[0]] + ws[1..];
      ReservedCons(ws[0], ws[1..]);
      WaitersTail(ws, world);
      if ws[0].reserved {
        GrantExact(ws[1..], world);
        ReservedCons(ws[0], Grant(ws[1..], world).waiters);
      } else if Wakeable(world, ws[0]) {
        ReservedCons(ws[0].(reserved := true), ws[1..]);
      } else {
        GrantExact(ws[1..], world);
      }
    }
  }

  lemma ListedTail(ws: seq<Waiter>, wait: nat)
    requires ws != []
    ensures Listed(ws, wait) <==> ws[0].wait == wait || Listed(ws[1..], wait)
  {
    if Listed(ws[1..], wait) {
      var i :| 0 <= i < |ws[1..]| && ws[1..][i].wait == wait;
      assert ws[i + 1].wait == wait;
    }
    if i :| 0 < i < |ws| && ws[i].wait == wait {
      assert ws[1..][i - 1].wait == wait;
    }
  }

  /** Who is listed after a handout was listed before. */
  lemma {:induction false} GrantMembers(ws: seq<Waiter>, world: World, w: nat)
    ensures Listed(Grant(ws, world).waiters, w) ==> Listed(ws, w)
  {
    if ws != [] {
      var after := Grant(ws, world).waiters;
      ListedTail(ws, w);
      if ws[0].reserved {
        GrantMembers(ws[1..], world, w);
        ListedTail(after, w);
        assert after[1..] == Grant(ws[1..], world).waiters;
      } else if Wakeable(world, ws[0]) {
        ListedTail(after, w);
        assert after[1..] == ws[1..];
      } else {
        GrantMembers(ws[1..], world, w);
      }
    }
  }

  /** The world changes only by waking one of the listed. */
  lemma {:induction false} GrantWorld(ws: seq<Waiter>, world: World)
    ensures var g := Grant(ws, world);
      && |g.world| == |world|
      && (forall w: nat :: w < |world| ==>
        g.world[w] == world[w] || (world[w].Parked? && g.world[w].Woken? && Listed(ws, w)))
  {
    if ws != [] {
      if ws[0].reserved || !Wakeable(world, ws[0]) {
        GrantWorld(ws[1..], world);
        forall w: nat
          ensures Listed(ws[1..], w) ==> Listed(ws, w)
        {
          ListedTail(ws, w);
        }
      }
    }
  }

  /** One more waiter in front of the others. */
  lemma WaitersCons(w: Waiter, ws: seq<Waiter>, world: World)
    requires WaitersOk(ws, world) && Fits(world, w)
    requires forall i :: 0 <= i < |ws| ==> w.wait < ws[i].wait && (ws[i].reserved ==> w.reserved)
    ensures WaitersOk([w] + ws, world)
  {
  }

  lemma {:induction false} GrantKeeps(ws: seq<Waiter>, world: World)
    requires WaitersOk(ws, world)
    ensures WaitersOk(Grant(ws, world).waiters, Grant(ws, world).world)
  {
    if ws != [] {
      WaitersTail(ws, world);
      if ws[0].reserved {
        var rest := Grant(ws[1..], world);
        GrantKeeps(ws[1..], world);
        GrantWorld(ws[1..], world);
        assert Fits(world, ws[0]);
        LaterAfterGrant(ws, world);
        WaitersCons(ws[0], rest.waiters, rest.world);
      } else if Wakeable(world, ws[0]) {
        GrantFirst(ws, world);
      } else {
        GrantKeeps(ws[1..], world);
      }
    }
  }

  lemma LaterAfterGrant(ws: seq<Waiter>, world: World)
    requires WaitersOk(ws, world) && ws != []
    ensures var rest := Grant(ws[1..], world).waiters; forall i :: 0 <= i < |rest| ==> ws[0].wait < rest[i].wait
  {
    var rest := Grant(ws[1..], world).waiters;
    forall i | 0 <= i < |rest|
      ensures ws[0].wait < rest[i].wait
    {
      GrantMembers(ws[1..], world, rest[i].wait);
      assert Listed(rest, rest[i].wait);
      var j :| 0 <= j < |ws[1..]| && ws[1..][j].wait == rest[i].wait;
      assert ws[j + 1].wait == rest[i].wait;
    }
  }

  lemma GrantFirst(ws: seq<Waiter>, world: World)
    requires WaitersOk(ws, world) && ws != [] && !ws[0].reserved && Wakeable(world, ws[0])
    ensures WaitersOk([ws[0].(reserved := true)] + ws[1..], Wake(world, ws[0].wait))
  {
    var after, w := Wake(world, ws[0].wait), ws[0].(reserved := true);
    forall i | 0 <= i < |ws[1..]|
      ensures Fits(after, ws[1..][i]) && w.wait < ws[1..][i].wait && !ws[1..][i].reserved
    {
      assert Fits(world, ws[i + 1]);
    }
    WaitersCons(w, ws[1..], after);
  }

  /** Waiter w is parked and arrived before every other one that is. */
  ghost predicate FirstParked(world: World, w: nat) {
    w < |world| && world[w].Parked? && forall v: nat :: v < w ==> !world[v].Parked?
  }

  ghost predicate SomeParked(world: World) {
    exists w: nat :: w < |world| && world[w].Parked?
  }

  lemma HeadIsFirst(ws: seq<Waiter>, world: World, v: nat)
    requires WaitersOk(ws, world) && ws != [] && v < ws[0].wait
    ensures !Listed(ws, v)
  {
    assert forall i :: 0 < i < |ws| ==> ws[0].wait < ws[i].wait;
  }

  /** A handout goes to the waiter who arrived first among those still parked, if there is one. */
  lemma {:induction false} GrantPicks(ws: seq<Waiter>, world: World)
    requires WaitersOk(ws, world)
    requires forall w: nat :: w < |world| && world[w].Parked? ==> Listed(ws, w)
    ensures var g := Grant(ws, world);
      && (g.taken <==> SomeParked(world))
      && (g.taken ==> exists w :: FirstParked(world, w) && g.world == Wake(world, w))
  {
    if ws != [] {
      WaitersTail(ws, world);
      assert Fits(world, ws[0]);
      if ws[0].reserved || !Wakeable(world, ws[0]) {
        forall w: nat | w < |world| && world[w].Parked?
          ensures Listed(ws[1..], w)
        {
          ListedTail(ws, w);
        }
        GrantPicks(ws[1..], world);
      } else {
        forall v: nat | v < ws[0].wait
          ensures !world[v].Parked?
        {
          HeadIsFirst(ws, world, v);
        }
        assert FirstParked(world, ws[0].wait);
      }
    }
  }

  lemma {:induction false} GrantAllListed(ws: seq<Waiter>, world: World, w: nat)
    requires WaitersOk(ws, world) && Listed(ws, w) && w < |world| && world[w].Alive()
    ensures Listed(Grant(ws, world).waiters, w)
  {
    var i :| 0 <= i < |ws| && ws[i].wait == w;
    var g := Grant(ws, world);
    if ws[0].reserved || !Wakeable(world, ws[0]) {
      if i == 0 {
        assert Fits(world, ws[0]);
        assert g.waiters[0].wait == w;
      } else {
        assert ws[1..][i - 1].wait == w;
        WaitersTail(ws, world);
        GrantAllListed(ws[1..], world, w);
        var rest := Grant(ws[1..], world).waiters;
        var j :| 0 <= j < |rest| && rest[j].wait == w;
        assert g.waiters[if ws[0].reserved then j + 1 else j].wait == w;
      }
    } else {
      assert g.waiters[i].wait == w;
    }
  }

  /** Nobody is woken while somebody who arrived earlier is still parked. */
  lemma ServedInOrder(ws: seq<Waiter>, world: World, v: nat, w: nat)
    requires WaitersOk(ws, world) && AllListed(ws, world) && v < w < |world| && world[w].Woken?
    ensures !world[v].Parked?
  {
    assert Listed(ws, w);
    var j :| 0 <= j < |ws| && ws[j].wait == w;
    assert Fits(world, ws[j]);
    forall i | 0 <= i < |ws| && ws[i].wait == v
      ensures !world[v].Parked?
    {
      assert Fits(world, ws[i]) && ws[i].wait < ws[j].wait;
    }
    assert world[v].Parked? ==> Listed(ws, v);
  }

  lemma FindListed(ws: seq<Waiter>, wait: nat)
    ensures Listed(ws, wait) <==> Find(ws, wait) < |ws|
  {
  }

  lemma {:induction false} WithoutCount(ws: seq<Waiter>, i: nat)
    requires i < |ws|
    ensures Reserved(ws) == Reserved(Without(ws, i)) + if ws[i].reserved then 1 else 0
  {
    var n := |ws| - 1;
    if i == n {
      assert Without(ws, i) == ws[..n];
    } else {
      WithoutCount(ws[..n], i);
      assert Without(ws, i)[..n - 1] == Without(ws[..n], i);
    }
  }

  lemma WithoutMembers(ws: seq<Waiter>, i: nat, w: nat)
    requires i < |ws| && forall a, b :: 0 <= a < b < |ws| ==> ws[a].wait < ws[b].wait
    ensures Listed(Without(ws, i), w) <==> Listed(ws, w) && w != ws[i].wait
  {
    var r := Without(ws, i);
    assert forall k :: 0 <= k < |r| ==> r[k] == ws[if k < i then k else k + 1];
    if Listed(ws, w) && w != ws[i].wait {
      var k :| 0 <= k < |ws| && ws[k].wait == w;
      assert r[if k < i then k else k - 1].wait == w;
    }
  }

  lemma WithoutOk(ws: seq<Waiter>, i: nat, world: World)
    requires i < |ws| && WaitersOk(ws, world)
    ensures WaitersOk(Without(ws, i), world)
  {
    var r := Without(ws, i);
    forall k | 0 <= k < |r|
      ensures r[k] == ws[if k < i then k else k + 1] && Fits(world, r[k])
    {
    }
  }

  /** Removing a waiter from the list. */
  lemma WithoutExact(ws: seq<Waiter>, i: nat, world: World)
    requires i < |ws| && WaitersOk(ws, world)
    ensures WaitersOk(Without(ws, i), world)
    ensures Reserved(ws) == Reserved(Without(ws, i)) + if ws[i].reserved then 1 else 0
    ensures forall w: nat :: Listed(Without(ws, i), w) <==> Listed(ws, w) && w != ws[i].wait
  {
    WithoutOk(ws, i, world);
    WithoutCount(ws, i);
    forall w: nat
      ensures Listed(Without(ws, i), w) <==> Listed(ws, w) && w != ws[i].wait
    {
      WithoutMembers(ws, i, w);
    }
  }

  /** A new waiter at the end of the list. */
  lemma ArriveExact(ws: seq<Waiter>, world: World)
    requires WaitersOk(ws, world)
    ensures var more := ws + [Waiter(|world|, false)];
      && WaitersOk(more, world + [Parked]) && Reserved(more) == Reserved(ws)
      && (AllListed(ws, world) ==> AllListed(more, world + [Parked]))
  {
    var more, after := ws + [Waiter(|world|, false)], world + [Parked];
    assert more[..|ws|] == ws;
    forall i | 0 <= i < |more|
      ensures Fits(after, more[i])
    {
      assert i < |ws| ==> Fits(world, ws[i]);
    }
    assert forall i :: 0 <= i < |ws| ==> ws[i].wait < |world| by {
      assert forall i :: 0 <= i < |ws| ==> Fits(world, ws[i]);
    }
    if AllListed(ws, world) {
      forall w: nat | w < |after| && after[w].Alive()
        ensures Listed(more, w)
      {
        if w < |world| {
          assert Listed(ws, w);
          var i :| 0 <= i < |ws| && ws[i].wait == w;
          assert more[i].wait == w;
        } else {
          assert more[|ws|].wait == w;
        }
      }
    }
  }

  /** A waiter is cancelled, wherever it is in the list. */
  lemma CancelledKeeps(ws: seq<Waiter>, world: World, w: nat)
    requires WaitersOk(ws, world) && w < |world| && world[w].Alive()
    ensures WaitersOk(ws, world[w := Gone]) && (AllListed(ws, world) ==> AllListed(ws, world[w := Gone]))
  {
    forall i | 0 <= i < |ws|
      ensures Fits(world[w := Gone], ws[i])
    {
      assert Fits(world, ws[i]);
    }
  }

  /** A woken waiter is in the list, holds a reservation, and can be taken off when it runs. */
  lemma ResumedKeeps(ws: seq<Waiter>, world: World, w: nat)
    requires WaitersOk(ws, world) && AllListed(ws, world) && w < |world| && world[w].Woken?
    ensures var i := Find(ws, w);
      && i < |ws| && ws[i].reserved
      && WaitersOk(Without(ws, i), world[w := Resumed]) && AllListed(Without(ws, i), world[w := Resumed])
      && Reserved(ws) == Reserved(Without(ws, i)) + 1
  {
    FindListed(ws, w);
    var i := Find(ws, w);
    assert Listed(ws, w);
    assert Fits(world, ws[i]);
    WithoutExact(ws, i, world);
    var r, after := Without(ws, i), world[w := Resumed];
    forall k | 0 <= k < |r|
      ensures Fits(after, r[k])
    {
      assert Fits(world, r[k]);
      assert Listed(r, r[k].wait);
    }
  }

  /** A cancelled waiter that is still in the list is taken off by its destructor. */
  lemma AbandonedKeeps(ws: seq<Waiter>, world: World, w: nat)
    requires WaitersOk(ws, world) && w < |world| && world[w].Gone? && Find(ws, w) < |ws|
    ensures var i := Find(ws, w);
      && WaitersOk(Without(ws, i), world) && (AllListed(ws, world) ==> AllListed(Without(ws, i), world))
      && Reserved(ws) == Reserved(Without(ws, i)) + if ws[i].reserved then 1 else 0
  {
    WithoutExact(ws, Find(ws, w), world);
  }

  // ---------------------------------------------------------------------------------------------
  // Handing out several things at once, without dropping anybody
  // ---------------------------------------------------------------------------------------------

  datatype Handouts = Handouts(waiters: seq<Waiter>, world: World, count: nat)

  /** Reserve one thing for each waiter without one, as long as there are any; whoever cannot be woken
      keeps his place. */
  function GrantEach(ws: seq<Waiter>, world: World, supply: int): Handouts {
    if ws == [] || supply <= 0 then Handouts(ws, world, 0)
    else if ws[0].reserved || !Wakeable(world, ws[0]) then
      var rest := GrantEach(ws[1..], world, supply);
      rest.(waiters := [ws[0]] + rest.waiters)
    else
      var rest := GrantEach(ws[1..], Wake(world, ws[0].wait), supply - 1);
      Handouts([ws[0].(reserved := true)] + rest.waiters, rest.world, rest.count + 1)
  }

  ghost predicate AllAlive(ws: seq<Waiter>, world: World) {
    forall i :: 0 <= i < |ws| ==> Lives(world, ws[i])
  }

  lemma SweepAlive(ws: seq<Waiter>, world: World)
    ensures AllAlive(Sweep(ws, world), world)
  {
    SweepExact(ws, world);
    var swept := Sweep(ws, world);
    forall i | 0 <= i < |swept|
      ensures Lives(world, swept[i])
    {
      assert swept[i] in swept;
    }
  }

  lemma {:induction false} GrantEachAlive(ws: seq<Waiter>, world: World, supply: int)
    ensures var g := GrantEach(ws, world, supply);
      |g.world| == |world| && forall w: nat :: w < |world| ==> (g.world[w].Alive() <==> world[w].Alive())
  {
    if ws != [] && supply > 0 {
      if ws[0].reserved || !Wakeable(world, ws[0]) {
        GrantEachAlive(ws[1..], world, supply);
      } else {
        GrantEachAlive(ws[1..], Wake(world, ws[0].wait), supply - 1);
      }
    }
  }

  /** The world changes only by waking some that were parked. */
  lemma {:induction false} GrantEachWorld(ws: seq<Waiter>, world: World, supply: int)
    ensures OnlyWoken(world, GrantEach(ws, world, supply).world)
  {
    if ws != [] && supply > 0 {
      if ws[0].reserved || !Wakeable(world, ws[0]) {
        GrantEachWorld(ws[1..], world, supply);
      } else {
        GrantEachWorld(ws[1..], Wake(world, ws[0].wait), supply - 1);
      }
    }
  }

  lemma {:induction false} GrantEachCount(ws: seq<Waiter>, world: World, supply: int)
    ensures var g := GrantEach(ws, world, supply);
      Reserved(g.waiters) == Reserved(ws) + g.count && (g.count > 0 ==> g.count <= supply)
  {
    if ws != [] && supply > 0 {
      assert ws == [ws[0]] + ws[1..];
      ReservedCons(ws[0], ws[1..]);
      if ws[0].reserved || !Wakeable(world, ws[0]) {
        GrantEachCount(ws[1..], world, supply);
        ReservedCons(ws[0], GrantEach(ws[1..], world, supply).waiters);
      } else {
        var woken := Wake(world, ws[0].wait);
        GrantEachCount(ws[1..], woken, supply - 1);
        ReservedCons(ws[0].(reserved := true), GrantEach(ws[1..], woken, supply - 1).waiters);
      }
    }
  }

  /** Among living waiters everybody is served, unless the supply is used up. */
  lemma {:induction false} GrantEachServes(ws: seq<Waiter>, world: World, supply: int)
    requires WaitersOk(ws, world) && AllAlive(ws, world)
    ensures var g := GrantEach(ws, world, supply);
      g.count < supply ==> forall i :: 0 <= i < |g.waiters| ==> g.waiters[i].reserved
  {
    if ws != [] && supply > 0 {
      WaitersTail(ws, world);
      assert Fits(world, ws[0]) && Lives(world, ws[0]);
      if ws[0].reserved {
        assert AllAlive(ws[1..], world);
        GrantEachServes(ws[1..], world, supply);
        assert GrantEach(ws, world, supply).waiters == [ws[0]] + GrantEach(ws[1..], world, supply).waiters;
      } else {
        var woken := Wake(world, ws[0].wait);
        RestUntouched(ws, world);
        GrantEachServes(ws[1..], woken, supply - 1);
        assert GrantEach(ws, world, supply).waiters
            == [ws[0].(reserved := true)] + GrantEach(ws[1..], woken, supply - 1).waiters;
      }
    }
  }

  lemma RestUntouched(ws: seq<Waiter>, world: World)
    requires WaitersOk(ws, world) && AllAlive(ws, world) && ws != [] && !ws[0].reserved
    ensures var woken := Wake(world, ws[0].wait);
      WaitersOk(ws[1..], woken) && AllAlive(ws[1..], woken) && Fits(woken, ws[0].(reserved := true))
  {
    var woken := Wake(world, ws[0].wait);
    assert Fits(world, ws[0]) && Lives(world, ws[0]);
    forall i | 0 <= i < |ws[1..]|
      ensures Fits(woken, ws[1..][i]) && Lives(woken, ws[1..][i])
    {
      assert Fits(world, ws[i + 1]) && Lives(world, ws[i + 1]);
    }
  }

  /** The waiters stay the same, in the same order. */
  lemma {:induction false} GrantEachSame(ws: seq<Waiter>, world: World, supply: int)
    ensures var g := GrantEach(ws, world, supply).waiters;
      |g| == |ws| && forall i :: 0 <= i < |ws| ==> g[i].wait == ws[i].wait && (ws[i].reserved ==> g[i].reserved)
  {
    if ws != [] && supply > 0 {
      if ws[0].reserved || !Wakeable(world, ws[0]) {
        GrantEachSame(ws[1..], world, supply);
      } else {
        GrantEachSame(ws[1..], Wake(world, ws[0].wait), supply - 1);
      }
    }
  }

  /** Serving others does not touch the wait of this one. */
  lemma {:induction false} GrantEachOthers(ws: seq<Waiter>, world: World, supply: int, w: Waiter)
    requires Fits(world, w) && forall i :: 0 <= i < |ws| ==> w.wait < ws[i].wait
    ensures Fits(GrantEach(ws, world, supply).world, w)
  {
    if ws != [] && supply > 0 {
      if ws[0].reserved || !Wakeable(world, ws[0]) {
        GrantEachOthers(ws[1..], world, supply, w);
      } else {
        GrantEachOthers(ws[1..], Wake(world, ws[0].wait), supply - 1, w);
      }
    }
  }

  /** Serving the rest keeps them behind the first. */
  lemma GrantEachBehind(w: Waiter, ws: seq<Waiter>, world: World, supply: int)
    requires Fits(world, w) && (forall i :: 0 <= i < |ws| ==> w.wait < ws[i].wait) && w.reserved
    requires var g := GrantEach(ws, world, supply); WaitersOk(g.waiters, g.world)
    ensures var g := GrantEach(ws, world, supply); WaitersOk([w] + g.waiters, g.world)
  {
    var g := GrantEach(ws, world, supply);
    GrantEachSame(ws, world, supply);
    GrantEachOthers(ws, world, supply, w);
    WaitersCons(w, g.waiters, g.world);
  }

  lemma HeadAndTail(ws: seq<Waiter>, world: World)
    requires WaitersOk(ws, world) && AllAlive(ws, world) && ws != []
    ensures WaitersOk(ws[1..], world) && AllAlive(ws[1..], world)
    ensures Fits(world, ws[0]) && Lives(world, ws[0])
    ensures forall i :: 0 <= i < |ws[1..]| ==> ws[0].wait < ws[1..][i].wait
  {
  }

  lemma {:induction false} GrantEachKeeps(ws: seq<Waiter>, world: World, supply: int)
    requires WaitersOk(ws, world) && AllAlive(ws, world)
    ensures var g := GrantEach(ws, world, supply); WaitersOk(g.waiters, g.world)
  {
    hide WaitersOk, AllAlive;
    if ws != [] && supply > 0 {
      HeadAndTail(ws, world);
      if ws[0].reserved {
        GrantEachKeeps(ws[1..], world, supply);
        GrantEachBehind(ws[0], ws[1..], world, supply);
      } else {
        var woken := Wake(world, ws[0].wait);
        RestUntouched(ws, world);
        GrantEachKeeps(ws[1..], woken, supply - 1);
        GrantEachBehind(ws[0].(reserved := true), ws[1..], woken, supply - 1);
      }
    }
  }

  lemma GrantEachListed(ws: seq<Waiter>, world: World, supply: int)
    requires WaitersOk(ws, world) && AllAlive(ws, world) && AllListed(ws, world)
    ensures var g := GrantEach(ws, world, supply); AllListed(g.waiters, g.world)
  {
    var g := GrantEach(ws, world, supply);
    GrantEachAlive(ws, world, supply);
    GrantEachSame(ws, world, supply);
    forall w: nat | w < |g.world| && g.world[w].Alive()
      ensures Listed(g.waiters, w)
    {
      assert Listed(ws, w);
      var i :| 0 <= i < |ws| && ws[i].wait == w;
      assert g.waiters[i].wait == w;
    }
  }

  // ---------------------------------------------------------------------------------------------
  // The list and the scheduler as objects
  // ---------------------------------------------------------------------------------------------

  /** Waiters that already hold a reservation are passed over. */
  lemma {:induction false} GrantPrefix(first: seq<Waiter>, rest: seq<Waiter>, world: World)
    requires forall i :: 0 <= i < |first| ==> first[i].reserved
    ensures var g := Grant(rest, world); Grant(first + rest, world) == g.(waiters := first + g.waiters)
  {
    if first == [] {
      assert first + rest == rest && forall ws: seq<Waiter> :: [] + ws == ws;
    } else {
      assert (first + rest)[1..] == first[1..] + rest;
      GrantPrefix(first[1..], rest, world);
      var g := Grant(rest, world);
      assert [first[0]] + (first[1..] + g.waiters) == first + g.waiters;
    }
  }

  /** The part of the scheduler that external waits see. */
  class WaitTable {
    var world: World

    constructor ()
      ensures world == []
    {
      world := [];
    }

    method Park() returns (wait: nat)
      modifies this
      ensures wait == old(|world|) && world == old(world) + [Parked]
    {
      wait := |world|;
      world := world + [Parked];
    }

    method IsAlive(wait: nat) returns (alive: bool)
      ensures alive <==> wait < |world| && world[wait].Alive()
    {
      alive := wait < |world| && world[wait].Alive();
    }

    method WakeExternal(wait: nat) returns (woken: bool)
      modifies this
      ensures woken <==> wait < old(|world|) && old(world)[wait].Parked?
      ensures world == Wake(old(world), wait)
    {
      woken := wait < |world| && world[wait].Parked?;
      if woken {
        world := world[wait := Woken];
      }
    }
  }

  /** What the first waiter without a reservation means for a handout. */
  lemma GrantAt(ws: seq<Waiter>, i: nat, world: World)
    requires i < |ws| && !ws[i].reserved && forall k :: 0 <= k < i ==> ws[k].reserved
    ensures Wakeable(world, ws[i]) ==>
      Grant(ws, world) == Handout(ws[i := ws[i].(reserved := true)], Wake(world, ws[i].wait), true)
    ensures !Wakeable(world, ws[i]) ==> Grant(ws, world) == Grant(Without(ws, i), world)
  {
    var first, rest := ws[..i], ws[i..];
    assert ws == first + rest && rest[1..] == ws[i + 1..];
    GrantPrefix(first, rest, world);
    if Wakeable(world, ws[i]) {
      assert first + ([ws[i].(reserved := true)] + rest[1..]) == ws[i := ws[i].(reserved := true)];
    } else {
      GrantPrefix(first, rest[1..], world);
    }
  }

  /** Hands one thing out: the loop that `Semaphore::dispatch` and `Lock::handoff_or_unlock` share. */
  method HandOut(waiters: seq<Waiter>, table: WaitTable) returns (after: seq<Waiter>, taken: bool)
    modifies table
    ensures Handout(after, table.world, taken) == Grant(waiters, old(table.world))
  {
    after := waiters;
    taken := false;
    var i := 0;
    while i < |after| && !taken
      invariant i <= |after| && forall k :: 0 <= k < i ==> after[k].reserved
      invariant !taken ==> table.world == old(table.world) && Grant(after, table.world) == Grant(waiters, table.world)
      invariant taken ==> Handout(after, table.world, true) == Grant(waiters, old(table.world))
      decreases |after| - i, !taken
    {
      if after[i].reserved {
        i := i + 1;
      } else {
        GrantAt(after, i, table.world);
        taken := table.WakeExternal(after[i].wait);
        if taken {
          after := after[i := after[i].(reserved := true)];
        } else {
          after := after[..i] + after[i + 1..];
        }
      }
    }
    if !taken {
      GrantPrefix(after, [], table.world);
      assert after + [] == after;
    }
  }

  /** The outcome when the waiters in `first` have been dealt with and `count` of them were served. */
  ghost function Chain(first: seq<Waiter>, rest: seq<Waiter>, world: World, supply: int, count: nat): Handouts {
    var g := GrantEach(rest, world, supply - count);
    Handouts(first + g.waiters, g.world, count + g.count)
  }

  lemma ChainSkip(first: seq<Waiter>, rest: seq<Waiter>, world: World, supply: int, count: nat)
    requires rest != [] && supply - count > 0 && (rest[0].reserved || !Wakeable(world, rest[0]))
    ensures Chain(first, rest, world, supply, count) == Chain(first + [rest[0]], rest[1..], world, supply, count)
  {
    var g := GrantEach(rest[1..], world, supply - count);
    assert first + ([rest[0]] + g.waiters) == (first + [rest[0]]) + g.waiters;
  }

  lemma ChainServe(first: seq<Waiter>, rest: seq<Waiter>, world: World, supply: int, count: nat)
    requires rest != [] && supply - count > 0 && !rest[0].reserved && Wakeable(world, rest[0])
    ensures Chain(first, rest, world, supply, count)
         == Chain(first + [rest[0].(reserved := true)], rest[1..], Wake(world, rest[0].wait), supply, count + 1)
  {
    var w := rest[0].(reserved := true);
    var g := GrantEach(rest[1..], Wake(world, rest[0].wait), supply - count - 1);
    assert first + ([w] + g.waiters) == (first + [w]) + g.waiters;
  }

  /** Hands out up to `supply` things: the loop of `Queue::wake_consumers` and `Queue::wake_producers`. */
  method HandOutEach(waiters: seq<Waiter>, table: WaitTable, supply: int) returns (after: seq<Waiter>, count: nat)
    modifies table
    ensures Handouts(after, table.world, count) == GrantEach(waiters, old(table.world), supply)
  {
    after := [];
    count := 0;
    var i := 0;
    assert waiters[0..] == waiters;
    while i < |waiters| && supply - count > 0
      invariant i <= |waiters| && |after| == i
      invariant Chain(after, waiters[i..], table.world, supply, count) == GrantEach(waiters, old(table.world), supply)
    {
      ghost var rest := waiters[i..];
      assert rest[1..] == waiters[i + 1..];
      if waiters[i].reserved {
        ChainSkip(after, rest, table.world, supply, count);
        after := after + [waiters[i]];
      } else {
        ghost var world := table.world;
        var woken := table.WakeExternal(waiters[i].wait);
        if woken {
          ChainServe(after, rest, world, supply, count);
          after := after + [waiters[i].(reserved := true)];
          count := count + 1;
        } else {
          ChainSkip(after, rest, world, supply, count);
          after := after + [waiters[i]];
        }
      }
      i := i + 1;
    }
    after := after + waiters[i..];
  }

  /** The liveness sweep, and how many reservations it frees. */
  method SweepOut(waiters: seq<Waiter>, table: WaitTable) returns (after: seq<Waiter>, returned: nat)
    ensures after == Sweep(waiters, table.world) && returned == Returned(waiters, table.world)
  {
    after := [];
    returned := 0;
    for i := 0 to |waiters|
      invariant after == Sweep(waiters[..i], table.world) && returned == Returned(waiters[..i], table.world)
    {
      assert waiters[..i + 1][..i] == waiters[..i];
      var alive := table.IsAlive(waiters[i].wait);
      if alive {
        after := after + [waiters[i]];
      } else if waiters[i].reserved {
        returned := returned + 1;
      }
    }
    assert waiters[..|waiters|] == waiters;
  }

  method Search(waiters: seq<Waiter>, wait: nat) returns (i: nat)
    ensures i == Find(waiters, wait)
  {
    i := 0;
    while i < |waiters| && waiters[i].wait != wait
      invariant i <= |waiters| && Find(waiters, wait) == i + Find(waiters[i..], wait)
    {
      assert waiters[i..][1..] == waiters[i + 1..];
      i := i + 1;
    }
  }
}
