/** `CoverageSnapshot::merge`: adding the counters of two runs of one coverage model. */
module Snapshots {
  import opened Registrations
  import Coverpoints
  import Crosses

  datatype BinRow = BinRow(name: string, kind: Coverpoints.Kind, hits: nat)

  datatype PointRow = PointRow(name: string, samples: nat, illegalHits: nat, bins: seq<BinRow>)

  datatype CrossBinRow = CrossBinRow(bins: seq<string>, hits: nat)

  datatype CrossRow = CrossRow(name: string, points: seq<string>, ignored: seq<string>, illegal: seq<string>,
                               illegalHits: nat, bins: seq<CrossBinRow>)

  datatype Snapshot = Snapshot(name: string, samples: nat, illegalHits: nat, points: seq<PointRow>,
                               crosses: seq<CrossRow>)

  predicate SameBin(a: BinRow, b: BinRow) {
    a.name == b.name && a.kind == b.kind
  }

  predicate SamePoint(a: PointRow, b: PointRow) {
    a.name == b.name && |a.bins| == |b.bins| && forall i :: 0 <= i < |a.bins| ==> SameBin(a.bins[i], b.bins[i])
  }

  predicate SameCross(a: CrossRow, b: CrossRow) {
    && a.name == b.name && a.points == b.points && a.ignored == b.ignored && a.illegal == b.illegal
    && |a.bins| == |b.bins| && forall i :: 0 <= i < |a.bins| ==> a.bins[i].bins == b.bins[i].bins
  }

  /** Two snapshots of one model: they differ in counters only. */
  predicate SameModel(a: Snapshot, b: Snapshot) {
    && a.name == b.name && |a.points| == |b.points| && |a.crosses| == |b.crosses|
    && (forall i :: 0 <= i < |a.points| ==> SamePoint(a.points[i], b.points[i]))
    && (forall i :: 0 <= i < |a.crosses| ==> SameCross(a.crosses[i], b.crosses[i]))
  }

  function AddPoint(a: PointRow, b: PointRow): PointRow
    requires SamePoint(a, b)
  {
    PointRow(a.name, a.samples + b.samples, a.illegalHits + b.illegalHits,
             seq(|a.bins|, i requires 0 <= i < |a.bins| => a.bins[i].(hits := a.bins[i].hits + b.bins[i].hits)))
  }

  /** The illegal count of a cross is not among the counters that are added. */
  function AddCross(a: CrossRow, b: CrossRow): CrossRow
    requires SameCross(a, b)
  {
    a.(bins := seq(|a.bins|, i requires 0 <= i < |a.bins| => a.bins[i].(hits := a.bins[i].hits + b.bins[i].hits)))
  }

  function Added(a: Snapshot, b: Snapshot): Snapshot
    requires SameModel(a, b)
  {
    Snapshot(a.name, a.samples + b.samples, a.illegalHits + b.illegalHits,
             seq(|a.points|, i requires 0 <= i < |a.points| => AddPoint(a.points[i], b.points[i])),
             seq(|a.crosses|, i requires 0 <= i < |a.crosses| => AddCross(a.crosses[i], b.crosses[i])))
  }

  // ---------------------------------------------------------------------------------------------
  // Laws
  // ---------------------------------------------------------------------------------------------

  lemma SameModelChain(a: Snapshot, b: Snapshot, c: Snapshot)
    requires SameModel(a, b) && SameModel(b, c)
    ensures SameModel(a, c) && SameModel(Added(a, b), c) && SameModel(a, Added(b, c))
  {
    forall i | 0 <= i < |a.points|
      ensures SamePoint(a.points[i], c.points[i]) && SamePoint(AddPoint(a.points[i], b.points[i]), c.points[i])
        && SamePoint(a.points[i], AddPoint(b.points[i], c.points[i]))
    {
      assert SamePoint(a.points[i], b.points[i]) && SamePoint(b.points[i], c.points[i]);
    }
    forall i | 0 <= i < |a.crosses|
      ensures SameCross(a.crosses[i], c.crosses[i]) && SameCross(AddCross(a.crosses[i], b.crosses[i]), c.crosses[i])
        && SameCross(a.crosses[i], AddCross(b.crosses[i], c.crosses[i]))
    {
      assert SameCross(a.crosses[i], b.crosses[i]) && SameCross(b.crosses[i], c.crosses[i]);
    }
  }

  /** Merging any number of runs gives the same in whatever grouping. */
  lemma MergeGroups(a: Snapshot, b: Snapshot, c: Snapshot)
    requires SameModel(a, b) && SameModel(b, c)
    ensures SameModel(Added(a, b), c) && SameModel(a, Added(b, c))
    ensures Added(Added(a, b), c) == Added(a, Added(b, c))
  {
    SameModelChain(a, b, c);
    var l, r := Added(Added(a, b), c), Added(a, Added(b, c));
    forall i | 0 <= i < |a.points|
      ensures l.points[i] == r.points[i]
    {
      PointGroups(a.points[i], b.points[i], c.points[i]);
    }
    forall i | 0 <= i < |a.crosses|
      ensures l.crosses[i] == r.crosses[i]
    {
      CrossGroups(a.crosses[i], b.crosses[i], c.crosses[i]);
    }
    assert l.points == r.points && l.crosses == r.crosses;
  }

  lemma PointGroups(a: PointRow, b: PointRow, c: PointRow)
    requires SamePoint(a, b) && SamePoint(b, c)
    ensures SamePoint(AddPoint(a, b), c) && SamePoint(a, AddPoint(b, c))
    ensures AddPoint(AddPoint(a, b), c) == AddPoint(a, AddPoint(b, c))
  {
    assert AddPoint(AddPoint(a, b), c).bins == AddPoint(a, AddPoint(b, c)).bins;
  }

  lemma CrossGroups(a: CrossRow, b: CrossRow, c: CrossRow)
    requires SameCross(a, b) && SameCross(b, c)
    ensures SameCross(AddCross(a, b), c) && SameCross(a, AddCross(b, c))
    ensures AddCross(AddCross(a, b), c) == AddCross(a, AddCross(b, c))
  {
    assert AddCross(AddCross(a, b), c).bins == AddCross(a, AddCross(b, c)).bins;
  }

  /** Which run is merged into which makes no difference, but for the illegal counts of the crosses: those agree
      just when the two runs had the same ones. */
  lemma MergeSwaps(a: Snapshot, b: Snapshot)
    requires SameModel(a, b)
    ensures SameModel(b, a)
    ensures Added(a, b) == Added(b, a) <==>
      forall i :: 0 <= i < |a.crosses| ==> a.crosses[i].illegalHits == b.crosses[i].illegalHits
  {
    SwapModel(a, b);
    var l, r := Added(a, b), Added(b, a);
    forall i | 0 <= i < |a.points|
      ensures l.points[i] == r.points[i]
    {
      PointSwaps(a.points[i], b.points[i]);
    }
    assert l.points == r.points;
    forall i | 0 <= i < |a.crosses|
      ensures l.crosses[i] == r.crosses[i] <==> a.crosses[i].illegalHits == b.crosses[i].illegalHits
    {
      CrossSwaps(a.crosses[i], b.crosses[i]);
    }
  }

  lemma SwapModel(a: Snapshot, b: Snapshot)
    requires SameModel(a, b)
    ensures SameModel(b, a)
  {
    forall i | 0 <= i < |a.points|
      ensures SamePoint(b.points[i], a.points[i])
    {
      assert SamePoint(a.points[i], b.points[i]);
    }
    forall i | 0 <= i < |a.crosses|
      ensures SameCross(b.crosses[i], a.crosses[i])
    {
      assert SameCross(a.crosses[i], b.crosses[i]);
    }
  }

  lemma PointSwaps(a: PointRow, b: PointRow)
    requires SamePoint(a, b) && SamePoint(b, a)
    ensures AddPoint(a, b) == AddPoint(b, a)
  {
    forall i | 0 <= i < |a.bins|
      ensures AddPoint(a, b).bins[i] == AddPoint(b, a).bins[i]
    {
      assert SameBin(a.bins[i], b.bins[i]);
    }
    assert AddPoint(a, b).bins == AddPoint(b, a).bins;
  }

  lemma CrossSwaps(a: CrossRow, b: CrossRow)
    requires SameCross(a, b) && SameCross(b, a)
    ensures AddCross(a, b) == AddCross(b, a) <==> a.illegalHits == b.illegalHits
  {
    assert AddCross(a, b).bins == AddCross(b, a).bins;
  }

  /** A merged cross counts the illegal combinations of both runs only if the run merged in had none. */
  lemma CrossIllegalLost(a: Snapshot, b: Snapshot, i: nat)
    requires SameModel(a, b) && i < |a.crosses|
    ensures Added(a, b).crosses[i].illegalHits == a.crosses[i].illegalHits + b.crosses[i].illegalHits
       <==> b.crosses[i].illegalHits == 0
  {
    assert SameCross(a.crosses[i], b.crosses[i]);
  }

  /** The row that a run of a coverpoint reports, with names given to it and its bins. */
  function PointRunRow(bins: seq<Coverpoints.Bin>, offers: seq<Coverpoints.Offer>, name: string,
                       names: seq<string>): (r: PointRow)
    requires |names| == |bins|
  {
    var p := Coverpoints.Run(bins, offers);
    PointRow(name, p.samples, p.illegalHits,
             seq(|bins|, i requires 0 <= i < |bins| => BinRow(names[i], bins[i].kind, p.hits[i])))
  }

  /** Merging the rows of two runs of a coverpoint gives the counters of the one run that makes both, but for the
      transition from the one to the other: the rows agree exactly when that hits no bin. */
  lemma MergedPoints(bins: seq<Coverpoints.Bin>, one: seq<Coverpoints.Offer>, two: seq<Coverpoints.Offer>,
                     name: string, names: seq<string>)
    requires Coverpoints.WellMade(bins) && |names| == |bins|
    ensures var a, b := PointRunRow(bins, one, name, names), PointRunRow(bins, two, name, names);
      var c := PointRunRow(bins, one + two, name, names);
      var last, first := Coverpoints.Kept(one), Coverpoints.Kept(two);
      && SamePoint(a, b) && |c.bins| == |bins| && c.samples == AddPoint(a, b).samples
      && (forall i :: 0 <= i < |bins| ==>
        c.bins[i].hits == AddPoint(a, b).bins[i].hits + if Coverpoints.AcrossSeam(bins, last, first, i) then 1 else 0)
      && c.illegalHits == AddPoint(a, b).illegalHits + Coverpoints.SeamErrors(bins, last, first, |bins|)
      && (AddPoint(a, b) == c <==> forall i :: 0 <= i < |bins| ==> !Coverpoints.AcrossSeam(bins, last, first, i))
  {
    hide Coverpoints.Run, Coverpoints.AcrossSeam, Coverpoints.SeamErrors;
    var a, b := PointRunRow(bins, one, name, names), PointRunRow(bins, two, name, names);
    var c := PointRunRow(bins, one + two, name, names);
    var last, first := Coverpoints.Kept(one), Coverpoints.Kept(two);
    Coverpoints.RunsJoin(bins, one, two);
    if forall i :: 0 <= i < |bins| ==> !Coverpoints.AcrossSeam(bins, last, first, i) {
      Coverpoints.NoSeamErrors(bins, last, first, |bins|);
      assert AddPoint(a, b).bins == c.bins;
    }
  }

  /** The row that a cross with these counters reports, with names given to its bins. */
  function RowOf(cross: CrossRow, names: seq<nat> -> seq<string>, entries: seq<Crosses.Entry>,
    illegalHits: nat): CrossRow
  {
    cross.(illegalHits := illegalHits,
           bins := seq(|entries|, i requires 0 <= i < |entries| =>
             CrossBinRow(names(entries[i].bins), entries[i].hits)))
  }

  /** The row that a run of a cross reports. */
  function RunRow(shape: Crosses.Shape, filters: seq<Crosses.Filter>, samples: seq<Crosses.Sampling>, cross: CrossRow,
                  names: seq<nat> -> seq<string>): CrossRow
    requires shape.Valid() && Crosses.AllHanded(shape.counts, samples)
  {
    Crosses.EverythingVisited(shape.counts);
    var r := Crosses.Run(shape, filters, samples);
    RowOf(cross, names, Crosses.Reported(shape, filters, r.hits, Crosses.Combos(Crosses.Everything(shape.counts))),
          r.illegalHits)
  }

  /** Merging the rows of two runs of a cross gives the bins of the one run that makes both; it gives the whole row
      exactly when the run merged in met no combination that is an error. */
  lemma MergedRuns(shape: Crosses.Shape, filters: seq<Crosses.Filter>, one: seq<Crosses.Sampling>,
                   two: seq<Crosses.Sampling>, cross: CrossRow, names: seq<nat> -> seq<string>)
    requires shape.Valid() && Crosses.AllHanded(shape.counts, one) && Crosses.AllHanded(shape.counts, two)
    ensures Crosses.AllHanded(shape.counts, one + two)
    ensures var a, b := RunRow(shape, filters, one, cross, names), RunRow(shape, filters, two, cross, names);
      var c := RunRow(shape, filters, one + two, cross, names);
      && SameCross(a, b) && AddCross(a, b).bins == c.bins && a.illegalHits + b.illegalHits == c.illegalHits
      && (AddCross(a, b) == c <==> Crosses.Lawful(shape, filters, two))
  {
    hide Crosses.Run, Crosses.Reported, Crosses.Combos, Crosses.Everything, RowOf, SameCross, AddCross, Crosses.Lawful;
    Crosses.EverythingVisited(shape.counts);
    Crosses.RunJoin(shape, filters, one, two);
    Crosses.LawfulExact(shape, filters, two);
    var all := Crosses.Combos(Crosses.Everything(shape.counts));
    var r, s := Crosses.Run(shape, filters, one), Crosses.Run(shape, filters, two);
    var t := Crosses.Run(shape, filters, one + two);
    Crosses.ReportedAdds(shape, filters, r.hits, s.hits, t.hits, all);
    RowsAdd(cross, names, Crosses.Reported(shape, filters, r.hits, all), Crosses.Reported(shape, filters, s.hits, all),
            Crosses.Reported(shape, filters, t.hits, all), r.illegalHits, s.illegalHits, t.illegalHits);
  }

  lemma RowsAdd(cross: CrossRow, names: seq<nat> -> seq<string>, x: seq<Crosses.Entry>, y: seq<Crosses.Entry>,
                z: seq<Crosses.Entry>, i: nat, j: nat, k: nat)
    requires |x| == |y| == |z| && k == i + j
    requires forall n :: 0 <= n < |x| ==> x[n].bins == y[n].bins == z[n].bins && z[n].hits == x[n].hits + y[n].hits
    ensures var a, b, c := RowOf(cross, names, x, i), RowOf(cross, names, y, j), RowOf(cross, names, z, k);
      && SameCross(a, b) && AddCross(a, b).bins == c.bins
      && a.illegalHits == i && b.illegalHits == j && c.illegalHits == k
      && (AddCross(a, b) == c <==> j == 0)
  {
  }

  /** Two coverpoints with one bin each, crossed, the one combination being an error, and a sample that hits both. */
  function ErrorShape(): Crosses.Shape {
    Crosses.Shape([0, 1], [1, 1], (p, b, v) => true)
  }

  function ErrorFilters(): seq<Crosses.Filter> {
    [Crosses.Filter(Crosses.BinsOf(0, []), true)]
  }

  lemma OneError(shape: Crosses.Shape, filters: seq<Crosses.Filter>, bins: seq<nat>)
    requires shape == ErrorShape() && filters == ErrorFilters() && bins == [0, 0]
    ensures Crosses.Forbidden(shape, filters, bins)
  {
    assert shape.points[0] == 0;
    assert Crosses.Position(shape.points, 0, 0) == Some(0);
    assert filters[0].select == Crosses.BinsOf(0, []);
    assert Crosses.Matches(shape, filters[0].select, bins);
    assert Crosses.FirstMatch(shape, filters, bins, false, 0).None?;
    assert Crosses.FirstMatch(shape, filters, bins, true, 0).Some?;
  }

  lemma OneVisit(lists: seq<seq<nat>>)
    requires lists == [[0], [0]]
    ensures Crosses.Combos(lists) == [[0, 0]]
  {
    assert lists[1..] == [[0]] && lists[1..][1..] == [];
    var none: seq<seq<nat>>, last := Crosses.Combos([]), Crosses.Combos(lists[1..]);
    OneHead(none);
    assert Crosses.Combos(lists[1..]) == Crosses.Spread([0], none) by { assert lists[1..][0] == [0]; }
    OneHead(last);
    assert Crosses.Combos(lists) == Crosses.Spread([0], last);
    var zero: seq<nat> := [0];
    assert zero + [] == zero && none == [[]];
    assert last == [zero] && zero + zero == [0, 0];
  }

  lemma OneHead(tails: seq<seq<nat>>)
    ensures Crosses.Spread([0], tails) == Crosses.With([0], tails)
  {
    assert [0][..0] == [];
  }

  lemma ErrorRun(shape: Crosses.Shape, filters: seq<Crosses.Filter>, samples: seq<Crosses.Sampling>)
    requires shape == ErrorShape() && filters == ErrorFilters() && samples == [Crosses.Sampling(true, [[0], [0]])]
    ensures Crosses.AllHanded(shape.counts, samples) && Crosses.Run(shape, filters, samples).illegalHits == 1
  {
    OneVisit(samples[0].lists);
    OneError(shape, filters, [0, 0]);
    hide Crosses.Combos, Crosses.Excluded, Crosses.Product;
    Crosses.HandedInBounds(shape.counts, samples[0].lists);
    assert samples[..0] == [];
    var start := Crosses.Run(shape, filters, samples[..0]);
    assert start.illegalHits == 0;
    OnlyVisit(shape, filters, start, [[0, 0]]);
  }

  lemma OnlyVisit(shape: Crosses.Shape, filters: seq<Crosses.Filter>, t: Crosses.Tally, combos: seq<seq<nat>>)
    requires Crosses.Fits(shape, filters, t) && |combos| == 1 && Crosses.AllInBounds(shape.counts, combos)
    requires Crosses.Forbidden(shape, filters, combos[0])
    ensures Crosses.CountAll(shape, filters, t, combos).illegalHits == t.illegalHits + 1
  {
    assert combos[..0] == [];
  }

  /** Two runs that meet one error each: the merged row reports one, the row of both runs together two. */
  lemma CrossIllegalExample(shape: Crosses.Shape, filters: seq<Crosses.Filter>, run: seq<Crosses.Sampling>,
                            cross: CrossRow, names: seq<nat> -> seq<string>)
    requires shape == ErrorShape() && filters == ErrorFilters() && run == [Crosses.Sampling(true, [[0], [0]])]
    ensures Crosses.AllHanded(shape.counts, run) && Crosses.AllHanded(shape.counts, run + run)
    ensures var row := RunRow(shape, filters, run, cross, names);
      && SameCross(row, row) && AddCross(row, row).illegalHits == 1
      && RunRow(shape, filters, run + run, cross, names).illegalHits == 2
  {
    hide Crosses.Run, SameCross;
    ErrorRun(shape, filters, run);
    MergedRuns(shape, filters, run, run, cross, names);
    assert RunRow(shape, filters, run, cross, names).illegalHits == 1;
  }

  // ---------------------------------------------------------------------------------------------
  // The class
  // ---------------------------------------------------------------------------------------------

  class CoverageSnapshot {
    var name: string
    var samples: nat
    var illegalHits: nat
    var points: seq<PointRow>
    var crosses: seq<CrossRow>

    function View(): Snapshot
      reads this
    {
      Snapshot(name, samples, illegalHits, points, crosses)
    }

    constructor (s: Snapshot)
      ensures View() == s
    {
      name, samples, illegalHits, points, crosses := s.name, s.samples, s.illegalHits, s.points, s.crosses;
    }

    /** False is where the source throws; then nothing has changed. `other` may be this snapshot itself. */
    method Merge(other: CoverageSnapshot) returns (merged: bool)
      modifies this
      ensures merged <==> SameModel(old(View()), old(other.View()))
      ensures View() == if merged then Added(old(View()), old(other.View())) else old(View())
    {
      merged := Comparable(other);
      if !merged {
        return;
      }
      ghost var a, b := View(), other.View();
      samples := samples + other.samples;
      illegalHits := illegalHits + other.illegalHits;
      for p := 0 to |points|
        invariant other != this ==> other.View() == b
        invariant |points| == |a.points| && |other.points| == |b.points| && name == a.name && crosses == a.crosses
        invariant samples == a.samples + b.samples && illegalHits == a.illegalHits + b.illegalHits
        invariant forall k :: 0 <= k < |points| ==>
          points[k] == if k < p then AddPoint(a.points[k], b.points[k]) else a.points[k]
      {
        assert SamePoint(a.points[p], b.points[p]) && other.points[p] == b.points[p];
        var row := AddBins(points[p], other.points[p]);
        points := points[p := row];
      }
      assert points == Added(a, b).points;
      for c := 0 to |crosses|
        invariant other != this ==> other.View() == b
        invariant |crosses| == |a.crosses| && |other.crosses| == |b.crosses| && name == a.name
        invariant points == Added(a, b).points
        invariant samples == a.samples + b.samples && illegalHits == a.illegalHits + b.illegalHits
        invariant forall k :: 0 <= k < |crosses| ==>
          crosses[k] == if k < c then AddCross(a.crosses[k], b.crosses[k]) else a.crosses[k]
      {
        assert SameCross(a.crosses[c], b.crosses[c]) && other.crosses[c] == b.crosses[c];
        var row := AddCrossBins(crosses[c], other.crosses[c]);
        crosses := crosses[c := row];
      }
      assert crosses == Added(a, b).crosses;
    }

    /** The validation of the complete model, before any counter changes. */
    method Comparable(other: CoverageSnapshot) returns (same: bool)
      ensures same == SameModel(View(), other.View())
    {
      if name != other.name || |points| != |other.points| || |crosses| != |other.crosses| {
        return false;
      }
      for p := 0 to |points|
        invariant forall k :: 0 <= k < p ==> SamePoint(points[k], other.points[k])
      {
        var a, b := points[p], other.points[p];
        if a.name != b.name || |a.bins| != |b.bins| {
          return false;
        }
        for i := 0 to |a.bins|
          invariant forall k :: 0 <= k < i ==> SameBin(a.bins[k], b.bins[k])
        {
          if a.bins[i].name != b.bins[i].name || a.bins[i].kind != b.bins[i].kind {
            assert !SameBin(a.bins[i], b.bins[i]);
            return false;
          }
        }
      }
      for c := 0 to |crosses|
        invariant forall k :: 0 <= k < c ==> SameCross(crosses[k], other.crosses[k])
      {
        var a, b := crosses[c], other.crosses[c];
        if a.name != b.name || a.points != b.points || a.ignored != b.ignored || a.illegal != b.illegal
          || |a.bins| != |b.bins|
        {
          return false;
        }
        for i := 0 to |a.bins|
          invariant forall k :: 0 <= k < i ==> a.bins[k].bins == b.bins[k].bins
        {
          if a.bins[i].bins != b.bins[i].bins {
            return false;
          }
        }
      }
      same := true;
    }

    static method AddBins(point: PointRow, incoming: PointRow) returns (r: PointRow)
      requires SamePoint(point, incoming)
      ensures r == AddPoint(point, incoming)
    {
      r := point.(samples := point.samples + incoming.samples, illegalHits := point.illegalHits + incoming.illegalHits);
      for i := 0 to |point.bins|
        invariant r == AddPoint(point, incoming).(bins := r.bins) && |r.bins| == |point.bins|
        invariant forall k :: 0 <= k < |r.bins| ==>
          r.bins[k] == if k < i then AddPoint(point, incoming).bins[k] else point.bins[k]
      {
        r := r.(bins := r.bins[i := r.bins[i].(hits := r.bins[i].hits + incoming.bins[i].hits)]);
      }
      assert r.bins == AddPoint(point, incoming).bins;
    }

    static method AddCrossBins(cross: CrossRow, incoming: CrossRow) returns (r: CrossRow)
      requires SameCross(cross, incoming)
      ensures r == AddCross(cross, incoming)
    {
      r := cross;
      for i := 0 to |cross.bins|
        invariant r == cross.(bins := r.bins) && |r.bins| == |cross.bins|
        invariant forall k :: 0 <= k < |r.bins| ==>
          r.bins[k] == if k < i then AddCross(cross, incoming).bins[k] else cross.bins[k]
      {
        r := r.(bins := r.bins[i := r.bins[i].(hits := r.bins[i].hits + incoming.bins[i].hits)]);
      }
      assert r.bins == AddCross(cross, incoming).bins;
    }
  }
}
