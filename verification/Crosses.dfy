/** `Covergroup::Cross`: one counter for each combination of its coverpoints' bins, with filters that take
combinations out. */
module Crosses {
  import opened Registrations

  // ---------------------------------------------------------------------------------------------
  // Filters
  // ---------------------------------------------------------------------------------------------

  /** A select expression; a coverpoint is known by its number in the covergroup. */
  datatype Select =
    | BinsOf(point: nat, values: seq<int>)
    | Where(test: seq<nat> -> bool)
    | Both(left: Select, right: Select)
    | Either(left: Select, right: Select)
    | Not(inner: Select)

  datatype Filter = Filter(select: Select, illegal: bool)

  /** The crossed coverpoints: their numbers, how many ordinary bins each has, and which values a bin accepts
      (`ordinary_bin_accepts`, by position in the cross). */
  datatype Shape = Shape(points: seq<nat>, counts: seq<nat>, accepts: (nat, nat, int) -> bool) {
    ghost predicate Valid() {
      |points| == |counts|
    }
  }

  /** A combination names a bin of each coverpoint. */
  predicate InBounds(counts: seq<nat>, bins: seq<nat>) {
    |bins| == |counts| && forall i :: 0 <= i < |bins| ==> bins[i] < counts[i]
  }

  /** The first position of a coverpoint. */
  function Position(points: seq<nat>, point: nat, i: nat): (r: Option<nat>)
    requires i <= |points|
    ensures r.Some? ==> i <= r.value < |points|
    decreases |points| - i
  {
    if i == |points| then None else if points[i] == point then Some(i) else Position(points, point, i + 1)
  }

  predicate Matches(shape: Shape, select: Select, bins: seq<nat>)
    requires shape.Valid() && |bins| == |shape.points|
  {
    match select
    case BinsOf(point, values) =>
      var p := Position(shape.points, point, 0);
      p.Some? && (values == [] || exists v :: v in values && shape.accepts(p.value, bins[p.value], v))
    case Where(test) => test(bins)
    case Both(l, r) => Matches(shape, l, bins) && Matches(shape, r, bins)
    case Either(l, r) => Matches(shape, l, bins) || Matches(shape, r, bins)
    case Not(s) => !Matches(shape, s, bins)
  }

  /** The first filter from number i on that matches and is of this kind. */
  function FirstMatch(shape: Shape, filters: seq<Filter>, bins: seq<nat>, illegal: bool, i: nat): (r: Option<nat>)
    requires shape.Valid() && |bins| == |shape.points| && i <= |filters|
    ensures r.Some? ==> i <= r.value < |filters| && filters[r.value].illegal == illegal
    ensures r.Some? ==> Matches(shape, filters[r.value].select, bins)
    ensures forall k :: i <= k < (if r.Some? then r.value else |filters|) && filters[k].illegal == illegal ==>
      !Matches(shape, filters[k].select, bins)
    decreases |filters| - i
  {
    if i == |filters| then None
    else if filters[i].illegal == illegal && Matches(shape, filters[i].select, bins) then Some(i)
    else FirstMatch(shape, filters, bins, illegal, i + 1)
  }

  /** `excluded_by`: an ignoring filter wins over an illegal one, and an earlier one over a later. */
  function Excluded(shape: Shape, filters: seq<Filter>, bins: seq<nat>): (r: Option<nat>)
    requires shape.Valid() && |bins| == |shape.points|
    ensures r.Some? ==> r.value < |filters| && Matches(shape, filters[r.value].select, bins)
  {
    var ignored := FirstMatch(shape, filters, bins, false, 0);
    if ignored.Some? then ignored else FirstMatch(shape, filters, bins, true, 0)
  }

  lemma ExcludedExact(shape: Shape, filters: seq<Filter>, bins: seq<nat>)
    requires shape.Valid() && |bins| == |shape.points|
    ensures var r := Excluded(shape, filters, bins);
      && (r.None? <==> forall k :: 0 <= k < |filters| ==> !Matches(shape, filters[k].select, bins))
      && (r.Some? && filters[r.value].illegal ==>
            forall k :: 0 <= k < |filters| && Matches(shape, filters[k].select, bins) ==>
              filters[k].illegal && r.value <= k)
      && (r.Some? && !filters[r.value].illegal ==>
            forall k :: 0 <= k < |filters| && !filters[k].illegal && Matches(shape, filters[k].select, bins) ==>
              r.value <= k)
  {
  }

  // ---------------------------------------------------------------------------------------------
  // The numbering of the combinations
  // ---------------------------------------------------------------------------------------------

  function Product(counts: seq<nat>): nat {
    if counts == [] then 1 else counts[0] * Product(counts[1..])
  }

  /** The number of a combination, the first coverpoint being the most significant. */
  function Index(counts: seq<nat>, bins: seq<nat>): nat
    requires |bins| == |counts|
  {
    if bins == [] then 0 else bins[0] * Product(counts[1..]) + Index(counts[1..], bins[1..])
  }

  lemma {:induction false} ProductSnoc(counts: seq<nat>, c: nat)
    ensures Product(counts + [c]) == Product(counts) * c
  {
    if counts == [] {
      assert [c][1..] == [];
    } else {
      assert (counts + [c])[1..] == counts[1..] + [c];
      ProductSnoc(counts[1..], c);
      assert counts[0] * (Product(counts[1..]) * c) == (counts[0] * Product(counts[1..])) * c;
    }
  }

  /** The rule by which the source builds the number. */
  lemma {:induction false} IndexSnoc(counts: seq<nat>, bins: seq<nat>, c: nat, b: nat)
    requires |bins| == |counts|
    ensures Index(counts + [c], bins + [b]) == Index(counts, bins) * c + b
  {
    if bins == [] {
      assert Index([c], [b]) == b * Product([c][1..]) + Index([c][1..], [b][1..]);
    } else {
      assert (counts + [c])[1..] == counts[1..] + [c] && (bins + [b])[1..] == bins[1..] + [b];
      IndexSnoc(counts[1..], bins[1..], c, b);
      ProductSnoc(counts[1..], c);
      Distribute(bins[0], Product(counts[1..]), Index(counts[1..], bins[1..]), c);
    }
  }

  lemma Distribute(b: nat, p: nat, i: nat, c: nat)
    ensures (b * p + i) * c == b * (p * c) + i * c
  {
    assert (b * p) * c == b * (p * c);
  }

  lemma {:induction false} IndexBound(counts: seq<nat>, bins: seq<nat>)
    requires InBounds(counts, bins)
    ensures Index(counts, bins) < Product(counts)
  {
    if bins != [] {
      IndexBound(counts[1..], bins[1..]);
      RowBound(bins[0], counts[0], Product(counts[1..]));
    }
  }

  lemma RowBound(b: nat, c: nat, p: nat)
    requires b < c
    ensures b * p + p <= c * p
  {
    assert c * p == b * p + p + (c - b - 1) * p && (c - b - 1) * p >= 0;
  }

  /** Different combinations have different numbers. */
  lemma {:induction false} IndexOnce(counts: seq<nat>, a: seq<nat>, b: seq<nat>)
    requires InBounds(counts, a) && InBounds(counts, b) && Index(counts, a) == Index(counts, b)
    ensures a == b
  {
    if a != [] {
      var p := Product(counts[1..]);
      IndexBound(counts[1..], a[1..]);
      IndexBound(counts[1..], b[1..]);
      SameRow(a[0], b[0], p, Index(counts[1..], a[1..]), Index(counts[1..], b[1..]));
      IndexOnce(counts[1..], a[1..], b[1..]);
      assert a == [a[0]] + a[1..] && b == [b[0]] + b[1..];
    }
  }

  lemma SameRow(a: nat, b: nat, p: nat, i: nat, j: nat)
    requires i < p && j < p && a * p + i == b * p + j
    ensures a == b && i == j
  {
    LaterRow(a, b, p);
    LaterRow(b, a, p);
  }

  lemma LaterRow(a: nat, b: nat, p: nat)
    ensures a < b ==> a * p + p <= b * p
  {
    if a < b {
      RowBound(a, b, p);
    }
  }

  // ---------------------------------------------------------------------------------------------
  // The combinations that are visited
  // ---------------------------------------------------------------------------------------------

  function With(prefix: seq<nat>, tails: seq<seq<nat>>): (r: seq<seq<nat>>)
    ensures |r| == |tails|
    ensures forall k :: 0 <= k < |r| ==> r[k] == prefix + tails[k]
  {
    seq(|tails|, i requires 0 <= i < |tails| => prefix + tails[i])
  }

  function Spread(heads: seq<nat>, tails: seq<seq<nat>>): seq<seq<nat>> {
    if heads == [] then [] else Spread(heads[..|heads| - 1], tails) + With([heads[|heads| - 1]], tails)
  }

  /** One bin from each list, in the order of the nested loops. */
  function Combos(lists: seq<seq<nat>>): seq<seq<nat>> {
    if lists == [] then [[]] else Spread(lists[0], Combos(lists[1..]))
  }

  function Lengths(lists: seq<seq<nat>>): (r: seq<nat>)
    ensures |r| == |lists|
  {
    seq<nat>(|lists|, i requires 0 <= i < |lists| => |lists[i]|)
  }

  lemma {:induction false} SpreadAt(heads: seq<nat>, tails: seq<seq<nat>>, h: nat, t: nat)
    requires h < |heads| && t < |tails|
    ensures |Spread(heads, tails)| == |heads| * |tails|
    ensures h * |tails| + t < |heads| * |tails|
    ensures Spread(heads, tails)[h * |tails| + t] == [heads[h]] + tails[t]
    decreases heads
  {
    var n := |heads| - 1;
    SpreadLength(heads, tails);
    SpreadLength(heads[..n], tails);
    RowBound(h, |heads|, |tails|);
    if h < n {
      SpreadAt(heads[..n], tails, h, t);
    }
  }

  lemma {:induction false} SpreadLength(heads: seq<nat>, tails: seq<seq<nat>>)
    ensures |Spread(heads, tails)| == |heads| * |tails|
  {
    if heads != [] {
      SpreadLength(heads[..|heads| - 1], tails);
      assert |heads| * |tails| == (|heads| - 1) * |tails| + |tails|;
    }
  }

  lemma {:induction false} ComboCount(lists: seq<seq<nat>>)
    ensures |Combos(lists)| == Product(Lengths(lists))
  {
    if lists != [] {
      ComboCount(lists[1..]);
      SpreadLength(lists[0], Combos(lists[1..]));
      assert Lengths(lists)[1..] == Lengths(lists[1..]);
    }
  }

  predicate Chosen(lists: seq<seq<nat>>, bins: seq<nat>) {
    |bins| == |lists| && forall i :: 0 <= i < |bins| ==> bins[i] in lists[i]
  }

  function Times(combos: seq<seq<nat>>, bins: seq<nat>): nat {
    if combos == [] then 0
    else Times(combos[..|combos| - 1], bins) + (if combos[|combos| - 1] == bins then 1 else 0)
  }

  predicate Increasing(list: seq<nat>) {
    forall i, j :: 0 <= i < j < |list| ==> list[i] < list[j]
  }

  lemma {:induction false} TimesJoin(a: seq<seq<nat>>, b: seq<seq<nat>>, bins: seq<nat>)
    ensures Times(a + b, bins) == Times(a, bins) + Times(b, bins)
  {
    if b == [] {
      assert a + b == a;
    } else {
      assert (a + b)[..|a + b| - 1] == a + b[..|b| - 1];
      TimesJoin(a, b[..|b| - 1], bins);
    }
  }

  lemma {:induction false} TimesWith(h: nat, tails: seq<seq<nat>>, bins: seq<nat>)
    requires |bins| > 0
    ensures Times(With([h], tails), bins) == if bins[0] == h then Times(tails, bins[1..]) else 0
  {
    if tails != [] {
      var n := |tails| - 1;
      TimesWith(h, tails[..n], bins);
      assert With([h], tails)[..n] == With([h], tails[..n]);
      assert bins == [bins[0]] + bins[1..];
      assert ([h] + tails[n])[1..] == tails[n];
    }
  }

  lemma {:induction false} TimesSpread(heads: seq<nat>, tails: seq<seq<nat>>, bins: seq<nat>)
    requires |bins| > 0 && Increasing(heads)
    ensures Times(Spread(heads, tails), bins) == if bins[0] in heads then Times(tails, bins[1..]) else 0
  {
    if heads != [] {
      var n := |heads| - 1;
      TimesSpread(heads[..n], tails, bins);
      TimesJoin(Spread(heads[..n], tails), With([heads[n]], tails), bins);
      TimesWith(heads[n], tails, bins);
      assert heads == heads[..n] + [heads[n]];
    }
  }

  lemma OnlyEmpty(combos: seq<seq<nat>>, bins: seq<nat>)
    requires combos == [[]] && bins == []
    ensures Times(combos, bins) == 1
  {
    assert Times(combos, bins) == Times(combos[..0], bins) + 1;
  }

  /** With lists that repeat nothing every chosen combination is visited exactly once. */
  lemma {:induction false} EachOnce(lists: seq<seq<nat>>, bins: seq<nat>)
    requires |bins| == |lists| && forall i :: 0 <= i < |lists| ==> Increasing(lists[i])
    ensures Times(Combos(lists), bins) == if Chosen(lists, bins) then 1 else 0
  {
    if lists == [] {
      OnlyEmpty([[]], bins);
    } else {
      EachOnce(lists[1..], bins[1..]);
      TimesSpread(lists[0], Combos(lists[1..]), bins);
    }
  }

  lemma {:induction false} CombosInBounds(counts: seq<nat>, lists: seq<seq<nat>>, k: nat)
    requires |lists| == |counts| && k < |Combos(lists)|
    requires forall i, b :: 0 <= i < |lists| && b in lists[i] ==> b < counts[i]
    ensures InBounds(counts, Combos(lists)[k])
  {
    if lists == [] {
      assert Combos(lists)[k] == [];
    } else {
      var tails := Combos(lists[1..]);
      SpreadLength(lists[0], tails);
      var t, h := SplitRow(k, |lists[0]|, |tails|);
      SpreadAt(lists[0], tails, h, t);
      CombosInBounds(counts[1..], lists[1..], t);
      assert lists[0][h] in lists[0];
      InBoundsCons(counts, lists[0][h], tails[t]);
    }
  }

  lemma InBoundsCons(counts: seq<nat>, b: nat, rest: seq<nat>)
    requires counts != [] && b < counts[0] && InBounds(counts[1..], rest)
    ensures InBounds(counts, [b] + rest)
  {
    forall i | 0 <= i < |counts|
      ensures ([b] + rest)[i] < counts[i]
    {
      if i > 0 {
        assert rest[i - 1] < counts[1..][i - 1];
      }
    }
  }

  lemma SplitRow(k: nat, n: nat, p: nat) returns (t: nat, h: nat)
    requires k < n * p
    ensures h < n && t < p && k == h * p + t
  {
    assert p > 0;
    t, h := k % p, k / p;
    assert k == p * h + t;
    assert p * h == h * p;
    NotEarlier(n, h, p);
  }

  lemma NotEarlier(n: nat, h: nat, p: nat)
    ensures n <= h ==> n * p <= h * p
  {
    LaterRow(n, h, p);
  }

  function UpTo(n: nat): (r: seq<nat>)
    ensures |r| == n && forall i :: 0 <= i < n ==> r[i] == i
  {
    seq<nat>(n, i => i)
  }

  function Everything(counts: seq<nat>): (r: seq<seq<nat>>)
    ensures |r| == |counts| && forall i :: 0 <= i < |r| ==> r[i] == UpTo(counts[i])
  {
    seq(|counts|, i requires 0 <= i < |counts| => UpTo(counts[i]))
  }

  /** Visiting everything goes through the combinations in the order of their numbers: combination k is the
      one with number k, so the numbers are exactly 0 .. total - 1. */
  lemma {:induction false} VisitedInOrder(counts: seq<nat>, k: nat)
    requires k < Product(counts)
    ensures |Combos(Everything(counts))| == Product(counts)
    ensures InBounds(counts, Combos(Everything(counts))[k]) && Index(counts, Combos(Everything(counts))[k]) == k
  {
    var all := Everything(counts);
    ComboCount(all);
    assert Lengths(all) == counts;
    CombosInBounds(counts, all, k);
    if counts != [] {
      assert all[1..] == Everything(counts[1..]);
      var tails := Combos(all[1..]);
      ComboCount(all[1..]);
      assert Lengths(all[1..]) == counts[1..];
      var t, h := SplitRow(k, counts[0], |tails|);
      SpreadAt(all[0], tails, h, t);
      VisitedInOrder(counts[1..], t);
      assert ([h] + tails[t])[1..] == tails[t];
    }
  }

  // ---------------------------------------------------------------------------------------------
  // Counting
  // ---------------------------------------------------------------------------------------------

  datatype Tally = Tally(hits: seq<nat>, filterHits: seq<nat>, illegalHits: nat)

  ghost predicate Fits(shape: Shape, filters: seq<Filter>, t: Tally) {
    shape.Valid() && |t.hits| == Product(shape.counts) && |t.filterHits| == |filters|
  }

  /** What one visited combination counts. */
  function CountOne(shape: Shape, filters: seq<Filter>, t: Tally, bins: seq<nat>): (r: Tally)
    requires Fits(shape, filters, t) && InBounds(shape.counts, bins)
    ensures Fits(shape, filters, r)
  {
    var e := Excluded(shape, filters, bins);
    if e.None? then
      IndexBound(shape.counts, bins);
      var i := Index(shape.counts, bins);
      t.(hits := t.hits[i := t.hits[i] + 1])
    else
      t.(filterHits := t.filterHits[e.value := t.filterHits[e.value] + 1],
         illegalHits := if filters[e.value].illegal then t.illegalHits + 1 else t.illegalHits)
  }

  ghost predicate AllInBounds(counts: seq<nat>, combos: seq<seq<nat>>) {
    forall k :: 0 <= k < |combos| ==> InBounds(counts, combos[k])
  }

  function CountAll(shape: Shape, filters: seq<Filter>, t: Tally, combos: seq<seq<nat>>): (r: Tally)
    requires Fits(shape, filters, t) && AllInBounds(shape.counts, combos)
    ensures Fits(shape, filters, r)
  {
    if combos == [] then t
    else CountOne(shape, filters, CountAll(shape, filters, t, combos[..|combos| - 1]), combos[|combos| - 1])
  }

  lemma {:induction false} CountJoin(shape: Shape, filters: seq<Filter>, t: Tally, a: seq<seq<nat>>, b: seq<seq<nat>>)
    requires Fits(shape, filters, t) && AllInBounds(shape.counts, a) && AllInBounds(shape.counts, b)
    ensures AllInBounds(shape.counts, a + b)
    ensures CountAll(shape, filters, t, a + b) == CountAll(shape, filters, CountAll(shape, filters, t, a), b)
    decreases b
  {
    if b == [] {
      assert a + b == a;
    } else {
      assert (a + b)[..|a + b| - 1] == a + b[..|b| - 1];
      CountJoin(shape, filters, t, a, b[..|b| - 1]);
    }
  }

  function Sum(s: seq<nat>): nat {
    if s == [] then 0 else s[0] + Sum(s[1..])
  }

  lemma {:induction false} SumBump(s: seq<nat>, i: nat)
    requires i < |s|
    ensures Sum(s[i := s[i] + 1]) == Sum(s) + 1
  {
    if i > 0 {
      assert s[i := s[i] + 1][1..] == s[1..][i - 1 := s[1..][i - 1] + 1];
      SumBump(s[1..], i - 1);
    }
  }

  /** The hits of the illegal filters. */
  function IllegalSum(filters: seq<Filter>, hits: seq<nat>): nat
    requires |hits| == |filters|
  {
    if hits == [] then 0 else (if filters[0].illegal then hits[0] else 0) + IllegalSum(filters[1..], hits[1..])
  }

  lemma {:induction false} IllegalBump(filters: seq<Filter>, hits: seq<nat>, i: nat)
    requires i < |hits| == |filters|
    ensures IllegalSum(filters, hits[i := hits[i] + 1])
         == IllegalSum(filters, hits) + if filters[i].illegal then 1 else 0
  {
    if i > 0 {
      assert hits[i := hits[i] + 1][1..] == hits[1..][i - 1 := hits[1..][i - 1] + 1];
      IllegalBump(filters[1..], hits[1..], i - 1);
    }
  }

  /** Every visited combination is counted once, in a bin or in a filter, and the illegal count is what the
      illegal filters counted. */
  lemma {:induction false} EveryVisitCounted(shape: Shape, filters: seq<Filter>, t: Tally, combos: seq<seq<nat>>)
    requires Fits(shape, filters, t) && AllInBounds(shape.counts, combos)
    ensures var r := CountAll(shape, filters, t, combos);
      && Sum(r.hits) + Sum(r.filterHits) == Sum(t.hits) + Sum(t.filterHits) + |combos|
      && r.illegalHits - t.illegalHits == IllegalSum(filters, r.filterHits) - IllegalSum(filters, t.filterHits)
    decreases combos
  {
    if combos != [] {
      var n := |combos| - 1;
      EveryVisitCounted(shape, filters, t, combos[..n]);
      OneCounted(shape, filters, CountAll(shape, filters, t, combos[..n]), combos[n]);
    }
  }

  lemma OneCounted(shape: Shape, filters: seq<Filter>, t: Tally, bins: seq<nat>)
    requires Fits(shape, filters, t) && InBounds(shape.counts, bins)
    ensures var r := CountOne(shape, filters, t, bins);
      && Sum(r.hits) + Sum(r.filterHits) == Sum(t.hits) + Sum(t.filterHits) + 1
      && r.illegalHits - t.illegalHits == IllegalSum(filters, r.filterHits) - IllegalSum(filters, t.filterHits)
  {
    hide Sum, IllegalSum;
    var e := Excluded(shape, filters, bins);
    if e.None? {
      IndexBound(shape.counts, bins);
      SumBump(t.hits, Index(shape.counts, bins));
    } else {
      SumBump(t.filterHits, e.value);
      IllegalBump(filters, t.filterHits, e.value);
    }
  }

  /** A bin counts the visits to its own combination, and an excluded one counts nothing. */
  lemma {:induction false} BinCounts(shape: Shape, filters: seq<Filter>, t: Tally, combos: seq<seq<nat>>,
    bins: seq<nat>)
    requires Fits(shape, filters, t) && AllInBounds(shape.counts, combos) && InBounds(shape.counts, bins)
    ensures var i := Index(shape.counts, bins);
      && i < |t.hits| == |CountAll(shape, filters, t, combos).hits|
      && CountAll(shape, filters, t, combos).hits[i]
         == t.hits[i] + if Excluded(shape, filters, bins).None? then Times(combos, bins) else 0
    decreases combos
  {
    IndexBound(shape.counts, bins);
    if combos != [] {
      var n := |combos| - 1;
      BinCounts(shape, filters, t, combos[..n], bins);
      IndexBound(shape.counts, combos[n]);
      if Index(shape.counts, combos[n]) == Index(shape.counts, bins) {
        IndexOnce(shape.counts, combos[n], bins);
      }
    }
  }

  // ---------------------------------------------------------------------------------------------
  // Runs
  // ---------------------------------------------------------------------------------------------

  /** One sample: whether the guard let it through, and the bins that each coverpoint matched. */
  datatype Sampling = Sampling(open: bool, lists: seq<seq<nat>>)

  /** What the coverpoints hand over: bins of theirs, in increasing order. */
  ghost predicate Handed(counts: seq<nat>, lists: seq<seq<nat>>) {
    && |lists| == |counts|
    && (forall i :: 0 <= i < |lists| ==> Increasing(lists[i]))
    && (forall i, b :: 0 <= i < |lists| && b in lists[i] ==> b < counts[i])
  }

  lemma HandedInBounds(counts: seq<nat>, lists: seq<seq<nat>>)
    requires Handed(counts, lists)
    ensures AllInBounds(counts, Combos(lists))
  {
    forall k | 0 <= k < |Combos(lists)|
      ensures InBounds(counts, Combos(lists)[k])
    {
      CombosInBounds(counts, lists, k);
    }
  }

  function Sampled(shape: Shape, filters: seq<Filter>, t: Tally, s: Sampling): (r: Tally)
    requires Fits(shape, filters, t) && Handed(shape.counts, s.lists)
    ensures Fits(shape, filters, r)
  {
    HandedInBounds(shape.counts, s.lists);
    if s.open then CountAll(shape, filters, t, Combos(s.lists)) else t
  }

  function Zeros(n: nat): (r: seq<nat>)
    ensures |r| == n && forall i :: 0 <= i < n ==> r[i] == 0
  {
    seq<nat>(n, _ => 0)
  }

  function Fresh(shape: Shape, filters: seq<Filter>): Tally {
    Tally(Zeros(Product(shape.counts)), Zeros(|filters|), 0)
  }

  ghost predicate AllHanded(counts: seq<nat>, samples: seq<Sampling>) {
    forall k :: 0 <= k < |samples| ==> Handed(counts, samples[k].lists)
  }

  function Run(shape: Shape, filters: seq<Filter>, samples: seq<Sampling>): (r: Tally)
    requires shape.Valid() && AllHanded(shape.counts, samples)
    ensures Fits(shape, filters, r)
  {
    if samples == [] then Fresh(shape, filters)
    else Sampled(shape, filters, Run(shape, filters, samples[..|samples| - 1]), samples[|samples| - 1])
  }

  /** The visits of a run: for each open sample the product of how many bins each coverpoint matched. */
  function Visits(samples: seq<Sampling>): nat {
    if samples == [] then 0
    else
      var s := samples[|samples| - 1];
      Visits(samples[..|samples| - 1]) + (if s.open then Product(Lengths(s.lists)) else 0)
  }

  /** How many open samples chose the combination. */
  function ChosenIn(samples: seq<Sampling>, bins: seq<nat>): nat {
    if samples == [] then 0
    else
      var s := samples[|samples| - 1];
      ChosenIn(samples[..|samples| - 1], bins) + (if s.open && Chosen(s.lists, bins) then 1 else 0)
  }

  lemma {:induction false} SumZeros(n: nat)
    ensures Sum(Zeros(n)) == 0
  {
    if n > 0 {
      assert Zeros(n)[1..] == Zeros(n - 1);
      SumZeros(n - 1);
    }
  }

  lemma {:induction false} IllegalZeros(filters: seq<Filter>)
    ensures IllegalSum(filters, Zeros(|filters|)) == 0
  {
    if filters != [] {
      assert Zeros(|filters|)[1..] == Zeros(|filters[1..]|);
      IllegalZeros(filters[1..]);
    }
  }

  /** Over any run: bin hits plus filter hits are the visits, and the illegal count is the illegal filters'. */
  lemma {:induction false} RunAccounted(shape: Shape, filters: seq<Filter>, samples: seq<Sampling>)
    requires shape.Valid() && AllHanded(shape.counts, samples)
    ensures var r := Run(shape, filters, samples);
      Sum(r.hits) + Sum(r.filterHits) == Visits(samples) && r.illegalHits == IllegalSum(filters, r.filterHits)
  {
    if samples == [] {
      SumZeros(Product(shape.counts));
      SumZeros(|filters|);
      IllegalZeros(filters);
    } else {
      var n := |samples| - 1;
      RunAccounted(shape, filters, samples[..n]);
      HandedInBounds(shape.counts, samples[n].lists);
      ComboCount(samples[n].lists);
      EveryVisitCounted(shape, filters, Run(shape, filters, samples[..n]), Combos(samples[n].lists));
    }
  }

  /** Over any run: a bin's counter is the number of open samples that chose its combination, or nothing if a
      filter takes it out. */
  lemma {:induction false} RunBinExact(shape: Shape, filters: seq<Filter>, samples: seq<Sampling>, bins: seq<nat>)
    requires shape.Valid() && AllHanded(shape.counts, samples) && InBounds(shape.counts, bins)
    ensures var i := Index(shape.counts, bins);
      && i < |Run(shape, filters, samples).hits|
      && Run(shape, filters, samples).hits[i]
         == if Excluded(shape, filters, bins).None? then ChosenIn(samples, bins) else 0
  {
    IndexBound(shape.counts, bins);
    if samples != [] {
      var n := |samples| - 1;
      RunBinExact(shape, filters, samples[..n], bins);
      HandedInBounds(shape.counts, samples[n].lists);
      EachOnce(samples[n].lists, bins);
      BinCounts(shape, filters, Run(shape, filters, samples[..n]), Combos(samples[n].lists), bins);
    }
  }

  // ---------------------------------------------------------------------------------------------
  // What is reported
  // ---------------------------------------------------------------------------------------------

  datatype Entry = Entry(bins: seq<nat>, hits: nat)

  function Reported(shape: Shape, filters: seq<Filter>, hits: seq<nat>, combos: seq<seq<nat>>): seq<Entry>
    requires shape.Valid() && |hits| == Product(shape.counts) && AllInBounds(shape.counts, combos)
  {
    if combos == [] then []
    else
      var n := |combos| - 1;
      IndexBound(shape.counts, combos[n]);
      Reported(shape, filters, hits, combos[..n])
      + if Excluded(shape, filters, combos[n]).None? then [Entry(combos[n], hits[Index(shape.counts, combos[n])])]
        else []
  }

  lemma {:induction false} ReportedJoin(shape: Shape, filters: seq<Filter>, hits: seq<nat>, a: seq<seq<nat>>,
                                        b: seq<seq<nat>>)
    requires shape.Valid() && |hits| == Product(shape.counts)
    requires AllInBounds(shape.counts, a) && AllInBounds(shape.counts, b)
    ensures AllInBounds(shape.counts, a + b)
    ensures Reported(shape, filters, hits, a + b)
         == Reported(shape, filters, hits, a) + Reported(shape, filters, hits, b)
    decreases b
  {
    if b == [] {
      assert a + b == a;
    } else {
      assert (a + b)[..|a + b| - 1] == a + b[..|b| - 1];
      ReportedJoin(shape, filters, hits, a, b[..|b| - 1]);
    }
  }

  // ---------------------------------------------------------------------------------------------
  // Illegal combinations
  // ---------------------------------------------------------------------------------------------

  /** The filter that decides about the combination makes it an error. */
  predicate Forbidden(shape: Shape, filters: seq<Filter>, bins: seq<nat>)
    requires shape.Valid() && |bins| == |shape.points|
  {
    var e := Excluded(shape, filters, bins);
    e.Some? && filters[e.value].illegal
  }

  lemma {:induction false} ChosenIsVisited(lists: seq<seq<nat>>, bins: seq<nat>)
    requires |bins| == |lists| && forall i :: 0 <= i < |lists| ==> Increasing(lists[i])
    ensures bins in Combos(lists) <==> Chosen(lists, bins)
  {
    EachOnce(lists, bins);
    TimesIsIn(Combos(lists), bins);
  }

  lemma {:induction false} TimesIsIn(combos: seq<seq<nat>>, bins: seq<nat>)
    ensures Times(combos, bins) > 0 <==> bins in combos
  {
    if combos != [] {
      TimesIsIn(combos[..|combos| - 1], bins);
      assert combos == combos[..|combos| - 1] + [combos[|combos| - 1]];
    }
  }

  lemma {:induction false} CountsForbidden(shape: Shape, filters: seq<Filter>, t: Tally, combos: seq<seq<nat>>)
    requires Fits(shape, filters, t) && AllInBounds(shape.counts, combos)
    ensures var r := CountAll(shape, filters, t, combos);
      && r.illegalHits >= t.illegalHits
      && (r.illegalHits == t.illegalHits <==>
            forall k :: 0 <= k < |combos| ==> !Forbidden(shape, filters, combos[k]))
    decreases combos
  {
    if combos != [] {
      var n := |combos| - 1;
      CountsForbidden(shape, filters, t, combos[..n]);
      assert forall k :: 0 <= k < n ==> combos[..n][k] == combos[k];
    }
  }

  /** No open sample chose a combination that is an error. */
  ghost predicate Lawful(shape: Shape, filters: seq<Filter>, samples: seq<Sampling>)
    requires shape.Valid()
  {
    forall k, bins :: 0 <= k < |samples| && samples[k].open && |bins| == |shape.counts|
      && Chosen(samples[k].lists, bins)
      ==> !Forbidden(shape, filters, bins)
  }

  /** Over any run the illegal count is zero exactly when no open sample chose a combination that is an error. */
  lemma {:induction false} LawfulExact(shape: Shape, filters: seq<Filter>, samples: seq<Sampling>)
    requires shape.Valid() && AllHanded(shape.counts, samples)
    ensures Run(shape, filters, samples).illegalHits == 0 <==> Lawful(shape, filters, samples)
  {
    hide Forbidden, Chosen, CountAll, Increasing;
    if samples != [] {
      var n := |samples| - 1;
      LawfulExact(shape, filters, samples[..n]);
      HandedInBounds(shape.counts, samples[n].lists);
      CountsForbidden(shape, filters, Run(shape, filters, samples[..n]), Combos(samples[n].lists));
      ForbiddenVisits(shape, filters, samples[n].lists);
      LawfulParts(shape, filters, samples);
    }
  }

  ghost predicate LawfulSample(shape: Shape, filters: seq<Filter>, lists: seq<seq<nat>>)
    requires shape.Valid()
  {
    forall bins :: |bins| == |shape.counts| && Chosen(lists, bins) ==> !Forbidden(shape, filters, bins)
  }

  lemma LawfulParts(shape: Shape, filters: seq<Filter>, samples: seq<Sampling>)
    requires shape.Valid() && samples != []
    ensures var n := |samples| - 1;
      Lawful(shape, filters, samples) <==>
        Lawful(shape, filters, samples[..n]) && (samples[n].open ==> LawfulSample(shape, filters, samples[n].lists))
  {
    hide Forbidden, Chosen;
    var front := samples[..|samples| - 1];
    assert forall k :: 0 <= k < |front| ==> front[k] == samples[k];
  }

  lemma ForbiddenVisits(shape: Shape, filters: seq<Filter>, lists: seq<seq<nat>>)
    requires shape.Valid() && Handed(shape.counts, lists)
    ensures AllInBounds(shape.counts, Combos(lists))
    ensures (forall k :: 0 <= k < |Combos(lists)| ==> !Forbidden(shape, filters, Combos(lists)[k]))
       <==> LawfulSample(shape, filters, lists)
  {
    hide Forbidden, Chosen, Increasing, Combos;
    HandedInBounds(shape.counts, lists);
    var combos := Combos(lists);
    forall bins | |bins| == |lists|
      ensures bins in combos <==> Chosen(lists, bins)
    {
      ChosenIsVisited(lists, bins);
    }
    if !LawfulSample(shape, filters, lists) {
      var bins :| |bins| == |shape.counts| && Chosen(lists, bins) && Forbidden(shape, filters, bins);
      var k :| 0 <= k < |combos| && combos[k] == bins;
      assert Forbidden(shape, filters, combos[k]);
    }
    if k :| 0 <= k < |combos| && Forbidden(shape, filters, combos[k]) {
      assert combos[k] in combos;
    }
  }

  // ---------------------------------------------------------------------------------------------
  // Two runs
  // ---------------------------------------------------------------------------------------------

  ghost predicate AddsUp(t: seq<nat>, r: seq<nat>, s: seq<nat>) {
    |t| == |r| == |s| && forall i :: 0 <= i < |t| ==> t[i] == r[i] + s[i]
  }

  /** The counters of t are those of r and s together. */
  ghost predicate Together(t: Tally, r: Tally, s: Tally) {
    && AddsUp(t.hits, r.hits, s.hits) && AddsUp(t.filterHits, r.filterHits, s.filterHits)
    && t.illegalHits == r.illegalHits + s.illegalHits
  }

  lemma {:induction false} CountTogether(shape: Shape, filters: seq<Filter>, t: Tally, r: Tally, s: Tally,
                                         combos: seq<seq<nat>>)
    requires Fits(shape, filters, t) && Fits(shape, filters, r) && Fits(shape, filters, s)
    requires Together(t, r, s) && AllInBounds(shape.counts, combos)
    ensures Together(CountAll(shape, filters, t, combos), r, CountAll(shape, filters, s, combos))
    decreases combos
  {
    if combos != [] {
      var n := |combos| - 1;
      CountTogether(shape, filters, t, r, s, combos[..n]);
      IndexBound(shape.counts, combos[n]);
    }
  }

  /** One run after another counts what the two count apart. */
  lemma {:induction false} RunJoin(shape: Shape, filters: seq<Filter>, one: seq<Sampling>, two: seq<Sampling>)
    requires shape.Valid() && AllHanded(shape.counts, one) && AllHanded(shape.counts, two)
    ensures AllHanded(shape.counts, one + two)
    ensures Together(Run(shape, filters, one + two), Run(shape, filters, one), Run(shape, filters, two))
    decreases two
  {
    if two == [] {
      assert one + two == one;
    } else {
      var n := |two| - 1;
      assert (one + two)[..|one + two| - 1] == one + two[..n];
      RunJoin(shape, filters, one, two[..n]);
      HandedInBounds(shape.counts, two[n].lists);
      CountTogether(shape, filters, Run(shape, filters, one + two[..n]), Run(shape, filters, one),
                    Run(shape, filters, two[..n]), Combos(two[n].lists));
    }
  }

  lemma {:induction false} ReportedAdds(shape: Shape, filters: seq<Filter>, r: seq<nat>, s: seq<nat>, t: seq<nat>,
                                        combos: seq<seq<nat>>)
    requires shape.Valid() && |r| == |s| == |t| == Product(shape.counts) && AddsUp(t, r, s)
    requires AllInBounds(shape.counts, combos)
    ensures var a, b, c := Reported(shape, filters, r, combos), Reported(shape, filters, s, combos),
              Reported(shape, filters, t, combos);
      && |a| == |b| == |c|
      && forall k :: 0 <= k < |a| ==> a[k].bins == b[k].bins == c[k].bins && c[k].hits == a[k].hits + b[k].hits
    decreases combos
  {
    if combos != [] {
      var n := |combos| - 1;
      ReportedAdds(shape, filters, r, s, t, combos[..n]);
      IndexBound(shape.counts, combos[n]);
    }
  }

  /** An entry stands for a combination with a number below n that no filter takes out. */
  ghost predicate Stands(shape: Shape, filters: seq<Filter>, hits: seq<nat>, e: Entry, n: nat)
    requires shape.Valid()
  {
    && InBounds(shape.counts, e.bins) && Excluded(shape, filters, e.bins).None?
    && Index(shape.counts, e.bins) < n <= |hits| && e.hits == hits[Index(shape.counts, e.bins)]
  }

  ghost predicate Sound(shape: Shape, filters: seq<Filter>, hits: seq<nat>, r: seq<Entry>, n: nat)
    requires shape.Valid()
  {
    && (forall k :: 0 <= k < |r| ==> Stands(shape, filters, hits, r[k], n))
    && (forall i, j :: 0 <= i < j < |r| ==> Index(shape.counts, r[i].bins) < Index(shape.counts, r[j].bins))
  }

  ghost predicate Complete(shape: Shape, filters: seq<Filter>, r: seq<Entry>, n: nat)
    requires shape.Valid()
  {
    forall bins :: (InBounds(shape.counts, bins) && Index(shape.counts, bins) < n
                    && Excluded(shape, filters, bins).None?) ==> exists k :: 0 <= k < |r| && r[k].bins == bins
  }

  /** The entries stand for the combinations with numbers below n that no filter takes out, each once, in the
      order of their numbers, with their counters. */
  ghost predicate Lists(shape: Shape, filters: seq<Filter>, hits: seq<nat>, r: seq<Entry>, n: nat)
    requires shape.Valid()
  {
    Sound(shape, filters, hits, r, n) && Complete(shape, filters, r, n)
  }

  lemma {:induction false} ListsPrefix(shape: Shape, filters: seq<Filter>, hits: seq<nat>, all: seq<seq<nat>>, n: nat)
    requires shape.Valid() && |hits| == Product(shape.counts) && all == Combos(Everything(shape.counts))
    requires n <= |all| == Product(shape.counts) && AllInBounds(shape.counts, all)
    ensures Lists(shape, filters, hits, Reported(shape, filters, hits, all[..n]), n)
  {
    hide Excluded, Combos, Everything;
    if n > 0 {
      ListsPrefix(shape, filters, hits, all, n - 1);
      VisitedInOrder(shape.counts, n - 1);
      assert all[..n][..n - 1] == all[..n - 1];
      ListsNext(shape, filters, hits, Reported(shape, filters, hits, all[..n - 1]), all[n - 1], n - 1);
    }
  }

  lemma ListsNext(shape: Shape, filters: seq<Filter>, hits: seq<nat>, r: seq<Entry>, bins: seq<nat>, n: nat)
    requires shape.Valid() && |hits| == Product(shape.counts) && Lists(shape, filters, hits, r, n)
    requires InBounds(shape.counts, bins) && Index(shape.counts, bins) == n < |hits|
    ensures Lists(shape, filters, hits,
              r + if Excluded(shape, filters, bins).None? then [Entry(bins, hits[n])] else [], n + 1)
  {
    hide Excluded, Product;
    var s := r + if Excluded(shape, filters, bins).None? then [Entry(bins, hits[n])] else [];
    SoundNext(shape, filters, hits, r, bins, n);
    forall b | InBounds(shape.counts, b) && Index(shape.counts, b) < n + 1 && Excluded(shape, filters, b).None?
      ensures exists k :: 0 <= k < |s| && s[k].bins == b
    {
      if Index(shape.counts, b) == n {
        IndexOnce(shape.counts, b, bins);
        assert s[|r|].bins == b;
      } else {
        var k :| 0 <= k < |r| && r[k].bins == b;
        assert s[k].bins == b;
      }
    }
  }

  lemma SoundNext(shape: Shape, filters: seq<Filter>, hits: seq<nat>, r: seq<Entry>, bins: seq<nat>, n: nat)
    requires shape.Valid() && Sound(shape, filters, hits, r, n)
    requires InBounds(shape.counts, bins) && Index(shape.counts, bins) == n < |hits|
    ensures Sound(shape, filters, hits,
              r + if Excluded(shape, filters, bins).None? then [Entry(bins, hits[n])] else [], n + 1)
  {
    hide Excluded, Index, InBounds;
  }

  /** A snapshot reports exactly the combinations that no filter takes out, each once, in increasing order. */
  lemma ReportedExact(shape: Shape, filters: seq<Filter>, hits: seq<nat>)
    requires shape.Valid() && |hits| == Product(shape.counts)
    ensures AllInBounds(shape.counts, Combos(Everything(shape.counts)))
    ensures Lists(shape, filters, hits, Reported(shape, filters, hits, Combos(Everything(shape.counts))), |hits|)
  {
    var all := Combos(Everything(shape.counts));
    EverythingVisited(shape.counts);
    ListsPrefix(shape, filters, hits, all, |all|);
    assert all[..|all|] == all;
  }

  lemma EverythingVisited(counts: seq<nat>)
    ensures |Combos(Everything(counts))| == Product(counts) && AllInBounds(counts, Combos(Everything(counts)))
  {
    ComboCount(Everything(counts));
    assert Lengths(Everything(counts)) == counts;
    forall k | 0 <= k < |Combos(Everything(counts))|
      ensures InBounds(counts, Combos(Everything(counts))[k])
    {
      VisitedInOrder(counts, k);
    }
  }

  // ---------------------------------------------------------------------------------------------
  // The class
  // ---------------------------------------------------------------------------------------------

  lemma WithSpread(prefix: seq<nat>, heads: seq<nat>, h: nat, tails: seq<seq<nat>>)
    ensures With(prefix, Spread(heads + [h], tails)) == With(prefix, Spread(heads, tails)) + With(prefix + [h], tails)
  {
    assert (heads + [h])[..|heads + [h]| - 1] == heads;
    forall k | 0 <= k < |tails|
      ensures prefix + ([h] + tails[k]) == (prefix + [h]) + tails[k]
    {
    }
  }

  /** The combinations that extend a prefix. */
  lemma {:induction false} ExtendedInBounds(counts: seq<nat>, prefix: seq<nat>, lists: seq<seq<nat>>)
    requires |prefix| <= |counts| == |lists| && InBounds(counts[..|prefix|], prefix)
    requires forall i, b :: 0 <= i < |lists| && b in lists[i] ==> b < counts[i]
    ensures AllInBounds(counts, With(prefix, Combos(lists[|prefix|..])))
  {
    var n, tails := |prefix|, Combos(lists[|prefix|..]);
    forall k | 0 <= k < |tails|
      ensures InBounds(counts, prefix + tails[k])
    {
      CombosInBounds(counts[n..], lists[n..], k);
      forall i | 0 <= i < |counts|
        ensures (prefix + tails[k])[i] < counts[i]
      {
        if i < n {
          assert prefix[i] < counts[..n][i];
        } else {
          assert tails[k][i - n] < counts[n..][i - n];
        }
      }
    }
  }

  class Cross {
    const shape: Shape
    const filters: seq<Filter>
    var hits: seq<nat>
    var filterHits: seq<nat>
    var illegalHits: nat

    function View(): Tally
      reads this
    {
      Tally(hits, filterHits, illegalHits)
    }

    ghost predicate Valid()
      reads this
    {
      Fits(shape, filters, View())
    }

    constructor (crossed: Shape, selected: seq<Filter>)
      requires crossed.Valid()
      ensures Valid() && shape == crossed && filters == selected && View() == Fresh(shape, filters)
    {
      shape, filters := crossed, selected;
      var total := 1;
      for i := 0 to |crossed.counts|
        invariant total == Product(crossed.counts[..i])
      {
        ProductSnoc(crossed.counts[..i], crossed.counts[i]);
        assert crossed.counts[..i + 1] == crossed.counts[..i] + [crossed.counts[i]];
        total := total * crossed.counts[i];
      }
      assert crossed.counts[..|crossed.counts|] == crossed.counts;
      hits := Zeros(total);
      filterHits := Zeros(|selected|);
      illegalHits := 0;
    }

    method IndexOf(bins: seq<nat>) returns (index: nat)
      requires |bins| == |shape.counts|
      ensures index == Index(shape.counts, bins)
    {
      index := 0;
      for position := 0 to |bins|
        invariant index == Index(shape.counts[..position], bins[..position])
      {
        IndexSnoc(shape.counts[..position], bins[..position], shape.counts[position], bins[position]);
        assert shape.counts[..position + 1] == shape.counts[..position] + [shape.counts[position]];
        assert bins[..position + 1] == bins[..position] + [bins[position]];
        index := index * shape.counts[position] + bins[position];
      }
      assert shape.counts[..|bins|] == shape.counts && bins[..|bins|] == bins;
    }

    method ExcludedBy(bins: seq<nat>) returns (r: Option<nat>)
      requires shape.Valid() && |bins| == |shape.points|
      ensures r == Excluded(shape, filters, bins)
    {
      var illegalMatch := None;
      var i := 0;
      while i < |filters|
        invariant i <= |filters|
        invariant FirstMatch(shape, filters, bins, false, 0) == FirstMatch(shape, filters, bins, false, i)
        invariant illegalMatch.None? ==>
          FirstMatch(shape, filters, bins, true, 0) == FirstMatch(shape, filters, bins, true, i)
        invariant illegalMatch.Some? ==> FirstMatch(shape, filters, bins, true, 0) == illegalMatch
      {
        if Matches(shape, filters[i].select, bins) {
          if !filters[i].illegal {
            return Some(i);
          }
          if illegalMatch.None? {
            illegalMatch := Some(i);
          }
        }
        i := i + 1;
      }
      r := illegalMatch;
    }

    /** The return value is how many illegal combinations the sample met. */
    method Sample(open: bool, lists: seq<seq<nat>>) returns (illegal: nat)
      requires Valid() && Handed(shape.counts, lists)
      modifies this`hits, this`filterHits, this`illegalHits
      ensures Valid() && View() == Sampled(shape, filters, old(View()), Sampling(open, lists))
      ensures illegal == illegalHits - old(illegalHits)
    {
      if !open {
        return 0;
      }
      var bins := new nat[|shape.points|](_ => 0);
      illegal := 0;
      HandedInBounds(shape.counts, lists);
      EmptyPrefix(Combos(lists));
      assert lists[0..] == lists && bins[..0] == [];
      illegal := Walk(0, bins, lists, illegal);
    }

    method Walk(position: nat, bins: array<nat>, lists: seq<seq<nat>>, count: nat) returns (illegal: nat)
      requires Valid() && |lists| == |shape.counts| == bins.Length && position <= bins.Length
      requires forall i, b :: 0 <= i < |lists| && b in lists[i] ==> b < shape.counts[i]
      requires InBounds(shape.counts[..position], bins[..position])
      modifies this`hits, this`filterHits, this`illegalHits, bins
      ensures Valid() && bins[..position] == old(bins[..position])
      ensures AllInBounds(shape.counts, With(old(bins[..position]), Combos(lists[position..])))
      ensures View()
           == CountAll(shape, filters, old(View()), With(old(bins[..position]), Combos(lists[position..])))
      ensures illegal - count == illegalHits - old(illegalHits)
      decreases bins.Length - position
    {
      hide CountOne, CountAll, Excluded, Index, Product, InBounds, AllInBounds, Fits, Combos, Spread, With;
      FitsShape(shape, filters, View());
      illegal := count;
      ghost var prefix, start := bins[..position], View();
      assert |prefix| == position;
      ExtendedInBounds(shape.counts, prefix, lists);
      if position == |shape.points| {
        LastPosition(shape, filters, start, prefix, lists);
        assert bins[..] == prefix;
        illegal := CountBins(bins[..], count);
        return;
      }
      ghost var heads, tails := lists[position], Combos(lists[position + 1..]);
      FirstList(lists, position);
      NothingYet(shape, filters, start, hits, prefix, heads, tails);
      var k := 0;
      while k < |lists[position]|
        invariant 0 <= k <= |heads|
        invariant Valid() && bins[..position] == prefix
        invariant AllInBounds(shape.counts, With(prefix, Spread(heads[..k], tails)))
        invariant View() == CountAll(shape, filters, start, With(prefix, Spread(heads[..k], tails)))
        invariant illegal - count == illegalHits - start.illegalHits
      {
        bins[position] := lists[position][k];
        assert heads[k] in lists[position];
        PrefixGrows(bins[..], prefix, heads[k]);
        OneMoreBin(shape.counts, prefix, heads[k]);
        illegal := Walk(position + 1, bins, lists, illegal);
        PrefixStays(bins[..], prefix, heads[k]);
        NextHead(prefix, heads, k, tails);
        CountJoin(shape, filters, start, With(prefix, Spread(heads[..k], tails)), With(prefix + [heads[k]], tails));
        k := k + 1;
      }
      assert heads[..|heads|] == heads;
    }

    /** The innermost step of `walk`. */
    method CountBins(bins: seq<nat>, count: nat) returns (illegal: nat)
      requires Valid() && InBounds(shape.counts, bins)
      modifies this`hits, this`filterHits, this`illegalHits
      ensures Valid() && View() == CountOne(shape, filters, old(View()), bins)
      ensures illegal - count == illegalHits - old(illegalHits)
    {
      illegal := count;
      var excluded := ExcludedBy(bins);
      if excluded.None? {
        var index := IndexOf(bins);
        IndexBound(shape.counts, bins);
        hits := hits[index := hits[index] + 1];
        return;
      }
      filterHits := filterHits[excluded.value := filterHits[excluded.value] + 1];
      if filters[excluded.value].illegal {
        illegal := illegal + 1;
        illegalHits := illegalHits + 1;
      }
    }

    /** The bins of `snapshot`. */
    method Snapshot() returns (entries: seq<Entry>)
      requires Valid()
      ensures AllInBounds(shape.counts, Combos(Everything(shape.counts)))
      ensures entries == Reported(shape, filters, hits, Combos(Everything(shape.counts)))
      ensures Lists(shape, filters, hits, entries, |hits|)
    {
      ReportedExact(shape, filters, hits);
      var bins := new nat[|shape.points|](_ => 0);
      var all := Everything(shape.counts);
      EmptyPrefix(Combos(all));
      assert all[0..] == all && bins[..0] == [];
      entries := Collect(0, bins, []);
    }

    method Collect(position: nat, bins: array<nat>, before: seq<Entry>) returns (entries: seq<Entry>)
      requires Valid() && |shape.counts| == bins.Length && position <= bins.Length
      requires InBounds(shape.counts[..position], bins[..position])
      modifies bins
      ensures Valid() && bins[..position] == old(bins[..position]) && hits == old(hits)
      ensures AllInBounds(shape.counts, With(old(bins[..position]), Combos(Everything(shape.counts)[position..])))
      ensures entries == before
        + Reported(shape, filters, hits, With(old(bins[..position]), Combos(Everything(shape.counts)[position..])))
      decreases bins.Length - position
    {
      hide Excluded, Index, Product, InBounds, AllInBounds, Reported, Combos, Spread, With, Fits;
      FitsShape(shape, filters, View());
      entries := before;
      ghost var prefix, all := bins[..position], Everything(shape.counts);
      assert |prefix| == position;
      ExtendedInBounds(shape.counts, prefix, all);
      if position == |shape.points| {
        LastReported(shape, filters, hits, prefix, all);
        assert bins[..] == prefix;
        var excluded := ExcludedBy(bins[..]);
        if excluded.Some? {
          return;
        }
        var index := IndexOf(bins[..]);
        IndexBound(shape.counts, bins[..]);
        entries := entries + [Entry(bins[..], hits[index])];
        return;
      }
      ghost var heads, tails := all[position], Combos(all[position + 1..]);
      FirstList(all, position);
      NothingYet(shape, filters, View(), hits, prefix, heads, tails);
      for bin := 0 to shape.counts[position]
        invariant Valid() && bins[..position] == prefix && hits == old(hits)
        invariant AllInBounds(shape.counts, With(prefix, Spread(heads[..bin], tails)))
        invariant entries == before + Reported(shape, filters, hits, With(prefix, Spread(heads[..bin], tails)))
      {
        bins[position] := bin;
        PrefixGrows(bins[..], prefix, heads[bin]);
        OneMoreBin(shape.counts, prefix, heads[bin]);
        entries := Collect(position + 1, bins, entries);
        PrefixStays(bins[..], prefix, heads[bin]);
        NextHead(prefix, heads, bin, tails);
        ReportedJoin(shape, filters, hits, With(prefix, Spread(heads[..bin], tails)),
          With(prefix + [heads[bin]], tails));
      }
      assert heads[..|heads|] == heads;
    }
  }

  lemma FitsShape(shape: Shape, filters: seq<Filter>, t: Tally)
    requires Fits(shape, filters, t)
    ensures shape.Valid() && |t.hits| == Product(shape.counts) && |t.filterHits| == |filters|
  {
  }

  lemma PrefixGrows(bins: seq<nat>, prefix: seq<nat>, b: nat)
    requires |prefix| < |bins| && bins[..|prefix|] == prefix && bins[|prefix|] == b
    ensures bins[..|prefix| + 1] == prefix + [b]
  {
  }

  lemma PrefixStays(bins: seq<nat>, prefix: seq<nat>, b: nat)
    requires |prefix| < |bins| && bins[..|prefix| + 1] == prefix + [b]
    ensures bins[..|prefix|] == prefix
  {
    assert bins[..|prefix|] == bins[..|prefix| + 1][..|prefix|];
  }

  lemma NextHead(prefix: seq<nat>, heads: seq<nat>, k: nat, tails: seq<seq<nat>>)
    requires k < |heads|
    ensures With(prefix, Spread(heads[..k + 1], tails))
         == With(prefix, Spread(heads[..k], tails)) + With(prefix + [heads[k]], tails)
  {
    WithSpread(prefix, heads[..k], heads[k], tails);
    assert heads[..k + 1] == heads[..k] + [heads[k]];
  }

  lemma NothingYet(shape: Shape, filters: seq<Filter>, t: Tally, hits: seq<nat>, prefix: seq<nat>, heads: seq<nat>,
                   tails: seq<seq<nat>>)
    requires Fits(shape, filters, t) && |hits| == Product(shape.counts)
    ensures With(prefix, Spread(heads[..0], tails)) == [] && AllInBounds(shape.counts, [])
    ensures CountAll(shape, filters, t, []) == t && Reported(shape, filters, hits, []) == []
  {
  }

  lemma EmptyPrefix(combos: seq<seq<nat>>)
    ensures With([], combos) == combos
  {
    forall k | 0 <= k < |combos|
      ensures With([], combos)[k] == combos[k]
    {
      assert [] + combos[k] == combos[k];
    }
  }

  lemma FirstList(lists: seq<seq<nat>>, position: nat)
    requires position < |lists|
    ensures Combos(lists[position..]) == Spread(lists[position], Combos(lists[position + 1..]))
  {
    assert lists[position..][1..] == lists[position + 1..];
  }

  lemma OneMoreBin(counts: seq<nat>, prefix: seq<nat>, b: nat)
    requires |prefix| < |counts| && InBounds(counts[..|prefix|], prefix) && b < counts[|prefix|]
    ensures InBounds(counts[..|prefix| + 1], prefix + [b])
  {
    forall i | 0 <= i < |prefix|
      ensures prefix[i] < counts[i]
    {
      assert prefix[i] < counts[..|prefix|][i];
    }
  }

  lemma LastPosition(shape: Shape, filters: seq<Filter>, t: Tally, prefix: seq<nat>, lists: seq<seq<nat>>)
    requires Fits(shape, filters, t) && |prefix| == |lists| == |shape.counts|
    requires InBounds(shape.counts[..|prefix|], prefix)
    ensures InBounds(shape.counts, prefix) && AllInBounds(shape.counts, With(prefix, Combos(lists[|prefix|..])))
    ensures CountAll(shape, filters, t, With(prefix, Combos(lists[|prefix|..]))) == CountOne(shape, filters, t, prefix)
  {
    assert shape.counts[..|prefix|] == shape.counts;
    assert lists[|prefix|..] == [] && prefix + [] == prefix;
    var combos := With(prefix, Combos(lists[|prefix|..]));
    assert combos == [prefix] && combos[..0] == [];
  }

  lemma LastReported(shape: Shape, filters: seq<Filter>, hits: seq<nat>, prefix: seq<nat>, lists: seq<seq<nat>>)
    requires shape.Valid() && |hits| == Product(shape.counts) && |prefix| == |lists| == |shape.counts|
    requires InBounds(shape.counts[..|prefix|], prefix)
    ensures InBounds(shape.counts, prefix) && Index(shape.counts, prefix) < |hits|
    ensures AllInBounds(shape.counts, With(prefix, Combos(lists[|prefix|..])))
    ensures Reported(shape, filters, hits, With(prefix, Combos(lists[|prefix|..])))
         == if Excluded(shape, filters, prefix).None? then [Entry(prefix, hits[Index(shape.counts, prefix)])] else []
  {
    assert shape.counts[..|prefix|] == shape.counts;
    assert lists[|prefix|..] == [] && prefix + [] == prefix;
    var combos := With(prefix, Combos(lists[|prefix|..]));
    assert combos == [prefix] && combos[..0] == [];
    IndexBound(shape.counts, prefix);
  }
}
