/** `Coverpoint`: bins of values and of transitions, hit by the values that are sampled. */
module Coverpoints {
  import opened Registrations
  import opened PackedBits
  import opened Randomness
  import Crosses

  datatype Kind = Ordinary | Ignore | Illegal | Transition

  datatype Range = Range(minimum: int, maximum: int)

  /** `care` and `want` are for wildcard bins. */
  datatype Bin = Bin(kind: Kind, from: seq<Range>, to: seq<Range>, wildcard: bool, care: Long, want: Long,
                     defaultSequence: bool)

  predicate InAny(v: int, ranges: seq<Range>) {
    exists r :: r in ranges && r.minimum <= v <= r.maximum
  }

  /** `(raw & care) == want` on the 64 bits of the value */
  predicate Meets(care: Long, want: Long, v: int) {
    var raw := Long64(v % LONG_VALUES);
    forall i :: 0 <= i < LONG ==> (raw[i] && care[i]) == want[i]
  }

  predicate MatchesFrom(bin: Bin, v: int) {
    if bin.wildcard then Meets(bin.care, bin.want, v) else InAny(v, bin.from)
  }

  predicate MatchesTo(bin: Bin, v: int) {
    InAny(v, bin.to)
  }

  /** Only `illegal_default_sequence` makes default bins. */
  ghost predicate WellMade(bins: seq<Bin>) {
    forall i :: 0 <= i < |bins| && bins[i].defaultSequence ==> bins[i].kind.Illegal?
  }

  // ---------------------------------------------------------------------------------------------
  // Wildcard patterns
  // ---------------------------------------------------------------------------------------------

  /** The pattern without its underscores. */
  function Stripped(pattern: string): string {
    if pattern == [] then []
    else Stripped(pattern[..|pattern| - 1])
         + if pattern[|pattern| - 1] == '_' then [] else [pattern[|pattern| - 1]]
  }

  predicate Careful(c: char) {
    c == '0' || c == '1'
  }

  predicate PatternChar(c: char) {
    Careful(c) || c == '?' || c == 'x' || c == 'X'
  }

  datatype Mask = BadChar | BadLength | Mask(care: Long, want: Long)

  // The masks hold the last 64 digits of `digits`, the last one in bit 0.
  ghost predicate Holds(digits: string, care: Long, want: Long) {
    forall i :: 0 <= i < LONG ==>
      && (care[i] <==> i < |digits| && Careful(digits[|digits| - 1 - i]))
      && (want[i] <==> i < |digits| && digits[|digits| - 1 - i] == '1')
  }

  function SetLowest(w: Long, bit: bool): Long {
    w[0 := w[0] || bit]
  }

  lemma HoldsNext(digits: string, c: char, care: Long, want: Long)
    requires Holds(digits, care, want)
    ensures Holds(digits + [c], SetLowest(Up(care, 1), Careful(c)), SetLowest(Up(want, 1), c == '1'))
  {
    forall i | 0 < i < LONG
      ensures Up(care, 1)[i] == care[i - 1] && Up(want, 1)[i] == want[i - 1]
    {
    }
  }

  lemma StrippedNext(pattern: string, k: nat)
    requires k < |pattern|
    ensures Stripped(pattern[..k + 1])
         == if pattern[k] == '_' then Stripped(pattern[..k]) else Stripped(pattern[..k]) + [pattern[k]]
  {
    assert pattern[..k + 1][..k] == pattern[..k];
    assert Stripped(pattern[..k]) + [] == Stripped(pattern[..k]);
  }

  /** The parsing half of `add_wildcard`. */
  method ParseWildcard(pattern: string) returns (r: Mask)
    ensures r.BadChar? <==> exists k :: 0 <= k < |pattern| && pattern[k] != '_' && !PatternChar(pattern[k])
    ensures r.BadLength? ==> Stripped(pattern) == [] || |Stripped(pattern)| > 64
    ensures r.Mask? ==> 1 <= |Stripped(pattern)| <= 64 && Holds(Stripped(pattern), r.care, r.want)
  {
    hide Up, Stripped, Holds, PatternChar;
    var care: Long, want: Long, bits := NOTHING, NOTHING, 0;
    StartHolds();
    for k := 0 to |pattern|
      invariant bits == |Stripped(pattern[..k])| && Holds(Stripped(pattern[..k]), care, want)
      invariant forall j :: 0 <= j < k && pattern[j] != '_' ==> PatternChar(pattern[j])
    {
      var c := pattern[k];
      StrippedNext(pattern, k);
      if c != '_' {
        HoldsNext(Stripped(pattern[..k]), c, care, want);
        if !PatternChar(c) {
          return BadChar;
        }
        care, want, bits := SetLowest(Up(care, 1), Careful(c)), SetLowest(Up(want, 1), c == '1'), bits + 1;
      }
    }
    assert pattern[..|pattern|] == pattern;
    if bits == 0 || bits > 64 {
      return BadLength;
    }
    r := Mask(care, want);
  }

  lemma StartHolds()
    ensures Stripped("") == "" && Holds("", NOTHING, NOTHING)
  {
  }

  /** A wildcard bin matches a value just when each 0 or 1 of its pattern is the value's bit in that place. */
  lemma WildcardExact(digits: string, care: Long, want: Long, v: int)
    requires |digits| <= 64 && Holds(digits, care, want)
    ensures Meets(care, want, v) <==>
      forall i :: 0 <= i < |digits| && Careful(digits[|digits| - 1 - i]) ==>
        (Long64(v % LONG_VALUES)[i] <==> digits[|digits| - 1 - i] == '1')
  {
  }

  // ---------------------------------------------------------------------------------------------
  // What a sample hits
  // ---------------------------------------------------------------------------------------------

  predicate Bars(bin: Bin, v: int) {
    (bin.kind.Ignore? || bin.kind.Illegal?) && !bin.defaultSequence && MatchesFrom(bin, v)
  }

  /** An ignore or illegal bin keeps the value from all others. */
  predicate Barred(bins: seq<Bin>, v: int) {
    exists i :: 0 <= i < |bins| && Bars(bins[i], v)
  }

  predicate Takes(bin: Bin, previous: Option<int>, v: int) {
    bin.kind.Transition? && previous.Some? && MatchesFrom(bin, previous.value) && MatchesTo(bin, v)
  }

  /** A transition that no transition bin lists, where there are some. */
  predicate Unlisted(bins: seq<Bin>, previous: Option<int>, v: int) {
    && previous.Some?
    && (exists i :: 0 <= i < |bins| && bins[i].kind.Transition?)
    && !exists i :: 0 <= i < |bins| && Takes(bins[i], previous, v)
  }

  predicate Hit(bins: seq<Bin>, previous: Option<int>, v: int, i: nat)
    requires i < |bins|
  {
    if bins[i].defaultSequence then !Barred(bins, v) && Unlisted(bins, previous, v)
    else match bins[i].kind
      case Ignore => MatchesFrom(bins[i], v)
      case Illegal => MatchesFrom(bins[i], v)
      case Ordinary => !Barred(bins, v) && MatchesFrom(bins[i], v)
      case Transition => !Barred(bins, v) && Takes(bins[i], previous, v)
  }

  /** How many ordinary bins there are among the first n. */
  function Rank(bins: seq<Bin>, n: nat): nat
    requires n <= |bins|
  {
    if n == 0 then 0 else Rank(bins, n - 1) + (if bins[n - 1].kind.Ordinary? then 1 else 0)
  }

  /** The numbers, among the ordinary bins, of those that match. */
  function Matched(bins: seq<Bin>, v: int, n: nat): seq<nat>
    requires n <= |bins|
  {
    if n == 0 then []
    else
      Matched(bins, v, n - 1)
      + if bins[n - 1].kind.Ordinary? && MatchesFrom(bins[n - 1], v) then [Rank(bins, n - 1)] else []
  }

  function IllegalCount(bins: seq<Bin>, previous: Option<int>, v: int, n: nat): nat
    requires n <= |bins|
  {
    if n == 0 then 0
    else
      IllegalCount(bins, previous, v, n - 1)
      + (if bins[n - 1].kind.Illegal? && Hit(bins, previous, v, n - 1) then 1 else 0)
  }

  datatype Point = Point(hits: seq<nat>, samples: nat, illegalHits: nat, previous: Option<int>, last: seq<nat>)

  /** `sample` */
  function Sampled(bins: seq<Bin>, p: Point, open: bool, v: int): (r: Point)
    requires |p.hits| == |bins|
    ensures |r.hits| == |bins|
  {
    if !open then p.(last := [])
    else Point(
      seq<nat>(|bins|, i requires 0 <= i < |bins| => if Hit(bins, p.previous, v, i) then p.hits[i] + 1 else p.hits[i]),
      p.samples + 1,
      p.illegalHits + IllegalCount(bins, p.previous, v, |bins|),
      Some(v),
      if Barred(bins, v) then [] else Matched(bins, v, |bins|))
  }

  lemma {:induction false} RankGrows(bins: seq<Bin>, i: nat, n: nat)
    requires i <= n <= |bins|
    ensures Rank(bins, i) <= Rank(bins, n)
    ensures i < n && bins[i].kind.Ordinary? ==> Rank(bins, i) < Rank(bins, n)
    decreases n - i
  {
    if i < n {
      RankGrows(bins, i, n - 1);
    }
  }

  lemma {:induction false} MatchedIncreases(bins: seq<Bin>, v: int, n: nat)
    requires n <= |bins|
    ensures Crosses.Increasing(Matched(bins, v, n)) && forall b :: b in Matched(bins, v, n) ==> b < Rank(bins, n)
  {
    hide MatchesFrom;
    if n > 0 {
      MatchedIncreases(bins, v, n - 1);
      AppendIncreases(Matched(bins, v, n - 1), Rank(bins, n - 1));
    }
  }

  lemma AppendIncreases(list: seq<nat>, x: nat)
    requires Crosses.Increasing(list) && forall b :: b in list ==> b < x
    ensures Crosses.Increasing(list + [x])
  {
    forall i | 0 <= i < |list|
      ensures list[i] < x
    {
      assert list[i] in list;
    }
  }

  lemma {:induction false} MatchedAt(bins: seq<Bin>, v: int, n: nat, i: nat)
    requires i < n <= |bins| && bins[i].kind.Ordinary?
    ensures Rank(bins, i) in Matched(bins, v, n) <==> MatchesFrom(bins[i], v)
    decreases n
  {
    hide MatchesFrom;
    MatchedIncreases(bins, v, n - 1);
    var added := if bins[n - 1].kind.Ordinary? && MatchesFrom(bins[n - 1], v) then [Rank(bins, n - 1)] else [];
    InJoin(Matched(bins, v, n - 1), added, Rank(bins, i));
    if i < n - 1 {
      RankGrows(bins, i, n - 1);
      MatchedAt(bins, v, n - 1, i);
    }
  }

  lemma InJoin(a: seq<nat>, b: seq<nat>, x: nat)
    ensures x in a + b <==> x in a || x in b
  {
  }

  /** The list given to crosses is increasing and names exactly the ordinary bins that were hit. */
  lemma MatchedExact(bins: seq<Bin>, v: int)
    ensures var list := Matched(bins, v, |bins|);
      && Crosses.Increasing(list) && (forall b :: b in list ==> b < Rank(bins, |bins|))
      && (forall i :: 0 <= i < |bins| && bins[i].kind.Ordinary? ==>
        (Rank(bins, i) in list <==> MatchesFrom(bins[i], v)))
  {
    MatchedIncreases(bins, v, |bins|);
    forall i | 0 <= i < |bins| && bins[i].kind.Ordinary?
      ensures Rank(bins, i) in Matched(bins, v, |bins|) <==> MatchesFrom(bins[i], v)
    {
      MatchedAt(bins, v, |bins|, i);
    }
  }

  /** What the coverpoints hand to a cross is what a cross expects. */
  lemma HandedOver(points: seq<seq<Bin>>, values: seq<int>, lists: seq<seq<nat>>, counts: seq<nat>)
    requires |points| == |values| == |lists| == |counts|
    requires forall i :: 0 <= i < |points| ==> counts[i] == Rank(points[i], |points[i]|)
    requires forall i :: 0 <= i < |points| ==>
      lists[i] == [] || lists[i] == Matched(points[i], values[i], |points[i]|)
    ensures Crosses.Handed(counts, lists)
  {
    forall i | 0 <= i < |points|
      ensures Crosses.Increasing(lists[i]) && forall b :: b in lists[i] ==> b < counts[i]
    {
      MatchedExact(points[i], values[i]);
    }
  }

  // ---------------------------------------------------------------------------------------------
  // Runs
  // ---------------------------------------------------------------------------------------------

  datatype Offer = Offer(open: bool, value: int)

  function Fresh(bins: seq<Bin>): Point {
    Point(Crosses.Zeros(|bins|), 0, 0, None, [])
  }

  function Run(bins: seq<Bin>, offers: seq<Offer>): (r: Point)
    ensures |r.hits| == |bins|
  {
    if offers == [] then Fresh(bins)
    else
      var o := offers[|offers| - 1];
      Sampled(bins, Run(bins, offers[..|offers| - 1]), o.open, o.value)
  }

  /** The values that the guard let through. */
  function Kept(offers: seq<Offer>): seq<int> {
    if offers == [] then []
    else
      var o := offers[|offers| - 1];
      Kept(offers[..|offers| - 1]) + if o.open then [o.value] else []
  }

  function Before(values: seq<int>, k: nat): Option<int>
    requires k <= |values|
  {
    if k == 0 then None else Some(values[k - 1])
  }

  /** How often bin i is hit by a list of values, each following the one before it. */
  function HitCount(bins: seq<Bin>, values: seq<int>, i: nat): nat
    requires i < |bins|
  {
    if values == [] then 0
    else
      var k := |values| - 1;
      HitCount(bins, values[..k], i) + (if Hit(bins, Before(values, k), values[k], i) then 1 else 0)
  }

  function IllegalTotal(bins: seq<Bin>, values: seq<int>): nat {
    if values == [] then 0
    else
      var k := |values| - 1;
      IllegalTotal(bins, values[..k]) + IllegalCount(bins, Before(values, k), values[k], |bins|)
  }

  /** A value that the guard rejects is not a sample: over any run the counters are those of the kept values,
      and a transition is between consecutive kept values. */
  lemma {:induction false} RunExact(bins: seq<Bin>, offers: seq<Offer>)
    ensures var p := Run(bins, offers); var kept := Kept(offers);
      && p.samples == |kept| && p.previous == Before(kept, |kept|)
      && p.illegalHits == IllegalTotal(bins, kept)
      && forall i :: 0 <= i < |bins| ==> p.hits[i] == HitCount(bins, kept, i)
  {
    if offers != [] {
      var n := |offers| - 1;
      RunExact(bins, offers[..n]);
      var was, o := Kept(offers[..n]), offers[n];
      if o.open {
        var kept := was + [o.value];
        assert kept[..|kept| - 1] == was && Kept(offers) == kept;
        assert Before(kept, |kept| - 1) == Before(was, |was|);
      } else {
        assert Kept(offers) == was;
      }
    }
  }

  // ---------------------------------------------------------------------------------------------
  // Two runs
  // ---------------------------------------------------------------------------------------------

  /** The transition from the last value of one run to the first of the next, which neither run sees, hits bin i. */
  predicate AcrossSeam(bins: seq<Bin>, one: seq<int>, two: seq<int>, i: nat)
    requires i < |bins|
  {
    && one != [] && two != [] && !Barred(bins, two[0])
    && if bins[i].defaultSequence then Unlisted(bins, Some(one[|one| - 1]), two[0])
       else Takes(bins[i], Some(one[|one| - 1]), two[0])
  }

  /** The default bins that this transition hits, each an error. */
  function SeamErrors(bins: seq<Bin>, one: seq<int>, two: seq<int>, n: nat): nat
    requires n <= |bins|
  {
    if n == 0 then 0
    else
      SeamErrors(bins, one, two, n - 1)
      + (if bins[n - 1].defaultSequence && AcrossSeam(bins, one, two, n - 1) then 1 else 0)
  }

  lemma SeamHit(bins: seq<Bin>, one: seq<int>, two: seq<int>, i: nat)
    requires WellMade(bins) && i < |bins| && one != [] && two != []
    ensures Hit(bins, Some(one[|one| - 1]), two[0], i) <==> Hit(bins, None, two[0], i) || AcrossSeam(bins, one, two, i)
    ensures !(Hit(bins, None, two[0], i) && AcrossSeam(bins, one, two, i))
  {
    assert Bars(bins[i], two[0]) ==> Barred(bins, two[0]);
  }

  /** A bin is hit in two runs together as often as in each, and once more if the transition between them hits it. */
  lemma {:induction false} HitsJoin(bins: seq<Bin>, one: seq<int>, two: seq<int>, i: nat)
    requires WellMade(bins) && i < |bins|
    ensures HitCount(bins, one + two, i)
         == HitCount(bins, one, i) + HitCount(bins, two, i) + if AcrossSeam(bins, one, two, i) then 1 else 0
    decreases |two|
  {
    hide Hit, AcrossSeam;
    if two == [] {
      assert one + two == one;
      NoSeam(bins, one, two, i);
    } else {
      var k, both := |two| - 1, one + two;
      HitsJoin(bins, one, two[..k], i);
      assert both[..|both| - 1] == one + two[..k] && both[|both| - 1] == two[k];
      if k > 0 {
        assert Before(both, |both| - 1) == Before(two, k) && two[..k][0] == two[0];
        SameSeam(bins, one, two[..k], two, i);
      } else {
        NoSeam(bins, one, two[..k], i);
        FirstOfTwo(bins, one, two, i);
      }
    }
  }

  lemma NoSeam(bins: seq<Bin>, one: seq<int>, two: seq<int>, i: nat)
    requires i < |bins| && (one == [] || two == [])
    ensures !AcrossSeam(bins, one, two, i)
  {
  }

  lemma SameSeam(bins: seq<Bin>, one: seq<int>, two: seq<int>, more: seq<int>, i: nat)
    requires i < |bins| && two != [] && more != [] && two[0] == more[0]
    ensures AcrossSeam(bins, one, two, i) == AcrossSeam(bins, one, more, i)
  {
  }

  lemma FirstOfTwo(bins: seq<Bin>, one: seq<int>, two: seq<int>, i: nat)
    requires WellMade(bins) && i < |bins| && |two| == 1
    ensures (if Hit(bins, Before(one + two, |one|), two[0], i) then 1 else 0)
         == (if Hit(bins, None, two[0], i) then 1 else 0) + if AcrossSeam(bins, one, two, i) then 1 else 0
  {
    if one == [] {
      NoSeam(bins, one, two, i);
    } else {
      SeamHit(bins, one, two, i);
    }
  }

  lemma {:induction false} SeamIllegal(bins: seq<Bin>, one: seq<int>, two: seq<int>, n: nat)
    requires WellMade(bins) && n <= |bins| && one != [] && two != []
    ensures IllegalCount(bins, Some(one[|one| - 1]), two[0], n)
         == IllegalCount(bins, None, two[0], n) + SeamErrors(bins, one, two, n)
  {
    hide Hit, AcrossSeam;
    if n > 0 {
      SeamIllegal(bins, one, two, n - 1);
      SeamHit(bins, one, two, n - 1);
      SeamNotIllegal(bins, one, two, n - 1);
    }
  }

  lemma SeamNotIllegal(bins: seq<Bin>, one: seq<int>, two: seq<int>, i: nat)
    requires i < |bins|
    ensures bins[i].kind.Illegal? && !bins[i].defaultSequence ==> !AcrossSeam(bins, one, two, i)
  {
  }

  lemma {:induction false} NoSeamErrors(bins: seq<Bin>, one: seq<int>, two: seq<int>, n: nat)
    requires n <= |bins| && forall i :: 0 <= i < n ==> !AcrossSeam(bins, one, two, i)
    ensures SeamErrors(bins, one, two, n) == 0
  {
    if n > 0 {
      NoSeamErrors(bins, one, two, n - 1);
    }
  }

  lemma {:induction false} ErrorsJoin(bins: seq<Bin>, one: seq<int>, two: seq<int>)
    requires WellMade(bins)
    ensures IllegalTotal(bins, one + two)
         == IllegalTotal(bins, one) + IllegalTotal(bins, two) + SeamErrors(bins, one, two, |bins|)
    decreases |two|
  {
    hide IllegalCount, AcrossSeam;
    if two == [] {
      assert one + two == one;
      SeamErrorsOf(bins, one, two, |bins|);
    } else {
      var k, both := |two| - 1, one + two;
      ErrorsJoin(bins, one, two[..k]);
      assert both[..|both| - 1] == one + two[..k] && both[|both| - 1] == two[k];
      SeamErrorsOf(bins, one, two[..k], |bins|);
      SeamErrorsOf(bins, one, two, |bins|);
      if k > 0 {
        assert Before(both, |both| - 1) == Before(two, k);
        SameSeamErrors(bins, one, two[..k], two, |bins|);
      } else if one != [] {
        SeamIllegal(bins, one, two, |bins|);
      }
    }
  }

  lemma {:induction false} SeamErrorsOf(bins: seq<Bin>, one: seq<int>, two: seq<int>, n: nat)
    requires n <= |bins|
    ensures one == [] || two == [] ==> SeamErrors(bins, one, two, n) == 0
  {
    if one == [] || two == [] {
      NoSeamErrors(bins, one, two, n);
    }
  }

  lemma {:induction false} SameSeamErrors(bins: seq<Bin>, one: seq<int>, two: seq<int>, more: seq<int>, n: nat)
    requires n <= |bins| && two != [] && more != [] && two[0] == more[0]
    ensures SeamErrors(bins, one, two, n) == SeamErrors(bins, one, more, n)
  {
    hide AcrossSeam;
    if n > 0 {
      SameSeamErrors(bins, one, two, more, n - 1);
      SameSeam(bins, one, two, more, n - 1);
    }
  }

  lemma {:induction false} KeptJoin(one: seq<Offer>, two: seq<Offer>)
    ensures Kept(one + two) == Kept(one) + Kept(two)
    decreases |two|
  {
    if two == [] {
      assert one + two == one;
    } else {
      var k := |two| - 1;
      KeptJoin(one, two[..k]);
      assert (one + two)[..|one + two| - 1] == one + two[..k];
    }
  }

  /** One run after another: the counters are the sums of those of the two runs, but for the transition from the last
      value of the first to the first of the second, which only the joint run sees. */
  lemma RunsJoin(bins: seq<Bin>, one: seq<Offer>, two: seq<Offer>)
    requires WellMade(bins)
    ensures var a, b, c := Run(bins, one), Run(bins, two), Run(bins, one + two);
      && c.samples == a.samples + b.samples
      && c.illegalHits == a.illegalHits + b.illegalHits + SeamErrors(bins, Kept(one), Kept(two), |bins|)
      && forall i :: 0 <= i < |bins| ==>
           c.hits[i] == a.hits[i] + b.hits[i] + if AcrossSeam(bins, Kept(one), Kept(two), i) then 1 else 0
  {
    hide Hit, AcrossSeam, IllegalCount, Sampled;
    RunExact(bins, one);
    RunExact(bins, two);
    RunExact(bins, one + two);
    KeptJoin(one, two);
    ErrorsJoin(bins, Kept(one), Kept(two));
    forall i | 0 <= i < |bins|
      ensures HitCount(bins, Kept(one) + Kept(two), i) == HitCount(bins, Kept(one), i) + HitCount(bins, Kept(two), i)
        + if AcrossSeam(bins, Kept(one), Kept(two), i) then 1 else 0
    {
      HitsJoin(bins, Kept(one), Kept(two), i);
    }
  }

  // ---------------------------------------------------------------------------------------------
  // The class
  // ---------------------------------------------------------------------------------------------

  class Coverpoint {
    const bins: seq<Bin>
    var hits: seq<nat>
    var samples: nat
    var illegalHits: nat
    var previous: Option<int>
    var last: seq<nat>

    function View(): Point
      reads this
    {
      Point(hits, samples, illegalHits, previous, last)
    }

    ghost predicate Valid()
      reads this
    {
      |hits| == |bins| && WellMade(bins)
    }

    constructor (made: seq<Bin>)
      requires WellMade(made)
      ensures Valid() && bins == made && View() == Fresh(made)
    {
      bins, hits, samples, illegalHits, previous, last := made, Crosses.Zeros(|made|), 0, 0, None, [];
    }

    /** `open` is what the guard says. */
    method Sample(open: bool, v: int) returns (illegal: nat)
      requires Valid()
      modifies this
      ensures Valid() && View() == Sampled(bins, old(View()), open, v)
      ensures illegal == illegalHits - old(illegalHits)
    {
      hide MatchesFrom, MatchesTo;
      ghost var start := View();
      last := [];
      if !open {
        return 0;
      }
      samples := samples + 1;
      var ignored := false;
      illegal := 0;
      for i := 0 to |bins|
        invariant Valid() && samples == start.samples + 1 && previous == start.previous && last == []
        invariant illegalHits == start.illegalHits + illegal && illegal == BarredCount(bins, v, i)
        invariant ignored || illegal > 0 <==> exists k :: 0 <= k < i && Bars(bins[k], v)
        invariant forall k :: 0 <= k < |bins| ==>
          hits[k] == start.hits[k] + if k < i && Bars(bins[k], v) then 1 else 0
      {
        if (bins[i].kind.Ignore? || bins[i].kind.Illegal?) && !bins[i].defaultSequence && MatchesFrom(bins[i], v) {
          hits := hits[i := hits[i] + 1];
          if bins[i].kind.Illegal? {
            illegal := illegal + 1;
            illegalHits := illegalHits + 1;
          } else {
            ignored := true;
          }
        }
      }
      if !ignored && illegal == 0 {
        illegal := SampleOpen(v);
      } else {
        BarredIllegal(bins, start.previous, v, |bins|);
      }
      previous := Some(v);
    }

    /** The second half of `sample`, for a value that no ignore or illegal bin takes. */
    method SampleOpen(v: int) returns (illegal: nat)
      requires Valid() && !Barred(bins, v) && last == []
      modifies this`hits, this`illegalHits, this`last
      ensures Valid() && last == Matched(bins, v, |bins|)
      ensures forall k :: 0 <= k < |bins| ==> hits[k] == old(hits[k]) + if Hit(bins, previous, v, k) then 1 else 0
      ensures illegal == illegalHits - old(illegalHits) == IllegalCount(bins, previous, v, |bins|)
    {
      hide MatchesFrom, MatchesTo, IllegalCount, Barred, Takes;
      TakesMeans(bins, previous, v);
      ghost var start := hits;
      var anyTransition, haveTransitions, ordinaryIndex := false, false, 0;
      for i := 0 to |bins|
        invariant Valid() && ordinaryIndex == Rank(bins, i) && last == Matched(bins, v, i)
        invariant haveTransitions <==> exists k :: 0 <= k < i && bins[k].kind.Transition?
        invariant anyTransition <==> exists k :: 0 <= k < i && Takes(bins[k], previous, v)
        invariant illegalHits == old(illegalHits)
        invariant forall k :: 0 <= k < |bins| ==>
          hits[k] == start[k] + if k < i && Counted(bins[k], previous, v) then 1 else 0
      {
        if bins[i].kind.Ordinary? {
          if MatchesFrom(bins[i], v) {
            hits := hits[i := hits[i] + 1];
            last := last + [ordinaryIndex];
          }
          ordinaryIndex := ordinaryIndex + 1;
        } else if bins[i].kind.Transition? {
          haveTransitions := true;
          if previous.Some? && MatchesFrom(bins[i], previous.value) && MatchesTo(bins[i], v) {
            hits := hits[i := hits[i] + 1];
            anyTransition := true;
          }
        }
      }
      illegal := 0;
      OpenHits(bins, previous, v);
      OpenIllegal(bins, previous, v, |bins|);
      if haveTransitions && previous.Some? && !anyTransition {
        illegal := SampleDefaults();
      }
    }

    /** The transitions that no bin lists. */
    method SampleDefaults() returns (illegal: nat)
      requires Valid()
      modifies this`hits, this`illegalHits
      ensures Valid()
      ensures forall k :: 0 <= k < |bins| ==> hits[k] == old(hits[k]) + if bins[k].defaultSequence then 1 else 0
      ensures illegal == illegalHits - old(illegalHits) == DefaultCount(bins, |bins|)
    {
      illegal := 0;
      for i := 0 to |bins|
        invariant Valid() && illegal == illegalHits - old(illegalHits) == DefaultCount(bins, i)
        invariant forall k :: 0 <= k < |bins| ==>
          hits[k] == old(hits[k]) + if k < i && bins[k].defaultSequence then 1 else 0
      {
        if bins[i].defaultSequence {
          hits := hits[i := hits[i] + 1];
          illegal := illegal + 1;
          illegalHits := illegalHits + 1;
        }
      }
    }
  }

  lemma TakesMeans(bins: seq<Bin>, previous: Option<int>, v: int)
    ensures forall i :: 0 <= i < |bins| ==>
      (Takes(bins[i], previous, v) <==>
        (bins[i].kind.Transition? && previous.Some? && MatchesFrom(bins[i], previous.value) && MatchesTo(bins[i], v)))
  {
  }

  /** What is hit when nothing bars the value. */
  lemma OpenHits(bins: seq<Bin>, previous: Option<int>, v: int)
    requires WellMade(bins) && !Barred(bins, v)
    ensures forall i :: 0 <= i < |bins| ==> (Hit(bins, previous, v, i) <==>
      (Counted(bins[i], previous, v) || (bins[i].defaultSequence && Unlisted(bins, previous, v))))
    ensures forall i :: 0 <= i < |bins| && bins[i].defaultSequence ==> !Counted(bins[i], previous, v)
  {
    hide MatchesFrom, MatchesTo, Unlisted;
    forall i | 0 <= i < |bins|
      ensures Hit(bins, previous, v, i) <==>
        (Counted(bins[i], previous, v) || (bins[i].defaultSequence && Unlisted(bins, previous, v)))
    {
      assert !Bars(bins[i], v);
    }
  }

  /** An ordinary or transition bin that is hit when nothing bars the value. */
  predicate Counted(bin: Bin, previous: Option<int>, v: int) {
    (bin.kind.Ordinary? && MatchesFrom(bin, v)) || Takes(bin, previous, v)
  }

  function DefaultCount(bins: seq<Bin>, n: nat): nat
    requires n <= |bins|
  {
    if n == 0 then 0 else DefaultCount(bins, n - 1) + (if bins[n - 1].defaultSequence then 1 else 0)
  }

  lemma {:induction false} BarredIllegal(bins: seq<Bin>, previous: Option<int>, v: int, n: nat)
    requires n <= |bins| && WellMade(bins) && Barred(bins, v)
    ensures IllegalCount(bins, previous, v, n) == BarredCount(bins, v, n)
  {
    if n > 0 {
      BarredIllegal(bins, previous, v, n - 1);
    }
  }

  lemma {:induction false} OpenIllegal(bins: seq<Bin>, previous: Option<int>, v: int, n: nat)
    requires n <= |bins| && WellMade(bins) && !Barred(bins, v)
    ensures IllegalCount(bins, previous, v, n) == if Unlisted(bins, previous, v) then DefaultCount(bins, n) else 0
  {
    hide Unlisted;
    if n > 0 {
      OpenIllegal(bins, previous, v, n - 1);
      assert !Bars(bins[n - 1], v);
    }
  }

  /** The illegal bins among the first n that the value is in. */
  function BarredCount(bins: seq<Bin>, v: int, n: nat): nat
    requires n <= |bins|
  {
    if n == 0 then 0
    else BarredCount(bins, v, n - 1) + (if bins[n - 1].kind.Illegal? && Bars(bins[n - 1], v) then 1 else 0)
  }
}
