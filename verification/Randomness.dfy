/** `Random`: the xoshiro256** generator, the seeds of its streams and the draws made from its words. A 64-bit
word is given by its bits, least significant first; sums and products keep the lowest 64. */
module Randomness {
  import opened Registrations
  import opened PackedBits

  const LONG: nat := 64

  const LONG_VALUES: nat := 0x1_0000_0000_0000_0000

  type Long = w: seq<bool> | |w| == LONG witness seq(LONG, _ => false)

  const NOTHING: Long := seq(LONG, _ => false)

  function Xor(a: Long, b: Long): Long {
    seq(LONG, i requires 0 <= i < LONG => a[i] != b[i])
  }

  function Down(w: Long, n: nat): Long {
    seq(LONG, i requires 0 <= i < LONG => i + n < LONG && w[i + n])
  }

  function Up(w: Long, n: nat): Long {
    seq(LONG, i requires 0 <= i < LONG => i >= n && w[i - n])
  }

  function RotateLeft(w: Long, n: nat): Long
    requires n <= LONG
  {
    w[LONG - n..] + w[..LONG - n]
  }

  function Long64(v: nat): Long {
    Digits(v, LONG)
  }

  function Plus(a: Long, n: nat): Long {
    Long64(Value(a) + n)
  }

  function Times(a: Long, n: nat): Long {
    Long64(Value(a) * n)
  }

  lemma LongPow()
    ensures Pow2(LONG) == LONG_VALUES
  {
    WordPow();
    PowDouble(WORD, WORD_VALUES);
  }

  lemma ValueOfLong(v: nat)
    ensures Value(Long64(v)) == v % LONG_VALUES
  {
    LongPow();
    ValueOfDigits(v, LONG);
  }

  /** Two words with the same value are the same. */
  lemma SameLong(a: Long, b: Long)
    requires Value(a) == Value(b)
    ensures a == b
  {
    DigitsOfValue(a);
    DigitsOfValue(b);
  }

  lemma LongBound(a: Long)
    ensures Value(a) < LONG_VALUES
  {
    LongPow();
    ValueBound(a);
  }

  // ---------------------------------------------------------------------------------------------
  // Seeds
  // ---------------------------------------------------------------------------------------------

  const GOLDEN: nat := 0x9e3779b97f4a7c15

  /** The mixing that `mix_seed` and `splitmix_next` share, after the addition. */
  function Mixed(w: Long): Long {
    var a := Times(Xor(w, Down(w, 30)), 0xbf58476d1ce4e5b9);
    var b := Times(Xor(a, Down(a, 27)), 0x94d049bb133111eb);
    Xor(b, Down(b, 31))
  }

  /** `mix_seed` */
  function MixSeed(w: Long): Long {
    Mixed(Plus(w, GOLDEN))
  }

  /** `derive_seed` */
  function DeriveSeed(master: Long, stream: Long): Long {
    MixSeed(Xor(master, Times(stream, 0xd2b74407b1ce6e93)))
  }

  lemma {:induction false} DownAt(a: Long, b: Long, n: nat, i: nat)
    requires n > 0 && Xor(a, Down(a, n)) == Xor(b, Down(b, n)) && i < LONG
    ensures a[i] == b[i]
    decreases LONG - i
  {
    assert Xor(a, Down(a, n))[i] == Xor(b, Down(b, n))[i];
    if i + n < LONG {
      DownAt(a, b, n, i + n);
    }
  }

  lemma DownOnce(a: Long, b: Long, n: nat)
    requires n > 0 && Xor(a, Down(a, n)) == Xor(b, Down(b, n))
    ensures a == b
  {
    forall i | 0 <= i < LONG
      ensures a[i] == b[i]
    {
      DownAt(a, b, n, i);
    }
  }

  lemma {:induction false} UpAt(a: Long, b: Long, n: nat, i: nat)
    requires n > 0 && Xor(a, Up(a, n)) == Xor(b, Up(b, n)) && i < LONG
    ensures a[i] == b[i]
    decreases i
  {
    assert Xor(a, Up(a, n))[i] == Xor(b, Up(b, n))[i];
    if i >= n {
      UpAt(a, b, n, i - n);
    }
  }

  lemma UpOnce(a: Long, b: Long, n: nat)
    requires n > 0 && Xor(a, Up(a, n)) == Xor(b, Up(b, n))
    ensures a == b
  {
    forall i | 0 <= i < LONG
      ensures a[i] == b[i]
    {
      UpAt(a, b, n, i);
    }
  }

  lemma XorOnce(a: Long, b: Long, c: Long)
    requires Xor(a, c) == Xor(b, c)
    ensures a == b
  {
    forall i | 0 <= i < LONG
      ensures a[i] == b[i]
    {
      assert Xor(a, c)[i] == Xor(b, c)[i];
    }
  }

  lemma XorSwap(a: Long, b: Long)
    ensures Xor(a, b) == Xor(b, a)
  {
  }

  lemma PlusOnce(a: Long, b: Long, n: nat)
    requires Plus(a, n) == Plus(b, n)
    ensures a == b
  {
    ValueOfLong(Value(a) + n);
    ValueOfLong(Value(b) + n);
    LongBound(a);
    LongBound(b);
    SumOnce(Value(a), Value(b), n, LONG_VALUES);
    SameLong(a, b);
  }

  lemma SumOnce(x: nat, y: nat, n: nat, m: nat)
    requires m > 0 && x < m && y < m && (x + n) % m == (y + n) % m
    ensures x == y
  {
    var q, p := Quotient(x + n, m), Quotient(y + n, m);
    assert x + n == m * q + Remainder(x + n, m) && y + n == m * p + Remainder(y + n, m);
    hide Quotient;
    MulOrder(m, p, q);
    MulOrder(m, q, p);
  }

  /** Multiplying by a number with an inverse modulo 2^64 loses nothing. */
  lemma TimesOnce(a: Long, b: Long, n: nat, inverse: nat, turns: nat)
    requires Times(a, n) == Times(b, n) && n * inverse == LONG_VALUES * turns + 1
    ensures a == b
  {
    ValueOfLong(Value(a) * n);
    ValueOfLong(Value(b) * n);
    LongBound(a);
    LongBound(b);
    TimesBack(Value(a), n, inverse, turns, LONG_VALUES);
    TimesBack(Value(b), n, inverse, turns, LONG_VALUES);
    SameLong(a, b);
  }

  lemma TimesBack(x: nat, n: nat, inverse: nat, turns: nat, m: nat)
    requires m > 0 && x < m && n * inverse == m * turns + 1
    ensures ((x * n) % m * inverse) % m == x
  {
    var q, r := Quotient(x * n, m), Remainder(x * n, m);
    assert r == (x * n) % m;
    ExpandProduct(x, n, inverse, turns, m, q, r);
    ResidueIs(r * inverse, m, x * turns - q * inverse, x);
  }

  lemma ExpandProduct(x: nat, n: nat, inverse: nat, turns: nat, m: nat, q: nat, r: nat)
    requires n * inverse == m * turns + 1 && x * n == m * q + r
    ensures r * inverse == m * (x * turns - q * inverse) + x
  {
    assert r * inverse + m * (q * inverse) == (x * n) * inverse == x * (n * inverse) by {
      assert (m * q + r) * inverse == (m * q) * inverse + r * inverse;
      assert (m * q) * inverse == m * (q * inverse);
      assert (x * n) * inverse == x * (n * inverse);
    }
    assert x * (m * turns + 1) == m * (x * turns) + x by {
      assert x * (m * turns) == m * (x * turns);
    }
    assert r * inverse == m * (x * turns - q * inverse) + x by {
      assert m * (x * turns - q * inverse) == m * (x * turns) - m * (q * inverse);
    }
  }

  lemma ResidueIs(v: nat, m: nat, q: int, r: nat)
    requires m > 0 && r < m && v == m * q + r
    ensures v % m == r
  {
    NegativeProduct(m, q);
    ModUnique(v, m, q, r);
  }

  lemma NegativeProduct(m: nat, q: int)
    ensures q < 0 ==> m * q <= 0 - m
  {
    if q < 0 {
      assert m * (-q - 1) >= 0;
    }
  }

  lemma MixedOnce(a: Long, b: Long)
    requires Mixed(a) == Mixed(b)
    ensures a == b
  {
    hide Xor, Down, Times;
    var c, d := Times(Xor(a, Down(a, 30)), 0xbf58476d1ce4e5b9), Times(Xor(b, Down(b, 30)), 0xbf58476d1ce4e5b9);
    var e, f := Times(Xor(c, Down(c, 27)), 0x94d049bb133111eb), Times(Xor(d, Down(d, 27)), 0x94d049bb133111eb);
    DownOnce(e, f, 31);
    TimesOnce(Xor(c, Down(c, 27)), Xor(d, Down(d, 27)), 0x94d049bb133111eb, 0x319642b2d24d8ec3, 0x1cd336eda85f1453);
    DownOnce(c, d, 27);
    TimesOnce(Xor(a, Down(a, 30)), Xor(b, Down(b, 30)), 0xbf58476d1ce4e5b9, 0x96de1b173f119089, 0x70c3bca78f27f46c);
    DownOnce(a, b, 30);
  }

  /** Different streams of one master seed get different seeds, and so do different masters of one stream. */
  lemma SeedsDiffer(master: Long, other: Long, stream: Long, sibling: Long)
    ensures DeriveSeed(master, stream) == DeriveSeed(master, sibling) ==> stream == sibling
    ensures DeriveSeed(master, stream) == DeriveSeed(other, stream) ==> master == other
  {
    hide Xor, Times, Mixed, Plus;
    var a, b, c := Times(stream, 0xd2b74407b1ce6e93), Times(sibling, 0xd2b74407b1ce6e93),
      Xor(master, Times(stream, 0xd2b74407b1ce6e93));
    if DeriveSeed(master, stream) == DeriveSeed(master, sibling) {
      MixSeedOnce(c, Xor(master, b));
      XorSwap(master, a);
      XorSwap(master, b);
      XorOnce(a, b, master);
      TimesOnce(stream, sibling, 0xd2b74407b1ce6e93, 0xf5f365bd212bdf9b, 0xca71bbceeaea5635);
    }
    if DeriveSeed(master, stream) == DeriveSeed(other, stream) {
      MixSeedOnce(c, Xor(other, a));
      XorOnce(master, other, a);
    }
  }

  lemma MixSeedOnce(a: Long, b: Long)
    requires MixSeed(a) == MixSeed(b)
    ensures a == b
  {
    hide Mixed, Plus;
    MixedOnce(Plus(a, GOLDEN), Plus(b, GOLDEN));
    PlusOnce(a, b, GOLDEN);
  }

  // ---------------------------------------------------------------------------------------------
  // The generator
  // ---------------------------------------------------------------------------------------------

  datatype State = State(s0: Long, s1: Long, s2: Long, s3: Long)

  const DEAD := State(NOTHING, NOTHING, NOTHING, NOTHING)

  function Output(s: State): Long {
    Times(RotateLeft(Times(s.s1, 5), 7), 9)
  }

  function Next(s: State): State {
    var a2, a3 := Xor(s.s2, s.s0), Xor(s.s3, s.s1);
    State(Xor(s.s0, a3), Xor(s.s1, a2), Xor(a2, Up(s.s1, 17)), RotateLeft(a3, 45))
  }

  lemma RotateOnce(a: Long, b: Long, n: nat)
    requires n <= LONG && RotateLeft(a, n) == RotateLeft(b, n)
    ensures a == b
  {
    forall i | 0 <= i < LONG
      ensures a[i] == b[i]
    {
      var k := if i < LONG - n then i + n else i - (LONG - n);
      assert RotateLeft(a, n)[k] == RotateLeft(b, n)[k];
    }
  }

  lemma Difference(a: Long, b: Long, c: Long)
    ensures Xor(Xor(a, b), Xor(b, c)) == Xor(a, c)
  {
  }

  /** No two states step to the same one. */
  lemma NextOnce(s: State, t: State)
    requires Next(s) == Next(t)
    ensures s == t
  {
    hide Xor, Up, RotateLeft;
    var a2, a3 := Xor(s.s2, s.s0), Xor(s.s3, s.s1);
    var b2, b3 := Xor(t.s2, t.s0), Xor(t.s3, t.s1);
    RotateOnce(a3, b3, 45);
    XorOnce(s.s0, t.s0, a3);
    Difference(s.s1, a2, Up(s.s1, 17));
    Difference(t.s1, b2, Up(t.s1, 17));
    UpOnce(s.s1, t.s1, 17);
    XorSwap(s.s1, a2);
    XorSwap(s.s1, b2);
    XorOnce(a2, b2, s.s1);
    XorOnce(s.s2, t.s2, s.s0);
    XorOnce(s.s3, t.s3, s.s1);
  }

  /** The all-zero state, from which the generator would never move, is not reached from another. */
  lemma NeverDead(s: State)
    requires s != DEAD
    ensures Next(s) != DEAD && Next(DEAD) == DEAD
  {
    assert Xor(NOTHING, NOTHING) == NOTHING && Up(NOTHING, 17) == NOTHING && RotateLeft(NOTHING, 45) == NOTHING;
    hide Xor, Up, RotateLeft;
    assert Next(DEAD) == DEAD;
    if Next(s) == DEAD {
      NextOnce(s, DEAD);
    }
  }

  /** `reseed` without its guard against the all-zero state. */
  function Seeded(seed: Long): State {
    var c0 := Plus(seed, GOLDEN);
    var c1 := Plus(c0, GOLDEN);
    var c2 := Plus(c1, GOLDEN);
    var c3 := Plus(c2, GOLDEN);
    State(Mixed(c0), Mixed(c1), Mixed(c2), Mixed(c3))
  }

  /** The guard never fires: no seed gives four zero words. */
  lemma SeededAlive(seed: Long)
    ensures Seeded(seed) != DEAD
  {
    hide Mixed;
    var c := Plus(seed, GOLDEN);
    if Mixed(c) == Mixed(Plus(c, GOLDEN)) {
      MixedOnce(c, Plus(c, GOLDEN));
      ValueOfLong(Value(c) + GOLDEN);
      LongBound(c);
    }
  }

  function After(s: State, n: nat): State {
    if n == 0 then s else Next(After(s, n - 1))
  }

  lemma AfterStep(s: State, n: nat)
    ensures After(s, n + 1) == Next(After(s, n)) && After(s, 0) == s
  {
  }

  /** The n-th word drawn from a state, as a number. */
  function WordAt(s: State, n: nat): (r: nat)
    ensures r < LONG_VALUES
  {
    LongBound(Output(After(s, n)));
    Value(Output(After(s, n)))
  }

  // ---------------------------------------------------------------------------------------------
  // uniform_below and randint
  // ---------------------------------------------------------------------------------------------

  /** `(0 - bound) % bound` in 64 bits */
  function Threshold(bound: nat): nat
    requires 0 < bound < LONG_VALUES
  {
    (LONG_VALUES - bound) % bound
  }

  predicate Accepted(bound: nat, word: nat)
    requires bound < LONG_VALUES
  {
    bound == 0 || word >= Threshold(bound)
  }

  function Reduced(bound: nat, word: nat): nat {
    if bound == 0 then word else word % bound
  }

  /** Word n is the first one that is accepted. */
  ghost predicate FirstAccepted(s: State, bound: nat, n: nat)
    requires bound < LONG_VALUES
  {
    Accepted(bound, WordAt(s, n)) && forall k | 0 <= k < n :: !Accepted(bound, WordAt(s, k))
  }

  /** The draw took the first accepted word, word n. */
  ghost predicate Took(s: State, bound: nat, n: nat, value: nat, now: State)
    requires bound < LONG_VALUES
  {
    FirstAccepted(s, bound, n) && value == Reduced(bound, WordAt(s, n)) && now == After(s, n + 1)
  }

  ghost predicate TookRandint(s: State, t: IntType, minimum: int, maximum: int, n: nat, value: int, now: State)
    requires t.Valid() && t.Has(minimum) && t.Has(maximum) && minimum <= maximum
  {
    && FirstAccepted(s, Span(t, minimum, maximum), n)
    && value == Chosen(t, minimum, maximum, WordAt(s, n)) && now == After(s, n + 1)
  }

  lemma TakenIsChosen(s: State, t: IntType, minimum: int, maximum: int, n: nat, value: nat, now: State)
    requires t.Valid() && t.Has(minimum) && t.Has(maximum) && minimum <= maximum
    requires Took(s, Span(t, minimum, maximum), n, value, now)
    ensures var v := FromOrdered(t, (Ordered(t, minimum) + value % Pow2(t.bits)) % Pow2(t.bits));
      minimum <= v <= maximum && TookRandint(s, t, minimum, maximum, n, v, now)
  {
    hide Pow2, After, FirstAccepted;
    ChosenMeans(t, minimum, maximum, WordAt(s, n));
  }

  /** An integer type of the source. */
  datatype IntType = IntType(bits: nat, signed: bool) {
    ghost predicate Valid() {
      0 < bits <= LONG
    }

    predicate Has(v: int)
      requires bits > 0
    {
      if signed then 0 - Pow2(bits - 1) <= v < Pow2(bits - 1) else 0 <= v < Pow2(bits)
    }

    function Least(): int
      requires bits > 0
    {
      if signed then 0 - Pow2(bits - 1) else 0
    }
  }

  /** Flipping the highest bit of an unsigned value. */
  function FlipSign(bits: nat, raw: nat): nat
    requires bits > 0 && raw < Pow2(bits)
  {
    if raw >= Pow2(bits - 1) then raw - Pow2(bits - 1) else raw + Pow2(bits - 1)
  }

  /** `ordered_unsigned` */
  function Ordered(t: IntType, v: int): (r: nat)
    requires t.bits > 0 && t.Has(v)
    ensures r < Pow2(t.bits) && r == v - t.Least()
  {
    var raw := if v < 0 then v + Pow2(t.bits) else v;
    if t.signed then FlipSign(t.bits, raw) else raw
  }

  /** `from_ordered_unsigned` */
  function FromOrdered(t: IntType, u: nat): (r: int)
    requires t.bits > 0 && u < Pow2(t.bits)
    ensures t.Has(r) && r == u + t.Least()
  {
    if t.signed then
      var raw := FlipSign(t.bits, u);
      if raw >= Pow2(t.bits - 1) then raw - Pow2(t.bits) else raw
    else u
  }

  /** The number of values to choose from, as the source computes it: 0 stands for all of them. */
  function Span(t: IntType, minimum: int, maximum: int): (r: nat)
    requires t.Valid() && t.Has(minimum) && t.Has(maximum) && minimum <= maximum
    ensures r < LONG_VALUES
  {
    BitsFit(t);
    (Ordered(t, maximum) - Ordered(t, minimum) + 1) % Pow2(t.bits)
  }

  /** The value `randint` makes of an accepted word. */
  function Chosen(t: IntType, minimum: int, maximum: int, word: nat): int
    requires t.Valid() && t.Has(minimum) && t.Has(maximum) && minimum <= maximum
  {
    var offset := Reduced(Span(t, minimum, maximum), word) % Pow2(t.bits);
    FromOrdered(t, (Ordered(t, minimum) + offset) % Pow2(t.bits))
  }

  lemma BitsFit(t: IntType)
    requires t.Valid()
    ensures Pow2(t.bits) <= LONG_VALUES && Pow2(LONG - t.bits) * Pow2(t.bits) == LONG_VALUES
  {
    hide Pow2;
    LongPow();
    PowSum(LONG - t.bits, t.bits);
    AtLeastFactor(Pow2(LONG - t.bits), Pow2(t.bits));
  }

  lemma AtLeastFactor(k: nat, p: nat)
    requires k > 0
    ensures k * p >= p
  {
    assert k * p == p + (k - 1) * p && (k - 1) * p >= 0;
  }

  /** What the span and the draw amount to, with n the number of values. */
  lemma ChosenMeans(t: IntType, minimum: int, maximum: int, word: nat)
    requires t.Valid() && t.Has(minimum) && t.Has(maximum) && minimum <= maximum && word < LONG_VALUES
    ensures var n := maximum - minimum + 1; var span := Span(t, minimum, maximum);
      && 0 < n <= Pow2(t.bits) <= LONG_VALUES && span < LONG_VALUES
      && (span == if n == Pow2(t.bits) then 0 else n)
      && Chosen(t, minimum, maximum, word) == minimum + word % n
      && (Accepted(span, word) <==> word >= LONG_VALUES % n)
  {
    hide Pow2;
    var n, p, span := maximum - minimum + 1, Pow2(t.bits), Span(t, minimum, maximum);
    BitsFit(t);
    SpanMeans(n, p);
    OffsetMeans(word, n, p, Ordered(t, minimum));
    if n == p {
      Multiple(Pow2(LONG - t.bits), p);
    } else {
      ThresholdExact(n);
    }
  }

  lemma SpanMeans(n: nat, p: nat)
    requires 0 < n <= p
    ensures n % p == if n == p then 0 else n
  {
  }

  lemma OffsetMeans(word: nat, n: nat, p: nat, low: nat)
    requires 0 < n <= p && low + n <= p
    ensures var offset := Reduced(if n == p then 0 else n, word) % p;
      offset == word % n && (low + offset) % p == low + offset
  {
    if n < p {
      ModUnique(word % n, p, 0, word % n);
    }
    ModUnique(low + word % n, p, 0, low + word % n);
  }

  lemma Multiple(k: nat, p: nat)
    requires p > 0
    ensures (k * p) % p == 0
  {
    ModUnique(k * p, p, k, 0);
  }

  /** The rejected words are as many as 2^64 has left over. */
  lemma ThresholdExact(bound: nat)
    requires 0 < bound < LONG_VALUES
    ensures Threshold(bound) == LONG_VALUES % bound
  {
    TakeOne(LONG_VALUES, bound);
  }

  lemma TakeOne(m: nat, bound: nat)
    requires 0 < bound <= m
    ensures (m - bound) % bound == m % bound
  {
    var q, r := Quotient(m, bound), Remainder(m, bound);
    assert q > 0 by { ModUniqueSmall(m, bound, q, r); }
    assert m - bound == bound * (q - 1) + r;
    ModUnique(m - bound, bound, q - 1, r);
  }

  lemma ModUniqueSmall(m: nat, bound: nat, q: nat, r: nat)
    requires m == bound * q + r && r < bound <= m
    ensures q > 0
  {
  }

  // ---------------------------------------------------------------------------------------------
  // How many words give a value
  // ---------------------------------------------------------------------------------------------

  /** The numbers below `top` whose remainder is one of a .. c - 1. */
  ghost function Falling(top: nat, n: nat, a: nat, c: nat): set<nat>
    requires n > 0
  {
    set w: nat | w < top && a <= w % n < c
  }

  function Between(a: nat, c: nat, r: nat): nat
    requires a <= c
  {
    if r <= a then 0 else if r <= c then r - a else c - a
  }

  lemma {:induction false} CountFalling(q: nat, r: nat, n: nat, a: nat, c: nat)
    requires 0 < n && r < n && a <= c <= n
    ensures |Falling(n * q + r, n, a, c)| == q * (c - a) + Between(a, c, r)
    decreases q, r
  {
    if r > 0 {
      CountFalling(q, r - 1, n, a, c);
      OneMoreWord(n * q + r - 1, n, q, r - 1, a, c);
    } else if q > 0 {
      CountFalling(q - 1, n - 1, n, a, c);
      assert n * q == n * (q - 1) + n;
      OneMoreWord(n * q - 1, n, q - 1, n - 1, a, c);
      assert q * (c - a) == (q - 1) * (c - a) + (c - a);
    } else {
      assert Falling(n * 0 + 0, n, a, c) == {};
    }
  }

  lemma OneMoreWord(w: nat, n: nat, q: nat, r: nat, a: nat, c: nat)
    requires n > 0 && w == n * q + r && r < n
    ensures |Falling(w + 1, n, a, c)| == |Falling(w, n, a, c)| + if a <= r < c then 1 else 0
  {
    ModUnique(w, n, q, r);
    if a <= r < c {
      assert Falling(w + 1, n, a, c) == Falling(w, n, a, c) + {w};
    } else {
      assert Falling(w + 1, n, a, c) == Falling(w, n, a, c);
    }
  }

  /** The accepted words with a remainder from a .. c - 1. */
  ghost function Giving(m: nat, n: nat, a: nat, c: nat): set<nat>
    requires n > 0
  {
    set w: nat | w < m && m % n <= w && a <= w % n < c
  }

  /** Among the accepted words every remainder comes up equally often. */
  lemma CountGiving(m: nat, n: nat, a: nat, c: nat)
    requires 0 < n <= m && a <= c <= n
    ensures |Giving(m, n, a, c)| == Quotient(m, n) * (c - a)
  {
    var q, r := Quotient(m, n), Remainder(m, n);
    CountFalling(q, r, n, a, c);
    CountFalling(0, r, n, a, c);
    assert n * 0 + r == r;
    assert Giving(m, n, a, c) == Falling(m, n, a, c) - Falling(r, n, a, c);
    assert Falling(r, n, a, c) <= Falling(m, n, a, c);
  }

  /** `randint` makes the value v of this word. */
  ghost predicate Gives(t: IntType, minimum: int, maximum: int, v: int, word: nat)
    requires t.Valid() && t.Has(minimum) && t.Has(maximum) && minimum <= maximum
  {
    Accepted(Span(t, minimum, maximum), word) && Chosen(t, minimum, maximum, word) == v
  }

  lemma GivesMeans(t: IntType, minimum: int, maximum: int, v: int, word: nat)
    requires t.Valid() && t.Has(minimum) && t.Has(maximum) && minimum <= maximum && word < LONG_VALUES
    ensures var n := maximum - minimum + 1; Gives(t, minimum, maximum, v, word) <==>
        LONG_VALUES % n <= word && v - minimum <= word % n < v - minimum + 1
    ensures Gives(t, minimum, maximum, v, word) ==> minimum <= v <= maximum
  {
    ChosenMeans(t, minimum, maximum, word);
  }

  /** Every value of the range comes from the same number of accepted words, and no other value comes up. */
  lemma RandintIsFair(t: IntType, minimum: int, maximum: int, v: int)
    requires t.Valid() && t.Has(minimum) && t.Has(maximum) && minimum <= maximum
    ensures |set w: nat | w < LONG_VALUES && Gives(t, minimum, maximum, v, w)|
         == if minimum <= v <= maximum then Quotient(LONG_VALUES, maximum - minimum + 1) else 0
  {
    hide Gives, Quotient, Chosen, Span, Accepted;
    var words := set w: nat | w < LONG_VALUES && Gives(t, minimum, maximum, v, w);
    forall w: nat | w < LONG_VALUES {
      GivesMeans(t, minimum, maximum, v, w);
    }
    ChosenMeans(t, minimum, maximum, 0);
    FairCount(words, LONG_VALUES, maximum - minimum + 1, v - minimum);
  }

  lemma FairCount(words: set<nat>, m: nat, n: nat, a: int)
    requires 0 < n <= m
    requires forall w: nat :: w in words <==> w < m && m % n <= w && a <= w % n < a + 1
    requires forall w: nat :: w in words ==> 0 <= a < n
    ensures |words| == if 0 <= a < n then Quotient(m, n) else 0
  {
    if 0 <= a < n {
      CountGiving(m, n, a, a + 1);
      assert words == Giving(m, n, a, a + 1);
    } else {
      assert words == {};
    }
  }

  // ---------------------------------------------------------------------------------------------
  // weighted_choice
  // ---------------------------------------------------------------------------------------------

  function TotalWeight(weights: seq<nat>): nat {
    if weights == [] then 0 else TotalWeight(weights[..|weights| - 1]) + weights[|weights| - 1]
  }

  lemma {:induction false} PrefixWeight(weights: seq<nat>, i: nat, j: nat)
    requires i <= j <= |weights|
    ensures TotalWeight(weights[..i]) <= TotalWeight(weights[..j])
    ensures i < j ==> TotalWeight(weights[..i]) + weights[i] <= TotalWeight(weights[..j])
    decreases j
  {
    if i < j {
      assert weights[..j][..j - 1] == weights[..j - 1];
      PrefixWeight(weights, i, j - 1);
    }
  }

  datatype Sum = Overflows | Sum(value: nat)

  /** The first loop of `weighted_choice`; the sum is kept in 64 bits. */
  method AddWeights(weights: seq<nat>) returns (r: Sum)
    requires forall i :: 0 <= i < |weights| ==> weights[i] < LONG_VALUES
    ensures r == if TotalWeight(weights) < LONG_VALUES then Sum(TotalWeight(weights)) else Overflows
  {
    var total := 0;
    for i := 0 to |weights|
      invariant total == TotalWeight(weights[..i]) < LONG_VALUES
    {
      if weights[i] > LONG_VALUES - 1 - total {
        PrefixWeight(weights, i, |weights|);
        assert weights[..|weights|] == weights;
        return Overflows;
      }
      total := total + weights[i];
      assert weights[..i + 1][..i] == weights[..i];
    }
    assert weights[..|weights|] == weights;
    r := Sum(total);
  }

  /** Draw number `selected` belongs to entry i. */
  predicate Selects(weights: seq<nat>, selected: nat, i: nat)
    requires i < |weights|
  {
    TotalWeight(weights[..i]) <= selected < TotalWeight(weights[..i]) + weights[i]
  }

  /** The second loop; it always finds an entry, so the exception after it is never thrown. */
  method Pick(weights: seq<nat>, selected: nat) returns (i: nat)
    requires selected < TotalWeight(weights)
    ensures i < |weights| && forall k :: 0 <= k < |weights| ==> (Selects(weights, selected, k) <==> k == i)
  {
    var left := selected;
    i := 0;
    assert weights[..|weights|] == weights;
    while i < |weights|
      invariant i <= |weights|
      invariant left == selected - TotalWeight(weights[..i])
    {
      if left < weights[i] {
        forall k | 0 <= k < |weights|
          ensures Selects(weights, selected, k) <==> k == i
        {
          OneEntry(weights, selected, i, k);
        }
        return;
      }
      left := left - weights[i];
      i := i + 1;
      assert weights[..i][..i - 1] == weights[..i - 1];
    }
    assert false;
  }

  lemma OneEntry(weights: seq<nat>, selected: nat, i: nat, k: nat)
    requires i < |weights| && k < |weights| && Selects(weights, selected, i)
    ensures Selects(weights, selected, k) <==> k == i
  {
    if k < i {
      PrefixWeight(weights, k, i);
    } else {
      PrefixWeight(weights, i, k);
    }
  }

  /** An entry is chosen by as many accepted words as its weight says. */
  lemma WeightedIsFair(weights: seq<nat>, i: nat)
    requires i < |weights| && 0 < TotalWeight(weights) <= LONG_VALUES
    ensures |set w: nat | w < LONG_VALUES && LONG_VALUES % TotalWeight(weights) <= w
                          && Selects(weights, w % TotalWeight(weights), i)|
         == Quotient(LONG_VALUES, TotalWeight(weights)) * weights[i]
  {
    hide Quotient;
    var n, a := TotalWeight(weights), TotalWeight(weights[..i]);
    assert weights[..|weights|] == weights;
    PrefixWeight(weights, i, |weights|);
    EntryCount(LONG_VALUES, n, a, a + weights[i], weights, i);
  }

  lemma EntryCount(m: nat, n: nat, a: nat, c: nat, weights: seq<nat>, i: nat)
    requires 0 < n <= m && i < |weights| && a == TotalWeight(weights[..i]) && c == a + weights[i] <= n
    ensures |set w: nat | w < m && m % n <= w && Selects(weights, w % n, i)| == Quotient(m, n) * weights[i]
  {
    CountGiving(m, n, a, c);
    assert (set w: nat | w < m && m % n <= w && Selects(weights, w % n, i)) == Giving(m, n, a, c);
  }

  // ---------------------------------------------------------------------------------------------
  // shuffle
  // ---------------------------------------------------------------------------------------------

  function Swapped<T>(s: seq<T>, i: nat, j: nat): (r: seq<T>)
    requires i < |s| && j < |s|
    ensures |r| == |s| && r[i] == s[j] && r[j] == s[i]
    ensures forall k :: 0 <= k < |s| && k != i && k != j ==> r[k] == s[k]
  {
    s[i := s[j]][j := s[i]]
  }

  /** The draws for the first `remaining` places: one below `remaining`, one below `remaining - 1`, and so on. */
  predicate Choices(choices: seq<nat>, remaining: nat) {
    && |choices| == (if remaining == 0 then 0 else remaining - 1)
    && forall k :: 0 <= k < |choices| ==> choices[k] < remaining - k
  }

  function Shuffled<T>(s: seq<T>, remaining: nat, choices: seq<nat>): (r: seq<T>)
    requires remaining <= |s| && Choices(choices, remaining)
    ensures |r| == |s|
    decreases remaining
  {
    if remaining <= 1 then s
    else Shuffled(Swapped(s, remaining - 1, choices[0]), remaining - 1, choices[1..])
  }

  /** `shuffle`; choices[k] is what `randint` drew for the k-th exchange. */
  method Shuffle<T>(a: array<T>, choices: seq<nat>)
    requires Choices(choices, a.Length)
    modifies a
    ensures a[..] == Shuffled(old(a[..]), a.Length, choices)
  {
    var remaining := a.Length;
    while remaining > 1
      invariant 0 <= remaining <= a.Length && (a.Length > 0 ==> remaining >= 1)
      invariant Choices(choices[a.Length - remaining..], remaining)
      invariant Shuffled(a[..], remaining, choices[a.Length - remaining..]) == Shuffled(old(a[..]), a.Length, choices)
    {
      ghost var was, left := a[..], choices[a.Length - remaining..];
      var selected := choices[a.Length - remaining];
      a[remaining - 1], a[selected] := a[selected], a[remaining - 1];
      assert a[..] == Swapped(was, remaining - 1, selected);
      remaining := remaining - 1;
      assert choices[a.Length - remaining..] == left[1..];
    }
  }

  lemma ShuffledStep<T>(s: seq<T>, remaining: nat, choices: seq<nat>)
    requires 1 < remaining <= |s| && Choices(choices, remaining)
    ensures Choices(choices[1..], remaining - 1)
    ensures Shuffled(s, remaining, choices)
         == Shuffled(Swapped(s, remaining - 1, choices[0]), remaining - 1, choices[1..])
  {
  }

  /** Later exchanges leave the places above alone. */
  lemma {:induction false} ShuffledAbove<T>(s: seq<T>, remaining: nat, choices: seq<nat>, k: nat)
    requires remaining <= |s| && Choices(choices, remaining) && remaining <= k < |s|
    ensures Shuffled(s, remaining, choices)[k] == s[k]
    decreases remaining
  {
    if remaining > 1 {
      ShuffledAbove(Swapped(s, remaining - 1, choices[0]), remaining - 1, choices[1..], k);
    }
  }

  /** Shuffling keeps the values. */
  lemma {:induction false} ShuffledKeeps<T>(s: seq<T>, remaining: nat, choices: seq<nat>)
    requires remaining <= |s| && Choices(choices, remaining)
    ensures multiset(Shuffled(s, remaining, choices)) == multiset(s)
    decreases remaining
  {
    if remaining > 1 {
      ShuffledKeeps(Swapped(s, remaining - 1, choices[0]), remaining - 1, choices[1..]);
      SwappedSame(s, remaining - 1, choices[0]);
    }
  }

  lemma SwappedSame<T>(s: seq<T>, i: nat, j: nat)
    requires i < |s| && j < |s|
    ensures multiset(Swapped(s, i, j)) == multiset(s)
  {
  }

  lemma ShuffledLast<T>(s: seq<T>, remaining: nat, choices: seq<nat>)
    requires 1 < remaining <= |s| && Choices(choices, remaining)
    ensures Shuffled(s, remaining, choices)[remaining - 1] == s[choices[0]]
  {
    ShuffledAbove(Swapped(s, remaining - 1, choices[0]), remaining - 1, choices[1..], remaining - 1);
  }

  ghost predicate Distinct<T(!new)>(s: seq<T>) {
    forall i, j :: 0 <= i < j < |s| ==> s[i] != s[j]
  }

  /** With distinct values no two lists of draws give the same order. */
  lemma {:induction false} ShuffledOnce<T(!new)>(s: seq<T>, remaining: nat, left: seq<nat>, right: seq<nat>)
    requires remaining <= |s| && Distinct(s) && Choices(left, remaining) && Choices(right, remaining)
    requires Shuffled(s, remaining, left) == Shuffled(s, remaining, right)
    ensures left == right
    decreases remaining
  {
    if remaining > 1 {
      ShuffledLast(s, remaining, left);
      ShuffledLast(s, remaining, right);
      assert left[0] == right[0];
      ShuffledOnce(Swapped(s, remaining - 1, left[0]), remaining - 1, left[1..], right[1..]);
      assert left == [left[0]] + left[1..] && right == [right[0]] + right[1..];
    }
  }

  /** Every order of the values is given by some list of draws. */
  lemma {:induction false} ShuffledReaches<T>(s: seq<T>, remaining: nat, t: seq<T>) returns (choices: seq<nat>)
    requires remaining <= |s| == |t| && multiset(t) == multiset(s) && t[remaining..] == s[remaining..]
    ensures Choices(choices, remaining) && Shuffled(s, remaining, choices) == t
    decreases remaining
  {
    if remaining <= 1 {
      choices := [];
      OneLeft(s, t, remaining);
    } else {
      var j := RightDraw(s, t, remaining);
      SwappedSame(s, remaining - 1, j);
      var u := Swapped(s, remaining - 1, j);
      var rest := ShuffledReaches(u, remaining - 1, t);
      choices := OneMoreDraw(s, remaining, j, rest);
    }
  }

  lemma OneMoreDraw<T>(s: seq<T>, remaining: nat, j: nat, rest: seq<nat>) returns (choices: seq<nat>)
    requires 1 < remaining <= |s| && j < remaining && Choices(rest, remaining - 1)
    ensures Choices(choices, remaining)
    ensures Shuffled(s, remaining, choices) == Shuffled(Swapped(s, remaining - 1, j), remaining - 1, rest)
  {
    choices := [j] + rest;
    assert choices[1..] == rest;
    ShuffledStep(s, remaining, choices);
  }

  lemma PrefixSame<T>(s: seq<T>, t: seq<T>, n: nat)
    requires n <= |s| == |t| && multiset(t) == multiset(s) && t[n..] == s[n..]
    ensures multiset(s[..n]) == multiset(t[..n])
  {
    assert s == s[..n] + s[n..] && t == t[..n] + t[n..];
    assert multiset(s) == multiset(s[..n]) + multiset(s[n..]);
    assert multiset(t) == multiset(t[..n]) + multiset(t[n..]);
    Cancel(multiset(s[..n]), multiset(t[..n]), multiset(s[n..]));
  }

  lemma Cancel<T>(a: multiset<T>, b: multiset<T>, c: multiset<T>)
    requires a + c == b + c
    ensures a == b
  {
    assert a == (a + c) - c && b == (b + c) - c;
  }

  lemma OneLeft<T>(s: seq<T>, t: seq<T>, n: nat)
    requires n <= |s| == |t| && n <= 1 && multiset(t) == multiset(s) && t[n..] == s[n..]
    ensures s == t
  {
    PrefixSame(s, t, n);
    if n == 1 {
      assert s[..1] == [s[0]] && t[..1] == [t[0]];
      assert s[0] in multiset(t[..1]);
    }
    assert s == s[..n] + s[n..] && t == t[..n] + t[n..];
  }

  /** The exchange that puts the right value in the last place. */
  lemma RightDraw<T>(s: seq<T>, t: seq<T>, n: nat) returns (j: nat)
    requires 0 < n <= |s| == |t| && multiset(t) == multiset(s) && t[n..] == s[n..]
    ensures j < n && Swapped(s, n - 1, j)[n - 1..] == t[n - 1..]
  {
    PrefixSame(s, t, n);
    assert t[n - 1] == t[..n][n - 1];
    assert t[n - 1] in multiset(s[..n]);
    j :| 0 <= j < n && s[..n][j] == t[n - 1];
    forall k | n - 1 <= k < |t|
      ensures Swapped(s, n - 1, j)[k] == t[k]
    {
      if k >= n {
        assert t[n..][k - n] == s[n..][k - n];
      }
    }
  }

  // ---------------------------------------------------------------------------------------------
  // The class
  // ---------------------------------------------------------------------------------------------

  /** What `randint` does with at most `limit` words: it may still be drawing. */
  datatype Outcome = Invalid | Drawing | Drawn(value: int)

  class Random {
    var seed: Long
    var s0: Long
    var s1: Long
    var s2: Long
    var s3: Long

    function View(): State
      reads this
    {
      State(s0, s1, s2, s3)
    }

    constructor (value: Long)
      ensures seed == value && View() == Seeded(value)
    {
      s0, s1, s2, s3 := NOTHING, NOTHING, NOTHING, NOTHING;
      new;
      Reseed(value);
    }

    method Reseed(value: Long)
      modifies this
      ensures seed == value && View() == Seeded(value)
    {
      hide Mixed, Plus, Seeded;
      seed := value;
      var counter := Plus(value, GOLDEN);
      s0 := Mixed(counter);
      counter := Plus(counter, GOLDEN);
      s1 := Mixed(counter);
      counter := Plus(counter, GOLDEN);
      s2 := Mixed(counter);
      counter := Plus(counter, GOLDEN);
      s3 := Mixed(counter);
      SeededIs(value);
      SeededAlive(value);
      ReplaceZero();
    }

    /** The guard at the end of `reseed`. */
    method ReplaceZero()
      modifies this`s0
      ensures old(View()) != DEAD ==> View() == old(View())
      ensures old(View()) == DEAD ==> s0 == ONE
    {
      if s0 == NOTHING && s1 == NOTHING && s2 == NOTHING && s3 == NOTHING {
        s0 := ONE;
      }
    }

    method NextU64() returns (result: Long)
      modifies this`s0, this`s1, this`s2, this`s3
      ensures View() == Next(old(View())) && result == Output(old(View()))
    {
      result := Times(RotateLeft(Times(s1, 5), 7), 9);
      var shifted := Up(s1, 17);
      s2 := Xor(s2, s0);
      s3 := Xor(s3, s1);
      s1 := Xor(s1, s2);
      s0 := Xor(s0, s3);
      s2 := Xor(s2, shifted);
      s3 := RotateLeft(s3, 45);
    }

    /** `uniform_below`, drawing at most `limit` words; `None` means that all of them were rejected. */
    method UniformBelow(bound: nat, limit: nat) returns (r: Option<nat>)
      requires bound < LONG_VALUES && limit > 0
      modifies this`s0, this`s1, this`s2, this`s3
      ensures r.Some? ==> exists n :: 0 <= n < limit && Took(old(View()), bound, n, r.value, View())
      ensures r.None? ==> View() == After(old(View()), limit)
      ensures r.None? ==> forall k :: 0 <= k < limit ==> !Accepted(bound, WordAt(old(View()), k))
    {
      hide Next, Output;
      ghost var start := View();
      var word;
      if bound == 0 {
        word := NextU64();
        AfterStep(start, 0);
        assert View() == After(start, 1) && Took(start, bound, 0, Value(word), View());
        return Some(Value(word));
      }
      var threshold := (LONG_VALUES - bound) % bound;
      var n := 0;
      while n < limit
        invariant n <= limit && View() == After(start, n)
        invariant forall k :: 0 <= k < n ==> !Accepted(bound, WordAt(start, k))
      {
        word := NextU64();
        AfterStep(start, n);
        assert Value(word) == WordAt(start, n) && View() == After(start, n + 1);
        if Value(word) >= threshold {
          assert Took(start, bound, n, Value(word) % bound, View());
          return Some(Value(word) % bound);
        }
        n := n + 1;
      }
      r := None;
    }

    /** `randint` */
    method Randint(t: IntType, minimum: int, maximum: int, limit: nat) returns (r: Outcome)
      requires t.Valid() && t.Has(minimum) && t.Has(maximum) && limit > 0
      modifies this`s0, this`s1, this`s2, this`s3
      ensures r.Invalid? <==> minimum > maximum
      ensures r.Invalid? ==> View() == old(View())
      ensures r.Drawn? ==> minimum <= r.value <= maximum
      ensures r.Drawn? ==>
        exists n :: 0 <= n < limit && TookRandint(old(View()), t, minimum, maximum, n, r.value, View())
      ensures r.Drawing? ==> minimum <= maximum && View() == After(old(View()), limit)
    {
      hide Pow2, After, FirstAccepted;
      var low, high := Ordered(t, minimum), Ordered(t, maximum);
      if low > high {
        return Invalid;
      }
      var span := (high - low + 1) % Pow2(t.bits);
      assert span == Span(t, minimum, maximum);
      var drawn := UniformBelow(span, limit);
      if drawn.None? {
        return Drawing;
      }
      var offset := drawn.value % Pow2(t.bits);
      r := Drawn(FromOrdered(t, (low + offset) % Pow2(t.bits)));
      ghost var n :| 0 <= n < limit && Took(old(View()), span, n, drawn.value, View());
      TakenIsChosen(old(View()), t, minimum, maximum, n, drawn.value, View());
    }
  }

  const ONE: Long := Long64(1)

  lemma SeededIs(seed: Long)
    ensures var c := Plus(seed, GOLDEN); var d := Plus(c, GOLDEN); var e := Plus(d, GOLDEN);
      Seeded(seed) == State(Mixed(c), Mixed(d), Mixed(e), Mixed(Plus(e, GOLDEN)))
  {
  }
}
