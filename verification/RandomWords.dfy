/** The generator in numbers: every step on 64 bits as arithmetic below 2^64, and the words that a known seed gives. */
module RandomWords {
  import opened PackedBits
  import opened Randomness

  predicate Odd(v: nat) {
    v % 2 == 1
  }

  function Half(v: nat): nat {
    v / 2
  }

  /** Bit by bit, whether two numbers differ. */
  function Differ(a: nat, b: nat, n: nat): nat {
    if n == 0 then 0 else (if Odd(a) != Odd(b) then 1 else 0) + 2 * Differ(Half(a), Half(b), n - 1)
  }

  lemma Halved(bit: bool, half: nat)
    ensures var v := (if bit then 1 else 0) + 2 * half; Odd(v) == bit && Half(v) == half
  {
  }

  function DifferBits(a: seq<bool>, b: seq<bool>): (r: seq<bool>)
    requires |a| == |b|
    ensures |r| == |a|
  {
    seq(|a|, i requires 0 <= i < |a| => a[i] != b[i])
  }

  lemma {:induction false} DifferIs(a: seq<bool>, b: seq<bool>)
    requires |a| == |b|
    ensures Value(DifferBits(a, b)) == Differ(Value(a), Value(b), |a|)
  {
    hide Odd, Half;
    if a != [] {
      DifferIs(a[1..], b[1..]);
      Halved(a[0], Value(a[1..]));
      Halved(b[0], Value(b[1..]));
      assert DifferBits(a, b)[1..] == DifferBits(a[1..], b[1..]);
    }
  }

  lemma XorIs(a: Long, b: Long)
    ensures Value(Xor(a, b)) == Differ(Value(a), Value(b), LONG)
  {
    assert Xor(a, b) == DifferBits(a, b);
    DifferIs(a, b);
  }

  lemma SplitAt(w: Long, n: nat)
    requires n <= LONG
    ensures Value(w) == Value(w[..n]) + Pow2(n) * Value(w[n..]) && Value(w[..n]) < Pow2(n)
    ensures Value(w) / Pow2(n) == Value(w[n..]) && Value(w) % Pow2(n) == Value(w[..n])
  {
    assert w[..n] + w[n..] == w;
    ValueAppend(w[..n], w[n..]);
    ValueBound(w[..n]);
    ModUnique(Value(w), Pow2(n), Value(w[n..]), Value(w[..n]));
  }

  lemma DownIs(w: Long, n: nat)
    requires n <= LONG
    ensures Value(Down(w, n)) == Value(w) / Pow2(n)
  {
    SplitAt(w, n);
    var zeros := seq(n, _ => false);
    assert Down(w, n) == w[n..] + zeros;
    ValueAppend(w[n..], zeros);
    ValueZeros(zeros);
  }

  lemma RotateIs(w: Long, n: nat)
    requires n <= LONG
    ensures Value(RotateLeft(w, n)) == Value(w) / Pow2(LONG - n) + Pow2(n) * (Value(w) % Pow2(LONG - n))
  {
    SplitAt(w, LONG - n);
    ValueAppend(w[LONG - n..], w[..LONG - n]);
  }

  // ---------------------------------------------------------------------------------------------
  // The word that comes out
  // ---------------------------------------------------------------------------------------------

  /** The second state word from which a word comes out. */
  function Source(w: Long): Long {
    var turned := Times(w, 0x8e38e38e38e38e39);
    Times(turned[7..] + turned[..7], 0xcccccccccccccccd)
  }

  lemma TimesUndone(w: Long, n: nat, inverse: nat, turns: nat)
    requires n * inverse == LONG_VALUES * turns + 1
    ensures Times(Times(w, n), inverse) == w
  {
    hide Long64;
    ValueOfLong(Value(w) * n);
    ValueOfLong(Value(Times(w, n)) * inverse);
    LongBound(w);
    TimesBack(Value(w), n, inverse, turns, LONG_VALUES);
    SameLong(Times(Times(w, n), inverse), w);
  }

  /** What comes out is a bijection of the second state word, and depends on nothing else: every word comes out for
      exactly one. */
  lemma OutputExact(s: State, w: Long)
    ensures Output(s) == w <==> s.s1 == Source(w)
  {
    hide Times;
    var five, turned := Times(s.s1, 5), Times(w, 0x8e38e38e38e38e39);
    TimesUndone(s.s1, 5, 0xcccccccccccccccd, 4);
    TimesUndone(RotateLeft(five, 7), 9, 0x8e38e38e38e38e39, 5);
    TimesUndone(w, 0x8e38e38e38e38e39, 9, 5);
    TimesUndone(turned[7..] + turned[..7], 0xcccccccccccccccd, 5, 4);
    assert RotateLeft(turned[7..] + turned[..7], 7) == turned;
    assert RotateLeft(five, 7)[7..] + RotateLeft(five, 7)[..7] == five;
  }

  // ---------------------------------------------------------------------------------------------
  // Running backwards
  // ---------------------------------------------------------------------------------------------

  /** The word that differs from itself moved up by 17 as w does. */
  function Unshifted(w: Long): Long {
    Xor(Xor(w, Up(w, 17)), Xor(Up(w, 34), Up(w, 51)))
  }

  lemma UnshiftedIs(w: Long)
    ensures Xor(Unshifted(w), Up(Unshifted(w), 17)) == w
  {
    var u := Unshifted(w);
    assert forall i :: 0 <= i < LONG ==>
      u[i] == ((w[i] != (i >= 17 && w[i - 17])) != ((i >= 34 && w[i - 34]) != (i >= 51 && w[i - 51])));
  }

  /** The state before. */
  function Previous(t: State): State {
    var a3, s1 := t.s3[45..] + t.s3[..45], Unshifted(Xor(t.s1, t.s2));
    var s0, a2 := Xor(t.s0, a3), Xor(s1, t.s1);
    State(s0, s1, Xor(a2, s0), Xor(a3, s1))
  }

  lemma XorBack(a: Long, b: Long)
    ensures Xor(Xor(a, b), b) == a && Xor(Xor(b, a), b) == a
  {
  }

  /** The generator steps from each state to one other, and to each from exactly one: every state has been preceded by
      the one given. */
  lemma NextExact(s: State, t: State)
    ensures Next(s) == t <==> s == Previous(t)
  {
    hide Xor, Up, Unshifted;
    var p := Previous(t);
    var a3, s1, x := t.s3[45..] + t.s3[..45], p.s1, Xor(t.s1, t.s2);
    assert RotateLeft(a3, 45) == t.s3;
    hide RotateLeft;
    var a2 := Xor(s1, t.s1);
    XorBack(a2, p.s0);
    XorBack(a3, s1);
    XorBack(t.s0, a3);
    XorBack(t.s1, s1);
    XorSwap(s1, a2);
    UnshiftedIs(x);
    Chain(t.s1, t.s2, s1, Up(s1, 17));
    assert Next(p) == t;
    if Next(s) == t {
      NextOnce(s, p);
    }
  }

  lemma Chain(a: Long, b: Long, c: Long, d: Long)
    requires Xor(c, d) == Xor(a, b)
    ensures Xor(Xor(c, a), d) == b
  {
    forall i | 0 <= i < LONG
      ensures Xor(Xor(c, a), d)[i] == b[i]
    {
      assert Xor(c, d)[i] == Xor(a, b)[i];
    }
  }

  // ---------------------------------------------------------------------------------------------
  // A known word
  // ---------------------------------------------------------------------------------------------

  /** The number with eight hexadecimal digits, most significant first. */
  function Hex8(ds: seq<nat>): nat
    requires |ds| == 8
  {
    0x1000_0000 * ds[0] + 0x100_0000 * ds[1] + 0x10_0000 * ds[2] + 0x1_0000 * ds[3] + 0x1000 * ds[4] + 0x100 * ds[5]
    + 0x10 * ds[6] + ds[7]
  }

  /** The share of the bit of weight m in the difference of two numbers below 2 * m. */
  function DifferAt(p: nat, q: nat, m: nat): nat {
    if (p >= m) == (q >= m) then 0 else m
  }

  function Below(p: nat, m: nat): nat {
    if p >= m then p - m else p
  }

  /** The difference of two hexadecimal digits. */
  function DifferDigit(p: nat, q: nat): nat {
    var a, b := Below(p, 8), Below(q, 8);
    var c, d := Below(a, 4), Below(b, 4);
    DifferAt(p, q, 8) + DifferAt(a, b, 4) + DifferAt(c, d, 2) + DifferAt(Below(c, 2), Below(d, 2), 1)
  }

  lemma {:induction false} DifferSplit(a: nat, b: nat, p: nat, q: nat, m: nat, n: nat)
    requires p < Pow2(m) && q < Pow2(m)
    ensures Differ(Pow2(m) * a + p, Pow2(m) * b + q, m + n) == Differ(p, q, m) + Pow2(m) * Differ(a, b, n)
  {
    if m > 0 {
      hide Odd, Half;
      HalvedSum(a, p, m);
      HalvedSum(b, q, m);
      DifferSplit(a, b, Half(p), Half(q), m - 1, n);
      Regroup(2, Pow2(m - 1), Differ(a, b, n));
    }
  }

  lemma HalvedSum(a: nat, p: nat, m: nat)
    requires m > 0 && p < Pow2(m)
    ensures Odd(Pow2(m) * a + p) == Odd(p) && Half(Pow2(m) * a + p) == Pow2(m - 1) * a + Half(p)
    ensures Half(p) < Pow2(m - 1)
  {
    var half := Pow2(m - 1);
    Regroup(2, half, a);
    assert Pow2(m) * a + p == 2 * (half * a + Half(p)) + p % 2;
  }

  lemma DifferTop(p: nat, q: nat, n: nat)
    requires p < 2 * Pow2(n) && q < 2 * Pow2(n)
    ensures Differ(p, q, n + 1) == DifferAt(p, q, Pow2(n)) + Differ(Below(p, Pow2(n)), Below(q, Pow2(n)), n)
  {
    var m := Pow2(n);
    var a, b := if p >= m then 1 else 0, if q >= m then 1 else 0;
    DifferSplit(a, b, Below(p, m), Below(q, m), n, 1);
    assert Differ(a, b, 1) == if a != b then 1 else 0;
  }

  lemma DifferDigitIs(p: nat, q: nat)
    requires p < 16 && q < 16
    ensures Differ(p, q, 4) == DifferDigit(p, q)
  {
    hide Differ;
    assert Pow2(0) == 1 && Pow2(1) == 2 && Pow2(2) == 4 && Pow2(3) == 8;
    var a, b := Below(p, 8), Below(q, 8);
    var c, d := Below(a, 4), Below(b, 4);
    DifferTop(p, q, 3);
    DifferTop(a, b, 2);
    DifferTop(c, d, 1);
    DifferTop(Below(c, 2), Below(d, 2), 0);
    DifferNone(Below(Below(c, 2), 1), Below(Below(d, 2), 1));
  }

  lemma DifferNone(a: nat, b: nat)
    ensures Differ(a, b, 0) == 0
  {
  }

  lemma DifferNext(a: nat, b: nat, p: nat, q: nat, n: nat)
    requires p < 16 && q < 16
    ensures Differ(16 * a + p, 16 * b + q, n + 4) == DifferDigit(p, q) + 16 * Differ(a, b, n)
  {
    assert Pow2(4) == 16;
    DifferSplit(a, b, p, q, 4, n);
    DifferDigitIs(p, q);
  }

  ghost predicate AreDigits(ds: seq<nat>) {
    |ds| == 8 && forall i :: 0 <= i < 8 ==> ds[i] < 16
  }

  lemma DifferDigits(x: seq<nat>, y: seq<nat>, z: seq<nat>)
    requires AreDigits(x) && AreDigits(y) && |z| == 8
    requires z[0] == DifferDigit(x[0], y[0]) && z[1] == DifferDigit(x[1], y[1]) && z[2] == DifferDigit(x[2], y[2])
    requires z[3] == DifferDigit(x[3], y[3]) && z[4] == DifferDigit(x[4], y[4]) && z[5] == DifferDigit(x[5], y[5])
    requires z[6] == DifferDigit(x[6], y[6]) && z[7] == DifferDigit(x[7], y[7])
    ensures Differ(Hex8(x), Hex8(y), 32) == Hex8(z)
  {
    hide DifferDigit, Differ;
    var a1, b1 := x[0], y[0];
    var a2, b2 := 16 * a1 + x[1], 16 * b1 + y[1];
    var a3, b3 := 16 * a2 + x[2], 16 * b2 + y[2];
    var a4, b4 := 16 * a3 + x[3], 16 * b3 + y[3];
    var a5, b5 := 16 * a4 + x[4], 16 * b4 + y[4];
    var a6, b6 := 16 * a5 + x[5], 16 * b5 + y[5];
    var a7, b7 := 16 * a6 + x[6], 16 * b6 + y[6];
    DifferDigitIs(a1, b1);
    DifferNext(a1, b1, x[1], y[1], 4);
    DifferNext(a2, b2, x[2], y[2], 8);
    DifferNext(a3, b3, x[3], y[3], 12);
    DifferNext(a4, b4, x[4], y[4], 16);
    DifferNext(a5, b5, x[5], y[5], 20);
    DifferNext(a6, b6, x[6], y[6], 24);
    DifferNext(a7, b7, x[7], y[7], 28);
  }

  lemma DifferHalves(a: nat, b: nat, c: nat, d: nat)
    requires b < WORD_VALUES && d < WORD_VALUES
    ensures Differ(WORD_VALUES * a + b, WORD_VALUES * c + d, LONG) == Differ(b, d, 32) + WORD_VALUES * Differ(a, c, 32)
  {
    WordPow();
    DifferSplit(a, c, b, d, 32, 32);
  }

  lemma FirstHigh()
    ensures Differ(0x3c6ef372, 0x0, 32) == 0x3c6ef372
  {
    hide Differ;
    DifferDigits([3, 0xc, 6, 0xe, 0xf, 3, 7, 2], [0, 0, 0, 0, 0, 0, 0, 0], [3, 0xc, 6, 0xe, 0xf, 3, 7, 2]);
  }

  lemma FirstLow()
    ensures Differ(0xfe94f854, 0xf1bbcdcb, 32) == 0xf2f359f
  {
    hide Differ;
    DifferDigits([0xf, 0xe, 9, 4, 0xf, 8, 5, 4], [0xf, 1, 0xb, 0xb, 0xc, 0xd, 0xc, 0xb],
      [0, 0xf, 2, 0xf, 3, 5, 9, 0xf]);
  }

  lemma FirstDifference()
    ensures Differ(0x3c6ef372fe94f854, 0xf1bbcdcb, LONG) == 0x3c6ef3720f2f359f
  {
    hide Differ;
    FirstHigh();
    FirstLow();
    DifferHalves(0x3c6ef372, 0xfe94f854, 0x0, 0xf1bbcdcb);
  }

  lemma SecondHigh()
    ensures Differ(0xd5d2929e, 0x1a, 32) == 0xd5d29284
  {
    hide Differ;
    DifferDigits([0xd, 5, 0xd, 2, 9, 2, 9, 0xe], [0, 0, 0, 0, 0, 0, 1, 0xa], [0xd, 5, 0xd, 2, 9, 2, 8, 4]);
  }

  lemma SecondLow()
    ensures Differ(0x59b0fae7, 0xba5253cb, 32) == 0xe3e2a92c
  {
    hide Differ;
    DifferDigits([5, 9, 0xb, 0, 0xf, 0xa, 0xe, 7], [0xb, 0xa, 5, 2, 5, 3, 0xc, 0xb], [0xe, 3, 0xe, 2, 0xa, 9, 2, 0xc]);
  }

  lemma SecondDifference()
    ensures Differ(0xd5d2929e59b0fae7, 0x1aba5253cb, LONG) == 0xd5d29284e3e2a92c
  {
    hide Differ;
    SecondHigh();
    SecondLow();
    DifferHalves(0xd5d2929e, 0x59b0fae7, 0x1a, 0xba5253cb);
  }

  lemma ThirdHigh()
    ensures Differ(0x28efe333, 0x0, 32) == 0x28efe333
  {
    hide Differ;
    DifferDigits([2, 8, 0xe, 0xf, 0xe, 3, 3, 3], [0, 0, 0, 0, 0, 0, 0, 0], [2, 8, 0xe, 0xf, 0xe, 3, 3, 3]);
  }

  lemma ThirdLow()
    ensures Differ(0xe3b93764, 0x51dfc667, 32) == 0xb266f103
  {
    hide Differ;
    DifferDigits([0xe, 3, 0xb, 9, 3, 7, 6, 4], [5, 1, 0xd, 0xf, 0xc, 6, 6, 7], [0xb, 2, 6, 6, 0xf, 1, 0, 3]);
  }

  lemma ThirdDifference()
    ensures Differ(0x28efe333e3b93764, 0x51dfc667, LONG) == 0x28efe333b266f103
  {
    hide Differ;
    ThirdHigh();
    ThirdLow();
    DifferHalves(0x28efe333, 0xe3b93764, 0x0, 0x51dfc667);
  }

  lemma XorDown(w: Long, n: nat, m: nat, v: nat)
    requires n <= LONG && Pow2(n) == m && Value(w) == v
    ensures Value(Xor(w, Down(w, n))) == Differ(v, v / m, LONG)
  {
    XorIs(w, Down(w, n));
    DownIs(w, n);
  }

  lemma TimesIs(w: Long, n: nat, v: nat)
    requires Value(w) == v
    ensures Value(Times(w, n)) == v * n % LONG_VALUES
  {
    ValueOfLong(Value(w) * n);
  }

  lemma PlusIs(w: Long, n: nat, v: nat)
    requires Value(w) == v
    ensures Value(Plus(w, n)) == (v + n) % LONG_VALUES
  {
    ValueOfLong(Value(w) + n);
  }

  lemma Powers()
    ensures Pow2(7) == 0x80 && Pow2(27) == 0x800_0000 && Pow2(30) == 0x4000_0000 && Pow2(31) == 0x8000_0000
    ensures Pow2(57) == 0x200_0000_0000_0000
  {
    assert Pow2(1) == 2 && Pow2(3) == 8 && Pow2(7) == 0x80;
    PowSum(7, 7);
    PowSum(14, 13);
    assert Pow2(13) == 0x2000;
    PowSum(27, 3);
    PowSum(30, 1);
    PowSum(30, 27);
  }

  lemma FirstStage(w: Long)
    requires Value(w) == 0x3c6ef372fe94f854
    ensures Value(Times(Xor(w, Down(w, 30)), 0xbf58476d1ce4e5b9)) == 0xd5d2929e59b0fae7
  {
    hide Xor, Down, Differ, Times;
    Powers();
    XorDown(w, 30, 0x4000_0000, 0x3c6ef372fe94f854);
    FirstDifference();
    TimesIs(Xor(w, Down(w, 30)), 0xbf58476d1ce4e5b9, 0x3c6ef3720f2f359f);
  }

  lemma SecondStage(w: Long)
    requires Value(w) == 0xd5d2929e59b0fae7
    ensures Value(Times(Xor(w, Down(w, 27)), 0x94d049bb133111eb)) == 0x28efe333e3b93764
  {
    hide Xor, Down, Differ, Times;
    Powers();
    XorDown(w, 27, 0x800_0000, 0xd5d2929e59b0fae7);
    SecondDifference();
    TimesIs(Xor(w, Down(w, 27)), 0x94d049bb133111eb, 0xd5d29284e3e2a92c);
  }

  lemma ThirdStage(w: Long)
    requires Value(w) == 0x28efe333e3b93764
    ensures Value(Xor(w, Down(w, 31))) == 0x28efe333b266f103
  {
    hide Xor, Down, Differ, Times;
    Powers();
    XorDown(w, 31, 0x8000_0000, 0x28efe333e3b93764);
    ThirdDifference();
  }

  /** The second state word that seed 42 gives. */
  lemma SecondWord(w: Long)
    requires Value(w) == 0x3c6ef372fe94f854
    ensures Value(Mixed(w)) == 0x28efe333b266f103
  {
    hide Xor, Down, Times;
    var a := Times(Xor(w, Down(w, 30)), 0xbf58476d1ce4e5b9);
    FirstStage(w);
    SecondStage(a);
    ThirdStage(Times(Xor(a, Down(a, 27)), 0x94d049bb133111eb));
  }

  lemma SecondCounter(seed: Long)
    requires Value(seed) == 42
    ensures Value(Plus(Plus(seed, GOLDEN), GOLDEN)) == 0x3c6ef372fe94f854
  {
    hide Plus;
    PlusIs(seed, GOLDEN, 42);
    PlusIs(Plus(seed, GOLDEN), GOLDEN, 42 + GOLDEN);
  }

  /** Seed 42 gives this word first. */
  lemma KnownWord(seed: Long)
    requires Value(seed) == 42
    ensures Value(Output(Seeded(seed))) == 0x15780b2e0c2ec716
  {
    hide Mixed, Plus, Output;
    SecondCounter(seed);
    SecondWord(Plus(Plus(seed, GOLDEN), GOLDEN));
    FirstOutput(Seeded(seed));
  }

  lemma FirstOutput(s: State)
    requires Value(s.s1) == 0x28efe333b266f103
    ensures Value(Output(s)) == 0x15780b2e0c2ec716
  {
    hide Times, RotateLeft;
    Powers();
    TimesIs(s.s1, 5, 0x28efe333b266f103);
    var five := Times(s.s1, 5);
    assert Value(five) == 0xccaf70027c02b50f;
    RotateIs(five, 7);
    assert Value(RotateLeft(five, 7)) == 0x57b8013e015a87e6;
    TimesIs(RotateLeft(five, 7), 9, 0x57b8013e015a87e6);
  }
}
