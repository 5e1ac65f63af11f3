/** `Fixed`: values of up to 128 bits with a binary point, on sign and magnitude in 128-bit arithmetic. A
raw value is the number read from the bits of a `Bits<W>`. */
module FixedPoint {
  import opened Registrations
  import opened PackedBits

  /** `integer` bits before the binary point. */
  datatype Format = Format(width: nat, integer: nat, signed: bool) {
    ghost predicate Valid() {
      0 < width <= 128 && integer <= width
    }

    function Fraction(): nat
      requires integer <= width
    {
      width - integer
    }
  }

  /** The integer that the raw bits stand for, in units of the last place. */
  function Scaled(f: Format, raw: nat): int
    requires f.width > 0
  {
    if f.signed && raw >= Pow2(f.width - 1) then raw - Pow2(f.width) else raw
  }

  predicate InRange(f: Format, v: int)
    requires f.width > 0
  {
    if f.signed then -(Pow2(f.width - 1) as int) <= v < Pow2(f.width - 1) else 0 <= v < Pow2(f.width)
  }

  function Magnitude(v: int): nat {
    if v < 0 then -v else v
  }

  // ---------------------------------------------------------------------------------------------
  // 128-bit arithmetic
  // ---------------------------------------------------------------------------------------------

  function Top(): (r: nat)
    ensures r > 0
  {
    Pow2(128)
  }

  /** `uint128_t{0} - x` */
  function Negated(x: nat): nat
    requires x < Top()
  {
    if x == 0 then 0 else Top() - x
  }

  /** `x << n` for n below 128 */
  function ShiftLeft(x: nat, n: nat): nat {
    Remainder(x * Pow2(n), Top())
  }

  datatype SignedMagnitude = SignedMagnitude(negative: bool, magnitude: nat)

  /** `decompose`: the sign bit decides, and the magnitude is the two's complement. */
  function Decompose(f: Format, raw: nat): SignedMagnitude
    requires f.Valid() && raw < Pow2(f.width)
  {
    if f.signed && Quotient(raw, Pow2(f.width - 1)) % 2 == 1
    then SignedMagnitude(true, Remainder((Top() - 1 - raw % Top()) + 1, Pow2(f.width)))
    else SignedMagnitude(false, raw)
  }

  /** `encode` */
  function Encode(width: nat, negative: bool, magnitude: nat): nat
    requires magnitude < Top()
  {
    Remainder(if negative then Negated(magnitude) else magnitude, Pow2(width))
  }

  lemma PowOrder(a: nat, b: nat)
    requires a <= b
    ensures Pow2(a) <= Pow2(b)
    ensures a < b ==> 2 * Pow2(a) <= Pow2(b)
    decreases b - a
  {
    if a < b {
      PowOrder(a, b - 1);
    }
  }

  lemma PowPositive(w: nat)
    requires w > 0
    ensures Pow2(w) == 2 * Pow2(w - 1)
  {
  }

  /** The modulus of a narrower format divides the 128-bit one. */
  lemma TopSplit(w: nat) returns (k: nat)
    requires w <= 128
    ensures Top() == Pow2(w) * k && k > 0
  {
    PowSum(w, 128 - w);
    k := Pow2(128 - w);
  }

  lemma RemainderIs(v: nat, m: nat, q: nat, r: nat)
    requires m > 0 && v == m * q + r && r < m
    ensures Remainder(v, m) == r && Quotient(v, m) == q
  {
    ModUnique(v, m, q, r);
  }

  lemma TopBit(raw: nat, w: nat)
    requires w > 0 && raw < Pow2(w)
    ensures Quotient(raw, Pow2(w - 1)) % 2 == 1 <==> raw >= Pow2(w - 1)
  {
    var h := Pow2(w - 1);
    PowPositive(w);
    if raw >= h {
      RemainderIs(raw, h, 1, raw - h);
    } else {
      RemainderIs(raw, h, 0, raw);
    }
  }

  /** Subtracting from 2^128 and cutting to the width is subtracting from 2^width. */
  lemma NegatedCut(w: nat, m: nat)
    requires 0 < w <= 128 && 0 < m <= Pow2(w)
    ensures m <= Top() && Remainder(Top() - m, Pow2(w)) == if m == Pow2(w) then 0 else Pow2(w) - m
  {
    hide Pow2, Top;
    var k := TopSplit(w);
    var p := Pow2(w);
    OneLess(p, k);
    if m == p {
      RemainderIs(Top() - m, p, k - 1, 0);
    } else {
      RemainderIs(Top() - m, p, k - 1, p - m);
    }
  }

  lemma OneLess(p: nat, k: nat)
    requires k > 0
    ensures p * k == p * (k - 1) + p && p * (k - 1) >= 0
  {
  }

  /** Taking a value apart gives its sign and its magnitude. */
  lemma DecomposeExact(f: Format, raw: nat)
    requires f.Valid() && raw < Pow2(f.width)
    ensures var d := Decompose(f, raw); var v := Scaled(f, raw);
      d.negative == (v < 0) && d.magnitude == Magnitude(v) && d.magnitude <= Pow2(f.width) <= Top() && InRange(f, v)
  {
    hide Pow2, Top;
    TopIs();
    TopBit(raw, f.width);
    PowOrder(f.width, 128);
    PowPositive(f.width);
    if f.signed && raw >= Pow2(f.width - 1) {
      assert raw % Top() == raw by { RemainderIs(raw, Top(), 0, raw); }
      NegatedCut(f.width, raw);
    }
  }

  /** Putting a representable value together gives raw bits that stand for it. */
  lemma EncodeExact(f: Format, v: int)
    requires f.Valid() && InRange(f, v)
    ensures Magnitude(v) < Top() || f.width == 128
    ensures Magnitude(v) < Top()
    ensures var raw := Encode(f.width, v < 0, Magnitude(v)); raw < Pow2(f.width) && Scaled(f, raw) == v
  {
    PowOrder(f.width, 128);
    PowPositive(f.width);
    var p := Pow2(f.width);
    if v < 0 {
      NegatedCut(f.width, -v);
    } else {
      RemainderIs(v, p, 0, v);
    }
  }

  /** Encoding undoes decomposing. */
  lemma EncodeDecompose(f: Format, raw: nat)
    requires f.Valid() && raw < Pow2(f.width)
    ensures var d := Decompose(f, raw); d.magnitude < Top() && Encode(f.width, d.negative, d.magnitude) == raw
  {
    DecomposeExact(f, raw);
    EncodeExact(f, Scaled(f, raw));
    ScaledInjective(f, raw, Encode(f.width, Scaled(f, raw) < 0, Magnitude(Scaled(f, raw))));
  }

  lemma ScaledInjective(f: Format, a: nat, b: nat)
    requires f.Valid() && a < Pow2(f.width) && b < Pow2(f.width) && Scaled(f, a) == Scaled(f, b)
    ensures a == b
  {
    PowPositive(f.width);
  }

  // ---------------------------------------------------------------------------------------------
  // mul_full
  // ---------------------------------------------------------------------------------------------

  function ProductFormat(l: Format, r: Format): Format {
    Format(l.width + r.width, l.integer + r.integer, l.signed || r.signed)
  }

  /** `mul_full`; the product of the magnitudes is taken in 128 bits. */
  function MulFull(l: Format, a: nat, r: Format, b: nat): nat
    requires l.Valid() && r.Valid() && a < Pow2(l.width) && b < Pow2(r.width)
  {
    var x, y := Decompose(l, a), Decompose(r, b);
    var product := Remainder(x.magnitude * y.magnitude, Top());
    Encode(l.width + r.width, product != 0 && x.negative != y.negative, product)
  }

  lemma MulBound(a: nat, b: nat, c: nat, d: nat)
    requires a <= c && b <= d
    ensures a * b <= c * d
  {
    assert a * b <= c * b;
    assert c * b <= c * d;
  }

  lemma MulSmaller(a: nat, b: nat, c: nat, d: nat)
    requires a < c && b <= d && d > 0
    ensures a * b < c * d
  {
    MulBound(a, b, c - 1, d);
    assert (c - 1) * d == c * d - d;
  }

  /** The magnitudes of two factors fit the format of their product. */
  lemma ProductFits(l: Format, x: int, r: Format, y: int)
    requires l.Valid() && r.Valid() && l.width + r.width <= 128 && InRange(l, x) && InRange(r, y)
    ensures InRange(ProductFormat(l, r), x * y)
  {
    var p, q, a, b := Pow2(l.width - 1), Pow2(r.width - 1), Magnitude(x), Magnitude(y);
    PowPositive(l.width);
    PowPositive(r.width);
    PowSum(l.width, r.width);
    PowSum(l.width - 1, r.width);
    PowSum(l.width, r.width - 1);
    PowSum(l.width - 1, r.width - 1);
    SignOfProduct(x, y);
    if l.signed && r.signed {
      MulBound(a, b, p, q);
    } else if l.signed {
      MulSmaller(b, a, 2 * q, p);
      assert b * a == a * b && (2 * q) * p == p * (2 * q);
    } else if r.signed {
      MulSmaller(a, b, 2 * p, q);
    } else {
      MulSmaller(a, b, 2 * p, 2 * q);
    }
  }

  lemma SignOfProduct(x: int, y: int)
    ensures x * y == if (x < 0) != (y < 0) then -(Magnitude(x) * Magnitude(y)) else Magnitude(x) * Magnitude(y)
    ensures Magnitude(x * y) == Magnitude(x) * Magnitude(y)
    ensures x * y < 0 <==> x * y != 0 && (x < 0) != (y < 0)
  {
    var a, b := Magnitude(x), Magnitude(y);
    assert a * b >= 0;
    if x < 0 && y < 0 {
      assert x * y == a * b;
    } else if x < 0 || y < 0 {
      assert 0 - x * y == a * b;
    }
  }

  /** The full product is exact, whichever of the operands are signed. */
  lemma MulFullExact(l: Format, a: nat, r: Format, b: nat)
    requires l.Valid() && r.Valid() && l.width + r.width <= 128 && a < Pow2(l.width) && b < Pow2(r.width)
    ensures Scaled(ProductFormat(l, r), MulFull(l, a, r, b)) == Scaled(l, a) * Scaled(r, b)
  {
    DecomposeExact(l, a);
    DecomposeExact(r, b);
    var x, y, f := Scaled(l, a), Scaled(r, b), ProductFormat(l, r);
    ProductFits(l, x, r, y);
    SignOfProduct(x, y);
    EncodeExact(f, x * y);
    RemainderIs(Magnitude(x * y), Top(), 0, Magnitude(x * y));
  }

  // ---------------------------------------------------------------------------------------------
  // from_ratio
  // ---------------------------------------------------------------------------------------------

  ghost predicate Divides(d: nat, n: nat) {
    exists k: nat :: n == d * k
  }

  /** g is the greatest common divisor of a and b. */
  ghost predicate IsGcd(g: nat, a: nat, b: nat) {
    Divides(g, a) && Divides(g, b) && forall d: nat :: Divides(d, a) && Divides(d, b) ==> Divides(d, g)
  }

  lemma DividesSum(d: nat, a: nat, b: nat, q: nat)
    requires Divides(d, a) && Divides(d, b)
    ensures Divides(d, a * q + b)
  {
    var i: nat :| a == d * i;
    var j: nat :| b == d * j;
    assert a * q + b == d * (i * q + j);
  }

  lemma DividesDifference(d: nat, a: nat, b: nat, q: nat)
    requires Divides(d, a) && Divides(d, a * q + b)
    ensures Divides(d, b)
  {
    var i: nat :| a == d * i;
    var j: nat :| a * q + b == d * j;
    assert b == d * (j - i * q);
    if d == 0 {
      assert b == d * 0;
    } else {
      assert j - i * q >= 0;
    }
  }

  /** Replacing a number by its remainder keeps the common divisors. */
  lemma SameDivisors(a: nat, b: nat, d: nat)
    requires b > 0
    ensures Divides(d, a) && Divides(d, b) <==> Divides(d, b) && Divides(d, a % b)
  {
    var q, r := Quotient(a, b), Remainder(a, b);
    if Divides(d, b) && Divides(d, r) {
      DividesSum(d, b, r, q);
    }
    if Divides(d, b) && Divides(d, a) {
      DividesDifference(d, b, r, q);
    }
  }

  /** Both pairs have the same common divisors. */
  ghost predicate SameCommon(left: nat, right: nat, a: nat, b: nat) {
    forall d: nat :: (Divides(d, left) && Divides(d, right)) <==> (Divides(d, a) && Divides(d, b))
  }

  lemma CommonStart(a: nat, b: nat)
    ensures SameCommon(a, b, a, b)
  {
  }

  lemma CommonKept(left: nat, right: nat, a: nat, b: nat)
    requires right > 0 && SameCommon(left, right, a, b)
    ensures SameCommon(right, left % right, a, b)
  {
    hide Divides;
    forall d: nat
      ensures (Divides(d, right) && Divides(d, left % right)) <==> (Divides(d, a) && Divides(d, b))
    {
      SameDivisors(left, right, d);
    }
  }

  lemma CommonWithZero(g: nat, a: nat, b: nat)
    requires SameCommon(g, 0, a, b)
    ensures IsGcd(g, a, b)
  {
    assert Divides(g, g) by { assert g == g * 1; }
    assert forall d: nat :: Divides(d, 0) by {
      forall d: nat
        ensures Divides(d, 0)
      {
        assert 0 == d * 0;
      }
    }
  }

  /** `gcd`. The coefficients found on the way show that it is a combination of both numbers. */
  method Gcd(a: nat, b: nat) returns (g: nat, ghost x: int, ghost y: int)
    ensures IsGcd(g, a, b) && g == a * x + b * y
    ensures b > 0 || a > 0 ==> g > 0
  {
    hide SameCommon, IsGcd;
    var left, right := a, b;
    CommonStart(a, b);
    x, y := 1, 0;
    ghost var u, v := 0, 1;
    while right != 0
      invariant left == a * x + b * y && right == a * u + b * v
      invariant SameCommon(left, right, a, b)
      invariant b > 0 || a > 0 ==> left > 0 || right > 0
      decreases right
    {
      var remainder := left % right;
      ghost var q := Quotient(left, right);
      CommonKept(left, right, a, b);
      Combine(a, b, x, y, u, v, q);
      x, y, u, v := u, v, x - q * u, y - q * v;
      left, right := right, remainder;
    }
    g := left;
    CommonWithZero(g, a, b);
  }

  lemma Combine(a: nat, b: nat, x: int, y: int, u: int, v: int, q: int)
    ensures a * (x - q * u) + b * (y - q * v) == (a * x + b * y) - q * (a * u + b * v)
  {
    assert a * (x - q * u) == a * x - q * (a * u);
    assert b * (y - q * v) == b * y - q * (b * v);
    assert q * (a * u + b * v) == q * (a * u) + q * (b * v);
  }

  /** A denominator prime to the numerator divides what the fraction is scaled by, if the result is whole. */
  lemma CoprimeDivides(n: nat, d: nat, x: int, y: int, scale: nat, m: nat)
    requires 1 == n * x + d * y && m * d == n * scale && d > 0
    ensures Divides(d, scale)
  {
    var k := m * x + scale * y;
    assert scale == scale * (n * x + d * y);
    assert scale * (n * x) == (n * scale) * x == (m * d) * x == d * (m * x);
    assert scale * (d * y) == d * (scale * y);
    assert scale == d * k by { assert d * (m * x) + d * (scale * y) == d * k; }
    assert k >= 0;
  }

  /** An odd divisor of a power of two is one. */
  lemma {:induction false} OddDivisor(d: nat, k: nat, n: nat)
    requires Pow2(n) == d * k && d % 2 == 1
    ensures d == 1
    decreases n
  {
    if n == 0 {
      ProductOne(d, k);
    } else {
      EvenFactor(d, k, Pow2(n - 1));
      OddDivisor(d, k / 2, n - 1);
    }
  }

  lemma ProductOne(d: nat, k: nat)
    requires d * k == 1
    ensures d == 1
  {
    AtLeast(d, k);
  }

  lemma AtLeast(d: nat, k: nat)
    ensures d >= 2 && k >= 1 ==> d * k >= 2
    ensures d == 0 || k == 0 ==> d * k == 0
  {
    if d >= 2 && k >= 1 {
      MulBound(2, 1, d, k);
    }
  }

  lemma EvenFactor(d: nat, k: nat, p: nat)
    requires d * k == 2 * p && d % 2 == 1
    ensures k % 2 == 0 && d * (k / 2) == p
  {
    var i := d / 2;
    assert d == 2 * i + 1;
    assert d * k == 2 * (i * k) + k;
    assert k == 2 * (p - i * k);
    assert d * (2 * (k / 2)) == 2 * (d * (k / 2));
  }

  lemma MulAtLeast(p: nat, k: nat)
    ensures k > 0 ==> p <= p * k
  {
    if k > 0 {
      MulBound(p, 1, p, k);
    }
  }

  /** A power of two times an odd number divides a power of two just when the odd number is one and the
      exponent is not larger. */
  lemma PowerDivides(p: nat, odd: nat, n: nat)
    requires odd % 2 == 1
    ensures Divides(Pow2(p) * odd, Pow2(n)) <==> odd == 1 && p <= n
  {
    hide Pow2;
    if odd == 1 && p <= n {
      PowSum(p, n - p);
      assert Pow2(n) == (Pow2(p) * odd) * Pow2(n - p);
    }
    if Divides(Pow2(p) * odd, Pow2(n)) {
      var k: nat :| Pow2(n) == (Pow2(p) * odd) * k;
      assert Pow2(n) == odd * (Pow2(p) * k);
      OddDivisor(odd, Pow2(p) * k, n);
      AtLeast(Pow2(p), k);
      MulAtLeast(Pow2(p), k);
      if p > n {
        PowOrder(n, p);
      }
    }
  }

  /** m stands for the ratio n / d in the format. */
  predicate Represents(f: Format, m: int, n: int, d: nat)
    requires f.Valid()
  {
    m * d == n * Pow2(f.Fraction())
  }

  /** Only one number can stand for a ratio. */
  lemma RepresentsOnce(f: Format, m: int, k: int, n: int, d: nat)
    requires f.Valid() && d > 0 && Represents(f, m, n, d) && Represents(f, k, n, d)
    ensures m == k
  {
    Ordered(m, k, d);
    Ordered(k, m, d);
  }

  lemma Ordered(m: int, k: int, d: nat)
    requires d > 0
    ensures m < k ==> m * d < k * d
  {
    if m < k {
      MulBound(1, d, k - m, d);
      assert (k - m) * d == k * d - m * d;
    }
  }

  /** A ratio in lowest terms: the numerator's magnitude a and the denominator 2^p * odd. */
  ghost predicate InLowestTerms(n: int, d: nat, g: nat, a: nat, p: nat, odd: nat, x: int, y: int) {
    && g > 0 && Magnitude(n) == g * a && d == g * (Pow2(p) * odd) && odd % 2 == 1
    && 1 == a * x + (Pow2(p) * odd) * y
  }

  function Signed(negative: bool, m: nat): int {
    if negative then 0 - m else m
  }

  lemma CancelLeft(g: nat, a: nat, b: nat)
    requires g > 0 && g * a == g * b
    ensures a == b
  {
    Ordered(a, b, g);
    Ordered(b, a, g);
  }

  lemma Rearranged(x: nat, g: nat, y: nat)
    ensures x * (g * y) == g * (x * y) && (g * y) * x == g * (y * x)
  {
    assert x * (g * y) == (x * g) * y == g * (x * y) == g * (y * x);
  }

  /** A ratio with a whole number in the format has a denominator that is a small power of two. */
  lemma WholeNeedsPower(f: Format, m: int, n: int, d: nat, g: nat, a: nat, p: nat, odd: nat, x: int, y: int)
    requires f.Valid() && InLowestTerms(n, d, g, a, p, odd, x, y) && Represents(f, m, n, d)
    ensures odd == 1 && p <= f.Fraction()
  {
    hide Pow2;
    var b, scale, k := Pow2(p) * odd, Pow2(f.Fraction()), Magnitude(m);
    SignOfProduct(m, d);
    SignOfProduct(n, scale);
    Rearranged(k, g, b);
    Rearranged(scale, g, a);
    CancelLeft(g, k * b, a * scale);
    assert b > 0 by { AtLeast(Pow2(p), odd); MulBound(1, 1, Pow2(p), odd); }
    CoprimeDivides(a, b, x, y, scale, k);
    PowerDivides(p, odd, f.Fraction());
  }

  /** With such a denominator the number is the numerator shifted. */
  lemma ShiftedIsWhole(f: Format, n: int, d: nat, g: nat, a: nat, p: nat, x: int, y: int)
    requires f.Valid() && InLowestTerms(n, d, g, a, p, 1, x, y) && p <= f.Fraction()
    ensures Represents(f, Signed(n < 0, a * Pow2(f.Fraction() - p)), n, d)
  {
    var low, scale := Pow2(f.Fraction() - p), Pow2(f.Fraction());
    var power := Pow2(p);
    PowSum(f.Fraction() - p, p);
    hide Pow2;
    FourFactors(a, low, g, power);
    NegatedProduct(a * low, d);
    NegatedProduct(Magnitude(n), scale);
  }

  lemma FourFactors(a: nat, s: nat, g: nat, p: nat)
    ensures (a * s) * (g * p) == (g * a) * (s * p)
  {
    assert (a * s) * (g * p) == a * (s * (g * p));
    assert s * (g * p) == g * (s * p);
    assert a * (g * (s * p)) == (g * a) * (s * p);
  }

  lemma NegatedProduct(a: int, b: int)
    ensures (0 - a) * b == 0 - a * b
  {
  }

  /** The gcd makes numerator and denominator prime to each other. */
  lemma ReducedIsPrime(mag: nat, d: nat, g: nat, a: nat, b: nat, x: int, y: int)
    requires g > 0 && g == mag * x + d * y && mag == g * a && d == g * b
    ensures 1 == a * x + b * y
  {
    var z := a * x + b * y;
    assert g == g * z by {
      assert (g * a) * x == g * (a * x);
      assert (g * b) * y == g * (b * y);
      assert g * (a * x) + g * (b * y) == g * z;
    }
    OnlyOne(g, z);
  }

  lemma OnlyOne(g: nat, z: int)
    requires g > 0 && g == g * z
    ensures z == 1
  {
    Ordered(z, 1, g);
    Ordered(1, z, g);
    assert z * g == g * z;
  }

  lemma ExactQuotient(n: nat, g: nat)
    requires g > 0 && Divides(g, n)
    ensures n == g * Quotient(n, g)
  {
    var k: nat :| n == g * k;
    RemainderIs(n, g, k, 0);
  }

  /** Whether the shift would lose bits above the 128th. */
  lemma ShiftOverflow(m: nat, shift: nat)
    requires shift < 128
    ensures m > Quotient(Top() - 1, Pow2(shift)) <==> m * Pow2(shift) >= Top()
    ensures m * Pow2(shift) < Top() ==> ShiftLeft(m, shift) == m * Pow2(shift)
  {
    hide Pow2, Top, Remainder, Quotient;
    AboveQuotient(m, Pow2(shift), Top());
    if m * Pow2(shift) < Top() {
      RemainderIs(m * Pow2(shift), Top(), 0, m * Pow2(shift));
    }
  }

  lemma AboveQuotient(m: nat, p: nat, t: nat)
    requires p > 0 && t > 0
    ensures m > Quotient(t - 1, p) <==> m * p >= t
  {
    var q, r := Quotient(t - 1, p), Remainder(t - 1, p);
    hide Quotient, Remainder;
    assert p * q == q * p;
    if m > q {
      MulBound(q + 1, p, m, p);
      assert (q + 1) * p == q * p + p;
    } else {
      MulBound(m, p, q, p);
    }
  }

  /** The limit that the sign selects. */
  function Limit(f: Format, negative: bool): nat
    requires f.width > 0
  {
    if !f.signed then Pow2(f.width) - 1 else if negative then Pow2(f.width - 1) else Pow2(f.width - 1) - 1
  }

  /** The test of the source for a magnitude that fits. */
  predicate Representable(f: Format, negative: bool, m: nat)
    requires f.width > 0
  {
    (f.signed || !negative) && m <= Limit(f, negative)
  }

  lemma RepresentableIsInRange(f: Format, v: int)
    requires f.Valid()
    ensures Representable(f, v < 0, Magnitude(v)) <==> InRange(f, v)
    ensures InRange(f, v) ==> Magnitude(v) < Top()
  {
    PowOrder(f.width, 128);
    PowPositive(f.width);
  }

  /** `from_ratio`: it succeeds just when the format holds a number that is exactly the ratio, and returns
      that number; `None` is where the source aborts. */
  method FromRatio(f: Format, n: int, d: nat) returns (r: Option<nat>)
    requires f.Valid() && -0x8000_0000_0000_0000 <= n < 0x8000_0000_0000_0000 && d < 0x1_0000_0000_0000_0000
    ensures r.Some? <==> d != 0 && exists m :: InRange(f, m) && Represents(f, m, n, d)
    ensures r.Some? ==> r.value < Pow2(f.width) && Represents(f, Scaled(f, r.value), n, d)
  {
    hide Top, Pow2, ShiftLeft, Limit;
    if d == 0 {
      return None;
    }
    var negative, magnitude, denominator := n < 0, Magnitude(n), d;
    var divisor, x, y := Gcd(magnitude, d);
    ExactQuotient(magnitude, divisor);
    ExactQuotient(d, divisor);
    magnitude, denominator := Quotient(magnitude, divisor), Quotient(denominator, divisor);
    ReducedIsPrime(Magnitude(n), d, divisor, magnitude, denominator, x, y);
    ghost var b := denominator;
    var power := 0;
    PowZero();
    assert b > 0 by { AtLeast(divisor, b); }
    while denominator % 2 == 0
      invariant denominator > 0 && b == Pow2(power) * denominator
      decreases denominator
    {
      HalfStep(power, denominator);
      denominator, power := denominator / 2, power + 1;
    }
    if denominator != 1 || power > f.Fraction() {
      forall m | Represents(f, m, n, d)
        ensures false
      {
        WholeNeedsPower(f, m, n, d, divisor, magnitude, power, denominator, x, y);
      }
      return None;
    }
    var shift := f.Fraction() - power;
    ghost var v := Signed(n < 0, magnitude * Pow2(shift));
    ShiftedIsWhole(f, n, d, divisor, magnitude, power, x, y);
    RepresentableIsInRange(f, v);
    forall m | Represents(f, m, n, d)
      ensures m == v
    {
      RepresentsOnce(f, m, v, n, d);
    }
    if magnitude != 0 && (shift >= 128 || magnitude > Quotient(Top() - 1, Pow2(shift))) {
      TooLarge(magnitude, shift);
      return None;
    }
    ZeroOrSmall(magnitude, shift);
    var scaled := if shift >= 128 then 0 else ShiftLeft(magnitude, shift);
    if scaled == 0 {
      negative := false;
    }
    if !Representable(f, negative, scaled) {
      return None;
    }
    EncodeExact(f, v);
    r := Some(Encode(f.width, negative, scaled));
  }

  lemma PowZero()
    ensures Pow2(0) == 1
  {
  }

  lemma HalfStep(power: nat, d: nat)
    requires d % 2 == 0 && d > 0
    ensures Pow2(power) * d == Pow2(power + 1) * (d / 2) && d / 2 > 0
  {
    assert Pow2(power) * (2 * (d / 2)) == (2 * Pow2(power)) * (d / 2);
  }

  lemma TooLarge(m: nat, shift: nat)
    requires m != 0 && (shift >= 128 || m > Quotient(Top() - 1, Pow2(shift)))
    ensures m * Pow2(shift) >= Top()
  {
    hide Top, Pow2;
    if shift < 128 {
      ShiftOverflow(m, shift);
    } else {
      TopIs();
      PowOrder(128, shift);
      MulBound(1, Pow2(128), m, Pow2(shift));
    }
  }

  lemma TopIs()
    ensures Top() == Pow2(128)
  {
  }

  lemma ZeroOrSmall(m: nat, shift: nat)
    requires m == 0 || (shift < 128 && m <= Quotient(Top() - 1, Pow2(shift)))
    ensures (if shift >= 128 then 0 else ShiftLeft(m, shift)) == m * Pow2(shift) < Top()
  {
    hide Top, Pow2;
    if shift < 128 {
      if m == 0 {
        assert 0 * Pow2(shift) == 0;
      }
      ShiftOverflow(m, shift);
    }
    TopPositive();
  }

  lemma TopPositive()
    ensures Top() > 0
  {
  }

  // ---------------------------------------------------------------------------------------------
  // quantize
  // ---------------------------------------------------------------------------------------------

  datatype Round = Truncate | NearestEven

  datatype Overflow = Wrap | Saturate | Trap

  /** How far off a rounding may be: less than one place and never away from zero, or at most half a place,
      and then on an even number if it is half a place. */
  predicate Close(v: int, t: int, error: int, p: nat, round: Round) {
    match round
    case Truncate => if v >= 0 then 0 <= t && 0 <= error < p else t <= 0 && 0 - p < error <= 0
    case NearestEven => 0 - p <= 2 * error <= p && (Magnitude(2 * error) == p ==> t % 2 == 0)
  }

  /** t is v / p brought to a whole number. */
  predicate IsRounded(v: int, p: nat, t: int, round: Round) {
    Close(v, t, v - t * p, p, round)
  }

  predicate RoundsUp(q: nat, r: nat, p: nat, round: Round) {
    round.NearestEven? && (2 * r > p || (2 * r == p && q % 2 == 1))
  }

  /** Rounding on the magnitude, which is what the source does. */
  function Rounded(v: int, p: nat, round: Round): int
    requires p > 0
  {
    var q := Quotient(Magnitude(v), p);
    Signed(v < 0, if RoundsUp(q, Remainder(Magnitude(v), p), p, round) then q + 1 else q)
  }

  /** Rounding the magnitude rounds the number, whatever its sign. */
  lemma RoundedIsRounded(v: int, p: nat, round: Round)
    requires p > 0
    ensures IsRounded(v, p, Rounded(v, p, round), round)
  {
    var m, t := Magnitude(v), Rounded(v, p, round);
    var q, r, u := Quotient(m, p), Remainder(m, p), Magnitude(t);
    hide Quotient, Remainder;
    OneMore(q, p);
    NegatedProduct(u, p);
    RoundedClose(v, t, p, q, r, u, p * q, u * p, round);
  }

  lemma OneMore(q: nat, p: nat)
    ensures (q + 1) * p == p * q + p && q * p == p * q
  {
  }

  lemma RoundedClose(v: int, t: int, p: nat, q: nat, r: nat, u: nat, pq: int, up: int, round: Round)
    requires Magnitude(v) == pq + r && r < p && u == Magnitude(t) && (t < 0 ==> v < 0) && (t > 0 ==> v >= 0)
    requires u == (if RoundsUp(q, r, p, round) then q + 1 else q) && up == (if u == q then pq else pq + p)
    ensures Close(v, t, if v < 0 then v + up else v - up, p, round)
  {
  }

  /** No other number is a rounding of v / p. */
  lemma RoundedOnce(v: int, p: nat, t: int, k: int, round: Round)
    requires p > 0 && IsRounded(v, p, t, round) && IsRounded(v, p, k, round)
    ensures t == k
  {
    NotAbove(v, p, t, k, round);
    NotAbove(v, p, k, t, round);
  }

  lemma NotAbove(v: int, p: nat, t: int, k: int, round: Round)
    requires p > 0 && IsRounded(v, p, t, round) && IsRounded(v, p, k, round)
    ensures t <= k
  {
    Apart(t, k, p);
  }

  lemma Apart(t: int, k: int, p: nat)
    ensures t == k + 1 ==> t * p == k * p + p
    ensures t > k + 1 ==> t * p >= k * p + 2 * p
  {
    if t > k + 1 {
      assert t * p == k * p + (t - k) * p;
      MulBound(2, p, t - k, p);
    }
  }

  lemma RoundedExact(v: int, p: nat, t: int, round: Round)
    requires p > 0
    ensures t == Rounded(v, p, round) <==> IsRounded(v, p, t, round)
  {
    RoundedIsRounded(v, p, round);
    if IsRounded(v, p, t, round) {
      RoundedOnce(v, p, t, Rounded(v, p, round), round);
    }
  }

  /** The source value in units of the destination's last place, before it is made to fit. */
  function Target(source: Format, dest: Format, v: int, round: Round): int
    requires source.Valid() && dest.Valid()
  {
    if source.Fraction() > dest.Fraction()
    then Rounded(v, Pow2(source.Fraction() - dest.Fraction()), round)
    else v * Pow2(dest.Fraction() - source.Fraction())
  }

  function Lowest0(f: Format): int
    requires f.width > 0
  {
    if f.signed then 0 - Pow2(f.width - 1) else 0
  }

  function Clamp(f: Format, t: int): int
    requires f.width > 0
  {
    if t < Lowest0(f) then Lowest0(f) else if t > Limit(f, false) then Limit(f, false) else t
  }

  ghost predicate Congruent(a: int, b: int, p: nat) {
    exists k: int :: a == b + p * k
  }

  /** The family in which `quantize` forgets that the value is negative: the shift left pushes every bit of
      the magnitude out of the 128. */
  ghost predicate SignLost(source: Format, dest: Format, v: int)
    requires source.Valid() && dest.Valid()
  {
    && v < 0 && source.Fraction() < dest.Fraction()
    && Remainder(Magnitude(v) * Pow2(dest.Fraction() - source.Fraction()), Top()) == 0
  }

  /** The number that saturating gives. */
  ghost function Saturated(source: Format, dest: Format, v: int, round: Round): int
    requires source.Valid() && dest.Valid()
  {
    if SignLost(source, dest, v) then Limit(dest, false) else Clamp(dest, Target(source, dest, v, round))
  }

  // What the magnitude, the overflow flag and the sign say of t once the value is scaled.
  ghost predicate Holds(t: int, negative: bool, m: nat, overflowed: bool) {
    && m == Remainder(Magnitude(t), Top())
    && (overflowed <==> Magnitude(t) >= Top())
    && (negative <==> t < 0 && m != 0)
  }

  lemma HoldsSmall(t: int)
    requires Magnitude(t) < Top()
    ensures Holds(t, t < 0, Magnitude(t), false)
  {
    RemainderIs(Magnitude(t), Top(), 0, Magnitude(t));
  }

  lemma HoldsFit(f: Format, t: int, negative: bool, m: nat, overflowed: bool)
    requires f.Valid() && Holds(t, negative, m, overflowed)
    ensures (!overflowed && Representable(f, negative, m)) <==> InRange(f, t)
    ensures InRange(f, t) ==> m == Magnitude(t) && negative == (t < 0)
  {
    RepresentableIsInRange(f, t);
    hide Top, InRange, Representable;
    if Magnitude(t) < Top() {
      HoldsSmall(t);
    }
  }

  lemma CongruentChain(a: int, b: int, c: int, p: nat)
    requires Congruent(a, b, p) && Congruent(b, c, p)
    ensures Congruent(a, c, p)
  {
    var i :| a == b + p * i;
    var j :| b == c + p * j;
    assert a == c + p * (i + j);
  }

  lemma CongruentBack(a: int, b: int, p: nat)
    requires Congruent(a, b, p)
    ensures Congruent(b, a, p) && Congruent(0 - a, 0 - b, p)
  {
    var i :| a == b + p * i;
    assert b == a + p * (-i);
    assert 0 - a == (0 - b) + p * (-i);
  }

  lemma CongruentRemainder(v: nat, m: nat)
    requires m > 0
    ensures Congruent(Remainder(v, m), v, m)
  {
    assert Remainder(v, m) == v + m * (0 - Quotient(v, m));
  }

  lemma CongruentFiner(a: int, b: int, p: nat, k: nat)
    requires Congruent(a, b, p * k)
    ensures Congruent(a, b, p)
  {
    var i :| a == b + (p * k) * i;
    assert a == b + p * (k * i);
  }

  lemma CongruentScaled(f: Format, raw: nat)
    requires f.width > 0
    ensures Congruent(Scaled(f, raw), raw, Pow2(f.width))
  {
    var k: int := if f.signed && raw >= Pow2(f.width - 1) then -1 else 0;
    assert Scaled(f, raw) == raw + Pow2(f.width) * k;
  }

  /** Cutting the encoded bits keeps the value modulo the destination's range. */
  lemma WrapExact(f: Format, t: int, negative: bool, m: nat, overflowed: bool)
    requires f.Valid() && Holds(t, negative, m, overflowed)
    ensures var raw := Encode(f.width, negative, m);
      raw < Pow2(f.width) && Congruent(Scaled(f, raw), t, Pow2(f.width))
  {
    hide Pow2, Top, Remainder, Quotient, Scaled, Congruent;
    var p, top, mag := Pow2(f.width), Top(), Magnitude(t);
    var x := if negative then Negated(m) else m;
    var raw := Remainder(x, p);
    var k := TopSplit(f.width);
    CongruentScaled(f, raw);
    CongruentRemainder(x, p);
    CongruentChain(Scaled(f, raw), raw, x, p);
    SignedResidue(t, negative, m, top);
    CongruentFiner(x, t, p, k);
    CongruentChain(Scaled(f, raw), x, t, p);
  }

  lemma SignedResidue(t: int, negative: bool, m: nat, top: nat)
    requires top == Top() && m == Remainder(Magnitude(t), top) && (negative <==> t < 0 && m != 0)
    ensures Congruent(if negative then Negated(m) else m, t, top)
  {
    hide Pow2, Top, Remainder, Quotient, Congruent;
    CongruentRemainder(Magnitude(t), top);
    CongruentBack(m, Magnitude(t), top);
    if t < 0 {
      OneTurn(m, top);
      CongruentChain(if negative then Negated(m) else m, 0 - m, t, top);
    }
  }

  lemma OneTurn(m: nat, top: nat)
    requires top == Top() && m < top
    ensures Congruent(Negated(m), 0 - m, top)
  {
    hide Pow2, Top;
    assert Negated(m) == (0 - m) + top * (if m == 0 then 0 else 1);
  }

  /** The limit the source saturates to, as a number. */
  lemma LimitExact(f: Format, negative: bool)
    requires f.Valid()
    ensures var v := if negative then Lowest0(f) else Limit(f, false); var m := Magnitude(v);
      InRange(f, v) && m < Top() && m == (if negative && !f.signed then 0 else Limit(f, negative))
      && (if f.signed then Scaled(f, Encode(f.width, negative, m)) == v && Encode(f.width, negative, m) < Pow2(f.width)
          else Scaled(f, Remainder(m, Pow2(f.width))) == v && Remainder(m, Pow2(f.width)) < Pow2(f.width))
  {
    var v := if negative then Lowest0(f) else Limit(f, false);
    PowPositive(f.width);
    EncodeExact(f, v);
  }

  lemma RoundedKeepsSize(v: int, p: nat, round: Round)
    requires p >= 2
    ensures Magnitude(Rounded(v, p, round)) <= Magnitude(v)
    ensures Rounded(v, p, round) < 0 ==> v < 0
    ensures Rounded(v, p, round) > 0 ==> v > 0
  {
    var q, r := Quotient(Magnitude(v), p), Remainder(Magnitude(v), p);
    hide Quotient, Remainder;
    MulBound(2, q, p, q);
  }

  /** Scaling down, `shift` being 1 to 128. */
  lemma ScaledDown(v: int, shift: nat, round: Round, q: nat, r: nat)
    requires 0 < shift <= 128 && Magnitude(v) < Top()
    requires q == (if shift == 128 then 0 else Quotient(Magnitude(v), Pow2(shift)))
    requires r == (if shift == 128 then Magnitude(v) else Remainder(Magnitude(v), Pow2(shift)))
    ensures var up := round.NearestEven? && (r > Pow2(shift - 1) || (r == Pow2(shift - 1) && q % 2 == 1));
      var m := if up then q + 1 else q; var t := Rounded(v, Pow2(shift), round);
      m == Magnitude(t) && Holds(t, v < 0 && m != 0, m, false)
  {
    hide Pow2, Top, Quotient, Remainder, Holds;
    TopIs();
    PowPositive(shift);
    if shift == 128 {
      RemainderIs(Magnitude(v), Top(), 0, Magnitude(v));
    }
    RoundedKeepsSize(v, Pow2(shift), round);
    HoldsSmall(Rounded(v, Pow2(shift), round));
  }

  /** Scaling up; the flag is set just when the product does not fit in 128 bits. */
  lemma ScaledUp(v: int, shift: nat, m: nat, overflowed: bool)
    requires shift <= 128
    requires m == (if shift >= 128 then 0 else ShiftLeft(Magnitude(v), shift))
    requires overflowed <==>
      Magnitude(v) != 0 && (shift >= 128 || Magnitude(v) > Quotient(Top() - 1, Pow2(shift)))
    ensures Magnitude(v * Pow2(shift)) == Magnitude(v) * Pow2(shift)
    ensures Holds(v * Pow2(shift), v < 0 && m != 0, m, overflowed)
  {
    hide Pow2, Top, Quotient, Remainder;
    TopIs();
    var mag, p := Magnitude(v), Pow2(shift);
    SignOfProduct(v, p);
    if shift >= 128 {
      MulAtLeast(p, mag);
      assert mag * p == p * mag;
      RemainderIs(mag * p, Top(), mag, 0);
    } else {
      ShiftOverflow(mag, shift);
      AtLeast(mag, p);
    }
  }

  /** The first half of `quantize`: the magnitude in the destination's units, cut to 128 bits, whether bits were
      lost, and the sign that is left. */
  method Rescale(source: Format, raw: nat, dest: Format, round: Round)
    returns (negative: bool, magnitude: nat, overflowed: bool)
    requires source.Valid() && dest.Valid() && raw < Pow2(source.width)
    ensures magnitude < Top()
    ensures Holds(Target(source, dest, Scaled(source, raw), round), negative, magnitude, overflowed)
  {
    hide Pow2, Top, Quotient, Remainder, Scaled, Rounded, Holds, InRange, ShiftLeft, Decompose;
    var value := Decompose(source, raw);
    ghost var v := Scaled(source, raw);
    DecomposeExact(source, raw);
    InRangeIsSmall(source, v);
    negative, magnitude, overflowed := value.negative, value.magnitude, false;
    if source.Fraction() > dest.Fraction() {
      var shift := source.Fraction() - dest.Fraction();
      var quotient := if shift == 128 then 0 else Quotient(magnitude, Pow2(shift));
      var remainder := if shift == 128 then magnitude else Remainder(magnitude, Pow2(shift));
      ScaledDown(v, shift, round, quotient, remainder);
      magnitude := quotient;
      if round.NearestEven? {
        var halfway := Pow2(shift - 1);
        if remainder > halfway || (remainder == halfway && quotient % 2 == 1) {
          magnitude := magnitude + 1;
        }
      }
    } else if source.Fraction() < dest.Fraction() {
      var shift := dest.Fraction() - source.Fraction();
      if magnitude != 0 && (shift >= 128 || magnitude > Quotient(Top() - 1, Pow2(shift))) {
        overflowed := true;
      }
      magnitude := if shift >= 128 then 0 else ShiftLeft(magnitude, shift);
      ScaledUp(v, shift, magnitude, overflowed);
    } else {
      PowZero();
      HoldsSmall(v);
    }
    if magnitude == 0 {
      negative := false;
    }
    HoldsSize(Target(source, dest, v, round), negative, magnitude, overflowed);
  }

  /** `quantize`: what it returns in each mode, for t the rounded value. Wrapping gives the one value that is t
      modulo the destination's range, trapping succeeds just on the numbers that fit, and saturating clamps to the
      nearest limit unless the sign was lost, when it gives the highest number for a negative one. `None` is where
      the source aborts. */
  method Quantize(source: Format, raw: nat, dest: Format, round: Round, overflow: Overflow) returns (r: Option<nat>)
    requires source.Valid() && dest.Valid() && raw < Pow2(source.width)
    ensures r.Some? ==> r.value < Pow2(dest.width)
    ensures var t := Target(source, dest, Scaled(source, raw), round);
      match overflow
      case Wrap =>
        && r.Some? && Congruent(Scaled(dest, r.value), t, Pow2(dest.width))
        && forall other: nat :: other < Pow2(dest.width) && Congruent(Scaled(dest, other), t, Pow2(dest.width))
             ==> other == r.value
      case Trap => (r.Some? <==> InRange(dest, t)) && (r.Some? ==> Scaled(dest, r.value) == t)
      case Saturate =>
        && r.Some?
        && (Scaled(dest, r.value) == Clamp(dest, t) <==> !SignLost(source, dest, Scaled(source, raw)))
        && Scaled(dest, r.value) == Saturated(source, dest, Scaled(source, raw), round)
  {
    hide Pow2, Top, Quotient, Remainder, Scaled, Rounded, Holds, InRange, Representable, ShiftLeft, Encode, Limit,
      Clamp, Congruent, Decompose, SignLost, Target;
    ghost var v := Scaled(source, raw);
    DecomposeExact(source, raw);
    var negative, magnitude, overflowed := Rescale(source, raw, dest, round);
    ghost var t := Target(source, dest, v, round);
    HoldsFit(dest, t, negative, magnitude, overflowed);
    var representable := !overflowed && Representable(dest, negative, magnitude);
    SaturationExact(source, dest, v, round, negative, magnitude, overflowed);
    if representable || overflow.Wrap? {
      r := Some(Encode(dest.width, negative, magnitude));
      WrapExact(dest, t, negative, magnitude, overflowed);
      WrappedOnly(dest, r.value, t);
      if representable {
        EncodeExact(dest, t);
      }
      return;
    }
    if overflow.Trap? {
      return None;
    }
    LimitExact(dest, negative);
    if dest.signed {
      r := Some(Encode(dest.width, negative, Limit(dest, negative)));
    } else {
      r := Some(Remainder(if negative then 0 else Limit(dest, false), Pow2(dest.width)));
    }
  }

  lemma InRangeIsSmall(f: Format, v: int)
    requires f.Valid() && InRange(f, v)
    ensures Magnitude(v) < Top()
  {
    RepresentableIsInRange(f, v);
  }

  lemma HoldsSize(t: int, negative: bool, m: nat, overflowed: bool)
    requires Holds(t, negative, m, overflowed)
    ensures m < Top()
  {
  }

  /** The limit on the side the sign points to is the clamped value, unless the sign was lost. */
  lemma SaturationExact(source: Format, dest: Format, v: int, round: Round, negative: bool, m: nat, overflowed: bool)
    requires source.Valid() && dest.Valid() && InRange(source, v)
    requires Holds(Target(source, dest, v, round), negative, m, overflowed)
    ensures var t := Target(source, dest, v, round);
      && (InRange(dest, t) ==> Clamp(dest, t) == t && !SignLost(source, dest, v))
      && (!InRange(dest, t) ==>
            var limit := if negative then Lowest0(dest) else Limit(dest, false);
            && (limit == Clamp(dest, t) <==> !SignLost(source, dest, v))
            && (SignLost(source, dest, v) ==> !negative))
  {
    hide Pow2, Top, Quotient, Remainder, Rounded, SignLost, Holds, Limit, Lowest0, InRange, Target;
    var t := Target(source, dest, v, round);
    InRangeIsSmall(source, v);
    LostMeans(source, dest, v, round, negative, m, overflowed);
    HoldsFit(dest, t, negative, m, overflowed);
    RangeIsBetween(dest, t);
  }

  /** The sign is lost just when a negative target leaves a magnitude of zero, and then nothing fits. */
  lemma LostMeans(source: Format, dest: Format, v: int, round: Round, negative: bool, m: nat, overflowed: bool)
    requires source.Valid() && dest.Valid() && Magnitude(v) < Top()
    requires Holds(Target(source, dest, v, round), negative, m, overflowed)
    ensures var t := Target(source, dest, v, round);
      (SignLost(source, dest, v) <==> t < 0 && !negative) && (t >= 0 ==> !negative)
    ensures SignLost(source, dest, v) ==> overflowed
  {
    hide Pow2, Top, Quotient, Remainder, Rounded;
    var t := Target(source, dest, v, round);
    if source.Fraction() > dest.Fraction() {
      var p := Pow2(source.Fraction() - dest.Fraction());
      PowPositive(source.Fraction() - dest.Fraction());
      RoundedKeepsSize(v, p, round);
      HoldsSmall(t);
    } else {
      var p := Pow2(dest.Fraction() - source.Fraction());
      SignOfProduct(v, p);
      if source.Fraction() == dest.Fraction() {
        PowZero();
        HoldsSmall(t);
      }
      if Magnitude(t) < Top() {
        HoldsSmall(t);
      }
    }
  }

  lemma RangeIsBetween(f: Format, t: int)
    requires f.Valid()
    ensures InRange(f, t) <==> Lowest0(f) <= t <= Limit(f, false)
    ensures Lowest0(f) <= 0 <= Limit(f, false) && Lowest0(f) < Limit(f, false)
  {
    PowPositive(f.width);
  }

  /** Wrapped bits are determined by the residue. */
  lemma WrappedOnce(f: Format, a: nat, b: nat, t: int)
    requires f.Valid() && a < Pow2(f.width) && b < Pow2(f.width)
    requires Congruent(Scaled(f, a), t, Pow2(f.width)) && Congruent(Scaled(f, b), t, Pow2(f.width))
    ensures a == b
  {
    hide Pow2, Congruent, Scaled;
    var p := Pow2(f.width);
    CongruentScaled(f, a);
    CongruentScaled(f, b);
    CongruentBack(Scaled(f, a), a, p);
    CongruentBack(Scaled(f, b), t, p);
    CongruentChain(a, Scaled(f, a), t, p);
    CongruentChain(a, t, Scaled(f, b), p);
    CongruentChain(a, Scaled(f, b), b, p);
    SameResidue(a, b, p);
  }

  lemma WrappedOnly(f: Format, raw: nat, t: int)
    requires f.Valid() && raw < Pow2(f.width) && Congruent(Scaled(f, raw), t, Pow2(f.width))
    ensures forall other: nat :: other < Pow2(f.width) && Congruent(Scaled(f, other), t, Pow2(f.width)) ==> other == raw
  {
    hide Pow2, Congruent, Scaled;
    forall other: nat | other < Pow2(f.width) && Congruent(Scaled(f, other), t, Pow2(f.width))
      ensures other == raw
    {
      WrappedOnce(f, other, raw, t);
    }
  }

  lemma SameResidue(a: nat, b: nat, p: nat)
    requires a < p && b < p && Congruent(a, b, p)
    ensures a == b
  {
    var k :| a == b + p * k;
    Ordered(k, 0, p);
    Ordered(0, k, p);
    AtLeastOnce(k, p);
  }

  lemma AtLeastOnce(k: int, p: nat)
    ensures k >= 1 ==> p * k >= p
    ensures k <= -1 ==> p * k <= 0 - p
  {
    if k >= 1 {
      MulAtLeast(p, k);
    }
    if k <= -1 {
      MulAtLeast(p, -k);
      assert p * (-k) == 0 - p * k;
    }
  }

  /** A shift that stays within 128 bits never loses the sign. */
  lemma NarrowKeepsSign(source: Format, dest: Format, v: int)
    requires source.Valid() && dest.Valid() && InRange(source, v)
    requires source.Fraction() < dest.Fraction() ==> source.width + (dest.Fraction() - source.Fraction()) <= 128
    ensures !SignLost(source, dest, v)
  {
    hide Top, Pow2;
    TopIs();
    PowPositive(source.width);
    if v < 0 && source.Fraction() < dest.Fraction() {
      var shift, mag := dest.Fraction() - source.Fraction(), Magnitude(v);
      PowSum(source.width, shift);
      PowOrder(source.width + shift, 128);
      MulSmaller(mag, Pow2(shift), Pow2(source.width), Pow2(shift));
      RemainderIs(mag * Pow2(shift), Top(), 0, mag * Pow2(shift));
      AtLeast(mag, Pow2(shift));
      MulAtLeast(Pow2(shift), mag);
    }
  }

  /** One more fraction bit for the most negative 128-bit value: it saturates at the top of the range. */
  lemma SignLostExample(source: Format, dest: Format, v: int, round: Round)
    requires source == Format(128, 128, true) && dest == Format(128, 127, true) && v == 0 - Pow2(127)
    ensures InRange(source, v) && SignLost(source, dest, v)
    ensures Clamp(dest, Target(source, dest, v, round)) == 0 - Pow2(127) < Limit(dest, false)
  {
    hide Pow2, Top;
    TopIs();
    PowZero();
    PowPositive(1);
    PowPositive(128);
    RemainderIs(Magnitude(v) * Pow2(1), Top(), 1, 0);
  }

  lemma QuotientOrder(a: nat, b: nat, p: nat)
    requires p > 0 && a <= b
    ensures Quotient(a, p) < Quotient(b, p) || (Quotient(a, p) == Quotient(b, p) && Remainder(a, p) <= Remainder(b, p))
  {
    var i, j := Quotient(a, p), Quotient(b, p);
    var r, s := Remainder(a, p), Remainder(b, p);
    hide Quotient, Remainder;
    Apart(i, j, p);
    assert j * p == p * j && i * p == p * i;
  }

  lemma RoundedOrder(v: int, u: int, p: nat, round: Round)
    requires p >= 2 && v <= u
    ensures Rounded(v, p, round) <= Rounded(u, p, round)
  {
    RoundedKeepsSize(v, p, round);
    RoundedKeepsSize(u, p, round);
    if (v < 0) == (u < 0) {
      QuotientOrder(if v < 0 then Magnitude(u) else v, if v < 0 then Magnitude(v) else u, p);
    }
  }

  /** Saturating to the nearest limit keeps the order of the source values. */
  lemma SaturatingKeepsOrder(source: Format, dest: Format, v: int, u: int, round: Round)
    requires source.Valid() && dest.Valid() && v <= u
    ensures Clamp(dest, Target(source, dest, v, round)) <= Clamp(dest, Target(source, dest, u, round))
  {
    hide Pow2, Rounded;
    RangeIsBetween(dest, 0);
    if source.Fraction() > dest.Fraction() {
      PowPositive(source.Fraction() - dest.Fraction());
      RoundedOrder(v, u, Pow2(source.Fraction() - dest.Fraction()), round);
    } else {
      Ordered(v, u, Pow2(dest.Fraction() - source.Fraction()));
    }
  }

  /** The results of saturating `quantize` are in the order of the source values, except exactly where the smaller
      one has lost its sign and the larger one is not at the top of the range. */
  lemma SaturatedOrder(source: Format, dest: Format, v: int, u: int, round: Round)
    requires source.Valid() && dest.Valid() && v <= u
    ensures Saturated(source, dest, v, round) <= Saturated(source, dest, u, round)
       <==> !(SignLost(source, dest, v) && Saturated(source, dest, u, round) < Limit(dest, false))
  {
    hide Pow2, Rounded, Target, SignLost;
    SaturatingKeepsOrder(source, dest, v, u, round);
    RangeIsBetween(dest, 0);
  }
}
