/** `Bits<W>`: a value of W bits in 32-bit words, with zero padding above bit W - 1. A word is given by
its bits, least significant first, so the operators of the source act on each bit. */
module PackedBits {
  import opened Registrations

  const WORD: nat := 32

  type Word = w: seq<bool> | |w| == WORD witness seq(WORD, _ => false)

  const ZERO: Word := seq(WORD, _ => false)

  function Shr(w: Word, n: nat): Word {
    seq(WORD, i requires 0 <= i < WORD => i + n < WORD && w[i + n])
  }

  function Shl(w: Word, n: nat): Word {
    seq(WORD, i requires 0 <= i < WORD => i >= n && w[i - n])
  }

  function Or(a: Word, b: Word): Word {
    seq(WORD, i requires 0 <= i < WORD => a[i] || b[i])
  }

  function And(a: Word, b: Word): Word {
    seq(WORD, i requires 0 <= i < WORD => a[i] && b[i])
  }

  function Not(a: Word): Word {
    seq(WORD, i requires 0 <= i < WORD => !a[i])
  }

  /** `low_mask` */
  function LowMask(n: nat): Word {
    seq(WORD, i requires 0 <= i < WORD => i < n)
  }

  /** `std::uint32_t{1} << n` */
  function OneBit(n: nat): Word {
    seq(WORD, i requires 0 <= i < WORD => i == n)
  }

  function WordCount(width: nat): nat {
    (width + 31) / 32
  }

  /** The bits of a list of words. */
  function BitsOf(words: seq<Word>): (r: seq<bool>)
    ensures |r| == WORD * |words|
    ensures forall i :: 0 <= i < |r| ==> r[i] == words[i / WORD][i % WORD]
  {
    seq(WORD * |words|, i requires 0 <= i < WORD * |words| => words[i / WORD][i % WORD])
  }

  /** `mask_padding`: only the last word has padding. */
  function Masked(width: nat, words: seq<Word>): seq<Word>
    requires |words| == WordCount(width) && width > 0
  {
    var last := |words| - 1;
    words[last := And(words[last], if width % WORD == 0 then LowMask(WORD) else LowMask(width % WORD))]
  }

  lemma MaskedExact(width: nat, words: seq<Word>)
    requires width > 0 && |words| == WordCount(width)
    ensures var r := Masked(width, words);
      |r| == |words| && forall i :: 0 <= i < WORD * |r| ==> BitsOf(r)[i] == (i < width && BitsOf(words)[i])
  {
  }

  lemma SplitIndex(q: nat, s: nat)
    requires s < WORD
    ensures (WORD * q + s) / WORD == q && (WORD * q + s) % WORD == s
  {
  }

  /** Bit s of word q. */
  lemma BitsOfAt(words: seq<Word>, q: nat, s: nat)
    requires q < |words| && s < WORD
    ensures WORD * q + s < WORD * |words| && BitsOf(words)[WORD * q + s] == words[q][s]
  {
    SplitIndex(q, s);
  }

  /** What a shift across two neighbouring words reads. */
  function PairAt(words: seq<Word>, q: nat, s: nat): Word
    requires q < |words| && s < WORD
  {
    if s != 0 && q + 1 < |words| then Or(Shr(words[q], s), Shl(words[q + 1], WORD - s)) else Shr(words[q], s)
  }

  lemma PairBit(words: seq<Word>, q: nat, s: nat, b: nat)
    requires q < |words| && s < WORD && b < WORD
    ensures PairAt(words, q, s)[b] ==
      if s + b < WORD then words[q][s + b] else q + 1 < |words| && words[q + 1][s + b - WORD]
  {
    assert Shr(words[q], s)[b] == (s + b < WORD && words[q][s + b]);
    if s != 0 && q + 1 < |words| {
      assert Shl(words[q + 1], WORD - s)[b] == (s + b >= WORD && words[q + 1][s + b - WORD]);
    }
  }

  lemma PairExact(words: seq<Word>, q: nat, s: nat, b: nat)
    requires q < |words| && s < WORD && b < WORD && WORD * q + s + b < WORD * |words|
    ensures PairAt(words, q, s)[b] == BitsOf(words)[WORD * q + s + b]
  {
    hide BitsOf, PairAt;
    PairBit(words, q, s, b);
    if s + b < WORD {
      BitsOfAt(words, q, s + b);
    } else {
      BitsOfAt(words, q + 1, s + b - WORD);
      assert WORD * q + s + b == WORD * (q + 1) + (s + b - WORD);
    }
  }

  /** The words a slice reads exist. */
  lemma WordInside(width: nat, offset: nat)
    requires offset < width
    ensures offset / WORD < WordCount(width)
  {
  }

  /** The first n words of a slice hold its bits. */
  ghost predicate Sliced(result: seq<Word>, source: seq<Word>, lsb: nat) {
    forall q: nat, b: nat :: q < |result| && b < WORD && lsb + WORD * q + b < WORD * |source| ==>
      result[q][b] == BitsOf(source)[lsb + WORD * q + b]
  }

  lemma SliceTurn(result: seq<Word>, source: seq<Word>, lsb: nat, low: nat, shift: nat)
    requires Sliced(result, source, lsb) && low < |source| && shift < WORD
    requires WORD * low + shift == lsb + WORD * |result|
    ensures Sliced(result + [PairAt(source, low, shift)], source, lsb)
  {
    var more := result + [PairAt(source, low, shift)];
    forall q: nat, b: nat | q < |more| && b < WORD && lsb + WORD * q + b < WORD * |source|
      ensures more[q][b] == BitsOf(source)[lsb + WORD * q + b]
    {
      if q == |result| {
        PairExact(source, low, shift, b);
      }
    }
  }

  lemma SliceDone(result: seq<Word>, source: seq<Word>, lsb: nat, k: nat, width: nat)
    requires Sliced(result, source, lsb) && k <= WORD * |result| && lsb + k <= width <= WORD * |source|
    ensures BitsOf(result)[..k] == BitsOf(source)[..width][lsb..lsb + k]
  {
    forall j | 0 <= j < k
      ensures BitsOf(result)[j] == BitsOf(source)[lsb + j]
    {
      assert j == WORD * (j / WORD) + j % WORD;
      BitsOfAt(result, j / WORD, j % WORD);
    }
  }

  /** The word that `set_slice` writes: `copied` bits of the fragment from position `shift` on, the rest as
      before. */
  function Spliced(w: Word, fragment: Word, shift: nat, copied: nat): Word {
    var mask := LowMask(copied);
    Or(And(w, Not(Shl(mask, shift))), Shl(And(fragment, mask), shift))
  }

  lemma SplicedExact(w: Word, fragment: Word, shift: nat, copied: nat, b: nat)
    requires b < WORD && shift + copied <= WORD
    ensures Spliced(w, fragment, shift, copied)[b] == if shift <= b < shift + copied then fragment[b - shift] else w[b]
  {
  }

  /** One turn of the loop of `set_slice`: it writes `copied` bits of the source into word d. */
  lemma SpliceTurn(was: seq<Word>, d: nat, q: nat, s: nat, shift: nat, copied: nat, source: seq<Word>)
    requires d < |was| && shift + copied <= WORD && q < |source| && s < WORD && WORD * q + s + copied <= WORD * |source|
    ensures var now := was[d := Spliced(was[d], PairAt(source, q, s), shift, copied)]; var begin := WORD * d + shift;
      forall i :: 0 <= i < WORD * |was| ==>
        BitsOf(now)[i] == if begin <= i < begin + copied then BitsOf(source)[WORD * q + s + (i - begin)]
          else BitsOf(was)[i]
  {
    var now, begin := was[d := Spliced(was[d], PairAt(source, q, s), shift, copied)], WORD * d + shift;
    forall i | 0 <= i < WORD * |was|
      ensures BitsOf(now)[i]
           == if begin <= i < begin + copied then BitsOf(source)[WORD * q + s + (i - begin)] else BitsOf(was)[i]
    {
      assert i == WORD * (i / WORD) + i % WORD;
      if i / WORD == d {
        SplicedExact(was[d], PairAt(source, q, s), shift, copied, i % WORD);
        if begin <= i < begin + copied {
          PairExact(source, q, s, i - begin);
        }
      }
    }
  }

  /** The words up to d have been dealt with. */
  ghost predicate Inserted(now: seq<Word>, before: seq<Word>, source: seq<Word>, lsb: nat, k: nat, d: nat) {
    && |now| == |before| && k <= WORD * |source|
    && forall i :: 0 <= i < WORD * |now| ==>
         BitsOf(now)[i] == if lsb <= i < lsb + k && i < WORD * d then BitsOf(source)[i - lsb] else BitsOf(before)[i]
  }

  /** How `set_slice` cuts the slice at the word borders. */
  lemma InsertTurn(was: seq<Word>, before: seq<Word>, source: seq<Word>, lsb: nat, k: nat, d: nat, q: nat, s: nat,
                   shift: nat, copied: nat)
    requires Inserted(was, before, source, lsb, k, d) && d < |was| && shift + copied <= WORD && q < |source| && s < WORD
    requires WORD * d + shift == if lsb > WORD * d then lsb else WORD * d
    requires WORD * d + shift + copied == if lsb + k < WORD * d + WORD then lsb + k else WORD * d + WORD
    requires WORD * q + s == WORD * d + shift - lsb
    ensures Inserted(was[d := Spliced(was[d], PairAt(source, q, s), shift, copied)], before, source, lsb, k, d + 1)
  {
    hide BitsOf, Spliced, PairAt;
    SpliceTurn(was, d, q, s, shift, copied, source);
    var now, begin := was[d := Spliced(was[d], PairAt(source, q, s), shift, copied)], WORD * d + shift;
    forall i | 0 <= i < WORD * |now|
      ensures BitsOf(now)[i]
           == if lsb <= i < lsb + k && i < WORD * (d + 1) then BitsOf(source)[i - lsb] else BitsOf(before)[i]
    {
      assert begin <= i < begin + copied ==> WORD * q + s + (i - begin) == i - lsb;
    }
  }

  lemma InsertDone(now: seq<Word>, before: seq<Word>, source: seq<Word>, lsb: nat, k: nat, d: nat, width: nat)
    requires Inserted(now, before, source, lsb, k, d) && lsb + k <= WORD * d && lsb + k <= width <= WORD * |now|
    ensures BitsOf(now)[..width]
      == BitsOf(before)[..width][..lsb] + BitsOf(source)[..k] + BitsOf(before)[..width][lsb + k..]
    ensures forall i :: width <= i < WORD * |now| ==> BitsOf(now)[i] == BitsOf(before)[i]
  {
  }

  // ---------------------------------------------------------------------------------------------
  // Numbers
  // ---------------------------------------------------------------------------------------------

  function Pow2(n: nat): (r: nat)
    ensures r > 0
  {
    if n == 0 then 1 else 2 * Pow2(n - 1)
  }

  /** The number with these bits, least significant first. */
  function Value(bits: seq<bool>): nat {
    if bits == [] then 0 else (if bits[0] then 1 else 0) + 2 * Value(bits[1..])
  }

  function Quotient(v: nat, m: nat): nat
    requires m > 0
  {
    v / m
  }

  function Remainder(v: nat, m: nat): (r: nat)
    requires m > 0
    ensures r < m && v == m * Quotient(v, m) + r
  {
    v % m
  }

  const WORD_VALUES: nat := 0x1_0000_0000

  /** The n lowest bits of a number. */
  function Digits(v: nat, n: nat): (r: seq<bool>)
    ensures |r| == n
  {
    seq(n, i requires 0 <= i < n => Quotient(v, Pow2(i)) % 2 == 1)
  }

  lemma WordPow()
    ensures Pow2(WORD) == WORD_VALUES
  {
    assert Pow2(4) == 16;
    PowDouble(4, 16);
    PowDouble(8, 256);
    PowDouble(16, 65536);
  }

  lemma PowDouble(n: nat, v: nat)
    requires Pow2(n) == v
    ensures Pow2(2 * n) == v * v
  {
    PowSum(n, n);
  }

  lemma DigitsStep(v: nat, n: nat)
    requires n > 0
    ensures Digits(v, n)[0] == (v % 2 == 1) && Digits(v, n)[1..] == Digits(v / 2, n - 1)
  {
    forall i | 0 <= i < n - 1
      ensures v / Pow2(i + 1) == v / 2 / Pow2(i)
    {
      DivTwice(v, Pow2(i));
    }
  }

  lemma {:induction false} PowSum(a: nat, b: nat)
    ensures Pow2(a + b) == Pow2(a) * Pow2(b)
  {
    if a > 0 {
      PowSum(a - 1, b);
    }
  }

  lemma {:induction false} ValueBound(bits: seq<bool>)
    ensures Value(bits) < Pow2(|bits|)
  {
    if bits != [] {
      ValueBound(bits[1..]);
    }
  }

  lemma {:induction false} ValueOfDigits(v: nat, n: nat)
    ensures Value(Digits(v, n)) == v % Pow2(n)
  {
    if n > 0 {
      ValueOfDigits(v / 2, n - 1);
      DigitsStep(v, n);
      HalfMod(v, Pow2(n - 1));
    }
  }

  lemma HalfMod(v: nat, m: nat)
    requires m > 0
    ensures v % (2 * m) == v % 2 + 2 * ((v / 2) % m)
  {
    var q, r := (v / 2) / m, (v / 2) % m;
    assert v == 2 * (v / 2) + v % 2;
    assert v / 2 == m * q + r;
    assert v == (2 * m) * q + (2 * r + v % 2) by {
      assert 2 * (m * q) == (2 * m) * q;
    }
    ModUnique(v, 2 * m, q, 2 * r + v % 2);
  }

  lemma ModUnique(v: nat, m: nat, q: nat, r: nat)
    requires m > 0 && v == m * q + r && r < m
    ensures v % m == r && v / m == q
  {
    var p := v / m;
    assert v == m * p + v % m;
    MulOrder(m, p, q);
    MulOrder(m, q, p);
  }

  lemma MulOrder(m: nat, p: nat, q: nat)
    ensures p < q ==> m * p + m <= m * q
  {
    if p < q {
      var d := q - p - 1;
      assert m * q == m * p + m + m * d;
      assert m * d >= 0;
    }
  }

  lemma {:induction false} DigitsOfValue(bits: seq<bool>)
    ensures Digits(Value(bits), |bits|) == bits
  {
    if bits != [] {
      DigitsOfValue(bits[1..]);
      DigitsStep(Value(bits), |bits|);
      assert Digits(Value(bits), |bits|) == [bits[0]] + bits[1..];
    }
  }

  lemma {:induction false} ValueAppend(a: seq<bool>, b: seq<bool>)
    ensures Value(a + b) == Value(a) + Pow2(|a|) * Value(b)
  {
    if a == [] {
      assert a + b == b;
    } else {
      assert (a + b)[1..] == a[1..] + b;
      ValueAppend(a[1..], b);
      Regroup(2, Pow2(|a| - 1), Value(b));
    }
  }

  lemma Regroup(x: nat, y: nat, z: nat)
    ensures x * (y * z) == (x * y) * z
  {
  }

  /** Zero padding adds nothing. */
  lemma {:induction false} ValueZeros(bits: seq<bool>)
    requires forall i :: 0 <= i < |bits| ==> !bits[i]
    ensures Value(bits) == 0
  {
    if bits != [] {
      ValueZeros(bits[1..]);
    }
  }

  lemma {:induction false} DivPow(v: nat, a: nat, b: nat)
    ensures v / Pow2(a) / Pow2(b) == v / Pow2(a + b)
  {
    if a > 0 {
      DivTwice(v, Pow2(a - 1));
      DivPow(v / 2, a - 1, b);
      DivTwice(v, Pow2(a + b - 1));
    }
  }

  lemma DigitsAppend(v: nat, a: nat, b: nat)
    ensures Digits(v, a + b) == Digits(v, a) + Digits(Quotient(v, Pow2(a)), b)
  {
    forall i | 0 <= i < b
      ensures v / Pow2(a) / Pow2(i) == v / Pow2(a + i)
    {
      DivPow(v, a, i);
    }
  }

  lemma DivTwice(v: nat, m: nat)
    requires m > 0
    ensures v / 2 / m == v / (2 * m)
  {
    var q, r := (v / 2) / m, (v / 2) % m;
    assert v == 2 * (m * q + r) + v % 2;
    assert 2 * (m * q) == (2 * m) * q;
    ModUnique(v, 2 * m, q, 2 * r + v % 2);
  }

  lemma BitsOfPush(words: seq<Word>, w: Word)
    ensures BitsOf(words + [w]) == BitsOf(words) + w
  {
  }

  lemma BitsOfCons(w: Word, words: seq<Word>)
    ensures BitsOf([w] + words) == w + BitsOf(words)
  {
    var r := BitsOf([w] + words);
    forall i | 0 <= i < |r|
      ensures r[i] == (w + BitsOf(words))[i]
    {
      if i >= WORD {
        SplitIndex((i - WORD) / WORD, (i - WORD) % WORD);
        assert i == WORD * (i / WORD) + i % WORD;
        assert i / WORD == (i - WORD) / WORD + 1 && i % WORD == (i - WORD) % WORD;
      }
    }
  }

  class Bits {
    const width: nat
    const words: array<Word>

    ghost predicate Shaped()
    {
      width > 0 && words.Length == WordCount(width)
    }

    /** The padding is zero. */
    ghost predicate Valid()
      reads words
    {
      Shaped() && forall i :: width <= i < WORD * words.Length ==> !BitsOf(words[..])[i]
    }

    /** The value, bit by bit. */
    ghost function Contents(): (r: seq<bool>)
      requires Shaped()
      reads words
    {
      BitsOf(words[..])[..width]
    }

    /** `from_words` */
    constructor (width: nat, from: seq<Word>)
      requires width > 0 && |from| == WordCount(width)
      ensures this.width == width && fresh(words) && Valid() && Contents() == BitsOf(from)[..width]
    {
      this.width := width;
      words := new Word[|from|](i requires 0 <= i < |from| => from[i]);
      new;
      assert words[..] == from;
      var last := words.Length - 1;
      words[last] := And(words[last], if width % WORD == 0 then LowMask(WORD) else LowMask(width % WORD));
      assert words[..] == Masked(width, from);
      MaskedExact(width, from);
    }

    /** `bit`; `None` where the source aborts. */
    method BitAt(i: nat) returns (b: Option<bool>)
      requires Valid()
      ensures b == if i < width then Some(Contents()[i]) else None
    {
      b := if i >= width then None else Some(Shr(words[i / WORD], i % WORD)[0]);
    }

    /** `set_bit`; false where the source aborts. */
    method SetBit(i: nat, value: bool) returns (ok: bool)
      requires Valid()
      modifies words
      ensures Valid() && ok == (i < width)
      ensures Contents() == if ok then old(Contents())[i := value] else old(Contents())
    {
      ok := i < width;
      if !ok {
        return;
      }
      var mask := OneBit(i % WORD);
      ghost var before := words[..];
      words[i / WORD] := if value then Or(words[i / WORD], mask) else And(words[i / WORD], Not(mask));
      assert words[..] == before[i / WORD := words[i / WORD]];
      forall k | 0 <= k < WORD * words.Length
        ensures BitsOf(words[..])[k] == if k == i then value else BitsOf(before)[k]
      {
        assert k / WORD == i / WORD && k % WORD == i % WORD ==> k == i;
      }
    }

    /** `set_word`; false where the source aborts. */
    method SetWord(index: nat, value: Word) returns (ok: bool)
      requires Valid()
      modifies words
      ensures Valid() && ok == (index < words.Length)
      ensures Contents() == if ok then BitsOf(old(words[..])[index := value])[..width] else old(Contents())
    {
      ok := index < words.Length;
      if !ok {
        return;
      }
      words[index] := value;
      ghost var written := words[..];
      assert written == old(words[..])[index := value];
      var last := words.Length - 1;
      words[last] := And(words[last], if width % WORD == 0 then LowMask(WORD) else LowMask(width % WORD));
      assert words[..] == Masked(width, written);
      MaskedExact(width, written);
    }

    /** The word that starts in the middle of a word and goes on in the next one, if there is one. */
    static method WordFrom(source: seq<Word>, low: nat, shift: nat) returns (value: Word)
      requires low < |source| && shift < WORD
      ensures value == PairAt(source, low, shift)
    {
      value := Shr(source[low], shift);
      if shift != 0 && low + 1 < |source| {
        value := Or(value, Shl(source[low + 1], WORD - shift));
      }
    }

    /** `slice`; `None` where the source aborts. */
    method Slice(lsb: nat, k: nat) returns (r: Option<Bits>)
      requires Valid() && k > 0
      ensures r.Some? <==> lsb + k <= width
      ensures r.Some? ==> fresh(r.value.words) && r.value.Valid() && r.value.width == k
                          && r.value.Contents() == Contents()[lsb..lsb + k]
    {
      hide BitsOf, PairAt;
      if lsb > width || k > width - lsb {
        return None;
      }
      var result: seq<Word> := [];
      var sourceWord, sourceShift := lsb / WORD, lsb % WORD;
      for index := 0 to WordCount(k)
        invariant |result| == index && Sliced(result, words[..], lsb)
      {
        WordInside(width, lsb + WORD * index);
        SliceTurn(result, words[..], lsb, sourceWord + index, sourceShift);
        var value := WordFrom(words[..], sourceWord + index, sourceShift);
        result := result + [value];
      }
      SliceDone(result, words[..], lsb, k, width);
      var bits := new Bits(k, result);
      r := Some(bits);
    }

    /** `set_slice`; false where the source aborts. The words of the value are copied first, so it may be this
        value itself. */
    method SetSlice(lsb: nat, value: Bits) returns (ok: bool)
      requires Valid() && value.Valid()
      modifies words
      ensures Valid() && ok == (lsb + value.width <= width)
      ensures Contents()
        == if ok then old(Contents())[..lsb] + old(value.Contents()) + old(Contents())[lsb + value.width..]
           else old(Contents())
    {
      hide BitsOf, PairAt;
      ok := lsb <= width && value.width <= width - lsb;
      if !ok {
        return;
      }
      ghost var before := words[..];
      var source := value.words[..];
      var end := lsb + value.width;
      var first, last := lsb / WORD, (end - 1) / WORD;
      for d := first to last + 1
        invariant Inserted(words[..], before, source, lsb, value.width, d)
      {
        var begin := d * WORD;
        var overlapBegin := if lsb > begin then lsb else begin;
        var overlapEnd := if end < begin + WORD then end else begin + WORD;
        var shift, copied := overlapBegin - begin, overlapEnd - overlapBegin;
        var offset := overlapBegin - lsb;
        WordInside(value.width, offset);
        WordInside(width, overlapBegin);
        ghost var was := words[..];
        InsertTurn(was, before, source, lsb, value.width, d, offset / WORD, offset % WORD, shift, copied);
        var fragment := WordFrom(source, offset / WORD, offset % WORD);
        var mask := LowMask(copied);
        words[d] := Or(And(words[d], Not(Shl(mask, shift))), Shl(And(fragment, mask), shift));
        assert words[d] == Spliced(was[d], fragment, shift, copied);
        assert words[..] == was[d := words[d]];
      }
      InsertDone(words[..], before, source, lsb, value.width, last + 1, width);
    }

    /** `to_uint128` */
    method ToUint128() returns (value: nat)
      requires Valid() && width <= 128
      ensures value == Value(Contents()) < Pow2(width)
    {
      value := 0;
      var index := words.Length;
      assert words[index..] == [];
      while index > 0
        invariant 0 <= index <= words.Length && value == Value(BitsOf(words[index..]))
      {
        index := index - 1;
        assert words[index..] == [words[index]] + words[index + 1..];
        ValueCons(words[index], words[index + 1..]);
        value := value * WORD_VALUES + Value(words[index]);
      }
      assert words[0..] == words[..];
      ValuePadded(words[..], width);
    }
  }

  lemma ValueCons(w: Word, words: seq<Word>)
    ensures Value(BitsOf([w] + words)) == Value(BitsOf(words)) * WORD_VALUES + Value(w)
  {
    hide BitsOf, Value, Pow2;
    BitsOfCons(w, words);
    ValueAppend(w, BitsOf(words));
    WordPow();
  }

  lemma ValuePadded(words: seq<Word>, width: nat)
    requires width <= WORD * |words| && forall i :: width <= i < WORD * |words| ==> !BitsOf(words)[i]
    ensures Value(BitsOf(words)) == Value(BitsOf(words)[..width]) < Pow2(width)
  {
    hide BitsOf, Pow2, Value;
    var all := BitsOf(words);
    assert all == all[..width] + all[width..];
    ValueAppend(all[..width], all[width..]);
    ValueZeros(all[width..]);
    ValueBound(all[..width]);
  }

  /** `from_uint128`: at most four words are copied, the rest are zero. */
  method FromUint128(width: nat, value: nat) returns (r: Bits)
    requires width > 0 && value < Pow2(128)
    ensures fresh(r.words) && r.Valid() && r.width == width
    ensures r.Contents() == Digits(value, width) && Value(r.Contents()) == value % Pow2(width)
  {
    hide BitsOf, Digits, Pow2, Value;
    var result: seq<Word> := [];
    var rest := value;
    var copied := if WordCount(width) < 4 then WordCount(width) else 4;
    DivOne(value);
    for index := 0 to copied
      invariant |result| == index && rest == Quotient(value, Pow2(WORD * index))
      invariant BitsOf(result) == Digits(value, WORD * index)
    {
      var word := Digits(rest, WORD);
      BitsOfPush(result, word);
      DigitsAppend(value, WORD * index, WORD);
      result := result + [word];
      WordPow();
      DivPow(value, WORD * index, WORD);
      rest := Quotient(rest, WORD_VALUES);
    }
    while |result| < WordCount(width)
      invariant copied <= |result| <= WordCount(width) && BitsOf(result) == Digits(value, WORD * |result|)
    {
      BitsOfPush(result, ZERO);
      DigitsAppend(value, WORD * |result|, WORD);
      TooSmall(value, WORD * |result|);
      result := result + [ZERO];
    }
    r := new Bits(width, result);
    DigitsAppend(value, width, WORD * |result| - width);
    ValueOfDigits(value, width);
  }

  lemma DivOne(v: nat)
    ensures Quotient(v, Pow2(0)) == v
  {
  }

  /** A number below 2^128 has no digits from there on. */
  lemma TooSmall(v: nat, n: nat)
    requires v < Pow2(128) && n >= 128
    ensures Quotient(v, Pow2(n)) == 0 && Digits(0, WORD) == ZERO
  {
    PowSum(128, n - 128);
    assert Pow2(n) >= Pow2(128) by { MulOrder(Pow2(128), 0, Pow2(n - 128)); }
    SmallQuotient(v, Pow2(n));
    forall i | 0 <= i < WORD
      ensures Quotient(0, Pow2(i)) == 0
    {
      SmallQuotient(0, Pow2(i));
    }
  }

  lemma SmallQuotient(v: nat, m: nat)
    requires v < m
    ensures Quotient(v, m) == 0
  {
    ModUnique(v, m, 0, v);
  }

  /** What has been inserted is what a slice of the same place reads back. */
  lemma SliceOfInserted(before: seq<bool>, value: seq<bool>, lsb: nat)
    requires lsb + |value| <= |before|
    ensures var after := before[..lsb] + value + before[lsb + |value|..];
      && |after| == |before| && after[lsb..lsb + |value|] == value
      && (forall i :: 0 <= i < |before| && !(lsb <= i < lsb + |value|) ==> after[i] == before[i])
  {
  }
}
