/** Printing bits as text and reading them back: hexadecimal digits for `Bits`, one character per bit for
`LogicBits`. */
module TextForms {
  import opened Registrations
  import opened PackedBits

  /** The text without its underscores. */
  function Squeeze(text: string): string {
    if text == "" then ""
    else Squeeze(text[..|text| - 1]) + if text[|text| - 1] == '_' then "" else [text[|text| - 1]]
  }

  /** `hex_digit`; `None` where the source aborts. */
  function HexDigit(c: char): Option<nat> {
    if '0' <= c <= '9' then Some((c - '0') as nat)
    else if 'a' <= c <= 'f' then Some((c - 'a') as nat + 10)
    else if 'A' <= c <= 'F' then Some((c - 'A') as nat + 10)
    else None
  }

  function HexChar(n: nat): char
    requires n < 16
  {
    if n < 10 then '0' + n as char else 'a' + (n - 10) as char
  }

  lemma HexCharDigit(n: nat)
    requires n < 16
    ensures HexDigit(HexChar(n)) == Some(n) && HexChar(n) != '_' && HexChar(n) != 'x' && HexChar(n) != 'X'
  {
  }

  function Body(text: string): string {
    if |text| >= 2 && text[0] == '0' && (text[1] == 'x' || text[1] == 'X') then text[2..] else text
  }

  /** The digits of a text, the last one first; `None` if one of them is no hexadecimal digit. */
  function Nibbles(text: string): Option<seq<nat>> {
    if text == "" then Some([])
    else
      var c, rest := text[|text| - 1], text[..|text| - 1];
      if c == '_' then Nibbles(rest)
      else if HexDigit(c).None? || Nibbles(rest).None? then None
      else Some([HexDigit(c).value] + Nibbles(rest).value)
  }

  predicate NibbleBit(n: nat, b: nat)
    requires b < 4
  {
    (if b == 0 then n else if b == 1 then n / 2 else if b == 2 then n / 4 else n / 8) % 2 == 1
  }

  /** Bit i of the number with these digits. */
  predicate DigitBit(ns: seq<nat>, i: nat) {
    i / 4 < |ns| && NibbleBit(ns[i / 4], i % 4)
  }

  ghost predicate FitsWidth(ns: seq<nat>, width: nat) {
    forall i: nat :: width <= i < 4 * |ns| ==> !DigitBit(ns, i)
  }

  /** What `from_hex` makes of the digits. */
  function HexBits(ns: seq<nat>, width: nat): seq<bool> {
    seq(width, i requires 0 <= i < width => DigitBit(ns, i))
  }

  /** When `from_hex` accepts a text. */
  ghost predicate HexAccepted(text: string, width: nat) {
    var ns := Nibbles(Body(text));
    ns.Some? && ns.value != [] && FitsWidth(ns.value, width)
  }

  lemma {:induction false} NibblesSqueezed(text: string)
    ensures Nibbles(text) == Nibbles(Squeeze(text))
  {
    if text != "" {
      var c, rest, s := text[|text| - 1], text[..|text| - 1], Squeeze(text);
      NibblesSqueezed(rest);
      if c == '_' {
        assert s == Squeeze(rest);
      } else {
        assert s[|s| - 1] == c && s[..|s| - 1] == Squeeze(rest);
      }
    }
  }

  /** The loop of `from_hex` over the four bits of a digit; false where it aborts because one does not fit. */
  method SetNibble(bits: Bits, digit: nat, nibble: nat) returns (fits: bool)
    requires bits.Valid() && forall i :: 4 * nibble <= i < bits.width ==> !bits.Contents()[i]
    modifies bits.words
    ensures bits.Valid()
    ensures fits <==> forall b: nat :: b < 4 && 4 * nibble + b >= bits.width ==> !NibbleBit(digit, b)
    ensures fits ==> forall i :: 0 <= i < bits.width ==>
      bits.Contents()[i] == if i / 4 == nibble then NibbleBit(digit, i % 4) else old(bits.Contents())[i]
  {
    for bit := 0 to 4
      invariant bits.Valid()
      invariant forall i :: 0 <= i < bits.width ==>
        bits.Contents()[i]
        == if i / 4 == nibble && i % 4 < bit then NibbleBit(digit, i % 4) else old(bits.Contents())[i]
      invariant forall b: nat :: b < bit && 4 * nibble + b >= bits.width ==> !NibbleBit(digit, b)
    {
      var position := nibble * 4 + bit;
      assert position / 4 == nibble && position % 4 == bit;
      if NibbleBit(digit, bit) {
        if position >= bits.width {
          return false;
        }
        var ok := bits.SetBit(position, true);
      }
    }
    fits := true;
  }

  /** `from_hex`; `None` where the source aborts. */
  method FromHex(text: string, width: nat) returns (r: Option<Bits>)
    requires width > 0
    ensures r.Some? <==> HexAccepted(text, width)
    ensures r.Some? ==> fresh(r.value.words) && r.value.Valid() && r.value.width == width
                        && r.value.Contents() == HexBits(Nibbles(Body(text)).value, width)
  {
    hide BitsOf, NibbleBit;
    var begin := if |text| >= 2 && text[0] == '0' && (text[1] == 'x' || text[1] == 'X') then 2 else 0;
    var body := text[begin..];
    assert body == Body(text);
    var zeros := seq(WordCount(width), i => ZERO);
    var bits := new Bits(width, zeros);
    var cursor, nibble := |body|, 0;
    ghost var ns: seq<nat> := [];
    assert body[..|body|] == body;
    assert bits.Contents() == HexBits(ns, width) by { ZeroBits(width, zeros); }
    while cursor > 0
      invariant 0 <= cursor <= |body| && nibble == |ns|
      invariant fresh(bits) && fresh(bits.words) && bits.Valid() && bits.width == width
      invariant bits.Contents() == HexBits(ns, width) && FitsWidth(ns, width)
      invariant ReadSoFar(body, ns, cursor)
    {
      cursor := cursor - 1;
      var c := body[cursor];
      ReadMore(body, ns, cursor);
      if c != '_' {
        var digit := HexDigit(c);
        if digit.None? {
          return None;
        }
        var fits := SetNibble(bits, digit.value, nibble);
        if !fits {
          TooWide(body, ns, digit.value, width, cursor);
          return None;
        }
        DigitAdded(ns, digit.value, width);
        DigitBits(ns, digit.value, width);
        ns := ns + [digit.value];
        nibble := nibble + 1;
        assert bits.Contents() == HexBits(ns, width);
      }
    }
    ReadAll(body, ns);
    if nibble == 0 {
      return None;
    }
    r := Some(bits);
  }

  lemma ZeroBits(width: nat, zeros: seq<Word>)
    requires |zeros| == WordCount(width) && forall i :: 0 <= i < |zeros| ==> zeros[i] == ZERO
    ensures BitsOf(zeros)[..width] == HexBits([], width)
  {
  }

  /** The digits behind the cursor have been read. */
  ghost predicate ReadSoFar(body: string, ns: seq<nat>, cursor: nat)
    requires cursor <= |body|
  {
    && (Nibbles(body).Some? <==> Nibbles(body[..cursor]).Some?)
    && (Nibbles(body).Some? ==> Nibbles(body).value == ns + Nibbles(body[..cursor]).value)
  }

  lemma ReadMore(body: string, ns: seq<nat>, cursor: nat)
    requires cursor < |body| && ReadSoFar(body, ns, cursor + 1)
    ensures var c := body[cursor];
      if c == '_' then ReadSoFar(body, ns, cursor)
      else if HexDigit(c).None? then Nibbles(body).None?
      else ReadSoFar(body, ns + [HexDigit(c).value], cursor)
  {
    var c, more, less := body[cursor], body[..cursor + 1], body[..cursor];
    assert more[|more| - 1] == c && more[..|more| - 1] == less;
    LastNibble(more, less, c);
    if c != '_' && HexDigit(c).Some? && Nibbles(less).Some? {
      var d, rest := HexDigit(c).value, Nibbles(less).value;
      assert ns + ([d] + rest) == (ns + [d]) + rest;
    }
  }

  lemma LastNibble(more: string, less: string, c: char)
    requires more != "" && more[|more| - 1] == c && more[..|more| - 1] == less
    ensures c == '_' ==> Nibbles(more) == Nibbles(less)
    ensures c != '_' ==> (Nibbles(more).Some? <==> HexDigit(c).Some? && Nibbles(less).Some?)
    ensures c != '_' && Nibbles(more).Some? ==> Nibbles(more).value == [HexDigit(c).value] + Nibbles(less).value
  {
  }

  lemma ReadAll(body: string, ns: seq<nat>)
    requires ReadSoFar(body, ns, 0)
    ensures Nibbles(body) == Some(ns)
  {
    assert body[..0] == "" && ns + [] == ns;
  }

  lemma DigitBits(ns: seq<nat>, d: nat, width: nat)
    ensures forall i :: 0 <= i < width ==>
      HexBits(ns + [d], width)[i] == if i / 4 == |ns| then NibbleBit(d, i % 4) else HexBits(ns, width)[i]
  {
  }

  lemma DigitAdded(ns: seq<nat>, d: nat, width: nat)
    requires FitsWidth(ns, width) && forall b: nat :: b < 4 && 4 * |ns| + b >= width ==> !NibbleBit(d, b)
    ensures FitsWidth(ns + [d], width)
  {
    var more := ns + [d];
    forall i: nat | width <= i < 4 * |more|
      ensures !DigitBit(more, i)
    {
      if i < 4 * |ns| {
        assert !DigitBit(ns, i);
      } else {
        assert i / 4 == |ns| && i == 4 * |ns| + i % 4;
      }
    }
  }

  lemma TooWide(body: string, ns: seq<nat>, d: nat, width: nat, cursor: nat)
    requires cursor <= |body| && ReadSoFar(body, ns + [d], cursor)
    requires exists b: nat :: b < 4 && 4 * |ns| + b >= width && NibbleBit(d, b)
    ensures Nibbles(body).Some? ==> !FitsWidth(Nibbles(body).value, width)
  {
    if Nibbles(body).Some? {
      var b: nat :| b < 4 && 4 * |ns| + b >= width && NibbleBit(d, b);
      var all, position := Nibbles(body).value, 4 * |ns| + b;
      assert position / 4 == |ns| && position % 4 == b;
      assert all[|ns|] == d;
      assert DigitBit(all, position);
    }
  }

  // ---------------------------------------------------------------------------------------------
  // Printing hexadecimal digits
  // ---------------------------------------------------------------------------------------------

  function DigitCount(width: nat): nat {
    (width + 3) / 4
  }

  predicate BitOr0(bits: seq<bool>, i: nat) {
    i < |bits| && bits[i]
  }

  /** The value of the four bits from lsb on; bits beyond the width are zero. */
  function NibbleAt(bits: seq<bool>, lsb: nat): (n: nat)
    ensures n < 16
  {
    (if BitOr0(bits, lsb) then 1 else 0) + (if BitOr0(bits, lsb + 1) then 2 else 0)
    + (if BitOr0(bits, lsb + 2) then 4 else 0) + if BitOr0(bits, lsb + 3) then 8 else 0
  }

  /** The digits that `format_bits` prints behind the width, most significant first. */
  function HexText(bits: seq<bool>): (r: string)
    ensures |r| == DigitCount(|bits|)
  {
    seq(DigitCount(|bits|), p requires 0 <= p < DigitCount(|bits|) =>
      HexChar(NibbleAt(bits, 4 * (DigitCount(|bits|) - 1 - p))))
  }

  /** The inner loop of `format_bits`. */
  method ReadNibble(bits: Bits, lsb: nat) returns (nibble: nat)
    requires bits.Valid() && lsb < bits.width
    ensures nibble == NibbleAt(bits.Contents(), lsb)
  {
    ghost var contents := bits.Contents();
    nibble := 0;
    var weight, bit := 1, 0;
    while bit < 4 && lsb + bit < bits.width
      invariant bit <= 4 && lsb + bit <= bits.width && weight == Weight(bit) && bits.Contents() == contents
      invariant nibble == (if bit > 0 && BitOr0(contents, lsb) then 1 else 0)
                          + (if bit > 1 && BitOr0(contents, lsb + 1) then 2 else 0)
                          + (if bit > 2 && BitOr0(contents, lsb + 2) then 4 else 0)
                          + if bit > 3 && BitOr0(contents, lsb + 3) then 8 else 0
    {
      var b := bits.BitAt(lsb + bit);
      if b == Some(true) {
        nibble := nibble + weight;
      }
      bit, weight := bit + 1, weight * 2;
    }
  }

  function Weight(bit: nat): nat {
    if bit == 0 then 1 else if bit == 1 then 2 else if bit == 2 then 4 else if bit == 3 then 8 else 16
  }

  /** `format_bits` without the prefix that names the width. */
  method FormatBits(bits: Bits) returns (result: string)
    requires bits.Valid()
    ensures result == HexText(bits.Contents())
  {
    result := "";
    var digit := DigitCount(bits.width);
    while digit > 0
      invariant 0 <= digit <= DigitCount(bits.width)
      invariant result == HexText(bits.Contents())[..DigitCount(bits.width) - digit]
    {
      var nibble := ReadNibble(bits, (digit - 1) * 4);
      result := result + [HexChar(nibble)];
      digit := digit - 1;
    }
  }

  /** n digits of a value from digit m on, least significant first. */
  function NibblesOf(bits: seq<bool>, m: nat, n: nat): (r: seq<nat>)
    ensures |r| == n
  {
    seq<nat>(n, k requires 0 <= k < n => NibbleAt(bits, 4 * (m + k)))
  }

  lemma NibbleBitsExact(bits: seq<bool>, lsb: nat, b: nat)
    requires b < 4
    ensures NibbleBit(NibbleAt(bits, lsb), b) == BitOr0(bits, lsb + b)
  {
  }

  lemma {:induction false} ReadPrinted(bits: seq<bool>, text: string, m: nat, n: nat)
    requires |text| == n && forall p :: 0 <= p < n ==> text[p] == HexChar(NibbleAt(bits, 4 * (m + n - 1 - p)))
    ensures Nibbles(text) == Some(NibblesOf(bits, m, n))
    decreases n
  {
    if n > 0 {
      var rest := text[..n - 1];
      HexCharDigit(NibbleAt(bits, 4 * m));
      ReadPrinted(bits, rest, m + 1, n - 1);
      LastNibble(text, rest, text[n - 1]);
      assert NibblesOf(bits, m, n) == [NibbleAt(bits, 4 * m)] + NibblesOf(bits, m + 1, n - 1);
    }
  }

  /** The digits of a value give its bits back, and no others. */
  lemma PrintedBits(bits: seq<bool>)
    ensures var ns := NibblesOf(bits, 0, DigitCount(|bits|));
      FitsWidth(ns, |bits|) && HexBits(ns, |bits|) == bits
  {
    var ns := NibblesOf(bits, 0, DigitCount(|bits|));
    forall i: nat | i < 4 * |ns|
      ensures DigitBit(ns, i) == BitOr0(bits, i)
    {
      assert i == 4 * (i / 4) + i % 4;
      NibbleBitsExact(bits, 4 * (i / 4), i % 4);
    }
  }

  lemma {:induction false} SqueezeMembers(text: string)
    ensures forall c :: c in Squeeze(text) <==> c in text && c != '_'
  {
    if text != "" {
      var front, last := text[..|text| - 1], text[|text| - 1];
      SqueezeMembers(front);
      assert forall c :: c in text <==> c in front || c == last;
    }
  }

  /** A text without the letter of the prefix is all digits. */
  lemma NoPrefix(text: string)
    requires 'x' !in Squeeze(text) && 'X' !in Squeeze(text)
    ensures Body(text) == text
  {
    SqueezeMembers(text);
    assert |text| >= 2 ==> text[1] in text;
  }

  lemma HexTextDigits(bits: seq<bool>)
    ensures 'x' !in HexText(bits) && 'X' !in HexText(bits) && '_' !in HexText(bits)
  {
    var text := HexText(bits);
    forall p | 0 <= p < |text|
      ensures text[p] != 'x' && text[p] != 'X' && text[p] != '_'
    {
      HexCharDigit(NibbleAt(bits, 4 * (DigitCount(|bits|) - 1 - p)));
    }
  }

  lemma HexTextRead(bits: seq<bool>)
    ensures Nibbles(HexText(bits)) == Some(NibblesOf(bits, 0, DigitCount(|bits|)))
  {
    ReadPrinted(bits, HexText(bits), 0, DigitCount(|bits|));
  }

  /** Reading the printed digits gives the same bits back, for every width, wherever underscores are put
      between the digits. */
  lemma HexRoundTrip(bits: seq<bool>, text: string)
    requires bits != [] && Squeeze(text) == HexText(bits)
    ensures HexAccepted(text, |bits|) && HexBits(Nibbles(Body(text)).value, |bits|) == bits
  {
    hide HexText, NibblesOf, Nibbles, Squeeze, Body, DigitBit;
    HexTextDigits(bits);
    NoPrefix(text);
    NibblesSqueezed(text);
    HexTextRead(bits);
    PrintedBits(bits);
  }

  // ---------------------------------------------------------------------------------------------
  // Four-state values
  // ---------------------------------------------------------------------------------------------

  datatype LogicState = Zero | One | X | Z

  /** `state`, from the two planes (the aval and bval of IEEE 1800-2017, Annex H). */
  function StateOf(a: bool, b: bool): LogicState {
    if !b then (if a then One else Zero) else if a then X else Z
  }

  function Aval(s: LogicState): bool {
    s.One? || s.X?
  }

  function Bval(s: LogicState): bool {
    s.X? || s.Z?
  }

  function LogicChar(s: LogicState): char {
    match s case Zero => '0' case One => '1' case X => 'X' case Z => 'Z'
  }

  function CharState(c: char): Option<LogicState> {
    if c == '0' then Some(Zero) else if c == '1' then Some(One)
    else if c == 'x' || c == 'X' then Some(X) else if c == 'z' || c == 'Z' then Some(Z) else None
  }

  /** The states of a text without underscores, the last character first. */
  function ReadStates(text: string): Option<seq<LogicState>> {
    if text == "" then Some([])
    else
      var c, rest := CharState(text[|text| - 1]), ReadStates(text[..|text| - 1]);
      if c.None? || rest.None? then None else Some([c.value] + rest.value)
  }

  /** The characters of `format_logic_bits`, most significant first. */
  function LogicText(states: seq<LogicState>): (r: string)
    ensures |r| == |states|
  {
    seq(|states|, p requires 0 <= p < |states| => LogicChar(states[|states| - 1 - p]))
  }

  /** A character of the text in the spelling of the printer. */
  function Canonical(c: char): char {
    if c == 'x' then 'X' else if c == 'z' then 'Z' else c
  }

  class LogicBits {
    const aval: Bits
    const bval: Bits

    ghost predicate Valid()
      reads aval.words, bval.words
    {
      aval.Valid() && bval.Valid() && aval.width == bval.width && aval.words != bval.words
    }

    ghost function States(): (r: seq<LogicState>)
      requires Valid()
      reads aval.words, bval.words
      ensures |r| == aval.width
    {
      seq(aval.width, i requires 0 <= i < aval.width reads aval.words, bval.words requires Valid() =>
        StateOf(aval.Contents()[i], bval.Contents()[i]))
    }

    /** `from_planes` */
    constructor (aval: Bits, bval: Bits)
      ensures this.aval == aval && this.bval == bval
    {
      this.aval := aval;
      this.bval := bval;
    }

    /** `state`; `None` where the source aborts. */
    method StateAt(i: nat) returns (s: Option<LogicState>)
      requires Valid()
      ensures s == if i < aval.width then Some(States()[i]) else None
    {
      var a := aval.BitAt(i);
      var b := bval.BitAt(i);
      s := if a.Some? && b.Some? then Some(StateOf(a.value, b.value)) else None;
    }

    /** `format_logic_bits` without the prefix that names the width. */
    method Format() returns (result: string)
      requires Valid()
      ensures result == LogicText(States())
    {
      result := "";
      var bit := aval.width;
      while bit > 0
        invariant 0 <= bit <= aval.width && result == LogicText(States())[..aval.width - bit]
      {
        var s := StateAt(bit - 1);
        result := result + [LogicChar(s.value)];
        bit := bit - 1;
      }
    }
  }

  /** When `from_string` accepts a text of this width. */
  predicate LogicAccepted(text: string, width: nat) {
    |Squeeze(text)| == width && ReadStates(Squeeze(text)).Some?
  }

  /** The first loop of `from_string`. */
  method CountDigits(text: string) returns (digits: nat)
    ensures digits == |Squeeze(text)|
  {
    digits := 0;
    for i := 0 to |text|
      invariant digits == |Squeeze(text[..i])|
    {
      assert text[..i + 1][..i] == text[..i];
      if text[i] != '_' {
        digits := digits + 1;
      }
    }
    assert text[..|text|] == text;
  }

  /** The states behind the cursor have been read. */
  ghost predicate StatesSoFar(text: string, read: seq<LogicState>, cursor: nat)
    requires cursor <= |text|
  {
    var all, rest := ReadStates(Squeeze(text)), ReadStates(Squeeze(text[..cursor]));
    && |Squeeze(text)| == |read| + |Squeeze(text[..cursor])|
    && (all.Some? <==> rest.Some?) && (all.Some? ==> all.value == read + rest.value)
  }

  lemma LastState(text: string, c: char)
    ensures var r, more := ReadStates(text), ReadStates(text + [c]);
      more == if CharState(c).None? || r.None? then None else Some([CharState(c).value] + r.value)
  {
    assert (text + [c])[..|text|] == text;
  }

  lemma StatesMore(text: string, read: seq<LogicState>, cursor: nat)
    requires cursor < |text| && StatesSoFar(text, read, cursor + 1)
    ensures var c := text[cursor];
      if c == '_' then StatesSoFar(text, read, cursor)
      else if CharState(c).None? then ReadStates(Squeeze(text)).None?
      else StatesSoFar(text, read + [CharState(c).value], cursor)
  {
    hide ReadStates, Squeeze;
    var c, more, less := text[cursor], text[..cursor + 1], text[..cursor];
    assert more[|more| - 1] == c && more[..|more| - 1] == less;
    LastSqueezed(more, less, c);
    if c != '_' {
      LastState(Squeeze(less), c);
      if CharState(c).Some? && ReadStates(Squeeze(less)).Some? {
        var s, rest := CharState(c).value, ReadStates(Squeeze(less)).value;
        assert read + ([s] + rest) == (read + [s]) + rest;
      }
    }
  }

  lemma LastSqueezed(more: string, less: string, c: char)
    requires more != "" && more[|more| - 1] == c && more[..|more| - 1] == less
    ensures Squeeze(more) == if c == '_' then Squeeze(less) else Squeeze(less) + [c]
  {
  }

  lemma {:induction false} StatesLength(text: string)
    requires ReadStates(text).Some?
    ensures |ReadStates(text).value| == |text|
  {
    if text != "" {
      StatesLength(text[..|text| - 1]);
    }
  }

  lemma StatesAll(text: string, read: seq<LogicState>)
    requires StatesSoFar(text, read, 0)
    ensures ReadStates(Squeeze(text)) == Some(read) && |Squeeze(text)| == |read|
  {
    assert text[..0] == "" && read + [] == read;
  }

  /** A plane of states: the bits at the positions read so far, zero above. */
  ghost predicate Plane(bits: Bits, read: seq<LogicState>, isA: bool)
    requires bits.Valid()
    reads bits.words
  {
    forall i :: 0 <= i < bits.width ==>
      bits.Contents()[i] == (i < |read| && if isA then Aval(read[i]) else Bval(read[i]))
  }

  /** `from_string`; `None` where the source aborts. */
  method FromString(text: string, width: nat) returns (r: Option<LogicBits>)
    requires width > 0
    ensures r.Some? <==> LogicAccepted(text, width)
    ensures r.Some? ==> r.value.Valid() && r.value.aval.width == width
                        && r.value.States() == ReadStates(Squeeze(text)).value
  {
    hide BitsOf, Squeeze, ReadStates;
    var digits := CountDigits(text);
    if digits != width {
      return None;
    }
    var zeros := seq(WordCount(width), i => ZERO);
    var aval := new Bits(width, zeros);
    var bval := new Bits(width, zeros);
    ZeroBits(width, zeros);
    var cursor, position := |text|, 0;
    ghost var read: seq<LogicState> := [];
    StatesStart(text);
    while cursor > 0
      invariant 0 <= cursor <= |text| && position == |read| && StatesSoFar(text, read, cursor)
      invariant fresh(aval) && fresh(bval) && fresh(aval.words) && fresh(bval.words) && aval.words != bval.words
      invariant aval.Valid() && bval.Valid() && aval.width == bval.width == width
      invariant Plane(aval, read, true) && Plane(bval, read, false)
    {
      cursor := cursor - 1;
      var c := text[cursor];
      StatesMore(text, read, cursor);
      if c != '_' {
        var s := CharState(c);
        if s.None? {
          return None;
        }
        if Aval(s.value) {
          var ok := aval.SetBit(position, true);
        }
        if Bval(s.value) {
          var ok := bval.SetBit(position, true);
        }
        read := read + [s.value];
        position := position + 1;
      }
    }
    StatesAll(text, read);
    var result := new LogicBits(aval, bval);
    assert forall i :: 0 <= i < width ==> result.States()[i] == read[i];
    r := Some(result);
  }

  lemma StatesStart(text: string)
    ensures StatesSoFar(text, [], |text|)
  {
    assert text[..|text|] == text;
    if ReadStates(Squeeze(text)).Some? {
      assert [] + ReadStates(Squeeze(text)).value == ReadStates(Squeeze(text)).value;
    }
  }

  lemma {:induction false} ReadLogicText(states: seq<LogicState>, text: string)
    requires |text| == |states| && forall p :: 0 <= p < |text| ==> text[p] == LogicChar(states[|states| - 1 - p])
    ensures ReadStates(text) == Some(states)
    decreases |states|
  {
    if states != [] {
      var n := |states| - 1;
      ReadLogicText(states[1..], text[..n]);
      assert states == [states[0]] + states[1..];
    }
  }

  /** Reading the printed states gives the same value back, for every width, wherever underscores are put
      between the characters. */
  lemma LogicRoundTrip(states: seq<LogicState>, text: string)
    requires Squeeze(text) == LogicText(states)
    ensures LogicAccepted(text, |states|) && ReadStates(Squeeze(text)).value == states
  {
    ReadLogicText(states, LogicText(states));
  }

  /** Printing a text that has been read gives the text back, without its underscores and in capitals. */
  lemma {:induction false} PrintedAgain(text: string)
    requires ReadStates(text).Some?
    ensures var r := LogicText(ReadStates(text).value);
      |r| == |text| && forall p :: 0 <= p < |text| ==> r[p] == Canonical(text[p])
  {
    if text != "" {
      var n := |text| - 1;
      PrintedAgain(text[..n]);
      StatesLength(text);
      StatesLength(text[..n]);
      var r, front := LogicText(ReadStates(text).value), LogicText(ReadStates(text[..n]).value);
      assert r == front + [LogicChar(CharState(text[n]).value)];
    }
  }
}
