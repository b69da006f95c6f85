// What the CRC engine computes: the remainder of the message by the generator, as the sections
// 8.1.1.6.1 and 8.1.1.6.2 of ITU-T V.42 define it.

module CrcRemainder {
  import opened Arithmetic
  import opened Bits
  import opened BinaryPolynomials
  import opened CrcHardware

  // The generators as numbers.
  function Generator(poly: nat): nat {
    if poly == 0 then 0x1_1021 else if poly == 1 then 0x1_8005 else 0x1_04C1_1DB7
  }

  // The sum as a number.
  function SumOf(poly: nat, raw: BitWord): nat { Value(raw[..Width(poly)]) }

  // A byte as it enters, its eight bits turned round if reversed.
  function Entering(m: Mode, b: Byte): nat {
    TurnedBound(b, 8);
    Pow2Widths();
    var r := if m.reverseIn then Turned(b, 8) else b;
    if m.complementIn then Pow2(8) - 1 - r else r
  }

  // The message: its bytes, the first one most significant.
  function Message(m: Mode, data: seq<Byte>): nat {
    if data == [] then 0 else Shift(Entering(m, data[0]), 8 * (|data| - 1)) + Message(m, data[1..])
  }

  // What is divided: the message behind the sum that the engine starts from.
  function Dividend(m: Mode, raw: BitWord, data: seq<Byte>): nat {
    Plus(Shift(SumOf(m.poly, raw), 8 * |data|), Shift(Message(m, data), Width(m.poly)))
  }

  ghost predicate LeavesRemainder(m: Mode, raw: BitWord, data: seq<Byte>, now: BitWord) {
    IsRemainder(Dividend(m, raw, data), Generator(m.poly), Width(m.poly), SumOf(m.poly, now))
  }

  // The new sum is the remainder, and the only one.
  lemma FeedIsRemainder(m: Mode, raw: BitWord, data: seq<Byte>)
    ensures LeavesRemainder(m, raw, data, Feed(m, raw, data))
    ensures forall r: nat :: IsRemainder(Dividend(m, raw, data), Generator(m.poly), Width(m.poly), r)
                        <==> r == SumOf(m.poly, Feed(m, raw, data))
  {
    var d, g, w := Dividend(m, raw, data), Generator(m.poly), Width(m.poly);
    var bits := MessageBits(m, data);
    FeedIsSteps(m, raw, data);
    PlusZero(SumOf(m.poly, raw));
    assert Divides(SumOf(m.poly, raw), g, 0, SumOf(m.poly, raw)) by { assert Times(0, g) == 0; }
    var q := StepsDivide(m.poly, raw, bits, SumOf(m.poly, raw), 0);
    ExtendedIs(SumOf(m.poly, raw), bits, w);
    MessageIs(m, data);
    SumBound(m.poly, Feed(m, raw, data));
    GeneratorDegree(m.poly);
    forall r: nat | IsRemainder(d, g, w, r) ensures r == SumOf(m.poly, Feed(m, raw, data)) {
      RemainderUnique(d, g, w, r, SumOf(m.poly, Feed(m, raw, data)));
    }
  }

  lemma GeneratorDegree(poly: nat)
    ensures Pow2(Width(poly)) <= Generator(poly) < Pow2(Width(poly) + 1)
  {
    Pow2Widths();
    assert Pow2(17) == 2 * Pow2(16) && Pow2(33) == 2 * Pow2(32);
  }

  lemma CcittBit(i: nat)
    requires i <= 16
    ensures Bit(0x1_1021, i) == (i == 16 || HasTerm(0, i))
  {
    if i < 4 {
      assert Bit(0x1_1021, 0) && !Bit(0x1_1021, 1) && !Bit(0x1_1021, 2) && !Bit(0x1_1021, 3);
    } else if i < 8 {
      HighNibble(0x1_1021, i);
      assert !Bit(0x1102, 0) && Bit(0x1102, 1) && !Bit(0x1102, 2) && !Bit(0x1102, 3);
    } else if i < 12 {
      HighBits(0x1_1021, i);
      assert !Bit(0x110, 0) && !Bit(0x110, 1) && !Bit(0x110, 2) && !Bit(0x110, 3);
    } else if i < 16 {
      HighBits(0x1_1021, i);
      HighNibble(0x110, i - 8);
      assert Bit(0x11, 0) && !Bit(0x11, 1) && !Bit(0x11, 2) && !Bit(0x11, 3);
    } else {
      HighBits(0x1_1021, i);
      HighBits(0x110, i - 8);
      assert Bit(0x1, 0);
    }
  }

  lemma Crc16Bit(i: nat)
    requires i <= 16
    ensures Bit(0x1_8005, i) == (i == 16 || HasTerm(1, i))
  {
    if i < 4 {
      assert Bit(0x1_8005, 0) && !Bit(0x1_8005, 1) && Bit(0x1_8005, 2) && !Bit(0x1_8005, 3);
    } else if i < 8 {
      HighNibble(0x1_8005, i);
      assert !Bit(0x1800, 0) && !Bit(0x1800, 1) && !Bit(0x1800, 2) && !Bit(0x1800, 3);
    } else if i < 12 {
      HighBits(0x1_8005, i);
      assert !Bit(0x180, 0) && !Bit(0x180, 1) && !Bit(0x180, 2) && !Bit(0x180, 3);
    } else if i < 16 {
      HighBits(0x1_8005, i);
      HighNibble(0x180, i - 8);
      assert !Bit(0x18, 0) && !Bit(0x18, 1) && !Bit(0x18, 2) && Bit(0x18, 3);
    } else {
      HighBits(0x1_8005, i);
      HighBits(0x180, i - 8);
      assert Bit(0x1, 0);
    }
  }

  lemma Crc32Bit(i: nat)
    requires i <= 32
    ensures Bit(0x1_04C1_1DB7, i) == (i == 32 || HasTerm(2, i))
  {
    if i < 4 {
      assert Bit(0x1_04C1_1DB7, 0) && Bit(0x1_04C1_1DB7, 1) && Bit(0x1_04C1_1DB7, 2) && !Bit(0x1_04C1_1DB7, 3);
    } else if i < 8 {
      HighNibble(0x1_04C1_1DB7, i);
      assert Bit(0x104C_11DB, 0) && Bit(0x104C_11DB, 1) && !Bit(0x104C_11DB, 2) && Bit(0x104C_11DB, 3);
    } else if i < 12 {
      HighBits(0x1_04C1_1DB7, i);
      assert Bit(0x104_C11D, 0) && !Bit(0x104_C11D, 1) && Bit(0x104_C11D, 2) && Bit(0x104_C11D, 3);
    } else if i < 16 {
      HighBits(0x1_04C1_1DB7, i);
      HighNibble(0x104_C11D, i - 8);
      assert Bit(0x10_4C11, 0) && !Bit(0x10_4C11, 1) && !Bit(0x10_4C11, 2) && !Bit(0x10_4C11, 3);
    } else {
      HighBits(0x1_04C1_1DB7, i);
      HighBits(0x104_C11D, i - 8);
      Crc32Above(i - 16);
    }
  }

  lemma Crc32Above(i: nat)
    requires i <= 16
    ensures Bit(0x1_04C1, i) == (i == 16 || HasTerm(2, i + 16))
  {
    if i < 4 {
      assert Bit(0x1_04C1, 0) && !Bit(0x1_04C1, 1) && !Bit(0x1_04C1, 2) && !Bit(0x1_04C1, 3);
    } else if i < 8 {
      HighNibble(0x1_04C1, i);
      assert !Bit(0x104C, 0) && !Bit(0x104C, 1) && Bit(0x104C, 2) && Bit(0x104C, 3);
    } else if i < 12 {
      HighBits(0x1_04C1, i);
      assert !Bit(0x104, 0) && !Bit(0x104, 1) && Bit(0x104, 2) && !Bit(0x104, 3);
    } else if i < 16 {
      HighBits(0x1_04C1, i);
      HighNibble(0x104, i - 8);
      assert !Bit(0x10, 0) && !Bit(0x10, 1) && !Bit(0x10, 2) && !Bit(0x10, 3);
    } else {
      HighBits(0x1_04C1, i);
      HighBits(0x104, i - 8);
      assert Bit(0x1, 0);
    }
  }

  // The bits above a byte.
  lemma HighBits(x: nat, i: nat)
    requires i >= 8
    ensures Bit(x, i) == Bit(x / 256, i - 8)
  {
    HighNibble(x, i);
    HighNibble(x / 16, i - 4);
  }

  lemma HighNibble(x: nat, i: nat)
    requires i >= 4
    ensures Bit(x, i) == Bit(x / 16, i - 4)
  {
    assert Bit(x, i) == Bit(x / 4, i - 2);
    assert Bit(x / 4, i - 2) == Bit(x / 16, i - 4);
  }

  lemma SumBound(poly: nat, raw: BitWord)
    ensures SumOf(poly, raw) < Pow2(Width(poly))
  {
    ValueBound(raw[..Width(poly)]);
  }

  lemma SumBit(poly: nat, raw: BitWord, i: nat)
    ensures Bit(SumOf(poly, raw), i) == (i < Width(poly) && raw[i])
  {
    ValueBit(raw[..Width(poly)], i);
  }

  lemma GeneratorBit(poly: nat, i: nat)
    requires i <= Width(poly)
    ensures Bit(Generator(poly), i) == (i == Width(poly) || HasTerm(poly, i))
  {
    if poly == 0 { CcittBit(i); } else if poly == 1 { Crc16Bit(i); } else { Crc32Bit(i); }
  }

  lemma {:induction false} Pow2Bit(n: nat, i: nat)
    ensures Bit(Pow2(n), i) == (i == n)
    decreases i
  {
    if n == 0 {
      if i > 0 { ZeroBit(i - 1); }
    } else if i > 0 {
      Pow2Bit(n - 1, i - 1);
    }
  }

  lemma TermBit(present: bool, g: nat, i: nat)
    ensures Bit(Term(present, g), i) == (present && Bit(g, i))
  {
    ZeroBit(i);
  }

  // One bit through the engine, in numbers.
  lemma StepIsPlus(poly: nat, raw: BitWord, bit: bool)
    ensures var f, w := raw[Width(poly) - 1] != bit, Width(poly);
      SumOf(poly, StepBit(poly, raw, bit))
      == Plus(Plus(2 * SumOf(poly, raw), Term(bit, Pow2(w))), Term(f, Generator(poly)))
  {
    var f, w := raw[Width(poly) - 1] != bit, Width(poly);
    var low, term := Term(bit, Pow2(w)), Term(f, Generator(poly));
    var left, right := SumOf(poly, StepBit(poly, raw, bit)), Plus(Plus(2 * SumOf(poly, raw), low), term);
    SumBound(poly, raw);
    SumBound(poly, StepBit(poly, raw, bit));
    GeneratorDegree(poly);
    PlusBound(2 * SumOf(poly, raw), low, w + 1);
    PlusBound(Plus(2 * SumOf(poly, raw), low), term, w + 1);
    forall i: nat | i < w + 1 ensures Bit(left, i) == Bit(right, i) {
      StepBitIs(poly, raw, bit, i);
    }
    SameBits(left, right, w + 1);
  }

  lemma StepBitIs(poly: nat, raw: BitWord, bit: bool, i: nat)
    requires i <= Width(poly)
    ensures var f, w := raw[Width(poly) - 1] != bit, Width(poly);
      Bit(SumOf(poly, StepBit(poly, raw, bit)), i)
      == Bit(Plus(Plus(2 * SumOf(poly, raw), Term(bit, Pow2(w))), Term(f, Generator(poly))), i)
  {
    var f, w := raw[Width(poly) - 1] != bit, Width(poly);
    var double, low, term := 2 * SumOf(poly, raw), Term(bit, Pow2(w)), Term(f, Generator(poly));
    SumBit(poly, StepBit(poly, raw, bit), i);
    PlusBit(Plus(double, low), term, i);
    PlusBit(double, low, i);
    TermBit(bit, Pow2(w), i);
    TermBit(f, Generator(poly), i);
    Pow2Bit(w, i);
    GeneratorBit(poly, i);
    DoubleBit(SumOf(poly, raw), i);
    if i > 0 { SumBit(poly, raw, i - 1); }
  }

  lemma DoubleBit(x: nat, i: nat)
    ensures Bit(2 * x, i) == (i > 0 && Bit(x, i - 1))
  {
  }

  // The dividend, bit by bit.
  function Extended(d: nat, bits: seq<bool>, w: nat): nat
    decreases |bits|
  {
    if bits == [] then d else Extended(Plus(2 * d, Term(bits[0], Pow2(w))), bits[1..], w)
  }

  lemma {:induction false} StepsDivide(poly: nat, raw: BitWord, bits: seq<bool>, d: nat, q: nat) returns (p: nat)
    requires Divides(d, Generator(poly), q, SumOf(poly, raw))
    ensures Divides(Extended(d, bits, Width(poly)), Generator(poly), p, SumOf(poly, StepBits(poly, raw, bits)))
    decreases |bits|
  {
    if bits == [] {
      p := q;
    } else {
      var f, low := raw[Width(poly) - 1] != bits[0], Term(bits[0], Pow2(Width(poly)));
      StepIsPlus(poly, raw, bits[0]);
      NextRemainder(d, Generator(poly), q, SumOf(poly, raw), low, f);
      p := StepsDivide(poly, StepBit(poly, raw, bits[0]), bits[1..], Plus(2 * d, low), 2 * q + Term(f, 1));
    }
  }

  lemma {:induction false} ExtendedIs(d: nat, bits: seq<bool>, w: nat)
    ensures Extended(d, bits, w) == Plus(Shift(d, |bits|), Shift(Reading(bits), w))
    decreases |bits|
  {
    if bits == [] {
      ShiftIs(0, w);
      PlusZero(d);
    } else {
      var n, low, rest := |bits| - 1, Term(bits[0], Pow2(w)), Reading(bits[1..]);
      ExtendedIs(Plus(2 * d, low), bits[1..], w);
      ShiftPlus(2 * d, low, n);
      ShiftDouble(d, n);
      TermShifted(bits[0], w, n);
      PlusAssoc(Shift(d, n + 1), Shift(Term(bits[0], Pow2(n)), w), Shift(rest, w));
      ShiftPlus(Term(bits[0], Pow2(n)), rest, w);
      ReadingSplits(bits);
    }
  }

  lemma {:induction false} ShiftDouble(a: nat, n: nat)
    ensures Shift(2 * a, n) == Shift(a, n + 1)
    decreases n
  {
    if n > 0 { ShiftDouble(a, n - 1); }
  }

  lemma TermShifted(present: bool, w: nat, n: nat)
    ensures Shift(Term(present, Pow2(w)), n) == Shift(Term(present, Pow2(n)), w)
  {
    ShiftIs(Term(present, Pow2(w)), n);
    ShiftIs(Term(present, Pow2(n)), w);
  }

  lemma ReadingSplits(bits: seq<bool>)
    requires bits != []
    ensures Plus(Term(bits[0], Pow2(|bits| - 1)), Reading(bits[1..])) == Reading(bits)
  {
    var n, top := |bits| - 1, if bits[0] then 1 else 0;
    ReadingBound(bits[1..]);
    PlusApart(top, Reading(bits[1..]), n);
    ShiftIs(top, n);
  }

  // The bits of the message as they enter.
  function MessageBits(m: Mode, data: seq<Byte>): seq<bool> {
    if data == [] then [] else Incoming(m, data[0]) + MessageBits(m, data[1..])
  }

  lemma {:induction false} FeedIsSteps(m: Mode, raw: BitWord, data: seq<Byte>)
    ensures Feed(m, raw, data) == StepBits(m.poly, raw, MessageBits(m, data))
    decreases |data|
  {
    if data != [] {
      FeedIsSteps(m, StepByte(m, raw, data[0]), data[1..]);
      StepBitsAppend(m.poly, raw, Incoming(m, data[0]), MessageBits(m, data[1..]));
    }
  }

  lemma {:induction false} StepBitsAppend(poly: nat, raw: BitWord, a: seq<bool>, b: seq<bool>)
    ensures StepBits(poly, raw, a + b) == StepBits(poly, StepBits(poly, raw, a), b)
    decreases |a|
  {
    if a == [] {
      assert a + b == b;
    } else {
      assert (a + b)[1..] == a[1..] + b;
      StepBitsAppend(poly, StepBit(poly, raw, a[0]), a[1..], b);
    }
  }

  lemma {:induction false} MessageIs(m: Mode, data: seq<Byte>)
    ensures |MessageBits(m, data)| == 8 * |data| && Reading(MessageBits(m, data)) == Message(m, data)
    decreases |data|
  {
    if data != [] {
      MessageIs(m, data[1..]);
      ReadingAppends(Incoming(m, data[0]), MessageBits(m, data[1..]));
      EnteringIs(m, data[0]);
      ShiftIs(Entering(m, data[0]), 8 * (|data| - 1));
    }
  }

  lemma EnteringIs(m: Mode, b: Byte)
    ensures Reading(Incoming(m, b)) == Entering(m, b)
  {
    var straight := m.(complementIn := false);
    StraightIs(straight, b);
    if m.complementIn { ReadingFlipped(Incoming(m, b), Incoming(straight, b)); }
  }

  lemma StraightIs(m: Mode, b: Byte)
    requires !m.complementIn
    ensures Reading(Incoming(m, b)) == if m.reverseIn then Turned(b, 8) else b
  {
    assert b < Pow2(8) by { Pow2Widths(); }
    LowBitsRead(b, 8);
    StraightBits(m, b, Incoming(m, b), LowBitsOf(b, 8));
  }

  lemma StraightBits(m: Mode, b: Byte, bits: seq<bool>, low: seq<bool>)
    requires !m.complementIn && bits == Incoming(m, b) && low == LowBitsOf(b, 8)
    ensures if m.reverseIn then bits == low else Reading(bits) == Value(low)
  {
    if !m.reverseIn { Mirrored(low, bits); }
  }

  // What a read of SUM shows of a sum: turned round if reversed, each bit flipped if complemented.
  function Shown(m: Mode, sum: nat): int {
    var r := if m.reverseOut then Turned(sum, Width(m.poly)) else sum;
    if m.complementOut then Pow2(Width(m.poly)) - 1 - r else r
  }

  lemma PostIs(m: Mode, raw: BitWord)
    ensures SumOf(m.poly, Post(m, raw)) == Shown(m, SumOf(m.poly, raw))
  {
    var w := Width(m.poly);
    var turned := Post(m.(complementOut := false), raw)[..w];
    TurnedSum(m.poly, raw);
    if m.reverseOut { Mirrored(turned, raw[..w]); } else { assert turned == raw[..w]; }
    if m.complementOut { Flipped(Post(m, raw)[..w], turned); } else { assert Post(m, raw)[..w] == turned; }
  }

  lemma TurnedSum(poly: nat, raw: BitWord)
    ensures Turned(SumOf(poly, raw), Width(poly)) == Reading(raw[..Width(poly)])
  {
    var w, bits := Width(poly), LowBitsOf(SumOf(poly, raw), Width(poly));
    forall i: nat | i < w ensures bits[i] == raw[..w][i] { SumBit(poly, raw, i); }
    assert bits == raw[..w];
    LowBitsRead(SumOf(poly, raw), w);
  }

  // The checksum of a message: what is shown of the remainder.
  ghost predicate IsChecksum(m: Mode, raw: BitWord, data: seq<Byte>, sum: nat) {
    exists r: nat :: IsRemainder(Dividend(m, raw, data), Generator(m.poly), Width(m.poly), r) && sum == Shown(m, r)
  }

  // There is one, and the engine shows it.
  lemma ChecksumIs(m: Mode, raw: BitWord, data: seq<Byte>)
    ensures forall sum: nat :: IsChecksum(m, raw, data, sum) <==> sum == SumOf(m.poly, Post(m, Feed(m, raw, data)))
  {
    FeedIsRemainder(m, raw, data);
    PostIs(m, Feed(m, raw, data));
    assert IsRemainder(Dividend(m, raw, data), Generator(m.poly), Width(m.poly), SumOf(m.poly, Feed(m, raw, data)));
  }
}
