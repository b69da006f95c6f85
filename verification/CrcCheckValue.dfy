// The known check value of the first generator: the sum of "123456789" from a seed of 0xFFFF, by the
// usual computation of four bits at a time.
module CrcCheckValue {
  import opened Arithmetic
  import opened Bits
  import opened BinaryPolynomials
  import opened CrcHardware
  import opened CrcRemainder

  const PLAIN: Mode := Mode(0, false, false, false, false)

  // A hexadecimal digit, bit 0 first; and the sum of 16 bits that four of them stand for.
  type Digit = s: seq<bool> | |s| == 4 witness seq(4, _ => false)
  type Half = s: seq<bool> | |s| == 16 witness seq(16, _ => false)

  const H0: Digit := [false, false, false, false]
  const H1: Digit := [true, false, false, false]
  const H2: Digit := [false, true, false, false]
  const H3: Digit := [true, true, false, false]
  const H4: Digit := [false, false, true, false]
  const H5: Digit := [true, false, true, false]
  const H6: Digit := [false, true, true, false]
  const H7: Digit := [true, true, true, false]
  const H8: Digit := [false, false, false, true]
  const H9: Digit := [true, false, false, true]
  const HA: Digit := [false, true, false, true]
  const HB: Digit := [true, true, false, true]
  const HC: Digit := [false, false, true, true]
  const HD: Digit := [true, false, true, true]
  const HE: Digit := [false, true, true, true]
  const HF: Digit := [true, true, true, true]

  function Word(a: Digit, b: Digit, c: Digit, d: Digit): Half { d + c + b + a }

  // The register that holds it.
  function Low(h: Half): BitWord { h + seq(16, _ => false) }

  // One bit on: what it meets at the top comes back at the places of the generator.
  predicate OneOn(raw: Half, bit: bool, next: Half) {
    var f := raw[15] != bit;
    && next[0] == f && next[1] == raw[0] && next[2] == raw[1] && next[3] == raw[2]
    && next[4] == raw[3] && next[5] == (raw[4] != f) && next[6] == raw[5] && next[7] == raw[6]
    && next[8] == raw[7] && next[9] == raw[8] && next[10] == raw[9] && next[11] == raw[10]
    && next[12] == (raw[11] != f) && next[13] == raw[12] && next[14] == raw[13] && next[15] == raw[14]
  }

  // Four bits on, the top one first.
  predicate FourOn(raw: Half, bits: Digit, next: Half) {
    var t3, t2, t1, t0 := raw[15] != bits[3], raw[14] != bits[2], raw[13] != bits[1], raw[12] != bits[0];
    && next[0] == t0 && next[1] == t1 && next[2] == t2 && next[3] == t3
    && next[4] == raw[0] && next[5] == (raw[1] != t0) && next[6] == (raw[2] != t1) && next[7] == (raw[3] != t2)
    && next[8] == (raw[4] != t3) && next[9] == raw[5] && next[10] == raw[6] && next[11] == raw[7]
    && next[12] == (raw[8] != t0) && next[13] == (raw[9] != t1)
    && next[14] == (raw[10] != t2) && next[15] == (raw[11] != t3)
  }

  lemma OneStep(raw: Half, bit: bool) returns (next: Half)
    ensures StepBit(0, Low(raw), bit) == Low(next) && OneOn(raw, bit, next)
  {
    next := StepBit(0, Low(raw), bit)[..16];
    assert StepBit(0, Low(raw), bit)[16..] == seq(16, _ => false);
  }

  lemma FourOnes(raw: Half, bits: Digit, a: Half, b: Half, c: Half, next: Half)
    requires OneOn(raw, bits[3], a) && OneOn(a, bits[2], b) && OneOn(b, bits[1], c) && OneOn(c, bits[0], next)
    ensures FourOn(raw, bits, next)
  {
  }

  lemma FourOnOne(raw: Half, bits: Digit, s: Half, t: Half)
    requires FourOn(raw, bits, s) && FourOn(raw, bits, t)
    ensures s == t
  {
    SameHalf(s, t);
  }

  lemma SameHalf(a: Half, b: Half)
    requires a[0] == b[0] && a[1] == b[1] && a[2] == b[2] && a[3] == b[3]
    requires a[4] == b[4] && a[5] == b[5] && a[6] == b[6] && a[7] == b[7]
    requires a[8] == b[8] && a[9] == b[9] && a[10] == b[10] && a[11] == b[11]
    requires a[12] == b[12] && a[13] == b[13] && a[14] == b[14] && a[15] == b[15]
    ensures a == b
  {
  }

  // The bits of a digit as they enter.
  function TopFirst(bits: Digit): seq<bool> { [bits[3], bits[2], bits[1], bits[0]] }

  lemma StepsOfFour(raw: BitWord, bits: Digit, a: BitWord, b: BitWord, c: BitWord)
    requires a == StepBit(0, raw, bits[3]) && b == StepBit(0, a, bits[2]) && c == StepBit(0, b, bits[1])
    ensures StepBits(0, raw, TopFirst(bits)) == StepBit(0, c, bits[0])
  {
    assert TopFirst(bits)[1..] == [bits[2], bits[1], bits[0]];
    assert [bits[2], bits[1], bits[0]][1..] == [bits[1], bits[0]] && [bits[1], bits[0]][1..] == [bits[0]];
    assert StepBits(0, c, [bits[0]]) == StepBits(0, StepBit(0, c, bits[0]), []);
    assert StepBits(0, b, [bits[1], bits[0]]) == StepBits(0, c, [bits[0]]);
    assert StepBits(0, a, [bits[2], bits[1], bits[0]]) == StepBits(0, b, [bits[1], bits[0]]);
  }

  lemma FourChain(raw: Half, bits: Digit) returns (a: Half, b: Half, c: Half, d: Half)
    ensures StepBits(0, Low(raw), TopFirst(bits)) == Low(d)
    ensures OneOn(raw, bits[3], a) && OneOn(a, bits[2], b) && OneOn(b, bits[1], c) && OneOn(c, bits[0], d)
  {
    a := OneStep(raw, bits[3]);
    b := OneStep(a, bits[2]);
    c := OneStep(b, bits[1]);
    d := OneStep(c, bits[0]);
    StepsOfFour(Low(raw), bits, Low(a), Low(b), Low(c));
  }

  lemma FourSteps(raw: Half, bits: Digit, next: Half)
    requires FourOn(raw, bits, next)
    ensures StepBits(0, Low(raw), TopFirst(bits)) == Low(next)
  {
    var a, b, c, d := FourChain(raw, bits);
    FourOnes(raw, bits, a, b, c, d);
    FourOnOne(raw, bits, d, next);
  }

  // The number that a digit stands for.
  function Number(d: Digit): nat { Term(d[3], 8) + Term(d[2], 4) + Term(d[1], 2) + Term(d[0], 1) }

  lemma ByteOfDigits(b: Byte, high: Digit, low: Digit)
    requires b == 16 * Number(high) + Number(low)
    ensures Incoming(PLAIN, b) == TopFirst(high) + TopFirst(low)
  {
    DigitsRead(high, low);
    EnteringIs(PLAIN, b);
    ReadingInjective(TopFirst(high) + TopFirst(low), Incoming(PLAIN, b));
  }

  lemma DigitsRead(high: Digit, low: Digit)
    ensures Reading(TopFirst(high) + TopFirst(low)) == 16 * Number(high) + Number(low)
  {
    ReadingAppends(TopFirst(high), TopFirst(low));
    ReadingOfDigit(high);
    ReadingOfDigit(low);
  }

  lemma ReadingOfDigit(d: Digit)
    ensures Reading(TopFirst(d)) == Number(d) && Pow2(4) == 16
  {
    var t := TopFirst(d);
    assert t[1..][1..] == t[2..] && t[2..][1..] == t[3..] && t[3..][1..] == [];
    assert Reading(t[3..]) == Term(d[0], 1);
    assert Reading(t[2..]) == Term(d[1], 2) + Reading(t[3..]);
    assert Reading(t[1..]) == Term(d[2], 4) + Reading(t[2..]);
  }

  lemma {:induction false} ReadingInjective(s: seq<bool>, t: seq<bool>)
    requires |s| == |t| && Reading(s) == Reading(t)
    ensures s == t
    decreases |s|
  {
    if s != [] {
      ReadingBound(s[1..]);
      ReadingBound(t[1..]);
      ReadingInjective(s[1..], t[1..]);
    }
  }

  // The sum of one more byte, if the two digits of the byte lead there.
  lemma ByteOn(raw: Half, b: Byte, high: Digit, mid: Half, low: Digit, next: Half)
    requires b == 16 * Number(high) + Number(low) && FourOn(raw, high, mid) && FourOn(mid, low, next)
    ensures StepByte(PLAIN, Low(raw), b) == Low(next)
  {
    ByteOfDigits(b, high, low);
    FourSteps(raw, high, mid);
    FourSteps(mid, low, next);
    StepBitsAppend(0, Low(raw), TopFirst(high), TopFirst(low));
  }

  lemma Byte1()
    ensures StepByte(PLAIN, Low(Word(HF, HF, HF, HF)), 0x31) == Low(Word(HC, H7, H8, H2))
  {
    ByteOn(Word(HF, HF, HF, HF), 0x31, H3, Word(H3, HE, H7, HC), H1, Word(HC, H7, H8, H2));
  }

  lemma Byte2()
    ensures StepByte(PLAIN, Low(Word(HC, H7, H8, H2)), 0x32) == Low(Word(H3, HD, HB, HA))
  {
    ByteOn(Word(HC, H7, H8, H2), 0x32, H3, Word(H8, H9, HC, HF), H2, Word(H3, HD, HB, HA));
  }

  lemma Byte3()
    ensures StepByte(PLAIN, Low(Word(H3, HD, HB, HA)), 0x33) == Low(Word(H5, HB, HC, HE))
  {
    ByteOn(Word(H3, HD, HB, HA), 0x33, H3, Word(HD, HB, HA, H0), H3, Word(H5, HB, HC, HE));
  }

  lemma Byte4()
    ensures StepByte(PLAIN, Low(Word(H5, HB, HC, HE)), 0x34) == Low(Word(H5, H3, H4, H9))
  {
    ByteOn(Word(H5, HB, HC, HE), 0x34, H3, Word(HD, HC, H2, H6), H4, Word(H5, H3, H4, H9));
  }

  lemma Byte5()
    ensures StepByte(PLAIN, Low(Word(H5, H3, H4, H9)), 0x35) == Low(Word(H4, H5, H6, H0))
  {
    ByteOn(Word(H5, H3, H4, H9), 0x35, H3, Word(H5, H4, H5, H6), H5, Word(H4, H5, H6, H0));
  }

  lemma Byte6()
    ensures StepByte(PLAIN, Low(Word(H4, H5, H6, H0)), 0x36) == Low(Word(H2, HE, HF, H4))
  {
    ByteOn(Word(H4, H5, H6, H0), 0x36, H3, Word(H2, H6, HE, H7), H6, Word(H2, HE, HF, H4));
  }

  lemma Byte7()
    ensures StepByte(PLAIN, Low(Word(H2, HE, HF, H4)), 0x37) == Low(Word(H7, H7, H1, H8))
  {
    ByteOn(Word(H2, HE, HF, H4), 0x37, H3, Word(HF, HF, H6, H1), H7, Word(H7, H7, H1, H8));
  }

  lemma Byte8()
    ensures StepByte(PLAIN, Low(Word(H7, H7, H1, H8)), 0x38) == Low(Word(HA, H1, H2, HB))
  {
    ByteOn(Word(H7, H7, H1, H8), 0x38, H3, Word(H3, H1, H0, H4), H8, Word(HA, H1, H2, HB));
  }

  lemma Byte9()
    ensures StepByte(PLAIN, Low(Word(HA, H1, H2, HB)), 0x39) == Low(Word(H2, H9, HB, H1))
  {
    ByteOn(Word(HA, H1, H2, HB), 0x39, H3, Word(H8, H3, H9, H9), H9, Word(H2, H9, HB, H1));
  }

  lemma Bytes1To3()
    ensures Feed(PLAIN, Low(Word(HF, HF, HF, HF)), [0x31, 0x32, 0x33]) == Low(Word(H5, HB, HC, HE))
  {
    Byte1();
    Byte2();
    Byte3();
    ThreeBytes(Low(Word(HF, HF, HF, HF)), 0x31, 0x32, 0x33);
  }

  lemma Bytes4To6()
    ensures Feed(PLAIN, Low(Word(H5, HB, HC, HE)), [0x34, 0x35, 0x36]) == Low(Word(H2, HE, HF, H4))
  {
    Byte4();
    Byte5();
    Byte6();
    ThreeBytes(Low(Word(H5, HB, HC, HE)), 0x34, 0x35, 0x36);
  }

  lemma Bytes7To9()
    ensures Feed(PLAIN, Low(Word(H2, HE, HF, H4)), [0x37, 0x38, 0x39]) == Low(Word(H2, H9, HB, H1))
  {
    Byte7();
    Byte8();
    Byte9();
    ThreeBytes(Low(Word(H2, HE, HF, H4)), 0x37, 0x38, 0x39);
  }

  lemma ThreeBytes(raw: BitWord, a: Byte, b: Byte, c: Byte)
    ensures Feed(PLAIN, raw, [a, b, c]) == StepByte(PLAIN, StepByte(PLAIN, StepByte(PLAIN, raw, a), b), c)
  {
    var d, e := StepByte(PLAIN, raw, a), StepByte(PLAIN, StepByte(PLAIN, raw, a), b);
    assert [a, b, c][1..] == [b, c] && [b, c][1..] == [c] && [c][1..] == [];
    assert Feed(PLAIN, e, [c]) == Feed(PLAIN, StepByte(PLAIN, e, c), []);
    assert Feed(PLAIN, d, [b, c]) == Feed(PLAIN, e, [c]);
  }

  lemma SumOfWord(a: Digit, b: Digit, c: Digit, d: Digit)
    ensures SumOf(0, Low(Word(a, b, c, d))) == 0x1000 * Number(a) + 0x100 * Number(b) + 0x10 * Number(c) + Number(d)
  {
    assert Low(Word(a, b, c, d))[..16] == d + (c + (b + a));
    ValueOfDigit(d, c + (b + a));
    ValueOfDigit(c, b + a);
    ValueOfDigit(b, a);
    ValueOfDigit(a, []);
    assert a + [] == a;
  }

  lemma ValueOfDigit(d: Digit, rest: seq<bool>)
    ensures Value(d + rest) == Number(d) + 16 * Value(rest)
  {
    var s := d + rest;
    assert s[1..][1..] == s[2..] && s[2..][1..] == s[3..] && s[3..][1..] == rest;
    assert Value(s[3..]) == Term(d[3], 1) + 2 * Value(rest);
    assert Value(s[2..]) == Term(d[2], 1) + 2 * Value(s[3..]);
    assert Value(s[1..]) == Term(d[1], 1) + 2 * Value(s[2..]);
  }

  lemma CheckValue()
    ensures var seed := Low(Word(HF, HF, HF, HF));
      && SumOf(0, seed) == 0xFFFF
      && SumOf(0, Feed(PLAIN, seed, [0x31, 0x32, 0x33, 0x34, 0x35, 0x36, 0x37, 0x38, 0x39])) == 0x29B1
  {
    SumOfWord(HF, HF, HF, HF);
    SumOfWord(H2, H9, HB, H1);
    NineBytes();
  }

  lemma NineBytes()
    ensures Feed(PLAIN, Low(Word(HF, HF, HF, HF)), [0x31, 0x32, 0x33, 0x34, 0x35, 0x36, 0x37, 0x38, 0x39])
         == Low(Word(H2, H9, HB, H1))
  {
    Bytes1To3();
    Bytes4To6();
    Bytes7To9();
    FeedAppends(PLAIN, Low(Word(HF, HF, HF, HF)), [0x31, 0x32, 0x33], [0x34, 0x35, 0x36]);
    FeedAppends(PLAIN, Low(Word(HF, HF, HF, HF)), [0x31, 0x32, 0x33] + [0x34, 0x35, 0x36], [0x37, 0x38, 0x39]);
    assert [0x31, 0x32, 0x33] + [0x34, 0x35, 0x36] + [0x37, 0x38, 0x39]
        == [0x31, 0x32, 0x33, 0x34, 0x35, 0x36, 0x37, 0x38, 0x39];
  }
}
