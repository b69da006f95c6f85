// Feeding, suspending and resuming the CRC peripheral (drivers/fsl_crc.c).

// The engine behind the registers, bit by bit.
module CrcHardware {
  import opened Arithmetic
  import opened Bits

  // MODE: 0 and 1 select the 16-bit polynomials of CCITT and CRC-16, 2 and 3 CRC-32.
  datatype Mode = Mode(poly: nat, reverseIn: bool, complementIn: bool, reverseOut: bool, complementOut: bool)

  function Width(poly: nat): nat { if poly >= 2 then 32 else 16 }

  // The generators: x^16+x^12+x^5+1 (section 8.1.1.6.1 of ITU-T V.42), x^16+x^15+x^2+1, and the
  // 32-bit one (section 8.1.1.6.2 of ITU-T V.42).
  predicate HasTerm(poly: nat, i: nat) {
    if poly == 0 then i in {0, 5, 12}
    else if poly == 1 then i in {0, 2, 15}
    else i in {0, 1, 2, 4, 5, 7, 8, 10, 11, 12, 16, 22, 23, 26}
  }

  function StepBit(poly: nat, raw: BitWord, bit: bool): BitWord {
    var feedback := raw[Width(poly) - 1] != bit;
    seq(32, i requires 0 <= i < 32 =>
      if i >= Width(poly) then raw[i] else (i > 0 && raw[i - 1]) != (feedback && HasTerm(poly, i)))
  }

  // The bits of a byte in the order they enter, after pre-processing.
  function Incoming(m: Mode, b: Byte): seq<bool> {
    seq(8, i requires 0 <= i < 8 => Bit(b, if m.reverseIn then i else 7 - i) != m.complementIn)
  }

  function StepBits(poly: nat, raw: BitWord, bits: seq<bool>): BitWord
    decreases |bits|
  {
    if bits == [] then raw else StepBits(poly, StepBit(poly, raw, bits[0]), bits[1..])
  }

  function StepByte(m: Mode, raw: BitWord, b: Byte): BitWord { StepBits(m.poly, raw, Incoming(m, b)) }

  function Feed(m: Mode, raw: BitWord, data: seq<Byte>): BitWord
    decreases |data|
  {
    if data == [] then raw else Feed(m, StepByte(m, raw, data[0]), data[1..])
  }

  lemma {:induction false} FeedAppends(m: Mode, raw: BitWord, a: seq<Byte>, b: seq<Byte>)
    ensures Feed(m, raw, a + b) == Feed(m, Feed(m, raw, a), b)
    decreases |a|
  {
    if a == [] {
      assert a + b == b;
    } else {
      assert (a + b)[1..] == a[1..] + b;
      FeedAppends(m, StepByte(m, raw, a[0]), a[1..], b);
    }
  }

  // The bits that the sum is made of.
  predicate SameSum(poly: nat, r: BitWord, s: BitWord) { forall i | 0 <= i < Width(poly) :: r[i] == s[i] }

  // The engine never merges two sums: what it is fed cannot make up for a wrong start.
  lemma StepBitKeepsApart(poly: nat, r: BitWord, s: BitWord, bit: bool)
    ensures SameSum(poly, StepBit(poly, r, bit), StepBit(poly, s, bit)) <==> SameSum(poly, r, s)
  {
    var w := Width(poly);
    var t, u := StepBit(poly, r, bit), StepBit(poly, s, bit);
    if SameSum(poly, t, u) {
      assert t[0] == u[0];
      forall i | 0 <= i < w ensures r[i] == s[i] {
        if i < w - 1 { assert t[i + 1] == u[i + 1]; }
      }
    }
  }

  lemma {:induction false} StepBitsKeepApart(poly: nat, r: BitWord, s: BitWord, bits: seq<bool>)
    ensures SameSum(poly, StepBits(poly, r, bits), StepBits(poly, s, bits)) <==> SameSum(poly, r, s)
    decreases |bits|
  {
    if bits != [] {
      StepBitsKeepApart(poly, StepBit(poly, r, bits[0]), StepBit(poly, s, bits[0]), bits[1..]);
      StepBitKeepsApart(poly, r, s, bits[0]);
    }
  }

  lemma {:induction false} FeedKeepsApart(m: Mode, r: BitWord, s: BitWord, data: seq<Byte>)
    ensures SameSum(m.poly, Feed(m, r, data), Feed(m, s, data)) <==> SameSum(m.poly, r, s)
    decreases |data|
  {
    if data != [] {
      FeedKeepsApart(m, StepByte(m, r, data[0]), StepByte(m, s, data[0]), data[1..]);
      StepBitsKeepApart(m.poly, r, s, Incoming(m, data[0]));
    }
  }

  // Post-processing of SUM.
  function Post(m: Mode, raw: BitWord): BitWord {
    var w := Width(m.poly);
    seq(32, i requires 0 <= i < 32 =>
      (if m.reverseOut && i < w then raw[w - 1 - i] else raw[i]) != (m.complementOut && i < w))
  }

  // How SEED reaches the engine: as it is, or pre-processed like data, byte by byte.
  datatype SeedLoad = AsIs | Preprocessed

  function Flip(reverse: bool, i: nat): nat
    requires i < 32
  {
    if reverse then i - i % 8 + 7 - i % 8 else i
  }

  function Loaded(how: SeedLoad, m: Mode, seed: BitWord): BitWord {
    if how == AsIs then seed else seq(32, i requires 0 <= i < 32 => seed[Flip(m.reverseIn, i)] != m.complementIn)
  }

  // A saved raw sum can be loaded again, whatever it is, exactly when SEED is not pre-processed.
  lemma SeedReloads(how: SeedLoad, m: Mode)
    ensures (forall raw: BitWord :: SameSum(m.poly, Loaded(how, m, raw), raw))
       <==> how == AsIs || (!m.reverseIn && !m.complementIn)
  {
    if how == AsIs || (!m.reverseIn && !m.complementIn) {
      forall raw: BitWord ensures SameSum(m.poly, Loaded(how, m, raw), raw) { }
    } else {
      var one: BitWord := seq(32, i => i == 0);
      var flipped := Loaded(how, m, one);
      assert flipped[0] != one[0] || flipped[1] != one[1];
    }
  }

  // A sum of 1 saved with the input reversed: read like data it comes back as 128.
  lemma SavedSumLost()
    ensures var m := Mode(0, true, false, false, false);
      && !SameSum(0, Loaded(Preprocessed, m, Power(0)), Power(0))
      && Loaded(Preprocessed, m, Power(0)) == Power(7)
  {
    var m := Mode(0, true, false, false, false);
    assert Loaded(Preprocessed, m, Power(0))[0] != Power(0)[0];
  }

  // 2 to the k.
  function Power(k: nat): BitWord
    requires k < 32
  {
    seq(32, i => i == k)
  }
}

module CrcDriver {
  import opened Arithmetic
  import opened Bits
  import opened CrcHardware
  import CrcRemainder

  datatype Config = Config(polynomial: nat, reverseIn: bool, complementIn: bool,
                           reverseOut: bool, complementOut: bool, seed: BitWord)

  function ModeOf(c: Config): Mode {
    Mode(c.polynomial % 4, c.reverseIn, c.complementIn, c.reverseOut, c.complementOut)
  }

  function OfBytes(a: nat, b: nat, c: nat, d: nat): nat { a + 0x100 * b + 0x1_0000 * c + 0x100_0000 * d }

  lemma BytesBack(a: nat, b: nat, c: nat, d: nat)
    requires a < 256 && b < 256 && c < 256 && d < 256
    ensures var v := OfBytes(a, b, c, d);
      && v < 0x1_0000_0000
      && v % 0x100 == a && (v / 0x100) % 0x100 == b && (v / 0x1_0000) % 0x100 == c && v / 0x100_0000 == d
  {
    var v := OfBytes(a, b, c, d);
    DivisionIs(v, 0x100, b + 0x100 * c + 0x1_0000 * d, a);
    DivisionIs(v / 0x100, 0x100, c + 0x100 * d, b);
    DivisionIs(v, 0x1_0000, c + 0x100 * d, a + 0x100 * b);
    DivisionIs(v / 0x1_0000, 0x100, d, c);
    DivisionIs(v, 0x100_0000, d, a + 0x100 * b + 0x1_0000 * c);
  }

  predicate IsAligned(address: nat) { address % 4 == 0 }

  lemma NextAligned(address: nat)
    ensures IsAligned(address) <==> IsAligned(address + 4)
  {
  }

  // A little-endian load of four bytes.
  function LoadWord(data: seq<Byte>, i: nat): nat
    requires i + 4 <= |data|
  {
    OfBytes(data[i], data[i + 1], data[i + 2], data[i + 3])
  }

  class Crc {
    const seedLoad: SeedLoad
    var mode: Mode
    var raw: BitWord

    constructor (seedLoad: SeedLoad, config: Config)
      ensures this.seedLoad == seedLoad && Valid()
      ensures mode == ModeOf(config) && raw == Loaded(seedLoad, mode, config.seed)
    {
      this.seedLoad, mode := seedLoad, ModeOf(config);
      raw := Loaded(seedLoad, ModeOf(config), config.seed);
    }

    // The polynomial field is two bits wide.
    predicate Valid() reads this { mode.poly < 4 }

    method Init(config: Config)
      modifies this
      ensures Valid() && mode == ModeOf(config) && raw == Loaded(seedLoad, mode, config.seed)
      ensures mode.poly == config.polynomial % 4
      ensures (mode.reverseIn, mode.complementIn) == (config.reverseIn, config.complementIn)
      ensures (mode.reverseOut, mode.complementOut) == (config.reverseOut, config.complementOut)
    {
      mode := ModeOf(config);
      raw := Loaded(seedLoad, mode, config.seed);
    }

    // A read of SUM.
    function Sum(): BitWord reads this { Post(mode, raw) }

    // The configuration with the raw sum as seed; the engine is left as it was.
    method GetConfig() returns (config: Config)
      requires Valid()
      modifies this
      ensures ModeOf(config) == mode == old(mode) && config.seed == raw == old(raw)
    {
      var m := mode;
      mode := m.(reverseOut := false, complementOut := false);
      config := Config(m.poly, m.reverseIn, m.complementIn, m.reverseOut, m.complementOut, Sum());
      mode := m;
      assert config.seed == raw;
    }

    method WriteSeed(seed: BitWord)
      modifies `raw
      ensures raw == Loaded(seedLoad, mode, seed)
    {
      raw := Loaded(seedLoad, mode, seed);
    }

    // The checksum of one message: seed, data, and a read of SUM.
    method Checksum(seed: BitWord, address: nat, data: seq<Byte>) returns (sum: BitWord)
      modifies `raw
      ensures CrcRemainder.IsChecksum(mode, Loaded(seedLoad, mode, seed), data, CrcRemainder.SumOf(mode.poly, sum))
    {
      WriteSeed(seed);
      WriteData(address, data);
      sum := Sum();
      CrcRemainder.ChecksumIs(mode, Loaded(seedLoad, mode, seed), data);
    }

    method WriteByte(b: Byte)
      modifies `raw
      ensures raw == Feed(mode, old(raw), [b])
    {
      raw := StepByte(mode, raw, b);
      assert [b][1..] == [];
    }

    // A 32-bit write enters least significant byte first.
    method WriteWord(v: nat)
      requires v < 0x1_0000_0000
      modifies `raw
      ensures raw == Feed(mode, old(raw), [v % 0x100, (v / 0x100) % 0x100, (v / 0x1_0000) % 0x100, v / 0x100_0000])
    {
      ghost var was := raw;
      WriteByte(v % 0x100);
      WriteByte((v / 0x100) % 0x100);
      WriteByte((v / 0x1_0000) % 0x100);
      WriteByte(v / 0x100_0000);
      FeedFour(mode, was, v % 0x100, (v / 0x100) % 0x100, (v / 0x1_0000) % 0x100, v / 0x100_0000);
    }

    // Byte i of the buffer.
    method WriteNext(data: seq<Byte>, i: nat, ghost start: BitWord)
      requires i < |data| && raw == Feed(mode, start, data[..i])
      modifies `raw
      ensures raw == Feed(mode, start, data[..i + 1])
    {
      FeedMore(mode, start, data, i, 1);
      assert data[i..i + 1] == [data[i]];
      WriteByte(data[i]);
    }

    // Bytes i to i+3 of the buffer, by an aligned load.
    method WriteNextWord(address: nat, data: seq<Byte>, i: nat, ghost start: BitWord)
      requires IsAligned(address + i)
      requires i + 4 <= |data| && raw == Feed(mode, start, data[..i])
      modifies `raw
      ensures raw == Feed(mode, start, data[..i + 4])
    {
      FeedMore(mode, start, data, i, 4);
      BytesOfWord(data, i);
      WriteWord(LoadWord(data, i));
    }

    // Whatever the alignment of the buffer, its bytes are fed in order, each once; what is left in the
    // engine is the remainder of the message by the generator.
    method WriteData(address: nat, data: seq<Byte>)
      modifies `raw
      ensures raw == Feed(mode, old(raw), data)
      ensures CrcRemainder.LeavesRemainder(mode, old(raw), data, raw)
    {
      var i: nat, dataSize: nat := 0, |data|;
      ghost var start := raw;
      while dataSize != 0 && !IsAligned(address + i)
        invariant i + dataSize == |data| && raw == Feed(mode, start, data[..i])
        decreases dataSize
      {
        WriteNext(data, i, start);
        i := i + 1;
        dataSize := dataSize - 1;
      }
      i, dataSize := WriteWords(address, data, i, start);
      while dataSize != 0
        invariant i + dataSize == |data| && raw == Feed(mode, start, data[..i])
      {
        WriteNext(data, i, start);
        i := i + 1;
        dataSize := dataSize - 1;
      }
      assert data[..|data|] == data;
      CrcRemainder.FeedIsRemainder(mode, start, data);
    }

    // The second loop: as many words as there are.
    method WriteWords(address: nat, data: seq<Byte>, from: nat, ghost start: BitWord) returns (i: nat, dataSize: nat)
      requires from <= |data| && raw == Feed(mode, start, data[..from])
      requires from < |data| ==> IsAligned(address + from)
      modifies `raw
      ensures i + dataSize == |data| && dataSize < 4 && raw == Feed(mode, start, data[..i])
    {
      i, dataSize := from, |data| - from;
      while dataSize >= 4
        invariant i + dataSize == |data| && raw == Feed(mode, start, data[..i])
        invariant dataSize > 0 ==> IsAligned(address + i)
      {
        WriteNextWord(address, data, i, start);
        NextAligned(address + i);
        i := i + 4;
        dataSize := dataSize - 4;
      }
    }

    // Write a, save, use the engine for something else, resume, write b.
    method SuspendResume(a: seq<Byte>, b: seq<Byte>, other: Config, otherData: seq<Byte>,
                         addressA: nat, addressB: nat, addressOther: nat)
      requires Valid()
      modifies this
      ensures Valid() && mode == old(mode)
      ensures SameSum(mode.poly, raw, Feed(mode, old(raw), a + b))
         <==> SameSum(mode.poly, Loaded(seedLoad, mode, Feed(mode, old(raw), a)), Feed(mode, old(raw), a))
      ensures seedLoad == AsIs || (!mode.reverseIn && !mode.complementIn) ==> raw == Feed(mode, old(raw), a + b)
    {
      WriteData(addressA, a);
      var saved := GetConfig();
      Init(other);
      WriteData(addressOther, otherData);
      Init(saved);
      WriteData(addressB, b);
      ghost var kept := Feed(mode, old(raw), a);
      FeedAppends(mode, old(raw), a, b);
      FeedKeepsApart(mode, Loaded(seedLoad, mode, kept), kept, b);
      if seedLoad == AsIs || (!mode.reverseIn && !mode.complementIn) {
        assert Loaded(seedLoad, mode, kept) == kept;
      }
    }
  }

  lemma FeedFour(m: Mode, raw: BitWord, a: Byte, b: Byte, c: Byte, d: Byte)
    ensures Feed(m, Feed(m, Feed(m, Feed(m, raw, [a]), [b]), [c]), [d]) == Feed(m, raw, [a, b, c, d])
  {
    FeedAppends(m, raw, [a], [b]);
    FeedAppends(m, raw, [a, b], [c]);
    FeedAppends(m, raw, [a, b, c], [d]);
    assert [a] + [b] == [a, b] && [a, b] + [c] == [a, b, c] && [a, b, c] + [d] == [a, b, c, d];
  }

  lemma FeedMore(m: Mode, raw: BitWord, data: seq<Byte>, i: nat, n: nat)
    requires i + n <= |data|
    ensures Feed(m, raw, data[..i + n]) == Feed(m, Feed(m, raw, data[..i]), data[i..i + n])
  {
    assert data[..i + n] == data[..i] + data[i..i + n];
    FeedAppends(m, raw, data[..i], data[i..i + n]);
  }

  lemma BytesOfWord(data: seq<Byte>, i: nat)
    requires i + 4 <= |data|
    ensures var v := LoadWord(data, i);
      && v < 0x1_0000_0000
      && data[i..i + 4] == [v % 0x100, (v / 0x100) % 0x100, (v / 0x1_0000) % 0x100, v / 0x100_0000]
  {
    BytesBack(data[i], data[i + 1], data[i + 2], data[i + 3]);
  }
}
