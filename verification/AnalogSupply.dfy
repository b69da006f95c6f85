// The audio PLL, its two channels, and the analog supply it shares with the USB PHY
// (drivers/fsl_clock.c).

module AnalogSupply {

  const AVPLL_FREQ: seq<nat> := [0, 2_048_000, 4_096_000, 6_144_000, 8_192_000, 11_289_600, 12_000_000,
                                12_288_000, 24_576_000, 64_000_000, 98_304_000]
  const AVPLL_FREQ_OFF: seq<nat> := [0, 0x53, 0x1050, 0x4145D, 0x4145D, 0x38B3, 0, 0x4145D, 0x4145D, 0xCCCD, 0x4145D]
  const AVPLL_POST_DIV: seq<nat> := [0, 791, 395, 264, 198, 143, 135, 132, 66, 25, 16]
  const AVPLL_POST_DIV_0P5: seq<nat> := [0, 0, 0, 0, 0, 0, 0, 0, 0, 0, 1]

  // clock_avpll_ch_freq_t: an index into the tables, 0 for "unchanged".
  type ChFreq = f: nat | f < 11

  // `offset` is what the register holds, `live` what the channel runs on.
  datatype Channel = Channel(pu: bool, reset: bool, ready: bool, half: nat, offset: nat, postdiv: nat, live: nat)

  // A channel that is powered and out of reset takes its offset over when it is marked ready.
  function Taken(c: Channel): Channel {
    if c.ready && c.pu && !c.reset then c.(live := c.offset) else c
  }

  datatype Tuning = Tuning(icp: nat, intpi: nat, intpr: nat, calClkDiv: nat, refDiv: nat, extSpeed: nat,
                           fbDiv: nat, lpC8: bool, freqOffsetC8: nat)

  function TuningFor(crystal38400: bool): Tuning {
    if crystal38400 then Tuning(5, 3, 4, 0x13, 2, 2, 0x54, false, 0x4924)
    else Tuning(5, 3, 4, 0x14, 2, 2, 0x51, false, 0)
  }

  datatype Usb = Usb(pu: bool, otg: bool, pll: bool, softReset: bool, resetSel: bool)

  // What the hardware rules speak of.
  datatype Snapshot = Snapshot(ag: bool, pu: bool, reset: bool, resetC8: bool, calStart: bool, usbPu: bool,
                               c1: Channel, c2: Channel)

  // The hardware rule: neither user may be powered without the analog group. And what is out of
  // reset, of the PLL and the two channels, is powered.
  predicate Supplied(s: Snapshot) {
    && (s.pu || s.usbPu ==> s.ag)
    && (!s.reset ==> s.pu)
    && (!s.c1.reset ==> s.c1.pu)
    && (!s.c2.reset ==> s.c2.pu)
  }

  // The order of the steps: under a PLL that is powered down C8 is in reset, no calibration runs
  // and no channel is powered.
  predicate Ordered(s: Snapshot) { !s.resetC8 || s.calStart || s.c1.pu || s.c2.pu ==> s.pu }

  predicate SameDivider(c: Channel, d: Channel) { c.half == d.half && c.offset == d.offset && c.postdiv == d.postdiv }

  // A channel's divider changes only while the channel is powered down.
  predicate Quiet(s: Snapshot, t: Snapshot) {
    && (SameDivider(s.c1, t.c1) || (!s.c1.pu && !t.c1.pu))
    && (SameDivider(s.c2, t.c2) || (!s.c2.pu && !t.c2.pu))
  }

  // What a channel divider stands for: the table's frequency, 0 when no entry has that divider.
  predicate Means(postdiv: nat, freq: nat) {
    if exists i | 1 <= i < 11 :: AVPLL_POST_DIV[i] == postdiv
    then exists i | 1 <= i < 11 :: AVPLL_POST_DIV[i] == postdiv && AVPLL_FREQ[i] == freq
    else freq == 0
  }

  // A divider determines its frequency.
  lemma MeansOne(f: ChFreq, freq: nat)
    requires f > 0 && Means(AVPLL_POST_DIV[f], freq)
    ensures freq == AVPLL_FREQ[f]
  {
  }

  // So a getter has one answer.
  lemma MeansUnique(postdiv: nat, freq: nat, other: nat)
    requires Means(postdiv, freq) && Means(postdiv, other)
    ensures freq == other
  {
    if i: ChFreq :| i > 0 && AVPLL_POST_DIV[i] == postdiv {
      MeansOne(i, freq);
      MeansOne(i, other);
    }
  }

  // The change of one channel, if any.
  function Changed(c: Channel, f: ChFreq): Channel {
    if f == 0 then c else c.(half := AVPLL_POST_DIV_0P5[f], offset := AVPLL_FREQ_OFF[f], postdiv := AVPLL_POST_DIV[f])
  }

  // The frequency that the PLL is tuned to, and the unit of the offsets.
  const VCO: nat := 1_620_000_000
  const UNIT: nat := 0x40_0000

  // An offset in units, negative when bit 18 is set.
  function Trim(offset: nat): int { if offset >= 0x4_0000 then 0x4_0000 - offset else offset }

  // A frequency times a divider, slowed down by an offset, is that of the PLL; less than one unit off.
  predicate Matches(product: nat, trim: int, target: nat) {
    target * UNIT - product < product * (UNIT + trim) < target * UNIT + product
  }

  // What the channel is set to makes this frequency of that of the PLL; its divider counts in halves.
  predicate Makes(c: Channel, freq: nat) {
    Matches(freq * (2 * c.postdiv + c.half), Trim(c.offset), 2 * VCO)
  }

  // Every entry of the table makes the frequency it stands for, except that for 4.096 MHz; and every
  // divider alone comes within 20 MHz of the PLL.
  lemma TableMakes(c: Channel, f: ChFreq)
    requires f > 0
    ensures Makes(Changed(c, f), AVPLL_FREQ[f]) <==> f != 2
    ensures 1_600_000_000 <= AVPLL_FREQ[f] * (2 * AVPLL_POST_DIV[f] + AVPLL_POST_DIV_0P5[f]) / 2 <= 1_622_016_000
  {
    match f
    case 1 => case 2 => case 3 => case 4 => case 5 => case 6 => case 7 => case 8 => case 9 => case 10 =>
  }

  lemma MadeFrequencies(was1: Channel, was2: Channel, c1: Channel, c2: Channel, f1: ChFreq, f2: ChFreq)
    requires SameDivider(c1, Changed(was1, f1)) && SameDivider(c2, Changed(was2, f2))
    ensures f1 != 0 ==> (Makes(c1, AVPLL_FREQ[f1]) <==> f1 != 2)
    ensures f2 != 0 ==> (Makes(c2, AVPLL_FREQ[f2]) <==> f2 != 2)
  {
    if f1 != 0 { TableMakes(was1, f1); }
    if f2 != 0 { TableMakes(was2, f2); }
  }

  // The entry for 4.096 MHz makes 4 097 186 Hz instead.
  lemma OddEntry(c: Channel)
    ensures var k := 2 * Changed(c, 2).postdiv * (UNIT + Trim(Changed(c, 2).offset));
      4_097_186 * k <= 2 * VCO * UNIT < 4_097_187 * k
  {
  }

  // From either crystal the PLL is tuned to its frequency.
  predicate IsTuned(crystal38400: bool, t: Tuning) {
    t.refDiv > 0 && Matches((if crystal38400 then 38_400_000 else 40_000_000) / t.refDiv * t.fbDiv, t.freqOffsetC8, VCO)
  }

  lemma Tuned(crystal38400: bool)
    ensures IsTuned(crystal38400, TuningFor(crystal38400))
  {
  }

  // A channel that is up.
  function Running(c: Channel): Channel { c.(pu := true, reset := false, ready := false, live := c.offset) }

  function Stopped(c: Channel): Channel { c.(pu := false, reset := true) }

  class Supply {
    const crystal38400: bool
    var ag: bool           // PU_AG, the analog group
    var xtl: bool          // PU_XTL
    var pu: bool           // PU of the audio PLL
    var reset: bool
    var resetC8: bool
    var readyC8: bool
    var calStart: bool
    var tuning: Tuning
    var c1: Channel
    var c2: Channel
    var usb: Usb
    var liveC8: nat                // what C8 runs on, taken over when it is marked ready
    var calDone: bool              // CAL_DONE, whenever the hardware likes
    ghost var calibrations: nat    // of the audio PLL: rising edges of CAL_START
    ghost var phyResets: nat       // of the USB PHY: writes that assert its reset
    ghost var usbCalibrations: nat // of its PLL: rising edges of USB_PU_PLL under power
    var waited: nat                // microseconds spent in delays
    ghost var last: Snapshot       // what the last write left
    ghost var sound: bool          // falls for good at the first write that is not Supplied
    ghost var ordered: bool        // falls for good at the first write that is not Ordered and Quiet

    // Out of reset nothing is powered.
    constructor (crystal38400: bool, tuning: Tuning, channel: Channel)
      requires !channel.pu && channel.reset
      ensures Valid() && Settled() && Balanced() && ordered && !pu && this.crystal38400 == crystal38400
    {
      this.crystal38400 := crystal38400;
      ag, xtl, pu, reset, resetC8, readyC8, calStart := false, false, false, true, true, false, false;
      this.tuning, c1, c2, usb := tuning, channel, channel, Usb(false, false, false, false, false);
      liveC8, calDone, calibrations, phyResets, usbCalibrations := 0, false, 0, 0, 0;
      waited, sound, ordered := 0, true, true;
      last := Snapshot(false, false, true, true, false, false, channel, channel);
    }

    function Now(): Snapshot reads this { Snapshot(ag, pu, reset, resetC8, calStart, usb.pu, c1, c2) }

    // Every write so far obeyed the hardware rules.
    ghost predicate Valid() reads this {
      sound && last == Now() && Supplied(Now()) && (ordered ==> Ordered(Now()))
    }

    // Between calls: no calibration is left running, a channel is powered iff it is out of reset, and
    // what is out of reset runs on the offset in its register.
    predicate Settled() reads this {
      && !calStart && c1.pu == !c1.reset && c2.pu == !c2.reset
      && (c1.pu ==> c1.live == c1.offset)
      && (c2.pu ==> c2.live == c2.offset)
      && (!resetC8 ==> liveC8 == tuning.freqOffsetC8)
    }

    // The analog group is up exactly while it has a user.
    predicate Balanced() reads this { ag == (pu || usb.pu) }

    // Ends a register write.
    method Stored()
      modifies `sound, `ordered, `last
      ensures sound == (old(sound) && Supplied(Now()))
      ensures ordered == (old(ordered) && Ordered(Now()) && Quiet(old(last), Now()))
      ensures last == Now()
    {
      sound := sound && Supplied(Now());
      ordered := ordered && Ordered(Now()) && Quiet(last, Now());
      last := Now();
    }

    // Ends a write to a register that the rules do not speak of.
    method StoredElsewhere()
      requires Valid()
      modifies `sound, `ordered, `last
      ensures Valid() && ordered == old(ordered)
    {
      Stored();
    }

    method DelayUs(us: nat)
      modifies `waited
      ensures waited == old(waited) + us
    {
      waited := waited + us;
    }

    method GetAvPllCh1Freq() returns (freq: nat)
      ensures Means(c1.postdiv, freq)
    {
      freq := Lookup(c1.postdiv);
    }

    method GetAvPllCh2Freq() returns (freq: nat)
      ensures Means(c2.postdiv, freq)
    {
      freq := Lookup(c2.postdiv);
    }

    method Lookup(postdiv: nat) returns (freq: nat)
      ensures Means(postdiv, freq)
    {
      freq := 0;
      var i := 1;
      while i < |AVPLL_POST_DIV|
        invariant 1 <= i <= |AVPLL_POST_DIV| && freq == 0
        invariant forall j | 1 <= j < i :: AVPLL_POST_DIV[j] != postdiv
      {
        if AVPLL_POST_DIV[i] == postdiv {
          freq := AVPLL_FREQ[i];
          break;
        }
        i := i + 1;
      }
    }

    method ConfigAvPll()
      requires Valid()
      modifies `tuning, `sound, `ordered, `last
      ensures Valid()
      ensures ordered == old(ordered)
      ensures tuning == TuningFor(crystal38400) && IsTuned(crystal38400, tuning)
    {
      Tuned(crystal38400);
      var fbDiv, freqOffsetC8, calClkDiv := 0x51, 0, 0x14;
      if crystal38400 {
        fbDiv, freqOffsetC8, calClkDiv := 0x54, 0x4924, 0x13;
      }
      tuning := tuning.(icp := 5, intpi := 3, intpr := 4, calClkDiv := calClkDiv);
      StoredElsewhere();
      tuning := tuning.(refDiv := 2);
      StoredElsewhere();
      tuning := tuning.(extSpeed := 2);
      StoredElsewhere();
      tuning := tuning.(fbDiv := fbDiv);
      StoredElsewhere();
      tuning := tuning.(lpC8 := false, freqOffsetC8 := freqOffsetC8);
      StoredElsewhere();
    }

    method ConfigAvPllCh1(f: ChFreq)
      requires Valid() && (ordered && f != 0 ==> !c1.pu)
      modifies `c1, `sound, `ordered, `last
      ensures Valid()
      ensures ordered == old(ordered)
      ensures c1 == Changed(old(c1), f)
    {
      if f != 0 {
        c1 := c1.(half := AVPLL_POST_DIV_0P5[f]);
        Stored();
        c1 := c1.(offset := AVPLL_FREQ_OFF[f]);
        Stored();
        c1 := c1.(postdiv := AVPLL_POST_DIV[f]);
        Stored();
      }
    }

    method ConfigAvPllCh2(f: ChFreq)
      requires Valid() && (ordered && f != 0 ==> !c2.pu)
      modifies `c2, `sound, `ordered, `last
      ensures Valid()
      ensures ordered == old(ordered)
      ensures c2 == Changed(old(c2), f)
    {
      if f != 0 {
        c2 := c2.(half := AVPLL_POST_DIV_0P5[f]);
        Stored();
        c2 := c2.(offset := AVPLL_FREQ_OFF[f], postdiv := AVPLL_POST_DIV[f]);
        Stored();
      }
    }

    method PowerUpAnaGrp()
      requires Valid()
      modifies `ag, `waited, `sound, `ordered, `last
      ensures Valid() && ag && waited == old(waited) + if old(ag) then 0 else 50
      ensures ordered == old(ordered)
    {
      if !ag {
        ag := true;
        Stored();
        DelayUs(50);
      }
    }

    method PowerDownAnaGrp()
      requires Valid() && !pu && !usb.pu
      modifies `ag, `sound, `ordered, `last
      ensures Valid() && !ag
      ensures ordered == old(ordered)
    {
      if ag {
        ag := false;
        Stored();
      }
    }

    // Calibration is waited for, at most 600 us and 10 more, and then stopped.
    // Waits until it is done, but 600 microseconds at most.
    method FinishCalibration()
      requires Valid()
      modifies `calStart, `calDone, `waited, `sound, `ordered, `last
      ensures Valid() && !calStart
      ensures ordered == old(ordered)
      ensures old(waited) + 10 <= waited <= old(waited) + 610
      ensures calDone || waited == old(waited) + 610
    {
      var calDoneDelay := 0;
      calDone := *;
      while !calDone && calDoneDelay < 600
        invariant calDoneDelay % 10 == 0 && calDoneDelay <= 600 && waited == old(waited) + calDoneDelay
        decreases 600 - calDoneDelay
        modifies `waited, `calDone
      {
        calDoneDelay := calDoneDelay + 10;
        DelayUs(10);
        calDone := *;
      }
      DelayUs(10);
      calStart := false;
      Stored();
    }

    // A channel register is written if the channel is to be changed.
    method WriteCh1(on: bool, c: Channel)
      requires Valid() && SameDivider(c1, c) && (on && !c.reset ==> c.pu)
      modifies `c1, `sound, `ordered, `last
      ensures Valid() && c1 == if on then Taken(c) else old(c1)
      ensures ordered == (old(ordered) && (on && c.pu ==> pu))
    {
      if on {
        c1 := Taken(c);
        Stored();
      }
    }

    // One write to each of the channels that are to be changed.
    method WriteChannels(ch1: bool, x1: Channel, ch2: bool, x2: Channel)
      requires Valid() && SameDivider(c1, x1) && SameDivider(c2, x2)
      requires (ch1 && !x1.reset ==> x1.pu) && (ch2 && !x2.reset ==> x2.pu)
      modifies `c1, `c2, `sound, `ordered, `last
      ensures Valid()
      ensures c1 == (if ch1 then Taken(x1) else old(c1)) && c2 == (if ch2 then Taken(x2) else old(c2))
      ensures ordered == (old(ordered) && ((ch1 && x1.pu) || (ch2 && x2.pu) ==> pu))
    {
      WriteCh1(ch1, x1);
      WriteCh2(ch2, x2);
    }

    method WriteCh2(on: bool, c: Channel)
      requires Valid() && SameDivider(c2, c) && (on && !c.reset ==> c.pu)
      modifies `c2, `sound, `ordered, `last
      ensures Valid() && c2 == if on then Taken(c) else old(c2)
      ensures ordered == (old(ordered) && (on && c.pu ==> pu))
    {
      if on {
        c2 := Taken(c);
        Stored();
      }
    }

    // The channels come up, each on the offset in its register, and so does C8; there is a calibration
    // if it is wanted, and none is left running.
    method EnableAvPllCh(ch1: bool, ch2: bool, cali: bool)
      requires Valid()
      modifies `readyC8, `resetC8, `liveC8, `calStart, `calDone, `calibrations, `c1, `c2, `waited,
        `sound, `ordered, `last
      ensures Valid()
      ensures ordered == (old(ordered) && pu)
      ensures old(waited) + 31 <= waited <= old(waited) + 641
      ensures cali ==> calDone || waited == old(waited) + 641
      ensures calibrations == old(calibrations) + if cali && !old(calStart) then 1 else 0
      ensures !readyC8 && !resetC8 && liveC8 == tuning.freqOffsetC8 && calStart == (!cali && old(calStart))
      ensures c1 == if ch1 then Running(old(c1)) else old(c1)
      ensures c2 == if ch2 then Running(old(c2)) else old(c2)
    {
      StartAvPllCh(ch1, ch2, cali);
      if cali { FinishCalibration(); }
    }

    // Steps 3 to 9.
    method StartAvPllCh(ch1: bool, ch2: bool, cali: bool)
      requires Valid()
      modifies `readyC8, `resetC8, `liveC8, `calStart, `calibrations, `c1, `c2, `waited, `sound, `ordered, `last
      ensures Valid()
      ensures ordered == (old(ordered) && pu)
      ensures waited == old(waited) + 31
      ensures calibrations == old(calibrations) + if cali && !old(calStart) then 1 else 0
      ensures !readyC8 && !resetC8 && liveC8 == tuning.freqOffsetC8 && calStart == (cali || old(calStart))
      ensures c1 == if ch1 then Running(old(c1)) else old(c1)
      ensures c2 == if ch2 then Running(old(c2)) else old(c2)
    {
      PowerChannels(ch1, ch2);
      StartC8(cali);
      ReleaseChannels(ch1, ch2);
    }

    // Steps 3 to 6: C8 out of reset, and calibration.
    method StartC8(cali: bool)
      requires Valid()
      modifies `readyC8, `resetC8, `liveC8, `calStart, `calibrations, `waited, `sound, `ordered, `last
      ensures Valid()
      ensures ordered == (old(ordered) && pu)
      ensures waited == old(waited) + 15
      ensures calibrations == old(calibrations) + if cali && !old(calStart) then 1 else 0
      ensures !readyC8 && !resetC8 && liveC8 == tuning.freqOffsetC8 && calStart == (cali || old(calStart))
    {
      ReleaseC8();
      if cali { StartCalibration(); }
      DelayUs(5);
    }

    // Step 3.
    method PowerChannels(ch1: bool, ch2: bool)
      requires Valid()
      modifies `c1, `c2, `sound, `ordered, `last
      ensures Valid()
      ensures ordered == (old(ordered) && (ch1 || ch2 ==> pu))
      ensures c1 == if ch1 then Taken(old(c1).(pu := true)) else old(c1)
      ensures c2 == if ch2 then Taken(old(c2).(pu := true)) else old(c2)
    {
      WriteChannels(ch1, c1.(pu := true), ch2, c2.(pu := true));
    }

    method StartCalibration()
      requires Valid()
      modifies `calStart, `calibrations, `sound, `ordered, `last
      ensures Valid() && calStart
      ensures ordered == (old(ordered) && pu)
      ensures calibrations == old(calibrations) + if old(calStart) then 0 else 1
    {
      if !calStart { calibrations := calibrations + 1; }
      calStart := true;
      Stored();
    }

    // Steps 3 to 5: C8 takes over its offset in a pulse, then out of reset.
    method ReleaseC8()
      requires Valid()
      modifies `readyC8, `resetC8, `liveC8, `waited, `sound, `ordered, `last
      ensures Valid()
      ensures ordered == (old(ordered) && pu)
      ensures waited == old(waited) + 10
      ensures !readyC8 && !resetC8 && liveC8 == tuning.freqOffsetC8
    {
      PulseC8();
      DropResetC8();
      DelayUs(5);
    }

    method PulseC8()
      requires Valid()
      modifies `readyC8, `liveC8, `waited, `sound, `ordered, `last
      ensures Valid() && ordered == old(ordered)
      ensures waited == old(waited) + 5
      ensures !readyC8 && liveC8 == tuning.freqOffsetC8
    {
      readyC8, liveC8 := true, tuning.freqOffsetC8;
      StoredElsewhere();
      DelayUs(3);
      readyC8 := false;
      StoredElsewhere();
      DelayUs(2);
    }

    method DropResetC8()
      requires Valid()
      modifies `resetC8, `sound, `ordered, `last
      ensures Valid() && !resetC8
      ensures ordered == (old(ordered) && pu)
    {
      resetC8 := false;
      Stored();
    }

    // Steps 7 to 9: out of reset, then each channel takes over its offset in a pulse.
    method ReleaseChannels(ch1: bool, ch2: bool)
      requires Valid() && (ch1 ==> c1.pu) && (ch2 ==> c2.pu)
      modifies `c1, `c2, `waited, `sound, `ordered, `last
      ensures Valid()
      ensures ordered == (old(ordered) && (ch1 || ch2 ==> pu))
      ensures waited == old(waited) + 16
      ensures c1 == if ch1 then Running(old(c1)) else old(c1)
      ensures c2 == if ch2 then Running(old(c2)) else old(c2)
    {
      WriteChannels(ch1, c1.(reset := false), ch2, c2.(reset := false));
      DelayUs(2);
      WriteChannels(ch1, c1.(ready := true), ch2, c2.(ready := true));
      DelayUs(2);
      WriteChannels(ch1, c1.(ready := false), ch2, c2.(ready := false));
      DelayUs(12);
    }

    method DisableAvPllCh(ch1: bool, ch2: bool)
      requires Valid()
      modifies `c1, `c2, `sound, `ordered, `last
      ensures Valid()
      ensures ordered == old(ordered)
      ensures c1 == if ch1 then Stopped(old(c1)) else old(c1)
      ensures c2 == if ch2 then Stopped(old(c2)) else old(c2)
    {
      WriteCh1(ch1, c1.(reset := true));
      WriteCh1(ch1, c1.(pu := false));
      WriteCh2(ch2, c2.(reset := true));
      WriteCh2(ch2, c2.(pu := false));
    }

    // Whatever ran before, the PLL and both channels run, and the supply is up.
    method InitAvPll(f1: ChFreq, f2: ChFreq, cali: bool)
      requires Valid() && Settled()
      modifies `ag, `pu, `reset, `resetC8, `readyC8, `liveC8, `calStart, `calDone, `calibrations,
        `tuning, `c1, `c2, `waited, `sound, `ordered, `last
      ensures Valid() && Settled() && Balanced()
      ensures ordered == old(ordered)
      ensures pu && !reset && !resetC8 && c1.pu && c2.pu
      ensures calibrations == old(calibrations) + if cali then 1 else 0
      ensures waited >= old(waited) + 61
      ensures tuning == TuningFor(crystal38400) && IsTuned(crystal38400, tuning)
      ensures SameDivider(c1, Changed(old(c1), f1)) && SameDivider(c2, Changed(old(c2), f2))
      ensures f1 != 0 ==> (Makes(c1, AVPLL_FREQ[f1]) <==> f1 != 2)
      ensures f2 != 0 ==> (Makes(c2, AVPLL_FREQ[f2]) <==> f2 != 2)
    {
      ghost var was1, was2 := c1, c2;
      PrepareAvPll(f1, f2);
      EnableAvPllCh(true, true, cali);
      MadeFrequencies(was1, was2, c1, c2, f1, f2);
    }

    // Steps 1 and 2, after the PLL was taken down and set.
    method PrepareAvPll(f1: ChFreq, f2: ChFreq)
      requires Valid() && Settled()
      modifies `ag, `pu, `reset, `resetC8, `tuning, `c1, `c2, `waited, `sound, `ordered, `last
      ensures Valid() && ag && pu && !reset
      ensures ordered == old(ordered)
      ensures waited >= old(waited) + 30
      ensures tuning == TuningFor(crystal38400) && IsTuned(crystal38400, tuning)
      ensures SameDivider(c1, Changed(old(c1), f1)) && SameDivider(c2, Changed(old(c2), f2))
    {
      if pu { DeinitAvPll(); }
      PowerUpAnaGrp();
      Configure(f1, f2);
      PowerUpPll();
    }

    method Configure(f1: ChFreq, f2: ChFreq)
      requires Valid() && (ordered ==> !c1.pu && !c2.pu)
      modifies `tuning, `c1, `c2, `sound, `ordered, `last
      ensures Valid()
      ensures ordered == old(ordered)
      ensures tuning == TuningFor(crystal38400) && IsTuned(crystal38400, tuning)
      ensures c1 == Changed(old(c1), f1) && c2 == Changed(old(c2), f2)
    {
      ConfigAvPll();
      ConfigAvPllCh1(f1);
      ConfigAvPllCh2(f2);
    }

    // Steps 1 and 2, under a powered analog group.
    method PowerUpPll()
      requires Valid() && ag
      modifies `pu, `reset, `waited, `sound, `ordered, `last
      ensures Valid() && pu && !reset && waited == old(waited) + 30
      ensures ordered == old(ordered)
    {
      pu := true;
      Stored();
      DelayUs(15);
      reset := false;
      Stored();
      DelayUs(15);
    }

    // The PLL gives up the supply, which goes down unless USB is using it.
    method DeinitAvPll()
      requires Valid() && !calStart
      modifies `ag, `pu, `reset, `resetC8, `c1, `c2, `sound, `ordered, `last
      ensures Valid() && Settled()
      ensures ordered == old(ordered)
      ensures !pu && reset && resetC8 && !c1.pu && !c2.pu && ag == usb.pu
      ensures SameDivider(c1, old(c1)) && SameDivider(c2, old(c2))
    {
      DisableAvPllCh(true, true);
      reset := true;
      Stored();
      resetC8 := true;
      Stored();
      pu := false;
      Stored();
      if !usb.pu { PowerDownAnaGrp(); }
    }

    // A new frequency for one channel or both. Each channel stays up or down, an unchanged channel
    // is not touched, and no calibration is left running.
    method ConfigAvPllCh(f1: ChFreq, f2: ChFreq, cali: bool)
      requires Valid() && Settled()
      modifies `readyC8, `resetC8, `liveC8, `calStart, `calDone, `calibrations, `tuning, `c1, `c2, `waited,
        `sound, `ordered, `last
      ensures Valid() && Settled()
      ensures ordered == (old(ordered) && ((f1 == 0 && f2 == 0) || pu))
      ensures resetC8 == (old(resetC8) && f1 == 0 && f2 == 0)
      ensures waited <= old(waited) + 641
      ensures calibrations == old(calibrations) + if cali && (f1 != 0 || f2 != 0) then 1 else 0
      ensures c1.pu == old(c1).pu && c2.pu == old(c2).pu
      ensures if f1 == 0 && f2 == 0 then tuning == old(tuning) else IsTuned(crystal38400, tuning)
      ensures SameDivider(c1, Changed(old(c1), f1)) && (f1 == 0 ==> c1 == old(c1))
      ensures SameDivider(c2, Changed(old(c2), f2)) && (f2 == 0 ==> c2 == old(c2))
      ensures f1 != 0 ==> (Makes(c1, AVPLL_FREQ[f1]) <==> f1 != 2)
      ensures f2 != 0 ==> (Makes(c2, AVPLL_FREQ[f2]) <==> f2 != 2)
    {
      if f1 == 0 && f2 == 0 { return; }
      ghost var was1, was2 := c1, c2;
      var needRenableCh1 := c1.pu && f1 != 0;
      var needRenableCh2 := c2.pu && f2 != 0;
      ChangeWhileDown(f1, f2, needRenableCh1, needRenableCh2);
      EnableAvPllCh(needRenableCh1, needRenableCh2, cali);
      MadeFrequencies(was1, was2, c1, c2, f1, f2);
    }

    // The channels that change are taken down first.
    method ChangeWhileDown(f1: ChFreq, f2: ChFreq, down1: bool, down2: bool)
      requires Valid() && down1 == (c1.pu && f1 != 0) && down2 == (c2.pu && f2 != 0)
      modifies `tuning, `c1, `c2, `sound, `ordered, `last
      ensures Valid() && ordered == old(ordered)
      ensures tuning == TuningFor(crystal38400) && IsTuned(crystal38400, tuning)
      ensures c1 == Changed(if down1 then Stopped(old(c1)) else old(c1), f1)
      ensures c2 == Changed(if down2 then Stopped(old(c2)) else old(c2), f2)
    {
      DisableAvPllCh(down1, down2);
      ConfigAvPll();
      if f1 != 0 { ConfigAvPllCh1(f1); }
      if f2 != 0 { ConfigAvPllCh2(f2); }
    }

    method WriteUsb(value: Usb)
      requires Valid() && (value.pu ==> ag)
      modifies `usb, `phyResets, `usbCalibrations, `sound, `ordered, `last
      ensures Valid() && ordered == old(ordered) && usb == value
      ensures phyResets == old(phyResets) + if value.softReset && value.resetSel then 1 else 0
      ensures usbCalibrations == old(usbCalibrations)
        + if value.pll && !old(usb).pll && value.pu && old(usb).pu then 1 else 0
    {
      if value.softReset && value.resetSel { phyResets := phyResets + 1; }
      if value.pll && !usb.pll && value.pu && usb.pu { usbCalibrations := usbCalibrations + 1; }
      usb := value;
      Stored();
    }

    // USB takes the supply. The PHY is reset on the way, even when it was already running; its PLL is
    // powered up after it, with a rising edge that starts a calibration, unless the PLL was on before.
    method EnableUsbhsPhyClock()
      requires Valid()
      modifies `ag, `xtl, `usb, `phyResets, `usbCalibrations, `waited, `sound, `ordered, `last
      ensures Valid()
      ensures ordered == old(ordered)
      ensures ag && xtl && usb == Usb(true, true, true, false, false)
      ensures phyResets == old(phyResets) + 1
      ensures usbCalibrations == old(usbCalibrations) + if old(usb).pll then 0 else 1
    {
      xtl := true;
      StoredElsewhere();
      PowerUpAnaGrp();
      ResetPhy();
      PowerUpPhy();
    }

    method ResetPhy()
      requires Valid() && ag
      modifies `usb, `phyResets, `usbCalibrations, `sound, `ordered, `last
      ensures Valid() && ordered == old(ordered)
      ensures usb == old(usb).(softReset := false, resetSel := false)
      ensures phyResets == old(phyResets) + 1 && usbCalibrations == old(usbCalibrations)
    {
      var value := usb.(softReset := true, resetSel := true);
      WriteUsb(value.(pll := false, pu := false, otg := false));
      value := value.(softReset := false, resetSel := false);
      WriteUsb(value);
    }

    method PowerUpPhy()
      requires Valid() && ag && !usb.softReset && !usb.resetSel
      modifies `usb, `phyResets, `usbCalibrations, `sound, `ordered, `last
      ensures Valid() && ordered == old(ordered)
      ensures usb == Usb(true, true, true, false, false)
      ensures phyResets == old(phyResets)
      ensures usbCalibrations == old(usbCalibrations) + if old(usb).pll then 0 else 1
    {
      var value := usb.(pu := true, otg := true);
      WriteUsb(value);
      value := value.(pll := true);
      WriteUsb(value);
    }

    // USB gives up the supply, which goes down unless the audio PLL is using it.
    method DisableUsbhsPhyClock()
      requires Valid()
      modifies `ag, `xtl, `usb, `phyResets, `usbCalibrations, `sound, `ordered, `last
      ensures Valid()
      ensures ordered == old(ordered)
      ensures ag == (pu && old(ag)) && !xtl && usb == old(usb).(pu := false, otg := false, pll := false)
    {
      var value := usb.(pu := false, otg := false);
      WriteUsb(value);
      value := value.(pll := false);
      WriteUsb(value);
      if !pu { PowerDownAnaGrp(); }
      xtl := false;
      StoredElsewhere();
    }

    // What a caller of ConfigAvPllCh observes through the getters.
    method Reconfigure(f1: ChFreq, f2: ChFreq, cali: bool) returns (freq1: nat, freq2: nat)
      requires Valid() && Settled()
      modifies `readyC8, `resetC8, `liveC8, `calStart, `calDone, `calibrations, `tuning, `c1, `c2, `waited,
        `sound, `ordered, `last
      ensures Valid() && Settled()
      ensures if f1 != 0 then freq1 == AVPLL_FREQ[f1] else Means(old(c1).postdiv, freq1)
      ensures if f2 != 0 then freq2 == AVPLL_FREQ[f2] else Means(old(c2).postdiv, freq2)
    {
      ConfigAvPllCh(f1, f2, cali);
      freq1 := GetAvPllCh1Freq();
      freq2 := GetAvPllCh2Freq();
      if f1 != 0 { MeansOne(f1, freq1); }
      if f2 != 0 { MeansOne(f2, freq2); }
    }

    // Any run of calls. The supply rules hold at every write, and the order of the steps if and
    // only if nothing is enabled or reconfigured while the PLL is down.
    method Execute(calls: seq<Call>)
      requires Valid() && Settled() && Balanced()
      modifies this
      ensures Valid() && Settled() && Balanced()
      ensures ordered <==> old(ordered) && PllUpFirst(old(pu), calls)
    {
      assert calls[0..] == calls;
      for k := 0 to |calls|
        invariant Valid() && Settled() && Balanced()
        invariant old(ordered) && PllUpFirst(old(pu), calls) <==> ordered && PllUpFirst(pu, calls[k..])
      {
        assert calls[k..][1..] == calls[k + 1..];
        Perform(calls[k]);
      }
    }

    method Perform(call: Call)
      requires Valid() && Settled() && Balanced()
      modifies this
      ensures Valid() && Settled() && Balanced()
      ensures ordered <==> old(ordered) && (Enables(call) ==> old(pu))
      ensures pu == PuAfter(old(pu), call)
    {
      match call {
        case Init(f1, f2, cali) => InitAvPll(f1, f2, cali);
        case Deinit => DeinitAvPll();
        case Config(f1, f2, cali) => ConfigAvPllCh(f1, f2, cali);
        case Enable(ch1, ch2, cali) => EnableAvPllCh(ch1, ch2, cali);
        case Disable(ch1, ch2) => DisableAvPllCh(ch1, ch2);
        case UsbOn => EnableUsbhsPhyClock();
        case UsbOff => DisableUsbhsPhyClock();
      }
    }
  }

  datatype Call =
    | Init(f1: ChFreq, f2: ChFreq, cali: bool)
    | Deinit
    | Config(f1: ChFreq, f2: ChFreq, cali: bool)
    | Enable(ch1: bool, ch2: bool, cali: bool)
    | Disable(ch1: bool, ch2: bool)
    | UsbOn
    | UsbOff

  // A call that takes C8 out of reset without powering the PLL.
  predicate Enables(call: Call) { call.Enable? || (call.Config? && (call.f1 != 0 || call.f2 != 0)) }

  function PuAfter(pu: bool, call: Call): bool {
    match call case Init(_, _, _) => true case Deinit => false case _ => pu
  }

  // Nothing is enabled or reconfigured while the PLL is down.
  predicate PllUpFirst(pu: bool, calls: seq<Call>)
    decreases |calls|
  {
    calls == [] || ((Enables(calls[0]) ==> pu) && PllUpFirst(PuAfter(pu, calls[0]), calls[1..]))
  }

  // Out of reset, a new frequency for channel 1 before the PLL is initialized breaks the order.
  method ConfigWhileDown(channel: Channel) returns (supply: Supply)
    requires !channel.pu && channel.reset
    ensures supply.Valid() && !supply.ordered && !supply.resetC8 && !supply.pu
  {
    supply := new Supply(false, TuningFor(false), channel);
    supply.ConfigAvPllCh(1, 0, true);
  }
}
