// The boot sequences (board/clock_config.c, board/board.c) and the driver calls they are made of
// (drivers/fsl_clock.c), with the clocks of the core and of the flash watched at every write.

module BootClock {
  import opened ClockTree
  import opened ClockNames
  import opened ClockPower
  import AnalogSupply

  function DivAfter(div: nat, divider: nat): nat { DividerAfter(Divider(div, false), divider).div }

  function OthersAfter(others: map<(Bank, nat), Divider>, d: Div, divider: nat): map<(Bank, nat), Divider> {
    if !d.OtherDiv? then others
    else
      var at := (d.bank, d.offset);
      others[at := DividerAfter(if at in others then others[at] else Divider(0, false), divider)]
  }

  // The halt bit of the divider that was written.
  function HaltsAfter(p: Power, d: Div, divider: nat): Power {
    var halted := DividerAfter(Divider(0, false), divider).halted;
    match d
    case MainPll => p.(mainPllHalt := halted)
    case Aux0Pll => p.(aux0Halt := halted)
    case Aux1Pll => p.(aux1Halt := halted)
    case Flexspi => p.(flexspiHalt := halted)
    case SysCpuAhb => p
    case OtherDiv(_, _) => p
  }

  // FLEXSPIFCLKDIV_DIV(divider - 1), in 32 bits.
  function DivField(divider: nat): nat { (divider + 0xFF) % 0x100 }

  // The flash after its source was changed.
  function Moved(p: Power): Power { p.(flexspiHalt := false, flexspiGated := false, flexspiModule := true) }

  // While it is moved the flash needs no clock, and then the new one.
  lemma MovedFlash(p: Power, m: Muxes, src: nat)
    ensures var n, idle := m.(flexspi := src), p.(flexspiGated := true, flexspiModule := false);
      && Fed(idle, m) == MainRuns(p, m)
      && FlexspiSourceRuns(idle, n) == FlexspiSourceRuns(p, n)
      && Fed(idle.(flexspiHalt := false, flexspiGated := false), n) == MainRuns(p, m)
      && Fed(Moved(p), n) == (MainRuns(p, m) && FlexspiSourceRuns(p, n))
  {
    MainIndifferent(p, m, src);
  }

  // The dividers of the boot sequences.
  lemma PllDivNames()
    ensures DivNamed(DIV_MAIN_PLL_CLK) == MainPll && DivNamed(DIV_AUX0_PLL_CLK) == Aux0Pll
  {
    DivNameDecodes(Clkctl0, 0x240);
    DivNameDecodes(Clkctl0, 0x248);
  }

  lemma OtherDivNames()
    ensures DivNamed(DIV_AUDIO_PLL_CLK) == OtherDiv(Clkctl1, 0x240)
    ensures DivNamed(DIV_PLL_FRG_CLK) == OtherDiv(Clkctl1, 0x6FC)
    ensures DivNamed(DIV_SYSTICK_CLK) == OtherDiv(Clkctl0, 0x764)
    ensures DivNamed(DIV_PMU_FCLK) == OtherDiv(Clkctl0, 0x780)
  {
    DivNameDecodes(Clkctl1, 0x240);
    DivNameDecodes(Clkctl1, 0x6FC);
    DivNameDecodes(Clkctl0, 0x764);
    DivNameDecodes(Clkctl0, 0x780);
  }

  // What is left of a pair after i rounds.
  function Remaining(low: nat, high: nat, i: nat): seq<MuxWrite> {
    if i == 0 then WritesOf(low, high)
    else if i == 1 && Offset(high) != 0 then [Decoded(high)]
    else []
  }

  lemma RemainingStep(low: nat, high: nat, i: nat)
    requires low % 2 == 0 && (low / 2) % 2 == 0 && i < 2
    ensures var tuple := if i == 0 then low else high;
      if Offset(tuple) != 0 then
        Remaining(low, high, i) != [] && Remaining(low, high, i)[0] == Decoded(tuple)
        && Remaining(low, high, i)[1..] == Remaining(low, high, i + 1)
      else Remaining(low, high, i) == []
  {
  }

  class Board {
    const crystal: Crystal
    const xip: bool
    const supply: AnalogSupply.Supply
    var power: Power
    var mux: Muxes
    var tune: nat
    var fbDiv: nat
    var tcpuFlexspiDiv: nat
    var tddrFlexspiDiv: nat
    var mainPllDiv: nat
    var aux0Div: nat
    var aux1Div: nat
    var ahbDiv: nat
    var otherDivs: map<(Bank, nat), Divider>
    var flexspiDiv: nat
    var systemCoreClock: nat
    ghost var last: (nat, nat) // FlexSPI mux and divider at the last write
    ghost var sound: bool      // falls for good at the first write that breaks a rule
    ghost var waits: bool      // falls for good at the first wait for a divider without a clock

    // Any state with fed clocks may be found by the boot code.
    constructor (crystal: Crystal, xip: bool, supply: AnalogSupply.Supply, power: Power, mux: Muxes, flexspiDiv: nat)
      requires Fed(power, mux) && supply.crystal38400 == (crystal == Mhz38p4)
      ensures Good() && Wired()
      ensures this.crystal == crystal && this.xip == xip && this.supply == supply
      ensures this.power == power && this.mux == mux && this.flexspiDiv == flexspiDiv
    {
      this.crystal, this.xip, this.supply := crystal, xip, supply;
      this.power, this.mux, this.flexspiDiv := power, mux, flexspiDiv;
      tune, fbDiv, tcpuFlexspiDiv, tddrFlexspiDiv := 5, 78, 0, 0;
      mainPllDiv, aux0Div, aux1Div, ahbDiv, otherDivs, systemCoreClock := 0, 0, 0, 0, map[], 0;
      last, sound, waits := (mux.flexspi, flexspiDiv), true, true;
    }

    // One crystal feeds both.
    predicate Wired() { supply.crystal38400 == (crystal == Mhz38p4) }

    // Every write so far kept the core and a flash in use clocked, and changed the mux and the
    // divider of the flash only while its module was disabled.
    ghost predicate Good() reads this { sound && Fed(power, mux) && last == (mux.flexspi, flexspiDiv) }

    // Ends a register write.
    method Stored()
      modifies `sound, `last
      ensures sound == (old(sound) && Fed(power, mux)
        && ((mux.flexspi, flexspiDiv) == old(last) || !power.flexspiModule))
      ensures last == (mux.flexspi, flexspiDiv)
    {
      sound := sound && Fed(power, mux) && ((mux.flexspi, flexspiDiv) == last || !power.flexspiModule);
      last := (mux.flexspi, flexspiDiv);
    }

    function Regs(): Registers reads this {
      Registers(mux.bypass, tune, fbDiv, mainPllDiv, mux.selA, mux.selB, ahbDiv)
    }

    method SystemCoreClockUpdate()
      modifies `systemCoreClock
      ensures systemCoreClock == UpdatedCoreClock(crystal, Regs())
    {
      systemCoreClock := UpdatedCoreClock(crystal, Regs());
    }

    // A write to the registers behind `power`.
    method SetPower(p: Power)
      modifies `power, `sound, `last
      ensures power == p
      ensures sound ==> old(sound) && Fed(p, mux)
      ensures old(Good()) && Fed(p, mux) ==> Good()
    {
      power := p;
      Stored();
    }

    method EnableClock(g: Gate)
      modifies `power, `sound, `last
      ensures power == old(power).(closed := old(power).closed - {g})
      ensures old(Good()) ==> Good()
      ensures sound ==> old(sound)
    {
      SetPower(power.(closed := power.closed - {g}));
    }

    method WriteMux(w: MuxWrite)
      modifies `mux, `sound, `last
      ensures mux == After(old(mux), w)
      ensures old(Good()) ==> (sound ==> Good())
      ensures old(Good()) ==>
        (sound <==> Fed(power, mux) && (old(mux).flexspi == mux.flexspi || !power.flexspiModule))
      ensures sound ==> old(sound)
    {
      mux := After(mux, w);
      Stored();
    }

    // The writes the connection stands for, in order; the clocks stay exactly if they stay through
    // each of them.
    method AttachClk(connection: nat)
      modifies `mux, `sound, `last
      ensures mux == AfterAll(old(mux), Writes(connection))
      ensures old(Good()) ==> (sound ==> Good()) && (sound <==> old(FedThrough(power, mux, Writes(connection))))
      ensures sound ==> old(sound)
    {
      var low, high := connection % 0x1_0000, connection / 0x1_0000;
      if low % 2 == 1 {
        AttachAll([MuxWrite(Pmu, Offset(low), (low / 0x1000) % 4)]);
      } else if (low / 2) % 2 == 1 {
        AttachAll([MuxWrite(Clkout, 0, (low / 0x10) % 8), MuxWrite(Clkout, 1, (low / 0x100) % 8),
                   MuxWrite(Clkout, 2, (low / 0x1000) % 8)]);
      } else {
        AttachTuples(low, high);
      }
    }

    method AttachAll(ws: seq<MuxWrite>)
      modifies `mux, `sound, `last
      ensures mux == AfterAll(old(mux), ws)
      ensures old(Good()) ==> (sound ==> Good()) && (sound <==> old(FedThrough(power, mux, ws)))
      ensures sound ==> old(sound)
    {
      assert ws[0..] == ws;
      for i := 0 to |ws|
        invariant AfterAll(mux, ws[i..]) == AfterAll(old(mux), ws)
        invariant old(Good()) && sound ==> Good()
        invariant old(Good()) ==>
          (old(FedThrough(power, mux, ws)) <==> sound && FedThrough(power, mux, ws[i..]))
        invariant sound ==> old(sound)
      {
        assert ws[i..][1..] == ws[i + 1..];
        WriteMux(ws[i]);
      }
    }

    // The loop over the two halves, up to one without a register.
    method AttachTuples(low: nat, high: nat)
      requires low % 2 == 0 && (low / 2) % 2 == 0
      modifies `mux, `sound, `last
      ensures mux == AfterAll(old(mux), WritesOf(low, high))
      ensures old(Good()) ==> (sound ==> Good()) && (sound <==> old(FedThrough(power, mux, WritesOf(low, high))))
      ensures sound ==> old(sound)
    {
      var finalDescriptor, i := false, 0;
      ghost var all, rest := WritesOf(low, high), WritesOf(low, high);
      while i < 2 && !finalDescriptor
        invariant 0 <= i <= 2 && rest == if finalDescriptor then [] else Remaining(low, high, i)
        invariant AfterAll(mux, rest) == AfterAll(old(mux), all)
        invariant old(Good()) && sound ==> Good()
        invariant old(Good()) ==> (old(FedThrough(power, mux, all)) <==> sound && FedThrough(power, mux, rest))
        invariant sound ==> old(sound)
        decreases 2 - i
      {
        RemainingStep(low, high, i);
        var tuple := if i == 0 then low else high;
        if Offset(tuple) != 0 {
          rest := rest[1..];
          WriteMux(Decoded(tuple));
        } else {
          rest := [];
          finalDescriptor := true;
        }
        i := i + 1;
      }
    }

    // CLOCK_SetClkDiv: reset the counter, then halt on 0, or divide and wait.
    method SetClkDiv(name: nat, divider: nat)
      modifies `power, `mainPllDiv, `aux0Div, `aux1Div, `ahbDiv, `flexspiDiv, `otherDivs, `sound, `last, `waits
      ensures power == HaltsAfter(old(power), DivNamed(name), divider)
      ensures mainPllDiv == if DivNamed(name) == MainPll then DivAfter(old(mainPllDiv), divider) else old(mainPllDiv)
      ensures aux0Div == if DivNamed(name) == Aux0Pll then DivAfter(old(aux0Div), divider) else old(aux0Div)
      ensures aux1Div == if DivNamed(name) == Aux1Pll then DivAfter(old(aux1Div), divider) else old(aux1Div)
      ensures ahbDiv == if DivNamed(name) == SysCpuAhb then DivAfter(old(ahbDiv), divider) else old(ahbDiv)
      ensures flexspiDiv == if DivNamed(name) == Flexspi then DivAfter(old(flexspiDiv), divider) else old(flexspiDiv)
      ensures otherDivs == OthersAfter(old(otherDivs), DivNamed(name), divider)
      ensures old(Good()) ==> (sound ==> Good())
      ensures old(Good()) ==>
        (sound <==> Fed(power, mux) && (flexspiDiv == old(flexspiDiv) || !power.flexspiModule))
      ensures sound ==> old(sound)
      ensures waits == (old(waits) && (divider > 0 ==> DivClocked(power, mux, DivNamed(name), AudioRuns())))
    {
      Stored(); // counter reset
      StoreDivider(DivNamed(name), divider);
      Stored();
      waits := waits && (divider > 0 ==> DivClocked(power, mux, DivNamed(name), AudioRuns()));
    }

    // The register itself: its field, or its halt bit.
    method StoreDivider(d: Div, divider: nat)
      modifies `power, `mainPllDiv, `aux0Div, `aux1Div, `ahbDiv, `flexspiDiv, `otherDivs
      ensures power == HaltsAfter(old(power), d, divider)
      ensures mainPllDiv == if d == MainPll then DivAfter(old(mainPllDiv), divider) else old(mainPllDiv)
      ensures aux0Div == if d == Aux0Pll then DivAfter(old(aux0Div), divider) else old(aux0Div)
      ensures aux1Div == if d == Aux1Pll then DivAfter(old(aux1Div), divider) else old(aux1Div)
      ensures ahbDiv == if d == SysCpuAhb then DivAfter(old(ahbDiv), divider) else old(ahbDiv)
      ensures flexspiDiv == if d == Flexspi then DivAfter(old(flexspiDiv), divider) else old(flexspiDiv)
      ensures otherDivs == OthersAfter(old(otherDivs), d, divider)
    {
      match d {
        case MainPll => mainPllDiv := DivAfter(mainPllDiv, divider);
        case Aux0Pll => aux0Div := DivAfter(aux0Div, divider);
        case Aux1Pll => aux1Div := DivAfter(aux1Div, divider);
        case SysCpuAhb => ahbDiv := DivAfter(ahbDiv, divider);
        case Flexspi => flexspiDiv := DivAfter(flexspiDiv, divider);
        case OtherDiv(_, _) => otherDivs := OthersAfter(otherDivs, d, divider);
      }
      power := HaltsAfter(power, d, divider);
    }

    predicate AudioRuns() reads supply { supply.pu && supply.c1.pu }

    // Whoever is clocked from T3 stops here.
    method DeinitT3RefClk()
      requires power.t3
      modifies `power, `systemCoreClock, `sound, `last
      ensures systemCoreClock == UpdatedCoreClock(crystal, Regs())
      ensures power == T3Off(old(power))
      ensures old(Good()) && !NeedsT3(old(power), mux) ==> Good()
      ensures old(Good()) && NeedsT3(old(power), mux) ==> !sound
      ensures sound ==> old(sound)
    {
      WithoutT3(power, mux);
      SystemCoreClockUpdate();
      SetPower(power.(closed := power.closed + T3_GATES));
      SetPower(power.(t3 := false));
    }

    // T3 is restarted if it was running; its outputs are then closed.
    method InitT3RefClk(irc60m: bool)
      modifies `power, `tune, `systemCoreClock, `sound, `last
      ensures power == Restarted(old(power))
      ensures old(Good()) && !(old(power).t3 && NeedsT3(old(power), mux)) ==> Good()
      ensures old(Good()) && old(power).t3 && NeedsT3(old(power), mux) ==> !sound
      ensures sound ==> old(sound)
      ensures tune == if irc60m then 5 else 10
    {
      if power.t3 { DeinitT3RefClk(); }
      StartT3(irc60m);
    }

    method StartT3(irc60m: bool)
      modifies `power, `tune, `sound, `last
      ensures power == old(power).(t3 := true)
      ensures old(Good()) ==> Good()
      ensures sound ==> old(sound)
      ensures tune == if irc60m then 5 else 10
    {
      tune := if irc60m then 5 else 10;
      Stored();
      T3On(power, mux);
      SetPower(power.(t3 := true));
    }

    method DeinitTcpuRefClk()
      modifies `power, `systemCoreClock, `sound, `last
      ensures systemCoreClock == UpdatedCoreClock(crystal, Regs())
      ensures power == TcpuOff(old(power))
      ensures old(Good()) && !NeedsTcpu(old(power), mux) ==> Good()
      ensures sound ==> old(sound)
    {
      WithoutTcpu(power, mux);
      SetPower(power.(closed := power.closed + TCPU_GATES));
      SetPower(power.(tcpu := false));
      SystemCoreClockUpdate();
    }

    // Sets the feedback divider nearest to the target.
    method CfgTcpuRefClk(targetHz: nat, div: nat) returns (freq: nat)
      requires targetHz < 0x1_0000_0000
      modifies `fbDiv, `tcpuFlexspiDiv, `sound, `last
      ensures NearestStep(crystal, targetHz, fbDiv) && TcpuFvcoFreq(crystal, fbDiv) == Some(freq)
      ensures tcpuFlexspiDiv == div
      ensures old(Good()) ==> Good()
      ensures sound ==> old(sound)
    {
      var steps;
      freq, steps := ChooseTcpuStep(crystal, targetHz);
      fbDiv, tcpuFlexspiDiv := steps, div;
      Stored();
    }

    method InitTcpuRefClk(targetHz: nat, div: nat) returns (freq: nat)
      requires targetHz < 0x1_0000_0000
      modifies `power, `fbDiv, `tcpuFlexspiDiv, `systemCoreClock, `sound, `last
      ensures NearestStep(crystal, targetHz, fbDiv) && TcpuFvcoFreq(crystal, fbDiv) == Some(freq)
      ensures tcpuFlexspiDiv == div
      ensures power == (if old(power).tcpu then TcpuOff(old(power)) else old(power)).(tcpu := true)
      ensures old(Good()) && !NeedsTcpu(old(power), mux) ==> Good()
      ensures sound ==> old(sound)
    {
      if power.tcpu { DeinitTcpuRefClk(); }
      freq := CfgTcpuRefClk(targetHz, div);
      TcpuOn(power, mux);
      SetPower(power.(tcpu := true));
    }

    method DeinitTddrRefClk()
      modifies `power, `systemCoreClock, `sound, `last
      ensures systemCoreClock == UpdatedCoreClock(crystal, Regs())
      ensures power == TddrOff(old(power))
      ensures old(Good()) && !NeedsTddr(old(power), mux) ==> Good()
      ensures sound ==> old(sound)
    {
      WithoutTddr(power, mux);
      SetPower(power.(closed := power.closed + TDDR_GATES));
      SetPower(power.(tddr := false));
      SystemCoreClockUpdate();
    }

    method InitTddrRefClk(div: nat)
      modifies `power, `tddrFlexspiDiv, `systemCoreClock, `sound, `last
      ensures power == (if old(power).tddr then TddrOff(old(power)) else old(power)).(tddr := true)
      ensures tddrFlexspiDiv == div
      ensures old(Good()) && !NeedsTddr(old(power), mux) ==> Good()
      ensures sound ==> old(sound)
    {
      if power.tddr { DeinitTddrRefClk(); }
      tddrFlexspiDiv := div;
      Stored();
      TddrOn(power, mux);
      SetPower(power.(tddr := true));
    }

    // Ungates FlexSPI, enables it to wait until it is idle, and disables it.
    method DeinitFlash()
      modifies `power, `sound, `last
      ensures power == old(power).(flexspiGated := false, flexspiModule := false)
      ensures old(Good()) ==> (sound ==> Good()) && (sound <==> FlexspiRuns(old(power), mux))
      ensures sound ==> old(sound)
    {
      PutToWork(power, mux);
      SetPower(power.(flexspiGated := false));
      SetPower(power.(flexspiModule := true));
      SetPower(power.(flexspiModule := false));
    }

    // Another source and divider for the flash, unless it has them. A halt does not count.
    method SetFlexspiClock(src: nat, divider: nat)
      requires divider <= 0xFFFF_FFFF
      modifies `power, `mux, `flexspiDiv, `sound, `last, `waits
      ensures power == if old(InPlace(src, divider)) then old(power) else Moved(old(power))
      ensures mux == old(mux).(flexspi := src)
      ensures flexspiDiv == if old(InPlace(src, divider)) then old(flexspiDiv) else DivField(divider)
      ensures old(Good()) ==> (sound ==> Good())
      ensures old(Good()) ==> (sound <==> (
        old(InPlace(src, divider)) || (FlexspiRuns(old(power), old(mux)) && FlexspiSourceRuns(old(power), mux))))
      ensures sound ==> old(sound)
      ensures waits == (old(waits) && (old(InPlace(src, divider)) || FlexspiSourceRuns(old(power), mux)))
    {
      if mux.flexspi != src || flexspiDiv != divider - 1 { MoveFlexspi(src, divider); }
    }

    // Whether SetFlexspiClock finds nothing to do.
    predicate InPlace(src: nat, divider: nat) reads this { mux.flexspi == src && flexspiDiv == divider - 1 }

    method MoveFlexspi(src: nat, divider: nat)
      modifies `power, `mux, `flexspiDiv, `sound, `last, `waits
      ensures mux == old(mux).(flexspi := src) && flexspiDiv == DivField(divider)
      ensures power == Moved(old(power))
      ensures old(Good()) ==> (sound ==> Good())
      ensures old(Good()) ==>
        (sound <==> (FlexspiRuns(old(power), old(mux)) && FlexspiSourceRuns(old(power), mux)))
      ensures sound ==> old(sound)
      ensures waits == (old(waits) && FlexspiSourceRuns(old(power), mux))
    {
      MovedFlash(power, mux, src);
      DeinitFlash();
      SetPower(power.(flexspiGated := true));
      Reclock(src, divider);
      SetPower(power.(flexspiGated := false));
      SetPower(power.(flexspiModule := true)); // as InitFlash leaves it
    }

    // The mux and the divider of a gated, disabled FlexSPI; a halt ends.
    method Reclock(src: nat, divider: nat)
      modifies `power, `mux, `flexspiDiv, `sound, `last, `waits
      ensures mux == old(mux).(flexspi := src) && flexspiDiv == DivField(divider)
      ensures power == old(power).(flexspiHalt := false)
      ensures old(Good()) && power.flexspiGated && !power.flexspiModule ==> Good()
      ensures sound ==> old(sound)
      ensures waits == (old(waits) && FlexspiSourceRuns(old(power), mux))
    {
      if !FlexspiInUse(power) { IdleFlash(power, mux, src); }
      SourcesIndifferent(power, mux.(flexspi := src), false, power.flexspiGated, power.flexspiModule);
      mux := mux.(flexspi := src);
      Stored();
      Stored(); // counter reset
      flexspiDiv, power := DivField(divider), power.(flexspiHalt := false);
      Stored();
      waits := waits && DivClocked(power, mux, Flexspi, AudioRuns());
    }

    // The flash on T3 256M / 4 while the PLLs change, or stopped when no code runs from it.
    method ClockPreConfig()
      modifies `power, `mux, `flexspiDiv, `systemCoreClock, `sound, `last, `waits
      ensures mux == old(mux).(flexspi := if xip then 6 else 7)
      ensures power == if !xip then old(power).(flexspiGated := true, flexspiModule := false)
                       else if old(InPlace(6, 4)) then old(power) else Moved(old(power))
      ensures xip ==> flexspiDiv == 3
      ensures old(Good()) ==> (sound ==> Good())
      ensures old(Good()) ==> (sound <==> ((xip && old(InPlace(6, 4)))
        || (FlexspiRuns(old(power), old(mux)) && (xip ==> FlexspiSourceRuns(old(power), mux)))))
      ensures sound ==> old(sound)
      ensures waits == (old(waits) && (xip && !old(InPlace(6, 4)) ==> FlexspiSourceRuns(old(power), mux)))
    {
      var nonCes: bool := *; // as the fuses say
      if nonCes { SystemCoreClockUpdate(); }
      if xip { SetFlexspiClock(6, 4); } else { StopFlexspi(); }
    }

    method StopFlexspi()
      modifies `power, `mux, `sound, `last
      ensures mux == old(mux).(flexspi := 7)
      ensures power == old(power).(flexspiGated := true, flexspiModule := false)
      ensures old(Good()) ==> (sound ==> Good()) && (sound <==> FlexspiRuns(old(power), old(mux)))
      ensures sound ==> old(sound)
    {
      DeinitFlash();
      NoFlexspi(power, mux);
      AttachClk(NONE_TO_FLEXSPI_CLK);
      SetPower(power.(flexspiGated := true));
    }

    method ClockPostConfig()
      modifies `power, `mux, `flexspiDiv, `sound, `last, `waits
      ensures mux == if xip then old(mux).(flexspi := 2) else old(mux)
      ensures power == if !xip || old(InPlace(2, 2)) then old(power) else Moved(old(power))
      ensures xip ==> flexspiDiv == 1
      ensures old(Good()) ==> (sound ==> Good())
      ensures old(Good()) ==> (sound <==> (!xip || old(InPlace(2, 2))
        || (FlexspiRuns(old(power), old(mux)) && FlexspiSourceRuns(old(power), mux))))
      ensures sound ==> old(sound)
      ensures waits == (old(waits) && (xip && !old(InPlace(2, 2)) ==> FlexspiSourceRuns(old(power), mux)))
    {
      if xip {
        SetFlexspiClock(2, 2);
      }
    }

    method OpenT3Outputs(irc: bool)
      modifies `power, `sound, `last
      ensures power == Reopened(old(power), irc)
      ensures old(Good()) ==> Good()
      ensures sound ==> old(sound)
    {
      if irc { EnableClock(T3PllMciIrc); }
      EnableClock(T3PllMci256m);
    }

    // T3 anew, its 256M output open; only the first sequence opens the IRC output.
    method RestartT3(irc: bool)
      requires Good()
      modifies `power, `tune, `systemCoreClock, `sound, `last
      ensures sound <==> !NeedsT3(old(power), mux)
      ensures sound ==> Good()
      ensures power == Reopened(Restarted(old(power)), irc) && tune == 10
    {
      NeededT3Runs(power, mux);
      InitT3RefClk(false);
      OpenT3Outputs(irc);
    }

    // The common start of both sequences, up to the core on the system oscillator. A halted divider
    // of a flash that is already on T3 256M / 4 goes unnoticed here.
    method StartBoot(irc: bool)
      requires Good()
      modifies `power, `mux, `tune, `ahbDiv, `mainPllDiv, `aux0Div, `aux1Div, `otherDivs, `flexspiDiv,
        `systemCoreClock, `sound, `last, `waits
      ensures sound <==> !BootStopsEarly(old(power), old(mux), irc, xip && old(InPlace(6, 4)))
      ensures sound ==> Good()
      ensures Started(power, mux, xip) && ahbDiv == 0 && tune == 10
      ensures irc ==> T3PllMciIrc !in power.closed
      ensures xip ==> power.flexspiHalt == (old(power).flexspiHalt && old(InPlace(6, 4)))
      ensures !xip ==> power.flexspiGated && !power.flexspiModule
      ensures power.mainPllHalt == old(power).mainPllHalt
      ensures sound ==> waits == old(waits)
      ensures mux.bypass == old(mux).bypass && RefClkSys !in power.closed
    {
      if RefClkSys in power.closed { OpenRefClkSys(irc, xip && InPlace(6, 4)); }
      StartClocks(irc);
    }

    // The same, after REFCLK_SYS is seen to.
    method StartClocks(irc: bool)
      requires Good()
      modifies `power, `mux, `tune, `ahbDiv, `mainPllDiv, `aux0Div, `aux1Div, `otherDivs, `flexspiDiv,
        `systemCoreClock, `sound, `last, `waits
      ensures sound <==> !BootStopsEarly(old(power), old(mux), irc, xip && old(InPlace(6, 4)))
      ensures sound ==> Good()
      ensures Started(power, mux, xip) && ahbDiv == 0 && tune == 10
      ensures irc ==> T3PllMciIrc !in power.closed
      ensures xip ==> power.flexspiHalt == (old(power).flexspiHalt && old(InPlace(6, 4)))
      ensures !xip ==> power.flexspiGated && !power.flexspiModule
      ensures power.mainPllHalt == old(power).mainPllHalt
      ensures sound ==> waits == old(waits)
      ensures mux.bypass == old(mux).bypass && (RefClkSys in power.closed ==> RefClkSys in old(power).closed)
    {
      StartVerdict(power, mux, irc, xip && InPlace(6, 4));
      GatesReopened(power, irc);
      RestartAndMove(irc);
      MainToSysOsc();
    }

    // T3 anew, and the flash away from the other PLLs.
    method RestartAndMove(irc: bool)
      requires Good()
      requires FlexspiSourceRuns(Reopened(Restarted(power), irc), mux.(flexspi := 6))
      modifies `power, `mux, `tune, `flexspiDiv, `systemCoreClock, `sound, `last, `waits
      ensures sound ==> Good()
      ensures var p, q := old(power), Reopened(Restarted(old(power)), irc);
        && (sound <==> !NeedsT3(p, old(mux)) && ((xip && old(InPlace(6, 4))) || FlexspiRuns(q, old(mux))))
        && power == (if !xip then q.(flexspiGated := true, flexspiModule := false)
                     else if old(InPlace(6, 4)) then q else Moved(q))
      ensures power.closed == Reopened(Restarted(old(power)), irc).closed
      ensures mux == old(mux).(flexspi := if xip then 6 else 7) && waits == old(waits) && tune == 10
    {
      RestartT3(irc);
      ClockPreConfig();
    }

    method OpenRefClkSys(irc: bool, ghost inPlace: bool)
      requires Good()
      modifies `power, `sound, `last
      ensures Good() && SameFlash(power, old(power)) && RefClkSys !in power.closed
      ensures BootStopsEarly(power, mux, irc, inPlace) == BootStopsEarly(old(power), mux, irc, inPlace)
    {
      EnableClock(RefClkSys);
    }

    method MainToSysOsc()
      requires sound ==> Good()
      modifies `power, `mux, `ahbDiv, `mainPllDiv, `aux0Div, `aux1Div, `flexspiDiv, `otherDivs, `sound, `last, `waits
      ensures sound == (old(sound) && mux.bypass <= 1) && (sound ==> Good())
      ensures mux == old(mux).(selA := 0, selB := 0) && power == old(power) && ahbDiv == 0
      ensures flexspiDiv == old(flexspiDiv)
      ensures sound ==> waits == old(waits)
    {
      SysOscAttached(power, mux);
      AttachClk(SYSOSC_TO_MAIN_CLK);
      DivNameDecodes(Clkctl0, 0x400);
      SetClkDiv(DIV_SYS_CPU_AHB_CLK, 1);
    }

    // TCPU at 3120 MHz or what is nearest, its output to the core open.
    method StartTcpu()
      requires Started(power, mux, xip) && (sound ==> Good())
      modifies `power, `fbDiv, `tcpuFlexspiDiv, `systemCoreClock, `sound, `last
      ensures sound == old(sound) && (sound ==> Good()) && Started(power, mux, xip)
      ensures fbDiv == (if crystal == Mhz40 then 78 else 81) && tcpuFlexspiDiv == 2
      ensures power.tcpu && TcpuMci !in power.closed && SameFlash(power, old(power)) && SameOutputs(power, old(power))
    {
      var freq := InitTcpuRefClk(3_120_000_000, 2);
      BootStep(crystal, fbDiv);
      EnableClock(TcpuMci);
    }

    method StartTddr()
      requires Started(power, mux, xip) && (sound ==> Good())
      modifies `power, `tddrFlexspiDiv, `systemCoreClock, `sound, `last
      ensures sound == old(sound) && (sound ==> Good()) && Started(power, mux, xip)
      ensures power.tcpu == old(power).tcpu && (TcpuMci in power.closed <==> TcpuMci in old(power).closed)
      ensures power.tddr && TddrMciFlexspi !in power.closed && tddrFlexspiDiv == 1
      ensures SameFlash(power, old(power)) && SameOutputs(power, old(power))
    {
      InitTddrRefClk(1);
      EnableClock(TddrMciFlexspi);
    }

    method AttachSlowClocks()
      requires Started(power, mux, xip) && (sound ==> Good())
      modifies `mux, `sound, `last
      ensures sound == old(sound) && (sound ==> Good()) && Started(power, mux, xip)
      ensures mux == old(mux).(others := old(mux).others[(Pmu, 0x70) := 0][(Clkctl0, 0x760) := 0])
    {
      SlowClocks();
      SlowAttached(power, mux, MuxWrite(Pmu, 0x70, 0));
      AttachClk(RC32K_TO_CLK32K);
      SlowAttached(power, mux, MuxWrite(Clkctl0, 0x760, 0));
      AttachClk(SYSTICK_DIV_TO_SYSTICK_CLK);
    }

    // A divider that feeds neither the core nor the flash.
    method SetOtherDiv(name: nat, divider: nat)
      requires DivNamed(name).OtherDiv? && 0 < divider <= 0x100
      requires Started(power, mux, xip) && (sound ==> Good())
      modifies `power, `mainPllDiv, `aux0Div, `aux1Div, `ahbDiv, `flexspiDiv, `otherDivs, `sound, `last, `waits
      ensures sound == old(sound) && (sound ==> Good()) && power == old(power)
      ensures otherDivs == old(otherDivs)[(DivNamed(name).bank, DivNamed(name).offset) := Divider(divider - 1, false)]
      ensures (mainPllDiv, aux0Div, ahbDiv, flexspiDiv) == old((mainPllDiv, aux0Div, ahbDiv, flexspiDiv))
      ensures waits == (old(waits) && DivClocked(power, mux, DivNamed(name), AudioRuns()))
    {
      FittingDivider(Divider(0, false), divider);
      SetClkDiv(name, divider);
    }

    method SetPllDivs()
      requires Started(power, mux, xip) && (sound ==> Good()) && power.tcpu && TcpuMci !in power.closed
      modifies `power, `mainPllDiv, `aux0Div, `aux1Div, `ahbDiv, `flexspiDiv, `otherDivs, `sound, `last, `waits
      ensures sound == old(sound) && (sound ==> Good()) && Started(power, mux, xip)
      ensures power == old(power).(mainPllHalt := false, aux0Halt := false)
      ensures mainPllDiv == 0 && aux0Div == 0 && ahbDiv == old(ahbDiv) && otherDivs == old(otherDivs)
      ensures flexspiDiv == old(flexspiDiv) && waits == old(waits)
    {
      PllDivNames();
      SetClkDiv(DIV_MAIN_PLL_CLK, 1);
      SetClkDiv(DIV_AUX0_PLL_CLK, 1);
    }

    // The dividers; only the first sequence sets that of the audio PLL. The divider of the FRG waits
    // for a main PLL clock that is let go only afterwards.
    method SetDividers(audio: bool)
      requires Started(power, mux, xip) && (sound ==> Good()) && power.tcpu && TcpuMci !in power.closed
      requires audio ==> AudioRuns()
      modifies `power, `mainPllDiv, `aux0Div, `aux1Div, `ahbDiv, `flexspiDiv, `otherDivs, `sound, `last, `waits
      ensures sound == old(sound) && (sound ==> Good()) && Started(power, mux, xip)
      ensures power == old(power).(mainPllHalt := false, aux0Halt := false)
      ensures mainPllDiv == 0 && aux0Div == 0 && ahbDiv == old(ahbDiv) && flexspiDiv == old(flexspiDiv)
      ensures otherDivs == (if audio then old(otherDivs)[(Clkctl1, 0x240) := Divider(0, false)] else old(otherDivs))
        [(Clkctl1, 0x6FC) := Divider(12, false)]
        [(Clkctl0, 0x764) := Divider(0, false)][(Clkctl0, 0x780) := Divider(4, false)]
      ensures sound ==> waits == (old(waits) && !old(power).mainPllHalt)
    {
      OtherDivNames();
      if audio { SetOtherDiv(DIV_AUDIO_PLL_CLK, 1); }
      SetOtherDiv(DIV_PLL_FRG_CLK, 13);
      SetPllDivs();
      SetOtherDiv(DIV_SYSTICK_CLK, 1);
      SetOtherDiv(DIV_PMU_FCLK, 5);
    }

    // The end of both sequences: the core on the main PLL, and the flash on the auxiliary PLL / 2.
    method MainToPll()
      requires Ready(power, mux, xip) && (sound ==> Good())
      modifies `mux, `sound, `last
      ensures mux == old(mux).(selB := 2)
      ensures sound == old(sound) && (sound ==> Good())
    {
      PllAttached(power, mux);
      AttachClk(MAIN_PLL_TO_MAIN_CLK);
    }

    // Slow clocks, dividers, and the core on the main PLL.
    method FeedCore(audio: bool)
      requires Started(power, mux, xip) && power.tcpu && TcpuMci !in power.closed && (sound ==> Good())
      requires audio ==> AudioRuns()
      modifies `power, `mux, `mainPllDiv, `aux0Div, `aux1Div, `ahbDiv, `flexspiDiv, `otherDivs,
        `sound, `last, `waits
      ensures sound == old(sound) && (sound ==> Good())
      ensures PllOpen(power) && T3Open(power, mux, xip)
      ensures mux.selB == 2 && mainPllDiv == 0 && aux0Div == 0 && ahbDiv == old(ahbDiv)
      ensures power == old(power).(mainPllHalt := false, aux0Halt := false)
      ensures sound ==> waits == (old(waits) && !old(power).mainPllHalt)
      ensures mux.bypass == old(mux).bypass && Routed(mux.others, otherDivs, audio)
    {
      AttachSlowClocks();
      SetDividers(audio);
      MainToPll();
    }

    method StartAvPll()
      requires supply.Valid() && supply.Settled() && Wired()
      modifies `systemCoreClock, supply
      ensures supply.Valid() && supply.Settled() && supply.Balanced()
      ensures systemCoreClock == UpdatedCoreClock(crystal, Regs())
      ensures supply.pu && supply.c1.pu && supply.c2.pu
      ensures supply.c1.postdiv == 132 && supply.c2.postdiv == 25 // 12.288 and 64 MHz
      ensures supply.tuning.fbDiv == if crystal == Mhz40 then 0x51 else 0x54
    {
      SystemCoreClockUpdate();
      supply.InitAvPll(7, 9, true);
    }

    method StartWithTcpu(irc: bool)
      requires Good()
      modifies `power, `mux, `tune, `fbDiv, `tcpuFlexspiDiv, `ahbDiv, `mainPllDiv, `aux0Div, `aux1Div,
        `otherDivs, `flexspiDiv, `systemCoreClock, `sound, `last, `waits
      ensures sound <==> !BootStopsEarly(old(power), old(mux), irc, xip && old(InPlace(6, 4)))
      ensures sound ==> Good()
      ensures Started(power, mux, xip) && power.tcpu && TcpuMci !in power.closed
      ensures fbDiv == (if crystal == Mhz40 then 78 else 81) && tcpuFlexspiDiv == 2 && ahbDiv == 0
      ensures xip ==> power.flexspiHalt == (old(power).flexspiHalt && old(InPlace(6, 4)))
      ensures !xip ==> power.flexspiGated && !power.flexspiModule
      ensures power.mainPllHalt == old(power).mainPllHalt && tune == 10
      ensures RefClkSys !in power.closed && (irc ==> T3PllMciIrc !in power.closed)
      ensures sound ==> waits == old(waits)
      ensures mux.bypass == old(mux).bypass
    {
      StartBoot(irc);
      StartTcpu();
    }

    // The flash back on the PLL, if code runs from it. Now a halted divider shows.
    method FinishBoot()
      requires PllOpen(power) && T3Open(power, mux, xip) && (sound ==> Good())
      requires mux.selB == 2 && mainPllDiv == 0 && ahbDiv == 0 && fbDiv == if crystal == Mhz40 then 78 else 81
      modifies `power, `mux, `flexspiDiv, `systemCoreClock, `sound, `last, `waits
      ensures sound == (old(sound) && (xip ==> !old(power).flexspiHalt)) && (sound ==> Good())
      ensures mux == if xip then old(mux).(flexspi := 2) else old(mux)
      ensures (xip ==> flexspiDiv == 1) && BootResult(crystal, Regs(), systemCoreClock)
      ensures power == if xip then Moved(old(power)) else old(power)
      ensures waits == old(waits)
    {
      ClockPostConfig();
      systemCoreClock := 260_000_000;
      BootFrequency(crystal, Regs());
    }

    // All PLLs, and the core still on the system oscillator.
    method StartPlls()
      requires Good() && Wired() && supply.Valid() && supply.Settled()
      modifies `power, `mux, `tune, `fbDiv, `tcpuFlexspiDiv, `tddrFlexspiDiv, `ahbDiv, `mainPllDiv, `aux0Div,
        `aux1Div, `otherDivs, `flexspiDiv, `systemCoreClock, `sound, `last, `waits, supply
      ensures sound <==> !BootStopsEarly(old(power), old(mux), true, xip && old(InPlace(6, 4)))
      ensures sound ==> Good()
      ensures Started(power, mux, xip) && power.tcpu && TcpuMci !in power.closed
      ensures fbDiv == (if crystal == Mhz40 then 78 else 81) && tcpuFlexspiDiv == 2 && ahbDiv == 0
      ensures xip ==> power.flexspiHalt == (old(power).flexspiHalt && old(InPlace(6, 4)))
      ensures !xip ==> power.flexspiGated && !power.flexspiModule
      ensures power.mainPllHalt == old(power).mainPllHalt && tune == 10
      ensures RefClkSys !in power.closed && T3PllMciIrc !in power.closed
      ensures power.tddr && TddrMciFlexspi !in power.closed && tddrFlexspiDiv == 1
      ensures sound ==> waits == old(waits)
      ensures mux.bypass == old(mux).bypass
      ensures supply.Valid() && supply.Settled() && supply.Balanced()
      ensures supply.pu && supply.c1.pu && supply.c2.pu
      ensures supply.c1.postdiv == 132 && supply.c2.postdiv == 25
      ensures supply.tuning.fbDiv == if crystal == Mhz40 then 0x51 else 0x54
    {
      StartWithTcpu(true);
      StartTddr();
      StartAvPll();
    }

    method RunFromPll()
      requires Started(power, mux, xip) && power.tcpu && TcpuMci !in power.closed && (sound ==> Good())
      requires ahbDiv == 0 && fbDiv == (if crystal == Mhz40 then 78 else 81) && AudioRuns()
      modifies `power, `mux, `mainPllDiv, `aux0Div, `aux1Div, `ahbDiv, `otherDivs, `flexspiDiv,
        `systemCoreClock, `sound, `last, `waits
      ensures sound == (old(sound) && (xip ==> !old(power).flexspiHalt)) && (sound ==> Good())
      ensures BootResult(crystal, Regs(), systemCoreClock)
      ensures FlashAfterBoot(power, mux, xip) || !xip
      ensures aux0Div == 0 && (xip ==> flexspiDiv == 1)
      ensures !xip ==> mux.flexspi == 7 && SameGate(power, old(power))
      ensures PllOpen(power) && power.tddr == old(power).tddr && power.closed == old(power).closed
      ensures sound ==> waits == (old(waits) && !old(power).mainPllHalt)
      ensures mux.bypass == old(mux).bypass && Routed(mux.others, otherDivs, true)
      ensures power.t3 && T3PllMci256m !in power.closed
    {
      FeedCore(true);
      FinishBoot();
    }

    // From any state with running clocks: every write of the sequence keeps the core and a flash in
    // use clocked, if and only if there is a system oscillator, neither depends on T3, and the
    // flash, which is put to work, has a divider that is not halted and a source that is not dead.
    // Every wait for a divider ends, if and only if the main PLL divider is not halted.
    method BootClockRUN()
      requires Good() && Wired()
      requires supply.Valid() && supply.Settled()
      modifies this, supply
      ensures sound <==> !BootStopsClock(old(power), old(mux), true)
      ensures sound ==> Good()
      ensures sound ==> (waits <==> old(waits) && !old(power).mainPllHalt)
      ensures BootResult(crystal, Regs(), systemCoreClock)
      ensures FlashAfterBoot(power, mux, xip) && aux0Div == 0 && (xip ==> flexspiDiv == 1)
      ensures PllOpen(power) && power.tddr && TddrMciFlexspi !in power.closed
      ensures tcpuFlexspiDiv == 2 && tddrFlexspiDiv == 1
      ensures supply.Valid() && supply.Settled() && supply.Balanced()
      ensures supply.pu && supply.c1.pu && supply.c2.pu
      ensures supply.c1.postdiv == 132 && supply.c2.postdiv == 25 // 12.288 and 64 MHz
      ensures supply.tuning.fbDiv == if crystal == Mhz40 then 0x51 else 0x54
      ensures mux.bypass == old(mux).bypass && Routed(mux.others, otherDivs, true)
      ensures T3Result(power, tune) && T3PllMciIrc !in power.closed
    {
      StartPlls();
      RunFromPll();
    }

    method BootClockLPR()
      requires Good() && Wired()
      requires supply.Valid() && supply.Settled()
      modifies this, supply
      ensures sound <==> !BootStopsClock(old(power), old(mux), false)
      ensures sound ==> Good()
      ensures sound ==> (waits <==> old(waits) && !old(power).mainPllHalt)
      ensures BootResult(crystal, Regs(), systemCoreClock)
      ensures FlashAfterBoot(power, mux, xip) && aux0Div == 0 && (xip ==> flexspiDiv == 1)
      ensures PllOpen(power) && !power.tddr && tcpuFlexspiDiv == 2
      ensures supply.Valid() && supply.Settled() && !supply.pu && supply.ag == supply.usb.pu
      ensures mux.bypass == old(mux).bypass && Routed(mux.others, otherDivs, false)
      ensures T3Result(power, tune) && TDDR_GATES <= power.closed
    {
      StartWithTcpu(false);
      RunLowPower();
    }

    method RunLowPower()
      requires Started(power, mux, xip) && power.tcpu && TcpuMci !in power.closed && (sound ==> Good())
      requires ahbDiv == 0 && fbDiv == (if crystal == Mhz40 then 78 else 81)
      requires supply.Valid() && supply.Settled()
      modifies `power, `mux, `mainPllDiv, `aux0Div, `aux1Div, `ahbDiv, `otherDivs, `flexspiDiv,
        `systemCoreClock, `sound, `last, `waits, supply
      ensures sound == (old(sound) && (xip ==> !old(power).flexspiHalt)) && (sound ==> Good())
      ensures BootResult(crystal, Regs(), systemCoreClock)
      ensures xip ==> FlashAfterBoot(power, mux, xip) && flexspiDiv == 1
      ensures !xip ==> mux.flexspi == 7 && SameGate(power, old(power))
      ensures aux0Div == 0 && PllOpen(power) && !power.tddr && TDDR_GATES <= power.closed
      ensures power.t3 && T3PllMci256m !in power.closed && SameOutputs(power, old(power))
      ensures sound ==> waits == (old(waits) && !old(power).mainPllHalt)
      ensures mux.bypass == old(mux).bypass && Routed(mux.others, otherDivs, false)
      ensures supply.Valid() && supply.Settled() && !supply.pu && supply.ag == supply.usb.pu
    {
      FeedCore(false);
      supply.DeinitAvPll();
      FinishLowPower();
    }

    method FinishLowPower()
      requires PllOpen(power) && T3Open(power, mux, xip) && (sound ==> Good())
      requires mux.selB == 2 && mainPllDiv == 0 && ahbDiv == 0 && fbDiv == if crystal == Mhz40 then 78 else 81
      modifies `power, `mux, `flexspiDiv, `systemCoreClock, `sound, `last, `waits
      ensures sound == (old(sound) && (xip ==> !old(power).flexspiHalt)) && (sound ==> Good())
      ensures mux == if xip then old(mux).(flexspi := 2) else old(mux)
      ensures (xip ==> flexspiDiv == 1) && BootResult(crystal, Regs(), systemCoreClock)
      ensures (xip ==> FlexspiInUse(power) && !power.flexspiHalt) && (!xip ==> SameGate(power, old(power)))
      ensures PllOpen(power) && !power.tddr && TDDR_GATES <= power.closed && waits == old(waits)
      ensures power.t3 && T3PllMci256m !in power.closed && SameOutputs(power, old(power))
    {
      StopTddr();
      FinishBoot();
    }

    // Nothing runs from TDDR any more.
    method StopTddr()
      requires PllOpen(power) && T3Open(power, mux, xip) && (sound ==> Good())
      modifies `power, `systemCoreClock, `sound, `last
      ensures sound == old(sound) && (sound ==> Good())
      ensures PllOpen(power) && T3Open(power, mux, xip) && !power.tddr && TDDR_GATES <= power.closed
      ensures SameFlash(power, old(power)) && SameOutputs(power, old(power))
    {
      DeinitTddrRefClk();
    }

    // One sequence after the other: safe from flash, but without code in flash the second one puts
    // to work a flash that the first one left without a clock.
    method BootTwice()
      requires Good() && Wired() && !BootStopsClock(power, mux, true)
      requires supply.Valid() && supply.Settled()
      modifies this, supply
      ensures sound <==> xip
    {
      BootClockRUN();
      BootClockLPR();
    }
  }

  // The flash in use on the auxiliary PLL, or gated without a source.
  predicate FlashAfterBoot(p: Power, m: Muxes, xip: bool) {
    if xip then m.flexspi == 2 && FlexspiInUse(p) && !p.flexspiHalt
    else m.flexspi == 7 && p.flexspiGated && !p.flexspiModule
  }

  // T3 with its outputs at 256 MHz, open, and at 48.3 MHz; the system reference clock on.
  predicate T3Result(p: Power, tune: nat) {
    p.t3 && T3PllMci256m !in p.closed && RefClkSys !in p.closed && T3IrcFreq(tune) == Some(48_301_886)
  }

  // The slow clocks: the 32 kHz clock from its RC oscillator, SysTick from its divider; and the
  // dividers of the FRG by 13, of SysTick by 1, of the PMU by 5 and, if it is used, of the audio PLL by 1.
  predicate Routed(others: map<(Bank, nat), nat>, divs: map<(Bank, nat), Divider>, audio: bool) {
    && Routes(others, Pmu, 0x70, 0) && Routes(others, Clkctl0, 0x760, 0)
    && Divides(divs, Clkctl1, 0x6FC, 13)
    && Divides(divs, Clkctl0, 0x764, 1)
    && Divides(divs, Clkctl0, 0x780, 5)
    && (audio ==> Divides(divs, Clkctl1, 0x240, 1))
  }

  predicate Routes(others: map<(Bank, nat), nat>, bank: Bank, offset: nat, sel: nat) {
    (bank, offset) in others && others[(bank, offset)] == sel
  }

  predicate Divides(divs: map<(Bank, nat), Divider>, bank: Bank, offset: nat, divisor: nat) {
    (bank, offset) in divs && divs[(bank, offset)].div + 1 == divisor && !divs[(bank, offset)].halted
  }

  // The two gates besides.
  predicate SameOutputs(p: Power, q: Power) {
    (T3PllMciIrc in p.closed <==> T3PllMciIrc in q.closed) && (RefClkSys in p.closed <==> RefClkSys in q.closed)
  }

  predicate SameGate(p: Power, q: Power) {
    p.flexspiGated == q.flexspiGated && p.flexspiModule == q.flexspiModule
  }

  // What both sequences end with. SystemCoreClock is right exactly for the 40 MHz crystal.
  ghost predicate BootResult(x: Crystal, r: Registers, systemCoreClock: nat) {
    && systemCoreClock == 260_000_000
    && UpdatedCoreClock(x, r) == (if x == Mhz40 then 260_000_000 else 259_200_000)
    && (forall clkin: nat :: CoreSysClkFreq(x, clkin, r) == Some(UpdatedCoreClock(x, r)))
  }

  lemma BootFrequency(x: Crystal, r: Registers)
    requires r.selB == 2 && r.mainPllDiv == 0 && r.ahbDiv == 0 && r.fbDiv == if x == Mhz40 then 78 else 81
    ensures BootResult(x, r, 260_000_000)
  {
    if x == Mhz40 { } else { }
  }

  // For the boot target the nearest divider.
  lemma BootStep(x: Crystal, fbDiv: nat)
    requires NearestStep(x, 3_120_000_000, fbDiv)
    ensures fbDiv == if x == Mhz40 then 78 else 81
  {
    assert LegalStep(x, if x == Mhz40 then 78 else 81);
  }
}
