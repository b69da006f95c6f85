// What keeps the clocks of the core and of the flash running: PLLs, output gates, dividers and muxes
// (drivers/fsl_clock.c, drivers/fsl_clock.h).

module ClockPower {
  import opened ClockNames

  // Output gates of the PLLs.
  datatype Gate = TcpuMci | TcpuMciFlexspi | TddrMciEnet | TddrMciFlexspi
                | T3PllMciIrc | T3PllMci256m | T3PllMci213m | T3PllMciFlexspi | RefClkSys

  // The source behind FlexSPI mux choice 3: the header names one, the frequency getter the other.
  datatype ChoiceThree = TcpuFlexspiClk | FfroClk

  // What feeds the clocks besides the muxes: powered PLLs, closed output gates, halted dividers,
  // and the gate and the module enable (MDIS clear) of FlexSPI. The divider of the core has no halt.
  datatype Power = Power(t3: bool, tcpu: bool, tddr: bool, closed: set<Gate>,
                         mainPllHalt: bool, aux0Halt: bool, aux1Halt: bool,
                         flexspiHalt: bool, flexspiGated: bool, flexspiModule: bool, three: ChoiceThree)

  // Mux choice 7 of SYSOSCBYPASS, like all above 1, selects no oscillator.
  predicate MainRuns(p: Power, m: Muxes) {
    match m.selB
    case 0 => (
      match m.selA
      case 0 => m.bypass <= 1
      case 1 => p.t3 && T3PllMciIrc !in p.closed
      case 2 => true
      case 3 => p.t3 && T3PllMciIrc !in p.closed
      case _ => false)
    case 1 => p.t3 && T3PllMci256m !in p.closed
    case 2 => p.tcpu && TcpuMci !in p.closed && !p.mainPllHalt
    case 3 => true
    case _ => false
  }

  // Mux choice 7 selects no source.
  predicate FlexspiSourceRuns(p: Power, m: Muxes) {
    match m.flexspi
    case 0 => MainRuns(p, m)
    case 1 => p.t3 && T3PllMciFlexspi !in p.closed
    case 2 => p.tcpu && TcpuMci !in p.closed && !p.aux0Halt
    case 3 => if p.three == FfroClk then p.t3 && T3PllMciIrc !in p.closed else p.tcpu && TcpuMciFlexspi !in p.closed
    case 4 => p.t3 && T3PllMci213m !in p.closed && !p.aux1Halt
    case 5 => p.tddr && TddrMciFlexspi !in p.closed
    case 6 => p.t3 && T3PllMci256m !in p.closed
    case _ => false
  }

  // The root clock of the flash, before its gate.
  predicate FlexspiRuns(p: Power, m: Muxes) { FlexspiSourceRuns(p, m) && !p.flexspiHalt }

  // The flash is to work: its clock is not gated and its module is enabled.
  predicate FlexspiInUse(p: Power) { !p.flexspiGated && p.flexspiModule }

  // The core is clocked, and so is the flash if it is to work.
  predicate Fed(p: Power, m: Muxes) { MainRuns(p, m) && (FlexspiInUse(p) ==> FlexspiRuns(p, m)) }

  // The clocks stay through every write of a connection.
  predicate FedThrough(p: Power, m: Muxes, ws: seq<MuxWrite>)
    decreases |ws|
  {
    ws == [] || (
      && Fed(p, After(m, ws[0]))
      && (m.flexspi == After(m, ws[0]).flexspi || !p.flexspiModule)
      && FedThrough(p, After(m, ws[0]), ws[1..]))
  }

  // The core runs from T3.
  predicate MainOnT3(m: Muxes) { m.selB == 1 || (m.selB == 0 && (m.selA == 1 || m.selA == 3)) }

  // The flash is clocked straight from T3.
  predicate FlexspiOnT3(p: Power, m: Muxes) {
    m.flexspi == 1 || m.flexspi == 4 || m.flexspi == 6 || (m.flexspi == 3 && p.three == FfroClk)
  }

  predicate NeedsT3(p: Power, m: Muxes) { MainOnT3(m) || (FlexspiInUse(p) && FlexspiOnT3(p, m)) }

  predicate NeedsTcpu(p: Power, m: Muxes) {
    m.selB == 2 || (FlexspiInUse(p) && (m.flexspi == 2 || (m.flexspi == 3 && p.three == TcpuFlexspiClk)))
  }

  predicate NeedsTddr(p: Power, m: Muxes) { FlexspiInUse(p) && m.flexspi == 5 }

  const T3_GATES: set<Gate> := {T3PllMciIrc, T3PllMci256m, T3PllMci213m, T3PllMciFlexspi}
  const TCPU_GATES: set<Gate> := {TcpuMci, TcpuMciFlexspi}
  const TDDR_GATES: set<Gate> := {TddrMciEnet, TddrMciFlexspi}

  function T3Off(p: Power): Power { p.(t3 := false, closed := p.closed + T3_GATES) }

  function TcpuOff(p: Power): Power { p.(tcpu := false, closed := p.closed + TCPU_GATES) }

  function TddrOff(p: Power): Power { p.(tddr := false, closed := p.closed + TDDR_GATES) }

  // T3 as CLOCK_InitT3RefClk leaves it: if it was running, its outputs are closed.
  function Restarted(p: Power): Power { (if p.t3 then T3Off(p) else p).(t3 := true) }

  function Reopened(p: Power, irc: bool): Power {
    p.(closed := (if irc then p.closed - {T3PllMciIrc} else p.closed) - {T3PllMci256m})
  }

  // The source that the flash is set to is not there once T3 is restarted, its 256M output
  // opened and, in the first sequence, its IRC output.
  predicate DeadAfterRestart(p: Power, m: Muxes, irc: bool) {
    match m.flexspi
    case 0 => false
    case 1 => p.t3 || T3PllMciFlexspi in p.closed
    case 2 => !p.tcpu || TcpuMci in p.closed || p.aux0Halt
    case 3 => if p.three == FfroClk then !irc && (p.t3 || T3PllMciIrc in p.closed)
              else !p.tcpu || TcpuMciFlexspi in p.closed
    case 4 => p.t3 || T3PllMci213m in p.closed || p.aux1Halt
    case 5 => !p.tddr || TddrMciFlexspi in p.closed
    case 6 => false
    case _ => true
  }

  // The boot sequences stop a clock: that of the core, which moves to a system oscillator that is
  // not there; that of the core or of the flash, which depends on T3; or that of the flash, which
  // they put to work although its divider is halted or its source is dead.
  predicate BootStopsClock(p: Power, m: Muxes, irc: bool) {
    m.bypass > 1 || NeedsT3(p, m) || p.flexspiHalt || DeadAfterRestart(p, m, irc)
  }

  // What of it shows before the core runs from its PLL again: a halted divider does not, when the
  // flash already has the source and the divider it is to be moved to.
  predicate BootStopsEarly(p: Power, m: Muxes, irc: bool, inPlace: bool) {
    m.bypass > 1 || NeedsT3(p, m) || (p.flexspiHalt && !inPlace) || DeadAfterRestart(p, m, irc)
  }

  // The gates that matter, after some more are closed.
  predicate GatesClosed(p: Power, q: set<Gate>, t3: bool, tcpu: bool, tddr: bool) {
    && (T3PllMciIrc in q <==> t3 || T3PllMciIrc in p.closed)
    && (T3PllMci256m in q <==> t3 || T3PllMci256m in p.closed)
    && (T3PllMci213m in q <==> t3 || T3PllMci213m in p.closed)
    && (T3PllMciFlexspi in q <==> t3 || T3PllMciFlexspi in p.closed)
    && (TcpuMci in q <==> tcpu || TcpuMci in p.closed)
    && (TcpuMciFlexspi in q <==> tcpu || TcpuMciFlexspi in p.closed)
    && (TddrMciFlexspi in q <==> tddr || TddrMciFlexspi in p.closed)
  }

  lemma ClosedGates(p: Power)
    ensures GatesClosed(p, p.closed + T3_GATES, true, false, false)
    ensures GatesClosed(p, p.closed + TCPU_GATES, false, true, false)
    ensures GatesClosed(p, p.closed + TDDR_GATES, false, false, true)
  {
  }

  lemma ClosingT3(p: Power, m: Muxes, q: set<Gate>, on: bool)
    requires GatesClosed(p, q, true, false, false) && p.t3
    ensures NeedsT3(p, m) ==> !Fed(p.(closed := q, t3 := on), m)
    ensures Fed(p, m) && !NeedsT3(p, m) ==> Fed(p.(closed := q, t3 := on), m)
  {
  }

  lemma ClosingTcpu(p: Power, m: Muxes, q: set<Gate>, on: bool)
    requires GatesClosed(p, q, false, true, false) && (on ==> p.tcpu)
    ensures Fed(p, m) && !NeedsTcpu(p, m) ==> Fed(p.(closed := q, tcpu := on), m)
  {
  }

  lemma ClosingTddr(p: Power, m: Muxes, q: set<Gate>, on: bool)
    requires GatesClosed(p, q, false, false, true) && (on ==> p.tddr)
    ensures Fed(p, m) && !NeedsTddr(p, m) ==> Fed(p.(closed := q, tddr := on), m)
  {
  }

  lemma WithoutT3(p: Power, m: Muxes)
    requires p.t3
    ensures NeedsT3(p, m) ==> !Fed(p.(closed := p.closed + T3_GATES), m)
    ensures Fed(p, m) && !NeedsT3(p, m) ==> Fed(p.(closed := p.closed + T3_GATES), m) && Fed(T3Off(p), m)
  {
    ClosedGates(p);
    ClosingT3(p, m, p.closed + T3_GATES, true);
    ClosingT3(p, m, p.closed + T3_GATES, false);
  }

  lemma WithoutTcpu(p: Power, m: Muxes)
    ensures Fed(p, m) && !NeedsTcpu(p, m) ==> Fed(p.(closed := p.closed + TCPU_GATES), m) && Fed(TcpuOff(p), m)
  {
    ClosedGates(p);
    ClosingTcpu(p, m, p.closed + TCPU_GATES, p.tcpu);
    ClosingTcpu(p, m, p.closed + TCPU_GATES, false);
  }

  lemma WithoutTddr(p: Power, m: Muxes)
    ensures Fed(p, m) && !NeedsTddr(p, m) ==> Fed(p.(closed := p.closed + TDDR_GATES), m) && Fed(TddrOff(p), m)
  {
    ClosedGates(p);
    ClosingTddr(p, m, p.closed + TDDR_GATES, p.tddr);
    ClosingTddr(p, m, p.closed + TDDR_GATES, false);
  }

  lemma NeededT3Runs(p: Power, m: Muxes)
    ensures Fed(p, m) && NeedsT3(p, m) ==> p.t3
  {
  }

  lemma T3On(p: Power, m: Muxes)
    ensures Fed(p, m) ==> Fed(p.(t3 := true), m)
  {
  }

  lemma TcpuOn(p: Power, m: Muxes)
    ensures Fed(p, m) ==> Fed(p.(tcpu := true), m)
  {
  }

  lemma TddrOn(p: Power, m: Muxes)
    ensures Fed(p, m) ==> Fed(p.(tddr := true), m)
  {
  }

  // Once its module is enabled the flash needs its clock.
  lemma PutToWork(p: Power, m: Muxes)
    ensures Fed(p.(flexspiGated := false, flexspiModule := true), m) <==> MainRuns(p, m) && FlexspiRuns(p, m)
    ensures Fed(p.(flexspiGated := false, flexspiModule := false), m) <==> MainRuns(p, m)
    ensures Fed(p, m) && FlexspiRuns(p, m) ==> Fed(p.(flexspiGated := false), m)
  {
  }

  // The core does not depend on the FlexSPI registers.
  lemma MainIndifferent(p: Power, m: Muxes, src: nat)
    ensures MainRuns(p, m.(flexspi := src)) == MainRuns(p, m)
  {
  }

  // Nor do the sources depend on what the flash makes of them.
  lemma SourcesIndifferent(p: Power, m: Muxes, halt: bool, gated: bool, enabled: bool)
    ensures var q := p.(flexspiHalt := halt, flexspiGated := gated, flexspiModule := enabled);
      MainRuns(q, m) == MainRuns(p, m) && FlexspiSourceRuns(q, m) == FlexspiSourceRuns(p, m)
  {
  }

  // While the flash is not in use its mux is free.
  lemma IdleFlash(p: Power, m: Muxes, src: nat)
    requires !FlexspiInUse(p)
    ensures Fed(p, m.(flexspi := src)) == MainRuns(p, m) == Fed(p, m)
  {
    MainIndifferent(p, m, src);
  }

  // The gates after T3 is restarted.
  predicate GatesRestarted(p: Power, q: set<Gate>, irc: bool) {
    && T3PllMci256m !in q
    && (T3PllMciIrc in q <==> !irc && (p.t3 || T3PllMciIrc in p.closed))
    && (T3PllMci213m in q <==> p.t3 || T3PllMci213m in p.closed)
    && (T3PllMciFlexspi in q <==> p.t3 || T3PllMciFlexspi in p.closed)
    && (TcpuMci in q <==> TcpuMci in p.closed)
    && (TcpuMciFlexspi in q <==> TcpuMciFlexspi in p.closed)
    && (TddrMciFlexspi in q <==> TddrMciFlexspi in p.closed)
  }

  lemma GatesAfterRestart(p: Power, irc: bool)
    ensures GatesRestarted(p, Reopened(Restarted(p), irc).closed, irc)
  {
  }

  lemma GatesReopened(p: Power, irc: bool)
    ensures var q := Reopened(Restarted(p), irc);
      (irc ==> T3PllMciIrc !in q.closed) && (RefClkSys in q.closed <==> RefClkSys in p.closed)
  {
  }

  lemma OnlyT3Changes(p: Power, irc: bool)
    ensures Reopened(Restarted(p), irc) == p.(t3 := true, closed := Reopened(Restarted(p), irc).closed)
  {
    if p.t3 { } else { }
  }

  lemma SourceAfterRestart(p: Power, m: Muxes, q: set<Gate>, irc: bool)
    requires Fed(p, m) && !MainOnT3(m) && GatesRestarted(p, q, irc)
    ensures FlexspiSourceRuns(p.(t3 := true, closed := q), m) <==> !DeadAfterRestart(p, m, irc)
  {
  }

  // After T3 is restarted the source of the flash runs unless it is dead.
  lemma AfterRestart(p: Power, m: Muxes, irc: bool)
    requires Fed(p, m)
    ensures var q := Reopened(Restarted(p), irc);
      && q.t3 && T3PllMci256m !in q.closed
      && (!MainOnT3(m) ==> (FlexspiSourceRuns(q, m) <==> !DeadAfterRestart(p, m, irc)))
  {
    GatesAfterRestart(p, irc);
    OnlyT3Changes(p, irc);
    if !MainOnT3(m) { SourceAfterRestart(p, m, Reopened(Restarted(p), irc).closed, irc); }
  }

  // The clock that a divider divides runs; the wait for the divider ends only then. `audio` stands
  // for the first channel of the audio PLL. Dividers that no boot sequence sets are not looked into.
  predicate DivClocked(p: Power, m: Muxes, d: Div, audio: bool) {
    match d
    case SysCpuAhb => MainRuns(p, m)
    case MainPll => p.tcpu && TcpuMci !in p.closed
    case Aux0Pll => p.tcpu && TcpuMci !in p.closed
    case Aux1Pll => p.t3 && T3PllMci213m !in p.closed
    case Flexspi => FlexspiSourceRuns(p, m)
    case OtherDiv(bank, offset) =>
      if bank == Clkctl1 && offset == 0x6FC then p.tcpu && TcpuMci !in p.closed && !p.mainPllHalt
      else if bank == Clkctl1 && offset == 0x240 then audio
      else if bank == Clkctl0 && (offset == 0x764 || offset == 0x780) then MainRuns(p, m)
      else true
  }

  // The common start of the boot sequences, put together.
  lemma StartVerdict(p: Power, m: Muxes, irc: bool, inPlace: bool)
    requires Fed(p, m) && (inPlace ==> m.flexspi == 6)
    ensures var q := Reopened(Restarted(p), irc);
      && q.t3 && T3PllMci256m !in q.closed && SameFlash(q, p)
      && FlexspiSourceRuns(q, m.(flexspi := 6))
      && (BootStopsEarly(p, m, irc, inPlace)
          <==> m.bypass > 1 || NeedsT3(p, m) || !(inPlace || FlexspiRuns(q, m)))
  {
    AfterRestart(p, m, irc);
    OnlyT3Changes(p, irc);
  }

  // What the PLLs have no part in: the flash and the main PLL divider.
  predicate SameFlash(p: Power, q: Power) {
    && p.flexspiHalt == q.flexspiHalt && p.flexspiGated == q.flexspiGated && p.flexspiModule == q.flexspiModule
    && p.mainPllHalt == q.mainPllHalt
  }

  // The core on the system oscillator, and the flash on T3 256M or stopped.
  predicate Started(p: Power, m: Muxes, xip: bool) {
    && p.t3 && T3PllMci256m !in p.closed
    && m.selA == 0 && m.selB == 0
    && m.flexspi == (if xip then 6 else 7)
  }

  // The main and the auxiliary PLL clock can be used.
  predicate PllOpen(p: Power) { p.tcpu && TcpuMci !in p.closed && !p.mainPllHalt && !p.aux0Halt }

  // The flash is on T3 256M or stopped.
  predicate T3Open(p: Power, m: Muxes, xip: bool) {
    p.t3 && T3PllMci256m !in p.closed && m.flexspi == if xip then 6 else 7
  }

  predicate Ready(p: Power, m: Muxes, xip: bool) { PllOpen(p) && Started(p, m, xip) }

  lemma NoFlexspi(p: Power, m: Muxes)
    ensures AfterAll(m, Writes(NONE_TO_FLEXSPI_CLK)) == m.(flexspi := 7)
    ensures Fed(p, m) && !p.flexspiModule ==> FedThrough(p, m, Writes(NONE_TO_FLEXSPI_CLK))
  {
    NoneToFlexspi();
    assert Writes(NONE_TO_FLEXSPI_CLK)[1..] == [];
  }

  // The core moves to the system oscillator safely exactly when there is one.
  lemma SysOscAttached(p: Power, m: Muxes)
    ensures AfterAll(m, Writes(SYSOSC_TO_MAIN_CLK)) == m.(selA := 0, selB := 0)
    ensures Fed(p, m) ==> (FedThrough(p, m, Writes(SYSOSC_TO_MAIN_CLK)) <==> m.bypass <= 1)
  {
    SysOscToMain();
    assert Writes(SYSOSC_TO_MAIN_CLK)[1..] == [MuxWrite(Clkctl0, 0x434, 0)];
  }

  lemma PllAttached(p: Power, m: Muxes)
    ensures AfterAll(m, Writes(MAIN_PLL_TO_MAIN_CLK)) == m.(selB := 2)
    ensures Fed(p, m) && PllOpen(p) && (m.flexspi == 6 || m.flexspi == 7) ==>
      FedThrough(p, m, Writes(MAIN_PLL_TO_MAIN_CLK))
  {
    MainPllToMain();
    assert Writes(MAIN_PLL_TO_MAIN_CLK)[1..] == [];
  }

  // A connection of one mux that feeds neither the core nor the flash.
  lemma SlowAttached(p: Power, m: Muxes, w: MuxWrite)
    requires w.bank == Pmu || (w.bank == Clkctl0 && w.offset == 0x760)
    ensures AfterAll(m, [w]) == m.(others := m.others[(w.bank, w.offset) := w.sel])
    ensures Fed(p, m) ==> FedThrough(p, m, [w])
  {
    assert [w][1..] == [];
  }

  // A core on the main PLL and a flash on the auxiliary one, with SYSOSCBYPASS at 7: nothing
  // depends on T3, yet no state of the PLLs keeps the core going once it is moved to the oscillator.
  lemma NoOscillator(irc: bool)
    ensures var p, m := Power(true, true, false, {}, false, false, false, false, false, true, TcpuFlexspiClk),
                        Muxes(7, 0, 2, 2, map[]);
      && Fed(p, m) && !NeedsT3(p, m) && !DeadAfterRestart(p, m, irc)
      && BootStopsClock(p, m, irc)
      && forall q: Power :: !Fed(q, AfterAll(m, Writes(SYSOSC_TO_MAIN_CLK)))
  {
    SysOscAttached(Power(true, true, false, {}, false, false, false, false, false, true, TcpuFlexspiClk),
                   Muxes(7, 0, 2, 2, map[]));
  }

  // A core on the low-power oscillator and a flash gated on TDDR, which is off.
  lemma GatedOnDeadSource(irc: bool)
    ensures var p, m := Power(true, false, false, {}, false, false, false, false, true, false, TcpuFlexspiClk),
                        Muxes(0, 2, 0, 5, map[]);
      && Fed(p, m) && !NeedsT3(p, m)
      && BootStopsClock(p, m, irc)
      && !Fed(p.(flexspiGated := false, flexspiModule := true), m)
  {
  }

  // A flash gated and without a source, as every boot leaves it when no code runs from it.
  lemma GatedOnNothing(irc: bool)
    ensures var p, m := Power(true, true, false, {}, false, false, false, false, true, false, TcpuFlexspiClk),
                        Muxes(0, 0, 2, 7, map[]);
      && Fed(p, m) && !NeedsT3(p, m)
      && BootStopsClock(p, m, irc)
      && !Fed(p.(flexspiGated := false, flexspiModule := true), m)
  {
  }

  // A gated flash on the auxiliary PLL whose own divider is halted.
  lemma GatedOnHaltedDivider(irc: bool)
    ensures var p, m := Power(true, true, false, {}, false, false, false, true, true, false, TcpuFlexspiClk),
                        Muxes(0, 0, 2, 2, map[]);
      && Fed(p, m) && !NeedsT3(p, m) && FlexspiSourceRuns(p, m) && !DeadAfterRestart(p, m, irc)
      && BootStopsClock(p, m, irc)
      && !Fed(p.(flexspiGated := false, flexspiModule := true), m)
  {
  }
}
