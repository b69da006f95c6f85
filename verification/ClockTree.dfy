// Frequencies of the clock tree: the getters of drivers/fsl_clock.c and drivers/fsl_clock.h, their
// counterparts in device/system_RW612.c, and the choice of the TCPU feedback divider.

module ClockTree {
  import opened Arithmetic

  datatype Option<T> = None | Some(value: T)

  datatype Crystal = Mhz40 | Mhz38p4

  function CrystalHz(x: Crystal): nat { if x == Mhz40 then 40_000_000 else 38_400_000 }

  const CLK_EXT_CLKIN: nat := 0
  const CLK_RTC_32K_CLK: nat := 32_768

  // The registers and fields the getters read. A divider field holds one less than the divisor.
  datatype Registers = Registers(bypass: nat, tune: nat, fbDiv: nat, mainPllDiv: nat,
                                 selA: nat, selB: nat, ahbDiv: nat)

  // The feedback dividers that TCPU supports.
  predicate LegalStep(x: Crystal, s: nat) { if x == Mhz40 then 75 <= s <= 96 else 78 <= s <= 100 }

  ghost predicate NearestStep(x: Crystal, targetHz: nat, steps: nat) {
    && LegalStep(x, steps)
    && forall s: nat | LegalStep(x, s) ::
         Distance(steps * CrystalHz(x), targetHz) <= Distance(s * CrystalHz(x), targetHz)
  }

  function Distance(a: nat, b: nat): nat { if a < b then b - a else a - b }

  // The computation of CLOCK_CfgTcpuRefClk: of all legal feedback dividers the one whose
  // frequency is nearest to the target, for any 32-bit target, with nothing lost to wrap-around.
  method ChooseTcpuStep(x: Crystal, targetHz: nat) returns (freq: nat, steps: nat)
    requires targetHz < 0x1_0000_0000
    ensures NearestStep(x, targetHz, steps) && freq == steps * CrystalHz(x)
    ensures TcpuFvcoFreq(x, steps) == Some(freq)
  {
    ghost var clamped: nat;
    if x == Mhz40 {
      freq := if targetHz > 3_000_000_000 then targetHz else 3_000_000_000;
      freq := if freq < 3_840_000_000 then freq else 3_840_000_000;
      clamped := freq;
      Steps40(freq);
      steps := Wrap(Wrap(freq + 20_000_000) - 3_000_000_000) / 40_000_000;
      freq := Wrap(3_000_000_000 + Wrap(steps * 40_000_000));
      steps := Wrap(steps + 75);
    } else {
      freq := if targetHz > 2_995_200_000 then targetHz else 2_995_200_000;
      freq := if freq < 3_840_000_000 then freq else 3_840_000_000;
      clamped := freq;
      Steps38(freq);
      steps := Wrap(Wrap(freq + 19_200_000) - 2_995_200_000) / 38_400_000;
      freq := Wrap(2_995_200_000 + Wrap(steps * 38_400_000));
      steps := Wrap(steps + 78);
    }
    IsNearest(x, targetHz, clamped, steps);
    ReadbackIsProduct(x, steps);
  }

  lemma IsNearest(x: Crystal, targetHz: nat, clamped: nat, steps: nat)
    requires Clamped(x, targetHz, clamped) && LegalStep(x, steps)
    requires Distance(steps * CrystalHz(x), clamped) * 2 <= CrystalHz(x)
    ensures NearestStep(x, targetHz, steps)
  {
    forall s: nat | LegalStep(x, s)
      ensures Distance(steps * CrystalHz(x), targetHz) <= Distance(s * CrystalHz(x), targetHz)
    {
      Nearest(x, targetHz, clamped, steps, s);
    }
  }

  // No intermediate value wraps, and rounding errs by half a step at most.
  lemma Steps40(freq: nat)
    requires 3_000_000_000 <= freq <= 3_840_000_000
    ensures var k := Wrap(Wrap(freq + 20_000_000) - 3_000_000_000) / 40_000_000;
      && k <= 21
      && Wrap(3_000_000_000 + Wrap(k * 40_000_000)) == (k + 75) * 40_000_000
      && Wrap(k + 75) == k + 75
      && 2 * Distance((k + 75) * 40_000_000, freq) <= 40_000_000
  {
    Fits(freq + 20_000_000);
    Fits(freq - 2_980_000_000);
    var k := (freq - 2_980_000_000) / 40_000_000;
    assert 0 <= k <= 21;
    Fits(k * 40_000_000);
    Fits(3_000_000_000 + k * 40_000_000);
    Fits(k + 75);
  }

  lemma Steps38(freq: nat)
    requires 2_995_200_000 <= freq <= 3_840_000_000
    ensures var k := Wrap(Wrap(freq + 19_200_000) - 2_995_200_000) / 38_400_000;
      && k <= 22
      && Wrap(2_995_200_000 + Wrap(k * 38_400_000)) == (k + 78) * 38_400_000
      && Wrap(k + 78) == k + 78
      && 2 * Distance((k + 78) * 38_400_000, freq) <= 38_400_000
  {
    Fits(freq + 19_200_000);
    Fits(freq - 2_976_000_000);
    var k := (freq - 2_976_000_000) / 38_400_000;
    assert 0 <= k <= 22;
    Fits(k * 38_400_000);
    Fits(2_995_200_000 + k * 38_400_000);
    Fits(k + 78);
  }

  lemma Fits(v: nat)
    requires v < 0x1_0000_0000
    ensures Wrap(v) == v
  {
  }

  predicate Clamped(x: Crystal, targetHz: nat, clamped: nat) {
    var low := if x == Mhz40 then 3_000_000_000 else 2_995_200_000;
    clamped == if targetHz < low then low else if targetHz > 3_840_000_000 then 3_840_000_000 else targetHz
  }

  lemma Nearest(x: Crystal, targetHz: nat, clamped: nat, steps: nat, s: nat)
    requires Clamped(x, targetHz, clamped)
    requires LegalStep(x, steps) && LegalStep(x, s)
    requires Distance(steps * CrystalHz(x), clamped) * 2 <= CrystalHz(x)
    ensures Distance(steps * CrystalHz(x), targetHz) <= Distance(s * CrystalHz(x), targetHz)
  {
    if x == Mhz40 { } else { }
  }

  // The driver's getters; None where an assertion fails.

  function TcpuFvcoFreq(x: Crystal, fbDiv: nat): Option<nat> {
    if x == Mhz40 && 75 <= fbDiv <= 96 then Some(3_000_000_000 + (fbDiv - 75) * 40_000_000)
    else if x == Mhz38p4 && 78 <= fbDiv <= 100 then Some(2_995_200_000 + (fbDiv - 78) * 38_400_000)
    else None
  }

  // The readback is divider times crystal, and passes exactly for the legal dividers.
  lemma ReadbackIsProduct(x: Crystal, fbDiv: nat)
    ensures TcpuFvcoFreq(x, fbDiv) == if LegalStep(x, fbDiv) then Some(fbDiv * CrystalHz(x)) else None
  {
  }

  function T3IrcFreq(tune: nat): Option<nat> {
    if tune % 16 == 5 then Some(2_560_000_000 / 43)
    else if tune % 16 == 10 then Some(2_560_000_000 / 53)
    else None
  }

  function Quotient(a: nat, b: nat): nat
    requires b > 0
  {
    a / b
  }

  function Over(freq: Option<nat>, divisor: nat): Option<nat>
    requires divisor > 0
  {
    match freq case None => None case Some(f) => Some(Quotient(f, divisor))
  }

  function MainPllClkFreq(x: Crystal, r: Registers): Option<nat> {
    Over(Over(TcpuFvcoFreq(x, r.fbDiv), 12), r.mainPllDiv + 1)
  }

  function SysOscFreq(x: Crystal, clkin: nat, bypass: nat): nat {
    if bypass == 0 then CrystalHz(x) else if bypass == 1 then clkin else 0
  }

  function MainClkFreq(x: Crystal, clkin: nat, r: Registers): Option<nat> {
    match r.selB
    case 0 => (
      match r.selA
      case 0 => Some(SysOscFreq(x, clkin, r.bypass))
      case 1 => Over(T3IrcFreq(r.tune), 4)
      case 2 => Some(CrystalHz(x) / 40)
      case 3 => T3IrcFreq(r.tune)
      case _ => Some(0))
    case 1 => Some(256_000_000 / 16)
    case 2 => MainPllClkFreq(x, r)
    case 3 => Some(CLK_RTC_32K_CLK)
    case _ => Some(0)
  }

  // CLOCK_GetCoreSysClkFreq with g_clkinFreq == clkin.
  function CoreSysClkFreq(x: Crystal, clkin: nat, r: Registers): Option<nat> {
    Over(MainClkFreq(x, clkin, r), r.ahbDiv + 1)
  }

  // What the main clock runs from.
  datatype Source = Oscillator | Clkin | QuarterFfro | LpOsc | Ffro | Sfro | TcpuPll | Rtc | Nothing

  function SourceOf(r: Registers): Source {
    if r.selB == 1 then Sfro
    else if r.selB == 2 then TcpuPll
    else if r.selB == 3 then Rtc
    else if r.selB > 3 || r.selA > 3 then Nothing
    else if r.selA == 1 then QuarterFfro
    else if r.selA == 2 then LpOsc
    else if r.selA == 3 then Ffro
    else if r.bypass == 0 then Oscillator
    else if r.bypass == 1 then Clkin
    else Nothing
  }

  // The rate of each: FFRO at 2560 / 43 or 2560 / 53 MHz, the low-power oscillator at 1 MHz from a 40 MHz
  // crystal, SFRO at 16 MHz, the RTC clock at 32 768 Hz.
  predicate RunsAt(x: Crystal, clkin: nat, r: Registers, rate: Option<nat>) {
    match SourceOf(r)
    case Oscillator => rate == Some(if x == Mhz40 then 40_000_000 else 38_400_000)
    case Clkin => rate == Some(clkin)
    case QuarterFfro => rate == TunedTo(r.tune, 14_883_720, 12_075_471)
    case LpOsc => rate == Some(if x == Mhz40 then 1_000_000 else 960_000)
    case Ffro => rate == TunedTo(r.tune, 59_534_883, 48_301_886)
    case Sfro => rate == Some(16_000_000)
    case TcpuPll =>
      rate == if LegalStep(x, r.fbDiv) then Some(r.fbDiv * CrystalHz(x) / 12 / (r.mainPllDiv + 1)) else None
    case Rtc => rate == Some(32_768)
    case Nothing => rate == Some(0)
  }

  function TunedTo(tune: nat, fast: nat, slow: nat): Option<nat> {
    if tune % 16 == 5 then Some(fast) else if tune % 16 == 10 then Some(slow) else None
  }

  lemma MainClockRates(x: Crystal, clkin: nat, r: Registers)
    ensures RunsAt(x, clkin, r, MainClkFreq(x, clkin, r))
  {
    ReadbackIsProduct(x, r.fbDiv);
  }

  // The second implementation, in system_RW612.c, does not assert.

  function GetTcpuFvcoFreq(x: Crystal, fbDiv: nat): nat {
    if x == Mhz40 && 75 <= fbDiv <= 96 then 3_000_000_000 + (fbDiv - 75) * 40_000_000
    else if x == Mhz38p4 && 78 <= fbDiv <= 100 then 2_995_200_000 + (fbDiv - 78) * 38_400_000
    else 0
  }

  function GetT3IrcFreq(tune: nat): nat {
    if tune % 16 == 5 then 2_560_000_000 / 43 else if tune % 16 == 10 then 2_560_000_000 / 53 else 0
  }

  // What SystemCoreClockUpdate assigns to SystemCoreClock.
  function UpdatedCoreClock(x: Crystal, r: Registers): nat {
    var freq := match r.selB
      case 0 => (
        match r.selA
        case 0 => if r.bypass == 0 then CrystalHz(x) else if r.bypass == 1 then CLK_EXT_CLKIN else 0
        case 1 => GetT3IrcFreq(r.tune) / 4
        case 2 => CrystalHz(x) / 40
        case 3 => GetT3IrcFreq(r.tune)
        case _ => 0)
      case 1 => 256_000_000 / 16
      case 2 => Quotient(GetTcpuFvcoFreq(x, r.fbDiv) / 12, r.mainPllDiv + 1)
      case 3 => CLK_RTC_32K_CLK
      case _ => 0;
    Quotient(freq, r.ahbDiv + 1)
  }

  // The core runs from the CLKIN pin.
  predicate RunsFromClkin(r: Registers) { r.selB == 0 && r.selA == 0 && r.bypass == 1 }

  // Where the driver's assertions pass, the two implementations agree, unless the core runs from
  // a CLKIN whose declared frequency does not round like CLK_EXT_CLKIN.
  lemma ImplementationsAgree(x: Crystal, clkin: nat, r: Registers)
    requires CoreSysClkFreq(x, clkin, r).Some?
    ensures CoreSysClkFreq(x, clkin, r) == Some(UpdatedCoreClock(x, r))
       <==> (RunsFromClkin(r) ==> clkin / (r.ahbDiv + 1) == CLK_EXT_CLKIN / (r.ahbDiv + 1))
  {
    if r.selB == 2 { PllPathAgrees(x, r); }
  }

  lemma PllPathAgrees(x: Crystal, r: Registers)
    requires TcpuFvcoFreq(x, r.fbDiv).Some?
    ensures MainPllClkFreq(x, r) == Some(Quotient(GetTcpuFvcoFreq(x, r.fbDiv) / 12, r.mainPllDiv + 1))
  {
  }

  // So with g_clkinFreq left at CLK_EXT_CLKIN they always agree.
  lemma AgreeOnDeclaredClkin(x: Crystal, r: Registers)
    requires CoreSysClkFreq(x, CLK_EXT_CLKIN, r).Some?
    ensures CoreSysClkFreq(x, CLK_EXT_CLKIN, r) == Some(UpdatedCoreClock(x, r))
  {
    ImplementationsAgree(x, CLK_EXT_CLKIN, r);
  }

  // On the PLL path three truncating divisions lose no more than one.
  lemma PllPathRoundsOnce(x: Crystal, clkin: nat, r: Registers)
    requires r.selB == 2 && LegalStep(x, r.fbDiv)
    ensures CoreSysClkFreq(x, clkin, r)
         == Some(r.fbDiv * CrystalHz(x) / (12 * (r.mainPllDiv + 1) * (r.ahbDiv + 1)))
  {
    var fvco, d, e := r.fbDiv * CrystalHz(x), r.mainPllDiv + 1, r.ahbDiv + 1;
    ReadbackIsProduct(x, r.fbDiv);
    DivDiv(fvco, 12, d);
    DivDiv(fvco, 12 * d, e);
  }
}
