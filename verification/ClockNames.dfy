// The 32-bit numbers that name clock connections and dividers (drivers/fsl_clock.h).
module ClockNames {
  import opened Arithmetic

  // The connections and the dividers of the boot sequences.
  const SYSOSC_TO_MAIN_CLK: nat := 0x0434_0430
  const MAIN_PLL_TO_MAIN_CLK: nat := 0x2434
  const NONE_TO_FLEXSPI_CLK: nat := 0x7620
  const RC32K_TO_CLK32K: nat := 0x0071
  const SYSTICK_DIV_TO_SYSTICK_CLK: nat := 0x0760
  const DIV_MAIN_PLL_CLK: nat := 0x0240
  const DIV_AUX0_PLL_CLK: nat := 0x0248
  const DIV_SYS_CPU_AHB_CLK: nat := 0x0400
  const DIV_SYSTICK_CLK: nat := 0x0764
  const DIV_PMU_FCLK: nat := 0x0780
  const DIV_AUDIO_PLL_CLK: nat := 0x8240
  const DIV_PLL_FRG_CLK: nat := 0x86FC

  datatype Bank = Clkctl0 | Clkctl1 | Pmu | Clkout

  datatype MuxWrite = MuxWrite(bank: Bank, offset: nat, sel: nat)

  predicate IsRegister(reg: nat) { 0 < reg < 0x1000 && reg % 4 == 0 }

  // CLKCTL0_TUPLE_MUXA and CLKCTL1_TUPLE_MUXA: 16 bits of register offset, choice and bank.
  function Tuple(w: MuxWrite): nat {
    w.offset + w.sel * 0x1000 + if w.bank == Clkctl1 then 0x8000 else 0
  }

  predicate IsTuple(w: MuxWrite) {
    (w.bank == Clkctl0 || w.bank == Clkctl1) && IsRegister(w.offset) && w.sel < 8
  }

  // A connection of two tuples, the second as CLKCTL0_TUPLE_MUXB shifts it.
  function Pair(first: nat, second: nat): nat { first + second * 0x1_0000 }

  function Offset(tuple: nat): nat { tuple % 0x1000 - tuple % 4 }

  function Decoded(tuple: nat): MuxWrite {
    MuxWrite(if (tuple / 0x8000) % 2 == 1 then Clkctl1 else Clkctl0, Offset(tuple), (tuple / 0x1000) % 8)
  }

  // What a connection stands for, from its two halves.
  function WritesOf(low: nat, high: nat): seq<MuxWrite> {
    if low % 2 == 1 then [MuxWrite(Pmu, Offset(low), (low / 0x1000) % 4)]
    else if (low / 2) % 2 == 1 then
      [MuxWrite(Clkout, 0, (low / 0x10) % 8), MuxWrite(Clkout, 1, (low / 0x100) % 8),
       MuxWrite(Clkout, 2, (low / 0x1000) % 8)]
    else if Offset(low) == 0 then []
    else if Offset(high) == 0 then [Decoded(low)]
    else [Decoded(low), Decoded(high)]
  }

  function Writes(connection: nat): seq<MuxWrite> {
    WritesOf(connection % 0x1_0000, connection / 0x1_0000)
  }

  // A tuple decodes to what it was made of.
  lemma TupleDecodes(w: MuxWrite)
    requires IsTuple(w)
    ensures Decoded(Tuple(w)) == w
    ensures Tuple(w) < 0x1_0000 && Tuple(w) % 4 == 0 && Offset(Tuple(w)) > 0
  {
    var t := Tuple(w);
    var flag := if w.bank == Clkctl1 then 1 else 0;
    DivisionIs(t, 0x8000, flag, w.offset + w.sel * 0x1000);
    DivisionIs(t, 0x1000, w.sel + flag * 8, w.offset);
    DivisionIs(t, 4, w.offset / 4 + w.sel * 0x400 + flag * 0x2000, 0);
    DivisionIs(w.sel + flag * 8, 8, flag, w.sel);
  }

  lemma Halves(low: nat, high: nat)
    requires low < 0x1_0000
    ensures Pair(low, high) % 0x1_0000 == low && Pair(low, high) / 0x1_0000 == high
  {
    DivisionIs(Pair(low, high), 0x1_0000, high, low);
  }

  lemma NoFlags(low: nat, high: nat)
    requires low % 4 == 0 && Offset(low) > 0
    ensures WritesOf(low, high) == if Offset(high) == 0 then [Decoded(low)] else [Decoded(low), Decoded(high)]
  {
    DivisionIs(low, 2, low / 4 * 2, 0);
    DivisionIs(low / 2, 2, low / 4, 0);
  }

  // A connection of one tuple, or of any pair, stands for exactly those writes, in order.
  lemma PairDecodes(first: MuxWrite, second: MuxWrite)
    requires IsTuple(first) && IsTuple(second)
    ensures Writes(Pair(Tuple(first), Tuple(second))) == [first, second]
  {
    TupleDecodes(first);
    TupleDecodes(second);
    Halves(Tuple(first), Tuple(second));
    NoFlags(Tuple(first), Tuple(second));
  }

  lemma SingleDecodes(first: MuxWrite)
    requires IsTuple(first)
    ensures Writes(Tuple(first)) == [first]
  {
    TupleDecodes(first);
    Halves(Tuple(first), 0);
    NoFlags(Tuple(first), 0);
  }

  // PMU_TUPLE_MUX.
  lemma PmuDecodes(reg: nat, choice: nat)
    requires IsRegister(reg) && choice < 4
    ensures Writes(reg + choice * 0x1000 + 1) == [MuxWrite(Pmu, reg, choice)]
  {
    var low := reg + choice * 0x1000 + 1;
    Halves(low, 0);
    DivisionIs(low, 0x1000, choice, reg + 1);
    DivisionIs(low, 4, reg / 4 + choice * 0x400, 1);
    DivisionIs(low, 2, reg / 4 * 2 + choice * 0x800, 1);
  }

  // CLKOUT_TUPLE_MUX.
  lemma ClkoutDecodes(a: nat, b: nat, c: nat)
    requires a < 8 && b < 8 && c < 8
    ensures Writes(2 + a * 0x10 + b * 0x100 + c * 0x1000)
         == [MuxWrite(Clkout, 0, a), MuxWrite(Clkout, 1, b), MuxWrite(Clkout, 2, c)]
  {
    ClkoutFields(2 + a * 0x10 + b * 0x100 + c * 0x1000, a, b, c);
    Halves(2 + a * 0x10 + b * 0x100 + c * 0x1000, 0);
  }

  lemma ClkoutFields(low: nat, a: nat, b: nat, c: nat)
    requires a < 8 && b < 8 && c < 8 && low == 2 + a * 0x10 + b * 0x100 + c * 0x1000
    ensures low % 2 == 0 && (low / 2) % 2 == 1
    ensures (low / 0x10) % 8 == a && (low / 0x100) % 8 == b && (low / 0x1000) % 8 == c
  {
    DivisionIs(low, 2, 1 + a * 8 + b * 0x80 + c * 0x800, 0);
    DivisionIs(low / 2, 2, a * 4 + b * 0x40 + c * 0x400, 1);
    DivisionIs(low, 0x10, a + b * 0x10 + c * 0x100, 2);
    DivisionIs(low, 0x100, b + c * 0x10, 2 + a * 0x10);
    DivisionIs(low, 0x1000, c, 2 + a * 0x10 + b * 0x100);
    DivisionIs(a + b * 0x10 + c * 0x100, 8, b * 2 + c * 0x20, a);
    DivisionIs(b + c * 0x10, 8, c * 2, b);
  }

  // The connections of the boot sequences.

  lemma SysOscToMain()
    ensures Writes(SYSOSC_TO_MAIN_CLK) == [MuxWrite(Clkctl0, 0x430, 0), MuxWrite(Clkctl0, 0x434, 0)]
  {
    PairDecodes(MuxWrite(Clkctl0, 0x430, 0), MuxWrite(Clkctl0, 0x434, 0));
  }

  lemma MainPllToMain()
    ensures Writes(MAIN_PLL_TO_MAIN_CLK) == [MuxWrite(Clkctl0, 0x434, 2)]
  {
    SingleDecodes(MuxWrite(Clkctl0, 0x434, 2));
  }

  lemma NoneToFlexspi()
    ensures Writes(NONE_TO_FLEXSPI_CLK) == [MuxWrite(Clkctl0, 0x620, 7)]
  {
    SingleDecodes(MuxWrite(Clkctl0, 0x620, 7));
  }

  lemma SlowClocks()
    ensures Writes(RC32K_TO_CLK32K) == [MuxWrite(Pmu, 0x70, 0)]
    ensures Writes(SYSTICK_DIV_TO_SYSTICK_CLK) == [MuxWrite(Clkctl0, 0x760, 0)]
  {
    PmuDecodes(0x70, 0);
    SingleDecodes(MuxWrite(Clkctl0, 0x760, 0));
  }

  // The muxes: those that matter here by name, the others by address.
  datatype Muxes = Muxes(bypass: nat, selA: nat, selB: nat, flexspi: nat, others: map<(Bank, nat), nat>)

  function After(m: Muxes, w: MuxWrite): Muxes {
    if w.bank != Clkctl0 then m.(others := m.others[(w.bank, w.offset) := w.sel])
    else match w.offset
      case 0x168 => m.(bypass := w.sel)
      case 0x430 => m.(selA := w.sel)
      case 0x434 => m.(selB := w.sel)
      case 0x620 => m.(flexspi := w.sel)
      case _ => m.(others := m.others[(w.bank, w.offset) := w.sel])
  }

  function AfterAll(m: Muxes, ws: seq<MuxWrite>): Muxes
    decreases |ws|
  {
    if ws == [] then m else AfterAll(After(m, ws[0]), ws[1..])
  }

  // The dividers, likewise.
  datatype Div = SysCpuAhb | MainPll | Aux0Pll | Aux1Pll | Flexspi | OtherDiv(bank: Bank, offset: nat)

  function DivAt(bank: Bank, offset: nat): Div {
    if bank != Clkctl0 then OtherDiv(bank, offset)
    else match offset
      case 0x240 => MainPll
      case 0x248 => Aux0Pll
      case 0x24C => Aux1Pll
      case 0x400 => SysCpuAhb
      case 0x624 => Flexspi
      case _ => OtherDiv(bank, offset)
  }

  function DivNamed(name: nat): Div {
    var d := Decoded(name % 0x1_0000);
    DivAt(d.bank, d.offset)
  }

  lemma DivNameDecodes(bank: Bank, offset: nat)
    requires (bank == Clkctl0 || bank == Clkctl1) && IsRegister(offset)
    ensures DivNamed(Tuple(MuxWrite(bank, offset, 0))) == DivAt(bank, offset)
  {
    TupleDecodes(MuxWrite(bank, offset, 0));
    Halves(Tuple(MuxWrite(bank, offset, 0)), 0);
  }

  // A divider register: the 8-bit field, and bit 30.
  datatype Divider = Divider(div: nat, halted: bool)

  // CLOCK_SetClkDiv on one register.
  function DividerAfter(was: Divider, divider: nat): Divider {
    if divider == 0 then was.(halted := true)
    else Divider((divider - 1) % 0x100, ((divider - 1) / 0x4000_0000) % 2 == 1)
  }

  // Every divider that fits the field divides by itself and runs.
  lemma FittingDivider(was: Divider, divider: nat)
    requires 0 < divider <= 0x100
    ensures DividerAfter(was, divider) == Divider(divider - 1, false)
  {
  }
}
