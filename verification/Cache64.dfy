// CACHE64 maintenance (drivers/fsl_cache.c) over a two-way write-back cache.
//
// Hardware rules assumed here:
//  * each controller caches only lines of its own memory region, in two ways;
//  * the CSAR address drops bit 28, so the secure and the non-secure alias name one line;
//  * between any two register accesses the hardware may evict any line and fill any line;
//  * a started command completes after finitely many polls;
//  * a disabled controller neither fills nor serves lines, but keeps what it holds.

module Cache64Hardware {

  const LINES: nat := 0x0800_0000   // 32-byte lines in a 32-bit address space

  type Byte = bv8
  type LineData = d: seq<Byte> | |d| == 32 witness seq(32, _ => 0 as bv8)

  // What memory holds, and what it would hold without a cache.
  type Memory = m: seq<LineData> | |m| == LINES witness seq(LINES, _ => seq(32, _ => 0 as bv8))

  datatype CcrBit = Encache | Enwrbuf | Invw0 | Pushw0 | Invw1 | Pushw1 | Go
  datatype LineCmd = SearchReadWrite | InvalidateLine | PushLine | ClearLine
  datatype Entry = Entry(way1: bool, data: LineData, dirty: bool)
  datatype Ctrl = Ctrl(ccr: set<CcrBit>, lcmd: LineCmd, ladsel: bool, lines: map<nat, Entry>)
  datatype Hardware = Hardware(ctrl: seq<Ctrl>, mem: seq<LineData>)

  // Two controllers over one memory.
  type State = s: Hardware | |s.ctrl| == 2 && |s.mem| == LINES
    witness Hardware(seq(2, _ => Ctrl({}, SearchReadWrite, false, map[])), seq(LINES, _ => seq(32, _ => 0)))

  // The lines cached by controller i, as physical line numbers (bit 28 clear).
  predicate InRegion(i: nat, l: nat) {
    0x0040_0000 + i * 0x0100_0000 <= l < 0x0080_0000 + i * 0x0100_0000
  }

  predicate Enabled(s: State, i: nat)
    requires i < 2
  {
    Encache in s.ctrl[i].ccr
  }

  predicate Dirty(s: State, i: nat, l: nat)
    requires i < 2
  {
    l in s.ctrl[i].lines && s.ctrl[i].lines[l].dirty
  }

  // What the CPU sees in one line.
  function CpuLine(s: State, l: nat): LineData
    requires l < LINES
  {
    if Enabled(s, 0) && l in s.ctrl[0].lines then s.ctrl[0].lines[l].data
    else if Enabled(s, 1) && l in s.ctrl[1].lines then s.ctrl[1].lines[l].data
    else s.mem[l]
  }

  // `owned` are the lines lent to a DMA engine; {} means no DMA.
  predicate EntryOk(s: State, owned: set<nat>, i: nat, l: nat)
    requires i < 2 && l < LINES
  {
    l in s.ctrl[i].lines ==>
      && InRegion(i, l)
      && (Dirty(s, i, l) ==> Enabled(s, i) && l !in owned)
      && (!Dirty(s, i, l) && l !in owned && Enabled(s, i) ==> s.ctrl[i].lines[l].data == s.mem[l])
  }

  predicate LineOk(s: State, owned: set<nat>, l: nat)
    requires l < LINES
  {
    EntryOk(s, owned, 0, l) && EntryOk(s, owned, 1, l)
  }

  ghost predicate Inv(s: State, owned: set<nat>) {
    forall l: nat | l < LINES :: LineOk(s, owned, l)
  }

  // No cached copy of l differs from memory.
  predicate Synced(s: State, l: nat)
    requires l < LINES
  {
    && (l in s.ctrl[0].lines ==> !Dirty(s, 0, l) && s.ctrl[0].lines[l].data == s.mem[l])
    && (l in s.ctrl[1].lines ==> !Dirty(s, 1, l) && s.ctrl[1].lines[l].data == s.mem[l])
  }

  // Lines in `push` are written back if dirty; lines in `inv` are then dropped.
  function Maintain(s: State, i: nat, push: set<nat>, inv: set<nat>): (t: State)
    requires i < 2
  {
    var c := s.ctrl[i].lines;
    var mem := seq(LINES, l requires 0 <= l < LINES =>
      if l in push && Dirty(s, i, l) then c[l].data else s.mem[l]);
    var lines := map l | l in c && l !in inv :: c[l].(dirty := c[l].dirty && l !in push);
    Hardware(s.ctrl[i := s.ctrl[i].(lines := lines)], mem)
  }

  function Fill(s: State, i: nat, l: nat, way1: bool): State
    requires i < 2 && l < LINES
  {
    var c := s.ctrl[i];
    if Encache in c.ccr && l !in c.lines
    then s.(ctrl := s.ctrl[i := c.(lines := c.lines[l := Entry(way1, s.mem[l], false)])])
    else s
  }

  predicate SameRegisters(s: State, t: State) {
    && t.ctrl[0].(lines := map[]) == s.ctrl[0].(lines := map[])
    && t.ctrl[1].(lines := map[]) == s.ctrl[1].(lines := map[])
  }

  // What cache activity may do to one line. The CPU's view stays, except that a line in
  // `dropped` may fall back to memory; memory receives only what the CPU saw, and never on a
  // line lent to DMA; a line in sync with memory stays so; nothing becomes dirty; a disabled
  // controller takes no line.
  predicate KeptLine(s: State, t: State, owned: set<nat>, dropped: set<nat>, l: nat)
    requires l < LINES
  {
    && (l !in owned ==> CpuLine(t, l) == CpuLine(s, l) || (l in dropped && CpuLine(t, l) == s.mem[l]))
    && (t.mem[l] == s.mem[l] || (l !in owned && t.mem[l] == CpuLine(s, l)))
    && (Synced(s, l) ==> Synced(t, l) && t.mem[l] == s.mem[l])
    && (Dirty(t, 0, l) ==> Dirty(s, 0, l))
    && (Dirty(t, 1, l) ==> Dirty(s, 1, l))
    && (l in t.ctrl[0].lines && !Enabled(s, 0) ==> l in s.ctrl[0].lines)
    && (l in t.ctrl[1].lines && !Enabled(s, 1) ==> l in s.ctrl[1].lines)
  }

  ghost predicate Kept(s: State, t: State, owned: set<nat>, dropped: set<nat>) {
    && Enabled(t, 0) == Enabled(s, 0)
    && Enabled(t, 1) == Enabled(s, 1)
    && forall l: nat | l < LINES :: KeptLine(s, t, owned, dropped, l)
  }

  // Of this, what the CPU and memory show of one line.
  predicate ShownLine(s: State, t: State, owned: set<nat>, l: nat)
    requires l < LINES
  {
    && (l !in owned ==> CpuLine(t, l) == CpuLine(s, l))
    && (t.mem[l] == s.mem[l] || (l !in owned && t.mem[l] == CpuLine(s, l)))
  }

  ghost predicate Shown(s: State, t: State, owned: set<nat>) {
    forall l: nat | l < LINES :: ShownLine(s, t, owned, l)
  }

  lemma KeptShown(s: State, t: State, owned: set<nat>)
    requires Kept(s, t, owned, {})
    ensures Shown(s, t, owned)
  {
    forall l: nat | l < LINES ensures ShownLine(s, t, owned, l) { assert KeptLine(s, t, owned, {}, l); }
  }

  lemma KeptRefl(s: State, owned: set<nat>)
    ensures Kept(s, s, owned, {})
  {
  }

  lemma KeptTrans(a: State, b: State, c: State, owned: set<nat>, d: set<nat>, e: set<nat>, f: set<nat>)
    requires Kept(a, b, owned, d) && Kept(b, c, owned, e) && f == d + e
    ensures Kept(a, c, owned, f)
  {
    forall l: nat | l < LINES ensures KeptLine(a, c, owned, f, l) {
      assert KeptLine(a, b, owned, d, l) && KeptLine(b, c, owned, e, l);
    }
  }

  // Any push, and any drop of lines that are pushed or clean, keeps the CPU's view.
  lemma MaintainKeeps(s: State, i: nat, push: set<nat>, inv: set<nat>, owned: set<nat>)
    requires Inv(s, owned) && i < 2
    ensures var t := Maintain(s, i, push, inv);
      && Inv(t, owned)
      && SameRegisters(s, t)
      && Kept(s, t, owned, inv - push)
      && (forall l: nat | l < LINES && InRegion(i, l) && l in inv :: Synced(t, l))
      && (forall l: nat | l < LINES && l in push :: !Dirty(t, i, l))
  {
    var t := Maintain(s, i, push, inv);
    forall l: nat | l < LINES
      ensures LineOk(t, owned, l) && KeptLine(s, t, owned, inv - push, l)
      ensures InRegion(i, l) && l in inv ==> Synced(t, l)
    {
      assert LineOk(s, owned, l);
    }
  }

  lemma FillKeeps(s: State, i: nat, l: nat, way1: bool, owned: set<nat>)
    requires Inv(s, owned) && i < 2 && InRegion(i, l)
    ensures Inv(Fill(s, i, l, way1), owned)
    ensures SameRegisters(s, Fill(s, i, l, way1))
    ensures Kept(s, Fill(s, i, l, way1), owned, {})
  {
    forall k: nat | k < LINES
      ensures LineOk(Fill(s, i, l, way1), owned, k) && KeptLine(s, Fill(s, i, l, way1), owned, {}, k)
    {
      assert LineOk(s, owned, k);
    }
  }

  function WithCcr(s: State, i: nat, ccr: set<CcrBit>): State
    requires i < 2
  {
    s.(ctrl := s.ctrl[i := s.ctrl[i].(ccr := ccr)])
  }

  function WithLineCmd(s: State, i: nat, cmd: LineCmd): State
    requires i < 2
  {
    s.(ctrl := s.ctrl[i := s.ctrl[i].(lcmd := cmd, ladsel := true)])
  }

  // Registers other than ENCACHE play no part in the CPU's view.
  lemma RegistersKeep(s: State, t: State, owned: set<nat>)
    requires Inv(s, owned) && t.mem == s.mem
    requires forall i | 0 <= i < 2 :: t.ctrl[i].lines == s.ctrl[i].lines && Enabled(t, i) == Enabled(s, i)
    ensures Inv(t, owned) && Kept(s, t, owned, {})
  {
    forall l: nat | l < LINES ensures LineOk(t, owned, l) && KeptLine(s, t, owned, {}, l) {
      assert LineOk(s, owned, l);
    }
  }

  // The lines a whole-cache command pushes and drops, by way.
  function Chosen(c: Ctrl, way0: CcrBit, way1: CcrBit): set<nat> {
    set l | l in c.lines && (if c.lines[l].way1 then way1 else way0) in c.ccr
  }

  // The end of a command started through CCR.
  function Complete(s: State, i: nat): State
    requires i < 2
  {
    var c := s.ctrl[i];
    WithCcr(Maintain(s, i, Chosen(c, Pushw0, Pushw1), Chosen(c, Invw0, Invw1)), i, c.ccr - {Go})
  }

  const PUSH: set<CcrBit> := {Pushw0, Pushw1}
  const INVALIDATE: set<CcrBit> := {Invw0, Invw1}

  predicate IsCommand(cmd: set<CcrBit>) { cmd == PUSH || cmd == INVALIDATE || cmd == PUSH + INVALIDATE }

  // The lines a whole-cache command may take from the CPU's view.
  function Risked(cmd: set<CcrBit>, i: nat): set<nat> {
    if cmd == INVALIDATE then (set l: nat | l < LINES && InRegion(i, l)) else {}
  }

  // What a whole-cache command achieves.
  ghost predicate CommandDone(s: State, i: nat, cmd: set<CcrBit>)
    requires i < 2
  {
    && (PUSH <= cmd ==> forall l: nat | l < LINES :: !Dirty(s, i, l))
    && (INVALIDATE <= cmd ==> forall l: nat | l < LINES && InRegion(i, l) :: Synced(s, l))
  }

  lemma CompleteKeeps(s: State, i: nat, cmd: set<CcrBit>, owned: set<nat>)
    requires Inv(s, owned) && i < 2 && IsCommand(cmd) && s.ctrl[i].ccr * (PUSH + INVALIDATE) == cmd
    ensures Inv(Complete(s, i), owned)
    ensures Kept(s, Complete(s, i), owned, Risked(cmd, i))
    ensures CommandDone(Complete(s, i), i, cmd)
  {
    var c := s.ctrl[i];
    var push, inv := Chosen(c, Pushw0, Pushw1), Chosen(c, Invw0, Invw1);
    assert Pushw0 in cmd <==> Pushw0 in c.ccr;
    assert Pushw1 in cmd <==> Pushw1 in c.ccr;
    assert Invw0 in cmd <==> Invw0 in c.ccr;
    assert Invw1 in cmd <==> Invw1 in c.ccr;
    MaintainKeeps(s, i, push, inv, owned);
    var t, u := Maintain(s, i, push, inv), Complete(s, i);
    RegistersKeep(t, u, owned);
    forall l: nat | l < LINES
      ensures KeptLine(s, u, owned, Risked(cmd, i), l)
      ensures PUSH <= cmd ==> !Dirty(u, i, l)
      ensures INVALIDATE <= cmd && InRegion(i, l) ==> Synced(u, l)
    {
      assert LineOk(s, owned, l) && KeptLine(s, t, owned, inv - push, l) && KeptLine(t, u, owned, {}, l);
    }
  }

  predicate Pushes(cmd: LineCmd) { cmd == PushLine || cmd == ClearLine }

  predicate Drops(cmd: LineCmd) { cmd == InvalidateLine || cmd == ClearLine }

  // The end of a line command started through CSAR.
  function CompleteLine(s: State, i: nat, l: nat): State
    requires i < 2
  {
    var cmd := s.ctrl[i].lcmd;
    Maintain(s, i, if Pushes(cmd) then {l} else {}, if Drops(cmd) then {l} else {})
  }

  // What a line command achieves on its own line.
  ghost predicate LineDone(s: State, i: nat, cmd: LineCmd, l: nat)
    requires i < 2 && l < LINES
  {
    && (Pushes(cmd) ==> !Dirty(s, i, l))
    && (Drops(cmd) ==> Synced(s, l))
  }

  lemma CompleteLineKeeps(s: State, i: nat, l: nat, owned: set<nat>)
    requires Inv(s, owned) && i < 2 && InRegion(i, l) && s.ctrl[i].lcmd != SearchReadWrite
    ensures var t := CompleteLine(s, i, l);
      && Inv(t, owned)
      && SameRegisters(s, t)
      && Kept(s, t, owned, if s.ctrl[i].lcmd == InvalidateLine then {l} else {})
      && LineDone(t, i, s.ctrl[i].lcmd, l)
  {
    var cmd := s.ctrl[i].lcmd;
    var push, inv := if Pushes(cmd) then {l} else {}, if Drops(cmd) then {l} else {};
    MaintainKeeps(s, i, push, inv, owned);
    assert inv - push == if cmd == InvalidateLine then {l} else {};
  }

  // A CPU store: into the cache when the line is there or is allocated, else to memory.
  function Store(s: State, i: nat, l: nat, data: LineData, allocate: bool, way1: bool): State
    requires i < 2 && l < LINES
  {
    var c := s.ctrl[i];
    if Encache in c.ccr && InRegion(i, l) && (allocate || l in c.lines)
    then s.(ctrl := s.ctrl[i := c.(lines := c.lines[l := Entry(way1, data, true)])])
    else s.(mem := s.mem[l := data])
  }

  lemma StoreView(s: State, i: nat, l: nat, data: LineData, allocate: bool, way1: bool, owned: set<nat>)
    requires Inv(s, owned) && i < 2 && l < LINES && !InRegion(1 - i, l) && l !in owned
    ensures var t := Store(s, i, l, data, allocate, way1);
      && Inv(t, owned)
      && CpuLine(t, l) == data
      && (forall k: nat | k < LINES && k != l :: CpuLine(t, k) == CpuLine(s, k) && t.mem[k] == s.mem[k])
  {
    var t := Store(s, i, l, data, allocate, way1);
    forall k: nat | k < LINES ensures LineOk(t, owned, k) {
      assert LineOk(s, owned, k);
    }
    assert LineOk(s, owned, l);
  }

  // The whole of what the CPU sees.
  function View(s: State): (v: Memory)
    ensures forall l: nat | l < LINES :: v[l] == CpuLine(s, l)
  {
    seq(LINES, l requires 0 <= l < LINES => CpuLine(s, l))
  }
}
