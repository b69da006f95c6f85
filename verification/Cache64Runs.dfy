// Whole runs over the cache driver: refinement of flat memory, and buffers shared with DMA.

module Cache64Runs {
  import opened Cache64Hardware
  import opened Cache64Driver

  datatype Op =
    | Load(line: nat, off: nat)
    | Save(line: nat, off: nat, value: Byte)
    | Enable(i: nat)
    | Disable(i: nat)
    | Clean(i: nat)
    | CleanInvalidate(i: nat)
    | CleanRange(address: nat, size: nat)
    | CleanInvalidateRange(address: nat, size: nat)

  predicate Legal(op: Op) {
    match op
    case Load(l, off) => l < LINES && off < 32
    case Save(l, off, _) => l < LINES && off < 32
    case CleanRange(a, n) => a <= UINT32_MAX && n <= UINT32_MAX
    case CleanInvalidateRange(a, n) => a <= UINT32_MAX && n <= UINT32_MAX
    case _ => op.i < 2
  }

  predicate LegalProgram(prog: seq<Op>) { forall k | 0 <= k < |prog| :: Legal(prog[k]) }

  // Flat memory: there is no cache, and maintenance does nothing.
  function FlatStep(flat: Memory, op: Op): Memory
    requires Legal(op)
  {
    if op.Save? then flat[op.line := flat[op.line][op.off := op.value]] else flat
  }

  function FlatRun(flat: Memory, prog: seq<Op>): Memory
    requires LegalProgram(prog)
    decreases |prog|
  {
    if prog == [] then flat else FlatRun(FlatStep(flat, prog[0]), prog[1..])
  }

  function FlatReads(flat: Memory, prog: seq<Op>): seq<Byte>
    requires LegalProgram(prog)
    decreases |prog|
  {
    if prog == [] then []
    else (if prog[0].Load? then [flat[prog[0].line][prog[0].off]] else [])
         + FlatReads(FlatStep(flat, prog[0]), prog[1..])
  }

  lemma FlatFrom(flat: Memory, prog: seq<Op>, k: nat)
    requires k < |prog| && LegalProgram(prog)
    ensures FlatRun(flat, prog[k..]) == FlatRun(FlatStep(flat, prog[k]), prog[k + 1..])
    ensures FlatReads(flat, prog[k..])
      == (if prog[k].Load? then [flat[prog[k].line][prog[k].off]] else [])
         + FlatReads(FlatStep(flat, prog[k]), prog[k + 1..])
  {
    assert prog[k..][1..] == prog[k + 1..];
  }

  lemma KeptView(s: State, t: State)
    requires Kept(s, t, {}, {})
    ensures View(t) == View(s)
  {
    forall l: nat | l < LINES ensures CpuLine(t, l) == CpuLine(s, l) {
      assert KeptLine(s, t, {}, {}, l);
    }
  }

  lemma ShownView(s: State, t: State)
    requires Shown(s, t, {})
    ensures View(t) == View(s)
  {
    forall l: nat | l < LINES ensures CpuLine(t, l) == CpuLine(s, l) {
      assert ShownLine(s, t, {}, l);
    }
  }

  // One operation behaves as on flat memory.
  method Perform(c: CacheSystem, op: Op) returns (read: seq<Byte>)
    requires c.Valid({}) && Legal(op)
    modifies c
    ensures c.Valid({})
    ensures View(c.s) == FlatStep(View(old(c.s)), op)
    ensures read == if op.Load? then [View(old(c.s))[op.line][op.off]] else []
  {
    ghost var before := c.s;
    read := [];
    match op {
      case Load(l, off) =>
        var value := c.Read(l, off, {});
        read := [value];
        KeptView(before, c.s);
      case Save(l, off, value) =>
        c.Write(l, off, value, {});
      case Enable(i) =>
        c.EnableCache(i, {});
        ShownView(before, c.s);
      case Disable(i) =>
        c.DisableCache(i, {});
        ShownView(before, c.s);
      case Clean(i) =>
        c.CleanCache(i, {});
        KeptView(before, c.s);
      case CleanInvalidate(i) =>
        c.CleanInvalidateCache(i, {});
        KeptView(before, c.s);
      case CleanRange(a, n) =>
        c.CleanCacheByRange(a, n, {});
        KeptView(before, c.s);
      case CleanInvalidateRange(a, n) =>
        c.CleanInvalidateCacheByRange(a, n, {});
        KeptView(before, c.s);
    }
  }

  // Every DMA-free program reads from the cached memory exactly what it reads from flat memory.
  method Execute(c: CacheSystem, prog: seq<Op>) returns (got: seq<Byte>)
    requires c.Valid({}) && LegalProgram(prog)
    modifies c
    ensures c.Valid({})
    ensures got == FlatReads(View(old(c.s)), prog)
    ensures View(c.s) == FlatRun(View(old(c.s)), prog)
  {
    got := [];
    ghost var want, end := FlatReads(View(c.s), prog), FlatRun(View(c.s), prog);
    assert prog[0..] == prog;
    for k := 0 to |prog|
      invariant c.Valid({}) && LegalProgram(prog[k..])
      invariant want == got + FlatReads(View(c.s), prog[k..])
      invariant end == FlatRun(View(c.s), prog[k..])
    {
      FlatFrom(View(c.s), prog, k);
      var read := Perform(c, prog[k]);
      got := got + read;
    }
  }

  // A line-aligned, non-empty buffer inside the region of controller i.
  predicate IsBuffer(secure: bool, i: nat, address: nat, size: nat) {
    InsideRegion(secure, i, address, size) && address % 32 == 0 && size % 32 == 0 && size > 0
  }

  predicate InBuffer(address: nat, size: nat, l: nat) {
    LineOf(address) <= l < LineOf(address) + size / 32
  }

  function BufferLines(address: nat, size: nat): set<nat> {
    set l: nat | l < LINES && InBuffer(address, size, l)
  }

  lemma BufferIsRange(secure: bool, i: nat, address: nat, size: nat)
    requires IsBuffer(secure, i, address, size)
    ensures RangeLines(secure, address, size) == BufferLines(address, size)
    ensures LineOf(address) + size / 32 <= LINES
    ensures address <= UINT32_MAX && size <= UINT32_MAX
  {
    forall l: nat ensures l in RangeLines(secure, address, size) <==> l in BufferLines(address, size)
      ensures InBuffer(address, size, l) ==> l < LINES
    {
      AlignedCoverage(secure, i, address, size, l);
    }
    assert InBuffer(address, size, LineOf(address) + size / 32 - 1);
  }

  // While a transmitting DMA engine reads the buffer, in any order and as often as it likes, the
  // CPU writes elsewhere.
  datatype Traffic = DmaRead(line: nat) | CpuStore(line: nat, off: nat, value: Byte)

  predicate LegalTraffic(t: Traffic, buffer: set<nat>) {
    match t
    case DmaRead(l) => l < LINES && l in buffer
    case CpuStore(l, off, _) => l < LINES && l !in buffer && off < 32
  }

  function FlatStore(flat: Memory, t: Traffic, buffer: set<nat>): Memory
    requires LegalTraffic(t, buffer)
  {
    match t
    case DmaRead(_) => flat
    case CpuStore(l, off, value) => flat[l := flat[l][off := value]]
  }

  function FlatStores(flat: Memory, ts: seq<Traffic>, buffer: set<nat>): Memory
    requires forall k | 0 <= k < |ts| :: LegalTraffic(ts[k], buffer)
    decreases |ts|
  {
    if ts == [] then flat else FlatStores(FlatStore(flat, ts[0], buffer), ts[1..], buffer)
  }

  // What the engine should read: the buffer as it was handed over.
  function Sent(view: Memory, ts: seq<Traffic>): seq<LineData>
    requires forall k | 0 <= k < |ts| && ts[k].DmaRead? :: ts[k].line < LINES
    decreases |ts|
  {
    if ts == [] then [] else (if ts[0].DmaRead? then [view[ts[0].line]] else []) + Sent(view, ts[1..])
  }

  // Memory holds what the CPU sees.
  predicate Written(s: State, l: nat)
    requires l < LINES
  {
    s.mem[l] == CpuLine(s, l)
  }

  ghost predicate AllWritten(s: State, buffer: set<nat>) {
    forall l: nat | l < LINES && l in buffer :: Written(s, l)
  }

  // The buffer is as it was handed over.
  predicate Unchanged(s: State, view: Memory, l: nat)
    requires l < LINES
  {
    CpuLine(s, l) == view[l]
  }

  ghost predicate AllUnchanged(s: State, view: Memory, buffer: set<nat>) {
    forall l: nat | l < LINES && l in buffer :: Unchanged(s, view, l)
  }

  lemma StaysUnchanged(s: State, t: State, view: Memory, buffer: set<nat>, op: Traffic)
    requires LegalTraffic(op, buffer) && AllUnchanged(s, view, buffer)
    requires View(t) == FlatStore(View(s), op, buffer)
    ensures AllUnchanged(t, view, buffer)
    ensures op.DmaRead? ==> View(s)[op.line] == view[op.line]
  {
    forall l: nat | l < LINES && l in buffer ensures Unchanged(t, view, l) {
      assert Unchanged(s, view, l) && View(t)[l] == View(s)[l];
    }
    assert op.DmaRead? ==> Unchanged(s, view, op.line);
  }

  // After k steps: the CPU's view and what was sent are those of flat memory so far.
  ghost predicate Serving(s: State, view: Memory, ts: seq<Traffic>, buffer: set<nat>, k: nat, sent: seq<LineData>)
    requires k <= |ts| && forall j | 0 <= j < |ts| :: LegalTraffic(ts[j], buffer)
  {
    && AllUnchanged(s, view, buffer)
    && FlatStores(view, ts, buffer) == FlatStores(View(s), ts[k..], buffer)
    && Sent(view, ts) == sent + Sent(view, ts[k..])
  }

  lemma ServingStarts(s: State, view: Memory, ts: seq<Traffic>, buffer: set<nat>)
    requires View(s) == view && forall j | 0 <= j < |ts| :: LegalTraffic(ts[j], buffer)
    ensures Serving(s, view, ts, buffer, 0, [])
  {
    forall l: nat | l < LINES && l in buffer ensures Unchanged(s, view, l) { assert View(s)[l] == view[l]; }
    assert ts[0..] == ts;
  }

  lemma ServesOn(s: State, t: State, view: Memory, ts: seq<Traffic>, buffer: set<nat>, k: nat, sent: seq<LineData>)
    requires k < |ts| && forall j | 0 <= j < |ts| :: LegalTraffic(ts[j], buffer)
    requires Serving(s, view, ts, buffer, k, sent) && View(t) == FlatStore(View(s), ts[k], buffer)
    ensures Serving(t, view, ts, buffer, k + 1, sent + if ts[k].DmaRead? then [View(s)[ts[k].line]] else [])
  {
    StaysUnchanged(s, t, view, buffer, ts[k]);
    assert ts[k..][1..] == ts[k + 1..];
  }

  lemma WrittenStays(s: State, t: State, buffer: set<nat>)
    requires AllWritten(s, buffer) && Kept(s, t, {}, {})
    ensures AllWritten(t, buffer)
  {
    forall l: nat | l < LINES && l in buffer ensures Written(t, l) {
      assert Written(s, l) && KeptLine(s, t, {}, {}, l);
    }
  }

  lemma StoredElsewhere(s: State, t: State, buffer: set<nat>, op: Traffic)
    requires op.CpuStore? && LegalTraffic(op, buffer) && AllWritten(s, buffer)
    requires CpuLine(t, op.line) == CpuLine(s, op.line)[op.off := op.value]
    requires forall k: nat | k < LINES && k != op.line :: CpuLine(t, k) == CpuLine(s, k)
    requires forall k: nat | k < LINES && k != op.line :: t.mem[k] == s.mem[k] || t.mem[k] == CpuLine(s, k)
    ensures AllWritten(t, buffer) && View(t) == FlatStore(View(s), op, buffer)
  {
    forall l: nat | l < LINES && l in buffer ensures Written(t, l) {
      assert Written(s, l);
    }
  }

  method PerformTraffic(c: CacheSystem, op: Traffic, ghost buffer: set<nat>) returns (sent: seq<LineData>)
    requires LegalTraffic(op, buffer) && c.Valid({}) && AllWritten(c.s, buffer)
    modifies c
    ensures c.Valid({}) && AllWritten(c.s, buffer)
    ensures View(c.s) == FlatStore(View(old(c.s)), op, buffer)
    ensures sent == if op.DmaRead? then [View(old(c.s))[op.line]] else []
  {
    ghost var before := c.s;
    sent := [];
    match op {
      case DmaRead(l) =>
        c.Background({});
        KeptView(before, c.s);
        WrittenStays(before, c.s, buffer);
        assert Written(c.s, l);
        sent := [c.s.mem[l]];
      case CpuStore(l, off, value) =>
        c.Write(l, off, value, {});
        StoredElsewhere(before, c.s, buffer, op);
    }
  }

  // Hand a buffer to a transmitting DMA engine: it reads exactly what the CPU wrote, however
  // the cache evicts and fills and the CPU writes elsewhere in between.
  method Transmit(c: CacheSystem, i: nat, address: nat, size: nat, traffic: seq<Traffic>)
    returns (sent: seq<LineData>)
    requires c.Valid({}) && IsBuffer(c.secure, i, address, size)
    requires forall k | 0 <= k < |traffic| :: LegalTraffic(traffic[k], BufferLines(address, size))
    modifies c
    ensures c.Valid({}) && View(c.s) == FlatStores(View(old(c.s)), traffic, BufferLines(address, size))
    ensures sent == Sent(View(old(c.s)), traffic)
  {
    ghost var view, buffer := View(c.s), BufferLines(address, size);
    HandOver(c, i, address, size);
    sent := [];
    ServingStarts(c.s, view, traffic, buffer);
    for k := 0 to |traffic|
      invariant c.Valid({}) && AllWritten(c.s, buffer)
      invariant Serving(c.s, view, traffic, buffer, k, sent)
    {
      ghost var before := c.s;
      var more := PerformTraffic(c, traffic[k], buffer);
      ServesOn(before, c.s, view, traffic, buffer, k, sent);
      sent := sent + more;
    }
  }

  // The buffer is cleaned: memory holds what the CPU sees.
  method HandOver(c: CacheSystem, i: nat, address: nat, size: nat)
    requires c.Valid({}) && IsBuffer(c.secure, i, address, size)
    modifies c
    ensures c.Valid({}) && View(c.s) == View(old(c.s))
    ensures AllWritten(c.s, BufferLines(address, size))
  {
    ghost var before := c.s;
    BufferIsRange(c.secure, i, address, size);
    c.CleanCacheByRange(address, size, {});
    KeptView(before, c.s);
    forall l: nat | l < LINES && l in BufferLines(address, size) ensures Written(c.s, l) {
      assert l in RangeLines(c.secure, address, size) && View(c.s)[l] == View(before)[l];
    }
  }

  // While a receiving DMA engine owns the buffer it writes there, and the CPU writes elsewhere.
  datatype Beat = DmaWrite(line: nat, data: LineData) | CpuWrite(line: nat, off: nat, value: Byte)

  predicate LegalBeat(beat: Beat, buffer: set<nat>) {
    match beat
    case DmaWrite(l, _) => l < LINES && l in buffer
    case CpuWrite(l, off, _) => l < LINES && l !in buffer && off < 32
  }

  function FlatBeat(flat: Memory, beat: Beat, buffer: set<nat>): Memory
    requires LegalBeat(beat, buffer)
  {
    match beat
    case DmaWrite(l, data) => flat[l := data]
    case CpuWrite(l, off, value) => flat[l := flat[l][off := value]]
  }

  function FlatBeats(flat: Memory, beats: seq<Beat>, buffer: set<nat>): Memory
    requires forall k | 0 <= k < |beats| :: LegalBeat(beats[k], buffer)
    decreases |beats|
  {
    if beats == [] then flat else FlatBeats(FlatBeat(flat, beats[0], buffer), beats[1..], buffer)
  }

  // The hand-off invariant: the CPU's view outside the buffer and memory inside it are flat.
  ghost predicate Shared(s: State, flat: Memory, buffer: set<nat>)
  {
    forall l: nat | l < LINES :: SharedLine(s, flat, buffer, l)
  }

  predicate SharedLine(s: State, flat: Memory, buffer: set<nat>, l: nat)
    requires l < LINES
  {
    flat[l] == if l in buffer then s.mem[l] else CpuLine(s, l)
  }

  lemma KeptShared(s: State, t: State, flat: Memory, buffer: set<nat>)
    requires Shared(s, flat, buffer) && Kept(s, t, buffer, {})
    ensures Shared(t, flat, buffer)
  {
    forall l: nat | l < LINES ensures SharedLine(t, flat, buffer, l) {
      assert SharedLine(s, flat, buffer, l) && KeptLine(s, t, buffer, {}, l);
    }
  }

  // Lend a cleaned and invalidated buffer to DMA.
  lemma Lend(s: State, buffer: set<nat>)
    requires Inv(s, {}) && forall l <- buffer :: l < LINES && Synced(s, l)
    ensures Inv(s, buffer) && Shared(s, View(s), buffer)
  {
    forall l: nat | l < LINES ensures LineOk(s, buffer, l) && SharedLine(s, View(s), buffer, l) {
      assert LineOk(s, {}, l);
    }
  }

  // A DMA write lands in memory, behind the cache.
  lemma DmaWriteKeeps(s: State, t: State, flat: Memory, after: Memory, buffer: set<nat>, l: nat, data: LineData)
    requires l < LINES && l in buffer && Inv(s, buffer) && Shared(s, flat, buffer)
    requires t == s.(mem := s.mem[l := data]) && after == flat[l := data]
    ensures Inv(t, buffer) && Shared(t, after, buffer)
  {
    forall k: nat | k < LINES ensures LineOk(t, buffer, k) && SharedLine(t, after, buffer, k) {
      assert LineOk(s, buffer, k) && SharedLine(s, flat, buffer, k);
    }
  }

  // Take the buffer back after invalidating it.
  lemma TakeBack(s: State, t: State, flat: Memory, buffer: set<nat>)
    requires Inv(t, buffer) && Shared(s, flat, buffer) && Kept(s, t, buffer, buffer)
    requires forall l <- buffer :: l < LINES && Synced(t, l)
    ensures Inv(t, {}) && View(t) == flat
  {
    forall l: nat | l < LINES ensures LineOk(t, {}, l) && CpuLine(t, l) == flat[l] {
      assert LineOk(t, buffer, l) && SharedLine(s, flat, buffer, l) && KeptLine(s, t, buffer, buffer, l);
    }
  }

  method PerformBeat(c: CacheSystem, beat: Beat, ghost flat: Memory, ghost buffer: set<nat>)
    requires LegalBeat(beat, buffer) && c.Valid(buffer) && Shared(c.s, flat, buffer)
    modifies c
    ensures c.Valid(buffer) && Shared(c.s, FlatBeat(flat, beat, buffer), buffer)
  {
    ghost var before := c.s;
    c.Background(buffer);
    KeptShared(before, c.s, flat, buffer);
    before := c.s;
    match beat {
      case DmaWrite(l, data) =>
        c.s := c.s.(mem := c.s.mem[l := data]);
        DmaWriteKeeps(before, c.s, flat, FlatBeat(flat, beat, buffer), buffer, l, data);
      case CpuWrite(l, off, value) =>
        assert SharedLine(before, flat, buffer, l);
        c.Write(l, off, value, buffer);
        forall m: nat | m < LINES ensures SharedLine(c.s, FlatBeat(flat, beat, buffer), buffer, m) {
          assert SharedLine(before, flat, buffer, m);
        }
    }
  }

  // Receive into a buffer: no eviction overwrites what DMA wrote, and after the final
  // invalidate the CPU reads exactly that, as if memory were flat.
  method Receive(c: CacheSystem, i: nat, address: nat, size: nat, beats: seq<Beat>)
    requires c.Valid({}) && IsBuffer(c.secure, i, address, size)
    requires forall k | 0 <= k < |beats| :: LegalBeat(beats[k], BufferLines(address, size))
    modifies c
    ensures c.Valid({})
    ensures View(c.s) == FlatBeats(View(old(c.s)), beats, BufferLines(address, size))
  {
    ghost var first, buffer := c.s, BufferLines(address, size);
    BufferIsRange(c.secure, i, address, size);
    c.CleanInvalidateCacheByRange(address, size, {});
    KeptView(first, c.s);
    Lend(c.s, buffer);
    ghost var flat := View(first);
    for k := 0 to |beats|
      invariant c.Valid(buffer) && Shared(c.s, flat, buffer)
      invariant FlatBeats(View(first), beats, buffer) == FlatBeats(flat, beats[k..], buffer)
    {
      assert beats[k..] == [beats[k]] + beats[k + 1..];
      PerformBeat(c, beats[k], flat, buffer);
      flat := FlatBeat(flat, beats[k], buffer);
    }
    ghost var last := c.s;
    c.InvalidateCacheByRange(address, size, buffer);
    TakeBack(last, c.s, flat, buffer);
  }
}
