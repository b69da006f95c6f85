// Any number of buffers handed to DMA engines and taken back, with CPU accesses and maintenance
// going on in between.

module Cache64Sharing {
  import opened Cache64Hardware
  import opened Cache64Driver
  import opened Cache64Runs

  datatype Event =
    | Load(line: nat, off: nat)
    | Save(line: nat, off: nat, value: Byte)
    | Enable(i: nat)
    | Disable(i: nat)
    | Clean(i: nat)
    | CleanInvalidate(i: nat)
    | CleanRange(address: nat, size: nat)
    | CleanInvalidateRange(address: nat, size: nat)
    | Send(i: nat, address: nat, size: nat)     // clean a buffer for an engine that reads it
    | Sent(i: nat, address: nat, size: nat)     // and take it back
    | Lease(i: nat, address: nat, size: nat)    // clean and invalidate a buffer for one that writes it
    | Received(i: nat, address: nat, size: nat) // and invalidate it before taking it back
    | DmaRead(line: nat)
    | DmaWrite(line: nat, data: LineData)

  // What the CPU or an engine sees.
  datatype Seen = SeenByte(b: Byte) | SeenLine(d: LineData)

  // The lines that engines read, and those that they write.
  datatype Shares = Shares(reading: set<nat>, writing: set<nat>)

  // The rules that a program has to keep: the CPU stays away from buffers that an engine writes and
  // does not write to buffers that an engine reads; engines stay inside their buffers.
  predicate Legal(secure: bool, e: Event, h: Shares) {
    match e
    case Load(l, off) => l < LINES && off < 32 && l !in h.writing
    case Save(l, off, _) => l < LINES && off < 32 && l !in h.writing && l !in h.reading
    case CleanRange(a, n) => a <= UINT32_MAX && n <= UINT32_MAX
    case CleanInvalidateRange(a, n) => a <= UINT32_MAX && n <= UINT32_MAX
    case Send(i, a, n) => IsBuffer(secure, i, a, n) && BufferLines(a, n) !! (h.writing + h.reading)
    case Sent(i, a, n) => IsBuffer(secure, i, a, n) && BufferLines(a, n) <= h.reading
    case Lease(i, a, n) => IsBuffer(secure, i, a, n) && BufferLines(a, n) !! (h.writing + h.reading)
    case Received(i, a, n) => IsBuffer(secure, i, a, n) && BufferLines(a, n) <= h.writing
    case DmaRead(l) => l < LINES && l in h.reading + h.writing
    case DmaWrite(l, _) => l < LINES && l in h.writing
    case _ => e.i < 2
  }

  function SharesAfter(e: Event, h: Shares): Shares {
    match e
    case Send(_, a, n) => h.(reading := h.reading + BufferLines(a, n))
    case Sent(_, a, n) => h.(reading := h.reading - BufferLines(a, n))
    case Lease(_, a, n) => h.(writing := h.writing + BufferLines(a, n))
    case Received(_, a, n) => h.(writing := h.writing - BufferLines(a, n))
    case _ => h
  }

  predicate LegalRun(secure: bool, es: seq<Event>, h: Shares)
    decreases |es|
  {
    es == [] || (Legal(secure, es[0], h) && LegalRun(secure, es[1..], SharesAfter(es[0], h)))
  }

  function SharesAfterAll(es: seq<Event>, h: Shares): Shares
    decreases |es|
  {
    if es == [] then h else SharesAfterAll(es[1..], SharesAfter(es[0], h))
  }

  // Flat memory, which the CPU and the engines share: maintenance and hand-offs do nothing.
  predicate InBounds(e: Event) {
    match e
    case Load(l, off) => l < LINES && off < 32
    case Save(l, off, _) => l < LINES && off < 32
    case DmaRead(l) => l < LINES
    case DmaWrite(l, _) => l < LINES
    case _ => true
  }

  function Flat(flat: Memory, e: Event): Memory
    requires InBounds(e)
  {
    match e
    case Save(l, off, value) => flat[l := flat[l][off := value]]
    case DmaWrite(l, data) => flat[l := data]
    case _ => flat
  }

  function FlatSees(flat: Memory, e: Event): seq<Seen>
    requires InBounds(e)
  {
    match e
    case Load(l, off) => [SeenByte(flat[l][off])]
    case DmaRead(l) => [SeenLine(flat[l])]
    case _ => []
  }

  function FlatAll(flat: Memory, es: seq<Event>): Memory
    requires forall k | 0 <= k < |es| :: InBounds(es[k])
    decreases |es|
  {
    if es == [] then flat else FlatAll(Flat(flat, es[0]), es[1..])
  }

  function FlatSeesAll(flat: Memory, es: seq<Event>): seq<Seen>
    requires forall k | 0 <= k < |es| :: InBounds(es[k])
    decreases |es|
  {
    if es == [] then [] else FlatSees(flat, es[0]) + FlatSeesAll(Flat(flat, es[0]), es[1..])
  }

  lemma {:induction false} LegalInBounds(secure: bool, es: seq<Event>, h: Shares)
    requires LegalRun(secure, es, h)
    ensures forall k | 0 <= k < |es| :: InBounds(es[k])
    decreases |es|
  {
    if es != [] {
      LegalInBounds(secure, es[1..], SharesAfter(es[0], h));
      forall k | 0 <= k < |es| ensures InBounds(es[k]) {
        if k > 0 { assert es[k] == es[1..][k - 1]; }
      }
    }
  }

  // One line: memory is flat where an engine writes, the CPU's view is elsewhere, and both are
  // where an engine reads.
  predicate CoherentLine(s: State, flat: Memory, h: Shares, l: nat)
    requires l < LINES
  {
    && flat[l] == (if l in h.writing then s.mem[l] else CpuLine(s, l))
    && (l in h.reading ==> l !in h.writing && s.mem[l] == CpuLine(s, l))
  }

  ghost predicate Coherent(s: State, flat: Memory, h: Shares) {
    forall l: nat | l < LINES :: CoherentLine(s, flat, h, l)
  }

  lemma ShownKeeps(s: State, t: State, flat: Memory, h: Shares)
    requires Coherent(s, flat, h) && Shown(s, t, h.writing)
    ensures Coherent(t, flat, h)
  {
    forall l: nat | l < LINES ensures CoherentLine(t, flat, h, l) {
      assert CoherentLine(s, flat, h, l) && ShownLine(s, t, h.writing, l);
    }
  }

  lemma KeptKeeps(s: State, t: State, flat: Memory, h: Shares)
    requires Coherent(s, flat, h) && Kept(s, t, h.writing, {})
    ensures Coherent(t, flat, h)
  {
    KeptShown(s, t, h.writing);
    ShownKeeps(s, t, flat, h);
  }

  // A cleaned buffer can be read by an engine.
  lemma SendKeeps(s: State, flat: Memory, h: Shares, buffer: set<nat>)
    requires Coherent(s, flat, h) && buffer !! h.writing
    requires forall l: nat | l < LINES && l in buffer :: s.mem[l] == CpuLine(s, l)
    ensures Coherent(s, flat, h.(reading := h.reading + buffer))
  {
    forall l: nat | l < LINES ensures CoherentLine(s, flat, h.(reading := h.reading + buffer), l) {
      assert CoherentLine(s, flat, h, l);
    }
  }

  lemma SentKeeps(s: State, flat: Memory, h: Shares, buffer: set<nat>)
    requires Coherent(s, flat, h)
    ensures Coherent(s, flat, h.(reading := h.reading - buffer))
  {
    forall l: nat | l < LINES ensures CoherentLine(s, flat, h.(reading := h.reading - buffer), l) {
      assert CoherentLine(s, flat, h, l);
    }
  }

  // A cleaned and invalidated buffer can be written by an engine.
  lemma LeaseKeeps(s: State, flat: Memory, h: Shares, buffer: set<nat>)
    requires Inv(s, h.writing) && Coherent(s, flat, h) && buffer !! (h.writing + h.reading)
    requires forall l <- buffer :: l < LINES && Synced(s, l)
    ensures Inv(s, h.writing + buffer) && Coherent(s, flat, h.(writing := h.writing + buffer))
  {
    forall l: nat | l < LINES
      ensures LineOk(s, h.writing + buffer, l) && CoherentLine(s, flat, h.(writing := h.writing + buffer), l)
    {
      assert LineOk(s, h.writing, l) && CoherentLine(s, flat, h, l);
    }
  }

  // An invalidated buffer can be taken back.
  lemma ReceivedKeeps(s: State, t: State, flat: Memory, h: Shares, buffer: set<nat>)
    requires Coherent(s, flat, h) && buffer <= h.writing
    requires Inv(t, h.writing) && Kept(s, t, h.writing, buffer)
    requires forall l <- buffer :: l < LINES && Synced(t, l)
    ensures Inv(t, h.writing - buffer) && Coherent(t, flat, h.(writing := h.writing - buffer))
  {
    forall l: nat | l < LINES
      ensures LineOk(t, h.writing - buffer, l) && CoherentLine(t, flat, h.(writing := h.writing - buffer), l)
    {
      assert LineOk(t, h.writing, l) && CoherentLine(s, flat, h, l) && KeptLine(s, t, h.writing, buffer, l);
    }
  }

  lemma SaveKeeps(s: State, t: State, flat: Memory, h: Shares, e: Event)
    requires e.Save? && InBounds(e) && e.line !in h.writing && e.line !in h.reading && Coherent(s, flat, h)
    requires CpuLine(t, e.line) == CpuLine(s, e.line)[e.off := e.value]
    requires forall k: nat | k < LINES && k !in h.writing && k != e.line :: CpuLine(t, k) == CpuLine(s, k)
    requires forall k: nat | k < LINES && k != e.line ::
      t.mem[k] == s.mem[k] || (k !in h.writing && t.mem[k] == CpuLine(s, k))
    ensures Coherent(t, Flat(flat, e), h)
  {
    forall l: nat | l < LINES ensures CoherentLine(t, Flat(flat, e), h, l) {
      assert CoherentLine(s, flat, h, l);
    }
  }

  lemma DmaWriteKeepsAll(s: State, t: State, flat: Memory, after: Memory, h: Shares, l: nat, data: LineData)
    requires l < LINES && l in h.writing && Inv(s, h.writing) && Coherent(s, flat, h)
    requires t == s.(mem := s.mem[l := data]) && after == flat[l := data]
    ensures Inv(t, h.writing) && Coherent(t, after, h)
  {
    forall k: nat | k < LINES ensures LineOk(t, h.writing, k) && CoherentLine(t, after, h, k) {
      assert LineOk(s, h.writing, k) && CoherentLine(s, flat, h, k);
    }
  }

  // Accesses by the CPU and by engines.
  method Access(c: CacheSystem, e: Event, ghost flat: Memory, ghost h: Shares) returns (seen: seq<Seen>)
    requires e.Load? || e.Save? || e.DmaRead? || e.DmaWrite?
    requires c.Valid(h.writing) && Coherent(c.s, flat, h) && Legal(c.secure, e, h)
    modifies c
    ensures c.Valid(h.writing) && Coherent(c.s, Flat(flat, e), h)
    ensures seen == FlatSees(flat, e)
  {
    ghost var before := c.s;
    seen := [];
    match e {
      case Load(l, off) =>
        assert CoherentLine(c.s, flat, h, l);
        var value := c.Read(l, off, h.writing);
        seen := [SeenByte(value)];
        KeptKeeps(before, c.s, flat, h);
      case Save(l, off, value) =>
        c.Write(l, off, value, h.writing);
        SaveKeeps(before, c.s, flat, h, e);
      case DmaRead(l) =>
        c.Background(h.writing);
        KeptKeeps(before, c.s, flat, h);
        assert CoherentLine(c.s, flat, h, l);
        seen := [SeenLine(c.s.mem[l])];
      case DmaWrite(l, data) =>
        c.Background(h.writing);
        KeptKeeps(before, c.s, flat, h);
        ghost var settled := c.s;
        c.s := c.s.(mem := c.s.mem[l := data]);
        DmaWriteKeepsAll(settled, c.s, flat, Flat(flat, e), h, l, data);
    }
  }

  // Maintenance, also of lines that are in an engine's hands.
  method Maintenance(c: CacheSystem, e: Event, ghost flat: Memory, ghost h: Shares)
    requires e.Enable? || e.Disable? || e.Clean? || e.CleanInvalidate? || e.CleanRange? || e.CleanInvalidateRange?
    requires c.Valid(h.writing) && Coherent(c.s, flat, h) && Legal(c.secure, e, h)
    modifies c
    ensures c.Valid(h.writing) && Coherent(c.s, flat, h)
  {
    ghost var before := c.s;
    match e {
      case Enable(i) =>
        c.EnableCache(i, h.writing);
        ShownKeeps(before, c.s, flat, h);
      case Disable(i) =>
        c.DisableCache(i, h.writing);
        ShownKeeps(before, c.s, flat, h);
      case Clean(i) =>
        c.CleanCache(i, h.writing);
        KeptKeeps(before, c.s, flat, h);
      case CleanInvalidate(i) =>
        c.CleanInvalidateCache(i, h.writing);
        KeptKeeps(before, c.s, flat, h);
      case CleanRange(a, n) =>
        c.CleanCacheByRange(a, n, h.writing);
        KeptKeeps(before, c.s, flat, h);
      case CleanInvalidateRange(a, n) =>
        c.CleanInvalidateCacheByRange(a, n, h.writing);
        KeptKeeps(before, c.s, flat, h);
    }
  }

  // Hand-offs.
  method HandOff(c: CacheSystem, e: Event, ghost flat: Memory, ghost h: Shares)
    requires e.Send? || e.Sent? || e.Lease? || e.Received?
    requires c.Valid(h.writing) && Coherent(c.s, flat, h) && Legal(c.secure, e, h)
    modifies c
    ensures c.Valid(SharesAfter(e, h).writing) && Coherent(c.s, flat, SharesAfter(e, h))
  {
    ghost var before, buffer := c.s, BufferLines(e.address, e.size);
    BufferIsRange(c.secure, e.i, e.address, e.size);
    match e {
      case Send(_, a, n) =>
        c.CleanCacheByRange(a, n, h.writing);
        KeptKeeps(before, c.s, flat, h);
        forall l: nat | l < LINES && l in buffer ensures c.s.mem[l] == CpuLine(c.s, l) {
          assert l in RangeLines(c.secure, a, n) && KeptLine(before, c.s, h.writing, {}, l);
        }
        SendKeeps(c.s, flat, h, buffer);
      case Sent(_, _, _) =>
        SentKeeps(c.s, flat, h, buffer);
      case Lease(_, a, n) =>
        c.CleanInvalidateCacheByRange(a, n, h.writing);
        KeptKeeps(before, c.s, flat, h);
        LeaseKeeps(c.s, flat, h, buffer);
      case Received(_, a, n) =>
        c.InvalidateCacheByRange(a, n, h.writing);
        ReceivedKeeps(before, c.s, flat, h, buffer);
    }
  }

  method Perform(c: CacheSystem, e: Event, ghost flat: Memory, ghost h: Shares) returns (seen: seq<Seen>)
    requires c.Valid(h.writing) && Coherent(c.s, flat, h) && Legal(c.secure, e, h)
    modifies c
    ensures c.Valid(SharesAfter(e, h).writing) && Coherent(c.s, Flat(flat, e), SharesAfter(e, h))
    ensures seen == FlatSees(flat, e)
  {
    seen := [];
    if e.Load? || e.Save? || e.DmaRead? || e.DmaWrite? {
      seen := Access(c, e, flat, h);
    } else if e.Send? || e.Sent? || e.Lease? || e.Received? {
      HandOff(c, e, flat, h);
    } else {
      Maintenance(c, e, flat, h);
    }
  }

  // In every legal run the CPU and the engines see exactly what they would see in one flat memory.
  method Execute(c: CacheSystem, es: seq<Event>) returns (seen: seq<Seen>)
    requires c.Valid({}) && LegalRun(c.secure, es, Shares({}, {}))
    modifies c
    ensures forall k | 0 <= k < |es| :: InBounds(es[k])
    ensures seen == FlatSeesAll(View(old(c.s)), es)
    ensures var h := SharesAfterAll(es, Shares({}, {}));
      c.Valid(h.writing) && Coherent(c.s, FlatAll(View(old(c.s)), es), h)
  {
    LegalInBounds(c.secure, es, Shares({}, {}));
    ghost var flat, h := View(c.s), Shares({}, {});
    seen := [];
    NothingShared(c.s);
    assert es[0..] == es;
    for k := 0 to |es|
      invariant c.Valid(h.writing) && Coherent(c.s, flat, h) && LegalRun(c.secure, es[k..], h)
      invariant FlatSeesAll(View(old(c.s)), es) == seen + FlatSeesAll(flat, es[k..])
      invariant FlatAll(View(old(c.s)), es) == FlatAll(flat, es[k..])
      invariant SharesAfterAll(es, Shares({}, {})) == SharesAfterAll(es[k..], h)
    {
      assert es[k..][1..] == es[k + 1..];
      var more := Perform(c, es[k], flat, h);
      seen := seen + more;
      flat, h := Flat(flat, es[k]), SharesAfter(es[k], h);
    }
  }

  lemma NothingShared(s: State)
    ensures Coherent(s, View(s), Shares({}, {}))
  {
    forall l: nat | l < LINES ensures CoherentLine(s, View(s), Shares({}, {}), l) { }
  }

  // When every buffer is back, the CPU sees flat memory everywhere.
  lemma AllBack(s: State, flat: Memory)
    requires Coherent(s, flat, Shares({}, {}))
    ensures View(s) == flat
  {
    forall l: nat | l < LINES ensures View(s)[l] == flat[l] {
      assert CoherentLine(s, flat, Shares({}, {}), l);
    }
  }
}
