// The driver functions of drivers/fsl_cache.c, updating the hardware of Cache64Hardware in place.

// Literals: 32 is the line size, 0x1000_0000 is bit 28, 0x0800_0000 the size of a region.

module Cache64Driver {
  import opened Cache64Hardware
  import Arithmetic

  const UINT32_MAX: nat := Arithmetic.UINT32_MAX

  const NO_INSTANCE: nat := 0xFFFF_FFFF

  function WithBit28(x: nat): nat { if (x / 0x1000_0000) % 2 == 1 then x else x + 0x1000_0000 }

  function WithoutBit28(x: nat): nat { if (x / 0x1000_0000) % 2 == 1 then x - 0x1000_0000 else x }

  // MSDK_REG_SECURE_ADDR in a secure and in a non-secure build.
  function SecureAddr(secure: bool, x: nat): nat { if secure then WithBit28(x) else x }

  function PhysMemBase(secure: bool, i: nat): nat {
    (if secure then 0x1800_0000 else 0x0800_0000) + i * 0x2000_0000
  }

  // The physical line named by an address written to CSAR.
  function LineOf(address: nat): nat { WithoutBit28(address) / 32 }

  // The last byte of a region is left out by the lookup.
  function InstanceOf(secure: bool, address: nat): nat {
    if PhysMemBase(secure, 0) <= SecureAddr(secure, address) < PhysMemBase(secure, 0) + 0x0800_0000 - 1 then 0
    else if PhysMemBase(secure, 1) <= SecureAddr(secure, address) < PhysMemBase(secure, 1) + 0x0800_0000 - 1 then 1
    else NO_INSTANCE
  }

  // Line starts from `start`, a line apart, strictly below `end`.
  function LineStarts(start: nat, end: nat): seq<nat>
    decreases end - start
  {
    if start < end then [start] + LineStarts(start + 32, end) else []
  }

  lemma {:induction false} LineStartsAre(start: nat, end: nat)
    ensures var r := LineStarts(start, end);
      && (forall k | 0 <= k < |r| :: r[k] == start + k * 32 && r[k] < end)
      && start + |r| * 32 >= end
    decreases end - start
  {
    if start < end { LineStartsAre(start + 32, end); }
  }

  // Commands stay inside the region of their controller, and a line further is no wrap.
  ghost predicate AllInRegion(i: nat, commands: seq<nat>) {
    forall a <- commands :: InRegion(i, LineOf(a)) && a + 32 <= UINT32_MAX
  }

  lemma NoStarts(all: seq<nat>, done: seq<nat>, next: nat, end: nat)
    requires next >= end && Remaining(all, done, next, end)
    ensures done == all
  {
  }

  lemma NextStart(i: nat, all: seq<nat>, done: seq<nat>, next: nat, end: nat)
    requires AllInRegion(i, all) && Remaining(all, done, next, end) && next < end
    ensures Remaining(all, done + [next], next + 32, end)
    ensures InRegion(i, LineOf(next)) && (next + 32) % 0x1_0000_0000 == next + 32
  {
    assert LineStarts(next, end) == [next] + LineStarts(next + 32, end);
    assert done + LineStarts(next, end) == (done + [next]) + LineStarts(next + 32, end);
    assert all[|done|] == next;
  }

  // Of all line starts these are done and the rest begins at next.
  predicate Remaining(all: seq<nat>, done: seq<nat>, next: nat, end: nat) { all == done + LineStarts(next, end) }

  // The lines an invalidate command may take from the CPU's view.
  function Lost(cmd: LineCmd, commands: seq<nat>): set<nat> {
    if cmd == InvalidateLine then LinesOf(commands) else {}
  }

  ghost predicate LinesDone(s: State, i: nat, cmd: LineCmd, commands: seq<nat>)
    requires i < 2
  {
    forall a <- commands :: InRegion(i, LineOf(a)) && LineDone(s, i, cmd, LineOf(a))
  }

  // What the commands done so far have achieved, and all they may have cost.
  ghost predicate Progress(s: State, t: State, i: nat, done: seq<nat>, owned: set<nat>)
    requires i < 2
  {
    Kept(s, t, owned, Lost(t.ctrl[i].lcmd, done)) && LinesDone(t, i, t.ctrl[i].lcmd, done)
  }

  lemma NothingDone(s: State, i: nat, owned: set<nat>)
    requires i < 2
    ensures Progress(s, s, i, [], owned)
  {
    KeptRefl(s, owned);
    assert Lost(s.ctrl[i].lcmd, []) == {};
  }

  lemma OneMoreLine(s: State, t: State, u: State, i: nat, cmd: LineCmd, done: seq<nat>, next: nat, owned: set<nat>)
    requires i < 2 && InRegion(i, LineOf(next))
    requires Kept(s, t, owned, Lost(cmd, done)) && LinesDone(t, i, cmd, done)
    requires Kept(t, u, owned, Lost(cmd, [next])) && LineDone(u, i, cmd, LineOf(next))
    ensures Kept(s, u, owned, Lost(cmd, done + [next])) && LinesDone(u, i, cmd, done + [next])
  {
    KeptTrans(s, t, u, owned, Lost(cmd, done), Lost(cmd, [next]), Lost(cmd, done + [next]));
    forall a <- done + [next] ensures InRegion(i, LineOf(a)) && LineDone(u, i, cmd, LineOf(a)) {
      if a in done {
        assert LineDone(t, i, cmd, LineOf(a)) && KeptLine(t, u, owned, Lost(cmd, [next]), LineOf(a));
      }
    }
  }

  lemma StaysDone(s: State, t: State, i: nat, cmd: set<CcrBit>, owned: set<nat>)
    requires i < 2 && CommandDone(s, i, cmd) && Kept(s, t, owned, {})
    ensures CommandDone(t, i, cmd)
  {
    forall l: nat | l < LINES
      ensures PUSH <= cmd ==> !Dirty(t, i, l)
      ensures INVALIDATE <= cmd && InRegion(i, l) ==> Synced(t, l)
    {
      assert KeptLine(s, t, owned, {}, l);
    }
  }

  // The addresses a by-range call must issue, empty when the call returns early.
  function RangeCommands(secure: bool, address: nat, size: nat): seq<nat> {
    var i := InstanceOf(secure, address);
    if size == 0 || UINT32_MAX < address + size || i == NO_INSTANCE then []
    else
      var limit := PhysMemBase(secure, i) + 0x0800_0000 - 1;
      var last := SecureAddr(secure, address + size - 1);
      LineStarts(SecureAddr(secure, address - address % 32), if last > limit then limit else last)
  }

  function LinesOf(commands: seq<nat>): set<nat> { set a | a in commands :: LineOf(a) }

  function RangeLines(secure: bool, address: nat, size: nat): set<nat> {
    LinesOf(RangeCommands(secure, address, size))
  }

  predicate InsideRegion(secure: bool, i: nat, address: nat, size: nat) {
    && i < 2
    && PhysMemBase(secure, i) <= SecureAddr(secure, address)
    && SecureAddr(secure, address) + size <= PhysMemBase(secure, i) + 0x0800_0000
  }

  // Inside a region both address maps are translations.
  lemma InsideRegionMaps(secure: bool, i: nat, address: nat, size: nat, d: nat)
    requires InsideRegion(secure, i, address, size) && d < size
    ensures SecureAddr(secure, address + d) == SecureAddr(secure, address) + d
    ensures WithoutBit28(address + d) == WithoutBit28(SecureAddr(secure, address) + d)
    ensures WithoutBit28(SecureAddr(secure, address) + d)
         == 0x0800_0000 + i * 0x2000_0000 + (SecureAddr(secure, address) + d - PhysMemBase(secure, i))
    ensures (SecureAddr(secure, address) + d) % 32 == (address + d) % 32
    ensures LineOf(SecureAddr(secure, address) + d) == LineOf(address + d)
  {
    if secure { if i == 0 { } else { } } else { if i == 0 { } else { } }
  }

  lemma InsideRegionCommands(secure: bool, i: nat, address: nat, size: nat)
    requires InsideRegion(secure, i, address, size) && size > 0
    ensures var s := SecureAddr(secure, address);
      RangeCommands(secure, address, size)
      == if s == PhysMemBase(secure, i) + 0x0800_0000 - 1 then [] else LineStarts(s - s % 32, s + size - 1)
  {
    var s := SecureAddr(secure, address);
    if s == PhysMemBase(secure, i) + 0x0800_0000 - 1 {
      NotRecognised(secure, i, address);
    } else {
      AlignDown(secure, i, address, size);
      InsideRegionMaps(secure, i, address, size, size - 1);
      RecognisedCommands(secure, i, address, size, s);
    }
  }

  lemma RecognisedCommands(secure: bool, i: nat, address: nat, size: nat, s: nat)
    requires i < 2 && InstanceOf(secure, address) == i && size > 0 && address + size <= UINT32_MAX
    requires SecureAddr(secure, address - address % 32) == s - s % 32
    requires SecureAddr(secure, address + size - 1) == s + size - 1 < PhysMemBase(secure, i) + 0x0800_0000
    ensures RangeCommands(secure, address, size) == LineStarts(s - s % 32, s + size - 1)
  {
  }

  // A controller does not answer for the last byte of its region.
  lemma NotRecognised(secure: bool, i: nat, address: nat)
    requires i < 2 && SecureAddr(secure, address) == PhysMemBase(secure, i) + 0x0800_0000 - 1
    ensures InstanceOf(secure, address) == NO_INSTANCE
  {
    if i == 0 { } else { }
  }

  lemma AlignDown(secure: bool, i: nat, address: nat, size: nat)
    requires InsideRegion(secure, i, address, size) && size > 0
    ensures var s := SecureAddr(secure, address);
      SecureAddr(secure, address - address % 32) == s - s % 32
    ensures address + size <= UINT32_MAX
    ensures SecureAddr(secure, address) < PhysMemBase(secure, i) + 0x0800_0000 - 1 ==> InstanceOf(secure, address) == i
  {
    if secure { if i == 0 { } else { } } else { if i == 0 { } else { } }
  }

  // The lines met by line starts, an address space without aliases.
  lemma StartedLines(start: nat, end: nat, l: nat)
    requires start % 32 == 0
    ensures (exists a <- LineStarts(start, end) :: a / 32 == l)
       <==> start / 32 <= l && l * 32 < end
  {
    var cmds := LineStarts(start, end);
    LineStartsAre(start, end);
    if start / 32 <= l && l * 32 < end {
      var a := cmds[l - start / 32];
      assert a in cmds && a / 32 == l;
    }
  }

  // Inside a region, dropping bit 28 shifts every line number by the same amount.
  lemma LineShift(secure: bool, i: nat, x: nat)
    requires i < 2 && PhysMemBase(secure, i) <= x < PhysMemBase(secure, i) + 0x0800_0000
    ensures LineOf(x) == x / 32 - (if secure then 0x80_0000 else 0)
    ensures InRegion(i, LineOf(x))
  {
    if secure { if i == 0 { } else { } } else { if i == 0 { } else { } }
  }

  lemma CommandedLines(secure: bool, i: nat, start: nat, end: nat, l: nat)
    requires i < 2 && PhysMemBase(secure, i) <= start && end < PhysMemBase(secure, i) + 0x0800_0000
    requires start % 32 == 0
    ensures var k := l + (if secure then 0x80_0000 else 0);
      l in LinesOf(LineStarts(start, end))
      <==> start / 32 <= k && k * 32 < end
  {
    var cmds := LineStarts(start, end);
    var k := l + (if secure then 0x80_0000 else 0);
    LineStartsAre(start, end);
    StartedLines(start, end, k);
    forall a <- cmds ensures LineOf(a) == l <==> a / 32 == k {
      LineShift(secure, i, a);
    }
    if a :| a in cmds && a / 32 == k {
      assert LineOf(a) == l;
    }
  }

  // Inside one region every byte is covered, except that the last byte of the range is missed
  // exactly when it is the first byte of a line, and that a range starting on the last byte of
  // the region is not recognised at all.
  lemma {:induction false} RangeCoverage(secure: bool, i: nat, address: nat, size: nat, b: nat)
    requires InsideRegion(secure, i, address, size)
    requires address <= b < address + size
    ensures LineOf(b) in RangeLines(secure, address, size)
       <==> !(b == address + size - 1 && b % 32 == 0)
            && SecureAddr(secure, address) != PhysMemBase(secure, i) + 0x0800_0000 - 1
  {
    var s, d := SecureAddr(secure, address), b - address;
    InsideRegionLines(secure, i, address, size);
    InsideRegionMaps(secure, i, address, size, d);
    if s != PhysMemBase(secure, i) + 0x0800_0000 - 1 {
      CoveredByte(secure, i, s, size, s + d);
    }
  }

  lemma InsideRegionLines(secure: bool, i: nat, address: nat, size: nat)
    requires InsideRegion(secure, i, address, size) && size > 0
    ensures var s := SecureAddr(secure, address);
      RangeLines(secure, address, size)
      == if s == PhysMemBase(secure, i) + 0x0800_0000 - 1 then {} else LinesOf(LineStarts(s - s % 32, s + size - 1))
  {
    InsideRegionCommands(secure, i, address, size);
  }

  lemma CoveredByte(secure: bool, i: nat, s: nat, size: nat, x: nat)
    requires i < 2 && PhysMemBase(secure, i) <= s <= x < s + size <= PhysMemBase(secure, i) + 0x0800_0000
    ensures LineOf(x) in LinesOf(LineStarts(s - s % 32, s + size - 1))
       <==> !(x == s + size - 1 && x % 32 == 0)
  {
    CoveredBelow(secure, i, s, x, s + size - 1);
  }

  // The line of a byte of the region is commanded exactly when it starts below the end.
  lemma CoveredBelow(secure: bool, i: nat, s: nat, x: nat, end: nat)
    requires i < 2 && PhysMemBase(secure, i) <= s <= x < PhysMemBase(secure, i) + 0x0800_0000
    requires end < PhysMemBase(secure, i) + 0x0800_0000
    ensures LineOf(x) in LinesOf(LineStarts(s - s % 32, end)) <==> x - x % 32 < end
  {
    LineStartOf(s, x);
    StartInRegion(secure, i, s);
    LineCommanded(secure, i, s - s % 32, end, x);
  }

  lemma StartInRegion(secure: bool, i: nat, s: nat)
    requires i < 2 && PhysMemBase(secure, i) <= s
    ensures PhysMemBase(secure, i) <= s - s % 32
  {
    assert PhysMemBase(secure, i) % 32 == 0;
  }

  lemma LineCommanded(secure: bool, i: nat, start: nat, end: nat, x: nat)
    requires i < 2 && PhysMemBase(secure, i) <= start && end < PhysMemBase(secure, i) + 0x0800_0000
    requires start % 32 == 0 && PhysMemBase(secure, i) <= x < PhysMemBase(secure, i) + 0x0800_0000
    ensures LineOf(x) in LinesOf(LineStarts(start, end)) <==> start / 32 <= x / 32 && x / 32 * 32 < end
  {
    LineShift(secure, i, x);
    CommandedLines(secure, i, start, end, LineOf(x));
  }

  lemma LineStartOf(s: nat, x: nat)
    requires s <= x
    ensures (s - s % 32) % 32 == 0 && (s - s % 32) / 32 <= x / 32 && x / 32 * 32 == x - x % 32
  {
  }

  // A line-aligned, non-empty range inside one region is covered exactly.
  lemma {:induction false} AlignedCoverage(secure: bool, i: nat, address: nat, size: nat, l: nat)
    requires InsideRegion(secure, i, address, size)
    requires address % 32 == 0 && size % 32 == 0 && size > 0
    ensures l in RangeLines(secure, address, size)
       <==> LineOf(address) <= l < LineOf(address) + size / 32
    ensures l in RangeLines(secure, address, size) ==> InRegion(i, l)
  {
    AlignedStart(secure, i, address, size);
    AlignedLines(secure, i, SecureAddr(secure, address), size, l);
    InsideRegionLines(secure, i, address, size);
  }

  lemma AlignedStart(secure: bool, i: nat, address: nat, size: nat)
    requires InsideRegion(secure, i, address, size) && address % 32 == 0 && size > 0
    ensures var s := SecureAddr(secure, address);
      s % 32 == 0 && LineOf(s) == LineOf(address)
  {
    InsideRegionMaps(secure, i, address, size, 0);
  }

  lemma AlignedLines(secure: bool, i: nat, s: nat, size: nat, l: nat)
    requires i < 2 && PhysMemBase(secure, i) <= s < s + size <= PhysMemBase(secure, i) + 0x0800_0000
    requires s % 32 == 0 && size % 32 == 0
    ensures s != PhysMemBase(secure, i) + 0x0800_0000 - 1
    ensures var lines := LinesOf(LineStarts(s - s % 32, s + size - 1));
      && (l in lines <==> LineOf(s) <= l < LineOf(s) + size / 32)
      && (l in lines ==> InRegion(i, l))
  {
    assert PhysMemBase(secure, i) % 32 == 0;
    CommandedLines(secure, i, s, s + size - 1, l);
    LineShift(secure, i, s);
    LineShift(secure, i, s + size - 1);
  }

  // Whatever the size, a byte of the region is covered exactly when its line starts below the
  // clamped last byte.
  lemma {:induction false} ClampedCoverage(secure: bool, i: nat, address: nat, size: nat, b: nat)
    requires i < 2 && InstanceOf(secure, address) == i && size > 0 && address + size <= UINT32_MAX
    requires address <= b && InsideRegion(secure, i, address, b - address + 1)
    ensures var x := SecureAddr(secure, address) + (b - address);
      LineOf(b) in RangeLines(secure, address, size) <==> x - x % 32 < ClampedLast(secure, i, address, size)
  {
    var s, end := SecureAddr(secure, address), ClampedLast(secure, i, address, size);
    var x := s + (b - address);
    assert LineOf(x) == LineOf(b) by {
      InsideRegionMaps(secure, i, address, b - address + 1, b - address);
    }
    assert SecureAddr(secure, address - address % 32) == s - s % 32 by { AlignDown(secure, i, address, 1); }
    assert RangeCommands(secure, address, size) == LineStarts(s - s % 32, end);
    CoveredBelow(secure, i, s, x, end);
  }

  function ClampedLast(secure: bool, i: nat, address: nat, size: nat): nat
    requires size > 0
  {
    var last := SecureAddr(secure, address + size - 1);
    if last > RegionEnd(secure, i) then RegionEnd(secure, i) else last
  }

  // The last byte of a region.
  function RegionEnd(secure: bool, i: nat): nat { PhysMemBase(secure, i) + 0x0800_0000 - 1 }

  // The line of a byte of the region, from the address on, is commanded.
  predicate Reached(secure: bool, i: nat, address: nat, size: nat, b: nat)
    requires address <= b
  {
    InsideRegion(secure, i, address, b - address + 1) ==> LineOf(b) in RangeLines(secure, address, size)
  }

  // A range is maintained up to the end of its region exactly when its last byte, with bit 28 set
  // in a secure build, lies beyond the start of the region's last line.
  lemma {:induction false} CrossingCoverage(secure: bool, i: nat, address: nat, size: nat)
    requires i < 2 && InstanceOf(secure, address) == i && size > 0 && address + size <= UINT32_MAX
    ensures (forall b: nat | address <= b :: Reached(secure, i, address, size, b))
       <==> SecureAddr(secure, address + size - 1) > RegionEnd(secure, i) - 31
  {
    var top := address + (RegionEnd(secure, i) - SecureAddr(secure, address));
    RegionEndAligned(secure, i);
    if SecureAddr(secure, address + size - 1) > RegionEnd(secure, i) - 31 {
      forall b: nat | address <= b ensures Reached(secure, i, address, size, b) {
        if InsideRegion(secure, i, address, b - address + 1) {
          ClampedCoverage(secure, i, address, size, b);
          LineStartBelow(SecureAddr(secure, address) + (b - address), RegionEnd(secure, i));
        }
      }
    } else {
      ClampedCoverage(secure, i, address, size, top);
      assert !Reached(secure, i, address, size, top);
    }
  }

  lemma RegionEndAligned(secure: bool, i: nat)
    requires i < 2
    ensures RegionEnd(secure, i) % 32 == 31
  {
    if i == 0 { } else { }
  }

  lemma LineStartBelow(x: nat, limit: nat)
    requires x <= limit && limit % 32 == 31
    ensures x - x % 32 <= limit - 31
  {
  }

  // 33 bytes from the start of region 0: the last of them begins a line and is missed. And the last
  // byte of the region by itself.
  lemma LastByteMissed()
    ensures InsideRegion(false, 0, 0x0800_0000, 33)
    ensures LineOf(0x0800_0020) !in RangeLines(false, 0x0800_0000, 33)
    ensures InsideRegion(false, 0, 0x0FFF_FFFF, 1) && LineOf(0x0FFF_FFFF) !in RangeLines(false, 0x0FFF_FFFF, 1)
  {
    RangeCoverage(false, 0, 0x0800_0000, 33, 0x0800_0020);
    RangeCoverage(false, 0, 0x0FFF_FFFF, 1, 0x0FFF_FFFF);
  }

  // In a secure build, given the non-secure alias of a range that leaves its region, maintenance
  // may do nothing at all.
  lemma CrossingSkipped()
    ensures InstanceOf(true, 0x0FFF_FF00) == 0
    ensures RangeCommands(true, 0x0FFF_FF00, 0x200) == []
  {
  }

  class CacheSystem {
    const secure: bool           // build variant of MSDK_REG_SECURE_ADDR
    var s: State                 // both controllers and memory
    var busy: nat                // polls left for the running command, chosen by the hardware
    var lgo: bool                // CSAR.LGO
    var aliasId: nat             // g_cache64MemPhyAliasId
    ghost var issued: seq<nat>   // addresses stored to CSAR with LGO set

    // Both caches off and empty.
    constructor (secure: bool, memory: Memory)
      ensures Valid({}) && View(s) == memory && this.secure == secure
    {
      this.secure := secure;
      s := Hardware(seq(2, _ => Ctrl({}, SearchReadWrite, false, map[])), memory);
      busy, lgo, aliasId, issued := 0, false, 0, [];
    }

    // Between driver calls no command bit is left behind.
    ghost predicate Valid(owned: set<nat>)
      reads this
    {
      && Inv(s, owned)
      && !lgo
      && (s.ctrl[0].ccr + s.ctrl[1].ccr) * (PUSH + INVALIDATE + {Go}) == {}
    }

    // Any number of evictions and fills.
    method Background(ghost owned: set<nat>)
      requires Inv(s, owned)
      modifies this`s
      ensures Inv(s, owned) && SameRegisters(old(s), s) && Kept(old(s), s, owned, {})
    {
      var n: nat := *;
      KeptRefl(s, owned);
      while n > 0
        invariant Inv(s, owned) && SameRegisters(old(s), s) && Kept(old(s), s, owned, {})
      {
        var before := s;
        var i: nat, l: nat, way1: bool, evict: bool := *, *, *, *;
        if i < 2 && InRegion(i, l) {
          if evict {
            MaintainKeeps(s, i, {l}, {l}, owned);
            s := Maintain(s, i, {l}, {l});
            KeptTrans(old(s), before, s, owned, {}, {l} - {l}, {});
          } else {
            FillKeeps(s, i, l, way1, owned);
            s := Fill(s, i, l, way1);
            KeptTrans(old(s), before, s, owned, {}, {}, {});
          }
        }
        n := n - 1;
      }
    }

    method GetInstanceByAddr(address: nat) returns (instance: nat)
      requires address <= UINT32_MAX
      modifies this`aliasId
      ensures instance == InstanceOf(secure, address)
      ensures aliasId == if instance == NO_INSTANCE then 1 else 0
    {
      var i := 0;
      aliasId := 0;
      while i < 2
        invariant i <= 2 && aliasId == (if i == 0 then 0 else 1)
        invariant forall j | 0 <= j < i ::
          !(PhysMemBase(secure, j) <= SecureAddr(secure, address) < PhysMemBase(secure, j) + 0x0800_0000 - 1)
      {
        aliasId := 0;
        while aliasId < 1
          invariant aliasId <= 1
          invariant forall j | 0 <= j < i + aliasId ::
            !(PhysMemBase(secure, j) <= SecureAddr(secure, address) < PhysMemBase(secure, j) + 0x0800_0000 - 1)
        {
          if PhysMemBase(secure, i) <= SecureAddr(secure, address)
             && SecureAddr(secure, address) < PhysMemBase(secure, i) + 0x0800_0000 - 1 {
            return i;
          }
          aliasId := aliasId + 1;
        }
        i := i + 1;
      }
      return NO_INSTANCE;
    }

    // One read of CCR while the hardware runs; the command may end here.
    method PollCcr(i: nat, cmd: set<CcrBit>, ghost owned: set<nat>) returns (ccr: set<CcrBit>)
      requires i < 2 && Inv(s, owned) && Go in s.ctrl[i].ccr
      requires IsCommand(cmd) && s.ctrl[i].ccr * (PUSH + INVALIDATE) == cmd
      modifies this`s, this`busy
      ensures Inv(s, owned) && ccr == s.ctrl[i].ccr
      ensures s.ctrl[1 - i].ccr == old(s.ctrl[1 - i].ccr)
      ensures Go in ccr ==> ccr == old(s.ctrl[i].ccr) && busy < old(busy) && Kept(old(s), s, owned, {})
      ensures Go !in ccr ==>
        && ccr == old(s.ctrl[i].ccr) - {Go}
        && Kept(old(s), s, owned, Risked(cmd, i))
        && CommandDone(s, i, cmd)
    {
      Background(owned);
      if busy == 0 {
        ghost var before := s;
        CompleteKeeps(s, i, cmd, owned);
        s := Complete(s, i);
        KeptTrans(old(s), before, s, owned, {}, Risked(cmd, i), Risked(cmd, i));
      } else {
        busy := busy - 1;
      }
      ccr := s.ctrl[i].ccr;
    }

    // Set command bits and GO, wait for GO to clear, clear the command bits again.
    method RunCommand(i: nat, cmd: set<CcrBit>, ghost owned: set<nat>)
      requires i < 2 && Valid(owned) && IsCommand(cmd)
      modifies this`s, this`busy
      ensures Valid(owned) && s.ctrl[0].ccr == old(s.ctrl[0].ccr) && s.ctrl[1].ccr == old(s.ctrl[1].ccr)
      ensures Kept(old(s), s, owned, Risked(cmd, i)) && CommandDone(s, i, cmd)
    {
      ghost var ccr0 := s.ctrl[i].ccr;
      s, busy := WithCcr(s, i, s.ctrl[i].ccr + cmd + {Go}), *;
      RegistersKeep(old(s), s, owned);
      var ccr := s.ctrl[i].ccr;
      while Go in ccr
        invariant Inv(s, owned) && ccr == s.ctrl[i].ccr && s.ctrl[1 - i].ccr == old(s.ctrl[1 - i].ccr)
        invariant ccr - {Go} == ccr0 + cmd
        invariant Go in ccr ==> Kept(old(s), s, owned, {})
        invariant Go !in ccr ==> Kept(old(s), s, owned, Risked(cmd, i)) && CommandDone(s, i, cmd)
        decreases Go in ccr, busy
      {
        ghost var before := s;
        ccr := PollCcr(i, cmd, owned);
        if Go in ccr {
          KeptTrans(old(s), before, s, owned, {}, {}, {});
        } else {
          KeptTrans(old(s), before, s, owned, {}, Risked(cmd, i), Risked(cmd, i));
        }
      }
      ghost var done := s;
      s := WithCcr(s, i, s.ctrl[i].ccr - cmd);
      assert s.ctrl[i].ccr == ccr0;
      RegistersKeep(done, s, owned);
      KeptTrans(old(s), done, s, owned, Risked(cmd, i), {}, Risked(cmd, i));
      StaysDone(done, s, i, cmd, owned);
    }

    // The CPU's view survives although every line of the cache is dropped.
    method EnableCache(i: nat, ghost owned: set<nat>)
      requires i < 2 && Valid(owned)
      modifies this`s, this`busy
      ensures Valid(owned)
      ensures s.ctrl[i].ccr == old(s.ctrl[i].ccr) + {Encache} && s.ctrl[1 - i].ccr == old(s.ctrl[1 - i].ccr)
      ensures Shown(old(s), s, owned)
    {
      if Encache !in s.ctrl[i].ccr {
        RunCommand(i, INVALIDATE, owned);
        ghost var done := s;
        s := WithCcr(s, i, s.ctrl[i].ccr + {Encache});
        forall l: nat | l < LINES
          ensures LineOk(s, owned, l) && ShownLine(old(s), s, owned, l)
        {
          assert LineOk(old(s), owned, l) && LineOk(done, owned, l);
          assert KeptLine(old(s), done, owned, Risked(INVALIDATE, i), l);
        }
      }
    }

    method DisableCache(i: nat, ghost owned: set<nat>)
      requires i < 2 && Valid(owned)
      modifies this`s, this`busy
      ensures Valid(owned)
      ensures s.ctrl[i].ccr == old(s.ctrl[i].ccr) - {Encache} && s.ctrl[1 - i].ccr == old(s.ctrl[1 - i].ccr)
      ensures Shown(old(s), s, owned)
    {
      if Encache in s.ctrl[i].ccr {
        RunCommand(i, PUSH, owned);
        ghost var done := s;
        s := WithCcr(s, i, s.ctrl[i].ccr - {Encache});
        forall l: nat | l < LINES
          ensures LineOk(s, owned, l) && ShownLine(old(s), s, owned, l)
        {
          assert LineOk(done, owned, l) && KeptLine(old(s), done, owned, {}, l);
        }
      }
    }

    // Loses what was written and not yet written back.
    method InvalidateCache(i: nat, ghost owned: set<nat>)
      requires i < 2 && Valid(owned)
      modifies this`s, this`busy
      ensures Valid(owned) && s.ctrl[0].ccr == old(s.ctrl[0].ccr) && s.ctrl[1].ccr == old(s.ctrl[1].ccr)
      ensures Kept(old(s), s, owned, Risked(INVALIDATE, i)) && CommandDone(s, i, INVALIDATE)
    {
      RunCommand(i, INVALIDATE, owned);
    }

    method CleanCache(i: nat, ghost owned: set<nat>)
      requires i < 2 && Valid(owned)
      modifies this`s, this`busy
      ensures Valid(owned) && s.ctrl[0].ccr == old(s.ctrl[0].ccr) && s.ctrl[1].ccr == old(s.ctrl[1].ccr)
      ensures Kept(old(s), s, owned, {}) && CommandDone(s, i, PUSH)
    {
      RunCommand(i, PUSH, owned);
    }

    method CleanInvalidateCache(i: nat, ghost owned: set<nat>)
      requires i < 2 && Valid(owned)
      modifies this`s, this`busy
      ensures Valid(owned) && s.ctrl[0].ccr == old(s.ctrl[0].ccr) && s.ctrl[1].ccr == old(s.ctrl[1].ccr)
      ensures Kept(old(s), s, owned, {}) && CommandDone(s, i, PUSH + INVALIDATE)
    {
      RunCommand(i, PUSH + INVALIDATE, owned);
    }

    // One read of CSAR while the hardware runs; the line command may end here.
    method PollCsar(i: nat, l: nat, ghost owned: set<nat>)
      requires i < 2 && Inv(s, owned) && InRegion(i, l) && lgo && s.ctrl[i].lcmd != SearchReadWrite
      modifies this`s, this`busy, this`lgo
      ensures Inv(s, owned) && SameRegisters(old(s), s)
      ensures lgo ==> busy < old(busy) && Kept(old(s), s, owned, {})
      ensures !lgo ==> Kept(old(s), s, owned, if s.ctrl[i].lcmd == InvalidateLine then {l} else {})
      ensures !lgo ==> LineDone(s, i, s.ctrl[i].lcmd, l)
    {
      Background(owned);
      if busy == 0 {
        ghost var before, drop := s, if s.ctrl[i].lcmd == InvalidateLine then {l} else {};
        CompleteLineKeeps(s, i, l, owned);
        s, lgo := CompleteLine(s, i, l), false;
        KeptTrans(old(s), before, s, owned, {}, drop, drop);
      } else {
        busy := busy - 1;
      }
    }

    // Store one address to CSAR with LGO and wait until LGO reads as zero.
    method IssueLine(i: nat, address: nat, ghost owned: set<nat>)
      requires i < 2 && Valid(owned) && InRegion(i, LineOf(address))
      requires s.ctrl[i].ladsel && s.ctrl[i].lcmd != SearchReadWrite
      modifies this`s, this`busy, this`lgo, this`issued
      ensures Valid(owned) && SameRegisters(old(s), s)
      ensures issued == old(issued) + [address]
      ensures Kept(old(s), s, owned, Lost(s.ctrl[i].lcmd, [address]))
      ensures LineDone(s, i, s.ctrl[i].lcmd, LineOf(address))
    {
      ghost var cmd := s.ctrl[i].lcmd;
      ghost var drop := if cmd == InvalidateLine then {LineOf(address)} else {};
      assert drop == Lost(cmd, [address]);
      lgo, busy, issued := true, *, issued + [address];
      KeptRefl(s, owned);
      while lgo
        invariant Inv(s, owned) && SameRegisters(old(s), s) && issued == old(issued) + [address]
        invariant lgo ==> Kept(old(s), s, owned, {})
        invariant !lgo ==> Kept(old(s), s, owned, drop) && LineDone(s, i, cmd, LineOf(address))
        decreases lgo, busy
      {
        ghost var before := s;
        PollCsar(i, LineOf(address), owned);
        if lgo {
          KeptTrans(old(s), before, s, owned, {}, {}, {});
        } else {
          KeptTrans(old(s), before, s, owned, {}, drop, drop);
        }
      }
    }

    // One round: the next line start, after those done since `start`.
    method IssueNext(i: nat, next: nat, ghost start: State, ghost done: seq<nat>, ghost owned: set<nat>)
      requires i < 2 && Valid(owned) && s.ctrl[i].ladsel && s.ctrl[i].lcmd != SearchReadWrite
      requires InRegion(i, LineOf(next)) && SameRegisters(start, s)
      requires Progress(start, s, i, done, owned)
      modifies this`s, this`busy, this`lgo, this`issued
      ensures Valid(owned) && SameRegisters(start, s) && issued == old(issued) + [next]
      ensures s.ctrl[i].lcmd == old(s.ctrl[i].lcmd) && s.ctrl[i].ladsel
      ensures Progress(start, s, i, done + [next], owned)
    {
      ghost var before, cmd := s, s.ctrl[i].lcmd;
      IssueLine(i, next, owned);
      OneMoreLine(start, before, s, i, cmd, done, next, owned);
    }

    // The loop over the line starts from startAddr up to, but not including, endAddr.
    method IssueLines(i: nat, startAddr: nat, endAddr: nat, ghost owned: set<nat>)
      requires i < 2 && Valid(owned) && s.ctrl[i].ladsel && s.ctrl[i].lcmd != SearchReadWrite
      requires AllInRegion(i, LineStarts(startAddr, endAddr))
      modifies this`s, this`busy, this`lgo, this`issued
      ensures Valid(owned) && SameRegisters(old(s), s)
      ensures issued == old(issued) + LineStarts(startAddr, endAddr)
      ensures Kept(old(s), s, owned, Lost(s.ctrl[i].lcmd, LineStarts(startAddr, endAddr)))
      ensures LinesDone(s, i, s.ctrl[i].lcmd, LineStarts(startAddr, endAddr))
    {
      var next := startAddr;
      ghost var start, first, all := s, issued, LineStarts(startAddr, endAddr);
      ghost var done: seq<nat> := [];
      assert first + [] == first;
      NothingDone(s, i, owned);
      while next < endAddr
        invariant Remaining(all, done, next, endAddr)
        invariant Valid(owned) && SameRegisters(start, s) && issued == first + done
        invariant s.ctrl[i].ladsel && s.ctrl[i].lcmd != SearchReadWrite
        invariant Progress(start, s, i, done, owned)
        decreases endAddr as int - next
      {
        NextStart(i, all, done, next, endAddr);
        IssueNext(i, next, start, done, owned);
        assert (first + done) + [next] == first + (done + [next]);
        done := done + [next];
        next := (next + 32) % 0x1_0000_0000;
      }
      NoStarts(all, done, next, endAddr);
    }

    // The body shared by the three by-range functions, which differ in LCMD only.
    method CacheByRange(address: nat, size: nat, cmd: LineCmd, ghost owned: set<nat>)
      requires Valid(owned) && address <= UINT32_MAX && size <= UINT32_MAX && cmd != SearchReadWrite
      modifies this
      ensures Valid(owned) && s.ctrl[0].ccr == old(s.ctrl[0].ccr) && s.ctrl[1].ccr == old(s.ctrl[1].ccr)
      ensures issued == old(issued) + RangeCommands(secure, address, size)
      ensures Kept(old(s), s, owned, Lost(cmd, RangeCommands(secure, address, size)))
      ensures RangeCommands(secure, address, size) == []
        || (InstanceOf(secure, address) < 2
            && LinesDone(s, InstanceOf(secure, address), cmd, RangeCommands(secure, address, size)))
    {
      KeptRefl(s, owned);
      assert Lost(cmd, []) == {};
      if size > 0 {
        if UINT32_MAX - address < size {
          return;
        }
        var endAddr := SecureAddr(secure, address + size - 1);
        var startAddr := SecureAddr(secure, address - address % 32);
        var instance := GetInstanceByAddr(address);
        if instance >= 2 {
          return;
        }
        var endLim := SecureAddr(secure, PhysMemBase(secure, instance) + 0x0800_0000 - 1);
        endAddr := if endAddr > endLim then endLim else endAddr;
        CommandsInRegion(secure, instance, address, size);
        ghost var all := RangeCommands(secure, address, size);
        assert all == LineStarts(startAddr, endAddr);
        s := WithLineCmd(s, instance, cmd);
        RegistersKeep(old(s), s, owned);
        ghost var before := s;
        IssueLines(instance, startAddr, endAddr, owned);
        KeptTrans(old(s), before, s, owned, {}, Lost(cmd, all), Lost(cmd, all));
      }
    }

    method InvalidateCacheByRange(address: nat, size: nat, ghost owned: set<nat>)
      requires Valid(owned) && address <= UINT32_MAX && size <= UINT32_MAX
      modifies this
      ensures Valid(owned) && s.ctrl[0].ccr == old(s.ctrl[0].ccr) && s.ctrl[1].ccr == old(s.ctrl[1].ccr)
      ensures issued == old(issued) + RangeCommands(secure, address, size)
      ensures Kept(old(s), s, owned, RangeLines(secure, address, size))
      ensures forall l <- RangeLines(secure, address, size) :: l < LINES && Synced(s, l)
    {
      CacheByRange(address, size, InvalidateLine, owned);
    }

    method CleanCacheByRange(address: nat, size: nat, ghost owned: set<nat>)
      requires Valid(owned) && address <= UINT32_MAX && size <= UINT32_MAX
      modifies this
      ensures Valid(owned) && s.ctrl[0].ccr == old(s.ctrl[0].ccr) && s.ctrl[1].ccr == old(s.ctrl[1].ccr)
      ensures issued == old(issued) + RangeCommands(secure, address, size)
      ensures Kept(old(s), s, owned, {})
      ensures forall l <- RangeLines(secure, address, size) ::
        l < LINES && (l !in owned ==> s.mem[l] == CpuLine(old(s), l))
    {
      CacheByRange(address, size, PushLine, owned);
      forall l <- RangeLines(secure, address, size)
        ensures l < LINES && (l !in owned ==> s.mem[l] == CpuLine(old(s), l))
      {
        assert LineOk(s, owned, l) && KeptLine(old(s), s, owned, {}, l);
      }
    }

    method CleanInvalidateCacheByRange(address: nat, size: nat, ghost owned: set<nat>)
      requires Valid(owned) && address <= UINT32_MAX && size <= UINT32_MAX
      modifies this
      ensures Valid(owned) && s.ctrl[0].ccr == old(s.ctrl[0].ccr) && s.ctrl[1].ccr == old(s.ctrl[1].ccr)
      ensures issued == old(issued) + RangeCommands(secure, address, size)
      ensures Kept(old(s), s, owned, {})
      ensures forall l <- RangeLines(secure, address, size) :: l < LINES && Synced(s, l)
    {
      CacheByRange(address, size, ClearLine, owned);
    }

    // CPU accesses, each with background activity before it.
    method Read(l: nat, off: nat, ghost owned: set<nat>) returns (value: Byte)
      requires Valid(owned) && l < LINES && l !in owned && off < 32
      modifies this`s
      ensures Valid(owned) && Kept(old(s), s, owned, {}) && SameRegisters(old(s), s)
      ensures value == CpuLine(old(s), l)[off]
    {
      Background(owned);
      assert KeptLine(old(s), s, owned, {}, l);
      value := CpuLine(s, l)[off];
    }

    method Write(l: nat, off: nat, value: Byte, ghost owned: set<nat>)
      requires Valid(owned) && l < LINES && l !in owned && off < 32
      modifies this`s
      ensures Valid(owned) && s.ctrl[0].ccr == old(s.ctrl[0].ccr) && s.ctrl[1].ccr == old(s.ctrl[1].ccr)
      ensures CpuLine(s, l) == CpuLine(old(s), l)[off := value]
      ensures forall k: nat | k < LINES && k !in owned && k != l :: CpuLine(s, k) == CpuLine(old(s), k)
      ensures forall k: nat | k < LINES && k != l ::
        s.mem[k] == old(s).mem[k] || (k !in owned && s.mem[k] == CpuLine(old(s), k))
    {
      Background(owned);
      ghost var before := s;
      forall k: nat | k < LINES
        ensures k !in owned ==> CpuLine(before, k) == CpuLine(old(s), k)
        ensures before.mem[k] == old(s).mem[k] || (k !in owned && before.mem[k] == CpuLine(old(s), k))
      {
        assert KeptLine(old(s), before, owned, {}, k);
      }
      var allocate: bool, way1: bool := *, *;
      var i := if InRegion(1, l) then 1 else 0;
      var data := CpuLine(s, l)[off := value];
      StoreView(s, i, l, data, allocate, way1, owned);
      s := Store(s, i, l, data, allocate, way1);
    }
  }

  // Commands stay inside the region of their controller, so the 32-bit address never wraps.
  lemma CommandsInRegion(secure: bool, i: nat, address: nat, size: nat)
    requires i < 2 && InstanceOf(secure, address) == i && 0 < size && address + size <= UINT32_MAX
    ensures AllInRegion(i, RangeCommands(secure, address, size))
    ensures SecureAddr(secure, PhysMemBase(secure, i) + 0x0800_0000 - 1) == PhysMemBase(secure, i) + 0x0800_0000 - 1
  {
    var s := SecureAddr(secure, address);
    AlignDown(secure, i, address, 1);
    var limit, last := PhysMemBase(secure, i) + 0x0800_0000 - 1, SecureAddr(secure, address + size - 1);
    StartsInRegion(secure, i, s, if last > limit then limit else last);
  }

  lemma StartsInRegion(secure: bool, i: nat, s: nat, end: nat)
    requires i < 2 && PhysMemBase(secure, i) <= s && end < PhysMemBase(secure, i) + 0x0800_0000
    ensures AllInRegion(i, LineStarts(s - s % 32, end))
  {
    assert PhysMemBase(secure, i) <= s - s % 32 by { assert PhysMemBase(secure, i) % 32 == 0; }
    LineStartsAre(s - s % 32, end);
    forall a <- LineStarts(s - s % 32, end) ensures InRegion(i, LineOf(a)) && a + 32 <= UINT32_MAX {
      LineShift(secure, i, a);
    }
  }
}
