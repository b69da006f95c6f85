// SDK_Malloc and SDK_Free (drivers/fsl_common.c): an aligned pointer with a header in front of it,
// inside a larger block of the C heap.

module AlignedHeap {
  import opened Arithmetic
  import opened Bits

  const SIZE_MAX: nat := 0xFFFF_FFFF
  const SDK_MEM_MAGIC_NUMBER: nat := 12345

  // SDK_SIZEALIGN, for any alignment, in 32 bits.
  function SizeAlign(v: nat, a: nat): nat { MaskOff(Wrap(v + Wrap(a - 1)), Wrap(a - 1)) }

  function MaskOff(x: nat, mask: nat): nat { Bitwise(AndNot, x, mask, 32) }

  predicate IsPow2(a: nat) { exists k: nat :: k < 32 && a == Pow2(k) }

  lemma Pow2Small(k: nat)
    requires k < 32
    ensures Pow2(k) <= 0x8000_0000
  {
    Pow2Mono(k, 31);
    Pow2Widths();
    assert Pow2(32) == 2 * Pow2(31);
  }

  lemma {:induction false} Pow2Mono(j: nat, k: nat)
    requires j <= k
    ensures Pow2(j) <= Pow2(k)
  {
    if j < k { Pow2Mono(j, k - 1); }
  }

  // The next multiple of the alignment; when that does not fit, less than the argument.
  lemma AlignsUp(v: nat, a: nat)
    requires IsPow2(a) && v <= SIZE_MAX
    ensures 0 < a <= 0x8000_0000
    ensures var r := SizeAlign(v, a);
      if v + a - 1 <= SIZE_MAX then r % a == 0 && v <= r < v + a else r < v
  {
    var k: nat :| k < 32 && a == Pow2(k);
    Pow2Small(k);
    SizeAlignIs(v, a);
    Masked(v, a, k, SizeAlign(v, a));
  }

  // For any alignment the argument is rounded up, by less than the alignment.
  lemma GrowsTo(v: nat, a: nat)
    requires 0 < a <= SIZE_MAX && v <= SIZE_MAX
    ensures var r := SizeAlign(v, a);
      r <= SIZE_MAX && if v + a - 1 <= SIZE_MAX then v <= r < v + a else r < v
  {
    SizeAlignIs(v, a);
    RoundsUp(v, a, SizeAlign(v, a));
  }

  lemma RoundsUp(v: nat, a: nat, r: nat)
    requires 0 < a <= SIZE_MAX && v <= SIZE_MAX && r == MaskOff(Wrap(v + (a - 1)), a - 1)
    ensures r <= SIZE_MAX && if v + a - 1 <= SIZE_MAX then v <= r < v + a else r < v
  {
    WrapSum(v, a - 1);
    RoundsWord(v, a, Wrap(v + (a - 1)), r);
  }

  lemma RoundsWord(v: nat, a: nat, x: nat, r: nat)
    requires 0 < a <= SIZE_MAX && v <= SIZE_MAX && r == MaskOff(x, a - 1)
    requires x == if v + a - 1 <= SIZE_MAX then v + a - 1 else v + a - 1 - 0x1_0000_0000
    ensures r <= SIZE_MAX && if v + a - 1 <= SIZE_MAX then v <= r < v + a else r < v
  {
    WordCleared(x, a - 1);
  }

  lemma SizeAlignIs(v: nat, a: nat)
    requires 0 < a <= SIZE_MAX
    ensures SizeAlign(v, a) == MaskOff(Wrap(v + (a - 1)), a - 1)
  {
    Small(a - 1);
  }

  lemma WrapSum(v: nat, w: nat)
    requires v <= SIZE_MAX && w <= SIZE_MAX
    ensures Wrap(v + w) == if v + w <= SIZE_MAX then v + w else v + w - 0x1_0000_0000
  {
  }

  lemma WordBits()
    ensures Pow2(32) == 0x1_0000_0000
  {
    Pow2Widths();
  }

  lemma WordCleared(x: nat, y: nat)
    requires x <= SIZE_MAX && y <= SIZE_MAX
    ensures var r := MaskOff(x, y); r <= x <= r + y && r + y <= SIZE_MAX
  {
    WordBits();
    ClearBounds(x, y, 32);
  }

  // The result is a multiple for every argument exactly for powers of two.
  lemma AlignsExactly(a: nat)
    requires 0 < a <= SIZE_MAX
    ensures (forall v: nat | v + a - 1 <= SIZE_MAX :: SizeAlign(v, a) % a == 0) <==> IsPow2(a)
  {
    if IsPow2(a) {
      forall v: nat | v + a - 1 <= SIZE_MAX ensures SizeAlign(v, a) % a == 0 { AlignsUp(v, a); }
    } else {
      LowestBitLeft(a);
      SmallRemainder(SizeAlign(1, a), a);
    }
  }

  lemma LowestBitLeft(a: nat)
    requires 0 < a <= SIZE_MAX && !IsPow2(a)
    ensures 0 < SizeAlign(1, a) < a
  {
    SizeAlignIs(1, a);
    LowestLeft(a, SizeAlign(1, a));
  }

  lemma LowestLeft(a: nat, r: nat)
    requires 0 < a <= SIZE_MAX && !IsPow2(a) && r == MaskOff(Wrap(1 + (a - 1)), a - 1)
    ensures 0 < r < a
  {
    Small(a);
    assert a < Pow2(32) by { Pow2Widths(); }
    LowestBit(a, 32);
  }

  lemma SmallRemainder(r: nat, a: nat)
    requires r < a
    ensures r % a == r
  {
    DivisionIs(r, a, 0, r);
  }

  lemma Small(v: nat)
    requires v <= SIZE_MAX
    ensures Wrap(v) == v
  {
  }

  lemma Masked(v: nat, a: nat, k: nat, r: nat)
    requires k < 32 && a == Pow2(k) && a <= 0x8000_0000 && v <= SIZE_MAX
    requires r == MaskOff(Wrap(v + (a - 1)), a - 1)
    ensures if v + a - 1 <= SIZE_MAX then r % a == 0 && v <= r < v + a else r < v
  {
    WordMasked(Wrap(v + (a - 1)), a, k);
    AlignCases(v, a, Wrap(v + (a - 1)));
  }

  lemma WordMasked(x: nat, a: nat, k: nat)
    requires k < 32 && a == Pow2(k) && x <= SIZE_MAX
    ensures MaskOff(x, a - 1) == x - x % a
  {
    assert x < Pow2(32) by { Pow2Widths(); }
    ClearLow(x, k, 32);
  }

  lemma AlignCases(v: nat, a: nat, x: nat)
    requires 0 < a <= 0x8000_0000 && v <= SIZE_MAX && x == Wrap(v + (a - 1))
    ensures var r := x - x % a;
      if v + a - 1 <= SIZE_MAX then r % a == 0 && v <= r < v + a else r < v
  {
    RoundDown(x, a);
    WrapSum(v, a - 1);
  }

  lemma RoundDown(x: nat, a: nat)
    requires a > 0
    ensures (x - x % a) % a == 0 && x - a < x - x % a <= x
  {
    DivisionIs(x - x % a, a, x / a, 0);
  }

  function At(mem: map<nat, Byte>, addr: nat): Byte { if addr in mem then mem[addr] else 0 }

  function LoadHalf(mem: map<nat, Byte>, addr: nat): nat { At(mem, addr) + 256 * At(mem, addr + 1) }

  function StoreHalf(mem: map<nat, Byte>, addr: nat, v: nat): map<nat, Byte>
    requires v < 0x1_0000
  {
    mem[addr := v % 256][addr + 1 := v / 256]
  }

  lemma HeaderWritten(was: map<nat, Byte>, now: map<nat, Byte>, ptr: nat, base: nat)
    requires base + 4 <= ptr <= SIZE_MAX
    requires now == StoreHalf(StoreHalf(was, Wrap(ptr - 4), SDK_MEM_MAGIC_NUMBER),
                              Wrap(ptr - 2), Wrap(ptr - base) % 0x1_0000)
    ensures LoadHalf(now, ptr - 4) == SDK_MEM_MAGIC_NUMBER
    ensures LoadHalf(now, ptr - 2) == (ptr - base) % 0x1_0000
    ensures forall a: nat :: !(ptr - 4 <= a < ptr) ==> At(now, a) == At(was, a)
  {
    Small(ptr - 4);
    Small(ptr - 2);
    Small(ptr - base);
    HalvesWritten(was, now, ptr, (ptr - base) % 0x1_0000);
  }

  lemma HalvesWritten(was: map<nat, Byte>, now: map<nat, Byte>, ptr: nat, back: nat)
    requires ptr >= 4 && back < 0x1_0000
    requires now == StoreHalf(StoreHalf(was, ptr - 4, SDK_MEM_MAGIC_NUMBER), ptr - 2, back)
    ensures LoadHalf(now, ptr - 4) == SDK_MEM_MAGIC_NUMBER && LoadHalf(now, ptr - 2) == back
    ensures forall a: nat :: !(ptr - 4 <= a < ptr) ==> At(now, a) == At(was, a)
  {
  }

  // A pointer handed out, and the block of the C heap behind it.
  datatype Loan = Loan(base: nat, size: nat, align: nat)

  // The header in front of the pointer: a magic number and the way back, in 16 bits.
  predicate HeaderOk(mem: map<nat, Byte>, ptr: nat, loan: Loan)
    requires loan.base + 4 <= ptr
  {
    && LoadHalf(mem, ptr - 4) == SDK_MEM_MAGIC_NUMBER
    && LoadHalf(mem, ptr - 2) == (ptr - loan.base) % 0x1_0000
  }

  // An aligned pointer whose header and payload lie inside the block.
  predicate LoanOk(live: map<nat, nat>, ptr: nat, loan: Loan) {
    && loan.base in live
    && loan.align > 0 && (IsPow2(loan.align) ==> ptr % loan.align == 0)
    && loan.base + 4 <= ptr < loan.base + 4 + loan.align
    && ptr < loan.base + live[loan.base]
    && ptr + loan.size <= loan.base + live[loan.base]
  }

  predicate Apart(live: map<nat, nat>, b: nat, c: nat)
    requires b in live && c in live
  {
    b != c ==> b + live[b] <= c || c + live[c] <= b
  }

  ghost predicate BlocksOk(live: map<nat, nat>) {
    && (forall b <- live :: 0 < b && b + live[b] <= 0x1_0000_0000)
    && (forall b <- live, c <- live :: Apart(live, b, c))
  }

  predicate LoanSound(mem: map<nat, Byte>, live: map<nat, nat>, out: map<nat, Loan>, p: nat)
  {
    p in out && LoanOk(live, p, out[p]) && HeaderOk(mem, p, out[p])
  }

  predicate OwnBlock(out: map<nat, Loan>, p: nat, q: nat)
    requires p in out && q in out
  {
    p != q ==> out[p].base != out[q].base
  }

  ghost predicate Owned(out: map<nat, Loan>, b: nat) { exists p: nat :: p in out && out[p].base == b }

  // Loans and blocks match one to one.
  ghost predicate LoansOk(mem: map<nat, Byte>, live: map<nat, nat>, out: map<nat, Loan>) {
    && (forall p: nat {:trigger LoanSound(mem, live, out, p)} :: p in out ==> LoanSound(mem, live, out, p))
    && (forall p: nat, q: nat {:trigger OwnBlock(out, p, q)} :: p in out && q in out ==> OwnBlock(out, p, q))
    && (forall b: nat {:trigger Owned(out, b)} :: b in live ==> Owned(out, b))
  }

  // Writing to one block leaves the headers of the others alone.
  lemma HeaderKept(mem: map<nat, Byte>, now: map<nat, Byte>, live: map<nat, nat>, out: map<nat, Loan>,
                   p: nat, block: nat)
    requires BlocksOk(live) && LoanSound(mem, live, out, p) && block in live && out[p].base != block
    requires forall a: nat :: !(block <= a < block + live[block]) ==> At(now, a) == At(mem, a)
    ensures HeaderOk(now, p, out[p])
  {
    assert Apart(live, out[p].base, block);
    forall a: nat | p - 4 <= a < p ensures At(now, a) == At(mem, a) { }
  }

  class Heap {
    var mem: map<nat, Byte>
    var live: map<nat, nat> // blocks of the C heap: address to size
    var out: map<nat, Loan> // what the clients hold: pointers from SDK_Malloc not yet freed
    ghost var asked: seq<Answer> // what malloc was asked for, and what it answered

    constructor ()
      ensures Valid() && out == map[] && asked == []
    {
      mem, live, out, asked := map[], map[], map[], [];
    }

    ghost predicate Valid() reads this { BlocksOk(live) && LoansOk(mem, live, out) }

    // malloc: NULL, or any free stretch of the address space.
    method CMalloc(n: nat) returns (p: nat)
      requires BlocksOk(live)
      modifies `live, `asked
      ensures asked == old(asked) + [Answer(n, p)]
      ensures p == 0 ==> live == old(live)
      ensures p != 0 ==> p !in old(live) && live == old(live)[p := n] && BlocksOk(live) && p + n <= 0x1_0000_0000
    {
      p := *;
      if p > 0 && p + n <= 0x1_0000_0000 && p !in live
        && forall b <- live :: b + live[b] <= p || p + n <= b
      {
        ghost var was := live;
        live := live[p := n];
        forall b <- live, c <- live ensures Apart(live, b, c) {
          if b != p && c != p { assert Apart(was, b, c); }
        }
      } else {
        p := 0;
      }
      asked := asked + [Answer(n, p)];
    }

    // free takes exactly what malloc returned.
    method CFree(p: nat)
      requires p in live && BlocksOk(live)
      modifies `live
      ensures live == old(live) - {p} && BlocksOk(live)
    {
      ghost var was := live;
      live := live - {p};
      forall b <- live, c <- live ensures Apart(live, b, c) {
        assert Apart(was, b, c);
      }
    }

    // malloc is asked once, for the rounded size, the alignment and the header, unless that does not
    // fit in 32 bits. If it refuses: NULL and nothing changed. If not: a pointer whose header and
    // payload lie inside the fresh block, aligned if the alignment is a power of two.
    method SdkMalloc(size: nat, alignbytes: nat) returns (ptr: nat)
      requires Valid() && size <= SIZE_MAX && alignbytes <= SIZE_MAX
      modifies this
      ensures Sane(alignbytes) ==> Valid()
      ensures Sane(alignbytes) && !Grantable(size, alignbytes) ==> ptr == 0
      ensures Sane(alignbytes) && ptr == 0 ==>
        mem == old(mem) && live == old(live) && out == old(out) && asked == old(asked) + Asked(size, alignbytes, 0)
      ensures Sane(alignbytes) && ptr != 0 ==>
        && ptr !in old(out) && LoanSound(mem, live, out, ptr) && out == old(out)[ptr := out[ptr]]
        && out[ptr].size == size && out[ptr].align == alignbytes
        && out[ptr].base != 0 && asked == old(asked) + Asked(size, alignbytes, out[ptr].base)
        && out[ptr].base !in old(live) && live == old(live)[out[ptr].base := BlockNeeded(size, alignbytes)]
        && forall a: nat :: !(ptr - 4 <= a < ptr) ==> At(mem, a) == At(old(mem), a)
    {
      ptr := 0;
      var alignedsize := BlockSize(size, alignbytes);
      if alignedsize == 0 { return; }
      ghost var was, wasMem, wasOut := live, mem, out;
      var p := CMalloc(alignedsize);
      if p == 0 { return; }
      if Sane(alignbytes) {
        NeededBounds(size, alignbytes);
        Placed(live, p, size, alignbytes);
      }
      ptr := SizeAlign(Wrap(p + 4), alignbytes);
      out := out[ptr := Loan(p, size, alignbytes)];
      WriteHeader(ptr, p);
      if Sane(alignbytes) { LoanMade(wasMem, mem, was, live, wasOut, out, ptr); }
    }

    // What to ask malloc for; 0 when there is nothing to ask.
    method BlockSize(size: nat, alignbytes: nat) returns (n: nat)
      requires size <= SIZE_MAX && alignbytes <= SIZE_MAX
      ensures n == BlockBytes(size, alignbytes)
      ensures Sane(alignbytes) ==> n == if Grantable(size, alignbytes) then BlockNeeded(size, alignbytes) else 0
    {
      if Sane(alignbytes) { BlockHolds(size, alignbytes); }
      n := 0;
      if alignbytes == 0 || alignbytes >= SIZE_MAX { return; }
      var alignedsize := SizeAlign(size, alignbytes);
      if alignedsize < size { return; }
      if alignedsize > Wrap(SIZE_MAX - alignbytes - 4) { return; }
      n := Wrap(alignedsize + Wrap(alignbytes + 4));
    }

    method WriteHeader(ptr: nat, base: nat)
      modifies `mem
      ensures base + 4 <= ptr <= SIZE_MAX ==>
        && LoadHalf(mem, ptr - 4) == SDK_MEM_MAGIC_NUMBER
        && LoadHalf(mem, ptr - 2) == (ptr - base) % 0x1_0000
        && forall a: nat :: !(ptr - 4 <= a < ptr) ==> At(mem, a) == At(old(mem), a)
    {
      ghost var was := mem;
      mem := StoreHalf(mem, Wrap(ptr - 4), SDK_MEM_MAGIC_NUMBER);
      mem := StoreHalf(mem, Wrap(ptr - 2), Wrap(ptr - base) % 0x1_0000);
      if base + 4 <= ptr <= SIZE_MAX { HeaderWritten(was, mem, ptr, base); }
    }

    // The address given to free is the one malloc returned if and only if the way back fits in 16
    // bits; the block then goes back whole. Otherwise the address lies inside the block, where
    // nothing begins, and what free does is not modelled.
    method SdkFree(ptr: nat) returns (freed: nat)
      requires Valid() && ptr in out
      modifies `live, `out
      ensures Valid()
      ensures freed == FreedAddress(ptr, old(out)[ptr].base)
      ensures freed == old(out)[ptr].base <==> ptr - old(out)[ptr].base < 0x1_0000
      ensures freed == old(out)[ptr].base ==> out == old(out) - {ptr} && live == old(live) - {freed}
      ensures freed != old(out)[ptr].base ==>
        old(out)[ptr].base < freed <= ptr && freed !in live && out == old(out) && live == old(live)
    {
      assert LoanSound(mem, live, out, ptr);
      freed := 0;
      if LoadHalf(mem, ptr - 4) != SDK_MEM_MAGIC_NUMBER { return; }
      ghost var was, wasOut, base := live, out, out[ptr].base;
      freed := ptr - LoadHalf(mem, ptr - 2);
      FreesExactly(ptr, base);
      if freed != base { NothingBegins(live, base, freed); }
      if freed in live {
        CFree(freed);
        out := out - {ptr};
        LoanReturned(mem, was, live, wasOut, out, ptr);
      }
    }

    ghost function Now(): HeapState reads this { HeapState(mem, live, out, asked) }

    // Any run of the clients: every request does what it should and no more, every free is exact,
    // and when the last pointer is back so is every block.
    method Execute(requests: seq<Request>) returns (results: seq<nat>, ghost states: seq<HeapState>)
      requires HeapSound(Now())
      requires forall k | 0 <= k < |requests| :: Legal(requests[k])
      modifies this
      ensures Trace(states, requests, results)
      ensures states[0] == old(Now()) && states[|requests|] == Now()
      ensures |out| == 0 ==> live == map[]
    {
      results, states := [], [Now()];
      for i := 0 to |requests|
        invariant Trace(states, requests[..i], results)
        invariant states[0] == old(Now()) && states[i] == Now()
      {
        assert HeapSound(states[i]);
        var ptr := Perform(requests[i]);
        TraceGrows(states, requests[..i], results, requests[i], ptr, Now());
        assert requests[..i + 1] == requests[..i] + [requests[i]];
        results, states := results + [ptr], states + [Now()];
      }
      assert requests[..|requests|] == requests;
      assert HeapSound(states[|requests|]);
      NothingLeaks(mem, live, out);
    }

    method Perform(r: Request) returns (ptr: nat)
      requires HeapSound(Now()) && Legal(r)
      modifies this
      ensures HeapSound(Now()) && Fulfilled(old(Now()), r, ptr, Now())
    {
      ptr := 0;
      match r {
        case Alloc(size, align) =>
          ptr := SdkMalloc(size, align);
        case Release(p) =>
          if p in out {
            assert LoanSound(mem, live, out, p);
            var freed := SdkFree(p);
          }
        case Poke(p, k, v) =>
          if p in out && k < out[p].size { ClientWrite(p, k, v); }
      }
    }

    // A client writes inside its own payload.
    method ClientWrite(ptr: nat, k: nat, v: Byte)
      requires Valid() && ptr in out && k < out[ptr].size
      modifies `mem
      ensures Valid() && mem == old(mem)[ptr + k := v]
    {
      ghost var was := mem;
      assert LoanSound(mem, live, out, ptr);
      mem := mem[ptr + k := v];
      forall p: nat | p in out ensures LoanSound(mem, live, out, p) {
        assert LoanSound(was, live, out, p) && OwnBlock(out, p, ptr);
        if p != ptr { HeaderKept(was, mem, live, out, p, out[ptr].base); }
      }
    }
  }

  // Requests of the clients; one that a client may not make is skipped.
  datatype Request = Alloc(size: nat, align: nat) | Release(ptr: nat) | Poke(ptr: nat, k: nat, v: Byte)

  predicate Legal(r: Request) {
    r.Alloc? ==> r.size <= SIZE_MAX && (r.align == SIZE_MAX || r.align <= 0xFFFC)
  }

  ghost predicate ShortWaysBack(out: map<nat, Loan>) { forall p: nat :: p in out ==> out[p].align <= 0xFFFC }

  datatype HeapState = HeapState(mem: map<nat, Byte>, live: map<nat, nat>, out: map<nat, Loan>, asked: seq<Answer>)

  ghost predicate HeapSound(s: HeapState) {
    BlocksOk(s.live) && LoansOk(s.mem, s.live, s.out) && ShortWaysBack(s.out)
  }

  // What a request does: NULL and nothing but malloc asked, if it can be asked, and refusing; or one
  // new sound loan in a new block; the loan and its block gone; one byte written.
  ghost predicate Fulfilled(s: HeapState, r: Request, ptr: nat, t: HeapState) {
    match r
    case Alloc(size, align) =>
      if ptr == 0 then t == s.(asked := s.asked + Asked(size, align, 0))
      else Grantable(size, align) && NewLoan(s, size, align, ptr, t)
    case Release(p) =>
      t == if p in s.out then s.(out := s.out - {p}, live := s.live - {s.out[p].base}) else s
    case Poke(p, k, v) => t == if p in s.out && k < s.out[p].size then s.(mem := s.mem[p + k := v]) else s
  }

  ghost predicate NewLoan(s: HeapState, size: nat, align: nat, ptr: nat, t: HeapState) {
    && LoanSound(t.mem, t.live, t.out, ptr)
    && var loan := t.out[ptr];
       && loan.size == size && loan.align == align
       && ptr !in s.out && t.out == s.out[ptr := loan]
       && loan.base !in s.live && t.live == s.live[loan.base := BlockNeeded(size, align)]
       && loan.base != 0 && t.asked == s.asked + Asked(size, align, loan.base)
       && forall a: nat :: !(ptr - 4 <= a < ptr) ==> At(t.mem, a) == At(s.mem, a)
  }

  ghost predicate TraceStep(states: seq<HeapState>, requests: seq<Request>, results: seq<nat>, k: nat)
    requires k < |requests| == |results| && |states| == |requests| + 1
  {
    Fulfilled(states[k], requests[k], results[k], states[k + 1])
  }

  // A run: the states before and after each request.
  ghost predicate Trace(states: seq<HeapState>, requests: seq<Request>, results: seq<nat>) {
    && |results| == |requests| && |states| == |requests| + 1
    && (forall k: nat | k < |states| :: HeapSound(states[k]))
    && (forall k: nat | k < |requests| :: TraceStep(states, requests, results, k))
  }

  lemma TraceGrows(states: seq<HeapState>, requests: seq<Request>, results: seq<nat>,
                   r: Request, ptr: nat, t: HeapState)
    requires Trace(states, requests, results)
    requires HeapSound(t) && Fulfilled(states[|requests|], r, ptr, t)
    ensures Trace(states + [t], requests + [r], results + [ptr])
  {
    forall k: nat | k < |states + [t]| ensures HeapSound((states + [t])[k]) {
      if k < |states| { assert HeapSound(states[k]); }
    }
    forall k: nat | k < |requests + [r]| ensures TraceStep(states + [t], requests + [r], results + [ptr], k) {
      if k < |requests| { assert TraceStep(states, requests, results, k); }
    }
  }

  // A request leaves a payload byte alone, unless it writes that byte or gives the pointer back.
  predicate SparesByte(r: Request, ptr: nat, off: nat) {
    match r
    case Alloc(_, _) => true
    case Release(p) => p != ptr
    case Poke(p, k, _) => !(p == ptr && k == off)
  }

  lemma ByteKept(s: HeapState, r: Request, res: nat, t: HeapState, ptr: nat, off: nat)
    requires HeapSound(s) && HeapSound(t) && Fulfilled(s, r, res, t) && SparesByte(r, ptr, off)
    requires ptr in s.out && off < s.out[ptr].size
    ensures ptr in t.out && t.out[ptr] == s.out[ptr] && At(t.mem, ptr + off) == At(s.mem, ptr + off)
  {
    assert LoanSound(s.mem, s.live, s.out, ptr);
    match r
    case Alloc(_, _) =>
      if res != 0 {
        assert LoanSound(t.mem, t.live, t.out, ptr);
        assert Apart(t.live, t.out[res].base, t.out[ptr].base);
      }
    case Release(_) =>
    case Poke(p, k, _) =>
      if p in s.out && k < s.out[p].size && p != ptr {
        assert LoanSound(s.mem, s.live, s.out, p) && OwnBlock(s.out, p, ptr);
        assert Apart(s.live, s.out[p].base, s.out[ptr].base);
      }
  }

  // What a client has written stays, whatever the other clients do, until it writes there again or
  // gives the pointer back.
  lemma {:induction false} PayloadSurvives(states: seq<HeapState>, requests: seq<Request>, results: seq<nat>,
                                           j: nat, k: nat, ptr: nat, off: nat)
    requires Trace(states, requests, results) && j <= k <= |requests|
    requires ptr in states[j].out && off < states[j].out[ptr].size
    requires forall i | j <= i < k :: SparesByte(requests[i], ptr, off)
    ensures ptr in states[k].out && states[k].out[ptr] == states[j].out[ptr]
    ensures At(states[k].mem, ptr + off) == At(states[j].mem, ptr + off)
    decreases k - j
  {
    if j < k {
      PayloadSurvives(states, requests, results, j, k - 1, ptr, off);
      assert HeapSound(states[k - 1]) && HeapSound(states[k]) && TraceStep(states, requests, results, k - 1);
      ByteKept(states[k - 1], requests[k - 1], results[k - 1], states[k], ptr, off);
    }
  }

  lemma NothingLeaks(mem: map<nat, Byte>, live: map<nat, nat>, out: map<nat, Loan>)
    requires LoansOk(mem, live, out)
    ensures |out| == 0 ==> live == map[]
  {
    if b: nat :| b in live {
      assert Owned(out, b);
      var p: nat :| p in out && out[p].base == b;
      assert p in out.Keys;
    }
  }

  // The size asked of malloc, as computed in 32 bits.
  function BlockBytes(size: nat, a: nat): nat {
    var aligned := SizeAlign(size, a);
    if a == 0 || a >= SIZE_MAX || aligned < size || aligned > Wrap(SIZE_MAX - a - 4) then 0
    else Wrap(aligned + Wrap(a + 4))
  }

  // One question to malloc, and its answer.
  datatype Answer = Answer(size: nat, base: nat)

  // What a block has to hold: the size rounded up, the alignment and the header.
  function BlockNeeded(size: nat, a: nat): nat { SizeAlign(size, a) + a + 4 }

  // That fits in 32 bits, and so does the rounding.
  predicate Grantable(size: nat, a: nat) {
    0 < a < SIZE_MAX && size + a - 1 <= SIZE_MAX && BlockNeeded(size, a) <= SIZE_MAX
  }

  function Asked(size: nat, a: nat, base: nat): seq<Answer> {
    if Grantable(size, a) then [Answer(BlockNeeded(size, a), base)] else []
  }

  function NextMultiple(size: nat, a: nat): nat
    requires a > 0
  {
    (size + a - 1) / a * a
  }

  // For powers of two a request can be granted exactly if the next multiple of the size, the
  // alignment and the header fit in 32 bits, and the block has that size.
  lemma WhatIsGranted(size: nat, a: nat)
    requires IsPow2(a) && size <= SIZE_MAX
    ensures 0 < a
    ensures Grantable(size, a) <==> NextMultiple(size, a) + a + 4 <= SIZE_MAX
    ensures Grantable(size, a) ==> BlockNeeded(size, a) == NextMultiple(size, a) + a + 4
  {
    AlignsUp(size, a);
    NextMultipleIs(size, a, SizeAlign(size, a));
  }

  lemma NextMultipleIs(size: nat, a: nat, r: nat)
    requires a > 0
    ensures size <= NextMultiple(size, a)
    ensures r % a == 0 && size <= r < size + a ==> r == NextMultiple(size, a)
  {
    var x := size + a - 1;
    assert x == x / a * a + x % a;
    if r % a == 0 && size <= r < size + a {
      assert r == a * (r / a);
      DivisionIs(x, a, r / a, x - r);
    }
  }

  // For any alignment: the block holds payload, alignment and header, with less than one alignment to
  // spare, and no request is refused for which that fits in 32 bits.
  lemma NeededBounds(size: nat, a: nat)
    requires 0 < a <= SIZE_MAX - 4 && size <= SIZE_MAX
    ensures Grantable(size, a) ==> size + a + 4 <= BlockNeeded(size, a) < size + 2 * a + 4
    ensures size + 2 * a + 3 <= SIZE_MAX ==> Grantable(size, a)
  {
    GrowsTo(size, a);
  }

  // Not one of the three alignments so large that adding the header wraps unnoticed.
  predicate Sane(a: nat) { a <= SIZE_MAX - 4 || a == SIZE_MAX }

  lemma BlockHolds(size: nat, a: nat)
    requires size <= SIZE_MAX && Sane(a)
    ensures BlockBytes(size, a) == if Grantable(size, a) then BlockNeeded(size, a) else 0
  {
    if 0 < a < SIZE_MAX {
      GrowsTo(size, a);
      BlockFor(size, a, SizeAlign(size, a));
    }
  }

  lemma BlockFor(size: nat, a: nat, r: nat)
    requires 0 < a <= SIZE_MAX - 4 && r <= SIZE_MAX && (size + a - 1 <= SIZE_MAX <==> size <= r)
    ensures (if r < size || r > Wrap(SIZE_MAX - a - 4) then 0 else Wrap(r + Wrap(a + 4)))
         == if size + a - 1 <= SIZE_MAX && r + a + 4 <= SIZE_MAX then r + a + 4 else 0
  {
    BlockSum(a, r);
  }

  lemma BlockSum(a: nat, r: nat)
    requires 0 < a <= SIZE_MAX - 4 && r <= SIZE_MAX
    ensures Wrap(SIZE_MAX - a - 4) == SIZE_MAX - a - 4
    ensures r <= SIZE_MAX - a - 4 ==> Wrap(r + Wrap(a + 4)) == r + a + 4
  {
  }

  // For which alignments no block is too short.
  lemma ExactBlocks(a: nat)
    requires a <= SIZE_MAX
    ensures (forall size: nat | size <= SIZE_MAX ::
               BlockBytes(size, a) == 0 || BlockBytes(size, a) >= size + a + 4)
       <==> Sane(a)
  {
    if Sane(a) {
      forall size: nat | size <= SIZE_MAX
        ensures BlockBytes(size, a) == 0 || BlockBytes(size, a) >= size + a + 4
      {
        BlockHolds(size, a);
        if 0 < a < SIZE_MAX { NeededBounds(size, a); }
      }
    } else {
      ShortBlock(a);
    }
  }

  // With one of the other three alignments the block for a size of 1 is too short.
  lemma ShortBlock(a: nat)
    requires a <= SIZE_MAX && !Sane(a)
    ensures 0 < BlockBytes(1, a) < a
  {
    SizeAlignIs(1, a);
    Small(a);
    ShortBytes(a, SizeAlign(1, a));
  }

  lemma ShortBytes(a: nat, r: nat)
    requires SIZE_MAX - 4 < a < SIZE_MAX && r == MaskOff(a, a - 1) && r == SizeAlign(1, a)
    ensures 0 < BlockBytes(1, a) < a
  {
    WordCleared(a, a - 1);
    ShortSum(a, r);
  }

  lemma ShortSum(a: nat, r: nat)
    requires SIZE_MAX - 4 < a < SIZE_MAX && 1 <= r <= 4
    ensures 0 < Wrap(r + Wrap(a + 4)) < a && r <= Wrap(SIZE_MAX - a - 4)
  {
  }

  // The address that SDK_Free computes from the 16 bits in the header.
  function FreedAddress(ptr: nat, base: nat): int { ptr - (ptr - base) % 0x1_0000 }

  lemma FreesExactly(ptr: nat, base: nat)
    requires base <= ptr
    ensures FreedAddress(ptr, base) == base <==> ptr - base < 0x1_0000
    ensures base <= FreedAddress(ptr, base) <= ptr
  {
  }

  // No block begins inside another.
  lemma NothingBegins(live: map<nat, nat>, base: nat, addr: nat)
    requires BlocksOk(live) && base in live && base < addr < base + live[base]
    ensures addr !in live
  {
    forall c: nat | c in live ensures c != addr { assert Apart(live, base, c); }
  }

  // A block at 65536 for an alignment of 65536: SDK_Free frees 131072.
  lemma WrongFree(base: nat, a: nat)
    requires base == 0x1_0000 && a == 0x1_0000
    ensures SizeAlign(base + 4, a) == 0x2_0000 && FreedAddress(0x2_0000, base) == 0x2_0000
  {
    SixteenBits(a);
    AlignsUp(base + 4, a);
    OnlyMultiple(SizeAlign(base + 4, a));
  }

  lemma SixteenBits(a: nat)
    requires a == 0x1_0000
    ensures IsPow2(a)
  {
    assert Pow2(16) == a by { Pow2Widths(); }
  }

  lemma OnlyMultiple(r: nat)
    requires r % 0x1_0000 == 0 && 0x1_0004 <= r < 0x2_0004
    ensures r == 0x2_0000
  {
  }

  lemma Placed(live: map<nat, nat>, p: nat, size: nat, a: nat)
    requires 0 < a <= SIZE_MAX && p in live && live[p] >= size + a + 4 && p + live[p] <= 0x1_0000_0000
    ensures var ptr := SizeAlign(Wrap(p + 4), a);
      ptr <= SIZE_MAX && LoanOk(live, ptr, Loan(p, size, a))
  {
    Small(p + 4);
    GrowsTo(p + 4, a);
    if IsPow2(a) { AlignsUp(p + 4, a); }
  }

  lemma LoanMade(wasMem: map<nat, Byte>, mem: map<nat, Byte>, was: map<nat, nat>, live: map<nat, nat>,
                 wasOut: map<nat, Loan>, out: map<nat, Loan>, ptr: nat)
    requires BlocksOk(was) && LoansOk(wasMem, was, wasOut) && BlocksOk(live)
    requires ptr in out && out == wasOut[ptr := out[ptr]]
    requires var b := out[ptr].base;
      b !in was && b in live && live == was[b := live[b]] && LoanOk(live, ptr, out[ptr]) && HeaderOk(mem, ptr, out[ptr])
    requires forall a: nat :: !(ptr - 4 <= a < ptr) ==> At(mem, a) == At(wasMem, a)
    ensures ptr !in wasOut && LoansOk(mem, live, out)
  {
    var b := out[ptr].base;
    forall p: nat | p in wasOut ensures p != ptr {
      assert LoanSound(wasMem, was, wasOut, p) && Apart(live, b, wasOut[p].base);
    }
    forall p: nat | p in out ensures LoanSound(mem, live, out, p) {
      if p != ptr { assert LoanSound(wasMem, was, wasOut, p) && Apart(live, b, wasOut[p].base); }
    }
    forall p: nat, q: nat | p in out && q in out ensures OwnBlock(out, p, q) {
      if p != ptr { assert LoanSound(wasMem, was, wasOut, p); }
      if q != ptr { assert LoanSound(wasMem, was, wasOut, q); }
      if p != ptr && q != ptr { assert OwnBlock(wasOut, p, q); }
    }
    forall c: nat | c in live ensures Owned(out, c) {
      if c == b { assert out[ptr].base == c; } else {
        assert Owned(wasOut, c);
        var p: nat :| p in wasOut && wasOut[p].base == c;
        assert out[p].base == c;
      }
    }
  }

  lemma LoanReturned(mem: map<nat, Byte>, was: map<nat, nat>, live: map<nat, nat>,
                     wasOut: map<nat, Loan>, out: map<nat, Loan>, ptr: nat)
    requires BlocksOk(was) && LoansOk(mem, was, wasOut) && ptr in wasOut
    requires out == wasOut - {ptr} && live == was - {wasOut[ptr].base}
    ensures LoansOk(mem, live, out)
  {
    forall p: nat | p in out ensures LoanSound(mem, live, out, p) {
      assert LoanSound(mem, was, wasOut, p) && OwnBlock(wasOut, p, ptr);
    }
    forall p: nat, q: nat | p in out && q in out ensures OwnBlock(out, p, q) {
      assert OwnBlock(wasOut, p, q);
    }
    forall c: nat | c in live ensures Owned(out, c) {
      assert Owned(wasOut, c);
      var p: nat :| p in wasOut && wasOut[p].base == c;
      assert p in out && out[p].base == c;
    }
  }

  // For which alignments SDK_Free frees what malloc returned, wherever that is: below the leading
  // ones of alignment - 1 too little is left, in too few bits, to lead too far.
  lemma ExactAlignments(a: nat)
    requires 0 < a <= SIZE_MAX - 4
    ensures (forall base: nat | IsPlace(base, a) :: FreesBlock(base, a)) <==> !LeadsTooFar(a - 1, 32)
  {
    WordBits();
    var m := a - 1;
    LongWays(32, m);
    forall base: nat | IsPlace(base, a) ensures FreesBlock(base, a) <==> !LongWay(32, m, base) {
      PlaceWay(32, base, a);
    }
    if base: nat :| LongWay(32, m, base) {
      PlaceWay(32, base, a);
      assert !FreesBlock(base, a);
    }
  }

  // Up to 2^31 these are the alignments up to 65532; of the powers of two, those up to 32768.
  lemma ExactUsualAlignments(a: nat)
    requires 0 < a <= 0x8000_0000
    ensures LeadsTooFar(a - 1, 32) <==> a > 0xFFFC
    ensures IsPow2(a) ==> (a > 0xFFFC <==> a > 0x8000)
  {
    WordBits();
    assert Pow2(32) == 2 * Pow2(31);
    if IsPow2(a) { Pow2Gap(a); }
  }

  predicate LeadsTooFar(m: nat, n: nat)
    decreases n
  {
    n > 17 && if m < Pow2(n - 1) then m >= 0xFFFC else LeadsTooFar(m - Pow2(n - 1), n - 1)
  }

  // Where malloc may put the block, if it keeps to multiples of 8.
  predicate IsPlace(base: nat, a: nat) { base >= 8 && base % 8 == 0 && base + a + 3 <= SIZE_MAX }

  // In n bits: from this block, with this mask, the way back does not fit.
  predicate LongWay(n: nat, m: nat, base: nat) {
    && base >= 8 && base % 8 == 0 && base + 4 + m < Pow2(n)
    && Bitwise(AndNot, base + 4 + m, m, n) - base >= 0x1_0000
  }

  lemma PlaceWay(n: nat, base: nat, a: nat)
    requires n == 32 && 0 < a <= SIZE_MAX - 4 && (IsPlace(base, a) || LongWay(n, a - 1, base))
    ensures IsPlace(base, a) && (FreesBlock(base, a) <==> !LongWay(n, a - 1, base))
  {
    WordWay(n, base, a - 1);
    AlignedPlace(n, base, a);
    FreesWithin(base, a, SizeAlign(base + 4, a));
  }

  lemma WordWay(n: nat, base: nat, m: nat)
    requires n == 32
    ensures LongWay(n, m, base)
       <==> IsPlace(base, m + 1) && Bitwise(AndNot, base + 4 + m, m, n) - base >= 0x1_0000
  {
    WordBits();
  }

  lemma AlignedPlace(n: nat, base: nat, a: nat)
    requires n == 32 && 0 < a <= SIZE_MAX - 4 && base + a + 3 <= SIZE_MAX
    ensures SizeAlign(base + 4, a) == Bitwise(AndNot, base + 4 + (a - 1), a - 1, n)
    ensures base <= SizeAlign(base + 4, a)
  {
    SizeAlignIs(base + 4, a);
    PlacedAt(n, base, a, SizeAlign(base + 4, a));
  }

  lemma PlacedAt(n: nat, base: nat, a: nat, r: nat)
    requires n == 32 && 0 < a <= SIZE_MAX - 4 && base + a + 3 <= SIZE_MAX
    requires r == MaskOff(Wrap(base + 4 + (a - 1)), a - 1)
    ensures r == Bitwise(AndNot, base + 4 + (a - 1), a - 1, n) && base <= r
  {
    Small(base + 4 + (a - 1));
    RoundsUp(base + 4, a, r);
  }

  lemma FreesWithin(base: nat, a: nat, ptr: nat)
    requires ptr == SizeAlign(base + 4, a) && base <= ptr
    ensures FreesBlock(base, a) <==> ptr - base < 0x1_0000
  {
    FreesExactly(ptr, base);
  }

  lemma {:induction false} LongWays(n: nat, m: nat)
    requires m < Pow2(n)
    ensures (exists base: nat :: LongWay(n, m, base)) <==> LeadsTooFar(m, n)
    decreases n
  {
    if n <= 17 {
      forall base: nat ensures !LongWay(n, m, base) { NoLongWay(n, m, base); }
    } else if m < Pow2(n - 1) {
      forall base: nat ensures LongWay(n, m, base) ==> m >= 0xFFFC { LongWayMask(n, m, base); }
      if m >= 0xFFFC { SomeLongWay(n, m); }
    } else {
      var k: nat, rest: nat := n - 1, m - Pow2(n - 1);
      LongWays(k, rest);
      forall base: nat ensures LongWay(n, m, base) <==> LongWay(k, rest, base) {
        LongWayStripped(n, m, base);
      }
    }
  }

  lemma LongWayMask(n: nat, m: nat, base: nat)
    requires m < Pow2(n)
    ensures LongWay(n, m, base) ==> m >= 0xFFFC
  {
    if base + 4 + m < Pow2(n) { ClearBounds(base + 4 + m, m, n); }
  }

  lemma LongWayStripped(n: nat, m: nat, base: nat)
    requires n > 0 && Pow2(n - 1) <= m < Pow2(n)
    ensures LongWay(n, m, base) <==> LongWay(n - 1, m - Pow2(n - 1), base)
  {
    if base + 4 + m < Pow2(n) { TopBitGoes(base + 4 + m, m, n); }
  }

  lemma {:induction false} NoLongWay(n: nat, m: nat, base: nat)
    requires n <= 17 && m < Pow2(n)
    ensures !LongWay(n, m, base)
    decreases n
  {
    Pow2Widths();
    if base >= 8 && base + 4 + m < Pow2(n) {
      ClearBounds(base + 4 + m, m, n);
      if n <= 16 {
        Pow2Mono(n, 16);
      } else if m >= Pow2(16) {
        LongWayStripped(n, m, base);
        NoLongWay(16, m - Pow2(16), base);
      } else {
        assert Pow2(17) == 0x2_0000;
      }
    }
  }

  lemma SomeLongWay(n: nat, m: nat)
    requires n > 17 && 0xFFFC <= m < Pow2(n - 1)
    ensures exists base: nat :: LongWay(n, m, base)
  {
    var p, e := Pow2(n - 1), (m + 4) % 8;
    Pow2Mono(17, n - 1);
    Pow2Widths();
    assert Pow2(17) == 2 * Pow2(16) && Pow2(n) == 2 * p;
    assert p == 2 * Pow2(n - 2) && Pow2(n - 2) == 2 * Pow2(n - 3) && Pow2(n - 3) == 2 * Pow2(n - 4);
    PlaceAt(p, Pow2(n - 4), m, e);
    var base := PlaceFor(p, m, e);
    TopBitStays(base + 4 + m, m, n);
    assert LongWay(n, m, base);
  }

  function PlaceFor(p: nat, m: nat, e: nat): nat { if m + 8 <= p then p + e - m - 4 else 8 }

  // A place from which rounding goes up to p at least.
  lemma PlaceAt(p: nat, q: nat, m: nat, e: nat)
    requires p == 8 * q && p >= 0x2_0000 && 0xFFFC <= m < p && e == (m + 4) % 8
    ensures var base := PlaceFor(p, m, e);
      base >= 8 && base % 8 == 0 && p <= base + 4 + m < 2 * p && p - base >= 0x1_0000
  {
  }

  // The pointer for a block at base leads back to it.
  predicate FreesBlock(base: nat, a: nat) {
    base <= SizeAlign(base + 4, a) && FreedAddress(SizeAlign(base + 4, a), base) == base
  }

  lemma Pow2Gap(a: nat)
    requires IsPow2(a)
    ensures a <= 0x8000 || a == 0x1_0000 || a >= 0x2_0000
  {
    var k: nat :| k < 32 && a == Pow2(k);
    Pow2Widths();
    assert 2 * Pow2(15) == Pow2(16) && Pow2(17) == 2 * Pow2(16);
    if k <= 15 { Pow2Mono(k, 15); } else if k > 16 { Pow2Mono(17, k); }
  }
}
