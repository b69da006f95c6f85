// Local atomics (drivers/fsl_common_arm.h).

// What each operation means on one word, and what a sequential history of them is.
module AtomicSpec {
  import opened Bits

  type Word = w: int | 0 <= w < 0x1_0000_0000

  datatype Width = OneByte | TwoBytes | FourBytes

  datatype Op =
    | Add(val: Word)
    | Sub(val: Word)
    | SetBits(bits: Word)
    | ClearBits(bits: Word)
    | Toggle(bits: Word)
    | ClearAndSet(clearBits: Word, setBits: Word)
    | CompareAndSet(expected: Word, newValue: Word)
    | TestAndSet(newValue: Word)

  datatype Call = Call(addr: nat, width: Width, op: Op)

  type Memory = map<nat, Word>

  function At(mem: Memory, addr: nat): Word { if addr in mem then mem[addr] else 0 }

  // Conversion to uint8_t, uint16_t or uint32_t.
  function Narrow(w: Width, v: int): Word {
    match w
    case OneByte => v % 0x100
    case TwoBytes => v % 0x1_0000
    case FourBytes => v % 0x1_0000_0000
  }

  predicate Aborts(c: Call, was: Word) {
    c.op.CompareAndSet? && was != Narrow(c.width, c.op.expected)
  }

  // The new value, before conversion to the width of the word.
  function Computed(op: Op, was: Word): int {
    match op
    case Add(val) => was + val
    case Sub(val) => was - val
    case SetBits(bits) => Bitwise(Or, was, bits, 32)
    case ClearBits(bits) => Bitwise(AndNot, was, bits, 32)
    case Toggle(bits) => Bitwise(Xor, was, bits, 32)
    case ClearAndSet(clearBits, setBits) => Bitwise(Or, Bitwise(AndNot, was, clearBits, 32), setBits, 32)
    case CompareAndSet(_, newValue) => newValue
    case TestAndSet(newValue) => newValue
  }

  // The value handed to STREX.
  function Updated(c: Call, was: Word): Word { Narrow(c.width, Computed(c.op, was)) }

  function WidthBits(w: Width): nat { match w case OneByte => 8 case TwoBytes => 16 case FourBytes => 32 }

  // The bit operations, bit by bit: each bit of the word is set, cleared, flipped or left alone.
  lemma UpdatedBit(c: Call, was: Word, i: nat)
    requires c.op.SetBits? || c.op.ClearBits? || c.op.Toggle? || c.op.ClearAndSet?
    requires i < WidthBits(c.width)
    ensures Bit(Updated(c, was), i) == BitAfter(c.op, was, i)
  {
    NarrowBit(c.width, Computed(c.op, was), i);
    match c.op
    case SetBits(bits) => BitwiseBit(Or, was, bits, 32, i);
    case ClearBits(bits) => BitwiseBit(AndNot, was, bits, 32, i);
    case Toggle(bits) => BitwiseBit(Xor, was, bits, 32, i);
    case ClearAndSet(clearBits, setBits) =>
      BitwiseBit(AndNot, was, clearBits, 32, i);
      BitwiseBit(Or, Bitwise(AndNot, was, clearBits, 32), setBits, 32, i);
  }

  predicate BitAfter(op: Op, was: Word, i: nat) {
    match op
    case SetBits(bits) => Bit(was, i) || Bit(bits, i)
    case ClearBits(bits) => Bit(was, i) && !Bit(bits, i)
    case Toggle(bits) => Bit(was, i) != Bit(bits, i)
    case ClearAndSet(clearBits, setBits) => Bit(setBits, i) || (Bit(was, i) && !Bit(clearBits, i))
    case _ => false
  }

  lemma NarrowBit(w: Width, v: nat, i: nat)
    requires i < WidthBits(w)
    ensures Bit(Narrow(w, v), i) == Bit(v, i)
  {
    Pow2Widths();
    LowBits(v, WidthBits(w), i);
  }

  // CompareAndSet returns a truth value, TestAndSet the old value, the others nothing.
  function Returned(c: Call, was: Word): Word {
    match c.op
    case CompareAndSet(_, _) => if Aborts(c, was) then 0 else 1
    case TestAndSet(_) => was
    case _ => 0
  }

  // The atomic meaning of a call.
  function Effect(mem: Memory, c: Call): Memory {
    if Aborts(c, At(mem, c.addr)) then mem else mem[c.addr := Updated(c, At(mem, c.addr))]
  }

  // What the source promises of each operation, as found, left and returned in one word.
  predicate Meaning(c: Call, was: Word, now: Word, ret: Word) {
    match c.op
    case Add(val) => now == Narrow(c.width, was + val)
    case Sub(val) => now == Narrow(c.width, was - val)
    case CompareAndSet(expected, newValue) =>
      if was == Narrow(c.width, expected) then now == Narrow(c.width, newValue) && ret == 1
      else now == was && ret == 0
    case TestAndSet(newValue) => now == Narrow(c.width, newValue) && ret == was
    case _ => forall i: nat | i < WidthBits(c.width) :: Bit(now, i) == BitAfter(c.op, was, i)
  }

  // Every call does that to its word, which keeps its width, and nothing to the others.
  lemma EffectMeans(mem: Memory, c: Call)
    ensures var was, now := At(mem, c.addr), At(Effect(mem, c), c.addr);
      && Meaning(c, was, now, Returned(c, was))
      && (was < Pow2(WidthBits(c.width)) ==> now < Pow2(WidthBits(c.width)))
    ensures forall a: nat | a != c.addr :: At(Effect(mem, c), a) == At(mem, a)
  {
    var was := At(mem, c.addr);
    NarrowFits(c.width, Computed(c.op, was));
    if c.op.SetBits? || c.op.ClearBits? || c.op.Toggle? || c.op.ClearAndSet? { BitsMean(c, was); }
  }

  lemma BitsMean(c: Call, was: Word)
    requires c.op.SetBits? || c.op.ClearBits? || c.op.Toggle? || c.op.ClearAndSet?
    ensures forall i: nat | i < WidthBits(c.width) :: Bit(Updated(c, was), i) == BitAfter(c.op, was, i)
  {
    forall i: nat | i < WidthBits(c.width) ensures Bit(Updated(c, was), i) == BitAfter(c.op, was, i) {
      UpdatedBit(c, was, i);
    }
  }

  lemma NarrowFits(w: Width, v: int)
    ensures Narrow(w, v) < Pow2(WidthBits(w))
  {
    Pow2Widths();
  }

  datatype Entry = Entry(id: nat, call: Call, ret: Word)

  function Replay(init: Memory, log: seq<Entry>): Memory {
    if log == [] then init else Effect(Replay(init, log[..|log| - 1]), log[|log| - 1].call)
  }

  predicate ExplainsAt(init: Memory, log: seq<Entry>, k: nat)
    requires k < |log|
  {
    log[k].ret == Returned(log[k].call, At(Replay(init, log[..k]), log[k].call.addr))
  }

  // Every return value is the one the sequential history gives.
  ghost predicate Explains(init: Memory, log: seq<Entry>) {
    forall k: nat | k < |log| :: ExplainsAt(init, log, k)
  }

  lemma ExplainsMore(init: Memory, log: seq<Entry>, e: Entry)
    requires Explains(init, log)
    requires e.ret == Returned(e.call, At(Replay(init, log), e.call.addr))
    ensures Explains(init, log + [e])
    ensures Replay(init, log + [e]) == Effect(Replay(init, log), e.call)
  {
    var more := log + [e];
    assert more[..|log|] == log;
    forall k: nat | k < |more| ensures ExplainsAt(init, more, k) {
      if k < |log| {
        assert ExplainsAt(init, log, k) && more[..k] == log[..k];
      }
    }
  }

  // A completed call: how many calls had completed when it was invoked, and which log entry
  // stands for it.
  datatype Completion = Completion(id: nat, call: Call, ret: Word, doneBefore: nat, at: nat)

  // Completion k has its entry in the log.
  predicate Stands(log: seq<Entry>, done: seq<Completion>, k: nat)
    requires k < |done|
  {
    done[k].at < |log| && log[done[k].at] == Entry(done[k].id, done[k].call, done[k].ret)
  }

  // An entry of its own, after the entries of all calls that had completed when k was invoked.
  predicate InOrder(done: seq<Completion>, j: nat, k: nat)
    requires j < |done| && k < |done|
  {
    (j != k ==> done[j].at != done[k].at) && (j < done[k].doneBefore ==> done[j].at < done[k].at)
  }

  // Linearizability: one sequential history of all effects explains memory and all return
  // values, holds each completed call once, and respects the order of non-overlapping calls.
  ghost predicate Linearizable(init: Memory, mem: Memory, log: seq<Entry>, done: seq<Completion>) {
    && Explains(init, log)
    && mem == Replay(init, log)
    && (forall k: nat | k < |done| :: Stands(log, done, k))
    && (forall j: nat, k: nat | j < |done| && k < |done| :: InOrder(done, j, k))
  }

  // The history when a call enters the log.
  lemma LogKeepsHistory(init: Memory, mem: Memory, log: seq<Entry>, done: seq<Completion>, e: Entry)
    requires Linearizable(init, mem, log, done)
    requires e.ret == Returned(e.call, At(mem, e.call.addr))
    ensures Linearizable(init, Effect(mem, e.call), log + [e], done)
  {
    ExplainsMore(init, log, e);
    forall k: nat | k < |done| ensures Stands(log + [e], done, k) {
      assert Stands(log, done, k);
    }
  }

  // The history when a call in the log completes.
  lemma DoneKeepsHistory(init: Memory, mem: Memory, log: seq<Entry>, done: seq<Completion>, c: Completion)
    requires Linearizable(init, mem, log, done)
    requires c.at < |log| && log[c.at] == Entry(c.id, c.call, c.ret)
    requires forall j | 0 <= j < |done| :: done[j].id != c.id
    requires c.doneBefore <= |done| && forall j | 0 <= j < c.doneBefore :: done[j].at < c.at
    requires forall k | 0 <= k < |done| :: done[k].doneBefore <= k
    ensures Linearizable(init, mem, log, done + [c])
  {
    var more := done + [c];
    forall k: nat | k < |more| ensures Stands(log, more, k) {
      if k < |done| { assert Stands(log, done, k); }
    }
    forall j: nat, k: nat | j < |more| && k < |more| ensures InOrder(more, j, k) {
      if j < |done| { assert Stands(log, done, j); }
      if k < |done| { assert Stands(log, done, k); }
      if j < |done| && k < |done| { assert InOrder(done, j, k); }
    }
  }

  // What a completed call did: at one moment of the history it did to the word it then found what
  // its operation means, returned accordingly, and left all other words alone.
  ghost predicate TookEffect(init: Memory, log: seq<Entry>, d: Completion) {
    && d.at < |log|
    && var before, after := Replay(init, log[..d.at]), Replay(init, log[..d.at + 1]);
       && Meaning(d.call, At(before, d.call.addr), At(after, d.call.addr), d.ret)
       && forall a: nat | a != d.call.addr :: At(after, a) == At(before, a)
  }

  lemma CompletedCallTookEffect(init: Memory, mem: Memory, log: seq<Entry>, done: seq<Completion>, k: nat)
    requires Linearizable(init, mem, log, done) && k < |done|
    ensures TookEffect(init, log, done[k])
  {
    var d := done[k];
    assert Stands(log, done, k);
    assert log[..d.at + 1][..d.at] == log[..d.at];
    assert ExplainsAt(init, log, d.at);
    EffectMeans(Replay(init, log[..d.at]), d.call);
  }

  lemma Carry8(a: int, x: int)
    ensures (a % 0x100 + x) % 0x100 == (a + x) % 0x100
  {
  }

  lemma Carry16(a: int, x: int)
    ensures (a % 0x1_0000 + x) % 0x1_0000 == (a + x) % 0x1_0000
  {
  }

  lemma Carry32(a: int, x: int)
    ensures (a % 0x1_0000_0000 + x) % 0x1_0000_0000 == (a + x) % 0x1_0000_0000
  {
  }

  lemma NarrowAdd(w: Width, a: int, x: int)
    ensures Narrow(w, Narrow(w, a) + x) == Narrow(w, a + x)
  {
    match w
    case OneByte => Carry8(a, x);
    case TwoBytes => Carry16(a, x);
    case FourBytes => Carry32(a, x);
  }

  // What the additions and subtractions of a history come to.
  function Sum(addr: nat, log: seq<Entry>): int {
    if log == [] then 0
    else
      var last := log[|log| - 1].call;
      Sum(addr, log[..|log| - 1]) + (if last.addr == addr then Change(last.op) else 0)
  }

  function Change(op: Op): int {
    match op
    case Add(val) => val as int
    case Sub(val) => 0 - val as int
    case _ => 0
  }

  lemma Added(w: Width, was: Word, now: Word, c: Call, a: int, ret: Word)
    requires (c.op.Add? || c.op.Sub?) && c.width == w
    requires Meaning(c, was, now, ret) && was == Narrow(w, a)
    ensures now == Narrow(w, a + Change(c.op))
  {
    NarrowAdd(w, a, Change(c.op));
  }

  // However additions and subtractions of a word interleave, none is lost, modulo the width.
  lemma {:induction false} AdditionsAddUp(init: Memory, log: seq<Entry>, addr: nat, w: Width)
    requires At(init, addr) == Narrow(w, At(init, addr))
    requires forall k | 0 <= k < |log| && log[k].call.addr == addr ::
      (log[k].call.op.Add? || log[k].call.op.Sub?) && log[k].call.width == w
    ensures At(Replay(init, log), addr) == Narrow(w, At(init, addr) + Sum(addr, log))
  {
    if log != [] {
      var rest, last := log[..|log| - 1], log[|log| - 1].call;
      AdditionsAddUp(init, rest, addr, w);
      EffectMeans(Replay(init, rest), last);
      if last.addr == addr {
        Added(w, At(Replay(init, rest), addr), At(Replay(init, log), addr), last,
              At(init, addr) + Sum(addr, rest), Returned(last, At(Replay(init, rest), addr)));
      }
    }
  }

  // A lock in one word: taken by setting it to 1, released by changing 1 to 0.
  predicate IsLocking(c: Call) {
    || (c.op.TestAndSet? && Narrow(c.width, c.op.newValue) == 1)
    || (c.op.CompareAndSet? && Narrow(c.width, c.op.expected) == 1 && Narrow(c.width, c.op.newValue) == 0)
  }

  // How often it was taken, that is found at 0, less how often it was released.
  function Held(addr: nat, log: seq<Entry>): int {
    if log == [] then 0
    else
      var last := log[|log| - 1];
      Held(addr, log[..|log| - 1])
        + (if last.call.addr != addr then 0
           else if last.call.op.TestAndSet? && last.ret == 0 then 1
           else if last.call.op.CompareAndSet? && last.ret == 1 then -1
           else 0)
  }

  // At no moment is it held twice, nor released when it is not held.
  lemma {:induction false} LockHeldOnce(init: Memory, log: seq<Entry>, addr: nat)
    requires Explains(init, log) && At(init, addr) == 0
    requires forall k | 0 <= k < |log| && log[k].call.addr == addr :: IsLocking(log[k].call)
    ensures 0 <= Held(addr, log) <= 1 && At(Replay(init, log), addr) == Held(addr, log)
  {
    if log != [] {
      var rest, last := log[..|log| - 1], log[|log| - 1];
      ExplainsLess(init, log, |log| - 1);
      LockHeldOnce(init, rest, addr);
      assert ExplainsAt(init, log, |log| - 1);
      EffectMeans(Replay(init, rest), last.call);
    }
  }

  lemma ExplainsLess(init: Memory, log: seq<Entry>, n: nat)
    requires Explains(init, log) && n <= |log|
    ensures Explains(init, log[..n])
  {
    forall k: nat | k < n ensures ExplainsAt(init, log[..n], k) {
      assert ExplainsAt(init, log, k) && log[..n][..k] == log[..k];
    }
  }

  // As long as nobody releases it, it is found free by the first call in the history alone.
  predicate OnlyTaken(log: seq<Entry>, addr: nat) {
    forall k | 0 <= k < |log| && log[k].call.addr == addr :: IsLocking(log[k].call) && log[k].call.op.TestAndSet?
  }

  predicate Tried(log: seq<Entry>, addr: nat) { exists k :: 0 <= k < |log| && log[k].call.addr == addr }

  lemma {:induction false} TakenStays(init: Memory, log: seq<Entry>, addr: nat)
    requires At(init, addr) == 0 && OnlyTaken(log, addr)
    ensures At(Replay(init, log), addr) == if Tried(log, addr) then 1 else 0
  {
    if log != [] {
      var rest, last := log[..|log| - 1], log[|log| - 1].call;
      TakenStays(init, rest, addr);
      EffectMeans(Replay(init, rest), last);
      assert Tried(rest, addr) ==> Tried(log, addr);
      if last.addr != addr && Tried(log, addr) {
        var k :| 0 <= k < |log| && log[k].call.addr == addr;
        assert rest[k].call.addr == addr;
      }
    }
  }

  lemma FirstWins(init: Memory, log: seq<Entry>, addr: nat, k: nat)
    requires Explains(init, log) && At(init, addr) == 0 && OnlyTaken(log, addr)
    requires k < |log| && log[k].call.addr == addr
    ensures log[k].ret == 0 <==> !Tried(log[..k], addr)
  {
    TakenStays(init, log[..k], addr);
    assert ExplainsAt(init, log, k);
    EffectMeans(Replay(init, log[..k]), log[k].call);
  }

  lemma {:induction false} SomebodyWon(init: Memory, log: seq<Entry>, addr: nat, k: nat)
    requires Explains(init, log) && At(init, addr) == 0 && OnlyTaken(log, addr)
    requires k < |log| && log[k].call.addr == addr && log[k].ret != 0
    ensures exists i: nat :: i < k && log[i].call.addr == addr && log[i].ret == 0
  {
    FirstWins(init, log, addr, k);
    var i :| 0 <= i < k && log[..k][i].call.addr == addr;
    if log[i].ret != 0 { SomebodyWon(init, log, addr, i); }
  }

  // Of all completed calls at most one found it free; if one found it taken, another had found it free.
  lemma OneWinner(init: Memory, mem: Memory, log: seq<Entry>, done: seq<Completion>, addr: nat, j: nat, k: nat)
    requires Linearizable(init, mem, log, done) && At(init, addr) == 0 && OnlyTaken(log, addr)
    requires j < |done| && k < |done| && done[j].call.addr == done[k].call.addr == addr
    ensures done[j].ret == 0 && done[k].ret == 0 ==> j == k
    ensures done[j].ret != 0 ==>
      exists i: nat :: i < done[j].at && i < |log| && log[i].call.addr == addr && log[i].ret == 0
  {
    assert Stands(log, done, j) && Stands(log, done, k) && InOrder(done, j, k);
    var a, b := done[j].at, done[k].at;
    FirstWins(init, log, addr, a);
    FirstWins(init, log, addr, b);
    if a < b { assert log[..b][a].call.addr == addr; }
    if b < a { assert log[..a][b].call.addr == addr; }
    if done[j].ret != 0 { SomebodyWon(init, log, addr, a); }
  }
}

// The LDREX/STREX loops as a machine of threads and interrupts on one core. A context switch,
// that is an exception entry or return or a task switch, may happen at any point and to any
// context; it clears the local exclusive monitor. STREX may fail spuriously.
module AtomicLoops {
  import opened AtomicSpec

  // Where a context stands: before LDREX, or after it with the value loaded.
  datatype Phase = Idle | Ready(call: Call) | Loaded(call: Call, val: Word)

  // id, invocation moment and position of an aborting CompareAndSet in the log, then counters of
  // the current call: failed STREX, switches between LDREX and STREX, spurious failures.
  datatype Context = Context(phase: Phase, id: nat, doneBefore: nat, at: nat,
                             retries: nat, hits: nat, spurious: nat)

  datatype State = State(mem: Memory, monitor: bool, cur: nat, ctx: seq<Context>, nextId: nat,
                         log: seq<Entry>, done: seq<Completion>)

  datatype Step =
    | Begin(call: Call)          // a call is invoked
    | LoadExclusive              // s_val = LDREX(addr)
    | StoreExclusive(fail: bool) // STREX(s_val, addr), leaving the loop on success
    | GiveUp                     // CLREX and return false on a mismatch
    | Switch(to: nat)

  predicate MustGiveUp(c: Context) { c.phase.Loaded? && Aborts(c.phase.call, c.phase.val) }

  function Complete(s: State, c: Context, ret: Word, at: nat): State
    requires s.cur < |s.ctx| && c.phase.Loaded?
  {
    s.(monitor := false,
       ctx := s.ctx[s.cur := c.(phase := Idle)],
       done := s.done + [Completion(c.id, c.phase.call, ret, c.doneBefore, at)])
  }

  // One step; a step that the current context cannot take changes nothing.
  function Next(s: State, step: Step): (t: State)
    requires s.cur < |s.ctx|
    ensures t.cur < |t.ctx| == |s.ctx|
  {
    var c := s.ctx[s.cur];
    match step
    case Begin(call) =>
      if !c.phase.Idle? then s
      else s.(ctx := s.ctx[s.cur := Context(Ready(call), s.nextId, |s.done|, 0, 0, 0, 0)], nextId := s.nextId + 1)
    case LoadExclusive =>
      if !c.phase.Ready? then s
      else
        var v := At(s.mem, c.phase.call.addr);
        var t := s.(monitor := true, ctx := s.ctx[s.cur := c.(phase := Loaded(c.phase.call, v), at := |s.log|)]);
        // A mismatch is now certain to be reported, so the call takes its place in the history.
        if Aborts(c.phase.call, v) then t.(log := s.log + [Entry(c.id, c.phase.call, 0)]) else t
    case StoreExclusive(fail) =>
      if !c.phase.Loaded? || MustGiveUp(c) then s
      else if s.monitor && !fail then
        var ret := Returned(c.phase.call, c.phase.val);
        Complete(s, c, ret, |s.log|)
          .(mem := s.mem[c.phase.call.addr := Updated(c.phase.call, c.phase.val)],
            log := s.log + [Entry(c.id, c.phase.call, ret)])
      else
        s.(monitor := false,
           ctx := s.ctx[s.cur := c.(phase := Ready(c.phase.call), retries := c.retries + 1,
                                    spurious := c.spurious + if s.monitor then 1 else 0)])
    case GiveUp =>
      if !MustGiveUp(c) then s else Complete(s, c, 0, c.at)
    case Switch(to) =>
      if to >= |s.ctx| then s
      else s.(monitor := false, cur := to,
              ctx := s.ctx[s.cur := c.(hits := c.hits + if c.phase.Loaded? then 1 else 0)])
  }

  function Run(s: State, steps: seq<Step>): (t: State)
    requires s.cur < |s.ctx|
    ensures t.cur < |t.ctx| == |s.ctx|
  {
    if steps == [] then s else Next(Run(s, steps[..|steps| - 1]), steps[|steps| - 1])
  }

  predicate Initial(s: State, init: Memory) {
    && s.mem == init && !s.monitor && s.log == [] && s.done == []
    && s.cur < |s.ctx|
    && forall k | 0 <= k < |s.ctx| :: s.ctx[k].phase.Idle?
  }

  // A context between LDREX and STREX whose monitor is gone has been hit; retries are paid for.
  predicate Paid(s: State, k: nat)
    requires k < |s.ctx|
  {
    var c := s.ctx[k];
    match c.phase
    case Idle => true
    case Ready(_) => c.retries <= c.hits + c.spurious
    case Loaded(_, _) => c.retries + (if k == s.cur && s.monitor then 0 else 1) <= c.hits + c.spurious
  }

  predicate Logged(log: seq<Entry>, id: nat) { exists k | 0 <= k < |log| :: log[k].id == id }

  // A call bound to give up already has its place in the log, after every call that had
  // completed when it was invoked; any other active call has none.
  ghost predicate ContextOk(s: State, k: nat)
    requires k < |s.ctx|
  {
    var c := s.ctx[k];
    !c.phase.Idle? ==>
      && c.id < s.nextId
      && c.doneBefore <= |s.done|
      && (forall j | 0 <= j < |s.done| :: s.done[j].id != c.id)
      && (MustGiveUp(c) ==>
            && c.at < |s.log| && s.log[c.at] == Entry(c.id, c.phase.call, 0)
            && forall j | 0 <= j < c.doneBefore :: s.done[j].at < c.at)
      && (!MustGiveUp(c) ==> !Logged(s.log, c.id))
  }

  // No two active calls share an id.
  ghost predicate Distinct(s: State, j: nat, k: nat)
    requires j < |s.ctx| && k < |s.ctx|
  {
    j != k && !s.ctx[j].phase.Idle? && !s.ctx[k].phase.Idle? ==> s.ctx[j].id != s.ctx[k].id
  }

  predicate LogIds(s: State, j: nat, k: nat)
    requires j < |s.log| && k < |s.log|
  {
    s.log[k].id < s.nextId && (j != k ==> s.log[j].id != s.log[k].id)
  }

  predicate DoneIds(s: State, j: nat, k: nat)
    requires j < |s.done| && k < |s.done|
  {
    && s.done[k].id < s.nextId
    && s.done[k].doneBefore <= k
    && (j != k ==> s.done[j].id != s.done[k].id)
  }

  // Ids are given out once, in the log and among completed calls.
  ghost predicate IdsOk(s: State) {
    && (forall j: nat, k: nat | j < |s.log| && k < |s.log| :: LogIds(s, j, k))
    && (forall j: nat, k: nat | j < |s.done| && k < |s.done| :: DoneIds(s, j, k))
  }

  // While the monitor is set, the value loaded by the current context is still current.
  predicate MonitorOk(s: State)
    requires s.cur < |s.ctx|
  {
    var p := s.ctx[s.cur].phase;
    s.monitor ==> p.Loaded? && p.val == At(s.mem, p.call.addr)
  }

  ghost predicate Inv(s: State, init: Memory) {
    && s.cur < |s.ctx|
    && Linearizable(init, s.mem, s.log, s.done)
    && IdsOk(s)
    && MonitorOk(s)
    && (forall k: nat | k < |s.ctx| :: ContextOk(s, k) && Paid(s, k))
    && (forall j: nat, k: nat | j < |s.ctx| && k < |s.ctx| :: Distinct(s, j, k))
  }

  lemma LoggedBefore(was: seq<Entry>, log: seq<Entry>, id: nat)
    requires was <= log && forall k | |was| <= k < |log| :: log[k].id != id
    requires Logged(log, id)
    ensures Logged(was, id)
  {
    var j :| 0 <= j < |log| && log[j].id == id;
    assert was[j].id == id;
  }

  // What a step may change: the current context, and its own entry and completion at the end.
  ghost predicate OwnStep(s: State, t: State) {
    && s.cur < |s.ctx| == |t.ctx|
    && s.done <= t.done && s.log <= t.log && s.nextId <= t.nextId
    && (forall k: nat | k < |s.ctx| && k != s.cur :: t.ctx[k] == s.ctx[k])
    && (t.cur == s.cur || (t.cur < |t.ctx| && !t.monitor))
    && var c, d := s.ctx[s.cur], t.ctx[s.cur];
       && (forall k: nat | |s.log| <= k < |t.log| :: !c.phase.Idle? && t.log[k].id == c.id)
       && (forall k: nat | |s.done| <= k < |t.done| :: !c.phase.Idle? && t.done[k].id == c.id)
       && (d.phase.Idle? || (!c.phase.Idle? && d.id == c.id) || d.id == s.nextId)
  }

  lemma StepsAreOwn(s: State, step: Step)
    requires s.cur < |s.ctx|
    ensures Next(s, step) == s || OwnStep(s, Next(s, step))
  {
  }

  // The other contexts stay in order.
  lemma OthersKept(s: State, t: State, init: Memory, k: nat)
    requires Inv(s, init) && OwnStep(s, t) && k < |t.ctx| && k != s.cur
    ensures ContextOk(t, k) && Paid(t, k)
  {
    assert ContextOk(s, k) && Paid(s, k) && Distinct(s, s.cur, k);
    var id := t.ctx[k].id;
    if !t.ctx[k].phase.Idle? && Logged(t.log, id) { LoggedBefore(s.log, t.log, id); }
  }

  lemma DistinctKept(s: State, t: State, init: Memory, j: nat, k: nat)
    requires Inv(s, init) && OwnStep(s, t) && j < |t.ctx| && k < |t.ctx|
    ensures Distinct(t, j, k)
  {
    assert Distinct(s, j, k) && ContextOk(s, j) && ContextOk(s, k);
  }

  // The parts of the invariant after a step, put together.
  lemma InvAfter(s: State, t: State, init: Memory)
    requires Inv(s, init) && OwnStep(s, t)
    requires Linearizable(init, t.mem, t.log, t.done) && IdsOk(t) && MonitorOk(t)
    requires ContextOk(t, s.cur) && Paid(t, s.cur)
    ensures Inv(t, init)
  {
    forall k: nat | k < |t.ctx| ensures ContextOk(t, k) && Paid(t, k) {
      if k != s.cur { OthersKept(s, t, init, k); }
    }
    forall j: nat, k: nat | j < |t.ctx| && k < |t.ctx| ensures Distinct(t, j, k) {
      DistinctKept(s, t, init, j, k);
    }
  }

  // Whether STREX can succeed.
  predicate CanStore(s: State)
    requires s.cur < |s.ctx|
  {
    s.monitor && s.ctx[s.cur].phase.Loaded? && !MustGiveUp(s.ctx[s.cur])
  }

  // Whether LDREX finds a mismatch: the call is then bound to give up and enters the history.
  predicate Mismatches(s: State)
    requires s.cur < |s.ctx|
  {
    var p := s.ctx[s.cur].phase;
    p.Ready? && Aborts(p.call, At(s.mem, p.call.addr))
  }

  // The history after a step.
  lemma HistoryKept(s: State, step: Step, init: Memory)
    requires Inv(s, init)
    ensures var t := Next(s, step); Linearizable(init, t.mem, t.log, t.done)
  {
    if step.StoreExclusive? && !step.fail && CanStore(s) {
      StoreKeepsHistory(s, init);
    } else if step.GiveUp? && MustGiveUp(s.ctx[s.cur]) {
      GiveUpKeepsHistory(s, init);
    } else if step.LoadExclusive? && Mismatches(s) {
      MismatchKeepsHistory(s, init);
    }
  }

  lemma MismatchKeepsHistory(s: State, init: Memory)
    requires Inv(s, init) && Mismatches(s)
    ensures var t := Next(s, LoadExclusive); Linearizable(init, t.mem, t.log, t.done)
  {
    var c := s.ctx[s.cur];
    LogKeepsHistory(init, s.mem, s.log, s.done, Entry(c.id, c.phase.call, 0));
  }

  // STREX succeeds: the call takes effect, returns and enters the history.
  lemma StoreKeepsHistory(s: State, init: Memory)
    requires Inv(s, init) && CanStore(s)
    ensures var t := Next(s, StoreExclusive(false)); Linearizable(init, t.mem, t.log, t.done)
  {
    var c := s.ctx[s.cur];
    var e := Entry(c.id, c.phase.call, Returned(c.phase.call, c.phase.val));
    LogKeepsHistory(init, s.mem, s.log, s.done, e);
    var d := Completion(e.id, e.call, e.ret, c.doneBefore, |s.log|);
    CallUnfinished(s, init);
    DoneKeepsHistory(init, Effect(s.mem, e.call), s.log + [e], s.done, d);
  }

  lemma GiveUpKeepsHistory(s: State, init: Memory)
    requires Inv(s, init) && MustGiveUp(s.ctx[s.cur])
    ensures var t := Next(s, GiveUp); Linearizable(init, t.mem, t.log, t.done)
  {
    var c := s.ctx[s.cur];
    CallUnfinished(s, init);
    assert ContextOk(s, s.cur);
    DoneKeepsHistory(init, s.mem, s.log, s.done, Completion(c.id, c.phase.call, 0, c.doneBefore, c.at));
  }

  // What the history needs to know of a call that is about to complete.
  lemma CallUnfinished(s: State, init: Memory)
    requires Inv(s, init) && !s.ctx[s.cur].phase.Idle?
    ensures forall j | 0 <= j < |s.done| :: s.done[j].id != s.ctx[s.cur].id
    ensures s.ctx[s.cur].doneBefore <= |s.done|
    ensures forall k: nat | k < |s.done| ::
      Stands(s.log, s.done, k) && s.done[k].at < |s.log| && s.done[k].doneBefore <= k
  {
    assert ContextOk(s, s.cur);
    forall k: nat | k < |s.done|
      ensures Stands(s.log, s.done, k) && s.done[k].at < |s.log| && s.done[k].doneBefore <= k
    {
      assert Stands(s.log, s.done, k) && DoneIds(s, k, k);
    }
  }

  // The ids after a step.
  lemma IdsKept(s: State, step: Step, init: Memory)
    requires Inv(s, init)
    ensures IdsOk(Next(s, step))
  {
    var t := Next(s, step);
    assert ContextOk(s, s.cur);
    forall j: nat, k: nat | j < |t.log| && k < |t.log| ensures LogIds(t, j, k) {
      LogIdsKept(s, step, init, j, k);
    }
    forall j: nat, k: nat | j < |t.done| && k < |t.done| ensures DoneIds(t, j, k) {
      DoneIdsKept(s, step, init, j, k);
    }
  }

  lemma LogIdsKept(s: State, step: Step, init: Memory, j: nat, k: nat)
    requires Inv(s, init) && j < |Next(s, step).log| && k < |Next(s, step).log|
    ensures LogIds(Next(s, step), j, k)
  {
    assert ContextOk(s, s.cur);
    if j < |s.log| { assert LogIds(s, j, j); }
    if k < |s.log| { assert LogIds(s, k, k); }
    if j < |s.log| && k < |s.log| { assert LogIds(s, j, k); }
  }

  lemma DoneIdsKept(s: State, step: Step, init: Memory, j: nat, k: nat)
    requires Inv(s, init) && j < |Next(s, step).done| && k < |Next(s, step).done|
    ensures DoneIds(Next(s, step), j, k)
  {
    assert ContextOk(s, s.cur);
    if j < |s.done| { assert DoneIds(s, j, j); }
    if k < |s.done| { assert DoneIds(s, k, k); }
    if j < |s.done| && k < |s.done| { assert DoneIds(s, j, k); }
  }

  // The current context after its step.
  lemma ContextKept(s: State, step: Step, init: Memory)
    requires Inv(s, init)
    ensures ContextOk(Next(s, step), s.cur) && Paid(Next(s, step), s.cur)
  {
    assert ContextOk(s, s.cur) && Paid(s, s.cur);
    match step
    case Begin(call) => BeginKeepsContext(s, call, init);
    case LoadExclusive => LoadKeepsContext(s, init);
    case _ =>
  }

  lemma BeginKeepsContext(s: State, call: Call, init: Memory)
    requires Inv(s, init)
    ensures ContextOk(Next(s, Begin(call)), s.cur)
  {
    assert ContextOk(s, s.cur);
    forall k: nat | k < |s.done| ensures s.done[k].id < s.nextId { assert DoneIds(s, k, k); }
    forall k: nat | k < |s.log| ensures s.log[k].id < s.nextId { assert LogIds(s, k, k); }
  }

  lemma LoadKeepsContext(s: State, init: Memory)
    requires Inv(s, init)
    ensures ContextOk(Next(s, LoadExclusive), s.cur)
  {
    assert ContextOk(s, s.cur);
    forall k: nat | k < |s.done| ensures s.done[k].at < |s.log| { assert Stands(s.log, s.done, k); }
  }

  // Every step of every context keeps the invariant.
  lemma NextKeepsInv(s: State, step: Step, init: Memory)
    requires Inv(s, init)
    ensures Inv(Next(s, step), init)
  {
    if Next(s, step) != s {
      StepsAreOwn(s, step);
      HistoryKept(s, step, init);
      IdsKept(s, step, init);
      ContextKept(s, step, init);
      InvAfter(s, Next(s, step), init);
    }
  }

  // How often a run switches, and how often it lets STREX fail.
  function Switches(steps: seq<Step>): nat {
    if steps == [] then 0 else Switches(steps[..|steps| - 1]) + (if steps[|steps| - 1].Switch? then 1 else 0)
  }

  function Failures(steps: seq<Step>): nat {
    if steps == [] then 0
    else
      var last := steps[|steps| - 1];
      Failures(steps[..|steps| - 1]) + (if last.StoreExclusive? && last.fail then 1 else 0)
  }

  predicate Counted(s: State, k: nat, switches: nat, failures: nat)
    requires k < |s.ctx|
  {
    !s.ctx[k].phase.Idle? ==> s.ctx[k].hits <= switches && s.ctx[k].spurious <= failures
  }

  // The counters of a call count switches and failures.
  lemma {:induction false} CountersCount(s: State, steps: seq<Step>, init: Memory, k: nat)
    requires Initial(s, init) && k < |s.ctx|
    ensures Counted(Run(s, steps), k, Switches(steps), Failures(steps))
  {
    if steps != [] {
      var rest := steps[..|steps| - 1];
      CountersCount(s, rest, init, k);
      RunKeepsInv(s, rest, init);
      StepCounts(Run(s, rest), steps[|steps| - 1], k, Switches(rest), Failures(rest));
    }
  }

  lemma StepCounts(s: State, step: Step, k: nat, switches: nat, failures: nat)
    requires s.cur < |s.ctx| && k < |s.ctx| && MonitorOk(s) && Counted(s, k, switches, failures)
    ensures Counted(Next(s, step), k, switches + (if step.Switch? then 1 else 0),
                    failures + (if step.StoreExclusive? && step.fail then 1 else 0))
  {
  }

  // Every interleaving of every set of calls is linearizable, and the number of retries of a call
  // never exceeds the number of switches that hit it between LDREX and STREX, plus the
  // spurious failures.
  lemma {:induction false} EveryRunLinearizable(s: State, steps: seq<Step>, init: Memory)
    requires Initial(s, init)
    ensures var t := Run(s, steps);
      && Linearizable(init, t.mem, t.log, t.done)
      && (forall k: nat | k < |t.ctx| && !t.ctx[k].phase.Idle? ::
            && t.ctx[k].retries <= t.ctx[k].hits + t.ctx[k].spurious
            && t.ctx[k].hits <= Switches(steps) && t.ctx[k].spurious <= Failures(steps))
  {
    RunKeepsInv(s, steps, init);
    var t := Run(s, steps);
    forall k: nat | k < |t.ctx| && !t.ctx[k].phase.Idle?
      ensures t.ctx[k].retries <= t.ctx[k].hits + t.ctx[k].spurious
      ensures t.ctx[k].hits <= Switches(steps) && t.ctx[k].spurious <= Failures(steps)
    {
      CountersCount(s, steps, init, k);
      assert Paid(t, k);
    }
  }

  lemma {:induction false} RunKeepsInv(s: State, steps: seq<Step>, init: Memory)
    requires Initial(s, init)
    ensures Inv(Run(s, steps), init)
  {
    if steps == [] {
    } else {
      RunKeepsInv(s, steps[..|steps| - 1], init);
      NextKeepsInv(Run(s, steps[..|steps| - 1]), steps[|steps| - 1], init);
    }
  }
}
