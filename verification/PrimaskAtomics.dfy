// The fallback of drivers/fsl_common_arm.h for cores without LDREX/STREX: the operation runs
// with interrupts masked.

// The fallback as a machine of threads and interrupts. A context switch needs PRIMASK clear, and
// no context ends or yields with it set. Code outside an operation may set and clear PRIMASK as
// it likes, so operations may be nested in masked sections.
module PrimaskAtomics {
  import opened AtomicSpec

  // Where a context stands: before __get_PRIMASK, before __disable_irq, before the access, after
  // it, and before __set_PRIMASK.
  datatype Phase =
    | Idle
    | Entered(call: Call)
    | Saved(call: Call, primask: bool)
    | Masked(call: Call, primask: bool)
    | Read(call: Call, primask: bool, val: Word)
    | Written(call: Call, primask: bool, val: Word)

  // `before` is PRIMASK when the call was made; `at` its place in the log once it has one.
  datatype Context = Context(phase: Phase, id: nat, doneBefore: nat, at: nat, before: bool)

  datatype State = State(mem: Memory, primask: bool, cur: nat, ctx: seq<Context>, nextId: nat,
                         log: seq<Entry>, done: seq<Completion>)

  datatype Step =
    | Begin(call: Call)
    | GetPrimask
    | DisableIrq
    | ReadWord
    | WriteWord          // skipped by a CompareAndSet that mismatches
    | SetPrimask         // restore, and return
    | Section(mask: bool) // other code sets or clears PRIMASK
    | Switch(to: nat)

  // One step; a step that the current context cannot take changes nothing.
  function Next(s: State, step: Step): (t: State)
    requires s.cur < |s.ctx|
    ensures t.cur < |t.ctx| == |s.ctx|
  {
    var c := s.ctx[s.cur];
    match step
    case Begin(call) =>
      if !c.phase.Idle? then s
      else s.(ctx := s.ctx[s.cur := Context(Entered(call), s.nextId, |s.done|, 0, s.primask)], nextId := s.nextId + 1)
    case GetPrimask =>
      if !c.phase.Entered? then s
      else s.(ctx := s.ctx[s.cur := c.(phase := Saved(c.phase.call, s.primask))])
    case DisableIrq =>
      if !c.phase.Saved? then s
      else s.(primask := true, ctx := s.ctx[s.cur := c.(phase := Masked(c.phase.call, c.phase.primask))])
    case ReadWord =>
      if !c.phase.Masked? then s
      else
        var p := Read(c.phase.call, c.phase.primask, At(s.mem, c.phase.call.addr));
        s.(ctx := s.ctx[s.cur := c.(phase := p)])
    case WriteWord =>
      if !c.phase.Read? then s
      else
        var p := Written(c.phase.call, c.phase.primask, c.phase.val);
        s.(mem := if Aborts(p.call, p.val) then s.mem else s.mem[p.call.addr := Updated(p.call, p.val)],
           ctx := s.ctx[s.cur := c.(phase := p, at := |s.log|)],
           log := s.log + [Entry(c.id, p.call, Returned(p.call, p.val))])
    case SetPrimask =>
      if !c.phase.Written? then s
      else
        s.(primask := c.phase.primask,
           ctx := s.ctx[s.cur := c.(phase := Idle)],
           done := s.done + [Completion(c.id, c.phase.call, Returned(c.phase.call, c.phase.val), c.doneBefore, c.at)])
    case Section(mask) =>
      if !c.phase.Idle? then s else s.(primask := mask)
    case Switch(to) =>
      if to >= |s.ctx| || s.primask then s else s.(cur := to)
  }

  function Run(s: State, steps: seq<Step>): (t: State)
    requires s.cur < |s.ctx|
    ensures t.cur < |t.ctx| == |s.ctx|
  {
    if steps == [] then s else Next(Run(s, steps[..|steps| - 1]), steps[|steps| - 1])
  }

  predicate Initial(s: State, init: Memory) {
    && s.mem == init && !s.primask && s.log == [] && s.done == []
    && s.cur < |s.ctx|
    && forall k | 0 <= k < |s.ctx| :: s.ctx[k].phase.Idle?
  }

  // The critical section: with interrupts masked, nobody comes between the read and the write.
  // A context that was switched out had found PRIMASK clear.
  predicate MaskOk(s: State, k: nat)
    requires k < |s.ctx|
  {
    var c := s.ctx[k];
    match c.phase
    case Idle => true
    case Entered(_) => c.before == (k == s.cur && s.primask)
    case Saved(_, primask) => c.before == primask == (k == s.cur && s.primask)
    case Masked(_, primask) => c.before == primask && k == s.cur && s.primask
    case Read(call, primask, val) => c.before == primask && k == s.cur && s.primask && val == At(s.mem, call.addr)
    case Written(_, primask, _) => c.before == primask && k == s.cur && s.primask
  }

  // A call that has taken effect stands in the log, after every call that had completed when it
  // was invoked.
  ghost predicate PlaceOk(s: State, k: nat)
    requires k < |s.ctx|
  {
    var c := s.ctx[k];
    !c.phase.Idle? ==>
      && c.id < s.nextId
      && c.doneBefore <= |s.done|
      && (forall j | 0 <= j < |s.done| :: s.done[j].id != c.id)
      && (c.phase.Written? ==>
            && c.at < |s.log| && s.log[c.at] == Entry(c.id, c.phase.call, Returned(c.phase.call, c.phase.val))
            && forall j | 0 <= j < c.doneBefore :: s.done[j].at < c.at)
  }

  ghost predicate Distinct(s: State, j: nat, k: nat)
    requires j < |s.ctx| && k < |s.ctx|
  {
    j != k && !s.ctx[j].phase.Idle? && !s.ctx[k].phase.Idle? ==> s.ctx[j].id != s.ctx[k].id
  }

  predicate DoneOkAt(s: State, k: nat)
    requires k < |s.done|
  {
    s.done[k].id < s.nextId && s.done[k].doneBefore <= k
  }

  ghost predicate DoneOk(s: State) { forall k: nat | k < |s.done| :: DoneOkAt(s, k) }

  ghost predicate Inv(s: State, init: Memory) {
    && s.cur < |s.ctx|
    && Linearizable(init, s.mem, s.log, s.done)
    && DoneOk(s)
    && (forall k: nat | k < |s.ctx| :: MaskOk(s, k) && PlaceOk(s, k))
    && (forall j: nat, k: nat | j < |s.ctx| && k < |s.ctx| :: Distinct(s, j, k))
  }

  // What a step may change: the current context, and its own entry and completion at the end.
  ghost predicate OwnStep(s: State, t: State) {
    && s.cur < |s.ctx| == |t.ctx|
    && s.done <= t.done && s.log <= t.log && s.nextId <= t.nextId
    && (forall k: nat | k < |s.ctx| && k != s.cur :: t.ctx[k] == s.ctx[k])
    && (t.cur == s.cur || (t.cur < |t.ctx| && !s.primask && !t.primask))
    && var c, d := s.ctx[s.cur], t.ctx[s.cur];
       && (forall k: nat | |s.done| <= k < |t.done| :: !c.phase.Idle? && t.done[k].id == c.id)
       && (d.phase.Idle? || (!c.phase.Idle? && d.id == c.id) || d.id == s.nextId)
  }

  lemma StepsAreOwn(s: State, step: Step)
    requires s.cur < |s.ctx|
    ensures Next(s, step) == s || OwnStep(s, Next(s, step))
  {
  }

  // The other contexts stay in order.
  lemma OthersKept(s: State, t: State, init: Memory, k: nat)
    requires Inv(s, init) && OwnStep(s, t) && k < |t.ctx| && k != s.cur
    requires MaskOk(t, s.cur)
    ensures MaskOk(t, k) && PlaceOk(t, k)
  {
    assert MaskOk(s, k) && PlaceOk(s, k) && Distinct(s, s.cur, k);
  }

  lemma DistinctKept(s: State, t: State, init: Memory, j: nat, k: nat)
    requires Inv(s, init) && OwnStep(s, t) && j < |t.ctx| && k < |t.ctx|
    ensures Distinct(t, j, k)
  {
    assert Distinct(s, j, k) && PlaceOk(s, j) && PlaceOk(s, k);
  }

  // The parts of the invariant after a step, put together.
  lemma InvAfter(s: State, t: State, init: Memory)
    requires Inv(s, init) && OwnStep(s, t)
    requires Linearizable(init, t.mem, t.log, t.done) && DoneOk(t)
    requires MaskOk(t, s.cur) && PlaceOk(t, s.cur)
    ensures Inv(t, init)
  {
    forall k: nat | k < |t.ctx| ensures MaskOk(t, k) && PlaceOk(t, k) {
      if k != s.cur { OthersKept(s, t, init, k); }
    }
    forall j: nat, k: nat | j < |t.ctx| && k < |t.ctx| ensures Distinct(t, j, k) {
      DistinctKept(s, t, init, j, k);
    }
  }

  // The access takes effect and enters the history.
  lemma WriteKeepsHistory(s: State, init: Memory)
    requires Inv(s, init)
    ensures var t := Next(s, WriteWord); Linearizable(init, t.mem, t.log, t.done)
  {
    assert MaskOk(s, s.cur);
    var c := s.ctx[s.cur];
    if c.phase.Read? {
      LogKeepsHistory(init, s.mem, s.log, s.done, Entry(c.id, c.phase.call, Returned(c.phase.call, c.phase.val)));
    }
  }

  // The call returns.
  lemma ReturnKeepsHistory(s: State, init: Memory)
    requires Inv(s, init)
    ensures var t := Next(s, SetPrimask); Linearizable(init, t.mem, t.log, t.done)
  {
    assert PlaceOk(s, s.cur);
    var c := s.ctx[s.cur];
    if c.phase.Written? {
      forall k: nat | k < |s.done| ensures s.done[k].doneBefore <= k { assert DoneOkAt(s, k); }
      var d := Completion(c.id, c.phase.call, Returned(c.phase.call, c.phase.val), c.doneBefore, c.at);
      DoneKeepsHistory(init, s.mem, s.log, s.done, d);
    }
  }

  lemma HistoryKept(s: State, step: Step, init: Memory)
    requires Inv(s, init)
    ensures var t := Next(s, step); Linearizable(init, t.mem, t.log, t.done)
  {
    if step.WriteWord? { WriteKeepsHistory(s, init); } else if step.SetPrimask? { ReturnKeepsHistory(s, init); }
  }

  lemma DoneKept(s: State, step: Step, init: Memory)
    requires Inv(s, init)
    ensures DoneOk(Next(s, step))
  {
    var t := Next(s, step);
    assert PlaceOk(s, s.cur);
    forall k: nat | k < |t.done| ensures DoneOkAt(t, k) {
      if k < |s.done| { assert DoneOkAt(s, k); }
    }
  }

  // The current context after its step.
  lemma ContextKept(s: State, step: Step, init: Memory)
    requires Inv(s, init)
    ensures MaskOk(Next(s, step), s.cur) && PlaceOk(Next(s, step), s.cur)
  {
    assert MaskOk(s, s.cur) && PlaceOk(s, s.cur);
    forall k: nat | k < |s.done| ensures s.done[k].id < s.nextId && s.done[k].at < |s.log| {
      assert DoneOkAt(s, k) && Stands(s.log, s.done, k);
    }
  }

  // Every step of every context keeps the invariant.
  lemma NextKeepsInv(s: State, step: Step, init: Memory)
    requires Inv(s, init)
    ensures Inv(Next(s, step), init)
  {
    if Next(s, step) != s {
      StepsAreOwn(s, step);
      HistoryKept(s, step, init);
      DoneKept(s, step, init);
      ContextKept(s, step, init);
      InvAfter(s, Next(s, step), init);
    }
  }

  lemma {:induction false} RunKeepsInv(s: State, steps: seq<Step>, init: Memory)
    requires Initial(s, init)
    ensures Inv(Run(s, steps), init)
  {
    if steps != [] {
      RunKeepsInv(s, steps[..|steps| - 1], init);
      NextKeepsInv(Run(s, steps[..|steps| - 1]), steps[|steps| - 1], init);
    }
  }

  // The fallback meets the same specification as the exclusive loops, under every interleaving
  // and nesting, and a return leaves PRIMASK as the call found it.
  lemma EveryRunLinearizable(s: State, steps: seq<Step>, init: Memory)
    requires Initial(s, init)
    ensures var t := Run(s, steps);
      && Linearizable(init, t.mem, t.log, t.done)
      && (t.ctx[t.cur].phase.Written? ==> Next(t, SetPrimask).primask == t.ctx[t.cur].before)
  {
    RunKeepsInv(s, steps, init);
    assert MaskOk(Run(s, steps), Run(s, steps).cur);
  }

  // A step taken by another context.
  lemma OtherStep(s: State, step: Step, me: nat)
    requires s.cur < |s.ctx| && me < |s.ctx| && s.cur != me
    ensures Next(s, step).ctx[me] == s.ctx[me] && s.done <= Next(s, step).done
  {
  }

  // The operations as the source writes them, with other contexts coming in while PRIMASK is clear.
  class Core {
    var s: State
    const init: Memory

    constructor (contexts: nat, memory: Memory)
      requires contexts > 0
      ensures Initial(s, init) && init == memory && |s.ctx| == contexts
      ensures Valid()
    {
      init := memory;
      s := State(memory, false, 0, seq(contexts, _ => Context(Idle, 0, 0, 0, false)), 0, [], []);
    }

    ghost predicate Valid() reads this { Inv(s, init) }

    function Mine(): Context reads this requires s.cur < |s.ctx| { s.ctx[s.cur] }

    method Take(step: Step)
      requires Valid()
      modifies this
      ensures Valid() && s == Next(old(s), step)
    {
      NextKeepsInv(s, step, init);
      s := Next(s, step);
    }

    // An exception may be taken here unless PRIMASK is set; the context is resumed later.
    method Preempt()
      requires Valid()
      modifies this
      ensures Valid() && s.cur == old(s.cur) && |s.ctx| == old(|s.ctx|)
      ensures Mine() == old(Mine()) && old(s.done) <= s.done && s.primask == old(s.primask)
      ensures s.primask ==> s == old(s)
    {
      var taken: bool := *;
      if taken && !s.primask {
        var me := s.cur;
        ghost var was := s;
        var to: nat, more: nat := *, *;
        Take(Switch(to));
        // The latest moment at which this context can be resumed.
        var resume := s;
        while more > 0
          invariant Valid() && |s.ctx| == |was.ctx| && me < |s.ctx|
          invariant s.ctx[me] == was.ctx[me] && was.done <= s.done
          invariant Inv(resume, init) && |resume.ctx| == |was.ctx| && !resume.primask
          invariant resume.ctx[me] == was.ctx[me] && was.done <= resume.done
        {
          var step: Step := *;
          if s.cur != me {
            OtherStep(s, step, me);
            Take(step);
          }
          if !s.primask { resume := s; }
          more := more - 1;
        }
        s := resume;
        Take(Switch(me));
      }
    }

    method DisableGlobalIRQ() returns (mask: bool)
      requires Valid() && Mine().phase.Entered?
      modifies this
      ensures Valid() && s.cur == old(s.cur) && |s.ctx| == old(|s.ctx|) && old(s.done) <= s.done
      ensures mask == old(s.primask) && s.primask
      ensures Mine() == old(Mine()).(phase := Masked(old(Mine()).phase.call, mask))
    {
      Take(GetPrimask);
      mask := Mine().phase.primask;
      Preempt();
      Take(DisableIrq);
    }

    // PRIMASK goes back to what DisableGlobalIRQ found, and the call returns.
    method EnableGlobalIRQ(primask: bool)
      requires Valid() && Mine().phase.Written? && primask == Mine().phase.primask
      modifies this
      ensures Valid() && s.cur == old(s.cur) && |s.ctx| == old(|s.ctx|)
      ensures s.primask == primask && Mine() == old(Mine()).(phase := Idle)
      ensures |s.done| == |old(s.done)| + 1
      ensures var p, d := old(Mine()).phase, s.done[|old(s.done)|];
        d == Completion(Mine().id, p.call, Returned(p.call, p.val), Mine().doneBefore, Mine().at)
    {
      Take(SetPrimask);
    }

    method Access(call: Call, primask: bool) returns (val: Word)
      requires Valid() && Mine().phase == Masked(call, primask)
      modifies this
      ensures Valid() && s.cur == old(s.cur) && |s.ctx| == old(|s.ctx|) && s.done == old(s.done)
      ensures Mine().phase == Written(call, primask, val)
      ensures Mine().doneBefore == old(Mine()).doneBefore && Mine().id == old(Mine()).id
    {
      assert MaskOk(s, s.cur);
      Preempt();
      Take(ReadWord);
      val := Mine().phase.val;
      Preempt();
      Take(WriteWord);
    }

    method Enter(call: Call)
      requires Valid() && Mine().phase.Idle?
      modifies this
      ensures Valid() && s.cur == old(s.cur) && |s.ctx| == old(|s.ctx|) && s.primask == old(s.primask)
      ensures old(s.done) <= s.done && Mine().phase == Entered(call)
      ensures |old(s.done)| <= Mine().doneBefore && old(s.nextId) <= Mine().id
    {
      Take(Begin(call));
      Preempt();
    }

    // One call of an atomic operation: a completion of its own, invoked after everything already
    // completed, and PRIMASK as before.
    method Atomic(call: Call) returns (ret: Word)
      requires Valid() && Mine().phase.Idle?
      modifies this
      ensures Valid() && s.cur == old(s.cur) && |s.ctx| == old(|s.ctx|) && Mine().phase.Idle?
      ensures s.primask == old(s.primask)
      ensures |old(s.done)| < |s.done|
      ensures var d := s.done[|s.done| - 1];
        d.id == Mine().id && d.call == call && d.ret == ret && d.doneBefore >= |old(s.done)|
      ensures old(s.nextId) <= Mine().id
      ensures Linearizable(init, s.mem, s.log, s.done) && TookEffect(init, s.log, s.done[|s.done| - 1])
    {
      Enter(call);
      var primask := DisableGlobalIRQ();
      var val := Access(call, primask);
      Preempt();
      EnableGlobalIRQ(primask);
      match call.op {
        case CompareAndSet(expected, _) => ret := if val == Narrow(call.width, expected) then 1 else 0;
        case TestAndSet(_) => ret := val;
        case _ => ret := 0;
      }
      CompletedCallTookEffect(init, s.mem, s.log, s.done, |s.done| - 1);
    }
  }
}
