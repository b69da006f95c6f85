// The do/while loops of drivers/fsl_common_arm.h, run by one context while others preempt it.

module AtomicDriver {
  import opened AtomicSpec
  import opened AtomicLoops

  // A step taken by another context.
  lemma OtherStep(s: State, step: Step, me: nat)
    requires s.cur < |s.ctx| && me < |s.ctx| && s.cur != me
    ensures var t := Next(s, step);
      t.ctx[me] == s.ctx[me] && s.done <= t.done && s.nextId <= t.nextId
  {
  }

  // The step that ends a call, and what it leaves.
  lemma EndsCall(s: State, step: Step)
    requires s.cur < |s.ctx| && s.ctx[s.cur].phase.Loaded?
    requires if MustGiveUp(s.ctx[s.cur]) then step == GiveUp else step == StoreExclusive(false) && s.monitor
    ensures var c, t := s.ctx[s.cur], Next(s, step);
      && t.cur == s.cur && t.ctx[s.cur] == c.(phase := Idle) && |t.done| == |s.done| + 1
      && var d := t.done[|s.done|];
         && d.id == c.id && d.call == c.phase.call
         && d.ret == Returned(c.phase.call, c.phase.val) && d.doneBefore == c.doneBefore
  {
  }

  // All but the count of preemptions.
  predicate SameCall(c: Context, d: Context) { d == c.(hits := d.hits) }

  class Core {
    var s: State
    // How many preemptions and spurious STREX failures are still to come.
    var budget: nat
    const init: Memory

    constructor (contexts: nat, memory: Memory, preemptions: nat)
      requires contexts > 0
      ensures Initial(s, init) && init == memory && |s.ctx| == contexts && budget == preemptions
      ensures Valid()
    {
      init := memory;
      budget := preemptions;
      s := State(memory, false, 0, seq(contexts, _ => Context(Idle, 0, 0, 0, 0, 0, 0)), 0, [], []);
    }

    ghost predicate Valid() reads this { Inv(s, init) }

    function Mine(): Context reads this requires s.cur < |s.ctx| { s.ctx[s.cur] }

    // An exception may be taken here; any number of contexts then run for any number of steps,
    // until this one is resumed.
    method Preempt()
      requires Valid()
      modifies this
      ensures Valid() && s.cur == old(s.cur) && |s.ctx| == old(|s.ctx|)
      ensures SameCall(old(Mine()), Mine()) && old(s.done) <= s.done && old(s.nextId) <= s.nextId
      ensures (s == old(s) && budget == old(budget)) || budget < old(budget)
    {
      var taken: bool := *;
      if taken && budget > 0 {
        budget := budget - 1;
        var me := s.cur;
        ghost var mine, was := Mine(), s;
        var to: nat, more: nat := *, *;
        Take(Switch(to));
        while more > 0
          invariant Valid() && |s.ctx| == |was.ctx| && me < |s.ctx|
          invariant SameCall(mine, s.ctx[me]) && was.done <= s.done && was.nextId <= s.nextId
          invariant budget < old(budget)
          modifies `s
        {
          var step: Step := *;
          if s.cur != me {
            OtherStep(s, step, me);
            Take(step);
          }
          more := more - 1;
        }
        Take(Switch(me));
      }
    }

    method Take(step: Step)
      requires Valid()
      modifies `s
      ensures Valid() && s == Next(old(s), step)
    {
      NextKeepsInv(s, step, init);
      s := Next(s, step);
    }

    // The current context is in the call with this id, invoked when at least `calls` calls had
    // completed, and its retries are paid for by the budget spent since it was `allowance`.
    predicate Calling(call: Call, id: nat, calls: nat, allowance: nat) reads this {
      && s.cur < |s.ctx|
      && Mine().phase == Ready(call)
      && Mine().id == id
      && calls <= Mine().doneBefore
      && calls <= |s.done|
      && Mine().retries + budget <= allowance
    }

    // It has returned: the last completion is its own.
    predicate HasReturned(call: Call, id: nat, calls: nat, allowance: nat, ret: Word) reads this {
      && s.cur < |s.ctx|
      && Mine().phase.Idle?
      && calls < |s.done|
      && s.done[|s.done| - 1] == Completion(id, call, ret, s.done[|s.done| - 1].doneBefore, s.done[|s.done| - 1].at)
      && calls <= s.done[|s.done| - 1].doneBefore
      && Mine().id == id
      && Mine().retries + budget <= allowance
    }

    // One pass through the loop body.
    method Attempt(call: Call, ghost id: nat, ghost calls: nat, ghost allowance: nat) returns (again: bool, ret: Word)
      requires Valid() && Calling(call, id, calls, allowance)
      modifies this
      ensures Valid() && s.cur == old(s.cur) && |s.ctx| == old(|s.ctx|)
      ensures again ==> Calling(call, id, calls, allowance) && budget < old(budget)
      ensures !again ==> HasReturned(call, id, calls, allowance, ret)
      ensures budget <= old(budget)
    {
      Preempt();
      Take(LoadExclusive);
      var val := Mine().phase.val;
      assert s.monitor;
      Preempt();
      again, ret := Store(call, val, id, calls, allowance);
    }

    // STREX with the new value, or CLREX and out when a CompareAndSet finds a mismatch.
    method Store(call: Call, val: Word, ghost id: nat, ghost calls: nat, ghost allowance: nat)
      returns (again: bool, ret: Word)
      requires Valid() && Mine().phase == Loaded(call, val) && Mine().id == id
      requires calls <= Mine().doneBefore && calls <= |s.done|
      requires Mine().retries + budget + (if s.monitor then 0 else 1) <= allowance
      modifies this
      ensures Valid() && s.cur == old(s.cur) && |s.ctx| == old(|s.ctx|)
      ensures again ==> Calling(call, id, calls, allowance) && (old(s.monitor) ==> budget < old(budget))
      ensures !again ==> HasReturned(call, id, calls, allowance, ret)
      ensures budget <= old(budget)
    {
      if call.op.CompareAndSet? && val != Narrow(call.width, call.op.expected) {
        Finish(GiveUp, 0);
        return false, 0;
      }
      ret := match call.op case CompareAndSet(_, _) => 1 case TestAndSet(_) => val case _ => 0;
      var spurious: bool := *;
      if s.monitor && !(spurious && budget > 0) {
        Finish(StoreExclusive(false), ret);
        return false, ret;
      }
      budget := if s.monitor then budget - 1 else budget;
      Retry();
      again := true;
    }

    // The step that ends the call.
    method Finish(step: Step, ghost ret: Word)
      requires Valid() && Mine().phase.Loaded?
      requires ret == AtomicSpec.Returned(Mine().phase.call, Mine().phase.val)
      requires if MustGiveUp(Mine()) then step == GiveUp else step == StoreExclusive(false) && s.monitor
      modifies `s
      ensures Valid() && s.cur == old(s.cur) && |s.ctx| == old(|s.ctx|)
      ensures Mine() == old(Mine()).(phase := Idle) && |s.done| == |old(s.done)| + 1
      ensures var d := s.done[|old(s.done)|];
        && d.id == Mine().id && d.call == old(Mine()).phase.call
        && d.ret == ret && d.doneBefore == Mine().doneBefore
    {
      EndsCall(s, step);
      Take(step);
    }

    // The step of a STREX that fails, for want of the monitor or spuriously.
    method Retry()
      requires Valid() && Mine().phase.Loaded? && !MustGiveUp(Mine())
      modifies `s
      ensures Valid() && s.cur == old(s.cur) && |s.ctx| == old(|s.ctx|) && s.done == old(s.done)
      ensures Mine().phase == Ready(old(Mine()).phase.call) && Mine().doneBefore == old(Mine()).doneBefore
      ensures Mine().retries == old(Mine()).retries + 1 && Mine().id == old(Mine()).id
    {
      Take(StoreExclusive(true));
    }

    // One call of an atomic operation. It returns with a completion of its own, invoked after
    // everything already completed, and went round the loop no more often than it was hit.
    method Atomic(call: Call) returns (ret: Word)
      requires Valid() && Mine().phase.Idle?
      modifies this
      ensures Valid() && s.cur == old(s.cur) && |s.ctx| == old(|s.ctx|)
      ensures old(s.nextId) <= Mine().id && HasReturned(call, Mine().id, |old(s.done)|, old(budget), ret)
      ensures Linearizable(init, s.mem, s.log, s.done) && TookEffect(init, s.log, s.done[|s.done| - 1])
    {
      ghost var calls, allowance := |s.done|, budget;
      Preempt();
      Take(Begin(call));
      ghost var id := Mine().id;
      var again;
      again, ret := Attempt(call, id, calls, allowance);
      while again
        invariant Valid() && s.cur == old(s.cur) && |s.ctx| == old(|s.ctx|)
        invariant again ==> Calling(call, id, calls, allowance)
        invariant !again ==> HasReturned(call, id, calls, allowance, ret)
        decreases if again then budget + 1 else 0
      {
        again, ret := Attempt(call, id, calls, allowance);
      }
      CompletedCallTookEffect(init, s.mem, s.log, s.done, |s.done| - 1);
    }
  }
}
