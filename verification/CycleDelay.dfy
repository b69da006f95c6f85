// The delay on the 32-bit cycle counter (drivers/fsl_common_arm.c).

module CycleDelay {
  import opened Arithmetic

  // The counter at true time t.
  function Counter(base: nat, t: nat): nat { (base + t) % 0x1_0000_0000 }

  // A wait ends at a true time, with the polls still to come, or the polls run out first.
  datatype Wait = Done(t: nat, polls: seq<nat>) | Waiting

  // Polls a number of cycles apart until the counter is at most, or at least, count.
  function UntilAtMost(count: nat, base: nat, t: nat, polls: seq<nat>): Wait
    decreases |polls|
  {
    if polls == [] then Waiting
    else if Counter(base, t + polls[0]) <= count then Done(t + polls[0], polls[1..])
    else UntilAtMost(count, base, t + polls[0], polls[1..])
  }

  function UntilAtLeast(count: nat, base: nat, t: nat, polls: seq<nat>): Wait
    decreases |polls|
  {
    if polls == [] then Waiting
    else if Counter(base, t + polls[0]) >= count then Done(t + polls[0], polls[1..])
    else UntilAtLeast(count, base, t + polls[0], polls[1..])
  }

  // A delay of n cycles whose counter was first read at true time t.
  function Delay(n: nat, base: nat, t: nat, polls: seq<nat>): Wait {
    var count := Counter(base, t) + n;
    if count > UINT32_MAX then
      var w := UntilAtMost(count - UINT32_MAX, base, t, polls);
      if w.Waiting? then w else UntilAtLeast(count - UINT32_MAX, base, w.t, w.polls)
    else
      UntilAtLeast(count, base, t, polls)
  }

  // The delay does not end before n cycles have passed.
  predicate LongEnough(n: nat, base: nat, t: nat, polls: seq<nat>) {
    var w := Delay(n, base, t, polls);
    w.Done? ==> w.t - t >= n
  }

  lemma {:induction false} UntilAtMostEnds(count: nat, base: nat, t: nat, polls: seq<nat>)
    ensures var w := UntilAtMost(count, base, t, polls);
      w.Done? ==> Counter(base, w.t) <= count && w.t >= t + polls[0]
    decreases |polls|
  {
    if polls != [] { UntilAtMostEnds(count, base, t + polls[0], polls[1..]); }
  }

  lemma {:induction false} UntilAtLeastEnds(count: nat, base: nat, t: nat, polls: seq<nat>)
    ensures var w := UntilAtLeast(count, base, t, polls);
      w.Done? ==> Counter(base, w.t) >= count && w.t >= t
    decreases |polls|
  {
    if polls != [] { UntilAtLeastEnds(count, base, t + polls[0], polls[1..]); }
  }

  // The counter after e more cycles, short of a full turn.
  lemma CounterAfter(base: nat, t: nat, e: nat)
    requires e <= UINT32_MAX
    ensures var c := Counter(base, t);
      Counter(base, t + e) == if c + e <= UINT32_MAX then c + e else c + e - 0x1_0000_0000
  {
    var x, q := base + t, (base + t) / 0x1_0000_0000;
    var c := x % 0x1_0000_0000;
    if c + e <= UINT32_MAX {
      DivisionIs(x + e, 0x1_0000_0000, q, c + e);
    } else {
      DivisionIs(x + e, 0x1_0000_0000, q + 1, c + e - 0x1_0000_0000);
    }
  }

  // Not the one case in doubt: n is UINT32_MAX and the first poll reads the counter in the very
  // cycle in which it was read to set the goal.
  predicate Sure(n: nat, base: nat, t: nat, polls: seq<nat>) {
    n < UINT32_MAX || Counter(base, t) == 0 || polls == [] || polls[0] > 0
  }

  // Across the wrap of the counter the delay is long enough.
  lemma DelayLongEnough(n: nat, base: nat, t: nat, polls: seq<nat>)
    requires n <= UINT32_MAX
    requires Sure(n, base, t, polls)
    ensures LongEnough(n, base, t, polls)
  {
    var count := Counter(base, t) + n;
    if count > UINT32_MAX {
      var goal := count - UINT32_MAX;
      UntilAtMostEnds(goal, base, t, polls);
      var w := UntilAtMost(goal, base, t, polls);
      if w.Done? {
        UntilAtLeastEnds(goal, base, w.t, w.polls);
        var v := UntilAtLeast(goal, base, w.t, w.polls);
        if w.t - t <= UINT32_MAX { CounterAfter(base, t, w.t - t); }
        if v.Done? && v.t - t <= UINT32_MAX { CounterAfter(base, t, v.t - t); }
      }
    } else {
      UntilAtLeastEnds(count, base, t, polls);
      var w := UntilAtLeast(count, base, t, polls);
      if w.Done? && w.t - t <= UINT32_MAX { CounterAfter(base, t, w.t - t); }
    }
  }

  // Every read of the counter takes a cycle at least.
  predicate Ticking(polls: seq<nat>) { forall k | 0 <= k < |polls| :: polls[k] > 0 }

  // So every count that passes the assertion is safe, whatever the counter and the schedule.
  lemma EveryCountSafe(n: nat, base: nat, t: nat)
    requires n <= UINT32_MAX
    ensures forall polls | Ticking(polls) :: LongEnough(n, base, t, polls)
  {
    forall polls | Ticking(polls) ensures LongEnough(n, base, t, polls) { DelayLongEnough(n, base, t, polls); }
  }

  // If reads took no time, the counts for which every schedule is safe would be these.
  lemma TimelessReads(n: nat, base: nat, t: nat)
    requires n <= UINT32_MAX
    ensures (forall polls :: LongEnough(n, base, t, polls)) <==> n < UINT32_MAX || Counter(base, t) == 0
  {
    if n < UINT32_MAX || Counter(base, t) == 0 {
      forall polls ensures LongEnough(n, base, t, polls) { DelayLongEnough(n, base, t, polls); }
    } else {
      var polls := [0, 0];
      assert UntilAtMost(Counter(base, t), base, t, polls) == Done(t, [0]);
      assert !LongEnough(n, base, t, polls);
    }
  }

  // The cycles of a time in microseconds.
  function Cycles(us: nat, clock: nat): nat { us * clock / 1_000_000 }

  // USEC_TO_COUNT in 64 bits: nothing is lost but the fraction of a cycle.
  lemma UsecToCount(us: nat, clock: nat)
    requires us <= UINT32_MAX && clock <= UINT32_MAX
    ensures (us * clock) % 0x1_0000_0000_0000_0000 / 1_000_000 == Cycles(us, clock)
    ensures Cycles(us, clock) * 1_000_000 <= us * clock < (Cycles(us, clock) + 1) * 1_000_000
  {
    Product(UINT32_MAX - us, clock);
    assert (UINT32_MAX - us) * clock == UINT32_MAX * clock - us * clock;
    CountIs(us * clock);
  }

  lemma CountIs(product: nat)
    requires product <= UINT32_MAX * UINT32_MAX
    ensures product % 0x1_0000_0000_0000_0000 == product
    ensures product / 1_000_000 * 1_000_000 <= product < (product / 1_000_000 + 1) * 1_000_000
  {
  }

  lemma Product(a: nat, b: nat)
    ensures a * b >= 0
  {
  }

  class Core {
    const base: nat
    var t: nat          // true time in cycles
    var polls: seq<nat> // cycles between the coming reads of the counter

    constructor (base: nat, polls: seq<nat>)
      ensures this.base == base && t == 0 && this.polls == polls
    {
      this.base, t, this.polls := base, 0, polls;
    }

    method GetCpuCycleCount() returns (c: nat)
      requires polls != []
      modifies this
      ensures t == old(t) + old(polls)[0] && polls == old(polls)[1..]
      ensures c == Counter(base, t)
    {
      t := t + polls[0];
      polls := polls[1..];
      c := Counter(base, t);
    }

    // while (count < counter)
    method AwaitAtMost(count: nat) returns (ended: bool)
      modifies this
      ensures var w := UntilAtMost(count, base, old(t), old(polls));
        ended == w.Done? && (ended ==> t == w.t && polls == w.polls)
    {
      ended := false;
      ghost var want := UntilAtMost(count, base, t, polls);
      while !ended && polls != []
        invariant if ended then want == Done(t, polls) else want == UntilAtMost(count, base, t, polls)
        decreases |polls|, !ended
      {
        var c := GetCpuCycleCount();
        ended := !(count < c);
      }
    }

    // while (count > counter)
    method AwaitAtLeast(count: nat) returns (ended: bool)
      modifies this
      ensures var w := UntilAtLeast(count, base, old(t), old(polls));
        ended == w.Done? && (ended ==> t == w.t && polls == w.polls)
    {
      ended := false;
      ghost var want := UntilAtLeast(count, base, t, polls);
      while !ended && polls != []
        invariant if ended then want == Done(t, polls) else want == UntilAtLeast(count, base, t, polls)
        decreases |polls|, !ended
      {
        var c := GetCpuCycleCount();
        ended := !(count > c);
      }
    }

    // Whether the delay of n cycles ended before the polls ran out.
    method DelayCycles(n: nat) returns (ended: bool)
      requires polls != []
      modifies this
      ensures var w := Delay(n, base, old(t) + old(polls)[0], old(polls)[1..]);
        ended == w.Done? && (ended ==> t == w.t && polls == w.polls)
    {
      var count := n;
      var c := GetCpuCycleCount();
      count := count + c;
      if count > UINT32_MAX {
        count := count - UINT32_MAX;
        ended := AwaitAtMost(count);
        if !ended { return; }
      }
      ended := AwaitAtLeast(count);
    }

    // When the delay ends, as many whole cycles have passed since the counter was first read as
    // fit into the time asked for.
    method DelayAtLeastUs(us: nat, clock: nat) returns (ended: bool)
      requires us <= UINT32_MAX && clock <= UINT32_MAX && Cycles(us, clock) <= UINT32_MAX
      requires polls != []
      modifies this
      ensures us == 0 ==> ended && t == old(t) && polls == old(polls)
      ensures us > 0 && ended && (Cycles(us, clock) < UINT32_MAX || Ticking(old(polls))) ==>
        t - (old(t) + old(polls)[0]) >= Cycles(us, clock)
    {
      if us == 0 { return true; }
      UsecToCount(us, clock);
      var count := (us * clock) % 0x1_0000_0000_0000_0000 / 1_000_000;
      assert count == Cycles(us, clock);
      if Sure(count, base, t + polls[0], polls[1..]) { DelayLongEnough(count, base, t + polls[0], polls[1..]); }
      ended := DelayCycles(count);
    }
  }
}
