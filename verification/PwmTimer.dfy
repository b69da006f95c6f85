// PWM on the standard counter-timer (drivers/fsl_ctimer.c).

// The counter behind the registers, tick by tick.
module CtimerHardware {
  import opened Arithmetic

  type Channel = c: nat | c < 4

  // The bits of MCR for one channel.
  datatype Control = Control(interrupt: bool, reset: bool, stop: bool)

  // The match registers and MCR.
  datatype Matches = Matches(mr: seq<nat>, mcr: seq<Control>)

  predicate ValidMatches(r: Matches) {
    |r.mr| == 4 && |r.mcr| == 4 && forall k | 0 <= k < 4 :: r.mr[k] <= UINT32_MAX
  }

  datatype Counter = Counter(tc: nat, running: bool)

  predicate Stops(r: Matches, tc: nat)
    requires ValidMatches(r)
  {
    exists k | 0 <= k < 4 :: r.mr[k] == tc && r.mcr[k].stop
  }

  predicate Restarts(r: Matches, tc: nat)
    requires ValidMatches(r)
  {
    exists k | 0 <= k < 4 :: r.mr[k] == tc && r.mcr[k].reset
  }

  // At a match the counter stops or starts again at 0, as MCR says; else it counts, in 32 bits.
  function Ticked(r: Matches, c: Counter): Counter
    requires ValidMatches(r)
  {
    if !c.running then c
    else Counter(if Restarts(r, c.tc) then 0 else Wrap(c.tc + 1), !Stops(r, c.tc))
  }

  function AfterTicks(r: Matches, c: Counter, n: nat): Counter
    requires ValidMatches(r)
  {
    if n == 0 then c else Ticked(r, AfterTicks(r, c, n - 1))
  }

  // A PWM output is high from its match to the end of the period.
  function High(r: Matches, pulse: Channel, c: Counter): nat
    requires ValidMatches(r)
  {
    if c.tc >= r.mr[pulse] then 1 else 0
  }

  // In how many of the n ticks from here it is high.
  function HighIn(r: Matches, pulse: Channel, c: Counter, n: nat): nat
    requires ValidMatches(r)
  {
    if n == 0 then 0 else HighIn(r, pulse, c, n - 1) + High(r, pulse, AfterTicks(r, c, n - 1))
  }

  function Count(from: nat, period: nat, n: nat): nat { (from + n) % (period + 1) }

  // From wherever it is, the counter sweeps from 0 to the period match, again and again.
  ghost predicate Sweeps(r: Matches, period: Channel)
    requires ValidMatches(r)
  {
    forall from: nat, n: nat | from <= r.mr[period] :: SweptAt(r, period, from, n)
  }

  predicate SweptAt(r: Matches, period: Channel, from: nat, n: nat)
    requires ValidMatches(r)
  {
    AfterTicks(r, Counter(from, true), n) == Counter(Count(from, r.mr[period], n), true)
  }

  // No channel stops the counter within the period, nor resets it before its end.
  predicate Undisturbed(r: Matches, period: Channel)
    requires ValidMatches(r)
  {
    forall k | 0 <= k < 4 && r.mr[k] <= r.mr[period] ::
      !r.mcr[k].stop && (r.mcr[k].reset ==> r.mr[k] == r.mr[period])
  }

  lemma NextCount(from: nat, period: nat, n: nat)
    requires period <= UINT32_MAX
    ensures var c := Count(from, period, n);
      && c <= period
      && Count(from, period, n + 1) == (if c == period then 0 else c + 1)
      && (c < period ==> Wrap(c + 1) == c + 1)
  {
    var a, m := from + n, period + 1;
    assert a == m * (a / m) + a % m;
    NextRemainder(a, m, a / m, a % m);
  }

  lemma NextRemainder(a: nat, m: nat, q: nat, c: nat)
    requires c < m && a == m * q + c
    ensures (a + 1) % m == if c == m - 1 then 0 else c + 1
  {
    if c == m - 1 {
      assert m * (q + 1) == m * q + m;
      DivisionIs(a + 1, m, q + 1, 0);
    } else {
      DivisionIs(a + 1, m, q, c + 1);
    }
  }

  // With the reset bit of the period channel set it sweeps exactly if it is not disturbed.
  lemma ExactSweep(r: Matches, period: Channel)
    requires ValidMatches(r) && r.mcr[period].reset
    ensures Sweeps(r, period) <==> Undisturbed(r, period)
  {
    if Undisturbed(r, period) {
      forall from: nat, n: nat | from <= r.mr[period] ensures SweptAt(r, period, from, n) {
        KeepsSweeping(r, period, from, n);
      }
    }
    if Sweeps(r, period) {
      forall k: nat | k < 4 && r.mr[k] <= r.mr[period]
        ensures !r.mcr[k].stop && (r.mcr[k].reset ==> r.mr[k] == r.mr[period])
      {
        NotDisturbedBy(r, period, k);
      }
    }
  }

  lemma {:induction false} KeepsSweeping(r: Matches, period: Channel, from: nat, n: nat)
    requires ValidMatches(r) && r.mcr[period].reset && Undisturbed(r, period) && from <= r.mr[period]
    ensures SweptAt(r, period, from, n)
  {
    if n == 0 {
      DivisionIs(from, r.mr[period] + 1, 0, from);
    } else {
      KeepsSweeping(r, period, from, n - 1);
      NextCount(from, r.mr[period], n - 1);
    }
  }

  // Starting from its match, channel k neither stops the counter nor resets it too early.
  lemma NotDisturbedBy(r: Matches, period: Channel, k: Channel)
    requires ValidMatches(r) && Sweeps(r, period) && r.mr[k] <= r.mr[period]
    ensures !r.mcr[k].stop && (r.mcr[k].reset ==> r.mr[k] == r.mr[period])
  {
    var c := Counter(r.mr[k], true);
    assert SweptAt(r, period, r.mr[k], 0) && SweptAt(r, period, r.mr[k], 1);
    assert AfterTicks(r, c, 0) == c && AfterTicks(r, c, 1) == Ticked(r, c);
    NextCount(r.mr[k], r.mr[period], 0);
  }

  // Ticks of 0 to n - 1 in which the output is high.
  function HighUpTo(pulse: nat, n: nat): nat {
    if n == 0 then 0 else HighUpTo(pulse, n - 1) + (if n - 1 >= pulse then 1 else 0)
  }

  lemma {:induction false} HighUpToIs(pulse: nat, n: nat)
    ensures HighUpTo(pulse, n) == if n > pulse then n - pulse else 0
  {
    if n > 0 { HighUpToIs(pulse, n - 1); }
  }

  // While the counter sweeps, the output is equally long high in any stretch of one period.
  lemma HighInPeriod(r: Matches, period: Channel, pulse: Channel, from: nat)
    requires ValidMatches(r) && Sweeps(r, period) && from <= r.mr[period]
    ensures HighIn(r, pulse, Counter(from, true), r.mr[period] + 1) == HighUpTo(r.mr[pulse], r.mr[period] + 1)
  {
    HighSoFar(r, period, pulse, from, r.mr[period] + 1);
  }

  // In how many of n ticks from a count the output should be high, over the end of a period of m.
  function HighOver(high: nat, m: nat, from: nat, n: nat): int {
    if from + n <= m then HighUpTo(high, from + n) - HighUpTo(high, from)
    else HighUpTo(high, m) - HighUpTo(high, from) + HighUpTo(high, from + n - m)
  }

  lemma {:induction false} HighSoFar(r: Matches, period: Channel, pulse: Channel, from: nat, n: nat)
    requires ValidMatches(r) && Sweeps(r, period) && from <= r.mr[period] && n <= r.mr[period] + 1
    ensures HighIn(r, pulse, Counter(from, true), n) == HighOver(r.mr[pulse], r.mr[period] + 1, from, n)
  {
    if n > 0 {
      HighSoFar(r, period, pulse, from, n - 1);
      assert SweptAt(r, period, from, n - 1);
      HighStep(r.mr[pulse], r.mr[period], from, n);
    }
  }

  lemma HighStep(high: nat, period: nat, from: nat, n: nat)
    requires from <= period && 0 < n <= period + 1
    ensures HighOver(high, period + 1, from, n)
         == HighOver(high, period + 1, from, n - 1) + if Count(from, period, n - 1) >= high then 1 else 0
  {
    SmallCount(from, period, n - 1);
  }

  lemma SmallCount(from: nat, period: nat, n: nat)
    requires from <= period && n <= period
    ensures Count(from, period, n) == if from + n <= period then from + n else from + n - period - 1
  {
    if from + n <= period {
      DivisionIs(from + n, period + 1, 0, from + n);
    } else {
      DivisionIs(from + n, period + 1, 1, from + n - period - 1);
    }
  }
}

module PwmTimer {
  import opened Arithmetic

  import opened CtimerHardware

  datatype Status = Success | Fail

  // The ticks of one period in which the output is high.
  function HighTicks(pulse: nat, period: nat): nat { HighUpTo(pulse, period + 1) }

  // The match value for a duty cycle, in 64 bits.
  function PulseFor(period: nat, duty: nat): nat
    requires duty <= 100
  {
    if duty == 0 then period + 1 else period * (100 - duty) / 100
  }

  // The high time is at least the duty cycle and less than two ticks more; 0% and 100% are exact.
  lemma DutyAccuracy(period: nat, duty: nat)
    requires duty <= 100
    ensures HasDuty(PulseFor(period, duty), period, duty)
  {
    PulseBounds(period, duty);
    HighUpToIs(PulseFor(period, duty), period + 1);
    assert (period + 1) * duty == period * duty + duty;
  }

  lemma PulseBounds(period: nat, duty: nat)
    requires duty <= 100
    ensures duty > 0 ==>
      100 * period - period * duty - 99 <= 100 * PulseFor(period, duty) <= 100 * period - period * duty
    ensures duty > 0 ==> PulseFor(period, duty) <= period
    ensures duty == 100 ==> PulseFor(period, duty) == 0
  {
    assert period * (100 - duty) == 100 * period - period * duty;
    assert period * duty >= 0;
  }

  // The period in whole ticks.
  predicate Accurate(timerClock: nat, freq: nat, ticks: nat) {
    ticks * freq <= timerClock < (ticks + 1) * freq
  }

  lemma PeriodAccuracy(timerClock: nat, freq: nat)
    requires 0 < freq <= timerClock <= UINT32_MAX
    ensures Accurate(timerClock, freq, PeriodFor(timerClock, freq) + 1)
  {
  }

  lemma PulseFits(period: nat, duty: nat)
    requires period <= UINT32_MAX && duty <= 100
    ensures PulseFor(period, duty) > UINT32_MAX <==> duty == 0 && period == UINT32_MAX
  {
    PulseBounds(period, duty);
  }

  // More duty, no less high time.
  lemma DutyMonotone(period: nat, low: nat, high: nat)
    requires low <= high <= 100
    ensures HighTicks(PulseFor(period, low), period) <= HighTicks(PulseFor(period, high), period)
  {
    HighUpToIs(PulseFor(period, low), period + 1);
    HighUpToIs(PulseFor(period, high), period + 1);
    if low > 0 { PulseMonotone(period, 100 - high, 100 - low); }
  }

  lemma PulseMonotone(period: nat, a: nat, b: nat)
    requires a <= b
    ensures period * a / 100 <= period * b / 100
  {
    assert period * b == period * a + period * (b - a);
    assert period * (b - a) >= 0;
    DivMonotone(period * a, period * b);
  }

  lemma DivMonotone(x: nat, y: nat)
    requires x <= y
    ensures x / 100 <= y / 100
  {
  }

  // Of MCR: the pulse channel can interrupt, the period channel resets the counter, and nothing
  // else changes.
  predicate MatchesSet(was: seq<Control>, now: seq<Control>, period: Channel, pulse: Channel, enableInt: bool)
    requires |was| == |now| == 4
  {
    && now[pulse] == Control(enableInt, false, false)
    && now[period] == was[period].(reset := true)
    && forall k | 0 <= k < 4 && k != period && k != pulse :: now[k] == was[k]
  }

  // The counter sweeps and the output is high as long as it should be in any stretch of one period.
  ghost predicate PwmRuns(r: Matches, pwmc: set<Channel>, period: Channel, pulse: Channel)
    requires ValidMatches(r)
  {
    && Sweeps(r, period) && pulse in pwmc
    && forall from: nat | from <= r.mr[period] :: HighAsSet(r, period, pulse, from)
  }

  predicate HighAsSet(r: Matches, period: Channel, pulse: Channel, from: nat)
    requires ValidMatches(r)
  {
    HighIn(r, pulse, Counter(from, true), r.mr[period] + 1) == HighTicks(r.mr[pulse], r.mr[period])
  }

  // Neither the period channel nor the two that a setup leaves alone get in the way of a period.
  predicate Free(was: Matches, period: Channel, pulse: Channel, periodMatch: nat)
    requires ValidMatches(was)
  {
    && !was.mcr[period].stop
    && forall k | 0 <= k < 4 && k != period && k != pulse && was.mr[k] <= periodMatch ::
         !was.mcr[k].stop && (was.mcr[k].reset ==> was.mr[k] == periodMatch)
  }

  // After a setup there is a PWM output exactly if the other channels were free of the period.
  lemma ExactPwm(was: Matches, now: Matches, pwmc: set<Channel>, period: Channel, pulse: Channel, enableInt: bool)
    requires ValidMatches(was) && ValidMatches(now) && period != pulse && pulse in pwmc
    requires MatchesSet(was.mcr, now.mcr, period, pulse, enableInt)
    requires now.mr == was.mr[period := now.mr[period]][pulse := now.mr[pulse]]
    ensures PwmRuns(now, pwmc, period, pulse) <==> Free(was, period, pulse, now.mr[period])
  {
    ExactSweep(now, period);
    FreeIsUndisturbed(was, now, period, pulse, enableInt);
    if Sweeps(now, period) {
      forall from: nat | from <= now.mr[period] ensures HighAsSet(now, period, pulse, from) {
        HighInPeriod(now, period, pulse, from);
      }
    }
  }

  lemma FreeIsUndisturbed(was: Matches, now: Matches, period: Channel, pulse: Channel, enableInt: bool)
    requires ValidMatches(was) && ValidMatches(now) && period != pulse
    requires MatchesSet(was.mcr, now.mcr, period, pulse, enableInt)
    requires now.mr == was.mr[period := now.mr[period]][pulse := now.mr[pulse]]
    ensures Undisturbed(now, period) <==> Free(was, period, pulse, now.mr[period])
  {
    if Undisturbed(now, period) {
      assert !now.mcr[period].stop;
      forall k | 0 <= k < 4 && k != period && k != pulse && was.mr[k] <= now.mr[period]
        ensures !was.mcr[k].stop && (was.mcr[k].reset ==> was.mr[k] == now.mr[period])
      {
        assert now.mr[k] == was.mr[k] && now.mcr[k] == was.mcr[k];
      }
    }
    if Free(was, period, pulse, now.mr[period]) {
      forall k | 0 <= k < 4 && now.mr[k] <= now.mr[period]
        ensures !now.mcr[k].stop && (now.mcr[k].reset ==> now.mr[k] == now.mr[period])
      {
        if k != period && k != pulse { assert now.mr[k] == was.mr[k] && now.mcr[k] == was.mcr[k]; }
      }
    }
  }

  const CLEAR: Control := Control(false, false, false)

  // A stop bit left on the period channel, or a reset bit on a channel with an earlier match: after a
  // setup for 1001 ticks there is no PWM output.
  lemma LeftoverBit(bit: Control, now: Matches)
    requires bit == Control(false, false, true) || bit == Control(false, true, false)
    requires ValidMatches(now) && now.mr == [500, 250, 0, 1000]
    requires MatchesSet(Leftover(bit).mcr, now.mcr, 3, 0, false)
    ensures !PwmRuns(now, {0}, 3, 0)
  {
    var was := Leftover(bit);
    assert now.mr == was.mr[3 := now.mr[3]][0 := now.mr[0]];
    ExactPwm(was, now, {0}, 3, 0, false);
    assert was.mr[1] <= 1000 && was.mcr[1].reset == bit.reset && was.mcr[3].stop == bit.stop;
  }

  function Leftover(bit: Control): (was: Matches)
    ensures ValidMatches(was)
  {
    Matches([0, 250, 0, 0], [CLEAR, if bit.reset then bit else CLEAR, CLEAR, if bit.stop then bit else CLEAR])
  }

  class Ctimer {
    var pr: nat                // prescale register
    var mr: array<nat>         // match registers
    var mcr: seq<Control>
    var pwmc: set<Channel>     // channels in PWM mode
    var flags: set<Channel>    // pending match interrupts
    var irqEnabled: bool

    constructor (pr: nat)
      requires pr <= UINT32_MAX
      ensures Valid() && fresh(mr) && this.pr == pr
      ensures forall k | 0 <= k < 4 :: mcr[k] == Control(false, false, false)
    {
      this.pr := pr;
      mr := new nat[4](_ => 0);
      mcr := seq(4, _ => Control(false, false, false));
      pwmc, flags, irqEnabled := {}, {}, false;
      new;
    }

    // Registers are 32 bits wide.
    predicate Valid() reads this, mr { pr <= UINT32_MAX && mr.Length == 4 && ValidMatches(Regs()) }

    function Regs(): Matches reads this, mr { Matches(mr[..], mcr) }

    // PWM mode, and MCR: the pulse channel only interrupts, the period channel resets the counter.
    method Configure(period: Channel, pulse: Channel, enableInt: bool)
      requires Valid() && period != pulse
      modifies `pwmc, `mcr
      ensures Valid() && pwmc == old(pwmc) + {pulse} && MatchesSet(old(mcr), mcr, period, pulse, enableInt)
    {
      pwmc := pwmc + {pulse};
      var reg := mcr[pulse := Control(false, false, false)];
      if enableInt { reg := reg[pulse := reg[pulse].(interrupt := true)]; }
      reg := reg[period := reg[period].(reset := true)];
      mcr := reg;
    }

    // Fails, changing nothing, exactly when the timer is too slow or the channels coincide; the
    // overflow that the code guards against does not occur. Otherwise there is a PWM output, exactly
    // if what the setup leaves alone is free of the period.
    method SetupPwm(period: Channel, pulse: Channel, duty: nat, freq: nat, srcClock: nat, enableInt: bool)
      returns (status: Status)
      requires Valid() && 0 < freq <= UINT32_MAX && duty <= 100 && srcClock <= UINT32_MAX
      modifies this, mr
      ensures Valid() && mr == old(mr) && pr == old(pr)
      ensures status == Fail <==> srcClock / (pr + 1) < freq || pulse == period
      ensures status == Fail ==>
        && mr[..] == old(mr[..])
        && (mcr, pwmc, flags, irqEnabled) == old((mcr, pwmc, flags, irqEnabled))
      ensures status == Success ==>
        && var ticks, timerClock := mr[period] + 1, srcClock / (pr + 1);
        && Accurate(timerClock, freq, ticks)
        && mr[..] == old(mr[..])[period := mr[period]][pulse := PulseFor(mr[period], duty)]
        && MatchesSet(old(mcr), mcr, period, pulse, enableInt)
        && pwmc == old(pwmc) + {pulse} && flags == old(flags) - {pulse}
        && irqEnabled == (old(irqEnabled) || enableInt)
        && (PwmRuns(Regs(), pwmc, period, pulse) <==> Free(old(Regs()), period, pulse, mr[period]))
    {
      var prescaleValue := pr + 1;
      var timerClock := srcClock / prescaleValue;
      if timerClock < freq { return Fail; }
      if pulse == period { return Fail; }
      ghost var was := Regs();
      Configure(period, pulse, enableInt);
      var periodMatch := PeriodFor(timerClock, freq);
      PeriodAccuracy(timerClock, freq);
      PulseFits(periodMatch, duty);
      var pulsePeriod := PulseFor(periodMatch, duty);
      mr[period] := periodMatch;
      if pulsePeriod > UINT32_MAX { return Fail; }
      mr[pulse] := pulsePeriod;
      flags := flags - {pulse};
      if enableInt { irqEnabled := true; }
      status := Success;
      ExactPwm(was, Regs(), pwmc, period, pulse, enableInt);
    }

    method SetupPwmPeriod(period: Channel, pulse: Channel, pwmPeriod: nat, pulsePeriod: nat, enableInt: bool)
      returns (status: Status)
      requires Valid() && pwmPeriod <= UINT32_MAX && pulsePeriod <= UINT32_MAX
      modifies this, mr
      ensures Valid() && mr == old(mr) && pr == old(pr)
      ensures status == Fail <==> pulse == period
      ensures status == Fail ==>
        && mr[..] == old(mr[..])
        && (mcr, pwmc, flags, irqEnabled) == old((mcr, pwmc, flags, irqEnabled))
      ensures status == Success ==>
        && mr[..] == old(mr[..])[period := pwmPeriod][pulse := pulsePeriod]
        && MatchesSet(old(mcr), mcr, period, pulse, enableInt)
        && pwmc == old(pwmc) + {pulse} && flags == old(flags) - {pulse}
        && irqEnabled == (old(irqEnabled) || enableInt)
        && (PwmRuns(Regs(), pwmc, period, pulse) <==> Free(old(Regs()), period, pulse, mr[period]))
    {
      if pulse == period { return Fail; }
      ghost var was := Regs();
      Configure(period, pulse, enableInt);
      mr[period] := pwmPeriod;
      mr[pulse] := pulsePeriod;
      flags := flags - {pulse};
      if enableInt { irqEnabled := true; }
      status := Success;
      ExactPwm(was, Regs(), pwmc, period, pulse, enableInt);
    }

    // The same match value as a setup with that duty cycle; fails exactly where no match value
    // means 0%.
    method UpdatePwmDutycycle(period: Channel, pulse: Channel, duty: nat) returns (status: Status)
      requires Valid() && duty <= 100
      modifies mr
      ensures Valid()
      ensures status == Fail <==> duty == 0 && old(mr[period]) == UINT32_MAX
      ensures mr[..] == if status == Fail then old(mr[..]) else old(mr[..])[pulse := PulseFor(old(mr[period]), duty)]
    {
      var periodMatch := mr[period];
      PulseFits(periodMatch, duty);
      var pulsePeriod := PulseFor(periodMatch, duty);
      if pulsePeriod > UINT32_MAX { return Fail; }
      mr[pulse] := pulsePeriod;
      status := Success;
    }

    // Set up once, adjust at will: in any stretch of one period, at the frequency of the setup, the
    // output has the last duty cycle asked for.
    method SetupThenAdjust(period: Channel, pulse: Channel, duties: seq<nat>, freq: nat, srcClock: nat)
      returns (status: Status)
      requires Valid() && 0 < freq <= UINT32_MAX && srcClock <= UINT32_MAX
      requires |duties| > 0 && forall k | 0 <= k < |duties| :: duties[k] <= 100
      requires srcClock / (pr + 1) >= freq && pulse != period
      modifies this, mr
      ensures Valid() && mr == old(mr) && pr == old(pr) && status == Success
      ensures Accurate(srcClock / (pr + 1), freq, mr[period] + 1)
      ensures PwmRuns(Regs(), pwmc, period, pulse) <==> Free(old(Regs()), period, pulse, mr[period])
      ensures HasDuty(mr[pulse], mr[period], duties[|duties| - 1])
    {
      ghost var was := Regs();
      status := SetupPwm(period, pulse, duties[0], freq, srcClock, false);
      ghost var kept, control := mr[period], mcr;
      for k := 1 to |duties|
        invariant Valid() && mr == old(mr) && pr == old(pr) && status == Success
        invariant mr[period] == kept && mcr == control && pulse in pwmc
        invariant mr[..] == was.mr[period := kept][pulse := PulseFor(kept, duties[k - 1])]
      {
        status := UpdatePwmDutycycle(period, pulse, duties[k]);
      }
      ExactPwm(was, Regs(), pwmc, period, pulse, false);
      DutyAccuracy(kept, duties[|duties| - 1]);
    }
  }

  // The high time is the duty cycle or up to two ticks more.
  predicate HasDuty(pulse: nat, period: nat, duty: nat) {
    var high, ticks := HighTicks(pulse, period), period + 1;
    && ticks * duty <= 100 * high < ticks * duty + 200
    && (duty == 0 ==> high == 0)
    && (duty == 100 ==> high == ticks)
    && (duty > 0 ==> high > 0)
  }

  function PeriodFor(timerClock: nat, freq: nat): (p: nat)
    requires 0 < freq <= timerClock <= UINT32_MAX
    ensures p < UINT32_MAX
  {
    timerClock / freq - 1
  }
}
