/** Distributed-clock phase arithmetic, the PI phase lock and the cyclic schedule. */
module DistributedClock {
  import opened Basics
  import opened Bits

  // ----- phases -----

  datatype Clock = Clock(cycle: int, phaseOffset: int)   // nanoseconds
  {
    predicate Valid() { cycle >= 1 }

    function TargetPhase(): (r: int)
      requires Valid()
      ensures 0 <= r < cycle
    {
      (cycle - phaseOffset) % cycle
    }

    function WrappedError(dcTime: int): int
      requires Valid()
    {
      var error := dcTime % cycle - TargetPhase();
      var half := cycle / 2;
      if error > half then error - cycle else if error < -half then error + cycle else error
    }

    /** How long until the next instant at the target phase. */
    function Wait(dcNow: int): int
      requires Valid()
    {
      var wait := TargetPhase() - dcNow % cycle;
      if wait <= 0 then wait + cycle else wait
    }

    /** Absolute deadline in monotonic time, for a DC clock `skew` ahead of it. */
    function Deadline(now: int, skew: int): int
      requires Valid()
    {
      now + Wait(now + skew)
    }
  }

  /** Times that differ by whole cycles. */
  ghost predicate Congruent(a: int, b: int, cycle: int) {
    exists k: int :: a - b == k * cycle
  }

  lemma {:induction false} ByQuotient(a: int, b: int, cycle: int, k: int)
    requires a - b == k * cycle
    ensures Congruent(a, b, cycle)
  {
  }

  /** The target phase is where the phase offset completes whole cycles. */
  lemma {:induction false} TargetPhaseCompletes(c: Clock)
    requires c.Valid()
    ensures Congruent(c.phaseOffset + c.TargetPhase(), 0, c.cycle)
  {
    var n := c.cycle - c.phaseOffset;
    assert n == (n / c.cycle) * c.cycle + n % c.cycle;
    assert c.phaseOffset + c.TargetPhase() == c.cycle - (n / c.cycle) * c.cycle == (1 - n / c.cycle) * c.cycle;
    ByQuotient(c.phaseOffset + c.TargetPhase(), 0, c.cycle, 1 - n / c.cycle);
  }

  /** The wrapped error is the time from the target phase, up to whole cycles, and never more
      than half a cycle. */
  lemma {:induction false} WrappedErrorIsNearest(c: Clock, dcTime: int)
    requires c.Valid()
    ensures Congruent(dcTime - c.TargetPhase(), c.WrappedError(dcTime), c.cycle)
    ensures -(c.cycle / 2) <= c.WrappedError(dcTime) <= c.cycle / 2
  {
    var error := dcTime % c.cycle - c.TargetPhase();
    var q := dcTime / c.cycle;
    var k := if error > c.cycle / 2 then q + 1 else if error < -(c.cycle / 2) then q - 1 else q;
    assert dcTime == q * c.cycle + dcTime % c.cycle;
    assert k * c.cycle == q * c.cycle + (k - q) * c.cycle;
    ByQuotient(dcTime - c.TargetPhase(), c.WrappedError(dcTime), c.cycle, k);
  }

  /** A deadline waits more than nothing and at most a cycle, and lands on the target phase. */
  lemma {:induction false} DeadlineOnPhase(c: Clock, now: int, skew: int)
    requires c.Valid()
    ensures now < c.Deadline(now, skew) <= now + c.cycle
    ensures Congruent(c.Deadline(now, skew) + skew, c.TargetPhase(), c.cycle)
  {
    var dc := now + skew;
    var q := dc / c.cycle;
    assert dc == q * c.cycle + dc % c.cycle;
    var k := if c.TargetPhase() - dc % c.cycle <= 0 then q + 1 else q;
    assert k * c.cycle == q * c.cycle + (k - q) * c.cycle;
    ByQuotient(c.Deadline(now, skew) + skew, c.TargetPhase(), c.cycle, k);
  }

  /** Only one instant of a cycle is at the target phase. */
  lemma {:induction false} OnePerCycle(c: Clock, now: int, x: int, y: int)
    requires c.Valid() && now < x <= now + c.cycle && now < y <= now + c.cycle
    requires Congruent(x, y, c.cycle)
    ensures x == y
  {
    var k: int :| x - y == k * c.cycle;
    OnlyZeroFits(k, c.cycle);
  }

  lemma {:induction false} OnlyZeroFits(k: int, cycle: int)
    requires cycle >= 1
    ensures -cycle < k * cycle < cycle ==> k == 0
  {
    if k >= 1 { assert (k - 1) * cycle >= 0; }
    if k <= -1 { assert (-k - 1) * cycle >= 0; }
  }

  lemma {:induction false} CongruentToSame(a: int, b: int, t: int, cycle: int)
    requires Congruent(a, t, cycle) && Congruent(b, t, cycle)
    ensures Congruent(a, b, cycle)
  {
    var j: int :| a - t == j * cycle;
    var k: int :| b - t == k * cycle;
    assert a - b == (j - k) * cycle;
    ByQuotient(a, b, cycle, j - k);
  }

  /** With a constant clock offset, recomputing before a deadline gives that deadline again, and
      recomputing within a cycle after it gives exactly the next one. */
  lemma {:induction false} DeadlinesFollow(c: Clock, now: int, later: int, skew: int)
    requires c.Valid()
    ensures now <= later < c.Deadline(now, skew) ==> c.Deadline(later, skew) == c.Deadline(now, skew)
    ensures c.Deadline(now, skew) <= later < c.Deadline(now, skew) + c.cycle ==>
              c.Deadline(later, skew) == c.Deadline(now, skew) + c.cycle
  {
    var d, e := c.Deadline(now, skew), c.Deadline(later, skew);
    DeadlineOnPhase(c, now, skew);
    DeadlineOnPhase(c, later, skew);
    CongruentToSame(e + skew, d + skew, c.TargetPhase(), c.cycle);
    var k: int :| (e + skew) - (d + skew) == k * c.cycle;
    if now <= later < d {
      ByQuotient(e, d, c.cycle, k);
      OnePerCycle(c, later, e, d);
    }
    if d <= later < d + c.cycle {
      assert e - (d + c.cycle) == (k - 1) * c.cycle;
      ByQuotient(e, d + c.cycle, c.cycle, k - 1);
      OnePerCycle(c, later, e, d + c.cycle);
    }
  }

  /** What the scheduler knows of the master's clocks. */
  datatype Stamps = Stamps(lastRxMonotonic: Option<int>, lastRxDc: int, direct: int)

  function EstimateDc(s: Stamps, now: int): int {
    if s.lastRxMonotonic.None? || s.lastRxDc == 0 then s.direct
    else s.lastRxDc + now - s.lastRxMonotonic.value
  }

  /** From receive stamps the estimate runs with the monotonic clock, through the stamped pair;
      without them it is the direct reading. */
  lemma {:induction false} EstimateRuns(s: Stamps, now: int, later: int)
    ensures var stamped := s.lastRxMonotonic.Some? && s.lastRxDc != 0;
            && EstimateDc(s, later) - EstimateDc(s, now) == (if stamped then later - now else 0)
            && (stamped ==> EstimateDc(s, s.lastRxMonotonic.value) == s.lastRxDc)
            && (!stamped ==> EstimateDc(s, now) == s.direct)
  {
  }

  method AbsoluteCycleDeadline(c: Clock, s: Stamps, now: int) returns (deadline: int, wait: int)
    requires c.Valid()
    ensures deadline == now + wait && 0 < wait <= c.cycle
    ensures deadline == c.Deadline(now, EstimateDc(s, now) - now)
  {
    var dcNow := EstimateDc(s, now);
    wait := c.TargetPhase() - dcNow % c.cycle;
    if wait <= 0 { wait := wait + c.cycle; }
    deadline := now + wait;
  }

  // ----- the phase lock -----

  function ClampTo(x: real, bound: real): real { Max(-bound, Min(bound, x)) }

  datatype Gains = Gains(enabled: bool, clock: Clock, kp: real, ki: real, maxCorrection: real)
  {
    predicate Valid() { clock.Valid() && maxCorrection >= 0.0 }
  }

  datatype Lock = Lock(integral: real, correction: real)

  function Updated(g: Gains, l: Lock, dcTime: Option<int>): Lock
    requires g.Valid()
  {
    if dcTime.None? then l
    else if !g.enabled then Lock(0.0, 0.0)
    else
      var error := g.clock.WrappedError(dcTime.value) as real / 1000000000.0;
      var integral := ClampTo(l.integral + error, g.maxCorrection);
      Lock(integral, ClampTo(-(g.kp * error + g.ki * integral), g.maxCorrection))
  }

  predicate Bounded(g: Gains, l: Lock) {
    -g.maxCorrection <= l.integral <= g.maxCorrection && -g.maxCorrection <= l.correction <= g.maxCorrection
  }

  class DcPhaseLock {
    const gains: Gains
    var integral: real
    var correctionS: real

    ghost predicate Valid()
      reads this
    {
      gains.Valid() && Bounded(gains, Lock(integral, correctionS))
    }

    constructor (g: Gains)
      requires g.Valid()
      ensures gains == g && Valid() && integral == 0.0 && correctionS == 0.0
    {
      gains, integral, correctionS := g, 0.0, 0.0;
    }

    function Correction(): (r: real)
      requires Valid()
      reads this
      ensures -gains.maxCorrection <= r <= gains.maxCorrection
    {
      if gains.enabled then correctionS else 0.0
    }

    method Update(dcTime: Option<int>)
      requires Valid()
      modifies this
      ensures Valid()
      ensures Lock(integral, correctionS) == Updated(gains, old(Lock(integral, correctionS)), dcTime)
    {
      hide Clock.WrappedError;
      if dcTime.None? { return; }
      var error := gains.clock.WrappedError(dcTime.value) as real / 1000000000.0;
      if !gains.enabled {
        integral, correctionS := 0.0, 0.0;
        return;
      }
      integral := integral + error;
      integral := Max(-gains.maxCorrection, Min(gains.maxCorrection, integral));
      correctionS := -(gains.kp * error + gains.ki * integral);
      correctionS := Max(-gains.maxCorrection, Min(gains.maxCorrection, correctionS));
    }
  }

  // ----- what the lock does to the phase -----

  /** The phase error in seconds. */
  function ErrorSeconds(g: Gains, dcTime: int): real
    requires g.Valid()
  {
    g.clock.WrappedError(dcTime) as real / 1000000000.0
  }

  /** The integral moves by the phase error until it meets the bound on that side, and stays
      within it; without a time nothing changes, and a disabled lock is cleared. */
  lemma {:induction false} IntegralFollowsError(g: Gains, l: Lock, dcTime: int)
    requires g.Valid() && Bounded(g, l)
    ensures Updated(g, l, None) == l
    ensures !g.enabled ==> Updated(g, l, Some(dcTime)) == Lock(0.0, 0.0)
    ensures g.enabled ==>
              var sum, integral := l.integral + ErrorSeconds(g, dcTime), Updated(g, l, Some(dcTime)).integral;
              && (-g.maxCorrection <= sum <= g.maxCorrection ==> integral == sum)
              && (sum > g.maxCorrection ==> integral == g.maxCorrection)
              && (sum < -g.maxCorrection ==> integral == -g.maxCorrection)
  {
  }

  /** The correction opposes the error: with unsigned gains, a phase that is late now and on the
      whole is never corrected to be later, and is corrected to be earlier as soon as a gain and
      what it looks at, error or integral, are not zero; and the mirror. */
  lemma {:induction false} CorrectionOpposesError(g: Gains, l: Lock, dcTime: int)
    requires g.Valid() && g.enabled && g.kp >= 0.0 && g.ki >= 0.0 && Bounded(g, l)
    ensures var error, correction := g.clock.WrappedError(dcTime), Updated(g, l, Some(dcTime)).correction;
            && (error >= 0 && l.integral >= 0.0 ==> correction <= 0.0)
            && (error <= 0 && l.integral <= 0.0 ==> correction >= 0.0)
            && (error > 0 && l.integral >= 0.0 && g.kp > 0.0 && g.maxCorrection > 0.0 ==> correction < 0.0)
            && (error < 0 && l.integral <= 0.0 && g.kp > 0.0 && g.maxCorrection > 0.0 ==> correction > 0.0)
            && (error >= 0 && l.integral > 0.0 && g.ki > 0.0 ==> correction < 0.0)
            && (error <= 0 && l.integral < 0.0 && g.ki > 0.0 ==> correction > 0.0)
  {
    hide Clock.WrappedError;
    var error := g.clock.WrappedError(dcTime) as real / 1000000000.0;
    var integral := Updated(g, l, Some(dcTime)).integral;
    ProductOfSigns(g.kp, error);
    ProductOfSigns(g.ki, integral);
  }

  lemma {:induction false} ProductOfSigns(k: real, x: real)
    requires k >= 0.0
    ensures x >= 0.0 ==> k * x >= 0.0
    ensures x <= 0.0 ==> k * x <= 0.0
    ensures x > 0.0 && k > 0.0 ==> k * x > 0.0
    ensures x < 0.0 && k > 0.0 ==> k * x < 0.0
  {
  }

  lemma {:induction false} WholeCyclesKeepError(c: Clock, dcTime: int, cycles: int)
    requires c.Valid()
    ensures c.WrappedError(dcTime + cycles * c.cycle) == c.WrappedError(dcTime)
  {
    var q, r := dcTime / c.cycle, dcTime % c.cycle;
    assert dcTime + cycles * c.cycle == (q + cycles) * c.cycle + r;
    QuotientRemainder(dcTime + cycles * c.cycle, c.cycle, q + cycles, r);
  }

  /** A shift of the clock that does not take the error past zero takes exactly that off it. */
  lemma {:induction false} ShiftTowardsZero(c: Clock, dcTime: int, n: int)
    requires c.Valid()
    requires var e := c.WrappedError(dcTime); 0 <= e + n <= e || e <= e + n <= 0
    ensures c.WrappedError(dcTime + n) == c.WrappedError(dcTime) + n
  {
    var e, e' := c.WrappedError(dcTime), c.WrappedError(dcTime + n);
    if n != 0 {
      WrappedErrorIsNearest(c, dcTime);
      WrappedErrorIsNearest(c, dcTime + n);
      var j: int :| dcTime - c.TargetPhase() - e == j * c.cycle;
      var k: int :| dcTime + n - c.TargetPhase() - e' == k * c.cycle;
      assert e' - (e + n) == (j - k) * c.cycle;
      OnlyZeroFits(j - k, c.cycle);
    }
  }

  /** A correction as whole nanoseconds, cut towards zero. */
  function WholeNanoseconds(seconds: real): int {
    if seconds >= 0.0 then (seconds * 1000000000.0).Floor else -((-seconds * 1000000000.0).Floor)
  }

  function Magnitude(n: int): nat { if n < 0 then -n else n }

  /** The proportional correction of an error, in nanoseconds. */
  function Worth(kp: real, error: int): real { kp * Magnitude(error) as real }

  /** A lock that only looks at the present error, and does not overreact to it. */
  predicate Proportional(g: Gains) { g.Valid() && g.enabled && g.ki == 0.0 && 0.0 <= g.kp <= 1.0 }

  function ProportionalTerm(kp: real, e: int, max: real): real { ClampTo(-(kp * (e as real / 1000000000.0)), max) }

  lemma {:induction false} ProportionalCorrection(g: Gains, l: Lock, dcTime: int)
    requires Proportional(g)
    ensures Updated(g, l, Some(dcTime)).correction == ProportionalTerm(g.kp, g.clock.WrappedError(dcTime), g.maxCorrection)
  {
    hide Clock.WrappedError;
  }

  lemma {:induction false} Portion(kp: real, e: int)
    requires 0.0 <= kp <= 1.0
    ensures 0.0 <= Worth(kp, e) <= Magnitude(e) as real
  {
    UpTo(kp, Magnitude(e) as real);
  }

  lemma {:induction false} UpTo(k: real, x: real)
    requires 0.0 <= k <= 1.0 && x >= 0.0
    ensures 0.0 <= k * x <= x
  {
    assert (1.0 - k) * x >= 0.0;
  }

  /** The error in seconds that a correction of `y` nanoseconds answers. */
  function Signed(y: real, e: int): real { (if e >= 0 then y else -y) / 1000000000.0 }

  lemma {:induction false} SignedPortion(kp: real, e: int)
    ensures kp * (e as real / 1000000000.0) == Signed(Worth(kp, e), e)
  {
    assert e as real == if e >= 0 then Magnitude(e) as real else -(Magnitude(e) as real);
    assert kp * (e as real / 1000000000.0) == kp * e as real / 1000000000.0;
    assert kp * -(Magnitude(e) as real) == -(kp * Magnitude(e) as real);
  }

  lemma {:induction false} TermForm(kp: real, e: int, max: real)
    ensures ProportionalTerm(kp, e, max) == ClampTo(-Signed(Worth(kp, e), e), max)
  {
    hide ClampTo, Signed, Worth;
    SignedPortion(kp, e);
  }

  lemma {:induction false} CutCorrection(y: real, max: real, e: int)
    requires 0.0 <= y <= Magnitude(e) as real && max >= 0.0
    ensures var n := WholeNanoseconds(ClampTo(-Signed(y, e), max));
            && (0 <= e + n <= e || e <= e + n <= 0)
            && (y >= 1.0 && max * 1000000000.0 >= 1.0 ==> n != 0)
  {
  }

  lemma {:induction false} WholeCorrection(kp: real, max: real, e: int)
    requires 0.0 <= kp <= 1.0 && max >= 0.0
    ensures var n := WholeNanoseconds(ProportionalTerm(kp, e, max));
            && (0 <= e + n <= e || e <= e + n <= 0)
            && (Worth(kp, e) >= 1.0 && max * 1000000000.0 >= 1.0 ==> n != 0)
  {
    hide WholeNanoseconds, ClampTo, Signed, Worth, ProportionalTerm;
    Portion(kp, e);
    TermForm(kp, e, max);
    CutCorrection(Worth(kp, e), max, e);
  }

  /** One proportional correction, applied to the next transmission a cycle later, leaves a phase
      error of the same sign or none, and no greater; smaller, while it is worth a nanosecond. */
  lemma {:induction false} CorrectionShrinksError(g: Gains, l: Lock, dcTime: int)
    requires Proportional(g)
    ensures var n := WholeNanoseconds(Updated(g, l, Some(dcTime)).correction);
            var e, e' := g.clock.WrappedError(dcTime), g.clock.WrappedError(dcTime + g.clock.cycle + n);
            && e' == e + n && (0 <= e' <= e || e <= e' <= 0)
            && (Worth(g.kp, e) >= 1.0 && g.maxCorrection * 1000000000.0 >= 1.0 ==> Magnitude(e') < Magnitude(e))
  {
    hide Clock.WrappedError, Updated, WholeNanoseconds, ProportionalTerm, Worth;
    var n := WholeNanoseconds(Updated(g, l, Some(dcTime)).correction);
    ProportionalCorrection(g, l, dcTime);
    WholeCorrection(g.kp, g.maxCorrection, g.clock.WrappedError(dcTime));
    ShiftTowardsZero(g.clock, dcTime, n);
    WholeCyclesKeepError(g.clock, dcTime + n, 1);
    assert dcTime + g.clock.cycle + n == dcTime + n + 1 * g.clock.cycle;
  }

  /** Lock and transmit time after `k` passes of a loop that is on time: each transmission comes
      a cycle and the correction, in whole nanoseconds, after the one before. */
  function Locked(g: Gains, l: Lock, dcTime: int, k: nat): (Lock, int)
    requires g.Valid()
  {
    if k == 0 then (l, dcTime)
    else
      var (before, time) := Locked(g, l, dcTime, k - 1);
      var after := Updated(g, before, Some(time));
      (after, time + g.clock.cycle + WholeNanoseconds(after.correction))
  }

  /** The lock converges: the phase error never changes sign and never grows, and after as many
      passes as it has nanoseconds the correction is worth less than one. */
  lemma {:induction false} PhaseLocks(g: Gains, l: Lock, dcTime: int, k: nat)
    requires Proportional(g) && g.maxCorrection * 1000000000.0 >= 1.0
    ensures var e, e' := g.clock.WrappedError(dcTime), g.clock.WrappedError(Locked(g, l, dcTime, k).1);
            && (0 <= e' <= e || e <= e' <= 0)
            && (Worth(g.kp, e') < 1.0 || Magnitude(e') <= Magnitude(e) - k)
            && (k >= Magnitude(e) ==> Worth(g.kp, e') < 1.0)
  {
    hide Clock.WrappedError, Updated, WholeNanoseconds, Worth;
    var e' := g.clock.WrappedError(Locked(g, l, dcTime, k).1);
    if k > 0 {
      PhaseLocks(g, l, dcTime, k - 1);
      var (before, time) := Locked(g, l, dcTime, k - 1);
      CorrectionShrinksError(g, before, time);
      WorthLess(g.kp, e', g.clock.WrappedError(time));
    }
    WorthLess(g.kp, e', e');
  }

  lemma {:induction false} WorthLess(kp: real, a: int, b: int)
    requires kp >= 0.0 && Magnitude(a) <= Magnitude(b)
    ensures Worth(kp, a) <= Worth(kp, b)
    ensures a == 0 ==> Worth(kp, a) == 0.0
  {
  }

  // ----- the free-running schedule -----

  /** One pass of the server loop: when it woke up, and the transmit time it measured. */
  datatype Pass = Pass(start: real, dcTime: Option<int>)

  datatype Schedule = Schedule(next: real, lock: Lock)

  function AfterPass(g: Gains, period: real, s: Schedule, p: Pass): Schedule
    requires g.Valid()
  {
    var lock := Updated(g, s.lock, p.dcTime);
    var next := s.next + period + (if g.enabled then lock.correction else 0.0);
    Schedule(if p.start - next > period then p.start + period else next, lock)
  }

  function AfterPasses(g: Gains, period: real, s: Schedule, ps: seq<Pass>): Schedule
    requires g.Valid()
  {
    if ps == [] then s else AfterPass(g, period, AfterPasses(g, period, s, ps[..|ps| - 1]), ps[|ps| - 1])
  }

  /** The loop waits for its deadline, so no pass starts before it. */
  predicate Waited(g: Gains, period: real, s: Schedule, ps: seq<Pass>)
    requires g.Valid()
    decreases |ps|
  {
    ps == [] || (&& Waited(g, period, s, ps[..|ps| - 1])
                 && ps[|ps| - 1].start >= AfterPasses(g, period, s, ps[..|ps| - 1]).next)
  }

  /** Waiting for a deadline returns at the first reading that has reached it. */
  method WaitUntil(target: real, readings: seq<real>) returns (n: nat)
    requires exists i :: 0 <= i < |readings| && readings[i] >= target
    ensures n < |readings| && readings[n] >= target && forall i :: 0 <= i < n ==> readings[i] < target
  {
    n := 0;
    while readings[n] < target
      invariant 0 <= n < |readings|
      invariant forall i :: 0 <= i < n ==> readings[i] < target
      decreases |readings| - n
    {
      n := n + 1;
    }
  }

  /** Over any run of starts and phase errors: integral and correction stay within the maximum
      correction, and the next deadline lies at most one period before the start of the last
      pass and at most one period and the maximum correction after it. */
  lemma {:induction false} ScheduleBound(g: Gains, period: real, s: Schedule, ps: seq<Pass>)
    requires g.Valid() && period > 0.0 && Bounded(g, s.lock) && Waited(g, period, s, ps)
    ensures var t := AfterPasses(g, period, s, ps);
            && Bounded(g, t.lock)
            && (ps != [] ==>
                  var start := ps[|ps| - 1].start;
                  start - period <= t.next <= start + period + g.maxCorrection)
  {
    if ps != [] { ScheduleBound(g, period, s, ps[..|ps| - 1]); }
  }

  /** The corrections a run of passes adds up to. */
  function Corrections(g: Gains, l: Lock, ps: seq<Pass>): (Lock, real)
    requires g.Valid()
  {
    if ps == [] then (l, 0.0)
    else
      var (before, sum) := Corrections(g, l, ps[..|ps| - 1]);
      var after := Updated(g, before, ps[|ps| - 1].dcTime);
      (after, sum + if g.enabled then after.correction else 0.0)
  }

  /** No pass starts more than a period after its deadline. */
  predicate OnTime(g: Gains, period: real, s: Schedule, ps: seq<Pass>)
    requires g.Valid()
    decreases |ps|
  {
    ps == [] || (&& OnTime(g, period, s, ps[..|ps| - 1])
                 && ps[|ps| - 1].start <= AfterPasses(g, period, s, ps[..|ps| - 1]).next + period)
  }

  function Periods(n: nat, period: real): real { n as real * period }

  lemma {:induction false} PassOnTime(g: Gains, period: real, s: Schedule, p: Pass)
    requires g.Valid() && 0.0 < period && g.maxCorrection <= period && Bounded(g, s.lock) && p.start <= s.next + period
    ensures var t := AfterPass(g, period, s, p);
            && Bounded(g, t.lock) && t.lock == Updated(g, s.lock, p.dcTime)
            && t.next == s.next + period + (if g.enabled then t.lock.correction else 0.0)
  {
    hide Updated;
    UpdateBounded(g, s.lock, p.dcTime);
  }

  /** A loop that keeps up never skips: its deadline is the first one plus a period for every pass
      and all the corrections. */
  lemma {:induction false} OnTimeSchedule(g: Gains, period: real, s: Schedule, ps: seq<Pass>)
    requires g.Valid() && 0.0 < period && g.maxCorrection <= period && Bounded(g, s.lock) && OnTime(g, period, s, ps)
    ensures var t := AfterPasses(g, period, s, ps);
            && Bounded(g, t.lock) && t.lock == Corrections(g, s.lock, ps).0
            && t.next == s.next + Periods(|ps|, period) + Corrections(g, s.lock, ps).1
  {
    if ps == [] {
      assert Periods(0, period) == 0.0;
    } else {
      hide Updated, AfterPass, Periods, Bounded;
      var front := ps[..|ps| - 1];
      OnTimeSchedule(g, period, s, front);
      PassOnTime(g, period, AfterPasses(g, period, s, front), ps[|ps| - 1]);
      OnePeriodMore(|front|, period);
    }
  }

  lemma {:induction false} OnePeriodMore(n: nat, period: real)
    ensures Periods(n + 1, period) == Periods(n, period) + period
  {
  }

  lemma {:induction false} UpdateBounded(g: Gains, l: Lock, dcTime: Option<int>)
    requires g.Valid() && Bounded(g, l)
    ensures Bounded(g, Updated(g, l, dcTime))
  {
    hide Clock.WrappedError;
  }
}
