/** Profile position moves brake in time: at every moment of a move the distance the axis needs
    to stop is the distance it has left, up to the little that one accelerating cycle can add. */
module ServoBraking {
  import opened Basics
  import opened CiA402
  import opened ServoSpec
  import opened ServoSafety
  import opened ServoProfilePosition
  import opened ServoJog

  /** The distance covered while a speed is braked away at the deceleration: v^2 / (2 a), with
      speed and deceleration counted per cycle. */
  function BrakingDistance(m: Profile, speed: real): real
    requires m.Positive()
  {
    m.reach * (speed * speed / (2.0 * m.down))
  }

  /** One cycle at the cap, and the braking distance that one more acceleration step adds to it. */
  function Slack(m: Profile): real
    requires m.Positive()
  {
    m.reach * (m.cap + (2.0 * m.cap * m.up + m.up * m.up) / (2.0 * m.down))
  }

  /** The speed of the next cycle: braked exactly when the braking distance has reached the
      remaining one, raised towards the cap before. */
  function NextSpeed(m: Profile, distance: real, speed: real): real
    requires m.Positive()
  {
    if distance <= BrakingDistance(m, speed) then (if speed <= m.down then 0.0 else speed - m.down)
    else Min(speed + m.up, m.cap)
  }

  predicate CanStop(s: Servo, m: Profile)
    requires m.Positive()
  {
    BrakingDistance(m, Abs(s.axis.velocity)) <= Distance(s) + Slack(m)
  }

  // ----- units -----

  lemma {:induction false} Fraction(x: real, y: real, d: real)
    requires d > 0.0
    ensures x / d * d == x
    ensures x * y / d == x * (y / d)
  {
    assert (x * y / d) * d == x * y;
    assert (x * (y / d)) * d == x * ((y / d) * d);
  }

  /** The braking distance by position rates, and by what one cycle changes in velocity and
      position. */
  lemma {:induction false} SameDistance(x: real, a: real, d: real, r: real, v: real, vs: real, ps: real, rate: real, dt: real)
    requires vs > 0.0 && ps > 0.0 && dt > 0.0 && a > 0.0 && d > 0.0
    requires x == v * vs / ps && a == rate / ps && d == rate / vs * dt && r == vs / ps * dt
    ensures (r * (v * v / (2.0 * d))) * (2.0 * a) == x * x
  {
    var q := v * v / (2.0 * d);
    assert x * ps == v * vs && a * ps == rate && q * (2.0 * d) == v * v;
    assert d * vs == rate * dt by { assert rate / vs * vs == rate; assert d * vs == rate / vs * vs * dt; }
    assert r * ps == vs * dt by { assert vs / ps * ps == vs; assert r * ps == vs / ps * ps * dt; }
    Rearranged(x, a, d, r, q, v, vs, ps, rate, dt);
  }

  lemma {:induction false} Rearranged(x: real, a: real, d: real, r: real, q: real, v: real, vs: real, ps: real, rate: real, dt: real)
    requires ps > 0.0
    requires x * ps == v * vs && a * ps == rate && q * (2.0 * d) == v * v && d * vs == rate * dt && r * ps == vs * dt
    ensures r * q * (2.0 * a) == x * x
  {
    LeftSide(a, d, r, q, v, vs, ps, rate, dt);
    RightSide(x, v, vs, ps);
    Cancel(r * q * (2.0 * a), x * x, ps, vs * vs * (v * v));
  }

  lemma {:induction false} LeftSide(a: real, d: real, r: real, q: real, v: real, vs: real, ps: real, rate: real, dt: real)
    requires a * ps == rate && q * (2.0 * d) == v * v && d * vs == rate * dt && r * ps == vs * dt
    ensures (r * q * (2.0 * a)) * (ps * ps) == vs * vs * (v * v)
  {
    assert (r * q * (2.0 * a)) * (ps * ps) == (r * ps) * (a * ps) * (2.0 * q);
    assert (vs * dt) * rate * (2.0 * q) == vs * (rate * dt) * (2.0 * q);
    assert vs * (d * vs) * (2.0 * q) == vs * vs * (q * (2.0 * d));
  }

  lemma {:induction false} RightSide(x: real, v: real, vs: real, ps: real)
    requires x * ps == v * vs
    ensures (x * x) * (ps * ps) == vs * vs * (v * v)
  {
    assert (x * x) * (ps * ps) == (x * ps) * (x * ps);
    assert (v * vs) * (v * vs) == vs * vs * (v * v);
  }

  lemma {:induction false} Cancel(x: real, y: real, p: real, k: real)
    requires p > 0.0 && x * (p * p) == k && y * (p * p) == k
    ensures x == y
  {
    CancelOnce(x * p, y * p, p);
    CancelOnce(x, y, p);
  }

  lemma {:induction false} CancelOnce(x: real, y: real, p: real)
    requires p > 0.0 && x * p == y * p
    ensures x == y
  {
  }

  /** Speed `x` and deceleration `a` as position rates; the same per cycle, `d` in velocity and
      `r` in distance per unit of velocity. */
  predicate Units(x: real, a: real, d: real, r: real, v: real, vs: real, ps: real, rate: real, dt: real) {
    && vs > 0.0 && ps > 0.0 && dt > 0.0 && a > 0.0 && d > 0.0
    && x == v * vs / ps && a == rate / ps && d == rate / vs * dt && r == vs / ps * dt
  }

  predicate Stops(distance: real, x: real, a: real) { distance * (2.0 * a) == x * x }

  function Toward(conf: Settings, v: real, direction: real): real { Max(PositionRate(conf, v) * direction, 0.0) }

  function Braking(conf: Settings): real { AccelerationPositionRate(conf, Abs(conf.deceleration)) }

  lemma {:induction false} StoppingIsBraking(cfg: Config, conf: Settings, m: Profile, profileVelocity: real, backwards: bool, v: real, direction: real)
    requires m == ProfileOf(cfg, conf, profileVelocity, backwards) && m.Positive()
    requires (direction == 1.0 && v >= 0.0) || (direction == -1.0 && v <= 0.0)
    ensures StoppingDistance(conf, v, direction) == BrakingDistance(m, Abs(v))
  {
    hide UnitScale, StoppingDistance, ProfileOf, Abs, Max, Units, Stops, Toward, Braking;
    InUnits(cfg, conf, m, profileVelocity, backwards, v, direction);
    StoppingForm(conf, v, direction);
    BrakingReals(StoppingDistance(conf, v, direction), Toward(conf, v, direction), Braking(conf), m.down, m.reach, Abs(v),
                 VelocityScale(conf), PositionScale(conf), Abs(conf.deceleration) * AccelerationScale(conf), cfg.cycleTime);
  }

  lemma {:induction false} BrakingReals(distance: real, x: real, a: real, d: real, r: real, v: real, vs: real, ps: real, rate: real, dt: real)
    requires Units(x, a, d, r, v, vs, ps, rate, dt) && Stops(distance, x, a)
    ensures distance == r * (v * v / (2.0 * d))
  {
    SameDistance(x, a, d, r, v, vs, ps, rate, dt);
    CancelOnce(distance, r * (v * v / (2.0 * d)), 2.0 * a);
  }

  lemma {:induction false} StoppingForm(conf: Settings, v: real, direction: real)
    requires Braking(conf) > 0.0
    ensures Stops(StoppingDistance(conf, v, direction), Toward(conf, v, direction), Braking(conf))
  {
  }

  lemma {:induction false} InUnits(cfg: Config, conf: Settings, m: Profile, profileVelocity: real, backwards: bool, v: real, direction: real)
    requires m == ProfileOf(cfg, conf, profileVelocity, backwards) && m.Positive()
    requires (direction == 1.0 && v >= 0.0) || (direction == -1.0 && v <= 0.0)
    ensures Braking(conf) > 0.0
    ensures Units(Toward(conf, v, direction), Braking(conf), m.down, m.reach, Abs(v), VelocityScale(conf),
                  PositionScale(conf), Abs(conf.deceleration) * AccelerationScale(conf), cfg.cycleTime)
  {
    hide UnitScale, PositionRate, Toward, Braking, ProfileOf, Max, Abs;
    var vs, ps := VelocityScale(conf), PositionScale(conf);
    TowardForm(conf, v, direction);
    RateForms(cfg, conf, m, profileVelocity, backwards);
    PositiveRate(Abs(conf.deceleration) * AccelerationScale(conf), vs, ps, cfg.cycleTime);
  }

  lemma {:induction false} RateForms(cfg: Config, conf: Settings, m: Profile, profileVelocity: real, backwards: bool)
    requires m == ProfileOf(cfg, conf, profileVelocity, backwards)
    ensures var vs, ps := VelocityScale(conf), PositionScale(conf);
            var rate := Abs(conf.deceleration) * AccelerationScale(conf);
            m.down == rate / vs * cfg.cycleTime && m.reach == vs / ps * cfg.cycleTime && Braking(conf) == rate / ps
  {
    hide UnitScale, PositiveLimit, NegativeLimit, Abs, Min;
  }

  lemma {:induction false} TowardForm(conf: Settings, v: real, direction: real)
    requires (direction == 1.0 && v >= 0.0) || (direction == -1.0 && v <= 0.0)
    ensures Toward(conf, v, direction) == Abs(v) * VelocityScale(conf) / PositionScale(conf)
  {
    hide UnitScale;
    var vs, ps := VelocityScale(conf), PositionScale(conf);
    ScaledSign(Abs(v), vs, ps);
    Fraction(v, vs, ps);
    Fraction(Abs(v), vs, ps);
  }

  lemma {:induction false} PositiveRate(rate: real, vs: real, ps: real, dt: real)
    requires vs > 0.0 && ps > 0.0 && dt > 0.0 && rate / vs * dt > 0.0
    ensures rate / ps > 0.0
  {
  }

  // ----- one cycle -----

  /** A profile position cycle takes exactly that speed. */
  lemma {:induction false} PpTakesNextSpeed(cfg: Config, s: Servo, m: Profile)
    requires UnderWay(s, m) && m.Positive() && s.axis.position != s.pp.target
    requires m == ProfileOf(cfg, s.od.settings, s.od.rx.profileVelocity, s.pp.target < s.axis.position)
    ensures Abs(PpVelocity(cfg, s)) == NextSpeed(m, Distance(s), Abs(s.axis.velocity))
  {
    hide VelocityDelta, PositiveLimit, NegativeLimit, StoppingDistance, BrakingDistance;
    StoppingIsBraking(cfg, s.od.settings, m, s.od.rx.profileVelocity, s.pp.target < s.axis.position, s.axis.velocity,
                      if s.pp.target >= s.axis.position then 1.0 else -1.0);
  }

  /** The next cycle ends the move: the axis is in the position window and slow enough to stop
      within the cycle, or would reach the target. */
  predicate Arrives(m: Profile, window: real, distance: real, speed: real)
    requires m.Positive()
  {
    || (distance <= Abs(window) && speed <= Max(m.down, NANO))
    || distance <= NextSpeed(m, distance, speed) * m.reach
  }

  lemma {:induction false} ReachesOver(error: real, velocity: real, reach: real)
    requires reach > 0.0 && error != 0.0 && (error > 0.0 ==> velocity >= 0.0) && (error < 0.0 ==> velocity <= 0.0)
    ensures error * (error - velocity * reach) <= 0.0 <==> Abs(error) <= Abs(velocity) * reach
  {
    var x := Abs(velocity) * reach;
    assert velocity * reach == if error > 0.0 then x else -x;
    ProductSign(Abs(error), Abs(error) - x);
    assert error * (error - velocity * reach) == Abs(error) * (Abs(error) - x);
  }

  lemma {:induction false} AdvanceArrives(cfg: Config, s: Servo, m: Profile)
    requires UnderWay(s, m) && m.Positive() && s.axis.position != s.pp.target
    requires m == ProfileOf(cfg, s.od.settings, s.od.rx.profileVelocity, s.pp.target < s.axis.position)
    ensures PpAdvance(cfg, s).pp.active <==> !Arrives(m, s.od.settings.window, Distance(s), Abs(s.axis.velocity))
  {
    hide PpVelocity, PositionRate, ProfileOf, NextSpeed, Abs;
    var velocity, error := PpVelocity(cfg, s), s.pp.target - s.axis.position;
    PpTakesNextSpeed(cfg, s, m);
    PpVelocitySign(cfg, s);
    TravelIsReach(cfg, s, velocity, m, s.pp.target < s.axis.position);
    ReachesOver(error, velocity, m.reach);
    DownIs(cfg, s.od.settings, m, s.od.rx.profileVelocity, s.pp.target < s.axis.position);
  }

  lemma {:induction false} DownIs(cfg: Config, conf: Settings, m: Profile, profileVelocity: real, backwards: bool)
    requires m == ProfileOf(cfg, conf, profileVelocity, backwards)
    ensures m.down == VelocityDelta(conf, Abs(conf.deceleration), cfg.cycleTime)
  {
    hide VelocityDelta, Abs;
  }

  lemma {:induction false} BrakingKeeps(m: Profile, distance: real, speed: real, distance': real, speed': real)
    requires m.Positive() && 0.0 <= speed <= m.cap
    requires speed' == if speed <= m.down then 0.0 else speed - m.down
    requires distance' == distance - speed' * m.reach
    ensures BrakingDistance(m, speed') - distance' <= BrakingDistance(m, speed) - distance
  {
    var j := Jogging(m.cap, m.down, m.reach);
    BrakingPays(j, speed, speed');
    SumIsQuotient(j, speed);
    SumIsQuotient(j, speed');
    Scaled(m.reach, speed' + j.BrakingSum(speed'), j.BrakingSum(speed));
    assert m.reach * (speed' + j.BrakingSum(speed')) == speed' * m.reach + m.reach * j.BrakingSum(speed');
  }

  lemma {:induction false} SumIsQuotient(j: Jogging, speed: real)
    requires j.Braking() && speed >= 0.0
    ensures j.BrakingSum(speed) == speed * speed / (2.0 * j.brake)
  {
  }

  lemma {:induction false} SpeedingUpAdds(m: Profile, distance: real, speed: real, distance': real, speed': real)
    requires m.Positive() && 0.0 <= speed <= m.cap && BrakingDistance(m, speed) <= distance
    requires 0.0 <= speed' <= m.cap && speed' <= speed + m.up && distance' == distance - speed' * m.reach
    ensures BrakingDistance(m, speed') <= distance' + Slack(m)
  {
    var d, more := 2.0 * m.down, 2.0 * m.cap * m.up + m.up * m.up;
    SquareGrows(speed, speed', m.up, m.cap);
    DivideMonotone(speed' * speed', speed * speed + more, d);
    SumOfFractions(speed * speed, more, d);
    ScaledSum(m.reach, speed' * speed' / d, speed * speed / d, more / d, speed', m.cap);
  }

  lemma {:induction false} SumOfFractions(x: real, y: real, d: real)
    requires d > 0.0
    ensures (x + y) / d == x / d + y / d
  {
  }

  lemma {:induction false} ScaledSum(r: real, x: real, y: real, z: real, v: real, cap: real)
    requires r > 0.0 && x <= y + z && v <= cap
    ensures r * x + v * r <= r * y + r * (cap + z)
  {
    Scaled(r, x + v, y + (cap + z));
    assert r * (x + v) == r * x + v * r && r * (y + (cap + z)) == r * y + r * (cap + z);
  }

  lemma {:induction false} SquareGrows(x: real, y: real, u: real, cap: real)
    requires 0.0 <= x <= cap && 0.0 <= y <= x + u && u > 0.0
    ensures y * y <= x * x + (2.0 * cap * u + u * u)
  {
    var z := x + u;
    assert y * y <= z * z by { assert (z - y) * (z + y) >= 0.0; }
    assert z * z == x * x + 2.0 * (x * u) + u * u;
    ProductMonotone(u, x, cap);
    assert 2.0 * cap * u == 2.0 * (cap * u);
  }

  lemma {:induction false} NextSpeedCanStop(m: Profile, distance: real, speed: real, distance': real)
    requires m.Positive() && 0.0 <= speed <= m.cap
    requires BrakingDistance(m, speed) <= distance + Slack(m)
    requires distance' == distance - NextSpeed(m, distance, speed) * m.reach
    ensures BrakingDistance(m, NextSpeed(m, distance, speed)) <= distance' + Slack(m)
  {
    hide BrakingDistance, Slack;
    var speed' := NextSpeed(m, distance, speed);
    if distance <= BrakingDistance(m, speed) { BrakingKeeps(m, distance, speed, distance', speed'); }
    else { SpeedingUpAdds(m, distance, speed, distance', speed'); }
  }

  lemma {:induction false} AdvanceCanStop(cfg: Config, s: Servo, m: Profile)
    requires UnderWay(s, m) && m.Positive() && CanStop(s, m)
    requires m == ProfileOf(cfg, s.od.settings, s.od.rx.profileVelocity, s.pp.target < s.axis.position)
    ensures var t := PpAdvance(cfg, s);
            t.pp.active ==>
              && CanStop(t, m) && t.axis.position != s.pp.target
              && Abs(t.axis.velocity) == NextSpeed(m, Distance(s), Abs(s.axis.velocity))
              && Distance(t) == Distance(s) - Abs(t.axis.velocity) * m.reach
  {
    hide PpAdvance, PpVelocity, ProfileOf, BrakingDistance, Slack, NextSpeed;
    AdvanceDistance(cfg, s, m);
    if PpAdvance(cfg, s).pp.active {
      PpTakesNextSpeed(cfg, s, m);
      NextSpeedCanStop(m, Distance(s), Abs(s.axis.velocity), Distance(PpAdvance(cfg, s)));
    }
  }

  // ----- whole moves -----

  /** One steady exchange of a move under way that does not end it. */
  lemma {:induction false} StepBrakes(cfg: Config, s: Servo, w: Write, conf: Settings, profileVelocity: real)
    requires Gated(s) && s.pp.active && Steady(cfg, s, w, conf, profileVelocity)
    requires ProfileOf(cfg, conf, profileVelocity, s.pp.target < s.axis.position).Positive()
    requires UnderWay(s, ProfileOf(cfg, conf, profileVelocity, s.pp.target < s.axis.position))
    requires CanStop(s, ProfileOf(cfg, conf, profileVelocity, s.pp.target < s.axis.position))
    ensures var m := ProfileOf(cfg, conf, profileVelocity, s.pp.target < s.axis.position);
            var t := Step(cfg, s, w);
            && (s.axis.position != s.pp.target ==>
                  (t.pp.active <==> !Arrives(m, conf.window, Distance(s), Abs(s.axis.velocity))))
            && (t.pp.active ==>
              && CanStop(t, m) && t.axis.position != s.pp.target
              && Abs(t.axis.velocity) == NextSpeed(m, Distance(s), Abs(s.axis.velocity))
              && Distance(t) == Distance(s) - Abs(t.axis.velocity) * m.reach)
  {
    hide ProfileOf, Automaton, ApplyCommands, ProcessMode, PpAdvance, FullStatusword, BrakingDistance, Slack, NextSpeed, Arrives;
    EnteringSteadily(cfg, s, w, conf, profileVelocity);
    EnteringQuietly(cfg, s, w, s.pp.target);
    var t := Entering(cfg, s, w);
    PpCycleHolds(cfg, t, s.pp.target);
    if s.axis.position != s.pp.target {
      AdvanceArrives(cfg, PpLatch(t), ProfileOf(cfg, conf, profileVelocity, s.pp.target < s.axis.position));
    }
    AdvanceCanStop(cfg, PpLatch(t), ProfileOf(cfg, conf, profileVelocity, s.pp.target < s.axis.position));
  }

  /** What every exchange of a move does to it, seen from the one before: it ends exactly when it
      arrives, and otherwise takes the next speed and travels with it. */
  predicate Follows(m: Profile, window: real, p: Servo, t: Servo)
    requires m.Positive()
  {
    && (t.pp.active <==> p.pp.active && !Arrives(m, window, Distance(p), Abs(p.axis.velocity)))
    && (t.pp.active ==>
          && Abs(t.axis.velocity) == NextSpeed(m, Distance(p), Abs(p.axis.velocity))
          && Distance(t) == Distance(p) - Abs(t.axis.velocity) * m.reach)
  }

  lemma {:induction false} RunBrakes(cfg: Config, s: Servo, ws: seq<Write>, conf: Settings, profileVelocity: real)
    requires Gated(s) && SteadyRun(cfg, s, ws, conf, profileVelocity) && s.axis.position != s.pp.target
    requires ProfileOf(cfg, conf, profileVelocity, s.pp.target < s.axis.position).Positive()
    requires UnderWay(s, ProfileOf(cfg, conf, profileVelocity, s.pp.target < s.axis.position))
    requires CanStop(s, ProfileOf(cfg, conf, profileVelocity, s.pp.target < s.axis.position))
    ensures var m := ProfileOf(cfg, conf, profileVelocity, s.pp.target < s.axis.position);
            var t := Run(cfg, s, ws);
            && (t.pp.active ==> CanStop(t, m) && t.axis.position != s.pp.target)
            && (ws != [] ==> Follows(m, conf.window, Run(cfg, s, ws[..|ws| - 1]), t))
  {
    hide ProfileOf, Step, BrakingDistance, Slack, NextSpeed, Rank, Steady, Arrives;
    if ws != [] {
      var front, w := ws[..|ws| - 1], ws[|ws| - 1];
      RunBrakes(cfg, s, front, conf, profileVelocity);
      Progress(cfg, s, front, conf, profileVelocity);
      var p := Run(cfg, s, front);
      if p.pp.active {
        StepBrakes(cfg, p, w, conf, profileVelocity);
      } else {
        SteadyIsQuiet(cfg, s, ws, conf, profileVelocity);
        StepHolds(cfg, p, w, s.pp.target);
      }
    }
  }

  lemma {:induction false} RestCanStop(s: Servo, m: Profile)
    requires m.Positive() && s.axis.velocity == 0.0
    ensures CanStop(s, m)
  {
    assert 0.0 * 0.0 / (2.0 * m.down) == 0.0;
    var more := 2.0 * m.cap * m.up + m.up * m.up;
    assert more >= 0.0;
    DivideMonotone(0.0, more, 2.0 * m.down);
    Scaled(m.reach, 0.0, m.cap + more / (2.0 * m.down));
  }

  /** The braking law of a whole move: an axis at rest takes a set-point under steady settings. As
      long as the move goes on, its braking distance never exceeds the remaining distance by more
      than one cycle at the cap and one acceleration step; every exchange brakes exactly when the
      braking distance has reached the remaining one, and ends the move exactly on arrival. */
  lemma {:induction false} BrakesInTime(cfg: Config, s: Servo, w: Write, ws: seq<Write>)
    requires Gated(s) && s.homing.referenced && s.axis.velocity == 0.0
    requires Setpoint(s, w) && TakesTarget(s, w)
    requires SteadyRun(cfg, Step(cfg, s, w), ws, w.settings, w.rx.profileVelocity)
    requires ProfileOf(cfg, w.settings, w.rx.profileVelocity, w.rx.targetPosition < s.axis.position).Positive()
    ensures var m := ProfileOf(cfg, w.settings, w.rx.profileVelocity, w.rx.targetPosition < s.axis.position);
            var t := Run(cfg, Step(cfg, s, w), ws);
            && (t.pp.active ==> BrakingDistance(m, Abs(t.axis.velocity)) <= Distance(t) + Slack(m))
            && (ws != [] ==> Follows(m, w.settings.window, Run(cfg, Step(cfg, s, w), ws[..|ws| - 1]), t))
  {
    hide PpAdvance, PpLatch, Entering, Step, TakesTarget, Setpoint, Gated, ProfileOf, SteadyRun, BrakingDistance, Slack,
         NextSpeed, Rank, Arrives;
    SetpointLatches(cfg, s, w);
    var l, r := PpLatch(Entering(cfg, s, w)), Step(cfg, s, w);
    var m := ProfileOf(cfg, w.settings, w.rx.profileVelocity, w.rx.targetPosition < s.axis.position);
    RestCanStop(l, m);
    AdvanceKeepsSide(cfg, l);
    AdvanceLowersRank(cfg, l, m);
    AdvanceCanStop(cfg, l, m);
    if r.pp.active {
      RunBrakes(cfg, r, ws, w.settings, w.rx.profileVelocity);
    } else {
      SteadyIsQuiet(cfg, r, ws, w.settings, w.rx.profileVelocity);
      StaysPut(cfg, r, ws);
      if ws != [] { FrontIsSteady(cfg, r, ws, w.settings, w.rx.profileVelocity); StaysPut(cfg, r, ws[..|ws| - 1]); }
    }
  }

  lemma {:induction false} FrontIsSteady(cfg: Config, s: Servo, ws: seq<Write>, conf: Settings, profileVelocity: real)
    requires ws != [] && SteadyRun(cfg, s, ws, conf, profileVelocity)
    ensures QuietRun(cfg, s, ws[..|ws| - 1])
  {
    SteadyIsQuiet(cfg, s, ws[..|ws| - 1], conf, profileVelocity);
  }
}
