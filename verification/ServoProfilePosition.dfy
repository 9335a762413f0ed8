/** Profile position moves: a latched target is never crossed, and is reached exactly. */
module ServoProfilePosition {
  import opened Basics
  import opened CiA402
  import opened ServoSpec
  import opened ServoSafety

  // ----- one cycle of an active move -----

  /** `q` is on the same side of `target` as `p`, or on it. */
  predicate SameSide(target: real, p: real, q: real) {
    (p <= target ==> q <= target) && (p >= target ==> q >= target)
  }

  /** `q` lies between `p` and `target`. */
  predicate Between(p: real, q: real, target: real) {
    p <= q <= target || target <= q <= p
  }

  /** The axis does not move away from its target. */
  predicate Approaching(s: Servo) {
    (s.axis.position < s.pp.target ==> s.axis.velocity >= 0.0)
    && (s.axis.position > s.pp.target ==> s.axis.velocity <= 0.0)
  }

  lemma {:induction false} ProductSign(x: real, y: real)
    ensures x * y > 0.0 && x > 0.0 ==> y > 0.0
    ensures x * y > 0.0 && x < 0.0 ==> y < 0.0
    ensures x > 0.0 && y >= 0.0 ==> x * y >= 0.0
    ensures x > 0.0 && y <= 0.0 ==> x * y <= 0.0
  {
  }

  lemma {:induction false} TravelSign(cfg: Config, s: Servo, velocity: real)
    ensures velocity >= 0.0 ==> Travel(cfg, s, velocity).axis.position >= s.axis.position
    ensures velocity <= 0.0 ==> Travel(cfg, s, velocity).axis.position <= s.axis.position
  {
    ScaledSign(velocity, VelocityScale(s.od.settings), PositionScale(s.od.settings));
    ProductSign(cfg.cycleTime, PositionRate(s.od.settings, velocity));
  }

  lemma {:induction false} PpVelocitySign(cfg: Config, s: Servo)
    requires Approaching(s)
    ensures s.axis.position < s.pp.target ==> PpVelocity(cfg, s) >= 0.0
    ensures s.axis.position > s.pp.target ==> PpVelocity(cfg, s) <= 0.0
  {
    hide VelocityDelta, StoppingDistance;
  }

  lemma {:induction false} AdvanceKeepsSide(cfg: Config, s: Servo)
    ensures var t := PpAdvance(cfg, s);
            && t.pp.target == s.pp.target
            && SameSide(s.pp.target, s.axis.position, t.axis.position)
            && (!t.pp.active ==> t.axis == Axis(s.pp.target, 0.0) || !s.pp.active)
            && (Approaching(s) ==> Approaching(t) && Between(s.axis.position, t.axis.position, s.pp.target))
  {
    hide PpVelocity, PositionRate, PpInWindow;
    var velocity := PpVelocity(cfg, s);
    var t := Travel(cfg, s, velocity);
    ProductSign(s.pp.target - s.axis.position, s.pp.target - t.axis.position);
    TravelSign(cfg, s, velocity);
    if Approaching(s) { PpVelocitySign(cfg, s); }
  }

  // ----- whole exchanges while a set-point stays latched -----

  /** An exchange that asks for no halt and no new set-point; anything else goes:
      settings, targets, disabling the drive, a device reset. */
  predicate Quiet(s: Servo, w: Write) {
    w.rx.mode == PP && !HaltBit(w.rx.controlword) && !(Bit4(w.rx.controlword) && !Bit4(s.previousControlword))
  }

  predicate QuietRun(cfg: Config, s: Servo, ws: seq<Write>)
    decreases |ws|
  {
    ws == [] || (QuietRun(cfg, s, ws[..|ws| - 1]) && Quiet(Run(cfg, s, ws[..|ws| - 1]), ws[|ws| - 1]))
  }

  /** A move to `target` is under way, or was given up or finished with the axis at rest. */
  predicate Holding(s: Servo, target: real) {
    Gated(s) && if s.pp.active then s.pp.target == target else s.axis.velocity == 0.0
  }

  /** The drive as the mode handler of an exchange meets it. */
  function Entering(cfg: Config, s: Servo, w: Write): Servo {
    Automaton(ApplyCommands(cfg, MasterWrite(s, w)))
  }

  lemma {:induction false} EnteringQuietly(cfg: Config, s: Servo, w: Write, target: real)
    requires Holding(s, target) && Quiet(s, w)
    ensures var t := Entering(cfg, s, w);
            && Holding(t, target) && t.axis.position == s.axis.position
            && (t.pp.active ==> t.axis == s.axis && t.pp == s.pp)
            && (t.state == OperationEnabled ==> t.od.rx.mode == PP && !t.halt && !NewSetpoint(t))
  {
    hide ApplyCommands;
    CommandsEffect(cfg, s, w);
    CommandsKeepGates(cfg, s, w);
    AutomatonKeepsGates(ApplyCommands(cfg, MasterWrite(s, w)));
  }

  lemma {:induction false} PpCycleHolds(cfg: Config, s: Servo, target: real)
    requires Holding(s, target)
    requires s.state == OperationEnabled ==> s.od.rx.mode == PP && !s.halt && !NewSetpoint(s)
    ensures var t := ProcessMode(cfg, s);
            && Holding(t, target) && SameSide(target, s.axis.position, t.axis.position)
            && (!s.pp.active ==> !t.pp.active && t.axis.position == s.axis.position)
            && (s.pp.active ==> t.axis == PpAdvance(cfg, PpLatch(s)).axis && t.pp == PpAdvance(cfg, PpLatch(s)).pp)
  {
    hide PpAdvance, Decelerate, RequiredWindowCount;
    ModeKeepsGates(cfg, s);
    if s.state == OperationEnabled {
      AdvanceKeepsSide(cfg, PpLatch(s));
      if !s.pp.active {
        StandingStill(cfg, PpLatch(s));
        StandingStill(cfg, SetReached(PpUnlatch(s), false));
      }
    }
  }

  lemma {:induction false} StepHolds(cfg: Config, s: Servo, w: Write, target: real)
    requires Holding(s, target) && Quiet(s, w)
    ensures var t := Step(cfg, s, w);
            && Holding(t, target) && SameSide(target, s.axis.position, t.axis.position)
            && (s.pp.active && Approaching(s) ==>
                  Between(s.axis.position, t.axis.position, target) && (t.pp.active ==> Approaching(t)))
            && (!s.pp.active ==> t.axis.position == s.axis.position && !t.pp.active)
  {
    hide Automaton, ApplyCommands, ProcessMode, FullStatusword, PpAdvance;
    EnteringQuietly(cfg, s, w, target);
    var t := Entering(cfg, s, w);
    PpCycleHolds(cfg, t, target);
    AdvanceKeepsSide(cfg, PpLatch(t));
  }

  /** The target is never crossed: over any run without halt or new set-point, from any
      initial velocity, the axis stays on its side of the latched target. */
  lemma {:induction false} NeverCrossesTarget(cfg: Config, s: Servo, ws: seq<Write>)
    requires Gated(s) && s.pp.active && QuietRun(cfg, s, ws)
    ensures var t := Run(cfg, s, ws);
            Holding(t, s.pp.target) && SameSide(s.pp.target, s.axis.position, t.axis.position)
  {
    if ws != [] {
      var prefix := ws[..|ws| - 1];
      NeverCrossesTarget(cfg, s, prefix);
      StepHolds(cfg, Run(cfg, s, prefix), ws[|ws| - 1], s.pp.target);
    }
  }

  /** From rest (or already approaching) the distance never grows: every position of the run
      lies between the start and the target. */
  lemma {:induction false} StaysBetweenStartAndTarget(cfg: Config, s: Servo, ws: seq<Write>)
    requires Gated(s) && s.pp.active && Approaching(s) && QuietRun(cfg, s, ws)
    ensures var t := Run(cfg, s, ws);
            && Holding(t, s.pp.target) && (t.pp.active ==> Approaching(t))
            && Between(s.axis.position, t.axis.position, s.pp.target)
            && (ws != [] ==> Between(Run(cfg, s, ws[..|ws| - 1]).axis.position, t.axis.position, s.pp.target))
  {
    if ws != [] {
      var prefix := ws[..|ws| - 1];
      StaysBetweenStartAndTarget(cfg, s, prefix);
      StepHolds(cfg, Run(cfg, s, prefix), ws[|ws| - 1], s.pp.target);
    }
  }

  /** Once arrived, or once the move is given up, the axis stays where it is. */
  lemma {:induction false} StaysPut(cfg: Config, s: Servo, ws: seq<Write>)
    requires Gated(s) && !s.pp.active && s.axis.velocity == 0.0 && QuietRun(cfg, s, ws)
    ensures var t := Run(cfg, s, ws);
            Gated(t) && !t.pp.active && t.axis == s.axis
  {
    if ws != [] {
      var prefix := ws[..|ws| - 1];
      StaysPut(cfg, s, prefix);
      StepHolds(cfg, Run(cfg, s, prefix), ws[|ws| - 1], 0.0);
    }
  }

  // ----- liveness -----

  /** The numbers that govern a move with fixed settings. */
  datatype Profile = Profile(
    cap: real,     // effective velocity
    up: real,      // velocity gained per cycle
    down: real,    // velocity lost per cycle
    reach: real)   // distance travelled per cycle and unit of velocity
  {
    predicate Positive() { cap > 0.0 && up > 0.0 && down > 0.0 && reach > 0.0 }

    /** The least distance covered by a cycle that accelerates. */
    function Stride(): real { reach * Min(up, cap) }
  }

  function Ceil(x: real): int { -((-x).Floor) }

  /** Cycles a move can still take: distance in strides, then speed in braking cycles. */
  function Rank(m: Profile, distance: real, speed: real): int
    requires m.Positive()
  {
    (distance / m.Stride()).Floor * (Ceil(m.cap / m.down) + 1) + Ceil(speed / m.down)
  }

  lemma {:induction false} DivideMonotone(x: real, y: real, d: real)
    requires d > 0.0 && x <= y
    ensures x / d <= y / d
  {
    assert y / d - x / d == (y - x) / d;
  }

  lemma {:induction false} DivideStep(x: real, d: real)
    requires d > 0.0
    ensures (x - d) / d == x / d - 1.0
  {
    assert (x / d) * d == x && ((x - d) / d) * d == x - d;
    var gap := x / d - 1.0 - (x - d) / d;
    assert gap * d == 0.0;
    assert gap == 0.0;
  }

  lemma {:induction false} RankBound(m: Profile, distance: real, speed: real)
    requires m.Positive() && distance >= 0.0 && 0.0 <= speed <= m.cap
    ensures Rank(m, distance, speed) >= 0
    ensures 0 <= Ceil(speed / m.down) <= Ceil(m.cap / m.down)
    ensures (distance / m.Stride()).Floor >= 0
  {
    DivideMonotone(0.0, distance, m.Stride());
    DivideMonotone(0.0, speed, m.down);
    DivideMonotone(speed, m.cap, m.down);
  }

  lemma {:induction false} WholeMonotone(a: int, b: int, k: nat)
    requires a <= b
    ensures a * k <= b * k
    ensures a + 1 <= b ==> a * k + k <= b * k
  {
    if k > 0 {
      WholeMonotone(a, b, k - 1);
      assert a * k == a * (k - 1) + a && b * k == b * (k - 1) + b;
    }
  }

  /** A cycle that covers a whole stride lowers the rank, whatever it does to the speed. */
  lemma {:induction false} StrideLowersRank(m: Profile, distance: real, speed: real, distance': real, speed': real)
    requires m.Positive() && 0.0 <= distance' <= distance - m.Stride()
    requires 0.0 <= speed <= m.cap && 0.0 <= speed' <= m.cap
    ensures Rank(m, distance', speed') < Rank(m, distance, speed)
  {
    var q := m.Stride();
    RankBound(m, distance, speed);
    RankBound(m, distance', speed');
    DivideMonotone(distance', distance - q, q);
    DivideStep(distance, q);
    WholeMonotone((distance' / q).Floor, (distance / q).Floor, Ceil(m.cap / m.down) + 1);
  }

  /** A braking cycle lowers the rank too, though it may cover no distance at all. */
  lemma {:induction false} BrakingLowersRank(m: Profile, distance: real, speed: real, distance': real, speed': real)
    requires m.Positive() && 0.0 <= distance' <= distance && 0.0 < speed <= m.cap
    requires speed' == if speed <= m.down then 0.0 else speed - m.down
    ensures Rank(m, distance', speed') < Rank(m, distance, speed)
  {
    var q := m.Stride();
    RankBound(m, distance, speed);
    RankBound(m, distance', speed');
    DivideMonotone(distance', distance, q);
    WholeMonotone((distance' / q).Floor, (distance / q).Floor, Ceil(m.cap / m.down) + 1);
    if speed <= m.down {
      assert speed / m.down > 0.0;
      assert Ceil(0.0 / m.down) == 0;
    } else {
      DivideStep(speed, m.down);
    }
  }

  function ProfileOf(cfg: Config, conf: Settings, profileVelocity: real, backwards: bool): Profile {
    var limit := if backwards && NegativeLimit(conf) > 0.0 then NegativeLimit(conf) else PositiveLimit(conf);
    Profile(if limit > 0.0 then Min(Abs(profileVelocity), limit) else Abs(profileVelocity),
            VelocityDelta(conf, Abs(conf.acceleration), cfg.cycleTime),
            VelocityDelta(conf, Abs(conf.deceleration), cfg.cycleTime),
            VelocityScale(conf) / PositionScale(conf) * cfg.cycleTime)
  }

  function Distance(s: Servo): real { Abs(s.pp.target - s.axis.position) }

  /** An active move towards its target, no faster than its cap. */
  predicate UnderWay(s: Servo, m: Profile) {
    s.pp.active && Approaching(s) && Abs(s.axis.velocity) <= m.cap
    && (s.axis.position == s.pp.target ==> s.axis.velocity == 0.0)
  }

  lemma {:induction false} TravelIsReach(cfg: Config, s: Servo, velocity: real, m: Profile, backwards: bool)
    requires m == ProfileOf(cfg, s.od.settings, s.od.rx.profileVelocity, backwards)
    ensures Travel(cfg, s, velocity).axis.position == s.axis.position + velocity * m.reach
  {
    hide VelocityDelta, PositiveLimit, NegativeLimit, UnitScale;
    Reassociate(velocity, VelocityScale(s.od.settings), PositionScale(s.od.settings), cfg.cycleTime);
  }

  lemma {:induction false} Reassociate(x: real, y: real, z: real, d: real)
    requires z > 0.0
    ensures x * y / z * d == x * (y / z * d)
  {
    assert x * y / z == x * (y / z);
  }

  /** The cycle starts from rest or on the way, with the drive enabled and nothing new asked. */
  predicate Steady(cfg: Config, s: Servo, w: Write, conf: Settings, profileVelocity: real) {
    && Quiet(s, w)
    && Next(OperationEnabled, w.rx.controlword) == OperationEnabled
    && !ResetRequested(MasterWrite(s, w))
    && w.settings == conf && w.rx.profileVelocity == profileVelocity
    && (w.rx.targetPosition == s.last.target || WithinLimits(conf, w.rx.targetPosition))
  }

  lemma {:induction false} EnteringSteadily(cfg: Config, s: Servo, w: Write, conf: Settings, profileVelocity: real)
    requires Gated(s) && s.pp.active && Steady(cfg, s, w, conf, profileVelocity)
    ensures var t := Entering(cfg, s, w);
            && t.axis == s.axis && t.pp == s.pp && t.state == OperationEnabled
            && t.od.settings == conf && t.od.rx.profileVelocity == profileVelocity
  {
    hide ApplyCommands, WithinLimits;
    CommandsEffect(cfg, s, w);
  }

  /** Braking is chosen only at speed; otherwise the axis speeds up towards the cap. */
  lemma {:induction false} PpSpeed(cfg: Config, s: Servo, m: Profile)
    requires UnderWay(s, m) && m.Positive() && s.axis.position != s.pp.target
    requires m == ProfileOf(cfg, s.od.settings, s.od.rx.profileVelocity, s.pp.target < s.axis.position)
    ensures var v, v' := Abs(s.axis.velocity), Abs(PpVelocity(cfg, s));
            && v' <= m.cap
            && (v' >= Min(m.up, m.cap) || (v > 0.0 && v' == if v <= m.down then 0.0 else v - m.down))
  {
    hide VelocityDelta, PositiveLimit, NegativeLimit, StoppingDistance;
    if s.axis.velocity == 0.0 {
      StoppingFromRest(s.od.settings, if s.axis.position < s.pp.target then 1.0 else -1.0);
    }
  }

  lemma {:induction false} StoppingFromRest(conf: Settings, direction: real)
    ensures StoppingDistance(conf, 0.0, direction) == 0.0
  {
    ScaledSign(0.0, VelocityScale(conf), PositionScale(conf));
    assert 0.0 * direction == 0.0;
  }

  lemma {:induction false} DistanceFalls(target: real, p: real, velocity: real, reach: real)
    requires reach > 0.0
    requires (target - p) * (target - (p + velocity * reach)) > 0.0
    requires (p < target ==> velocity >= 0.0) && (p > target ==> velocity <= 0.0)
    ensures Abs(target - (p + velocity * reach)) == Abs(target - p) - Abs(velocity) * reach
    ensures target < p + velocity * reach <==> target < p
    ensures p + velocity * reach != target
  {
    ProductSign(target - p, target - (p + velocity * reach));
  }

  lemma {:induction false} ProductMonotone(r: real, x: real, y: real)
    requires r > 0.0 && x <= y
    ensures r * x <= y * r
  {
  }

  lemma {:induction false} RankFalls(m: Profile, distance: real, speed: real, distance': real, speed': real)
    requires m.Positive() && 0.0 <= distance' == distance - speed' * m.reach
    requires 0.0 <= speed <= m.cap && 0.0 <= speed' <= m.cap
    requires speed' >= Min(m.up, m.cap)
          || (speed > 0.0 && speed' == if speed <= m.down then 0.0 else speed - m.down)
    ensures 0 <= Rank(m, distance', speed') < Rank(m, distance, speed)
  {
    hide Rank;
    RankBound(m, distance', speed');
    if speed' >= Min(m.up, m.cap) {
      ProductMonotone(m.reach, Min(m.up, m.cap), speed');
      StrideLowersRank(m, distance, speed, distance', speed');
    } else {
      ProductMonotone(m.reach, 0.0, speed');
      BrakingLowersRank(m, distance, speed, distance', speed');
    }
  }

  lemma {:induction false} AdvanceDistance(cfg: Config, s: Servo, m: Profile)
    requires Approaching(s) && m.reach > 0.0
    requires m == ProfileOf(cfg, s.od.settings, s.od.rx.profileVelocity, s.pp.target < s.axis.position)
    ensures var t := PpAdvance(cfg, s);
            t.pp.active ==>
              && s.axis.position != s.pp.target && t.axis.position != s.pp.target
              && (s.pp.target < t.axis.position <==> s.pp.target < s.axis.position)
              && t.axis.velocity == PpVelocity(cfg, s)
              && Distance(t) == Distance(s) - Abs(t.axis.velocity) * m.reach
  {
    hide PpVelocity, PpInWindow, PositionRate, ProfileOf;
    var t := PpAdvance(cfg, s);
    if t.pp.active {
      var velocity := PpVelocity(cfg, s);
      PpVelocitySign(cfg, s);
      TravelIsReach(cfg, s, velocity, m, s.pp.target < s.axis.position);
      DistanceFalls(s.pp.target, s.axis.position, velocity, m.reach);
    }
  }

  /** Every cycle of a move that does not end it lowers the rank. */
  lemma {:induction false} AdvanceLowersRank(cfg: Config, s: Servo, m: Profile)
    requires UnderWay(s, m) && m.Positive()
    requires m == ProfileOf(cfg, s.od.settings, s.od.rx.profileVelocity, s.pp.target < s.axis.position)
    ensures var t := PpAdvance(cfg, s);
            t.pp.active ==>
              && UnderWay(t, m)
              && (t.pp.target < t.axis.position <==> s.pp.target < s.axis.position)
              && 0 <= Rank(m, Distance(t), Abs(t.axis.velocity)) < Rank(m, Distance(s), Abs(s.axis.velocity))
  {
    hide PpAdvance, PpVelocity, ProfileOf, Rank;
    var t := PpAdvance(cfg, s);
    AdvanceKeepsSide(cfg, s);
    AdvanceDistance(cfg, s, m);
    if t.pp.active {
      PpSpeed(cfg, s, m);
      RankFalls(m, Distance(s), Abs(s.axis.velocity), Distance(t), Abs(t.axis.velocity));
    }
  }

  predicate SteadyRun(cfg: Config, s: Servo, ws: seq<Write>, conf: Settings, profileVelocity: real)
    decreases |ws|
  {
    ws == [] || (&& SteadyRun(cfg, s, ws[..|ws| - 1], conf, profileVelocity)
                 && Steady(cfg, Run(cfg, s, ws[..|ws| - 1]), ws[|ws| - 1], conf, profileVelocity))
  }

  lemma {:induction false} SteadyIsQuiet(cfg: Config, s: Servo, ws: seq<Write>, conf: Settings, profileVelocity: real)
    requires SteadyRun(cfg, s, ws, conf, profileVelocity)
    ensures QuietRun(cfg, s, ws)
  {
    if ws != [] { SteadyIsQuiet(cfg, s, ws[..|ws| - 1], conf, profileVelocity); }
  }

  /** After `n` steady cycles a move under way has arrived, or has used up `n` of its rank. */
  lemma {:induction false} Progress(cfg: Config, s: Servo, ws: seq<Write>, conf: Settings, profileVelocity: real)
    requires Gated(s) && SteadyRun(cfg, s, ws, conf, profileVelocity)
    requires ProfileOf(cfg, conf, profileVelocity, s.pp.target < s.axis.position).Positive()
    requires UnderWay(s, ProfileOf(cfg, conf, profileVelocity, s.pp.target < s.axis.position))
    ensures var m := ProfileOf(cfg, conf, profileVelocity, s.pp.target < s.axis.position);
            var t := Run(cfg, s, ws);
            && Holding(t, s.pp.target)
            && (!t.pp.active ==> t.axis.position == s.pp.target)
            && (t.pp.active ==>
                  && UnderWay(t, m)
                  && (t.pp.target < t.axis.position <==> s.pp.target < s.axis.position)
                  && 0 <= Rank(m, Distance(t), Abs(t.axis.velocity))
                       <= Rank(m, Distance(s), Abs(s.axis.velocity)) - |ws|)
  {
    hide Rank, ProfileOf, Automaton, ApplyCommands, ProcessMode, PpAdvance, FullStatusword;
    var m := ProfileOf(cfg, conf, profileVelocity, s.pp.target < s.axis.position);
    if ws == [] {
      RankBound(m, Distance(s), Abs(s.axis.velocity));
    } else {
      var prefix, w := ws[..|ws| - 1], ws[|ws| - 1];
      Progress(cfg, s, prefix, conf, profileVelocity);
      var p := Run(cfg, s, prefix);
      StepHolds(cfg, p, w, s.pp.target);
      if p.pp.active {
        EnteringSteadily(cfg, p, w, conf, profileVelocity);
        EnteringQuietly(cfg, p, w, s.pp.target);
        var t := Entering(cfg, p, w);
        PpCycleHolds(cfg, t, s.pp.target);
        AdvanceLowersRank(cfg, PpLatch(t), m);
        AdvanceKeepsSide(cfg, PpLatch(t));
      }
    }
  }

  // ----- from the set-point on -----

  /** The exchange that hands over a set-point: a rising bit 4 in PP, no halt, the drive enabled
      by then. It may change the mode, the target, the settings and enable the drive as well. */
  predicate Setpoint(s: Servo, w: Write) {
    && w.rx.mode == PP && !HaltBit(w.rx.controlword)
    && Bit4(w.rx.controlword) && !Bit4(s.previousControlword)
    && Next(s.state, w.rx.controlword) == OperationEnabled
    && !ResetRequested(MasterWrite(s, w))
  }

  lemma {:induction false} PpTakesSetpoint(cfg: Config, s: Servo)
    requires s.state == OperationEnabled && !s.halt && s.homing.referenced && NewSetpoint(s)
    ensures var l, r := PpLatch(s), ProcessPp(cfg, s);
            if s.limit.rejected then !r.pp.active
            else r.axis == PpAdvance(cfg, l).axis && r.pp == PpAdvance(cfg, l).pp
  {
    hide PpAdvance, MoveTowards, VelocityDelta, PositionRate, RequiredWindowCount;
  }

  /** A set-point that is taken is latched, and the same exchange runs the first cycle of the
      move; one that is not taken leaves no move active. */
  lemma {:induction false} SetpointLatches(cfg: Config, s: Servo, w: Write)
    requires Gated(s) && s.homing.referenced && Setpoint(s, w)
    ensures var l, r := PpLatch(Entering(cfg, s, w)), Step(cfg, s, w);
            && Gated(r)
            && (!TakesTarget(s, w) ==> !r.pp.active)
            && (TakesTarget(s, w) ==>
                  && l.pp == ProfileMove(true, w.rx.targetPosition, true) && l.reached == Reached(false, 0)
                  && l.axis.position == s.axis.position
                  && (l.axis.velocity == s.axis.velocity || l.axis.velocity == 0.0)
                  && l.od.settings == w.settings && l.od.rx.profileVelocity == w.rx.profileVelocity
                  && r.axis == PpAdvance(cfg, l).axis && r.pp == PpAdvance(cfg, l).pp)
  {
    hide ApplyCommands, WithinLimits, PpAdvance, ProcessPp, FullStatusword, ResetRequested, TakesTarget;
    CommandsEffect(cfg, s, w);
    TargetTaken(cfg, s, w);
    StepKeepsGates(cfg, s, w);
    PpTakesSetpoint(cfg, Entering(cfg, s, w));
  }

  /** From the exchange that latches a set-point, whatever the velocity then, the target is
      never crossed; and if the axis was at rest, it stays between its start and the target. */
  lemma {:induction false} SetpointNeverCrossed(cfg: Config, s: Servo, w: Write, ws: seq<Write>)
    requires Gated(s) && s.homing.referenced && Setpoint(s, w) && TakesTarget(s, w)
    requires QuietRun(cfg, Step(cfg, s, w), ws)
    ensures var target, t := w.rx.targetPosition, Run(cfg, Step(cfg, s, w), ws);
            && Holding(t, target) && SameSide(target, s.axis.position, t.axis.position)
            && (s.axis.velocity == 0.0 ==>
                  && Between(s.axis.position, t.axis.position, target)
                  && (t.pp.active ==> Approaching(t))
                  && (ws != [] ==>
                        Between(Run(cfg, Step(cfg, s, w), ws[..|ws| - 1]).axis.position, t.axis.position, target)))
  {
    hide PpAdvance, PpLatch, Entering, Step, TakesTarget, Setpoint, Gated;
    SetpointLatches(cfg, s, w);
    var l, r := PpLatch(Entering(cfg, s, w)), Step(cfg, s, w);
    AdvanceKeepsSide(cfg, l);
    if r.pp.active {
      NeverCrossesTarget(cfg, r, ws);
      if s.axis.velocity == 0.0 { StaysBetweenStartAndTarget(cfg, r, ws); }
    } else {
      StaysPut(cfg, r, ws);
      if ws != [] { StaysPut(cfg, r, ws[..|ws| - 1]); }
    }
  }

  /** Liveness from the set-point: an axis at rest that takes a set-point, with acceleration,
      deceleration and effective velocity positive and then kept, is exactly on the target and
      at rest once the rank of the whole distance has passed in cycles, and stays there. */
  lemma {:induction false} SetpointReachesTarget(cfg: Config, s: Servo, w: Write, ws: seq<Write>)
    requires Gated(s) && s.homing.referenced && s.axis.velocity == 0.0
    requires Setpoint(s, w) && TakesTarget(s, w)
    requires SteadyRun(cfg, Step(cfg, s, w), ws, w.settings, w.rx.profileVelocity)
    requires ProfileOf(cfg, w.settings, w.rx.profileVelocity, w.rx.targetPosition < s.axis.position).Positive()
    requires |ws| >= Rank(ProfileOf(cfg, w.settings, w.rx.profileVelocity, w.rx.targetPosition < s.axis.position),
                          Abs(w.rx.targetPosition - s.axis.position), 0.0)
    ensures var t := Run(cfg, Step(cfg, s, w), ws);
            t.axis == Axis(w.rx.targetPosition, 0.0) && !t.pp.active
  {
    hide PpAdvance, PpLatch, Entering, Step, TakesTarget, Setpoint, Gated, Rank, ProfileOf, SteadyRun;
    SetpointLatches(cfg, s, w);
    var l, r := PpLatch(Entering(cfg, s, w)), Step(cfg, s, w);
    var m := ProfileOf(cfg, w.settings, w.rx.profileVelocity, w.rx.targetPosition < s.axis.position);
    AdvanceKeepsSide(cfg, l);
    AdvanceLowersRank(cfg, l, m);
    if r.pp.active {
      assert UnderWay(r, m);
      Progress(cfg, r, ws, w.settings, w.rx.profileVelocity);
    } else {
      SteadyIsQuiet(cfg, r, ws, w.settings, w.rx.profileVelocity);
      StaysPut(cfg, r, ws);
    }
  }

  /** The same for a move already under way: a latched target is reached exactly, and kept, once
      the rank of the remaining distance and speed has passed. */
  lemma {:induction false} ReachesTarget(cfg: Config, s: Servo, ws: seq<Write>, conf: Settings, profileVelocity: real)
    requires Gated(s) && SteadyRun(cfg, s, ws, conf, profileVelocity)
    requires ProfileOf(cfg, conf, profileVelocity, s.pp.target < s.axis.position).Positive()
    requires UnderWay(s, ProfileOf(cfg, conf, profileVelocity, s.pp.target < s.axis.position))
    requires |ws| > Rank(ProfileOf(cfg, conf, profileVelocity, s.pp.target < s.axis.position),
                         Distance(s), Abs(s.axis.velocity))
    ensures var t := Run(cfg, s, ws);
            t.axis == Axis(s.pp.target, 0.0) && !t.pp.active
  {
    hide Rank, ProfileOf;
    Progress(cfg, s, ws, conf, profileVelocity);
  }
}
