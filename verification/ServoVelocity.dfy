/** Velocity ramps: profile velocity, jog and halt all bring the axis to a velocity that the
    exchange asks for, step by step and then exactly. */
module ServoVelocity {
  import opened Basics
  import opened CiA402
  import opened ServoSpec
  import opened ServoSafety
  import opened ServoProfilePosition

  // ----- what an exchange asks for -----

  /** The profile velocity demand as the drive may follow it: cut to the limit of its direction. */
  function Permitted(demand: real, conf: Settings): real {
    var p, n := PositiveLimit(conf), NegativeLimit(conf);
    if demand >= 0.0 then (if p > 0.0 then Min(demand, p) else demand)
    else (if n > 0.0 then Max(demand, -n) else demand)
  }

  /** The jog speed cap is the least of the three limits that are not zero, 0 without any. */
  predicate IsJogCap(cap: real, profileVelocity: real, conf: Settings) {
    var limits := [Abs(profileVelocity), Abs(conf.positiveVelocityLimit), Abs(conf.negativeVelocityLimit * 1000.0)];
    if forall l :: l in limits ==> l == 0.0 then cap == 0.0
    else cap in limits && cap > 0.0 && forall l :: l in limits && l > 0.0 ==> cap <= l
  }

  /** Bit 4 alone is forward, bit 5 alone backward, neither or both is to stand. */
  function Direction(cw: Word): real {
    if cw & 0x0010 != 0 && cw & 0x0020 == 0 then 1.0
    else if cw & 0x0020 != 0 && cw & 0x0010 == 0 then -1.0
    else 0.0
  }

  /** Full speed with bit 12, a quarter with bit 11 alone, half otherwise. */
  function SpeedFactor(cw: Word): real {
    if cw & 0x1000 != 0 then 1.0 else if cw & 0x0800 != 0 then 0.25 else 0.5
  }

  /** The velocity the buttons ask for. */
  function ButtonVelocity(cw: Word, cap: real): real { Direction(cw) * (SpeedFactor(cw) * cap) }

  /** At a software limit only the way back is open; a velocity below 1e-12 counts as none. */
  function JogVelocityAt(position: real, conf: Settings, velocity: real): real {
    if velocity > PICO && position < Max(conf.lowerLimit, conf.upperLimit) then velocity
    else if velocity < -PICO && position > Min(conf.lowerLimit, conf.upperLimit) then velocity
    else 0.0
  }

  /** The exchange asks the axis to run at `goal`: a halt asks for 0 in every motion mode. */
  predicate Asks(s: Servo, w: Write, goal: real, cap: real) {
    if w.rx.controlword & 0x0100 != 0 then goal == 0.0
    else if w.rx.mode == PV then goal == Permitted(w.rx.targetVelocity, w.settings)
    else
      && w.rx.mode == JOG && IsJogCap(cap, w.rx.profileVelocity, w.settings)
      && goal == JogVelocityAt(s.axis.position, w.settings, ButtonVelocity(w.rx.controlword, cap))
  }

  /** An exchange that keeps mode and drive enabled; any target position will do but a new one
      outside the software limits, which stops the drive. */
  predicate Continues(s: Servo, w: Write, conf: Settings) {
    && w.rx.mode == s.last.mode && w.settings == conf
    && Next(OperationEnabled, w.rx.controlword) == OperationEnabled
    && !ResetRequested(MasterWrite(s, w))
    && (w.rx.targetPosition == s.last.target || WithinLimits(conf, w.rx.targetPosition))
  }

  predicate Driving(s: Servo) {
    Gated(s) && s.state == OperationEnabled && Moves(s.last.mode)
  }

  // ----- one exchange -----

  datatype Rates = Rates(up: real, down: real, reach: real)
  {
    predicate Positive() { up > 0.0 && down > 0.0 }
    function Least(): real { Min(up, down) }
    /** The way of one cycle at a velocity. */
    function Way(velocity: real): real { velocity * reach }
  }

  /** Velocity gained and lost per cycle, and distance travelled per cycle and unit of velocity. */
  function RatesOf(cfg: Config, conf: Settings): Rates {
    Rates(conf.acceleration * AccelerationScale(conf) / VelocityScale(conf) * cfg.cycleTime,
          conf.deceleration * AccelerationScale(conf) / VelocityScale(conf) * cfg.cycleTime,
          VelocityScale(conf) / PositionScale(conf) * cfg.cycleTime)
  }

  /** Towards a greater speed by the acceleration, otherwise by the deceleration, never past it. */
  predicate Ramped(v: real, v': real, goal: real, r: Rates) {
    var step := if Abs(goal) > Abs(v) then r.up else r.down;
    v' == if Abs(goal - v) <= step then goal else if v < goal then v + step else v - step
  }

  lemma {:induction false} EnteringDrive(cfg: Config, s: Servo, w: Write, conf: Settings)
    requires Driving(s) && Continues(s, w, conf)
    ensures var t := Entering(cfg, s, w);
            && Driving(t) && t.axis == s.axis && t.halt == HaltBit(w.rx.controlword)
            && t.last.mode == s.last.mode == t.od.rx.mode
            && t.od.rx == w.rx.(targetPosition := t.od.rx.targetPosition) && t.od.settings == conf
  {
    hide ApplyCommands, WithinLimits, Next;
    CommandsEffect(cfg, s, w);
    CommandsKeepGates(cfg, s, w);
    AutomatonKeepsGates(ApplyCommands(cfg, MasterWrite(s, w)));
  }

  lemma {:induction false} JogAsks(s: Servo, cap: real)
    requires IsJogCap(cap, s.od.rx.profileVelocity, s.od.settings) && !s.halt
    ensures LimitJog(s, JogDemand(s))
            == JogVelocityAt(s.axis.position, s.od.settings, ButtonVelocity(s.od.rx.controlword, cap))
  {
    var limits := [Abs(s.od.rx.profileVelocity), Abs(s.od.settings.positiveVelocityLimit),
                   Abs(s.od.settings.negativeVelocityLimit * 1000.0)];
    assert limits[0] in limits && limits[1] in limits && limits[2] in limits;
    assert cap == JogCap(s.od);
    assert cap * SpeedFactor(s.od.rx.controlword) == SpeedFactor(s.od.rx.controlword) * cap;
  }

  /** `t` is `s` after one ramp step towards `goal` and a cycle of travel. */
  predicate Follows(cfg: Config, s: Servo, t: Servo, goal: real) {
    && Ramped(s.axis.velocity, t.axis.velocity, goal, RatesOf(cfg, s.od.settings))
    && t.axis.position == s.axis.position + PositionRate(s.od.settings, t.axis.velocity) * cfg.cycleTime
    && t.state == s.state && t.last.mode == s.last.mode
  }

  lemma {:induction false} StepRates(cfg: Config, conf: Settings)
    ensures var r := RatesOf(cfg, conf);
            && r.up == VelocityDelta(conf, conf.acceleration, cfg.cycleTime)
            && r.down == VelocityDelta(conf, conf.deceleration, cfg.cycleTime)
  {
    hide UnitScale;
  }

  lemma {:induction false} MoveIsRamp(v: real, goal: real, r: Rates)
    requires r.Positive()
    ensures Ramped(v, MoveTowards(v, goal, if Abs(goal) > Abs(v) then r.up else r.down), goal, r)
  {
  }

  lemma {:induction false} RampFollows(cfg: Config, s: Servo, goal: real)
    requires RatesOf(cfg, s.od.settings).Positive()
    ensures Follows(cfg, s, Ramp(cfg, s, goal), goal)
  {
    hide PositionRate, VelocityDelta, MoveTowards, RatesOf, Ramped;
    StepRates(cfg, s.od.settings);
    MoveIsRamp(s.axis.velocity, goal, RatesOf(cfg, s.od.settings));
  }

  lemma {:induction false} DecelerateFollows(cfg: Config, s: Servo)
    requires RatesOf(cfg, s.od.settings).Positive()
    ensures Follows(cfg, s, Decelerate(cfg, s), 0.0)
  {
    hide PositionRate, VelocityDelta, MoveTowards, RatesOf, Ramped;
    StepRates(cfg, s.od.settings);
    SteepestIsUnsigned(s.od.settings, cfg.cycleTime);
    MoveIsRamp(s.axis.velocity, 0.0, RatesOf(cfg, s.od.settings));
  }

  lemma {:induction false} HandlerRamps(cfg: Config, s: Servo, goal: real, cap: real)
    requires Driving(s) && s.od.rx.mode == s.last.mode && RatesOf(cfg, s.od.settings).Positive()
    requires s.halt <==> s.od.rx.controlword & 0x0100 != 0
    requires Asks(s, Write(s.od.rx, 0, 0, s.od.settings), goal, cap)
    ensures Follows(cfg, s, ProcessMode(cfg, s), goal)
  {
    hide PositionRate, VelocityDelta, RatesOf, Ramped, Ramp, Decelerate, RampDelta, JogDemand, LimitJog, IsJogCap,
         ButtonVelocity, JogVelocityAt;
    if s.od.rx.mode == PV {
      RampFollows(cfg, s, PvTarget(s));
    } else if s.od.rx.mode == JOG {
      if s.halt { assert LimitJog(s, JogDemand(s)) == 0.0 by { HaltedJog(s); } } else { JogAsks(s, cap); }
      RampFollows(cfg, s, LimitJog(s, JogDemand(s)));
    } else if s.od.rx.mode == PP {
      DecelerateFollows(cfg, PpUnlatch(s));
    } else {
      DecelerateFollows(cfg, s);
    }
  }

  lemma {:induction false} HaltedJog(s: Servo)
    requires s.halt
    ensures LimitJog(s, JogDemand(s)) == 0.0
  {
  }

  lemma {:induction false} SteepestIsUnsigned(conf: Settings, dt: real)
    requires dt > 0.0 && VelocityDelta(conf, conf.deceleration, dt) > 0.0
    ensures Abs(conf.deceleration) == conf.deceleration
  {
    if conf.deceleration < 0.0 {
      ScaledSign(conf.deceleration, AccelerationScale(conf), VelocityScale(conf));
    }
  }

  /** One exchange moves the velocity one ramp step towards what it asks for, and the axis with
      that new velocity. */
  lemma {:induction false} StepRamps(cfg: Config, s: Servo, w: Write, goal: real, cap: real, conf: Settings)
    requires Driving(s) && Continues(s, w, conf) && Asks(s, w, goal, cap) && RatesOf(cfg, conf).Positive()
    ensures var t, r := Step(cfg, s, w), RatesOf(cfg, conf);
            && Driving(t) && t.last.mode == s.last.mode
            && Ramped(s.axis.velocity, t.axis.velocity, goal, r)
            && t.axis.position == s.axis.position + r.Way(t.axis.velocity)
  {
    hide ApplyCommands, Automaton, FullStatusword, ProcessMode, Next, IsJogCap, ButtonVelocity, JogVelocityAt, Ramped,
         RatesOf, PositionRate, Rates.Way;
    EnteringDrive(cfg, s, w, conf);
    var t := Entering(cfg, s, w);
    ModeKeepsGates(cfg, t);
    HandlerRamps(cfg, t, goal, cap);
    TravelForm(cfg, conf, Step(cfg, s, w).axis.velocity);
  }

  lemma {:induction false} TravelForm(cfg: Config, conf: Settings, velocity: real)
    ensures PositionRate(conf, velocity) * cfg.cycleTime == RatesOf(cfg, conf).Way(velocity)
  {
    hide UnitScale;
    Reassociate(velocity, VelocityScale(conf), PositionScale(conf), cfg.cycleTime);
  }

  // ----- whole runs -----

  predicate AskingRun(cfg: Config, s: Servo, ws: seq<Write>, goal: real, cap: real, conf: Settings)
    decreases |ws|
  {
    ws == [] || (&& AskingRun(cfg, s, ws[..|ws| - 1], goal, cap, conf)
                 && Continues(Run(cfg, s, ws[..|ws| - 1]), ws[|ws| - 1], conf)
                 && Asks(Run(cfg, s, ws[..|ws| - 1]), ws[|ws| - 1], goal, cap))
  }

  /** What `n` steps take off a gap. */
  function Lost(n: nat, step: real): real { n as real * step }

  /** The velocity lies between the start and the goal, and its gap to the goal after `n` ramp
      steps is known: exactly when the goal is the greater speed or the same way round, and at
      most by the lesser step otherwise. */
  predicate RampedBy(v: real, v': real, goal: real, r: Rates, n: nat) {
    var gap, gap' := Abs(goal - v), Abs(goal - v');
    && (v <= v' <= goal || goal <= v' <= v)
    && (Abs(goal) > Abs(v) ==> gap' == Max(gap - Lost(n, r.up), 0.0))
    && (Abs(goal) <= Abs(v) && (goal == 0.0 || (goal > 0.0 <==> v > 0.0)) ==> gap' == Max(gap - Lost(n, r.down), 0.0))
    && gap' <= Max(gap - Lost(n, r.Least()), 0.0)
  }

  lemma {:induction false} SpeedingUp(v: real, v': real, v'': real, goal: real, r: Rates, lost: real)
    requires r.Positive() && Ramped(v', v'', goal, r) && (v <= v' <= goal || goal <= v' <= v) && Abs(goal) > Abs(v)
    requires Abs(goal - v') == Max(Abs(goal - v) - lost, 0.0)
    ensures Abs(goal - v'') == Max(Abs(goal - v) - (lost + r.up), 0.0)
  {
  }

  lemma {:induction false} SlowingDown(v: real, v': real, v'': real, goal: real, r: Rates, lost: real)
    requires r.Positive() && Ramped(v', v'', goal, r) && (v <= v' <= goal || goal <= v' <= v) && Abs(goal) <= Abs(v)
    requires goal == 0.0 || (goal > 0.0 <==> v > 0.0)
    requires Abs(goal - v') == Max(Abs(goal - v) - lost, 0.0)
    ensures Abs(goal - v'') == Max(Abs(goal - v) - (lost + r.down), 0.0)
  {
  }

  lemma {:induction false} GapCloses(v: real, v': real, v'': real, goal: real, r: Rates, lost: real)
    requires r.Positive() && Ramped(v', v'', goal, r) && (v <= v' <= goal || goal <= v' <= v)
    requires Abs(goal - v') <= Max(Abs(goal - v) - lost, 0.0)
    ensures v <= v'' <= goal || goal <= v'' <= v
    ensures Abs(goal - v'') <= Max(Abs(goal - v) - (lost + r.Least()), 0.0)
  {
  }

  lemma {:induction false} RampOn(v: real, v': real, v'': real, goal: real, r: Rates, n: nat)
    requires r.Positive() && RampedBy(v, v', goal, r, n) && Ramped(v', v'', goal, r)
    ensures RampedBy(v, v'', goal, r, n + 1)
  {
    hide Ramped, Rates.Least, Lost;
    Another(n, r.up);
    Another(n, r.down);
    Another(n, r.Least());
    GapCloses(v, v', v'', goal, r, Lost(n, r.Least()));
    if Abs(goal) > Abs(v) {
      SpeedingUp(v, v', v'', goal, r, Lost(n, r.up));
    } else if goal == 0.0 || (goal > 0.0 <==> v > 0.0) {
      SlowingDown(v, v', v'', goal, r, Lost(n, r.down));
    }
  }

  lemma {:induction false} Another(n: nat, step: real)
    ensures Lost(n + 1, step) == Lost(n, step) + step
  {
  }

  /** Asked for the same velocity in every exchange, the axis follows the ramp exactly, runs at
      that velocity after as many exchanges as there are steps in the gap, and keeps it. */
  lemma {:induction false} RampLaw(cfg: Config, s: Servo, ws: seq<Write>, goal: real, cap: real, conf: Settings)
    requires Driving(s) && RatesOf(cfg, conf).Positive() && AskingRun(cfg, s, ws, goal, cap, conf)
    ensures var t, r := Run(cfg, s, ws), RatesOf(cfg, conf);
            && Driving(t) && t.last.mode == s.last.mode
            && RampedBy(s.axis.velocity, t.axis.velocity, goal, r, |ws|)
            && (|ws| >= Ceil(Abs(goal - s.axis.velocity) / r.Least()) ==> t.axis.velocity == goal)
  {
    hide Step, RatesOf, Driving, Continues, Asks, Ramped, Ceil, Lost;
    var r := RatesOf(cfg, conf);
    if ws == [] {
      NoRamp(s.axis.velocity, goal, r);
    } else {
      hide RampedBy;
      var front := ws[..|ws| - 1];
      RampLaw(cfg, s, front, goal, cap, conf);
      var p := Run(cfg, s, front);
      StepRamps(cfg, p, ws[|ws| - 1], goal, cap, conf);
      RampOn(s.axis.velocity, p.axis.velocity, Run(cfg, s, ws).axis.velocity, goal, r, |front|);
    }
    var gap := Abs(goal - s.axis.velocity);
    if |ws| >= Ceil(gap / r.Least()) {
      StepsCover(gap, r.Least(), |ws|);
      RampDone(s.axis.velocity, Run(cfg, s, ws).axis.velocity, goal, r, |ws|);
    }
  }

  lemma {:induction false} NoRamp(v: real, goal: real, r: Rates)
    ensures RampedBy(v, v, goal, r, 0)
  {
    assert Lost(0, r.up) == 0.0 && Lost(0, r.down) == 0.0 && Lost(0, r.Least()) == 0.0;
  }

  lemma {:induction false} RampDone(v: real, v': real, goal: real, r: Rates, n: nat)
    requires RampedBy(v, v', goal, r, n) && Abs(goal - v) <= Lost(n, r.Least())
    ensures v' == goal
  {
  }

  lemma {:induction false} StepsCover(gap: real, d: real, n: nat)
    requires d > 0.0 && n >= Ceil(gap / d)
    ensures gap <= Lost(n, d)
  {
    assert gap / d <= n as real;
    ProductMonotone(d, gap / d, n as real);
    assert d * (gap / d) == gap;
  }

  // ----- profile velocity -----

  predicate VelocityWrite(s: Servo, w: Write, demand: real, conf: Settings) {
    Continues(s, w, conf) && w.rx.targetVelocity == demand && !HaltBit(w.rx.controlword)
  }

  predicate VelocityRun(cfg: Config, s: Servo, ws: seq<Write>, demand: real, conf: Settings)
    decreases |ws|
  {
    ws == [] || (&& VelocityRun(cfg, s, ws[..|ws| - 1], demand, conf)
                 && VelocityWrite(Run(cfg, s, ws[..|ws| - 1]), ws[|ws| - 1], demand, conf))
  }

  lemma {:induction false} VelocityRunAsks(cfg: Config, s: Servo, ws: seq<Write>, demand: real, conf: Settings)
    requires Driving(s) && s.last.mode == PV && RatesOf(cfg, conf).Positive() && VelocityRun(cfg, s, ws, demand, conf)
    ensures AskingRun(cfg, s, ws, Permitted(demand, conf), 0.0, conf)
  {
    hide Step, RatesOf, Driving, Permitted, RampedBy;
    if ws != [] {
      VelocityRunAsks(cfg, s, ws[..|ws| - 1], demand, conf);
      RampLaw(cfg, s, ws[..|ws| - 1], Permitted(demand, conf), 0.0, conf);
    }
  }

  /** However far off it starts, the axis ramps to the permitted demand, runs at it after as many
      exchanges as there are ramp steps in the gap, and keeps that velocity. */
  lemma {:induction false} ReachesVelocity(cfg: Config, s: Servo, ws: seq<Write>, demand: real, conf: Settings)
    requires Driving(s) && s.last.mode == PV && RatesOf(cfg, conf).Positive()
    requires VelocityRun(cfg, s, ws, demand, conf)
    ensures var t, r, goal := Run(cfg, s, ws), RatesOf(cfg, conf), Permitted(demand, conf);
            && Driving(t) && RampedBy(s.axis.velocity, t.axis.velocity, goal, r, |ws|)
            && (|ws| >= Ceil(Abs(goal - s.axis.velocity) / r.Least()) ==> t.axis.velocity == goal)
  {
    hide Step, RatesOf, Driving, Permitted, RampedBy, AskingRun;
    VelocityRunAsks(cfg, s, ws, demand, conf);
    RampLaw(cfg, s, ws, Permitted(demand, conf), 0.0, conf);
  }

  // ----- jog and halt -----

  /** Plus or minus the speed factor of the cap; a velocity below 1e-12 counts as none. */
  function HeldVelocity(cw: Word, cap: real): real {
    if SpeedFactor(cw) * cap > PICO then ButtonVelocity(cw, cap) else 0.0
  }

  /** The same buttons are held in every exchange, no halt, and the software limit on the way has
      not been reached. */
  predicate HeldRun(cfg: Config, s: Servo, ws: seq<Write>, cw: Word, profileVelocity: real, conf: Settings)
    decreases |ws|
  {
    ws == [] ||
      var front, w := ws[..|ws| - 1], ws[|ws| - 1];
      var p := Run(cfg, s, front);
      && HeldRun(cfg, s, front, cw, profileVelocity, conf)
      && Continues(p, w, conf) && w.rx.profileVelocity == profileVelocity
      && w.rx.controlword & 0x1930 == cw & 0x1930 && cw & 0x0100 == 0
      && (Direction(cw) > 0.0 ==> p.axis.position < Max(conf.lowerLimit, conf.upperLimit))
      && (Direction(cw) < 0.0 ==> p.axis.position > Min(conf.lowerLimit, conf.upperLimit))
  }

  lemma {:induction false} SameButtons(w: Word, cw: Word)
    requires w & 0x1930 == cw & 0x1930
    ensures w & 0x0010 == cw & 0x0010 && w & 0x0020 == cw & 0x0020 && w & 0x0100 == cw & 0x0100
    ensures w & 0x0800 == cw & 0x0800 && w & 0x1000 == cw & 0x1000
  {
    assert w & 0x0010 == (w & 0x1930) & 0x0010 && w & 0x0020 == (w & 0x1930) & 0x0020;
    assert w & 0x0100 == (w & 0x1930) & 0x0100;
    assert w & 0x0800 == (w & 0x1930) & 0x0800 && w & 0x1000 == (w & 0x1930) & 0x1000;
    assert cw & 0x0010 == (cw & 0x1930) & 0x0010 && cw & 0x0020 == (cw & 0x1930) & 0x0020;
    assert cw & 0x0100 == (cw & 0x1930) & 0x0100;
    assert cw & 0x0800 == (cw & 0x1930) & 0x0800 && cw & 0x1000 == (cw & 0x1930) & 0x1000;
  }

  lemma {:induction false} HeldIsAsked(cw: Word, cap: real, position: real, profileVelocity: real, conf: Settings)
    requires IsJogCap(cap, profileVelocity, conf)
    requires Direction(cw) > 0.0 ==> position < Max(conf.lowerLimit, conf.upperLimit)
    requires Direction(cw) < 0.0 ==> position > Min(conf.lowerLimit, conf.upperLimit)
    ensures JogVelocityAt(position, conf, ButtonVelocity(cw, cap)) == HeldVelocity(cw, cap)
  {
    assert cap >= 0.0;
    assert SpeedFactor(cw) * cap >= 0.0;
  }

  lemma {:induction false} HeldRunAsks(cfg: Config, s: Servo, ws: seq<Write>, cw: Word, cap: real, profileVelocity: real, conf: Settings)
    requires Driving(s) && s.last.mode == JOG && RatesOf(cfg, conf).Positive()
    requires IsJogCap(cap, profileVelocity, conf)
    requires HeldRun(cfg, s, ws, cw, profileVelocity, conf)
    ensures AskingRun(cfg, s, ws, HeldVelocity(cw, cap), cap, conf)
  {
    hide Step, RatesOf, Driving, RampedBy, IsJogCap;
    if ws != [] {
      var front, w := ws[..|ws| - 1], ws[|ws| - 1];
      HeldRunAsks(cfg, s, front, cw, cap, profileVelocity, conf);
      RampLaw(cfg, s, front, HeldVelocity(cw, cap), cap, conf);
      SameButtons(w.rx.controlword, cw);
      HeldIsAsked(cw, cap, Run(cfg, s, front).axis.position, profileVelocity, conf);
      assert Asks(Run(cfg, s, front), w, HeldVelocity(cw, cap), cap);
    }
  }

  /** Which way and how fast a jog button moves the axis. Held inside the limits, bit 4 alone
      ramps the velocity to plus, bit 5 alone to minus, the speed factor of the cap; neither or
      both ramp it to zero. It is reached within the steps of the gap, and kept. */
  lemma {:induction false} JogFollowsButtons(cfg: Config, s: Servo, ws: seq<Write>, cw: Word, cap: real, profileVelocity: real, conf: Settings)
    requires Driving(s) && s.last.mode == JOG && RatesOf(cfg, conf).Positive()
    requires IsJogCap(cap, profileVelocity, conf)
    requires HeldRun(cfg, s, ws, cw, profileVelocity, conf)
    ensures var t, r := Run(cfg, s, ws), RatesOf(cfg, conf);
            var goal := HeldVelocity(cw, cap);
            && Driving(t) && RampedBy(s.axis.velocity, t.axis.velocity, goal, r, |ws|)
            && (|ws| >= Ceil(Abs(goal - s.axis.velocity) / r.Least()) ==> t.axis.velocity == goal)
  {
    hide Step, RatesOf, Driving, RampedBy, AskingRun, IsJogCap, HeldRun;
    HeldRunAsks(cfg, s, ws, cw, cap, profileVelocity, conf);
    RampLaw(cfg, s, ws, HeldVelocity(cw, cap), cap, conf);
  }

  predicate HaltRun(cfg: Config, s: Servo, ws: seq<Write>, conf: Settings)
    decreases |ws|
  {
    ws == [] || (&& HaltRun(cfg, s, ws[..|ws| - 1], conf)
                 && Continues(Run(cfg, s, ws[..|ws| - 1]), ws[|ws| - 1], conf)
                 && ws[|ws| - 1].rx.controlword & 0x0100 != 0)
  }

  /** A halt brings the axis to rest in every motion mode: each exchange takes exactly one
      deceleration step off the speed until none is left. */
  lemma {:induction false} HaltStops(cfg: Config, s: Servo, ws: seq<Write>, conf: Settings)
    requires Driving(s) && RatesOf(cfg, conf).Positive() && HaltRun(cfg, s, ws, conf)
    ensures var t, r := Run(cfg, s, ws), RatesOf(cfg, conf);
            && Driving(t) && Abs(t.axis.velocity) == Max(Abs(s.axis.velocity) - Lost(|ws|, r.down), 0.0)
            && (t.axis.velocity > 0.0 ==> s.axis.velocity > 0.0) && (t.axis.velocity < 0.0 ==> s.axis.velocity < 0.0)
  {
    hide Step, RatesOf, Driving, Continues;
    HaltRunAsks(cfg, s, ws, conf);
    RampLaw(cfg, s, ws, 0.0, 0.0, conf);
  }

  lemma {:induction false} HaltRunAsks(cfg: Config, s: Servo, ws: seq<Write>, conf: Settings)
    requires HaltRun(cfg, s, ws, conf)
    ensures AskingRun(cfg, s, ws, 0.0, 0.0, conf)
  {
    hide Step, Continues;
    if ws != [] { HaltRunAsks(cfg, s, ws[..|ws| - 1], conf); }
  }

  // ----- cyclic synchronous position -----

  function CspWanted(conf: Settings, error: real): real { Abs(error) * 5.0 * PositionScale(conf) / VelocityScale(conf) }

  /** The velocity CSP asks for at a distance: the gain times the distance, at most the limit of
      the way to the target, and always that way. */
  function CspGoal(cfg: Config, conf: Settings, profileVelocity: real, error: real): real {
    var speed := Min(CspWanted(conf, error), ProfileOf(cfg, conf, profileVelocity, error < 0.0).cap);
    if error < 0.0 then -speed else speed
  }

  lemma {:induction false} Mirrored(x: real, y: real, z: real)
    requires z > 0.0
    ensures (-x) * y / z == -(x * y / z)
  {
    assert (-x) * y == -(x * y);
  }

  lemma {:induction false} WantedIs(conf: Settings, error: real)
    ensures var wanted := CspWanted(conf, error);
            wanted >= 0.0 && VelocityOfPositionRate(conf, KP * error) == if error < 0.0 then -wanted else wanted
  {
    hide UnitScale;
    ScaledSign(Abs(error) * 5.0, PositionScale(conf), VelocityScale(conf));
    Mirrored(Abs(error) * 5.0, PositionScale(conf), VelocityScale(conf));
    assert KP * error == if error < 0.0 then -(Abs(error) * 5.0) else Abs(error) * 5.0;
  }

  lemma {:induction false} CapIs(cfg: Config, od: Od, position: real, target: real)
    ensures EffectiveVelocity(od, position, target) == ProfileOf(cfg, od.settings, od.rx.profileVelocity, target - position < 0.0).cap >= 0.0
  {
    hide VelocityDelta, UnitScale;
  }

  lemma {:induction false} CspDemandIs(cfg: Config, s: Servo)
    ensures CspDemand(s) == CspGoal(cfg, s.od.settings, s.od.rx.profileVelocity, s.od.rx.targetPosition - s.axis.position)
  {
    hide EffectiveVelocity, ProfileOf, VelocityOfPositionRate, UnitScale, CspWanted;
    var conf, error := s.od.settings, s.od.rx.targetPosition - s.axis.position;
    var cap := EffectiveVelocity(s.od, s.axis.position, s.od.rx.targetPosition);
    CapIs(cfg, s.od, s.axis.position, s.od.rx.targetPosition);
    WantedIs(conf, error);
    Cut(error < 0.0, VelocityOfPositionRate(conf, KP * error), CspWanted(conf, error), cap);
  }

  lemma {:induction false} Cut(backwards: bool, x: real, wanted: real, cap: real)
    requires wanted >= 0.0 && cap >= 0.0 && x == if backwards then -wanted else wanted
    ensures Clamp(x, cap) == if backwards then -Min(wanted, cap) else Min(wanted, cap)
  {
  }

  lemma {:induction false} ClampIsRamp(v: real, goal: real, r: Rates)
    requires r.up >= 0.0 && r.down >= 0.0
    ensures Ramped(v, v + Clamp(goal - v, if Abs(goal) > Abs(v) then r.up else r.down), goal, r)
  {
  }

  lemma {:induction false} CspRamps(cfg: Config, s: Servo)
    requires Unsigned(s.od.settings)
    ensures Ramped(s.axis.velocity, CspVelocity(cfg, s), CspDemand(s), RatesOf(cfg, s.od.settings))
  {
    hide VelocityDelta, CspDemand, RatesOf, Clamp, Ramped;
    var conf := s.od.settings;
    StepRates(cfg, conf);
    DeltaSign(conf, conf.acceleration, cfg.cycleTime);
    DeltaSign(conf, conf.deceleration, cfg.cycleTime);
    ClampIsRamp(s.axis.velocity, CspDemand(s), RatesOf(cfg, conf));
  }

  /** One CSP exchange of a referenced axis, on either side of its target: the velocity goes one
      ramp step towards what the distance asks for, and the axis travels with it. */
  lemma {:induction false} CspFollows(cfg: Config, s: Servo, w: Write, conf: Settings)
    requires Driving(s) && s.last.mode == CSP && s.homing.referenced && Unsigned(conf)
    requires Continues(s, w, conf) && w.rx.controlword & 0x0100 == 0 && TakesTarget(s, w)
    ensures var t, r := Step(cfg, s, w), RatesOf(cfg, conf);
            var goal := CspGoal(cfg, conf, w.rx.profileVelocity, w.rx.targetPosition - s.axis.position);
            && Driving(t) && Ramped(s.axis.velocity, t.axis.velocity, goal, r)
            && t.axis.position == s.axis.position + r.Way(t.axis.velocity)
  {
    hide ApplyCommands, FullStatusword, TakesTarget, WithinLimits, Next, CspVelocity, CspDemand, CspGoal, Ramped, PositionRate,
         ProcessMode, ResetRequested;
    EnteringDrive(cfg, s, w, conf);
    TargetTaken(cfg, s, w);
    CommandsEffect(cfg, s, w);
    var t := Entering(cfg, s, w);
    assert t.od.rx == w.rx;
    CspRamps(cfg, t);
    CspDemandIs(cfg, t);
    ModeKeepsGates(cfg, t);
    CspTravels(cfg, t);
    TravelForm(cfg, conf, CspVelocity(cfg, t));
  }

  lemma {:induction false} CspTravels(cfg: Config, s: Servo)
    requires s.state == OperationEnabled && s.od.rx.mode == CSP && s.homing.referenced && !s.halt
    ensures var t := ProcessMode(cfg, s);
            && t.axis == Axis(s.axis.position + PositionRate(s.od.settings, CspVelocity(cfg, s)) * cfg.cycleTime, CspVelocity(cfg, s))
            && t.last == s.last
  {
    hide CspVelocity, PositionRate, RequiredWindowCount;
  }

  /** So from rest, with an acceleration and a limit that are not zero, the axis moves towards its
      target, forwards or backwards, and in cycles of at most 0.2 s not past it. */
  lemma {:induction false} CspMovesTowardsTarget(cfg: Config, s: Servo, w: Write, conf: Settings)
    requires Driving(s) && s.last.mode == CSP && s.homing.referenced && Unsigned(conf) && s.axis.velocity == 0.0
    requires Continues(s, w, conf) && w.rx.controlword & 0x0100 == 0 && TakesTarget(s, w)
    requires RatesOf(cfg, conf).up > 0.0
    requires ProfileOf(cfg, conf, w.rx.profileVelocity, w.rx.targetPosition < s.axis.position).cap > 0.0
    ensures var t, target := Step(cfg, s, w), w.rx.targetPosition;
            && (target > s.axis.position ==> t.axis.velocity > 0.0 && t.axis.position > s.axis.position)
            && (target < s.axis.position ==> t.axis.velocity < 0.0 && t.axis.position < s.axis.position)
            && (target == s.axis.position ==> t.axis == s.axis)
            && (cfg.cycleTime <= 0.2 ==> Between(s.axis.position, t.axis.position, target))
  {
    hide Step, TakesTarget, Continues, RatesOf, CspGoal, ProfileOf, Ramped, Rates.Way, MostOf;
    var error := w.rx.targetPosition - s.axis.position;
    CspFollows(cfg, s, w, conf);
    CspGoalReach(cfg, conf, w.rx.profileVelocity, error);
    assert RatesOf(cfg, conf).down >= 0.0 by {
      StepRates(cfg, conf);
      DeltaSign(conf, conf.deceleration, cfg.cycleTime);
    }
    TravelsTowards(s.axis.position, Step(cfg, s, w).axis, w.rx.targetPosition,
                   CspGoal(cfg, conf, w.rx.profileVelocity, error), RatesOf(cfg, conf), cfg.cycleTime);
  }

  lemma {:induction false} TravelsTowards(p: real, axis: Axis, target: real, goal: real, r: Rates, dt: real)
    requires Ramped(0.0, axis.velocity, goal, r) && r.up > 0.0 && r.down >= 0.0 && r.reach > 0.0 && dt > 0.0
    requires axis.position == p + r.Way(axis.velocity)
    requires target > p ==> goal > 0.0
    requires target < p ==> goal < 0.0
    requires target == p ==> goal == 0.0
    requires Abs(r.Way(goal)) <= MostOf(target - p, dt)
    ensures target > p ==> axis.velocity > 0.0 && axis.position > p
    ensures target < p ==> axis.velocity < 0.0 && axis.position < p
    ensures target == p ==> axis == Axis(p, 0.0)
    ensures dt <= 0.2 ==> Between(p, axis.position, target)
  {
    hide Rates.Way, MostOf, Ramped;
    FromRest(axis.velocity, goal, r);
    WayBetween(axis.velocity, goal, r);
    SmallGain(dt, target - p);
    Signs(target - p, r.Way(axis.velocity), r.Way(goal), MostOf(target - p, dt));
  }

  lemma {:induction false} Signs(error: real, moved: real, bound: real, most: real)
    requires error > 0.0 ==> 0.0 < moved <= bound
    requires error < 0.0 ==> bound <= moved < 0.0
    requires error == 0.0 ==> moved == 0.0
    requires Abs(bound) <= most
    ensures most <= Abs(error) ==> (error >= 0.0 ==> 0.0 <= moved <= error) && (error <= 0.0 ==> error <= moved <= 0.0)
  {
  }

  lemma {:induction false} FromRest(v: real, goal: real, r: Rates)
    requires Ramped(0.0, v, goal, r) && r.up > 0.0
    ensures goal > 0.0 ==> 0.0 < v <= goal
    ensures goal < 0.0 ==> goal <= v < 0.0
    ensures goal == 0.0 && r.down >= 0.0 ==> v == 0.0
  {
  }

  lemma {:induction false} WayBetween(v: real, goal: real, r: Rates)
    requires r.reach > 0.0
    ensures 0.0 < v <= goal ==> 0.0 < r.Way(v) <= r.Way(goal)
    ensures goal <= v < 0.0 ==> r.Way(goal) <= r.Way(v) < 0.0
    ensures v == 0.0 ==> r.Way(v) == 0.0
  {
  }

  /** What five times the distance covers in a cycle. */
  function MostOf(error: real, dt: real): real { Abs(error) * 5.0 * dt }

  lemma {:induction false} SmallGain(dt: real, error: real)
    requires 0.0 < dt
    ensures dt <= 0.2 ==> MostOf(error, dt) <= Abs(error)
  {
    if dt <= 0.2 {
      ProductMonotone(1.0, 0.0, Abs(error));
      assert Abs(error) * (1.0 - 5.0 * dt) >= 0.0;
    }
  }

  /** In one cycle at the velocity it asks for, CSP covers at most 5 dt of the distance. */
  lemma {:induction false} CspGoalReach(cfg: Config, conf: Settings, profileVelocity: real, error: real)
    requires ProfileOf(cfg, conf, profileVelocity, error < 0.0).cap > 0.0
    ensures var goal, r := CspGoal(cfg, conf, profileVelocity, error), RatesOf(cfg, conf);
            && r.reach > 0.0
            && (error > 0.0 ==> goal > 0.0) && (error < 0.0 ==> goal < 0.0) && (error == 0.0 ==> goal == 0.0)
            && Abs(r.Way(goal)) <= MostOf(error, cfg.cycleTime)
  {
    hide ProfileOf, RatesOf, CspWanted, MostOf, Rates.Way;
    var cap := ProfileOf(cfg, conf, profileVelocity, error < 0.0).cap;
    WantedFacts(cfg, conf, error);
    GoalReach(error, CspGoal(cfg, conf, profileVelocity, error), CspWanted(conf, error), cap, RatesOf(cfg, conf), cfg.cycleTime);
  }

  lemma {:induction false} WantedFacts(cfg: Config, conf: Settings, error: real)
    ensures var wanted, r := CspWanted(conf, error), RatesOf(cfg, conf);
            && r.reach > 0.0 && wanted >= 0.0 && (error == 0.0 <==> wanted == 0.0)
            && r.Way(wanted) == MostOf(error, cfg.cycleTime)
  {
    hide UnitScale, RatesOf;
    var ps, vs := PositionScale(conf), VelocityScale(conf);
    ReachForm(cfg, conf);
    ReachIsPositive(vs, ps, cfg.cycleTime);
    ScaledSign(Abs(error) * 5.0, ps, vs);
    WantedReach(Abs(error) * 5.0, ps, vs, cfg.cycleTime, CspWanted(conf, error), RatesOf(cfg, conf).reach);
  }

  lemma {:induction false} ReachForm(cfg: Config, conf: Settings)
    ensures RatesOf(cfg, conf).reach == VelocityScale(conf) / PositionScale(conf) * cfg.cycleTime
  {
    hide UnitScale;
  }

  lemma {:induction false} GoalReach(error: real, goal: real, wanted: real, cap: real, r: Rates, dt: real)
    requires wanted >= 0.0 && cap > 0.0 && r.reach > 0.0 && r.Way(wanted) == MostOf(error, dt)
    requires error == 0.0 <==> wanted == 0.0
    requires goal == if error < 0.0 then -Min(wanted, cap) else Min(wanted, cap)
    ensures (error > 0.0 ==> goal > 0.0) && (error < 0.0 ==> goal < 0.0) && (error == 0.0 ==> goal == 0.0)
    ensures Abs(r.Way(goal)) <= MostOf(error, dt)
  {
    hide Rates.Way, MostOf;
    SpeedReach(wanted, cap, r);
    SignedReach(error < 0.0, Min(wanted, cap), r);
  }

  lemma {:induction false} ReachIsPositive(vs: real, ps: real, dt: real)
    requires vs > 0.0 && ps > 0.0 && dt > 0.0
    ensures vs / ps * dt > 0.0
  {
  }

  lemma {:induction false} SpeedReach(wanted: real, cap: real, r: Rates)
    requires wanted >= 0.0 && cap > 0.0 && r.reach > 0.0
    ensures 0.0 <= r.Way(Min(wanted, cap)) <= r.Way(wanted)
  {
    ProductMonotone(r.reach, Min(wanted, cap), wanted);
    ProductMonotone(r.reach, 0.0, Min(wanted, cap));
  }

  lemma {:induction false} SignedReach(backwards: bool, speed: real, r: Rates)
    requires r.Way(speed) >= 0.0
    ensures Abs(r.Way(if backwards then -speed else speed)) == r.Way(speed)
  {
    assert -speed * r.reach == -(speed * r.reach);
  }

  lemma {:induction false} WantedReach(x: real, ps: real, vs: real, dt: real, wanted: real, reach: real)
    requires ps > 0.0 && vs > 0.0 && wanted == x * ps / vs && reach == vs / ps * dt
    ensures wanted * reach == x * dt
  {
    var z := vs / ps;
    assert wanted * vs == x * ps && z * ps == vs;
    assert wanted * z * ps == x * ps;
    assert wanted * z == x;
    assert wanted * (z * dt) == wanted * z * dt;
  }
}
