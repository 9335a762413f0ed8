/** How far a jogged axis can run past its software position limits. */
module ServoJog {
  import opened Basics
  import opened CiA402
  import opened ServoSpec
  import opened ServoSafety
  import opened ServoProfilePosition

  /** The numbers that govern jogging with fixed settings. */
  datatype Jogging = Jogging(
    cap: real,    // jog speed cap
    brake: real,  // least velocity change per cycle
    reach: real)  // distance travelled per cycle and unit of velocity
  {
    predicate Braking() { cap >= 0.0 && brake > 0.0 && reach > 0.0 }

    /** One cycle at full speed, then the braking distance from full speed. */
    function Overrun(): real
      requires Braking()
    {
      reach * (cap + BrakingSum(cap))
    }

    /** Velocity times cycles still needed to brake from `velocity`. */
    function BrakingSum(velocity: real): real
      requires Braking()
    {
      if velocity <= 0.0 then 0.0 else velocity * velocity / (2.0 * brake)
    }

    /** The distance past a limit the axis is already bound to reach. */
    function Committed(past: real, velocity: real): real
      requires Braking()
    {
      past + reach * BrakingSum(velocity)
    }
  }

  function JoggingOf(cfg: Config, conf: Settings, profileVelocity: real): Jogging {
    Jogging(LeastPositive(Abs(profileVelocity), LeastPositive(PositiveLimit(conf), NegativeLimit(conf))),
            Min(VelocityDelta(conf, conf.acceleration, cfg.cycleTime),
                VelocityDelta(conf, conf.deceleration, cfg.cycleTime)),
            VelocityScale(conf) / PositionScale(conf) * cfg.cycleTime)
  }

  // ----- arithmetic -----

  lemma {:induction false} SquareOver(x: real, y: real, d: real)
    requires d > 0.0 && 0.0 <= x <= y
    ensures x * x / (2.0 * d) <= y * y / (2.0 * d)
  {
    assert x * x <= y * y by { assert (y - x) * (y + x) >= 0.0; }
    DivideMonotone(x * x, y * y, 2.0 * d);
  }

  /** Losing at least `brake` of velocity pays for the distance the next cycle travels. */
  lemma {:induction false} BrakingPays(j: Jogging, v: real, v': real)
    requires j.Braking()
    requires v <= 0.0 ==> v' <= 0.0
    requires v > 0.0 ==> v' <= Max(0.0, v - j.brake)
    ensures v' + j.BrakingSum(v') <= j.BrakingSum(v)
  {
    var d := j.brake;
    if v' > 0.0 {
      var w := v - d;
      SquareOver(v', w, d);
      var k := w * w / (2.0 * d);
      assert k * (2.0 * d) == w * w;
      assert (w + k + d / 2.0) * (2.0 * d) == v * v by {
        assert w * (2.0 * d) + w * w + d * d == (w + d) * (w + d);
      }
      DivideUnique(v * v, w + k + d / 2.0, 2.0 * d);
    } else if v > 0.0 {
      DivideMonotone(0.0, v * v, 2.0 * d);
    }
  }

  lemma {:induction false} DivideUnique(x: real, q: real, d: real)
    requires d > 0.0 && q * d == x
    ensures x / d == q
  {
    assert (x / d - q) * d == 0.0;
  }

  /** One cycle of motion along the way past a limit keeps the committed distance bounded. */
  lemma {:induction false} CommitmentKept(j: Jogging, past: real, v: real, past': real, v': real)
    requires j.Braking() && v' <= j.cap && past' == past + v' * j.reach
    requires j.Committed(past, v) <= j.Overrun()
    requires past >= 0.0 && v <= 0.0 ==> v' <= 0.0
    requires past >= 0.0 && v > 0.0 ==> v' <= Max(0.0, v - j.brake)
    ensures j.Committed(past', v') <= j.Overrun()
  {
    hide Jogging.BrakingSum;
    var sum := v' + j.BrakingSum(v');
    assert v' * j.reach + j.reach * j.BrakingSum(v') == j.reach * sum;
    if past >= 0.0 {
      BrakingPays(j, v, v');
      Scaled(j.reach, sum, j.BrakingSum(v));
    } else {
      BrakingSumMonotone(j, v', j.cap);
      Scaled(j.reach, sum, j.cap + j.BrakingSum(j.cap));
    }
  }

  lemma {:induction false} Scaled(r: real, x: real, y: real)
    requires r > 0.0 && x <= y
    ensures r * x <= r * y
  {
  }

  lemma {:induction false} BrakingSumMonotone(j: Jogging, v: real, w: real)
    requires j.Braking() && v <= w
    ensures 0.0 <= j.BrakingSum(v) <= j.BrakingSum(w)
  {
    if v > 0.0 {
      SquareOver(0.0, v, j.brake);
      SquareOver(v, w, j.brake);
    } else if w > 0.0 {
      SquareOver(0.0, w, j.brake);
    }
  }

  // ----- one jog cycle -----

  function JogVelocity(cfg: Config, s: Servo): real {
    var demand := LimitJog(s, JogDemand(s));
    MoveTowards(s.axis.velocity, demand, RampDelta(cfg, s, demand))
  }

  lemma {:induction false} JogVelocityBrakes(cfg: Config, s: Servo, j: Jogging)
    requires j == JoggingOf(cfg, s.od.settings, s.od.rx.profileVelocity) && j.Braking()
    requires -j.cap <= s.axis.velocity <= j.cap
    ensures var v, v' := s.axis.velocity, JogVelocity(cfg, s);
            && -j.cap <= v' <= j.cap
            && (s.axis.position >= UpperLimit(s.od.settings) ==>
                  (v <= 0.0 ==> v' <= 0.0) && (v > 0.0 ==> v' <= Max(0.0, v - j.brake)))
            && (s.axis.position <= LowerLimit(s.od.settings) ==>
                  (v >= 0.0 ==> v' >= 0.0) && (v < 0.0 ==> v' >= Min(0.0, v + j.brake)))
  {
    hide VelocityDelta, PositiveLimit, NegativeLimit, UpperLimit, LowerLimit;
    assert j.cap == JogCap(s.od);
    assert 0.0 <= JogSpeed(s.od) <= j.cap;
  }

  /** Both limits, seen from inside: what the axis has run past each, and is bound to run. */
  predicate Contained(s: Servo, conf: Settings, j: Jogging)
    requires j.Braking()
  {
    && -j.cap <= s.axis.velocity <= j.cap
    && j.Committed(s.axis.position - UpperLimit(conf), s.axis.velocity) <= j.Overrun()
    && j.Committed(LowerLimit(conf) - s.axis.position, -s.axis.velocity) <= j.Overrun()
  }

  lemma {:induction false} JogCycleContains(cfg: Config, s: Servo, conf: Settings, j: Jogging)
    requires s.od.settings == conf
    requires j == JoggingOf(cfg, conf, s.od.rx.profileVelocity) && j.Braking()
    requires Contained(s, conf, j)
    ensures Contained(ProcessJog(cfg, s), conf, j)
  {
    hide JogVelocity, JoggingOf, UpperLimit, LowerLimit, JogDemand, LimitJog, MoveTowards, RampDelta, Travel;
    hide Jogging.Committed, Jogging.Overrun, Jogging.BrakingSum;
    if s.state == OperationEnabled {
      var v' := JogTravel(cfg, s, j);
      var p' := ProcessJog(cfg, s).axis.position;
      JogVelocityBrakes(cfg, s, j);
      CommitmentKept(j, s.axis.position - UpperLimit(conf), s.axis.velocity, p' - UpperLimit(conf), v');
      CommitmentKept(j, LowerLimit(conf) - s.axis.position, -s.axis.velocity, LowerLimit(conf) - p', -v');
    }
  }

  lemma {:induction false} JogTravel(cfg: Config, s: Servo, j: Jogging) returns (v': real)
    requires s.state == OperationEnabled
    requires j == JoggingOf(cfg, s.od.settings, s.od.rx.profileVelocity)
    ensures v' == JogVelocity(cfg, s)
    ensures ProcessJog(cfg, s).axis == Axis(s.axis.position + v' * j.reach, v')
    ensures -v' * j.reach == -(v' * j.reach)
  {
    hide VelocityDelta, PositiveLimit, NegativeLimit, UpperLimit, LowerLimit, UnitScale, JogDemand, LimitJog,
         MoveTowards, RampDelta;
    v' := JogVelocity(cfg, s);
    Reassociate(v', VelocityScale(s.od.settings), PositionScale(s.od.settings), cfg.cycleTime);
  }

  // ----- whole runs -----

  /** An exchange in jog mode with fixed settings: any buttons, any speed bits, halts, enabling
      and disabling, device resets. */
  predicate JogWrite(w: Write, conf: Settings, profileVelocity: real) {
    w.rx.mode == JOG && w.settings == conf && w.rx.profileVelocity == profileVelocity
  }

  lemma {:induction false} EnteringJog(cfg: Config, s: Servo, w: Write, conf: Settings, profileVelocity: real)
    requires Gated(s) && JogWrite(w, conf, profileVelocity)
    ensures var t := Entering(cfg, s, w);
            && Gated(t) && t.axis.position == s.axis.position
            && (t.axis.velocity == s.axis.velocity || t.axis.velocity == 0.0)
            && (t.state == OperationEnabled ==>
                  t.od.rx.mode == JOG && t.od.settings == conf && t.od.rx.profileVelocity == profileVelocity)
  {
    hide ApplyCommands;
    CommandsEffect(cfg, s, w);
    CommandsKeepGates(cfg, s, w);
    AutomatonKeepsGates(ApplyCommands(cfg, MasterWrite(s, w)));
  }

  lemma {:induction false} StoppingContains(s: Servo, t: Servo, conf: Settings, j: Jogging)
    requires j.Braking() && Contained(s, conf, j)
    requires t.axis.position == s.axis.position
    requires t.axis.velocity == s.axis.velocity || t.axis.velocity == 0.0
    ensures Contained(t, conf, j)
  {
    var up, down := j.BrakingSum(s.axis.velocity), j.BrakingSum(-s.axis.velocity);
    BrakingSumMonotone(j, s.axis.velocity, s.axis.velocity);
    BrakingSumMonotone(j, -s.axis.velocity, -s.axis.velocity);
    Scaled(j.reach, 0.0, up);
    Scaled(j.reach, 0.0, down);
  }

  lemma {:induction false} StepContains(cfg: Config, s: Servo, w: Write, conf: Settings, profileVelocity: real)
    requires Gated(s) && JogWrite(w, conf, profileVelocity)
    requires JoggingOf(cfg, conf, profileVelocity).Braking()
    requires Contained(s, conf, JoggingOf(cfg, conf, profileVelocity))
    ensures Gated(Step(cfg, s, w)) && Contained(Step(cfg, s, w), conf, JoggingOf(cfg, conf, profileVelocity))
  {
    hide Automaton, ApplyCommands, ProcessPp, ProcessPv, ProcessCsp, ProcessHoming, ProcessJog, FullStatusword,
         JoggingOf, UpperLimit, LowerLimit, Jogging.Committed, Jogging.Overrun, Jogging.BrakingSum;
    var j := JoggingOf(cfg, conf, profileVelocity);
    EnteringJog(cfg, s, w, conf, profileVelocity);
    StepKeepsGates(cfg, s, w);
    var t := Entering(cfg, s, w);
    StoppingContains(s, t, conf, j);
    ModeKeepsGates(cfg, t);
    if t.state == OperationEnabled { JogCycleContains(cfg, t, conf, j); }
  }

  lemma {:induction false} JogContained(cfg: Config, s: Servo, ws: seq<Write>, conf: Settings, profileVelocity: real)
    requires Gated(s) && s.axis.velocity == 0.0 && WithinLimits(conf, s.axis.position)
    requires forall w :: w in ws ==> JogWrite(w, conf, profileVelocity)
    requires JoggingOf(cfg, conf, profileVelocity).Braking()
    ensures Gated(Run(cfg, s, ws)) && Contained(Run(cfg, s, ws), conf, JoggingOf(cfg, conf, profileVelocity))
  {
    hide JoggingOf, UpperLimit, LowerLimit;
    var j := JoggingOf(cfg, conf, profileVelocity);
    if ws == [] {
      BrakingSumMonotone(j, 0.0, j.cap);
      Scaled(j.reach, 0.0, j.cap + j.BrakingSum(j.cap));
    } else {
      JogContained(cfg, s, ws[..|ws| - 1], conf, profileVelocity);
      StepContains(cfg, Run(cfg, s, ws[..|ws| - 1]), ws[|ws| - 1], conf, profileVelocity);
    }
  }

  /** Entering jog at rest inside the software limits, no sequence of buttons takes the axis
      past either limit by more than one cycle at the speed cap plus the braking distance. */
  lemma {:induction false} JogOverrunBound(cfg: Config, s: Servo, ws: seq<Write>, conf: Settings, profileVelocity: real)
    requires Gated(s) && s.axis.velocity == 0.0 && WithinLimits(conf, s.axis.position)
    requires forall w :: w in ws ==> JogWrite(w, conf, profileVelocity)
    requires JoggingOf(cfg, conf, profileVelocity).Braking()
    ensures var j := JoggingOf(cfg, conf, profileVelocity);
            LowerLimit(conf) - j.Overrun() <= Run(cfg, s, ws).axis.position <= UpperLimit(conf) + j.Overrun()
  {
    hide JoggingOf, UpperLimit, LowerLimit, Run, Jogging.Overrun;
    var j := JoggingOf(cfg, conf, profileVelocity);
    JogContained(cfg, s, ws, conf, profileVelocity);
    var t := Run(cfg, s, ws);
    var up, down := j.BrakingSum(t.axis.velocity), j.BrakingSum(-t.axis.velocity);
    BrakingSumMonotone(j, t.axis.velocity, t.axis.velocity);
    BrakingSumMonotone(j, -t.axis.velocity, -t.axis.velocity);
    Scaled(j.reach, 0.0, up);
    Scaled(j.reach, 0.0, down);
  }
}
