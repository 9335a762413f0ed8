/** Why the velocity envelope needs unsigned rates: a run from power-up that leaves it as soon as
    one exchange brings a negative acceleration or deceleration. */
module ServoEnvelope {
  import opened Basics
  import opened CiA402
  import opened ServoSpec
  import opened ServoSafety
  import opened ServoProfilePosition
  import opened ServoHoming

  lemma {:induction false} RunConcat(cfg: Config, s: Servo, a: seq<Write>, b: seq<Write>)
    ensures Run(cfg, s, a + b) == Run(cfg, Run(cfg, s, a), b)
  {
    hide Step;
    if b == [] {
      assert a + b == a;
    } else {
      var n := |b| - 1;
      assert (a + b)[..|a + b| - 1] == a + b[..n];
      RunConcat(cfg, s, a, b[..n]);
    }
  }

  // ----- from power-up to a referenced axis -----

  function HomingRequest(conf: Settings, controlword: Word): Write {
    Write(RxObjects(controlword, HOMING, 0.0, 0.0, 0.0), 0, 0, conf)
  }

  function HomingOd(conf: Settings): Od {
    Od(RxObjects(0, HOMING, 0.0, 0.0, 0.0), ServiceObjects(0, 0, 0, 0, 0), conf, TxObjects(0x0040, HOMING, 0.0, 0.0))
  }

  lemma {:induction false} HomingHandlerKeeps(cfg: Config, s: Servo)
    ensures var t := ProcessHoming(cfg, s);
            t.state == s.state && t.last == s.last && t.od.rx.controlword == s.od.rx.controlword
  {
    hide HomingCycles, NewSetpoint;
  }

  lemma {:induction false} AutomatonKeeps(s: Servo)
    ensures var t := Automaton(s);
            && t.state == Next(s.state, s.od.rx.controlword) && t.last.mode == s.last.mode
            && t.od.rx == s.od.rx.(targetPosition := t.od.rx.targetPosition)
  {
    hide Next, HaltBit;
  }

  lemma {:induction false} HomingModeStep(cfg: Config, s: Servo, w: Write)
    requires Gated(s) && s.last.mode == HOMING && w.rx.mode == HOMING && w.deviceReset != 1
    ensures var t := Step(cfg, s, w);
            && Gated(t) && t.last.mode == HOMING && t.state == Next(s.state, w.rx.controlword)
            && t.previousControlword == w.rx.controlword
  {
    hide ApplyCommands, Automaton, FullStatusword, Next, ProcessPp, ProcessPv, ProcessCsp, ProcessHoming, ProcessJog;
    CommandsEffect(cfg, s, w);
    var t := ApplyCommands(cfg, MasterWrite(s, w));
    AutomatonKeeps(t);
    HomingHandlerKeeps(cfg, Automaton(t));
    StepKeepsGates(cfg, s, w);
  }

  lemma {:induction false} EnabledByLadder(cfg: Config, conf: Settings)
    ensures var ladder := [HomingRequest(conf, 0x06), HomingRequest(conf, 0x07), HomingRequest(conf, 0x0F)];
            var t := Run(cfg, PowerUp(HomingOd(conf)), ladder);
            InHoming(t) && t.previousControlword == 0x0F
  {
    hide Step;
    var w1, w2, w3 := HomingRequest(conf, 0x06), HomingRequest(conf, 0x07), HomingRequest(conf, 0x0F);
    var s := PowerUp(HomingOd(conf));
    assert [w1, w2, w3][..2] == [w1, w2] && [w1, w2][..1] == [w1] && [w1][..0] == [];
    HomingModeStep(cfg, s, w1);
    HomingModeStep(cfg, Step(cfg, s, w1), w2);
    HomingModeStep(cfg, Step(cfg, Step(cfg, s, w1), w2), w3);
    assert Run(cfg, s, [w1]) == Step(cfg, s, w1);
    assert Run(cfg, s, [w1, w2]) == Step(cfg, Step(cfg, s, w1), w2);
  }

  lemma {:induction false} HomingRunOf(cfg: Config, s: Servo, w: Write, n: nat)
    requires InHoming(s) && HomingWrite(w) && Starts(s, w)
    ensures var ws := seq(n, _ => w);
            HomingRun(cfg, s, ws) && InHoming(Run(cfg, s, ws))
            && (n > 0 ==> Run(cfg, s, ws).previousControlword == w.rx.controlword)
  {
    hide Step, Next;
    if n > 0 {
      HomingRunOf(cfg, s, w, n - 1);
      var ws := seq(n, _ => w);
      assert ws[..|ws| - 1] == seq(n - 1, _ => w);
      HomingModeStep(cfg, Run(cfg, s, seq(n - 1, _ => w)), w);
    }
  }

  /** Switching on and homing takes a drive with any settings to a referenced axis at zero. */
  lemma {:induction false} ReferencedRun(cfg: Config, conf: Settings) returns (ws: seq<Write>)
    ensures forall w :: w in ws ==> w.settings == conf
    ensures var t := Run(cfg, PowerUp(HomingOd(conf)), ws);
            InHoming(t) && t.homing.referenced && t.axis == Axis(0.0, 0.0)
  {
    hide Step, Run;
    var ladder := [HomingRequest(conf, 0x06), HomingRequest(conf, 0x07), HomingRequest(conf, 0x0F)];
    var s := Run(cfg, PowerUp(HomingOd(conf)), ladder);
    EnabledByLadder(cfg, conf);
    var w := HomingRequest(conf, 0x1F);
    var homing := seq(HomingCycles(cfg), _ => w);
    HomingRunOf(cfg, s, w, HomingCycles(cfg));
    HomingLastsATenth(cfg, HomingCycles(cfg));
    HomingTakesItsCycles(cfg, s, homing, HomingCycles(cfg));
    RunConcat(cfg, PowerUp(HomingOd(conf)), ladder, homing);
    ws := ladder + homing;
  }

  // ----- one CSP exchange -----

  function CspRequest(conf: Settings, target: real, profileVelocity: real): Write {
    Write(RxObjects(0x000F, CSP, target, profileVelocity, 0.0), 0, 0, conf)
  }

  lemma {:induction false} CspStep(cfg: Config, s: Servo, w: Write)
    requires Gated(s) && s.state == OperationEnabled && s.homing.referenced
    requires w == CspRequest(w.settings, w.rx.targetPosition, w.rx.profileVelocity) && TakesTarget(s, w)
    ensures var t, r := Entering(cfg, s, w), Step(cfg, s, w);
            && t.od.rx == w.rx && t.od.settings == w.settings && t.axis.position == s.axis.position
            && (if s.last.mode == CSP then t.axis == s.axis else t.axis.velocity == 0.0)
            && r.axis == Travel(cfg, t, CspVelocity(cfg, t)).axis
            && Gated(r) && r.state == OperationEnabled && r.homing.referenced
            && r.last.mode == CSP && r.last.target == w.rx.targetPosition && !r.limit.rejected
  {
    hide ApplyCommands, TakesTarget, CspVelocity, PositionRate, Decelerate, FullStatusword, RequiredWindowCount;
    CommandsEffect(cfg, s, w);
    TargetTaken(cfg, s, w);
    StepKeepsGates(cfg, s, w);
  }

  // ----- arithmetic -----

  lemma {:induction false} NegativeDelta(conf: Settings, acceleration: real, dt: real)
    requires dt > 0.0 && acceleration < 0.0
    ensures VelocityDelta(conf, acceleration, dt) < 0.0
  {
    ScaledSign(acceleration, AccelerationScale(conf), VelocityScale(conf));
  }

  /** The acceleration that reaches `velocity` from rest in one cycle. */
  function JumpRate(cfg: Config, conf: Settings, velocity: real): real {
    velocity / cfg.cycleTime * VelocityScale(conf) / AccelerationScale(conf)
  }

  lemma {:induction false} JumpReaches(cfg: Config, conf: Settings, velocity: real)
    requires velocity > 0.0
    ensures JumpRate(cfg, conf, velocity) > 0.0
    ensures VelocityDelta(conf, JumpRate(cfg, conf, velocity), cfg.cycleTime) == velocity
  {
    hide UnitScale;
    var a, b, x := VelocityScale(conf), AccelerationScale(conf), velocity / cfg.cycleTime;
    ScaledSign(x, a, b);
    Inverse(x, a, b);
  }

  /** Far enough ahead that the position loop asks for at least `velocity`, now and after one
      more cycle at it. */
  function FarAhead(cfg: Config, conf: Settings, velocity: real): real {
    PositionRate(conf, velocity) * (1.0 / KP + cfg.cycleTime)
  }

  lemma {:induction false} Linear(x: real, y: real, a: real, b: real)
    requires b > 0.0
    ensures y * a / b == x * a / b + (y - x) * a / b
  {
    assert y * a == x * a + (y - x) * a;
  }

  lemma {:induction false} RateMonotone(conf: Settings, v: real, w: real)
    requires 0.0 <= v <= w && 0.0 < w
    ensures 0.0 <= PositionRate(conf, v) <= PositionRate(conf, w) && 0.0 < PositionRate(conf, w)
  {
    hide UnitScale;
    var a, b := VelocityScale(conf), PositionScale(conf);
    ScaledSign(v, a, b);
    ScaledSign(w, a, b);
    ScaledSign(w - v, a, b);
    Linear(v, w, a, b);
    assert PositionRate(conf, v) == v * a / b && PositionRate(conf, w) == w * a / b;
  }

  lemma {:induction false} Inverse(x: real, a: real, b: real)
    requires a > 0.0 && b > 0.0
    ensures x * a / b * b / a == x
  {
    assert x * a / b * b == x * a;
  }

  lemma {:induction false} DemandMonotone(conf: Settings, velocity: real, rate: real)
    requires PositionRate(conf, velocity) <= rate
    ensures velocity <= VelocityOfPositionRate(conf, rate)
  {
    hide UnitScale;
    var a, b := VelocityScale(conf), PositionScale(conf);
    var x := PositionRate(conf, velocity);
    Inverse(velocity, a, b);
    ScaledSign(rate - x, b, a);
    Linear(x, rate, b, a);
  }

  lemma {:induction false} AheadDemands(cfg: Config, conf: Settings, v: real, w: real, position: real)
    requires 0.0 <= v <= w && 0.0 < w
    requires position == 0.0 || position == PositionRate(conf, v) * cfg.cycleTime
    ensures 0.0 <= position < FarAhead(cfg, conf, w)
    ensures VelocityOfPositionRate(conf, KP * (FarAhead(cfg, conf, w) - position)) >= w
  {
    hide PositionRate, VelocityOfPositionRate;
    RateMonotone(conf, v, w);
    var x, y, dt := PositionRate(conf, w), PositionRate(conf, v), cfg.cycleTime;
    assert y * dt <= x * dt by { ProductMonotone(dt, y, x); }
    assert 0.0 <= y * dt by { ProductMonotone(dt, 0.0, y); }
    assert FarAhead(cfg, conf, w) == x / KP + x * dt;
    assert 0.0 <= position <= x * dt;
    assert KP * (x / KP + x * dt - position) == x + KP * (x * dt - position);
    DemandMonotone(conf, w, KP * (FarAhead(cfg, conf, w) - position));
  }

  // ----- the run that escapes -----

  /** The settings of the preparing exchanges: the same limits, unsigned rates. */
  function Prepared(cfg: Config, conf: Settings, positive: real): Settings {
    conf.(acceleration := JumpRate(cfg, conf, positive), deceleration := 0.0,
          lowerLimit := 0.0, upperLimit := FarAhead(cfg, conf, positive))
  }

  /** One unsigned CSP exchange brings the axis from rest at zero to any velocity in the limit. */
  lemma {:induction false} JumpStep(cfg: Config, s: Servo, conf: Settings, positive: real, velocity: real)
    requires InHoming(s) && s.homing.referenced && s.axis == Axis(0.0, 0.0)
    requires 0.0 < velocity <= positive == PositiveLimit(conf)
    ensures var w := CspRequest(Prepared(cfg, conf, positive), FarAhead(cfg, conf, positive), velocity);
            TakesTarget(s, w)
            && Step(cfg, s, w).axis == Axis(PositionRate(conf, velocity) * cfg.cycleTime, velocity)
  {
    hide Step, VelocityDelta, PositionRate, VelocityOfPositionRate, NegativeLimit, FarAhead, JumpRate, UnitScale;
    var prepared := Prepared(cfg, conf, positive);
    var w := CspRequest(prepared, FarAhead(cfg, conf, positive), velocity);
    AheadDemands(cfg, conf, velocity, positive, 0.0);
    JumpReaches(cfg, conf, positive);
    CspStep(cfg, s, w);
    SameUnits(cfg, conf, prepared, velocity);
    SameUnits(cfg, conf, prepared, KP * FarAhead(cfg, conf, positive));
    SameUnits(cfg, conf, prepared, prepared.acceleration);
    var t := Entering(cfg, s, w);
    assert CspDemand(t) == velocity;
    assert RampDelta(cfg, t, velocity) == positive;
    assert CspVelocity(cfg, t) == velocity;
  }

  lemma {:induction false} SameUnits(cfg: Config, conf: Settings, other: Settings, x: real)
    requires other.positionExponent == conf.positionExponent && other.velocityExponent == conf.velocityExponent
    requires other.accelerationExponent == conf.accelerationExponent
    ensures PositionRate(other, x) == PositionRate(conf, x)
    ensures VelocityOfPositionRate(other, x) == VelocityOfPositionRate(conf, x)
    ensures VelocityDelta(other, x, cfg.cycleTime) == VelocityDelta(conf, x, cfg.cycleTime)
  {
    hide UnitScale;
  }

  /** The profile velocity that makes CSP use the negative rate: none to brake, all to speed up. */
  function Provoking(conf: Settings, positive: real): real { if conf.deceleration < 0.0 then 0.0 else positive }

  /** CSP clamps with a signed rate, so a negative one always adds to the velocity. */
  lemma {:induction false} NegativeRateStep(cfg: Config, s: Servo, conf: Settings, positive: real, velocity: real)
    requires Gated(s) && s.state == OperationEnabled && s.homing.referenced && !Unsigned(conf)
    requires s.last.mode == CSP && s.last.target == FarAhead(cfg, conf, positive) && !s.limit.rejected
    requires 0.0 < velocity < positive == PositiveLimit(conf)
    requires s.axis == Axis(PositionRate(conf, velocity) * cfg.cycleTime, velocity)
    ensures var rate := if conf.deceleration < 0.0 then conf.deceleration else conf.acceleration;
            var w := CspRequest(conf, FarAhead(cfg, conf, positive), Provoking(conf, positive));
            && VelocityDelta(conf, rate, cfg.cycleTime) < 0.0
            && Step(cfg, s, w).axis.velocity == velocity - VelocityDelta(conf, rate, cfg.cycleTime)
  {
    hide Step, VelocityDelta, PositionRate, VelocityOfPositionRate, NegativeLimit, FarAhead, UnitScale;
    var rate := if conf.deceleration < 0.0 then conf.deceleration else conf.acceleration;
    var w := CspRequest(conf, FarAhead(cfg, conf, positive), Provoking(conf, positive));
    NegativeDelta(conf, rate, cfg.cycleTime);
    AheadDemands(cfg, conf, velocity, positive, s.axis.position);
    CspStep(cfg, s, w);
    var t := Entering(cfg, s, w);
    assert CspDemand(t) == Provoking(conf, positive);
  }

  /** For any settings with a negative rate: a run from power-up whose last exchange alone uses
      them, all others having the same limits and unsigned rates, ends outside the envelope. */
  lemma {:induction false} NegativeRateEscapes(cfg: Config, conf: Settings, positive: real, negative: real)
      returns (od: Od, ws: seq<Write>, w: Write)
    requires positive > 0.0 && negative > 0.0 && LimitsAre(conf, positive, negative) && !Unsigned(conf)
    ensures forall x :: x in ws ==> Limited(x.settings, positive, negative)
    ensures w.settings == conf
    ensures Run(cfg, PowerUp(od), ws + [w]).axis.velocity > positive
  {
    hide Step, VelocityDelta, PositionRate, FarAhead, JumpRate;
    var rate := if conf.deceleration < 0.0 then conf.deceleration else conf.acceleration;
    NegativeDelta(conf, rate, cfg.cycleTime);
    var velocity := positive - Min(positive, -VelocityDelta(conf, rate, cfg.cycleTime)) / 2.0;
    var prepared := Prepared(cfg, conf, positive);
    JumpReaches(cfg, conf, positive);
    assert Limited(prepared, positive, negative);
    od := HomingOd(prepared);
    var referencing := ReferencedRun(cfg, prepared);
    var s := Run(cfg, PowerUp(od), referencing);
    var jump := CspRequest(prepared, FarAhead(cfg, conf, positive), velocity);
    JumpStep(cfg, s, conf, positive, velocity);
    CspStep(cfg, s, jump);
    ws := referencing + [jump];
    w := CspRequest(conf, FarAhead(cfg, conf, positive), Provoking(conf, positive));
    assert ws[..|ws| - 1] == referencing && (ws + [w])[..|ws|] == ws;
    assert Run(cfg, PowerUp(od), ws) == Step(cfg, s, jump);
    NegativeRateStep(cfg, Step(cfg, s, jump), conf, positive, velocity);
  }

  /** Every run with the given limits that ends under `conf`, whatever came before. */
  ghost predicate AlwaysInEnvelope(cfg: Config, conf: Settings, positive: real, negative: real) {
    forall od: Od, ws: seq<Write>, w: Write :: (forall x :: x in ws ==> Limited(x.settings, positive, negative)) && w.settings == conf ==>
      InEnvelope(Run(cfg, PowerUp(od), ws + [w]), positive, negative)
  }

  /** Settings with the given limits are safe for every drive that has run from power-up inside
      its envelope, exactly when both their rates are unsigned. */
  lemma {:induction false} EnvelopeIffUnsigned(cfg: Config, conf: Settings, positive: real, negative: real)
    requires positive > 0.0 && negative > 0.0 && ResetKeepsLimits(cfg, positive, negative)
    requires LimitsAre(conf, positive, negative)
    ensures AlwaysInEnvelope(cfg, conf, positive, negative) <==> Unsigned(conf)
  {
    hide Run, PowerUp, LimitsAre;
    if Unsigned(conf) {
      forall od: Od, ws: seq<Write>, w: Write | (forall x :: x in ws ==> Limited(x.settings, positive, negative)) && w.settings == conf
        ensures InEnvelope(Run(cfg, PowerUp(od), ws + [w]), positive, negative)
      {
        VelocityEnvelope(cfg, od, ws + [w], positive, negative);
      }
    } else {
      var od, ws, w := NegativeRateEscapes(cfg, conf, positive, negative);
      assert !InEnvelope(Run(cfg, PowerUp(od), ws + [w]), positive, negative);
    }
  }
}
