/** What one cycle of the virtual CiA 402 servo computes, as functions on a value that
    holds every field of the drive and every object dictionary entry it touches. */
module ServoSpec {
  import opened Basics
  import opened CiA402

  const PP := 1
  const PV := 3
  const HOMING := 6
  const CSP := 8
  const JOG := -3

  const NANO := 0.000000001      // 1e-9, the standstill tolerance
  const PICO := 0.000000000001    // 1e-12

  const KP := 5.0                 // position loop gain

  /** Non-PDO objects: the ones a device reset restores from the configuration. */
  datatype Settings = Settings(
    window: real,                    // 6067h
    windowTime: real,                // 6068h, milliseconds
    positiveVelocityLimit: real,     // 607Fh
    negativeVelocityLimit: real,     // 2183h:0Ch, in thousands
    acceleration: real,              // 6083h
    deceleration: real,              // 6084h
    lowerLimit: real,                // 607Dh:01h
    upperLimit: real,                // 607Dh:02h
    positionExponent: Option<int>,   // 2194h:01h, None when the object is missing
    velocityExponent: Option<int>,   // 2194h:02h
    accelerationExponent: Option<int>) // 2194h:03h

  /** Objects a master writes every cycle. */
  datatype RxObjects = RxObjects(
    controlword: Word,               // 6040h
    mode: int,                       // 6060h
    targetPosition: real,            // 607Ah
    profileVelocity: real,           // 6081h
    targetVelocity: real)            // 60FFh

  datatype ServiceObjects = ServiceObjects(
    deviceReset: int, parameterSave: int, saveStatus: int, saveReturnCode: int, saveReturnValue: int)

  datatype TxObjects = TxObjects(
    statusword: Word,                // 6041h
    modeDisplay: int,                // 6061h
    actualPosition: real,            // 6064h
    actualVelocity: real)            // 606Ch

  datatype Od = Od(rx: RxObjects, service: ServiceObjects, settings: Settings, tx: TxObjects)

  /** What the master may have written, by PDO or SDO, by the time a model cycle runs. */
  datatype Write = Write(rx: RxObjects, deviceReset: int, parameterSave: int, settings: Settings)

  datatype PdoConfiguration = MotionServerDefault | ProfilePositionBasic | CspBasic

  /** The values a non-PDO configuration sets; it need not name every object. */
  datatype NonPdo = NonPdo(
    window: Option<real>, windowTime: Option<real>,
    positiveVelocityLimit: Option<real>, negativeVelocityLimit: Option<real>,
    acceleration: Option<real>, deceleration: Option<real>,
    lowerLimit: Option<real>, upperLimit: Option<real>,
    positionExponent: Option<int>, velocityExponent: Option<int>, accelerationExponent: Option<int>)

  const NOTHING := NonPdo(None, None, None, None, None, None, None, None, None, None, None)

  function Or<T>(configured: Option<T>, current: T): T {
    if configured.Some? then configured.value else current
  }

  /** Exactly the configured objects are written; every other keeps its value. */
  function Restored(c: NonPdo, conf: Settings): Settings {
    Settings(Or(c.window, conf.window), Or(c.windowTime, conf.windowTime),
             Or(c.positiveVelocityLimit, conf.positiveVelocityLimit),
             Or(c.negativeVelocityLimit, conf.negativeVelocityLimit),
             Or(c.acceleration, conf.acceleration), Or(c.deceleration, conf.deceleration),
             Or(c.lowerLimit, conf.lowerLimit), Or(c.upperLimit, conf.upperLimit),
             if c.positionExponent.Some? then c.positionExponent else conf.positionExponent,
             if c.velocityExponent.Some? then c.velocityExponent else conf.velocityExponent,
             if c.accelerationExponent.Some? then c.accelerationExponent else conf.accelerationExponent)
  }

  datatype ConfigData = ConfigData(cycleTime: real, pdo: PdoConfiguration, nonPdo: NonPdo)

  type Config = c: ConfigData | c.cycleTime > 0.0
    witness ConfigData(0.001, MotionServerDefault, NOTHING)

  datatype Axis = Axis(position: real, velocity: real)
  datatype ProfileMove = ProfileMove(active: bool, target: real, ack: bool)
  datatype Homing = Homing(active: bool, counter: int, referenced: bool, error: bool)
  datatype Reached = Reached(flag: bool, counter: nat)
  datatype LimitFlags = LimitFlags(warning: bool, rejected: bool)
  datatype LastCommands = LastCommands(mode: int, target: real, deviceReset: int, parameterSave: int)

  datatype Servo = Servo(
    od: Od,
    state: State,
    axis: Axis,
    pp: ProfileMove,
    homing: Homing,
    reached: Reached,
    limit: LimitFlags,
    last: LastCommands,
    previousControlword: Word,
    halt: bool)

  predicate Bit4(cw: Word) { cw & 0x0010 != 0 }
  predicate Bit5(cw: Word) { cw & 0x0020 != 0 }
  predicate HaltBit(cw: Word) { cw & 0x0100 != 0 }

  // ----- units -----

  function TenToMinus(n: nat): (r: real)
    ensures 0.0 < r <= 1.0
  {
    if n == 0 then 1.0 else TenToMinus(n - 1) / 10.0
  }

  /** A positive and a negative exponent of the same size give the same scale. */
  function UnitScale(exponent: Option<int>): (r: real)
    ensures PICO <= r <= 1.0
  {
    match exponent
    case None => 1.0
    case Some(e) => Max(TenToMinus(if e > 0 then e else -e), PICO)
  }

  function PositionScale(conf: Settings): real { UnitScale(conf.positionExponent) }
  function VelocityScale(conf: Settings): real { UnitScale(conf.velocityExponent) }
  function AccelerationScale(conf: Settings): real { UnitScale(conf.accelerationExponent) }

  function PositionRate(conf: Settings, velocity: real): real {
    velocity * VelocityScale(conf) / PositionScale(conf)
  }

  function VelocityOfPositionRate(conf: Settings, rate: real): real {
    rate * PositionScale(conf) / VelocityScale(conf)
  }

  function AccelerationPositionRate(conf: Settings, acceleration: real): real {
    acceleration * AccelerationScale(conf) / PositionScale(conf)
  }

  function VelocityDelta(conf: Settings, acceleration: real, dt: real): real {
    acceleration * AccelerationScale(conf) / VelocityScale(conf) * dt
  }

  function PositiveLimit(conf: Settings): real { Abs(conf.positiveVelocityLimit) }
  function NegativeLimit(conf: Settings): real { Abs(conf.negativeVelocityLimit * 1000.0) }

  function LowerLimit(conf: Settings): real { Min(conf.lowerLimit, conf.upperLimit) }
  function UpperLimit(conf: Settings): real { Max(conf.lowerLimit, conf.upperLimit) }

  // ----- helpers shared by the modes -----

  function MoveTowards(current: real, target: real, maxDelta: real): real {
    if maxDelta <= 0.0 then current
    else if Abs(target - current) <= maxDelta then target
    else if target > current then current + maxDelta
    else current - maxDelta
  }

  function Stop(s: Servo): Servo {
    var p := s.axis.position;
    s.(axis := Axis(p, 0.0),
       pp := ProfileMove(false, p, s.pp.ack),
       last := s.last.(target := p),
       reached := Reached(true, 0),
       od := s.od.(rx := s.od.rx.(targetPosition := p),
                   tx := s.od.tx.(actualPosition := p, actualVelocity := 0.0)))
  }

  function WriteFeedback(s: Servo): Servo {
    s.(od := s.od.(tx := s.od.tx.(actualPosition := s.axis.position, actualVelocity := s.axis.velocity)))
  }

  /** Adopt a new velocity and travel one cycle with it. */
  function Travel(cfg: Config, s: Servo, velocity: real): Servo {
    s.(axis := Axis(s.axis.position + PositionRate(s.od.settings, velocity) * cfg.cycleTime, velocity))
  }

  function Decelerate(cfg: Config, s: Servo): Servo {
    var conf := s.od.settings;
    Travel(cfg, s, MoveTowards(s.axis.velocity, 0.0, VelocityDelta(conf, Abs(conf.deceleration), cfg.cycleTime)))
  }

  function RequiredWindowCount(cfg: Config, conf: Settings): int {
    var n := (conf.windowTime / (cfg.cycleTime * 1000.0)).Floor;
    if n < 1 then 1 else n
  }

  function UpdateTargetReached(cfg: Config, s: Servo): Servo {
    var inPosition := Abs(s.od.rx.targetPosition - s.od.tx.actualPosition) <= s.od.settings.window;
    var counter := if inPosition then s.reached.counter + 1 else 0;
    s.(reached := Reached(counter >= RequiredWindowCount(cfg, s.od.settings) || (inPosition && s.reached.flag),
                          counter))
  }

  function SetReached(s: Servo, flag: bool): Servo { s.(reached := s.reached.(flag := flag)) }

  predicate Standstill(s: Servo) { Abs(s.axis.velocity) <= NANO }

  predicate WithinLimits(conf: Settings, position: real) {
    LowerLimit(conf) <= position <= UpperLimit(conf)
  }

  // ----- object dictionary commands -----

  function ResetOd(cfg: Config, od: Od): Od {
    Od(RxObjects(0, CSP, od.tx.actualPosition,
                 if cfg.pdo == CspBasic then od.rx.profileVelocity else 0.0,
                 if cfg.pdo == MotionServerDefault then 0.0 else od.rx.targetVelocity),
       od.service,
       Restored(cfg.nonPdo, od.settings),
       TxObjects(0x0027, CSP, od.tx.actualPosition, 0.0))
  }

  function DeviceReset(cfg: Config, s: Servo): Servo {
    var od := ResetOd(cfg, s.od);
    s.(od := od, last := s.last.(mode := od.rx.mode, target := od.rx.targetPosition))
  }

  function SetMode(s: Servo, mode: int, previousMode: int): Servo {
    var t := if mode == previousMode then s
             else if mode == HOMING then Stop(s)
             else Stop(s).(homing := s.homing.(active := false, error := false));
    t.(od := t.od.(rx := t.od.rx.(mode := mode), tx := t.od.tx.(modeDisplay := mode)),
       last := t.last.(mode := mode))
  }

  function RecordTarget(s: Servo, target: real): Servo {
    s.(od := s.od.(rx := s.od.rx.(targetPosition := target)), last := s.last.(target := target))
  }

  function SetTargetPosition(s: Servo, position: real, previousTarget: real): Servo {
    if s.od.rx.mode in {PP, CSP} && !s.homing.referenced then RecordTarget(s, previousTarget)
    else if !WithinLimits(s.od.settings, position) then
      SetReached(Stop(s.(limit := LimitFlags(true, true))), false)
    else
      RecordTarget(
        s.(limit := LimitFlags(s.limit.warning && !WithinLimits(s.od.settings, s.axis.position), false),
           reached := if position == previousTarget then s.reached else Reached(false, 0)),
        position)
  }

  predicate ResetRequested(s: Servo) {
    s.od.service.deviceReset == 1 && s.od.service.deviceReset != s.last.deviceReset
  }

  function ApplyServiceCommands(cfg: Config, s: Servo): Servo {
    var t := if ResetRequested(s) then DeviceReset(cfg, s) else s;
    var service := s.od.service;
    var saved := if service.parameterSave == 1 && service.parameterSave != s.last.parameterSave
                 then service.(saveStatus := 0, saveReturnCode := 0, saveReturnValue := 1) else service;
    t.(od := t.od.(service := saved),
       last := t.last.(deviceReset := service.deviceReset, parameterSave := service.parameterSave))
  }

  function ApplyCommands(cfg: Config, s: Servo): Servo {
    var t := ApplyServiceCommands(cfg, s);
    var target := t.od.rx.targetPosition;
    var u := if t.od.rx.mode != t.last.mode then SetMode(t, t.od.rx.mode, t.last.mode) else t;
    if target != u.last.target then SetTargetPosition(u, target, u.last.target) else u
  }

  // ----- homing -----

  function HomingCycles(cfg: Config): int {
    var n := (0.1 / cfg.cycleTime).Floor;
    if n < 1 then 1 else n
  }

  function StartHoming(cfg: Config, s: Servo): Servo {
    SetReached(WriteFeedback(s.(homing := Homing(true, HomingCycles(cfg), false, false),
                                axis := s.axis.(velocity := 0.0))), false)
  }

  function FinishHoming(s: Servo): Servo {
    SetReached(WriteFeedback(s.(axis := Axis(0.0, 0.0),
                                od := s.od.(rx := s.od.rx.(targetPosition := 0.0)),
                                homing := s.homing.(active := false, referenced := true))), true)
  }

  function ProcessHoming(cfg: Config, s: Servo): Servo {
    if s.state != OperationEnabled then s
    else
      var t := if NewSetpoint(s) then StartHoming(cfg, s) else s;
      if !t.homing.active then t
      else
        var u := t.(homing := t.homing.(counter := t.homing.counter - 1));
        if u.homing.counter > 0 then u else FinishHoming(u)
  }

  // ----- profile position -----

  /** The speed the profile may reach on the way to `target`. */
  function EffectiveVelocity(od: Od, position: real, target: real): real {
    var limit := if target < position && NegativeLimit(od.settings) > 0.0
                 then NegativeLimit(od.settings) else PositiveLimit(od.settings);
    if limit > 0.0 then Min(Abs(od.rx.profileVelocity), limit) else Abs(od.rx.profileVelocity)
  }

  function StoppingDistance(conf: Settings, velocity: real, direction: real): real {
    var rate := AccelerationPositionRate(conf, Abs(conf.deceleration));
    var toward := Max(PositionRate(conf, velocity) * direction, 0.0);
    if rate > 0.0 then toward * toward / (2.0 * rate) else 0.0
  }

  function PpVelocity(cfg: Config, s: Servo): real {
    var conf, v := s.od.settings, s.axis.velocity;
    var error := s.pp.target - s.axis.position;
    var direction := if error >= 0.0 then 1.0 else -1.0;
    if v * direction < 0.0 || Abs(error) <= StoppingDistance(conf, v, direction)
    then MoveTowards(v, 0.0, VelocityDelta(conf, Abs(conf.deceleration), cfg.cycleTime))
    else MoveTowards(v, direction * EffectiveVelocity(s.od, s.axis.position, s.pp.target),
                     VelocityDelta(conf, Abs(conf.acceleration), cfg.cycleTime))
  }

  function PpArrive(s: Servo): Servo {
    s.(axis := Axis(s.pp.target, 0.0), pp := s.pp.(active := false))
  }

  predicate PpInWindow(cfg: Config, s: Servo) {
    var conf := s.od.settings;
    && Abs(s.pp.target - s.axis.position) <= Abs(conf.window)
    && Abs(s.axis.velocity) <= Max(VelocityDelta(conf, Abs(conf.deceleration), cfg.cycleTime), NANO)
  }

  function PpAdvance(cfg: Config, s: Servo): Servo {
    if PpInWindow(cfg, s) then PpArrive(s)
    else
      var t := Travel(cfg, s, PpVelocity(cfg, s));
      var error := s.pp.target - s.axis.position;
      if error == 0.0 || error * (s.pp.target - t.axis.position) <= 0.0 then PpArrive(s) else t
  }

  /** A rising edge of controlword bit 4: a new set-point, or the start of homing. */
  predicate NewSetpoint(s: Servo) {
    Bit4(s.od.rx.controlword) && !Bit4(s.previousControlword)
  }

  function PpLatch(s: Servo): Servo {
    var ack := Bit4(s.od.rx.controlword);
    if NewSetpoint(s)
    then s.(pp := ProfileMove(true, s.od.rx.targetPosition, ack), reached := Reached(false, 0))
    else s.(pp := s.pp.(ack := ack))
  }

  function PpUnlatch(s: Servo): Servo { s.(pp := s.pp.(active := false, ack := false)) }

  function ProcessPp(cfg: Config, s: Servo): Servo {
    if s.state != OperationEnabled then s
    else if s.halt then
      var t := WriteFeedback(Decelerate(cfg, PpUnlatch(s)));
      SetReached(t, Standstill(t))
    else if !s.homing.referenced then
      WriteFeedback(Decelerate(cfg, SetReached(PpUnlatch(s), false)))
    else if NewSetpoint(s) && s.limit.rejected then
      WriteFeedback(Decelerate(cfg, PpUnlatch(s)))
    else
      var t := PpLatch(s);
      UpdateTargetReached(cfg, WriteFeedback(if t.pp.active then PpAdvance(cfg, t) else Decelerate(cfg, t)))
  }

  // ----- profile velocity and jog -----

  function PvTarget(s: Servo): real {
    var v := if s.halt then 0.0 else s.od.rx.targetVelocity;
    var p, n := PositiveLimit(s.od.settings), NegativeLimit(s.od.settings);
    if v >= 0.0 && p > 0.0 then Min(v, p)
    else if v < 0.0 && n > 0.0 then Max(v, -n)
    else v
  }

  /** Speeding up uses the acceleration, everything else the deceleration. */
  function RampDelta(cfg: Config, s: Servo, target: real): real {
    var conf := s.od.settings;
    VelocityDelta(conf, if Abs(target) > Abs(s.axis.velocity) then conf.acceleration else conf.deceleration,
                  cfg.cycleTime)
  }

  function Ramp(cfg: Config, s: Servo, target: real): Servo {
    WriteFeedback(Travel(cfg, s, MoveTowards(s.axis.velocity, target, RampDelta(cfg, s, target))))
  }

  function ProcessPv(cfg: Config, s: Servo): Servo {
    if s.state != OperationEnabled then s
    else
      var target := PvTarget(s);
      var t := Ramp(cfg, s, target);
      SetReached(t, Abs(t.axis.velocity - target) <= Max(RampDelta(cfg, s, target), NANO))
  }

  function LeastPositive(x: real, y: real): real {
    if x <= 0.0 then y else if y <= 0.0 then x else Min(x, y)
  }

  /** The jog speed cap: the least of the configured (non-zero) limits, 0 without any. */
  function JogCap(od: Od): real {
    LeastPositive(Abs(od.rx.profileVelocity),
                  LeastPositive(PositiveLimit(od.settings), NegativeLimit(od.settings)))
  }

  function JogSpeed(od: Od): real {
    var cw := od.rx.controlword;
    JogCap(od) * (if cw & 0x1000 != 0 then 1.0 else if cw & 0x0800 != 0 then 0.25 else 0.5)
  }

  function JogDemand(s: Servo): real {
    var positive, negative := Bit4(s.od.rx.controlword), Bit5(s.od.rx.controlword);
    if positive == negative || s.halt then 0.0
    else if positive then JogSpeed(s.od) else -JogSpeed(s.od)
  }

  function LimitJog(s: Servo, velocity: real): real {
    if Abs(velocity) <= PICO then 0.0
    else if velocity > 0.0 && s.axis.position >= UpperLimit(s.od.settings) then 0.0
    else if velocity < 0.0 && s.axis.position <= LowerLimit(s.od.settings) then 0.0
    else velocity
  }

  function ProcessJog(cfg: Config, s: Servo): Servo {
    if s.state != OperationEnabled then s
    else
      var t := Ramp(cfg, s, LimitJog(s, JogDemand(s)));
      SetReached(t, Standstill(t))
  }

  // ----- cyclic synchronous position -----

  function Clamp(x: real, bound: real): real { Max(Min(x, bound), -bound) }

  function CspDemand(s: Servo): real {
    var target := s.od.rx.targetPosition;
    Clamp(VelocityOfPositionRate(s.od.settings, KP * (target - s.axis.position)),
          EffectiveVelocity(s.od, s.axis.position, target))
  }

  function CspVelocity(cfg: Config, s: Servo): real {
    var wanted := CspDemand(s);
    s.axis.velocity + Clamp(wanted - s.axis.velocity, RampDelta(cfg, s, wanted))
  }

  function ProcessCsp(cfg: Config, s: Servo): Servo {
    if s.state != OperationEnabled then s
    else if s.halt then
      var t := WriteFeedback(Decelerate(cfg, s));
      SetReached(t, Standstill(t))
    else if !s.homing.referenced then
      WriteFeedback(Decelerate(cfg, SetReached(s, false)))
    else
      UpdateTargetReached(cfg, WriteFeedback(Travel(cfg, s, CspVelocity(cfg, s))))
  }

  // ----- the cycle -----

  function ProcessMode(cfg: Config, s: Servo): Servo {
    if s.od.rx.mode == PP then ProcessPp(cfg, s)
    else if s.od.rx.mode == PV then ProcessPv(cfg, s)
    else if s.od.rx.mode == CSP then ProcessCsp(cfg, s)
    else if s.od.rx.mode == HOMING then ProcessHoming(cfg, s)
    else if s.od.rx.mode == JOG then ProcessJog(cfg, s)
    else s
  }

  function AddBits(word: Word, condition: bool, bits: Word): Word { if condition then word | bits else word }

  predicate IsMoving(s: Servo) { !Standstill(s) || s.pp.active || s.homing.active }

  predicate SoftwareLimitActive(s: Servo) {
    s.limit.warning || !WithinLimits(s.od.settings, s.axis.position)
  }

  function StatusBits(base: Word, targetReached: bool, ack: bool, moving: bool, limited: bool,
                      referenced: bool, homingFault: bool): Word
  {
    var w1 := AddBits(base, targetReached, 0x0400);
    var w2 := AddBits(w1, ack, 0x1000);
    var w3 := AddBits(w2, moving, 0x0100);
    var w4 := AddBits(w3, limited, 0x0880);
    var w5 := AddBits(w4, referenced, 0x8000);
    AddBits(w5, homingFault, 0x0008)
  }

  function FullStatusword(s: Servo): Word {
    StatusBits(Statusword(s.state), s.reached.flag, s.pp.ack, IsMoving(s), SoftwareLimitActive(s),
               s.homing.referenced, s.od.rx.mode == HOMING && s.homing.error)
  }

  function Automaton(s: Servo): Servo {
    var cw := s.od.rx.controlword;
    var t := s.(halt := HaltBit(cw), state := Next(s.state, cw));
    if s.state == OperationEnabled && t.state != OperationEnabled then Stop(t) else t
  }

  function Publish(s: Servo): Servo {
    s.(od := s.od.(tx := s.od.tx.(statusword := FullStatusword(s))),
       previousControlword := s.od.rx.controlword)
  }

  function ProcessCycle(cfg: Config, s: Servo): Servo {
    Publish(ProcessMode(cfg, Automaton(s)))
  }

  function ModelUpdate(cfg: Config, s: Servo): Servo {
    ProcessCycle(cfg, ApplyCommands(cfg, s))
  }

  function MasterWrite(s: Servo, w: Write): Servo {
    s.(od := s.od.(rx := w.rx, settings := w.settings,
                   service := s.od.service.(deviceReset := w.deviceReset, parameterSave := w.parameterSave)))
  }

  /** One exchange: the master's writes land in the object dictionary, then the model runs. */
  function Step(cfg: Config, s: Servo, w: Write): Servo {
    ModelUpdate(cfg, MasterWrite(s, w))
  }

  /** The drive after a run of exchanges. */
  function Run(cfg: Config, s: Servo, ws: seq<Write>): Servo {
    if ws == [] then s else Step(cfg, Run(cfg, s, ws[..|ws| - 1]), ws[|ws| - 1])
  }

  /** The drive as constructed over a loaded object dictionary. */
  function PowerUp(od: Od): Servo {
    Servo(od, SwitchOnDisabled, Axis(0.0, 0.0), ProfileMove(false, 0.0, false),
          Homing(false, 0, false, false), Reached(false, 0), LimitFlags(false, false),
          LastCommands(od.rx.mode, od.rx.targetPosition, od.service.deviceReset, od.service.parameterSave),
          0, false)
  }
}
