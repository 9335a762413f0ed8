/** What the drive reports: position and velocity, the added statusword bits and the target-reached
    flag tell the truth over whole runs, and a device reset leaves a known drive behind. */
module ServoReports {
  import opened Basics
  import opened CiA402
  import opened ServoSpec
  import opened ServoSafety
  import opened ServoProfilePosition
  import opened ServoVelocity

  // ----- position and velocity -----

  /** 6064h and 606Ch are the axis's position and velocity. */
  predicate Reported(s: Servo) {
    s.od.tx.actualPosition == s.axis.position && s.od.tx.actualVelocity == s.axis.velocity
  }

  /** Position published, and velocity too unless a reset is about to switch the drive off. */
  predicate HalfReported(s: Servo) {
    && s.od.tx.actualPosition == s.axis.position
    && (s.od.tx.actualVelocity == s.axis.velocity || (s.od.rx.controlword == 0 && s.state == OperationEnabled))
  }

  lemma {:induction false} ServiceReports(cfg: Config, s: Servo, w: Write)
    requires Gated(s) && Reported(s)
    ensures HalfReported(ApplyServiceCommands(cfg, MasterWrite(s, w)))
  {
    hide Restored;
    MovingIsEnabled(s);
  }

  lemma {:induction false} StopReports(s: Servo)
    ensures Reported(Stop(s))
  {
  }

  lemma {:induction false} ModeReports(s: Servo, mode: int)
    requires HalfReported(s)
    ensures HalfReported(SetMode(s, mode, s.last.mode))
  {
    hide Stop;
    StopReports(s);
  }

  lemma {:induction false} TargetReports(s: Servo, target: real)
    requires HalfReported(s)
    ensures HalfReported(SetTargetPosition(s, target, s.last.target))
  {
    hide WithinLimits, Stop;
    StopReports(s.(limit := LimitFlags(true, true)));
  }

  lemma {:induction false} CommandsReport(cfg: Config, s: Servo, w: Write)
    requires Gated(s) && Reported(s)
    ensures HalfReported(ApplyCommands(cfg, MasterWrite(s, w)))
  {
    hide SetMode, SetTargetPosition, ApplyServiceCommands, Gated, Reported, HalfReported;
    ServiceReports(cfg, s, w);
    var t := ApplyServiceCommands(cfg, MasterWrite(s, w));
    ModeReports(t, t.od.rx.mode);
    var u := if t.od.rx.mode != t.last.mode then SetMode(t, t.od.rx.mode, t.last.mode) else t;
    TargetReports(u, t.od.rx.targetPosition);
  }

  lemma {:induction false} MovingIsEnabled(s: Servo)
    requires Gated(s)
    ensures s.axis.velocity != 0.0 ==> s.state == OperationEnabled
  {
  }

  lemma {:induction false} AutomatonReports(s: Servo)
    requires HalfReported(s)
    ensures Reported(Automaton(s))
  {
  }

  /** Every handler that acts on an enabled drive in a motion mode publishes what it did. */
  lemma {:induction false} HandlerReports(cfg: Config, s: Servo)
    ensures Moves(s.od.rx.mode) && s.state == OperationEnabled ==> Reported(ProcessMode(cfg, s))
    ensures Reported(s) ==> Reported(ProcessMode(cfg, s))
  {
    hide PpAdvance, Decelerate, Travel, MoveTowards, RequiredWindowCount, CspVelocity, LimitJog, JogDemand, PvTarget,
         RampDelta, HomingCycles, PpLatch;
  }

  /** Whatever an exchange does, position and velocity stay truthfully published; and an exchange
      that leaves the drive enabled in a motion mode publishes them anyhow. */
  lemma {:induction false} StepReports(cfg: Config, s: Servo, w: Write)
    requires Gated(s)
    ensures var t := Step(cfg, s, w);
            && (Reported(s) ==> Reported(t))
            && (t.state == OperationEnabled && Moves(t.od.rx.mode) ==> Reported(t))
  {
    hide ApplyCommands, Automaton, FullStatusword, ProcessPp, ProcessPv, ProcessCsp, ProcessHoming, ProcessJog;
    var t := ApplyCommands(cfg, MasterWrite(s, w));
    if Reported(s) {
      CommandsReport(cfg, s, w);
      AutomatonReports(t);
    }
    CommandsKeepGates(cfg, s, w);
    AutomatonKeepsGates(t);
    ModeKeepsGates(cfg, Automaton(t));
    HandlerReports(cfg, Automaton(t));
    HandlerKeepsMode(cfg, Automaton(t));
  }

  lemma {:induction false} HandlerKeepsMode(cfg: Config, s: Servo)
    ensures ProcessMode(cfg, s).od.rx.mode == s.od.rx.mode
  {
    hide MoveTowards, RequiredWindowCount, CspVelocity, LimitJog, JogDemand, PvTarget, RampDelta, HomingCycles, PositionRate,
         VelocityDelta, PpVelocity, PpInWindow, NewSetpoint;
  }

  /** Over every run from power-up: after each exchange that leaves the drive enabled in a motion
      mode, and after all of them if the dictionary starts with a drive at rest at zero, 6064h
      and 606Ch are the axis's position and velocity. */
  lemma {:induction false} FeedbackIsTruthful(cfg: Config, od: Od, ws: seq<Write>)
    ensures var s := Run(cfg, PowerUp(od), ws);
            && (od.tx.actualPosition == 0.0 && od.tx.actualVelocity == 0.0 ==> Reported(s))
            && (ws != [] && s.state == OperationEnabled && Moves(s.od.rx.mode) ==> Reported(s))
  {
    hide Step;
    if ws != [] {
      FeedbackIsTruthful(cfg, od, ws[..|ws| - 1]);
      MotionGates(cfg, od, ws[..|ws| - 1]);
      StepReports(cfg, Run(cfg, PowerUp(od), ws[..|ws| - 1]), ws[|ws| - 1]);
    }
  }

  // ----- statusword -----

  predicate Shows(word: Word, bits: Word, condition: bool) {
    word & bits == if condition then bits else 0
  }

  lemma {:induction false} BitsShow(base: Word, reached: bool, ack: bool, moving: bool, limited: bool, referenced: bool)
    requires base & 0x9D80 == 0
    ensures var word := StatusBits(base, reached, ack, moving, limited, referenced, false);
            && Shows(word, 0x0400, reached) && Shows(word, 0x1000, ack) && Shows(word, 0x0100, moving)
            && Shows(word, 0x0080, limited) && Shows(word, 0x0800, limited) && Shows(word, 0x8000, referenced)
  {
  }

  /** After every exchange of every run each added bit says exactly what it stands for: target
      reached, set-point acknowledged, moving, software limit (two bits), referenced. */
  lemma {:induction false} StatuswordTellsTruth(cfg: Config, od: Od, ws: seq<Write>)
    requires ws != []
    ensures var s := Run(cfg, PowerUp(od), ws);
            var word := s.od.tx.statusword;
            && Shows(word, 0x0400, s.reached.flag)
            && Shows(word, 0x1000, s.pp.ack)
            && Shows(word, 0x0100, Abs(s.axis.velocity) > NANO || s.pp.active || s.homing.active)
            && Shows(word, 0x0880, s.limit.warning
                                   || s.axis.position < Min(s.od.settings.lowerLimit, s.od.settings.upperLimit)
                                   || s.axis.position > Max(s.od.settings.lowerLimit, s.od.settings.upperLimit))
            && Shows(word, 0x8000, s.homing.referenced)
  {
    hide ApplyCommands, Automaton, ProcessMode, StatusBits, Statusword;
    var p := Run(cfg, PowerUp(od), ws[..|ws| - 1]);
    var t := ProcessMode(cfg, Automaton(ApplyCommands(cfg, MasterWrite(p, ws[|ws| - 1]))));
    MotionGates(cfg, od, ws);
    BaseWord(t.state);
    BitsShow(Statusword(t.state), t.reached.flag, t.pp.ack, IsMoving(t), SoftwareLimitActive(t), t.homing.referenced);
    BothBits(FullStatusword(t), SoftwareLimitActive(t));
  }

  lemma {:induction false} BaseWord(state: State)
    ensures Statusword(state) & 0x9D80 == 0
  {
  }

  lemma {:induction false} BothBits(word: Word, condition: bool)
    requires Shows(word, 0x0080, condition) && Shows(word, 0x0800, condition)
    ensures Shows(word, 0x0880, condition)
  {
  }

  // ----- target reached -----

  /** An exchange that goes on tracking the same target: PP without a new set-point, or CSP. */
  predicate Tracks(s: Servo, w: Write, conf: Settings) {
    && Continues(s, w, conf) && (w.rx.mode == PP || w.rx.mode == CSP) && s.homing.referenced
    && w.rx.controlword & 0x0100 == 0 && !(Bit4(w.rx.controlword) && !Bit4(s.previousControlword) && w.rx.mode == PP)
    && w.rx.targetPosition == s.last.target
  }

  predicate TrackingRun(cfg: Config, s: Servo, ws: seq<Write>, conf: Settings)
    decreases |ws|
  {
    ws == [] || (&& TrackingRun(cfg, s, ws[..|ws| - 1], conf)
                 && Tracks(Run(cfg, s, ws[..|ws| - 1]), ws[|ws| - 1], conf))
  }

  /** How many exchanges in a row, up to the last, have left the axis in the window. */
  function Settled(cfg: Config, s: Servo, ws: seq<Write>, target: real, conf: Settings): nat
    decreases |ws|
  {
    if ws == [] then s.reached.counter
    else if Abs(target - Run(cfg, s, ws).axis.position) <= conf.window
    then Settled(cfg, s, ws[..|ws| - 1], target, conf) + 1
    else 0
  }

  lemma {:induction false} TrackingEnters(cfg: Config, s: Servo, w: Write, conf: Settings)
    requires Driving(s) && Tracks(s, w, conf)
    ensures var t := Entering(cfg, s, w);
            && t.od.rx == w.rx && t.od.settings == conf && t.state == OperationEnabled && !t.halt && t.axis == s.axis
            && t.reached == s.reached && t.homing.referenced && t.last.target == s.last.target
            && (w.rx.mode == PP ==> !NewSetpoint(t))
  {
    hide WithinLimits, Next;
    EnteringDrive(cfg, s, w, conf);
  }

  lemma {:induction false} TrackingCounts(cfg: Config, s: Servo)
    requires s.state == OperationEnabled && !s.halt && s.homing.referenced
    requires s.od.rx.mode == CSP || (s.od.rx.mode == PP && !NewSetpoint(s))
    ensures var t := ProcessMode(cfg, s);
            var inside := Abs(s.od.rx.targetPosition - t.axis.position) <= s.od.settings.window;
            && t.reached.counter == (if inside then s.reached.counter + 1 else 0)
            && (t.reached.flag <==> t.reached.counter >= RequiredWindowCount(cfg, s.od.settings) || (inside && s.reached.flag))
            && t.last == s.last && t.homing.referenced
  {
    hide PpAdvance, Decelerate, Travel, CspVelocity, RequiredWindowCount, NewSetpoint;
    AdvanceKeepsRest(cfg, PpLatch(s));
    AdvanceKeepsRest(cfg, s);
  }

  lemma {:induction false} AdvanceKeepsRest(cfg: Config, s: Servo)
    ensures var t := PpAdvance(cfg, s);
            t.od == s.od && t.reached == s.reached && t.last == s.last && t.homing == s.homing
    ensures var t := Decelerate(cfg, s);
            t.od == s.od && t.reached == s.reached && t.last == s.last && t.homing == s.homing
    ensures forall v: real :: var t := Travel(cfg, s, v);
            t.od == s.od && t.reached == s.reached && t.last == s.last && t.homing == s.homing
  {
  }

  lemma {:induction false} StepTracks(cfg: Config, s: Servo, w: Write, conf: Settings)
    requires Driving(s) && Tracks(s, w, conf)
    ensures var t := Step(cfg, s, w);
            var inside := Abs(s.last.target - t.axis.position) <= conf.window;
            && Driving(t) && t.last.target == s.last.target
            && t.reached.counter == (if inside then s.reached.counter + 1 else 0)
            && (t.reached.flag <==> t.reached.counter >= RequiredWindowCount(cfg, conf) || (inside && s.reached.flag))
  {
    hide ApplyCommands, Automaton, ProcessMode, FullStatusword, Next, RequiredWindowCount, WithinLimits;
    EnteringDrive(cfg, s, w, conf);
    TrackingEnters(cfg, s, w, conf);
    TrackingCounts(cfg, Entering(cfg, s, w));
    ModeKeepsGates(cfg, Entering(cfg, s, w));
  }

  /** The whole cycles in the window time, at least one. */
  predicate IsWindowCount(n: int, cfg: Config, conf: Settings) {
    var cycles := conf.windowTime / (cfg.cycleTime * 1000.0);
    n >= 1 && (n as real <= cycles || n == 1) && cycles < (n + 1) as real
  }

  /** The target-reached flag over a run that tracks one target: it is up exactly when the axis
      has been in the window for the window time, or was up before and the axis never left. */
  lemma {:induction false} TargetReachedExactly(cfg: Config, s: Servo, ws: seq<Write>, conf: Settings, n: int)
    requires Driving(s) && TrackingRun(cfg, s, ws, conf) && IsWindowCount(n, cfg, conf)
    ensures var t := Run(cfg, s, ws);
            var settled := Settled(cfg, s, ws, s.last.target, conf);
            && Driving(t) && t.last.target == s.last.target && t.reached.counter == settled
            && (t.reached.flag <==> (ws != [] && settled >= n) || (s.reached.flag && settled == s.reached.counter + |ws|))
  {
    hide Step, Driving, Tracks, RequiredWindowCount, IsWindowCount;
    WindowCount(cfg, conf, n);
    SettledBound(cfg, s, ws, s.last.target, conf);
    if ws != [] {
      var front := ws[..|ws| - 1];
      TargetReachedExactly(cfg, s, front, conf, n);
      SettledBound(cfg, s, front, s.last.target, conf);
      StepTracks(cfg, Run(cfg, s, front), ws[|ws| - 1], conf);
    }
  }

  lemma {:induction false} WindowCount(cfg: Config, conf: Settings, n: int)
    requires IsWindowCount(n, cfg, conf)
    ensures RequiredWindowCount(cfg, conf) == n && n >= 1
  {
  }

  lemma {:induction false} SettledBound(cfg: Config, s: Servo, ws: seq<Write>, target: real, conf: Settings)
    ensures Settled(cfg, s, ws, target, conf) <= s.reached.counter + |ws|
  {
    if ws != [] { SettledBound(cfg, s, ws[..|ws| - 1], target, conf); }
  }

  /** In every other situation the flag tells whether the axis has what it was asked for: in jog
      and while halted that it stands still, in profile velocity that it runs within one ramp
      step of the demand; an unreferenced PP or CSP axis never has. */
  lemma {:induction false} ReachedElsewhere(cfg: Config, s: Servo, w: Write, conf: Settings)
    requires Driving(s) && Continues(s, w, conf)
    ensures var t, halted := Step(cfg, s, w), w.rx.controlword & 0x0100 != 0;
            && (w.rx.mode == JOG || (halted && (w.rx.mode == PP || w.rx.mode == CSP)) ==>
                  (t.reached.flag <==> Abs(t.axis.velocity) <= NANO))
            && (w.rx.mode == PV ==>
                  var goal := Permitted(if halted then 0.0 else w.rx.targetVelocity, conf);
                  var rates := RatesOf(cfg, conf);
                  var step := if Abs(goal) > Abs(s.axis.velocity) then rates.up else rates.down;
                  t.reached.flag <==> Abs(t.axis.velocity - goal) <= Max(step, NANO))
            && (!halted && !s.homing.referenced && (w.rx.mode == PP || w.rx.mode == CSP) ==> !t.reached.flag)
  {
    hide ApplyCommands, Automaton, ProcessMode, FullStatusword, Next, WithinLimits, RatesOf, Permitted, ResetRequested;
    EnteringDrive(cfg, s, w, conf);
    CommandsEffect(cfg, s, w);
    StepRates(cfg, conf);
    EnteringReference(cfg, s, w);
    HandlerReached(cfg, Entering(cfg, s, w));
  }

  lemma {:induction false} EnteringReference(cfg: Config, s: Servo, w: Write)
    requires Gated(s)
    ensures Entering(cfg, s, w).homing.referenced == s.homing.referenced
  {
    hide ApplyCommands, Next;
    CommandsEffect(cfg, s, w);
  }

  lemma {:induction false} HandlerReached(cfg: Config, s: Servo)
    requires s.state == OperationEnabled
    ensures var t := ProcessMode(cfg, s);
            && (s.od.rx.mode == JOG || (s.halt && (s.od.rx.mode == PP || s.od.rx.mode == CSP)) ==>
                  (t.reached.flag <==> Abs(t.axis.velocity) <= NANO))
            && (s.od.rx.mode == PV ==>
                  var conf := s.od.settings;
                  var goal := Permitted(if s.halt then 0.0 else s.od.rx.targetVelocity, conf);
                  var step := VelocityDelta(conf, if Abs(goal) > Abs(s.axis.velocity) then conf.acceleration else conf.deceleration,
                                            cfg.cycleTime);
                  t.reached.flag <==> Abs(t.axis.velocity - goal) <= Max(step, NANO))
            && (!s.halt && !s.homing.referenced && (s.od.rx.mode == PP || s.od.rx.mode == CSP) ==> !t.reached.flag)
  {
    hide MoveTowards, VelocityDelta, PositionRate, LimitJog, JogDemand, PpAdvance, CspVelocity, RequiredWindowCount,
         PositiveLimit, NegativeLimit;
  }

  // ----- set-point acknowledge -----

  /** In profile position the acknowledge bit follows controlword bit 4, and is down while the
      drive is halted or unreferenced, or has refused a new set-point. */
  lemma {:induction false} AckFollowsStart(cfg: Config, s: Servo, w: Write, conf: Settings)
    requires Driving(s) && s.last.mode == PP && Continues(s, w, conf)
    ensures var t := Step(cfg, s, w);
            var refused := !Bit4(s.previousControlword) && s.homing.referenced && !TakesTarget(s, w);
            t.pp.ack <==> w.rx.controlword & 0x0010 != 0 && w.rx.controlword & 0x0100 == 0 && s.homing.referenced && !refused
  {
    hide ApplyCommands, Automaton, ProcessMode, FullStatusword, Next, WithinLimits, TakesTarget, ResetRequested;
    EnteringDrive(cfg, s, w, conf);
    EnteringReference(cfg, s, w);
    if s.homing.referenced { TargetTaken(cfg, s, w); }
    EnteringRefusal(cfg, s, w);
    HandlerAcks(cfg, Entering(cfg, s, w));
  }

  lemma {:induction false} EnteringRefusal(cfg: Config, s: Servo, w: Write)
    requires Gated(s)
    ensures var t := Entering(cfg, s, w);
            && t.limit == ApplyCommands(cfg, MasterWrite(s, w)).limit && t.previousControlword == s.previousControlword
  {
    hide ApplyCommands, Next;
    CommandsEffect(cfg, s, w);
  }

  lemma {:induction false} HandlerAcks(cfg: Config, s: Servo)
    requires s.state == OperationEnabled && s.od.rx.mode == PP
    ensures ProcessMode(cfg, s).pp.ack <==>
              Bit4(s.od.rx.controlword) && !s.halt && s.homing.referenced && !(NewSetpoint(s) && s.limit.rejected)
  {
    hide MoveTowards, VelocityDelta, PositionRate, PpVelocity, PpInWindow, RequiredWindowCount;
  }

  // ----- parameter save -----

  /** A save request that was not there in the exchange before is answered: no error, done. */
  lemma {:induction false} SaveIsAnswered(cfg: Config, s: Servo, w: Write)
    requires Gated(s)
    ensures var t := Step(cfg, s, w).od.service;
            && (w.parameterSave == 1 && s.last.parameterSave != 1 ==>
                  t.saveStatus == 0 && t.saveReturnCode == 0 && t.saveReturnValue == 1)
            && (w.parameterSave != 1 || s.last.parameterSave == 1 ==>
                  (t.saveStatus, t.saveReturnCode, t.saveReturnValue)
                  == (s.od.service.saveStatus, s.od.service.saveReturnCode, s.od.service.saveReturnValue))
  {
    hide ApplyCommands, Automaton, ProcessMode, FullStatusword;
    var t := ApplyCommands(cfg, MasterWrite(s, w));
    CommandsAnswer(cfg, s, w);
    ServiceKept(cfg, t);
    ServiceKept(cfg, Automaton(t));
  }

  lemma {:induction false} CommandsAnswer(cfg: Config, s: Servo, w: Write)
    ensures var t, was := ApplyCommands(cfg, MasterWrite(s, w)).od.service, s.od.service;
            if w.parameterSave == 1 && s.last.parameterSave != 1
            then t.saveStatus == 0 && t.saveReturnCode == 0 && t.saveReturnValue == 1
            else (t.saveStatus, t.saveReturnCode, t.saveReturnValue) == (was.saveStatus, was.saveReturnCode, was.saveReturnValue)
  {
    hide WithinLimits, Restored, ResetRequested;
  }

  lemma {:induction false} ServiceKept(cfg: Config, s: Servo)
    ensures Automaton(s).od.service == s.od.service && ProcessMode(cfg, s).od.service == s.od.service
  {
    hide MoveTowards, RequiredWindowCount, CspVelocity, LimitJog, JogDemand, PvTarget, RampDelta, HomingCycles, PositionRate,
         VelocityDelta, PpVelocity, PpInWindow, NewSetpoint, Next;
  }

  // ----- device reset -----

  predicate Takes<T(==)>(configured: Option<T>, was: T, now: T) {
    now == if configured.Some? then configured.value else was
  }

  predicate TakesExponent(configured: Option<int>, was: Option<int>, now: Option<int>) {
    now == if configured.Some? then configured else was
  }

  /** Exactly the configured objects have their configured values, all others the ones they had. */
  predicate Reconfigured(c: NonPdo, was: Settings, now: Settings) {
    && Takes(c.window, was.window, now.window) && Takes(c.windowTime, was.windowTime, now.windowTime)
    && Takes(c.positiveVelocityLimit, was.positiveVelocityLimit, now.positiveVelocityLimit)
    && Takes(c.negativeVelocityLimit, was.negativeVelocityLimit, now.negativeVelocityLimit)
    && Takes(c.acceleration, was.acceleration, now.acceleration)
    && Takes(c.deceleration, was.deceleration, now.deceleration)
    && Takes(c.lowerLimit, was.lowerLimit, now.lowerLimit) && Takes(c.upperLimit, was.upperLimit, now.upperLimit)
    && TakesExponent(c.positionExponent, was.positionExponent, now.positionExponent)
    && TakesExponent(c.velocityExponent, was.velocityExponent, now.velocityExponent)
    && TakesExponent(c.accelerationExponent, was.accelerationExponent, now.accelerationExponent)
  }

  lemma {:induction false} RestoredReconfigures(c: NonPdo, was: Settings)
    ensures Reconfigured(c, was, Restored(c, was))
  {
  }

  /** An exchange that resets the device leaves it switched off and at rest where it was, in CSP
      with its own position as the target, the mapped velocities cleared, the configured settings
      restored, and its reference as it was. */
  lemma {:induction false} ResetEffect(cfg: Config, s: Servo, w: Write)
    requires Gated(s) && Reported(s) && ResetRequested(MasterWrite(s, w))
    ensures var t := Step(cfg, s, w);
            && t.state == SwitchOnDisabled && t.axis == Axis(s.axis.position, 0.0) && !t.pp.active
            && t.od.rx.controlword == 0 && t.od.rx.mode == CSP == t.od.tx.modeDisplay
            && t.od.rx.targetPosition == s.axis.position == t.od.tx.actualPosition
            && t.od.rx.profileVelocity == (if cfg.pdo == CspBasic then w.rx.profileVelocity else 0.0)
            && t.od.rx.targetVelocity == (if cfg.pdo == MotionServerDefault then 0.0 else w.rx.targetVelocity)
            && Reconfigured(cfg.nonPdo, w.settings, t.od.settings)
            && t.homing.referenced == s.homing.referenced && !ResetRequested(t)
  {
    hide Restored, Reconfigured, FullStatusword, WithinLimits;
    MovingIsEnabled(s);
    RestoredReconfigures(cfg.nonPdo, w.settings);
  }

  // ----- units -----

  function Pow10(n: nat): real { if n == 0 then 1.0 else 10.0 * Pow10(n - 1) }

  lemma {:induction false} TenthsAndTens(n: nat)
    ensures TenToMinus(n) * Pow10(n) == 1.0
    ensures n > 12 ==> TenToMinus(n) <= PICO
  {
    if n > 0 {
      TenthsAndTens(n - 1);
      if n == 13 { Twelve(); }
    }
  }

  lemma {:induction false} Twelve()
    ensures TenToMinus(12) == PICO
  {
    assert TenToMinus(4) == 0.0001;
    assert TenToMinus(8) == 0.00000001;
  }

  lemma {:induction false} AtLeastPico(n: nat)
    requires n <= 12
    ensures TenToMinus(n) >= PICO
  {
    Twelve();
    Falls(n, 12);
  }

  lemma {:induction false} Falls(n: nat, k: nat)
    requires n <= k
    ensures TenToMinus(k) <= TenToMinus(n)
  {
    if n < k { Falls(n, k - 1); }
  }

  /** A unit exponent of either sign up to twelve gives exactly that negative power of ten, a
      larger one 1e-12, a missing one 1. */
  lemma {:induction false} ScaleIsPowerOfTen(exponent: int)
    ensures var n := if exponent > 0 then exponent else -exponent;
            if n <= 12 then UnitScale(Some(exponent)) * Pow10(n) == 1.0 else UnitScale(Some(exponent)) == PICO
    ensures UnitScale(None) == 1.0
  {
    hide TenToMinus, Pow10;
    var n := if exponent > 0 then exponent else -exponent;
    TenthsAndTens(n);
    if n <= 12 { AtLeastPico(n); }
  }
}
