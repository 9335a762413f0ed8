/** The virtual servo as the drive object itself: fields updated in place, cycle by cycle.
    Each method is proved to do what `ServoSpec` says of the drive's whole state. */
module VirtualServo {
  import opened Basics
  import opened CiA402
  import opened ServoSpec

  class VirtualCiA402Servo {
    const cfg: Config
    const sm: StateMachine
    var od: Od
    var axis: Axis
    var pp: ProfileMove
    var homing: Homing
    var reached: Reached
    var limit: LimitFlags
    var last: LastCommands
    var previousControlword: Word
    var haltActive: bool

    ghost function View(): Servo
      reads this, sm
    {
      Servo(od, sm.state, axis, pp, homing, reached, limit, last, previousControlword, haltActive)
    }

    constructor (cfg: Config, od: Od)
      ensures View() == PowerUp(od) && this.cfg == cfg && fresh(sm)
    {
      this.cfg, this.od := cfg, od;
      sm := new StateMachine();
      axis, pp, homing := Axis(0.0, 0.0), ProfileMove(false, 0.0, false), Homing(false, 0, false, false);
      reached, limit := Reached(false, 0), LimitFlags(false, false);
      last := LastCommands(od.rx.mode, od.rx.targetPosition, od.service.deviceReset, od.service.parameterSave);
      previousControlword, haltActive := 0, false;
    }

    method ModelUpdate()
      modifies this, sm
      ensures View() == ServoSpec.ModelUpdate(cfg, old(View()))
    {
      ApplyOdCommands();
      ProcessCycle();
    }

    method ApplyOdCommands()
      modifies this
      ensures View() == ApplyCommands(cfg, old(View()))
    {
      ApplyServiceCommands();
      var requestedMode := od.rx.mode;
      var requestedTarget := od.rx.targetPosition;
      if requestedMode != last.mode {
        SetMode(requestedMode, last.mode);
      }
      if requestedTarget != last.target {
        SetTargetPosition(requestedTarget, last.target);
      }
    }

    method ApplyServiceCommands()
      modifies this
      ensures View() == ServoSpec.ApplyServiceCommands(cfg, old(View()))
    {
      var resetCommand := od.service.deviceReset;
      if resetCommand != last.deviceReset && resetCommand == 1 {
        ApplyDeviceResetResponse();
      }
      last := last.(deviceReset := resetCommand);
      var saveCommand := od.service.parameterSave;
      if saveCommand != last.parameterSave && saveCommand == 1 {
        od := od.(service := od.service.(saveStatus := 0, saveReturnCode := 0, saveReturnValue := 1));
      }
      last := last.(parameterSave := saveCommand);
    }

    method ApplyDeviceResetResponse()
      modifies this
      ensures View() == DeviceReset(cfg, old(View()))
    {
      var currentPosition := od.tx.actualPosition;
      od := od.(settings := Restored(cfg.nonPdo, od.settings));
      // PDO objects return to their defaults; which ones are mapped depends on the configuration.
      var rx := od.rx.(controlword := 0, mode := 8, targetPosition := 0.0);
      if cfg.pdo != CspBasic { rx := rx.(profileVelocity := 0.0); }
      if cfg.pdo == MotionServerDefault { rx := rx.(targetVelocity := 0.0); }
      var tx := TxObjects(0x0040, 8, 0.0, 0.0);
      rx := rx.(targetPosition := currentPosition);
      tx := tx.(actualPosition := currentPosition, statusword := 0x0027, modeDisplay := rx.mode);
      od := od.(rx := rx, tx := tx);
      last := last.(mode := od.rx.mode, target := od.rx.targetPosition);
    }

    method SetMode(mode: int, previousMode: int)
      modifies this
      ensures View() == ServoSpec.SetMode(old(View()), mode, previousMode)
    {
      if mode != previousMode {
        StopAtCurrentPosition();
        if mode != 6 {
          homing := homing.(active := false, error := false);
        }
      }
      od := od.(rx := od.rx.(mode := mode), tx := od.tx.(modeDisplay := mode));
      last := last.(mode := mode);
    }

    method SetTargetPosition(position: real, previousTarget: real)
      modifies this
      ensures View() == ServoSpec.SetTargetPosition(old(View()), position, previousTarget)
    {
      if (od.rx.mode == 1 || od.rx.mode == 8) && !homing.referenced {
        od := od.(rx := od.rx.(targetPosition := previousTarget));
        last := last.(target := previousTarget);
        return;
      }
      if !WithinLimits(od.settings, position) {
        limit := LimitFlags(true, true);
        StopAtCurrentPosition();
        reached := reached.(flag := false);
        return;
      }
      limit := limit.(rejected := false);
      if WithinLimits(od.settings, axis.position) { limit := limit.(warning := false); }
      if position != previousTarget { reached := Reached(false, 0); }
      od := od.(rx := od.rx.(targetPosition := position));
      last := last.(target := position);
    }

    method StopAtCurrentPosition()
      modifies this
      ensures View() == Stop(old(View()))
    {
      axis := axis.(velocity := 0.0);
      pp := pp.(active := false, target := axis.position);
      od := od.(rx := od.rx.(targetPosition := axis.position));
      last := last.(target := axis.position);
      WriteActualFeedback();
      reached := Reached(true, 0);
    }

    method MarkTargetReached()
      modifies this
      ensures View() == UpdateTargetReached(cfg, old(View()))
    {
      if Abs(od.rx.targetPosition - od.tx.actualPosition) <= od.settings.window {
        reached := reached.(counter := reached.counter + 1);
      } else {
        reached := Reached(false, 0);
      }
      var count := (od.settings.windowTime / (cfg.cycleTime * 1000.0)).Floor;
      var requiredCount := if count < 1 then 1 else count;
      if reached.counter >= requiredCount { reached := reached.(flag := true); }
    }

    method ProcessCycle()
      modifies this, sm
      ensures View() == ServoSpec.ProcessCycle(cfg, old(View()))
    {
      RunAutomaton();
      var mode := od.rx.mode;
      if mode == 1 { ProcessPp(); }
      else if mode == 3 { ProcessPv(); }
      else if mode == 8 { ProcessCsp(); }
      else if mode == 6 { ProcessHoming(); }
      else if mode == -3 { ProcessJog(); }
      PublishStatusword();
    }

    method PublishStatusword()
      modifies this
      ensures View() == Publish(old(View()))
    {
      hide AddBits;
      var base := sm.GetStatusword();
      var moving := Abs(axis.velocity) > NANO || pp.active || homing.active;
      var limited := limit.warning || !WithinLimits(od.settings, axis.position);
      var homingFault := od.rx.mode == 6 && homing.error;
      var statusword := AddBits(base, reached.flag, 0x0400);
      statusword := AddBits(statusword, pp.ack, 0x1000);
      statusword := AddBits(statusword, moving, 0x0100);
      statusword := AddBits(statusword, limited, 0x0880);
      statusword := AddBits(statusword, homing.referenced, 0x8000);
      statusword := AddBits(statusword, homingFault, 0x0008);
      od := od.(tx := od.tx.(statusword := statusword));
      previousControlword := od.rx.controlword;
    }

    method RunAutomaton()
      modifies this, sm
      ensures View() == Automaton(old(View()))
    {
      var controlword := od.rx.controlword;
      haltActive := controlword & 0x0100 != 0;
      var before := sm.GetStatusword();
      sm.Process(controlword);
      var now := sm.GetStatusword();
      if before == 0x0027 && now != 0x0027 { StopAtCurrentPosition(); }
    }

    method ProcessHoming()
      modifies this
      ensures View() == ServoSpec.ProcessHoming(cfg, old(View()))
    {
      if sm.state != OperationEnabled { return; }
      if od.rx.controlword & 0x0010 != 0 && previousControlword & 0x0010 == 0 {
        var cycles := (0.1 / cfg.cycleTime).Floor;
        homing := Homing(true, if cycles < 1 then 1 else cycles, false, false);
        axis := axis.(velocity := 0.0);
        WriteActualFeedback();
        reached := reached.(flag := false);
      }
      if !homing.active { return; }
      homing := homing.(counter := homing.counter - 1);
      if homing.counter > 0 { return; }
      axis := Axis(0.0, 0.0);
      od := od.(rx := od.rx.(targetPosition := axis.position));
      WriteActualFeedback();
      reached := reached.(flag := true);
      homing := homing.(active := false, referenced := true);
    }

    method ProcessPp()
      modifies this
      ensures View() == ServoSpec.ProcessPp(cfg, old(View()))
    {
      hide PpAdvance, Decelerate, UpdateTargetReached;
      if sm.state != OperationEnabled { return; }
      if haltActive {
        pp := pp.(active := false, ack := false);
        DecelerateToStop();
        WriteActualFeedback();
        reached := reached.(flag := Abs(axis.velocity) <= NANO);
        return;
      }
      if !homing.referenced {
        pp := pp.(active := false, ack := false);
        reached := reached.(flag := false);
        DecelerateToStop();
        WriteActualFeedback();
        return;
      }
      var startBit := od.rx.controlword & 0x0010 != 0;
      if startBit && previousControlword & 0x0010 == 0 {
        if limit.rejected {
          pp := pp.(active := false, ack := false);
          DecelerateToStop();
          WriteActualFeedback();
          return;
        }
        pp := pp.(active := true, target := od.rx.targetPosition);
        reached := Reached(false, 0);
      }
      pp := pp.(ack := startBit);
      if pp.active { AdvancePp(); } else { DecelerateToStop(); }
      WriteActualFeedback();
      MarkTargetReached();
    }

    /** The velocity of the next profile position cycle. */
    method NextPpVelocity() returns (velocity: real)
      ensures velocity == PpVelocity(cfg, View())
    {
      var target, conf, dt := pp.target, od.settings, cfg.cycleTime;
      var profileVelocity := Abs(od.rx.profileVelocity);
      var maxProfileVelocity := PositiveLimit(conf);
      if target < axis.position && NegativeLimit(conf) > 0.0 { maxProfileVelocity := NegativeLimit(conf); }
      var maxVelocity := if maxProfileVelocity > 0.0 then Min(profileVelocity, maxProfileVelocity)
                         else profileVelocity;
      var error := target - axis.position;
      var direction := if error >= 0.0 then 1.0 else -1.0;
      var desired, rate := direction * maxVelocity, Abs(conf.acceleration);
      if axis.velocity * direction < 0.0 || Abs(error) <= StoppingDistance(conf, axis.velocity, direction) {
        desired, rate := 0.0, Abs(conf.deceleration);
      }
      velocity := MoveTowards(axis.velocity, desired, VelocityDelta(conf, rate, dt));
    }

    method AdvancePp()
      modifies this
      ensures View() == PpAdvance(cfg, old(View()))
    {
      hide PositionRate, VelocityDelta, PpVelocity;
      var target, conf, dt := pp.target, od.settings, cfg.cycleTime;
      var error := target - axis.position;
      if Abs(error) <= Abs(conf.window)
         && Abs(axis.velocity) <= Max(VelocityDelta(conf, Abs(conf.deceleration), dt), NANO) {
        axis := Axis(target, 0.0);
        pp := pp.(active := false);
        return;
      }
      var velocity := NextPpVelocity();
      var nextPosition := axis.position + PositionRate(conf, velocity) * dt;
      if error == 0.0 || error * (target - nextPosition) <= 0.0 {
        axis := Axis(target, 0.0);
        pp := pp.(active := false);
      } else {
        axis := Axis(nextPosition, velocity);
      }
    }

    method DecelerateToStop()
      modifies this
      ensures View() == Decelerate(cfg, old(View()))
    {
      var decel := Abs(od.settings.deceleration);
      axis := axis.(velocity := MoveTowards(axis.velocity, 0.0, VelocityDelta(od.settings, decel, cfg.cycleTime)));
      axis := axis.(position := axis.position + PositionRate(od.settings, axis.velocity) * cfg.cycleTime);
    }

    method WriteActualFeedback()
      modifies this
      ensures View() == WriteFeedback(old(View()))
    {
      od := od.(tx := od.tx.(actualPosition := axis.position, actualVelocity := axis.velocity));
    }

    /** The ramp that profile velocity and jog share. */
    method RampTo(target: real) returns (delta: real)
      modifies this
      ensures View() == Ramp(cfg, old(View()), target)
      ensures delta == RampDelta(cfg, old(View()), target)
    {
      hide PositionRate, VelocityDelta, MoveTowards;
      var rate := if Abs(target) > Abs(axis.velocity) then od.settings.acceleration
                  else od.settings.deceleration;
      delta := VelocityDelta(od.settings, rate, cfg.cycleTime);
      axis := axis.(velocity := MoveTowards(axis.velocity, target, delta));
      axis := axis.(position := axis.position + PositionRate(od.settings, axis.velocity) * cfg.cycleTime);
      WriteActualFeedback();
    }

    method ProcessPv()
      modifies this
      ensures View() == ServoSpec.ProcessPv(cfg, old(View()))
    {
      hide RampDelta, MoveTowards, PositionRate;
      if sm.state != OperationEnabled { return; }
      var target := if haltActive then 0.0 else od.rx.targetVelocity;
      var positive, negative := PositiveLimit(od.settings), NegativeLimit(od.settings);
      if target >= 0.0 && positive > 0.0 { target := Min(target, positive); }
      else if target < 0.0 && negative > 0.0 { target := Max(target, -negative); }
      var delta := RampTo(target);
      reached := reached.(flag := Abs(axis.velocity - target) <= Max(delta, NANO));
    }

    method ProcessJog()
      modifies this
      ensures View() == ServoSpec.ProcessJog(cfg, old(View()))
    {
      hide JogSpeed, RampDelta, MoveTowards, PositionRate;
      if sm.state != OperationEnabled { return; }
      var positive, negative := od.rx.controlword & 0x0010 != 0, od.rx.controlword & 0x0020 != 0;
      var target := 0.0;
      if positive != negative && !haltActive {
        target := if positive then JogSpeed(od) else -JogSpeed(od);
      }
      if Abs(target) <= PICO
         || (target > 0.0 && axis.position >= UpperLimit(od.settings))
         || (target < 0.0 && axis.position <= LowerLimit(od.settings)) {
        target := 0.0;
      }
      var _ := RampTo(target);
      reached := reached.(flag := Abs(axis.velocity) <= NANO);
    }

    method ProcessCsp()
      modifies this
      ensures View() == ServoSpec.ProcessCsp(cfg, old(View()))
    {
      hide PositionRate, CspVelocity, Decelerate, UpdateTargetReached;
      if sm.state != OperationEnabled { return; }
      if haltActive {
        DecelerateToStop();
        WriteActualFeedback();
        reached := reached.(flag := Abs(axis.velocity) <= NANO);
        return;
      }
      if !homing.referenced {
        reached := reached.(flag := false);
        DecelerateToStop();
        WriteActualFeedback();
        return;
      }
      var velocity := NextCspVelocity();
      axis := Axis(axis.position + PositionRate(od.settings, velocity) * cfg.cycleTime, velocity);
      WriteActualFeedback();
      MarkTargetReached();
    }

    method NextCspVelocity() returns (velocity: real)
      ensures velocity == CspVelocity(cfg, View())
    {
      var target, conf := od.rx.targetPosition, od.settings;
      var desired := VelocityOfPositionRate(conf, KP * (target - axis.position));
      var maxVelocity := EffectiveVelocity(od, axis.position, target);
      desired := Max(Min(desired, maxVelocity), -maxVelocity);
      var deltaV := desired - axis.velocity;
      var rate := if Abs(desired) > Abs(axis.velocity) then conf.acceleration else conf.deceleration;
      var maxDeltaV := VelocityDelta(conf, rate, cfg.cycleTime);
      deltaV := Max(Min(deltaV, maxDeltaV), -maxDeltaV);
      velocity := axis.velocity + deltaV;
    }
  }
}
