/** Homing takes exactly its configured number of cycles and leaves a referenced axis at zero. */
module ServoHoming {
  import opened Basics
  import opened CiA402
  import opened ServoSpec
  import opened ServoSafety
  import opened ServoProfilePosition

  /** The whole cycles in 0.1 s, and at least one. */
  predicate IsHomingTime(n: int, cfg: Config) {
    n >= 1 && (n == 1 || n as real <= 0.1 / cfg.cycleTime) && 0.1 / cfg.cycleTime < (n + 1) as real
  }

  lemma {:induction false} HomingLastsATenth(cfg: Config, n: int)
    ensures IsHomingTime(n, cfg) <==> HomingCycles(cfg) == n
  {
  }

  /** A homing exchange that keeps the drive enabled; targets and settings are free. */
  predicate HomingWrite(w: Write) {
    w.rx.mode == HOMING && Next(OperationEnabled, w.rx.controlword) == OperationEnabled && w.deviceReset != 1
  }

  predicate Starts(s: Servo, w: Write) { Bit4(w.rx.controlword) && !Bit4(s.previousControlword) }

  predicate InHoming(s: Servo) { Gated(s) && s.state == OperationEnabled && s.last.mode == HOMING }

  lemma {:induction false} EnteringHoming(cfg: Config, s: Servo, w: Write)
    requires InHoming(s) && HomingWrite(w)
    ensures var t := Entering(cfg, s, w);
            && InHoming(t) && t.axis == s.axis && t.homing == s.homing
            && (NewSetpoint(t) <==> Starts(s, w)) && t.od.rx.mode == HOMING
  {
    hide Next;
    CommandsEffect(cfg, s, w);
    CommandsKeepGates(cfg, s, w);
    AutomatonKeepsGates(ApplyCommands(cfg, MasterWrite(s, w)));
  }

  /** One exchange of homing, from either side of the start edge. */
  lemma {:induction false} HomingStep(cfg: Config, s: Servo, w: Write)
    requires InHoming(s) && HomingWrite(w)
    ensures var t := Step(cfg, s, w);
            var left := if Starts(s, w) then HomingCycles(cfg) else s.homing.counter;
            && InHoming(t)
            && (if !Starts(s, w) && !s.homing.active then t.homing == s.homing && t.axis == s.axis
                else if left > 1 then
                  && t.homing.active && t.homing.counter == left - 1 && t.axis == s.axis
                  && t.homing.referenced == (s.homing.referenced && !Starts(s, w))
                  && (Starts(s, w) ==> !t.reached.flag)
                else
                  && !t.homing.active && t.homing.referenced && t.axis == Axis(0.0, 0.0)
                  && t.reached.flag && t.od.rx.targetPosition == 0.0)
  {
    hide ApplyCommands, Automaton, FullStatusword;
    EnteringHoming(cfg, s, w);
    ModeKeepsGates(cfg, Entering(cfg, s, w));
  }

  predicate HomingRun(cfg: Config, s: Servo, ws: seq<Write>)
    decreases |ws|
  {
    ws == [] || (&& HomingRun(cfg, s, ws[..|ws| - 1])
                 && HomingWrite(ws[|ws| - 1])
                 && (Starts(Run(cfg, s, ws[..|ws| - 1]), ws[|ws| - 1]) <==> |ws| == 1))
  }

  /** From the exchange that starts homing, the axis stands still and unreferenced for one cycle
      less than the homing duration of 0.1 s, then is at zero, referenced and at rest from there on. */
  lemma {:induction false} HomingTakesItsCycles(cfg: Config, s: Servo, ws: seq<Write>, n: int)
    requires InHoming(s) && ws != [] && HomingRun(cfg, s, ws) && IsHomingTime(n, cfg)
    ensures var t := Run(cfg, s, ws);
            && InHoming(t)
            && (if |ws| < n
                then t.homing == Homing(true, n - |ws|, false, false) && t.axis == s.axis
                else !t.homing.active && t.homing.referenced && t.axis == Axis(0.0, 0.0))
  {
    hide Step, HomingCycles, Starts, Next, IsHomingTime;
    HomingLastsATenth(cfg, n);
    var front := ws[..|ws| - 1];
    if |ws| == 1 {
      assert Run(cfg, s, front) == s;
      HomingStep(cfg, s, ws[0]);
    } else {
      HomingTakesItsCycles(cfg, s, front, n);
      HomingStep(cfg, Run(cfg, s, front), ws[|ws| - 1]);
    }
  }

  lemma {:induction false} HandlerReferences(cfg: Config, s: Servo)
    ensures var t := ProcessMode(cfg, s);
            !s.homing.referenced && t.homing.referenced ==>
              s.od.rx.mode == HOMING && t.state == OperationEnabled && t.axis == Axis(0.0, 0.0) && !t.homing.active
  {
    hide PpAdvance, Decelerate, Travel, RequiredWindowCount, CspVelocity, MoveTowards, RampDelta, HomingCycles, NewSetpoint,
         LimitJog, JogDemand, PvTarget;
    AdvanceKeepsHoming(cfg, PpLatch(s));
    AdvanceKeepsHoming(cfg, s);
    AdvanceKeepsHoming(cfg, PpUnlatch(s));
    AdvanceKeepsHoming(cfg, SetReached(PpUnlatch(s), false));
    AdvanceKeepsHoming(cfg, SetReached(s, false));
  }

  lemma {:induction false} AdvanceKeepsHoming(cfg: Config, s: Servo)
    ensures PpAdvance(cfg, s).homing == s.homing && Decelerate(cfg, s).homing == s.homing
    ensures forall v: real :: Travel(cfg, s, v).homing == s.homing
  {
  }

  /** Exchange `k` of a run completed homing. */
  predicate HomedAt(cfg: Config, s: Servo, ws: seq<Write>, k: nat) {
    && k < |ws| && ws[k].rx.mode == HOMING
    && var t := Run(cfg, s, ws[..k + 1]);
       t.state == OperationEnabled && t.axis == Axis(0.0, 0.0) && t.homing.referenced && !t.homing.active
  }

  /** A reference comes from homing alone: over every run from power-up, a referenced axis means
      that some exchange completed homing, in homing mode, enabled, at zero. */
  lemma {:induction false} ReferenceNeedsHoming(cfg: Config, od: Od, ws: seq<Write>)
    requires Run(cfg, PowerUp(od), ws).homing.referenced
    ensures exists k: nat :: HomedAt(cfg, PowerUp(od), ws, k)
  {
    hide Step, ProcessMode, FullStatusword;
    if ws != [] {
      var n := |ws| - 1;
      var p, w := Run(cfg, PowerUp(od), ws[..n]), ws[n];
      MotionGates(cfg, od, ws[..n]);
      if p.homing.referenced {
        ReferenceNeedsHoming(cfg, od, ws[..n]);
        var k: nat :| HomedAt(cfg, PowerUp(od), ws[..n], k);
        assert ws[..n][..k + 1] == ws[..k + 1];
        assert HomedAt(cfg, PowerUp(od), ws, k);
      } else {
        StepReferences(cfg, p, w);
        assert ws[..n + 1] == ws;
        assert HomedAt(cfg, PowerUp(od), ws, n);
      }
    }
  }

  lemma {:induction false} StepReferences(cfg: Config, s: Servo, w: Write)
    requires Gated(s) && !s.homing.referenced && Step(cfg, s, w).homing.referenced
    ensures w.rx.mode == HOMING
    ensures var t := Step(cfg, s, w); t.state == OperationEnabled && t.axis == Axis(0.0, 0.0) && !t.homing.active
  {
    hide ApplyCommands, ProcessMode, FullStatusword, Next;
    CommandsEffect(cfg, s, w);
    var t := Automaton(ApplyCommands(cfg, MasterWrite(s, w)));
    CommandsKeepGates(cfg, s, w);
    AutomatonKeepsGates(ApplyCommands(cfg, MasterWrite(s, w)));
    HandlerReferences(cfg, t);
    if ResetRequested(MasterWrite(s, w)) { ResetDisables(s.state); ModeKeepsGates(cfg, t); }
  }

  lemma {:induction false} ResetDisables(state: State)
    ensures Next(state, 0) != OperationEnabled
  {
  }
}
