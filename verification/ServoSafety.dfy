/** Safety of the drive over whole runs: what every exchange keeps, whatever the master
    writes into the object dictionary between cycles. */
module ServoSafety {
  import opened Basics
  import opened CiA402
  import opened ServoSpec

  // ----- arithmetic of one ramp step -----

  lemma {:induction false} ScaledSign(x: real, y: real, z: real)
    requires y > 0.0 && z > 0.0
    ensures x > 0.0 ==> x * y / z > 0.0
    ensures x < 0.0 ==> x * y / z < 0.0
    ensures x == 0.0 ==> x * y / z == 0.0
  {
  }

  lemma {:induction false} DeltaSign(conf: Settings, acceleration: real, dt: real)
    requires dt > 0.0
    ensures acceleration > 0.0 ==> VelocityDelta(conf, acceleration, dt) > 0.0
    ensures acceleration >= 0.0 ==> VelocityDelta(conf, acceleration, dt) >= 0.0
  {
    ScaledSign(acceleration, AccelerationScale(conf), VelocityScale(conf));
  }

  lemma {:induction false} MoveTowardsBetween(current: real, target: real, delta: real)
    ensures current <= MoveTowards(current, target, delta) <= target
         || target <= MoveTowards(current, target, delta) <= current
  {
  }

  lemma {:induction false} StandingStill(cfg: Config, s: Servo)
    requires s.axis.velocity == 0.0
    ensures Decelerate(cfg, s) == s
  {
    hide VelocityDelta;
    ScaledSign(0.0, VelocityScale(s.od.settings), PositionScale(s.od.settings));
    assert PositionRate(s.od.settings, 0.0) == 0.0;
    assert 0.0 * cfg.cycleTime == 0.0;
  }

  // ----- motion gates -----

  predicate Moves(mode: int) { mode == PP || mode == PV || mode == CSP || mode == JOG }

  /** Motion needs an enabled drive and a motion mode; PP and CSP also need a reference. */
  predicate MotionAllowed(s: Servo) {
    s.state == OperationEnabled && Moves(s.last.mode)
    && (s.last.mode == PP || s.last.mode == CSP ==> s.homing.referenced)
  }

  /** The invariant of the drive between exchanges. */
  predicate Gated(s: Servo) {
    && (s.axis.velocity != 0.0 ==> MotionAllowed(s))
    && (s.pp.active ==> MotionAllowed(s) && s.last.mode == PP)
    && s.od.rx.mode == s.last.mode
    && !s.homing.error
    && s.state != Fault
  }

  /** Between the commands and the automaton: a device reset has swapped the mode without
      stopping the axis, but has also cleared the controlword. */
  predicate Commanded(s: Servo) {
    && s.od.rx.mode == s.last.mode
    && !s.homing.error
    && s.state != Fault
    && if s.od.rx.controlword == 0 then s.axis.velocity != 0.0 || s.pp.active ==> s.state == OperationEnabled
       else Gated(s)
  }

  /** The axis was left alone, or stopped where it stands. */
  predicate KeptOrStopped(s: Servo, t: Servo) {
    && t.axis.position == s.axis.position
    && ((t.axis == s.axis && t.pp == s.pp) || (t.axis.velocity == 0.0 && !t.pp.active))
    && t.state == s.state
    && t.homing.referenced == s.homing.referenced
    && (t.homing.error ==> s.homing.error)
    && t.previousControlword == s.previousControlword
  }

  lemma {:induction false} SetModeEffect(s: Servo, mode: int)
    requires mode != s.last.mode
    ensures var t := SetMode(s, mode, s.last.mode);
            && KeptOrStopped(s, t) && t.axis.velocity == 0.0 && !t.pp.active
            && t.od.rx.mode == t.last.mode == mode
            && t.od.rx == s.od.rx.(mode := mode, targetPosition := s.axis.position)
            && t.od.settings == s.od.settings && t.limit == s.limit && t.last.target == s.axis.position
            && t.reached == Reached(true, 0) && t.homing.active == (s.homing.active && mode == HOMING)
  {
  }

  lemma {:induction false} SetTargetEffect(s: Servo, target: real)
    ensures var t := SetTargetPosition(s, target, s.last.target);
            && KeptOrStopped(s, t) && t.last.mode == s.last.mode
            && (WithinLimits(s.od.settings, target) ==> t.axis == s.axis && t.pp == s.pp)
            && t.homing == s.homing
            && (s.homing.referenced ==>
                  t.reached == if target == s.last.target && WithinLimits(s.od.settings, target) then s.reached else Reached(false, 0))
            && t.od.rx == s.od.rx.(targetPosition := t.od.rx.targetPosition)
            && t.od.settings == s.od.settings
            && (s.homing.referenced ==>
                  && (t.limit.rejected <==> !WithinLimits(s.od.settings, target))
                  && (t.limit.warning <==> !WithinLimits(s.od.settings, target)
                                           || (s.limit.warning && !WithinLimits(s.od.settings, s.axis.position)))
                  && (!t.limit.rejected ==> t.od.rx.targetPosition == t.last.target == target))
  {
  }

  /** What the object dictionary commands of one exchange do to the axis. */
  lemma {:induction false} CommandsEffect(cfg: Config, s: Servo, w: Write)
    requires s.od.rx.mode == s.last.mode
    ensures var m := MasterWrite(s, w);
            var t := ApplyCommands(cfg, m);
            && KeptOrStopped(s, t)
            && t.od.rx.mode == t.last.mode
            && (ResetRequested(m) ==>
                  t.od.rx.controlword == 0
                  && t.od.settings == Restored(cfg.nonPdo, w.settings))
            && (!ResetRequested(m) ==>
                  && t.od.rx == w.rx.(targetPosition := t.od.rx.targetPosition)
                  && t.od.settings == w.settings
                  && (w.rx.mode != s.last.mode ==> t.axis.velocity == 0.0 && !t.pp.active)
                  && t.homing.active == (s.homing.active && (w.rx.mode == s.last.mode || w.rx.mode == HOMING))
                  && (w.rx.mode == s.last.mode
                      && (w.rx.targetPosition == s.last.target || WithinLimits(w.settings, w.rx.targetPosition))
                      ==> t.axis == s.axis && t.pp == s.pp))
  {
    hide SetMode, SetTargetPosition, WithinLimits, ApplyServiceCommands, KeptOrStopped;
    var m := MasterWrite(s, w);
    var t := ApplyServiceCommands(cfg, m);
    ServiceEffect(cfg, m);
    if t.od.rx.mode != t.last.mode { SetModeEffect(t, t.od.rx.mode); }
    var u := if t.od.rx.mode != t.last.mode then SetMode(t, t.od.rx.mode, t.last.mode) else t;
    SetTargetEffect(u, t.od.rx.targetPosition);
    var v := ApplyCommands(cfg, m);
    assert v == (if t.od.rx.targetPosition != u.last.target
                 then SetTargetPosition(u, t.od.rx.targetPosition, u.last.target) else u);
    Chained(s, t, u, v);
  }

  lemma {:induction false} ServiceEffect(cfg: Config, m: Servo)
    ensures var t := ApplyServiceCommands(cfg, m);
            && t == m.(od := t.od, last := t.last)
            && t.limit == m.limit
            && (ResetRequested(m) ==>
                  && t.od.rx.controlword == 0 && t.od.rx.mode == t.last.mode && t.last.target == t.od.rx.targetPosition
                  && t.od.settings == Restored(cfg.nonPdo, m.od.settings))
            && (!ResetRequested(m) ==>
                  t.od.rx == m.od.rx && t.od.settings == m.od.settings
                  && t.last.mode == m.last.mode && t.last.target == m.last.target)
  {
  }

  lemma {:induction false} Chained(s: Servo, t: Servo, u: Servo, v: Servo)
    requires t.axis == s.axis && t.pp == s.pp && t.state == s.state && t.homing == s.homing
    requires t.previousControlword == s.previousControlword
    requires u == t || KeptOrStopped(t, u)
    requires v == u || KeptOrStopped(u, v)
    ensures KeptOrStopped(s, v)
    ensures u.axis.velocity == 0.0 && !u.pp.active ==> v.axis.velocity == 0.0 && !v.pp.active
  {
  }

  /** The target an exchange finds in force: a mode change stops the axis and takes its position. */
  function TargetInForce(s: Servo, w: Write): real {
    if w.rx.mode != s.last.mode then s.axis.position else s.last.target
  }

  /** A changed target must lie inside the software limits, an unchanged one must not be the
      leftover of a rejected one. */
  predicate TakesTarget(s: Servo, w: Write) {
    if w.rx.targetPosition != TargetInForce(s, w) then WithinLimits(w.settings, w.rx.targetPosition)
    else !s.limit.rejected
  }

  /** On a referenced axis a target is taken exactly under that condition. */
  lemma {:induction false} TargetTaken(cfg: Config, s: Servo, w: Write)
    requires s.od.rx.mode == s.last.mode && s.homing.referenced && !ResetRequested(MasterWrite(s, w))
    ensures var t := ApplyCommands(cfg, MasterWrite(s, w));
            && (t.limit.rejected <==> !TakesTarget(s, w))
            && (t.limit.warning <==>
                  if w.rx.targetPosition == TargetInForce(s, w) then s.limit.warning
                  else !WithinLimits(w.settings, w.rx.targetPosition)
                       || (s.limit.warning && !WithinLimits(w.settings, s.axis.position)))
            && t.reached == (if w.rx.targetPosition != TargetInForce(s, w) then Reached(false, 0)
                             else if w.rx.mode != s.last.mode then Reached(true, 0) else s.reached)
            && (TakesTarget(s, w) ==>
                  && t.od.rx.targetPosition == t.last.target == w.rx.targetPosition
                  && (w.rx.mode == s.last.mode ==> t.axis == s.axis && t.pp == s.pp))
  {
    hide SetMode, SetTargetPosition, WithinLimits, ApplyServiceCommands, ResetRequested;
    var m := MasterWrite(s, w);
    var t := ApplyServiceCommands(cfg, m);
    ServiceEffect(cfg, m);
    if t.od.rx.mode != t.last.mode { SetModeEffect(t, t.od.rx.mode); }
    var u := if t.od.rx.mode != t.last.mode then SetMode(t, t.od.rx.mode, t.last.mode) else t;
    assert u.last.target == TargetInForce(s, w) && u.limit == s.limit;
    SetTargetEffect(u, t.od.rx.targetPosition);
    assert ApplyCommands(cfg, m) == (if t.od.rx.targetPosition != u.last.target
                                     then SetTargetPosition(u, t.od.rx.targetPosition, u.last.target) else u);
  }

  /** An unreferenced axis in PP or CSP takes no target: the one in force stays, and with it the
      limit flags. */
  lemma {:induction false} UnreferencedTargetHeld(cfg: Config, s: Servo, w: Write)
    requires s.od.rx.mode == s.last.mode && !s.homing.referenced && !ResetRequested(MasterWrite(s, w))
    requires w.rx.mode == PP || w.rx.mode == CSP
    ensures var t := ApplyCommands(cfg, MasterWrite(s, w));
            t.od.rx.targetPosition == t.last.target == TargetInForce(s, w) && t.limit == s.limit
  {
    hide SetMode, WithinLimits, ApplyServiceCommands, ResetRequested;
    var m := MasterWrite(s, w);
    var t := ApplyServiceCommands(cfg, m);
    ServiceEffect(cfg, m);
    if t.od.rx.mode != t.last.mode { SetModeEffect(t, t.od.rx.mode); }
    var u := if t.od.rx.mode != t.last.mode then SetMode(t, t.od.rx.mode, t.last.mode) else t;
    assert u.last.target == TargetInForce(s, w) && u.limit == s.limit;
  }

  lemma {:induction false} CommandsKeepGates(cfg: Config, s: Servo, w: Write)
    requires Gated(s)
    ensures var t := ApplyCommands(cfg, MasterWrite(s, w));
            Commanded(t) && t.axis.position == s.axis.position && t.state == s.state
  {
    hide ApplyCommands;
    CommandsEffect(cfg, s, w);
  }

  lemma {:induction false} AutomatonKeepsGates(s: Servo)
    requires Commanded(s)
    ensures Gated(Automaton(s)) && Automaton(s).axis.position == s.axis.position
  {
  }

  lemma {:induction false} PpKeepsGates(cfg: Config, s: Servo)
    requires Gated(s) && s.last.mode == PP
    ensures Gated(ProcessPp(cfg, s)) && ProcessPp(cfg, s).state == s.state
  {
    hide VelocityDelta, PositionRate, PpVelocity, MoveTowards, PpInWindow;
    if s.axis.velocity == 0.0 {
      StandingStill(cfg, PpUnlatch(s));
      StandingStill(cfg, SetReached(PpUnlatch(s), false));
    }
  }

  lemma {:induction false} CspKeepsGates(cfg: Config, s: Servo)
    requires Gated(s) && s.last.mode == CSP
    ensures Gated(ProcessCsp(cfg, s)) && ProcessCsp(cfg, s).state == s.state
  {
    hide VelocityDelta, PositionRate, CspVelocity, MoveTowards;
    if s.axis.velocity == 0.0 {
      StandingStill(cfg, s);
      StandingStill(cfg, SetReached(s, false));
    }
  }

  lemma {:induction false} ModeKeepsGates(cfg: Config, s: Servo)
    requires Gated(s)
    ensures var t := ProcessMode(cfg, s);
            Gated(t) && t.state == s.state
            && (s.state != OperationEnabled ==> t == s)
  {
    hide VelocityDelta, PositionRate, MoveTowards, Decelerate, PpAdvance, CspVelocity;
    if s.last.mode == PP { PpKeepsGates(cfg, s); }
    if s.last.mode == CSP { CspKeepsGates(cfg, s); }
  }

  /** One exchange keeps the gates, and moves the axis only if it leaves the drive enabled. */
  lemma {:induction false} StepKeepsGates(cfg: Config, s: Servo, w: Write)
    requires Gated(s)
    ensures Gated(Step(cfg, s, w))
    ensures Step(cfg, s, w).state != OperationEnabled ==> Step(cfg, s, w).axis.position == s.axis.position
  {
    hide ApplyCommands, Automaton, ProcessMode, FullStatusword;
    var t := ApplyCommands(cfg, MasterWrite(s, w));
    CommandsKeepGates(cfg, s, w);
    AutomatonKeepsGates(t);
    ModeKeepsGates(cfg, Automaton(t));
  }

  /** Over every run from power-up, after every exchange: an axis that is not enabled is at
      rest, has no set-point latched and was not moved by that exchange; an unreferenced
      axis in PP or CSP is at rest, device resets included. */
  lemma {:induction false} MotionGates(cfg: Config, od: Od, ws: seq<Write>)
    ensures var s := Run(cfg, PowerUp(od), ws);
            && Gated(s)
            && (s.state != OperationEnabled ==>
                  && s.axis.velocity == 0.0 && !s.pp.active
                  && (ws != [] ==> s.axis.position == Run(cfg, PowerUp(od), ws[..|ws| - 1]).axis.position))
            && (s.od.rx.mode in {PP, CSP} && !s.homing.referenced ==> s.axis.velocity == 0.0)
  {
    if ws != [] {
      MotionGates(cfg, od, ws[..|ws| - 1]);
      StepKeepsGates(cfg, Run(cfg, PowerUp(od), ws[..|ws| - 1]), ws[|ws| - 1]);
    }
  }

  // ----- the automaton behind the drive -----

  /** The controlword the automaton really sees: a device reset clears it first. */
  function SeenControlword(s: Servo, w: Write): Word {
    if ResetRequested(MasterWrite(s, w)) then 0 else w.rx.controlword
  }

  function SeenControlwords(cfg: Config, s: Servo, ws: seq<Write>): seq<Word>
    decreases |ws|
  {
    if ws == [] then []
    else
      var front := ws[..|ws| - 1];
      SeenControlwords(cfg, s, front) + [SeenControlword(Run(cfg, s, front), ws[|ws| - 1])]
  }

  lemma {:induction false} StepFollowsAutomaton(cfg: Config, s: Servo, w: Write)
    requires Gated(s)
    ensures Step(cfg, s, w).state == Next(s.state, SeenControlword(s, w))
  {
    hide ApplyCommands, ProcessMode, FullStatusword, Next;
    CommandsEffect(cfg, s, w);
    var t := ApplyCommands(cfg, MasterWrite(s, w));
    CommandsKeepGates(cfg, s, w);
    AutomatonKeepsGates(t);
    ModeKeepsGates(cfg, Automaton(t));
  }

  lemma {:induction false} RunFollowsAutomaton(cfg: Config, od: Od, ws: seq<Write>)
    ensures Run(cfg, PowerUp(od), ws).state == After(SeenControlwords(cfg, PowerUp(od), ws))
  {
    hide Step, Next, SeenControlword;
    if ws != [] {
      var front := ws[..|ws| - 1];
      RunFollowsAutomaton(cfg, od, front);
      MotionGates(cfg, od, front);
      StepFollowsAutomaton(cfg, Run(cfg, PowerUp(od), front), ws[|ws| - 1]);
      var seen := SeenControlwords(cfg, PowerUp(od), ws);
      assert seen[..|seen| - 1] == SeenControlwords(cfg, PowerUp(od), front);
    }
  }

  /** A moving axis proves the ladder: over every run, motion after an exchange means that the
      controlwords seen so far contain shutdown, switch-on and enable operation, in that order
      and not undone. */
  lemma {:induction false} MotionNeedsLadder(cfg: Config, od: Od, ws: seq<Write>)
    requires var s := Run(cfg, PowerUp(od), ws); s.axis.velocity != 0.0 || s.pp.active
    ensures Ladder(SeenControlwords(cfg, PowerUp(od), ws))
  {
    hide Run, SeenControlwords, Ladder;
    MotionGates(cfg, od, ws);
    RunFollowsAutomaton(cfg, od, ws);
    OperationEnabledIffLadder(SeenControlwords(cfg, PowerUp(od), ws));
  }

  // ----- statusword -----

  function StateBits(word: Word): Word { word & 0x006F }

  /** The automaton state, as read back by a master that masks the statusword with 006Fh. */
  function StateOfStatusword(word: Word): Option<State> {
    var masked := StateBits(word);
    if masked == 0x0040 then Some(SwitchOnDisabled)
    else if masked == 0x0021 then Some(ReadyToSwitchOn)
    else if masked == 0x0023 then Some(SwitchedOn)
    else if masked == 0x0027 then Some(OperationEnabled)
    else if masked == 0x0008 then Some(Fault)
    else None
  }

  lemma {:induction false} AddedBitsAreMasked(word: Word, condition: bool)
    ensures StateBits(AddBits(word, condition, 0x0400)) == StateBits(word)
    ensures StateBits(AddBits(word, condition, 0x1000)) == StateBits(word)
    ensures StateBits(AddBits(word, condition, 0x0100)) == StateBits(word)
    ensures StateBits(AddBits(word, condition, 0x0880)) == StateBits(word)
    ensures StateBits(AddBits(word, condition, 0x8000)) == StateBits(word)
    ensures AddBits(word, false, 0x0008) == word
  {
  }

  lemma {:induction false} StatusBitsAreMasked(base: Word, targetReached: bool, ack: bool, moving: bool,
                                               limited: bool, referenced: bool)
    ensures StateBits(StatusBits(base, targetReached, ack, moving, limited, referenced, false)) == StateBits(base)
  {
    hide AddBits, StateBits;
    var w1 := AddBits(base, targetReached, 0x0400);
    var w2 := AddBits(w1, ack, 0x1000);
    var w3 := AddBits(w2, moving, 0x0100);
    var w4 := AddBits(w3, limited, 0x0880);
    var w5 := AddBits(w4, referenced, 0x8000);
    AddedBitsAreMasked(base, targetReached);
    AddedBitsAreMasked(w1, ack);
    AddedBitsAreMasked(w2, moving);
    AddedBitsAreMasked(w3, limited);
    AddedBitsAreMasked(w4, referenced);
    AddedBitsAreMasked(w5, false);
  }

  lemma {:induction false} StatuswordMasks(s: Servo)
    requires !s.homing.error
    ensures StateBits(FullStatusword(s)) == Statusword(s.state)
  {
    hide StatusBits, IsMoving, SoftwareLimitActive;
    assert StateBits(Statusword(s.state)) == Statusword(s.state);
    StatusBitsAreMasked(Statusword(s.state), s.reached.flag, s.pp.ack, IsMoving(s), SoftwareLimitActive(s),
                        s.homing.referenced);
  }

  /** After every exchange of every run, the published statusword gives the state back. */
  lemma {:induction false} StatuswordRecoversState(cfg: Config, od: Od, ws: seq<Write>)
    requires ws != []
    ensures var s := Run(cfg, PowerUp(od), ws);
            StateOfStatusword(s.od.tx.statusword) == Some(s.state) && s.state != Fault
  {
    hide ApplyCommands, Automaton, ProcessMode, FullStatusword;
    var s := Run(cfg, PowerUp(od), ws[..|ws| - 1]);
    var t := ApplyCommands(cfg, MasterWrite(s, ws[|ws| - 1]));
    MotionGates(cfg, od, ws);
    StatuswordMasks(ProcessMode(cfg, Automaton(t)));
  }

  // ----- velocity envelope -----

  predicate LimitsAre(conf: Settings, positive: real, negative: real) {
    PositiveLimit(conf) == positive && NegativeLimit(conf) == negative
  }

  /** The settings have both velocity limits, and unsigned values in 6083h and 6084h. */
  predicate Limited(conf: Settings, positive: real, negative: real) {
    LimitsAre(conf, positive, negative) && Unsigned(conf)
  }

  /** A device reset does not bring in other velocity limits, or signed rates. */
  predicate ResetKeepsLimits(cfg: Config, positive: real, negative: real) {
    var c := cfg.nonPdo;
    && (c.positiveVelocityLimit.Some? ==> Abs(c.positiveVelocityLimit.value) == positive)
    && (c.negativeVelocityLimit.Some? ==> Abs(c.negativeVelocityLimit.value * 1000.0) == negative)
    && (c.acceleration.Some? ==> c.acceleration.value >= 0.0)
    && (c.deceleration.Some? ==> c.deceleration.value >= 0.0)
  }

  predicate Unsigned(conf: Settings) { conf.acceleration >= 0.0 && conf.deceleration >= 0.0 }

  predicate InEnvelope(s: Servo, positive: real, negative: real) {
    -negative <= s.axis.velocity <= positive
  }

  predicate Configured(s: Servo, positive: real, negative: real) {
    positive > 0.0 && negative > 0.0 && Limited(s.od.settings, positive, negative)
  }

  lemma {:induction false} PpKeepsEnvelope(cfg: Config, s: Servo, positive: real, negative: real)
    requires Configured(s, positive, negative) && InEnvelope(s, positive, negative)
    ensures InEnvelope(PpAdvance(cfg, s), positive, negative)
  {
    hide VelocityDelta, StoppingDistance, PositionRate, PpInWindow;
    var conf, v := s.od.settings, s.axis.velocity;
    var direction := if s.pp.target - s.axis.position >= 0.0 then 1.0 else -1.0;
    var wanted := direction * EffectiveVelocity(s.od, s.axis.position, s.pp.target);
    assert -negative <= wanted <= positive;
    MoveTowardsBetween(v, 0.0, VelocityDelta(conf, Abs(conf.deceleration), cfg.cycleTime));
    MoveTowardsBetween(v, wanted, VelocityDelta(conf, Abs(conf.acceleration), cfg.cycleTime));
  }

  lemma {:induction false} VelocitySign(conf: Settings, rate: real)
    ensures rate < 0.0 ==> VelocityOfPositionRate(conf, rate) < 0.0
    ensures rate >= 0.0 ==> VelocityOfPositionRate(conf, rate) >= 0.0
  {
    ScaledSign(rate, PositionScale(conf), VelocityScale(conf));
  }

  lemma {:induction false} CspDemandInLimits(s: Servo, positive: real, negative: real)
    requires Configured(s, positive, negative)
    ensures -negative <= CspDemand(s) <= positive
  {
    hide VelocityOfPositionRate, PositiveLimit, NegativeLimit;
    var conf, error := s.od.settings, s.od.rx.targetPosition - s.axis.position;
    VelocitySign(conf, KP * error);
  }

  lemma {:induction false} CspKeepsEnvelope(cfg: Config, s: Servo, positive: real, negative: real)
    requires Configured(s, positive, negative) && InEnvelope(s, positive, negative)
    ensures -negative <= CspVelocity(cfg, s) <= positive
  {
    hide VelocityDelta, CspDemand;
    var conf := s.od.settings;
    CspDemandInLimits(s, positive, negative);
    DeltaSign(conf, conf.acceleration, cfg.cycleTime);
    DeltaSign(conf, conf.deceleration, cfg.cycleTime);
  }

  lemma {:induction false} RampKeepsEnvelope(cfg: Config, s: Servo, positive: real, negative: real)
    requires Configured(s, positive, negative) && InEnvelope(s, positive, negative)
    ensures InEnvelope(Ramp(cfg, s, PvTarget(s)), positive, negative)
    ensures InEnvelope(Ramp(cfg, s, LimitJog(s, JogDemand(s))), positive, negative)
    ensures InEnvelope(Decelerate(cfg, s), positive, negative)
  {
    hide VelocityDelta, PositionRate;
    var conf, v := s.od.settings, s.axis.velocity;
    var cap := JogCap(s.od);
    assert 0.0 < cap <= positive && cap <= negative;
    assert 0.0 <= JogSpeed(s.od) <= cap;
    MoveTowardsBetween(v, PvTarget(s), RampDelta(cfg, s, PvTarget(s)));
    var demand := LimitJog(s, JogDemand(s));
    MoveTowardsBetween(v, demand, RampDelta(cfg, s, demand));
    MoveTowardsBetween(v, 0.0, VelocityDelta(conf, Abs(conf.deceleration), cfg.cycleTime));
  }

  lemma {:induction false} ProcessPpKeepsEnvelope(cfg: Config, s: Servo, positive: real, negative: real)
    requires Configured(s, positive, negative) && InEnvelope(s, positive, negative)
    ensures InEnvelope(ProcessPp(cfg, s), positive, negative)
  {
    hide PpAdvance, Decelerate, RequiredWindowCount, PositiveLimit, NegativeLimit;
    PpKeepsEnvelope(cfg, PpLatch(s), positive, negative);
    RampKeepsEnvelope(cfg, PpLatch(s), positive, negative);
    RampKeepsEnvelope(cfg, PpUnlatch(s), positive, negative);
    RampKeepsEnvelope(cfg, SetReached(PpUnlatch(s), false), positive, negative);
  }

  lemma {:induction false} ModeKeepsEnvelope(cfg: Config, s: Servo, positive: real, negative: real)
    requires Configured(s, positive, negative) && InEnvelope(s, positive, negative)
    ensures InEnvelope(ProcessMode(cfg, s), positive, negative)
  {
    hide ProcessPp, CspVelocity, Ramp, RampDelta, Decelerate, PositionRate, PvTarget, JogDemand, LimitJog,
         PositiveLimit, NegativeLimit;
    ProcessPpKeepsEnvelope(cfg, s, positive, negative);
    CspKeepsEnvelope(cfg, s, positive, negative);
    RampKeepsEnvelope(cfg, s, positive, negative);
    RampKeepsEnvelope(cfg, SetReached(s, false), positive, negative);
  }

  lemma {:induction false} StepKeepsEnvelope(cfg: Config, s: Servo, w: Write, positive: real, negative: real)
    requires positive > 0.0 && negative > 0.0 && ResetKeepsLimits(cfg, positive, negative)
    requires Limited(w.settings, positive, negative)
    requires InEnvelope(s, positive, negative) && s.od.rx.mode == s.last.mode
    ensures InEnvelope(Step(cfg, s, w), positive, negative)
  {
    hide ApplyCommands, ProcessMode, FullStatusword;
    CommandsEffect(cfg, s, w);
    var t := Automaton(ApplyCommands(cfg, MasterWrite(s, w)));
    assert Configured(t, positive, negative) && InEnvelope(t, positive, negative);
    ModeKeepsEnvelope(cfg, t, positive, negative);
  }

  /** With both velocity limits kept non-zero, every exchange of every run leaves the velocity
      between them, over any interleaving of modes, halts, resets, enabling and disabling. */
  lemma {:induction false} VelocityEnvelope(cfg: Config, od: Od, ws: seq<Write>, positive: real, negative: real)
    requires positive > 0.0 && negative > 0.0 && ResetKeepsLimits(cfg, positive, negative)
    requires forall w :: w in ws ==> Limited(w.settings, positive, negative)
    ensures InEnvelope(Run(cfg, PowerUp(od), ws), positive, negative)
  {
    if ws != [] {
      VelocityEnvelope(cfg, od, ws[..|ws| - 1], positive, negative);
      MotionGates(cfg, od, ws[..|ws| - 1]);
      StepKeepsEnvelope(cfg, Run(cfg, PowerUp(od), ws[..|ws| - 1]), ws[|ws| - 1], positive, negative);
    }
  }
}
