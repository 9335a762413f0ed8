/** The PDS finite state automaton of the virtual drive, driven by controlword 6040h and
    reported through statusword 6041h. `Next` follows the code where it departs from the
    CiA 402 profile: "disable voltage" needs bits 0..2 all clear, no controlword enters
    FAULT, and a clear controlword leaves every state, FAULT included. */
module CiA402 {

  type Word = bv16

  datatype State = SwitchOnDisabled | ReadyToSwitchOn | SwitchedOn | OperationEnabled | Fault

  predicate FaultReset(cw: Word) { cw & 0x0080 != 0 }
  predicate DisableVoltage(cw: Word) { cw & 0x0087 == 0 }
  predicate Shutdown(cw: Word) { cw & 0x0087 == 0x0006 }
  predicate SwitchOn(cw: Word) { cw & 0x008F == 0x0007 }
  predicate EnableOperation(cw: Word) { cw & 0x008F == 0x000F }

  function Next(s: State, cw: Word): State {
    if FaultReset(cw) then (if s == Fault then SwitchOnDisabled else s)
    else if DisableVoltage(cw) then SwitchOnDisabled
    else match s
      case SwitchOnDisabled => if Shutdown(cw) then ReadyToSwitchOn else s
      case ReadyToSwitchOn => if SwitchOn(cw) then SwitchedOn else s
      case SwitchedOn =>
        if EnableOperation(cw) then OperationEnabled else if Shutdown(cw) then ReadyToSwitchOn else s
      case OperationEnabled =>
        if SwitchOn(cw) then SwitchedOn else if Shutdown(cw) then ReadyToSwitchOn else s
      case Fault => s
  }

  function Statusword(s: State): Word {
    match s
    case SwitchOnDisabled => 0x0040
    case ReadyToSwitchOn => 0x0021
    case SwitchedOn => 0x0023
    case OperationEnabled => 0x0027
    case Fault => 0x0008
  }

  class StateMachine {
    var state: State

    constructor ()
      ensures state == SwitchOnDisabled
    {
      state := SwitchOnDisabled;
    }

    method Process(controlword: Word)
      modifies this
      ensures state == Next(old(state), controlword)
    {
      if controlword & 0x0080 != 0 {
        if state == Fault { state := SwitchOnDisabled; }
        return;
      }
      if controlword & 0x0087 == 0 {
        state := SwitchOnDisabled;
        return;
      }
      if state == SwitchOnDisabled {
        if controlword & 0x0087 == 0x0006 { state := ReadyToSwitchOn; }
      } else if state == ReadyToSwitchOn {
        if controlword & 0x008F == 0x0007 { state := SwitchedOn; }
      } else if state == SwitchedOn {
        if controlword & 0x008F == 0x000F { state := OperationEnabled; }
        else if controlword & 0x0087 == 0x0006 { state := ReadyToSwitchOn; }
      } else if state == OperationEnabled {
        if controlword & 0x008F == 0x0007 { state := SwitchedOn; }
        else if controlword & 0x0087 == 0x0006 { state := ReadyToSwitchOn; }
      }
    }

    method GetStatusword() returns (word: Word)
      ensures word == Statusword(state)
    {
      match state {
        case SwitchOnDisabled => word := 0x0040;
        case ReadyToSwitchOn => word := 0x0021;
        case SwitchedOn => word := 0x0023;
        case OperationEnabled => word := 0x0027;
        case Fault => word := 0x0008;
      }
    }
  }

  // ----- controlword traces -----

  /** The state after a controlword trace, starting from power-up. */
  function After(trace: seq<Word>): State {
    if trace == [] then SwitchOnDisabled
    else Next(After(trace[..|trace| - 1]), trace[|trace| - 1])
  }

  /** Nothing after index `i` drops the drive out of the power-up ladder. */
  predicate HeldFrom(trace: seq<Word>, i: int) {
    forall n :: 0 <= n < |trace| && i < n ==> !DisableVoltage(trace[n]) && !Shutdown(trace[n])
  }

  /** The ladder read off the trace alone: the last shutdown, a later switch-on, and a
      still later enable-operation that no switch-on command (disable operation) undoes. */
  predicate LadderAt(trace: seq<Word>, i: int, j: int, k: int) {
    && 0 <= i < j < k < |trace|
    && Shutdown(trace[i]) && HeldFrom(trace, i)
    && SwitchOn(trace[j])
    && EnableOperation(trace[k])
    && forall n :: k < n < |trace| ==> !SwitchOn(trace[n])
  }

  ghost predicate Ladder(trace: seq<Word>) {
    exists i, j, k :: LadderAt(trace, i, j, k)
  }

  /** No controlword enters FAULT, and one leaves it exactly with bit 7 set or bits 0 to 2 clear. */
  lemma {:induction false} FaultIsLeft(s: State, cw: Word)
    ensures Next(s, cw) == Fault <==> s == Fault && cw & 0x0080 == 0 && cw & 0x0007 != 0
    ensures s == Fault && Next(s, cw) != Fault ==> Next(s, cw) == SwitchOnDisabled
  {
    assert cw & 0x0087 == (cw & 0x0080) | (cw & 0x0007);
  }

  lemma {:induction false} NextBits(cw: Word)
    ensures Shutdown(cw) ==> !FaultReset(cw) && !DisableVoltage(cw) && !SwitchOn(cw) && !EnableOperation(cw)
    ensures SwitchOn(cw) ==> !FaultReset(cw) && !DisableVoltage(cw) && !EnableOperation(cw)
    ensures EnableOperation(cw) ==> !FaultReset(cw) && !DisableVoltage(cw)
    ensures DisableVoltage(cw) ==> !FaultReset(cw)
  {
  }

  /** Every state of a power-up trace carries its rungs of the ladder. */
  lemma {:induction false} Climb(trace: seq<Word>) returns (i: int, j: int, k: int)
    ensures After(trace) != Fault
    ensures After(trace) != SwitchOnDisabled ==>
              0 <= i < |trace| && Shutdown(trace[i]) && HeldFrom(trace, i)
    ensures After(trace) == SwitchedOn || After(trace) == OperationEnabled ==>
              i < j < |trace| && SwitchOn(trace[j])
    ensures After(trace) == OperationEnabled ==> LadderAt(trace, i, j, k)
  {
    i, j, k := -1, -1, -1;
    if trace != [] {
      var last := |trace| - 1;
      var cw := trace[last];
      NextBits(cw);
      i, j, k := Climb(trace[..last]);
      if Shutdown(cw) { i := last; }
      if SwitchOn(cw) { j := last; }
      if EnableOperation(cw) && After(trace[..last]) == SwitchedOn { k := last; }
    }
  }

  /** From the shutdown on, each rung of a ladder is reached and kept. */
  lemma {:induction false} Descend(trace: seq<Word>, i: int, j: int, k: int, n: nat)
    requires LadderAt(trace, i, j, k) && i < n <= |trace|
    ensures After(trace[..n]) in {ReadyToSwitchOn, SwitchedOn, OperationEnabled}
    ensures j < n ==> After(trace[..n]) in {SwitchedOn, OperationEnabled}
    ensures k < n ==> After(trace[..n]) == OperationEnabled
  {
    var cw := trace[n - 1];
    NextBits(cw);
    assert trace[..n][..n - 1] == trace[..n - 1];
    if n - 1 == i {
      var i', j', k' := Climb(trace[..n - 1]);
    } else {
      Descend(trace, i, j, k, n - 1);
    }
  }

  /** A controlword trace from power-up ends in OPERATION_ENABLED exactly when it contains
      the power-up ladder. */
  lemma {:induction false} OperationEnabledIffLadder(trace: seq<Word>)
    ensures After(trace) == OperationEnabled <==> Ladder(trace)
    ensures After(trace) != Fault
  {
    var i, j, k := Climb(trace);
    if Ladder(trace) {
      var i', j', k' :| LadderAt(trace, i', j', k');
      Descend(trace, i', j', k', |trace|);
      assert trace[..|trace|] == trace;
    }
  }
}
