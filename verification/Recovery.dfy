/** Bus loss, bus reconnect and axis restart on top of the master. What the environment decides
    (which attempts succeed, what each cycle reports, whether a deadline passes) is input;
    a sequence that runs out stands for its deadline passing. */
module Recovery {
  import opened Basics
  import opened MasterSpec

  datatype RuntimeState = Normal | InitializationError | BusDisconnected | FaultState

  /** What recovery sees of the master. */
  datatype Bus = Bus(connected: bool, state: BusState, phase: Phase)

  const CLOSED_BUS := Bus(false, Closed, Idle)
  const RUNNING_BUS := Bus(true, Op, Idle)

  const STABLE_CYCLES := 3

  /** One prepare - send - receive on an open, idle bus: a communication exception or another
      one, each leaving some phase behind, or a working counter. */
  datatype CycleOutcome =
    | CommunicationLost(phase: Phase)
    | Crashed(phase: Phase)
    | Completed(actual: int, expected: int)

  function ExchangeBus(b: Bus, c: CycleOutcome): (Bus, Outcome) {
    if !b.connected then (b, CommunicationError)
    else if b.phase != Idle then (b, OtherError)
    else match c
      case CommunicationLost(phase) => (b.(phase := phase), CommunicationError)
      case Crashed(phase) => (b.(phase := phase), OtherError)
      case Completed(_, _) => (b, Done)
  }

  // ----- the abstraction is the master's -----

  function BusOf<R, T, E>(m: Master<R, T, E>): Bus { Bus(m.connected, m.bus, m.phase) }

  /** The three calls of one exchange, up to the first that is refused. */
  function ExchangeOnce<R, T, E>(ps: Profiles<R, T, E>, m: Master<R, T, E>): (Master<R, T, E>, Outcome)
    requires Wired(ps, m)
  {
    var (prepared, p) := AfterPrepare(ps, m);
    if !p.Done? then (prepared, p)
    else
      var (sent, s) := AfterSend(prepared);
      if !s.Done? then (sent, s) else AfterReceive(ps, sent)
  }

  /** The master with the encodings of its slaves under way. */
  function Transmitted<R, T, E>(ps: Profiles<R, T, E>, m: Master<R, T, E>): (r: Master<R, T, E>)
    requires Wired(ps, m)
    ensures Wired(ps, r)
  {
    AfterSend(AfterPrepare(ps, m).0).0
  }

  /** Every endpoint answers, with enough bytes for its decoder, which gets through. */
  predicate AnswersWell<R, T, E>(ps: Profiles<R, T, E>, m: Master<R, T, E>)
    requires Wired(ps, m)
  {
    AllAnswer(ps, m) && LongEnough(ps, m) && AllDecode(ps, m)
  }

  /** An exchange of the master is one of the outcomes assumed here, exactly which depends on the
      encoders and the slaves' answers, and close, connect and enter operational act as assumed. */
  lemma {:induction false} ExchangeIsAnOutcome<R, T, E>(ps: Profiles<R, T, E>, m: Master<R, T, E>) returns (c: CycleOutcome)
    requires Wired(ps, m)
    ensures (BusOf(ExchangeOnce(ps, m).0), ExchangeOnce(ps, m).1) == ExchangeBus(BusOf(m), c)
    ensures m.connected && m.phase == Idle && c.Completed? ==>
              c == Completed(ExchangeOnce(ps, m).0.workingCounter, |ps|) && Full(c) == (|ps| > 0)
    ensures m.connected && m.phase == Idle ==>
              var sent := Transmitted(ps, m);
              && (c == Completed(|ps|, |ps|) <==> AllEncode(ps, m) && AnswersWell(ps, sent))
              && (c == CommunicationLost(Sent) <==> AllEncode(ps, m) && LosesConnection(ps, sent))
              && (c == Crashed(Sent) <==> AllEncode(ps, m) && !LosesConnection(ps, sent) && !AnswersWell(ps, sent))
              && (c == Crashed(Idle) <==> !AllEncode(ps, m))
    ensures BusOf(AfterClose(m)) == CLOSED_BUS
    ensures AfterConnect(m, true, Done).1.Done? && BusOf(AfterConnect(m, true, Done).0) == Bus(true, PreOp, Idle)
    ensures forall o: Outcome :: !o.Done? ==> BusOf(AfterConnect(m, true, o).0) == CLOSED_BUS
    ensures m.bus == PreOp ==> BusOf(AfterEnterOperational(m).0) == Bus(true, Op, m.phase)
  {
    hide Served, Decoded, EndpointsAfter, SlavesAfter, LongEnough, AllEncode, AllAnswer, AllDecode, LosesConnection;
    var (after, outcome) := ExchangeOnce(ps, m);
    c := match outcome
      case Done => Completed(|ps|, |ps|)
      case CommunicationError => CommunicationLost(after.phase)
      case OtherError => Crashed(after.phase);
    OutcomesExactly(ps, m);
    OutcomesExactly(ps, Transmitted(ps, m));
    RefusalsCommitNothing(ps, Transmitted(ps, m));
  }

  // ----- waiting for stable process data -----

  predicate Full(c: CycleOutcome) { c.Completed? && c.expected > 0 && c.actual == c.expected }

  /** Three full working counters in a row end at cycle `k`, and no earlier cycle raised. */
  predicate StableAt(cycles: seq<CycleOutcome>, k: nat) {
    && 3 <= k <= |cycles|
    && (forall i :: 0 <= i < k ==> cycles[i].Completed?)
    && forall i :: k - 3 <= i < k ==> Full(cycles[i])
  }

  ghost predicate Stabilises(cycles: seq<CycleOutcome>) {
    exists k: nat :: StableAt(cycles, k)
  }

  // ----- the server -----

  datatype Restore = Restore(
    setupOk: bool,               // command clearing, modes and the PRE-OP refresh
    inTime: bool,                // the deadline has not passed before OP
    enterOk: bool,
    cycles: seq<CycleOutcome>,   // exchanges until the deadline
    syncOk: bool)

  /** What the diagnostic monitor does after an exchange: it may raise the global fault, and it
      may end with an exception. */
  datatype Monitor = Monitor(faults: bool, ending: Outcome)

  /** `running` tells whether the server loop goes on. */
  datatype Server = Server(state: RuntimeState, bus: Bus, recovering: bool, running: bool)

  function Disconnected(s: Server): Server { s.(state := BusDisconnected, bus := CLOSED_BUS) }

  /** Rediscovery, restoration and stable process data all succeed. */
  ghost predicate Restores(connects: seq<bool>, r: Restore): (ok: bool)
    ensures ok <==>
              && (exists i :: 0 <= i < |connects| && connects[i])
              && r.setupOk && r.inTime && r.enterOk && r.syncOk
              && exists k: nat :: StableAt(r.cycles, k)
  {
    true in connects && r.setupOk && r.inTime && r.enterOk && Stabilises(r.cycles) && r.syncOk
  }

  /** A request for a runtime that is not the session's, or during another recovery, is refused. */
  ghost function AfterReconnect(s: Server, attached: bool, connects: seq<bool>, r: Restore, late: bool, fault: bool): Server {
    if !attached || s.recovering then s
    else if Restores(connects, r) && !late then s.(state := if fault then FaultState else Normal, bus := RUNNING_BUS)
    else Disconnected(s)
  }

  /** A restart that is late but operational ends in FAULT with the bus running. */
  ghost function AfterRestart(s: Server, attached: bool, connects: seq<bool>, r: Restore, late: bool): Server {
    if !attached || s.recovering then s
    else if Restores(connects, r) then s.(state := if late then FaultState else Normal, bus := RUNNING_BUS)
    else Disconnected(s)
  }

  /** A communication exception of the exchange or the monitor closes the bus. Any other exception
      leaves the server loop, with session and master as they stand. */
  function AfterCycle(s: Server, c: CycleOutcome, monitor: Monitor): Server {
    var (bus, exchange) := ExchangeBus(s.bus, c);
    if exchange == CommunicationError then Disconnected(s)
    else if exchange == OtherError then s.(bus := bus, running := false)
    else if monitor.ending == CommunicationError then Disconnected(s)
    else Server(if monitor.faults then FaultState else s.state, bus, s.recovering, s.running && monitor.ending.Done?)
  }

  /** Acknowledging the server's or the bus's faults clears FAULT when no global one is left. */
  function AfterFaultReset(s: Server, globalFault: bool): Server {
    if !globalFault && s.state == FaultState then s.(state := Normal) else s
  }

  class ServerSession {
    var state: RuntimeState
    var bus: Bus
    var recovering: bool
    var running: bool

    ghost function View(): Server
      reads this
    {
      Server(state, bus, recovering, running)
    }

    /** Attached to a connected runtime whose start-up has completed. */
    constructor ()
      ensures View() == Server(Normal, RUNNING_BUS, false, true)
    {
      state, bus, recovering, running := Normal, RUNNING_BUS, false, true;
    }

    method CloseBus()
      modifies this`bus
      ensures bus == CLOSED_BUS
    {
      bus := bus.(connected := false, state := Closed);
      bus := bus.(phase := Idle);
    }

    method Exchange(c: CycleOutcome) returns (outcome: Outcome)
      modifies this`bus
      ensures (bus, outcome) == ExchangeBus(old(bus), c)
    {
      if !bus.connected { return CommunicationError; }
      if bus.phase != Idle { return OtherError; }
      match c {
        case CommunicationLost(phase) =>
          bus := bus.(phase := phase);
          outcome := CommunicationError;
        case Crashed(phase) =>
          bus := bus.(phase := phase);
          outcome := OtherError;
        case Completed(_, _) => outcome := Done;
      }
    }

    method MarkBusDisconnected()
      modifies this
      ensures View() == Disconnected(old(View()))
    {
      CloseBus();
      state := BusDisconnected;
    }

    method RunCycle(c: CycleOutcome, monitor: Monitor)
      modifies this
      ensures View() == AfterCycle(old(View()), c, monitor)
    {
      var exchange := Exchange(c);
      if exchange == CommunicationError {
        MarkBusDisconnected();
        return;
      }
      if exchange == OtherError {
        running := false;
        return;
      }
      if monitor.faults { state := FaultState; }
      if monitor.ending == CommunicationError {
        MarkBusDisconnected();
        return;
      }
      if monitor.ending == OtherError { running := false; }
    }

    method ResetFaults(globalFault: bool)
      modifies this
      ensures View() == AfterFaultReset(old(View()), globalFault)
    {
      if !globalFault && state == FaultState { state := Normal; }
    }

    /** Retry until one attempt connects in PRE-OP; every failed attempt closes again. */
    method ConnectUntil(attempts: seq<bool>) returns (ok: bool)
      modifies this`bus
      ensures ok <==> true in attempts
      ensures bus == if ok then Bus(true, PreOp, Idle) else CLOSED_BUS
    {
      for n := 0 to |attempts|
        invariant true !in attempts[..n]
      {
        if attempts[n] {
          bus := Bus(true, PreOp, Idle);
          assert attempts[n] in attempts;
          return true;
        }
        CloseBus();
      }
      assert attempts[..|attempts|] == attempts;
      CloseBus();
      ok := false;
    }

    /** Succeeds exactly when three full working counters in a row are seen in time. */
    method WaitForStableProcessdata(cycles: seq<CycleOutcome>) returns (ok: bool)
      requires bus == RUNNING_BUS
      modifies this`bus
      ensures ok <==> Stabilises(cycles)
      ensures ok ==> bus == RUNNING_BUS
    {
      var consecutive := 0;
      for n := 0 to |cycles|
        invariant bus == RUNNING_BUS
        invariant 0 <= consecutive <= n && consecutive < STABLE_CYCLES
        invariant forall i :: 0 <= i < n ==> cycles[i].Completed?
        invariant forall i :: n - consecutive <= i < n ==> Full(cycles[i])
        invariant consecutive < n ==> !Full(cycles[n - consecutive - 1])
        invariant forall k: nat :: k <= n ==> !StableAt(cycles, k)
      {
        var exchange := Exchange(cycles[n]);
        if !exchange.Done? {
          assert !cycles[n].Completed?;
          return false;
        }
        var c := cycles[n];
        if c.expected > 0 && c.actual == c.expected {
          consecutive := consecutive + 1;
          if consecutive >= STABLE_CYCLES {
            assert StableAt(cycles, n + 1);
            return true;
          }
          assert !StableAt(cycles, n + 1);
        } else {
          consecutive := 0;
          assert !Full(cycles[n]);
          assert !StableAt(cycles, n + 1);
        }
      }
      ok := false;
    }

    method RestoreProcessImage(r: Restore) returns (ok: bool)
      requires bus == Bus(true, PreOp, Idle)
      modifies this`bus
      ensures ok <==> r.setupOk && r.inTime && r.enterOk && Stabilises(r.cycles) && r.syncOk
      ensures ok ==> bus == RUNNING_BUS
    {
      if !r.setupOk || !r.inTime || !r.enterOk { return false; }
      bus := bus.(connected := true, state := Op);
      ok := WaitForStableProcessdata(r.cycles);
      if !ok { return false; }
      ok := r.syncOk;
    }

    method ReconnectRuntime(attached: bool, connects: seq<bool>, r: Restore, late: bool, fault: bool) returns (ok: bool)
      modifies this
      ensures View() == AfterReconnect(old(View()), attached, connects, r, late, fault)
      ensures ok <==> attached && !old(recovering) && Restores(connects, r) && !late
    {
      if !attached || recovering { return false; }
      recovering := true;
      CloseBus();
      ok := ConnectUntil(connects);
      if ok { ok := RestoreProcessImage(r); }
      if !ok || late {
        CloseBus();
        state := BusDisconnected;
        recovering := false;
        return false;
      }
      recovering := false;
      state := if fault then FaultState else Normal;
    }

    method RestartAxisRuntime(attached: bool, connects: seq<bool>, r: Restore, late: bool) returns (ok: bool)
      modifies this
      ensures View() == AfterRestart(old(View()), attached, connects, r, late)
      ensures ok <==> attached && !old(recovering) && Restores(connects, r) && !late
    {
      if !attached || recovering { return false; }
      recovering := true;
      state := FaultState;
      CloseBus();
      var operational := ConnectUntil(connects);
      if operational { operational := RestoreProcessImage(r); }
      if !operational || late {
        if !operational { CloseBus(); }
        state := if operational then FaultState else BusDisconnected;
        recovering := false;
        return false;
      }
      recovering := false;
      state := Normal;
      ok := true;
    }
  }

  // ----- over every run -----

  datatype Operation =
    | Cycle(outcome: CycleOutcome, monitor: Monitor)
    | BusFailure
    | FaultReset(globalFault: bool)
    | Reconnect(attached: bool, connects: seq<bool>, restore: Restore, late: bool, fault: bool)
    | RestartAxis(attached: bool, connects: seq<bool>, restore: Restore, late: bool)

  /** Nothing is operated once the server loop has ended. */
  ghost function AfterOperation(s: Server, op: Operation): Server {
    if !s.running then s
    else match op
      case Cycle(c, monitor) => AfterCycle(s, c, monitor)
      case BusFailure => Disconnected(s)
      case FaultReset(globalFault) => AfterFaultReset(s, globalFault)
      case Reconnect(attached, connects, r, late, fault) => AfterReconnect(s, attached, connects, r, late, fault)
      case RestartAxis(attached, connects, r, late) => AfterRestart(s, attached, connects, r, late)
  }

  ghost function AfterOperations(s: Server, ops: seq<Operation>): Server {
    if ops == [] then s else AfterOperation(AfterOperations(s, ops[..|ops| - 1]), ops[|ops| - 1])
  }

  /** Session and master agree, and no recovery is left marked as running. */
  predicate Agreement(s: Server) {
    && !s.recovering
    && s.state != InitializationError
    && (s.state == BusDisconnected <==> !s.bus.connected)
    && (s.state == BusDisconnected ==> s.bus == CLOSED_BUS)
    && (s.state != BusDisconnected ==> s.bus == RUNNING_BUS)
  }

  /** The exchange of a cycle on the open bus raises something other than a communication
      exception after prepare: a broken or short answer, or a decoder that raises. */
  predicate Strands(s: Server, op: Operation) {
    s.running && s.bus.connected && op.Cycle? && op.outcome.Crashed? && op.outcome.phase != Idle
  }

  ghost predicate NeverStrands(s: Server, ops: seq<Operation>) {
    forall k :: 0 <= k < |ops| ==> !Strands(AfterOperations(s, ops[..k]), ops[k])
  }

  /** One operation of an agreeing server breaks the agreement exactly when it strands. */
  lemma {:induction false} OperationAgrees(s: Server, op: Operation)
    requires Agreement(s)
    ensures Agreement(AfterOperation(s, op)) <==> !Strands(s, op)
    ensures AfterOperation(s, op).running ==> Agreement(AfterOperation(s, op))
  {
    hide Restores;
  }

  lemma {:induction false} StrandsEarlier(s: Server, ops: seq<Operation>)
    requires ops != []
    ensures var n := |ops| - 1;
            NeverStrands(s, ops) <==> NeverStrands(s, ops[..n]) && !Strands(AfterOperations(s, ops[..n]), ops[n])
  {
    hide Strands, AfterOperations;
    var n := |ops| - 1;
    PrefixOfPrefix(ops, n);
    if NeverStrands(s, ops) {
      forall k | 0 <= k < n
        ensures !Strands(AfterOperations(s, ops[..n][..k]), ops[..n][k])
      {
        assert !Strands(AfterOperations(s, ops[..k]), ops[k]);
      }
    } else {
      var k :| 0 <= k < |ops| && Strands(AfterOperations(s, ops[..k]), ops[k]);
      if k < n { assert Strands(AfterOperations(s, ops[..n][..k]), ops[..n][k]); }
    }
  }

  /** Over every run of cycles, failures, fault resets, reconnects and restarts: session and
      master agree at its end - and so, taken for every prefix, at every operation boundary -
      exactly when no cycle was stranded between prepare and receive by an exception the server
      does not catch. As long as the server loop goes on, they agree. */
  lemma {:induction false} AgreementOverRuns(s: Server, ops: seq<Operation>)
    requires Agreement(s)
    ensures Agreement(AfterOperations(s, ops)) <==> NeverStrands(s, ops)
    ensures AfterOperations(s, ops).running ==> Agreement(AfterOperations(s, ops))
  {
    if ops != [] {
      hide AfterOperation, Agreement, Strands, NeverStrands;
      var n := |ops| - 1;
      AgreementOverRuns(s, ops[..n]);
      StrandsEarlier(s, ops);
      var f := AfterOperations(s, ops[..n]);
      if Agreement(f) { OperationAgrees(f, ops[n]); } else { NotRunning(f, ops[n]); }
    }
  }

  lemma {:induction false} PrefixOfPrefix(ops: seq<Operation>, n: nat)
    requires n <= |ops|
    ensures forall k :: 0 <= k <= n ==> ops[..n][..k] == ops[..k]
  {
  }

  /** One slave that wants a byte and answers with none. */
  function ShortSlave(): Profile<(), (), ()> {
    Profile(_ => Some([]), _ => 1, (_, t) => (t, true), (e, _) => (e, Payload([])))
  }

  /** An answer that is too short: the exchange of an operational master crashes after send, and
      the server is left NORMAL with its master in the sent phase. */
  lemma {:induction false} ShortAnswerStrands(monitor: Monitor) returns (c: CycleOutcome)
    ensures var ps: Profiles<(), (), ()> := [ShortSlave()];
            var m: Master<(), (), ()> := Master([Slave((), (), None, None, None)], [()], true, Op, Idle, 0);
            && Wired(ps, m)
            && (BusOf(ExchangeOnce(ps, m).0), ExchangeOnce(ps, m).1) == ExchangeBus(BusOf(m), c)
            && var s := AfterCycle(Server(Normal, BusOf(m), false, true), c, monitor);
               s == Server(Normal, Bus(true, Op, Sent), false, false) && !Agreement(s)
  {
    var ps: Profiles<(), (), ()> := [ShortSlave()];
    var m: Master<(), (), ()> := Master([Slave((), (), None, None, None)], [()], true, Op, Idle, 0);
    c := ExchangeIsAnOutcome(ps, m);
    var sent := Transmitted(ps, m);
    assert ps[0].encode(m.slaves[0].rx) == Some([]);
    assert sent.slaves[0].transmitted == Some([]);
    assert Answer(ps, sent, 0).1 == Payload([]);
    assert !LongEnough(ps, sent);
  }

  /** The operation closes the transport, if only to open it again. */
  predicate Closes(s: Server, op: Operation) {
    && s.running
    && match op
       case Cycle(c, monitor) => AfterCycle(s, c, monitor).state == BusDisconnected
       case BusFailure => true
       case FaultReset(_) => false
       case Reconnect(attached, _, _, _, _) => attached && !s.recovering
       case RestartAxis(attached, _, _, _) => attached && !s.recovering
  }

  /** A recovery that rediscovers and restores, and so has seen three full working counters in a
      row; a reconnect must also be in time. */
  ghost predicate Recovers(op: Operation) {
    match op
    case Reconnect(attached, connects, r, late, _) => attached && Restores(connects, r) && !late
    case RestartAxis(attached, connects, r, _) => attached && Restores(connects, r)
    case _ => false
  }

  /** Operation `k` recovered the bus, and no later one has closed it. */
  ghost predicate RecoveredAt(s: Server, ops: seq<Operation>, k: nat) {
    && k < |ops|
    && AfterOperations(s, ops[..k]).running && Recovers(ops[k])
    && forall i :: k < i < |ops| ==> !Closes(AfterOperations(s, ops[..i]), ops[i])
  }

  lemma {:induction false} RecoveredEarlier(s: Server, ops: seq<Operation>, k: nat)
    requires k < |ops| - 1
    ensures var n := |ops| - 1;
            RecoveredAt(s, ops, k)
            <==> RecoveredAt(s, ops[..n], k) && !Closes(AfterOperations(s, ops[..n]), ops[n])
  {
    hide Closes, Recovers, AfterOperations;
    PrefixOfPrefix(ops, |ops| - 1);
  }

  /** One operation of an agreeing, disconnected or connected server. */
  lemma {:induction false} OperationReconnects(s: Server, op: Operation)
    requires Agreement(s) && s.running
    ensures AfterOperation(s, op).state != BusDisconnected
            <==> Recovers(op) || (s.state != BusDisconnected && !Closes(s, op))
    ensures Recovers(op) ==> Closes(s, op)
  {
    hide Restores;
  }

  /** A disconnected server has left that state exactly when some recovery saw three full working
      counters in a row and nothing has closed the bus since. */
  lemma {:induction false} RecoveryNeedsStableProcessdata(s: Server, ops: seq<Operation>)
    requires Agreement(s) && s.state == BusDisconnected
    ensures AfterOperations(s, ops).state != BusDisconnected <==> exists k: nat :: RecoveredAt(s, ops, k)
  {
    hide Restores, Closes, Recovers, RecoveredAt;
    if ops == [] {
      NotRecovered(s, ops);
    } else {
      var n := |ops| - 1;
      var front, last := ops[..n], ops[n];
      var f := AfterOperations(s, front);
      AgreementOverRuns(s, front);
      RecoveryNeedsStableProcessdata(s, front);
      LastRecovers(s, ops);
      forall k: nat | k < n
        ensures RecoveredAt(s, ops, k) <==> RecoveredAt(s, front, k) && !Closes(f, last)
      {
        RecoveredEarlier(s, ops, k);
      }
      BeyondTheEnd(s, ops);
      BeyondTheEnd(s, front);
      if f.running { OperationReconnects(f, last); } else { NotRunning(f, last); }
      if k: nat :| RecoveredAt(s, front, k) { assert RecoveredAt(s, ops, k) <==> !Closes(f, last); }
    }
  }

  lemma {:induction false} NotRecovered(s: Server, ops: seq<Operation>)
    requires ops == []
    ensures forall k: nat :: !RecoveredAt(s, ops, k)
  {
  }

  lemma {:induction false} BeyondTheEnd(s: Server, ops: seq<Operation>)
    ensures forall k: nat :: RecoveredAt(s, ops, k) ==> k < |ops|
  {
  }

  lemma {:induction false} LastRecovers(s: Server, ops: seq<Operation>)
    requires ops != []
    ensures var n := |ops| - 1;
            RecoveredAt(s, ops, n) <==> AfterOperations(s, ops[..n]).running && Recovers(ops[n])
  {
  }

  lemma {:induction false} NotRunning(s: Server, op: Operation)
    requires !s.running
    ensures AfterOperation(s, op) == s && !Closes(s, op)
  {
  }

  // ----- which operation decides the state -----

  /** The operation puts the server into `state`, on a bus that is open or not: read off the
      operation, not off the server. */
  ghost predicate Decides(op: Operation, open: bool, state: RuntimeState) {
    match op
    case Cycle(c, monitor) =>
      open && if c.CommunicationLost? || (c.Completed? && monitor.ending == CommunicationError) then state == BusDisconnected
              else c.Completed? && monitor.faults && state == FaultState
    case BusFailure => state == BusDisconnected
    case FaultReset(globalFault) => open && !globalFault && state == Normal
    case Reconnect(attached, connects, r, late, fault) =>
      attached && if !Restores(connects, r) || late then state == BusDisconnected
                  else if fault then state == FaultState else state == Normal
    case RestartAxis(attached, connects, r, late) =>
      attached && if !Restores(connects, r) then state == BusDisconnected
                  else if late then state == FaultState else state == Normal
  }

  /** The operation leaves the bus open, given whether it was. */
  ghost predicate OpenAfter(op: Operation, open: bool) {
    if Decides(op, open, BusDisconnected) then false
    else if Decides(op, open, Normal) || Decides(op, open, FaultState) then true
    else open
  }

  /** An exception that the server does not catch ends its loop. */
  predicate Ends(op: Operation, open: bool) {
    open && op.Cycle? && (op.outcome.Crashed? || (op.outcome.Completed? && op.monitor.ending == OtherError))
  }

  /** Whether the bus is open, and the loop still running, after some operations. */
  ghost function History(open: bool, ops: seq<Operation>): (bool, bool) {
    if ops == [] then (open, true)
    else
      var (before, live) := History(open, ops[..|ops| - 1]);
      if !live then (before, false)
      else (OpenAfter(ops[|ops| - 1], before), !Ends(ops[|ops| - 1], before))
  }

  ghost predicate DecidesAt(open: bool, ops: seq<Operation>, k: nat, state: RuntimeState) {
    k < |ops| && var (before, live) := History(open, ops[..k]); live && Decides(ops[k], before, state)
  }

  /** Operation `k` decides the state, and no later one does. */
  ghost predicate LastDecision(open: bool, ops: seq<Operation>, k: nat, state: RuntimeState) {
    DecidesAt(open, ops, k, state) && forall i: nat, other: RuntimeState :: k < i ==> !DecidesAt(open, ops, i, other)
  }

  ghost predicate Undecided(open: bool, ops: seq<Operation>) {
    forall i: nat, other: RuntimeState :: !DecidesAt(open, ops, i, other)
  }

  /** The state after some operations, by the last decision. */
  ghost predicate Concluded(s: Server, ops: seq<Operation>, state: RuntimeState) {
    var open := s.bus.connected;
    (Undecided(open, ops) && state == s.state) || exists k: nat :: LastDecision(open, ops, k, state)
  }

  lemma {:induction false} OneOperationDecides(s: Server, op: Operation)
    requires Agreement(s) && s.running
    ensures var t, open := AfterOperation(s, op), s.bus.connected;
            && (forall state :: Decides(op, open, state) ==> t.state == state)
            && (t.state == s.state || Decides(op, open, t.state))
            && t.running == !Ends(op, open)
            && (t.bus.connected <==> OpenAfter(op, open))
  {
    hide Restores;
  }

  lemma {:induction false} HistoryIsTold(s: Server, ops: seq<Operation>)
    requires Agreement(s) && s.running
    ensures var t, (open, live) := AfterOperations(s, ops), History(s.bus.connected, ops);
            t.running == live && t.bus.connected == open
  {
    hide AfterOperation, OpenAfter, Ends, Agreement;
    if ops != [] {
      var front, last := ops[..|ops| - 1], ops[|ops| - 1];
      HistoryIsTold(s, front);
      AgreementOverRuns(s, front);
      var f := AfterOperations(s, front);
      if f.running { OneOperationDecides(f, last); } else { NotRunning(f, last); }
    }
  }

  lemma {:induction false} DecisionsOfFront(open: bool, ops: seq<Operation>, front: seq<Operation>)
    requires ops != [] && front == ops[..|ops| - 1]
    ensures forall i: nat, state :: i < |front| ==> (DecidesAt(open, ops, i, state) <==> DecidesAt(open, front, i, state))
    ensures forall i: nat, state :: i >= |ops| ==> !DecidesAt(open, ops, i, state)
    ensures forall i: nat, state :: i >= |front| ==> !DecidesAt(open, front, i, state)
  {
    hide Decides, History;
    PrefixOfPrefix(ops, |ops| - 1);
  }

  lemma {:induction false} ConcludedByLast(s: Server, ops: seq<Operation>, state: RuntimeState)
    requires ops != [] && DecidesAt(s.bus.connected, ops, |ops| - 1, state)
    ensures Concluded(s, ops, state)
  {
    hide DecidesAt;
    DecisionsOfFront(s.bus.connected, ops, ops[..|ops| - 1]);
    assert LastDecision(s.bus.connected, ops, |ops| - 1, state);
  }

  lemma {:induction false} ConcludedByFront(s: Server, ops: seq<Operation>, state: RuntimeState, n: nat)
    requires |ops| == n + 1 && Concluded(s, ops[..n], state)
    requires forall other :: !DecidesAt(s.bus.connected, ops, n, other)
    ensures Concluded(s, ops, state)
  {
    hide DecidesAt;
    var open, front := s.bus.connected, ops[..|ops| - 1];
    DecisionsOfFront(open, ops, front);
    if !Undecided(open, front) {
      var k: nat :| LastDecision(open, front, k, state);
      assert DecidesAt(open, front, k, state);
      assert LastDecision(open, ops, k, state);
    } else {
      assert Undecided(open, ops);
    }
  }

  lemma {:induction false} StateIsConcluded(s: Server, ops: seq<Operation>)
    requires Agreement(s) && s.running
    ensures Concluded(s, ops, AfterOperations(s, ops).state)
  {
    if ops == [] {
      assert Undecided(s.bus.connected, ops);
    } else {
      hide AfterOperation, Decides, Agreement, Concluded;
      var n := |ops| - 1;
      var front, last := ops[..n], ops[n];
      StateIsConcluded(s, front);
      HistoryIsTold(s, front);
      AgreementOverRuns(s, front);
      var f := AfterOperations(s, front);
      if f.running { OneOperationDecides(f, last); } else { NotRunning(f, last); }
      if state :| DecidesAt(s.bus.connected, ops, n, state) {
        ConcludedByLast(s, ops, state);
      } else {
        assert f.running ==> forall state :: Decides(last, f.bus.connected, state) ==> DecidesAt(s.bus.connected, ops, n, state);
        ConcludedByFront(s, ops, AfterOperations(s, ops).state, n);
      }
    }
  }

  lemma {:induction false} DecidesOneState(op: Operation, open: bool, state: RuntimeState, other: RuntimeState)
    requires Decides(op, open, state) && Decides(op, open, other)
    ensures state == other
  {
    hide Restores;
  }

  lemma {:induction false} ConcludedOnce(s: Server, ops: seq<Operation>, state: RuntimeState, other: RuntimeState)
    requires Concluded(s, ops, state) && Concluded(s, ops, other)
    ensures state == other
  {
    hide Decides, History;
    var open := s.bus.connected;
    if Undecided(open, ops) {
      assert forall k: nat, x: RuntimeState :: LastDecision(open, ops, k, x) ==> DecidesAt(open, ops, k, x);
    } else {
      var j: nat :| LastDecision(open, ops, j, state);
      var k: nat :| LastDecision(open, ops, k, other);
      assert DecidesAt(open, ops, j, state) && DecidesAt(open, ops, k, other);
      DecidesOneState(ops[j], History(open, ops[..j]).0, state, other);
    }
  }

  /** Over every run the server's state is what the last operation that decides one has decided,
      or the first state while none has: FAULT after a cycle whose monitor raised it, a reconnect
      in time with a global fault left, or a restart that came late; NORMAL after a reconnect or
      restart without that, or a fault reset with no global fault left; BUS_DISCONNECTED after a
      communication failure or a recovery that did not restore the bus. */
  lemma {:induction false} StateIsLastDecision(s: Server, ops: seq<Operation>, state: RuntimeState)
    requires Agreement(s) && s.running
    ensures AfterOperations(s, ops).state == state <==> Concluded(s, ops, state)
    ensures AfterOperations(s, ops).running <==> History(s.bus.connected, ops).1
  {
    hide AfterOperations, Concluded, History, Agreement;
    StateIsConcluded(s, ops);
    HistoryIsTold(s, ops);
    if Concluded(s, ops, state) { ConcludedOnce(s, ops, state, AfterOperations(s, ops).state); }
  }
}
