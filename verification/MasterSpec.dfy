/** The prepare - send - receive protocol of the in-process EtherCAT master: what each call
    does to the master, its per-slave snapshots and the slave endpoints behind it. */
module MasterSpec {
  import opened Basics
  import opened Bits

  /** How a call ends: normally, with a communication exception, or with any other exception. */
  datatype Outcome = Done | CommunicationError | OtherError

  /** What an endpoint makes of an exchange: an answer, a lost connection, or another exception. */
  datatype Reply = Payload(bytes: seq<Byte>) | ConnectionLost | Broken

  /** Codec and endpoint of one slave. `encode` may fail (`None`), a decoder may raise after it
      has changed the TxPDO (`false`), and an exchange can change the endpoint's state however
      it ends. */
  datatype Profile<!R, !T, !E> = Profile(
    encode: R -> Option<seq<Byte>>,
    inputSize: T -> nat,
    decode: (seq<Byte>, T) -> (T, bool),
    answer: (E, seq<Byte>) -> (E, Reply))

  /** Master-owned PDO objects and raw snapshots of one slave. */
  datatype Slave<R, T> = Slave(
    rx: R, tx: T,
    prepared: Option<seq<Byte>>, transmitted: Option<seq<Byte>>, received: Option<seq<Byte>>)

  datatype BusState = Closed | PreOp | Op

  datatype Phase = Idle | Prepared | Sent

  datatype Master<R, T, E> = Master(
    slaves: seq<Slave<R, T>>, endpoints: seq<E>,
    connected: bool, bus: BusState, phase: Phase, workingCounter: nat)

  type Profiles<!R, !T, !E> = seq<Profile<R, T, E>>

  predicate Wired<R, T, E>(ps: Profiles<R, T, E>, m: Master<R, T, E>) {
    |m.slaves| == |ps| && |m.endpoints| == |ps|
  }

  function Cleared<R, T>(s: Slave<R, T>): Slave<R, T> {
    s.(prepared := None, transmitted := None, received := None)
  }

  function ResetProcessData<R, T, E>(m: Master<R, T, E>): Master<R, T, E> {
    m.(phase := Idle, workingCounter := 0,
       slaves := seq(|m.slaves|, i requires 0 <= i < |m.slaves| => Cleared(m.slaves[i])))
  }

  function AfterClose<R, T, E>(m: Master<R, T, E>): Master<R, T, E> {
    ResetProcessData(m).(connected := false, bus := Closed)
  }

  /** Staged start-up: only PRE-OP may be asked for, and a profile may refuse its image. */
  function AfterConnect<R, T, E>(m: Master<R, T, E>, preop: bool, profiles: Outcome): (Master<R, T, E>, Outcome) {
    if !preop then (m, OtherError)
    else if profiles.Done? then (ResetProcessData(m).(connected := true, bus := PreOp), Done)
    else (AfterClose(m), profiles)
  }

  function AfterEnterOperational<R, T, E>(m: Master<R, T, E>): (Master<R, T, E>, Outcome) {
    if m.bus != PreOp then (m, OtherError) else (m.(connected := true, bus := Op), Done)
  }

  // ----- prepare -----

  function Encodings<R, T, E>(ps: Profiles<R, T, E>, m: Master<R, T, E>): seq<Option<seq<Byte>>>
    requires Wired(ps, m)
  {
    seq(|ps|, i requires 0 <= i < |ps| => ps[i].encode(m.slaves[i].rx))
  }

  predicate AllEncode<R, T, E>(ps: Profiles<R, T, E>, m: Master<R, T, E>)
    requires Wired(ps, m)
  {
    forall i :: 0 <= i < |ps| ==> ps[i].encode(m.slaves[i].rx).Some?
  }

  function AfterPrepare<R, T, E>(ps: Profiles<R, T, E>, m: Master<R, T, E>): (Master<R, T, E>, Outcome)
    requires Wired(ps, m)
  {
    if !m.connected then (m, CommunicationError)
    else if m.phase != Idle || !AllEncode(ps, m) then (m, OtherError)
    else
      (m.(phase := Prepared,
          slaves := seq(|ps|, i requires 0 <= i < |ps| =>
            m.slaves[i].(prepared := ps[i].encode(m.slaves[i].rx)))), Done)
  }

  // ----- send -----

  function AfterSend<R, T, E>(m: Master<R, T, E>): (Master<R, T, E>, Outcome) {
    if !m.connected then (m, CommunicationError)
    else if m.phase != Prepared then (m, OtherError)
    else
      (m.(phase := Sent,
          slaves := seq(|m.slaves|, i requires 0 <= i < |m.slaves| =>
            m.slaves[i].(transmitted := m.slaves[i].prepared, prepared := None))), Done)
  }

  // ----- receive -----

  /** What endpoint `i` does with the payload transmitted to it. */
  function Answer<R, T, E>(ps: Profiles<R, T, E>, m: Master<R, T, E>, i: nat): (E, Reply)
    requires Wired(ps, m) && i < |ps|
  {
    match m.slaves[i].transmitted
    case None => (m.endpoints[i], Broken)
    case Some(payload) => ps[i].answer(m.endpoints[i], payload)
  }

  /** Endpoints are served in order; the first failure leaves the later ones untouched. */
  function Served<R, T, E>(ps: Profiles<R, T, E>, m: Master<R, T, E>, n: nat): (r: nat)
    requires Wired(ps, m) && n <= |ps|
    ensures r <= n
    ensures forall i :: 0 <= i < r ==> Answer(ps, m, i).1.Payload?
    ensures r < n ==> !Answer(ps, m, r).1.Payload?
  {
    if n == 0 then 0
    else
      var r := Served(ps, m, n - 1);
      if r == n - 1 && Answer(ps, m, r).1.Payload? then n else r
  }

  function EndpointsAfter<R, T, E>(ps: Profiles<R, T, E>, m: Master<R, T, E>): seq<E>
    requires Wired(ps, m)
  {
    var served := Served(ps, m, |ps|);
    seq(|ps|, i requires 0 <= i < |ps| => if i <= served then Answer(ps, m, i).0 else m.endpoints[i])
  }

  predicate LongEnough<R, T, E>(ps: Profiles<R, T, E>, m: Master<R, T, E>)
    requires Wired(ps, m)
  {
    forall i :: 0 <= i < |ps| ==>
      Answer(ps, m, i).1.Payload? && |Answer(ps, m, i).1.bytes| >= ps[i].inputSize(m.slaves[i].tx)
  }

  predicate AllAnswer<R, T, E>(ps: Profiles<R, T, E>, m: Master<R, T, E>)
    requires Wired(ps, m)
  {
    forall i :: 0 <= i < |ps| ==> Answer(ps, m, i).1.Payload?
  }

  /** What the decoder of slave `i` leaves in its TxPDO, and whether it got through. */
  function Decoding<R, T, E>(ps: Profiles<R, T, E>, m: Master<R, T, E>, i: nat): (T, bool)
    requires Wired(ps, m) && i < |ps| && AllAnswer(ps, m)
  {
    ps[i].decode(Answer(ps, m, i).1.bytes, m.slaves[i].tx)
  }

  /** Slaves are decoded in order; the first decoder that raises leaves the later ones alone. */
  function Decoded<R, T, E>(ps: Profiles<R, T, E>, m: Master<R, T, E>, n: nat): (r: nat)
    requires Wired(ps, m) && n <= |ps| && AllAnswer(ps, m)
    ensures r <= n
    ensures forall i :: 0 <= i < r ==> Decoding(ps, m, i).1
    ensures r < n ==> !Decoding(ps, m, r).1
  {
    if n == 0 then 0
    else
      var r := Decoded(ps, m, n - 1);
      if r == n - 1 && Decoding(ps, m, r).1 then n else r
  }

  function SlavesAfter<R, T, E>(ps: Profiles<R, T, E>, m: Master<R, T, E>): seq<Slave<R, T>>
    requires Wired(ps, m) && AllAnswer(ps, m)
  {
    var decoded := Decoded(ps, m, |ps|);
    seq(|ps|, i requires 0 <= i < |ps| =>
      if i < decoded then m.slaves[i].(tx := Decoding(ps, m, i).0, received := Some(Answer(ps, m, i).1.bytes))
      else if i == decoded then m.slaves[i].(tx := Decoding(ps, m, i).0)
      else m.slaves[i])
  }

  /** All endpoints answer, then all answers are validated, then all are decoded. */
  function AfterReceive<R, T, E>(ps: Profiles<R, T, E>, m: Master<R, T, E>): (Master<R, T, E>, Outcome)
    requires Wired(ps, m)
  {
    if !m.connected then (m, CommunicationError)
    else if m.phase != Sent then (m, OtherError)
    else
      var t := m.(endpoints := EndpointsAfter(ps, m));
      var served := Served(ps, m, |ps|);
      if served < |ps| then (t, if Answer(ps, m, served).1.ConnectionLost? then CommunicationError else OtherError)
      else if !LongEnough(ps, m) then (t.(workingCounter := |ps|), OtherError)
      else
        var u := t.(workingCounter := |ps|, slaves := SlavesAfter(ps, m));
        if Decoded(ps, m, |ps|) < |ps| then (u, OtherError) else (u.(phase := Idle), Done)
  }

  // ----- traces -----

  datatype Event<R> =
    | Connect(preop: bool, profiles: Outcome)
    | EnterOperational
    | Close
    | Prepare
    | Send
    | Receive
    | Assign(slave: nat, rx: R)   // the application changes an RxPDO at any time

  function Apply<R, T, E>(ps: Profiles<R, T, E>, m: Master<R, T, E>, e: Event<R>): (Master<R, T, E>, Outcome)
    requires Wired(ps, m)
  {
    match e
    case Connect(preop, profiles) => AfterConnect(m, preop, profiles)
    case EnterOperational => AfterEnterOperational(m)
    case Close => (AfterClose(m), Done)
    case Prepare => AfterPrepare(ps, m)
    case Send => AfterSend(m)
    case Receive => AfterReceive(ps, m)
    case Assign(i, rx) =>
      if i < |m.slaves| then (m.(slaves := m.slaves[i := m.slaves[i].(rx := rx)]), Done) else (m, OtherError)
  }

  function After<R, T, E>(ps: Profiles<R, T, E>, m: Master<R, T, E>, es: seq<Event<R>>): (r: Master<R, T, E>)
    requires Wired(ps, m)
    ensures Wired(ps, r)
  {
    if es == [] then m else Apply(ps, After(ps, m, es[..|es| - 1]), es[|es| - 1]).0
  }

  predicate Accepted<R, T, E>(ps: Profiles<R, T, E>, m: Master<R, T, E>, es: seq<Event<R>>)
    requires Wired(ps, m) && es != []
  {
    Apply(ps, After(ps, m, es[..|es| - 1]), es[|es| - 1]).1.Done?
  }

  /** Connecting in PRE-OP and closing start the process data over. */
  predicate StartsOver<R>(e: Event<R>) { e.Close? || (e.Connect? && e.preop) }

  predicate ProcessDataCall<R>(e: Event<R>) { e.Prepare? || e.Send? || e.Receive? }

  /** The process data calls accepted since the process data last started over. */
  function Calls<R, T, E>(ps: Profiles<R, T, E>, m: Master<R, T, E>, es: seq<Event<R>>): seq<Event<R>>
    requires Wired(ps, m)
  {
    if es == [] || StartsOver(es[|es| - 1]) then []
    else
      Calls(ps, m, es[..|es| - 1])
      + if ProcessDataCall(es[|es| - 1]) && Accepted(ps, m, es) then [es[|es| - 1]] else []
  }

  /** The encodings of the slaves' RxPDOs as they stood at the last accepted prepare. */
  function LastEncodings<R, T, E>(ps: Profiles<R, T, E>, m: Master<R, T, E>, es: seq<Event<R>>): seq<Option<seq<Byte>>>
    requires Wired(ps, m)
  {
    if es == [] then []
    else if es[|es| - 1].Prepare? && Accepted(ps, m, es) then Encodings(ps, After(ps, m, es[..|es| - 1]))
    else LastEncodings(ps, m, es[..|es| - 1])
  }

  /** The cycle order: prepare, send, receive, and again. */
  predicate InOrder<R>(calls: seq<Event<R>>) {
    forall k :: 0 <= k < |calls| ==>
      if k % 3 == 0 then calls[k].Prepare? else if k % 3 == 1 then calls[k].Send? else calls[k].Receive?
  }

  function PhaseAfter(calls: nat): Phase {
    if calls % 3 == 0 then Idle else if calls % 3 == 1 then Prepared else Sent
  }

  /** The snapshots in flight are the encodings taken at the last prepare. */
  predicate InFlight<R, T, E>(m: Master<R, T, E>, encodings: seq<Option<seq<Byte>>>) {
    && (m.phase == Prepared ==>
          |encodings| == |m.slaves| && forall i :: 0 <= i < |m.slaves| ==> m.slaves[i].prepared == encodings[i])
    && (m.phase == Sent ==>
          |encodings| == |m.slaves| && forall i :: 0 <= i < |m.slaves| ==> m.slaves[i].transmitted == encodings[i])
  }

  lemma {:induction false} PhaseStep<R, T, E>(ps: Profiles<R, T, E>, m: Master<R, T, E>, e: Event<R>)
    requires Wired(ps, m)
    ensures var (after, accepted) := Apply(ps, m, e);
            if StartsOver(e) then after.phase == Idle
            else if !ProcessDataCall(e) || !accepted.Done? then after.phase == m.phase
            else if e.Prepare? then m.phase == Idle && after.phase == Prepared
            else if e.Send? then m.phase == Prepared && after.phase == Sent
            else m.phase == Sent && after.phase == Idle
  {
    hide EndpointsAfter, Served, Decoded, LongEnough, AllEncode;
  }

  lemma {:induction false} StepKeepsOrder<R, T, E>(ps: Profiles<R, T, E>, m: Master<R, T, E>, es: seq<Event<R>>)
    requires Wired(ps, m) && es != []
    requires var front := es[..|es| - 1];
             InOrder(Calls(ps, m, front))
             && After(ps, m, front).phase == PhaseAfter(|Calls(ps, m, front)|)
    ensures InOrder(Calls(ps, m, es)) && After(ps, m, es).phase == PhaseAfter(|Calls(ps, m, es)|)
  {
    hide Apply;
    PhaseStep(ps, After(ps, m, es[..|es| - 1]), es[|es| - 1]);
  }

  lemma {:induction false} FlightStep<R, T, E>(ps: Profiles<R, T, E>, m: Master<R, T, E>, e: Event<R>, encodings: seq<Option<seq<Byte>>>)
    requires Wired(ps, m) && InFlight(m, encodings)
    ensures var (after, accepted) := Apply(ps, m, e);
            InFlight(after, if e.Prepare? && accepted.Done? then Encodings(ps, m) else encodings)
  {
    hide EndpointsAfter, Served, Decoded, LongEnough, AllEncode;
  }

  lemma {:induction false} StepKeepsFlight<R, T, E>(ps: Profiles<R, T, E>, m: Master<R, T, E>, es: seq<Event<R>>)
    requires Wired(ps, m) && es != []
    requires InFlight(After(ps, m, es[..|es| - 1]), LastEncodings(ps, m, es[..|es| - 1]))
    ensures InFlight(After(ps, m, es), LastEncodings(ps, m, es))
  {
    hide Apply, InFlight, Encodings;
    FlightStep(ps, After(ps, m, es[..|es| - 1]), es[|es| - 1], LastEncodings(ps, m, es[..|es| - 1]));
  }

  /** Over every trace: the accepted process data calls since connect or close are a prefix of
      prepare, send, receive, prepare, ...; and the payloads in flight are the encodings taken
      at the matching prepare, whatever the application assigned since. */
  lemma {:induction false} ProtocolSafety<R, T, E>(ps: Profiles<R, T, E>, m: Master<R, T, E>, es: seq<Event<R>>)
    requires Wired(ps, m) && m.phase == Idle
    ensures InOrder(Calls(ps, m, es))
    ensures After(ps, m, es).phase == PhaseAfter(|Calls(ps, m, es)|)
    ensures InFlight(After(ps, m, es), LastEncodings(ps, m, es))
  {
    if es != [] {
      ProtocolSafety(ps, m, es[..|es| - 1]);
      StepKeepsOrder(ps, m, es);
      StepKeepsFlight(ps, m, es);
    }
  }

  /** An accepted receive has handed every endpoint the encoding its slave had at the matching
      prepare, has stored and decoded every endpoint's answer to it, and counts every slave. */
  lemma {:induction false} ReceiveDeliversPreparedOutputs<R, T, E>(ps: Profiles<R, T, E>, m: Master<R, T, E>, es: seq<Event<R>>, i: nat)
    requires Wired(ps, m) && m.phase == Idle && i < |ps|
    requires es != [] && es[|es| - 1].Receive? && Accepted(ps, m, es)
    ensures var before, after := After(ps, m, es[..|es| - 1]), After(ps, m, es);
            var encodings := LastEncodings(ps, m, es);
            && |encodings| == |ps| && encodings[i].Some? && after.workingCounter == |ps|
            && var (endpoint, answer) := ps[i].answer(before.endpoints[i], encodings[i].value);
               && answer.Payload?
               && after.endpoints[i] == endpoint
               && after.slaves[i].received == Some(answer.bytes)
               && (after.slaves[i].tx, true) == ps[i].decode(answer.bytes, before.slaves[i].tx)
  {
    ProtocolSafety(ps, m, es[..|es| - 1]);
  }

  /** Closing and connecting leave no snapshot of an earlier exchange and no working counter, and
      touch neither the PDO objects nor the endpoints. */
  lemma {:induction false} StartingOverClears<R, T, E>(ps: Profiles<R, T, E>, m: Master<R, T, E>, e: Event<R>)
    requires Wired(ps, m) && StartsOver(e)
    ensures var after := Apply(ps, m, e).0;
            && after.phase == Idle && after.workingCounter == 0 && after.endpoints == m.endpoints
            && |after.slaves| == |m.slaves|
            && forall i :: 0 <= i < |m.slaves| ==> after.slaves[i] == Slave(m.slaves[i].rx, m.slaves[i].tx, None, None, None)
  {
  }

  predicate AllDecode<R, T, E>(ps: Profiles<R, T, E>, m: Master<R, T, E>)
    requires Wired(ps, m) && AllAnswer(ps, m)
  {
    forall i :: 0 <= i < |ps| ==> Decoding(ps, m, i).1
  }

  /** The first endpoint that does not answer has lost its connection. */
  ghost predicate LosesConnection<R, T, E>(ps: Profiles<R, T, E>, m: Master<R, T, E>)
    requires Wired(ps, m)
  {
    exists k :: 0 <= k < |ps| && Answer(ps, m, k).1.ConnectionLost?
                && forall i :: 0 <= i < k ==> Answer(ps, m, i).1.Payload?
  }

  /** Exactly when each call is accepted, and which refusals are communication exceptions. */
  lemma {:induction false} OutcomesExactly<R, T, E>(ps: Profiles<R, T, E>, m: Master<R, T, E>)
    requires Wired(ps, m)
    ensures AfterPrepare(ps, m).1.Done? <==> m.connected && m.phase == Idle && AllEncode(ps, m)
    ensures AfterPrepare(ps, m).1 == CommunicationError <==> !m.connected
    ensures AfterSend(m).1.Done? <==> m.connected && m.phase == Prepared
    ensures AfterSend(m).1 == CommunicationError <==> !m.connected
    ensures AfterReceive(ps, m).1.Done? <==>
              m.connected && m.phase == Sent && AllAnswer(ps, m) && LongEnough(ps, m) && AllDecode(ps, m)
    ensures AfterReceive(ps, m).1 == CommunicationError <==>
              !m.connected || (m.phase == Sent && LosesConnection(ps, m))
  {
    var served := Served(ps, m, |ps|);
    assert served < |ps| ==> !Answer(ps, m, served).1.Payload?;
    if AllAnswer(ps, m) { assert Decoded(ps, m, |ps|) < |ps| ==> !Decoding(ps, m, Decoded(ps, m, |ps|)).1; }
  }

  /** All or nothing: a refused prepare or send changes nothing at all; a receive refused before
      decoding leaves every slave object as it was, and one whose decoder raises has committed
      exactly the slaves before that decoder's. */
  lemma {:induction false} RefusalsCommitNothing<R, T, E>(ps: Profiles<R, T, E>, m: Master<R, T, E>)
    requires Wired(ps, m)
    ensures !AfterPrepare(ps, m).1.Done? ==> AfterPrepare(ps, m).0 == m
    ensures !AfterSend(m).1.Done? ==> AfterSend(m).0 == m
    ensures !AfterReceive(ps, m).1.Done? ==>
              var after := AfterReceive(ps, m).0;
              && after.phase == m.phase
              && (!AllAnswer(ps, m) || !LongEnough(ps, m) ==> after.slaves == m.slaves)
              && (after.slaves != m.slaves ==>
                    exists k :: 0 <= k < |ps| && |after.slaves| == |ps| && AllAnswer(ps, m) && !Decoding(ps, m, k).1
                      && after.slaves[k] == m.slaves[k].(tx := Decoding(ps, m, k).0)
                      && (forall i :: 0 <= i < k ==>
                            after.slaves[i].received == Some(Answer(ps, m, i).1.bytes)
                            && (after.slaves[i].tx, true) == Decoding(ps, m, i))
                      && forall i :: k < i < |ps| ==> after.slaves[i] == m.slaves[i])
  {
    var served := Served(ps, m, |ps|);
    assert served < |ps| ==> !Answer(ps, m, served).1.Payload?;
    if AllAnswer(ps, m) { assert Decoded(ps, m, |ps|) < |ps| ==> !Decoding(ps, m, Decoded(ps, m, |ps|)).1; }
  }
}
