/** The in-process EtherCAT master as an object: flags and snapshots changed call by call. */
module MockMaster {
  import opened Basics
  import opened Bits
  import opened MasterSpec

  class MockMaster<R, T, E> {
    const profiles: Profiles<R, T, E>
    var slaves: seq<Slave<R, T>>
    var endpoints: seq<E>
    var connected: bool
    var bus: BusState
    var outputsSent: bool
    var processdataPrepared: bool
    var wkc: nat

    ghost function View(): Master<R, T, E>
      reads this
    {
      Master(slaves, endpoints, connected, bus,
             if outputsSent then Sent else if processdataPrepared then Prepared else Idle, wkc)
    }

    ghost predicate Valid()
      reads this
    {
      Wired(profiles, View()) && !(outputsSent && processdataPrepared)
    }

    /** `None` when endpoints and profiles do not pair up. */
    static method Create(profiles: Profiles<R, T, E>, pdos: seq<(R, T)>, endpoints: seq<E>)
      returns (master: MockMaster?<R, T, E>)
      requires |pdos| == |profiles|
      ensures master == null <==> |endpoints| != |profiles|
      ensures master != null ==> fresh(master) && master.profiles == profiles && master.Valid()
      ensures master != null ==> master.View().phase == Idle && !master.connected && master.bus == Closed
    {
      if |endpoints| != |profiles| { return null; }
      var slaves := seq(|pdos|, i requires 0 <= i < |pdos| => Slave(pdos[i].0, pdos[i].1, None, None, None));
      master := new MockMaster<R, T, E>(profiles, slaves, endpoints);
    }

    constructor (profiles: Profiles<R, T, E>, slaves: seq<Slave<R, T>>, endpoints: seq<E>)
      requires |slaves| == |profiles| && |endpoints| == |profiles|
      ensures this.profiles == profiles && Valid()
      ensures View() == Master(slaves, endpoints, false, Closed, Idle, 0)
    {
      this.profiles, this.slaves, this.endpoints := profiles, slaves, endpoints;
      connected, bus, outputsSent, processdataPrepared, wkc := false, Closed, false, false, 0;
    }

    method Connect(preop: bool, profiles: Outcome) returns (outcome: Outcome)
      requires Valid()
      modifies this
      ensures Valid() && (View(), outcome) == AfterConnect(old(View()), preop, profiles)
    {
      if !preop { return OtherError; }
      ResetProcessdataState();
      connected := true;
      bus := PreOp;
      if !profiles.Done? {
        Shutdown();
        assert View().slaves == AfterClose(old(View())).slaves;
        return profiles;
      }
      outcome := Done;
    }

    method EnterOperational() returns (outcome: Outcome)
      requires Valid()
      modifies this
      ensures Valid() && (View(), outcome) == AfterEnterOperational(old(View()))
    {
      if bus != PreOp { return OtherError; }
      connected := true;
      bus := Op;
      outcome := Done;
    }

    method Shutdown()
      requires Valid()
      modifies this
      ensures Valid() && View() == AfterClose(old(View()))
    {
      connected := false;
      bus := Closed;
      ResetProcessdataState();
    }

    method ResetProcessdataState()
      requires Valid()
      modifies this
      ensures Valid() && View() == ResetProcessData(old(View()))
    {
      outputsSent := false;
      processdataPrepared := false;
      wkc := 0;
      var cleared: seq<Slave<R, T>> := [];
      for n := 0 to |slaves|
        invariant slaves == old(slaves) && |cleared| == n
        invariant forall i :: 0 <= i < n ==> cleared[i] == Cleared(slaves[i])
      {
        cleared := cleared + [slaves[n].(prepared := None, transmitted := None, received := None)];
      }
      slaves := cleared;
    }

    method PrepareProcessdata() returns (outcome: Outcome)
      requires Valid()
      modifies this
      ensures Valid() && (View(), outcome) == AfterPrepare(profiles, old(View()))
    {
      if !connected { return CommunicationError; }
      if outputsSent || processdataPrepared { return OtherError; }
      var candidates: seq<seq<Byte>> := [];
      for n := 0 to |slaves|
        invariant |candidates| == n
        invariant forall i :: 0 <= i < n ==> profiles[i].encode(slaves[i].rx) == Some(candidates[i])
      {
        var candidate := profiles[n].encode(slaves[n].rx);
        if candidate.None? { return OtherError; }
        candidates := candidates + [candidate.value];
      }
      var committed: seq<Slave<R, T>> := [];
      for n := 0 to |slaves|
        invariant |committed| == n
        invariant forall i :: 0 <= i < n ==> committed[i] == slaves[i].(prepared := Some(candidates[i]))
      {
        committed := committed + [slaves[n].(prepared := Some(candidates[n]))];
      }
      slaves := committed;
      assert slaves == AfterPrepare(profiles, old(View())).0.slaves;
      processdataPrepared := true;
      outcome := Done;
    }

    method SendProcessdata() returns (outcome: Outcome)
      requires Valid()
      modifies this
      ensures Valid() && (View(), outcome) == AfterSend(old(View()))
    {
      if !connected { return CommunicationError; }
      if outputsSent { return OtherError; }
      if !processdataPrepared { return OtherError; }
      var committed: seq<Slave<R, T>> := [];
      for n := 0 to |slaves|
        invariant |committed| == n
        invariant forall i :: 0 <= i < n ==> committed[i] == slaves[i].(transmitted := slaves[i].prepared, prepared := None)
      {
        committed := committed + [slaves[n].(transmitted := slaves[n].prepared, prepared := None)];
      }
      slaves := committed;
      assert slaves == AfterSend(old(View())).0.slaves;
      outputsSent := true;
      processdataPrepared := false;
      outcome := Done;
    }

    /** Serve the endpoints in order, up to the first failure. */
    method ExchangeEndpoints() returns (outcome: Outcome, payloads: seq<seq<Byte>>)
      requires Valid()
      modifies this`endpoints
      ensures Valid() && View() == old(View()).(endpoints := EndpointsAfter(profiles, old(View())))
      ensures var served := Served(profiles, old(View()), |profiles|);
              if served == |profiles| then
                && outcome == Done && |payloads| == |profiles|
                && forall i :: 0 <= i < |profiles| ==> Answer(profiles, old(View()), i).1 == Payload(payloads[i])
              else
                outcome == if Answer(profiles, old(View()), served).1.ConnectionLost? then CommunicationError
                           else OtherError
    {
      var collected: seq<seq<Byte>> := [];
      ghost var m := View();
      for n := 0 to |profiles|
        invariant |endpoints| == |profiles| == |slaves| && |collected| == n
        invariant forall i :: 0 <= i < n ==> Answer(profiles, m, i) == (endpoints[i], Payload(collected[i]))
        invariant forall i :: n <= i < |profiles| ==> endpoints[i] == m.endpoints[i]
      {
        if slaves[n].transmitted.None? {
          assert Answer(profiles, m, n) == (endpoints[n], Broken);
          assert Served(profiles, m, |profiles|) == n;
          assert View().endpoints == EndpointsAfter(profiles, m);
          return OtherError, [];
        }
        var (endpoint, answer) := profiles[n].answer(endpoints[n], slaves[n].transmitted.value);
        endpoints := endpoints[n := endpoint];
        if !answer.Payload? {
          assert Answer(profiles, m, n) == (endpoint, answer);
          assert Served(profiles, m, |profiles|) == n;
          assert View().endpoints == EndpointsAfter(profiles, m);
          return if answer.ConnectionLost? then CommunicationError else OtherError, [];
        }
        collected := collected + [answer.bytes];
      }
      assert Served(profiles, m, |profiles|) == |profiles|;
      assert View().endpoints == EndpointsAfter(profiles, m);
      return Done, collected;
    }

    /** Decode the validated answers in order, up to the first decoder that raises. */
    method DecodeInputs(ghost m: Master<R, T, E>, payloads: seq<seq<Byte>>) returns (ok: bool)
      requires Valid() && Wired(profiles, m) && AllAnswer(profiles, m) && slaves == m.slaves
      requires |payloads| == |profiles|
      requires forall i :: 0 <= i < |profiles| ==> Answer(profiles, m, i).1.bytes == payloads[i]
      modifies this`slaves
      ensures Valid() && slaves == SlavesAfter(profiles, m)
      ensures ok <==> Decoded(profiles, m, |profiles|) == |profiles|
    {
      for n := 0 to |profiles|
        invariant |slaves| == |profiles|
        invariant forall i :: 0 <= i < n ==>
                    Decoding(profiles, m, i).1
                    && slaves[i] == m.slaves[i].(tx := Decoding(profiles, m, i).0, received := Some(payloads[i]))
        invariant forall i :: n <= i < |profiles| ==> slaves[i] == m.slaves[i]
      {
        var (tx, decoded) := profiles[n].decode(payloads[n], slaves[n].tx);
        assert Decoding(profiles, m, n) == (tx, decoded);
        slaves := slaves[n := slaves[n].(tx := tx)];
        if !decoded {
          assert Decoded(profiles, m, |profiles|) == n;
          assert slaves == SlavesAfter(profiles, m);
          return false;
        }
        slaves := slaves[n := slaves[n].(received := Some(payloads[n]))];
      }
      assert Decoded(profiles, m, |profiles|) == |profiles|;
      assert slaves == SlavesAfter(profiles, m);
      ok := true;
    }

    method ReceiveProcessdata() returns (outcome: Outcome)
      requires Valid()
      modifies this
      ensures Valid() && (View(), outcome) == AfterReceive(profiles, old(View()))
    {
      hide Served, EndpointsAfter, Decoded, SlavesAfter;
      if !connected { return CommunicationError; }
      if !outputsSent { return OtherError; }
      ghost var m := View();
      var received, payloads := ExchangeEndpoints();
      if !received.Done? { return received; }
      wkc := |profiles|;
      for n := 0 to |slaves|
        invariant forall i :: 0 <= i < n ==> |payloads[i]| >= profiles[i].inputSize(slaves[i].tx)
      {
        if |payloads[n]| < profiles[n].inputSize(slaves[n].tx) {
          assert !LongEnough(profiles, m);
          return OtherError;
        }
      }
      assert LongEnough(profiles, m);
      var decoded := DecodeInputs(m, payloads);
      if !decoded { return OtherError; }
      outputsSent := false;
      outcome := Done;
    }
  }
}
