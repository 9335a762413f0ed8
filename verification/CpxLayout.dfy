/** The modules of a CPX-AP-I-EC station and their place in the process image. */
module CpxLayout {
  import opened Basics

  datatype Spec =
    | Digital(inputs: nat, outputs: nat)
    | Analog(inputs: nat, outputs: nat, bits: nat, signed: bool)
    | IoLinkPorts(ports: nat, inputData: nat, outputData: nat)

  datatype Module = Module(slot: int, spec: Spec, inputBytes: nat, outputBytes: nat,
                           inputOffset: Option<nat>, outputOffset: Option<nat>)

  /** One direction of a module: where it lies in the image and what it carries. */
  datatype Port = Port(offset: Option<nat>, bytes: nat, digital: nat, analog: nat, width: nat,
                       signed: bool, ioLink: bool)

  function OutputPort(m: Module): Port {
    match m.spec
    case Digital(_, outputs) => Port(m.outputOffset, m.outputBytes, outputs, 0, 0, true, false)
    case Analog(_, outputs, bits, signed) => Port(m.outputOffset, m.outputBytes, 0, outputs, bits / 8, signed, false)
    case IoLinkPorts(_, _, _) => Port(m.outputOffset, m.outputBytes, 0, 0, 0, true, true)
  }

  function InputPort(m: Module): Port {
    match m.spec
    case Digital(inputs, _) => Port(m.inputOffset, m.inputBytes, inputs, 0, 0, true, false)
    case Analog(inputs, _, bits, signed) => Port(m.inputOffset, m.inputBytes, 0, inputs, bits / 8, signed, false)
    case IoLinkPorts(_, _, _) => Port(m.inputOffset, m.inputBytes, 0, 0, 0, true, true)
  }

  /** The byte sizes cover the declared channels. */
  predicate Sized(m: Module) {
    match m.spec
    case Digital(inputs, outputs) => inputs <= 8 * m.inputBytes && outputs <= 8 * m.outputBytes
    case Analog(inputs, outputs, bits, _) =>
      && bits in {8, 16, 32}
      && inputs * (bits / 8) <= m.inputBytes && outputs * (bits / 8) <= m.outputBytes
    case IoLinkPorts(_, _, _) => true
  }

  // ----- shorthand constructors -----

  function BytesForBits(bits: int): nat { ((if bits < 0 then 0 else bits) + 7) / 8 }

  function DigitalModule(slot: int, inputs: nat, outputs: nat): (m: Module)
    ensures Sized(m)
    ensures 8 * (m.inputBytes - 1) < inputs <= 8 * m.inputBytes
    ensures 8 * (m.outputBytes - 1) < outputs <= 8 * m.outputBytes
    ensures InputPort(m).digital == inputs && OutputPort(m).digital == outputs
  {
    Module(slot, Digital(inputs, outputs), BytesForBits(inputs), BytesForBits(outputs), None, None)
  }

  function AnalogModule(slot: int, inputs: nat, outputs: nat, bits: nat, signed: bool): (m: Module)
    requires bits in {8, 16, 32}
    ensures Sized(m) && 8 * m.inputBytes == inputs * bits && 8 * m.outputBytes == outputs * bits
    ensures InputPort(m).analog == inputs && OutputPort(m).analog == outputs
    ensures forall p :: p in {InputPort(m), OutputPort(m)} ==> 8 * p.width == bits && p.signed == signed
  {
    Module(slot, Analog(inputs, outputs, bits, signed), inputs * (bits / 8), outputs * (bits / 8), None, None)
  }

  function IoLinkModule(slot: int, ports: nat, inputData: nat, outputData: nat): (m: Module)
    ensures Sized(m) && m.inputBytes == inputData + ports && m.outputBytes == outputData
    ensures InputPort(m).ioLink && OutputPort(m).ioLink
  {
    Module(slot, IoLinkPorts(ports, inputData, outputData), inputData + ports, outputData, None, None)
  }

  // ----- offsets -----

  function TotalInput(modules: seq<Module>): nat {
    if modules == [] then 0 else TotalInput(modules[..|modules| - 1]) + modules[|modules| - 1].inputBytes
  }

  function TotalOutput(modules: seq<Module>): nat {
    if modules == [] then 0 else TotalOutput(modules[..|modules| - 1]) + modules[|modules| - 1].outputBytes
  }

  /** Module `i` where the modules before it end. */
  function Shifted(modules: seq<Module>, i: nat): Module
    requires i < |modules|
  {
    modules[i].(
      inputOffset := if modules[i].inputBytes > 0 then Some(TotalInput(modules[..i])) else None,
      outputOffset := if modules[i].outputBytes > 0 then Some(TotalOutput(modules[..i])) else None)
  }

  /** Each module with bytes in a direction starts where the modules before it end. */
  predicate Assigned(result: seq<Module>, modules: seq<Module>) {
    |result| == |modules| && forall i :: 0 <= i < |modules| ==> result[i] == Shifted(modules, i)
  }

  method AssignProcessImageOffsets(modules: seq<Module>) returns (result: seq<Module>)
    ensures Assigned(result, modules)
  {
    hide TotalInput, TotalOutput;
    var inputOffset, outputOffset := 0, 0;
    result := [];
    NoTotals(modules[..0]);
    for n := 0 to |modules|
      invariant |result| == n && forall i :: 0 <= i < n ==> result[i] == Shifted(modules, i)
      invariant inputOffset == TotalInput(modules[..n]) && outputOffset == TotalOutput(modules[..n])
    {
      var m := modules[n];
      TotalsStep(modules, n);
      result := result + [m.(inputOffset := if m.inputBytes > 0 then Some(inputOffset) else None,
                             outputOffset := if m.outputBytes > 0 then Some(outputOffset) else None)];
      inputOffset := inputOffset + m.inputBytes;
      outputOffset := outputOffset + m.outputBytes;
    }
  }

  lemma {:induction false} NoTotals(modules: seq<Module>)
    requires modules == []
    ensures TotalInput(modules) == 0 && TotalOutput(modules) == 0
  {
  }

  lemma {:induction false} TotalsStep(modules: seq<Module>, n: nat)
    requires n < |modules|
    ensures TotalInput(modules[..n + 1]) == TotalInput(modules[..n]) + modules[n].inputBytes
    ensures TotalOutput(modules[..n + 1]) == TotalOutput(modules[..n]) + modules[n].outputBytes
  {
    assert modules[..n + 1][..n] == modules[..n];
  }

  /** A port that covers its channels and is placed exactly if it has bytes. */
  predicate Placed(p: Port) {
    && (p.offset.Some? <==> p.bytes > 0)
    && p.digital <= 8 * p.bytes
    && p.analog * p.width <= p.bytes
    && (p.analog > 0 ==> p.width > 0)
    && (p.digital > 0 ==> p.analog == 0 && !p.ioLink)
    && (p.analog > 0 ==> !p.ioLink)
  }

  /** Regions in order, without overlap, and inside the first `total` bytes. */
  predicate Partitioned(ports: seq<Port>, total: nat) {
    && (forall i :: 0 <= i < |ports| ==> Placed(ports[i]))
    && (forall i, j :: 0 <= i < j < |ports| && ports[i].offset.Some? && ports[j].offset.Some? ==>
          ports[i].offset.value + ports[i].bytes <= ports[j].offset.value)
    && (forall i :: 0 <= i < |ports| && ports[i].offset.Some? ==>
          ports[i].offset.value + ports[i].bytes <= total)
  }

  function OutputPorts(modules: seq<Module>): seq<Port> {
    seq(|modules|, i requires 0 <= i < |modules| => OutputPort(modules[i]))
  }

  function InputPorts(modules: seq<Module>): seq<Port> {
    seq(|modules|, i requires 0 <= i < |modules| => InputPort(modules[i]))
  }

  lemma {:induction false} TotalsGrow(modules: seq<Module>, i: nat, j: nat)
    requires i < j <= |modules|
    ensures TotalInput(modules[..i]) + modules[i].inputBytes <= TotalInput(modules[..j])
    ensures TotalOutput(modules[..i]) + modules[i].outputBytes <= TotalOutput(modules[..j])
  {
    assert modules[..j][..j - 1] == modules[..j - 1];
    if i < j - 1 { TotalsGrow(modules, i, j - 1); }
  }

  lemma {:induction false} OffsetsOrdered(result: seq<Module>, modules: seq<Module>)
    requires Assigned(result, modules)
    ensures forall i, j :: 0 <= i < j < |modules| && result[i].outputOffset.Some? && result[j].outputOffset.Some? ==>
              result[i].outputOffset.value + result[i].outputBytes <= result[j].outputOffset.value
    ensures forall i, j :: 0 <= i < j < |modules| && result[i].inputOffset.Some? && result[j].inputOffset.Some? ==>
              result[i].inputOffset.value + result[i].inputBytes <= result[j].inputOffset.value
    ensures forall i :: 0 <= i < |modules| && result[i].outputOffset.Some? ==>
              result[i].outputOffset.value + result[i].outputBytes <= TotalOutput(modules)
    ensures forall i :: 0 <= i < |modules| && result[i].inputOffset.Some? ==>
              result[i].inputOffset.value + result[i].inputBytes <= TotalInput(modules)
  {
    hide TotalInput, TotalOutput;
    forall i, j | 0 <= i < j < |modules|
      ensures TotalInput(modules[..i]) + modules[i].inputBytes <= TotalInput(modules[..j])
      ensures TotalOutput(modules[..i]) + modules[i].outputBytes <= TotalOutput(modules[..j])
    {
      TotalsGrow(modules, i, j);
    }
    forall i | 0 <= i < |modules|
      ensures TotalInput(modules[..i]) + modules[i].inputBytes <= TotalInput(modules)
      ensures TotalOutput(modules[..i]) + modules[i].outputBytes <= TotalOutput(modules)
    {
      TotalsGrow(modules, i, |modules|);
      assert modules[..|modules|] == modules;
    }
  }

  /** The regions of an assigned layout are ordered and disjoint, and cover the module part of
      the image exactly: every byte of it belongs to one module. */
  lemma {:induction false} LayoutPartitions(result: seq<Module>, modules: seq<Module>)
    requires Assigned(result, modules) && forall i :: 0 <= i < |modules| ==> Sized(modules[i])
    ensures Partitioned(OutputPorts(result), TotalOutput(modules))
    ensures Partitioned(InputPorts(result), TotalInput(modules))
    ensures forall b: nat :: b < TotalOutput(modules) ==> Owned(OutputPorts(result), b)
    ensures forall b: nat :: b < TotalInput(modules) ==> Owned(InputPorts(result), b)
  {
    hide Placed, OutputPort, InputPort;
    OffsetsOrdered(result, modules);
    forall i | 0 <= i < |modules|
      ensures Placed(OutputPorts(result)[i]) && Placed(InputPorts(result)[i])
    {
      assert Sized(modules[i]);
      PlacedPort(result[i]);
    }
    forall i | 0 <= i < |modules|
      ensures OutputPorts(result)[i].offset == result[i].outputOffset
      ensures OutputPorts(result)[i].bytes == result[i].outputBytes
      ensures InputPorts(result)[i].offset == result[i].inputOffset
      ensures InputPorts(result)[i].bytes == result[i].inputBytes
    {
      PlacedPort(result[i]);
    }
    assert modules[..|modules|] == modules;
    forall b: nat | b < TotalOutput(modules)
      ensures Owned(OutputPorts(result), b)
    {
      var i := OutputOwner(result, modules, |modules|, b);
    }
    forall b: nat | b < TotalInput(modules)
      ensures Owned(InputPorts(result), b)
    {
      var i := InputOwner(result, modules, |modules|, b);
    }
  }

  predicate InRegion(ports: seq<Port>, i: int, b: nat) {
    0 <= i < |ports| && ports[i].offset.Some?
    && ports[i].offset.value <= b < ports[i].offset.value + ports[i].bytes
  }

  ghost predicate Owned(ports: seq<Port>, b: nat) { exists i :: InRegion(ports, i, b) }

  lemma {:induction false} PlacedPort(m: Module)
    requires Sized(m)
    requires (m.inputOffset.Some? <==> m.inputBytes > 0) && (m.outputOffset.Some? <==> m.outputBytes > 0)
    ensures Placed(OutputPort(m)) && Placed(InputPort(m))
    ensures OutputPort(m).offset == m.outputOffset && OutputPort(m).bytes == m.outputBytes
    ensures InputPort(m).offset == m.inputOffset && InputPort(m).bytes == m.inputBytes
  {
  }

  lemma {:induction false} OutputOwner(result: seq<Module>, modules: seq<Module>, n: nat, b: nat) returns (i: int)
    requires Assigned(result, modules) && n <= |modules| && b < TotalOutput(modules[..n])
    ensures InRegion(OutputPorts(result), i, b)
  {
    assert modules[..n][..n - 1] == modules[..n - 1];
    if b < TotalOutput(modules[..n - 1]) { i := OutputOwner(result, modules, n - 1, b); } else { i := n - 1; }
  }

  lemma {:induction false} InputOwner(result: seq<Module>, modules: seq<Module>, n: nat, b: nat) returns (i: int)
    requires Assigned(result, modules) && n <= |modules| && b < TotalInput(modules[..n])
    ensures InRegion(InputPorts(result), i, b)
  {
    assert modules[..n][..n - 1] == modules[..n - 1];
    if b < TotalInput(modules[..n - 1]) { i := InputOwner(result, modules, n - 1, b); } else { i := n - 1; }
  }
}
