/** The virtual CPX-AP-I-EC station behind its object dictionary, and one whole exchange
    between the master's PDO objects and the station's modules. */
module CpxStation {
  import opened Basics
  import opened Bits
  import opened CpxLayout
  import opened CpxCodec
  import opened CpxPdo
  import opened ObjectDictionary
  import opened OdBridge

  // ----- fixed PDOs -----

  datatype PdoEntry = PdoEntry(index: int, subindex: int, bitLength: nat)
  datatype FixedPdo = FixedPdo(entries: seq<PdoEntry>)
  {
    function ByteSize(): nat { (BitSum(entries) + 7) / 8 }
  }

  function BitSum(entries: seq<PdoEntry>): nat {
    if entries == [] then 0 else BitSum(entries[..|entries| - 1]) + entries[|entries| - 1].bitLength
  }

  /** Candidate `k` holds the required bytes, no candidate that does is smaller, and none before
      it is as small. */
  predicate ChosenAt(candidates: seq<FixedPdo>, required: nat, k: nat) {
    && k < |candidates| && candidates[k].ByteSize() >= required
    && (forall i :: 0 <= i < |candidates| && candidates[i].ByteSize() >= required ==>
          candidates[k].ByteSize() <= candidates[i].ByteSize())
    && forall i :: 0 <= i < k && candidates[i].ByteSize() >= required ==>
         candidates[k].ByteSize() < candidates[i].ByteSize()
  }

  /** The smallest fixed PDO that holds the required bytes, the first of equals; none when
      even the largest is too small. */
  method SelectedFixedPdo(candidates: seq<FixedPdo>, requiredBytes: int) returns (chosen: Option<FixedPdo>)
    ensures chosen.None? <==> forall c :: c in candidates ==> c.ByteSize() < Required(requiredBytes)
    ensures chosen.Some? ==>
              exists k :: 0 <= k < |candidates| && chosen.value == candidates[k]
                          && ChosenAt(candidates, Required(requiredBytes), k)
  {
    hide BitSum;
    var required := Required(requiredBytes);
    chosen := None;
    var best := 0;
    for n := 0 to |candidates|
      invariant chosen.None? ==> forall i :: 0 <= i < n ==> candidates[i].ByteSize() < required
      invariant chosen.Some? ==>
                  best < n && chosen.value == candidates[best] && ChosenAt(candidates[..n], required, best)
    {
      var c := candidates[n];
      assert forall i :: 0 <= i < n ==> candidates[..n + 1][i] == candidates[..n][i] == candidates[i];
      if c.ByteSize() >= required && (chosen.None? || c.ByteSize() < chosen.value.ByteSize()) {
        chosen, best := Some(c), n;
      }
    }
    assert candidates[..|candidates|] == candidates;
    if chosen.Some? { assert ChosenAt(candidates, required, best) && candidates[best] in candidates; }
  }

  function Required(bytes: int): nat { if bytes < 1 then 1 else bytes }

  function BlockOf(e: PdoEntry): PdoObject {
    PdoObject(e.index, e.subindex, ByteArray((e.bitLength + 7) / 8), Some("block"))
  }

  /** One block per entry that is not padding, in order. */
  function BlocksOf(entries: seq<PdoEntry>): seq<PdoObject> {
    if entries == [] then []
    else
      var n := |entries| - 1;
      BlocksOf(entries[..n]) + if entries[n].index == 0 then [] else [BlockOf(entries[n])]
  }

  /** The bits of the entries that are not padding. */
  function MappedBits(entries: seq<PdoEntry>): nat {
    if entries == [] then 0
    else
      var n := |entries| - 1;
      MappedBits(entries[..n]) + if entries[n].index == 0 then 0 else entries[n].bitLength
  }

  predicate WholeEntries(entries: seq<PdoEntry>) {
    forall i :: 0 <= i < |entries| ==> entries[i].index != 0 && entries[i].bitLength % 8 == 0
  }

  lemma {:induction false} BlockSize(blocks: seq<PdoObject>, e: PdoEntry)
    ensures MappingSize(blocks + [BlockOf(e)]) == MappingSize(blocks) + (e.bitLength + 7) / 8
  {
    assert (blocks + [BlockOf(e)])[..|blocks|] == blocks;
  }

  /** Whole-byte entries give blocks that fill the PDO exactly; padding and partial bytes leave
      room for at least the bits that are mapped. */
  lemma {:induction false} BlocksFill(entries: seq<PdoEntry>)
    ensures 8 * MappingSize(BlocksOf(entries)) >= MappedBits(entries)
    ensures forall b :: b in BlocksOf(entries) ==> b.Mapped() && b.dataType.ByteArray?
    ensures WholeEntries(entries) ==>
              && |BlocksOf(entries)| == |entries| && 8 * MappingSize(BlocksOf(entries)) == BitSum(entries)
              && forall i :: 0 <= i < |entries| ==> BlocksOf(entries)[i] == BlockOf(entries[i])
  {
    hide MappingSize;
    if entries == [] {
      NoObjects();
    } else {
      var n := |entries| - 1;
      BlocksFill(entries[..n]);
      BlockSize(BlocksOf(entries[..n]), entries[n]);
      assert BlocksOf(entries[..n]) + [] == BlocksOf(entries[..n]);
      assert WholeEntries(entries) ==> entries[n].index != 0 && entries[n].bitLength % 8 == 0;
    }
  }

  lemma {:induction false} NoObjects()
    ensures MappingSize([]) == 0
  {
  }

  method PdoBlocks(pdo: FixedPdo) returns (blocks: seq<PdoObject>)
    ensures blocks == BlocksOf(pdo.entries)
    ensures 8 * MappingSize(blocks) >= MappedBits(pdo.entries)
    ensures WholeEntries(pdo.entries) ==> |blocks| == |pdo.entries| && MappingSize(blocks) == pdo.ByteSize()
  {
    blocks := [];
    for n := 0 to |pdo.entries|
      invariant blocks == BlocksOf(pdo.entries[..n])
    {
      var entry := pdo.entries[n];
      assert pdo.entries[..n + 1][..n] == pdo.entries[..n];
      if entry.index != 0 { blocks := blocks + [BlockOf(entry)]; }
    }
    assert pdo.entries[..|pdo.entries|] == pdo.entries;
    BlocksFill(pdo.entries);
  }

  // ----- images in the dictionary -----

  predicate ImageBlocks(blocks: seq<PdoObject>) {
    DistinctKeys(blocks) && forall i :: 0 <= i < |blocks| ==> blocks[i].Mapped() && blocks[i].dataType.ByteArray?
  }

  /** The blocks' values joined, `None` when one is missing or is not a byte string. */
  function JoinedImage(blocks: seq<PdoObject>, entries: Entries): Option<seq<Byte>> {
    if blocks == [] then Some([])
    else
      var n := |blocks| - 1;
      var earlier, key := JoinedImage(blocks[..n], entries), blocks[n].StoredAt();
      if earlier.None? || key !in entries || !entries[key].Bytes? then None
      else Some(earlier.value + entries[key].bytes)
  }

  lemma {:induction false} JoinUndoesSplit(blocks: seq<PdoObject>, image: seq<Byte>, entries: Entries, n: nat)
    requires ImageBlocks(blocks) && MappingSize(blocks) <= |image| && n <= |blocks|
    requires MappingSize(blocks[..n]) <= |image|
    ensures JoinedImage(blocks[..n], Stored(blocks, image, entries)) == Some(image[..MappingSize(blocks[..n])])
  {
    hide Stored, StorageKey;
    if n > 0 {
      assert blocks[..n][..n - 1] == blocks[..n - 1];
      JoinUndoesSplit(blocks, image, entries, n - 1);
      StoredValue(blocks, image, entries, n - 1);
      var at := MappingSize(blocks[..n - 1]);
      assert image[..at] + SliceOf(blocks, image, n - 1) == image[..MappingSize(blocks[..n])];
    }
  }

  lemma {:induction false} SendUndoesSplit(blocks: seq<PdoObject>, image: seq<Byte>, entries: Entries, n: nat)
    requires ImageBlocks(blocks) && MappingSize(blocks) <= |image| && n <= |blocks|
    requires MappingSize(blocks[..n]) <= |image|
    ensures TxPayload(blocks[..n], Stored(blocks, image, entries)) == Some(image[..MappingSize(blocks[..n])])
  {
    hide TxBytes, Stored, StorageKey;
    if n > 0 {
      assert blocks[..n][..n - 1] == blocks[..n - 1];
      SendUndoesSplit(blocks, image, entries, n - 1);
      StoredValue(blocks, image, entries, n - 1);
      var at := MappingSize(blocks[..n - 1]);
      BlockBytes(blocks[n - 1], Stored(blocks, image, entries), SliceOf(blocks, image, n - 1));
      assert TxBytes(blocks[n - 1], Stored(blocks, image, entries)) == Some(SliceOf(blocks, image, n - 1));
      assert image[..at] + SliceOf(blocks, image, n - 1) == image[..MappingSize(blocks[..n])];
    }
  }

  lemma {:induction false} BlockBytes(block: PdoObject, entries: Entries, bytes: seq<Byte>)
    requires block.Mapped() && block.dataType.ByteArray? && |bytes| == block.Size()
    requires block.StoredAt() in entries && entries[block.StoredAt()] == Bytes(bytes)
    ensures TxBytes(block, entries) == Some(bytes)
  {
  }

  /** A whole image survives being cut into objects and joined or sent again. */
  lemma {:induction false} ImageSurvives(blocks: seq<PdoObject>, image: seq<Byte>, entries: Entries)
    requires ImageBlocks(blocks) && MappingSize(blocks) == |image|
    ensures JoinedImage(blocks, Stored(blocks, image, entries)) == Some(image)
    ensures TxPayload(blocks, Stored(blocks, image, entries)) == Some(image)
  {
    assert blocks[..|blocks|] == blocks && image[..|image|] == image;
    JoinUndoesSplit(blocks, image, entries, |blocks|);
    SendUndoesSplit(blocks, image, entries, |blocks|);
  }

  // ----- the station -----

  class VirtualCpxApDevice {
    const od: VirtualOdModel
    const inputs: seq<ChannelStore>    // what the modules report
    const outputs: seq<ChannelStore>   // what the modules were told
    const rxBlocks: seq<PdoObject>
    const txBlocks: seq<PdoObject>
    const inputBytes: nat

    constructor (od: VirtualOdModel, inputs: seq<ChannelStore>, outputs: seq<ChannelStore>,
                 rxBlocks: seq<PdoObject>, txBlocks: seq<PdoObject>, inputBytes: nat)
      ensures this.od == od && this.inputs == inputs && this.outputs == outputs
      ensures this.rxBlocks == rxBlocks && this.txBlocks == txBlocks && this.inputBytes == inputBytes
    {
      this.od, this.inputs, this.outputs := od, inputs, outputs;
      this.rxBlocks, this.txBlocks, this.inputBytes := rxBlocks, txBlocks, inputBytes;
    }

    ghost predicate Ready()
      reads this, od
    {
      && Distinct(outputs) && (forall i, j :: 0 <= i < |inputs| && 0 <= j < |outputs| ==> inputs[i] != outputs[j])
      && ImageBlocks(txBlocks) && Defined(txBlocks, od.entries)
      && MappingSize(txBlocks) == inputBytes
    }

    method ReadProcessImage() returns (image: Option<seq<Byte>>)
      ensures image == JoinedImage(rxBlocks, od.entries)
    {
      var joined: seq<Byte> := [];
      for n := 0 to |rxBlocks|
        invariant JoinedImage(rxBlocks[..n], od.entries) == Some(joined)
      {
        assert rxBlocks[..n + 1][..n] == rxBlocks[..n];
        var value := od.Read(rxBlocks[n].index, rxBlocks[n].subindex);
        if value.None? || !value.value.Bytes? {
          JoinFails(rxBlocks, od.entries, n + 1);
          return None;
        }
        joined := joined + value.value.bytes;
      }
      assert rxBlocks[..|rxBlocks|] == rxBlocks;
      return Some(joined);
    }

    method WriteProcessImage(image: seq<Byte>)
      requires ImageBlocks(txBlocks) && Defined(txBlocks, od.entries) && MappingSize(txBlocks) <= |image|
      modifies od
      ensures od.entries == Stored(txBlocks, image, old(od.entries))
    {
      hide StorageKey;
      var offset := 0;
      for n := 0 to |txBlocks|
        invariant offset == MappingSize(txBlocks[..n]) <= |image|
        invariant od.entries == Stored(txBlocks[..n], image, old(od.entries))
        invariant od.entries.Keys == old(od.entries).Keys
      {
        var obj := txBlocks[n];
        assert txBlocks[..n + 1][..n] == txBlocks[..n];
        SizesGrow(txBlocks, n, |txBlocks|);
        assert txBlocks[..|txBlocks|] == txBlocks;
        var end := offset + obj.Size();
        assert obj.StoredAt() in od.entries;
        var ok := od.WriteInternal(obj.index, obj.subindex, Bytes(image[offset..end]));
        offset := end;
      }
      assert txBlocks[..|txBlocks|] == txBlocks;
    }

    /** Consume the output objects, publish the input objects. */
    method ModelUpdate() returns (ok: bool)
      requires Ready()
      modifies od, outputs
      ensures ok <==> JoinedImage(rxBlocks, old(od.entries)).Some?
      ensures ok ==> forall i :: 0 <= i < |outputs| ==>
                outputs[i].channels
                == Decode(outputs[i].port, JoinedImage(rxBlocks, old(od.entries)).value, old(outputs[i].channels))
      ensures ok ==>
                od.entries
                == Stored(txBlocks, EncodeAll(PortsOf(inputs), old(ChannelsOf(inputs)), inputBytes), old(od.entries))
    {
      hide Decode, EncodeAll;
      var outputImage := ReadProcessImage();
      if outputImage.None? { return false; }
      LoadStores(outputs, outputImage.value);
      var inputImage := EncodeStores(inputs, inputBytes);
      assert ChannelsOf(inputs) == old(ChannelsOf(inputs));
      WriteProcessImage(inputImage);
      ok := true;
    }
  }

  lemma {:induction false} JoinFails(blocks: seq<PdoObject>, entries: Entries, n: nat)
    requires n <= |blocks| && JoinedImage(blocks[..n], entries).None?
    ensures JoinedImage(blocks, entries).None?
    decreases |blocks| - n
  {
    if n < |blocks| {
      assert blocks[..n + 1][..n] == blocks[..n];
      JoinFails(blocks, entries, n + 1);
    } else {
      assert blocks[..n] == blocks;
    }
  }

  // ----- one exchange, master to modules and back -----

  /** What one exchange delivers, for an assigned layout: every module's outputs become the
      master's, every master input becomes the module's. */
  lemma {:induction false} ExchangeDelivers(modules: seq<Module>, layout: seq<Module>, rxBlocks: seq<PdoObject>, txBlocks: seq<PdoObject>,
                         entries: Entries, entries': Entries,
                         commanded: seq<Channels>, told: seq<Channels>, reported: seq<Channels>, seen: seq<Channels>)
    requires Assigned(layout, modules) && forall i :: 0 <= i < |modules| ==> Sized(modules[i])
    requires ImageBlocks(rxBlocks) && TotalOutput(modules) <= MappingSize(rxBlocks)
    requires ImageBlocks(txBlocks) && TotalInput(modules) <= MappingSize(txBlocks)
    requires AllFit(OutputPorts(layout), commanded) && AllFit(OutputPorts(layout), told)
    requires AllFit(InputPorts(layout), reported) && AllFit(InputPorts(layout), seen)
    ensures var sent := EncodeAll(OutputPorts(layout), commanded, MappingSize(rxBlocks));
            var outputImage := JoinedImage(rxBlocks, Stored(rxBlocks, sent, entries));
            outputImage.Some? && forall i :: 0 <= i < |layout| ==>
              Decode(OutputPort(layout[i]), outputImage.value, told[i]) == commanded[i]
    ensures var published := EncodeAll(InputPorts(layout), reported, MappingSize(txBlocks));
            var payload := TxPayload(txBlocks, Stored(txBlocks, published, entries'));
            payload.Some? && |payload.value| == MappingSize(txBlocks) && forall i :: 0 <= i < |layout| ==>
              Decode(InputPort(layout[i]), payload.value, seen[i]) == reported[i]
  {
    hide Decode, EncodeAll, Encode;
    LayoutPartitions(layout, modules);
    var outs, ins := OutputPorts(layout), InputPorts(layout);
    ImageSurvives(rxBlocks, EncodeAll(outs, commanded, MappingSize(rxBlocks)), entries);
    ImageSurvives(txBlocks, EncodeAll(ins, reported, MappingSize(txBlocks)), entries');
    forall i | 0 <= i < |layout|
      ensures Decode(OutputPort(layout[i]), EncodeAll(outs, commanded, MappingSize(rxBlocks)), told[i]) == commanded[i]
      ensures Decode(InputPort(layout[i]), EncodeAll(ins, reported, MappingSize(txBlocks)), seen[i]) == reported[i]
    {
      FullImage(outs, commanded, MappingSize(rxBlocks), TotalOutput(modules), i, told[i]);
      FullImage(ins, reported, MappingSize(txBlocks), TotalInput(modules), i, seen[i]);
      EmptyChannels(outs[i], commanded[i], told[i]);
      EmptyChannels(ins[i], reported[i], seen[i]);
    }
  }

  /** A port without bytes has no channels to carry. */
  lemma {:induction false} EmptyChannels(p: Port, a: Channels, b: Channels)
    requires Placed(p) && Fits(p, a) && Fits(p, b)
    ensures p.offset.None? ==> a == b
  {
    if p.analog > 0 { PositiveProduct(p.analog, p.width); }
  }

  lemma {:induction false} PositiveProduct(a: nat, b: nat)
    requires a > 0 && b > 0
    ensures a * b > 0
  {
  }

  /** The station's side of an exchange: store the payload, run the model, answer. */
  method ExchangeProcessData(slave: VirtualCpxApDevice, bridge: VirtualOdBridge, payload: seq<Byte>)
    returns (response: Option<seq<Byte>>)
    requires slave.Ready() && bridge.od == slave.od
    requires bridge.rxObjects == slave.rxBlocks && bridge.txObjects == slave.txBlocks
    requires ImageBlocks(slave.rxBlocks) && Defined(slave.rxBlocks, slave.od.entries)
    requires MappingSize(slave.rxBlocks) == |payload|
    modifies slave.od, slave.outputs
    ensures var entries := Stored(slave.rxBlocks, payload, old(slave.od.entries));
            var published := EncodeAll(PortsOf(slave.inputs), old(ChannelsOf(slave.inputs)), slave.inputBytes);
            && (forall i :: 0 <= i < |slave.outputs| ==>
                  slave.outputs[i].channels == Decode(slave.outputs[i].port, payload, old(slave.outputs[i].channels)))
            && response == TxPayload(slave.txBlocks, Stored(slave.txBlocks, published, entries))
  {
    hide Decode, EncodeAll, Stored, JoinedImage, TxPayload, MappingSize;
    ghost var entries := slave.od.entries;
    var ok, stored := bridge.RxPdoPayloadToOd(payload);
    assert slave.rxBlocks[..stored] == slave.rxBlocks;
    StoredKeys(slave.rxBlocks, payload, entries);
    ImageSurvives(slave.rxBlocks, payload, entries);
    ok := slave.ModelUpdate();
    response := bridge.OdToTxPdoPayload();
  }

  lemma {:induction false} StoresFit(stores: seq<ChannelStore>)
    requires forall s :: s in stores ==> s.Valid()
    ensures AllFit(PortsOf(stores), ChannelsOf(stores))
  {
    hide Fits;
    assert forall i :: 0 <= i < |stores| ==> stores[i] in stores;
  }

  /** The exchange itself, through encode, object split, rejoin, decode, and the way back. The
      outputs a module receives are those the master held when the payload was prepared. */
  method Exchange(master: seq<ChannelStore>, slave: VirtualCpxApDevice, bridge: VirtualOdBridge,
                  feedback: seq<ChannelStore>, modules: seq<Module>, layout: seq<Module>)
    returns (ok: bool)
    requires Assigned(layout, modules) && forall i :: 0 <= i < |modules| ==> Sized(modules[i])
    requires slave.Ready() && bridge.od == slave.od
    requires bridge.rxObjects == slave.rxBlocks && bridge.txObjects == slave.txBlocks
    requires ImageBlocks(slave.rxBlocks) && Defined(slave.rxBlocks, slave.od.entries)
    requires TotalOutput(modules) <= MappingSize(slave.rxBlocks)
    requires TotalInput(modules) <= MappingSize(slave.txBlocks)
    requires PortsOf(master) == OutputPorts(layout) && PortsOf(slave.outputs) == OutputPorts(layout)
    requires PortsOf(feedback) == InputPorts(layout) && PortsOf(slave.inputs) == InputPorts(layout)
    requires forall s :: s in master + slave.outputs + feedback + slave.inputs ==> s.Valid()
    requires Distinct(feedback)
    requires forall s :: s in feedback ==> s !in master && s !in slave.outputs && s !in slave.inputs
    modifies slave.od, slave.outputs, feedback
    ensures ok
    ensures forall i :: 0 <= i < |layout| ==> slave.outputs[i].channels == old(master[i].channels)
    ensures forall i :: 0 <= i < |layout| ==> feedback[i].channels == old(slave.inputs[i].channels)
  {
    hide Decode, EncodeAll, Stored, JoinedImage, TxPayload, MappingSize, Fits, TotalInput, TotalOutput, Assigned, Sized;
    StoresFit(master);
    StoresFit(slave.outputs);
    StoresFit(slave.inputs);
    StoresFit(feedback);
    ghost var commanded, told := ChannelsOf(master), ChannelsOf(slave.outputs);
    ghost var reported, seen := ChannelsOf(slave.inputs), ChannelsOf(feedback);
    ghost var entries := slave.od.entries;
    var size := SizeOf(slave.rxBlocks);
    var payload := EncodeStores(master, size);
    ExchangeDelivers(modules, layout, slave.rxBlocks, slave.txBlocks, entries,
                     Stored(slave.rxBlocks, payload, entries), commanded, told, reported, seen);
    ImageSurvives(slave.rxBlocks, payload, entries);
    var response := ExchangeProcessData(slave, bridge, payload);
    forall i | 0 <= i < |layout|
      ensures slave.outputs[i].channels == commanded[i] && slave.outputs[i] !in feedback
      ensures feedback[i].channels == seen[i]
    {
      assert PortsOf(slave.outputs)[i] == OutputPort(layout[i]) && told[i] == old(slave.outputs[i].channels);
      assert slave.outputs[i] in slave.outputs;
      assert PortsOf(feedback)[i] == InputPort(layout[i]) && feedback[i] in feedback;
    }
    LoadStores(feedback, response.value);
    forall i | 0 <= i < |layout|
      ensures feedback[i].channels == reported[i]
    {
      assert PortsOf(feedback)[i] == InputPort(layout[i]);
    }
    ok := true;
  }
}
