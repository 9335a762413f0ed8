/** PDO payloads to and from a virtual object dictionary, object by object along the mapping. */
module OdBridge {
  import opened Basics
  import opened Bits
  import opened ObjectDictionary

  datatype PdoObject = PdoObject(index: int, subindex: int, dataType: OdType, field: Option<string>)
  {
    function Size(): nat { ByteLength(dataType) }
    function StoredAt(): Key { StorageKey(index, subindex) }
    /** Padding occupies bytes of the payload and no object of the dictionary. */
    predicate Mapped() { index != 0 && field.Some? }
  }

  /** Bytes occupied by the objects of a mapping. */
  function MappingSize(objects: seq<PdoObject>): nat {
    if objects == [] then 0 else MappingSize(objects[..|objects| - 1]) + objects[|objects| - 1].Size()
  }

  method SizeOf(objects: seq<PdoObject>) returns (size: nat)
    ensures size == MappingSize(objects)
  {
    size := 0;
    for n := 0 to |objects|
      invariant size == MappingSize(objects[..n])
    {
      assert objects[..n + 1][..n] == objects[..n];
      size := size + objects[n].Size();
    }
    assert objects[..|objects|] == objects;
  }

  lemma {:induction false} SizesGrow(objects: seq<PdoObject>, i: nat, n: nat)
    requires i < n <= |objects|
    ensures MappingSize(objects[..i]) + objects[i].Size() <= MappingSize(objects[..n])
  {
    assert objects[..n][..n - 1] == objects[..n - 1];
    if i < n - 1 { SizesGrow(objects, i, n - 1); }
  }

  /** The payload bytes of object `i`. */
  function SliceOf(objects: seq<PdoObject>, payload: seq<Byte>, i: nat): (r: seq<Byte>)
    requires i < |objects| && MappingSize(objects) <= |payload|
    ensures |r| == objects[i].Size()
  {
    SizesGrow(objects, i, |objects|);
    assert objects[..|objects|] == objects;
    var offset := MappingSize(objects[..i]);
    payload[offset..offset + objects[i].Size()]
  }

  type Entries = map<Key, OdValue>

  predicate DistinctKeys(objects: seq<PdoObject>) {
    forall i, j :: 0 <= i < j < |objects| && objects[i].Mapped() && objects[j].Mapped() ==>
      objects[i].StoredAt() != objects[j].StoredAt()
  }

  predicate Defined(objects: seq<PdoObject>, entries: Entries) {
    forall i :: 0 <= i < |objects| && objects[i].Mapped() ==> objects[i].StoredAt() in entries
  }

  /** The dictionary after each mapped object, in order, is given its bytes of the payload. */
  function Stored(objects: seq<PdoObject>, payload: seq<Byte>, entries: Entries): Entries
    requires MappingSize(objects) <= |payload|
  {
    if objects == [] then entries
    else
      var n := |objects| - 1;
      var before := Stored(objects[..n], payload, entries);
      if !objects[n].Mapped() then before
      else before[objects[n].StoredAt() := DecodeValue(objects[n].dataType, SliceOf(objects, payload, n))]
  }

  /** With distinct keys every mapped object ends up with its own slice, and nothing else changes. */
  lemma {:induction false} StoredValue(objects: seq<PdoObject>, payload: seq<Byte>, entries: Entries, i: nat)
    requires MappingSize(objects) <= |payload| && DistinctKeys(objects) && i < |objects| && objects[i].Mapped()
    ensures var after := Stored(objects, payload, entries);
            objects[i].StoredAt() in after
            && after[objects[i].StoredAt()] == DecodeValue(objects[i].dataType, SliceOf(objects, payload, i))
  {
    hide DecodeValue;
    var n := |objects| - 1;
    if i < n {
      StoredValue(objects[..n], payload, entries, i);
      assert objects[..n][..i] == objects[..i];
      assert SliceOf(objects[..n], payload, i) == SliceOf(objects, payload, i);
    }
  }

  lemma {:induction false} StoredElsewhere(objects: seq<PdoObject>, payload: seq<Byte>, entries: Entries, k: Key)
    requires MappingSize(objects) <= |payload|
    requires forall i :: 0 <= i < |objects| && objects[i].Mapped() ==> objects[i].StoredAt() != k
    ensures k in Stored(objects, payload, entries) <==> k in entries
    ensures k in entries ==> Stored(objects, payload, entries)[k] == entries[k]
  {
    if objects != [] { StoredElsewhere(objects[..|objects| - 1], payload, entries, k); }
  }

  lemma {:induction false} StoredKeys(objects: seq<PdoObject>, payload: seq<Byte>, entries: Entries)
    requires MappingSize(objects) <= |payload| && Defined(objects, entries)
    ensures Stored(objects, payload, entries).Keys == entries.Keys
  {
    if objects != [] {
      var n := |objects| - 1;
      assert objects[n].Mapped() ==> objects[n].StoredAt() in entries;
      StoredKeys(objects[..n], payload, entries);
    }
  }

  /** The bytes one object contributes to a transmit payload. */
  function TxBytes(o: PdoObject, entries: Entries): (r: Option<seq<Byte>>)
    ensures r.Some? ==> |r.value| == o.Size()
  {
    if !o.Mapped() then Some(ZeroBytes(o.Size()))
    else if o.StoredAt() !in entries then None
    else EncodeValue(o.dataType, entries[o.StoredAt()])
  }

  function TxPayload(objects: seq<PdoObject>, entries: Entries): (r: Option<seq<Byte>>)
    ensures r.Some? ==> |r.value| == MappingSize(objects)
  {
    if objects == [] then Some([])
    else
      var n := |objects| - 1;
      var earlier, last := TxPayload(objects[..n], entries), TxBytes(objects[n], entries);
      if earlier.None? || last.None? then None else Some(earlier.value + last.value)
  }

  lemma {:induction false} TxSlices(objects: seq<PdoObject>, entries: Entries, i: nat)
    requires i < |objects| && TxPayload(objects, entries).Some?
    ensures TxBytes(objects[i], entries) == Some(SliceOf(objects, TxPayload(objects, entries).value, i))
  {
    var n := |objects| - 1;
    var payload := TxPayload(objects, entries).value;
    var earlier := TxPayload(objects[..n], entries).value;
    if i == n {
      assert SliceOf(objects, payload, n) == TxBytes(objects[n], entries).value;
    } else {
      TxSlices(objects[..n], entries, i);
      assert objects[..n][..i] == objects[..i];
      SizesGrow(objects, i, n);
      assert SliceOf(objects, payload, i) == SliceOf(objects[..n], earlier, i);
    }
  }

  lemma {:induction false} TxFails(objects: seq<PdoObject>, entries: Entries, n: nat)
    requires n < |objects| && TxBytes(objects[n], entries).None?
    ensures TxPayload(objects, entries).None?
  {
    if n < |objects| - 1 { TxFails(objects[..|objects| - 1], entries, n); }
  }

  class VirtualOdBridge {
    const od: VirtualOdModel
    const rxObjects: seq<PdoObject>
    const txObjects: seq<PdoObject>

    constructor (od: VirtualOdModel, rxObjects: seq<PdoObject>, txObjects: seq<PdoObject>)
      ensures this.od == od && this.rxObjects == rxObjects && this.txObjects == txObjects
    {
      this.od, this.rxObjects, this.txObjects := od, rxObjects, txObjects;
    }

    /** A payload that is too short, or a mapped object the dictionary does not have, fails with
        exactly the objects before it stored. */
    method RxPdoPayloadToOd(payload: seq<Byte>) returns (ok: bool, ghost stored: nat)
      modifies od
      ensures ok <==> MappingSize(rxObjects) <= |payload| && Defined(rxObjects, old(od.entries))
      ensures stored <= |rxObjects| && (ok ==> stored == |rxObjects|)
      ensures MappingSize(rxObjects[..stored]) <= |payload| && Defined(rxObjects[..stored], old(od.entries))
      ensures !ok ==> stored < |rxObjects|
                      && (MappingSize(rxObjects[..stored + 1]) > |payload|
                          || (rxObjects[stored].Mapped() && rxObjects[stored].StoredAt() !in old(od.entries)))
      ensures od.entries == Stored(rxObjects[..stored], payload, old(od.entries))
    {
      hide DecodeValue;
      var offset := 0;
      stored := 0;
      for n := 0 to |rxObjects|
        invariant offset == MappingSize(rxObjects[..n]) <= |payload| && stored == n
        invariant od.entries == Stored(rxObjects[..n], payload, old(od.entries))
        invariant od.entries.Keys == old(od.entries).Keys && Defined(rxObjects[..n], old(od.entries))
      {
        var obj := rxObjects[n];
        var end := offset + obj.Size();
        assert rxObjects[..n + 1][..n] == rxObjects[..n];
        if end > |payload| {
          SizesGrow(rxObjects, n, |rxObjects|);
          assert rxObjects[..|rxObjects|] == rxObjects;
          return false, n;
        }
        var rawValue := payload[offset..end];
        if obj.Mapped() {
          var written := od.Write(obj.index, obj.subindex, DecodeValue(obj.dataType, rawValue));
          if !written { return false, n; }
        }
        offset, stored := end, n + 1;
      }
      assert rxObjects[..|rxObjects|] == rxObjects;
      ok := true;
    }

    method OdToTxPdoPayload() returns (payload: Option<seq<Byte>>)
      ensures payload == TxPayload(txObjects, od.entries)
    {
      var buffer: seq<Byte> := [];
      for n := 0 to |txObjects|
        invariant TxPayload(txObjects[..n], od.entries) == Some(buffer)
      {
        var obj := txObjects[n];
        assert txObjects[..n + 1][..n] == txObjects[..n];
        if !obj.Mapped() {
          buffer := buffer + ZeroBytes(obj.Size());
          continue;
        }
        var value := od.Read(obj.index, obj.subindex);
        var bytes := if value.None? then None else EncodeValue(obj.dataType, value.value);
        if bytes.None? {
          TxFails(txObjects, od.entries, n);
          return None;
        }
        buffer := buffer + bytes.value;
      }
      assert txObjects[..|txObjects|] == txObjects;
      return Some(buffer);
    }
  }
}
