/** The master's codec for CMMT drives, and its agreement with the virtual drive's bridge. */
module CmmtCodec {
  import opened Basics
  import opened Bits
  import opened ObjectDictionary
  import opened OdBridge

  /** The attributes of a PDO object on the master side. */
  type Fields = map<string, OdValue>

  /** The bytes of one mapping entry, `None` when a field is missing or out of range. */
  function PackEntry(o: PdoObject, source: Fields): (r: Option<seq<Byte>>)
    ensures r.Some? ==> |r.value| == o.Size()
  {
    if o.field.None? then Some(ZeroBytes(o.Size()))
    else if o.field.value !in source then None
    else EncodeValue(o.dataType, source[o.field.value])
  }

  function Encoded(mapping: seq<PdoObject>, source: Fields): (r: Option<seq<Byte>>)
    ensures r.Some? ==> |r.value| == MappingSize(mapping)
  {
    if mapping == [] then Some([])
    else
      var n := |mapping| - 1;
      var earlier, last := Encoded(mapping[..n], source), PackEntry(mapping[n], source);
      if earlier.None? || last.None? then None else Some(earlier.value + last.value)
  }

  function Decoded(payload: seq<Byte>, mapping: seq<PdoObject>, target: Fields): Fields
    requires MappingSize(mapping) <= |payload|
  {
    if mapping == [] then target
    else
      var n := |mapping| - 1;
      var before := Decoded(payload, mapping[..n], target);
      if mapping[n].field.None? then before
      else before[mapping[n].field.value := DecodeValue(mapping[n].dataType, SliceOf(mapping, payload, n))]
  }

  method EncodeMapping(mapping: seq<PdoObject>, source: Fields) returns (payload: Option<seq<Byte>>)
    ensures payload == Encoded(mapping, source)
  {
    var buffer: seq<Byte> := [];
    for n := 0 to |mapping|
      invariant Encoded(mapping[..n], source) == Some(buffer)
    {
      var obj := mapping[n];
      assert mapping[..n + 1][..n] == mapping[..n];
      if obj.field.None? {
        buffer := buffer + ZeroBytes(obj.Size());
        continue;
      }
      var bytes := PackEntry(obj, source);
      if bytes.None? {
        EncodingFails(mapping, source, n);
        return None;
      }
      buffer := buffer + bytes.value;
    }
    assert mapping[..|mapping|] == mapping;
    return Some(buffer);
  }

  lemma {:induction false} EncodingFails(mapping: seq<PdoObject>, source: Fields, n: nat)
    requires n < |mapping| && PackEntry(mapping[n], source).None?
    ensures Encoded(mapping, source).None?
  {
    if n < |mapping| - 1 { EncodingFails(mapping[..|mapping| - 1], source, n); }
  }

  /** Decoding is guarded by the mapping size, as decode_rxpdo and decode_txpdo are. */
  method DecodeMapping(payload: seq<Byte>, mapping: seq<PdoObject>, target: Fields)
    returns (ok: bool, result: Fields)
    ensures ok <==> MappingSize(mapping) <= |payload|
    ensures result == if ok then Decoded(payload, mapping, target) else target
  {
    hide DecodeValue;
    result := target;
    var size := SizeOf(mapping);
    assert mapping[..|mapping|] == mapping;
    if |payload| < size { return false, target; }
    var offset := 0;
    for n := 0 to |mapping|
      invariant offset == MappingSize(mapping[..n]) <= |payload|
      invariant result == Decoded(payload, mapping[..n], target)
    {
      var obj := mapping[n];
      assert mapping[..n + 1][..n] == mapping[..n];
      SizesGrow(mapping, n, |mapping|);
      var rawValue := payload[offset..offset + obj.Size()];
      offset := offset + obj.Size();
      if obj.field.None? { continue; }
      result := result[obj.field.value := DecodeValue(obj.dataType, rawValue)];
    }
    ok := true;
  }

  // ----- agreement -----

  predicate DistinctFields(mapping: seq<PdoObject>) {
    forall i, j :: 0 <= i < j < |mapping| && mapping[i].field.Some? ==> mapping[i].field != mapping[j].field
  }

  /** Every mapped field has a value its type holds. */
  predicate InRange(mapping: seq<PdoObject>, source: Fields) {
    forall i :: 0 <= i < |mapping| && mapping[i].field.Some? ==>
      mapping[i].field.value in source && Holds(mapping[i].dataType, source[mapping[i].field.value])
  }

  lemma {:induction false} EncodingSucceeds(mapping: seq<PdoObject>, source: Fields)
    requires InRange(mapping, source)
    ensures Encoded(mapping, source).Some?
  {
    hide EncodeValue, Holds;
    if mapping != [] {
      var n := |mapping| - 1;
      EncodingSucceeds(mapping[..n], source);
      if mapping[n].field.Some? { ValueRoundTrip(mapping[n].dataType, source[mapping[n].field.value]); }
    }
  }

  lemma {:induction false} EncodedSlices(mapping: seq<PdoObject>, source: Fields, trailing: seq<Byte>, i: nat)
    requires i < |mapping| && Encoded(mapping, source).Some?
    ensures PackEntry(mapping[i], source) == Some(SliceOf(mapping, Encoded(mapping, source).value + trailing, i))
  {
    hide EncodeValue;
    var n := |mapping| - 1;
    var payload := Encoded(mapping, source).value + trailing;
    var earlier, last := Encoded(mapping[..n], source).value, PackEntry(mapping[n], source).value;
    if i == n {
      assert SliceOf(mapping, payload, n) == last;
    } else {
      EncodedSlices(mapping[..n], source, last + trailing, i);
      assert payload == earlier + (last + trailing);
      assert mapping[..n][..i] == mapping[..i];
      assert SliceOf(mapping, payload, i) == SliceOf(mapping[..n], payload, i);
    }
  }

  lemma {:induction false} DecodedField(payload: seq<Byte>, mapping: seq<PdoObject>, target: Fields, i: nat)
    requires MappingSize(mapping) <= |payload| && DistinctFields(mapping) && i < |mapping| && mapping[i].field.Some?
    ensures var after := Decoded(payload, mapping, target);
            mapping[i].field.value in after
            && after[mapping[i].field.value] == DecodeValue(mapping[i].dataType, SliceOf(mapping, payload, i))
  {
    hide DecodeValue;
    var n := |mapping| - 1;
    if i < n {
      DecodedField(payload, mapping[..n], target, i);
      assert mapping[..n][..i] == mapping[..i];
      assert SliceOf(mapping[..n], payload, i) == SliceOf(mapping, payload, i);
    }
  }

  /** Decoding undoes encoding field by field, across padding and whatever follows the mapping. */
  lemma {:induction false} DecodeUndoesEncode(mapping: seq<PdoObject>, source: Fields, target: Fields, trailing: seq<Byte>, i: nat)
    requires DistinctFields(mapping) && InRange(mapping, source) && i < |mapping| && mapping[i].field.Some?
    ensures Encoded(mapping, source).Some? && |Encoded(mapping, source).value| == MappingSize(mapping)
    ensures var after := Decoded(Encoded(mapping, source).value + trailing, mapping, target);
            var field := mapping[i].field.value;
            field in after && after[field] == source[field]
  {
    hide EncodeValue, DecodeValue, Holds;
    EncodingSucceeds(mapping, source);
    EncodedSlices(mapping, source, trailing, i);
    DecodedField(Encoded(mapping, source).value + trailing, mapping, target, i);
    ValueRoundTrip(mapping[i].dataType, source[mapping[i].field.value]);
  }

  /** Padding entries, and no others, carry no field and no object index. */
  predicate ProperMapping(mapping: seq<PdoObject>) {
    forall i :: 0 <= i < |mapping| ==> (mapping[i].index != 0 <==> mapping[i].field.Some?)
  }

  /** The bridge, walking its own offsets, stores what the master encoded. */
  lemma {:induction false} BridgeStoresFields(mapping: seq<PdoObject>, source: Fields, entries: Entries, i: nat)
    requires ProperMapping(mapping) && DistinctKeys(mapping) && InRange(mapping, source)
    requires i < |mapping| && mapping[i].field.Some?
    ensures Encoded(mapping, source).Some?
    ensures var after := Stored(mapping, Encoded(mapping, source).value, entries);
            mapping[i].StoredAt() in after && after[mapping[i].StoredAt()] == source[mapping[i].field.value]
  {
    hide EncodeValue, DecodeValue, Holds;
    EncodingSucceeds(mapping, source);
    EncodedSlices(mapping, source, [], i);
    var payload := Encoded(mapping, source).value;
    assert payload + [] == payload;
    StoredValue(mapping, payload, entries, i);
    ValueRoundTrip(mapping[i].dataType, source[mapping[i].field.value]);
  }

  /** The dictionary holds the field values of `source` at the mapped objects. */
  predicate Agrees(mapping: seq<PdoObject>, source: Fields, entries: Entries) {
    forall i :: 0 <= i < |mapping| && mapping[i].field.Some? ==>
      mapping[i].field.value in source && mapping[i].StoredAt() in entries
      && entries[mapping[i].StoredAt()] == source[mapping[i].field.value]
  }

  /** A dictionary and a master object that agree produce the same payload. */
  lemma {:induction false} BridgeSendsWhatMasterEncodes(mapping: seq<PdoObject>, source: Fields, entries: Entries)
    requires ProperMapping(mapping) && Agrees(mapping, source, entries)
    ensures TxPayload(mapping, entries) == Encoded(mapping, source)
  {
    hide EncodeValue;
    if mapping != [] {
      var n := |mapping| - 1;
      BridgeSendsWhatMasterEncodes(mapping[..n], source, entries);
      assert TxBytes(mapping[n], entries) == PackEntry(mapping[n], source);
    }
  }

  predicate HoldsMapped(mapping: seq<PdoObject>, entries: Entries) {
    forall i :: 0 <= i < |mapping| && mapping[i].field.Some? ==>
      mapping[i].StoredAt() in entries && Holds(mapping[i].dataType, entries[mapping[i].StoredAt()])
  }

  lemma {:induction false} SendingSucceeds(mapping: seq<PdoObject>, entries: Entries)
    requires ProperMapping(mapping) && HoldsMapped(mapping, entries)
    ensures TxPayload(mapping, entries).Some?
  {
    hide EncodeValue, Holds;
    if mapping != [] {
      var n := |mapping| - 1;
      SendingSucceeds(mapping[..n], entries);
      if mapping[n].field.Some? { ValueRoundTrip(mapping[n].dataType, entries[mapping[n].StoredAt()]); }
    }
  }

  /** Values the drive holds at its transmit objects reach the master's fields unchanged. */
  lemma {:induction false} BridgeDeliversFields(mapping: seq<PdoObject>, entries: Entries, target: Fields, i: nat)
    requires ProperMapping(mapping) && DistinctFields(mapping) && HoldsMapped(mapping, entries)
    requires i < |mapping| && mapping[i].field.Some?
    ensures TxPayload(mapping, entries).Some?
    ensures var after := Decoded(TxPayload(mapping, entries).value, mapping, target);
            var field := mapping[i].field.value;
            field in after && after[field] == entries[mapping[i].StoredAt()]
  {
    hide EncodeValue, DecodeValue, Holds;
    SendingSucceeds(mapping, entries);
    TxSlices(mapping, entries, i);
    DecodedField(TxPayload(mapping, entries).value, mapping, target, i);
    ValueRoundTrip(mapping[i].dataType, entries[mapping[i].StoredAt()]);
  }
}
