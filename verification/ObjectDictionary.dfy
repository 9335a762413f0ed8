/** The virtual object dictionary and the little-endian encoding of its values. */
module ObjectDictionary {
  import opened Basics
  import opened Bits

  /** Data types of mapped objects: fixed-width integers, byte arrays, and mapping padding
      (section 7.5.2.36 of CiA 301 v4.2). */
  datatype OdType =
    | BoolType
    | Unsigned(size: nat)
    | Signed(size: nat)
    | ByteArray(length: nat)
    | Padding(bits: nat)

  datatype OdValue = Int(number: int) | Bytes(bytes: seq<Byte>)

  function ByteLength(t: OdType): nat {
    match t
    case BoolType => 1
    case Unsigned(size) => size
    case Signed(size) => size
    case ByteArray(length) => length
    case Padding(bits) => bits / 8
  }

  function ZeroBytes(n: nat): (z: seq<Byte>)
    ensures |z| == n && forall i :: 0 <= i < n ==> z[i] == 0
  {
    seq(n, _ => 0)
  }

  function Resized(bytes: seq<Byte>, n: nat): (r: seq<Byte>)
    ensures |r| == n && (|bytes| == n ==> r == bytes)
    ensures forall i :: 0 <= i < n ==> r[i] == if i < |bytes| then bytes[i] else 0
  {
    if |bytes| >= n then bytes[..n] else bytes + ZeroBytes(n - |bytes|)
  }

  /** The bytes of a value, `None` where packing fails: wrong kind, or out of range. */
  function EncodeValue(t: OdType, v: OdValue): (r: Option<seq<Byte>>)
    ensures r.Some? ==> |r.value| == ByteLength(t)
  {
    match t
    case BoolType => if v.Int? then Some([if v.number != 0 then 1 else 0]) else None
    case Unsigned(size) =>
      if v.Int? && 0 <= v.number < Pow2(8 * size) then Some(LittleEndian(v.number, size)) else None
    case Signed(size) =>
      if v.Int? && FitsSigned(v.number, 8 * size) then Some(LittleEndian(Code(v.number, 8 * size), size)) else None
    case ByteArray(length) => if v.Bytes? then Some(Resized(v.bytes, length)) else None
    case Padding(bits) => Some(ZeroBytes(bits / 8))
  }

  function DecodeValue(t: OdType, raw: seq<Byte>): OdValue
    requires |raw| == ByteLength(t)
  {
    match t
    case BoolType => Int(if raw[0] != 0 then 1 else 0)
    case Unsigned(_) => Int(LittleEndianValue(raw))
    case Signed(size) => Int(if size == 0 then 0 else SignedValue(LittleEndianValue(raw), 8 * size))
    case ByteArray(_) => Bytes(raw)
    case Padding(_) => Int(0)
  }

  /** Values a type holds without loss. */
  predicate Holds(t: OdType, v: OdValue) {
    match t
    case BoolType => v == Int(0) || v == Int(1)
    case Unsigned(size) => v.Int? && 0 <= v.number < Pow2(8 * size)
    case Signed(size) => v.Int? && FitsSigned(v.number, 8 * size)
    case ByteArray(length) => v.Bytes? && |v.bytes| == length
    case Padding(_) => v == Int(0)
  }

  lemma {:induction false} ValueRoundTrip(t: OdType, v: OdValue)
    requires Holds(t, v)
    ensures EncodeValue(t, v).Some? && DecodeValue(t, EncodeValue(t, v).value) == v
  {
    match t
    case Unsigned(size) => LittleEndianRoundTrip(v.number, size);
    case Signed(size) =>
      SignedRoundTrip(v.number, 8 * size);
      LittleEndianRoundTrip(Code(v.number, 8 * size), size);
    case _ =>
  }

  /** And no further: every byte string of a type's length is the encoding of a value it holds. */
  lemma {:induction false} EveryCodeIsAValue(t: OdType, raw: seq<Byte>)
    requires |raw| == ByteLength(t) && (t.Unsigned? || t.ByteArray? || (t.Signed? && t.size > 0))
    ensures Holds(t, DecodeValue(t, raw)) && EncodeValue(t, DecodeValue(t, raw)) == Some(raw)
  {
    if !t.ByteArray? {
      LittleEndianBound(raw);
      LittleEndianOfValue(raw);
      if t.Signed? { SignedCode(LittleEndianValue(raw), 8 * t.size); }
    }
  }

  /** Integers are little-endian two's complement: byte `k` of a value is its 256^k digit. */
  lemma {:induction false} ValueBytes(t: OdType, v: OdValue, k: nat)
    requires Holds(t, v) && (t.BoolType? || t.Unsigned? || t.Signed?) && k < ByteLength(t)
    ensures EncodeValue(t, v).Some? && EncodeValue(t, v).value[k] == v.number / Pow2(8 * k) % 256
  {
    ValueRoundTrip(t, v);
    var bytes := EncodeValue(t, v).value;
    if t.BoolType? {
      Pow2OfEight();
    } else {
      LittleEndianReads(bytes, k);
      LittleEndianBound(bytes);
      SignedReads(LittleEndianValue(bytes), t.size, k);
    }
  }

  // ----- storage -----

  /** Subindex 0 is stored under the bare index. */
  datatype Key = Whole(index: int) | Part(index: int, subindex: int)

  function StorageKey(index: int, subindex: int): Key {
    if subindex == 0 then Whole(index) else Part(index, subindex)
  }

  lemma {:induction false} StorageKeyInjective(i: int, s: int, i': int, s': int)
    ensures StorageKey(i, s) == StorageKey(i', s') <==> i == i' && s == s'
  {
  }

  class VirtualOdModel {
    var entries: map<Key, OdValue>
    var lastWriteKey: Option<Key>
    var writeGeneration: nat

    constructor ()
      ensures entries == map[] && lastWriteKey == None && writeGeneration == 0
    {
      entries, lastWriteKey, writeGeneration := map[], None, 0;
    }

    method Define(index: int, subindex: int, value: OdValue)
      modifies this
      ensures entries == old(entries)[StorageKey(index, subindex) := value]
      ensures lastWriteKey == old(lastWriteKey) && writeGeneration == old(writeGeneration)
    {
      entries := entries[StorageKey(index, subindex) := value];
    }

    method Read(index: int, subindex: int) returns (value: Option<OdValue>)
      ensures var key := StorageKey(index, subindex);
              value == if key in entries then Some(entries[key]) else None
    {
      var key := StorageKey(index, subindex);
      value := if key in entries then Some(entries[key]) else None;
    }

    /** A write from outside is also recorded as the last request; a missing object fails. */
    method Write(index: int, subindex: int, value: OdValue) returns (ok: bool)
      modifies this
      ensures ok <==> StorageKey(index, subindex) in old(entries)
      ensures ok ==> entries == old(entries)[StorageKey(index, subindex) := value]
      ensures ok ==> lastWriteKey == Some(StorageKey(index, subindex)) && writeGeneration == old(writeGeneration) + 1
      ensures !ok ==> entries == old(entries) && lastWriteKey == old(lastWriteKey)
                      && writeGeneration == old(writeGeneration)
    {
      var key := StorageKey(index, subindex);
      ok := key in entries;
      if ok {
        entries := entries[key := value];
        lastWriteKey := Some(key);
        writeGeneration := writeGeneration + 1;
      }
    }

    method WriteInternal(index: int, subindex: int, value: OdValue) returns (ok: bool)
      modifies this
      ensures ok <==> StorageKey(index, subindex) in old(entries)
      ensures entries == if ok then old(entries)[StorageKey(index, subindex) := value] else old(entries)
      ensures lastWriteKey == old(lastWriteKey) && writeGeneration == old(writeGeneration)
    {
      var key := StorageKey(index, subindex);
      ok := key in entries;
      if ok { entries := entries[key := value]; }
    }
  }
}
