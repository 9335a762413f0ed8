/** IO-Link process data: compiling a parsed IODD record into a field layout, and decoding
    input bytes with it (RecordT, Annex F.3 of the IO-Link Interface and System Specification
    V1.1.3). IEEE decoding of a 32-bit pattern is a parameter, `None` for NaN and infinities. */
module IoLink {
  import opened Basics
  import opened Bits

  datatype Kind = BooleanT | IntegerT | UIntegerT | Float32T | OtherT

  /** Conversion metadata of one subindex. */
  datatype Info = Info(gradient: real, offset: real, unit: Option<string>)

  datatype Item = Item(subindex: int, bitOffset: int, kind: Kind, bitLength: int, name: string)

  /** ProcessDataIn with its datatype resolved: a record of items, or one scalar. */
  datatype Input = Record(recordBits: int, items: seq<Item>) | Scalar(kind: Kind, scalarBits: int)

  datatype Field = Field(subindex: int, name: string, kind: Kind, bitOffset: int, bitLength: nat,
                         unit: Option<string>, gradient: real, offset: real)

  datatype Layout = Layout(name: string, bitLength: nat, fields: seq<Field>) | Unsupported(name: string)

  // ----- fields -----

  function WidthOf(kind: Kind, bitLength: int): Option<nat> {
    match kind
    case BooleanT => Some(1)
    case Float32T => Some(32)
    case OtherT => None
    case _ => if 1 <= bitLength <= 64 then Some(bitLength) else None
  }

  function InfoFor(info: map<int, Info>, subindex: int): Info {
    if subindex in info then info[subindex] else Info(1.0, 0.0, None)
  }

  /** Booleans take one bit and no conversion, floats 32 bits, integers 1 to 64; any other type
      makes no field. */
  function MakeField(item: Item, info: map<int, Info>): (r: Option<Field>)
    ensures r.Some? <==>
              && item.kind != OtherT
              && (item.kind == IntegerT || item.kind == UIntegerT ==> 0 < item.bitLength < 65)
              && (item.kind == BooleanT && item.subindex in info ==>
                    info[item.subindex].gradient == 1.0 && info[item.subindex].offset == 0.0)
    ensures r.Some? ==>
              var f := r.value;
              && f.subindex == item.subindex && f.name == item.name && f.kind == item.kind && f.bitOffset == item.bitOffset
              && f.bitLength == (if item.kind == BooleanT then 1 else if item.kind == Float32T then 32 else item.bitLength)
              && (item.subindex in info ==> Info(f.gradient, f.offset, f.unit) == info[item.subindex])
              && (item.subindex !in info ==> f.gradient == 1.0 && f.offset == 0.0 && f.unit == None)
  {
    var width := WidthOf(item.kind, item.bitLength);
    var i := InfoFor(info, item.subindex);
    if width.None? || (item.kind == BooleanT && (i.gradient != 1.0 || i.offset != 0.0)) then None
    else Some(Field(item.subindex, item.name, item.kind, item.bitOffset, width.value, i.unit, i.gradient, i.offset))
  }

  function ItemsOf(input: Input, name: string): seq<Item> {
    match input
    case Record(_, items) => items
    case Scalar(kind, bits) => [Item(0, 0, kind, bits, name)]
  }

  // ----- when a layout is acceptable, without masks -----

  predicate InBounds(f: Field, bits: int) { 0 <= f.bitOffset && f.bitOffset + f.bitLength <= bits }

  predicate Apart(f: Field, g: Field) {
    f.bitOffset + f.bitLength <= g.bitOffset || g.bitOffset + g.bitLength <= f.bitOffset
  }

  predicate Separate(fields: seq<Field>) {
    forall i, j :: 0 <= i < j < |fields| ==> Apart(fields[i], fields[j]) && fields[i].subindex != fields[j].subindex
  }

  predicate WellShaped(input: Input, bits: int, info: map<int, Info>, name: string) {
    && 1 <= bits <= 256
    && (input.Record? ==>
          input.recordBits == bits && forall i :: 0 <= i < |input.items| ==> 1 <= input.items[i].subindex <= 255)
    && (input.Scalar? ==> WidthOf(input.kind, input.scalarBits) == Some(bits))
    && forall i :: 0 <= i < |ItemsOf(input, name)| ==> MakeField(ItemsOf(input, name)[i], info).Some?
  }

  function FieldsOf(items: seq<Item>, info: map<int, Info>): seq<Field>
    requires forall i :: 0 <= i < |items| ==> MakeField(items[i], info).Some?
  {
    seq(|items|, i requires 0 <= i < |items| => MakeField(items[i], info).value)
  }

  /** A record the compiler must accept: fields inside the input, no two sharing a bit or a
      subindex, and no conversion metadata without a field. */
  ghost predicate Acceptable(input: Input, bits: int, info: map<int, Info>, name: string) {
    && WellShaped(input, bits, info, name)
    && var fields := FieldsOf(ItemsOf(input, name), info);
       && fields != []
       && (forall i :: 0 <= i < |fields| ==> InBounds(fields[i], bits))
       && Separate(fields)
       && forall s :: s in info ==> exists i :: 0 <= i < |fields| && fields[i].subindex == s
  }

  // ----- the growing mask -----

  function MaskOf(f: Field): nat
    requires f.bitOffset >= 0
  {
    Shl(Pow2(f.bitLength) - 1, f.bitOffset)
  }

  predicate Covers(f: Field, i: nat) { f.bitOffset <= i < f.bitOffset + f.bitLength }

  lemma {:induction false} MaskBits(f: Field, i: nat)
    requires f.bitOffset >= 0
    ensures Bit(MaskOf(f), i) <==> Covers(f, i)
  {
    BitShiftLeft(Pow2(f.bitLength) - 1, f.bitOffset, i);
    if i >= f.bitOffset { BitOfOnes(f.bitLength, i - f.bitOffset); }
  }

  /** `used` holds exactly the bits of the fields accepted so far. */
  ghost predicate UsedBy(used: nat, fields: seq<Field>) {
    forall i: nat :: Bit(used, i) <==> exists k :: 0 <= k < |fields| && Covers(fields[k], i)
  }

  lemma {:induction false} MaskGrows(used: nat, fields: seq<Field>, f: Field)
    requires f.bitOffset >= 0 && UsedBy(used, fields)
    ensures UsedBy(Or(used, MaskOf(f)), fields + [f])
  {
    var all := fields + [f];
    forall i: nat
      ensures Bit(Or(used, MaskOf(f)), i) <==> exists k :: 0 <= k < |all| && Covers(all[k], i)
    {
      BitOr(used, MaskOf(f), i);
      MaskBits(f, i);
      if Covers(f, i) { assert Covers(all[|fields|], i); }
      if Bit(used, i) {
        var k :| 0 <= k < |fields| && Covers(fields[k], i);
        assert Covers(all[k], i);
      }
    }
  }

  /** The mask test fails exactly when the field shares a bit with an accepted one. */
  lemma {:induction false} MaskTest(used: nat, fields: seq<Field>, f: Field)
    requires f.bitOffset >= 0 && f.bitLength > 0 && UsedBy(used, fields)
    requires forall k :: 0 <= k < |fields| ==> fields[k].bitOffset >= 0 && fields[k].bitLength > 0
    ensures And(used, MaskOf(f)) == 0 <==> forall k :: 0 <= k < |fields| ==> Apart(fields[k], f)
  {
    AndIsZero(used, MaskOf(f));
    if NoCommonBit(used, MaskOf(f)) {
      forall k | 0 <= k < |fields|
        ensures Apart(fields[k], f)
      {
        var i := if fields[k].bitOffset <= f.bitOffset then f.bitOffset else fields[k].bitOffset;
        MaskBits(f, i);
        assert !(Bit(used, i) && Bit(MaskOf(f), i));
        assert Bit(used, i) <==> exists k :: 0 <= k < |fields| && Covers(fields[k], i);
      }
    }
    if forall k :: 0 <= k < |fields| ==> Apart(fields[k], f) {
      forall i: nat
        ensures !(Bit(used, i) && Bit(MaskOf(f), i))
      {
        MaskBits(f, i);
        if Bit(used, i) {
          var k :| 0 <= k < |fields| && Covers(fields[k], i);
          assert Apart(fields[k], f);
        }
      }
      assert NoCommonBit(used, MaskOf(f));
    }
  }

  // ----- the compiler -----

  method CollectFields(items: seq<Item>, info: map<int, Info>, record: bool) returns (fields: Option<seq<Field>>)
    ensures fields.Some? <==>
              && (forall i :: 0 <= i < |items| ==> MakeField(items[i], info).Some?)
              && (record ==> forall i :: 0 <= i < |items| ==> 1 <= items[i].subindex <= 255)
    ensures fields.Some? ==> fields.value == FieldsOf(items, info)
  {
    var result: seq<Field> := [];
    for n := 0 to |items|
      invariant forall i :: 0 <= i < n ==> MakeField(items[i], info).Some?
      invariant record ==> forall i :: 0 <= i < n ==> 1 <= items[i].subindex <= 255
      invariant result == FieldsOf(items[..n], info)
    {
      if record && !(1 <= items[n].subindex <= 255) { return None; }
      var field := MakeField(items[n], info);
      if field.None? { return None; }
      result := result + [field.value];
    }
    assert items[..|items|] == items;
    return Some(result);
  }

  method CheckFields(fields: seq<Field>, bits: int) returns (ok: bool, subindices: set<int>)
    requires forall i :: 0 <= i < |fields| ==> fields[i].bitLength > 0
    ensures ok <==> (forall i :: 0 <= i < |fields| ==> InBounds(fields[i], bits)) && Separate(fields)
    ensures ok ==> forall s :: s in subindices <==> exists i :: 0 <= i < |fields| && fields[i].subindex == s
  {
    var usedBits: nat := 0;
    subindices := {};
    forall i: nat ensures !Bit(0, i) { BitOfZero(i); }
    for n := 0 to |fields|
      invariant forall i :: 0 <= i < n ==> InBounds(fields[i], bits)
      invariant Separate(fields[..n])
      invariant UsedBy(usedBits, fields[..n])
      invariant forall s :: s in subindices <==> exists i :: 0 <= i < n && fields[i].subindex == s
    {
      var field := fields[n];
      if field.bitOffset < 0 || field.bitOffset + field.bitLength > bits {
        assert !InBounds(fields[n], bits);
        return false, subindices;
      }
      var mask := MaskOf(field);
      MaskTest(usedBits, fields[..n], field);
      if And(usedBits, mask) != 0 || field.subindex in subindices {
        if And(usedBits, mask) != 0 {
          var k :| 0 <= k < n && !Apart(fields[..n][k], field);
          assert !Apart(fields[k], fields[n]);
        } else {
          var k :| 0 <= k < n && fields[k].subindex == field.subindex;
          assert fields[k].subindex == fields[n].subindex;
        }
        return false, subindices;
      }
      MaskGrows(usedBits, fields[..n], field);
      usedBits := Or(usedBits, mask);
      subindices := subindices + {field.subindex};
      assert fields[..n + 1] == fields[..n] + [field];
      forall i | 0 <= i < n
        ensures Apart(fields[i], field) && fields[i].subindex != field.subindex
      {
        assert Apart(fields[..n][i], field);
      }
    }
    assert fields[..|fields|] == fields;
    return true, subindices;
  }

  /** Supported layouts are exactly those of acceptable records, field for field. */
  method Compile(input: Input, bits: int, info: map<int, Info>, name: string) returns (layout: Layout)
    ensures layout.Layout? <==> Acceptable(input, bits, info, name)
    ensures layout.Layout? ==> layout == Layout(name, bits, FieldsOf(ItemsOf(input, name), info))
  {
    layout := Unsupported(name);
    if !(1 <= bits <= 256) { return; }
    if input.Record? && input.recordBits != bits { return; }
    var collected := CollectFields(ItemsOf(input, name), info, input.Record?);
    if collected.None? { return; }
    var fields := collected.value;
    if input.Scalar? {
      assert MakeField(ItemsOf(input, name)[0], info).Some?;
      if fields[0].bitLength != bits { return; }
    }
    var ok, subindices := CheckFields(fields, bits);
    if !ok { return; }
    if fields == [] || exists s :: s in info && s !in subindices { return; }
    layout := Layout(name, bits, fields);
  }

  // ----- decoding -----

  datatype Value = IntValue(whole: int) | RealValue(number: real)
  datatype ValueEntry = ValueEntry(subindex: int, name: string, value: Value, unit: Option<string>)
  datatype StatusEntry = StatusEntry(subindex: int, bitOffset: int, name: string, active: bool)
  datatype Profile = Profile(inputBytes: nat, conditionValue: Option<int>, layout: Option<Layout>)
  datatype Decoded =
    | NotConfigured
    | InvalidData
    | UnsupportedLayout
    | Ok(profile: Option<int>, profileName: string, values: seq<ValueEntry>, statusBits: seq<StatusEntry>)

  type Float32 = nat -> Option<real>

  function Extract(raw: nat, f: Field): nat
    requires f.bitOffset >= 0
  {
    And(Shr(raw, f.bitOffset), Pow2(f.bitLength) - 1)
  }

  /** The unconverted value of a code, `None` when it is a float that is not finite. */
  function Reading(f: Field, code: nat, float32: Float32): Option<Value>
    requires f.bitLength > 0
  {
    match f.kind
    case IntegerT => Some(IntValue(SignedValue(code, f.bitLength)))
    case Float32T => (match float32(code) case None => None case Some(x) => Some(RealValue(x)))
    case _ => Some(IntValue(code))
  }

  function Converted(f: Field, v: Value): Value {
    if f.gradient == 1.0 && f.offset == 0.0 then v
    else RealValue((match v case IntValue(n) => n as real case RealValue(x) => x) * f.gradient + f.offset)
  }

  predicate Decodable(fields: seq<Field>) {
    forall i :: 0 <= i < |fields| ==> fields[i].bitOffset >= 0 && fields[i].bitLength > 0
  }

  /** The entries of the first fields, given what each field decodes to. */
  function ValueEntries(fields: seq<Field>, readings: seq<Value>): seq<ValueEntry>
    requires |fields| == |readings|
  {
    if fields == [] then []
    else
      var n := |fields| - 1;
      var f := fields[n];
      ValueEntries(fields[..n], readings[..n])
      + if f.kind == BooleanT then [] else [ValueEntry(f.subindex, f.name, Converted(f, readings[n]), f.unit)]
  }

  function StatusEntries(fields: seq<Field>, readings: seq<Value>): seq<StatusEntry>
    requires |fields| == |readings|
  {
    if fields == [] then []
    else
      var n := |fields| - 1;
      var f := fields[n];
      StatusEntries(fields[..n], readings[..n])
      + if f.kind == BooleanT then [StatusEntry(f.subindex, f.bitOffset, f.name, readings[n] != IntValue(0))] else []
  }

  /** What the fields of `raw` read as, `None` as soon as one is a float that is not finite. */
  function Readings(fields: seq<Field>, raw: nat, float32: Float32): (r: Option<seq<Value>>)
    requires Decodable(fields)
    ensures r.Some? ==> |r.value| == |fields|
  {
    if fields == [] then Some([])
    else
      var n := |fields| - 1;
      var earlier := Readings(fields[..n], raw, float32);
      var reading := Reading(fields[n], Extract(raw, fields[n]), float32);
      if earlier.None? || reading.None? then None else Some(earlier.value + [reading.value])
  }

  predicate Usable(profile: Option<Profile>) {
    profile.Some? && profile.value.layout.Some? && profile.value.layout.value.Layout? ==>
      Decodable(profile.value.layout.value.fields)
  }

  /** The decoding of a payload: gates first, then every field of the profile's own bytes. */
  function Decode(profile: Option<Profile>, payload: seq<Byte>, dataValid: bool, float32: Float32): Decoded
    requires Usable(profile)
  {
    if profile.None? then NotConfigured
    else
      var p := profile.value;
      if !dataValid || |payload| < p.inputBytes then InvalidData
      else if p.layout.None? || p.layout.value.Unsupported? then UnsupportedLayout
      else
        var fields := p.layout.value.fields;
        var readings := Readings(fields, BigEndianValue(payload[..p.inputBytes]), float32);
        if readings.None? then InvalidData
        else Ok(p.conditionValue, p.layout.value.name,
                ValueEntries(fields, readings.value), StatusEntries(fields, readings.value))
  }

  method DecodeFields(fields: seq<Field>, raw: nat, float32: Float32)
    returns (ok: bool, values: seq<ValueEntry>, statusBits: seq<StatusEntry>)
    requires Decodable(fields)
    ensures ok <==> Readings(fields, raw, float32).Some?
    ensures ok ==> values == ValueEntries(fields, Readings(fields, raw, float32).value)
    ensures ok ==> statusBits == StatusEntries(fields, Readings(fields, raw, float32).value)
  {
    hide Readings, ValueEntries, StatusEntries, Extract;
    values, statusBits := [], [];
    NoEntries(fields[..0], raw, float32);
    for n := 0 to |fields|
      invariant Readings(fields[..n], raw, float32).Some?
      invariant values == ValueEntries(fields[..n], Readings(fields[..n], raw, float32).value)
      invariant statusBits == StatusEntries(fields[..n], Readings(fields[..n], raw, float32).value)
    {
      var field := fields[n];
      var bits := Extract(raw, field);
      ReadingsStep(fields, n, raw, float32);
      if field.kind == BooleanT {
        statusBits := statusBits + [StatusEntry(field.subindex, field.bitOffset, field.name, bits != 0)];
        continue;
      }
      var value := IntValue(bits);
      if field.kind == IntegerT && Bit(bits, field.bitLength - 1) {
        value := IntValue(bits - Pow2(field.bitLength));
      } else if field.kind == Float32T {
        var real32 := float32(bits);
        if real32.None? {
          ReadingsFail(fields, n + 1, raw, float32);
          return false, values, statusBits;
        }
        value := RealValue(real32.value);
      }
      if field.gradient != 1.0 || field.offset != 0.0 {
        value := RealValue((if value.IntValue? then value.whole as real else value.number) * field.gradient + field.offset);
      }
      values := values + [ValueEntry(field.subindex, field.name, value, field.unit)];
    }
    assert fields[..|fields|] == fields;
    ok := true;
  }

  lemma {:induction false} NoEntries(fields: seq<Field>, raw: nat, float32: Float32)
    requires fields == []
    ensures Readings(fields, raw, float32) == Some([])
    ensures ValueEntries(fields, []) == [] && StatusEntries(fields, []) == []
  {
  }

  /** One more field: its reading is appended, and its entry follows. */
  lemma {:induction false} ReadingsStep(fields: seq<Field>, n: nat, raw: nat, float32: Float32)
    requires Decodable(fields) && n < |fields| && Readings(fields[..n], raw, float32).Some?
    ensures var earlier := Readings(fields[..n], raw, float32).value;
            var reading := Reading(fields[n], Extract(raw, fields[n]), float32);
            var all := Readings(fields[..n + 1], raw, float32);
            if reading.None? then all.None?
            else
              && all == Some(earlier + [reading.value])
              && ValueEntries(fields[..n + 1], all.value) == ValueEntries(fields[..n], earlier)
                 + (if fields[n].kind == BooleanT then []
                    else [ValueEntry(fields[n].subindex, fields[n].name, Converted(fields[n], reading.value), fields[n].unit)])
              && StatusEntries(fields[..n + 1], all.value) == StatusEntries(fields[..n], earlier)
                 + (if fields[n].kind == BooleanT
                    then [StatusEntry(fields[n].subindex, fields[n].bitOffset, fields[n].name, reading.value != IntValue(0))]
                    else [])
  {
    assert fields[..n + 1][..n] == fields[..n];
    var earlier := Readings(fields[..n], raw, float32).value;
    var reading := Reading(fields[n], Extract(raw, fields[n]), float32);
    if reading.Some? { assert (earlier + [reading.value])[..n] == earlier; }
  }

  lemma {:induction false} ReadingsFail(fields: seq<Field>, n: nat, raw: nat, float32: Float32)
    requires Decodable(fields) && n <= |fields| && Readings(fields[..n], raw, float32).None?
    ensures Readings(fields, raw, float32).None?
    decreases |fields| - n
  {
    if n < |fields| {
      assert fields[..n + 1][..n] == fields[..n];
      ReadingsFail(fields, n + 1, raw, float32);
    } else {
      assert fields[..n] == fields;
    }
  }

  method DecodeProcessData(profile: Option<Profile>, payload: seq<Byte>, dataValid: bool, float32: Float32)
    returns (decoded: Decoded)
    requires Usable(profile)
    ensures decoded == Decode(profile, payload, dataValid, float32)
  {
    if profile.None? { return NotConfigured; }
    var p := profile.value;
    if !dataValid || |payload| < p.inputBytes { return InvalidData; }
    if p.layout.None? || p.layout.value.Unsupported? { return UnsupportedLayout; }
    var raw := BigEndianValue(payload[..p.inputBytes]);
    var ok, values, statusBits := DecodeFields(p.layout.value.fields, raw, float32);
    if !ok { return InvalidData; }
    return Ok(p.conditionValue, p.layout.value.name, values, statusBits);
  }

  // ----- what a decoding says, from its arguments alone -----

  /** The bits of a field in a record read as one integer. */
  function Slice(raw: nat, f: Field): nat
    requires f.bitOffset >= 0
  {
    (raw / Pow2(f.bitOffset)) % Pow2(f.bitLength)
  }

  /** Shifting and masking cuts exactly those bits out of any record. */
  lemma {:induction false} ExtractIsSlice(raw: nat, f: Field)
    requires f.bitOffset >= 0
    ensures Extract(raw, f) == Slice(raw, f)
  {
    hide And, Pow2;
    var shifted := Shr(raw, f.bitOffset);
    forall i: nat
      ensures Bit(Extract(raw, f), i) == Bit(Slice(raw, f), i)
    {
      BitAnd(shifted, Pow2(f.bitLength) - 1, i);
      BitOfOnes(f.bitLength, i);
      BitTruncate(shifted, f.bitLength, i);
    }
    SameBits(Extract(raw, f), Slice(raw, f));
  }

  predicate Supported(p: Profile) { p.layout.Some? && p.layout.value.Layout? }

  predicate FiniteAt(f: Field, raw: nat, float32: Float32)
    requires f.bitOffset >= 0
  {
    f.kind == Float32T ==> float32(Slice(raw, f)).Some?
  }

  lemma {:induction false} ReadingsAreFinite(fields: seq<Field>, raw: nat, float32: Float32)
    requires Decodable(fields)
    ensures Readings(fields, raw, float32).Some? <==> forall i :: 0 <= i < |fields| ==> FiniteAt(fields[i], raw, float32)
    ensures Readings(fields, raw, float32).Some? ==>
              forall i :: 0 <= i < |fields| ==>
                Reading(fields[i], Slice(raw, fields[i]), float32) == Some(Readings(fields, raw, float32).value[i])
  {
    hide Slice, Extract, SignedValue;
    if fields != [] {
      var n := |fields| - 1;
      ReadingsAreFinite(fields[..n], raw, float32);
      ExtractIsSlice(raw, fields[n]);
      assert forall i :: 0 <= i < n ==> fields[..n][i] == fields[i];
    }
  }

  /** Which answer a decoding gives, exactly: none without a profile; invalid data when the port
      says so, when bytes are missing, or when a float of a supported layout is not finite;
      unsupported when only the layout is missing; and otherwise a decoding. */
  lemma {:induction false} DecodedKinds(profile: Option<Profile>, payload: seq<Byte>, dataValid: bool, float32: Float32)
    requires Usable(profile)
    ensures var d := Decode(profile, payload, dataValid, float32);
            && (d.NotConfigured? <==> profile.None?)
            && (profile.Some? ==>
                  var p := profile.value;
                  var complete := dataValid && |payload| >= p.inputBytes;
                  var finite := complete && Supported(p) ==>
                                  forall i :: 0 <= i < |p.layout.value.fields| ==>
                                    FiniteAt(p.layout.value.fields[i], BigEndianValue(payload[..p.inputBytes]), float32);
                  && (d.InvalidData? <==> !complete || !finite)
                  && (d.UnsupportedLayout? <==> complete && !Supported(p))
                  && (d.Ok? <==> complete && Supported(p) && finite))
  {
    hide Readings, FiniteAt, ValueEntries, StatusEntries;
    if profile.Some? && Supported(profile.value) && |payload| >= profile.value.inputBytes {
      ReadingsAreFinite(profile.value.layout.value.fields, BigEndianValue(payload[..profile.value.inputBytes]), float32);
    }
  }

  /** How many of the fields are status bits, or are not. */
  function CountOf(fields: seq<Field>, boolean: bool): nat {
    if fields == [] then 0
    else CountOf(fields[..|fields| - 1], boolean) + if (fields[|fields| - 1].kind == BooleanT) == boolean then 1 else 0
  }

  lemma {:induction false} EntryPlace(fields: seq<Field>, readings: seq<Value>, k: nat)
    requires |fields| == |readings| && k < |fields|
    ensures |ValueEntries(fields, readings)| == CountOf(fields, false)
    ensures |StatusEntries(fields, readings)| == CountOf(fields, true)
    ensures var f, boolean := fields[k], fields[k].kind == BooleanT;
            var at := CountOf(fields[..k], boolean);
            if boolean then
              && at < CountOf(fields, true)
              && StatusEntries(fields, readings)[at] == StatusEntry(f.subindex, f.bitOffset, f.name, readings[k] != IntValue(0))
            else
              && at < CountOf(fields, false)
              && ValueEntries(fields, readings)[at] == ValueEntry(f.subindex, f.name, Converted(f, readings[k]), f.unit)
  {
    hide Converted;
    var n := |fields| - 1;
    if n == 0 {
      assert fields[..0] == [] && readings[..0] == [];
    } else if k < n {
      EntryPlace(fields[..n], readings[..n], k);
      assert fields[..n][..k] == fields[..k];
    } else {
      EntryPlace(fields[..n], readings[..n], 0);
    }
  }

  /** The entry of every field of a decoding, computed from the payload: a status bit is its own
      bit, an unsigned value its bits, a signed value two's complement, a float its pattern's
      value; gradient and offset are applied unless they are 1 and 0. */
  lemma {:induction false} DecodedField(profile: Option<Profile>, payload: seq<Byte>, dataValid: bool, float32: Float32, k: nat)
    requires Usable(profile) && Decode(profile, payload, dataValid, float32).Ok?
    requires k < |profile.value.layout.value.fields|
    ensures var p, d := profile.value, Decode(profile, payload, dataValid, float32);
            var fields := p.layout.value.fields;
            var f := fields[k];
            var bits := Slice(BigEndianValue(payload[..p.inputBytes]), f);
            var at := CountOf(fields[..k], f.kind == BooleanT);
            && d.profile == p.conditionValue && d.profileName == p.layout.value.name
            && |d.values| == CountOf(fields, false) && |d.statusBits| == CountOf(fields, true)
            && if f.kind == BooleanT then
                 && at < |d.statusBits| && d.statusBits[at] == StatusEntry(f.subindex, f.bitOffset, f.name, bits != 0)
               else
                 && at < |d.values| && d.values[at] == ValueEntry(f.subindex, f.name, d.values[at].value, f.unit)
                 && var plain := f.gradient == 1.0 && f.offset == 0.0;
                    match f.kind
                    case Float32T =>
                      && float32(bits).Some?
                      && d.values[at].value == RealValue(if plain then float32(bits).value else float32(bits).value * f.gradient + f.offset)
                    case _ =>
                      var whole := if f.kind == IntegerT && bits >= Pow2(f.bitLength - 1) then bits - Pow2(f.bitLength) else bits;
                      d.values[at].value == if plain then IntValue(whole) else RealValue(whole as real * f.gradient + f.offset)
  {
    hide Readings, ValueEntries, StatusEntries, Slice, Bit, Pow2, CountOf;
    var p := profile.value;
    var fields := p.layout.value.fields;
    var raw := BigEndianValue(payload[..p.inputBytes]);
    var readings := Readings(fields, raw, float32).value;
    ReadingsAreFinite(fields, raw, float32);
    EntryPlace(fields, readings, k);
    SliceFits(raw, fields[k]);
    TopBit(Slice(raw, fields[k]), fields[k].bitLength);
  }

  lemma {:induction false} SliceFits(raw: nat, f: Field)
    requires f.bitOffset >= 0
    ensures Slice(raw, f) < Pow2(f.bitLength)
  {
    hide Pow2;
  }

  // ----- packing and the round trip -----

  /** The values a field can carry: any of its integers, or the pattern of a finite float. */
  predicate Carries(f: Field, v: int, float32: Float32)
  {
    match f.kind
    case BooleanT => v == 0 || v == 1
    case IntegerT => FitsSigned(v, f.bitLength)
    case Float32T => 0 <= v < Pow2(f.bitLength) && float32(v).Some?
    case _ => 0 <= v < Pow2(f.bitLength)
  }

  /** The record as one integer: every value's code at its bit offset. */
  function Pack(fields: seq<Field>, vs: seq<int>): nat
    requires |fields| == |vs| && Decodable(fields)
  {
    if fields == [] then 0
    else
      var n := |fields| - 1;
      Or(Pack(fields[..n], vs[..n]), Shl(Code(vs[n], fields[n].bitLength), fields[n].bitOffset))
  }

  function Original(f: Field, v: int, float32: Float32): Value
    requires Carries(f, v, float32)
  {
    if f.kind == Float32T then RealValue(float32(v).value) else IntValue(v)
  }

  function Originals(fields: seq<Field>, vs: seq<int>, float32: Float32): seq<Value>
    requires |fields| == |vs| && forall i :: 0 <= i < |vs| ==> Carries(fields[i], vs[i], float32)
  {
    seq(|vs|, i requires 0 <= i < |vs| => Original(fields[i], vs[i], float32))
  }

  ghost predicate PackedBit(fields: seq<Field>, vs: seq<int>, i: nat)
    requires |fields| == |vs| && Decodable(fields)
  {
    exists k :: 0 <= k < |fields| && Covers(fields[k], i)
      && Bit(Code(vs[k], fields[k].bitLength), i - fields[k].bitOffset)
  }

  lemma {:induction false} CodeBits(f: Field, v: int, i: nat)
    requires f.bitOffset >= 0 && f.bitLength > 0
    ensures Bit(Shl(Code(v, f.bitLength), f.bitOffset), i) <==>
              Covers(f, i) && Bit(Code(v, f.bitLength), i - f.bitOffset)
  {
    var code := Code(v, f.bitLength);
    BitShiftLeft(code, f.bitOffset, i);
    if i >= f.bitOffset {
      QuotientRemainder(code, Pow2(f.bitLength), 0, code);
      BitTruncate(code, f.bitLength, i - f.bitOffset);
    }
  }

  lemma {:induction false} PackBits(fields: seq<Field>, vs: seq<int>, i: nat)
    requires |fields| == |vs| && Decodable(fields)
    ensures Bit(Pack(fields, vs), i) <==> PackedBit(fields, vs, i)
  {
    if fields == [] {
      BitOfZero(i);
    } else {
      var n := |fields| - 1;
      var f, v := fields[n], vs[n];
      PackBits(fields[..n], vs[..n], i);
      BitOr(Pack(fields[..n], vs[..n]), Shl(Code(v, f.bitLength), f.bitOffset), i);
      CodeBits(f, v, i);
      if PackedBit(fields[..n], vs[..n], i) {
        var k :| 0 <= k < n && Covers(fields[..n][k], i)
          && Bit(Code(vs[..n][k], fields[..n][k].bitLength), i - fields[..n][k].bitOffset);
        assert Covers(fields[k], i);
      }
      if PackedBit(fields, vs, i) {
        var k :| 0 <= k < |fields| && Covers(fields[k], i)
          && Bit(Code(vs[k], fields[k].bitLength), i - fields[k].bitOffset);
        if k < n { assert Covers(fields[..n][k], i); }
      }
    }
  }

  lemma {:induction false} ExtractBit(fields: seq<Field>, vs: seq<int>, k: nat, i: nat)
    requires |fields| == |vs| && Decodable(fields) && Separate(fields) && k < |fields|
    ensures Bit(Extract(Pack(fields, vs), fields[k]), i) <==>
              i < fields[k].bitLength && Bit(Code(vs[k], fields[k].bitLength), i)
  {
    hide Pack, Code, And, Shr, Pow2;
    var f, raw := fields[k], Pack(fields, vs);
    var at := i + f.bitOffset;
    BitAnd(Shr(raw, f.bitOffset), Pow2(f.bitLength) - 1, i);
    BitOfOnes(f.bitLength, i);
    BitShiftRight(raw, f.bitOffset, i);
    PackBits(fields, vs, at);
    if i < f.bitLength {
      assert Covers(fields[k], at);
      forall m | 0 <= m < |fields| && m != k
        ensures !Covers(fields[m], at)
      {
        assert if m < k then Apart(fields[m], f) else Apart(f, fields[m]);
      }
    }
  }

  /** Extraction finds each field's own code, because no other field has bits there. */
  lemma {:induction false} ExtractPacked(fields: seq<Field>, vs: seq<int>, k: nat)
    requires |fields| == |vs| && Decodable(fields) && Separate(fields) && k < |fields|
    ensures Extract(Pack(fields, vs), fields[k]) == Code(vs[k], fields[k].bitLength)
  {
    hide Pack, And, Shr, Extract;
    var f, raw := fields[k], Pack(fields, vs);
    var code := Code(vs[k], f.bitLength);
    QuotientRemainder(code, Pow2(f.bitLength), 0, code);
    forall i: nat
      ensures Bit(Extract(raw, f), i) == Bit(code, i)
    {
      ExtractBit(fields, vs, k, i);
      BitTruncate(code, f.bitLength, i);
    }
    SameBits(Extract(raw, f), code);
  }

  lemma {:induction false} ReadingOfCode(f: Field, v: int, float32: Float32)
    requires f.bitLength > 0 && Carries(f, v, float32) && (f.kind == BooleanT ==> f.bitLength == 1)
    ensures Reading(f, Code(v, f.bitLength), float32) == Some(Original(f, v, float32))
  {
    if f.kind == IntegerT {
      SignedRoundTrip(v, f.bitLength);
    } else {
      assert f.kind == BooleanT ==> Pow2(f.bitLength) == 2;
      UnsignedRoundTrip(v, f.bitLength);
    }
  }

  lemma {:induction false} ReadingsOfPacked(fields: seq<Field>, vs: seq<int>, float32: Float32, n: nat)
    requires |fields| == |vs| && Decodable(fields) && Separate(fields) && n <= |fields|
    requires forall i :: 0 <= i < |vs| ==>
               Carries(fields[i], vs[i], float32) && (fields[i].kind == BooleanT ==> fields[i].bitLength == 1)
    ensures Readings(fields[..n], Pack(fields, vs), float32) == Some(Originals(fields[..n], vs[..n], float32))
  {
    hide Pack, Extract, Reading, Code, Original, ValueEntries, StatusEntries;
    if n > 0 {
      ReadingsOfPacked(fields, vs, float32, n - 1);
      ReadingsStep(fields, n - 1, Pack(fields, vs), float32);
      ExtractPacked(fields, vs, n - 1);
      ReadingOfCode(fields[n - 1], vs[n - 1], float32);
      assert Originals(fields[..n], vs[..n], float32)
          == Originals(fields[..n - 1], vs[..n - 1], float32) + [Original(fields[n - 1], vs[n - 1], float32)];
    }
  }

  lemma {:induction false} PackFits(fields: seq<Field>, vs: seq<int>, bits: nat)
    requires |fields| == |vs| && Decodable(fields)
    requires forall i :: 0 <= i < |fields| ==> InBounds(fields[i], bits)
    ensures Pack(fields, vs) < Pow2(bits)
  {
    forall i: nat | i >= bits
      ensures !Bit(Pack(fields, vs), i)
    {
      PackBits(fields, vs, i);
    }
    Truncated(Pack(fields, vs), bits);
  }

  /** For every record the compiler accepts and any values its fields can carry, packing the
      values big-endian into the input bytes and decoding gives every value back, through the
      field's conversion, whatever padding follows the input bytes. */
  lemma {:induction false} RoundTrip(input: Input, bits: nat, info: map<int, Info>, name: string, condition: Option<int>,
                  vs: seq<int>, padding: seq<Byte>, float32: Float32)
    requires Acceptable(input, bits, info, name)
    requires |vs| == |ItemsOf(input, name)|
    requires forall i :: 0 <= i < |vs| ==> Carries(FieldsOf(ItemsOf(input, name), info)[i], vs[i], float32)
    ensures var fields := FieldsOf(ItemsOf(input, name), info);
            var inputBytes := (bits + 7) / 8;
            var profile := Profile(inputBytes, condition, Some(Layout(name, bits, fields)));
            var originals := Originals(fields, vs, float32);
            && Decodable(fields)
            && Decode(Some(profile), BigEndian(Pack(fields, vs), inputBytes) + padding, true, float32)
               == Ok(condition, name, ValueEntries(fields, originals), StatusEntries(fields, originals))
  {
    hide Pack, Readings, ValueEntries, StatusEntries, FieldsOf, Originals, BigEndian, BigEndianValue, Pow2, Carries;
    var fields := FieldsOf(ItemsOf(input, name), info);
    var inputBytes := (bits + 7) / 8;
    AcceptedFields(input, bits, info, name);
    var raw := Pack(fields, vs);
    PackFits(fields, vs, bits);
    Pow2Monotone(bits, 8 * inputBytes);
    BigEndianRoundTrip(raw, inputBytes);
    assert (BigEndian(raw, inputBytes) + padding)[..inputBytes] == BigEndian(raw, inputBytes);
    ReadingsOfPacked(fields, vs, float32, |fields|);
    assert fields[..|fields|] == fields && vs[..|vs|] == vs;
  }

  lemma {:induction false} AcceptedFields(input: Input, bits: nat, info: map<int, Info>, name: string)
    requires Acceptable(input, bits, info, name)
    ensures var fields := FieldsOf(ItemsOf(input, name), info);
            && |fields| == |ItemsOf(input, name)|
            && Decodable(fields) && Separate(fields)
            && forall i :: 0 <= i < |fields| ==>
                 InBounds(fields[i], bits) && (fields[i].kind == BooleanT ==> fields[i].bitLength == 1)
  {
    var fields := FieldsOf(ItemsOf(input, name), info);
    forall i | 0 <= i < |fields|
      ensures fields[i].bitOffset >= 0 && fields[i].bitLength > 0
      ensures fields[i].kind == BooleanT ==> fields[i].bitLength == 1
    {
      assert InBounds(fields[i], bits);
      assert MakeField(ItemsOf(input, name)[i], info).Some?;
    }
  }
}
