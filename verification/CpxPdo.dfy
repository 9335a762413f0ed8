/** The station's codec loops, in place on a payload buffer, and the objects that hold channel
    values on each side of the bus. */
module CpxPdo {
  import opened Basics
  import opened Bits
  import opened CpxLayout
  import opened CpxCodec

  // ----- pdo_codec loops -----

  method WriteDigitalBits(payload: array<Byte>, values: seq<bool>, byteOffset: nat, count: nat)
    modifies payload
    ensures payload[..] == DigitalWritten(old(payload[..]), values, byteOffset, count)
  {
    for index := 0 to count
      invariant payload[..] == DigitalWritten(old(payload[..]), values, byteOffset, index)
    {
      if index < |values| && values[index] {
        var byteIndex := byteOffset + index / 8;
        if byteIndex < payload.Length {
          payload[byteIndex] := SetBit(payload[byteIndex], index % 8);
        }
      }
    }
  }

  method ReadDigitalBits(payload: seq<Byte>, count: nat, byteOffset: nat) returns (result: seq<bool>)
    ensures result == DigitalRead(payload, count, byteOffset)
  {
    result := [];
    for index := 0 to count
      invariant result == DigitalRead(payload, count, byteOffset)[..index]
    {
      var byteIndex := byteOffset + index / 8;
      var value := byteIndex < |payload| && Bit(payload[byteIndex], index % 8);
      result := result + [value];
    }
  }

  /** Writing stops at the first value that does not fit the payload. */
  method WriteAnalogValues(payload: array<Byte>, values: seq<int>, byteOffset: nat, count: nat, byteWidth: nat)
    modifies payload
    ensures payload[..] == AnalogWritten(old(payload[..]), values, byteOffset, count, byteWidth)
  {
    hide AnalogBytes;
    for index := 0 to count
      invariant payload[..] == AnalogWritten(old(payload[..]), values, byteOffset, index, byteWidth)
    {
      LaterStart(0, index, byteWidth);
      var start := byteOffset + index * byteWidth;
      if start + byteWidth > payload.Length {
        AnalogStops(old(payload[..]), values, byteOffset, index, count, byteWidth);
        break;
      }
      CopyInto(payload, start, AnalogBytes(if index < |values| then values[index] else 0, byteWidth));
    }
  }

  lemma {:induction false} LaterStart(i: nat, j: nat, width: nat)
    requires i <= j
    ensures 0 <= i * width <= j * width
  {
    assert (j - i) * width >= 0;
  }

  lemma {:induction false} AnalogStops(image: Image, values: seq<int>, offset: nat, index: nat, count: nat, width: nat)
    requires index <= count && (index < count ==> offset + index * width + width > |image|)
    ensures AnalogWritten(image, values, offset, count, width) == AnalogWritten(image, values, offset, index, width)
  {
    hide AnalogBytes;
    if index < count {
      AnalogStops(image, values, offset, index, count - 1, width);
      LaterStart(index, count - 1, width);
    }
  }

  /** Slice assignment of equal length. */
  method CopyInto(payload: array<Byte>, start: nat, source: seq<Byte>)
    requires start + |source| <= payload.Length
    modifies payload
    ensures payload[..] == old(payload[..])[..start] + source + old(payload[..])[start + |source|..]
  {
    for k := 0 to |source|
      invariant payload[..] == old(payload[..])[..start] + source[..k] + old(payload[..])[start + k..]
    {
      payload[start + k] := source[k];
    }
    assert source[..|source|] == source;
  }

  method ReadAnalogValues(payload: seq<Byte>, count: nat, byteOffset: nat, byteWidth: nat, signed: bool)
    returns (result: seq<int>)
    ensures result == AnalogRead(payload, count, byteOffset, byteWidth, signed)
  {
    hide AnalogValue;
    result := [];
    for index := 0 to count
      invariant result == AnalogRead(payload, count, byteOffset, byteWidth, signed)[..index]
    {
      var start := byteOffset + index * byteWidth;
      if start + byteWidth > |payload| {
        result := result + [0];
      } else {
        result := result + [AnalogValue(payload[start..start + byteWidth], signed)];
      }
    }
  }

  method WriteBytes(payload: array<Byte>, values: seq<Byte>, byteOffset: nat, byteCount: nat)
    modifies payload
    ensures payload[..] == BytesWritten(old(payload[..]), values, byteOffset, byteCount)
  {
    var source := if |values| >= byteCount then values[..byteCount] else values + Zeros(byteCount - |values|);
    if byteOffset >= payload.Length {
      assert payload[..] == BytesWritten(old(payload[..]), values, byteOffset, byteCount);
      return;
    }
    var writeEnd := if byteOffset + byteCount < payload.Length then byteOffset + byteCount else payload.Length;
    CopyInto(payload, byteOffset, source[..writeEnd - byteOffset]);
    assert payload[..] == BytesWritten(old(payload[..]), values, byteOffset, byteCount);
  }

  method ReadBytes(payload: seq<Byte>, byteOffset: nat, byteCount: nat) returns (data: seq<Byte>)
    ensures data == BytesRead(payload, byteOffset, byteCount)
  {
    if byteOffset >= |payload| {
      data := Zeros(byteCount);
      assert data == BytesRead(payload, byteOffset, byteCount);
      return;
    }
    var end := if byteOffset + byteCount < |payload| then byteOffset + byteCount else |payload|;
    data := payload[byteOffset..end];
    if |data| < byteCount { data := data + Zeros(byteCount - |data|); }
    assert data == BytesRead(payload, byteOffset, byteCount);
  }

  /** encode_output_module on the master, publish_input_image on the station. */
  method EncodePort(payload: array<Byte>, p: Port, ch: Channels)
    modifies payload
    ensures payload[..] == Encode(p, old(payload[..]), ch)
  {
    if p.offset.None? { return; }
    if p.digital > 0 { WriteDigitalBits(payload, ch.digital, p.offset.value, p.digital); }
    if p.analog > 0 { WriteAnalogValues(payload, ch.analog, p.offset.value, p.analog, p.width); }
    if p.ioLink { WriteBytes(payload, ch.ioLink, p.offset.value, p.bytes); }
  }

  /** decode_input_module on the master, consume_output_image on the station. */
  method DecodePort(payload: seq<Byte>, p: Port, before: Channels) returns (ch: Channels)
    ensures ch == Decode(p, payload, before)
  {
    ch := before;
    if p.offset.None? { return; }
    if p.digital > 0 {
      var values := ReadDigitalBits(payload, p.digital, p.offset.value);
      ch := ch.(digital := values);
    }
    if p.analog > 0 {
      var values := ReadAnalogValues(payload, p.analog, p.offset.value, p.width, p.signed);
      ch := ch.(analog := values);
    }
    if p.ioLink {
      var bytes := ReadBytes(payload, p.offset.value, p.bytes);
      ch := ch.(ioLink := bytes);
    }
  }

  // ----- channel values -----

  function ClearChannels(p: Port): (ch: Channels)
    requires Placed(p)
    ensures Fits(p, ch)
  {
    Channels(seq(p.digital, _ => false), seq(p.analog, _ => 0), Zeros(if p.ioLink then p.bytes else 0))
  }

  /** The range check of an analog value. */
  method ValidateAnalogValue(p: Port, value: int) returns (ok: bool)
    ensures ok <==> FitsAnalog(value, p.width, p.signed)
  {
    var bits := 8 * p.width;
    if p.signed {
      if bits == 0 { return false; }
      ok := 0 - Pow2(bits - 1) <= value <= Pow2(bits - 1) - 1;
    } else {
      ok := 0 <= value <= Pow2(bits) - 1;
    }
  }

  /** One direction of one module: CPXRxPDO's and CPXTxPDO's per-slot entry, and each half of
      the virtual module's state. Setters reject what they cannot store and change nothing. */
  class ChannelStore {
    const port: Port
    var channels: Channels

    ghost predicate Valid()
      reads this
    {
      Fits(port, channels)
    }

    constructor (p: Port)
      requires Placed(p)
      ensures port == p && channels == ClearChannels(p) && Valid()
    {
      port, channels := p, ClearChannels(p);
    }

    method SetDigital(channel: int, value: bool) returns (ok: bool)
      requires Valid()
      modifies this
      ensures Valid() && (ok <==> 0 <= channel < port.digital)
      ensures channels == if ok then old(channels).(digital := old(channels.digital)[channel := value]) else old(channels)
    {
      ok := 0 <= channel < |channels.digital|;
      if ok { channels := channels.(digital := channels.digital[channel := value]); }
    }

    method SetAnalog(channel: int, value: int) returns (ok: bool)
      requires Valid()
      modifies this
      ensures Valid() && (ok <==> 0 <= channel < port.analog && FitsAnalog(value, port.width, port.signed))
      ensures channels == if ok then old(channels).(analog := old(channels.analog)[channel := value]) else old(channels)
    {
      if channel < 0 || channel >= |channels.analog| { return false; }
      ok := ValidateAnalogValue(port, value);
      if ok { channels := channels.(analog := channels.analog[channel := value]); }
    }

    method SetIoLink(payload: seq<Byte>) returns (ok: bool)
      requires Valid()
      modifies this
      ensures Valid() && (ok <==> |payload| == |old(channels.ioLink)|)
      ensures channels == if ok then old(channels).(ioLink := payload) else old(channels)
    {
      ok := |payload| == |channels.ioLink|;
      if ok { channels := channels.(ioLink := payload); }
    }

    method Load(payload: seq<Byte>)
      modifies this
      ensures channels == Decode(port, payload, old(channels))
    {
      channels := DecodePort(payload, port, channels);
    }
  }

  ghost function PortsOf(stores: seq<ChannelStore>): seq<Port> {
    seq(|stores|, i requires 0 <= i < |stores| => stores[i].port)
  }

  ghost function ChannelsOf(stores: seq<ChannelStore>): seq<Channels>
    reads stores
  {
    seq(|stores|, i requires 0 <= i < |stores| reads stores => stores[i].channels)
  }

  predicate Distinct<T(==)>(s: seq<T>) { forall i, j :: 0 <= i < j < |s| ==> s[i] != s[j] }

  /** A fresh image of `size` bytes with every store's channels. */
  method EncodeStores(stores: seq<ChannelStore>, size: nat) returns (image: seq<Byte>)
    ensures image == EncodeAll(PortsOf(stores), ChannelsOf(stores), size)
  {
    hide Encode;
    var payload := new Byte[size](_ => 0);
    assert payload[..] == Zeros(size);
    ghost var ports, chs := PortsOf(stores), ChannelsOf(stores);
    for n := 0 to |stores|
      invariant payload[..] == EncodeAll(ports[..n], chs[..n], size)
      invariant fresh(payload)
    {
      assert ports[..n + 1][..n] == ports[..n] && chs[..n + 1][..n] == chs[..n];
      EncodePort(payload, stores[n].port, stores[n].channels);
    }
    assert ports[..|stores|] == ports && chs[..|stores|] == chs;
    image := payload[..];
  }

  method LoadStores(stores: seq<ChannelStore>, image: seq<Byte>)
    requires Distinct(stores)
    modifies stores
    ensures forall i :: 0 <= i < |stores| ==> stores[i].channels == Decode(stores[i].port, image, old(stores[i].channels))
  {
    hide Decode;
    for n := 0 to |stores|
      invariant forall i :: 0 <= i < n ==> stores[i].channels == Decode(stores[i].port, image, old(stores[i].channels))
      invariant forall i :: n <= i < |stores| ==> stores[i].channels == old(stores[i].channels)
    {
      stores[n].Load(image);
    }
  }
}
