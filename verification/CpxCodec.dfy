/** The process image codec shared by the station's master and virtual sides: digital bits
    OR-ed into bytes, analog values as little-endian two's complement, IO-Link bytes copied.
    Payloads may be shorter than the layout; what does not fit is dropped on writing and
    reads back as false or zero. */
module CpxCodec {
  import opened Basics
  import opened Bits
  import opened CpxLayout

  type Image = seq<Byte>

  /** The channel values of one direction of one module. */
  datatype Channels = Channels(digital: seq<bool>, analog: seq<int>, ioLink: seq<Byte>)

  predicate FitsAnalog(v: int, width: nat, signed: bool) {
    if signed then FitsSigned(v, 8 * width) else 0 <= v < Pow2(8 * width)
  }

  /** Channel values of the right number and range for a port. */
  predicate Fits(p: Port, ch: Channels) {
    && |ch.digital| == p.digital
    && |ch.analog| == p.analog
    && |ch.ioLink| == (if p.ioLink then p.bytes else 0)
    && forall i :: 0 <= i < |ch.analog| ==> FitsAnalog(ch.analog[i], p.width, p.signed)
  }

  // ----- what the codec computes -----

  function SetBit(b: Byte, k: nat): Byte
    requires k < 8
  {
    SetBitBits(b, k);
    Or(b, Pow2(k))
  }

  lemma {:induction false} BitOfPow2(k: nat, i: nat)
    ensures Bit(Pow2(k), i) <==> i == k
  {
    BitShiftLeft(1, k, i);
    if i > k { BitOfZero(i - k - 1); }
  }

  lemma {:induction false} SetBitBits(b: Byte, k: nat)
    requires k < 8
    ensures Or(b, Pow2(k)) < 256
    ensures forall i: nat :: Bit(Or(b, Pow2(k)), i) <==> Bit(b, i) || i == k
  {
    assert Pow2(8) == 256;
    QuotientRemainder(b, Pow2(8), 0, b);
    forall i: nat
      ensures Bit(Or(b, Pow2(k)), i) <==> Bit(b, i) || i == k
      ensures i >= 8 ==> !Bit(b, i)
    {
      BitOr(b, Pow2(k), i);
      BitOfPow2(k, i);
      BitTruncate(b, 8, i);
    }
    Truncated(Or(b, Pow2(k)), 8);
  }

  function DigitalWritten(image: Image, values: seq<bool>, offset: nat, count: nat): (r: Image)
    ensures |r| == |image|
  {
    if count == 0 then image
    else
      var i := count - 1;
      var r := DigitalWritten(image, values, offset, i);
      var at := offset + i / 8;
      if i < |values| && values[i] && at < |image| then r[at := SetBit(r[at], i % 8)] else r
  }

  function DigitalRead(image: Image, count: nat, offset: nat): seq<bool> {
    seq(count, i requires 0 <= i < count => offset + i / 8 < |image| && Bit(image[offset + i / 8], i % 8))
  }

  function AnalogBytes(v: int, width: nat): (bytes: Image)
    ensures |bytes| == width
  {
    LittleEndian(Code(v, 8 * width), width)
  }

  function AnalogValue(bytes: Image, signed: bool): int {
    var n := LittleEndianValue(bytes);
    if signed && |bytes| > 0 then SignedValue(n, 8 * |bytes|) else n
  }

  function AnalogWritten(image: Image, values: seq<int>, offset: nat, count: nat, width: nat): (r: Image)
    ensures |r| == |image|
  {
    if count == 0 then image
    else
      var i := count - 1;
      var r := AnalogWritten(image, values, offset, i, width);
      var start := offset + i * width;
      if start + width > |image| then r
      else r[..start] + AnalogBytes(if i < |values| then values[i] else 0, width) + r[start + width..]
  }

  function AnalogRead(image: Image, count: nat, offset: nat, width: nat, signed: bool): seq<int> {
    seq(count, i requires 0 <= i < count =>
      var start := offset + i * width;
      if start + width > |image| then 0 else AnalogValue(image[start..start + width], signed))
  }

  function BytesWritten(image: Image, values: Image, offset: nat, count: nat): (r: Image)
    ensures |r| == |image|
  {
    seq(|image|, b requires 0 <= b < |image| =>
      if !(offset <= b < offset + count) then image[b]
      else if b - offset < |values| then values[b - offset] else 0)
  }

  function BytesRead(image: Image, offset: nat, count: nat): Image {
    seq(count, i requires 0 <= i < count => if offset + i < |image| then image[offset + i] else 0)
  }

  function Encode(p: Port, image: Image, ch: Channels): (r: Image)
    ensures |r| == |image|
  {
    if p.offset.None? then image
    else
      var off := p.offset.value;
      var r1 := if p.digital > 0 then DigitalWritten(image, ch.digital, off, p.digital) else image;
      var r2 := if p.analog > 0 then AnalogWritten(r1, ch.analog, off, p.analog, p.width) else r1;
      if p.ioLink then BytesWritten(r2, ch.ioLink, off, p.bytes) else r2
  }

  /** What a side holds for a port after decoding `image`, starting from `ch`. */
  function Decode(p: Port, image: Image, ch: Channels): Channels {
    if p.offset.None? then ch
    else
      var off := p.offset.value;
      Channels(
        if p.digital > 0 then DigitalRead(image, p.digital, off) else ch.digital,
        if p.analog > 0 then AnalogRead(image, p.analog, off, p.width, p.signed) else ch.analog,
        if p.ioLink then BytesRead(image, off, p.bytes) else ch.ioLink)
  }

  function Zeros(n: nat): (z: Image)
    ensures |z| == n && forall i :: 0 <= i < n ==> z[i] == 0
  {
    seq(n, _ => 0)
  }

  /** An image of `size` bytes holding every port's channels. */
  function EncodeAll(ports: seq<Port>, chs: seq<Channels>, size: nat): (r: Image)
    requires |ports| == |chs|
    ensures |r| == size
  {
    if ports == [] then Zeros(size)
    else
      var n := |ports| - 1;
      Encode(ports[n], EncodeAll(ports[..n], chs[..n], size), chs[n])
  }

  // ----- the channels an image of a given size can show -----

  function Visible(p: Port, ch: Channels, size: nat): Channels
    requires p.offset.Some?
  {
    var off := p.offset.value;
    Channels(
      seq(|ch.digital|, i requires 0 <= i < |ch.digital| => ch.digital[i] && off + i / 8 < size),
      seq(|ch.analog|, i requires 0 <= i < |ch.analog| =>
        if off + i * p.width + p.width <= size then ch.analog[i] else 0),
      seq(|ch.ioLink|, i requires 0 <= i < |ch.ioLink| => if off + i < size then ch.ioLink[i] else 0))
  }

  // ----- frames -----

  predicate SameOutside(a: Image, b: Image, lo: nat, hi: nat) {
    |a| == |b| && forall k :: 0 <= k < |a| && !(lo <= k < hi) ==> a[k] == b[k]
  }

  predicate SameInside(a: Image, b: Image, lo: nat, hi: nat) {
    |a| == |b| && forall k :: 0 <= k < |a| && lo <= k < hi ==> a[k] == b[k]
  }

  lemma {:induction false} DigitalFrame(image: Image, values: seq<bool>, offset: nat, count: nat, bytes: nat)
    requires count <= 8 * bytes
    ensures SameOutside(DigitalWritten(image, values, offset, count), image, offset, offset + bytes)
  {
    if count > 0 { DigitalFrame(image, values, offset, count - 1, bytes); }
  }

  lemma {:induction false} AnalogFrame(image: Image, values: seq<int>, offset: nat, count: nat, width: nat, bytes: nat)
    requires count * width <= bytes
    ensures SameOutside(AnalogWritten(image, values, offset, count, width), image, offset, offset + bytes)
  {
    hide AnalogBytes;
    if count > 0 {
      var i := count - 1;
      ChannelInside(i, count, width, bytes);
      AnalogFrame(image, values, offset, i, width, bytes);
    }
  }

  /** Encoding a port changes no byte outside its region, whatever the image size. */
  lemma {:induction false} EncodeFrame(p: Port, image: Image, ch: Channels)
    requires Placed(p) && p.offset.Some?
    ensures SameOutside(Encode(p, image, ch), image, p.offset.value, p.offset.value + p.bytes)
  {
    var off := p.offset.value;
    DigitalFrame(image, ch.digital, off, p.digital, p.bytes);
    AnalogFrame(image, ch.analog, off, p.analog, p.width, p.bytes);
  }

  /** Decoding a port looks at no byte outside its region. */
  lemma {:induction false} DecodeLocal(p: Port, a: Image, b: Image, ch: Channels)
    requires Placed(p) && p.offset.Some?
    requires SameInside(a, b, p.offset.value, p.offset.value + p.bytes)
    ensures Decode(p, a, ch) == Decode(p, b, ch)
  {
    var off := p.offset.value;
    if p.digital > 0 {
      assert DigitalRead(a, p.digital, off) == DigitalRead(b, p.digital, off);
    }
    if p.analog > 0 {
      forall i | 0 <= i < p.analog
        ensures AnalogRead(a, p.analog, off, p.width, p.signed)[i] == AnalogRead(b, p.analog, off, p.width, p.signed)[i]
      {
        var start := off + i * p.width;
        ChannelInside(i, p.analog, p.width, p.bytes);
        if start + p.width <= |a| { assert a[start..start + p.width] == b[start..start + p.width]; }
      }
      assert AnalogRead(a, p.analog, off, p.width, p.signed) == AnalogRead(b, p.analog, off, p.width, p.signed);
    }
    if p.ioLink {
      assert BytesRead(a, off, p.bytes) == BytesRead(b, off, p.bytes);
    }
  }

  lemma {:induction false} ChannelInside(i: nat, count: nat, width: nat, bytes: nat)
    requires i < count && count * width <= bytes
    ensures i * width + width <= bytes
  {
    assert (count - i - 1) * width >= 0;
  }

  // ----- writing and reading back -----

  lemma {:induction false} DigitalBits(image: Image, values: seq<bool>, offset: nat, count: nat, i: nat)
    requires forall k :: 0 <= k < |image| && offset <= k ==> image[k] == 0
    requires offset + i / 8 < |image|
    ensures Bit(DigitalWritten(image, values, offset, count)[offset + i / 8], i % 8)
            <==> i < count && i < |values| && values[i]
  {
    if count == 0 {
      BitOfZero(i % 8);
    } else {
      var n := count - 1;
      DigitalBits(image, values, offset, n, i);
      var r := DigitalWritten(image, values, offset, n);
      if offset + n / 8 < |image| { SetBitBits(r[offset + n / 8], n % 8); }
    }
  }

  lemma {:induction false} AnalogSlice(image: Image, values: seq<int>, offset: nat, count: nat, width: nat, i: nat)
    requires i < count && count <= |values| && width > 0 && offset + i * width + width <= |image|
    ensures AnalogWritten(image, values, offset, count, width)[offset + i * width..offset + i * width + width]
         == AnalogBytes(values[i], width)
  {
    hide AnalogBytes;
    var n := count - 1;
    var r := AnalogWritten(image, values, offset, n, width);
    var start := offset + n * width;
    if i < n {
      AnalogSlice(image, values, offset, n, width, i);
      ChannelInside(i, n, width, n * width);
      if start + width <= |image| {
        var q := r[..start] + AnalogBytes(values[n], width) + r[start + width..];
        assert q[offset + i * width..offset + i * width + width] == r[offset + i * width..offset + i * width + width];
      }
    }
  }

  lemma {:induction false} AnalogRoundTrip(v: int, width: nat, signed: bool)
    requires width > 0 && FitsAnalog(v, width, signed)
    ensures AnalogValue(AnalogBytes(v, width), signed) == v
  {
    if signed { SignedRoundTrip(v, 8 * width); } else { UnsignedRoundTrip(v, 8 * width); }
    LittleEndianRoundTrip(Code(v, 8 * width), width);
  }

  /** Reading a port back from a clear region gives exactly the channels that fit the image. */
  lemma {:induction false} PortReadBack(p: Port, image: Image, ch: Channels, before: Channels)
    requires Placed(p) && p.offset.Some? && Fits(p, ch) && Fits(p, before)
    requires forall k :: 0 <= k < |image| && p.offset.value <= k ==> image[k] == 0
    ensures Decode(p, Encode(p, image, ch), before) == Visible(p, ch, |image|)
  {
    var off, size := p.offset.value, |image|;
    var seen := Visible(p, ch, size);
    if p.digital > 0 {
      var r := DigitalWritten(image, ch.digital, off, p.digital);
      forall i | 0 <= i < p.digital
        ensures DigitalRead(r, p.digital, off)[i] == seen.digital[i]
      {
        if off + i / 8 < size { DigitalBits(image, ch.digital, off, p.digital, i); }
      }
      assert DigitalRead(r, p.digital, off) == seen.digital;
    }
    if p.analog > 0 {
      var r := AnalogWritten(image, ch.analog, off, p.analog, p.width);
      forall i | 0 <= i < p.analog
        ensures AnalogRead(r, p.analog, off, p.width, p.signed)[i] == seen.analog[i]
      {
        if off + i * p.width + p.width <= size {
          AnalogSlice(image, ch.analog, off, p.analog, p.width, i);
          AnalogRoundTrip(ch.analog[i], p.width, p.signed);
        }
      }
      assert AnalogRead(r, p.analog, off, p.width, p.signed) == seen.analog;
    }
    if p.ioLink {
      assert BytesRead(BytesWritten(image, ch.ioLink, off, p.bytes), off, p.bytes) == seen.ioLink;
    }
  }

  // ----- the whole station -----

  predicate AllFit(ports: seq<Port>, chs: seq<Channels>) {
    |chs| == |ports| && forall i :: 0 <= i < |ports| ==> Fits(ports[i], chs[i])
  }

  /** Before a port is encoded, nothing at or beyond its offset has been written. */
  lemma {:induction false} ClearAhead(ports: seq<Port>, chs: seq<Channels>, size: nat, total: nat, n: nat, j: nat)
    requires Partitioned(ports, total) && |chs| == |ports| && n <= j < |ports| && ports[j].offset.Some?
    ensures forall k :: 0 <= k < size && ports[j].offset.value <= k ==> EncodeAll(ports[..n], chs[..n], size)[k] == 0
  {
    hide Encode;
    if n > 0 {
      ClearAhead(ports, chs, size, total, n - 1, j);
      assert ports[..n][..n - 1] == ports[..n - 1] && chs[..n][..n - 1] == chs[..n - 1];
      var image := EncodeAll(ports[..n - 1], chs[..n - 1], size);
      if ports[n - 1].offset.Some? {
        EncodeFrame(ports[n - 1], image, chs[n - 1]);
      } else {
        EncodeUnplaced(ports[n - 1], image, chs[n - 1]);
      }
    }
  }

  lemma {:induction false} EncodeUnplaced(p: Port, image: Image, ch: Channels)
    requires p.offset.None?
    ensures Encode(p, image, ch) == image
  {
  }

  lemma {:induction false} ReadBackFrom(ports: seq<Port>, chs: seq<Channels>, size: nat, total: nat,
                                        n: nat, j: nat, before: Channels)
    requires Partitioned(ports, total) && AllFit(ports, chs) && j < n <= |ports|
    requires ports[j].offset.Some? && Fits(ports[j], before)
    ensures Decode(ports[j], EncodeAll(ports[..n], chs[..n], size), before) == Visible(ports[j], chs[j], size)
  {
    hide Encode, Decode, Visible;
    assert ports[..n][..n - 1] == ports[..n - 1] && chs[..n][..n - 1] == chs[..n - 1];
    var image := EncodeAll(ports[..n - 1], chs[..n - 1], size);
    if j == n - 1 {
      ClearAhead(ports, chs, size, total, n - 1, j);
      PortReadBack(ports[j], image, chs[j], before);
    } else {
      ReadBackFrom(ports, chs, size, total, n - 1, j, before);
      if ports[n - 1].offset.Some? {
        EncodeFrame(ports[n - 1], image, chs[n - 1]);
        DecodeLocal(ports[j], Encode(ports[n - 1], image, chs[n - 1]), image, before);
      } else {
        EncodeUnplaced(ports[n - 1], image, chs[n - 1]);
      }
    }
  }

  /** In an image of any size, every port of a partitioned station reads back exactly the
      channels that fit that image: no port disturbs another. */
  lemma {:induction false} ReadBack(ports: seq<Port>, chs: seq<Channels>, size: nat, total: nat, j: nat, before: Channels)
    requires Partitioned(ports, total) && AllFit(ports, chs) && j < |ports|
    requires ports[j].offset.Some? && Fits(ports[j], before)
    ensures Decode(ports[j], EncodeAll(ports, chs, size), before) == Visible(ports[j], chs[j], size)
  {
    ReadBackFrom(ports, chs, size, total, |ports|, j, before);
    assert ports[..|ports|] == ports && chs[..|ports|] == chs;
  }

  /** An image that holds the whole station loses nothing. */
  lemma {:induction false} FullImage(ports: seq<Port>, chs: seq<Channels>, size: nat, total: nat, j: nat, before: Channels)
    requires Partitioned(ports, total) && AllFit(ports, chs) && total <= size && j < |ports|
    requires Fits(ports[j], before)
    ensures Decode(ports[j], EncodeAll(ports, chs, size), before) == if ports[j].offset.Some? then chs[j] else before
  {
    hide Decode, EncodeAll;
    var p := ports[j];
    if p.offset.Some? {
      ReadBack(ports, chs, size, total, j, before);
      forall i | 0 <= i < p.analog
        ensures i * p.width + p.width <= p.bytes
      {
        ChannelInside(i, p.analog, p.width, p.bytes);
      }
      assert Visible(p, chs[j], size) == chs[j];
    } else {
      DecodeUnplaced(p, EncodeAll(ports, chs, size), before);
    }
  }

  lemma {:induction false} DecodeUnplaced(p: Port, image: Image, ch: Channels)
    requires p.offset.None?
    ensures Decode(p, image, ch) == ch
  {
  }

  lemma {:induction false} AnalogByte(bytes: Image, signed: bool, k: nat)
    requires k < |bytes|
    ensures bytes[k] == AnalogValue(bytes, signed) / Pow2(8 * k) % 256
  {
    LittleEndianReads(bytes, k);
    LittleEndianBound(bytes);
    SignedReads(LittleEndianValue(bytes), |bytes|, k);
  }

  /** The range of an analog channel is exactly what its bytes can say. */
  lemma {:induction false} AnalogRange(bytes: Image, signed: bool)
    requires bytes != []
    ensures FitsAnalog(AnalogValue(bytes, signed), |bytes|, signed)
    ensures AnalogBytes(AnalogValue(bytes, signed), |bytes|) == bytes
  {
    var n := LittleEndianValue(bytes);
    LittleEndianBound(bytes);
    LittleEndianOfValue(bytes);
    if signed { SignedCode(n, 8 * |bytes|); } else { UnsignedRoundTrip(n, 8 * |bytes|); }
  }

  /** Where a station's values lie in an image that holds it. Digital channel `i`: bit `i mod 8` of
      byte `i div 8` of its module. */
  lemma {:induction false} DigitalPlace(ports: seq<Port>, chs: seq<Channels>, size: nat, total: nat, j: nat, i: nat)
    requires Partitioned(ports, total) && AllFit(ports, chs) && total <= size && j < |ports|
    requires ports[j].offset.Some? && i < ports[j].digital
    ensures ports[j].offset.value + i / 8 < size
    ensures Bit(EncodeAll(ports, chs, size)[ports[j].offset.value + i / 8], i % 8) <==> chs[j].digital[i]
  {
    hide EncodeAll;
    var p, image := ports[j], EncodeAll(ports, chs, size);
    FullImage(ports, chs, size, total, j, chs[j]);
    assert DigitalRead(image, p.digital, p.offset.value)[i] == chs[j].digital[i];
  }

  /** Byte `k` of an analog channel: its 256^k digit, low byte first. */
  lemma {:induction false} AnalogPlace(ports: seq<Port>, chs: seq<Channels>, size: nat, total: nat, j: nat, i: nat, k: nat)
    requires Partitioned(ports, total) && AllFit(ports, chs) && total <= size && j < |ports|
    requires ports[j].offset.Some? && i < ports[j].analog && k < ports[j].width
    ensures 0 <= i * ports[j].width && i * ports[j].width + ports[j].width <= ports[j].bytes
    ensures EncodeAll(ports, chs, size)[ports[j].offset.value + i * ports[j].width + k]
         == chs[j].analog[i] / Pow2(8 * k) % 256
  {
    hide EncodeAll, AnalogValue, Pow2, Fits;
    var p, image := ports[j], EncodeAll(ports, chs, size);
    assert Placed(p);
    ChannelInside(i, p.analog, p.width, p.bytes);
    FullImage(ports, chs, size, total, j, chs[j]);
    AnalogSeen(p, image, chs[j], i);
    var start := p.offset.value + i * p.width;
    AnalogByte(image[start..start + p.width], p.signed, k);
  }

  lemma {:induction false} AnalogSeen(p: Port, image: Image, ch: Channels, i: nat)
    requires p.offset.Some? && i < p.analog && |ch.analog| == p.analog && Decode(p, image, ch) == ch && 0 <= i * p.width
    requires p.offset.value + i * p.width + p.width <= |image|
    ensures var start := p.offset.value + i * p.width;
            AnalogValue(image[start..start + p.width], p.signed) == ch.analog[i]
  {
    hide AnalogValue;
    assert AnalogRead(image, p.analog, p.offset.value, p.width, p.signed)[i] == ch.analog[i];
  }

  /** IO-Link bytes: as they are. */
  lemma {:induction false} IoLinkPlace(ports: seq<Port>, chs: seq<Channels>, size: nat, total: nat, j: nat, i: nat)
    requires Partitioned(ports, total) && AllFit(ports, chs) && total <= size && j < |ports|
    requires ports[j].offset.Some? && ports[j].ioLink && i < ports[j].bytes
    ensures ports[j].offset.value + i < size
    ensures EncodeAll(ports, chs, size)[ports[j].offset.value + i] == chs[j].ioLink[i]
  {
    hide EncodeAll;
    var p, image := ports[j], EncodeAll(ports, chs, size);
    FullImage(ports, chs, size, total, j, chs[j]);
    assert BytesRead(image, p.offset.value, p.bytes)[i] == chs[j].ioLink[i];
  }

  /** Setting one digital channel changes that channel alone on read-back, even when the image
      is too small for the station. */
  lemma {:induction false} DigitalChannelAlone(ports: seq<Port>, chs: seq<Channels>, size: nat, total: nat,
                            j: nat, i: nat, value: bool, m: nat, before: Channels)
    requires Partitioned(ports, total) && AllFit(ports, chs) && j < |ports| && m < |ports|
    requires i < ports[j].digital && ports[m].offset.Some? && Fits(ports[m], before)
    ensures var chs' := chs[j := chs[j].(digital := chs[j].digital[i := value])];
            var old', new' := Decode(ports[m], EncodeAll(ports, chs, size), before),
                              Decode(ports[m], EncodeAll(ports, chs', size), before);
            if m != j then new' == old'
            else new' == old'.(digital := old'.digital[i := value && ports[j].offset.value + i / 8 < size])
  {
    hide Decode, EncodeAll;
    var chs' := chs[j := chs[j].(digital := chs[j].digital[i := value])];
    ReadBack(ports, chs, size, total, m, before);
    ReadBack(ports, chs', size, total, m, before);
    if m == j {
      var a, b := Visible(ports[m], chs[m], size), Visible(ports[m], chs'[m], size);
      assert b.digital == a.digital[i := value && ports[j].offset.value + i / 8 < size];
    }
  }

  /** The same for an analog channel. */
  lemma {:induction false} AnalogChannelAlone(ports: seq<Port>, chs: seq<Channels>, size: nat, total: nat,
                           j: nat, i: nat, value: int, m: nat, before: Channels)
    requires Partitioned(ports, total) && AllFit(ports, chs) && j < |ports| && m < |ports|
    requires i < ports[j].analog && FitsAnalog(value, ports[j].width, ports[j].signed)
    requires ports[m].offset.Some? && Fits(ports[m], before)
    ensures var chs' := chs[j := chs[j].(analog := chs[j].analog[i := value])];
            var old', new' := Decode(ports[m], EncodeAll(ports, chs, size), before),
                              Decode(ports[m], EncodeAll(ports, chs', size), before);
            if m != j then new' == old'
            else
              var fits := ports[j].offset.value + i * ports[j].width + ports[j].width <= size;
              new' == old'.(analog := old'.analog[i := if fits then value else 0])
  {
    hide Decode, EncodeAll;
    var chs' := chs[j := chs[j].(analog := chs[j].analog[i := value])];
    ReadBack(ports, chs, size, total, m, before);
    ReadBack(ports, chs', size, total, m, before);
    if m == j {
      var fits := ports[j].offset.value + i * ports[j].width + ports[j].width <= size;
      var a, b := Visible(ports[m], chs[m], size), Visible(ports[m], chs'[m], size);
      assert b.analog == a.analog[i := if fits then value else 0];
    }
  }
}
