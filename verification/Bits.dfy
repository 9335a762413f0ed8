/** Unbounded integers as bit strings, the way Python's `&`, `|`, `<<` and `>>` see them,
    and the byte orders built on them. */
module Bits {

  type Byte = n: int | 0 <= n < 256

  function Pow2(n: nat): (r: nat)
    ensures r > 0
  {
    if n == 0 then 1 else 2 * Pow2(n - 1)
  }

  predicate Bit(n: nat, i: nat) {
    if i == 0 then n % 2 == 1 else Bit(n / 2, i - 1)
  }

  function And(a: nat, b: nat): nat {
    if a == 0 || b == 0 then 0
    else 2 * And(a / 2, b / 2) + (if a % 2 == 1 && b % 2 == 1 then 1 else 0)
  }

  function Or(a: nat, b: nat): nat {
    if a == 0 then b else if b == 0 then a
    else 2 * Or(a / 2, b / 2) + (if a % 2 == 1 || b % 2 == 1 then 1 else 0)
  }

  lemma {:induction false} BitOfZero(i: nat)
    ensures !Bit(0, i)
  {
    if i > 0 { BitOfZero(i - 1); }
  }

  lemma {:induction false} BitAnd(a: nat, b: nat, i: nat)
    ensures Bit(And(a, b), i) <==> Bit(a, i) && Bit(b, i)
    decreases i
  {
    BitOfZero(i);
    if i > 0 && a != 0 && b != 0 {
      assert And(a, b) / 2 == And(a / 2, b / 2);
      BitAnd(a / 2, b / 2, i - 1);
    }
  }

  lemma {:induction false} BitOr(a: nat, b: nat, i: nat)
    ensures Bit(Or(a, b), i) <==> Bit(a, i) || Bit(b, i)
    decreases i
  {
    BitOfZero(i);
    if i > 0 && a != 0 && b != 0 {
      assert Or(a, b) / 2 == Or(a / 2, b / 2);
      BitOr(a / 2, b / 2, i - 1);
    }
  }

  /** A natural number is determined by its bits. */
  lemma {:induction false} SameBits(a: nat, b: nat)
    requires forall i: nat :: Bit(a, i) == Bit(b, i)
    ensures a == b
    decreases a + b
  {
    assert Bit(a, 0) == Bit(b, 0);
    if a != 0 || b != 0 {
      forall i: nat
        ensures Bit(a / 2, i) == Bit(b / 2, i)
      {
        assert Bit(a, i + 1) == Bit(b, i + 1);
      }
      SameBits(a / 2, b / 2);
    }
  }

  ghost predicate NoCommonBit(a: nat, b: nat) {
    forall i: nat :: !(Bit(a, i) && Bit(b, i))
  }

  /** The mask test: an empty conjunction is exactly the absence of a common bit. */
  lemma {:induction false} AndIsZero(a: nat, b: nat)
    ensures And(a, b) == 0 <==> NoCommonBit(a, b)
  {
    if And(a, b) == 0 {
      forall i: nat
        ensures !(Bit(a, i) && Bit(b, i))
      {
        BitAnd(a, b, i);
        BitOfZero(i);
      }
    }
    if NoCommonBit(a, b) {
      forall i: nat
        ensures Bit(And(a, b), i) == Bit(0, i)
      {
        BitAnd(a, b, i);
        BitOfZero(i);
      }
      SameBits(And(a, b), 0);
    }
  }

  lemma {:induction false} QuotientNonNegative(n: nat, d: nat)
    requires d > 0
    ensures n / d >= 0
  {
  }

  /** `n >> k`. */
  function Shr(n: nat, k: nat): nat {
    QuotientNonNegative(n, Pow2(k));
    n / Pow2(k)
  }

  lemma {:induction false} ProductNonNegative(a: nat, b: nat)
    ensures a * b >= 0
  {
  }

  /** `n << k`. */
  function Shl(n: nat, k: nat): nat {
    ProductNonNegative(n, Pow2(k));
    n * Pow2(k)
  }

  lemma {:induction false} DivPow2(n: nat, k: nat)
    requires k > 0
    ensures n / Pow2(k) == (n / 2) / Pow2(k - 1)
    ensures (n % Pow2(k)) / 2 == (n / 2) % Pow2(k - 1) && (n % Pow2(k)) % 2 == n % 2
  {
    var m, p := n / 2, Pow2(k - 1);
    var q, r := m / p, m % p;
    assert n == 2 * m + n % 2 && m == q * p + r;
    assert n == q * Pow2(k) + (2 * r + n % 2) by { assert q * (2 * p) == 2 * (q * p); }
    QuotientRemainder(n, Pow2(k), q, 2 * r + n % 2);
  }

  lemma {:induction false} QuotientRemainder(n: int, d: int, q: int, r: int)
    requires d > 0 && 0 <= r < d && n == q * d + r
    ensures n / d == q && n % d == r
  {
    var q', r' := n / d, n % d;
    Unique(d, q, r, q', r');
  }

  lemma {:induction false} Unique(d: int, q: int, r: int, q': int, r': int)
    requires 0 <= r < d && 0 <= r' < d && q * d + r == q' * d + r'
    ensures q == q' && r == r'
  {
    if q < q' { AtLeast(q' - q, d); } else if q' < q { AtLeast(q - q', d); }
  }

  lemma {:induction false} AtLeast(x: int, d: int)
    requires x >= 1 && d > 0
    ensures x * d >= d
  {
  }

  lemma {:induction false} BitShiftRight(n: nat, k: nat, i: nat)
    ensures Bit(Shr(n, k), i) == Bit(n, i + k)
    decreases k
  {
    if k > 0 {
      DivPow2(n, k);
      BitShiftRight(n / 2, k - 1, i);
    }
  }

  lemma {:induction false} BitShiftLeft(n: nat, k: nat, i: nat)
    ensures Bit(Shl(n, k), i) <==> i >= k && Bit(n, i - k)
    decreases k
  {
    if k > 0 {
      var half := n * Pow2(k - 1);
      assert n * Pow2(k) == 2 * half;
      if i > 0 { BitShiftLeft(n, k - 1, i - 1); }
    }
  }

  lemma {:induction false} BitTruncate(n: nat, k: nat, i: nat)
    ensures Bit(n % Pow2(k), i) <==> i < k && Bit(n, i)
    decreases k
  {
    if k == 0 {
      BitOfZero(i);
    } else {
      DivPow2(n, k);
      if i > 0 { BitTruncate(n / 2, k - 1, i - 1); }
    }
  }

  lemma {:induction false} BitOfOnes(len: nat, i: nat)
    ensures Bit(Pow2(len) - 1, i) <==> i < len
    decreases len
  {
    if len == 0 {
      BitOfZero(i);
    } else if i > 0 {
      assert (Pow2(len) - 1) / 2 == Pow2(len - 1) - 1;
      BitOfOnes(len - 1, i - 1);
    }
  }

  lemma {:induction false} Pow2Adds(a: nat, b: nat)
    ensures Pow2(a + b) == Pow2(a) * Pow2(b)
  {
    if a > 0 { Pow2Adds(a - 1, b); }
  }

  lemma {:induction false} Pow2Monotone(a: nat, b: nat)
    requires a <= b
    ensures Pow2(a) <= Pow2(b)
    decreases b
  {
    if a < b { Pow2Monotone(a, b - 1); }
  }

  lemma {:induction false} Truncated(n: nat, k: nat)
    requires forall i: nat :: i >= k ==> !Bit(n, i)
    ensures n < Pow2(k)
  {
    forall i: nat
      ensures Bit(n % Pow2(k), i) == Bit(n, i)
    {
      BitTruncate(n, k, i);
    }
    SameBits(n % Pow2(k), n);
  }

  // ----- byte orders -----

  function BigEndianValue(bytes: seq<Byte>): nat {
    if bytes == [] then 0 else BigEndianValue(bytes[..|bytes| - 1]) * 256 + bytes[|bytes| - 1]
  }

  function BigEndian(n: nat, count: nat): (bytes: seq<Byte>)
    ensures |bytes| == count
  {
    if count == 0 then [] else BigEndian(n / 256, count - 1) + [n % 256]
  }

  function LittleEndianValue(bytes: seq<Byte>): nat {
    if bytes == [] then 0 else bytes[0] + 256 * LittleEndianValue(bytes[1..])
  }

  function LittleEndian(n: nat, count: nat): (bytes: seq<Byte>)
    ensures |bytes| == count
  {
    if count == 0 then [] else [n % 256] + LittleEndian(n / 256, count - 1)
  }

  lemma {:induction false} ByteShift(n: nat, count: nat)
    requires count > 0 && n < Pow2(8 * count)
    ensures n / 256 < Pow2(8 * (count - 1))
  {
    var k := 8 * (count - 1);
    Pow2Adds(8, k);
    assert Pow2(8) == 256;
  }

  lemma {:induction false} BigEndianRoundTrip(n: nat, count: nat)
    requires n < Pow2(8 * count)
    ensures BigEndianValue(BigEndian(n, count)) == n
  {
    if count > 0 {
      ByteShift(n, count);
      BigEndianRoundTrip(n / 256, count - 1);
      assert BigEndian(n, count)[..count - 1] == BigEndian(n / 256, count - 1);
    }
  }

  lemma {:induction false} LittleEndianRoundTrip(n: nat, count: nat)
    requires n < Pow2(8 * count)
    ensures LittleEndianValue(LittleEndian(n, count)) == n
  {
    if count > 0 {
      ByteShift(n, count);
      LittleEndianRoundTrip(n / 256, count - 1);
      assert LittleEndian(n, count)[1..] == LittleEndian(n / 256, count - 1);
    }
  }

  lemma {:induction false} DivideByByte(n: nat, k: nat)
    requires k > 0
    ensures n / Pow2(8 * k) == (n / 256) / Pow2(8 * (k - 1))
  {
    hide Pow2;
    var p, m := Pow2(8 * (k - 1)), n / 256;
    assert Pow2(8 * k) == 256 * p by { Pow2Adds(8, 8 * (k - 1)); Pow2OfEight(); }
    var q, r := m / p, m % p;
    assert n == 256 * m + n % 256 && m == q * p + r;
    assert n == q * (256 * p) + (256 * r + n % 256) by { assert q * (256 * p) == 256 * (q * p); }
    QuotientRemainder(n, 256 * p, q, 256 * r + n % 256);
  }

  lemma {:induction false} Pow2OfEight()
    ensures Pow2(8) == 256 && Pow2(0) == 1
  {
  }

  /** Little-endian: byte `k` is worth 256^k. */
  lemma {:induction false} LittleEndianReads(bytes: seq<Byte>, k: nat)
    requires k < |bytes|
    ensures LittleEndianValue(bytes) / Pow2(8 * k) % 256 == bytes[k]
  {
    var n := LittleEndianValue(bytes);
    assert n % 256 == bytes[0] && n / 256 == LittleEndianValue(bytes[1..]);
    if k > 0 {
      LittleEndianReads(bytes[1..], k - 1);
      DivideByByte(n, k);
    }
  }

  /** Big-endian: the last byte is worth 1, each one before it 256 times as much. */
  lemma {:induction false} BigEndianReads(bytes: seq<Byte>, k: nat)
    requires k < |bytes|
    ensures BigEndianValue(bytes) / Pow2(8 * (|bytes| - 1 - k)) % 256 == bytes[k]
  {
    var n, last := BigEndianValue(bytes), |bytes| - 1;
    assert n % 256 == bytes[last] && n / 256 == BigEndianValue(bytes[..last]);
    if k < last {
      BigEndianReads(bytes[..last], k);
      DivideByByte(n, last - k);
    }
  }

  lemma {:induction false} LittleEndianBound(bytes: seq<Byte>)
    ensures LittleEndianValue(bytes) < Pow2(8 * |bytes|)
  {
    if bytes != [] {
      LittleEndianBound(bytes[1..]);
      Pow2Adds(8, 8 * (|bytes| - 1));
      Pow2OfEight();
    }
  }

  lemma {:induction false} LittleEndianOfValue(bytes: seq<Byte>)
    ensures LittleEndian(LittleEndianValue(bytes), |bytes|) == bytes
  {
    if bytes != [] {
      LittleEndianOfValue(bytes[1..]);
      var n := LittleEndianValue(bytes);
      assert n % 256 == bytes[0] && n / 256 == LittleEndianValue(bytes[1..]);
      assert bytes == [bytes[0]] + bytes[1..];
    }
  }

  // ----- two's complement -----

  predicate FitsSigned(v: int, bits: nat)
  {
    bits > 0 && 0 - Pow2(bits - 1) <= v < Pow2(bits - 1)
  }

  /** The unsigned code of a value in `bits` bits. */
  function Code(v: int, bits: nat): nat { v % Pow2(bits) }

  /** The signed reading of a code: the top bit counts negatively. */
  function SignedValue(code: nat, bits: nat): int
    requires bits > 0
  {
    if Bit(code, bits - 1) then code - Pow2(bits) else code
  }

  lemma {:induction false} TopBit(code: nat, bits: nat)
    requires bits > 0 && code < Pow2(bits)
    ensures Bit(code, bits - 1) <==> code >= Pow2(bits - 1)
  {
    var p := Pow2(bits - 1);
    BitShiftRight(code, bits - 1, 0);
    QuotientRemainder(code, p, if code < p then 0 else 1, if code < p then code else code - p);
  }

  lemma {:induction false} SignedRoundTrip(v: int, bits: nat)
    requires FitsSigned(v, bits)
    ensures Code(v, bits) < Pow2(bits) && SignedValue(Code(v, bits), bits) == v
  {
    var p := Pow2(bits);
    QuotientRemainder(v, p, if v < 0 then -1 else 0, if v < 0 then v + p else v);
    TopBit(Code(v, bits), bits);
  }

  /** Every code is the code of its signed reading, which fits. */
  lemma {:induction false} SignedCode(code: nat, bits: nat)
    requires bits > 0 && code < Pow2(bits)
    ensures FitsSigned(SignedValue(code, bits), bits) && Code(SignedValue(code, bits), bits) == code
  {
    TopBit(code, bits);
    var v, p := SignedValue(code, bits), Pow2(bits);
    assert p == 2 * Pow2(bits - 1);
    QuotientRemainder(v, p, if v < 0 then -1 else 0, code);
  }

  lemma {:induction false} UnsignedRoundTrip(v: int, bits: nat)
    requires 0 <= v < Pow2(bits)
    ensures Code(v, bits) == v
  {
    QuotientRemainder(v, Pow2(bits), 0, v);
  }

  /** A byte of a two's complement value, negative ones rounded down. */
  lemma {:induction false} SignedReads(code: nat, bytes: nat, k: nat)
    requires k < bytes && code < Pow2(8 * bytes)
    ensures SignedValue(code, 8 * bytes) / Pow2(8 * k) % 256 == code / Pow2(8 * k) % 256
  {
    hide Pow2, Bit;
    if SignedValue(code, 8 * bytes) != code {
      var p, h := Pow2(8 * k), Pow2(8 * (bytes - k - 1));
      assert Pow2(8 * bytes) == 256 * h * p by {
        Pow2Adds(8 * (bytes - k), 8 * k);
        Pow2Adds(8, 8 * (bytes - k - 1));
        Pow2OfEight();
      }
      var q, r := code / p, code % p;
      assert code == q * p + r;
      assert code - Pow2(8 * bytes) == (q - 256 * h) * p + r by { assert (q - 256 * h) * p == q * p - 256 * h * p; }
      QuotientRemainder(code - Pow2(8 * bytes), p, q - 256 * h, r);
      QuotientRemainder(q - 256 * h, 256, q / 256 - h, q % 256);
    }
  }
}
