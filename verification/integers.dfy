/** Fixed-width integer arithmetic as the C++ drivers perform it: the
    integer types of <cstdint>, the narrowing conversions between them,
    arithmetic right shift, truncating division and the byte order of
    16-bit register pairs. */
module Integers {

  type uint8 = x: int | 0 <= x < 0x100
  type uint16 = x: int | 0 <= x < 0x1_0000
  type int8 = x: int | -0x80 <= x < 0x80
  type int16 = x: int | -0x8000 <= x < 0x8000

  /** The conventional Some/None datatype, used for shadow fields that the
      drivers' constructors leave uninitialised. */
  datatype Option<+T> = None | Some(value: T)

  /** Three axis values. */
  datatype Axes = Axes(x: int, y: int, z: int)
  {
    function Plus(other: Axes): Axes
    {
      Axes(x + other.x, y + other.y, z + other.z)
    }
  }

  function Pow2(k: nat): (r: nat)
    ensures r > 0
  {
    if k == 0 then 1 else 2 * Pow2(k - 1)
  }

  /** Conversion of any integer to uint8_t: the value congruent to it
      modulo 2^8 that lies in 0..255. */
  function ToUint8(x: int): (r: uint8)
    ensures (x - r) % 0x100 == 0
    ensures 0 <= x < 0x100 ==> r == x
  {
    x % 0x100
  }

  /** Conversion of any integer to uint16_t. */
  function ToUint16(x: int): (r: uint16)
    ensures (x - r) % 0x1_0000 == 0
    ensures 0 <= x < 0x1_0000 ==> r == x
  {
    x % 0x1_0000
  }

  /** Conversion of any integer to int8_t (two's complement, as C++20
      defines it and as every compiler for the target does). */
  function ToInt8(x: int): (r: int8)
    ensures (x - r) % 0x100 == 0
    ensures -0x80 <= x < 0x80 ==> r == x
  {
    var m := x % 0x100;
    if m < 0x80 then m else m - 0x100
  }

  /** Conversion of any integer to int16_t. */
  function ToInt16(x: int): (r: int16)
    ensures (x - r) % 0x1_0000 == 0
    ensures -0x8000 <= x < 0x8000 ==> r == x
  {
    var m := x % 0x1_0000;
    if m < 0x8000 then m else m - 0x1_0000
  }

  /** Two int16 values that agree modulo 2^16 are equal. */
  lemma Int16Unique(a: int16, b: int16)
    requires (a - b) % 0x1_0000 == 0
    ensures a == b
  {
    var q := (a - b) / 0x1_0000;
    assert a - b == 0x1_0000 * q;
  }

  /** Narrowing to int16 forgets whole multiples of 2^16, so a running
      sum may be wrapped after every step or once at the end. */
  lemma ToInt16OfSum(a: int, b: int)
    ensures ToInt16(a + ToInt16(b)) == ToInt16(a + b)
  {
    var wb := ToInt16(b);
    var q := (b - wb) / 0x1_0000;
    assert b - wb == 0x1_0000 * q;
    var l := ToInt16(a + wb);
    var rr := ToInt16(a + b);
    var ql := (a + wb - l) / 0x1_0000;
    assert a + wb - l == 0x1_0000 * ql;
    var qr := (a + b - rr) / 0x1_0000;
    assert a + b - rr == 0x1_0000 * qr;
    assert l - rr == 0x1_0000 * (qr - ql - q);
    Int16Unique(l, rr);
  }

  /** Arithmetic right shift of a signed value (x >> k), which rounds
      toward negative infinity. */
  function ShiftRight(x: int, k: nat): (r: int)
    ensures Pow2(k) * r <= x < Pow2(k) * (r + 1)
  {
    x / Pow2(k)
  }

  /** C++ integer division of a by a positive b: the quotient is
      truncated toward zero. */
  function TruncatingDivision(a: int, b: int): (q: int)
    requires b > 0
    ensures a >= 0 ==> q >= 0 && b * q <= a < b * (q + 1)
    ensures a < 0 ==> q <= 0 && b * (q - 1) < a <= b * q
  {
    if a >= 0 then
      EuclideanQuotient(a, b);
      a / b
    else
      EuclideanQuotient(-a, b);
      -((-a) / b)
  }

  lemma EuclideanQuotient(a: nat, b: int)
    requires b > 0
    ensures a / b >= 0 && b * (a / b) <= a < b * (a / b + 1)
  {
    var q, r := a / b, a % b;
    assert a == b * q + r && 0 <= r < b;
    assert b * (q + 1) == b * q + b;
  }

  /** A 16-bit two's-complement value assembled from its low and high
      byte. */
  function Int16FromBytes(low: uint8, high: uint8): (v: int16)
    ensures (low + 0x100 * high - v) % 0x1_0000 == 0
    ensures high < 0x80 ==> v == low + 0x100 * high
    ensures high >= 0x80 ==> v == low + 0x100 * high - 0x1_0000
  {
    ToInt16(low + 0x100 * high)
  }

  /** The low byte of a 16-bit two's-complement value. */
  function LowByte(v: int16): uint8
  {
    ToUint16(v) % 0x100
  }

  /** The high byte of a 16-bit two's-complement value. */
  function HighByte(v: int16): uint8
  {
    ToUint16(v) / 0x100
  }

  /** Splitting a value into bytes and reassembling them gives it back. */
  lemma BytesRoundTrip(v: int16)
    ensures Int16FromBytes(LowByte(v), HighByte(v)) == v
  {
    var u := ToUint16(v);
    assert u == v || u == v + 0x1_0000;
    assert LowByte(v) + 0x100 * HighByte(v) == u;
  }

  /** Assembling bytes and splitting the value gives the bytes back. */
  lemma ValueRoundTrip(low: uint8, high: uint8)
    ensures LowByte(Int16FromBytes(low, high)) == low
    ensures HighByte(Int16FromBytes(low, high)) == high
  {
    var v := Int16FromBytes(low, high);
    var u := low + 0x100 * high;
    assert ToUint16(v) == u;
  }
}
