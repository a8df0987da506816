/**
 * Bytes, fixed-width unsigned integers and the little-endian encoding
 * that every layout of the song container uses.
 */
module Bytes {
  type byte = b: int | 0 <= b < 256
  type u8 = byte
  type u32 = x: int | 0 <= x < 0x1_0000_0000

  const U32_MODULUS: int := 0x1_0000_0000

  function Min(a: int, b: int): int { if a <= b then a else b }

  /** Python's `int.from_bytes(s, 'little')`: an unsigned little-endian number of any length. */
  function LittleEndian(s: seq<byte>): nat {
    if s == [] then 0 else s[0] + 256 * LittleEndian(s[1..])
  }

  /** The byte at index i, or 0 past the end. */
  function ByteAt(s: seq<byte>, i: nat): byte {
    if i < |s| then s[i] else 0
  }

  /**
   * The same number for at most four bytes, written out position by position:
   * the shape in which the 4-byte size fields are read.
   */
  function LittleEndian32(s: seq<byte>): (n: u32)
    requires |s| <= 4
  {
    ByteAt(s, 0) + 256 * ByteAt(s, 1) + 65536 * ByteAt(s, 2) + 16777216 * ByteAt(s, 3)
  }

  /** The written-out form agrees with the general one, so a 4-byte field always holds a 32-bit value. */
  lemma LittleEndian32Agrees(s: seq<byte>)
    requires |s| <= 4
    ensures LittleEndian32(s) == LittleEndian(s)
  {
    if s != [] {
      var t := s[1..];
      if t != [] {
        var u := t[1..];
        if u != [] {
          var v := u[1..];
          if v != [] { assert v[1..] == []; }
        }
      }
    }
  }

  /** The four little-endian bytes of a 32-bit value, as a packed `u32` field holds it. */
  function U32Bytes(x: u32): (s: seq<byte>)
    ensures |s| == 4
  {
    [x % 256, (x / 256) % 256, (x / 65536) % 256, x / 16777216]
  }

  lemma U32BytesRoundTrip(x: u32)
    ensures LittleEndian32(U32Bytes(x)) == x
  {
    var q1, q2, q3 := x / 256, x / 65536, x / 16777216;
    assert q2 == q1 / 256 && q3 == q2 / 256;
    assert x == x % 256 + 256 * q1;
    assert q1 == q1 % 256 + 256 * q2;
    assert q2 == q2 % 256 + 256 * q3;
  }

  /** Python's `s[:n]`. */
  function Take<T>(s: seq<T>, n: nat): (r: seq<T>)
    ensures |r| == Min(n, |s|)
  {
    if n <= |s| then s[..n] else s
  }

  /** Python's `s[-n:]` for n > 0: the last n elements, or all of s when it is shorter. */
  function Last<T>(s: seq<T>, n: nat): (r: seq<T>)
    ensures |r| == Min(n, |s|)
  {
    if n <= |s| then s[|s| - n..] else s
  }

  /** C's 32-bit `int`. */
  type i32 = x: int | -0x8000_0000 <= x < 0x8000_0000

  /** C's conversion of an `int` to `unsigned int`, which is also how its four bytes read as unsigned. */
  function U32OfI32(x: i32): (r: u32)
    ensures x >= 0 ==> r == x
  {
    if x < 0 then x + 0x1_0000_0000 else x
  }

  /** The conversion is the reduction modulo 2^32. */
  lemma U32OfI32Wraps(x: i32)
    ensures U32OfI32(x) == WrapU32(x)
  {
    if x < 0 {
      assert x == U32OfI32(x) + (-1) * 0x1_0000_0000;
    }
  }

  /** C's conversion of an `unsigned int` to `int`, as gcc does it: values from 2^31 up wrap to negative. */
  function I32OfU32(x: u32): (r: i32)
    ensures U32OfI32(r) == x
  {
    if x < 0x8000_0000 then x else x - 0x1_0000_0000
  }

  /** Storing an int in an unsigned field and reading it back gives the int. */
  lemma I32OfU32RoundTrip(x: i32)
    ensures I32OfU32(U32OfI32(x)) == x
  {
  }

  /** Reduction of an integer to 32 bits, as C's unsigned arithmetic does it. */
  function WrapU32(x: int): (r: u32)
    ensures (r - x) % 0x1_0000_0000 == 0
  {
    x % 0x1_0000_0000
  }

  /** Reducing both operands first leaves a difference unchanged modulo 2^32. */
  lemma WrapDiff(x: int, y: int)
    ensures (WrapU32(x) - WrapU32(y)) % 0x1_0000_0000 == (x - y) % 0x1_0000_0000
  {
    var qx := x / 0x1_0000_0000;
    var qy := y / 0x1_0000_0000;
    assert x - y == (WrapU32(x) - WrapU32(y)) + (qx - qy) * 0x1_0000_0000;
  }

  /**
   * x + d in 32-bit unsigned arithmetic for an offset of less than 2^32
   * either way: at most one wrap past either end.
   */
  function AddU32(x: u32, d: int): u32
    requires -0x1_0000_0000 < d < 0x1_0000_0000
  {
    if x + d < 0 then x + d + 0x1_0000_0000
    else if x + d >= 0x1_0000_0000 then x + d - 0x1_0000_0000
    else x + d
  }

  /** The single wrap is the reduction modulo 2^32. */
  lemma AddU32Wraps(x: u32, d: int)
    requires -0x1_0000_0000 < d < 0x1_0000_0000
    ensures AddU32(x, d) == WrapU32(x + d)
  {
    if x + d < 0 {
      assert x + d == AddU32(x, d) + (-1) * 0x1_0000_0000;
    } else if x + d >= 0x1_0000_0000 {
      assert x + d == AddU32(x, d) + 1 * 0x1_0000_0000;
    }
  }
}
