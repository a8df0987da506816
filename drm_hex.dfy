/**
 * mb/drm_audio_fw/src/main.c `hextobin`: the firmware turns the hex strings
 * of its secrets (the key and each user's hashed PIN) into bytes.
 */
module DrmHex {
  import opened Bytes
  import CString

  type nibble = x: int | 0 <= x < 16

  predicate IsHexDigit(c: char) {
    ('0' <= c <= '9') || ('A' <= c <= 'F') || ('a' <= c <= 'f')
  }

  /** The value of one hex digit, either case. */
  function HexValue(c: char): (v: nibble)
    requires IsHexDigit(c)
  {
    if c <= '9' then c as int - '0' as int
    else if c <= 'F' then c as int - 'A' as int + 10
    else c as int - 'a' as int + 10
  }

  /** The values of the hex digits of s, in order; every other character is skipped. */
  function Digits(s: seq<char>): (d: seq<nibble>)
    ensures |d| <= |s|
  {
    if s == [] then []
    else Digits(s[..|s| - 1]) + (if IsHexDigit(s[|s| - 1]) then [HexValue(s[|s| - 1])] else [])
  }

  /** The digits hextobin sees: those of the C string before its terminator. */
  function HexDigits(src: string): seq<nibble> {
    Digits(CString.Str(src, '\0'))
  }

  /** Consecutive digit pairs, high nibble first; an odd last digit is dropped. */
  function Pack(d: seq<nibble>): seq<byte> {
    seq(|d| / 2, k requires 0 <= k < |d| / 2 => 16 * (d[2 * k] as int) + d[2 * k + 1])
  }

  /** One more digit either completes a byte with the waiting digit or becomes the waiting digit. */
  lemma PackSnoc(d: seq<nibble>, v: nibble)
    ensures |d| % 2 == 1 ==> Pack(d + [v]) == Pack(d) + [16 * d[|d| - 1] + v]
    ensures |d| % 2 == 0 ==> Pack(d + [v]) == Pack(d)
  {
    var e := d + [v];
    if |d| % 2 == 1 {
      assert |e| / 2 == |d| / 2 + 1;
      forall k | 0 <= k < |e| / 2
        ensures Pack(e)[k] == (Pack(d) + [16 * d[|d| - 1] + v])[k]
      {
        if k == |d| / 2 {
          assert 2 * k == |d| - 1;
        }
      }
    }
  }

  /** Digits of a prefix are a prefix of the digits. */
  lemma {:induction false} DigitsPrefix(s: seq<char>, i: nat)
    requires i <= |s|
    ensures Digits(s[..i]) <= Digits(s)
    decreases |s| - i
  {
    if i < |s| {
      var t := s[..|s| - 1];
      assert t[..i] == s[..i];
      DigitsPrefix(t, i);
    } else {
      assert s[..i] == s;
    }
  }

  /**
   * hextobin(dst, src): walks src up to its terminator, skips every character
   * that is not a hex digit, writes each completed digit pair as one byte and
   * returns the number of bytes written. A trailing odd digit is dropped.
   */
  method HexToBin(dst: array<byte>, src: string) returns (num: nat)
    requires |HexDigits(src)| / 2 <= dst.Length
    modifies dst
    ensures num == |HexDigits(src)| / 2
    ensures dst[..num] == Pack(HexDigits(src))
    ensures dst[num..] == old(dst[num..])
  {
    num := 0;
    var z := false;
    var acc: nibble := 0;
    var i := 0;
    ghost var d: seq<nibble> := [];
    while i < |src| && src[i] != '\0'
      invariant i <= |src| && d == Digits(src[..i])
      invariant forall j :: 0 <= j < i ==> src[j] != '\0'
      invariant num == |d| / 2 <= dst.Length
      invariant z == (|d| % 2 == 1) && (z ==> acc == d[|d| - 1])
      invariant dst[..num] == Pack(d)
      invariant dst[num..] == old(dst[num..])
    {
      var c := src[i];
      DigitsStep(src, i);
      DigitsPrefixOfStr(src, i + 1);
      i := i + 1;
      if IsHexDigit(c) {
        num, z, acc := Feed(dst, num, z, acc, HexValue(c), d);
        d := d + [HexValue(c)];
      }
    }
    assert src[..i] == CString.Str(src, '\0');
  }

  /**
   * One hex digit v arrives after the digits d: with a digit waiting (z) it
   * completes the byte 16 * acc + v, written at dst[num]; otherwise it waits.
   */
  method Feed(dst: array<byte>, num: nat, z: bool, acc: nibble, v: nibble, ghost d: seq<nibble>)
    returns (num': nat, z': bool, acc': nibble)
    requires num == |d| / 2 && (|d| + 1) / 2 <= dst.Length
    requires z == (|d| % 2 == 1) && (z ==> acc == d[|d| - 1])
    requires dst[..num] == Pack(d)
    modifies dst
    ensures num' == |d + [v]| / 2
    ensures z' == (|d + [v]| % 2 == 1) && (z' ==> acc' == v)
    ensures dst[..num'] == Pack(d + [v])
    ensures dst[num'..] == old(dst[num'..])
  {
    PackSnoc(d, v);
    if z {
      dst[num] := 16 * acc + v;
      assert dst[..num + 1] == dst[..num] + [dst[num]];
      num', z', acc' := num + 1, false, acc;
    } else {
      num', z', acc' := num, true, v;
    }
  }

  /** One more character adds its digit, if it is one. */
  lemma DigitsStep(src: string, i: nat)
    requires i < |src|
    ensures Digits(src[..i + 1]) == Digits(src[..i]) + (if IsHexDigit(src[i]) then [HexValue(src[i])] else [])
  {
    assert src[..i + 1][..i] == src[..i];
  }

  /** While the scan has not met the terminator, the digits seen are at most those of the string. */
  lemma DigitsPrefixOfStr(src: string, i: nat)
    requires i <= |src|
    requires forall j :: 0 <= j < i ==> src[j] != '\0'
    ensures |Digits(src[..i])| <= |HexDigits(src)|
  {
    var s := CString.Str(src, '\0');
    assert i <= |s|;
    assert s[..i] == src[..i];
    DigitsPrefix(s, i);
  }

  /** The lower-case digit for a nibble. */
  function HexChar(v: nibble): (c: char)
    ensures IsHexDigit(c) && HexValue(c) == v
  {
    if v < 10 then ('0' as int + v) as char else ('a' as int + v - 10) as char
  }

  /** Lower-case hex, two digits per byte: the form the key and the hashed PINs are provisioned in. */
  function HexEncode(b: seq<byte>): (s: string)
    ensures |s| == 2 * |b|
    ensures forall i :: 0 <= i < |s| ==> IsHexDigit(s[i])
  {
    if b == [] then [] else HexEncode(b[..|b| - 1]) + [HexChar(b[|b| - 1] / 16), HexChar(b[|b| - 1] % 16)]
  }

  /** The nibbles of each byte, high first. */
  function Nibbles(b: seq<byte>): (d: seq<nibble>)
    ensures |d| == 2 * |b|
  {
    if b == [] then [] else Nibbles(b[..|b| - 1]) + [b[|b| - 1] / 16, b[|b| - 1] % 16]
  }

  lemma {:induction false} DigitsOfHexEncode(b: seq<byte>)
    ensures Digits(HexEncode(b)) == Nibbles(b)
  {
    if b != [] {
      var p := b[..|b| - 1];
      var x := b[|b| - 1];
      var s := HexEncode(b);
      assert s == HexEncode(p) + [HexChar(x / 16), HexChar(x % 16)];
      assert s[..|s| - 1] == HexEncode(p) + [HexChar(x / 16)];
      assert s[..|s| - 1][..|s| - 2] == HexEncode(p);
      DigitsOfHexEncode(p);
    }
  }

  lemma {:induction false} PackNibbles(b: seq<byte>)
    ensures Pack(Nibbles(b)) == b
  {
    if b != [] {
      var p := b[..|b| - 1];
      var x := b[|b| - 1];
      PackNibbles(p);
      PackSnoc(Nibbles(p), x / 16);
      PackSnoc(Nibbles(p) + [x / 16], x % 16);
      assert Nibbles(b) == Nibbles(p) + [x / 16] + [x % 16];
      assert b == p + [x];
    }
  }

  /** hextobin inverts hex encoding: a provisioned hex string yields back its bytes. */
  lemma HexRoundTrip(b: seq<byte>)
    ensures Pack(HexDigits(HexEncode(b))) == b
  {
    CString.StrOfPlain(HexEncode(b), '\0');
    DigitsOfHexEncode(b);
    PackNibbles(b);
  }
}
