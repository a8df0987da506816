/**
 * The argument checks of login in the two host programs, and the two ways
 * they copy a std::string into a fixed-size channel buffer.
 *
 * miPod/src/main.cpp (lines 237-262) rejects an empty name or PIN, a name
 * longer than USERNAME_SZ (16) and a PIN longer than MAX_PIN_SZ (8), then a
 * name outside [A-Za-z0-9_] or a PIN outside [0-9] (the literal string
 * "01234567890"), and on acceptance strncpy's both into the channel.
 *
 * mb/miPod/src/main.cpp (lines 214-237) allows names of up to 8 and PINs of
 * up to 10 characters, checks both against [A-Za-z0-9_], ends the program
 * with exit(1) on a bad character, and copies with std::string::copy.
 */
module HostLogin {
  import opened Bytes
  import opened Wrappers
  import CString
  import H = HostLayout

  /** The class spelled out in the literal "abc...XYZ01234567890_". */
  predicate IsWordChar(c: char) {
    ('a' <= c <= 'z') || ('A' <= c <= 'Z') || ('0' <= c <= '9') || c == '_'
  }

  /** The class of the literal "01234567890". */
  predicate IsDigit(c: char) {
    '0' <= c <= '9'
  }

  /** std::string::find_first_not_of: the first index whose character is outside the class; None is npos. */
  function FindFirstNotOf(s: string, allowed: char -> bool): (r: Option<nat>)
    ensures r.None? <==> forall k :: 0 <= k < |s| ==> allowed(s[k])
    ensures r.Some? ==> r.value < |s| && !allowed(s[r.value]) && forall k :: 0 <= k < r.value ==> allowed(s[k])
  {
    if s == [] then None
    else if !allowed(s[0]) then Some(0)
    else match FindFirstNotOf(s[1..], allowed)
      case None => None
      case Some(k) => Some(k + 1)
  }

  /** How login leaves its arguments: rejected for their lengths, for a character, or accepted. */
  datatype LoginCheck = BadLength | BadChars | Accepted

  /** The checks of miPod/src/main.cpp, lengths first. */
  function MiPodCheck(name: string, pin: string): (r: LoginCheck)
    ensures r == BadLength <==> |name| == 0 || |pin| == 0 || |name| > 16 || |pin| > 8
    ensures r == Accepted <==>
      && 1 <= |name| <= 16 && 1 <= |pin| <= 8
      && (forall k :: 0 <= k < |name| ==> IsWordChar(name[k]))
      && (forall k :: 0 <= k < |pin| ==> IsDigit(pin[k]))
  {
    if |name| == 0 || |pin| == 0 || |name| > H.USERNAME_SZ || |pin| > H.MAX_PIN_SZ then BadLength
    else if FindFirstNotOf(name, IsWordChar).Some? || FindFirstNotOf(pin, IsDigit).Some? then BadChars
    else Accepted
  }

  /** The checks of mb/miPod/src/main.cpp: other limits, and the name's class for the PIN too. */
  function MbCheck(name: string, pin: string): (r: LoginCheck)
    ensures r == BadLength <==> |name| == 0 || |pin| == 0 || |name| > 8 || |pin| > 10
    ensures r == Accepted <==>
      && 1 <= |name| <= 8 && 1 <= |pin| <= 10
      && (forall k :: 0 <= k < |name| ==> IsWordChar(name[k]))
      && (forall k :: 0 <= k < |pin| ==> IsWordChar(pin[k]))
  {
    if |name| == 0 || |pin| == 0 || |name| > 8 || |pin| > 10 then BadLength
    else if FindFirstNotOf(name, IsWordChar).Some? || FindFirstNotOf(pin, IsWordChar).Some? then BadChars
    else Accepted
  }

  /** A PIN miPod accepts is accepted by mb/miPod too, but not the other way round. */
  lemma MiPodStricterOnPins()
    ensures forall pin :: MiPodCheck("a", pin) == Accepted ==> MbCheck("a", pin) == Accepted
    ensures MbCheck("a", "pin_0") == Accepted && MiPodCheck("a", "pin_0") == BadChars
  {
    assert FindFirstNotOf("pin_0", IsDigit) == Some(0);
  }

  /**
   * strncpy(dst, s.c_str(), n): the characters of s before its first NUL, at
   * most n of them, then NULs up to n.
   */
  function StrNCopy(s: string, n: nat): (r: string)
    ensures |r| == n
  {
    var t := Take(CString.Str(s, '\0'), n);
    t + seq(n - |t|, _ => '\0')
  }

  /** A string without NUL of at most n characters reads back from the strncpy'd buffer unchanged. */
  lemma StrNCopyReadsBack(s: string, n: nat)
    requires '\0' !in s && |s| <= n
    ensures CString.Str(StrNCopy(s, n), '\0') == s
  {
    assert CString.Str(s, '\0') == s;
    if |s| < n {
      CString.StrOfTerminated(s, '\0', seq(n - |s| - 1, _ => '\0'));
      assert StrNCopy(s, n) == s + ['\0'] + seq(n - |s| - 1, _ => '\0');
    } else {
      assert StrNCopy(s, n) == s;
    }
  }

  /**
   * s.copy(dst, n, 0): the first n characters of s, or all of them, written
   * over the start of the buffer; no terminator, and the rest of the buffer
   * keeps what it held. fread into a buffer of n bytes leaves it the same way.
   */
  function CopyInto<T>(s: seq<T>, n: nat, buf: seq<T>): (r: seq<T>)
    requires |buf| == n
    ensures |r| == n
  {
    Take(s, n) + buf[Min(n, |s|)..]
  }

  /**
   * What a copied string without NUL reads back as: itself exactly when it
   * fills the buffer or the old contents have a NUL right after it.
   * Otherwise the tail of what the buffer held before shows through.
   */
  lemma CopyIntoReadsBack(s: string, buf: string)
    requires '\0' !in s && |s| <= |buf|
    ensures CString.Str(CopyInto(s, |buf|, buf), '\0') == s <==> (|s| < |buf| ==> buf[|s|] == '\0')
  {
    var r := CopyInto(s, |buf|, buf);
    assert r[..|s|] == s;
    if |s| < |buf| {
      assert r[|s|] == buf[|s|];
      if buf[|s|] == '\0' {
        CString.StrOfTerminated(s, '\0', buf[|s| + 1..]);
        assert r == s + ['\0'] + buf[|s| + 1..];
      } else {
        assert CString.Length(r, '\0') != |s|;
      }
    } else {
      assert r == s;
    }
  }

  /** A PIN of 9 or 10 characters, which mb/miPod accepts, reaches the 8-character buffer cut short. */
  lemma MbPinTruncated(name: string, pin: string, buf: string)
    requires MbCheck(name, pin) == Accepted && |pin| > 8 && |buf| == H.MAX_PIN_SZ
    ensures CopyInto(pin, H.MAX_PIN_SZ, buf) == pin[..8] != pin
  {
  }

  /** Accepted names and PINs hold no NUL: the class leaves it out. */
  lemma AcceptedHaveNoNul(s: string)
    requires forall k :: 0 <= k < |s| ==> IsWordChar(s[k])
    ensures '\0' !in s
  {
  }
}
