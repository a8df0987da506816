/**
 * NUL-terminated strings held in fixed-size buffers, the way the firmware
 * stores user names, region names, PINs and hex strings.
 */
module CString {
  /**
   * strlen bounded by the buffer: the index of the first terminator, or the
   * whole buffer when it holds none.
   */
  function Length<T(==)>(s: seq<T>, nul: T): (n: nat)
    ensures n <= |s|
    ensures forall i :: 0 <= i < n ==> s[i] != nul
    ensures n < |s| ==> s[n] == nul
  {
    if s == [] || s[0] == nul then 0 else 1 + Length(s[1..], nul)
  }

  /** The string a buffer holds: everything before its first terminator. */
  function Str<T(==)>(s: seq<T>, nul: T): (r: seq<T>)
    ensures r <= s && nul !in r
    ensures |r| < |s| ==> s[|r|] == nul
  {
    s[..Length(s, nul)]
  }

  /** A buffer whose string is followed by its terminator holds exactly that string. */
  lemma {:induction false} StrOfTerminated<T>(s: seq<T>, nul: T, rest: seq<T>)
    requires nul !in s
    ensures Str(s + [nul] + rest, nul) == s
  {
    assert (s + [nul] + rest)[|s|] == nul;
  }

  /** A buffer without a terminator holds its whole contents as the string. */
  lemma StrOfPlain<T>(s: seq<T>, nul: T)
    requires nul !in s
    ensures Str(s, nul) == s
  {
    if s != [] {
      StrOfPlain(s[1..], nul);
    }
  }

  /** The terminator of a + b is the first one of b when a holds none. */
  lemma {:induction false} LengthOfConcat<T>(a: seq<T>, b: seq<T>, nul: T)
    requires nul !in a
    ensures Length(a + b, nul) == |a| + Length(b, nul)
  {
    if a != [] {
      assert (a + b)[0] == a[0] != nul;
      assert (a + b)[1..] == a[1..] + b;
      assert a == [a[0]] + a[1..];
      LengthOfConcat(a[1..], b, nul);
      assert Length(a + b, nul) == 1 + Length((a + b)[1..], nul);
    } else {
      assert a + b == b;
    }
  }

  /** A string read from a buffer with no terminator in its first part runs on into the second. */
  lemma StrOfConcat<T>(a: seq<T>, b: seq<T>, nul: T)
    requires nul !in a
    ensures Str(a + b, nul) == a + Str(b, nul)
  {
    LengthOfConcat(a, b, nul);
    assert (a + b)[..|a| + Length(b, nul)] == a + b[..Length(b, nul)];
  }

  /** strcmp(a, b) == 0. */
  predicate StrEq(a: string, b: string) {
    Str(a, '\0') == Str(b, '\0')
  }

  /** strncmp(a, b, n) == 0 on byte buffers: the strings in the first n bytes agree. */
  predicate StrnEq<T(==)>(a: seq<T>, b: seq<T>, n: nat, nul: T)
    requires n <= |a| && n <= |b|
  {
    Str(a[..n], nul) == Str(b[..n], nul)
  }
}
