/** C's memmove and memcpy on a byte buffer. */
module Memory {
  import opened Bytes

  /** The buffer after moving n bytes from src to dst: the source range as it was before the move. */
  function Moved(a: seq<byte>, dst: nat, src: nat, n: nat): (r: seq<byte>)
    requires dst + n <= |a| && src + n <= |a|
    ensures |r| == |a|
  {
    a[..dst] + a[src..src + n] + a[dst + n..]
  }

  /** A move onto itself changes nothing. */
  lemma MovedInPlace(a: seq<byte>, p: nat, n: nat)
    requires p + n <= |a|
    ensures Moved(a, p, p, n) == a
  {
    assert a[..p] + a[p..p + n] + a[p + n..] == a;
  }

  /**
   * memmove(a + dst, a + src, n): copies front to back when the destination
   * lies below the source and back to front otherwise, so overlapping ranges
   * are moved intact.
   */
  method Memmove(a: array<byte>, dst: nat, src: nat, n: nat)
    requires dst + n <= a.Length && src + n <= a.Length
    modifies a
    ensures a[..] == Moved(old(a[..]), dst, src, n)
  {
    if dst <= src {
      CopyForward(a, dst, src, n);
    } else {
      CopyBackward(a, dst, src, n);
    }
  }

  method CopyForward(a: array<byte>, dst: nat, src: nat, n: nat)
    requires dst <= src && src + n <= a.Length
    modifies a
    ensures a[..] == Moved(old(a[..]), dst, src, n)
  {
    for k := 0 to n
      invariant a[..dst] == old(a[..dst])
      invariant a[dst..dst + k] == old(a[src..src + k])
      invariant a[dst + k..] == old(a[dst + k..])
    {
      a[dst + k] := a[src + k];
      assert a[dst..dst + k + 1] == a[dst..dst + k] + [a[dst + k]];
    }
    assert a[..] == a[..dst] + a[dst..dst + n] + a[dst + n..];
  }

  method CopyBackward(a: array<byte>, dst: nat, src: nat, n: nat)
    requires src < dst && dst + n <= a.Length
    modifies a
    ensures a[..] == Moved(old(a[..]), dst, src, n)
  {
    ghost var o := a[..];
    var k: nat := n;
    while k > 0
      invariant k <= n
      invariant forall i :: 0 <= i < dst + k ==> a[i] == o[i]
      invariant forall i :: dst + k <= i < dst + n ==> a[i] == o[i - dst + src]
      invariant forall i :: dst + n <= i < a.Length ==> a[i] == o[i]
    {
      k := k - 1;
      a[dst + k] := a[src + k];
    }
    forall i | 0 <= i < a.Length
      ensures a[i] == Moved(o, dst, src, n)[i]
    {
      MovedAt(o, dst, src, n, i);
    }
  }

  lemma MovedAt(a: seq<byte>, dst: nat, src: nat, n: nat, i: nat)
    requires dst + n <= |a| && src + n <= |a| && i < |a|
    ensures Moved(a, dst, src, n)[i] == if dst <= i < dst + n then a[i - dst + src] else a[i]
  {
  }

  /** After the move the destination range holds what the source range held. */
  lemma MovedRange(a: seq<byte>, dst: nat, src: nat, n: nat)
    requires dst + n <= |a| && src + n <= |a|
    ensures Moved(a, dst, src, n)[dst..dst + n] == a[src..src + n]
  {
    assert |a[..dst]| == dst;
  }

  /** memcpy(a, b, |b|): b over the front of the buffer. */
  method CopyIn(a: array<byte>, b: seq<byte>)
    requires |b| <= a.Length
    modifies a
    ensures a[..] == b + old(a[|b|..])
  {
    forall i | 0 <= i < |b| {
      a[i] := b[i];
    }
    assert a[..] == a[..|b|] + a[|b|..];
  }
}
