/** Bytes, and C-style moves between buffers. */
module Bytes {
  newtype byte = x: int | 0 <= x < 256

  /** The last n bytes of s, or all of them. */
  function Suffix(s: seq<byte>, n: nat): (r: seq<byte>)
    ensures |r| == if |s| < n then |s| else n
  {
    if |s| <= n then s else s[|s| - n..]
  }

  /** Appending slides the window: the newest bytes of c, preceded by what still fits of the old window. */
  lemma {:induction false} SuffixSlides(s: seq<byte>, c: seq<byte>, size: nat)
    ensures var n := |Suffix(c, size)|;
            Suffix(s + c, size) == Suffix(Suffix(s, size), size - n) + Suffix(c, size)
  {
    var n := |Suffix(c, size)|;
    var keep := Suffix(Suffix(s, size), size - n);
    if |c| >= size {
      assert keep == [];
      assert Suffix(s + c, size) == Suffix(c, size);
    } else if |s| + |c| <= size {
      assert keep == s;
    } else {
      assert keep == s[|s| + |c| - size..];
      assert (s + c)[|s| + |c| - size..] == s[|s| + |c| - size..] + c;
    }
  }

  /** memcpy into a buffer. */
  method MemCpy(dst: array<byte>, at: nat, src: seq<byte>)
    requires at + |src| <= dst.Length
    modifies dst
    ensures dst[..at + |src|] == old(dst[..at]) + src
  {
    var i := 0;
    while i < |src|
      invariant 0 <= i <= |src| && dst[..at + i] == old(dst[..at]) + src[..i]
    {
      dst[at + i] := src[i];
      assert dst[..at + i + 1] == dst[..at + i] + [src[i]];
      i := i + 1;
    }
    assert src[..i] == src;
  }

  /** memmove of n bytes to the front of the same buffer. */
  method MoveToFront(buf: array<byte>, from: nat, n: nat)
    requires from + n <= buf.Length
    modifies buf
    ensures buf[..n] == old(buf[from..from + n])
  {
    var i := 0;
    while i < n
      invariant 0 <= i <= n && buf[..i] == old(buf[from..from + i])
      invariant forall k :: from + i <= k < from + n ==> buf[k] == old(buf[k])
    {
      buf[i] := buf[from + i];
      assert buf[..i + 1] == buf[..i] + [buf[i]];
      i := i + 1;
    }
  }
}
