/** Octets, and the three block operations the driver uses on its buffers. */
module Bytes {

  type byte = x: int | 0 <= x < 256

  /** The 16-bit number at position `i`, least significant octet first. */
  function Le16(b: seq<byte>, i: nat): (n: nat)
    requires i + 2 <= |b|
    ensures n < 0x1_0000
  {
    b[i] as int + 256 * (b[i + 1] as int)
  }

  /** The 16-bit number at position `i`, most significant octet first. */
  function Be16(b: seq<byte>, i: nat): (n: nat)
    requires i + 2 <= |b|
    ensures n < 0x1_0000
  {
    256 * (b[i] as int) + b[i + 1] as int
  }

  function PutLe16(n: nat): seq<byte>
    requires n < 0x1_0000
  {
    [n % 256, n / 256]
  }

  function PutBe16(n: nat): seq<byte>
    requires n < 0x1_0000
  {
    [n / 256, n % 256]
  }

  /** Cutting a concatenation where it was joined. */
  lemma Parts<T>(x: seq<T>, y: seq<T>, z: seq<T>)
    ensures (x + y + z)[..|x|] == x
    ensures (x + y + z)[|x|..|x| + |y|] == y
    ensures (x + y + z)[|x| + |y|..] == z
  {
  }

  lemma Assoc<T>(x: seq<T>, y: seq<T>, z: seq<T>)
    ensures x + (y + z) == (x + y) + z
  {
  }

  lemma Uncons<T>(x: seq<T>)
    requires x != []
    ensures x == [x[0]] + x[1..]
  {
  }

  lemma Cut<T>(x: seq<T>, k: nat)
    requires k <= |x|
    ensures x[..k] + x[k..] == x
    ensures k < |x| ==> x[k..][0] == x[k] && x[k..][1..] == x[k + 1..]
  {
  }

  lemma Joined<T>(x: seq<T>, i: nat, j: nat, k: nat)
    requires i <= j <= k <= |x|
    ensures x[i..j] + x[j..k] == x[i..k]
  {
  }

  /** A slice of a slice. */
  lemma Inside<T>(x: seq<T>, i: nat, k: nat, p: nat, q: nat)
    requires i <= k <= |x| && p <= q <= k - i
    ensures x[i..k][p..q] == x[i + p..i + q]
    ensures x[i..k][p..] == x[i + p..k]
  {
    forall j | 0 <= j < q - p ensures x[i..k][p..q][j] == x[i + p..i + q][j] {
    }
  }

  function Zeros(n: nat): (z: seq<byte>)
    ensures |z| == n && forall i :: 0 <= i < n ==> z[i] == 0
  {
    seq(n, _ => 0)
  }

  /** `_rtw_memmove` within one buffer: source and destination may overlap. */
  method Memmove(a: array<byte>, dst: nat, src: nat, n: nat)
    requires dst + n <= a.Length && src + n <= a.Length
    modifies a
    ensures a[..dst] == old(a[..dst])
    ensures a[dst..dst + n] == old(a[src..src + n])
    ensures a[dst + n..] == old(a[dst + n..])
  {
    forall i | 0 <= i < n {
      a[dst + i] := a[src + i];
    }
  }

  /** `_rtw_memset`. */
  method Memset(a: array<byte>, dst: nat, c: byte, n: nat)
    requires dst + n <= a.Length
    modifies a
    ensures a[..dst] == old(a[..dst])
    ensures forall i :: dst <= i < dst + n ==> a[i] == c
    ensures a[dst + n..] == old(a[dst + n..])
  {
    forall i | 0 <= i < n {
      a[dst + i] := c;
    }
  }

  /** `_rtw_memcpy` from a block that does not overlap the buffer. */
  method Memcpy(a: array<byte>, dst: nat, src: seq<byte>)
    requires dst + |src| <= a.Length
    modifies a
    ensures a[..dst] == old(a[..dst])
    ensures a[dst..dst + |src|] == src
    ensures a[dst + |src|..] == old(a[dst + |src|..])
  {
    forall i | 0 <= i < |src| {
      a[dst + i] := src[i];
    }
  }
}
