/** The traffic indication map element (IEEE 802.11-2012, section 8.4.2.7) as `rtw_set_tim_ie` builds it. */
module Tim {
  import opened Bytes
  import opened Elements

  const EID_TIM: byte := 5

  /** Bit `j` of an octet. */
  predicate TestBit(b: byte, j: nat)
    requires j < 8
  {
    (b as bv8 >> j) & 1 == 1
  }

  /** `rtw_bmp_is_set`. */
  predicate IsSet(bmp: seq<byte>, aid: nat) {
    aid / 8 < |bmp| && TestBit(bmp[aid / 8], aid % 8)
  }

  /** `rtw_bmp_not_empty`. */
  predicate NotEmpty(bmp: seq<byte>) {
    exists i :: 0 <= i < |bmp| && bmp[i] != 0
  }

  /** What a station reads for `aid` from a received element: control octet first, then the partial bitmap. */
  predicate Received(control: byte, partial: seq<byte>, aid: nat) {
    if aid == 0 then TestBit(control, 0)
    else
      var n1 := 2 * (control as int / 2);
      n1 <= aid / 8 < n1 + |partial| && TestBit(partial[aid / 8 - n1], aid % 8)
  }

  /** The bits that count: bit 0 of the first octet belongs to AID 0, group traffic, not to a station. */
  function Stations(bmp: seq<byte>): (m: seq<byte>)
    requires bmp != []
    ensures |m| == |bmp|
  {
    [bmp[0] as int - bmp[0] as int % 2] + bmp[1..]
  }

  /** Index of the first octet that is not zero, or the number of octets. */
  function Leading(m: seq<byte>): (k: nat)
    ensures k <= |m|
    ensures forall i :: 0 <= i < k ==> m[i] == 0
    ensures k < |m| ==> m[k] != 0
  {
    if m == [] || m[0] != 0 then 0 else 1 + Leading(m[1..])
  }

  /** The N1 of the standard: the largest even number of leading octets without a station bit, 0 if there is no bit. */
  function StandardN1(bmp: seq<byte>): nat
    requires bmp != []
  {
    var m := Stations(bmp);
    if Leading(m) == |m| then 0 else Leading(m) - Leading(m) % 2
  }

  /** Index of the last octet that is not zero, or 0. */
  function Trailing(m: seq<byte>): (k: nat)
    requires m != []
    ensures k < |m|
    ensures forall i :: k < i < |m| ==> m[i] == 0
    ensures k > 0 ==> m[k] != 0
  {
    if |m| == 1 then 0 else if m[|m| - 1] != 0 then |m| - 1 else Trailing(m[..|m| - 1])
  }

  /** First and last octet of the bitmap that the element carries. */
  function N1(bmp: seq<byte>): nat {
    if NotEmpty(bmp) then Leading(bmp) - Leading(bmp) % 2 else 0
  }

  function N2(bmp: seq<byte>): nat
    requires bmp != []
  {
    if NotEmpty(bmp) then Trailing(bmp) else 0
  }

  /** The carried part starts at an even octet, is not empty, and leaves out nothing but zeros. */
  lemma CarriedPart(bmp: seq<byte>)
    requires bmp != []
    ensures N1(bmp) % 2 == 0 && N1(bmp) <= N2(bmp) < |bmp|
    ensures forall i :: 0 <= i < |bmp| && !(N1(bmp) <= i <= N2(bmp)) ==> bmp[i] == 0
  {
  }

  /** Nothing shorter would do: the last octet carried is not zero, and of the first two one is not; of zeros, one is carried. */
  lemma Shortest(bmp: seq<byte>)
    requires bmp != []
    ensures (exists i :: 0 <= i < |bmp| && bmp[i] != 0) ==>
      && N1(bmp) <= N2(bmp) < |bmp| && bmp[N2(bmp)] != 0
      && (bmp[N1(bmp)] != 0 || (N1(bmp) + 1 <= N2(bmp) && bmp[N1(bmp) + 1] != 0))
    ensures (forall i :: 0 <= i < |bmp| ==> bmp[i] == 0) ==> N1(bmp) == N2(bmp) == 0
  {
  }

  /** The bits of an octet, lowest first. */
  lemma BitIs(b: byte)
    ensures TestBit(b, 0) <==> b % 2 == 1
    ensures TestBit(b, 1) <==> b / 2 % 2 == 1
    ensures TestBit(b, 2) <==> b / 4 % 2 == 1
    ensures TestBit(b, 3) <==> b / 8 % 2 == 1
    ensures TestBit(b, 4) <==> b / 16 % 2 == 1
    ensures TestBit(b, 5) <==> b / 32 % 2 == 1
    ensures TestBit(b, 6) <==> b / 64 % 2 == 1
    ensures TestBit(b, 7) <==> b / 128 % 2 == 1
  {
  }

  /** The element for a bitmap: control octet with the group bit, then the carried part. */
  function TimIe(dtimCnt: byte, dtimPeriod: byte, bmp: seq<byte>): (e: Ie)
    requires 1 <= |bmp| <= 250
    ensures |e.body| == 4 + N2(bmp) - N1(bmp) <= 253
  {
    CarriedPart(bmp);
    Ie(EID_TIM, [dtimCnt, dtimPeriod, (if IsSet(bmp, 0) then 1 else 0) + N1(bmp)] + bmp[N1(bmp)..N2(bmp) + 1])
  }

  /** The two scans of `rtw_set_tim_ie`. */
  method Carried(bmp: seq<byte>) returns (n1: nat, n2: nat, bmpLen: nat)
    requires bmp != []
    ensures n1 == N1(bmp) && n2 == N2(bmp) && bmpLen == n2 + 1 - n1
  {
    if NotEmpty(bmp) {
      var i: nat := 0;
      while i < |bmp|
        invariant i <= Leading(bmp)
      {
        if bmp[i] != 0 {
          break;
        }
        i := i + 1;
      }
      n1 := i - i % 2;
      i := |bmp| - 1;
      while i > 0
        invariant Trailing(bmp) <= i < |bmp|
      {
        if bmp[i] != 0 {
          break;
        }
        i := i - 1;
      }
      n2 := i;
      bmpLen := n2 - n1 + 1;
    } else {
      n1, n2, bmpLen := 0, 0, 1;
    }
  }

  /** The five octets in front of the carried part. */
  method PutHead(a: array<byte>, pos: nat, len: byte, dtimCnt: byte, dtimPeriod: byte, control: byte)
    requires pos + 5 <= a.Length
    modifies a
    ensures a[..pos] == old(a[..pos]) && a[pos + 5..] == old(a[pos + 5..])
    ensures a[pos..pos + 5] == [EID_TIM, len] + [dtimCnt, dtimPeriod, control]
  {
    a[pos] := EID_TIM;
    a[pos + 1] := len;
    a[pos + 2] := dtimCnt;
    a[pos + 3] := dtimPeriod;
    a[pos + 4] := control;
  }

  /** The octets of the element, in the pieces in which they are written. */
  lemma TimOctets(dtimCnt: byte, dtimPeriod: byte, bmp: seq<byte>, n1: nat, bmpLen: nat)
    requires 1 <= |bmp| <= 250 && n1 == N1(bmp) && bmpLen == N2(bmp) + 1 - n1
    ensures n1 + bmpLen <= |bmp| && n1 % 2 == 0
    ensures Octets(TimIe(dtimCnt, dtimPeriod, bmp)) ==
      [EID_TIM, 3 + bmpLen] + ([dtimCnt, dtimPeriod, (if IsSet(bmp, 0) then 1 else 0) + n1] + bmp[n1..n1 + bmpLen])
  {
    CarriedPart(bmp);
    hide N1, N2, IsSet;
  }

  /** `rtw_set_tim_ie`. */
  method SetTimIe(dtimCnt: byte, dtimPeriod: byte, bmp: seq<byte>, a: array<byte>, pos: nat) returns (n: byte)
    requires 1 <= |bmp| <= 250
    requires pos + |Octets(TimIe(dtimCnt, dtimPeriod, bmp))| <= a.Length
    modifies a
    ensures n as int == |Octets(TimIe(dtimCnt, dtimPeriod, bmp))|
    ensures a[pos..pos + n] == Octets(TimIe(dtimCnt, dtimPeriod, bmp))
    ensures a[..pos] == old(a[..pos]) && a[pos + n..] == old(a[pos + n..])
  {
    hide *;
    var n1, n2, bmpLen := Carried(bmp);
    ghost var was := a[..];
    TimOctets(dtimCnt, dtimPeriod, bmp, n1, bmpLen);
    ghost var head := [dtimCnt, dtimPeriod, (if IsSet(bmp, 0) then 1 else 0) + n1];
    PutHead(a, pos, 2 + 1 + bmpLen, dtimCnt, dtimPeriod, (if IsSet(bmp, 0) then 1 else 0) + n1);
    ghost var now := a[..];
    Memcpy(a, pos + 5, bmp[n1..n1 + bmpLen]);
    n := 2 + 2 + 1 + bmpLen;
    WrittenAt(was, now, a[..], pos, [EID_TIM, 2 + 1 + bmpLen], head, bmp[n1..n1 + bmpLen]);
  }

  lemma WrittenAt(was: seq<byte>, now: seq<byte>, next: seq<byte>, pos: nat, x: seq<byte>, y: seq<byte>, z: seq<byte>)
    requires pos + |x| + |y| + |z| <= |was| == |now| == |next|
    requires var mid := pos + |x| + |y|;
      && now[..pos] == was[..pos] && now[pos..mid] == x + y && now[mid..] == was[mid..]
      && next[..mid] == now[..mid] && next[mid..mid + |z|] == z && next[mid + |z|..] == now[mid + |z|..]
    ensures var end := pos + |x| + |y| + |z|;
      next[..pos] == was[..pos] && next[pos..end] == x + (y + z) && next[end..] == was[end..]
  {
    var mid, end := pos + |x| + |y|, pos + |x| + |y| + |z|;
    Joined(next, pos, mid, end);
    Assoc(x, y, z);
    assert next[pos..mid] == next[..mid][pos..] == now[..mid][pos..] == now[pos..mid];
    assert next[..pos] == next[..mid][..pos] == now[..mid][..pos] == now[..pos];
    assert now[end..] == now[mid..][|z|..] == was[mid..][|z|..];
  }

  /** A station that decodes the element as the standard says reads back every bit of the bitmap. */
  lemma Lossless(dtimCnt: byte, dtimPeriod: byte, bmp: seq<byte>, aid: nat)
    requires 1 <= |bmp| <= 250
    ensures var b := TimIe(dtimCnt, dtimPeriod, bmp).body;
      && TimIe(dtimCnt, dtimPeriod, bmp).id == 5 && b[0] == dtimCnt && b[1] == dtimPeriod
      && (Received(b[2], b[3..], aid) <==> IsSet(bmp, aid))
  {
    CarriedPart(bmp);
    var b, n1 := TimIe(dtimCnt, dtimPeriod, bmp).body, N1(bmp);
    ZeroBits(aid % 8);
    if aid == 0 {
      LowBit(b[2]);
    } else {
      assert 2 * (b[2] as int / 2) == n1;
      assert forall i :: 0 <= i < |b[3..]| ==> b[3..][i] == bmp[n1 + i];
    }
  }

  lemma ZeroBits(j: nat)
    requires j < 8
    ensures !TestBit(0, j)
  {
  }

  lemma LowBit(b: byte)
    ensures TestBit(b, 0) <==> b as int % 2 == 1
  {
  }

  /** Group traffic, no bit of the first 15 stations, and station 16: two octets that could be left out are not. */
  lemma NotMaximal()
    ensures N1([1, 0, 1]) == 0 && StandardN1([1, 0, 1]) == 2
  {
    var bmp: seq<byte> := [1, 0, 1];
    assert Stations(bmp) == [0, 0, 1];
    assert [0, 0, 1][1..] == [0, 1] && [0, 1][1..] == [1];
    MaximalIff(bmp);
    assert bmp[2..] == [1] && bmp[2..][0] != 0;
  }

  /**
   * The compression is the standard's maximal one unless group traffic is announced in the first octet alone:
   * then that octet, which holds no station's bit, keeps the leading zero octets from being left out.
   */
  lemma MaximalIff(bmp: seq<byte>)
    requires bmp != []
    ensures N1(bmp) <= StandardN1(bmp)
    ensures N1(bmp) == StandardN1(bmp) <==> !(|bmp| > 2 && bmp[0] == 1 && bmp[1] == 0 && NotEmpty(bmp[2..]))
  {
    var m := Stations(bmp);
    assert forall i :: 1 <= i < |bmp| ==> m[i] == bmp[i];
  }
}
