/** Inserting, replacing and removing elements of a beacon in place (rtw_ap.c). */
module BeaconIes {
  import opened Bytes
  import opened Elements
  import opened ElementSearch
  import opened Options
  import opened VendorAttrs
  import opened BssAttrs
  import opened Tim

  const FIXED_IE_LENGTH := 12

  /** Length of the longest run of leading elements with smaller ids. */
  function Below(es: seq<Ie>, index: byte): (k: nat)
    ensures k <= |es|
    ensures forall i :: 0 <= i < k ==> es[i].id < index
    ensures k < |es| ==> es[k].id >= index
  {
    if es == [] || es[0].id >= index then 0 else 1 + Below(es[1..], index)
  }

  /** The scan has met an element with the id. */
  predicate Meets(es: seq<Ie>, index: byte) {
    var k := Below(es, index);
    k < |es| && es[k].id == index
  }

  /** `rtw_add_bcn_ie` replaces the element it meets, unless that one's body is empty. */
  predicate Replaces(es: seq<Ie>, index: byte) {
    Meets(es, index) && es[Below(es, index)].body != []
  }

  /** Otherwise it inserts behind the smaller ids, unless there are none or the last of them has an empty body. */
  predicate Inserts(es: seq<Ie>, index: byte) {
    var k := Below(es, index);
    !Meets(es, index) && k > 0 && es[k - 1].body != []
  }

  function Added(es: seq<Ie>, e: Ie): seq<Ie> {
    var k := Below(es, e.id);
    if Replaces(es, e.id) then es[..k] + [e] + es[k + 1..]
    else if Inserts(es, e.id) then es[..k] + [e] + es[k..]
    else es
  }

  /** `rtw_remove_bcn_ie` takes the first element with the id, unless its body is empty. */
  function Removed(es: seq<Ie>, index: byte): seq<Ie> {
    var k := First(es, Pattern(index, []));
    if k < |es| && es[k].body != [] then es[..k] + es[k + 1..] else es
  }

  lemma {:induction false} BelowIs(es: seq<Ie>, index: byte, k: nat)
    requires k <= |es| && (forall i :: 0 <= i < k ==> es[i].id < index) && (k < |es| ==> es[k].id >= index)
    ensures Below(es, index) == k
  {
    if k > 0 {
      BelowIs(es[1..], index, k - 1);
    }
  }

  /**
   * What an addition does, `k` being the first place without a smaller id: an element with the id there is replaced,
   * unless its body is empty; otherwise the new one is put there, unless there is nothing in front, or an empty body.
   */
  lemma AddedIs(es: seq<Ie>, e: Ie, k: nat)
    requires k <= |es| && (forall i :: 0 <= i < k ==> es[i].id < e.id) && (k < |es| ==> es[k].id >= e.id)
    ensures Added(es, e) ==
      if k < |es| && es[k].id == e.id then if es[k].body != [] then es[..k] + [e] + es[k + 1..] else es
      else if k > 0 && es[k - 1].body != [] then es[..k] + [e] + es[k..]
      else es
  {
    BelowIs(es, e.id, k);
    hide Below;
  }

  /** What a removal does, `k` being the first place with the id. */
  lemma RemovedIs(es: seq<Ie>, index: byte, k: nat)
    requires k <= |es| && (forall i :: 0 <= i < k ==> es[i].id != index) && (k < |es| ==> es[k].id == index)
    ensures Removed(es, index) == if k < |es| && es[k].body != [] then es[..k] + es[k + 1..] else es
  {
    FirstIs(es, Pattern(index, []), k);
    hide First;
  }

  predicate Sorted(es: seq<Ie>) {
    forall i, j :: 0 <= i < j < |es| ==> es[i].id <= es[j].id
  }

  lemma SpliceSorted(es: seq<Ie>, k: nat, mid: seq<Ie>, r: nat)
    requires k <= r <= |es| && Sorted(es) && Sorted(mid)
    requires forall i, e :: 0 <= i < k && e in mid ==> es[i].id <= e.id
    requires forall i, e :: r <= i < |es| && e in mid ==> e.id <= es[i].id
    ensures Sorted(es[..k] + mid + es[r..])
  {
  }

  lemma AddKeepsOrder(es: seq<Ie>, e: Ie)
    requires Sorted(es)
    ensures Sorted(Added(es, e))
  {
    var k := Below(es, e.id);
    if Replaces(es, e.id) {
      SpliceSorted(es, k, [e], k + 1);
    } else if Inserts(es, e.id) {
      SpliceSorted(es, k, [e], k);
    }
  }

  lemma RemoveKeepsOrder(es: seq<Ie>, index: byte)
    requires Sorted(es)
    ensures Sorted(Removed(es, index))
  {
  }

  /** Exchanging matches for matches leaves everything else as it was. */
  lemma SpliceWithout(es: seq<Ie>, k: nat, mid: seq<Ie>, r: nat, p: Pattern)
    requires k <= r <= |es| && Without(mid, p) == [] == Without(es[k..r], p)
    ensures Without(es[..k] + mid + es[r..], p) == Without(es, p)
  {
    hide *;
    WithoutAppend(es[..k] + mid, es[r..], p);
    WithoutAppend(es[..k], mid, p);
    WithoutAppend(es[..k] + es[k..r], es[r..], p);
    WithoutAppend(es[..k], es[k..r], p);
    Cut(es, r);
    Cut(es[..r], k);
    assert es[..r][..k] == es[..k] && es[..r][k..] == es[k..r];
  }

  lemma WithoutOne(e: Ie, p: Pattern)
    requires p.Matches(e)
    ensures Without([e], p) == []
  {
  }

  /** Nothing but elements with the id is touched, whatever the order of the elements. */
  lemma OthersStay(es: seq<Ie>, e: Ie)
    ensures var p := Pattern(e.id, []);
      Without(Added(es, e), p) == Without(es, p) == Without(Removed(es, e.id), p)
  {
    var p, k, j := Pattern(e.id, []), Below(es, e.id), First(es, Pattern(e.id, []));
    FirstMeaning(es, p);
    hide Without, First, Below;
    WithoutOne(e, p);
    if Replaces(es, e.id) {
      assert es[k..k + 1] == [es[k]];
      WithoutOne(es[k], p);
      SpliceWithout(es, k, [e], k + 1, p);
    } else if Inserts(es, e.id) {
      WithoutNone(es[k..k], p);
      SpliceWithout(es, k, [e], k, p);
    }
    if j < |es| {
      assert es[j..j + 1] == [es[j]] && es[..j] + [] == es[..j];
      WithoutOne(es[j], p);
      WithoutNone([], p);
      SpliceWithout(es, j, [], j + 1, p);
    }
  }

  /** Exactly when a removal right after an addition restores the elements. */
  lemma AddThenRemoveIff(es: seq<Ie>, e: Ie)
    ensures Removed(Added(es, e), e.id) == es <==>
      if Replaces(es, e.id) then false
      else if Inserts(es, e.id) then e.body != []
      else var j := First(es, Pattern(e.id, [])); j == |es| || es[j].body == []
  {
    hide *;
    if Replaces(es, e.id) {
      RemoveReplaced(es, e);
    } else if Inserts(es, e.id) {
      RemoveInserted(es, e);
    } else {
      RemoveUnadded(es, e);
    }
  }

  /** One input for each way in which the removal does not restore the elements. */
  lemma NotUndone()
    ensures var es: seq<Ie>, e := [Ie(5, [1])], Ie(5, [2]); Replaces(es, e.id) && Removed(Added(es, e), e.id) != es
    ensures var es: seq<Ie>, e := [Ie(0, [1])], Ie(5, []); Inserts(es, e.id) && Removed(Added(es, e), e.id) != es
    ensures var es: seq<Ie>, e := [Ie(7, [1]), Ie(5, [1])], Ie(5, [2]); Added(es, e) == es && Removed(Added(es, e), e.id) != es
  {
    AddThenRemoveIff([Ie(5, [1])], Ie(5, [2]));
    AddThenRemoveIff([Ie(0, [1])], Ie(5, []));
    AddThenRemoveIff([Ie(7, [1]), Ie(5, [1])], Ie(5, [2]));
    FirstIs([Ie(7, [1]), Ie(5, [1])], Pattern(5, []), 1);
  }

  lemma RemoveReplaced(es: seq<Ie>, e: Ie)
    requires Replaces(es, e.id)
    ensures Removed(Added(es, e), e.id) != es
  {
    var k, added := Below(es, e.id), Added(es, e);
    FirstIs(added, Pattern(e.id, []), k);
    hide First, Below;
    if e.body != [] {
      assert |Removed(added, e.id)| < |es|;
    } else {
      assert added[k] != es[k];
    }
  }

  lemma RemoveInserted(es: seq<Ie>, e: Ie)
    requires Inserts(es, e.id) && !Replaces(es, e.id)
    ensures Removed(Added(es, e), e.id) == es <==> e.body != []
  {
    var k, added := Below(es, e.id), Added(es, e);
    FirstIs(added, Pattern(e.id, []), k);
    hide First, Below;
    Parts(es[..k], [e], es[k..]);
    Cut(es, k);
  }

  lemma RemoveUnadded(es: seq<Ie>, e: Ie)
    requires !Inserts(es, e.id) && !Replaces(es, e.id)
    ensures var j := First(es, Pattern(e.id, []));
      Removed(Added(es, e), e.id) == es <==> j == |es| || es[j].body == []
  {
    hide First, Below, Inserts, Replaces;
    if Removed(es, e.id) == es {
      assert |Removed(es, e.id)| == |es|;
    }
  }

  /** With sorted elements the scan meets the id if it is there at all. */
  lemma MeetsIff(es: seq<Ie>, index: byte)
    requires Sorted(es)
    ensures Meets(es, index) <==> exists i :: 0 <= i < |es| && es[i].id == index
    ensures Meets(es, index) ==> Below(es, index) == First(es, Pattern(index, []))
  {
    if i :| 0 <= i < |es| && es[i].id == index {
      assert Below(es, index) <= i;
    }
    if Meets(es, index) {
      FirstIs(es, Pattern(index, []), Below(es, index));
    }
  }

  /** The last of the first `t` elements, as the scan remembers it: where it starts and how long its body is. */
  ghost predicate Slot(es: seq<Ie>, t: nat, base: nat, p: Option<nat>, ielen: nat) {
    && t <= |es|
    && match p
       case None => t == 0
       case Some(at) => t > 0 && at == base + |Encode(es[..t - 1])| && ielen == |es[t - 1].body|
  }

  /** The scan has passed `k` elements with smaller ids. */
  ghost predicate Seeking(es: seq<Ie>, index: byte, k: nat, buf: seq<byte>, base: nat, i: nat, end: nat,
                          p: Option<nat>, ielen: nat)
  {
    && base <= i <= end && Scanning(es, Pattern(index, []), k, buf, base, i - base, end - base)
    && k <= Below(es, index) && Slot(es, k, base, p, ielen)
  }

  lemma SeekStart(es: seq<Ie>, index: byte, buf: seq<byte>, base: nat, end: nat)
    requires base <= end <= |buf| && buf[base..end] == Encode(es)
    ensures Seeking(es, index, 0, buf, base, base, end, None, 0)
  {
    ScanStart(es, Pattern(index, []), buf, base, end - base);
  }

  lemma SeekStep(es: seq<Ie>, index: byte, k: nat, buf: seq<byte>, base: nat, i: nat, end: nat, p: Option<nat>, ielen: nat)
    requires Seeking(es, index, k, buf, base, i, end, p, ielen) && i < end
    ensures i + 2 <= end <= |buf|
    ensures var id, n := buf[i], buf[i + 1];
      if id > index then Sought(es, index, base, false, p, ielen)
      else if id == index then Sought(es, index, base, true, Some(i), n)
      else i + (n as int + 2) <= end && Seeking(es, index, k + 1, buf, base, i + (n as int + 2), end, Some(i), n)
  {
    hide Encode, First, FoundAt;
    ScanHere(es, Pattern(index, []), k, buf, base, i - base, end - base);
    ScanStep(es, Pattern(index, []), k, buf, base, i - base, end - base, 0);
    assert base + (i - base) == i;
  }

  lemma SeekEnd(es: seq<Ie>, index: byte, k: nat, buf: seq<byte>, base: nat, end: nat, p: Option<nat>, ielen: nat)
    requires Seeking(es, index, k, buf, base, end, end, p, ielen)
    ensures Sought(es, index, base, false, p, ielen)
  {
    assert Encode(es[k..]) == [];
  }

  /** The outcome of the scan. */
  ghost predicate Sought(es: seq<Ie>, index: byte, base: nat, bmatch: bool, p: Option<nat>, ielen: nat) {
    bmatch == Meets(es, index) && Slot(es, Below(es, index) + (if bmatch then 1 else 0), base, p, ielen)
  }

  /** The scan of `rtw_add_bcn_ie`. */
  method Seek(a: array<byte>, index: byte, end: nat, ghost es: seq<Ie>) returns (bmatch: bool, p: Option<nat>, ielen: nat)
    requires FIXED_IE_LENGTH <= end <= a.Length && a[FIXED_IE_LENGTH..end] == Encode(es)
    ensures Sought(es, index, FIXED_IE_LENGTH, bmatch, p, ielen)
  {
    hide Encode, First, Below, Meets, Seeking, Sought;
    ghost var k := 0;
    var i: nat := FIXED_IE_LENGTH;
    bmatch, p, ielen := false, None, 0;
    SeekStart(es, index, a[..], i, end);
    while i < end
      invariant i <= end && Seeking(es, index, k, a[..], FIXED_IE_LENGTH, i, end, p, ielen)
    {
      SeekStep(es, index, k, a[..], FIXED_IE_LENGTH, i, end, p, ielen);
      if a[i] > index {
        return;
      } else if a[i] == index {
        return true, Some(i), a[i + 1];
      }
      p, ielen := Some(i), a[i + 1];
      i := i + (a[i + 1] as int + 2);
      k := k + 1;
    }
    SeekEnd(es, index, k, a[..], FIXED_IE_LENGTH, end, p, ielen);
  }

  /** The driver's way to exchange the octets of `[q, r)` for a block: back up the remainder, write, put it back. */
  method Splice(a: array<byte>, q: nat, r: nat, end: nat, block: seq<byte>) returns (end': nat)
    requires q <= r <= end <= a.Length && q + |block| + (end - r) <= a.Length
    modifies a
    ensures Spliced(old(a[..]), a[..], q, r, end, block) && end' == q + |block| + (end - r)
  {
    ghost var was := a[..];
    var remainder := a[r..end];
    Memcpy(a, q, block);
    ghost var now := a[..];
    Memcpy(a, q + |block|, remainder);
    end' := q + |block| + |remainder|;
    SplicedBy(was, now, a[..], q, r, end, block);
  }

  ghost predicate Spliced(was: seq<byte>, now: seq<byte>, q: nat, r: nat, end: nat, block: seq<byte>) {
    && q <= r <= end <= |was| && q + |block| + (end - r) <= |was| == |now|
    && var m := q + |block|;
      && now[..q] == was[..q] && now[q..m] == block && now[m..m + end - r] == was[r..end]
      && now[m + end - r..] == was[m + end - r..]
  }

  lemma SplicedBy(was: seq<byte>, now: seq<byte>, next: seq<byte>, q: nat, r: nat, end: nat, block: seq<byte>)
    requires q <= r <= end <= |was| && q + |block| + (end - r) <= |was| == |now| == |next|
    requires now[..q] == was[..q] && now[q..q + |block|] == block && now[q + |block|..] == was[q + |block|..]
    requires var m := q + |block|;
      next[..m] == now[..m] && next[m..m + end - r] == was[r..end] && next[m + end - r..] == now[m + end - r..]
    ensures Spliced(was, next, q, r, end, block)
  {
    var m := q + |block|;
    assert next[..q] == next[..m][..q] == now[..m][..q] == now[..q];
    assert next[q..m] == next[..m][q..] == now[..m][q..] == now[q..m];
    assert now[m + end - r..] == now[m..][end - r..] == was[m..][end - r..];
  }

  /** Exchanging the octets of whole elements for the octets of others. */
  lemma SpliceStream(was: seq<byte>, now: seq<byte>, base: nat, end: nat, es: seq<Ie>, k: nat, r: nat, mid: seq<Ie>)
    requires base <= end <= |was| && was[base..end] == Encode(es) && k <= r <= |es|
    requires Spliced(was, now, base + |Encode(es[..k])|, base + |Encode(es[..r])|, end, Encode(mid))
    ensures var end' := base + |Encode(es[..k] + mid + es[r..])|;
      && end' <= |now| && now[base..end'] == Encode(es[..k] + mid + es[r..])
      && now[..base] == was[..base] && now[end'..] == was[end'..]
      && end' == base + |Encode(es[..k])| + |Encode(mid)| + (end - base - |Encode(es[..r])|)
  {
    hide *;
    SpliceEncoded(es, k, mid, r);
    var n, m := |Encode(es[..k])|, |Encode(es[..r])|;
    SplicedBounds(was, now, base + n, base + m, end, Encode(mid));
    Threes(was, now, base, base + n, base + m, end, Encode(mid));
    StreamCut(was, base, end, es, k);
    StreamCut(was, base, end, es, r);
  }

  /** The octets in front of element `k` and those from it on. */
  lemma StreamCut(buf: seq<byte>, base: nat, end: nat, es: seq<Ie>, k: nat)
    requires base <= end <= |buf| && buf[base..end] == Encode(es) && k <= |es|
    ensures var n := |Encode(es[..k])|;
      && base + n <= end && |Encode(es[k..])| == end - base - n
      && buf[base..base + n] == Encode(es[..k]) && buf[base + n..end] == Encode(es[k..])
  {
    hide *;
    EncodeCut(es, k);
    var n := |Encode(es[..k])|;
    assert buf[base..base + n] == buf[base..end][..n];
    assert buf[base + n..end] == buf[base..end][n..];
  }

  lemma SpliceEncoded(es: seq<Ie>, k: nat, mid: seq<Ie>, r: nat)
    requires k <= r <= |es|
    ensures Encode(es[..k] + mid + es[r..]) == Encode(es[..k]) + Encode(mid) + Encode(es[r..])
  {
    hide *;
    EncodeAppend(es[..k], mid);
    EncodeAppend(es[..k] + mid, es[r..]);
  }

  lemma SplicedBounds(was: seq<byte>, now: seq<byte>, q: nat, r: nat, end: nat, block: seq<byte>)
    requires Spliced(was, now, q, r, end, block)
    ensures q <= r <= end <= |was| == |now| && q + |block| + end - r <= |now|
    ensures now[q + |block| + end - r..] == was[q + |block| + end - r..]
  {
  }

  lemma Threes(was: seq<byte>, now: seq<byte>, base: nat, q: nat, s: nat, end: nat, block: seq<byte>)
    requires base <= q && Spliced(was, now, q, s, end, block)
    ensures now[..base] == was[..base]
    ensures now[base..q + |block| + end - s] == was[base..q] + block + was[s..end]
  {
    var m := q + |block|;
    Joined(now, base, q, m);
    Joined(now, base, m, m + end - s);
    assert now[base..q] == now[..q][base..] == was[..q][base..] == was[base..q];
    assert now[..base] == now[..q][..base] == was[..q][..base];
  }

  /** The splice that the outcome of the scan asks for. */
  lemma AddPlan(es: seq<Ie>, e: Ie, base: nat, bmatch: bool, p: Option<nat>, ielen: nat) returns (k: nat, r: nat)
    requires Sought(es, e.id, base, bmatch, p, ielen)
    ensures p == None || ielen == 0 ==> Added(es, e) == es
    ensures p != None && ielen != 0 ==>
      && k <= r <= |es|
      && p.value + (ielen + 2) == base + |Encode(es[..r])|
      && (if bmatch then p.value else p.value + (ielen + 2)) == base + |Encode(es[..k])|
      && Added(es, e) == es[..k] + [e] + es[r..]
  {
    k := Below(es, e.id);
    r := if bmatch then k + 1 else k;
    if p != None {
      EncodeNext(es, r - 1);
    }
  }

  /** Length of the octets after an exchange of elements. */
  lemma SpliceSize(es: seq<Ie>, k: nat, mid: seq<Ie>, r: nat)
    requires k <= r <= |es|
    ensures |Encode(es[..k])| <= |Encode(es[..r])| <= |Encode(es)|
    ensures |Encode(es[..k] + mid + es[r..])| == |Encode(es[..k])| + |Encode(mid)| + (|Encode(es)| - |Encode(es[..r])|)
  {
    hide *;
    EncodeSplit(es, r);
    EncodeCut(es[..r], k);
    assert es[..r][..k] == es[..k];
    EncodeAppend(es[..k], mid);
    EncodeAppend(es[..k] + mid, es[r..]);
  }

  /** Exchange elements `[k, r)` of the beacon for `mid`. */
  method SpliceNet(net: BssEx, dst: nat, behind: nat, block: seq<byte>, ghost es: seq<Ie>, ghost k: nat, ghost r: nat, ghost mid: seq<Ie>)
    requires net.Holds(es) && !net.probeReq && k <= r <= |es| && block == Encode(mid)
    requires dst == FIXED_IE_LENGTH + |Encode(es[..k])| && behind == FIXED_IE_LENGTH + |Encode(es[..r])|
    requires FIXED_IE_LENGTH + |Encode(es[..k] + mid + es[r..])| <= MAX_IE_SZ
    modifies net`ieLength, net.ies
    ensures net.Holds(es[..k] + mid + es[r..])
    ensures net.ies[..FIXED_IE_LENGTH] == old(net.ies[..FIXED_IE_LENGTH])
    ensures net.ies[net.ieLength..] == old(net.ies[..])[net.ieLength..]
  {
    hide Encode;
    SpliceSize(es, k, mid, r);
    ghost var was, end := net.ies[..], net.ieLength;
    net.ieLength := Splice(net.ies, dst, behind, net.ieLength, block);
    hide Spliced;
    SpliceStream(was, net.ies[..], FIXED_IE_LENGTH, end, es, k, r, mid);
  }

  /** `rtw_add_bcn_ie`. */
  method AddBcnIe(net: BssEx, index: byte, data: Body, ghost es: seq<Ie>)
    requires net.Holds(es) && !net.probeReq
    requires FIXED_IE_LENGTH + |Encode(Added(es, Ie(index, data)))| <= MAX_IE_SZ
    modifies net`ieLength, net.ies
    ensures net.Holds(Added(es, Ie(index, data)))
    ensures 12 <= net.ieLength <= 768 == net.ies.Length && net.ies[12..net.ieLength] == Encode(Added(es, Ie(index, data)))
    ensures net.ies[..12] == old(net.ies[..12])
    ensures net.ies[net.ieLength..] == old(net.ies[..])[net.ieLength..]
  {
    hide Encode, Sought, Added;
    ghost var e := Ie(index, data);
    var bmatch, p, ielen := Seek(net.ies, index, net.ieLength, es);
    ghost var k, r := AddPlan(es, e, FIXED_IE_LENGTH, bmatch, p, ielen);
    if p == None || ielen == 0 {
      return;
    }
    EncodeOne(e);
    var behind: nat := p.value + (ielen + 2);
    SpliceNet(net, if bmatch then p.value else behind, behind, [index, |data|] + data, es, k, r, [e]);
  }

  /** `rtw_remove_bcn_ie`. */
  method RemoveBcnIe(net: BssEx, index: byte, ghost es: seq<Ie>)
    requires net.Holds(es) && !net.probeReq
    modifies net`ieLength, net.ies
    ensures net.Holds(Removed(es, index))
    ensures 12 <= net.ieLength <= 768 == net.ies.Length && net.ies[12..net.ieLength] == Encode(Removed(es, index))
    ensures net.ies[..12] == old(net.ies[..12])
    ensures net.ies[net.ieLength..] == old(net.ies[..])[net.ieLength..]
  {
    hide Encode;
    ghost var k := First(es, Pattern(index, []));
    var hit := GetIe(net.ies, FIXED_IE_LENGTH, index, net.ieLength - FIXED_IE_LENGTH, es);
    if hit == None || hit.value.len == 0 {
      return;
    }
    EncodeNext(es, k);
    assert es[..k] + [] == es[..k];
    SpliceSize(es, k, [], k + 1);
    SpliceNet(net, hit.value.pos, hit.value.pos + (hit.value.len + 2), [], es, k, k + 1, []);
  }

  const EID_SSID: byte := 0
  const EID_RATES: byte := 1

  /** Octets of the first element with the id, 0 if there is none. */
  function Taken(es: seq<Ie>, id: byte): nat {
    var k := First(es, Pattern(id, []));
    if k < |es| then |es[k].body| + 2 else 0
  }

  /** Where `update_BCNTIM` puts a TIM that is not there yet: behind SSID, rates and three octets for the DS element. */
  function TimOffset(es: seq<Ie>): nat {
    Taken(es, EID_SSID) + Taken(es, EID_RATES) + 3
  }

  predicate HasTim(es: seq<Ie>) {
    var k := First(es, Pattern(EID_TIM, []));
    k < |es| && es[k].body != []
  }

  /** The octets of the elements with the TIM brought up to date. */
  function TimUpdated(es: seq<Ie>, tim: Ie): seq<byte>
    requires HasTim(es) || TimOffset(es) <= |Encode(es)|
  {
    var k, o, b := First(es, Pattern(EID_TIM, [])), TimOffset(es), Encode(es);
    if HasTim(es) then Encode(es[..k] + [tim] + es[k + 1..]) else b[..o] + Octets(tim) + b[o..]
  }

  /** A TIM, id 5, that is there and has a body is exchanged; `k` is the first place with the id. */
  lemma TimExchanged(es: seq<Ie>, tim: Ie, k: nat)
    requires k < |es| && es[k].id == 5 && es[k].body != [] && forall i :: 0 <= i < k ==> es[i].id != 5
    ensures HasTim(es) && TimUpdated(es, tim) == Encode(es[..k] + [tim] + es[k + 1..])
  {
    FirstIs(es, Pattern(5, []), k);
    hide First, Encode;
  }

  /**
   * Otherwise it is put behind as many octets as the first elements with the ids 0 and 1 have, and three; `s` and `r` are
   * their places, or the number of elements if there are none.
   */
  lemma TimPutAt(es: seq<Ie>, tim: Ie, k: nat, s: nat, r: nat)
    requires k <= |es| && (forall i :: 0 <= i < k ==> es[i].id != 5) && (k < |es| ==> es[k].id == 5 && es[k].body == [])
    requires s <= |es| && (forall i :: 0 <= i < s ==> es[i].id != 0) && (s < |es| ==> es[s].id == 0)
    requires r <= |es| && (forall i :: 0 <= i < r ==> es[i].id != 1) && (r < |es| ==> es[r].id == 1)
    ensures var b := Encode(es);
      var o := (if s < |es| then |es[s].body| + 2 else 0) + (if r < |es| then |es[r].body| + 2 else 0) + 3;
      !HasTim(es) && TimOffset(es) == o && (o <= |b| ==> TimUpdated(es, tim) == b[..o] + Octets(tim) + b[o..])
  {
    FirstIs(es, Pattern(5, []), k);
    FirstIs(es, Pattern(0, []), s);
    FirstIs(es, Pattern(1, []), r);
    hide First, Encode;
  }

  /** Backing up the remainder, writing the element, putting the remainder back. */
  method SpliceTim(a: array<byte>, q: nat, r: nat, end: nat, bmp: seq<byte>) returns (end': nat)
    requires 1 <= |bmp| <= 250
    requires q <= r <= end <= a.Length && q + |Octets(TimIe(0, 1, bmp))| + (end - r) <= a.Length
    modifies a
    ensures Spliced(old(a[..]), a[..], q, r, end, Octets(TimIe(0, 1, bmp)))
    ensures end' == q + |Octets(TimIe(0, 1, bmp))| + (end - r)
  {
    ghost var was, block := a[..], Octets(TimIe(0, 1, bmp));
    var remainder := a[r..end];
    var n := SetTimIe(0, 1, bmp, a, q);
    hide *;
    ghost var now := a[..];
    Memcpy(a, q + n as int, remainder);
    end' := q + n as int + |remainder|;
    SplicedBy(was, now, a[..], q, r, end, block);
  }

  /** The splice that brings the TIM up to date, as octets. */
  lemma TimPlan(es: seq<Ie>, tim: Ie) returns (q: nat, r: nat)
    requires HasTim(es) || TimOffset(es) <= |Encode(es)|
    ensures q <= r <= |Encode(es)|
    ensures TimUpdated(es, tim) == Encode(es)[..q] + Octets(tim) + Encode(es)[r..]
    ensures var k := First(es, Pattern(EID_TIM, []));
      if HasTim(es) then q == |Encode(es[..k])| && r == q + |es[k].body| + 2 else q == r == TimOffset(es)
  {
    q, r := TimOffset(es), TimOffset(es);
    if HasTim(es) {
      hide *;
      var k := First(es, Pattern(EID_TIM, []));
      q, r := |Encode(es[..k])|, |Encode(es[..k + 1])|;
      EncodeNext(es, k);
      EncodeCut(es, k);
      EncodeCut(es, k + 1);
      EncodeAppend(es[..k], [tim]);
      EncodeAppend(es[..k] + [tim], es[k + 1..]);
      EncodeOne(tim);
    }
  }

  /** A splice seen from the region it happens in. */
  lemma SpliceRegion(was: seq<byte>, now: seq<byte>, base: nat, end: nat, b: seq<byte>, q: nat, r: nat, block: seq<byte>)
    requires base <= end <= |was| && was[base..end] == b && q <= r <= |b|
    requires Spliced(was, now, base + q, base + r, end, block)
    ensures var end' := base + |b[..q] + block + b[r..]|;
      && end' <= |now| && now[base..end'] == b[..q] + block + b[r..]
      && now[..base] == was[..base] && now[end'..] == was[end'..]
  {
    Threes(was, now, base, base + q, base + r, end, block);
    Region(was, base, end, b, q, 0);
    Region(was, base, end, b, r, 0);
  }

  /** A search in an empty region, which `rtw_get_ie` does not even start, is a search without result. */
  lemma NoElements(es: seq<Ie>, id: byte)
    requires Encode(es) == []
    ensures FoundAt(es, Pattern(id, []), FIXED_IE_LENGTH, 0) == None
  {
  }

  /** `update_BCNTIM`; `bmp` is the bitmap of stations with buffered traffic. */
  method UpdateBcnTim(net: BssEx, bmp: seq<byte>, ghost es: seq<Ie>)
    requires net.Holds(es) && !net.probeReq && 1 <= |bmp| <= 250
    requires HasTim(es) || TimOffset(es) <= |Encode(es)|
    requires FIXED_IE_LENGTH + |TimUpdated(es, TimIe(0, 1, bmp))| <= MAX_IE_SZ
    modifies net`ieLength, net.ies
    ensures 12 <= net.ieLength <= 768 == net.ies.Length
    ensures net.ies[12..net.ieLength] == TimUpdated(es, TimIe(0, 1, bmp))
    ensures net.ies[..12] == old(net.ies[..12])
    ensures net.ies[net.ieLength..] == old(net.ies[..])[net.ieLength..]
  {
    assert net.ies[FIXED_IE_LENGTH..net.ieLength] == Encode(es) && FIXED_IE_LENGTH <= net.ieLength <= net.ies.Length;
    hide Encode, Octets, TimIe, First, TimUpdated, TimOffset, HasTim;
    net.ieLength := PutTim(net.ies, net.ieLength, bmp, es);
  }

  /** The octets of the elements, `end` octets from the start, with the TIM brought up to date. */
  method PutTim(a: array<byte>, end: nat, bmp: seq<byte>, ghost es: seq<Ie>) returns (end': nat)
    requires FIXED_IE_LENGTH <= end <= a.Length && a[FIXED_IE_LENGTH..end] == Encode(es) && 1 <= |bmp| <= 250
    requires HasTim(es) || TimOffset(es) <= |Encode(es)|
    requires FIXED_IE_LENGTH + |TimUpdated(es, TimIe(0, 1, bmp))| <= a.Length
    modifies a
    ensures FIXED_IE_LENGTH <= end' <= a.Length
    ensures a[FIXED_IE_LENGTH..end'] == TimUpdated(es, TimIe(0, 1, bmp))
    ensures a[..FIXED_IE_LENGTH] == old(a[..FIXED_IE_LENGTH]) && a[end'..] == old(a[..])[end'..]
  {
    hide *;
    ghost var was, tim := a[..], TimIe(0, 1, bmp);
    var q, r := TimPlace(a, end, es);
    TimFits(was, end, es, tim, q, r);
    end' := SpliceTim(a, q, r, end, bmp);
    TimPut(was, a[..], end, es, tim, q, r, end');
  }

  /** The place or stretch of the TIM, counted from the start of the buffer. */
  predicate TimAt(es: seq<Ie>, q: nat, r: nat) {
    var k := First(es, Pattern(EID_TIM, []));
    if HasTim(es) then q == FIXED_IE_LENGTH + |Encode(es[..k])| && r == q + |es[k].body| + 2
    else q == r == FIXED_IE_LENGTH + TimOffset(es)
  }

  /** There is room for the new octets. */
  lemma TimFits(was: seq<byte>, end: nat, es: seq<Ie>, tim: Ie, q: nat, r: nat)
    requires FIXED_IE_LENGTH <= end <= |was| && was[FIXED_IE_LENGTH..end] == Encode(es) && TimAt(es, q, r)
    requires HasTim(es) || TimOffset(es) <= |Encode(es)|
    requires FIXED_IE_LENGTH + |TimUpdated(es, tim)| <= |was|
    ensures q <= r <= end && q + |Octets(tim)| + (end - r) <= |was|
  {
    hide Encode, Octets, First, TimUpdated, TimOffset, HasTim;
    var x, y := TimPlan(es, tim);
  }

  /** What the splice makes of the elements. */
  lemma TimPut(was: seq<byte>, now: seq<byte>, end: nat, es: seq<Ie>, tim: Ie, q: nat, r: nat, end': nat)
    requires FIXED_IE_LENGTH <= end <= |was| && was[FIXED_IE_LENGTH..end] == Encode(es) && TimAt(es, q, r)
    requires HasTim(es) || TimOffset(es) <= |Encode(es)|
    requires q <= r <= end && end' == q + |Octets(tim)| + (end - r) && Spliced(was, now, q, r, end, Octets(tim))
    ensures FIXED_IE_LENGTH <= end' <= |now| && now[FIXED_IE_LENGTH..end'] == TimUpdated(es, tim)
    ensures now[..FIXED_IE_LENGTH] == was[..FIXED_IE_LENGTH] && now[end'..] == was[end'..]
  {
    hide Encode, Octets, First, TimUpdated, TimOffset, HasTim, Spliced;
    var x, y := TimPlan(es, tim);
    SpliceRegion(was, now, FIXED_IE_LENGTH, end, Encode(es), x, y, Octets(tim));
  }

  /** The octets of the TIM that is there, or the place for a new one. */
  method TimPlace(a: array<byte>, end: nat, ghost es: seq<Ie>) returns (q: nat, r: nat)
    requires FIXED_IE_LENGTH <= end <= a.Length && a[FIXED_IE_LENGTH..end] == Encode(es)
    ensures TimAt(es, q, r)
  {
    hide Encode, First;
    var length := end - FIXED_IE_LENGTH;
    var hit := GetIe(a, FIXED_IE_LENGTH, EID_TIM, length, es);
    if length < 1 {
      NoElements(es, EID_TIM);
      NoElements(es, EID_SSID);
      NoElements(es, EID_RATES);
    }
    if hit != None && hit.value.len > 0 {
      return hit.value.pos, hit.value.pos + (hit.value.len + 2);
    }
    var offset := FIXED_IE_LENGTH;
    var ssid := GetIe(a, FIXED_IE_LENGTH, EID_SSID, length, es);
    if ssid != None {
      offset := offset + (ssid.value.len + 2);
    }
    var rates := GetIe(a, FIXED_IE_LENGTH, EID_RATES, length, es);
    if rates != None {
      offset := offset + (rates.value.len + 2);
    }
    offset := offset + 3;
    return offset, offset;
  }

  predicate Commute(x: seq<byte>, y: seq<byte>) {
    x + y == y + x
  }

  /** The octets between the boundary in front of element `k` and the place for a new TIM. */
  function Between(es: seq<Ie>, k: nat): seq<byte>
    requires k <= |es| && TimOffset(es) <= |Encode(es)|
  {
    EncodeCut(es, k);
    var p, o := |Encode(es[..k])|, TimOffset(es);
    if p <= o then Encode(es)[p..o] else Encode(es)[o..p]
  }

  /** A new TIM comes to be the element in front of element `k`. */
  predicate AddedAt(es: seq<Ie>, tim: Ie, k: nat)
    requires !HasTim(es) && TimOffset(es) <= |Encode(es)|
  {
    k <= |es| && TimUpdated(es, tim) == Encode(es[..k] + [tim] + es[k..])
  }

  /**
   * The update adds the TIM and changes no other element exactly if there is an element boundary such that the TIM's
   * octets may change places with the octets between the boundary and the place; at the place itself there are none.
   */
  lemma TimAddedIff(es: seq<Ie>, tim: Ie)
    requires !HasTim(es) && TimOffset(es) <= |Encode(es)|
    ensures (exists k: nat :: AddedAt(es, tim, k)) <==>
      exists k: nat :: k <= |es| && Commute(Octets(tim), Between(es, k))
  {
    hide *;
    if k: nat :| AddedAt(es, tim, k) {
      AddedWhere(es, tim, k);
      AddedAtIff(es, tim, k);
    }
    if k: nat :| k <= |es| && Commute(Octets(tim), Between(es, k)) {
      AddedAtIff(es, tim, k);
    }
  }

  lemma AddedWhere(es: seq<Ie>, tim: Ie, k: nat)
    requires !HasTim(es) && TimOffset(es) <= |Encode(es)| && AddedAt(es, tim, k)
    ensures k <= |es|
  {
  }

  lemma AddedAtIff(es: seq<Ie>, tim: Ie, k: nat)
    requires !HasTim(es) && TimOffset(es) <= |Encode(es)| && k <= |es|
    ensures AddedAt(es, tim, k) <==> Commute(Octets(tim), Between(es, k))
  {
    var b, p, o, t := Encode(es), |Encode(es[..k])|, TimOffset(es), Octets(tim);
    hide Encode, Octets, TimOffset;
    EncodeCut(es, k);
    EncodeAppend(es[..k], [tim]);
    EncodeAppend(es[..k] + [tim], es[k..]);
    EncodeOne(tim);
    assert Encode(es[..k] + [tim] + es[k..]) == b[..p] + t + b[p..];
    if p <= o {
      MovedIff(b, p, o, t);
    } else {
      MovedIff(b, o, p, t);
    }
  }

  /** A block inserted at one of two places gives the same octets iff it commutes with what lies between them. */
  lemma MovedIff(b: seq<byte>, p: nat, o: nat, t: seq<byte>)
    requires p <= o <= |b|
    ensures b[..o] + t + b[o..] == b[..p] + t + b[p..] <==> Commute(t, b[p..o])
  {
    var x, w, z := b[..p], b[p..o], b[o..];
    Joined(b, 0, p, o);
    Joined(b, p, o, |b|);
    assert b[..o] == x + w && b[p..] == w + z;
    Swapped(x, w, t, z);
  }

  lemma Swapped(x: seq<byte>, w: seq<byte>, t: seq<byte>, z: seq<byte>)
    ensures (x + w) + t + z == x + t + (w + z) <==> t + w == w + t
  {
    assert (x + w) + t + z == x + (w + t) + z;
    assert x + t + (w + z) == x + (t + w) + z;
    Parts(x, w + t, z);
    Parts(x, t + w, z);
  }

  /** A beacon without DS element, with a third element of two octets: the TIM goes into the middle of it. */
  lemma TimSplits()
    ensures var es: seq<Ie> := [Ie(EID_SSID, []), Ie(EID_RATES, []), Ie(42, [1, 2])];
      && !HasTim(es) && TimOffset(es) <= |Encode(es)|
      && !exists k: nat :: AddedAt(es, TimIe(0, 1, [0]), k)
  {
    var es: seq<Ie> := [Ie(EID_SSID, []), Ie(EID_RATES, []), Ie(42, [1, 2])];
    var b: seq<byte> := [0, 0, 1, 0, 42, 2, 1, 2];
    SplitSample(es, b);
    var tim := TimIe(0, 1, [0]);
    assert Octets(tim)[0] == 5;
    hide Encode, TimOffset, HasTim, TimIe, Octets;
    TimAddedIff(es, tim);
    forall k: nat | k <= |es| ensures !Commute(Octets(tim), Between(es, k)) {
      SplitBetween(es, b, k);
      FirstDiffers(Octets(tim), Between(es, k));
    }
  }

  lemma FirstDiffers(x: seq<byte>, y: seq<byte>)
    requires x != [] && y != [] && x[0] != y[0]
    ensures !Commute(x, y)
  {
    assert (x + y)[0] == x[0] && (y + x)[0] == y[0];
  }

  /** None of the stretches between a boundary and the place begins like a TIM. */
  lemma SplitBetween(es: seq<Ie>, b: seq<byte>, k: nat)
    requires es == [Ie(EID_SSID, []), Ie(EID_RATES, []), Ie(42, [1, 2])] && b == [0, 0, 1, 0, 42, 2, 1, 2]
    requires k <= 3 && TimOffset(es) == 7 && Encode(es) == b
    requires |Encode(es[..0])| == 0 && |Encode(es[..1])| == 2 && |Encode(es[..2])| == 4 && |Encode(es[..3])| == 8
    ensures Between(es, k) != [] && Between(es, k)[0] != 5
  {
    hide Encode, TimOffset;
    assert Between(es, k) == if k == 0 then b[0..7] else if k == 1 then b[2..7] else if k == 2 then b[4..7] else b[7..8];
  }

  /** The octets of that beacon, its boundaries, and the place. */
  lemma SplitSample(es: seq<Ie>, b: seq<byte>)
    requires es == [Ie(EID_SSID, []), Ie(EID_RATES, []), Ie(42, [1, 2])] && b == [0, 0, 1, 0, 42, 2, 1, 2]
    ensures Encode(es) == b && !HasTim(es) && TimOffset(es) == 7
    ensures |Encode(es[..0])| == 0 && |Encode(es[..1])| == 2 && |Encode(es[..2])| == 4 && |Encode(es[..3])| == 8
  {
    EncodeOne(es[2]);
    EncodeCons(es[1], [es[2]]);
    EncodeCons(es[0], [es[1], es[2]]);
    assert es == [es[0]] + ([es[1]] + [es[2]]) && [es[1], es[2]] == [es[1]] + [es[2]];
    assert es[..0] == [];
    EncodeNext(es, 0);
    EncodeNext(es, 1);
    EncodeNext(es, 2);
    FirstIs(es, Pattern(EID_SSID, []), 0);
    FirstIs(es, Pattern(EID_RATES, []), 1);
    FirstIs(es, Pattern(EID_TIM, []), 3);
  }

  /**
   * With SSID and rates in front, there is a boundary with nothing between it and the place exactly when the third body
   * has one octet, as DS has.
   */
  lemma TimPlaceIff(es: seq<Ie>)
    requires |es| >= 2 && es[0].id == EID_SSID && es[1].id == EID_RATES && TimOffset(es) <= |Encode(es)|
    ensures (exists k: nat :: k <= |es| && Between(es, k) == []) <==> |es| > 2 && |es[2].body| == 1
  {
    hide *;
    PlaceBehindTwo(es);
    if |es| > 2 {
      EncodeNext(es, 2);
    }
    forall k: nat | k <= |es| ensures Between(es, k) == [] ==> k == 3 {
      if k < 2 {
        EncodeGrows(es, k, 2);
      } else if k > 3 {
        EncodeNext(es, 3);
        EncodeGrows(es, 4, k);
      }
      NothingBetween(es, k);
    }
    if |es| > 2 {
      NothingBetween(es, 3);
    }
  }

  lemma PlaceBehindTwo(es: seq<Ie>)
    requires |es| >= 2 && es[0].id == EID_SSID && es[1].id == EID_RATES
    ensures TimOffset(es) == |Encode(es[..2])| + 3
  {
    assert First(es, Pattern(EID_SSID, [])) == 0;
    FirstIs(es, Pattern(EID_RATES, []), 1);
    hide Encode, First;
    assert es[..0] == [];
    EncodeNext(es, 0);
    EncodeNext(es, 1);
  }

  lemma NothingBetween(es: seq<Ie>, k: nat)
    requires k <= |es| && TimOffset(es) <= |Encode(es)|
    ensures Between(es, k) == [] <==> |Encode(es[..k])| == TimOffset(es)
  {
    hide Encode, TimOffset;
    EncodeCut(es, k);
  }

  lemma {:induction false} EncodeGrows(es: seq<Ie>, j: nat, k: nat)
    requires j <= k <= |es|
    ensures |Encode(es[..j])| <= |Encode(es[..k])|
  {
    if j < k {
      EncodeNext(es, k - 1);
      EncodeGrows(es, j, k - 1);
    }
  }

  /** At an element boundary the TIM becomes one more element and changes no other. */
  lemma TimInserted(es: seq<Ie>, tim: Ie, k: nat)
    requires !HasTim(es) && k <= |es| && |Encode(es[..k])| == TimOffset(es) <= |Encode(es)|
    ensures TimUpdated(es, tim) == Encode(es[..k] + [tim] + es[k..])
  {
    hide Encode, First;
    EncodeCut(es, k);
    EncodeAppend(es[..k], [tim]);
    EncodeAppend(es[..k] + [tim], es[k..]);
    EncodeOne(tim);
  }

  /** In the usual order, SSID, rates, DS, the TIM comes fourth. */
  lemma TimComesFourth(es: seq<Ie>, tim: Ie)
    requires !HasTim(es) && |es| > 2 && es[0].id == EID_SSID && es[1].id == EID_RATES && |es[2].body| == 1
    ensures TimOffset(es) <= |Encode(es)| && TimUpdated(es, tim) == Encode(es[..3] + [tim] + es[3..])
  {
    FirstIs(es, Pattern(EID_RATES, []), 1);
    assert First(es, Pattern(EID_SSID, [])) == 0 && es[..0] == [];
    hide Encode, First;
    EncodeNext(es, 0);
    EncodeNext(es, 1);
    EncodeNext(es, 2);
    EncodeCut(es, 3);
    TimInserted(es, tim, 3);
  }
}
