/** Deleting attributes nested in P2P and WFD elements, in place (rtw_ieee80211.c). */
module VendorAttrs {
  import opened Bytes
  import opened Elements
  import opened AttrWalk
  import opened ElementSearch
  import opened Options

  const MAX_IE_SZ := 768

  /** The octets at `pos` open an element of the family. */
  predicate HeadIs(buf: seq<byte>, pos: nat, kind: Kind) {
    pos + 6 <= |buf| && buf[pos] == VENDOR_SPECIFIC && buf[pos + 2..pos + 6] == kind.oui
  }

  /** Index of the first element that looks like one of the family; nothing behind the elements counts. */
  function Seen(kind: Kind, es: seq<Ie>): (k: nat)
    ensures k <= |es|
  {
    Sight(es, kind.pattern, [])
  }

  function SeenAt(kind: Kind, es: seq<Ie>, base: nat): Option<Hit> {
    SightAt(es, kind.pattern, [], base)
  }

  lemma HeadOpens(kind: Kind, es: seq<Ie>)
    ensures Opening(es, kind.pattern, []) <==> HeadIs(Encode(es), 0, kind)
  {
    var b := Encode(es);
    hide Encode;
    assert b + [] == b;
  }

  lemma SeenMeaning(kind: Kind, es: seq<Ie>)
    ensures forall i :: 0 <= i < Seen(kind, es) ==> !HeadIs(Encode(es[i..]), 0, kind)
    ensures Seen(kind, es) < |es| ==> HeadIs(Encode(es[Seen(kind, es)..]), 0, kind)
  {
    SightMeaning(es, kind.pattern, []);
    hide Sight, HeadIs, Opening, Encode;
    forall i | 0 <= i <= |es| ensures Opening(es[i..], kind.pattern, []) <==> HeadIs(Encode(es[i..]), 0, kind) {
      HeadOpens(kind, es[i..]);
    }
  }

  lemma SeenCons(kind: Kind, es: seq<Ie>)
    requires es != []
    ensures Seen(kind, es) == if HeadIs(Encode(es), 0, kind) then 0 else 1 + Seen(kind, es[1..])
  {
    HeadOpens(kind, es);
    hide HeadIs, Opening, Encode;
  }

  lemma SeenIs(kind: Kind, es: seq<Ie>, base: nat)
    ensures SeenAt(kind, es, base) ==
      var k := Seen(kind, es); if k < |es| then Some(Hit(base + |Encode(es[..k])|, |es[k].body| + 2)) else None
  {
    hide Sight, Encode;
  }

  /** An element of the family is in sight where it starts; one that only looks like it is too short for the OUI. */
  lemma HeadMatches(kind: Kind, es: seq<Ie>)
    requires es != []
    ensures kind.pattern.Matches(es[0]) <==> HeadIs(Encode(es), 0, kind) && |es[0].body| >= 4
  {
    OpeningMatches(es, kind.pattern, []);
    HeadOpens(kind, es);
    hide HeadIs, Opening, Encode;
  }

  /** The answer of a search that gives up at the size of the element buffer. */
  function Capped(f: Option<Hit>, base: nat): Option<Hit> {
    if f != None && f.value.pos - base + 5 < MAX_IE_SZ then f else None
  }

  /** An element of the family is missed exactly if it starts 763 octets or more behind the beginning. */
  lemma CappedIff(f: Option<Hit>, base: nat)
    ensures Capped(f, base) == if f != None && f.value.pos < base + 763 then f else None
  {
  }

  /** A walk has passed `k` elements, none of which looks like one of the family. */
  ghost predicate Seeing(kind: Kind, es: seq<Ie>, k: nat, buf: seq<byte>, base: nat, i: nat, limit: nat) {
    Streaming(es, k, buf, base, i, limit) && Seen(kind, es) == k + Seen(kind, es[k..])
  }

  lemma SeenStart(kind: Kind, es: seq<Ie>, buf: seq<byte>, base: nat, limit: nat)
    requires base + limit <= |buf| && buf[base..base + limit] == Encode(es)
    ensures Seeing(kind, es, 0, buf, base, 0, limit)
  {
    StreamStart(es, buf, base, limit);
    assert es[0..] == es;
  }

  /** `rtw_get_p2p_ie` and `rtw_get_wfd_ie`. */
  method GetKindIe(a: array<byte>, base: nat, inLen: int, kind: Kind, ghost es: seq<Ie>)
    returns (hit: Option<Hit>)
    requires inLen > 0 ==> base + inLen <= a.Length && a[base..base + inLen] == Encode(es)
    ensures inLen <= 0 ==> hit == None
    ensures inLen > 0 ==> hit == Capped(SeenAt(kind, es, base), base)
  {
    if inLen <= 0 {
      return None;
    }
    hide *;
    ghost var k := 0;
    var cnt := 0;
    SeenStart(kind, es, a[..], base, inLen);
    while cnt + 1 + 4 < inLen
      invariant 0 <= cnt <= inLen && Seeing(kind, es, k, a[..], base, cnt, inLen)
    {
      SeenStep(kind, es, k, a[..], base, cnt, inLen);
      if cnt + 1 + 4 >= MAX_IE_SZ {
        return None;
      }
      if HeadIs(a[..], base + cnt, kind) {
        return Some(Hit(base + cnt, a[base + cnt + 1] as int + 2));
      }
      cnt := cnt + (a[base + cnt + 1] as int + 2);
      k := k + 1;
    }
    SeenShort(kind, es, k, a[..], base, cnt, inLen);
    return None;
  }

  /** The test on the octets under the cursor is the test on the octet form of what is left. */
  lemma HeadHere(kind: Kind, es: seq<Ie>, k: nat, buf: seq<byte>, base: nat, i: nat, limit: nat)
    requires Streaming(es, k, buf, base, i, limit)
    ensures base + limit <= |buf| && k <= |es|
    ensures i + 6 <= limit ==> HeadIs(Encode(es[k..]), 0, kind) == HeadIs(buf, base + i, kind)
    ensures i + 6 > limit ==> !HeadIs(Encode(es[k..]), 0, kind)
  {
    hide Encode;
    if i + 6 <= limit {
      Inside(buf, base + i, base + limit, 2, 6);
    }
  }

  lemma SeenStep(kind: Kind, es: seq<Ie>, k: nat, buf: seq<byte>, base: nat, i: nat, limit: nat)
    requires Seeing(kind, es, k, buf, base, i, limit) && i + 6 <= limit
    ensures base + limit <= |buf|
    ensures var f, n := SeenAt(kind, es, base), buf[base + i + 1] as int + 2;
      if i + 5 >= MAX_IE_SZ then Capped(f, base) == None
      else if HeadIs(buf, base + i, kind) then Capped(f, base) == Some(Hit(base + i, n))
      else i + n <= limit && Seeing(kind, es, k + 1, buf, base, i + n, limit)
  {
    hide Streaming, HeadIs, Encode, Seen, SeenAt;
    SeenIs(kind, es, base);
    StreamHere(es, k, buf, base, i, limit);
    StreamNext(es, k, buf, base, i, limit);
    StreamAt(es, k, buf, base, i, limit);
    HeadHere(kind, es, k, buf, base, i, limit);
    SeenLater(kind, es, k, buf, base, i, limit);
    SeenTurn(kind, es, k);
  }

  /** One more element: it is the one in sight, or the search goes on behind it. */
  lemma SeenTurn(kind: Kind, es: seq<Ie>, k: nat)
    requires k < |es| && Seen(kind, es) == k + Seen(kind, es[k..])
    ensures if HeadIs(Encode(es[k..]), 0, kind) then Seen(kind, es) == k
            else Seen(kind, es) == k + 1 + Seen(kind, es[k + 1..])
  {
    HeadOpens(kind, es[k..]);
    hide HeadIs, Opening, Encode, Sight;
    SightTurn(es, kind.pattern, [], k);
  }

  /** What is in sight and not yet passed lies at the cursor or behind it. */
  lemma SeenLater(kind: Kind, es: seq<Ie>, k: nat, buf: seq<byte>, base: nat, i: nat, limit: nat)
    requires Seeing(kind, es, k, buf, base, i, limit)
    ensures SeenAt(kind, es, base) != None ==> SeenAt(kind, es, base).value.pos >= base + i
  {
    SeenIs(kind, es, base);
    var f := Seen(kind, es);
    if f < |es| {
      assert es[..f][..k] == es[..k];
      EncodeCut(es[..f], k);
    }
  }

  lemma SeenShort(kind: Kind, es: seq<Ie>, k: nat, buf: seq<byte>, base: nat, i: nat, limit: nat)
    requires Seeing(kind, es, k, buf, base, i, limit) && limit - i < 6
    ensures Capped(SeenAt(kind, es, base), base) == None
  {
    SeenIs(kind, es, base);
    SeenNothing(kind, es[k..]);
  }

  /** Too few octets for an element of the family. */
  lemma {:induction false} SeenNothing(kind: Kind, es: seq<Ie>)
    requires |Encode(es)| < 6
    ensures Seen(kind, es) == |es|
  {
    if es != [] {
      assert |Encode(es)| == 2 + |es[0].body| + |Encode(es[1..])|;
      SeenCons(kind, es);
      SeenNothing(kind, es[1..]);
    }
  }

  /** `rtw_get_p2p_attr` and `rtw_get_wfd_attr` on an element of `ielen` octets at `ie`. */
  method GetAttr(a: array<byte>, ie: nat, ielen: nat, kind: Kind, id: byte) returns (hit: Option<Hit>)
    requires ie + ielen <= a.Length
    requires ielen > 6 && HeadIs(a[..], ie, kind) ==> Ends(kind, a[ie + 6..ie + ielen], id)
    ensures ielen <= 6 || !HeadIs(a[..], ie, kind) ==> hit == None
    ensures ielen > 6 && HeadIs(a[..], ie, kind) ==>
      Ends(kind, a[ie + 6..ie + ielen], id) && hit == AttrAt(kind, a[..], ie + 6, ie + ielen, id)
  {
    if ielen <= 6 || !HeadIs(a[..], ie, kind) {
      return None;
    }
    hit := WalkAttrs(a, ie + 6, ie + ielen, kind, id);
  }

  /** The walk of `rtw_get_p2p_attr` and `rtw_get_wfd_attr` behind the element header. */
  method WalkAttrs(a: array<byte>, first: nat, end: nat, kind: Kind, id: byte) returns (hit: Option<Hit>)
    requires first <= end <= a.Length && Ends(kind, a[first..end], id)
    ensures hit == AttrAt(kind, a[..], first, end, id)
  {
    AttrScanStart(kind, a[..], first, end, id);
    hide *;
    var p := first;
    while p + 3 <= end
      invariant first <= p && AttrScan(kind, a[..], first, p, end, id)
      decreases end - p
    {
      AttrScanStep(kind, a[..], first, p, end, id);
      var dataLen := kind.Length16(a[..], p + 1);
      var attrLen := U16(dataLen + 3);
      if p + attrLen > end {
        return None;
      }
      if a[p] == id {
        return Some(Hit(p, attrLen));
      }
      p := p + attrLen;
    }
    AttrScanEnd(kind, a[..], first, p, end, id);
    return None;
  }

  /** Position and size of the first attribute with the id in `buf[base..end]`. */
  function AttrAt(kind: Kind, buf: seq<byte>, base: nat, end: nat, id: byte): Option<Hit>
    requires base <= end <= |buf| && Ends(kind, buf[base..end], id)
  {
    Shift(FindAttr(kind, buf[base..end], id), base)
  }

  /** The walk over the attributes of `buf[base..end]` stands at `p`, having passed none with the id. */
  ghost predicate AttrScan(kind: Kind, buf: seq<byte>, base: nat, p: nat, end: nat, id: byte) {
    && base <= p <= end <= |buf| && Ends(kind, buf[base..end], id) && Ends(kind, buf[p..end], id)
    && AttrAt(kind, buf, base, end, id) == AttrAt(kind, buf, p, end, id)
  }

  lemma AttrScanStart(kind: Kind, buf: seq<byte>, base: nat, end: nat, id: byte)
    requires base <= end <= |buf| && Ends(kind, buf[base..end], id)
    ensures AttrScan(kind, buf, base, base, end, id)
  {
  }

  lemma AttrScanStep(kind: Kind, buf: seq<byte>, base: nat, p: nat, end: nat, id: byte)
    requires AttrScan(kind, buf, base, p, end, id) && p + 3 <= end
    ensures base <= p && end <= |buf| && Ends(kind, buf[base..end], id)
    ensures var n := U16(kind.Length16(buf, p + 1) + 3);
      if p + n > end then AttrAt(kind, buf, base, end, id) == None
      else if buf[p] == id then AttrAt(kind, buf, base, end, id) == Some(Hit(p, n))
      else n > 0 && AttrScan(kind, buf, base, p + n, end, id)
  {
    hide *;
    AttrScanIs(kind, buf, base, p, end, id);
    var b := buf[p..end];
    HeaderHere(kind, buf, p, end);
    FindTurn(kind, b, id);
    var n := AttrSize(kind, b);
    AttrAtIs(kind, buf, p, end, id);
    if p + n <= end {
      Inside(buf, p, end, n, n);
      if buf[p] != id {
        AttrAtIs(kind, buf, p + n, end, id);
        ShiftTwice(FindAttr(kind, b[n..], id), n, p);
        AttrScanBy(kind, buf, base, p + n, end, id);
      }
    }
  }

  lemma AttrScanIs(kind: Kind, buf: seq<byte>, base: nat, p: nat, end: nat, id: byte)
    requires AttrScan(kind, buf, base, p, end, id)
    ensures base <= p <= end <= |buf| && Ends(kind, buf[base..end], id) && Ends(kind, buf[p..end], id)
    ensures AttrAt(kind, buf, base, end, id) == AttrAt(kind, buf, p, end, id)
  {
  }

  lemma AttrScanBy(kind: Kind, buf: seq<byte>, base: nat, p: nat, end: nat, id: byte)
    requires base <= p <= end <= |buf| && Ends(kind, buf[base..end], id) && Ends(kind, buf[p..end], id)
    requires AttrAt(kind, buf, base, end, id) == AttrAt(kind, buf, p, end, id)
    ensures AttrScan(kind, buf, base, p, end, id)
  {
  }

  lemma AttrAtIs(kind: Kind, buf: seq<byte>, base: nat, end: nat, id: byte)
    requires base <= end <= |buf| && Ends(kind, buf[base..end], id)
    ensures AttrAt(kind, buf, base, end, id) == Shift(FindAttr(kind, buf[base..end], id), base)
    ensures Shift(None, base) == None && forall n: nat :: Shift(Some(Hit(0, n)), base) == Some(Hit(base, n))
  {
  }

  lemma ShiftTwice(h: Option<Hit>, n: nat, p: nat)
    ensures Shift(Shift(h, n), p) == Shift(h, p + n)
  {
  }

  lemma HeaderHere(kind: Kind, buf: seq<byte>, p: nat, end: nat)
    requires p + 3 <= end <= |buf|
    ensures buf[p..end][0] == buf[p] && AttrSize(kind, buf[p..end]) == U16(kind.Length16(buf, p + 1) + 3)
  {
    var b := buf[p..end];
    assert b[1] == buf[p + 1] && b[2] == buf[p + 2];
  }

  lemma AttrScanEnd(kind: Kind, buf: seq<byte>, base: nat, p: nat, end: nat, id: byte)
    requires AttrScan(kind, buf, base, p, end, id) && p + 3 > end
    ensures base <= end <= |buf| && Ends(kind, buf[base..end], id) && AttrAt(kind, buf, base, end, id) == None
  {
  }

  /** `b` with the `len` octets at `pos` cut out of what precedes `end`, and zeros let in before `end`. */
  function Closed(b: seq<byte>, pos: nat, len: nat, end: nat): (c: seq<byte>)
    requires pos + len <= end <= |b|
    ensures |c| == |b|
  {
    b[..pos] + b[pos + len..end] + Zeros(len) + b[end..]
  }

  lemma ClosedParts(b: seq<byte>, pos: nat, len: nat, end: nat)
    requires pos + len <= end <= |b|
    ensures var c := Closed(b, pos, len, end);
      c[..pos] == b[..pos] && c[pos..end - len] == b[pos + len..end]
      && c[end - len..end] == Zeros(len) && c[end..] == b[end..]
  {
  }

  /** The move and the fill by which the driver takes `len` octets out of a buffer. */
  method CloseGap(a: array<byte>, pos: nat, len: nat, end: nat)
    requires pos + len <= end <= a.Length
    modifies a
    ensures a[..] == Closed(old(a[..]), pos, len, end)
  {
    ghost var was := a[..];
    var remain := end - pos - len;
    Memmove(a, pos, pos + len, remain);
    ghost var now := a[..];
    Memset(a, pos + remain, 0, len);
    ClosedBy(was, now, a[..], pos, len, end);
  }

  lemma ClosedBy(was: seq<byte>, now: seq<byte>, next: seq<byte>, pos: nat, len: nat, end: nat)
    requires pos + len <= end <= |was| == |now| == |next|
    requires now[..pos] == was[..pos] && now[pos..end - len] == was[pos + len..end] && now[end - len..] == was[end - len..]
    requires next[..end - len] == now[..end - len] && next[end..] == now[end..]
    requires forall i :: end - len <= i < end ==> next[i] == 0
    ensures next == Closed(was, pos, len, end)
  {
    assert next[end - len..end] == Zeros(len);
    assert now[end..] == now[end - len..][len..] == was[end - len..][len..] == was[end..];
    Joined(now, 0, pos, end - len);
    Joined(next, 0, end - len, end);
    Joined(next, 0, end, |next|);
    assert next[0..|next|] == next;
  }

  /** Attribute deletion inside the element at `ie`: `len` of its octets are left, the rest up to `end` is zero. */
  ghost predicate Deleting(kind: Kind, was: seq<byte>, now: seq<byte>, ie: nat, len: nat, end: nat, id: byte) {
    && |was| == |now| && 6 <= len && ie + len <= end <= |was|
    && HeadIs(now, ie, kind) && now[ie + 1] as int == len - 2
    && PruneEnds(kind, now[ie + 6..ie + len], id)
    && Pruned(kind, now[ie + 6..ie + len], id) == Pruned(kind, was[ie + 6..end], id)
    && now[ie + len..end] == Zeros(end - ie - len)
    && now[..ie] == was[..ie] && now[end..] == was[end..]
  }

  lemma DeletingStart(kind: Kind, was: seq<byte>, ie: nat, len: nat, id: byte)
    requires ie + len <= |was| && 6 <= len
    requires HeadIs(was, ie, kind) && was[ie + 1] as int == len - 2 && PruneEnds(kind, was[ie + 6..ie + len], id)
    ensures Deleting(kind, was, was, ie, len, ie + len, id)
  {
  }

  /** The search inside a half-stripped element is well posed, and its hit lies inside. */
  lemma DeletingHere(kind: Kind, was: seq<byte>, now: seq<byte>, ie: nat, len: nat, end: nat, id: byte)
    requires Deleting(kind, was, now, ie, len, end, id)
    ensures |was| == |now| && 6 <= len < 258 && ie + len <= end <= |was|
    ensures now[ie + len..end] == Zeros(end - ie - len)
    ensures HeadIs(now, ie, kind) && now[ie + 1] as int == len - 2
    ensures Ends(kind, now[ie + 6..ie + len], id)
  {
  }

  /** Its hit lies inside, and an element without attributes has none. */
  lemma DeletingHit(kind: Kind, now: seq<byte>, ie: nat, len: nat, id: byte)
    requires 6 <= len && ie + len <= |now| && Ends(kind, now[ie + 6..ie + len], id)
    ensures len == 6 ==> AttrAt(kind, now, ie + 6, ie + len, id) == None
    ensures match AttrAt(kind, now, ie + 6, ie + len, id)
      case Some(h) => ie + 6 <= h.pos && h.pos + h.len <= ie + len
      case None => true
  {
    hide HeadIs;
  }

  lemma DeletingStep(kind: Kind, was: seq<byte>, now: seq<byte>, next: seq<byte>, ie: nat, len: nat, end: nat,
                     id: byte, h: Hit)
    requires Deleting(kind, was, now, ie, len, end, id) && Ends(kind, now[ie + 6..ie + len], id)
    requires AttrAt(kind, now, ie + 6, ie + len, id) == Some(h) && h.len > 0
    requires ie + 6 <= h.pos && h.pos + h.len <= ie + len
    requires next == Closed(now, h.pos, h.len, ie + len)[ie + 1 := len - 2 - h.len]
    ensures Deleting(kind, was, next, ie, len - h.len, end, id)
  {
    hide *;
    DeletingHere(kind, was, now, ie, len, end, id);
    DeletingOctets(now, next, ie, len, end, h);
    AttrInside(kind, now, ie + 6, ie + len, id, h);
    DeletingPruned(kind, was, now, ie, len, end, id, Hit(h.pos - ie - 6, h.len));
    DeletingNext(kind, was, now, next, ie, len, end, id, h.len);
  }

  /** Cutting out what the search finds leaves the rest of the deletion to be done. */
  lemma DeletingPruned(kind: Kind, was: seq<byte>, now: seq<byte>, ie: nat, len: nat, end: nat, id: byte, h: Hit)
    requires Deleting(kind, was, now, ie, len, end, id)
    requires Ends(kind, now[ie + 6..ie + len], id)
    requires FindAttr(kind, now[ie + 6..ie + len], id) == Some(h) && h.len > 0
    ensures var b := now[ie + 6..ie + len];
      && h.pos + h.len <= |b|
      && Pruned(kind, b[..h.pos] + b[h.pos + h.len..], id) == Pruned(kind, b, id)
      && PruneEnds(kind, b[..h.pos] + b[h.pos + h.len..], id)
  {
    hide Pruned, PruneEnds, FindAttr, Ends, HeadIs;
    PrunedOn(kind, now[ie + 6..ie + len], id, h);
  }

  lemma DeletingNext(kind: Kind, was: seq<byte>, now: seq<byte>, next: seq<byte>, ie: nat, len: nat, end: nat,
                     id: byte, n: nat)
    requires Deleting(kind, was, now, ie, len, end, id) && 6 + n <= len && |next| == |now|
    requires next[ie] == now[ie] && next[ie + 1] as int == len - 2 - n && next[ie + 2..ie + 6] == now[ie + 2..ie + 6]
    requires next[ie + len - n..end] == Zeros(end - ie - len + n)
    requires next[..ie] == now[..ie] && next[end..] == now[end..]
    requires var b, c := now[ie + 6..ie + len], next[ie + 6..ie + len - n];
      Pruned(kind, c, id) == Pruned(kind, b, id) && PruneEnds(kind, c, id)
    ensures Deleting(kind, was, next, ie, len - n, end, id)
  {
    hide Pruned, PruneEnds, HeadIs;
    HeadKept(now, next, ie, kind);
  }

  lemma AttrInside(kind: Kind, buf: seq<byte>, base: nat, end: nat, id: byte, h: Hit)
    requires base <= end <= |buf| && Ends(kind, buf[base..end], id) && AttrAt(kind, buf, base, end, id) == Some(h)
    ensures base <= h.pos && FindAttr(kind, buf[base..end], id) == Some(Hit(h.pos - base, h.len))
  {
  }

  lemma HeadKept(now: seq<byte>, next: seq<byte>, ie: nat, kind: Kind)
    requires HeadIs(now, ie, kind) && |now| == |next|
    requires now[ie] == next[ie] && now[ie + 2..ie + 6] == next[ie + 2..ie + 6]
    ensures HeadIs(next, ie, kind)
  {
  }

  lemma DeletingOctets(now: seq<byte>, next: seq<byte>, ie: nat, len: nat, end: nat, h: Hit)
    requires 6 <= len < 258 && ie + len <= end <= |now|
    requires ie + 6 <= h.pos && h.pos + h.len <= ie + len
    requires next == Closed(now, h.pos, h.len, ie + len)[ie + 1 := len - 2 - h.len]
    requires now[ie + len..end] == Zeros(end - ie - len)
    ensures |next| == |now| && now[ie] == next[ie] && next[ie + 1] as int == len - 2 - h.len
    ensures now[ie + 2..ie + 6] == next[ie + 2..ie + 6]
    ensures var b, p := now[ie + 6..ie + len], h.pos - ie - 6;
      next[ie + 6..ie + len - h.len] == b[..p] + b[p + h.len..]
    ensures next[ie + len - h.len..end] == Zeros(end - ie - len + h.len)
    ensures next[..ie] == now[..ie] && next[end..] == now[end..]
  {
    var c, stop := Closed(now, h.pos, h.len, ie + len), ie + len - h.len;
    ClosedParts(now, h.pos, h.len, ie + len);
    hide *;
    Front(c, now, h.pos, ie + 6);
    DeletingBody(now, c, ie, len, h);
    DeletingFront(now, c, next, ie, len - 2 - h.len);
    Front(c[ie + len..], now[ie + len..], |now| - ie - len, end - ie - len);
    Inside(c, ie + len, |c|, end - ie - len, end - ie - len);
    Inside(now, ie + len, |now|, end - ie - len, end - ie - len);
    DeletingBack(c, next, ie, len - 2 - h.len, stop, end);
    Joined(c, stop, ie + len, end);
    assert c[ie + len..end] == now[ie + len..end];
  }

  lemma Front(x: seq<byte>, y: seq<byte>, m: nat, k: nat)
    requires k <= m <= |x| && m <= |y| && x[..m] == y[..m]
    ensures x[..k] == y[..k]
  {
    assert x[..m][..k] == x[..k] && y[..m][..k] == y[..k];
  }

  /** Another length octet leaves the octets in front of it and the OUI alone. */
  lemma DeletingFront(now: seq<byte>, c: seq<byte>, next: seq<byte>, ie: nat, n: byte)
    requires ie + 6 <= |c| && |c| == |now| && next == c[ie + 1 := n] && c[..ie + 6] == now[..ie + 6]
    ensures next[..ie] == now[..ie] && next[ie] == now[ie] && next[ie + 1] == n && now[ie + 2..ie + 6] == next[ie + 2..ie + 6]
  {
    Front(c, now, ie + 6, ie);
    assert c[..ie + 6][ie] == now[..ie + 6][ie];
    Inside(c, 0, ie + 6, ie + 2, ie + 6);
    Inside(now, 0, ie + 6, ie + 2, ie + 6);
    assert c[0..ie + 6] == c[..ie + 6] && now[0..ie + 6] == now[..ie + 6];
  }

  /** And what lies behind. */
  lemma DeletingBack(c: seq<byte>, next: seq<byte>, ie: nat, n: byte, stop: nat, end: nat)
    requires ie + 6 <= stop <= end <= |c| && next == c[ie + 1 := n]
    ensures next[ie + 6..stop] == c[ie + 6..stop] && next[stop..end] == c[stop..end] && next[end..] == c[end..]
  {
  }

  lemma DeletingBody(now: seq<byte>, c: seq<byte>, ie: nat, len: nat, h: Hit)
    requires ie + len <= |now| == |c| && ie + 6 <= h.pos && h.pos + h.len <= ie + len
    requires c[..h.pos] == now[..h.pos] && c[h.pos..ie + len - h.len] == now[h.pos + h.len..ie + len]
    ensures var b, p := now[ie + 6..ie + len], h.pos - ie - 6;
      c[ie + 6..ie + len - h.len] == b[..p] + b[p + h.len..]
  {
    Joined(c, ie + 6, h.pos, ie + len - h.len);
    Inside(now, ie + 6, ie + len, 0, h.pos - ie - 6);
    Inside(now, ie + 6, ie + len, h.pos + h.len - ie - 6, len - 6);
    assert c[ie + 6..h.pos] == c[..h.pos][ie + 6..];
  }

  /**
   * `rtw_del_p2p_attr` and `rtw_del_wfd_attr` on a whole element that looks like one of the family; one with less than
   * six octets only does because of what lies behind it.
   */
  method DelKindAttr(a: array<byte>, ie: nat, ielenOri: nat, kind: Kind, id: byte) returns (ielen: nat)
    requires 2 <= ielenOri && ie + ielenOri <= a.Length
    requires HeadIs(a[..], ie, kind) && a[ie + 1] as int == ielenOri - 2
    requires ielenOri >= 6 ==> PruneEnds(kind, a[ie + 6..ie + ielenOri], id)
    modifies a
    ensures ielenOri >= 6 ==> Deleted(kind, old(a[..]), a[..], ie, ielen, ie + ielenOri, id)
    ensures ielenOri < 6 ==> ielen == ielenOri && a[..] == old(a[..])
  {
    hide *;
    ielen := ielenOri;
    ghost var was := a[..];
    if ielenOri >= 6 {
      DeletingStart(kind, was, ie, ielen, id);
    }
    while true
      invariant if ielenOri >= 6 then Deleting(kind, was, a[..], ie, ielen, ie + ielenOri, id)
                else ielen == ielenOri && a[..] == was
      decreases ielen
    {
      if ielenOri >= 6 {
        DeletingHere(kind, was, a[..], ie, ielen, ie + ielenOri, id);
        DeletingHit(kind, a[..], ie, ielen, id);
      }
      var hit := GetAttr(a, ie, ielen, kind, id);
      if hit == None || hit.value.len == 0 {
        break;
      }
      ghost var now := a[..];
      CloseGap(a, hit.value.pos, hit.value.len, ie + ielen);
      a[ie + 1] := ielen - 2 - hit.value.len;
      DeletingStep(kind, was, now, a[..], ie, ielen, ie + ielenOri, id, hit.value);
      ielen := ielen - hit.value.len;
    }
    if ielenOri >= 6 {
      DeletingEnd(kind, was, a[..], ie, ielen, ie + ielenOri, id);
    }
  }

  /** What attribute deletion leaves of the element that ended at `end`. */
  ghost predicate Deleted(kind: Kind, was: seq<byte>, now: seq<byte>, ie: nat, len: nat, end: nat, id: byte)
  {
    && |was| == |now| && ie + 6 <= ie + len <= end <= |was| && len < 258
    && now[ie..ie + len] == [VENDOR_SPECIFIC, len - 2] + kind.oui + Pruned(kind, was[ie + 6..end], id)
    && now[ie + len..end] == Zeros(end - ie - len)
    && now[..ie] == was[..ie] && now[end..] == was[end..]
  }

  lemma DeletingEnd(kind: Kind, was: seq<byte>, now: seq<byte>, ie: nat, len: nat, end: nat, id: byte)
    requires Deleting(kind, was, now, ie, len, end, id)
    requires Ends(kind, now[ie + 6..ie + len], id)
    requires var f := AttrAt(kind, now, ie + 6, ie + len, id); f == None || f.value.len == 0
    ensures Deleted(kind, was, now, ie, len, end, id)
  {
    DeletingHere(kind, was, now, ie, len, end, id);
    hide Pruned, HeadIs, PruneEnds, Ends, FindAttr;
    PrunedStop(kind, now[ie + 6..ie + len], id);
    HeadOctets(kind, now, ie, len);
  }

  lemma HeadOctets(kind: Kind, buf: seq<byte>, ie: nat, len: nat)
    requires 6 <= len < 258 && ie + len <= |buf| && HeadIs(buf, ie, kind) && buf[ie + 1] as int == len - 2
    ensures buf[ie..ie + len] == [VENDOR_SPECIFIC, len - 2] + kind.oui + buf[ie + 6..ie + len]
  {
    Joined(buf, ie, ie + 2, ie + 6);
    Joined(buf, ie, ie + 6, ie + len);
  }
}
