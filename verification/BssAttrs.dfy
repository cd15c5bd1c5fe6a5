/** Attribute deletion across all elements of a BSS description, and what it means for attribute lists. */
module BssAttrs {
  import opened Bytes
  import opened Elements
  import opened AttrWalk
  import opened ElementSearch
  import opened Options
  import opened VendorAttrs

  /** The element with the attributes of the id taken out of its body, if it is one of the family. */
  function StripOne(kind: Kind, e: Ie, id: byte): Ie {
    if kind.pattern.Matches(e) then Ie(e.id, e.body[..4] + Pruned(kind, e.body[4..], id)) else e
  }

  function Strip(kind: Kind, es: seq<Ie>, id: byte): seq<Ie> {
    if es == [] then [] else [StripOne(kind, es[0], id)] + Strip(kind, es[1..], id)
  }

  lemma {:induction false} StripAt(kind: Kind, es: seq<Ie>, id: byte)
    ensures |Strip(kind, es, id)| == |es|
    ensures forall i :: 0 <= i < |es| ==> Strip(kind, es, id)[i] == StripOne(kind, es[i], id)
  {
    if es != [] {
      StripAt(kind, es[1..], id);
    }
  }

  /** The list functions, one element in front. */
  lemma StripCons(kind: Kind, es: seq<Ie>, id: byte)
    requires es != []
    ensures Strip(kind, es, id) == [StripOne(kind, es[0], id)] + Strip(kind, es[1..], id)
    ensures Seen(kind, es) > 0 ==> Seen(kind, es) == 1 + Seen(kind, es[1..]) && StripOne(kind, es[0], id) == es[0]
  {
    HeadMatches(kind, es);
    SeenCons(kind, es);
    hide Encode, HeadIs, Pruned, Pattern.Matches, Seen;
  }

  lemma StripNone(kind: Kind, id: byte)
    ensures Strip(kind, [], id) == [] && Seen(kind, []) == 0
  {
  }

  /** Up to the first element in sight nothing changes. */
  lemma {:induction false} StripFirst(kind: Kind, es: seq<Ie>, id: byte)
    ensures var k := Seen(kind, es);
      Strip(kind, es, id) ==
        if k == |es| then es else es[..k] + [StripOne(kind, es[k], id)] + Strip(kind, es[k + 1..], id)
  {
    hide *;
    if es == [] {
      StripNone(kind, id);
    } else {
      StripCons(kind, es, id);
      Uncons(es);
      var k, tail := Seen(kind, es), es[1..];
      if k > 0 {
        StripFirst(kind, tail, id);
        if k < |es| {
          assert tail[k - 1] == es[k] && es[k + 1..] == tail[k..] && es[..k] == [es[0]] + tail[..k - 1];
          Assoc([es[0]], tail[..k - 1], [StripOne(kind, es[k], id)]);
          Assoc([es[0]], tail[..k - 1] + [StripOne(kind, es[k], id)], Strip(kind, es[k + 1..], id));
        }
      } else {
        assert es[..0] + [StripOne(kind, es[0], id)] == [StripOne(kind, es[0], id)];
      }
    }
  }

  /** Every deletion in an element of the family ends. */
  ghost predicate AllEnd(kind: Kind, es: seq<Ie>, id: byte) {
    forall e :: e in es && kind.pattern.Matches(e) ==> PruneEnds(kind, e.body[4..], id)
  }

  /** Where a deletion over `[base, end0)` stands: `[base, pos)` is done, `[pos, end)` is to be searched. */
  datatype Extent = Extent(base: nat, pos: nat, end: nat, end0: nat)
  {
    predicate Within(n: nat) {
      base <= pos <= end <= end0 <= n && end0 - base <= MAX_IE_SZ
    }
  }

  ghost predicate Stripping(kind: Kind, id: byte, was: seq<byte>, now: seq<byte>, x: Extent,
                            es: seq<Ie>, done: seq<Ie>, rest: seq<Ie>)
  {
    && x.Within(|was|) && |now| == |was|
    && now[..x.base] == was[..x.base] && now[x.end0..] == was[x.end0..]
    && now[x.end..x.end0] == Zeros(x.end0 - x.end)
    && now[x.base..x.pos] == Encode(done) && now[x.pos..x.end] == Encode(rest)
    && done + Strip(kind, rest, id) == Strip(kind, es, id)
    && AllEnd(kind, rest, id)
  }

  lemma StrippingStart(kind: Kind, id: byte, was: seq<byte>, x: Extent, es: seq<Ie>)
    requires x.Within(|was|) && x.pos == x.base && x.end == x.end0
    requires was[x.base..x.end] == Encode(es) && AllEnd(kind, es, id)
    ensures Stripping(kind, id, was, was, x, es, [], es)
  {
  }

  /** What the search in the remaining region is given, and what its hit looks like. */
  lemma StrippingHere(kind: Kind, id: byte, was: seq<byte>, now: seq<byte>, x: Extent,
                      es: seq<Ie>, done: seq<Ie>, rest: seq<Ie>)
    requires Stripping(kind, id, was, now, x, es, done, rest)
    ensures x.Within(|now|) && |now| == |was|
    ensures now[x.pos..x.end] == Encode(rest)
    ensures Capped(SeenAt(kind, rest, x.pos), x.pos) == SeenAt(kind, rest, x.pos)
    ensures x.pos == x.end ==> SeenAt(kind, rest, x.pos) == None
    ensures match SeenAt(kind, rest, x.pos)
      case None => true
      case Some(h) =>
        && x.pos <= h.pos && 2 <= h.len && h.pos + h.len <= x.end
        && HeadIs(now, h.pos, kind) && now[h.pos + 1] as int == h.len - 2
        && (h.len >= 6 ==> PruneEnds(kind, now[h.pos + 6..h.pos + h.len], id))
  {
    hide PruneEnds, Encode, Seen, SeenAt, Strip, HeadIs, Pattern.Matches;
    SeenMeaning(kind, rest);
    SeenIs(kind, rest, x.pos);
    var k := Seen(kind, rest);
    if k < |rest| {
      InSight(kind, now, x.pos, x.end, rest, k);
      SeenOctets(kind, now, x.pos, x.end, rest, Hit(x.pos + |Encode(rest[..k])|, |rest[k].body| + 2));
      assert rest[k] in rest;
      if |rest[k].body| >= 4 {
        FamilyHead(kind, now, x.pos + |Encode(rest[..k])|, rest[k]);
      }
    }
  }

  /** What is in sight in the octet form is in sight in the buffer. */
  lemma InSight(kind: Kind, buf: seq<byte>, base: nat, end: nat, es: seq<Ie>, k: nat)
    requires base <= end <= |buf| && buf[base..end] == Encode(es) && k < |es| && HeadIs(Encode(es[k..]), 0, kind)
    ensures var p := base + |Encode(es[..k])|; p + 6 <= end && HeadIs(buf, p, kind) && buf[p + 1] as int == |es[k].body|
  {
    hide Encode;
    EncodeCut(es, k);
    var p, b := |Encode(es[..k])|, Encode(es[k..]);
    assert b == buf[base..end][p..] == buf[base + p..end];
    Inside(buf, base + p, end, 2, 6);
    EncodeHead(es[k..]);
    assert b[1] == buf[base + p + 1] && es[k..][0] == es[k];
  }

  lemma FamilyHead(kind: Kind, buf: seq<byte>, p: nat, e: Ie)
    requires p + 2 + |e.body| <= |buf| && buf[p..p + 2 + |e.body|] == Octets(e) && kind.pattern.Matches(e)
    ensures 4 <= |e.body| && HeadIs(buf, p, kind) && buf[p + 1] as int == |e.body|
    ensures buf[p + 6..p + 2 + |e.body|] == e.body[4..]
  {
    var o := Octets(e);
    Inside(buf, p, p + 2 + |e.body|, 2, 6);
    Inside(buf, p, p + 2 + |e.body|, 6, 6);
    assert o[2..6] == e.body[..4] && o[6..] == e.body[4..];
    assert buf[p] == o[0] && buf[p + 1] == o[1];
  }

  lemma Region<T>(buf: seq<T>, base: nat, end: nat, whole: seq<T>, p: nat, n: nat)
    requires base <= end <= |buf| && buf[base..end] == whole && p + n <= |whole|
    ensures buf[base..base + p] == whole[..p]
    ensures buf[base + p..base + p + n] == whole[p..][..n]
    ensures buf[base + p + n..end] == whole[p..][n..]
  {
    Inside(buf, base, end, 0, p);
    Inside(buf, base, end, p, p + n);
    Inside(buf, base, end, p + n, p + n);
    Inside(whole, p, |whole|, 0, n);
    Inside(whole, p, |whole|, n, n);
  }

  /** The region around element `k`. */
  lemma HitOctets(buf: seq<byte>, base: nat, end: nat, es: seq<Ie>, k: nat)
    requires base <= end <= |buf| && buf[base..end] == Encode(es) && k < |es|
    ensures var p, n := base + |Encode(es[..k])|, 2 + |es[k].body|;
      && p + n <= end
      && buf[base..p] == Encode(es[..k]) && buf[p..p + n] == Octets(es[k]) && buf[p + n..end] == Encode(es[k + 1..])
  {
    hide *;
    EncodeCut(es, k);
    EncodeHead(es[k..]);
    Cut(es, k);
    Region(buf, base, end, Encode(es), |Encode(es[..k])|, 2 + |es[k].body|);
  }

  /** Moving on behind the first element of the family, as elements. */
  lemma StripOn(kind: Kind, id: byte, done: seq<Ie>, rest: seq<Ie>)
    requires Seen(kind, rest) < |rest|
    ensures var k := Seen(kind, rest);
      done + rest[..k] + [StripOne(kind, rest[k], id)] + Strip(kind, rest[k + 1..], id) == done + Strip(kind, rest, id)
  {
    hide *;
    var k := Seen(kind, rest);
    StripFirst(kind, rest, id);
    JoinRun(done, rest[..k], [StripOne(kind, rest[k], id)], Strip(kind, rest[k + 1..], id));
  }

  lemma JoinRun<T>(w: seq<T>, x: seq<T>, y: seq<T>, z: seq<T>)
    ensures w + (x + y + z) == w + x + y + z
  {
  }

  lemma SuffixKeeps(kind: Kind, es: seq<Ie>, k: nat, id: byte)
    requires k <= |es| && AllEnd(kind, es, id)
    ensures AllEnd(kind, es[k..], id)
  {
  }

  /** What one turn makes of the element in sight: emptied of the attributes, or as it was if it is too short. */
  ghost predicate Turned(kind: Kind, now: seq<byte>, mid: seq<byte>, p: nat, n: nat, len: nat, id: byte) {
    if len >= 6 then Deleted(kind, now, mid, p, n, p + len, id) else mid == now && n == len
  }

  /** What attribute deletion makes of the element's octets. */
  lemma StripHere(kind: Kind, id: byte, now: seq<byte>, mid: seq<byte>, p: nat, len: nat, n: nat, e: Ie)
    requires p + len <= |now| && len == 2 + |e.body| && now[p..p + len] == Octets(e)
    requires kind.pattern.Matches(e) <==> len >= 6
    requires Turned(kind, now, mid, p, n, len, id)
    ensures 2 <= n <= len && |mid| == |now| && n == 2 + |StripOne(kind, e, id).body|
    ensures mid[p..p + n] == Octets(StripOne(kind, e, id))
    ensures mid[..p] == now[..p] && mid[p + len..] == now[p + len..]
  {
    hide Pruned, HeadIs;
    if len >= 6 {
      FamilyHead(kind, now, p, e);
      assert e.body[..4] == kind.oui;
      Assoc([VENDOR_SPECIFIC, n - 2], kind.oui, Pruned(kind, e.body[4..], id));
    }
  }

  /** The octets up to the cursor after one element has been dealt with. */
  lemma StripFront(now: seq<byte>, mid: seq<byte>, next: seq<byte>, base: nat, p: nat, q: nat)
    requires base <= p <= q <= |now| && |mid| == |now| == |next|
    requires mid[..p] == now[..p] && next[..q] == mid[..q]
    ensures next[..base] == now[..base] && next[base..q] == now[base..p] + mid[p..q]
  {
    assert next[..p] == next[..q][..p] == mid[..q][..p] == mid[..p];
    assert next[base..p] == next[..p][base..] == now[..p][base..] == now[base..p];
    assert next[p..q] == next[..q][p..] == mid[..q][p..] == mid[p..q];
    assert next[..base] == next[..p][..base] == now[..p][..base];
    Joined(next, base, p, q);
  }

  /** The octets behind the cursor. */
  lemma StripBack(now: seq<byte>, mid: seq<byte>, next: seq<byte>, r: nat, stop: nat, end: nat, end0: nat)
    requires r <= end <= end0 <= |now| && stop <= end && |mid| == |now| == |next|
    requires mid[r..] == now[r..] && next[end..] == mid[end..] && next[stop..end] == Zeros(end - stop)
    requires now[end..end0] == Zeros(end0 - end)
    ensures mid[r..end] == now[r..end] && next[end0..] == now[end0..] && next[stop..end0] == Zeros(end0 - stop)
  {
    assert mid[end..] == mid[r..][end - r..] == now[r..][end - r..] == now[end..];
    assert next[end..end0] == next[end..][..end0 - end] == now[end..][..end0 - end] == now[end..end0];
    assert next[end0..] == next[end..][end0 - end..] == now[end..][end0 - end..];
    assert mid[r..end] == mid[r..][..end - r] == now[r..][..end - r];
    Joined(next, stop, end, end0);
  }

  lemma StripOctets(now: seq<byte>, mid: seq<byte>, next: seq<byte>, x: Extent, p: nat, len: nat, n: nat)
    requires x.Within(|now|) && |now| == |mid| && x.pos <= p && n <= len && p + len <= x.end
    requires now[x.end..x.end0] == Zeros(x.end0 - x.end)
    requires mid[..p] == now[..p] && mid[p + len..] == now[p + len..]
    requires next == Closed(mid, p + n, len - n, x.end)
    ensures |next| == |now| && next[..x.base] == now[..x.base] && next[x.end0..] == now[x.end0..]
    ensures next[x.end - (len - n)..x.end0] == Zeros(x.end0 - x.end + (len - n))
    ensures next[x.base..p + n] == now[x.base..p] + mid[p..p + n]
    ensures next[p + n..x.end - (len - n)] == now[p + len..x.end]
  {
    hide Closed;
    ClosedParts(mid, p + n, len - n, x.end);
    StripFront(now, mid, next, x.base, p, p + n);
    StripBack(now, mid, next, p + len, x.end - (len - n), x.end, x.end0);
  }

  /** The element in sight, as the octets of the buffer. */
  lemma SeenOctets(kind: Kind, buf: seq<byte>, base: nat, end: nat, es: seq<Ie>, h: Hit)
    requires base <= end <= |buf| && buf[base..end] == Encode(es) && SeenAt(kind, es, base) == Some(h)
    ensures var k := Seen(kind, es);
      && k < |es| && h.len == 2 + |es[k].body| && base <= h.pos && h.pos + h.len <= end
      && buf[base..h.pos] == Encode(es[..k]) && buf[h.pos..h.pos + h.len] == Octets(es[k])
      && buf[h.pos + h.len..end] == Encode(es[k + 1..])
      && (kind.pattern.Matches(es[k]) <==> h.len >= 6)
  {
    var k := Seen(kind, es);
    SeenIs(kind, es, base);
    SeenMeaning(kind, es);
    hide Encode, Octets, Seen, SeenAt, HeadIs;
    HitOctets(buf, base, end, es, k);
    HeadMatches(kind, es[k..]);
    assert es[k..][0] == es[k];
  }

  lemma DoneOctets(xs: seq<Ie>, ys: seq<Ie>, e: Ie)
    ensures Encode(xs + ys + [e]) == Encode(xs) + Encode(ys) + Octets(e)
  {
    hide *;
    EncodeAppend(xs, ys);
    EncodeAppend(xs + ys, [e]);
    EncodeOne(e);
  }

  lemma StrippingStep(kind: Kind, id: byte, was: seq<byte>, now: seq<byte>, mid: seq<byte>, next: seq<byte>, x: Extent,
                      es: seq<Ie>, done: seq<Ie>, rest: seq<Ie>, h: Hit, n: nat)
    returns (done': seq<Ie>, rest': seq<Ie>)
    requires Stripping(kind, id, was, now, x, es, done, rest) && SeenAt(kind, rest, x.pos) == Some(h)
    requires h.pos + h.len <= x.end <= |mid| && n <= h.len
    requires Turned(kind, now, mid, h.pos, n, h.len, id)
    requires next == Closed(mid, h.pos + n, h.len - n, x.end)
    ensures |rest'| < |rest|
    ensures Stripping(kind, id, was, next, Extent(x.base, h.pos + n, x.end - (h.len - n), x.end0), es, done', rest')
  {
    hide *;
    StrippingIs(kind, id, was, now, x, es, done, rest);
    SeenOctets(kind, now, x.pos, x.end, rest, h);
    var k := Seen(kind, rest);
    var one := StripOne(kind, rest[k], id);
    StripHere(kind, id, now, mid, h.pos, h.len, n, rest[k]);
    StripOctets(now, mid, next, x, h.pos, h.len, n);
    StripOn(kind, id, done, rest);
    SuffixKeeps(kind, rest, k + 1, id);
    done', rest' := done + rest[..k] + [one], rest[k + 1..];
    DoneOctets(done, rest[..k], one);
    Joined(now, x.base, x.pos, h.pos);
    var y := Extent(x.base, h.pos + n, x.end - (h.len - n), x.end0);
    ExtentOn(x, y, |now|);
    StrippingBy(kind, id, was, now, next, y, es, done', rest');
  }

  lemma ExtentOn(x: Extent, y: Extent, n: nat)
    requires x.Within(n) && y.base == x.base && y.end0 == x.end0 && x.pos <= y.pos <= y.end <= x.end
    ensures y.Within(n)
  {
  }

  /** The parts of the state of a deletion, and the state made up of its parts. */
  lemma StrippingIs(kind: Kind, id: byte, was: seq<byte>, now: seq<byte>, x: Extent,
                    es: seq<Ie>, done: seq<Ie>, rest: seq<Ie>)
    requires Stripping(kind, id, was, now, x, es, done, rest)
    ensures x.Within(|was|) && |now| == |was| && x.base <= x.pos <= x.end <= x.end0 <= |was|
    ensures now[..x.base] == was[..x.base] && now[x.end0..] == was[x.end0..]
    ensures now[x.end..x.end0] == Zeros(x.end0 - x.end)
    ensures now[x.base..x.pos] == Encode(done) && now[x.pos..x.end] == Encode(rest)
    ensures done + Strip(kind, rest, id) == Strip(kind, es, id) && AllEnd(kind, rest, id)
  {
  }

  lemma StrippingBy(kind: Kind, id: byte, was: seq<byte>, now: seq<byte>, next: seq<byte>, x: Extent,
                    es: seq<Ie>, done: seq<Ie>, rest: seq<Ie>)
    requires x.Within(|was|) && |next| == |now| == |was| && x.base <= x.pos <= x.end <= x.end0 <= |was|
    requires now[..x.base] == was[..x.base] && now[x.end0..] == was[x.end0..]
    requires next[..x.base] == now[..x.base] && next[x.end0..] == now[x.end0..]
    requires next[x.end..x.end0] == Zeros(x.end0 - x.end)
    requires next[x.base..x.pos] == Encode(done) && next[x.pos..x.end] == Encode(rest)
    requires done + Strip(kind, rest, id) == Strip(kind, es, id) && AllEnd(kind, rest, id)
    ensures Stripping(kind, id, was, next, x, es, done, rest)
  {
  }

  lemma StrippingEnd(kind: Kind, id: byte, was: seq<byte>, now: seq<byte>, x: Extent,
                     es: seq<Ie>, done: seq<Ie>, rest: seq<Ie>)
    requires Stripping(kind, id, was, now, x, es, done, rest) && SeenAt(kind, rest, x.pos) == None
    ensures Stripped(kind, id, was, now, x.base, x.end, x.end0, es)
  {
    StripFirst(kind, rest, id);
    SeenIs(kind, rest, x.pos);
    hide Encode, Seen, SeenAt, Strip, AllEnd;
    EncodeAppend(done, rest);
    Joined(now, x.base, x.pos, x.end);
  }

  /** The deletion over `[base, end0)` is complete and the elements now end at `end`. */
  ghost predicate Stripped(kind: Kind, id: byte, was: seq<byte>, now: seq<byte>, base: nat, end: nat, end0: nat, es: seq<Ie>) {
    && base <= end <= end0 <= |was| && |now| == |was|
    && now[base..end] == Encode(Strip(kind, es, id))
    && now[end..end0] == Zeros(end0 - end)
    && now[..base] == was[..base] && now[end0..] == was[end0..]
  }

  /** One turn of the deletion: empty the element at `ie`, then close the gap behind what is left of it. */
  method StripIe(a: array<byte>, ie: nat, lenOri: nat, end: nat, kind: Kind, id: byte) returns (len: nat, ghost mid: seq<byte>)
    requires 2 <= lenOri && ie + lenOri <= end <= a.Length
    requires HeadIs(a[..], ie, kind) && a[ie + 1] as int == lenOri - 2
    requires lenOri >= 6 ==> PruneEnds(kind, a[ie + 6..ie + lenOri], id)
    modifies a
    ensures len <= lenOri && |mid| == a.Length
    ensures Turned(kind, old(a[..]), mid, ie, len, lenOri, id)
    ensures a[..] == Closed(mid, ie + len, lenOri - len, end)
  {
    hide *;
    len := DelKindAttr(a, ie, lenOri, kind, id);
    mid := a[..];
    TurnedBy(kind, old(a[..]), mid, ie, len, lenOri, id);
    if len != lenOri {
      CloseGap(a, ie + len, lenOri - len, end);
    } else {
      ClosedNone(a[..], ie + len, end);
    }
  }

  lemma TurnedBy(kind: Kind, was: seq<byte>, now: seq<byte>, ie: nat, len: nat, lenOri: nat, id: byte)
    requires lenOri >= 6 ==> Deleted(kind, was, now, ie, len, ie + lenOri, id)
    requires lenOri < 6 ==> len == lenOri && now == was
    ensures Turned(kind, was, now, ie, len, lenOri, id) && len <= lenOri
  {
  }

  lemma ClosedNone(b: seq<byte>, pos: nat, end: nat)
    requires pos <= end <= |b|
    ensures Closed(b, pos, 0, end) == b
  {
  }

  /** One turn of the loop: find the next element of the family, strip it, and stand behind it. */
  method StripTurn(a: array<byte>, pos: nat, end: nat, kind: Kind, id: byte, ghost was: seq<byte>, ghost x: Extent,
                   ghost es: seq<Ie>, ghost done: seq<Ie>, ghost rest: seq<Ie>)
    returns (more: bool, pos': nat, end': nat, ghost done': seq<Ie>, ghost rest': seq<Ie>)
    requires x.pos == pos && x.end == end && Stripping(kind, id, was, a[..], x, es, done, rest)
    modifies a
    ensures more ==> |rest'| < |rest|
    ensures !more ==> rest' == rest && pos' == pos && SeenAt(kind, rest, pos) == None
    ensures Stripping(kind, id, was, a[..], Extent(x.base, pos', end', x.end0), es, done', rest')
  {
    hide HeadIs, PruneEnds, Stripping, Encode, Seen, SeenAt, Strip, AllEnd, Capped, Closed, Turned;
    more, pos', end', done', rest' := false, pos, end, done, rest;
    StrippingHere(kind, id, was, a[..], x, es, done, rest);
    var hit := GetKindIe(a, pos, end - pos, kind, rest);
    if hit != None {
      ghost var now, mid := a[..], [];
      var len;
      len, mid := StripIe(a, hit.value.pos, hit.value.len, end, kind, id);
      done', rest' := StrippingStep(kind, id, was, now, mid, a[..], x, es, done, rest, hit.value, len);
      more, pos', end' := true, hit.value.pos + len, end - (hit.value.len - len);
    }
  }

  /** `WLAN_BSSID_EX` as far as its elements go: fixed parameters, if any, then the elements. */
  class BssEx {
    const ies: array<byte>
    const probeReq: bool
    var ieLength: nat

    constructor (octets: seq<byte>, length: nat, probeReq: bool)
      requires |octets| == MAX_IE_SZ && length <= MAX_IE_SZ
      ensures fresh(ies) && ies.Length == 768 && ies[..] == octets && ieLength == length && this.probeReq == probeReq
    {
      ies := new byte[MAX_IE_SZ](i requires 0 <= i < MAX_IE_SZ => octets[i]);
      this.probeReq := probeReq;
      ieLength := length;
    }

    function FixedOffset(): nat {
      if probeReq then 0 else 12
    }

    /** The element region is the octet form of `es`. */
    ghost predicate Holds(es: seq<Ie>)
      reads this, ies
    {
      && ies.Length == MAX_IE_SZ && FixedOffset() <= ieLength <= MAX_IE_SZ
      && ies[FixedOffset()..ieLength] == Encode(es)
    }

    /** `rtw_bss_ex_del_p2p_attr` and `rtw_bss_ex_del_wfd_attr`. */
    method DelAttr(kind: Kind, id: byte, ghost es: seq<Ie>)
      requires Holds(es) && AllEnd(kind, es, id)
      modifies this`ieLength, ies
      ensures Holds(Strip(kind, es, id))
      ensures var fixed := if probeReq then 0 else 12;
        && fixed <= ieLength && ies[..fixed] == old(ies[..fixed]) && ies[fixed..ieLength] == Encode(Strip(kind, es, id))
      ensures Stripped(kind, id, old(ies[..]), ies[..], FixedOffset(), ieLength, old(ieLength), es)
    {
      var fixed := FixedOffset();
      var pos: nat, end0: nat := fixed, ieLength;
      assert ies[..][fixed..end0] == ies[fixed..end0];
      hide Stripping, Encode, Strip, AllEnd, SeenAt;
      ghost var was, done, rest := ies[..], [], es;
      var more := true;
      StrippingStart(kind, id, was, Extent(fixed, pos, end0, end0), es);
      while more
        invariant Stripping(kind, id, was, ies[..], Extent(fixed, pos, ieLength, end0), es, done, rest)
        invariant !more ==> SeenAt(kind, rest, pos) == None
        decreases more, |rest|
      {
        more, pos, ieLength, done, rest :=
          StripTurn(ies, pos, ieLength, kind, id, was, Extent(fixed, pos, ieLength, end0), es, done, rest);
      }
      StrippingEnd(kind, id, was, ies[..], Extent(fixed, pos, ieLength, end0), es, done, rest);
    }
  }
}
