/** Searching, appending and removing elements in an octet buffer (rtw_ieee80211.c). */
module ElementSearch {
  import opened Bytes
  import opened Elements
  import opened Options

  /** Where an element was found, and its length as the caller is told it. */
  datatype Hit = Hit(pos: nat, len: nat)

  /** What `rtw_get_ie_ex` looks for; an empty `oui` stands for a null one. */
  datatype Pattern = Pattern(id: byte, oui: seq<byte>)
  {
    predicate Matches(e: Ie) {
      e.id == id && oui <= e.body
    }

    /** The octets at `pos` open a match, whatever length they declare for it. */
    predicate Opens(buf: seq<byte>, pos: nat) {
      pos + 2 + |oui| <= |buf| && buf[pos] == id && buf[pos + 2..pos + 2 + |oui|] == oui
    }
  }

  /** Index of the first match, or the number of elements. */
  function First(es: seq<Ie>, p: Pattern): (k: nat)
    ensures k <= |es|
  {
    if es == [] || p.Matches(es[0]) then 0 else 1 + First(es[1..], p)
  }

  lemma {:induction false} FirstMeaning(es: seq<Ie>, p: Pattern)
    ensures forall i :: 0 <= i < First(es, p) ==> !p.Matches(es[i])
    ensures First(es, p) < |es| ==> p.Matches(es[First(es, p)])
  {
    if es != [] && !p.Matches(es[0]) {
      FirstMeaning(es[1..], p);
      forall i | 0 <= i < First(es, p) ensures !p.Matches(es[i]) {
        assert i > 0 ==> es[i] == es[1..][i - 1];
      }
    }
  }

  /** What is left when every match is taken out. */
  function Without(es: seq<Ie>, p: Pattern): seq<Ie> {
    if es == [] then []
    else (if p.Matches(es[0]) then [] else [es[0]]) + Without(es[1..], p)
  }

  lemma {:induction false} WithoutMembers(es: seq<Ie>, p: Pattern)
    ensures forall e :: e in Without(es, p) <==> e in es && !p.Matches(e)
  {
    if es != [] {
      WithoutMembers(es[1..], p);
      assert es == [es[0]] + es[1..];
    }
  }

  lemma {:induction false} FirstIs(es: seq<Ie>, p: Pattern, k: nat)
    requires k <= |es| && forall i :: 0 <= i < k ==> !p.Matches(es[i])
    requires k < |es| ==> p.Matches(es[k])
    ensures First(es, p) == k
  {
    if k > 0 {
      FirstIs(es[1..], p, k - 1);
    }
  }

  lemma {:induction false} WithoutNone(es: seq<Ie>, p: Pattern)
    requires forall e :: e in es ==> !p.Matches(e)
    ensures Without(es, p) == es
  {
    if es != [] {
      WithoutNone(es[1..], p);
    }
  }

  lemma {:induction false} WithoutAppend(xs: seq<Ie>, ys: seq<Ie>, p: Pattern)
    ensures Without(xs + ys, p) == Without(xs, p) + Without(ys, p)
  {
    if xs == [] {
      assert xs + ys == ys;
    } else {
      var e := xs[0];
      WithoutAppend(xs[1..], ys, p);
      assert (xs + ys)[1..] == xs[1..] + ys;
      Assoc(if p.Matches(e) then [] else [e], Without(xs[1..], p), Without(ys, p));
    }
  }

  /** Dropping the first match does not change what removing all matches leaves. */
  lemma WithoutFirst(es: seq<Ie>, p: Pattern)
    requires First(es, p) < |es|
    ensures var k := First(es, p); Without(es, p) == es[..k] + Without(es[k + 1..], p)
  {
    var k := First(es, p);
    FirstMeaning(es, p);
    hide First, Without;
    WithoutNone(es[..k], p);
    WithoutAppend(es[..k], es[k..], p);
    Cut(es, k);
    WithoutHead(es[k..], p);
  }

  lemma WithoutHead(es: seq<Ie>, p: Pattern)
    requires es != [] && p.Matches(es[0])
    ensures Without(es, p) == Without(es[1..], p)
  {
  }

  /** `rtw_set_ie`: the length octet keeps only the low eight bits of the length. */
  method SetIe(a: array<byte>, pos: nat, index: int, source: seq<byte>, frlen: nat)
    returns (next: nat, frlen': nat)
    requires pos + 2 + |source| <= a.Length
    modifies a
    ensures next == pos + |source| + 2 && frlen' == frlen + |source| + 2
    ensures a[..pos] == old(a[..pos])
    ensures a[pos..next] == [index % 256, |source| % 256] + source
    ensures a[next..] == old(a[next..])
  {
    a[pos] := index % 256;
    a[pos + 1] := |source| % 256;
    if |source| > 0 {
      Memcpy(a, pos + 2, source);
    }
    frlen' := frlen + (|source| + 2);
    next := pos + |source| + 2;
  }

  /** Appending with `rtw_set_ie` after a stream gives a stream with one more element. */
  lemma SetIeExtends(es: seq<Ie>, index: byte, source: seq<byte>)
    requires |source| < 256
    ensures Encode(es) + ([index % 256, |source| % 256] + source) == Encode(es + [Ie(index, source)])
  {
    EncodeAppend(es, [Ie(index, source)]);
    EncodeOne(Ie(index, source));
  }

  /** The answer of a search that starts at `base`; `header` octets are added to the length. */
  function FoundAt(es: seq<Ie>, p: Pattern, base: nat, header: nat): Option<Hit> {
    var k := First(es, p);
    if k < |es| then Some(Hit(base + |Encode(es[..k])|, |es[k].body| + header)) else None
  }

  /** The answer names the first element with the id whose body begins with the OUI, and nothing if there is none. */
  lemma FoundIs(es: seq<Ie>, id: byte, oui: seq<byte>, base: nat, header: nat, k: nat)
    requires k <= |es| && forall i :: 0 <= i < k ==> !(es[i].id == id && oui <= es[i].body)
    requires k < |es| ==> es[k].id == id && oui <= es[k].body
    ensures k < |es| ==> FoundAt(es, Pattern(id, oui), base, header) == Some(Hit(base + |Encode(es[..k])|, |es[k].body| + header))
    ensures k == |es| ==> FoundAt(es, Pattern(id, oui), base, header) == None
  {
    FirstIs(es, Pattern(id, oui), k);
  }

  /** Whether an element is taken out depends on nothing but its id and the beginning of its body; the others keep their order. */
  lemma {:induction false} WithoutIs(es: seq<Ie>, id: byte, oui: seq<byte>, e: Ie)
    ensures Without(es + [e], Pattern(id, oui)) ==
      Without(es, Pattern(id, oui)) + if e.id == id && oui <= e.body then [] else [e]
  {
    WithoutAppend(es, [e], Pattern(id, oui));
  }

  /** A walk over the `limit` octets at `base` has passed `k` elements, in `i` octets. */
  ghost predicate Streaming(es: seq<Ie>, k: nat, buf: seq<byte>, base: nat, i: nat, limit: nat) {
    && i <= limit && base + limit <= |buf| && k <= |es| && i == |Encode(es[..k])|
    && buf[base + i..base + limit] == Encode(es[k..])
  }

  lemma StreamStart(es: seq<Ie>, buf: seq<byte>, base: nat, limit: nat)
    requires base + limit <= |buf| && buf[base..base + limit] == Encode(es)
    ensures Streaming(es, 0, buf, base, 0, limit)
  {
    assert es[0..] == es && es[..0] == [];
  }

  /** What the octets under the cursor say about the next element. */
  lemma StreamHere(es: seq<Ie>, k: nat, buf: seq<byte>, base: nat, i: nat, limit: nat)
    requires Streaming(es, k, buf, base, i, limit) && i < limit
    ensures k < |es| && i + 2 + |es[k].body| <= limit && base + limit <= |buf|
    ensures buf[base + i] == es[k].id && buf[base + i + 1] == |es[k].body|
    ensures buf[base + i + 2..base + i + 2 + |es[k].body|] == es[k].body
  {
    EncodeHead(es[k..]);
    Cut(es, k);
    Inside(buf, base + i, base + limit, 2, 2 + |es[k].body|);
  }

  /** The walk moves on behind the next element. */
  lemma StreamNext(es: seq<Ie>, k: nat, buf: seq<byte>, base: nat, i: nat, limit: nat)
    requires Streaming(es, k, buf, base, i, limit) && i < limit
    ensures k < |es| && Streaming(es, k + 1, buf, base, i + (|es[k].body| + 2), limit)
  {
    StreamHere(es, k, buf, base, i, limit);
    Cut(es, k);
    EncodeHead(es[k..]);
    EncodeNext(es, k);
    hide Encode;
    Inside(buf, base + i, base + limit, 2 + |es[k].body|, 2 + |es[k].body|);
  }

  /** A scan has passed `k` elements without a match. */
  ghost predicate Scanning(es: seq<Ie>, p: Pattern, k: nat, buf: seq<byte>, base: nat, i: nat, limit: nat) {
    Streaming(es, k, buf, base, i, limit) && First(es, p) == k + First(es[k..], p)
  }

  lemma ScanStart(es: seq<Ie>, p: Pattern, buf: seq<byte>, base: nat, limit: nat)
    requires base + limit <= |buf| && buf[base..base + limit] == Encode(es)
    ensures Scanning(es, p, 0, buf, base, 0, limit)
  {
    StreamStart(es, buf, base, limit);
    assert es[0..] == es;
  }

  /** What the octets under the cursor say about the next element. */
  lemma ScanHere(es: seq<Ie>, p: Pattern, k: nat, buf: seq<byte>, base: nat, i: nat, limit: nat)
    requires Scanning(es, p, k, buf, base, i, limit) && i < limit
    ensures k < |es| && i + 2 + |es[k].body| <= limit && base + limit <= |buf|
    ensures buf[base + i] == es[k].id && buf[base + i + 1] == |es[k].body|
    ensures buf[base + i + 2..base + i + 2 + |es[k].body|] == es[k].body
  {
    hide Streaming;
    StreamHere(es, k, buf, base, i, limit);
  }

  /** A match at the cursor ends the scan; anything else moves it on. */
  lemma ScanStep(es: seq<Ie>, p: Pattern, k: nat, buf: seq<byte>, base: nat, i: nat, limit: nat, header: nat)
    requires Scanning(es, p, k, buf, base, i, limit) && i < limit
    ensures k < |es| && i + 2 <= limit && base + limit <= |buf|
    ensures p.Matches(es[k]) ==>
      FoundAt(es, p, base, header) == Some(Hit(base + i, buf[base + i + 1] as int + header))
    ensures !p.Matches(es[k]) ==>
      Scanning(es, p, k + 1, buf, base, i + (buf[base + i + 1] as int + 2), limit)
  {
    StreamHere(es, k, buf, base, i, limit);
    StreamNext(es, k, buf, base, i, limit);
    Cut(es, k);
    hide Encode;
  }

  lemma ScanMiss(es: seq<Ie>, p: Pattern, k: nat, buf: seq<byte>, base: nat, i: nat, limit: nat, header: nat)
    requires Scanning(es, p, k, buf, base, i, limit) && i == limit
    ensures FoundAt(es, p, base, header) == None
  {
    assert Encode(es[k..]) == [];
  }

  /** `rtw_get_ie`: first element with the given id. */
  method GetIe(a: array<byte>, base: nat, index: byte, limit: int, ghost es: seq<Ie>)
    returns (hit: Option<Hit>)
    requires limit >= 1 ==> base + limit <= a.Length && a[base..base + limit] == Encode(es)
    ensures limit < 1 ==> hit == None
    ensures limit >= 1 ==> hit == FoundAt(es, Pattern(index, []), base, 0)
  {
    if limit < 1 {
      return None;
    }
    hide *;
    ghost var p, k := Pattern(index, []), 0;
    var i := 0;
    ScanStart(es, p, a[..], base, limit);
    while true
      invariant 0 <= i < limit && Scanning(es, p, k, a[..], base, i, limit)
      decreases limit - i
    {
      IdStep(es, index, k, a[..], base, i, limit);
      if a[base + i] == index {
        return Some(Hit(base + i, a[base + i + 1]));
      }
      i := i + (a[base + i + 1] as int + 2);
      k := k + 1;
      if i >= limit {
        break;
      }
    }
    ScanMiss(es, p, k, a[..], base, i, limit, 0);
    return None;
  }

  lemma IdStep(es: seq<Ie>, index: byte, k: nat, buf: seq<byte>, base: nat, i: nat, limit: nat)
    requires Scanning(es, Pattern(index, []), k, buf, base, i, limit) && i < limit
    ensures i + 2 <= limit && base + limit <= |buf|
    ensures var p, n := Pattern(index, []), buf[base + i + 1] as int;
      if buf[base + i] == index then FoundAt(es, p, base, 0) == Some(Hit(base + i, n))
      else i + (n + 2) <= limit && Scanning(es, p, k + 1, buf, base, i + (n + 2), limit)
  {
    ScanHere(es, Pattern(index, []), k, buf, base, i, limit);
    ScanStep(es, Pattern(index, []), k, buf, base, i, limit, 0);
  }

  // ----- Search by octets -----

  /** The octets of the elements and those behind them open a match. */
  predicate Opening(es: seq<Ie>, p: Pattern, tail: seq<byte>) {
    p.Opens(Encode(es) + tail, 0)
  }

  /**
   * Index of the first element whose octets, and if it is short those behind it, open a match; the number of elements
   * if there is none. `tail` is what lies behind the elements.
   */
  function Sight(es: seq<Ie>, p: Pattern, tail: seq<byte>): (k: nat)
    ensures k <= |es|
  {
    if es == [] || Opening(es, p, tail) then 0 else 1 + Sight(es[1..], p, tail)
  }

  lemma {:induction false} SightMeaning(es: seq<Ie>, p: Pattern, tail: seq<byte>)
    ensures forall i :: 0 <= i < Sight(es, p, tail) ==> !Opening(es[i..], p, tail)
    ensures Sight(es, p, tail) < |es| ==> Opening(es[Sight(es, p, tail)..], p, tail)
  {
    assert es[0..] == es;
    if es != [] && !Opening(es, p, tail) {
      hide Opening;
      SightMeaning(es[1..], p, tail);
      assert es[1..][Sight(es[1..], p, tail)..] == es[Sight(es, p, tail)..];
      forall i | 0 <= i < Sight(es, p, tail) ensures !Opening(es[i..], p, tail) {
        assert i > 0 ==> es[i..] == es[1..][i - 1..];
      }
    }
  }

  /** A match opens as one; what opens as one without being a match is too short for the OUI. */
  lemma OpeningMatches(es: seq<Ie>, p: Pattern, tail: seq<byte>)
    requires es != []
    ensures p.Matches(es[0]) <==> Opening(es, p, tail) && |es[0].body| >= |p.oui|
  {
    EncodeHead(es);
    var b, body := Encode(es), es[0].body;
    hide Encode;
    assert forall i :: 0 <= i < |b| ==> (b + tail)[i] == b[i];
    if |body| >= |p.oui| {
      assert (b + tail)[2..2 + |p.oui|] == b[2..2 + |p.oui|];
      Inside(b, 2, 2 + |body|, 0, |p.oui|);
    }
  }

  /** The search by octets finds the first match exactly if nothing before it opens like one. */
  lemma SightIsFirstIff(es: seq<Ie>, p: Pattern, tail: seq<byte>)
    ensures Sight(es, p, tail) <= First(es, p)
    ensures Sight(es, p, tail) == First(es, p) <==>
      forall i :: 0 <= i < First(es, p) ==> !Opening(es[i..], p, tail)
  {
    var s, f := Sight(es, p, tail), First(es, p);
    SightMeaning(es, p, tail);
    FirstMeaning(es, p);
    hide Opening, Sight, First;
    if f < |es| {
      OpeningMatches(es[f..], p, tail);
      assert es[f..][0] == es[f];
    }
  }

  /** Three octets of a P2P element cut short, then an element with id 9: the search takes the first for a match. */
  lemma SightTooSoon()
    ensures var es: seq<Ie>, p := [Ie(VENDOR_SPECIFIC, [0x50, 0x6F, 0x9A]), Ie(9, [])], Pattern(VENDOR_SPECIFIC, [0x50, 0x6F, 0x9A, 9]);
      Sight(es, p, []) == 0 && First(es, p) == 2
  {
    var es: seq<Ie>, p := [Ie(VENDOR_SPECIFIC, [0x50, 0x6F, 0x9A]), Ie(9, [])], Pattern(VENDOR_SPECIFIC, [0x50, 0x6F, 0x9A, 9]);
    EncodeOne(es[1]);
    EncodeCons(es[0], [es[1]]);
    assert es == [es[0]] + [es[1]] && Encode(es) + [] == [221, 3, 0x50, 0x6F, 0x9A, 9, 0];
    FirstIs(es, p, 2);
  }

  /** Where the search by octets ends up; the length counts the header. */
  function SightAt(es: seq<Ie>, p: Pattern, tail: seq<byte>, base: nat): Option<Hit> {
    var k := Sight(es, p, tail);
    if k < |es| then Some(Hit(base + |Encode(es[..k])|, |es[k].body| + 2)) else None
  }

  /** No comparison that the search comes to reads beyond what lies behind the elements. */
  predicate Readable(es: seq<Ie>, p: Pattern, tail: seq<byte>) {
    forall k :: 0 <= k < Sight(es, p, tail) && es[k].id == p.id ==> 2 + |p.oui| <= |Encode(es[k..])| + |tail|
  }

  /** A search by octets has passed `k` elements. */
  ghost predicate Sighting(es: seq<Ie>, p: Pattern, k: nat, buf: seq<byte>, base: nat, i: nat, limit: nat) {
    && Streaming(es, k, buf, base, i, limit)
    && Sight(es, p, buf[base + limit..]) == k + Sight(es[k..], p, buf[base + limit..])
  }

  lemma SightStart(es: seq<Ie>, p: Pattern, buf: seq<byte>, base: nat, limit: nat)
    requires base + limit <= |buf| && buf[base..base + limit] == Encode(es)
    ensures Sighting(es, p, 0, buf, base, 0, limit)
  {
    StreamStart(es, buf, base, limit);
    assert es[0..] == es;
  }

  /** The test on the octets under the cursor is the test on the octet form of what is left. */
  lemma OpensHere(es: seq<Ie>, p: Pattern, k: nat, buf: seq<byte>, base: nat, i: nat, limit: nat)
    requires Streaming(es, k, buf, base, i, limit)
    ensures base + limit <= |buf| && k <= |es| && |Encode(es[k..])| == limit - i
    ensures p.Opens(buf, base + i) == Opening(es[k..], p, buf[base + limit..])
  {
    hide Encode;
    Joined(buf, base + i, base + limit, |buf|);
    assert buf[base + i..|buf|] == buf[base + i..] && buf[base + limit..|buf|] == buf[base + limit..];
    var b := Encode(es[k..]) + buf[base + limit..];
    assert b == buf[base + i..];
    if base + i + 2 + |p.oui| <= |buf| {
      Inside(buf, base + i, |buf|, 2, 2 + |p.oui|);
    }
  }

  /** One more element: it is the one in sight, or the search goes on behind it. */
  lemma SightTurn(es: seq<Ie>, p: Pattern, tail: seq<byte>, k: nat)
    requires k < |es| && Sight(es, p, tail) == k + Sight(es[k..], p, tail)
    ensures if Opening(es[k..], p, tail) then Sight(es, p, tail) == k
            else Sight(es, p, tail) == k + 1 + Sight(es[k + 1..], p, tail)
  {
    Cut(es, k);
    hide Opening;
  }

  lemma SightStep(es: seq<Ie>, p: Pattern, k: nat, buf: seq<byte>, base: nat, i: nat, limit: nat)
    requires Sighting(es, p, k, buf, base, i, limit) && i < limit
    requires base + limit <= |buf| ==> Readable(es, p, buf[base + limit..])
    ensures i + 2 <= limit && base + limit <= |buf|
    ensures buf[base + i] == p.id ==> base + i + 2 + |p.oui| <= |buf|
    ensures var n := buf[base + i + 1] as int + 2;
      if buf[base + i] == p.id && buf[base + i + 2..base + i + 2 + |p.oui|] == p.oui then
        SightAt(es, p, buf[base + limit..], base) == Some(Hit(base + i, n))
      else i + n <= limit && Sighting(es, p, k + 1, buf, base, i + n, limit)
  {
    hide *;
    SightingIs(es, p, k, buf, base, i, limit);
    var tail := buf[base + limit..];
    StreamHere(es, k, buf, base, i, limit);
    StreamNext(es, k, buf, base, i, limit);
    OpensHere(es, p, k, buf, base, i, limit);
    SightTurn(es, p, tail, k);
    OpensIs(p, buf, base + i);
    if Opening(es[k..], p, tail) {
      SightFound(es, p, k, buf, base, i, limit);
    } else {
      SightOn(es, p, k, buf, base, i, limit);
      NextReadable(es, p, k, tail);
    }
  }

  /** The driver's test, and the octets it reads. */
  lemma OpensIs(p: Pattern, buf: seq<byte>, pos: nat)
    requires pos < |buf|
    ensures p.Opens(buf, pos) <==>
      pos + 2 + |p.oui| <= |buf| && buf[pos] == p.id && buf[pos + 2..pos + 2 + |p.oui|] == p.oui
  {
  }

  lemma SightingIs(es: seq<Ie>, p: Pattern, k: nat, buf: seq<byte>, base: nat, i: nat, limit: nat)
    requires Sighting(es, p, k, buf, base, i, limit)
    ensures Streaming(es, k, buf, base, i, limit) && base + limit <= |buf| && k <= |es|
    ensures Sight(es, p, buf[base + limit..]) == k + Sight(es[k..], p, buf[base + limit..])
  {
  }

  lemma SightFound(es: seq<Ie>, p: Pattern, k: nat, buf: seq<byte>, base: nat, i: nat, limit: nat)
    requires Streaming(es, k, buf, base, i, limit) && i < limit && base + limit <= |buf| && k < |es|
    requires Sight(es, p, buf[base + limit..]) == k
    ensures SightAt(es, p, buf[base + limit..], base) == Some(Hit(base + i, |es[k].body| + 2))
  {
    hide Encode, Sight;
  }

  lemma SightOn(es: seq<Ie>, p: Pattern, k: nat, buf: seq<byte>, base: nat, i: nat, limit: nat)
    requires Sighting(es, p, k, buf, base, i, limit) && i < limit && base + limit <= |buf| && k < |es|
    requires Sight(es, p, buf[base + limit..]) == k + 1 + Sight(es[k + 1..], p, buf[base + limit..])
    requires Streaming(es, k + 1, buf, base, i + (|es[k].body| + 2), limit) && |Encode(es[k..])| == limit - i
    ensures Sighting(es, p, k + 1, buf, base, i + (|es[k].body| + 2), limit)
  {
    hide Encode, Sight, Streaming;
  }

  lemma NextReadable(es: seq<Ie>, p: Pattern, k: nat, tail: seq<byte>)
    requires Readable(es, p, tail) && k < Sight(es, p, tail)
    ensures k < |es| && (es[k].id == p.id ==> 2 + |p.oui| <= |Encode(es[k..])| + |tail|)
  {
  }

  lemma StreamAt(es: seq<Ie>, k: nat, buf: seq<byte>, base: nat, i: nat, limit: nat)
    requires Streaming(es, k, buf, base, i, limit)
    ensures k <= |es| && i == |Encode(es[..k])|
  {
  }

  lemma SightMiss(es: seq<Ie>, p: Pattern, k: nat, buf: seq<byte>, base: nat, i: nat, limit: nat)
    requires Sighting(es, p, k, buf, base, i, limit) && i == limit
    ensures base + limit <= |buf| && SightAt(es, p, buf[base + limit..], base) == None
  {
    assert Encode(es[k..]) == [];
  }

  /** `rtw_get_ie_ex`: first element whose octets open with the given id and OUI; the length counts the header. */
  method GetIeEx(a: array<byte>, base: nat, limit: nat, p: Pattern, ghost es: seq<Ie>)
    returns (hit: Option<Hit>)
    requires base + limit <= a.Length && a[base..base + limit] == Encode(es)
    requires Readable(es, p, a[base + limit..])
    ensures hit == SightAt(es, p, a[base + limit..], base)
  {
    hide *;
    ghost var k := 0;
    var cnt := 0;
    ghost var buf := a[..];
    assert buf[base + limit..] == a[base + limit..];
    SightStart(es, p, buf, base, limit);
    while cnt < limit
      invariant 0 <= cnt <= limit && Sighting(es, p, k, buf, base, cnt, limit)
    {
      SightStep(es, p, k, buf, base, cnt, limit);
      if a[base + cnt] == p.id && a[base + cnt + 2..base + cnt + 2 + |p.oui|] == p.oui {
        return Some(Hit(base + cnt, a[base + cnt + 1] as int + 2));
      }
      cnt := cnt + (a[base + cnt + 1] as int + 2);
      k := k + 1;
    }
    SightMiss(es, p, k, buf, base, cnt, limit);
    return None;
  }

  // ----- Removal by octets -----

  /** What lies behind the other elements once the gap over the first one is closed: the move leaves its source there. */
  function Behind(es: seq<Ie>, tail: seq<byte>): seq<byte>
    requires es != []
  {
    var b := Encode(es);
    EncodeHead(es);
    b[|b| - |Octets(es[0])|..] + tail
  }

  /** What `rtw_ies_remove_ie` keeps of the elements, and what lies behind them in the end. */
  function Purged(es: seq<Ie>, p: Pattern, tail: seq<byte>): (r: (seq<Ie>, seq<byte>)) {
    if es == [] then ([], tail)
    else if Opening(es, p, tail) then Purged(es[1..], p, Behind(es, tail))
    else
      var r := Purged(es[1..], p, tail);
      ([es[0]] + r.0, r.1)
  }

  /** Whatever opens as a match when the removal comes to it is one. */
  predicate Honest(es: seq<Ie>, p: Pattern, tail: seq<byte>) {
    es == [] ||
    (if Opening(es, p, tail) then p.Matches(es[0]) && Honest(es[1..], p, Behind(es, tail))
     else Honest(es[1..], p, tail))
  }

  /** No comparison that the removal comes to reads beyond the buffer. */
  predicate AllReadable(es: seq<Ie>, p: Pattern, tail: seq<byte>) {
    es == [] ||
    (if Opening(es, p, tail) then AllReadable(es[1..], p, Behind(es, tail))
     else (es[0].id == p.id ==> 2 + |p.oui| <= |Encode(es)| + |tail|) && AllReadable(es[1..], p, tail))
  }

  /** With as many octets behind the elements as the OUI has, every comparison stays in the buffer. */
  lemma {:induction false} RoomEnough(es: seq<Ie>, p: Pattern, tail: seq<byte>)
    requires |tail| >= |p.oui|
    ensures AllReadable(es, p, tail) && Readable(es, p, tail)
  {
    forall k | 0 <= k < |es| ensures |Encode(es[k..])| >= 2 {
      EncodeHead(es[k..]);
    }
    if es != [] {
      EncodeHead(es);
      hide Opening, Sight, Encode;
      RoomEnough(es[1..], p, if Opening(es, p, tail) then Behind(es, tail) else tail);
    }
  }

  lemma {:induction false} PurgedShort(es: seq<Ie>, p: Pattern, tail: seq<byte>)
    ensures |Purged(es, p, tail).0| <= |Without(es, p)|
  {
    if es != [] {
      OpeningMatches(es, p, tail);
      PurgedShort(es[1..], p, if Opening(es, p, tail) then Behind(es, tail) else tail);
      hide Opening, Behind;
    }
  }

  /** The removal takes out the matches and nothing else exactly if nothing it comes to opens like one without being one. */
  lemma {:induction false} PurgedIff(es: seq<Ie>, p: Pattern, tail: seq<byte>)
    ensures Purged(es, p, tail).0 == Without(es, p) <==> Honest(es, p, tail)
  {
    if es != [] {
      OpeningMatches(es, p, tail);
      var rest := if Opening(es, p, tail) then Behind(es, tail) else tail;
      PurgedShort(es[1..], p, rest);
      PurgedIff(es[1..], p, rest);
      hide Opening, Behind;
      var x, y := Purged(es[1..], p, rest).0, Without(es[1..], p);
      assert [es[0]] + x == [es[0]] + y ==> x == ([es[0]] + x)[1..] == ([es[0]] + y)[1..] == y;
    }
  }

  /** That element is removed, although it is none that was asked for. */
  lemma PurgedWrongly()
    ensures var es: seq<Ie>, p := [Ie(VENDOR_SPECIFIC, [0x50, 0x6F, 0x9A]), Ie(9, [])], Pattern(VENDOR_SPECIFIC, [0x50, 0x6F, 0x9A, 9]);
      Without(es, p) == es && Purged(es, p, []).0 != es
  {
    var es: seq<Ie>, p := [Ie(VENDOR_SPECIFIC, [0x50, 0x6F, 0x9A]), Ie(9, [])], Pattern(VENDOR_SPECIFIC, [0x50, 0x6F, 0x9A, 9]);
    SightTooSoon();
    WithoutNone(es, p);
    assert Opening(es, p, []) && !p.Matches(es[0]);
    hide Opening, Behind, Without, Purged;
    PurgedIff(es, p, []);
  }

  /** Elements none of which is too short for the OUI or the beginning of it: only matches open like one. */
  lemma {:induction false} HonestLong(es: seq<Ie>, p: Pattern, tail: seq<byte>)
    requires forall e :: e in es && e.id == p.id ==> |p.oui| <= |e.body| || !(e.body <= p.oui)
    ensures Honest(es, p, tail)
  {
    if es != [] {
      OpeningMatches(es, p, tail);
      assert es[0] in es;
      if Opening(es, p, tail) && |es[0].body| < |p.oui| {
        OpeningBegins(es, p, tail);
      }
      HonestLong(es[1..], p, if Opening(es, p, tail) then Behind(es, tail) else tail);
    }
  }

  lemma OpeningBegins(es: seq<Ie>, p: Pattern, tail: seq<byte>)
    requires es != [] && Opening(es, p, tail) && |es[0].body| < |p.oui|
    ensures es[0].id == p.id && es[0].body <= p.oui
  {
    EncodeHead(es);
    var b, n := Encode(es), |es[0].body|;
    hide Encode;
    assert (b + tail)[2..2 + n] == b[2..2 + n] && (b + tail)[0] == b[0];
    Inside(b + tail, 2, 2 + |p.oui|, 0, n);
  }

  /** The functions of a removal, one element in front. */
  lemma PurgedCons(es: seq<Ie>, p: Pattern, tail: seq<byte>)
    requires es != []
    ensures Opening(es, p, tail) ==>
      && Sight(es, p, tail) == 0 && AllReadable(es, p, tail) == AllReadable(es[1..], p, Behind(es, tail))
      && Purged(es, p, tail) == Purged(es[1..], p, Behind(es, tail))
    ensures !Opening(es, p, tail) ==>
      && Sight(es, p, tail) == 1 + Sight(es[1..], p, tail)
      && (AllReadable(es, p, tail) ==> AllReadable(es[1..], p, tail) && (es[0].id == p.id ==> 2 + |p.oui| <= |Encode(es)| + |tail|))
      && Purged(es, p, tail) == ([es[0]] + Purged(es[1..], p, tail).0, Purged(es[1..], p, tail).1)
  {
    hide Opening, Behind, Encode;
  }

  lemma PurgedNone(p: Pattern, tail: seq<byte>)
    ensures Sight([], p, tail) == 0 && Purged([], p, tail) == ([], tail) && Readable([], p, tail)
  {
  }

  /** A removal that reads inside the buffer begins with a search that does. */
  lemma {:induction false} SearchReadable(es: seq<Ie>, p: Pattern, tail: seq<byte>)
    requires AllReadable(es, p, tail)
    ensures Readable(es, p, tail)
  {
    if es != [] {
      PurgedCons(es, p, tail);
      if !Opening(es, p, tail) {
        SearchReadable(es[1..], p, tail);
        hide Opening, Behind, Encode, Sight, AllReadable, Purged;
        assert forall i :: 0 < i < |es| ==> es[i..] == es[1..][i - 1..] && es[i] == es[1..][i - 1];
        assert es[0..] == es;
      }
    }
  }

  /** The removal up to and with the first element in sight. */
  lemma {:induction false} PurgedOn(es: seq<Ie>, p: Pattern, tail: seq<byte>)
    requires AllReadable(es, p, tail)
    ensures var k := Sight(es, p, tail);
      if k == |es| then Purged(es, p, tail) == (es, tail)
      else
        && AllReadable(es[k + 1..], p, Behind(es[k..], tail))
        && var r := Purged(es[k + 1..], p, Behind(es[k..], tail));
           Purged(es, p, tail) == (es[..k] + r.0, r.1)
  {
    hide *;
    if es == [] {
      PurgedNone(p, tail);
    } else {
      PurgedCons(es, p, tail);
      var k := Sight(es, p, tail);
      if k == 0 {
        assert es[0..] == es && es[..0] == [];
        assert [] + Purged(es[1..], p, Behind(es, tail)).0 == Purged(es[1..], p, Behind(es, tail)).0;
      } else {
        PurgedOn(es[1..], p, tail);
        Uncons(es);
        if k < |es| {
          assert es[1..][k..] == es[k + 1..] && es[1..][k - 1..] == es[k..] && es[..k] == [es[0]] + es[1..][..k - 1];
          Assoc([es[0]], es[1..][..k - 1], Purged(es[k + 1..], p, Behind(es[k..], tail)).0);
        }
      }
    }
  }

  /** Bounds of a removal under way: `[offset, start)` is done, `[start, end)` still to be searched. */
  datatype Span = Span(offset: nat, start: nat, end: nat)

  /** Removal has kept `kept`, still has `rest` to look at, and has `tail` behind that. */
  ghost predicate Removing(front: seq<byte>, now: seq<byte>, s: Span, all: (seq<Ie>, seq<byte>), p: Pattern,
                           kept: seq<Ie>, rest: seq<Ie>, tail: seq<byte>)
  {
    && s.offset == |front| && s.start == s.offset + |Encode(kept)| && s.end == s.start + |Encode(rest)|
    && now == front + Encode(kept) + Encode(rest) + tail
    && AllReadable(rest, p, tail)
    && var r := Purged(rest, p, tail);
       all == (kept + r.0, r.1)
  }

  lemma RemovingStart(was: seq<byte>, offset: nat, end: nat, es: seq<Ie>, p: Pattern)
    requires offset <= end <= |was| && was[offset..end] == Encode(es) && AllReadable(es, p, was[end..])
    ensures Removing(was[..offset], was, Span(offset, offset, end), Purged(es, p, was[end..]), p, [], es, was[end..])
  {
    hide Purged, AllReadable;
    assert Encode([]) == [];
    hide Encode;
    Joined(was, 0, offset, end);
    assert was[..offset] + [] == was[..offset];
    assert was == was[..end] + was[end..];
    var r := Purged(es, p, was[end..]);
    assert [] + r.0 == r.0;
  }

  /** What the search in the remaining region is given. */
  lemma RemovingRegion(front: seq<byte>, now: seq<byte>, s: Span, all: (seq<Ie>, seq<byte>), p: Pattern,
                       kept: seq<Ie>, rest: seq<Ie>, tail: seq<byte>)
    requires Removing(front, now, s, all, p, kept, rest, tail)
    ensures s.start <= s.end <= |now| && now[s.start..s.end] == Encode(rest) && now[s.end..] == tail
    ensures Readable(rest, p, tail)
  {
    SearchReadable(rest, p, tail);
    hide Purged, AllReadable, Readable, Encode;
    Parts(front + Encode(kept), Encode(rest), tail);
  }

  lemma RemovingEnd(front: seq<byte>, now: seq<byte>, s: Span, all: (seq<Ie>, seq<byte>), p: Pattern,
                    kept: seq<Ie>, rest: seq<Ie>, tail: seq<byte>)
    requires Removing(front, now, s, all, p, kept, rest, tail) && SightAt(rest, p, tail, s.start) == None
    ensures s.end == s.offset + |Encode(all.0)| && now == front + (Encode(all.0) + all.1)
    ensures all == (kept + rest, tail)
  {
    PurgedOn(rest, p, tail);
    hide Encode, Purged, AllReadable, Sight;
    EncodeAppend(kept, rest);
    Assoc(front, Encode(kept), Encode(rest));
    Assoc(front, Encode(kept) + Encode(rest), tail);
  }

  /** Closing the gap over `y` by moving `z` onto it leaves the end of both behind. */
  lemma Closing(x: seq<byte>, y: seq<byte>, z: seq<byte>, w: seq<byte>, next: seq<byte>)
    requires |next| == |x| + |y| + |z| + |w|
    requires var now := x + (y + z) + w;
      && next[..|x|] == now[..|x|] && next[|x|..|x| + |z|] == now[|x| + |y|..|x| + |y| + |z|]
      && next[|x| + |z|..] == now[|x| + |z|..]
    ensures next == x + z + ((y + z)[|z|..] + w)
  {
    var now := x + (y + z) + w;
    assert now[|x| + |y|..|x| + |y| + |z|] == z;
    assert now[|x| + |z|..] == (y + z)[|z|..] + w;
    assert next == next[..|x|] + next[|x|..|x| + |z|] + next[|x| + |z|..];
  }

  lemma RemovingStep(front: seq<byte>, now: seq<byte>, next: seq<byte>, s: Span, all: (seq<Ie>, seq<byte>), p: Pattern,
                     kept: seq<Ie>, rest: seq<Ie>, tail: seq<byte>, hit: Hit)
    returns (kept': seq<Ie>, rest': seq<Ie>, tail': seq<byte>)
    requires Removing(front, now, s, all, p, kept, rest, tail) && SightAt(rest, p, tail, s.start) == Some(hit)
    requires |next| == |now| && s.start <= hit.pos && hit.pos + hit.len <= s.end <= |now|
    requires var target, n := hit.pos, s.end - hit.pos - hit.len;
      && next[..target] == now[..target] && next[target..target + n] == now[hit.pos + hit.len..s.end]
      && next[target + n..] == now[target + n..]
    ensures |rest'| < |rest| && |kept'| + |rest'| < |kept| + |rest|
    ensures Removing(front, next, Span(s.offset, hit.pos, s.end - hit.len), all, p, kept', rest', tail')
  {
    hide *;
    RemovingIs(front, now, s, all, p, kept, rest, tail);
    PurgedOn(rest, p, tail);
    SightIs(rest, p, tail, s.start, hit);
    var k := Sight(rest, p, tail);
    kept', rest', tail' := kept + rest[..k], rest[k + 1..], Behind(rest[k..], tail);
    RestPieces(kept, rest, k);
    BehindIs(rest, k, tail);
    var x, y, z := front + Encode(kept'), Octets(rest[k]), Encode(rest');
    Regroup(front, Encode(kept), Encode(rest[..k]), y + z);
    Closing(x, y, z, tail, next);
    Assoc(kept, rest[..k], Purged(rest', p, tail').0);
    RemovingBy(front, next, Span(s.offset, hit.pos, s.end - hit.len), all, p, kept', rest', tail');
  }

  lemma Regroup(a: seq<byte>, b: seq<byte>, c: seq<byte>, d: seq<byte>)
    ensures a + b + (c + d) == (a + (b + c)) + d
  {
  }

  lemma SightIs(es: seq<Ie>, p: Pattern, tail: seq<byte>, base: nat, hit: Hit)
    requires SightAt(es, p, tail, base) == Some(hit)
    ensures var k := Sight(es, p, tail);
      k < |es| && hit.pos == base + |Encode(es[..k])| && hit.len == |Octets(es[k])|
  {
  }

  lemma BehindIs(es: seq<Ie>, k: nat, tail: seq<byte>)
    requires k < |es|
    ensures var y, z := Octets(es[k]), Encode(es[k + 1..]); Behind(es[k..], tail) == (y + z)[|z|..] + tail
  {
    RestPieces([], es, k);
    hide Encode, Octets;
  }

  /** The state of a removal, in its parts. */
  lemma RemovingIs(front: seq<byte>, now: seq<byte>, s: Span, all: (seq<Ie>, seq<byte>), p: Pattern,
                   kept: seq<Ie>, rest: seq<Ie>, tail: seq<byte>)
    requires Removing(front, now, s, all, p, kept, rest, tail)
    ensures s.offset == |front| && s.start == s.offset + |Encode(kept)| && s.end == s.start + |Encode(rest)|
    ensures now == front + Encode(kept) + Encode(rest) + tail && AllReadable(rest, p, tail)
    ensures all == (kept + Purged(rest, p, tail).0, Purged(rest, p, tail).1)
  {
  }

  lemma RemovingBy(front: seq<byte>, now: seq<byte>, s: Span, all: (seq<Ie>, seq<byte>), p: Pattern,
                   kept: seq<Ie>, rest: seq<Ie>, tail: seq<byte>)
    requires s.offset == |front| && s.start == s.offset + |Encode(kept)| && s.end == s.start + |Encode(rest)|
    requires now == front + Encode(kept) + Encode(rest) + tail && AllReadable(rest, p, tail)
    requires all == (kept + Purged(rest, p, tail).0, Purged(rest, p, tail).1)
    ensures Removing(front, now, s, all, p, kept, rest, tail)
  {
  }

  /** The octets of the kept elements and of the rest, cut around element `k` of the rest. */
  lemma RestPieces(kept: seq<Ie>, rest: seq<Ie>, k: nat)
    requires k < |rest|
    ensures Encode(kept + rest[..k]) == Encode(kept) + Encode(rest[..k])
    ensures Encode(rest) == Encode(rest[..k]) + (Octets(rest[k]) + Encode(rest[k + 1..]))
    ensures Encode(rest[k..]) == Octets(rest[k]) + Encode(rest[k + 1..]) && rest[k..][0] == rest[k]
  {
    hide *;
    EncodeAppend(kept, rest[..k]);
    EncodeCut(rest, k);
    Cut(rest, k);
    EncodeHead(rest[k..]);
    Cut(Encode(rest[k..]), 2 + |rest[k].body|);
  }

  /** What a search finds in the region lies inside it. */
  lemma SightBounds(es: seq<Ie>, p: Pattern, tail: seq<byte>, base: nat)
    ensures match SightAt(es, p, tail, base)
      case None => true
      case Some(h) => base <= h.pos && 2 <= h.len && h.pos + h.len <= base + |Encode(es)|
  {
    hide Encode, Sight;
    var k := Sight(es, p, tail);
    if k < |es| {
      EncodeNext(es, k);
      EncodeCut(es, k + 1);
    }
  }

  /** One turn of the removal: close the gap over the first element in sight, if there is one. */
  method RemoveTurn(a: array<byte>, start: nat, searchLen: nat, p: Pattern, ghost front: seq<byte>, ghost s: Span,
                    ghost all: (seq<Ie>, seq<byte>), ghost kept: seq<Ie>, ghost rest: seq<Ie>, ghost tail: seq<byte>)
    returns (hit: Option<Hit>, start': nat, searchLen': nat, ghost kept': seq<Ie>, ghost rest': seq<Ie>, ghost tail': seq<byte>)
    requires s.start == start && s.end == start + searchLen && Removing(front, a[..], s, all, p, kept, rest, tail)
    modifies a
    ensures hit == None ==> kept' == kept && rest' == rest && tail' == tail && start' == start && searchLen' == searchLen
    ensures hit == None ==> SightAt(rest, p, tail, start) == None && a[..] == old(a[..])
    ensures hit != None ==> |rest'| < |rest| && |kept'| + |rest'| < |kept| + |rest|
    ensures hit != None ==> start' + searchLen' + hit.value.len == start + searchLen
    ensures Removing(front, a[..], Span(s.offset, start', start' + searchLen'), all, p, kept', rest', tail')
  {
    hide *;
    start', searchLen', kept', rest', tail' := start, searchLen, kept, rest, tail;
    RemovingRegion(front, a[..], s, all, p, kept, rest, tail);
    SightBounds(rest, p, tail, start);
    hit := GetIeEx(a, start, searchLen, p, rest);
    if hit != None {
      var target, remain := hit.value.pos, hit.value.pos + hit.value.len;
      var remainLen: nat := searchLen - (remain - start);
      ghost var now := a[..];
      Memmove(a, target, remain, remainLen);
      kept', rest', tail' := RemovingStep(front, now, a[..], s, all, p, kept, rest, tail, hit.value);
      start', searchLen' := target, remainLen;
    }
  }

  /** `rtw_ies_remove_ie`: remove every element in sight behind `offset`, closing the gaps in place. */
  method RemoveIe(a: array<byte>, iesLen: nat, offset: nat, p: Pattern, ghost es: seq<Ie>)
    returns (ok: bool, iesLen': nat)
    requires iesLen <= a.Length
    requires offset < iesLen ==> a[offset..iesLen] == Encode(es) && AllReadable(es, p, a[iesLen..])
    modifies a
    ensures iesLen <= offset ==> !ok && iesLen' == iesLen && a[..] == old(a[..])
    ensures offset < iesLen ==>
      var r := Purged(es, p, old(a[iesLen..]));
      && iesLen' == offset + |Encode(r.0)| && a[offset..] == Encode(r.0) + r.1
      && (ok <==> r.0 != es)
      && a[..offset] == old(a[..offset])
  {
    hide *;
    ok, iesLen' := false, iesLen;
    if iesLen <= offset {
      return;
    }
    var start: nat := offset;
    var searchLen: nat := iesLen - offset;
    ghost var was, kept, rest, tail := a[..], [], es, a[iesLen..];
    ghost var front, all := was[..offset], Purged(es, p, tail);
    var hit := Some(Hit(offset, 0));
    RemovingStart(was, offset, iesLen, es, p);
    while hit != None
      invariant iesLen' == start + searchLen
      invariant Removing(front, a[..], Span(offset, start, iesLen'), all, p, kept, rest, tail)
      invariant hit == None ==> SightAt(rest, p, tail, start) == None
      invariant if ok then |kept| + |rest| < |es| else kept == [] && rest == es
      decreases hit != None, |rest|
    {
      hit, start, searchLen, kept, rest, tail :=
        RemoveTurn(a, start, searchLen, p, front, Span(offset, start, iesLen'), all, kept, rest, tail);
      if hit != None {
        iesLen', ok := iesLen' - hit.value.len, true;
      }
    }
    RemovingEnd(front, a[..], Span(offset, start, iesLen'), all, p, kept, rest, tail);
    assert [] + rest == rest;
    Parts([], front, Encode(all.0) + all.1);
    assert a[..] == [] + front + (Encode(all.0) + all.1);
  }
}
