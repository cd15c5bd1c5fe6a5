/** Attribute deletion read as a filter on the list of attributes. */
module AttrLists {
  import opened Bytes
  import opened Elements
  import opened AttrWalk
  import opened ElementSearch
  import opened Options
  import opened BssAttrs

  /** Header and data have a length of sixteen bits. */
  type Data = b: seq<byte> | |b| + 3 < 0x1_0000

  datatype Attr = Attr(id: byte, data: Data)

  function AttrOctets(kind: Kind, a: Attr): (b: seq<byte>)
    ensures !AttrStuck(kind, b) && AttrSize(kind, b) == |b| && b[0] == a.id && b[3..] == a.data
  {
    [a.id] + (if kind.P2p? then PutLe16(|a.data|) else PutBe16(|a.data|)) + a.data
  }

  function EncodeAttrs(kind: Kind, xs: seq<Attr>): seq<byte> {
    if xs == [] then [] else AttrOctets(kind, xs[0]) + EncodeAttrs(kind, xs[1..])
  }

  /** The attributes at the head of `b`, and the octets behind them that form none. */
  function Attrs(kind: Kind, b: seq<byte>): (r: (seq<Attr>, seq<byte>))
    requires Walkable(kind, b)
    ensures EncodeAttrs(kind, r.0) + r.1 == b && AttrStuck(kind, r.1)
    decreases |b|
  {
    if AttrStuck(kind, b) then ([], b)
    else
      var n := AttrSize(kind, b);
      HeadOctetsAre(kind, b);
      var a, r := Attr(b[0], b[3..n]), Attrs(kind, b[n..]);
      assert ([a] + r.0)[1..] == r.0;
      Assoc(AttrOctets(kind, a), EncodeAttrs(kind, r.0), r.1);
      ([a] + r.0, r.1)
  }

  lemma HeadOctetsAre(kind: Kind, b: seq<byte>)
    requires !AttrStuck(kind, b) && Walkable(kind, b)
    ensures var n := AttrSize(kind, b); 3 <= n < 0x1_0000 && b[..n] == AttrOctets(kind, Attr(b[0], b[3..n])) && b[..n] + b[n..] == b
  {
    var n := AttrSize(kind, b);
    LengthOctets(kind, b);
    hide Walkable, AttrStuck, AttrSize;
    assert b[..n] == [b[0]] + [b[1], b[2]] + b[3..n];
    Cut(b, n);
  }

  lemma LengthOctets(kind: Kind, b: seq<byte>)
    requires !AttrStuck(kind, b) && Walkable(kind, b)
    ensures 3 <= AttrSize(kind, b) <= |b|
    ensures AttrSize(kind, b) - 3 < 0x1_0000 - 3
    ensures [b[1], b[2]] == if kind.P2p? then PutLe16(AttrSize(kind, b) - 3) else PutBe16(AttrSize(kind, b) - 3)
  {
  }

  function Keep(xs: seq<Attr>, id: byte): seq<Attr> {
    if xs == [] then [] else (if xs[0].id == id then [] else [xs[0]]) + Keep(xs[1..], id)
  }

  lemma {:induction false} KeepMembers(xs: seq<Attr>, id: byte)
    ensures forall x :: x in Keep(xs, id) <==> x in xs && x.id != id
  {
    if xs != [] {
      KeepMembers(xs[1..], id);
      Uncons(xs);
    }
  }

  /** Octets that form no attribute overflow no length. */
  lemma StuckWalkable(kind: Kind, b: seq<byte>)
    requires AttrStuck(kind, b)
    ensures Walkable(kind, b)
  {
  }

  /** One attribute in front: what the three walks over the octets do with it. */
  lemma Front(kind: Kind, a: Attr, rest: seq<byte>, id: byte)
    requires Walkable(kind, rest)
    ensures var o := AttrOctets(kind, a); var b := o + rest;
      && !AttrStuck(kind, b) && Walkable(kind, b) && Ends(kind, b, id) && Ends(kind, rest, id)
      && DelAttrs(kind, b, id) == (if a.id == id then [] else o) + DelAttrs(kind, rest, id)
      && FindAttr(kind, b, id) == if a.id == id then Some(Hit(0, |o|)) else Shift(FindAttr(kind, rest, id), |o|)
  {
    var o := AttrOctets(kind, a);
    assert o[..|o|] == o;
    HeadStays(kind, o, rest);
    hide AttrOctets, DelAttrs, FindAttr, Ends;
    OneWalkable(kind, a);
    DelCons(kind, o, rest, id);
    FindHead(kind, o + rest, id);
    WalkableEnds(kind, rest, id);
  }

  lemma OneWalkable(kind: Kind, a: Attr)
    ensures Walkable(kind, AttrOctets(kind, a))
  {
    var o := AttrOctets(kind, a);
    assert o[|o|..] == [];
  }

  /** Index of the first attribute with the id, or the number of attributes. */
  function Lead(xs: seq<Attr>, id: byte): (k: nat)
    ensures k <= |xs|
    ensures k < |xs| ==> xs[k].id == id
    ensures forall i :: 0 <= i < k ==> xs[i].id != id
  {
    if xs == [] || xs[0].id == id then 0 else 1 + Lead(xs[1..], id)
  }

  /** The list functions, one attribute in front. */
  lemma Cons(kind: Kind, a: Attr, xs: seq<Attr>, id: byte)
    ensures EncodeAttrs(kind, [a] + xs) == AttrOctets(kind, a) + EncodeAttrs(kind, xs)
    ensures Keep([a] + xs, id) == if a.id == id then Keep(xs, id) else [a] + Keep(xs, id)
    ensures Lead([a] + xs, id) == if a.id == id then 0 else 1 + Lead(xs, id)
  {
    assert ([a] + xs)[1..] == xs;
  }

  /** Deleting from the octets is filtering the list; what forms no attribute stays behind it. */
  lemma {:induction false} DelIsFilter(kind: Kind, xs: seq<Attr>, junk: seq<byte>, id: byte)
    requires AttrStuck(kind, junk)
    ensures Walkable(kind, EncodeAttrs(kind, xs) + junk)
    ensures DelAttrs(kind, EncodeAttrs(kind, xs) + junk, id) == EncodeAttrs(kind, Keep(xs, id)) + junk
  {
    if xs == [] {
      assert EncodeAttrs(kind, xs) + junk == junk;
      StuckWalkable(kind, junk);
    } else {
      hide *;
      var a, ys := xs[0], xs[1..];
      var o, more, kept := AttrOctets(kind, a), EncodeAttrs(kind, ys), Keep(ys, id);
      Uncons(xs);
      DelIsFilter(kind, ys, junk, id);
      Cons(kind, a, ys, id);
      Cons(kind, a, kept, id);
      Front(kind, a, more + junk, id);
      Assoc(o, more, junk);
      Assoc(o, EncodeAttrs(kind, kept), junk);
      assert [] + (EncodeAttrs(kind, kept) + junk) == EncodeAttrs(kind, kept) + junk;
    }
  }

  /** What the driver's deletion leaves is the list without the attributes of the id, and the octets behind it. */
  lemma PrunedIsKept(kind: Kind, xs: seq<Attr>, junk: seq<byte>, id: byte)
    requires AttrStuck(kind, junk)
    ensures PruneEnds(kind, EncodeAttrs(kind, xs) + junk, id)
    ensures Pruned(kind, EncodeAttrs(kind, xs) + junk, id) == EncodeAttrs(kind, Keep(xs, id)) + junk
  {
    hide *;
    DelIsFilter(kind, xs, junk, id);
    PrunedIsFilter(kind, EncodeAttrs(kind, xs) + junk, id);
  }

  /** The hit of a search shows the attribute `k` of the list. */
  ghost predicate Shows(kind: Kind, b: seq<byte>, f: Option<Hit>, xs: seq<Attr>, k: nat) {
    match f
    case None => k == |xs|
    case Some(h) => k < |xs| && h.pos + h.len <= |b| && b[h.pos..h.pos + h.len] == AttrOctets(kind, xs[k])
  }

  lemma ShowsLater(kind: Kind, o: seq<byte>, b: seq<byte>, f: Option<Hit>, a: Attr, xs: seq<Attr>, k: nat)
    requires Shows(kind, b, f, xs, k)
    ensures Shows(kind, o + b, Shift(f, |o|), [a] + xs, k + 1)
  {
    if f != None {
      var h := f.value;
      hide AttrOctets;
      assert (o + b)[h.pos + |o|..h.pos + |o| + h.len] == b[h.pos..h.pos + h.len];
    }
  }

  /** Searching the octets is searching the list. */
  lemma {:induction false} FindIsSearch(kind: Kind, xs: seq<Attr>, junk: seq<byte>, id: byte)
    requires AttrStuck(kind, junk)
    ensures var b := EncodeAttrs(kind, xs) + junk;
      Walkable(kind, b) && Ends(kind, b, id) && Shows(kind, b, FindAttr(kind, b, id), xs, Lead(xs, id))
  {
    hide *;
    if xs == [] {
      ShowsNone(kind, junk, id);
    } else {
      var a, ys := xs[0], xs[1..];
      var o, rest := AttrOctets(kind, a), EncodeAttrs(kind, ys) + junk;
      Uncons(xs);
      Cons(kind, a, ys, id);
      FindIsSearch(kind, ys, junk, id);
      Front(kind, a, rest, id);
      Assoc(o, EncodeAttrs(kind, ys), junk);
      ShowsLater(kind, o, rest, FindAttr(kind, rest, id), a, ys, Lead(ys, id));
      ShowsFirst(kind, a, rest, ys);
    }
  }

  lemma ShowsNone(kind: Kind, junk: seq<byte>, id: byte)
    requires AttrStuck(kind, junk)
    ensures var b := EncodeAttrs(kind, []) + junk;
      Walkable(kind, b) && Ends(kind, b, id) && Shows(kind, b, FindAttr(kind, b, id), [], Lead([], id))
  {
    assert EncodeAttrs(kind, []) + junk == junk;
    StuckWalkable(kind, junk);
    FindHead(kind, junk, id);
  }

  lemma ShowsFirst(kind: Kind, a: Attr, rest: seq<byte>, xs: seq<Attr>)
    ensures var o := AttrOctets(kind, a); Shows(kind, o + rest, Some(Hit(0, |o|)), [a] + xs, 0)
  {
    var o := AttrOctets(kind, a);
    assert (o + rest)[..|o|] == o;
  }

  lemma {:induction false} LeadKept(xs: seq<Attr>, id: byte, other: byte)
    requires other != id
    ensures var ys := Keep(xs, id); var j, k := Lead(ys, other), Lead(xs, other);
      (j < |ys| <==> k < |xs|) && (k < |xs| ==> ys[j] == xs[k])
  {
    if xs == [] {
    } else {
      hide *;
      var a, ys := xs[0], xs[1..];
      Uncons(xs);
      Cons(P2p, a, ys, id);
      Cons(P2p, a, ys, other);
      Cons(P2p, a, Keep(ys, id), other);
      LeadKept(ys, id, other);
    }
  }

  /** After the deletion no search finds the id, and every other search finds the octets it found before. */
  lemma SearchAfterDelete(kind: Kind, b: seq<byte>, id: byte, other: byte)
    requires Walkable(kind, b)
    ensures var c := Pruned(kind, b, id);
      && Ends(kind, b, other) && Ends(kind, c, other)
      && var f, g := FindAttr(kind, b, other), FindAttr(kind, c, other);
         && (other == id ==> g == None)
         && (other != id ==> (f == None <==> g == None))
         && (other != id && f != None ==>
               c[g.value.pos..g.value.pos + g.value.len] == b[f.value.pos..f.value.pos + f.value.len])
  {
    var r := Attrs(kind, b);
    hide AttrOctets, EncodeAttrs, Lead, FindAttr, DelAttrs, AttrStuck, AttrSize, Walkable, Ends, Pruned, PruneEnds;
    PrunedIsKept(kind, r.0, r.1, id);
    FindIsSearch(kind, Keep(r.0, id), r.1, other);
    FindIsSearch(kind, r.0, r.1, other);
    KeepMembers(r.0, id);
    if other != id {
      LeadKept(r.0, id, other);
    }
  }

  /** An element of the family whose body is the octets of attributes keeps those with another id. */
  lemma StripOneKeeps(kind: Kind, xs: seq<Attr>, junk: seq<byte>, id: byte)
    requires AttrStuck(kind, junk) && 4 + |EncodeAttrs(kind, xs) + junk| < 256
    ensures |kind.oui + (EncodeAttrs(kind, Keep(xs, id)) + junk)| < 256
    ensures StripOne(kind, Ie(VENDOR_SPECIFIC, kind.oui + (EncodeAttrs(kind, xs) + junk)), id)
         == Ie(VENDOR_SPECIFIC, kind.oui + (EncodeAttrs(kind, Keep(xs, id)) + junk))
  {
    PrunedIsKept(kind, xs, junk, id);
    hide EncodeAttrs, Pruned, Keep;
    Parts(kind.oui, EncodeAttrs(kind, xs) + junk, []);
  }

  // ----- The two families, in octets -----

  /** P2P attributes have the length in front with its least octet first, WFD subelements with its greatest octet first. */
  lemma AttrOctetsAre(a: Attr)
    ensures AttrOctets(P2p, a) == [a.id, |a.data| % 256, |a.data| / 256] + a.data
    ensures AttrOctets(Wfd, a) == [a.id, |a.data| / 256, |a.data| % 256] + a.data
  {
  }

  /** Which elements the two deletions look into. */
  lemma FamiliesAre(e: Ie)
    ensures P2p.pattern.Matches(e) <==> e.id == 221 && [0x50, 0x6F, 0x9A, 0x09] <= e.body
    ensures Wfd.pattern.Matches(e) <==> e.id == 221 && [0x50, 0x6F, 0x9A, 0x0A] <= e.body
  {
  }

  /** The P2P deletion leaves alone every element that is none of P2P, those of WFD included, and the other way round. */
  lemma OtherFamilyStays(es: seq<Ie>, id: byte, i: nat)
    requires i < |es|
    ensures |Strip(P2p, es, id)| == |es| == |Strip(Wfd, es, id)|
    ensures !(es[i].id == 221 && [0x50, 0x6F, 0x9A, 0x09] <= es[i].body) ==> Strip(P2p, es, id)[i] == es[i]
    ensures !(es[i].id == 221 && [0x50, 0x6F, 0x9A, 0x0A] <= es[i].body) ==> Strip(Wfd, es, id)[i] == es[i]
  {
    StripAt(P2p, es, id);
    StripAt(Wfd, es, id);
    FamiliesAre(es[i]);
    hide Pattern.Matches, Pruned;
  }

  /** A P2P element behind the deletion: the attributes with another id in their order, and the octets that form none. */
  lemma P2pFiltered(es: seq<Ie>, id: byte, i: nat, xs: seq<Attr>, junk: seq<byte>)
    requires i < |es| && AttrStuck(P2p, junk) && 4 + |EncodeAttrs(P2p, xs) + junk| < 256
    requires es[i] == Ie(221, [0x50, 0x6F, 0x9A, 0x09] + (EncodeAttrs(P2p, xs) + junk))
    ensures |Strip(P2p, es, id)| == |es| && 4 + |EncodeAttrs(P2p, Keep(xs, id)) + junk| < 256
    ensures Strip(P2p, es, id)[i] == Ie(221, [0x50, 0x6F, 0x9A, 0x09] + (EncodeAttrs(P2p, Keep(xs, id)) + junk))
  {
    assert P2p.oui == [0x50, 0x6F, 0x9A, 0x09];
    StripAt(P2p, es, id);
    hide *;
    StripOneKeeps(P2p, xs, junk, id);
  }

  /** The same for a WFD element. */
  lemma WfdFiltered(es: seq<Ie>, id: byte, i: nat, xs: seq<Attr>, junk: seq<byte>)
    requires i < |es| && AttrStuck(Wfd, junk) && 4 + |EncodeAttrs(Wfd, xs) + junk| < 256
    requires es[i] == Ie(221, [0x50, 0x6F, 0x9A, 0x0A] + (EncodeAttrs(Wfd, xs) + junk))
    ensures |Strip(Wfd, es, id)| == |es| && 4 + |EncodeAttrs(Wfd, Keep(xs, id)) + junk| < 256
    ensures Strip(Wfd, es, id)[i] == Ie(221, [0x50, 0x6F, 0x9A, 0x0A] + (EncodeAttrs(Wfd, Keep(xs, id)) + junk))
  {
    assert Wfd.oui == [0x50, 0x6F, 0x9A, 0x0A];
    StripAt(Wfd, es, id);
    hide *;
    StripOneKeeps(Wfd, xs, junk, id);
  }

  /** Fewer than three octets form no attribute, and more do not if they declare more than there is. */
  lemma JunkIs(junk: seq<byte>)
    ensures |junk| < 3 ==> AttrStuck(P2p, junk) && AttrStuck(Wfd, junk)
    ensures |junk| >= 3 && 3 + junk[1] as int + 256 * junk[2] as int < 0x1_0000 ==>
      (AttrStuck(P2p, junk) <==> 3 + junk[1] as int + 256 * junk[2] as int > |junk|)
    ensures |junk| >= 3 && 3 + 256 * junk[1] as int + junk[2] as int < 0x1_0000 ==>
      (AttrStuck(Wfd, junk) <==> 3 + 256 * junk[1] as int + junk[2] as int > |junk|)
  {
  }

  /** Attribute 3 of one octet goes out of a P2P element, and stays in a WFD element. */
  lemma OneAttrGone()
    ensures Strip(P2p, [Ie(221, [0x50, 0x6F, 0x9A, 0x09, 3, 1, 0, 7])], 3) == [Ie(221, [0x50, 0x6F, 0x9A, 0x09])]
    ensures Strip(P2p, [Ie(221, [0x50, 0x6F, 0x9A, 0x0A, 3, 0, 1, 7])], 3) == [Ie(221, [0x50, 0x6F, 0x9A, 0x0A, 3, 0, 1, 7])]
  {
    hide *;
    var e: Ie, a := Ie(221, [0x50, 0x6F, 0x9A, 0x0A, 3, 0, 1, 7]), Attr(3, [7]);
    SampleList();
    JunkIs([]);
    var x: seq<byte>, y: seq<byte>, none: seq<byte> := [0x50, 0x6F, 0x9A, 0x09], [3, 1, 0, 7], [];
    assert x + (y + none) == [0x50, 0x6F, 0x9A, 0x09, 3, 1, 0, 7] && x + (none + none) == x;
    var es: seq<Ie> := [Ie(221, [0x50, 0x6F, 0x9A, 0x09, 3, 1, 0, 7])];
    P2pFiltered(es, 3, 0, [a], none);
    OtherFamilyStays([e], 3, 0);
    assert !(x <= e.body) by {
      assert e.body[3] != x[3];
    }
    Single(Strip(P2p, es, 3));
    assert Strip(P2p, es, 3) == [Ie(221, x)];
    Single(Strip(P2p, [e], 3));
  }

  lemma Single<T>(x: seq<T>)
    requires |x| == 1
    ensures x == [x[0]]
  {
  }

  lemma SampleList()
    ensures var a := Attr(3, [7]);
      EncodeAttrs(P2p, [a]) == [3, 1, 0, 7] && Keep([a], 3) == [] && EncodeAttrs(P2p, []) == []
  {
    var a := Attr(3, [7]);
    AttrOctetsAre(a);
    hide AttrOctets;
    assert [a][1..] == [];
  }
}
