/** The table parser of management-frame bodies, `rtw_ieee802_11_parse_elems`. */
module ElementParse {
  import opened Bytes
  import opened Elements
  import opened ElementSearch
  import opened Options

  /** The fields of `struct rtw_ieee802_11_elems`. */
  datatype Field = ById(id: byte) | Wpa | Wme | WmeTspec | Wps | VendorHtCap

  datatype ParseRes = ParseOk | ParseUnknown | ParseFailed

  const RECOGNISED: set<byte> :=
    {0, 1, 2, 3, 4, 5, 6, 16, 33, 36, 42, 45, 48, 50, 54, 55, 56, 61, 70, 191, 192, 199}

  const OUI_MICROSOFT: seq<byte> := [0x00, 0x50, 0xf2]
  const OUI_BROADCOM: seq<byte> := [0x00, 0x90, 0x4c]

  /** The field a vendor specific body belongs to. */
  function VendorField(body: seq<byte>): Option<Field> {
    if |body| < 4 then None
    else if body[..3] == OUI_MICROSOFT then
      if body[3] == 1 then Some(Wpa)
      else if body[3] == 2 then
        if |body| < 5 then None
        else if body[4] == 0 || body[4] == 1 then Some(Wme)
        else if body[4] == 2 then Some(WmeTspec)
        else None
      else if body[3] == 4 then Some(Wps)
      else None
    else if body[..3] == OUI_BROADCOM && body[3] == 0x33 then Some(VendorHtCap)
    else None
  }

  /** Which bodies belong to a field, by the octets with which they begin. */
  lemma VendorFieldIs(body: seq<byte>)
    ensures VendorField(body) == Some(Wpa) <==> [0x00, 0x50, 0xf2, 1] <= body
    ensures VendorField(body) == Some(Wme) <==> [0x00, 0x50, 0xf2, 2, 0] <= body || [0x00, 0x50, 0xf2, 2, 1] <= body
    ensures VendorField(body) == Some(WmeTspec) <==> [0x00, 0x50, 0xf2, 2, 2] <= body
    ensures VendorField(body) == Some(Wps) <==> [0x00, 0x50, 0xf2, 4] <= body
    ensures VendorField(body) == Some(VendorHtCap) <==> [0x00, 0x90, 0x4c, 0x33] <= body
    ensures VendorField(body) != None ==> VendorField(body).value in {Wpa, Wme, WmeTspec, Wps, VendorHtCap}
  {
    if |body| >= 4 {
      assert body[..4] == body[..3] + [body[3]];
    }
    if |body| >= 5 {
      assert body[..5] == body[..3] + [body[3], body[4]];
    }
  }

  function FieldOf(e: Ie): Option<Field> {
    if e.id == VENDOR_SPECIFIC then VendorField(e.body)
    else if e.id in RECOGNISED then Some(ById(e.id))
    else None
  }

  /** The table after the elements `es`, the first of which starts at `base`. */
  ghost function Table(es: seq<Ie>, base: nat): map<Field, Hit> {
    if es == [] then map[]
    else Enter(Table(es[..|es| - 1], base), es[|es| - 1], base + |Encode(es[..|es| - 1])|)
  }

  function Enter(t: map<Field, Hit>, e: Ie, pos: nat): map<Field, Hit> {
    match FieldOf(e)
    case Some(f) => t[f := Hit(pos + 2, |e.body|)]
    case None => t
  }

  ghost predicate AnyUnknown(es: seq<Ie>) {
    exists e :: e in es && FieldOf(e) == None
  }

  /** Index of the last element of a field, or -1. */
  function Last(es: seq<Ie>, f: Field): (i: int)
    ensures -1 <= i < |es|
  {
    if es == [] then -1
    else if FieldOf(es[|es| - 1]) == Some(f) then |es| - 1
    else Last(es[..|es| - 1], f)
  }

  lemma {:induction false} LastMeaning(es: seq<Ie>, f: Field)
    ensures Last(es, f) >= 0 ==> FieldOf(es[Last(es, f)]) == Some(f)
    ensures forall i :: Last(es, f) < i < |es| ==> FieldOf(es[i]) != Some(f)
  {
    if es != [] && FieldOf(es[|es| - 1]) != Some(f) {
      LastMeaning(es[..|es| - 1], f);
      forall i | Last(es, f) < i < |es| ensures FieldOf(es[i]) != Some(f) {
        assert i < |es| - 1 ==> es[i] == es[..|es| - 1][i];
      }
    }
  }

  /** A field is present iff some element belongs to it, and then it is the last such element. */
  lemma {:induction false} TableIsLast(es: seq<Ie>, base: nat, f: Field)
    ensures f in Table(es, base) <==> Last(es, f) >= 0
    ensures var i := Last(es, f);
      i >= 0 ==> Table(es, base)[f] == Hit(base + |Encode(es[..i])| + 2, |es[i].body|)
  {
    if es != [] {
      var n := |es| - 1;
      TableIsLast(es[..n], base, f);
      var i := Last(es[..n], f);
      assert i >= 0 ==> es[..n][..i] == es[..i] && es[..n][i] == es[i];
    }
  }

  /** Which elements belong to which field, and which to none. */
  lemma FieldIs(e: Ie)
    ensures forall id: byte :: FieldOf(e) == Some(ById(id)) <==>
      e.id == id && id in {0, 1, 2, 3, 4, 5, 6, 16, 33, 36, 42, 45, 48, 50, 54, 55, 56, 61, 70, 191, 192, 199}
    ensures FieldOf(e) == Some(Wpa) <==> e.id == 221 && [0x00, 0x50, 0xf2, 1] <= e.body
    ensures FieldOf(e) == Some(Wme) <==> e.id == 221 && ([0x00, 0x50, 0xf2, 2, 0] <= e.body || [0x00, 0x50, 0xf2, 2, 1] <= e.body)
    ensures FieldOf(e) == Some(WmeTspec) <==> e.id == 221 && [0x00, 0x50, 0xf2, 2, 2] <= e.body
    ensures FieldOf(e) == Some(Wps) <==> e.id == 221 && [0x00, 0x50, 0xf2, 4] <= e.body
    ensures FieldOf(e) == Some(VendorHtCap) <==> e.id == 221 && [0x00, 0x90, 0x4c, 0x33] <= e.body
  {
    VendorFieldIs(e.body);
    hide VendorField;
  }

  /** The table has an entry exactly if an element belongs to the field. */
  lemma InTableIff(es: seq<Ie>, base: nat, f: Field)
    ensures f in Table(es, base) <==> exists k :: 0 <= k < |es| && FieldOf(es[k]) == Some(f)
  {
    hide FieldOf, Table, Last;
    TableIsLast(es, base, f);
    LastMeaning(es, f);
  }

  /**
   * The table has an entry for an id exactly if the id is one of these twenty-two and some element has it, and for each
   * vendor field exactly if some vendor specific element begins with its octets.
   */
  lemma TableHas(es: seq<Ie>, base: nat)
    ensures forall id: byte :: ById(id) in Table(es, base) <==>
      && id in {0, 1, 2, 3, 4, 5, 6, 16, 33, 36, 42, 45, 48, 50, 54, 55, 56, 61, 70, 191, 192, 199}
      && exists k :: 0 <= k < |es| && es[k].id == id
    ensures Wpa in Table(es, base) <==> exists k :: 0 <= k < |es| && es[k].id == 221 && [0x00, 0x50, 0xf2, 1] <= es[k].body
    ensures Wme in Table(es, base) <==>
      exists k :: 0 <= k < |es| && es[k].id == 221 && ([0x00, 0x50, 0xf2, 2, 0] <= es[k].body || [0x00, 0x50, 0xf2, 2, 1] <= es[k].body)
    ensures WmeTspec in Table(es, base) <==> exists k :: 0 <= k < |es| && es[k].id == 221 && [0x00, 0x50, 0xf2, 2, 2] <= es[k].body
    ensures Wps in Table(es, base) <==> exists k :: 0 <= k < |es| && es[k].id == 221 && [0x00, 0x50, 0xf2, 4] <= es[k].body
    ensures VendorHtCap in Table(es, base) <==>
      exists k :: 0 <= k < |es| && es[k].id == 221 && [0x00, 0x90, 0x4c, 0x33] <= es[k].body
  {
    hide *;
    AllFieldsAre(es);
    forall f: Field ensures f in Table(es, base) <==> exists k :: 0 <= k < |es| && FieldOf(es[k]) == Some(f) {
      InTableIff(es, base, f);
    }
    forall id: byte ensures ById(id) in Table(es, base) <==>
      && id in {0, 1, 2, 3, 4, 5, 6, 16, 33, 36, 42, 45, 48, 50, 54, 55, 56, 61, 70, 191, 192, 199}
      && exists k :: 0 <= k < |es| && es[k].id == id
    {
      if k :| 0 <= k < |es| && es[k].id == id {
        assert FieldOf(es[k]) == Some(ById(id)) <==>
          id in {0, 1, 2, 3, 4, 5, 6, 16, 33, 36, 42, 45, 48, 50, 54, 55, 56, 61, 70, 191, 192, 199};
      }
    }
  }

  lemma AllFieldsAre(es: seq<Ie>)
    ensures forall k, id: byte :: 0 <= k < |es| ==> (FieldOf(es[k]) == Some(ById(id)) <==>
      es[k].id == id && id in {0, 1, 2, 3, 4, 5, 6, 16, 33, 36, 42, 45, 48, 50, 54, 55, 56, 61, 70, 191, 192, 199})
    ensures forall k :: 0 <= k < |es| ==>
      && (FieldOf(es[k]) == Some(Wpa) <==> es[k].id == 221 && [0x00, 0x50, 0xf2, 1] <= es[k].body)
      && (FieldOf(es[k]) == Some(Wme) <==>
            es[k].id == 221 && ([0x00, 0x50, 0xf2, 2, 0] <= es[k].body || [0x00, 0x50, 0xf2, 2, 1] <= es[k].body))
      && (FieldOf(es[k]) == Some(WmeTspec) <==> es[k].id == 221 && [0x00, 0x50, 0xf2, 2, 2] <= es[k].body)
      && (FieldOf(es[k]) == Some(Wps) <==> es[k].id == 221 && [0x00, 0x50, 0xf2, 4] <= es[k].body)
      && (FieldOf(es[k]) == Some(VendorHtCap) <==> es[k].id == 221 && [0x00, 0x90, 0x4c, 0x33] <= es[k].body)
  {
    hide FieldOf;
    forall k | 0 <= k < |es| {
      FieldIs(es[k]);
    }
  }

  predicate NoField(e: Ie) {
    if e.id == 221 then
      !([0x00, 0x50, 0xf2, 1] <= e.body) && !([0x00, 0x50, 0xf2, 4] <= e.body) && !([0x00, 0x90, 0x4c, 0x33] <= e.body)
      && !([0x00, 0x50, 0xf2, 2, 0] <= e.body) && !([0x00, 0x50, 0xf2, 2, 1] <= e.body) && !([0x00, 0x50, 0xf2, 2, 2] <= e.body)
    else e.id !in {0, 1, 2, 3, 4, 5, 6, 16, 33, 36, 42, 45, 48, 50, 54, 55, 56, 61, 70, 191, 192, 199}
  }

  /** The verdict counts an element as unknown if it has neither one of these ids nor one of these beginnings. */
  lemma UnknownIff(es: seq<Ie>)
    ensures AnyUnknown(es) <==> exists k :: 0 <= k < |es| && NoField(es[k])
  {
    forall k | 0 <= k < |es| ensures FieldOf(es[k]) == None <==> NoField(es[k]) {
      NoFieldIs(es[k]);
    }
    hide FieldOf;
    if AnyUnknown(es) {
      var e :| e in es && FieldOf(e) == None;
      var k :| 0 <= k < |es| && es[k] == e;
      assert NoField(es[k]);
    }
  }

  lemma NoFieldIs(e: Ie)
    ensures FieldOf(e) == None <==> NoField(e)
  {
    VendorFieldIs(e.body);
    hide VendorField;
  }

  /** `rtw_ieee802_11_parse_vendor_specific` on a body of `elen` octets at `pos`. */
  method ParseVendorSpecific(a: array<byte>, pos: nat, elen: nat, elems: map<Field, Hit>)
    returns (ok: bool, elems': map<Field, Hit>)
    requires pos + elen <= a.Length
    ensures var f := VendorField(a[pos..pos + elen]);
      && (ok <==> f != None)
      && elems' == if f == None then elems else elems[f.value := Hit(pos, elen)]
  {
    ok, elems' := false, elems;
    if elen < 4 {
      return;
    }
    ghost var body := a[pos..pos + elen];
    var oui := a[pos..pos + 3];
    assert body[..3] == oui;
    if oui == OUI_MICROSOFT {
      var kind := a[pos + 3];
      if kind == 1 {
        ok, elems' := true, elems[Wpa := Hit(pos, elen)];
      } else if kind == 2 {
        if elen < 5 {
          return;
        }
        var subtype := a[pos + 4];
        if subtype == 0 || subtype == 1 {
          ok, elems' := true, elems[Wme := Hit(pos, elen)];
        } else if subtype == 2 {
          ok, elems' := true, elems[WmeTspec := Hit(pos, elen)];
        }
      } else if kind == 4 {
        ok, elems' := true, elems[Wps := Hit(pos, elen)];
      }
    } else if oui == OUI_BROADCOM {
      if a[pos + 3] == 0x33 {
        ok, elems' := true, elems[VendorHtCap := Hit(pos, elen)];
      }
    }
  }

  /** The switch on the element id; unrecognised elements are counted. */
  method EnterField(a: array<byte>, pos: nat, id: byte, elen: nat, elems: map<Field, Hit>, unknown: nat, ghost e: Ie)
    returns (elems': map<Field, Hit>, unknown': nat)
    requires pos + elen <= a.Length && e.id == id && e.body == a[pos..pos + elen] && pos >= 2
    ensures elems' == Enter(elems, e, pos - 2)
    ensures unknown' == if FieldOf(e) == None then unknown + 1 else unknown
  {
    elems', unknown' := elems, unknown;
    if id == VENDOR_SPECIFIC {
      var ok;
      ok, elems' := ParseVendorSpecific(a, pos, elen, elems);
      if !ok {
        unknown' := unknown + 1;
      }
    } else if id in RECOGNISED {
      elems' := elems[ById(id) := Hit(pos, elen)];
    } else {
      unknown' := unknown + 1;
    }
  }

  /** The parse of `buf[base..end]`, which splits as `s`, has entered `k` elements and stands at `pos`. */
  ghost predicate Parsing(s: (seq<Ie>, seq<byte>), k: nat, buf: seq<byte>, base: nat, pos: nat, end: nat,
                          elems: map<Field, Hit>, unknown: nat)
  {
    && k <= |s.0| && base <= pos <= end <= |buf| && pos - base == |Encode(s.0[..k])|
    && buf[pos..end] == Encode(s.0[k..]) + s.1
    && Stuck(s.1)
    && elems == Table(s.0[..k], base)
    && (unknown > 0 <==> AnyUnknown(s.0[..k]))
  }

  lemma ParsingStart(buf: seq<byte>, base: nat, end: nat)
    requires base <= end <= |buf|
    ensures Parsing(Split(buf[base..end]), 0, buf, base, base, end, map[], 0)
  {
    var s := Split(buf[base..end]);
    assert s.0[0..] == s.0;
  }

  /** What the cursor sees: a whole element, or octets that are not one. */
  lemma ParsingHere(s: (seq<Ie>, seq<byte>), k: nat, buf: seq<byte>, base: nat, pos: nat, end: nat,
                    elems: map<Field, Hit>, unknown: nat)
    requires Parsing(s, k, buf, base, pos, end, elems, unknown)
    ensures k <= |s.0| && base <= pos <= end <= |buf|
    ensures end - pos < 2 || pos + 2 + buf[pos + 1] as int > end ==>
      k == |s.0| && buf[pos..end] == s.1
    ensures !(end - pos < 2 || pos + 2 + buf[pos + 1] as int > end) ==>
      k < |s.0| && s.0[k].id == buf[pos] && s.0[k].body == buf[pos + 2..pos + 2 + buf[pos + 1]]
  {
    var es, rest := s.0, buf[pos..end];
    if k < |es| {
      var x, y, z := [es[k].id, |es[k].body|], es[k].body, Encode(es[k + 1..]) + s.1;
      Cut(es, k);
      Assoc(Octets(es[k]), Encode(es[k + 1..]), s.1);
      Parts(x, y, z);
      assert rest == x + y + z;
      assert rest[0] == buf[pos] && rest[1] == buf[pos + 1];
      Inside(buf, pos, end, 2, 2 + |es[k].body|);
    } else {
      assert es[k..] == [] && rest == s.1;
    }
  }

  lemma ParsingStep(s: (seq<Ie>, seq<byte>), k: nat, buf: seq<byte>, base: nat, pos: nat, end: nat,
                    elems: map<Field, Hit>, unknown: nat)
    requires Parsing(s, k, buf, base, pos, end, elems, unknown) && k < |s.0|
    ensures var e := s.0[k];
      Parsing(s, k + 1, buf, base, pos + 2 + |e.body|, end, Enter(elems, e, pos),
              if FieldOf(e) == None then unknown + 1 else unknown)
  {
    hide Enter, FieldOf, Octets;
    var es := s.0;
    Cut(es, k);
    EncodeNext(es, k);
    assert es[..k + 1][..k] == es[..k] && es[..k + 1] == es[..k] + [es[k]];
    RestOctets(es[k..], s.1);
    hide Encode;
    Inside(buf, pos, end, 2 + |es[k].body|, 2 + |es[k].body|);
  }

  /** The octets behind the first element. */
  lemma RestOctets(es: seq<Ie>, tail: seq<byte>)
    requires es != []
    ensures var b, n := Encode(es) + tail, 2 + |es[0].body|; n <= |b| && b[n..] == Encode(es[1..]) + tail
  {
    Assoc(Octets(es[0]), Encode(es[1..]), tail);
    Parts(Octets(es[0]), Encode(es[1..]) + tail, []);
  }

  /** What the parser reports about `b`: it fails iff `b` is not an exact concatenation of elements. */
  ghost predicate Parsed(b: seq<byte>, base: nat, res: ParseRes, elems: map<Field, Hit>) {
    && (res == ParseFailed <==> !Stream(b))
    && (res == ParseUnknown <==> Stream(b) && AnyUnknown(Split(b).0))
    && elems == Table(Split(b).0, base)
  }

  lemma ParsingEnd(s: (seq<Ie>, seq<byte>), k: nat, buf: seq<byte>, base: nat, pos: nat, end: nat,
                   elems: map<Field, Hit>, unknown: nat)
    requires Parsing(s, k, buf, base, pos, end, elems, unknown) && k == |s.0|
    requires s == Split(buf[base..end]) && s.1 == buf[pos..end]
    ensures Parsed(buf[base..end], base,
                   if pos < end then ParseFailed else if unknown > 0 then ParseUnknown else ParseOk, elems)
  {
    hide Encode, Split, Enter, FieldOf;
    assert s.0[..k] == s.0;
  }

  /** `rtw_ieee802_11_parse_elems`. */
  method ParseElems(a: array<byte>, start: nat, len: nat)
    returns (res: ParseRes, elems: map<Field, Hit>)
    requires start + len <= a.Length
    ensures Parsed(a[start..start + len], start, res, elems)
  {
    hide *;
    ghost var s, k, end := Split(a[start..start + len]), 0, start + len;
    var left: nat, pos: nat, unknown: nat := len, start, 0;
    elems := map[];
    ParsingStart(a[..], start, end);
    while left >= 2
      invariant pos + left == end
      invariant Parsing(s, k, a[..], start, pos, end, elems, unknown)
    {
      ParsingHere(s, k, a[..], start, pos, end, elems, unknown);
      var id, elen := a[pos], a[pos + 1];
      pos, left := pos + 2, left - 2;
      if elen > left {
        ParsingEnd(s, k, a[..], start, pos - 2, end, elems, unknown);
        return ParseFailed, elems;
      }
      ParsingStep(s, k, a[..], start, pos - 2, end, elems, unknown);
      elems, unknown := EnterField(a, pos, id, elen, elems, unknown, s.0[k]);
      left, pos := left - elen, pos + elen;
      k := k + 1;
    }
    ParsingHere(s, k, a[..], start, pos, end, elems, unknown);
    ParsingEnd(s, k, a[..], start, pos, end, elems, unknown);
    res := if left != 0 then ParseFailed else if unknown > 0 then ParseUnknown else ParseOk;
  }

  /** Where `rtw_get_ie` finds the id and where the table parser records it. */
  lemma FirstAndLast(es: seq<Ie>, id: byte)
    requires id in RECOGNISED
    ensures var first, last := First(es, Pattern(id, [])), Last(es, ById(id));
      && (first < |es| <==> last >= 0)
      && (first < |es| ==> first <= last)
      && (forall i :: 0 <= i < |es| && es[i].id == id ==> first <= i <= last)
  {
    FirstMeaning(es, Pattern(id, []));
    LastMeaning(es, ById(id));
    forall e: Ie ensures Pattern(id, []).Matches(e) <==> FieldOf(e) == Some(ById(id)) {
      IdMatches(e, id);
    }
  }

  lemma IdMatches(e: Ie, id: byte)
    requires id in RECOGNISED
    ensures Pattern(id, []).Matches(e) <==> e.id == id
    ensures FieldOf(e) == Some(ById(id)) <==> e.id == id
  {
  }

  ghost predicate AtMostOnce(es: seq<Ie>, id: byte) {
    forall i, j :: 0 <= i < j < |es| && es[i].id == id ==> es[j].id != id
  }

  /** The two parsers see the same element exactly when the id is not repeated. */
  lemma ParsersAgreeIff(es: seq<Ie>, base: nat, id: byte)
    requires id in RECOGNISED
    ensures var hit, t := FoundAt(es, Pattern(id, []), base, 0), Table(es, base);
      && (hit == None <==> ById(id) !in t)
      && (AtMostOnce(es, id) <==>
           (hit != None ==> t[ById(id)] == Hit(hit.value.pos + 2, hit.value.len)))
  {
    hide *;
    FirstAndLast(es, id);
    TableIsLast(es, base, ById(id));
    FoundWhere(es, id, base);
    OnceIff(es, id);
    var first, last := First(es, Pattern(id, [])), Last(es, ById(id));
    if first < last {
      EncodeOrder(es, first, last);
    }
  }

  lemma FoundWhere(es: seq<Ie>, id: byte, base: nat)
    ensures var k := First(es, Pattern(id, []));
      FoundAt(es, Pattern(id, []), base, 0) ==
        if k < |es| then Some(Hit(base + |Encode(es[..k])|, |es[k].body|)) else None
  {
  }

  /** The id is not repeated just when its first and its last element are the same. */
  lemma OnceIff(es: seq<Ie>, id: byte)
    requires id in RECOGNISED
    ensures var first, last := First(es, Pattern(id, [])), Last(es, ById(id));
      AtMostOnce(es, id) <==> (first < |es| ==> first == last)
  {
    FirstAndLast(es, id);
    FirstMeaning(es, Pattern(id, []));
    LastMeaning(es, ById(id));
    var first, last := First(es, Pattern(id, [])), Last(es, ById(id));
    hide First, Last;
    if first < |es| {
      IdMatches(es[first], id);
      IdMatches(es[last], id);
    }
  }

  /** A later element starts at a later octet. */
  lemma {:induction false} EncodeOrder(es: seq<Ie>, i: nat, j: nat)
    requires i < j <= |es|
    ensures |Encode(es[..i])| < |Encode(es[..j])|
  {
    EncodeNext(es, j - 1);
    if i < j - 1 {
      EncodeOrder(es, i, j - 1);
    }
  }
}
