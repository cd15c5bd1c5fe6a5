/** Information elements (IEEE 802.11-2012, section 8.4.2.1) and their octet form. */
module Elements {
  import opened Bytes

  const VENDOR_SPECIFIC: byte := 221

  /** The length octet bounds the body. */
  type Body = b: seq<byte> | |b| < 256

  datatype Ie = Ie(id: byte, body: Body)

  function Octets(e: Ie): (b: seq<byte>)
    ensures |b| == |e.body| + 2
  {
    [e.id, |e.body|] + e.body
  }

  /** The octet form of a run of elements. */
  function Encode(es: seq<Ie>): (b: seq<byte>)
    ensures es == [] <==> b == []
  {
    if es == [] then [] else Octets(es[0]) + Encode(es[1..])
  }

  /** The first element's octets, seen from the head of the whole form. */
  lemma EncodeHead(es: seq<Ie>)
    requires es != []
    ensures var e, b := es[0], Encode(es);
      && |b| >= 2 + |e.body| && b[0] == e.id && b[1] == |e.body|
      && b[2..2 + |e.body|] == e.body
      && b[..2 + |e.body|] == Octets(e)
      && b[2 + |e.body|..] == Encode(es[1..])
  {
    var e := es[0];
    Parts([e.id, |e.body|], e.body, Encode(es[1..]));
  }

  lemma EncodeCons(e: Ie, es: seq<Ie>)
    ensures Encode([e] + es) == Octets(e) + Encode(es)
  {
    assert ([e] + es)[1..] == es;
  }

  lemma {:induction false} EncodeAppend(xs: seq<Ie>, ys: seq<Ie>)
    ensures Encode(xs + ys) == Encode(xs) + Encode(ys)
  {
    if xs == [] {
      assert xs + ys == ys && Encode(xs) == [];
    } else {
      hide *;
      var e, zs := xs[0], xs[1..];
      EncodeAppend(zs, ys);
      EncodeCons(e, zs + ys);
      EncodeCons(e, zs);
      Uncons(xs);
      Assoc([e], zs, ys);
      Assoc(Octets(e), Encode(zs), Encode(ys));
    }
  }

  lemma EncodeOne(e: Ie)
    ensures Encode([e]) == Octets(e) && |Octets(e)| == 2 + |e.body|
  {
    assert Octets(e) + [] == Octets(e);
  }

  /** An octet string is the form of at most one run of elements. */
  lemma {:induction false} EncodeInjective(xs: seq<Ie>, ys: seq<Ie>)
    requires Encode(xs) == Encode(ys)
    ensures xs == ys
  {
    if xs != [] && ys != [] {
      hide *;
      EncodeHead(xs);
      EncodeHead(ys);
      EncodeInjective(xs[1..], ys[1..]);
      assert xs == [xs[0]] + xs[1..] && ys == [ys[0]] + ys[1..];
    }
  }

  /** Splitting the form of `es` at element `k`. */
  lemma EncodeSplit(es: seq<Ie>, k: nat)
    requires k <= |es|
    ensures Encode(es) == Encode(es[..k]) + Encode(es[k..])
  {
    EncodeAppend(es[..k], es[k..]);
    assert es[..k] + es[k..] == es;
  }

  /** Cutting the octet form at an element boundary. */
  lemma EncodeCut(es: seq<Ie>, k: nat)
    requires k <= |es|
    ensures var p := |Encode(es[..k])|;
      p <= |Encode(es)| && Encode(es)[..p] == Encode(es[..k]) && Encode(es)[p..] == Encode(es[k..])
  {
    hide *;
    EncodeSplit(es, k);
    Parts(Encode(es[..k]), Encode(es[k..]), []);
  }

  /** The boundary behind element `k`. */
  lemma EncodeNext(es: seq<Ie>, k: nat)
    requires k < |es|
    ensures |Encode(es[..k + 1])| == |Encode(es[..k])| + 2 + |es[k].body|
  {
    hide *;
    EncodeAppend(es[..k], [es[k]]);
    EncodeOne(es[k]);
    assert es[..k] + [es[k]] == es[..k + 1];
  }

  /** The longest run of complete elements at the head of `b`, and what is left. */
  function Split(b: seq<byte>): (r: (seq<Ie>, seq<byte>))
    ensures Encode(r.0) + r.1 == b
    ensures Stuck(r.1)
  {
    if Stuck(b) then ([], b)
    else
      var e := Ie(b[0], b[2..2 + b[1]]);
      var r := Split(b[2 + b[1]..]);
      EncodeCons(e, r.0);
      Assoc(Octets(e), Encode(r.0), r.1);
      OctetsHead(b);
      ([e] + r.0, r.1)
  }

  lemma OctetsHead(b: seq<byte>)
    requires !Stuck(b)
    ensures Octets(Ie(b[0], b[2..2 + b[1]])) + b[2 + b[1]..] == b
  {
  }

  /** No complete element starts here. */
  predicate Stuck(b: seq<byte>) {
    |b| < 2 || 2 + b[1] as int > |b|
  }

  lemma {:induction false} SplitUnique(es: seq<Ie>, tail: seq<byte>)
    requires Stuck(tail)
    ensures Split(Encode(es) + tail) == (es, tail)
  {
    var b := Encode(es) + tail;
    if es == [] {
      assert b == tail;
    } else {
      var x, y, z := [es[0].id, |es[0].body|], es[0].body, Encode(es[1..]) + tail;
      Assoc(Octets(es[0]), Encode(es[1..]), tail);
      assert b == x + y + z;
      Parts(x, y, z);
      SplitUnique(es[1..], tail);
      Uncons(es);
    }
  }

  /** `b` is an exact concatenation of elements. */
  predicate Stream(b: seq<byte>) {
    Split(b).1 == []
  }

  function Elems(b: seq<byte>): (es: seq<Ie>)
    requires Stream(b)
    ensures Encode(es) == b
  {
    Split(b).0
  }

  lemma StreamIff(b: seq<byte>)
    ensures Stream(b) <==> exists es: seq<Ie> :: Encode(es) == b
  {
    if es: seq<Ie> :| Encode(es) == b {
      ElemsEncode(es);
    }
    if Stream(b) {
      assert Encode(Elems(b)) == b;
    }
  }

  lemma ElemsEncode(es: seq<Ie>)
    ensures Stream(Encode(es)) && Elems(Encode(es)) == es
  {
    SplitUnique(es, []);
    assert Encode(es) + [] == Encode(es);
  }
}
