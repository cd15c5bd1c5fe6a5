/** The RSN element (IEEE 802.11-2012, section 8.4.2.27): parser, encoder, suite flags (rtw_ieee80211.c). */
module Rsne {
  import opened Bytes
  import opened Options

  const EID_RSN: byte := 48
  const STAGES := 6

  /** An optional field of the element: one item of a size, or a count of two octets and as many items. */
  datatype Stage = Fixed(size: nat) | Counted(size: nat)

  /** Group suite, pairwise suites, AKM suites, capabilities, PMKIDs, group management suite. */
  function StageAt(n: nat): (s: Stage)
    requires n < STAGES
    ensures s.size > 0
  {
    if n == 0 || n == 5 then Fixed(4)
    else if n == 1 || n == 2 then Counted(4)
    else if n == 3 then Fixed(2)
    else Counted(16)
  }

  /** Where the items of a field start, and how many there are. */
  datatype Field = Field(pos: nat, cnt: nat)

  /** Verdict and fields of a parse. */
  datatype Walked = Walked(ok: bool, fields: seq<Field>)
  {
    function After(f: Field): Walked {
      Walked(ok, [f] + fields)
    }
  }

  /** The cursor sees no more fields, rightly or not, or a field with more behind it. */
  datatype View = Stop(ok: bool) | More(f: Field, next: nat)

  /** What is at `pos`, where field `n` is expected. */
  function Look(b: seq<byte>, pos: nat, n: nat): (v: View)
    requires pos <= |b| && n < STAGES
    ensures v.More? ==> pos <= v.f.pos && EndOf(n, v.f) == v.next <= |b| && pos <= v.next
  {
    match StageAt(n)
    case Fixed(size) => if |b| < pos + size then Stop(|b| == pos) else More(Field(pos, 1), pos + size)
    case Counted(size) =>
      if |b| < pos + 2 then Stop(|b| == pos)
      else if |b| < pos + 2 + size * Le16(b, pos) then Stop(|b| == pos + 2)
      else More(Field(pos + 2, Le16(b, pos)), pos + 2 + size * Le16(b, pos))
  }

  /** The parse of `b` from `pos` on, where field `n` is expected. */
  function Walk(b: seq<byte>, pos: nat, n: nat): (w: Walked)
    requires pos <= |b| && n <= STAGES
    ensures |w.fields| <= STAGES - n
    decreases STAGES - n
  {
    if n == STAGES then Walked(true, [])
    else
      match Look(b, pos, n)
      case Stop(ok) => Walked(ok, [])
      case More(f, next) => Walk(b, next, n + 1).After(f)
  }

  /** First octet behind a field of stage `n`. */
  function EndOf(n: nat, f: Field): nat
    requires n < STAGES
  {
    f.pos + StageAt(n).size * f.cnt
  }

  // ----- The encoder -----

  /** What a field holds. */
  datatype Value = One(item: seq<byte>) | Many(items: seq<seq<byte>>)

  predicate Fits(n: nat, v: Value)
    requires n < STAGES
  {
    match StageAt(n)
    case Fixed(size) => v.One? && |v.item| == size
    case Counted(size) => v.Many? && |v.items| < 0x1_0000 && forall i :: 0 <= i < |v.items| ==> |v.items[i]| == size
  }

  function Flat(items: seq<seq<byte>>): seq<byte> {
    if items == [] then [] else items[0] + Flat(items[1..])
  }

  function EncodeValue(v: Value): seq<byte>
    requires v.Many? ==> |v.items| < 0x1_0000
  {
    if v.One? then v.item else PutLe16(|v.items|) + Flat(v.items)
  }

  /** Values of successive fields; an element may be cut behind any of them. */
  datatype Values = Ended | Then(v: Value, more: Values)
  {
    function Count(): nat {
      if Ended? then 0 else 1 + more.Count()
    }
  }

  /** Values for the fields from `n` on. */
  predicate AllFit(n: nat, vs: Values)
    decreases vs
  {
    n + vs.Count() <= STAGES && (vs.Then? ==> Fits(n, vs.v) && AllFit(n + 1, vs.more))
  }

  function EncodeValues(n: nat, vs: Values): seq<byte>
    requires AllFit(n, vs)
    decreases vs
  {
    if vs.Ended? then [] else EncodeValue(vs.v) + EncodeValues(n + 1, vs.more)
  }

  /** The octets of the field say what the value says. */
  predicate Shows(b: seq<byte>, f: Field, v: Value) {
    match v
    case One(item) => f.cnt == 1 && f.pos + |item| <= |b| && b[f.pos..f.pos + |item|] == item
    case Many(items) => f.cnt == |items| && f.pos + |Flat(items)| <= |b| && b[f.pos..f.pos + |Flat(items)|] == Flat(items)
  }

  lemma {:induction false} FlatSize(items: seq<seq<byte>>, size: nat)
    requires forall i :: 0 <= i < |items| ==> |items[i]| == size
    ensures |Flat(items)| == size * |items|
  {
    if items != [] {
      FlatSize(items[1..], size);
      assert size * |items| == size + size * (|items| - 1);
    }
  }

  /** Item `i` of a list, in its octets. */
  lemma {:induction false} FlatItem(items: seq<seq<byte>>, size: nat, i: nat)
    requires (forall k :: 0 <= k < |items| ==> |items[k]| == size) && i < |items|
    ensures size * i + size <= |Flat(items)| && Flat(items)[size * i..size * i + size] == items[i]
  {
    var more := Flat(items[1..]);
    FlatSize(items, size);
    if i == 0 {
      assert (items[0] + more)[..size] == items[0];
    } else {
      FlatItem(items[1..], size, i - 1);
      assert size * i == size + size * (i - 1);
      assert (items[0] + more)[size * i..size * i + size] == more[size * (i - 1)..size * (i - 1) + size];
    }
  }

  lemma PutGet(n: nat, rest: seq<byte>)
    requires n < 0x1_0000
    ensures Le16(PutLe16(n) + rest, 0) == n
  {
  }

  /** One encoded field under the cursor. */
  lemma LookValue(b: seq<byte>, pos: nat, n: nat, v: Value, rest: seq<byte>) returns (f: Field)
    requires pos <= |b| && n < STAGES && Fits(n, v) && b[pos..] == EncodeValue(v) + rest
    ensures var next := pos + |EncodeValue(v)|;
      next <= |b| && b[next..] == rest && Look(b, pos, n) == More(f, next) && Shows(b, f, v)
  {
    hide Flat, Le16, PutLe16;
    AfterValue(b, pos, EncodeValue(v), rest);
    match v
    case One(item) => f := Field(pos, 1);
    case Many(items) => f := LookMany(b, pos, n, items, rest);
  }

  lemma AfterValue(b: seq<byte>, pos: nat, o: seq<byte>, rest: seq<byte>)
    requires pos <= |b| && b[pos..] == o + rest
    ensures pos + |o| <= |b| && b[pos + |o|..] == rest && b[pos..pos + |o|] == o
  {
    Inside(b, pos, |b|, |o|, |o|);
    Inside(b, pos, |b|, 0, |o|);
    assert b[pos..][..|o|] == o;
  }

  lemma LookMany(b: seq<byte>, pos: nat, n: nat, items: seq<seq<byte>>, rest: seq<byte>) returns (f: Field)
    requires pos <= |b| && n < STAGES && Fits(n, Many(items)) && b[pos..] == PutLe16(|items|) + Flat(items) + rest
    ensures Look(b, pos, n) == More(f, pos + |EncodeValue(Many(items))|) && Shows(b, f, Many(items))
  {
    hide Flat, Le16;
    FlatSize(items, StageAt(n).size);
    LookCount(b, pos, items, rest);
    f := Field(pos + 2, |items|);
  }

  /** The count and the items of a list, at the cursor. */
  lemma LookCount(b: seq<byte>, pos: nat, items: seq<seq<byte>>, rest: seq<byte>)
    requires pos <= |b| && |items| < 0x1_0000 && b[pos..] == PutLe16(|items|) + Flat(items) + rest
    ensures pos + 2 + |Flat(items)| <= |b| && Le16(b, pos) == |items|
    ensures b[pos + 2..pos + 2 + |Flat(items)|] == Flat(items)
  {
    hide Flat;
    Assoc(PutLe16(|items|), Flat(items), rest);
    PutGet(|items|, Flat(items) + rest);
    assert b[pos] == b[pos..][0] && b[pos + 1] == b[pos..][1];
    Parts(PutLe16(|items|), Flat(items), rest);
    Inside(b, pos, |b|, 2, 2 + |Flat(items)|);
  }

  /** The walk stops here with success: all fields seen, or nothing left, or nothing left behind a count. */
  predicate Stops(n: nat, rest: seq<byte>) {
    n >= STAGES || rest == [] || (StageAt(n).Counted? && |rest| == 2 && Le16(rest, 0) > 0)
  }

  lemma WalkStops(b: seq<byte>, pos: nat, n: nat)
    requires pos <= |b| && n <= STAGES && Stops(n, b[pos..])
    ensures Walk(b, pos, n) == Walked(true, [])
  {
    if n < STAGES && b[pos..] != [] {
      assert b[pos] == b[pos..][0] && b[pos + 1] == b[pos..][1];
      assert StageAt(n).size * Le16(b, pos) > 0;
    }
  }

  /** The fields say, one by one, what the values say. */
  predicate AllShow(b: seq<byte>, fs: seq<Field>, vs: Values) {
    if vs.Ended? then fs == [] else fs != [] && Shows(b, fs[0], vs.v) && AllShow(b, fs[1..], vs.more)
  }

  /** The parser inverts the encoder, wherever the element is cut behind a complete field. */
  lemma {:induction false} WalkEncoded(b: seq<byte>, pos: nat, n: nat, vs: Values, rest: seq<byte>)
    requires pos <= |b| && AllFit(n, vs) && b[pos..] == EncodeValues(n, vs) + rest && Stops(n + vs.Count(), rest)
    ensures Walk(b, pos, n).ok && AllShow(b, Walk(b, pos, n).fields, vs)
    decreases vs
  {
    hide *;
    if vs.Ended? {
      NoMoreValues(n, vs, rest);
      WalkStops(b, pos, n);
    } else {
      FirstValue(n, vs, rest);
      var f, next := FirstField(b, pos, n, vs, rest);
      WalkEncoded(b, next, n + 1, vs.more, rest);
      ShowsMore(b, f, Walk(b, next, n + 1).fields, vs);
    }
  }

  lemma NoMoreValues(n: nat, vs: Values, rest: seq<byte>)
    requires AllFit(n, vs) && vs.Ended?
    ensures EncodeValues(n, vs) + rest == rest && n + vs.Count() == n <= STAGES && forall b :: AllShow(b, [], vs)
  {
  }

  /** The first field of an encoding. */
  lemma FirstField(b: seq<byte>, pos: nat, n: nat, vs: Values, rest: seq<byte>) returns (f: Field, next: nat)
    requires pos <= |b| && n < STAGES && AllFit(n, vs) && vs.Then? && b[pos..] == EncodeValues(n, vs) + rest
    ensures next <= |b| && b[next..] == EncodeValues(n + 1, vs.more) + rest && Shows(b, f, vs.v)
    ensures Walk(b, pos, n).ok == Walk(b, next, n + 1).ok && Walk(b, pos, n).fields == [f] + Walk(b, next, n + 1).fields
  {
    FirstValue(n, vs, rest);
    hide AllFit, EncodeValues, Stops, Walk;
    f := LookValue(b, pos, n, vs.v, EncodeValues(n + 1, vs.more) + rest);
    next := pos + |EncodeValue(vs.v)|;
    WalkMore(b, pos, n, f, next);
  }

  lemma FirstValue(n: nat, vs: Values, rest: seq<byte>)
    requires AllFit(n, vs) && vs.Then?
    ensures n < STAGES && Fits(n, vs.v) && AllFit(n + 1, vs.more) && n + vs.Count() == n + 1 + vs.more.Count()
    ensures EncodeValues(n, vs) + rest == EncodeValue(vs.v) + (EncodeValues(n + 1, vs.more) + rest)
  {
    Assoc(EncodeValue(vs.v), EncodeValues(n + 1, vs.more), rest);
  }

  lemma ShowsMore(b: seq<byte>, f: Field, fs: seq<Field>, vs: Values)
    requires vs.Then? && Shows(b, f, vs.v) && AllShow(b, fs, vs.more)
    ensures AllShow(b, [f] + fs, vs)
  {
    assert ([f] + fs)[1..] == fs;
  }

  lemma WalkMore(b: seq<byte>, pos: nat, n: nat, f: Field, next: nat)
    requires pos <= |b| && n < STAGES && Look(b, pos, n) == More(f, next)
    ensures Walk(b, pos, n).ok == Walk(b, next, n + 1).ok && Walk(b, pos, n).fields == [f] + Walk(b, next, n + 1).fields
  {
  }

  /** The items of `size` octets that make up `b`. */
  function Chop(b: seq<byte>, size: nat, cnt: nat): (items: seq<seq<byte>>)
    requires |b| == size * cnt
    ensures |items| == cnt && Flat(items) == b
    ensures forall i :: 0 <= i < cnt ==> |items[i]| == size
    decreases cnt
  {
    if cnt == 0 then []
    else
      assert size * cnt == size + size * (cnt - 1);
      var r := [b[..size]] + Chop(b[size..], size, cnt - 1);
      assert r[1..] == Chop(b[size..], size, cnt - 1);
      r
  }

  /** What the parser accepts is an encoding, or one with a dangling count behind it, or one with octets behind all fields. */
  lemma {:induction false} WalkAccepts(b: seq<byte>, pos: nat, n: nat) returns (vs: Values, rest: seq<byte>)
    requires pos <= |b| && n <= STAGES && Walk(b, pos, n).ok
    ensures AllFit(n, vs) && b[pos..] == EncodeValues(n, vs) + rest && Stops(n + vs.Count(), rest)
    decreases STAGES - n
  {
    hide *;
    if n == STAGES || Look(b, pos, n).Stop? {
      vs, rest := Ended, b[pos..];
      StopsHere(b, pos, n);
    } else {
      var f, next := Look(b, pos, n).f, Look(b, pos, n).next;
      var v := OneValue(b, pos, n);
      WalkMore(b, pos, n, f, next);
      var ws;
      ws, rest := WalkAccepts(b, next, n + 1);
      vs := Then(v, ws);
      ConsValues(b, pos, n, next, v, ws, rest);
    }
  }

  lemma ConsValues(b: seq<byte>, pos: nat, n: nat, next: nat, v: Value, vs: Values, rest: seq<byte>)
    requires n < STAGES && Fits(n, v) && AllFit(n + 1, vs) && pos <= next <= |b|
    requires b[pos..next] == EncodeValue(v) && b[next..] == EncodeValues(n + 1, vs) + rest
    ensures AllFit(n, Then(v, vs)) && b[pos..] == EncodeValues(n, Then(v, vs)) + rest
    ensures n + Then(v, vs).Count() == n + 1 + vs.Count()
  {
    hide EncodeValue;
    Joined(b, pos, next, |b|);
    Assoc(EncodeValue(v), EncodeValues(n + 1, vs), rest);
  }

  lemma StopsHere(b: seq<byte>, pos: nat, n: nat)
    requires pos <= |b| && n <= STAGES && (n == STAGES || Look(b, pos, n).Stop?) && Walk(b, pos, n).ok
    ensures AllFit(n, Ended) && b[pos..] == EncodeValues(n, Ended) + b[pos..] && Stops(n + Ended.Count(), b[pos..])
  {
    if n < STAGES && b[pos..] != [] {
      assert b[pos] == b[pos..][0] && b[pos + 1] == b[pos..][1];
    }
  }

  /** The value of the field under the cursor. */
  lemma OneValue(b: seq<byte>, pos: nat, n: nat) returns (v: Value)
    requires pos <= |b| && n < STAGES && Look(b, pos, n).More?
    ensures Fits(n, v) && b[pos..Look(b, pos, n).next] == EncodeValue(v)
  {
    match StageAt(n)
    case Fixed(size) => v := One(b[pos..Look(b, pos, n).next]);
    case Counted(size) => v := ListValue(b, pos, n, size);
  }

  lemma ListValue(b: seq<byte>, pos: nat, n: nat, size: nat) returns (v: Value)
    requires pos <= |b| && n < STAGES && Look(b, pos, n).More? && StageAt(n) == Counted(size)
    ensures Fits(n, v) && b[pos..Look(b, pos, n).next] == EncodeValue(v)
  {
    hide *;
    ListBounds(b, pos, n, size);
    var next := Look(b, pos, n).next;
    var items := Chop(b[pos + 2..next], size, Le16(b, pos));
    Joined(b, pos, pos + 2, next);
    ManyIs(n, size, items);
    v := Many(items);
  }

  /** Count and extent of the list under the cursor. */
  lemma ListBounds(b: seq<byte>, pos: nat, n: nat, size: nat)
    requires pos <= |b| && n < STAGES && Look(b, pos, n).More? && StageAt(n) == Counted(size)
    ensures var next := Look(b, pos, n).next;
      pos + 2 <= next <= |b| && next - pos - 2 == size * Le16(b, pos) && b[pos..pos + 2] == PutLe16(Le16(b, pos))
  {
  }

  lemma ManyIs(n: nat, size: nat, items: seq<seq<byte>>)
    requires n < STAGES && StageAt(n) == Counted(size)
    requires |items| < 0x1_0000 && forall i :: 0 <= i < |items| ==> |items[i]| == size
    ensures Fits(n, Many(items)) && EncodeValue(Many(items)) == PutLe16(|items|) + Flat(items)
  {
  }

  /** Behind `pos` there are encoded fields, then something at which the parser stops with success. */
  predicate Encoded(b: seq<byte>, pos: nat, vs: Values, rest: seq<byte>) {
    pos <= |b| && AllFit(0, vs) && b[pos..] == EncodeValues(0, vs) + rest && Stops(vs.Count(), rest)
  }

  /** Exactly which octets behind the version the parser accepts. */
  lemma AcceptIff(b: seq<byte>, pos: nat)
    requires pos <= |b|
    ensures Walk(b, pos, 0).ok <==> exists vs, rest :: Encoded(b, pos, vs, rest)
  {
    assert STAGES == 6;
    hide *;
    if Walk(b, pos, 0).ok {
      var vs, rest := Accepted(b, pos);
    }
    if vs, rest :| Encoded(b, pos, vs, rest) {
      Accepts(b, pos, vs, rest);
    }
  }

  lemma Accepted(b: seq<byte>, pos: nat) returns (vs: Values, rest: seq<byte>)
    requires pos <= |b| && Walk(b, pos, 0).ok
    ensures Encoded(b, pos, vs, rest)
  {
    hide AllFit, EncodeValues, Stops, Walk;
    vs, rest := WalkAccepts(b, pos, 0);
  }

  lemma Accepts(b: seq<byte>, pos: nat, vs: Values, rest: seq<byte>)
    requires Encoded(b, pos, vs, rest)
    ensures Walk(b, pos, 0).ok
  {
    hide AllFit, EncodeValues, Stops, Walk;
    WalkEncoded(b, pos, 0, vs, rest);
  }

  /** Fields from stage `n` on that lie in `[pos, size)`, one behind the other. */
  predicate InOrder(n: nat, pos: nat, fs: seq<Field>, size: nat) {
    && n + |fs| <= STAGES
    && (forall k :: 0 <= k < |fs| ==> pos <= fs[k].pos && EndOf(n + k, fs[k]) <= size)
    && (forall j, k :: 0 <= j < k < |fs| ==> EndOf(n + j, fs[j]) <= fs[k].pos)
  }

  lemma InOrderMore(n: nat, pos: nat, f: Field, fs: seq<Field>, size: nat)
    requires n < STAGES && pos <= f.pos && EndOf(n, f) <= size && InOrder(n + 1, EndOf(n, f), fs, size)
    ensures InOrder(n, pos, [f] + fs, size)
  {
    var all := [f] + fs;
    hide EndOf;
    assert pos <= EndOf(n, f) by { assert EndOf(n, f) >= f.pos by { EndBehind(n, f); } }
    assert forall k :: 0 < k < |all| ==> all[k] == fs[k - 1] && EndOf(n + k, all[k]) == EndOf(n + 1 + (k - 1), fs[k - 1]);
  }

  lemma EndBehind(n: nat, f: Field)
    requires n < STAGES
    ensures EndOf(n, f) >= f.pos
  {
  }

  /** Whatever the verdict, the recorded fields lie inside, in order, without overlap. */
  lemma {:induction false} FieldsInOrder(b: seq<byte>, pos: nat, n: nat)
    requires pos <= |b| && n <= STAGES
    ensures InOrder(n, pos, Walk(b, pos, n).fields, |b|)
    decreases STAGES - n
  {
    hide *;
    if n < STAGES && Look(b, pos, n).More? {
      var f, next := Look(b, pos, n).f, Look(b, pos, n).next;
      WalkMore(b, pos, n, f, next);
      FieldsInOrder(b, next, n + 1);
      InOrderMore(n, pos, f, Walk(b, next, n + 1).fields, |b|);
    } else {
      InOrderNone(b, pos, n);
    }
  }

  lemma InOrderNone(b: seq<byte>, pos: nat, n: nat)
    requires pos <= |b| && n <= STAGES && (n == STAGES || !Look(b, pos, n).More?)
    ensures InOrder(n, pos, Walk(b, pos, n).fields, |b|)
  {
  }

  // ----- The driver's parser -----

  /** `struct rsne_info`: positions of the fields, None for a null pointer. */
  datatype Info = Info(gcs: Option<nat>, pcs: Option<Field>, akm: Option<Field>, cap: Option<nat>, pmkid: Option<Field>, gmcs: Option<nat>)

  const EMPTY := Info(None, None, None, None, None, None)

  function Nth(fs: seq<Field>, k: nat): Option<Field> {
    if k < |fs| then Some(fs[k]) else None
  }

  function PosOf(f: Option<Field>): Option<nat> {
    if f == None then None else Some(f.value.pos)
  }

  /** The record of a parse. */
  function InfoOf(fs: seq<Field>): Info {
    Info(PosOf(Nth(fs, 0)), Nth(fs, 1), Nth(fs, 2), PosOf(Nth(fs, 3)), Nth(fs, 4), PosOf(Nth(fs, 5)))
  }

  /** The record with one more field. */
  function With(info: Info, n: nat, f: Field): Info {
    match n
    case 0 => info.(gcs := Some(f.pos))
    case 1 => info.(pcs := Some(f))
    case 2 => info.(akm := Some(f))
    case 3 => info.(cap := Some(f.pos))
    case 4 => info.(pmkid := Some(f))
    case _ => info.(gmcs := Some(f.pos))
  }

  lemma InfoMore(fs: seq<Field>, f: Field)
    requires |fs| < STAGES
    ensures InfoOf(fs + [f]) == With(InfoOf(fs), |fs|, f)
  {
  }

  /** The block of `rtw_rsne_info_parse` for a field of fixed size. */
  method FixedBlock(ie: seq<byte>, pos: nat, size: nat, ghost n: nat) returns (more: bool, ok: bool, next: nat)
    requires pos <= |ie| && n < STAGES && StageAt(n) == Fixed(size)
    ensures if more then Look(ie, pos, n) == More(Field(pos, 1), next) else Look(ie, pos, n) == Stop(ok)
  {
    if |ie| < pos + size {
      return false, |ie| == pos, pos;
    }
    return true, true, pos + size;
  }

  /** The block for a count and a list. */
  method CountedBlock(ie: seq<byte>, pos: nat, size: nat, ghost n: nat) returns (more: bool, ok: bool, f: Field, next: nat)
    requires pos <= |ie| && n < STAGES && StageAt(n) == Counted(size)
    ensures if more then Look(ie, pos, n) == More(f, next) else Look(ie, pos, n) == Stop(ok)
  {
    f := Field(0, 0);
    if |ie| < pos + 2 {
      return false, |ie| == pos, f, pos;
    }
    var cnt := Le16(ie, pos);
    if |ie| < pos + 2 + size * cnt {
      return false, |ie| == pos + 2, f, pos;
    }
    return true, true, Field(pos + 2, cnt), pos + 2 + size * cnt;
  }

  /** The parse has seen the fields `done` and stands at `pos`. */
  ghost predicate At(ie: seq<byte>, pos: nat, n: nat, done: seq<Field>) {
    && 4 <= pos <= |ie| && n <= STAGES && |done| == n
    && Walk(ie, 4, 0).ok == Walk(ie, pos, n).ok && Walk(ie, 4, 0).fields == done + Walk(ie, pos, n).fields
  }

  lemma AtMore(ie: seq<byte>, pos: nat, n: nat, done: seq<Field>, f: Field, next: nat) returns (done': seq<Field>)
    requires At(ie, pos, n, done) && n < STAGES && Look(ie, pos, n) == More(f, next)
    ensures At(ie, next, n + 1, done') && next <= |ie| && InfoOf(done') == With(InfoOf(done), n, f)
  {
    InfoMore(done, f);
    done' := done + [f];
    WalkMore(ie, pos, n, f, next);
    hide Walk, Look, InfoOf;
    Assoc(done, [f], Walk(ie, next, n + 1).fields);
  }

  lemma AtStop(ie: seq<byte>, pos: nat, n: nat, done: seq<Field>)
    requires At(ie, pos, n, done) && n < STAGES && Look(ie, pos, n).Stop?
    ensures Walk(ie, 4, 0).ok == Look(ie, pos, n).ok && Walk(ie, 4, 0).fields == done
  {
    assert Walk(ie, pos, n) == Walked(Look(ie, pos, n).ok, []);
    hide Walk, Look;
  }

  lemma AtEnd(ie: seq<byte>, pos: nat, done: seq<Field>)
    requires At(ie, pos, STAGES, done)
    ensures Walk(ie, 4, 0).ok && Walk(ie, 4, 0).fields == done
  {
    assert Walk(ie, pos, STAGES) == Walked(true, []);
    hide Walk;
  }

  /** `rtw_rsne_info_parse`. */
  method RsneInfoParse(ie: seq<byte>) returns (ok: bool, info: Info)
    ensures !(4 <= |ie| && ie[0] == 48 && ie[1] as int == |ie| - 2) ==> !ok && info == Info(None, None, None, None, None, None)
    ensures 4 <= |ie| && ie[0] == 48 && ie[1] as int == |ie| - 2 ==>
      ok == Walk(ie, 4, 0).ok && info == InfoOf(Walk(ie, 4, 0).fields)
  {
    ok, info := false, EMPTY;
    if |ie| < 4 {
      return;
    }
    if ie[0] != EID_RSN || ie[1] as int != |ie| - 2 {
      return;
    }
    var pos: nat, next: nat, more, f := 4, 0, false, Field(0, 0);
    ghost var done := [];
    assert At(ie, pos, 0, done) by { assert [] + Walk(ie, 4, 0).fields == Walk(ie, 4, 0).fields; }
    assert InfoOf(done) == info;
    hide *;
    SixStages();
    more, ok, next := FixedBlock(ie, pos, 4, 0);
    if !more {
      AtStop(ie, pos, 0, done);
      return;
    }
    done := AtMore(ie, pos, 0, done, Field(pos, 1), next);
    info, pos := info.(gcs := Some(pos)), next;
    more, ok, f, next := CountedBlock(ie, pos, 4, 1);
    if !more {
      AtStop(ie, pos, 1, done);
      return;
    }
    done := AtMore(ie, pos, 1, done, f, next);
    info, pos := info.(pcs := Some(f)), next;
    more, ok, f, next := CountedBlock(ie, pos, 4, 2);
    if !more {
      AtStop(ie, pos, 2, done);
      return;
    }
    done := AtMore(ie, pos, 2, done, f, next);
    info, pos := info.(akm := Some(f)), next;
    more, ok, next := FixedBlock(ie, pos, 2, 3);
    if !more {
      AtStop(ie, pos, 3, done);
      return;
    }
    done := AtMore(ie, pos, 3, done, Field(pos, 1), next);
    info, pos := info.(cap := Some(pos)), next;
    more, ok, f, next := CountedBlock(ie, pos, 16, 4);
    if !more {
      AtStop(ie, pos, 4, done);
      return;
    }
    done := AtMore(ie, pos, 4, done, f, next);
    info, pos := info.(pmkid := Some(f)), next;
    more, ok, next := FixedBlock(ie, pos, 4, 5);
    if !more {
      AtStop(ie, pos, 5, done);
      return;
    }
    done := AtMore(ie, pos, 5, done, Field(pos, 1), next);
    info, pos := info.(gmcs := Some(pos)), next;
    AtEnd(ie, pos, done);
    ok := true;
  }

  // ----- The verdict, from the octets alone -----

  lemma FixedHere(b: seq<byte>, pos: nat, n: nat, size: nat)
    requires pos <= |b| && n < STAGES && StageAt(n) == Fixed(size)
    ensures |b| < pos + size ==> Walk(b, pos, n) == Walked(|b| == pos, [])
    ensures |b| >= pos + size ==>
      && Walk(b, pos, n).ok == Walk(b, pos + size, n + 1).ok
      && Walk(b, pos, n).fields == [Field(pos, 1)] + Walk(b, pos + size, n + 1).fields
  {
  }

  lemma CountedHere(b: seq<byte>, pos: nat, n: nat, size: nat)
    requires pos <= |b| && n < STAGES && StageAt(n) == Counted(size)
    ensures |b| < pos + 2 ==> Walk(b, pos, n) == Walked(|b| == pos, [])
    ensures |b| >= pos + 2 ==> var cnt, end := b[pos] as int + 256 * b[pos + 1] as int, pos + 2 + size * Le16(b, pos);
      && cnt == Le16(b, pos)
      && (|b| < end ==> Walk(b, pos, n) == Walked(|b| == pos + 2, []))
      && (|b| >= end ==>
            && Walk(b, pos, n).ok == Walk(b, end, n + 1).ok
            && Walk(b, pos, n).fields == [Field(pos + 2, cnt)] + Walk(b, end, n + 1).fields)
  {
  }

  lemma AllSeen(b: seq<byte>, pos: nat)
    requires pos <= |b|
    ensures Walk(b, pos, 6) == Walked(true, [])
  {
  }

  lemma SixStages()
    ensures STAGES == 6 && StageAt(0) == StageAt(5) == Fixed(4) && StageAt(1) == StageAt(2) == Counted(4)
    ensures StageAt(3) == Fixed(2) && StageAt(4) == Counted(16)
  {
  }

  /**
   * Exactly which octets behind the four of id, length and version are accepted: nothing; a group suite of four
   * octets; then a count, or a count `p` and 4`p` octets; then a count, or a count `a` and 4`a` octets; then two octets
   * of capabilities; then a count, or a count `k` and 16`k` octets; then four octets, and whatever comes after them.
   */
  lemma VerdictIff(ie: seq<byte>)
    requires |ie| >= 4
    ensures Walk(ie, 4, 0).ok <==>
      || |ie| in {4, 8, 10}
      || (|ie| > 10 && var q := 10 + 4 * (ie[8] as int + 256 * ie[9] as int);
            || |ie| == q || |ie| == q + 2
            || (|ie| > q + 2 && var r := q + 2 + 4 * (ie[q] as int + 256 * ie[q + 1] as int);
                  || |ie| == r || |ie| == r + 2 || |ie| == r + 4
                  || (|ie| > r + 4 && var m := r + 4 + 16 * (ie[r + 2] as int + 256 * ie[r + 3] as int);
                        |ie| == m || |ie| >= m + 4)))
  {
    hide *;
    SixStages();
    FixedHere(ie, 4, 0, 4);
    if |ie| >= 8 {
      CountedHere(ie, 8, 1, 4);
      if |ie| >= 10 {
        var q := 10 + 4 * Le16(ie, 8);
        if |ie| >= q {
          FromAkms(ie, q);
        }
      }
    }
  }

  lemma FromAkms(ie: seq<byte>, q: nat)
    requires q <= |ie|
    ensures Walk(ie, q, 2).ok <==>
      || |ie| == q || |ie| == q + 2
      || (|ie| > q + 2 && var r := q + 2 + 4 * (ie[q] as int + 256 * ie[q + 1] as int);
            || |ie| == r || |ie| == r + 2 || |ie| == r + 4
            || (|ie| > r + 4 && var m := r + 4 + 16 * (ie[r + 2] as int + 256 * ie[r + 3] as int);
                  |ie| == m || |ie| >= m + 4))
  {
    hide *;
    SixStages();
    CountedHere(ie, q, 2, 4);
    if |ie| >= q + 2 {
      var r := q + 2 + 4 * Le16(ie, q);
      if |ie| >= r {
        FromCaps(ie, r);
      }
    }
  }

  lemma FromCaps(ie: seq<byte>, r: nat)
    requires r <= |ie|
    ensures Walk(ie, r, 3).ok <==>
      || |ie| == r || |ie| == r + 2 || |ie| == r + 4
      || (|ie| > r + 4 && var m := r + 4 + 16 * (ie[r + 2] as int + 256 * ie[r + 3] as int);
            |ie| == m || |ie| >= m + 4)
  {
    hide *;
    SixStages();
    FixedHere(ie, r, 3, 2);
    if |ie| >= r + 2 {
      CountedHere(ie, r + 2, 4, 16);
      if |ie| >= r + 4 {
        var m := r + 4 + 16 * Le16(ie, r + 2);
        if |ie| >= m {
          FixedHere(ie, m, 5, 4);
          if |ie| >= m + 4 {
            AllSeen(ie, m + 4);
          }
        }
      }
    }
  }

  /** Where the fields are recorded: those that are complete. */
  lemma RecordIs(ie: seq<byte>)
    requires |ie| >= 4
    ensures var info := InfoOf(Walk(ie, 4, 0).fields);
      && info.gcs == (if |ie| >= 8 then Some(4) else None)
      && (|ie| < 10 ==> info.pcs == None)
      && (|ie| >= 10 ==> var p := ie[8] as int + 256 * ie[9] as int;
            var q := 10 + 4 * p;
            && info.pcs == (if |ie| >= q then Some(Field(10, p)) else None)
            && (|ie| < q + 2 ==> info.akm == None)
            && (|ie| >= q + 2 ==> var a := ie[q] as int + 256 * ie[q + 1] as int;
                  var r := q + 2 + 4 * a;
                  && info.akm == (if |ie| >= r then Some(Field(q + 2, a)) else None)
                  && info.cap == (if |ie| >= r + 2 then Some(r) else None)))
  {
    hide *;
    SixStages();
    InfoParts(Walk(ie, 4, 0).fields);
    FixedHere(ie, 4, 0, 4);
    if |ie| >= 8 {
      CountedHere(ie, 8, 1, 4);
      if |ie| >= 10 {
        var q := 10 + 4 * Le16(ie, 8);
        if |ie| >= q {
          AkmRecord(ie, q);
        }
      }
    }
  }

  lemma AkmRecord(ie: seq<byte>, q: nat)
    requires q <= |ie|
    ensures var fs := Walk(ie, q, 2).fields;
      && (|ie| < q + 2 ==> fs == [])
      && (|ie| >= q + 2 ==> var a := ie[q] as int + 256 * ie[q + 1] as int;
            var r := q + 2 + 4 * a;
            && (|ie| < r ==> fs == [])
            && (|ie| >= r ==> fs != [] && fs[0] == Field(q + 2, a) && (|fs| > 1 <==> |ie| >= r + 2) && (|fs| > 1 ==> fs[1].pos == r)))
  {
    hide *;
    SixStages();
    CountedHere(ie, q, 2, 4);
    if |ie| >= q + 2 {
      var r := q + 2 + 4 * Le16(ie, q);
      if |ie| >= r {
        FixedHere(ie, r, 3, 2);
      }
    }
  }

  lemma InfoParts(fs: seq<Field>)
    ensures var info := InfoOf(fs);
      && info.gcs == (if |fs| > 0 then Some(fs[0].pos) else None)
      && info.pcs == (if |fs| > 1 then Some(fs[1]) else None)
      && info.akm == (if |fs| > 2 then Some(fs[2]) else None)
      && info.cap == (if |fs| > 3 then Some(fs[3].pos) else None)
      && info.pmkid == (if |fs| > 4 then Some(fs[4]) else None)
      && info.gmcs == (if |fs| > 5 then Some(fs[5].pos) else None)
  {
  }

  // ----- Suite flags -----

  /** The flags of `int *pairwise_cipher`, one bit each. */
  datatype Cipher = NoCipher | Wep40 | Wep104 | Tkip | Ccmp

  const RSN_OUI: seq<byte> := [0x00, 0x0f, 0xac]

  /** `rtw_get_wpa2_cipher_suite`: the empty set stands for 0. */
  function CipherSuite(s: seq<byte>): set<Cipher>
    requires |s| == 4
  {
    if s[..3] != RSN_OUI then {}
    else if s[3] == 0 then {NoCipher}
    else if s[3] == 1 then {Wep40}
    else if s[3] == 2 then {Tkip}
    else if s[3] == 4 then {Ccmp}
    else if s[3] == 5 then {Wep104}
    else {}
  }

  /** `rtw_get_akm_suite_bitmap`: the numbers of the bits set. */
  function AkmSuite(s: seq<byte>): set<nat>
    requires |s| == 4
  {
    if s[..3] != RSN_OUI then {}
    else if 1 <= s[3] <= 9 then {s[3] - 1}
    else if s[3] == 11 || s[3] == 12 then {s[3] - 2}
    else if 14 <= s[3] <= 17 then {s[3] - 3}
    else {}
  }

  /** Which selector sets which flag; every other one, of this OUI or another, sets none. */
  lemma CipherIs(s: seq<byte>)
    requires |s| == 4
    ensures NoCipher in CipherSuite(s) <==> s == [0x00, 0x0f, 0xac, 0]
    ensures Wep40 in CipherSuite(s) <==> s == [0x00, 0x0f, 0xac, 1]
    ensures Tkip in CipherSuite(s) <==> s == [0x00, 0x0f, 0xac, 2]
    ensures Ccmp in CipherSuite(s) <==> s == [0x00, 0x0f, 0xac, 4]
    ensures Wep104 in CipherSuite(s) <==> s == [0x00, 0x0f, 0xac, 5]
  {
    assert s == s[..3] + [s[3]];
  }

  /** Which selector sets which bit. */
  lemma AkmIs(s: seq<byte>)
    requires |s| == 4
    ensures 0 in AkmSuite(s) <==> s == [0x00, 0x0f, 0xac, 1]
    ensures 1 in AkmSuite(s) <==> s == [0x00, 0x0f, 0xac, 2]
    ensures 2 in AkmSuite(s) <==> s == [0x00, 0x0f, 0xac, 3]
    ensures 3 in AkmSuite(s) <==> s == [0x00, 0x0f, 0xac, 4]
    ensures 4 in AkmSuite(s) <==> s == [0x00, 0x0f, 0xac, 5]
    ensures 5 in AkmSuite(s) <==> s == [0x00, 0x0f, 0xac, 6]
    ensures 6 in AkmSuite(s) <==> s == [0x00, 0x0f, 0xac, 7]
    ensures 7 in AkmSuite(s) <==> s == [0x00, 0x0f, 0xac, 8]
    ensures 8 in AkmSuite(s) <==> s == [0x00, 0x0f, 0xac, 9]
    ensures 9 in AkmSuite(s) <==> s == [0x00, 0x0f, 0xac, 11]
    ensures 10 in AkmSuite(s) <==> s == [0x00, 0x0f, 0xac, 12]
    ensures 11 in AkmSuite(s) <==> s == [0x00, 0x0f, 0xac, 14]
    ensures 12 in AkmSuite(s) <==> s == [0x00, 0x0f, 0xac, 15]
    ensures 13 in AkmSuite(s) <==> s == [0x00, 0x0f, 0xac, 16]
    ensures 14 in AkmSuite(s) <==> s == [0x00, 0x0f, 0xac, 17]
    ensures forall bit :: bit in AkmSuite(s) ==> 0 <= bit < 15
  {
    assert s == s[..3] + [s[3]];
  }

  /** Item `i` of a list of suites. */
  function Item(b: seq<byte>, f: Field, i: nat): (s: seq<byte>)
    requires i < f.cnt && f.pos + 4 * f.cnt <= |b|
    ensures |s| == 4
  {
    b[f.pos + 4 * i..f.pos + 4 * i + 4]
  }

  /** The flags of the first `n` suites of a list. */
  function Ciphers(b: seq<byte>, f: Field, n: nat): set<Cipher>
    requires n <= f.cnt && f.pos + 4 * f.cnt <= |b|
  {
    set i, c | 0 <= i < n && c in CipherSuite(Item(b, f, i)) :: c
  }

  function Akms(b: seq<byte>, f: Field, n: nat): set<nat>
    requires n <= f.cnt && f.pos + 4 * f.cnt <= |b|
  {
    set i, c | 0 <= i < n && c in AkmSuite(Item(b, f, i)) :: c
  }

  /** The recorded fields and lists lie inside the element. */
  predicate Bounded(ie: seq<byte>, info: Info) {
    && (info.gcs != None ==> info.gcs.value + 4 <= |ie|)
    && (info.pcs != None ==> info.pcs.value.pos + 4 * info.pcs.value.cnt <= |ie|)
    && (info.akm != None ==> info.akm.value.pos + 4 * info.akm.value.cnt <= |ie|)
    && (info.cap != None ==> info.cap.value + 2 <= |ie|)
    && (info.pmkid != None ==> info.pmkid.value.pos + 16 * info.pmkid.value.cnt <= |ie|)
    && (info.gmcs != None ==> info.gmcs.value + 4 <= |ie|)
  }

  /** They do, whatever the element holds. */
  lemma InfoInside(ie: seq<byte>)
    requires |ie| >= 4
    ensures Bounded(ie, InfoOf(Walk(ie, 4, 0).fields))
  {
    hide Walk, Look;
    FieldsInOrder(ie, 4, 0);
    FixedOnes(ie, 4, 0);
    var fs := Walk(ie, 4, 0).fields;
    assert forall k :: 0 <= k < |fs| ==> EndOf(0 + k, fs[k]) <= |ie|;
  }

  /** A field of fixed size has one item. */
  lemma {:induction false} FixedOnes(b: seq<byte>, pos: nat, n: nat)
    requires pos <= |b| && n <= STAGES
    ensures var fs := Walk(b, pos, n).fields;
      forall k :: 0 <= k < |fs| && StageAt(n + k).Fixed? ==> fs[k].cnt == 1
    decreases STAGES - n
  {
    if n < STAGES && Look(b, pos, n).More? {
      var f, next := Look(b, pos, n).f, Look(b, pos, n).next;
      assert StageAt(n).Fixed? ==> f.cnt == 1;
      WalkMore(b, pos, n, f, next);
      FixedOnes(b, next, n + 1);
      var fs, gs := Walk(b, pos, n).fields, Walk(b, next, n + 1).fields;
      hide Walk, Look;
      assert forall k :: 0 < k < |fs| ==> fs[k] == gs[k - 1] && StageAt(n + k) == StageAt(n + 1 + (k - 1));
    }
  }

  /** What `rtw_parse_wpa2_ie` gives back; `mfp` is the two-bit option of management frame protection. */
  datatype Wpa2 = Wpa2(group: set<Cipher>, pairwise: set<Cipher>, akm: set<nat>, mfp: nat)

  /** The flags of a list of suites, one by one. */
  method PairwiseOf(ie: seq<byte>, f: Field) returns (r: set<Cipher>)
    requires f.pos + 4 * f.cnt <= |ie|
    ensures r == Ciphers(ie, f, f.cnt)
  {
    r := {};
    for i := 0 to f.cnt
      invariant r == Ciphers(ie, f, i)
    {
      r := r + CipherSuite(Item(ie, f, i));
    }
  }

  method AkmOf(ie: seq<byte>, f: Field) returns (r: set<nat>)
    requires f.pos + 4 * f.cnt <= |ie|
    ensures r == Akms(ie, f, f.cnt)
  {
    r := {};
    for i := 0 to f.cnt
      invariant r == Akms(ie, f, i)
    {
      r := r + AkmSuite(Item(ie, f, i));
    }
  }

  /** What the record of a parse says about suites and management frame protection. */
  function Wpa2Of(ie: seq<byte>, info: Info): Wpa2
    requires Bounded(ie, info)
  {
    Wpa2(
      if info.gcs == None then {} else CipherSuite(ie[info.gcs.value..info.gcs.value + 4]),
      if info.pcs == None then {} else Ciphers(ie, info.pcs.value, info.pcs.value.cnt),
      if info.akm == None then {} else Akms(ie, info.akm.value, info.akm.value.cnt),
      if info.cap == None then 0 else Le16(ie, info.cap.value) / 64 % 4)
  }

  /** `rtw_parse_wpa2_ie`. */
  method ParseWpa2Ie(ie: seq<byte>) returns (ok: bool, r: Wpa2)
    ensures ok <==> 4 <= |ie| && ie[0] == 48 && ie[1] as int == |ie| - 2 && Walk(ie, 4, 0).ok
    ensures |ie| >= 4 ==> Bounded(ie, InfoOf(Walk(ie, 4, 0).fields))
    ensures ok ==> r == Wpa2Of(ie, InfoOf(Walk(ie, 4, 0).fields))
  {
    var info;
    ok, info := RsneInfoParse(ie);
    r := Wpa2({}, {}, {}, 0);
    if |ie| >= 4 {
      InfoInside(ie);
    }
    hide Walk, InfoOf, Ciphers, Akms, CipherSuite, AkmSuite;
    if !ok {
      return;
    }
    if info.gcs != None {
      r := r.(group := CipherSuite(ie[info.gcs.value..info.gcs.value + 4]));
    }
    if info.pcs != None {
      var pairwise := PairwiseOf(ie, info.pcs.value);
      r := r.(pairwise := pairwise);
    }
    if info.akm != None {
      var akm := AkmOf(ie, info.akm.value);
      r := r.(akm := akm);
    }
    if info.cap != None {
      r := r.(mfp := Le16(ie, info.cap.value) / 64 % 4);
    }
  }

  // ----- From suites to flags and back -----

  /** Item `i` of a list field shows item `i` of the value. */
  lemma ShownItem(b: seq<byte>, f: Field, items: seq<seq<byte>>, i: nat)
    requires Shows(b, f, Many(items)) && (forall k :: 0 <= k < |items| ==> |items[k]| == 4) && i < |items|
    ensures f.pos + 4 * f.cnt <= |b| && Item(b, f, i) == items[i]
  {
    FlatSize(items, 4);
    FlatItem(items, 4, i);
    Inside(b, f.pos, f.pos + |Flat(items)|, 4 * i, 4 * i + 4);
  }

  /** The flags the driver collects are exactly those of the suites that were encoded. */
  lemma FlagsOfSuites(b: seq<byte>, f: Field, items: seq<seq<byte>>)
    requires Shows(b, f, Many(items)) && forall k :: 0 <= k < |items| ==> |items[k]| == 4
    ensures f.cnt == |items| && f.pos + 4 * f.cnt <= |b|
    ensures Ciphers(b, f, f.cnt) == set i, c | 0 <= i < |items| && c in CipherSuite(items[i]) :: c
    ensures Akms(b, f, f.cnt) == set i, c | 0 <= i < |items| && c in AkmSuite(items[i]) :: c
  {
    FlatSize(items, 4);
    hide CipherSuite, AkmSuite, Item, Shows;
    forall i | 0 <= i < |items| ensures Item(b, f, i) == items[i] {
      ShownItem(b, f, items, i);
    }
  }

  /** An element built from its fields. */
  function Element(version: seq<byte>, vs: Values): (ie: seq<byte>)
    requires |version| == 2 && AllFit(0, vs) && 2 + |EncodeValues(0, vs)| < 256
    ensures |ie| >= 4 && ie[0] == 48 && ie[1] as int == |ie| - 2
  {
    [EID_RSN, 2 + |EncodeValues(0, vs)|] + version + EncodeValues(0, vs)
  }

  /** Cut anywhere, it is taken apart again. */
  lemma ElementRecovered(version: seq<byte>, vs: Values)
    requires |version| == 2 && AllFit(0, vs) && 2 + |EncodeValues(0, vs)| < 256
    ensures var ie := Element(version, vs); Walk(ie, 4, 0).ok && AllShow(ie, Walk(ie, 4, 0).fields, vs)
  {
    var ie := Element(version, vs);
    hide EncodeValues, AllFit, Walk, AllShow;
    assert ie[4..] == EncodeValues(0, vs) + [];
    WalkEncoded(ie, 4, 0, vs, []);
  }

  /** Value `k` of the fields, if the element is not cut before it. */
  function ValueAt(vs: Values, k: nat): Option<Value>
    decreases vs
  {
    if vs.Ended? then None else if k == 0 then Some(vs.v) else ValueAt(vs.more, k - 1)
  }

  lemma {:induction false} ShownAt(b: seq<byte>, fs: seq<Field>, n: nat, vs: Values, k: nat)
    requires AllShow(b, fs, vs) && AllFit(n, vs)
    ensures match ValueAt(vs, k)
      case None => k >= |fs|
      case Some(v) => k < |fs| && Shows(b, fs[k], v) && n + k < STAGES && Fits(n + k, v)
    decreases vs
  {
    if vs.Then? && k > 0 {
      ShownAt(b, fs[1..], n + 1, vs.more, k - 1);
    }
  }

  /** The flags of all suites of a list; a list that is not there has none. */
  function CiphersOf(v: Option<Value>): set<Cipher>
    requires v != None ==> Fits(1, v.value)
  {
    if v == None then {} else set i, c | 0 <= i < |v.value.items| && c in CipherSuite(v.value.items[i]) :: c
  }

  function AkmsOf(v: Option<Value>): set<nat>
    requires v != None ==> Fits(2, v.value)
  {
    if v == None then {} else set i, c | 0 <= i < |v.value.items| && c in AkmSuite(v.value.items[i]) :: c
  }

  /** What an element says that is built from the values. */
  function Meant(vs: Values): Wpa2
    requires AllFit(0, vs)
  {
    FitAt(0, vs, 0);
    FitAt(0, vs, 1);
    FitAt(0, vs, 2);
    FitAt(0, vs, 3);
    var g, cap := ValueAt(vs, 0), ValueAt(vs, 3);
    Wpa2(
      if g == None then {} else CipherSuite(g.value.item),
      CiphersOf(ValueAt(vs, 1)),
      AkmsOf(ValueAt(vs, 2)),
      if cap == None then 0 else Le16(cap.value.item, 0) / 64 % 4)
  }

  lemma {:induction false} FitAt(n: nat, vs: Values, k: nat)
    requires AllFit(n, vs)
    ensures ValueAt(vs, k) != None ==> n + k < STAGES && Fits(n + k, ValueAt(vs, k).value)
    decreases vs
  {
    if vs.Then? && k > 0 {
      FitAt(n + 1, vs.more, k - 1);
    }
  }

  /** `rtw_parse_wpa2_ie` gives back what the element was built from. */
  lemma MeaningRecovered(version: seq<byte>, vs: Values)
    requires |version| == 2 && AllFit(0, vs) && 2 + |EncodeValues(0, vs)| < 256
    ensures var ie := Element(version, vs);
      && Walk(ie, 4, 0).ok && Bounded(ie, InfoOf(Walk(ie, 4, 0).fields))
      && Wpa2Of(ie, InfoOf(Walk(ie, 4, 0).fields)) == Meant(vs)
  {
    hide *;
    ElementRecovered(version, vs);
    var ie := Element(version, vs);
    InfoInside(ie);
    MeantBy(ie, Walk(ie, 4, 0).fields, vs);
  }

  /** Fields that show the values say what the values mean. */
  lemma MeantBy(ie: seq<byte>, fs: seq<Field>, vs: Values)
    requires AllFit(0, vs) && AllShow(ie, fs, vs) && Bounded(ie, InfoOf(fs))
    ensures Wpa2Of(ie, InfoOf(fs)) == Meant(vs)
  {
    hide AllFit, AllShow, ValueAt, CipherSuite, AkmSuite, Ciphers, Akms, Le16, Flat;
    GroupMeant(ie, fs, vs);
    PairwiseMeant(ie, fs, vs);
    AkmMeant(ie, fs, vs);
    CapMeant(ie, fs, vs);
    hide Shows, Fits, CiphersOf, AkmsOf;
  }

  lemma GroupMeant(ie: seq<byte>, fs: seq<Field>, vs: Values)
    requires AllFit(0, vs) && AllShow(ie, fs, vs)
    ensures ValueAt(vs, 0) == None <==> fs == []
    ensures fs != [] ==>
      && ValueAt(vs, 0).value.One? && |ValueAt(vs, 0).value.item| == 4 && fs[0].pos + 4 <= |ie|
      && ie[fs[0].pos..fs[0].pos + 4] == ValueAt(vs, 0).value.item
  {
    ShownAt(ie, fs, 0, vs, 0);
    hide AllFit, AllShow, ValueAt;
  }

  lemma PairwiseMeant(ie: seq<byte>, fs: seq<Field>, vs: Values)
    requires AllFit(0, vs) && AllShow(ie, fs, vs)
    ensures ValueAt(vs, 1) != None ==> Fits(1, ValueAt(vs, 1).value)
    ensures |fs| > 1 ==> fs[1].pos + 4 * fs[1].cnt <= |ie| && Ciphers(ie, fs[1], fs[1].cnt) == CiphersOf(ValueAt(vs, 1))
    ensures |fs| <= 1 ==> CiphersOf(ValueAt(vs, 1)) == {}
  {
    ShownAt(ie, fs, 0, vs, 1);
    hide AllFit, AllShow, ValueAt, CipherSuite, Item, Ciphers, Flat, Shows;
    if |fs| > 1 {
      FlagsOfSuites(ie, fs[1], ValueAt(vs, 1).value.items);
    }
  }

  lemma AkmMeant(ie: seq<byte>, fs: seq<Field>, vs: Values)
    requires AllFit(0, vs) && AllShow(ie, fs, vs)
    ensures ValueAt(vs, 2) != None ==> Fits(2, ValueAt(vs, 2).value)
    ensures |fs| > 2 ==> fs[2].pos + 4 * fs[2].cnt <= |ie| && Akms(ie, fs[2], fs[2].cnt) == AkmsOf(ValueAt(vs, 2))
    ensures |fs| <= 2 ==> AkmsOf(ValueAt(vs, 2)) == {}
  {
    ShownAt(ie, fs, 0, vs, 2);
    hide AllFit, AllShow, ValueAt, AkmSuite, Item, Akms, Flat, Shows;
    if |fs| > 2 {
      FlagsOfSuites(ie, fs[2], ValueAt(vs, 2).value.items);
    }
  }

  lemma CapMeant(ie: seq<byte>, fs: seq<Field>, vs: Values)
    requires AllFit(0, vs) && AllShow(ie, fs, vs)
    ensures ValueAt(vs, 3) == None <==> |fs| <= 3
    ensures |fs| > 3 ==>
      && ValueAt(vs, 3).value.One? && |ValueAt(vs, 3).value.item| == 2 && fs[3].pos + 2 <= |ie|
      && Le16(ie, fs[3].pos) == Le16(ValueAt(vs, 3).value.item, 0)
  {
    ShownAt(ie, fs, 0, vs, 3);
    hide AllFit, AllShow, ValueAt;
    if |fs| > 3 {
      var item, p := ValueAt(vs, 3).value.item, fs[3].pos;
      assert ie[p..p + 2] == item && item[0] == ie[p] && item[1] == ie[p + 1];
    }
  }

  /** All six fields. */
  function SixValues(group: seq<byte>, pairwise: seq<seq<byte>>, akms: seq<seq<byte>>, caps: seq<byte>,
                     pmkids: seq<seq<byte>>, mgmt: seq<byte>): Values
  {
    Then(One(group), Then(Many(pairwise), Then(Many(akms), Then(One(caps), Then(Many(pmkids), Then(One(mgmt), Ended))))))
  }

  lemma SixFit(group: seq<byte>, pairwise: seq<seq<byte>>, akms: seq<seq<byte>>, caps: seq<byte>,
               pmkids: seq<seq<byte>>, mgmt: seq<byte>)
    requires |group| == 4 && |caps| == 2 && |mgmt| == 4 && |pairwise| < 256 && |akms| < 256 && |pmkids| < 256
    requires forall k :: 0 <= k < |pairwise| ==> |pairwise[k]| == 4
    requires forall k :: 0 <= k < |akms| ==> |akms[k]| == 4
    requires forall k :: 0 <= k < |pmkids| ==> |pmkids[k]| == 16
    ensures var vs := SixValues(group, pairwise, akms, caps, pmkids, mgmt);
      AllFit(0, vs) && EncodeValues(0, vs) ==
        group + ([|pairwise|, 0] + Flat(pairwise) + ([|akms|, 0] + Flat(akms) + (caps + ([|pmkids|, 0] + Flat(pmkids) + mgmt))))
  {
    hide *;
    SixStages();
    var v5 := Then(One(mgmt), Ended);
    var v4 := Then(Many(pmkids), v5);
    var v3 := Then(One(caps), v4);
    var v2 := Then(Many(akms), v3);
    LastOne(mgmt);
    ThenMany(4, 16, pmkids, v5);
    ThenOne(3, 2, caps, v4);
    ThenMany(2, 4, akms, v3);
    ThenMany(1, 4, pairwise, v2);
    ThenOne(0, 4, group, Then(Many(pairwise), v2));
    SixAre(group, pairwise, akms, caps, pmkids, mgmt);
  }

  lemma SixAre(group: seq<byte>, pairwise: seq<seq<byte>>, akms: seq<seq<byte>>, caps: seq<byte>,
               pmkids: seq<seq<byte>>, mgmt: seq<byte>)
    ensures SixValues(group, pairwise, akms, caps, pmkids, mgmt) ==
      Then(One(group), Then(Many(pairwise), Then(Many(akms), Then(One(caps), Then(Many(pmkids), Then(One(mgmt), Ended))))))
  {
  }

  lemma LastOne(item: seq<byte>)
    requires |item| == 4
    ensures var vs := Then(One(item), Ended); AllFit(5, vs) && EncodeValues(5, vs) == item
  {
    assert AllFit(6, Ended) && EncodeValues(6, Ended) == [];
  }

  lemma ThenOne(n: nat, size: nat, item: seq<byte>, vs: Values)
    requires n < STAGES && StageAt(n) == Fixed(size) && |item| == size && AllFit(n + 1, vs)
    ensures AllFit(n, Then(One(item), vs)) && EncodeValues(n, Then(One(item), vs)) == item + EncodeValues(n + 1, vs)
  {
  }

  lemma ThenMany(n: nat, size: nat, items: seq<seq<byte>>, vs: Values)
    requires n < STAGES && StageAt(n) == Counted(size) && |items| < 256 && AllFit(n + 1, vs)
    requires forall k :: 0 <= k < |items| ==> |items[k]| == size
    ensures AllFit(n, Then(Many(items), vs))
    ensures EncodeValues(n, Then(Many(items), vs)) == [|items|, 0] + Flat(items) + EncodeValues(n + 1, vs)
  {
    hide Flat;
    assert PutLe16(|items|) == [|items|, 0];
  }

  /** The result has the flags of these suites, and the option of these capabilities. */
  ghost predicate Says(r: Wpa2, group: seq<byte>, pairwise: seq<seq<byte>>, akms: seq<seq<byte>>, caps: seq<byte>)
    requires |group| == 4 && |caps| == 2
    requires forall k :: 0 <= k < |pairwise| ==> |pairwise[k]| == 4
    requires forall k :: 0 <= k < |akms| ==> |akms[k]| == 4
  {
    && r.group == CipherSuite(group) && r.mfp == caps[0] as int / 64
    && (forall c :: c in r.pairwise <==> exists k :: 0 <= k < |pairwise| && c in CipherSuite(pairwise[k]))
    && (forall c :: c in r.akm <==> exists k :: 0 <= k < |akms| && c in AkmSuite(akms[k]))
  }

  lemma SixMean(group: seq<byte>, pairwise: seq<seq<byte>>, akms: seq<seq<byte>>, caps: seq<byte>,
                pmkids: seq<seq<byte>>, mgmt: seq<byte>)
    requires var vs := SixValues(group, pairwise, akms, caps, pmkids, mgmt); AllFit(0, vs)
    requires |group| == 4 && |caps| == 2
    requires forall k :: 0 <= k < |pairwise| ==> |pairwise[k]| == 4
    requires forall k :: 0 <= k < |akms| ==> |akms[k]| == 4
    ensures Says(Meant(SixValues(group, pairwise, akms, caps, pmkids, mgmt)), group, pairwise, akms, caps)
  {
    SixAre(group, pairwise, akms, caps, pmkids, mgmt);
    var vs := SixValues(group, pairwise, akms, caps, pmkids, mgmt);
    hide SixValues;
    ValueOn(vs.more.more, 0);
    ValueOn(vs.more, 0);
    ValueOn(vs.more, 1);
    ValueOn(vs, 0);
    ValueOn(vs, 1);
    ValueOn(vs, 2);
    hide ValueAt, AllFit, CipherSuite, AkmSuite;
  }

  lemma ValueOn(vs: Values, k: nat)
    requires vs.Then?
    ensures ValueAt(vs, 0) == Some(vs.v) && ValueAt(vs, k + 1) == ValueAt(vs.more, k)
  {
  }

  /**
   * A whole element, octet by octet: id 48, length, version, group suite, count and pairwise suites, count and AKM suites,
   * capabilities, count and PMKIDs, group management suite. `rtw_parse_wpa2_ie` accepts it and gives back the flags of
   * the group suite, those of the pairwise suites, the bits of the AKM suites, and the two highest bits of the first octet
   * of the capabilities.
   */
  lemma WholeElement(version: seq<byte>, group: seq<byte>, pairwise: seq<seq<byte>>, akms: seq<seq<byte>>, caps: seq<byte>,
                     pmkids: seq<seq<byte>>, mgmt: seq<byte>)
    requires |version| == 2 && |group| == 4 && |caps| == 2 && |mgmt| == 4
    requires forall k :: 0 <= k < |pairwise| ==> |pairwise[k]| == 4
    requires forall k :: 0 <= k < |akms| ==> |akms[k]| == 4
    requires forall k :: 0 <= k < |pmkids| ==> |pmkids[k]| == 16
    requires 18 + 4 * |pairwise| + 4 * |akms| + 16 * |pmkids| < 256
    ensures var ie := [48, 18 + 4 * |pairwise| + 4 * |akms| + 16 * |pmkids|] + version +
        (group + ([|pairwise|, 0] + Flat(pairwise) + ([|akms|, 0] + Flat(akms) + (caps + ([|pmkids|, 0] + Flat(pmkids) + mgmt)))));
      && ie[1] as int == |ie| - 2 && Walk(ie, 4, 0).ok && Bounded(ie, InfoOf(Walk(ie, 4, 0).fields))
      && var r := Wpa2Of(ie, InfoOf(Walk(ie, 4, 0).fields));
         && r.group == CipherSuite(group) && r.mfp == caps[0] as int / 64
         && (forall c :: c in r.pairwise <==> exists k :: 0 <= k < |pairwise| && c in CipherSuite(pairwise[k]))
         && (forall c :: c in r.akm <==> exists k :: 0 <= k < |akms| && c in AkmSuite(akms[k]))
  {
    var vs := SixValues(group, pairwise, akms, caps, pmkids, mgmt);
    SixFit(group, pairwise, akms, caps, pmkids, mgmt);
    SixLength(group, pairwise, akms, caps, pmkids, mgmt);
    SixMean(group, pairwise, akms, caps, pmkids, mgmt);
    hide *;
    ElementIs(version, vs);
    MeaningRecovered(version, vs);
    SaysAll(Meant(vs), group, pairwise, akms, caps);
  }

  lemma SaysAll(r: Wpa2, group: seq<byte>, pairwise: seq<seq<byte>>, akms: seq<seq<byte>>, caps: seq<byte>)
    requires |group| == 4 && |caps| == 2
    requires forall k :: 0 <= k < |pairwise| ==> |pairwise[k]| == 4
    requires forall k :: 0 <= k < |akms| ==> |akms[k]| == 4
    requires Says(r, group, pairwise, akms, caps)
    ensures r.group == CipherSuite(group) && r.mfp == caps[0] as int / 64
    ensures forall c :: c in r.pairwise <==> exists k :: 0 <= k < |pairwise| && c in CipherSuite(pairwise[k])
    ensures forall c :: c in r.akm <==> exists k :: 0 <= k < |akms| && c in AkmSuite(akms[k])
  {
    hide CipherSuite, AkmSuite;
  }

  lemma SixLength(group: seq<byte>, pairwise: seq<seq<byte>>, akms: seq<seq<byte>>, caps: seq<byte>,
                  pmkids: seq<seq<byte>>, mgmt: seq<byte>)
    requires |group| == 4 && |caps| == 2 && |mgmt| == 4 && |pairwise| < 256 && |akms| < 256 && |pmkids| < 256
    requires forall k :: 0 <= k < |pairwise| ==> |pairwise[k]| == 4
    requires forall k :: 0 <= k < |akms| ==> |akms[k]| == 4
    requires forall k :: 0 <= k < |pmkids| ==> |pmkids[k]| == 16
    ensures var vs := SixValues(group, pairwise, akms, caps, pmkids, mgmt);
      AllFit(0, vs) && |EncodeValues(0, vs)| == 16 + 4 * |pairwise| + 4 * |akms| + 16 * |pmkids|
  {
    hide *;
    SixFit(group, pairwise, akms, caps, pmkids, mgmt);
    FlatSize(pairwise, 4);
    FlatSize(akms, 4);
    FlatSize(pmkids, 16);
  }

  lemma ElementIs(version: seq<byte>, vs: Values)
    requires |version| == 2 && AllFit(0, vs) && 2 + |EncodeValues(0, vs)| < 256
    ensures Element(version, vs) == [48, 2 + |EncodeValues(0, vs)|] + version + EncodeValues(0, vs)
  {
  }
}
