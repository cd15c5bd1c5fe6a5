/** The PPPoE relay tag that the bridge puts into discovery frames and takes out again (rtw_br_ext.c). */
module PppoeRelay {
  import opened Bytes
  import opened Options

  const ETH_ALEN := 6
  const LENGTH_AT := 18
  const TAGS_AT := 20
  const TAG_HDR_LEN := 4
  const PTT_RELAY_SID := 0x0110
  const MAGIC := PutBe16(0x8186)
  const STAMP_LEN := 8
  const TAG_BUF_LEN := 40

  type Value = v: seq<byte> | |v| < 0x1_0000
  type Kind = k: nat | k < 0x1_0000

  /** A tag of a discovery frame (RFC 2516, section 4). */
  datatype Tag = Tag(kind: Kind, value: Value)

  function Octets(t: Tag): (b: seq<byte>)
    ensures |b| == TAG_HDR_LEN + |t.value|
  {
    PutBe16(t.kind) + PutBe16(|t.value|) + t.value
  }

  function Encode(ts: seq<Tag>): (b: seq<byte>) {
    if ts == [] then [] else Octets(ts[0]) + Encode(ts[1..])
  }

  lemma {:induction false} EncodeAppend(xs: seq<Tag>, ys: seq<Tag>)
    ensures Encode(xs + ys) == Encode(xs) + Encode(ys)
  {
    if xs == [] {
      assert xs + ys == ys;
    } else {
      assert (xs + ys)[1..] == xs[1..] + ys;
      EncodeAppend(xs[1..], ys);
      Assoc(Octets(xs[0]), Encode(xs[1..]), Encode(ys));
    }
  }

  /** The octets up to and with the tag at index `k`. */
  lemma EncodeNext(ts: seq<Tag>, k: nat)
    requires k < |ts|
    ensures Encode(ts[..k + 1]) == Encode(ts[..k]) + Octets(ts[k])
  {
    hide *;
    assert ts[..k + 1] == ts[..k] + [ts[k]];
    EncodeOne(ts[k]);
    EncodeAppend(ts[..k], [ts[k]]);
  }

  /** The octets of the tag at index `k`, and where they are. */
  lemma EncodeAt(ts: seq<Tag>, k: nat)
    requires k < |ts|
    ensures Encode(ts) == Encode(ts[..k]) + Octets(ts[k]) + Encode(ts[k + 1..])
  {
    hide *;
    EncodeNext(ts, k);
    assert ts == ts[..k + 1] + ts[k + 1..];
    EncodeAppend(ts[..k + 1], ts[k + 1..]);
  }

  lemma EncodeOne(t: Tag)
    ensures Encode([t]) == Octets(t)
  {
    assert Encode([t]) == Octets(t) + Encode([]);
  }

  /** The numbers in a tag's header. */
  lemma Header(t: Tag)
    ensures Be16(Octets(t), 0) == t.kind && Be16(Octets(t), 2) == |t.value|
    ensures Octets(t)[TAG_HDR_LEN..] == t.value
  {
  }

  /** Index of the first relay tag, or the number of tags. */
  function First(ts: seq<Tag>): (k: nat)
    ensures k <= |ts|
    ensures forall i :: 0 <= i < k ==> ts[i].kind != PTT_RELAY_SID
    ensures k < |ts| ==> ts[k].kind == PTT_RELAY_SID
  {
    if ts == [] || ts[0].kind == PTT_RELAY_SID then 0 else 1 + First(ts[1..])
  }

  predicate Tagged(ts: seq<Tag>) {
    First(ts) < |ts|
  }

  /** What the first relay tag says, nothing if there is none. */
  function Session(ts: seq<Tag>): Value {
    if Tagged(ts) then ts[First(ts)].value else []
  }

  /** The tags without the first relay tag. */
  function Others(ts: seq<Tag>): seq<Tag> {
    if Tagged(ts) then ts[..First(ts)] + ts[First(ts) + 1..] else ts
  }

  /** The tag that goes to the server: magic number, client address, then the client's own session. */
  function Stamp(client: seq<byte>, session: Value): (t: Tag)
    requires |client| == ETH_ALEN && |session| <= TAG_BUF_LEN - TAG_HDR_LEN - STAMP_LEN
    ensures |t.value| == STAMP_LEN + |session|
  {
    Tag(PTT_RELAY_SID, MAGIC + client + session)
  }

  /** The octets that the first relay tag takes. */
  function Freed(ts: seq<Tag>): nat {
    if Tagged(ts) then TAG_HDR_LEN + |Session(ts)| else 0
  }

  /** The first relay tag begins with a client address behind the magic number. */
  predicate Stamped(ts: seq<Tag>) {
    Tagged(ts) && |Session(ts)| >= STAMP_LEN && Session(ts)[..2] == MAGIC
  }

  /** The tags that go on to the client: the session without the stamp, no relay tag if nothing is left of it. */
  function Unstamped(ts: seq<Tag>): seq<Tag>
    requires Stamped(ts)
  {
    var k, session := First(ts), Session(ts)[STAMP_LEN..];
    ts[..k] + (if session == [] then [] else [Tag(PTT_RELAY_SID, session)]) + ts[k + 1..]
  }

  /** Frame octets `b` of which `len` are in use, with the tags `ts` between the headers and the padding. */
  predicate Carries(b: seq<byte>, len: nat, ts: seq<Tag>) {
    && TAGS_AT + |Encode(ts)| <= len <= |b| < 0x1_0000
    && Be16(b, LENGTH_AT) == |Encode(ts)|
    && b[TAGS_AT..TAGS_AT + |Encode(ts)|] == Encode(ts)
  }

  /** How the octets of a frame show its first tag, and the others behind it: type and length in network order, value. */
  lemma FirstTagAt(b: seq<byte>, len: nat, t: Tag, ts: seq<Tag>)
    requires Carries(b, len, [t] + ts)
    ensures var n := |t.value|;
      && 24 + n + |Encode(ts)| <= len <= |b|
      && 256 * b[18] as int + b[19] as int == 4 + n + |Encode(ts)|
      && 256 * b[20] as int + b[21] as int == t.kind && 256 * b[22] as int + b[23] as int == n
      && b[24..24 + n] == t.value && b[24 + n..24 + n + |Encode(ts)|] == Encode(ts)
  {
    hide *;
    var all := [t] + ts;
    assert all[0] == t && all[1..] == ts;
    AtEnds(all);
    HeaderAt(b, len, all, 0);
    TagAt(b, len, all, 0);
    CarriesBounds(b, len, all);
    EncodeCons(t, ts);
    OctetsSize(t);
    NumberAt(b, 18);
    NumberAt(b, 20);
    NumberAt(b, 22);
  }

  lemma OctetsSize(t: Tag)
    ensures |Octets(t)| == 4 + |t.value|
  {
  }

  lemma NumberAt(b: seq<byte>, i: nat)
    requires i + 2 <= |b|
    ensures Be16(b, i) == 256 * b[i] as int + b[i + 1] as int
  {
  }

  /** The stamped tag in the octets of a frame: 01 10, its length, 81 86, the client's address, the client's session. */
  lemma StampAt(b: seq<byte>, len: nat, client: seq<byte>, session: Value, ts: seq<Tag>)
    requires |client| == 6 && |session| <= 28 && Carries(b, len, [Stamp(client, session)] + ts)
    ensures 32 + |session| + |Encode(ts)| <= len <= |b|
    ensures b[20..24] == [0x01, 0x10, 0, 8 + |session|] && b[24..26] == [0x81, 0x86]
    ensures b[26..32] == client && b[32..32 + |session|] == session
  {
    assert ETH_ALEN == 6 && TAG_BUF_LEN - TAG_HDR_LEN - STAMP_LEN == 28;
    hide *;
    StampIs(client, session);
    var t, n := Stamp(client, session), 8 + |session|;
    FirstTagAt(b, len, t, ts);
    RelayHeader(b, n);
    StampLies(b, t.value, client, session);
  }

  lemma RelayHeader(b: seq<byte>, n: nat)
    requires |b| >= 24 && n < 256 && 256 * b[20] as int + b[21] as int == 0x0110 && 256 * b[22] as int + b[23] as int == n
    ensures b[20..24] == [0x01, 0x10, 0, n]
  {
  }

  lemma StampLies(b: seq<byte>, v: seq<byte>, client: seq<byte>, session: seq<byte>)
    requires |client| == 6 && v == [0x81, 0x86] + client + session && 24 + |v| <= |b| && b[24..24 + |v|] == v
    ensures b[24..26] == [0x81, 0x86] && b[26..32] == client && b[32..32 + |session|] == session
  {
    Parts([0x81, 0x86], client, session);
    Inside(b, 24, 24 + |v|, 0, 2);
    Inside(b, 24, 24 + |v|, 2, 8);
    Inside(b, 24, 24 + |v|, 8, |v|);
  }

  lemma StampIs(client: seq<byte>, session: Value)
    requires |client| == 6 && |session| <= 28
    ensures Stamp(client, session) == Tag(0x0110, [0x81, 0x86] + client + session)
  {
  }

  /** A reply is taken for one to be relayed exactly if its first relay tag begins with 81 86 and has eight octets or more. */
  lemma StampedIff(ts: seq<Tag>)
    ensures Stamped(ts) <==> |Session(ts)| >= 8 && Session(ts)[0] == 0x81 && Session(ts)[1] == 0x86
  {
    assert Stamped(ts) ==> Session(ts)[..2] == [Session(ts)[0], Session(ts)[1]];
    assert |Session(ts)| >= 2 ==> Session(ts)[..2] == [Session(ts)[0], Session(ts)[1]];
  }

  /** What the first relay tag, type 0110, says. */
  lemma SessionIs(ts: seq<Tag>, k: nat)
    requires k <= |ts| && (forall i :: 0 <= i < k ==> ts[i].kind != 0x0110) && (k < |ts| ==> ts[k].kind == 0x0110)
    ensures Session(ts) == (if k < |ts| then ts[k].value else []) && (Tagged(ts) <==> k < |ts|)
    ensures Others(ts) == if k < |ts| then ts[..k] + ts[k + 1..] else ts
  {
    assert First(ts) == k;
  }

  /** Where the tag at index `k` starts. */
  function At(ts: seq<Tag>, k: nat): nat
    requires k <= |ts|
  {
    TAGS_AT + |Encode(ts[..k])|
  }

  /** The tag at index `k`, in the octets of the frame. */
  lemma TagAt(b: seq<byte>, len: nat, ts: seq<Tag>, k: nat)
    requires Carries(b, len, ts) && k < |ts|
    ensures At(ts, k) + TAG_HDR_LEN + |ts[k].value| == At(ts, k + 1) <= TAGS_AT + |Encode(ts)|
    ensures b[TAGS_AT..At(ts, k)] == Encode(ts[..k])
    ensures b[At(ts, k)..At(ts, k + 1)] == Octets(ts[k])
    ensures b[At(ts, k + 1)..TAGS_AT + |Encode(ts)|] == Encode(ts[k + 1..])
  {
    hide Encode, Octets, Be16;
    EncodeAt(ts, k);
    EncodeNext(ts, k);
    var x, y, z := Encode(ts[..k]), Octets(ts[k]), Encode(ts[k + 1..]);
    Parts(x, y, z);
    var l := |Encode(ts)|;
    Inside(b, TAGS_AT, TAGS_AT + l, 0, |x|);
    Inside(b, TAGS_AT, TAGS_AT + l, |x|, |x| + |y|);
    Inside(b, TAGS_AT, TAGS_AT + l, |x| + |y|, l);
  }

  /** A 16-bit field in network order, read by the host as it is. */
  function HostRead(bigEndian: bool, n: nat): nat
    requires n < 0x1_0000
  {
    if bigEndian then n else n % 256 * 256 + n / 256
  }

  /** Both header numbers of the tag at index `k`, read from the frame. */
  lemma HeaderAt(b: seq<byte>, len: nat, ts: seq<Tag>, k: nat)
    requires Carries(b, len, ts) && k < |ts|
    ensures At(ts, k) + TAG_HDR_LEN <= At(ts, k + 1) <= |b|
    ensures Be16(b, At(ts, k)) == ts[k].kind && Be16(b, At(ts, k) + 2) == |ts[k].value|
    ensures b[At(ts, k) + TAG_HDR_LEN..At(ts, k + 1)] == ts[k].value
  {
    TagAt(b, len, ts, k);
    Header(ts[k]);
    var o := b[At(ts, k)..At(ts, k + 1)];
    assert forall i :: 0 <= i < TAG_HDR_LEN ==> o[i] == b[At(ts, k) + i];
    Inside(b, At(ts, k), At(ts, k + 1), TAG_HDR_LEN, |o|);
  }

  /** Every header that a walk over the tags from `cur` on reads lies inside the buffer. */
  predicate WalkInside(b: seq<byte>, cur: nat, end: nat)
    decreases end - cur
  {
    cur >= end
    || (cur + TAG_HDR_LEN <= |b|
        && (Be16(b, cur) == PTT_RELAY_SID || WalkInside(b, cur + TAG_HDR_LEN + Be16(b, cur + 2), end)))
  }

  /** The first header of a relay tag that the walk comes to. */
  function TagFrom(b: seq<byte>, cur: nat, end: nat): Option<nat>
    requires WalkInside(b, cur, end)
    decreases end - cur
  {
    if cur >= end then None
    else if Be16(b, cur) == PTT_RELAY_SID then Some(cur)
    else TagFrom(b, cur + TAG_HDR_LEN + Be16(b, cur + 2), end)
  }

  /** In a frame that carries tags, the walk from tag `k` on comes to the first relay tag, if it has not passed it. */
  lemma {:induction false} FindCarried(b: seq<byte>, len: nat, ts: seq<Tag>, k: nat)
    requires Carries(b, len, ts) && k <= First(ts)
    ensures TAGS_AT <= |b| && TAGS_AT + Be16(b, LENGTH_AT) == TAGS_AT + |Encode(ts)| && At(ts, 0) == TAGS_AT
    ensures var end := TAGS_AT + |Encode(ts)|;
      && WalkInside(b, At(ts, k), end)
      && TagFrom(b, At(ts, k), end) == if Tagged(ts) then Some(At(ts, First(ts))) else None
    decreases |ts| - k
  {
    hide *;
    var end := TAGS_AT + |Encode(ts)|;
    CarriesBounds(b, len, ts);
    AtEnds(ts);
    if k < |ts| {
      HeaderAt(b, len, ts, k);
      TagAt(b, len, ts, k);
      TagFromOn(b, At(ts, k), end);
      if k < First(ts) {
        FindCarried(b, len, ts, k + 1);
      }
    } else {
      TagFromEnd(b, end);
    }
    FirstIsTagged(ts);
  }

  /** One turn of the walk, and its end. */
  lemma TagFromOn(b: seq<byte>, cur: nat, end: nat)
    requires cur < end && cur + TAG_HDR_LEN <= |b|
    ensures Be16(b, cur) == PTT_RELAY_SID ==> WalkInside(b, cur, end) && TagFrom(b, cur, end) == Some(cur)
    ensures Be16(b, cur) != PTT_RELAY_SID ==>
      var next := cur + TAG_HDR_LEN + Be16(b, cur + 2);
      WalkInside(b, next, end) ==> WalkInside(b, cur, end) && TagFrom(b, cur, end) == TagFrom(b, next, end)
  {
    hide Be16;
  }

  lemma TagFromEnd(b: seq<byte>, end: nat)
    ensures WalkInside(b, end, end) && TagFrom(b, end, end) == None
  {
  }

  lemma AtEnds(ts: seq<Tag>)
    ensures At(ts, 0) == TAGS_AT && At(ts, |ts|) == TAGS_AT + |Encode(ts)| && TAGS_AT == 20 && TAG_HDR_LEN == 4 && LENGTH_AT == 18
  {
    assert ts[..0] == [] && ts[..|ts|] == ts;
  }

  lemma FirstIsTagged(ts: seq<Tag>)
    ensures Tagged(ts) <==> First(ts) < |ts|
  {
  }

  lemma EncodeCons(t: Tag, ts: seq<Tag>)
    ensures Encode([t] + ts) == Octets(t) + Encode(ts)
  {
    assert ([t] + ts)[1..] == ts;
  }

  /** What is read from the length of a small tag is its size, or it is too large. */
  lemma HostSmall(bigEndian: bool, t: Tag, room: int)
    requires |t.value| <= TAG_BUF_LEN - TAG_HDR_LEN
    requires var n := TAG_HDR_LEN + HostRead(bigEndian, |t.value|); n <= TAG_BUF_LEN || n > room
    ensures HostRead(bigEndian, |t.value|) + TAG_HDR_LEN <= room ==> HostRead(bigEndian, |t.value|) + TAG_HDR_LEN == |Octets(t)|
  {
  }

  /** A frame laid out piece by piece carries the tags of its fourth piece. */
  lemma Laid(x: seq<byte>, tags: seq<byte>, z: seq<byte>, len: nat, ts: seq<Tag>)
    requires |x| == LENGTH_AT && tags == Encode(ts)
    requires TAGS_AT + |tags| <= len <= TAGS_AT + |tags| + |z| < 0x1_0000
    ensures Carries(x + PutBe16(|tags|) + tags + z, len, ts)
  {
    var y := PutBe16(|tags|);
    var b := x + y + tags + z;
    assert b[LENGTH_AT] == y[0] && b[LENGTH_AT + 1] == y[1];
    Parts(x + y, tags, z);
  }

  /** A buffer in which what lies behind a stretch has been moved onto it. */
  lemma Pulled(a: seq<byte>, b: seq<byte>, src: nat, n: nat, used: nat)
    requires src + n <= used <= |a| == |b|
    requires b[..src] == a[..src] && b[src..used - n] == a[src + n..used] && b[used - n..] == a[used - n..]
    ensures b == a[..src] + a[src + n..used] + a[used - n..]
  {
    assert b == b[..src] + b[src..used - n] + b[used - n..];
  }

  /** The three steps that make room and put the tag there, seen from the octets in front. */
  lemma AddSteps(a: seq<byte>, o: seq<byte>, l: nat, y: seq<byte>, b: seq<byte>, c: seq<byte>, d: seq<byte>)
    requires TAGS_AT + |o| + l <= |a| && |y| == TAGS_AT - LENGTH_AT
    requires b == a[..TAGS_AT + |o|] + a[TAGS_AT..TAGS_AT + l] + a[TAGS_AT + |o| + l..]
    requires c == b[..LENGTH_AT] + y + b[TAGS_AT..]
    requires d == c[..TAGS_AT] + o + c[TAGS_AT + |o|..]
    ensures d == a[..LENGTH_AT] + y + (o + a[TAGS_AT..TAGS_AT + l]) + a[TAGS_AT + |o| + l..]
  {
    var x, w, t, z := a[..LENGTH_AT], a[TAGS_AT..TAGS_AT + |o|], a[TAGS_AT..TAGS_AT + l], a[TAGS_AT + |o| + l..];
    assert |x + y| == TAGS_AT && |w| == |o|;
    AddRoom(a, |o|, l, b);
    hide *;
    assert c == (x + y) + w + (t + z);
    Parts(x + y, w, t + z);
    assert d == (x + y) + o + (t + z);
  }

  /** The first of them. */
  lemma AddRoom(a: seq<byte>, n: nat, l: nat, b: seq<byte>)
    requires TAGS_AT + n + l <= |a| && b == a[..TAGS_AT + n] + a[TAGS_AT..TAGS_AT + l] + a[TAGS_AT + n + l..]
    ensures b[..LENGTH_AT] == a[..LENGTH_AT]
    ensures b[TAGS_AT..] == a[TAGS_AT..TAGS_AT + n] + (a[TAGS_AT..TAGS_AT + l] + a[TAGS_AT + n + l..])
  {
  }

  lemma Added(a: seq<byte>, t: Tag, l: nat, b: seq<byte>, c: seq<byte>, d: seq<byte>, len: nat, ts: seq<Tag>)
    requires |Octets(t)| <= len <= |a| && Carries(a, len - |Octets(t)|, ts) && l == |Encode(ts)|
    requires b == a[..TAGS_AT + |Octets(t)|] + a[TAGS_AT..TAGS_AT + l] + a[TAGS_AT + |Octets(t)| + l..]
    requires l + |Octets(t)| < 0x1_0000 && TAGS_AT <= |b| && c == Numbered(b, LENGTH_AT, l + |Octets(t)|)
    requires d == c[..TAGS_AT] + Octets(t) + c[TAGS_AT + |Octets(t)|..]
    ensures Carries(d, len, [t] + ts) && d[..LENGTH_AT] == a[..LENGTH_AT]
    ensures var e := TAGS_AT + |Octets(t)| + l; d[e..] == a[e..]
  {
    assert |PutBe16(l + |Octets(t)|)| == 2;
    hide PutBe16, Octets;
    AddSteps(a, Octets(t), l, PutBe16(l + |Octets(t)|), b, c, d);
    EncodeCons(t, ts);
    Laid(a[..LENGTH_AT], Encode([t] + ts), a[TAGS_AT + |Octets(t)| + l..], len, [t] + ts);
    Parts(a[..LENGTH_AT] + PutBe16(l + |Octets(t)|), Encode([t] + ts), a[TAGS_AT + |Octets(t)| + l..]);
  }

  /** The stretch of `n` octets at `src` lies within the `l` octets of the tags. */
  predicate Within(a: seq<byte>, len: nat, src: nat, n: nat, l: nat) {
    TAGS_AT <= src && src + n <= TAGS_AT + l <= len <= |a| < 0x1_0000
  }

  /** Another 16-bit number at `at`. */
  function Numbered(c: seq<byte>, at: nat, n: nat): seq<byte>
    requires at + 2 <= |c| && n < 0x1_0000
  {
    c[..at] + PutBe16(n) + c[at + 2..]
  }

  /** The octets without `n` of them at `src`; `l` is the length of all tags before that. */
  function Without(a: seq<byte>, len: nat, src: nat, n: nat, l: nat): (c: seq<byte>)
    requires Within(a, len, src, n, l)
    ensures |c| == |a|
  {
    a[..LENGTH_AT] + PutBe16(l - n) + (a[TAGS_AT..src] + a[src + n..TAGS_AT + l])
      + (a[TAGS_AT + l..len] + a[len - n..])
  }

  /** Taking `n` octets out at `src`, and the length that goes with it. */
  lemma TakeSteps(a: seq<byte>, len: nat, l: nat, src: nat, n: nat, y: seq<byte>, b: seq<byte>, c: seq<byte>)
    requires Within(a, len, src, n, l) && y == PutBe16(l - n)
    requires b == a[..src] + a[src + n..len] + a[len - n..]
    requires c == Numbered(b, LENGTH_AT, l - n)
    ensures c == Without(a, len, src, n, l)
  {
    assert |PutBe16(l - n)| == 2;
    hide PutBe16;
    assert b[TAGS_AT..] == a[TAGS_AT..src] + a[src + n..len] + a[len - n..];
    Joined(a, src + n, TAGS_AT + l, len);
  }

  /** The octets behind the tags that are in use. */
  function Padding(b: seq<byte>, len: nat, ts: seq<Tag>): seq<byte>
    requires Carries(b, len, ts)
  {
    b[TAGS_AT + |Encode(ts)|..len]
  }

  /** A frame laid out piece by piece, with its tags, headers and padding. */
  lemma LaidPadded(x: seq<byte>, tags: seq<byte>, pad: seq<byte>, z: seq<byte>, ts: seq<Tag>)
    requires |x| == LENGTH_AT && tags == Encode(ts)
    requires TAGS_AT + |tags| + |pad| + |z| < 0x1_0000
    ensures var b, len := x + PutBe16(|tags|) + tags + (pad + z), TAGS_AT + |tags| + |pad|;
      Carries(b, len, ts) && b[..LENGTH_AT] == x && Padding(b, len, ts) == pad
  {
    var b, len := x + PutBe16(|tags|) + tags + (pad + z), TAGS_AT + |tags| + |pad|;
    Laid(x, tags, pad + z, len, ts);
    hide Carries, Encode;
    assert |PutBe16(|tags|)| == 2;
    hide PutBe16;
    assert b == (x + PutBe16(|tags|) + tags) + pad + z;
    Parts(x + PutBe16(|tags|) + tags, pad, z);
    Parts(x, PutBe16(|tags|), tags + (pad + z));
    assert b == x + PutBe16(|tags|) + (tags + (pad + z));
  }

  /** The octets of the first relay tag lie within the tags. */
  lemma OldBounds(a: seq<byte>, len: nat, ts: seq<Tag>)
    requires Carries(a, len, ts) && Tagged(ts)
    ensures Session(ts) == ts[First(ts)].value && Be16(a, LENGTH_AT) == |Encode(ts)|
    ensures TAGS_AT <= At(ts, First(ts)) && At(ts, First(ts)) + TAG_HDR_LEN + |Session(ts)| <= TAGS_AT + |Encode(ts)|
    ensures TAGS_AT + |Encode(ts)| <= len <= |a| < 0x1_0000
  {
    TagAt(a, len, ts, First(ts));
  }

  /** Headers and padding are the same in both frames. */
  predicate Kept(b: seq<byte>, len: nat, ts: seq<Tag>, c: seq<byte>, len': nat, ts': seq<Tag>)
    requires Carries(b, len, ts) && Carries(c, len', ts')
  {
    c[..LENGTH_AT] == b[..LENGTH_AT] && Padding(c, len', ts') == Padding(b, len, ts)
  }

  lemma CarriesBounds(a: seq<byte>, len: nat, ts: seq<Tag>)
    requires Carries(a, len, ts)
    ensures TAGS_AT + |Encode(ts)| <= len <= |a| < 0x1_0000 && Be16(a, LENGTH_AT) == |Encode(ts)|
  {
  }

  /** Taking a stretch out of the tags, when what is left is the octets of other tags. */
  lemma TakenOut(a: seq<byte>, len: nat, ts: seq<Tag>, src: nat, n: nat, ts': seq<Tag>)
    requires Carries(a, len, ts) && Within(a, len, src, n, |Encode(ts)|)
    requires a[TAGS_AT..src] + a[src + n..TAGS_AT + |Encode(ts)|] == Encode(ts')
    ensures Carries(Without(a, len, src, n, |Encode(ts)|), len - n, ts')
    ensures Kept(a, len, ts, Without(a, len, src, n, |Encode(ts)|), len - n, ts')
  {
    hide PutBe16, Encode, Carries, Kept;
    var l := |Encode(ts)|;
    assert |Encode(ts')| == l - n && TAGS_AT + l <= len <= |a| < 0x1_0000 by {
      CarriesBounds(a, len, ts);
    }
    Relaid(a, len, ts, n, ts', Without(a, len, src, n, l));
  }

  /** Length and value of the first relay tag, read from the frame. */
  lemma SessionAt(a: seq<byte>, len: nat, ts: seq<Tag>)
    requires Carries(a, len, ts) && Tagged(ts)
    ensures var at, v := At(ts, First(ts)), Session(ts);
      at + TAG_HDR_LEN + |v| <= |a| && Be16(a, at + 2) == |v| && a[at + TAG_HDR_LEN..at + TAG_HDR_LEN + |v|] == v
  {
    OldBounds(a, len, ts);
    TagAt(a, len, ts, First(ts));
    HeaderAt(a, len, ts, First(ts));
    hide First, Carries, Encode, Be16, Octets;
  }

  /** Without the octets of the first relay tag, the other tags are left. */
  lemma OldPieces(a: seq<byte>, len: nat, ts: seq<Tag>, at: nat, n: nat)
    requires Carries(a, len, ts) && Tagged(ts) && at == At(ts, First(ts)) && n == TAG_HDR_LEN + |Session(ts)|
    requires Within(a, len, at, n, |Encode(ts)|)
    ensures a[TAGS_AT..at] + a[at + n..TAGS_AT + |Encode(ts)|] == Encode(Others(ts))
  {
    var k := First(ts);
    assert Others(ts) == ts[..k] + ts[k + 1..] && Session(ts) == ts[k].value;
    assert Within(a, len, at, n, |Encode(ts)|) ==> TAGS_AT <= at && at + n <= TAGS_AT + |Encode(ts)| <= |a|;
    hide *;
    TagAt(a, len, ts, k);
    EncodeAppend(ts[..k], ts[k + 1..]);
  }

  lemma OldOut(a: seq<byte>, len: nat, ts: seq<Tag>, at: nat, n: nat)
    requires Carries(a, len, ts) && Tagged(ts) && at == At(ts, First(ts)) && n == TAG_HDR_LEN + |Session(ts)|
    ensures n <= len && Within(a, len, at, n, |Encode(ts)|)
    ensures Carries(Without(a, len, at, n, |Encode(ts)|), len - n, Others(ts))
    ensures Kept(a, len, ts, Without(a, len, at, n, |Encode(ts)|), len - n, Others(ts))
  {
    OldBounds(a, len, ts);
    assert Within(a, len, at, n, |Encode(ts)|);
    hide Encode, Carries, At, First, Session, Others, Without, Kept;
    OldPieces(a, len, ts, at, n);
    TakenOut(a, len, ts, at, n, Others(ts));
  }

  /** The octets of a reply's tags without the stamp: only the length of the relay tag is not right yet. */
  lemma StampPieces(a: seq<byte>, len: nat, ts: seq<Tag>, at: nat, l: nat)
    requires Carries(a, len, ts) && Tagged(ts) && |Session(ts)| > STAMP_LEN
    requires at == At(ts, First(ts)) && l == |Encode(ts)|
    ensures TAG_HDR_LEN + STAMP_LEN <= len && Within(a, len, at, TAG_HDR_LEN + STAMP_LEN, l)
    ensures at == TAGS_AT + |Encode(ts[..First(ts)])|
    ensures a[TAGS_AT..at + TAG_HDR_LEN] + a[at + TAG_HDR_LEN + STAMP_LEN..TAGS_AT + l]
            == Encode(ts[..First(ts)]) + (PutBe16(PTT_RELAY_SID) + PutBe16(|Session(ts)|))
               + (Session(ts)[STAMP_LEN..] + Encode(ts[First(ts) + 1..]))
  {
    hide Encode, Octets, PutBe16, Session, First, Carries, At;
    OldBounds(a, len, ts);
    var k, v := First(ts), Session(ts);
    TagAt(a, len, ts, k);
    AtIs(ts, k);
    var h := PutBe16(PTT_RELAY_SID) + PutBe16(|v|);
    RelayOctets(ts);
    StampSlices(a, at, At(ts, k + 1), TAGS_AT + l, h, v);
  }

  lemma AtIs(ts: seq<Tag>, k: nat)
    requires k <= |ts|
    ensures At(ts, k) == TAGS_AT + |Encode(ts[..k])|
  {
  }

  /** The octets of the first relay tag. */
  lemma RelayOctets(ts: seq<Tag>)
    requires Tagged(ts)
    ensures First(ts) < |ts| && |PutBe16(PTT_RELAY_SID) + PutBe16(|Session(ts)|)| == TAG_HDR_LEN
    ensures Octets(ts[First(ts)]) == PutBe16(PTT_RELAY_SID) + PutBe16(|Session(ts)|) + Session(ts)
  {
  }

  /** The slices around the stamp. */
  lemma StampSlices(a: seq<byte>, at: nat, next: nat, end: nat, h: seq<byte>, v: seq<byte>)
    requires TAGS_AT <= at <= next <= end <= |a| && a[at..next] == h + v
    requires |h| == TAG_HDR_LEN && |v| > STAMP_LEN
    ensures at + TAG_HDR_LEN + STAMP_LEN <= next
    ensures a[TAGS_AT..at + TAG_HDR_LEN] == a[TAGS_AT..at] + h
    ensures a[at + TAG_HDR_LEN + STAMP_LEN..end] == v[STAMP_LEN..] + a[next..end]
  {
    Inside(a, at, next, 0, TAG_HDR_LEN);
    Inside(a, at, next, TAG_HDR_LEN + STAMP_LEN, next - at);
    Parts(h, v[..STAMP_LEN], v[STAMP_LEN..]);
    assert h + v == h + v[..STAMP_LEN] + v[STAMP_LEN..];
    Joined(a, TAGS_AT, at, at + TAG_HDR_LEN);
    Joined(a, at + TAG_HDR_LEN + STAMP_LEN, next, end);
  }

  /** Putting the right length into the header of a tag, seen in the pieces of the frame. */
  lemma Relabelled(x: seq<byte>, y: seq<byte>, e1: seq<byte>, h: seq<byte>, p: seq<byte>, r: seq<byte>, w: seq<byte>,
                   q: seq<byte>, at: nat)
    requires |x| + |y| + |e1| == at && |h| == 2 && |p| == 2 && |q| == 2
    ensures var c := x + y + (e1 + (h + p) + r) + w;
      c[..at + 2] + q + c[at + 2 + 2..] == x + y + (e1 + (h + q) + r) + w
  {
    var c := x + y + (e1 + (h + p) + r) + w;
    assert c == (x + y + e1 + h) + p + (r + w);
    Parts(x + y + e1 + h, p, r + w);
  }

  /** The octets of what goes on to the client. */
  lemma EncodeUnstamped(ts: seq<Tag>)
    requires Stamped(ts) && |Session(ts)| > STAMP_LEN
    ensures Encode(Unstamped(ts)) == Encode(ts[..First(ts)])
              + (PutBe16(PTT_RELAY_SID) + PutBe16(|Session(ts)| - STAMP_LEN))
              + (Session(ts)[STAMP_LEN..] + Encode(ts[First(ts) + 1..]))
  {
    var k, t := First(ts), Tag(PTT_RELAY_SID, Session(ts)[STAMP_LEN..]);
    assert Unstamped(ts) == ts[..k] + [t] + ts[k + 1..];
    assert Octets(t) == PutBe16(PTT_RELAY_SID) + PutBe16(|t.value|) + t.value;
    hide *;
    EncodeThree(ts[..k], t, ts[k + 1..]);
    Regroup(Encode(ts[..k]), PutBe16(PTT_RELAY_SID) + PutBe16(|t.value|), t.value, Encode(ts[k + 1..]));
  }

  lemma EncodeThree(xs: seq<Tag>, t: Tag, ys: seq<Tag>)
    ensures Encode(xs + [t] + ys) == Encode(xs) + Octets(t) + Encode(ys)
  {
    hide *;
    EncodeOne(t);
    EncodeAppend(xs, [t]);
    EncodeAppend(xs + [t], ys);
  }

  lemma Regroup(x: seq<byte>, h: seq<byte>, v: seq<byte>, y: seq<byte>)
    ensures x + (h + v) + y == x + h + (v + y)
  {
  }

  lemma StampedTagged(ts: seq<Tag>)
    requires Stamped(ts)
    ensures Tagged(ts)
  {
  }

  lemma StampOut(a: seq<byte>, len: nat, ts: seq<Tag>, at: nat, l: nat, d: seq<byte>)
    requires Carries(a, len, ts) && Stamped(ts) && |Session(ts)| > STAMP_LEN
    requires at == At(ts, First(ts)) && l == |Encode(ts)|
    requires Within(a, len, at + TAG_HDR_LEN, STAMP_LEN, l)
    requires d == Numbered(Without(a, len, at + TAG_HDR_LEN, STAMP_LEN, l), at + 2, |Session(ts)| - STAMP_LEN)
    ensures STAMP_LEN <= len && Carries(d, len - STAMP_LEN, Unstamped(ts))
    ensures Kept(a, len, ts, d, len - STAMP_LEN, Unstamped(ts))
  {
    assert STAMP_LEN == 8;
    hide *;
    CarriesBounds(a, len, ts);
    StampShort(a, len, ts, at, l, d);
    Relaid(a, len, ts, STAMP_LEN, Unstamped(ts), d);
  }

  /** The frame in pieces: its tags are those that go on to the client. */
  lemma StampShort(a: seq<byte>, len: nat, ts: seq<Tag>, at: nat, l: nat, d: seq<byte>)
    requires Carries(a, len, ts) && Stamped(ts) && |Session(ts)| > STAMP_LEN
    requires at == At(ts, First(ts)) && l == |Encode(ts)| && TAGS_AT + l <= len <= |a| < 0x1_0000 && STAMP_LEN <= len
    requires Within(a, len, at + TAG_HDR_LEN, STAMP_LEN, l)
    requires d == Numbered(Without(a, len, at + TAG_HDR_LEN, STAMP_LEN, l), at + 2, |Session(ts)| - STAMP_LEN)
    ensures var tags := Encode(Unstamped(ts));
      && |tags| == l - STAMP_LEN
      && d == a[..LENGTH_AT] + PutBe16(|tags|) + tags + (a[TAGS_AT + l..len] + a[len - STAMP_LEN..])
  {
    StampedTagged(ts);
    hide Encode, Carries, Unstamped, Stamped, Session, First, At, PutBe16, Numbered, Without, Tagged;
    StampPieces(a, len, ts, at, l);
    EncodeUnstamped(ts);
    Shortened(a, len, l, at, Encode(ts[..First(ts)]), |Session(ts)|,
              Session(ts)[STAMP_LEN..] + Encode(ts[First(ts) + 1..]), d);
  }

  /** The frame in pieces, once its relay tag has the right length. */
  lemma Shortened(a: seq<byte>, len: nat, l: nat, at: nat, e1: seq<byte>, n: nat, r: seq<byte>, d: seq<byte>)
    requires TAGS_AT <= at && Within(a, len, at + TAG_HDR_LEN, STAMP_LEN, l)
    requires at == TAGS_AT + |e1| && STAMP_LEN < n < 0x1_0000
    requires a[TAGS_AT..at + TAG_HDR_LEN] + a[at + TAG_HDR_LEN + STAMP_LEN..TAGS_AT + l]
             == e1 + (PutBe16(PTT_RELAY_SID) + PutBe16(n)) + r
    requires d == Numbered(Without(a, len, at + TAG_HDR_LEN, STAMP_LEN, l), at + 2, n - STAMP_LEN)
    ensures var tags := e1 + (PutBe16(PTT_RELAY_SID) + PutBe16(n - STAMP_LEN)) + r;
      && |tags| == l - STAMP_LEN
      && d == a[..LENGTH_AT] + PutBe16(|tags|) + tags + (a[TAGS_AT + l..len] + a[len - STAMP_LEN..])
  {
    var h, p, q, y := PutBe16(PTT_RELAY_SID), PutBe16(n), PutBe16(n - STAMP_LEN), PutBe16(l - STAMP_LEN);
    assert |h| == 2 && |p| == 2 && |q| == 2 && |y| == 2;
    hide PutBe16;
    assert |e1 + (h + q) + r| == |e1 + (h + p) + r|;
    Relabelled(a[..LENGTH_AT], y, e1, h, p, r, a[TAGS_AT + l..len] + a[len - STAMP_LEN..], q, at);
  }

  /** A frame put together again from its headers, other tags and its padding. */
  lemma Relaid(a: seq<byte>, len: nat, ts: seq<Tag>, n: nat, ts': seq<Tag>, d: seq<byte>)
    requires Carries(a, len, ts) && |Encode(ts')| == |Encode(ts)| - n
    requires var l, tags := |Encode(ts)|, Encode(ts');
      && TAGS_AT + l <= len <= |a| < 0x1_0000
      && d == a[..LENGTH_AT] + PutBe16(|tags|) + tags + (a[TAGS_AT + l..len] + a[len - n..])
    ensures n <= len && Carries(d, len - n, ts') && Kept(a, len, ts, d, len - n, ts')
  {
    hide PutBe16, Encode;
    var l := |Encode(ts)|;
    LaidPadded(a[..LENGTH_AT], Encode(ts'), a[TAGS_AT + l..len], a[len - n..], ts');
  }

  /** A relay tag that is nothing but a stamp goes away. */
  lemma WholeStamp(ts: seq<Tag>)
    requires Stamped(ts) && |Session(ts)| == STAMP_LEN
    ensures Unstamped(ts) == Others(ts) && Tagged(ts)
  {
  }

  /** The stamp, with the header of its tag if there is nothing else in it, lies within the tags. */
  lemma StampWithin(a: seq<byte>, len: nat, ts: seq<Tag>, at: nat)
    requires Carries(a, len, ts) && Stamped(ts) && at == At(ts, First(ts))
    ensures var offset := if |Session(ts)| > STAMP_LEN then TAG_HDR_LEN else 0;
      Within(a, len, at + offset, TAG_HDR_LEN + STAMP_LEN - offset, |Encode(ts)|)
    ensures |Session(ts)| >= STAMP_LEN && TAG_HDR_LEN + STAMP_LEN <= len && at + TAG_HDR_LEN <= |a|
  {
    OldBounds(a, len, ts);
    hide Encode, At, First, Session, Carries;
  }

  lemma StampTaken(a: seq<byte>, len: nat, ts: seq<Tag>, at: nat, offset: nat, c: seq<byte>, d: seq<byte>)
    requires Carries(a, len, ts) && Stamped(ts) && at == At(ts, First(ts)) && TAG_HDR_LEN + STAMP_LEN <= len
    requires STAMP_LEN <= |Session(ts)| && offset == if |Session(ts)| > STAMP_LEN then TAG_HDR_LEN else 0
    requires Within(a, len, at + offset, TAG_HDR_LEN + STAMP_LEN - offset, |Encode(ts)|) && at + TAG_HDR_LEN <= |a|
    requires c == Without(a, len, at + offset, TAG_HDR_LEN + STAMP_LEN - offset, |Encode(ts)|)
    requires d == if offset > 0 then Numbered(c, at + 2, |Session(ts)| - STAMP_LEN) else c
    ensures var n := TAG_HDR_LEN + STAMP_LEN - offset;
      Carries(d, len - n, Unstamped(ts)) && Kept(a, len, ts, d, len - n, Unstamped(ts))
  {
    hide Encode, Carries, Kept, At, First, Session, Stamped, Unstamped, Within, Without, Numbered;
    if offset == 0 {
      WholeStamp(ts);
      OldOut(a, len, ts, at, TAG_HDR_LEN + STAMP_LEN);
    } else {
      StampOut(a, len, ts, at, |Encode(ts)|, d);
    }
  }

  /** Another destination address leaves the tags alone. */
  lemma Readdressed(a: seq<byte>, len: nat, ts: seq<Tag>, dest: seq<byte>)
    requires Carries(a, len, ts) && |dest| == ETH_ALEN
    ensures Carries(dest + a[ETH_ALEN..], len, ts)
    ensures Padding(dest + a[ETH_ALEN..], len, ts) == Padding(a, len, ts)
  {
    var b := dest + a[ETH_ALEN..];
    assert forall i :: ETH_ALEN <= i < |a| ==> b[i] == a[i];
    assert b[TAGS_AT..] == a[TAGS_AT..];
  }

  /** Deleting a tag leaves the client's address where it is. */
  lemma ClientKept(b: seq<byte>, len: nat, ts: seq<Tag>, c: seq<byte>, len': nat, ts': seq<Tag>)
    requires Carries(b, len, ts) && Carries(c, len', ts') && Kept(b, len, ts, c, len', ts')
    ensures |c| >= LENGTH_AT && |b| >= LENGTH_AT && c[..LENGTH_AT] == b[..LENGTH_AT]
    ensures c[ETH_ALEN..2 * ETH_ALEN] == b[ETH_ALEN..2 * ETH_ALEN]
  {
    hide Encode;
    Inside(b, 0, LENGTH_AT, ETH_ALEN, 2 * ETH_ALEN);
    Inside(c, 0, LENGTH_AT, ETH_ALEN, 2 * ETH_ALEN);
  }

  /** The size of a stamped tag, and what a host reads of its length. */
  lemma StampRoom(bigEndian: bool, t: Tag, session: Value)
    requires |session| <= TAG_BUF_LEN - TAG_HDR_LEN - STAMP_LEN && |t.value| == STAMP_LEN + |session|
    ensures HostRead(bigEndian, |t.value|) == if bigEndian then |t.value| else 256 * |t.value|
    ensures |Octets(t)| == TAG_HDR_LEN + STAMP_LEN + |session|
  {
  }

  class Frame {
    const data: array<byte>
    var len: nat

    constructor (data: array<byte>, len: nat)
      ensures this.data == data && this.len == len
    {
      this.data, this.len := data, len;
    }

    ghost predicate Holds(ts: seq<Tag>)
      reads this, data
    {
      Carries(data[..], len, ts)
    }

    function Room(): int
      reads this
    {
      data.Length - len
    }

    /** `__nat25_find_pppoe_tag` for the relay tag: no header that it reads may lie behind the buffer. */
    method Find() returns (at: Option<nat>)
      requires TAGS_AT <= data.Length
      requires WalkInside(data[..], TAGS_AT, TAGS_AT + Be16(data[..], LENGTH_AT))
      ensures at == TagFrom(data[..], TAGS_AT, TAGS_AT + Be16(data[..], LENGTH_AT))
    {
      var cur := TAGS_AT;
      var end := TAGS_AT + Be16(data[..], LENGTH_AT);
      while cur < end
        invariant WalkInside(data[..], cur, end)
        invariant TagFrom(data[..], cur, end) == TagFrom(data[..], TAGS_AT, end)
        decreases end - cur
      {
        var tagType := Be16(data[..], cur);
        var tagLen := Be16(data[..], cur + 2);
        if tagType == PTT_RELAY_SID {
          return Some(cur);
        }
        cur := cur + TAG_HDR_LEN + tagLen;
      }
      at := None;
    }

    /** `skb_pull_and_merge`: closes the gap of `n` octets at `src`. */
    method PullAndMerge(src: nat, n: nat) returns (ok: bool)
      requires len <= data.Length
      modifies data, this`len
      ensures ok <==> src + n <= old(len)
      ensures !ok ==> len == old(len) && data[..] == old(data[..])
      ensures ok ==> len == old(len) - n
      ensures ok ==> data[..] == old(data[..src] + data[src + n..len] + data[len - n..])
    {
      if src + n > len {
        return false;
      }
      ghost var a, used := data[..], len;
      Memmove(data, src, src + n, len - (src + n));
      len := len - n;
      ok := true;
      hide *;
      Pulled(a, data[..], src, n, used);
    }

    /** The 16-bit number at `at`. */
    method PutNumber(at: nat, n: nat)
      requires at + 2 <= data.Length && n < 0x1_0000
      modifies data
      ensures data[..] == Numbered(old(data[..]), at, n)
    {
      data[at] := n / 256;
      data[at + 1] := n % 256;
    }

    /** `skb_pull_and_merge` and the shorter length of all tags, as both branches have it. */
    method TakeOut(src: nat, n: nat, l: nat) returns (ok: bool)
      requires Within(data[..], len, src, n, l)
      requires Be16(data[..], LENGTH_AT) == l
      modifies data, this`len
      ensures ok && len == old(len) - n && data[..] == Without(old(data[..]), old(len), src, n, l)
    {
      ghost var a, used := data[..], len;
      ok := PullAndMerge(src, n);
      ghost var b := data[..];
      assert b == a[..src] + a[src + n..used] + a[used - n..];
      assert b[LENGTH_AT] == a[LENGTH_AT] && b[LENGTH_AT + 1] == a[LENGTH_AT + 1];
      PutNumber(LENGTH_AT, Be16(data[..], LENGTH_AT) - n);
      hide PutBe16;
      TakeSteps(a, used, l, src, n, PutBe16(l - n), b, data[..]);
    }

    /** Moves the `l` octets of the tags up by `n`. */
    method ShiftTags(n: nat, l: nat)
      requires TAGS_AT + n + l <= data.Length
      modifies data
      ensures data[..] == old(data[..TAGS_AT + n] + data[TAGS_AT..TAGS_AT + l] + data[TAGS_AT + n + l..])
    {
      Memmove(data, TAGS_AT + n, TAGS_AT, l);
      assert data[..] == data[..TAGS_AT + n] + data[TAGS_AT + n..TAGS_AT + n + l] + data[TAGS_AT + n + l..];
    }

    method PutTag(o: seq<byte>)
      requires TAGS_AT + |o| <= data.Length
      modifies data
      ensures data[..] == old(data[..TAGS_AT]) + o + old(data[TAGS_AT + |o|..])
    {
      Memcpy(data, TAGS_AT, o);
      assert data[..] == data[..TAGS_AT] + data[TAGS_AT..TAGS_AT + |o|] + data[TAGS_AT + |o|..];
    }

    /**
     * `__nat25_add_pppoe_tag`: the tag goes in front of the others. The room it takes is read from the tag's length
     * in host order. The tag lies in a buffer of 40 octets, and no more than those can be copied.
     */
    method Add(tag: Tag, bigEndian: bool, ghost ts: seq<Tag>) returns (r: int)
      requires Holds(ts)
      requires |tag.value| <= TAG_BUF_LEN - TAG_HDR_LEN
      requires var n := TAG_HDR_LEN + HostRead(bigEndian, |tag.value|); n <= TAG_BUF_LEN || n > Room()
      modifies data, this`len
      ensures r == -1 <==> TAG_HDR_LEN + HostRead(bigEndian, |tag.value|) > old(Room())
      ensures r == -1 ==> len == old(len) && data[..] == old(data[..])
      ensures r != -1 ==> r == |Octets(tag)| && len == old(len) + r && Holds([tag] + ts)
      ensures r != -1 ==> data[..LENGTH_AT] == old(data[..LENGTH_AT])
      ensures r != -1 ==> var e := TAGS_AT + |Octets(tag)| + |Encode(ts)|; e <= len && data[e..] == old(data[e..])
    {
      assert Room() == data.Length - len;
      hide *;
      HostSmall(bigEndian, tag, Room());
      CarriesBounds(data[..], len, ts);
      var dataLen := HostRead(bigEndian, |tag.value|) + TAG_HDR_LEN;
      if data.Length - len < dataLen {
        return -1;
      }
      PutInFront(tag, dataLen, ts);
      r := dataLen;
    }

    /** The part of it that makes room and writes the tag. */
    method PutInFront(tag: Tag, n: nat, ghost ts: seq<Tag>)
      requires Carries(data[..], len, ts) && n == |Octets(tag)| && n <= data.Length - len
      modifies data, this`len
      ensures len == old(len) + n && Carries(data[..], len, [tag] + ts) && data[..LENGTH_AT] == old(data[..LENGTH_AT])
      ensures var e := TAGS_AT + n + |Encode(ts)|; e <= len && data[e..] == old(data[e..])
    {
      assert LENGTH_AT + 2 == TAGS_AT;
      hide *;
      CarriesBounds(data[..], len, ts);
      ghost var a := data[..];
      var l := Be16(data[..], LENGTH_AT);
      len := len + n;
      ShiftTags(n, l);
      ghost var b := data[..];
      PutNumber(LENGTH_AT, l + n);
      ghost var c := data[..];
      PutTag(Octets(tag));
      Added(a, tag, l, b, c, data[..], len, ts);
    }

    /** The source address of the frame. */
    function Client(): seq<byte>
      requires TAGS_AT <= data.Length
      reads data
    {
      data[ETH_ALEN..2 * ETH_ALEN]
    }

    /** First half of the branch below: an old relay tag is deleted. */
    method DeleteOld(at: nat, ghost ts: seq<Tag>)
      requires Holds(ts) && Tagged(ts) && at == At(ts, First(ts))
      modifies data, this`len
      ensures Holds(Others(ts)) && Kept(old(data[..]), old(len), ts, data[..], len, Others(ts))
      ensures len == old(len) - TAG_HDR_LEN - |Session(ts)|
    {
      ghost var a, used := data[..], len;
      OldBounds(a, used, ts);
      SessionAt(a, used, ts);
      hide Carries, Encode, At, First, Without, Kept, Octets, Be16, Session, Others;
      var l := Be16(data[..], LENGTH_AT);
      var n := TAG_HDR_LEN + Be16(data[..], at + 2);
      var ok := TakeOut(at, n, l);
      OldOut(a, used, ts, at, n);
    }

    /** The destination address. */
    method PutDest(dest: seq<byte>)
      requires |dest| == ETH_ALEN <= data.Length
      modifies data
      ensures data[..] == dest + old(data[ETH_ALEN..])
    {
      Memcpy(data, 0, dest);
      assert data[..] == data[0..ETH_ALEN] + data[ETH_ALEN..];
    }

    /** Second half of the branch below: the stamp is taken out of the relay tag, or all of the tag. */
    method TakeStamp(at: nat, tagLen: nat, ghost ts: seq<Tag>)
      requires Holds(ts) && Stamped(ts) && at == At(ts, First(ts)) && tagLen == |Session(ts)|
      modifies data, this`len
      ensures Holds(Unstamped(ts)) && Kept(old(data[..]), old(len), ts, data[..], len, Unstamped(ts))
    {
      hide At, First, Within, Without, Be16, Carries, Kept, Session, Stamped, Unstamped, Encode, Numbered;
      ghost var a, used := data[..], len;
      StampWithin(a, used, ts, at);
      CarriesBounds(a, used, ts);
      var offset := if tagLen > STAMP_LEN then TAG_HDR_LEN else 0;
      var ok := TakeOut(at + offset, TAG_HDR_LEN + STAMP_LEN - offset, Be16(data[..], LENGTH_AT));
      ghost var c := data[..];
      if offset > 0 {
        PutNumber(at + 2, tagLen - STAMP_LEN);
      }
      StampTaken(a, used, ts, at, offset, c, data[..]);
    }

    /** The old relay tag's session, copied out before the tag is deleted; too long a one ends the branch. */
    method TakeSession(ghost ts: seq<Tag>) returns (ok: bool, session: seq<byte>)
      requires Holds(ts)
      modifies data, this`len
      ensures ok <==> |Session(ts)| <= TAG_BUF_LEN - TAG_HDR_LEN - STAMP_LEN
      ensures !ok ==> len == old(len) && data[..] == old(data[..])
      ensures ok ==> session == Session(ts) && len == old(len) - Freed(ts)
      ensures ok ==> Holds(Others(ts)) && Kept(old(data[..]), old(len), ts, data[..], len, Others(ts))
    {
      ok, session := true, [];
      FindCarried(data[..], len, ts, 0);
      var at := Find();
      if at.Some? {
        SessionAt(data[..], len, ts);
        hide At, First, Be16, Carries, Kept, Others;
        var oldLen := Be16(data[..], at.value + 2);
        if oldLen + TAG_HDR_LEN + STAMP_LEN > TAG_BUF_LEN {
          return false, [];
        }
        session := data[at.value + TAG_HDR_LEN..at.value + TAG_HDR_LEN + oldLen];
        DeleteOld(at.value, ts);
      }
    }

    /**
     * The PADI and PADR branch of `nat25_db_handle` with relay tags on: an old relay tag is taken over into a new
     * one behind the client's address.
     */
    method RelayRequest(bigEndian: bool, ghost ts: seq<Tag>) returns (r: int)
      requires Holds(ts)
      requires bigEndian || Room() + Freed(ts) < TAG_HDR_LEN + 256 * (STAMP_LEN + |Session(ts)|)
      modifies data, this`len
      ensures r == 0 || r == -1
      ensures r == 0 <==>
        && bigEndian && |Session(ts)| <= 28
        && 12 + |Session(ts)| <= old(data.Length - len) + if Tagged(ts) then 4 + |Session(ts)| else 0
      ensures r == 0 ==> 32 + |Session(ts)| <= len <= data.Length
      ensures r == 0 ==> data[20..26] == [0x01, 0x10, 0, 8 + |Session(ts)|, 0x81, 0x86]
      ensures r == 0 ==> data[26..32] == old(data[6..12]) && data[32..32 + |Session(ts)|] == Session(ts)
      ensures r == 0 ==> Holds([Stamp(old(Client()), Session(ts))] + Others(ts))
      ensures r == 0 ==> len == old(len) - Freed(ts) + TAG_HDR_LEN + STAMP_LEN + |Session(ts)|
      ensures r == -1 ==> |Session(ts)| > TAG_BUF_LEN - TAG_HDR_LEN - STAMP_LEN || Holds(Others(ts))
      ensures |Session(ts)| > TAG_BUF_LEN - TAG_HDR_LEN - STAMP_LEN ==> len == old(len) && data[..] == old(data[..])
      ensures data[..LENGTH_AT] == old(data[..LENGTH_AT])
    {
      assert Freed(ts) == if Tagged(ts) then 4 + |Session(ts)| else 0;
      hide Carries, Encode, Kept, Stamp, Freed, Session, Others, HostRead, Octets, Tagged;
      var ok, session := TakeSession(ts);
      if !ok {
        return -1;
      }
      ClientKept(old(data[..]), old(len), ts, data[..], len, Others(ts));
      r := AddStamp(bigEndian, data[ETH_ALEN..2 * ETH_ALEN], session, Others(ts));
    }

    /** Its last part: the stamped tag goes in front. */
    method AddStamp(bigEndian: bool, client: seq<byte>, session: Value, ghost ts: seq<Tag>) returns (r: int)
      requires Holds(ts) && |client| == ETH_ALEN && |session| <= TAG_BUF_LEN - TAG_HDR_LEN - STAMP_LEN
      requires bigEndian || Room() < TAG_HDR_LEN + 256 * (STAMP_LEN + |session|)
      modifies data, this`len
      ensures r == if bigEndian && 12 + |session| <= old(Room()) then 0 else -1
      ensures r == -1 ==> len == old(len) && data[..] == old(data[..])
      ensures r == 0 ==> Holds([Stamp(client, session)] + ts) && len == old(len) + TAG_HDR_LEN + STAMP_LEN + |session|
      ensures data[..LENGTH_AT] == old(data[..LENGTH_AT])
      ensures r == 0 ==> 32 + |session| <= len <= data.Length && data[20..26] == [0x01, 0x10, 0, 8 + |session|, 0x81, 0x86]
      ensures r == 0 ==> data[26..32] == client && data[32..32 + |session|] == session
    {
      hide Carries, Encode, Stamp, HostRead, Octets;
      var tag := Stamp(client, session);
      StampRoom(bigEndian, tag, session);
      var added := Add(tag, bigEndian, ts);
      r := if added < 0 then -1 else 0;
      if r == 0 {
        StampAt(data[..], len, client, session, ts);
      }
    }

    /** Reads length and magic number of the relay tag, and the client's address behind them. */
    method ReadStamp(at: nat, ghost ts: seq<Tag>) returns (stamped: bool, tagLen: nat, client: seq<byte>)
      requires Holds(ts) && Tagged(ts) && at == At(ts, First(ts))
      ensures stamped == Stamped(ts) && tagLen == |Session(ts)|
      ensures stamped ==> client == Session(ts)[2..STAMP_LEN]
    {
      SessionAt(data[..], len, ts);
      assert Stamped(ts) <==> |Session(ts)| >= STAMP_LEN && Session(ts)[..2] == MAGIC;
      hide At, First, Be16, Carries, Session, Stamped, MAGIC, Encode, Tagged;
      stamped, client := false, [];
      tagLen := Be16(data[..], at + 2);
      if tagLen >= STAMP_LEN {
        var value := data[at + TAG_HDR_LEN..at + TAG_HDR_LEN + tagLen];
        if value[..2] == MAGIC {
          stamped, client := true, value[2..STAMP_LEN];
        }
      }
    }

    /** The client's address goes into the frame, the stamp out of it. */
    method Forward(at: nat, tagLen: nat, client: seq<byte>, ghost ts: seq<Tag>)
      requires Holds(ts) && Stamped(ts) && at == At(ts, First(ts)) && tagLen == |Session(ts)| && |client| == ETH_ALEN
      modifies data, this`len
      ensures Holds(Unstamped(ts)) && data[..LENGTH_AT] == client + old(data[ETH_ALEN..LENGTH_AT])
      ensures Padding(data[..], len, Unstamped(ts)) == old(Padding(data[..], len, ts))
    {
      ghost var a, used := data[..], len;
      CarriesBounds(a, used, ts);
      Readdressed(a, used, ts, client);
      Parts(client, a[ETH_ALEN..LENGTH_AT], a[LENGTH_AT..]);
      Joined(a, ETH_ALEN, LENGTH_AT, |a|);
      Assoc(client, a[ETH_ALEN..LENGTH_AT], a[LENGTH_AT..]);
      hide At, First, Be16, Carries, Unstamped, Stamped, Session, Padding, Encode;
      PutDest(client);
      TakeStamp(at, tagLen, ts);
    }

    /**
     * The PADO and PADS branch of `nat25_db_handle` with relay tags on: the client's address goes into the frame,
     * and the stamp out of it.
     */
    method RelayReply(ghost ts: seq<Tag>) returns (r: int)
      requires Holds(ts)
      modifies data, this`len
      ensures r == if |Session(ts)| >= 8 && Session(ts)[0] == 0x81 && Session(ts)[1] == 0x86 then 0 else -1
      ensures !Stamped(ts) ==> len == old(len) && data[..] == old(data[..])
      ensures Stamped(ts) ==> Holds(Unstamped(ts))
      ensures Stamped(ts) ==> data[..LENGTH_AT] == Session(ts)[2..STAMP_LEN] + old(data[ETH_ALEN..LENGTH_AT])
      ensures r == 0 ==> data[..18] == Session(ts)[2..8] + old(data[6..18])
      ensures Stamped(ts) ==> Padding(data[..], len, Unstamped(ts)) == old(Padding(data[..], len, ts))
    {
      assert Stamped(ts) ==> Tagged(ts) && |Session(ts)| >= STAMP_LEN;
      StampedIff(ts);
      hide At, First, Be16, Carries, Unstamped, Stamped, Session, Padding, Encode, Tagged;
      FindCarried(data[..], len, ts, 0);
      var at := Find();
      if at.None? {
        return -1;
      }
      var stamped, tagLen, client := ReadStamp(at.value, ts);
      if !stamped {
        return -1;
      }
      Forward(at.value, tagLen, client, ts);
      r := 0;
    }
  }

  /** The client's own relay tag, as far as the bridge gives it back: an empty one is lost. */
  function Original(ts: seq<Tag>): seq<Tag> {
    if Session(ts) == [] then [] else [ts[First(ts)]]
  }

  /** The first relay tag, between tags of which those in front are none. */
  lemma FirstAt(xs: seq<Tag>, t: Tag, ys: seq<Tag>)
    requires !Tagged(xs) && t.kind == PTT_RELAY_SID
    ensures var ts := xs + [t] + ys; First(ts) == |xs| && Tagged(ts) && Session(ts) == t.value
    ensures var ts := xs + [t] + ys; ts[..|xs|] == xs && ts[|xs| + 1..] == ys
  {
    var ts := xs + [t] + ys;
    assert ts[|xs|] == t;
    assert forall i :: 0 <= i < |xs| ==> ts[i] == xs[i];
    Parts(xs, [t], ys);
  }

  lemma NoneAt(xs: seq<Tag>, ys: seq<Tag>)
    requires !Tagged(xs) && !Tagged(ys)
    ensures !Tagged(xs + ys)
  {
    var ts := xs + ys;
    assert forall i :: 0 <= i < |xs| ==> ts[i] == xs[i];
    assert forall i :: |xs| <= i < |ts| ==> ts[i] == ys[i - |xs|];
  }

  /**
   * The two branches undo each other. When the server's reply has the relay tag of the request as its first one,
   * the reply goes to the client, with the client's own relay tag in that place and all other tags as they were.
   */
  lemma RoundTrip(ts: seq<Tag>, client: seq<byte>, xs: seq<Tag>, ys: seq<Tag>)
    requires |client| == ETH_ALEN && |Session(ts)| <= TAG_BUF_LEN - TAG_HDR_LEN - STAMP_LEN && !Tagged(xs)
    ensures var reply := xs + [Stamp(client, Session(ts))] + ys;
      Stamped(reply) && Session(reply)[2..STAMP_LEN] == client && Unstamped(reply) == xs + Original(ts) + ys
  {
    FirstAt(xs, Stamp(client, Session(ts)), ys);
    hide First;
    Parts(MAGIC, client, Session(ts));
  }

  /** A client with an empty relay tag gets none back. */
  lemma EmptyTagLost(client: seq<byte>)
    requires |client| == ETH_ALEN
    ensures var ts := [Tag(PTT_RELAY_SID, [])];
      Tagged(ts) && Session(ts) == [] && Stamped([Stamp(client, [])]) && !Tagged(Unstamped([Stamp(client, [])]))
  {
    var ts := [Tag(PTT_RELAY_SID, [])];
    assert Tagged(ts) && Session(ts) == [] && !Tagged([]);
    hide First, Stamp, Unstamped;
    RestoredIff(ts, client, [], []);
    assert [] + [Stamp(client, [])] + [] == [Stamp(client, [])];
  }

  /** The client gets its relay tag back just when that was not empty; without one, it gets none. */
  lemma RestoredIff(ts: seq<Tag>, client: seq<byte>, xs: seq<Tag>, ys: seq<Tag>)
    requires |client| == ETH_ALEN && |Session(ts)| <= TAG_BUF_LEN - TAG_HDR_LEN - STAMP_LEN
    requires !Tagged(xs) && !Tagged(ys)
    ensures var reply := xs + [Stamp(client, Session(ts))] + ys;
      && Stamped(reply)
      && var back := Unstamped(reply);
         Session(back) == Session(ts) && (Tagged(back) == Tagged(ts) <==> !(Tagged(ts) && Session(ts) == []))
  {
    hide First, Stamp, Unstamped;
    RoundTrip(ts, client, xs, ys);
    if Session(ts) == [] {
      NoneAt(xs, ys);
      assert xs + Original(ts) + ys == xs + ys;
    } else {
      FirstAt(xs, ts[First(ts)], ys);
    }
  }

  /**
   * Both branches in a row, on a host that reads the length as it is meant: the server answers with the relay tag
   * that the request leaves with, and the answer reaches the client with the client's own tag in it.
   */
  method Exchange(request: Frame, ghost ts: seq<Tag>, reply: Frame, ghost xs: seq<Tag>, ghost ys: seq<Tag>)
    requires request.data != reply.data && request != reply && request.Holds(ts)
    requires |Session(ts)| <= TAG_BUF_LEN - TAG_HDR_LEN - STAMP_LEN && !Tagged(xs)
    requires TAG_HDR_LEN + STAMP_LEN + |Session(ts)| <= request.Room() + Freed(ts)
    requires reply.Holds(xs + [Stamp(request.Client(), Session(ts))] + ys)
    modifies request.data, request`len, reply.data, reply`len
    ensures request.Holds([Stamp(old(request.Client()), Session(ts))] + Others(ts))
    ensures reply.Holds(xs + Original(ts) + ys)
    ensures reply.data[..LENGTH_AT] == old(request.Client()) + old(reply.data[ETH_ALEN..LENGTH_AT])
  {
    RoundTrip(ts, request.Client(), xs, ys);
    ghost var tags := xs + [Stamp(request.Client(), Session(ts))] + ys;
    hide *;
    var sent := request.RelayRequest(true, ts);
    var received := reply.RelayReply(tags);
  }
}
