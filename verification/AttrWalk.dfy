/** The walk over the attributes of a P2P or WFD element, with lengths of sixteen bits (rtw_ieee80211.c). */
module AttrWalk {
  import opened Bytes
  import opened Elements
  import opened ElementSearch
  import opened Options

  /** The two vendor element families; they differ in the OUI type and in the octet order of lengths. */
  datatype Kind = P2p | Wfd
  {
    const oui: seq<byte> := if P2p? then [0x50, 0x6F, 0x9A, 0x09] else [0x50, 0x6F, 0x9A, 0x0A]
    const pattern: Pattern := Pattern(VENDOR_SPECIFIC, oui)

    function Length16(b: seq<byte>, i: nat): (n: nat)
      requires i + 2 <= |b|
      ensures n < 0x1_0000
    {
      if P2p? then Le16(b, i) else Be16(b, i)
    }
  }

  /** A sixteen-bit variable keeps the low sixteen bits. */
  function U16(n: nat): nat {
    n % 0x1_0000
  }

  /** The octets the driver takes for the attribute at the head of `b`: header and data, in sixteen bits. */
  function AttrSize(kind: Kind, b: seq<byte>): nat
    requires |b| >= 3
  {
    U16(kind.Length16(b, 1) + 3)
  }

  /** No complete attribute starts here: one octet of id, two of length, then the data. */
  predicate AttrStuck(kind: Kind, b: seq<byte>) {
    |b| < 3 || AttrSize(kind, b) > |b|
  }

  // ----- One turn of the walk, and where it goes -----

  /** The walk ends here, with or without an attribute, or the cursor moves on. */
  datatype Turn = Ended(hit: Option<Hit>) | On(n: nat)

  /** One turn with the cursor at the head of `b`. */
  function TurnOf(kind: Kind, b: seq<byte>, id: byte): (t: Turn)
    ensures t.On? ==> t.n <= |b|
  {
    if AttrStuck(kind, b) then Ended(None)
    else if b[0] == id then Ended(Some(Hit(0, AttrSize(kind, b))))
    else On(AttrSize(kind, b))
  }

  /** The octets from the cursor on after `k` turns, nothing if the walk has ended before. */
  function Cursor(kind: Kind, b: seq<byte>, id: byte, k: nat): Option<seq<byte>>
    decreases k
  {
    if k == 0 then Some(b)
    else match TurnOf(kind, b, id)
      case Ended(_) => None
      case On(n) => Cursor(kind, b[n..], id, k - 1)
  }

  /** The header under the cursor declares 65533 octets of data for an attribute that is not wanted. */
  predicate StandsStill(kind: Kind, b: seq<byte>, id: byte) {
    |b| >= 3 && kind.Length16(b, 1) == 65533 && b[0] != id
  }

  /** That is exactly when a turn leaves the cursor where it is. */
  lemma StandsStillIff(kind: Kind, b: seq<byte>, id: byte)
    ensures StandsStill(kind, b, id) <==> TurnOf(kind, b, id) == On(0)
  {
  }

  /** The walk ends. */
  predicate Ends(kind: Kind, b: seq<byte>, id: byte)
    decreases |b|
  {
    match TurnOf(kind, b, id)
    case Ended(_) => true
    case On(n) => n > 0 && Ends(kind, b[n..], id)
  }

  /** The walk ends exactly if its cursor never comes to a header on which it stands still. */
  lemma EndsIff(kind: Kind, b: seq<byte>, id: byte)
    ensures Ends(kind, b, id) <==> exists k :: Cursor(kind, b, id, k) == None
    ensures Ends(kind, b, id) <==>
      forall k: nat :: Cursor(kind, b, id, k) != None ==> !StandsStill(kind, Cursor(kind, b, id, k).value, id)
  {
    if Ends(kind, b, id) {
      var k := TurnsToEnd(kind, b, id);
      forall k: nat | Cursor(kind, b, id, k) != None ensures !StandsStill(kind, Cursor(kind, b, id, k).value, id) {
        NeverStill(kind, b, id, k);
      }
    } else {
      var j := TurnsToStill(kind, b, id);
      forall k: nat ensures Cursor(kind, b, id, k) != None {
        StillForever(kind, b, id, j, k);
      }
    }
  }

  lemma {:induction false} TurnsToEnd(kind: Kind, b: seq<byte>, id: byte) returns (k: nat)
    requires Ends(kind, b, id)
    ensures Cursor(kind, b, id, k) == None
    decreases |b|
  {
    match TurnOf(kind, b, id)
    case Ended(_) => k := 1;
    case On(n) =>
      k := TurnsToEnd(kind, b[n..], id);
      k := k + 1;
  }

  lemma {:induction false} NeverStill(kind: Kind, b: seq<byte>, id: byte, k: nat)
    requires Ends(kind, b, id) && Cursor(kind, b, id, k) != None
    ensures !StandsStill(kind, Cursor(kind, b, id, k).value, id)
    decreases k
  {
    StandsStillIff(kind, b, id);
    if k > 0 && TurnOf(kind, b, id).On? {
      NeverStill(kind, b[TurnOf(kind, b, id).n..], id, k - 1);
    }
  }

  lemma {:induction false} TurnsToStill(kind: Kind, b: seq<byte>, id: byte) returns (j: nat)
    requires !Ends(kind, b, id)
    ensures Cursor(kind, b, id, j) != None && StandsStill(kind, Cursor(kind, b, id, j).value, id)
    decreases |b|
  {
    StandsStillIff(kind, b, id);
    var n := TurnOf(kind, b, id).n;
    if n == 0 {
      j := 0;
    } else {
      j := TurnsToStill(kind, b[n..], id);
      j := j + 1;
    }
  }

  /** Once it stands still it does so for ever. */
  lemma {:induction false} StillForever(kind: Kind, b: seq<byte>, id: byte, j: nat, k: nat)
    requires Cursor(kind, b, id, j) != None && StandsStill(kind, Cursor(kind, b, id, j).value, id)
    ensures Cursor(kind, b, id, k) != None
    decreases k
  {
    StandsStillIff(kind, b, id);
    if k > 0 {
      if j > 0 {
        StillForever(kind, b[TurnOf(kind, b, id).n..], id, j - 1, k - 1);
      } else {
        assert b[0..] == b;
        StillForever(kind, b, id, 0, k - 1);
      }
    }
  }

  /** A header of id 7 that declares 65533 octets: 7, 0xFD, 0xFF in a P2P element. */
  function Bogus(kind: Kind): seq<byte> {
    if kind.P2p? then [7, 0xFD, 0xFF] else [7, 0xFF, 0xFD]
  }

  /** Three octets on which the walk for any other id never ends, while the walk for id 7 ends at once. */
  lemma {:induction false} WalkForever(kind: Kind, id: byte, k: nat)
    requires id != 7
    ensures Cursor(kind, Bogus(kind), id, k) == Some(Bogus(kind))
    ensures !Ends(kind, Bogus(kind), id) && !PruneEnds(kind, Bogus(kind), id)
    ensures Ends(kind, Bogus(kind), 7) && TurnOf(kind, Bogus(kind), 7) == Ended(Some(Hit(0, 0)))
  {
    var b := Bogus(kind);
    assert kind.Length16(b, 1) == 65533 && b[0..] == b;
    if k > 0 {
      WalkForever(kind, id, k - 1);
    }
  }

  // ----- Search and deletion -----

  /** Offset and size of the first attribute with the id. */
  function FindAttr(kind: Kind, b: seq<byte>, id: byte): (r: Option<Hit>)
    requires Ends(kind, b, id)
    ensures r != None ==> r.value.pos + 3 <= |b| && r.value.pos + r.value.len <= |b|
    decreases |b|
  {
    match TurnOf(kind, b, id)
    case Ended(hit) => hit
    case On(n) => Shift(FindAttr(kind, b[n..], id), n)
  }

  /** A search, turn by turn. */
  lemma FindTurn(kind: Kind, b: seq<byte>, id: byte)
    requires Ends(kind, b, id) && |b| >= 3
    ensures var n := AttrSize(kind, b);
      if n > |b| then FindAttr(kind, b, id) == None
      else if b[0] == id then FindAttr(kind, b, id) == Some(Hit(0, n))
      else n > 0 && Ends(kind, b[n..], id) && FindAttr(kind, b, id) == Shift(FindAttr(kind, b[n..], id), n)
  {
  }

  /** The same find, seen from `d` octets further ahead. */
  function Shift(h: Option<Hit>, d: nat): Option<Hit> {
    match h
    case None => None
    case Some(x) => Some(Hit(x.pos + d, x.len))
  }

  /** `b` without the octets of a find. */
  function Cut1(b: seq<byte>, h: Hit): (c: seq<byte>)
    requires h.pos + h.len <= |b|
    ensures |c| == |b| - h.len
  {
    b[..h.pos] + b[h.pos + h.len..]
  }

  /** Every search of the deletion ends. */
  predicate PruneEnds(kind: Kind, b: seq<byte>, id: byte)
    decreases |b|
  {
    && Ends(kind, b, id)
    && var f := FindAttr(kind, b, id);
       (f != None && f.value.len > 0 ==> PruneEnds(kind, Cut1(b, f.value), id))
  }

  /** Searching and cutting until the search finds nothing, or nothing to cut. */
  function Pruned(kind: Kind, b: seq<byte>, id: byte): (c: seq<byte>)
    ensures |c| <= |b|
    decreases |b|
  {
    if !Ends(kind, b, id) then b
    else match FindAttr(kind, b, id)
      case None => b
      case Some(h) => if h.len == 0 then b else Pruned(kind, Cut1(b, h), id)
  }

  /** What is left after `k` cuts, nothing if the deletion has ended, or hangs, before. */
  function AfterCuts(kind: Kind, b: seq<byte>, id: byte, k: nat): Option<seq<byte>>
    decreases k
  {
    if k == 0 then Some(b)
    else if !Ends(kind, b, id) then None
    else match FindAttr(kind, b, id)
      case None => None
      case Some(h) => if h.len == 0 then None else AfterCuts(kind, Cut1(b, h), id, k - 1)
  }

  /** The search after `k` cuts, if it comes to that, ends. */
  predicate SearchEnds(kind: Kind, b: seq<byte>, id: byte, k: nat) {
    var c := AfterCuts(kind, b, id, k);
    c != None ==> Ends(kind, c.value, id)
  }

  /** The deletion ends exactly if each of its searches does. */
  lemma {:induction false} PruneEndsIff(kind: Kind, b: seq<byte>, id: byte)
    ensures PruneEnds(kind, b, id) <==> forall k: nat :: SearchEnds(kind, b, id, k)
    decreases |b|
  {
    hide *;
    FirstSearch(kind, b, id);
    if Ends(kind, b, id) && FindAttr(kind, b, id) != None && FindAttr(kind, b, id).value.len > 0 {
      var c := Cut1(b, FindAttr(kind, b, id).value);
      PruneEndsIff(kind, c, id);
      forall k: nat ensures SearchEnds(kind, b, id, k + 1) == SearchEnds(kind, c, id, k) {
        LaterSearch(kind, b, id, k);
      }
      LaterSearch(kind, b, id, 0);
      forall k: nat | k > 0 ensures SearchEnds(kind, b, id, k) == SearchEnds(kind, c, id, k - 1) {
        LaterSearch(kind, b, id, k - 1);
      }
    } else if Ends(kind, b, id) {
      forall k: nat ensures SearchEnds(kind, b, id, k) {
        OneSearch(kind, b, id, k);
      }
    }
  }

  lemma FirstSearch(kind: Kind, b: seq<byte>, id: byte)
    ensures SearchEnds(kind, b, id, 0) == Ends(kind, b, id) && (PruneEnds(kind, b, id) ==> Ends(kind, b, id))
    ensures Ends(kind, b, id) && (FindAttr(kind, b, id) == None || FindAttr(kind, b, id).value.len == 0) ==>
      PruneEnds(kind, b, id)
  {
  }

  lemma LaterSearch(kind: Kind, b: seq<byte>, id: byte, k: nat)
    requires Ends(kind, b, id) && FindAttr(kind, b, id) != None && FindAttr(kind, b, id).value.len > 0
    ensures var c := Cut1(b, FindAttr(kind, b, id).value);
      && |c| < |b| && PruneEnds(kind, b, id) == PruneEnds(kind, c, id)
      && SearchEnds(kind, b, id, k + 1) == SearchEnds(kind, c, id, k)
  {
  }

  lemma OneSearch(kind: Kind, b: seq<byte>, id: byte, k: nat)
    requires Ends(kind, b, id) && (FindAttr(kind, b, id) == None || FindAttr(kind, b, id).value.len == 0)
    ensures SearchEnds(kind, b, id, k)
  {
  }

  /** One cut of the deletion. */
  lemma PrunedOn(kind: Kind, b: seq<byte>, id: byte, h: Hit)
    requires PruneEnds(kind, b, id) && FindAttr(kind, b, id) == Some(h) && h.len > 0
    ensures h.pos + h.len <= |b| && PruneEnds(kind, Cut1(b, h), id)
    ensures Pruned(kind, b, id) == Pruned(kind, Cut1(b, h), id)
  {
  }

  /** The end of the deletion. */
  lemma PrunedStop(kind: Kind, b: seq<byte>, id: byte)
    requires PruneEnds(kind, b, id) && (FindAttr(kind, b, id) == None || FindAttr(kind, b, id).value.len == 0)
    ensures Pruned(kind, b, id) == b
  {
  }

  lemma PruneSearches(kind: Kind, b: seq<byte>, id: byte)
    requires PruneEnds(kind, b, id)
    ensures Ends(kind, b, id)
  {
  }

  /** A search finds nothing, or a header with the id that declares 65533 octets and so nothing to cut. */
  predicate Cleared(kind: Kind, b: seq<byte>, id: byte) {
    && Ends(kind, b, id)
    && var f := FindAttr(kind, b, id);
       f == None || (b[f.value.pos] == id && kind.Length16(b, f.value.pos + 1) == 65533)
  }

  /** What the deletion leaves of the attributes with the id. */
  lemma {:induction false} PrunedLeaves(kind: Kind, b: seq<byte>, id: byte)
    requires PruneEnds(kind, b, id)
    ensures Cleared(kind, Pruned(kind, b, id), id)
    decreases |b|
  {
    hide Pruned, PruneEnds, Cut1, Ends, FindAttr;
    PruneSearches(kind, b, id);
    var f := FindAttr(kind, b, id);
    if f != None && f.value.len > 0 {
      PrunedOn(kind, b, id, f.value);
      PrunedLeaves(kind, Cut1(b, f.value), id);
    } else {
      PrunedStop(kind, b, id);
      if f != None {
        FoundHeader(kind, b, id);
      }
    }
  }

  /** What a search finds is a header with the id, of the size it reports. */
  lemma {:induction false} FoundHeader(kind: Kind, b: seq<byte>, id: byte)
    requires Ends(kind, b, id) && FindAttr(kind, b, id) != None
    ensures var h := FindAttr(kind, b, id).value;
      h.pos + 3 <= |b| && b[h.pos] == id && h.len == U16(kind.Length16(b, h.pos + 1) + 3)
    decreases |b|
  {
    if |b| >= 3 {
      FindTurn(kind, b, id);
      var n := AttrSize(kind, b);
      hide Ends, FindAttr, AttrSize;
      if n <= |b| && b[0] == id {
        FoundHere(kind, b);
      } else if n <= |b| {
        FoundHeader(kind, b[n..], id);
        FoundBehind(kind, b, n, FindAttr(kind, b[n..], id).value.pos);
      }
    }
  }

  lemma FoundHere(kind: Kind, b: seq<byte>)
    requires |b| >= 3
    ensures AttrSize(kind, b) == U16(kind.Length16(b, 1) + 3)
  {
  }

  lemma FoundBehind(kind: Kind, b: seq<byte>, n: nat, pos: nat)
    requires n + pos + 3 <= |b|
    ensures b[n..][pos] == b[n + pos] && kind.Length16(b[n..], pos + 1) == kind.Length16(b, n + pos + 1)
  {
    assert b[n..][pos + 1] == b[n + pos + 1] && b[n..][pos + 2] == b[n + pos + 2];
  }

  // ----- Without wrap-around, deletion is a filter -----

  /** No attribute header met on the way declares a length that overflows sixteen bits. */
  predicate Walkable(kind: Kind, b: seq<byte>)
    decreases |b|
  {
    |b| < 3 || (kind.Length16(b, 1) + 3 < 0x1_0000 && (AttrStuck(kind, b) || Walkable(kind, b[AttrSize(kind, b)..])))
  }

  lemma {:induction false} WalkableEnds(kind: Kind, b: seq<byte>, id: byte)
    requires Walkable(kind, b)
    ensures Ends(kind, b, id)
    decreases |b|
  {
    if TurnOf(kind, b, id).On? {
      WalkableEnds(kind, b[AttrSize(kind, b)..], id);
    }
  }

  /** The attributes with the id taken out; octets that form no attribute stay. */
  function DelAttrs(kind: Kind, b: seq<byte>, id: byte): (r: seq<byte>)
    requires Walkable(kind, b)
    ensures |r| <= |b|
    decreases |b|
  {
    if AttrStuck(kind, b) then b
    else
      var n := AttrSize(kind, b);
      (if b[0] == id then [] else b[..n]) + DelAttrs(kind, b[n..], id)
  }

  /** The head of `b` reads the same as long as its first attribute is whole. */
  lemma HeadStays(kind: Kind, b: seq<byte>, tail: seq<byte>)
    requires !AttrStuck(kind, b) && AttrSize(kind, b) >= 3
    ensures var n := AttrSize(kind, b); var c := b[..n] + tail;
      !AttrStuck(kind, c) && AttrSize(kind, c) == n && c[0] == b[0] && kind.Length16(c, 1) == kind.Length16(b, 1)
      && c[..n] == b[..n] && c[n..] == tail
  {
    var n := AttrSize(kind, b);
    var c := b[..n] + tail;
    assert c[1] == b[1] && c[2] == b[2];
  }

  /** One attribute in front of octets that can be walked. */
  lemma DelCons(kind: Kind, b: seq<byte>, tail: seq<byte>, id: byte)
    requires !AttrStuck(kind, b) && Walkable(kind, b) && Walkable(kind, tail)
    ensures var n := AttrSize(kind, b); var c := b[..n] + tail;
      && Walkable(kind, c) && Walkable(kind, b[n..])
      && DelAttrs(kind, c, id) == (if b[0] == id then [] else b[..n]) + DelAttrs(kind, tail, id)
  {
    HeadStays(kind, b, tail);
  }

  /** A search over octets that can be walked. */
  lemma FindHead(kind: Kind, b: seq<byte>, id: byte)
    requires Walkable(kind, b)
    ensures Ends(kind, b, id)
    ensures AttrStuck(kind, b) ==> FindAttr(kind, b, id) == None
    ensures !AttrStuck(kind, b) ==>
      var n := AttrSize(kind, b);
      && n >= 3 && Walkable(kind, b[n..]) && Ends(kind, b[n..], id)
      && FindAttr(kind, b, id) == if b[0] == id then Some(Hit(0, n)) else Shift(FindAttr(kind, b[n..], id), n)
  {
    WalkableEnds(kind, b, id);
    if !AttrStuck(kind, b) {
      WalkableEnds(kind, b[AttrSize(kind, b)..], id);
    }
  }

  lemma {:induction false} DelNone(kind: Kind, b: seq<byte>, id: byte)
    requires Walkable(kind, b) && Ends(kind, b, id) && FindAttr(kind, b, id) == None
    ensures DelAttrs(kind, b, id) == b
    decreases |b|
  {
    FindHead(kind, b, id);
    if !AttrStuck(kind, b) {
      var n := AttrSize(kind, b);
      DelNone(kind, b[n..], id);
      Cut(b, n);
    }
  }

  /** Taking out the first attribute with the id leaves the rest of the deletion to be done. */
  lemma {:induction false} DelFirst(kind: Kind, b: seq<byte>, id: byte, h: Hit)
    requires Walkable(kind, b) && Ends(kind, b, id) && FindAttr(kind, b, id) == Some(h)
    ensures h.pos + h.len <= |b| && 3 <= h.len && Walkable(kind, Cut1(b, h))
    ensures DelAttrs(kind, Cut1(b, h), id) == DelAttrs(kind, b, id)
    decreases |b|
  {
    hide FindAttr, DelAttrs, Walkable, Ends;
    FindHead(kind, b, id);
    var n := AttrSize(kind, b);
    var rest := b[n..];
    DelCons(kind, b, rest, id);
    Cut(b, n);
    if b[0] == id {
      assert Cut1(b, h) == rest;
    } else {
      var g := Hit(h.pos - n, h.len);
      DelFirst(kind, rest, id, g);
      SpliceTail(b, n, h, g);
      DelCons(kind, b, Cut1(rest, g), id);
    }
  }

  lemma SpliceTail(b: seq<byte>, n: nat, h: Hit, g: Hit)
    requires n <= |b| && g.pos + g.len <= |b| - n && h == Hit(g.pos + n, g.len)
    ensures Cut1(b, h) == b[..n] + Cut1(b[n..], g)
  {
  }

  /** Where no length overflows, the deletion takes out every attribute with the id and nothing else. */
  lemma {:induction false} PrunedIsFilter(kind: Kind, b: seq<byte>, id: byte)
    requires Walkable(kind, b)
    ensures PruneEnds(kind, b, id) && Pruned(kind, b, id) == DelAttrs(kind, b, id)
    decreases |b|
  {
    FindHead(kind, b, id);
    hide FindAttr, DelAttrs, Walkable, Ends, Cut1;
    var f := FindAttr(kind, b, id);
    if f == None {
      DelNone(kind, b, id);
    } else {
      DelFirst(kind, b, id, f.value);
      PrunedIsFilter(kind, Cut1(b, f.value), id);
    }
  }
}
