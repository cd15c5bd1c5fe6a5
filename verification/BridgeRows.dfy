/** The NAT2.5 bridge database as bucketed lists of rows, and as a map from network addresses (rtw_br_ext.c). */
module BridgeRows {
  import opened Bytes
  import opened Options

  const NAT25_HASH_SIZE := 16
  const NAT25_AGEING_TIME := 300
  const MAX_NETWORK_ADDR_LEN := 17

  /** A network address as the database records it: protocol type first, then the address, padded with zeros. */
  type Addr = a: seq<byte> | |a| == 17 witness Zeros(17)

  type Mac = m: seq<byte> | |m| == 6 witness Zeros(6)

  datatype Row = Row(addr: Addr, mac: Mac, ageing: int, useCount: int)

  /** `__nat25_has_expired`, on times that do not wrap. */
  predicate Expired(ageing: int, now: int, hz: int) {
    ageing <= now - NAT25_AGEING_TIME * hz
  }

  function Xor(bs: seq<byte>): bv8 {
    if bs == [] then 0 else bs[0] as bv8 ^ Xor(bs[1..])
  }

  /** `__nat25_network_hash`: the octets that count depend on the protocol type. */
  function Hash(a: Addr): (h: nat)
    ensures h < NAT25_HASH_SIZE
  {
    var x :=
      if a[0] == 1 then Xor(a[7..11])
      else if a[0] == 3 then Xor(a[1..11])
      else if a[0] == 4 then Xor(a[1..4])
      else if a[0] == 5 then Xor(a[..9])
      else if a[0] == 2 then Xor(a[1..17])
      else Xor(a);
    (x & 15) as nat
  }

  /** The octets of an address that count, by its protocol type: IPv4, IPX, AppleTalk, PPPoE, IPv6, or any other. */
  function Counting(kind: byte): (r: (nat, nat))
    ensures r.0 <= r.1 <= MAX_NETWORK_ADDR_LEN
  {
    match kind
    case 1 => (7, 11)
    case 3 => (1, 11)
    case 4 => (1, 4)
    case 5 => (0, 9)
    case 2 => (1, 17)
    case _ => (0, 17)
  }

  /** Addresses of one type that agree on those octets share a bucket. */
  lemma BucketDecided(a: Addr, b: Addr)
    requires a[0] == b[0]
    requires var c := Counting(a[0]); a[c.0..c.1] == b[c.0..c.1]
    ensures Hash(a) == Hash(b)
  {
    assert a[0..9] == a[..9] && b[0..9] == b[..9] && a[0..17] == a && b[0..17] == b;
    hide Xor;
  }

  /** Position of the address, or the number of rows. */
  function Index(rows: seq<Row>, a: Addr): (k: nat)
    ensures k <= |rows|
    ensures k < |rows| ==> rows[k].addr == a
    ensures forall i :: 0 <= i < k ==> rows[i].addr != a
  {
    if rows == [] || rows[0].addr == a then 0 else 1 + Index(rows[1..], a)
  }

  function Get(rows: seq<Row>, a: Addr): Option<Row> {
    if Index(rows, a) < |rows| then Some(rows[Index(rows, a)]) else None
  }

  predicate Unique(rows: seq<Row>) {
    forall i, j :: 0 <= i < j < |rows| ==> rows[i].addr != rows[j].addr
  }

  /** A bucket holds addresses that hash to it, each once, and every row is in use. */
  predicate BucketOk(i: nat, rows: seq<Row>) {
    Unique(rows) && forall k :: 0 <= k < |rows| ==> Hash(rows[k].addr) == i && rows[k].useCount >= 1
  }

  /** One row in front. */
  lemma Cons(i: nat, r: Row, rows: seq<Row>, a: Addr)
    ensures Get([r] + rows, a) == if r.addr == a then Some(r) else Get(rows, a)
    ensures BucketOk(i, [r] + rows) <==>
      BucketOk(i, rows) && Hash(r.addr) == i && r.useCount >= 1 && Get(rows, r.addr) == None
  {
    hide *;
    GetCons(r, rows, a);
    BucketCons(i, r, rows);
  }

  lemma GetCons(r: Row, rows: seq<Row>, a: Addr)
    ensures Get([r] + rows, a) == if r.addr == a then Some(r) else Get(rows, a)
  {
    assert ([r] + rows)[1..] == rows;
  }

  /** No row has the address just when none is found. */
  lemma GetNone(rows: seq<Row>, a: Addr)
    ensures Get(rows, a) == None <==> forall k :: 0 <= k < |rows| ==> rows[k].addr != a
  {
  }

  lemma UniqueCons(r: Row, rows: seq<Row>)
    ensures Unique([r] + rows) <==> Unique(rows) && forall k :: 0 <= k < |rows| ==> rows[k].addr != r.addr
  {
    var all := [r] + rows;
    if Unique(all) {
      forall k | 0 <= k < |rows| ensures rows[k].addr != r.addr {
        assert all[0] == r && all[k + 1] == rows[k];
      }
      forall j, k | 0 <= j < k < |rows| ensures rows[j].addr != rows[k].addr {
        assert all[j + 1] == rows[j] && all[k + 1] == rows[k];
      }
    }
  }

  lemma BucketCons(i: nat, r: Row, rows: seq<Row>)
    ensures BucketOk(i, [r] + rows) <==>
      BucketOk(i, rows) && Hash(r.addr) == i && r.useCount >= 1 && Get(rows, r.addr) == None
  {
    hide Hash, Get, Unique;
    GetNone(rows, r.addr);
    UniqueCons(r, rows);
    var all := [r] + rows;
    assert all[0] == r;
    forall k | 0 <= k < |rows| ensures rows[k] == all[k + 1] {
    }
  }

  /** What `Get` finds for the address of a row is that row. */
  lemma {:induction false} GetAt(i: nat, rows: seq<Row>, k: nat)
    requires BucketOk(i, rows) && k < |rows|
    ensures Get(rows, rows[k].addr) == Some(rows[k]) && Index(rows, rows[k].addr) == k
  {
  }

  // ----- What the operations do to a bucket -----

  /** A row after one ageing pass, if there is one left. */
  function Aged(r: Row, now: int, hz: int): Option<Row> {
    if !Expired(r.ageing, now, hz) then Some(r)
    else if r.useCount == 1 then None
    else Some(r.(useCount := r.useCount - 1))
  }

  /** The rows that are left of an optional one. */
  function Kept(r: Option<Row>): seq<Row> {
    if r.Some? then [r.value] else []
  }

  function AgeRows(rows: seq<Row>, now: int, hz: int): seq<Row> {
    if rows == [] then [] else Kept(Aged(rows[0], now, hz)) + AgeRows(rows[1..], now, hz)
  }

  lemma {:induction false} AgeAppend(xs: seq<Row>, r: Row, now: int, hz: int)
    ensures AgeRows(xs + [r], now, hz) == AgeRows(xs, now, hz) + Kept(Aged(r, now, hz))
  {
    if xs == [] {
      assert xs + [r] == [r] && [r][1..] == [];
    } else {
      AgeAppend(xs[1..], r, now, hz);
      assert (xs + [r])[1..] == xs[1..] + [r];
      Assoc(Kept(Aged(xs[0], now, hz)), AgeRows(xs[1..], now, hz), Kept(Aged(r, now, hz)));
    }
  }

  /** One turn of the walk over a bucket: rows before `m` are aged, row `m` is next. */
  lemma AgeTurn(rows: seq<Row>, m: nat, now: int, hz: int)
    requires m < |rows|
    ensures var done, r := AgeRows(rows[..m], now, hz), Kept(Aged(rows[m], now, hz));
      && AgeRows(rows[..m + 1], now, hz) == done + r
      && (done + rows[m..])[..|done|] + r + (done + rows[m..])[|done| + 1..] == done + r + rows[m + 1..]
  {
    AgeAppend(rows[..m], rows[m], now, hz);
    assert rows[..m] + [rows[m]] == rows[..m + 1];
  }

  /** Ageing a bucket ages what is found in it. */
  lemma {:induction false} AgeGet(i: nat, rows: seq<Row>, now: int, hz: int, a: Addr)
    requires BucketOk(i, rows)
    ensures BucketOk(i, AgeRows(rows, now, hz))
    ensures Get(AgeRows(rows, now, hz), a) == if Get(rows, a) == None then None else Aged(Get(rows, a).value, now, hz)
  {
    if rows != [] {
      var r, tail := rows[0], rows[1..];
      var aged := AgeRows(tail, now, hz);
      Uncons(rows);
      hide BucketOk, Get;
      Cons(i, r, tail, a);
      AgeGet(i, tail, now, hz, a);
      AgeGet(i, tail, now, hz, r.addr);
      if Aged(r, now, hz) == None {
        assert AgeRows(rows, now, hz) == aged;
      } else {
        Cons(i, Aged(r, now, hz).value, aged, a);
      }
    }
  }

  lemma KeptIs(o: Option<Row>)
    ensures Kept(o) == if o == None then [] else [o.value]
  {
  }

  lemma FrontPart(rows: seq<Row>, k: seq<Row>)
    requires rows != []
    ensures rows[..0] + k + rows[1..] == k + rows[1..]
  {
  }

  lemma SplicePart(rows: seq<Row>, m: nat, k: seq<Row>)
    requires 0 < m < |rows|
    ensures rows[1..][m - 1] == rows[m]
    ensures rows[..m] + k + rows[m + 1..] == [rows[0]] + (rows[1..][..m - 1] + k + rows[1..][m..])
  {
    assert rows[..m] == [rows[0]] + rows[1..][..m - 1];
  }

  /** Exchanging one row for another of the same address, or for none. */
  lemma {:induction false} SpliceGet(i: nat, rows: seq<Row>, m: nat, o: Option<Row>, a: Addr)
    requires BucketOk(i, rows) && m < |rows|
    requires o != None ==> o.value.addr == rows[m].addr && o.value.useCount >= 1
    ensures var now := rows[..m] + Kept(o) + rows[m + 1..];
      BucketOk(i, now) && Get(now, a) == if a == rows[m].addr then o else Get(rows, a)
  {
    var r, tail := rows[0], rows[1..];
    hide *;
    Uncons(rows);
    Cons(i, r, tail, a);
    if m == 0 {
      KeptIs(o);
      FrontPart(rows, Kept(o));
      if o == None {
        assert Kept(o) + tail == tail;
      } else {
        Cons(i, o.value, tail, a);
      }
    } else {
      var part := tail[..m - 1] + Kept(o) + tail[m..];
      SplicePart(rows, m, Kept(o));
      SpliceGet(i, tail, m - 1, o, a);
      SpliceGet(i, tail, m - 1, o, r.addr);
      Cons(i, r, part, a);
    }
  }

  /** Changing mac, age and use count of one row in place. */
  lemma PutGet(i: nat, rows: seq<Row>, k: nat, r: Row, a: Addr)
    requires BucketOk(i, rows) && k < |rows| && r.addr == rows[k].addr && r.useCount >= 1
    ensures BucketOk(i, rows[k := r])
    ensures Get(rows[k := r], a) == if r.addr == a then Some(r) else Get(rows, a)
  {
    hide Hash;
    var now := rows[k := r];
    assert forall j :: 0 <= j < |rows| ==> now[j].addr == rows[j].addr;
    GetAt(i, now, k);
  }

  lemma InUse(i: nat, rows: seq<Row>, k: nat)
    requires BucketOk(i, rows) && k < |rows|
    ensures rows[k].useCount >= 1
  {
  }

  /** What `__nat25_db_network_insert` does to the bucket of the address. */
  function Inserted(rows: seq<Row>, a: Addr, mac: Mac, now: int): seq<Row> {
    var k := Index(rows, a);
    if k < |rows| then rows[k := rows[k].(mac := mac, ageing := now)] else [Row(a, mac, now, 1)] + rows
  }

  /** What `__nat25_db_network_lookup_and_replace` does to it. */
  function LookedUp(rows: seq<Row>, a: Addr, now: int, hz: int): seq<Row> {
    var k := Index(rows, a);
    if k < |rows| && !Expired(rows[k].ageing, now, hz) then rows[k := rows[k].(useCount := rows[k].useCount + 1)] else rows
  }

  /** A use of the cached entry for the address. */
  function Refreshed(rows: seq<Row>, a: Addr, now: int): seq<Row> {
    var k := Index(rows, a);
    if k < |rows| then rows[k := rows[k].(ageing := now)] else rows
  }

  // ----- The whole table -----

  predicate TableOk(t: seq<seq<Row>>) {
    |t| == NAT25_HASH_SIZE && forall i :: 0 <= i < NAT25_HASH_SIZE ==> BucketOk(i, t[i])
  }

  /** The table as a map. */
  function Read(t: seq<seq<Row>>, a: Addr): Option<Row>
    requires |t| == NAT25_HASH_SIZE
  {
    Get(t[Hash(a)], a)
  }

  datatype Op =
    | Insert(a: Addr, mac: Mac, now: int)
    | Lookup(a: Addr, now: int)
    | Refresh(a: Addr, now: int)
    | Expire(now: int)
    | Cleanup

  function Apply(t: seq<seq<Row>>, op: Op, hz: int): (t': seq<seq<Row>>)
    requires |t| == NAT25_HASH_SIZE
    ensures |t'| == NAT25_HASH_SIZE
  {
    match op
    case Insert(a, mac, now) => t[Hash(a) := Inserted(t[Hash(a)], a, mac, now)]
    case Lookup(a, now) => t[Hash(a) := LookedUp(t[Hash(a)], a, now, hz)]
    case Refresh(a, now) => t[Hash(a) := Refreshed(t[Hash(a)], a, now)]
    case Expire(now) => seq(NAT25_HASH_SIZE, i requires 0 <= i < NAT25_HASH_SIZE => AgeRows(t[i], now, hz))
    case Cleanup => seq(NAT25_HASH_SIZE, i => [])
  }

  /** The table after a pass over its first `i` buckets. */
  function AgedUpTo(t: seq<seq<Row>>, i: nat, now: int, hz: int): (n: seq<seq<Row>>)
    requires |t| == NAT25_HASH_SIZE
    ensures |n| == NAT25_HASH_SIZE
  {
    seq(NAT25_HASH_SIZE, j requires 0 <= j < NAT25_HASH_SIZE => if j < i then AgeRows(t[j], now, hz) else t[j])
  }

  lemma AgedUpToNext(t: seq<seq<Row>>, i: nat, now: int, hz: int)
    requires |t| == NAT25_HASH_SIZE
    ensures AgedUpTo(t, 0, now, hz) == t && AgedUpTo(t, NAT25_HASH_SIZE, now, hz) == Apply(t, Expire(now), hz)
    ensures i < NAT25_HASH_SIZE ==>
      AgedUpTo(t, i + 1, now, hz) == AgedUpTo(t, i, now, hz)[i := AgeRows(AgedUpTo(t, i, now, hz)[i], now, hz)]
  {
  }

  /** What an operation makes of the value of one address, without any buckets. */
  function Effect(v: Option<Row>, b: Addr, op: Op, hz: int): Option<Row> {
    match op
    case Insert(a, mac, now) =>
      if a != b then v else Some(Row(a, mac, now, if v == None then 1 else v.value.useCount))
    case Lookup(a, now) =>
      if a != b || v == None || Expired(v.value.ageing, now, hz) then v
      else Some(v.value.(useCount := v.value.useCount + 1))
    case Refresh(a, now) => if a != b || v == None then v else Some(v.value.(ageing := now))
    case Expire(now) => if v == None then None else Aged(v.value, now, hz)
    case Cleanup => None
  }

  /** The buckets act as one map: an operation on the table is its effect on every address. */
  lemma ActsAsMap(t: seq<seq<Row>>, op: Op, hz: int, b: Addr)
    requires TableOk(t)
    ensures TableOk(Apply(t, op, hz))
    ensures Read(Apply(t, op, hz), b) == Effect(Read(t, b), b, op, hz)
  {
    hide BucketOk, Hash, Inserted, LookedUp, Refreshed, Get;
    match op
    case Insert(a, mac, now) =>
      BucketInsert(Hash(a), t[Hash(a)], a, mac, now, b);
    case Lookup(a, now) =>
      BucketLookup(Hash(a), t[Hash(a)], a, now, hz, b);
    case Refresh(a, now) =>
      BucketRefresh(Hash(a), t[Hash(a)], a, now, b);
    case Expire(now) =>
      forall i | 0 <= i < NAT25_HASH_SIZE ensures BucketOk(i, AgeRows(t[i], now, hz)) {
        AgeGet(i, t[i], now, hz, b);
      }
      AgeGet(Hash(b), t[Hash(b)], now, hz, b);
    case Cleanup =>
      NoRows(b);
  }

  lemma NoRows(b: Addr)
    ensures Get([], b) == None && forall i: nat :: BucketOk(i, [])
  {
  }

  lemma BucketInsert(i: nat, rows: seq<Row>, a: Addr, mac: Mac, now: int, b: Addr)
    requires BucketOk(i, rows) && Hash(a) == i
    ensures BucketOk(i, Inserted(rows, a, mac, now))
    ensures Get(Inserted(rows, a, mac, now), b) == Effect(Get(rows, b), b, Insert(a, mac, now), 0)
  {
    var k := Index(rows, a);
    if k < |rows| {
      PutGet(i, rows, k, rows[k].(mac := mac, ageing := now), b);
    } else {
      Cons(i, Row(a, mac, now, 1), rows, b);
    }
  }

  lemma BucketLookup(i: nat, rows: seq<Row>, a: Addr, now: int, hz: int, b: Addr)
    requires BucketOk(i, rows) && Hash(a) == i
    ensures BucketOk(i, LookedUp(rows, a, now, hz))
    ensures Get(LookedUp(rows, a, now, hz), b) == Effect(Get(rows, b), b, Lookup(a, now), hz)
  {
    var k := Index(rows, a);
    hide BucketOk;
    if k < |rows| && !Expired(rows[k].ageing, now, hz) {
      InUse(i, rows, k);
      PutGet(i, rows, k, rows[k].(useCount := rows[k].useCount + 1), b);
    }
  }

  lemma BucketRefresh(i: nat, rows: seq<Row>, a: Addr, now: int, b: Addr)
    requires BucketOk(i, rows) && Hash(a) == i
    ensures BucketOk(i, Refreshed(rows, a, now))
    ensures Get(Refreshed(rows, a, now), b) == Effect(Get(rows, b), b, Refresh(a, now), 0)
  {
    var k := Index(rows, a);
    if k < |rows| {
      PutGet(i, rows, k, rows[k].(ageing := now), b);
    }
  }

  // ----- Runs -----

  /** Operations in the order in which they happen. */
  datatype Ops = Done | Then(op: Op, rest: Ops)

  function Run(t: seq<seq<Row>>, ops: Ops, hz: int): (t': seq<seq<Row>>)
    requires |t| == NAT25_HASH_SIZE
    ensures |t'| == NAT25_HASH_SIZE
    decreases ops
  {
    if ops.Done? then t else Run(Apply(t, ops.op, hz), ops.rest, hz)
  }

  /** A run of effects on one address. */
  function Effects(v: Option<Row>, b: Addr, ops: Ops, hz: int): Option<Row>
    decreases ops
  {
    if ops.Done? then v else Effects(Effect(v, b, ops.op, hz), b, ops.rest, hz)
  }

  /** Over every run the table stays sound and acts as one map. */
  lemma {:induction false} RunsAsMap(t: seq<seq<Row>>, ops: Ops, hz: int, b: Addr)
    requires TableOk(t)
    ensures TableOk(Run(t, ops, hz)) && Read(Run(t, ops, hz), b) == Effects(Read(t, b), b, ops, hz)
    decreases ops
  {
    if ops.Then? {
      hide Apply, TableOk, Read, Effect;
      ActsAsMap(t, ops.op, hz, b);
      RunsAsMap(Apply(t, ops.op, hz), ops.rest, hz, b);
    }
  }

  /** The operation neither renews the address nor empties the table, and happens no earlier than `t0`. */
  predicate LeavesAlone(op: Op, a: Addr, t0: int) {
    match op
    case Insert(b, _, _) => b != a
    case Lookup(_, now) => now >= t0
    case Refresh(b, _) => b != a
    case Expire(now) => now >= t0
    case Cleanup => false
  }

  /** No operation of the run touches the address; all of them happen at `t0` or later. */
  predicate Quiet(ops: Ops, a: Addr, t0: int) {
    ops.Then? ==> LeavesAlone(ops.op, a, t0) && Quiet(ops.rest, a, t0)
  }

  function Passes(ops: Ops): nat {
    if ops.Done? then 0 else (if ops.op.Expire? then 1 else 0) + Passes(ops.rest)
  }

  /** What is left of a row after `n` ageing passes on it. */
  function Remaining(r: Row, n: nat): Option<Row> {
    if n < r.useCount then Some(r.(useCount := r.useCount - n)) else None
  }

  lemma {:induction false} StaysGone(a: Addr, ops: Ops, hz: int, t0: int)
    requires Quiet(ops, a, t0)
    ensures Effects(None, a, ops, hz) == None
  {
    if ops.Then? {
      StaysGone(a, ops.rest, hz, t0);
    }
  }

  lemma {:induction false} AgesAway(r: Row, a: Addr, ops: Ops, hz: int, t0: int)
    requires r.useCount >= 1 && Expired(r.ageing, t0, hz) && Quiet(ops, a, t0)
    ensures Effects(Some(r), a, ops, hz) == Remaining(r, Passes(ops))
    decreases ops
  {
    if ops.Then? {
      var v := Effect(Some(r), a, ops.op, hz);
      assert v == Remaining(r, if ops.op.Expire? then 1 else 0);
      if v == None {
        StaysGone(a, ops.rest, hz, t0);
      } else {
        AgesAway(v.value, a, ops.rest, hz, t0);
      }
    }
  }

  /**
   * An entry that has expired and is not renewed is there for exactly as many ageing passes as its use count says,
   * whatever else happens to the table; lookups do not prolong its stay.
   */
  lemma GoneAfterUseCountPasses(t: seq<seq<Row>>, ops: Ops, hz: int, a: Addr, r: Row, t0: int)
    requires TableOk(t) && Read(t, a) == Some(r) && r.ageing + 300 * hz <= t0 && Quiet(ops, a, t0)
    ensures r.useCount >= 1 && Read(Run(t, ops, hz), a) == Remaining(r, Passes(ops))
  {
    assert BucketOk(Hash(a), t[Hash(a)]) && Expired(r.ageing, t0, hz);
    hide *;
    RunsAsMap(t, ops, hz, a);
    AgesAway(r, a, ops, hz, t0);
  }

  // ----- What every operation does, in the driver's terms -----

  /** Hashing, octet by octet, for each protocol type. */
  lemma HashIs(a: Addr)
    ensures a[0] == 1 ==> Hash(a) == (Xor([a[7], a[8], a[9], a[10]]) & 15) as nat
    ensures a[0] == 4 ==> Hash(a) == (Xor([a[1], a[2], a[3]]) & 15) as nat
    ensures a[0] == 3 ==> Hash(a) == (Xor(a[1..11]) & 15) as nat
    ensures a[0] == 5 ==> Hash(a) == (Xor(a[..9]) & 15) as nat
    ensures a[0] == 2 ==> Hash(a) == (Xor(a[1..17]) & 15) as nat
    ensures !(1 <= a[0] <= 5) ==> Hash(a) == (Xor(a) & 15) as nat
  {
    hide Xor;
    assert a[7..11] == [a[7], a[8], a[9], a[10]] && a[1..4] == [a[1], a[2], a[3]];
  }

  lemma XorThree(x: byte, y: byte, z: byte)
    ensures Xor([x, y, z]) == x as bv8 ^ y as bv8 ^ z as bv8
  {
    assert [x, y, z][1..] == [y, z] && [y, z][1..] == [z] && [z][1..] == [];
    assert Xor([z]) == z as bv8;
  }

  lemma XorFour(w: byte, x: byte, y: byte, z: byte)
    ensures Xor([w, x, y, z]) == w as bv8 ^ x as bv8 ^ y as bv8 ^ z as bv8
  {
    XorThree(x, y, z);
    assert [w, x, y, z][1..] == [x, y, z];
  }

  /** Insertion renews MAC and age of an address that is there; one that is not starts with one use. */
  lemma InsertReads(t: seq<seq<Row>>, a: Addr, mac: Mac, now: int, hz: int, b: Addr)
    requires TableOk(t)
    ensures var v := Read(t, b);
      Read(Apply(t, Insert(a, mac, now), hz), b) ==
        if b != a then v else if v == None then Some(Row(a, mac, now, 1)) else Some(Row(a, mac, now, v.value.useCount))
  {
    ActsAsMap(t, Insert(a, mac, now), hz, b);
    hide Apply, TableOk, Read;
  }

  /** A lookup counts one more use of an entry renewed less than 300 seconds ago, and changes nothing else. */
  lemma LookupReads(t: seq<seq<Row>>, a: Addr, now: int, hz: int, b: Addr)
    requires TableOk(t)
    ensures var v := Read(t, b);
      Read(Apply(t, Lookup(a, now), hz), b) ==
        if b == a && v != None && now < v.value.ageing + 300 * hz then Some(v.value.(useCount := v.value.useCount + 1)) else v
  {
    ActsAsMap(t, Lookup(a, now), hz, b);
    hide Apply, TableOk, Read;
  }

  /** The cached pointer renews the age of its entry. */
  lemma RefreshReads(t: seq<seq<Row>>, a: Addr, now: int, hz: int, b: Addr)
    requires TableOk(t)
    ensures var v := Read(t, b);
      Read(Apply(t, Refresh(a, now), hz), b) == if b == a && v != None then Some(v.value.(ageing := now)) else v
  {
    ActsAsMap(t, Refresh(a, now), hz, b);
    hide Apply, TableOk, Read;
  }

  /** An ageing pass leaves alone what was renewed less than 300 seconds ago; anything else loses a use, or goes with its last one. */
  lemma ExpireReads(t: seq<seq<Row>>, now: int, hz: int, b: Addr)
    requires TableOk(t)
    ensures var v := Read(t, b);
      Read(Apply(t, Expire(now), hz), b) ==
        if v == None || now < v.value.ageing + 300 * hz then v
        else if v.value.useCount == 1 then None
        else Some(v.value.(useCount := v.value.useCount - 1))
  {
    ActsAsMap(t, Expire(now), hz, b);
    hide Apply, TableOk, Read;
  }

  lemma CleanupReads(t: seq<seq<Row>>, hz: int, b: Addr)
    requires TableOk(t)
    ensures Read(Apply(t, Cleanup, hz), b) == None
  {
    ActsAsMap(t, Cleanup, hz, b);
  }

  /** Nobody else claims the address, the table is not emptied, and no ageing pass comes as late as `end`. */
  predicate Early(ops: Ops, a: Addr, end: int) {
    ops.Then? ==>
      && (match ops.op
          case Insert(b, _, _) => b != a
          case Lookup(_, _) => true
          case Refresh(b, _) => b != a
          case Expire(now) => now < end
          case Cleanup => false)
      && Early(ops.rest, a, end)
  }

  /** An address that has been renewed stays, with its MAC, for 300 seconds, whatever else happens; lookups only count its uses. */
  lemma {:induction false} StaysWhileFresh(t: seq<seq<Row>>, ops: Ops, hz: int, a: Addr, r: Row)
    requires TableOk(t) && Read(t, a) == Some(r) && Early(ops, a, r.ageing + 300 * hz)
    ensures Read(Run(t, ops, hz), a) != None
    ensures var n := Read(Run(t, ops, hz), a).value;
      n.addr == r.addr && n.mac == r.mac && n.ageing == r.ageing && n.useCount >= r.useCount
    decreases ops
  {
    if ops.Then? {
      var n := Apply(t, ops.op, hz);
      ActsAsMap(t, ops.op, hz, a);
      match ops.op {
        case Insert(b, mac, now) => InsertReads(t, b, mac, now, hz, a);
        case Lookup(b, now) => LookupReads(t, b, now, hz, a);
        case Refresh(b, now) => RefreshReads(t, b, now, hz, a);
        case Expire(now) => ExpireReads(t, now, hz, a);
      }
      hide Apply, TableOk, Read, Effect;
      StaysWhileFresh(n, ops.rest, hz, a, Read(n, a).value);
    }
  }

  /** In particular one that has just been inserted, whether it was there or not. */
  lemma InsertedStays(t: seq<seq<Row>>, a: Addr, mac: Mac, now: int, hz: int, ops: Ops)
    requires TableOk(t) && Early(ops, a, now + 300 * hz)
    ensures var n := Run(Apply(t, Insert(a, mac, now), hz), ops, hz);
      Read(n, a) != None && Read(n, a).value.mac == mac && Read(n, a).value.ageing == now
  {
    ActsAsMap(t, Insert(a, mac, now), hz, a);
    InsertReads(t, a, mac, now, hz, a);
    hide Apply, TableOk, Read, Effect, Early;
    var n := Apply(t, Insert(a, mac, now), hz);
    StaysWhileFresh(n, ops, hz, a, Read(n, a).value);
  }
}
