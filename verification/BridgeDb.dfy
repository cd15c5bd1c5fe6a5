/** The hash chains of the NAT2.5 bridge database, linked in place (rtw_br_ext.c). */
module BridgeDb {
  import opened Bytes
  import opened Options
  import opened BridgeRows

  /** What `pprev_hash` points at: the slot that in turn points at the entry. */
  datatype Slot = Head(i: nat) | NextOf(e: Entry) | Nowhere

  /** `struct nat25_network_db_entry`. */
  class Entry {
    var next: Entry?
    var pprev: Slot
    var useCount: int
    var mac: Mac
    var ageing: int
    const addr: Addr

    constructor (addr: Addr, mac: Mac, now: int)
      ensures this.addr == addr && this.mac == mac && ageing == now && useCount == 1
    {
      next, pprev := null, Nowhere;
      this.addr, this.mac, useCount, ageing := addr, mac, 1, now;
    }

    ghost predicate Shows(r: Row)
      reads this
    {
      r == Row(addr, mac, ageing, useCount)
    }
  }

  /** Entry `k` of a chain, null behind its end. */
  ghost function At(c: seq<Entry>, k: nat): Entry? {
    if k < |c| then c[k] else null
  }

  /** The slot that points at entry `k` of the chain of bucket `i`. */
  ghost function SlotOf(i: nat, c: seq<Entry>, k: nat): Slot
    requires k <= |c|
  {
    if k == 0 then Head(i) else NextOf(c[k - 1])
  }

  /** The entries of a chain are different from each other and at home in its bucket. */
  ghost predicate AtHome(i: nat, c: seq<Entry>) {
    (forall j, k :: 0 <= j < k < |c| ==> c[j] != c[k]) && forall e :: e in c ==> Hash(e.addr) == i
  }

  /** Entry `k` is wired into the chain and holds the row. */
  ghost predicate Wired(i: nat, c: seq<Entry>, k: nat, r: Row)
    requires k < |c|
    reads c[k]
  {
    c[k].next == At(c, k + 1) && c[k].pprev == SlotOf(i, c, k) && c[k].Shows(r)
  }

  /** The entries of a chain are linked in order, each back to the slot that points at it, and hold the rows. */
  ghost predicate ChainOk(i: nat, c: seq<Entry>, rows: seq<Row>)
    reads set e | e in c
  {
    |c| == |rows| && AtHome(i, c) && forall k :: 0 <= k < |c| ==> Wired(i, c, k, rows[k])
  }

  /** `__network_hash_link`. */
  method Link(nethash: array<Entry?>, ent: Entry, hash: nat, ghost c: seq<Entry>, ghost rows: seq<Row>, ghost r: Row)
    requires hash < nethash.Length && nethash[hash] == At(c, 0) && ChainOk(hash, c, rows)
    requires ent !in c && ent.Shows(r) && Hash(ent.addr) == hash
    modifies nethash, ent, set e | e in c
    ensures nethash[hash] == ent && forall j :: 0 <= j < nethash.Length && j != hash ==> nethash[j] == old(nethash[j])
    ensures ChainOk(hash, [ent] + c, [r] + rows)
  {
    ghost var c', rows' := [ent] + c, [r] + rows;
    ent.next := nethash[hash];
    if ent.next != null {
      assert Wired(hash, c, 0, rows[0]);
      ent.next.pprev := NextOf(ent);
    }
    nethash[hash] := ent;
    ent.pprev := Head(hash);
    assert AtHome(hash, c');
    forall k | 0 <= k < |c'| ensures Wired(hash, c', k, rows'[k]) {
      if k > 0 {
        assert old(Wired(hash, c, k - 1, rows[k - 1]));
        assert c'[k] == c[k - 1] && rows'[k] == rows[k - 1];
      }
    }
  }

  /** `__network_hash_unlink`. */
  method Unlink(nethash: array<Entry?>, ent: Entry, ghost hash: nat, ghost c: seq<Entry>, ghost rows: seq<Row>, ghost k: nat)
    requires hash < nethash.Length && nethash[hash] == At(c, 0) && ChainOk(hash, c, rows)
    requires k < |c| && c[k] == ent
    modifies nethash, set e | e in c
    ensures nethash[hash] == At(c[..k] + c[k + 1..], 0)
    ensures forall j :: 0 <= j < nethash.Length && j != hash ==> nethash[j] == old(nethash[j])
    ensures ChainOk(hash, c[..k] + c[k + 1..], rows[..k] + rows[k + 1..])
  {
    ghost var c', rows' := c[..k] + c[k + 1..], rows[..k] + rows[k + 1..];
    assert Wired(hash, c, k, rows[k]);
    match ent.pprev {
      case Head(i) => nethash[i] := ent.next;
      case NextOf(p) => p.next := ent.next;
    }
    if ent.next != null {
      ent.next.pprev := ent.pprev;
    }
    ent.next := null;
    ent.pprev := Nowhere;
    assert AtHome(hash, c');
    forall j | 0 <= j < |c'| ensures Wired(hash, c', j, rows'[j]) {
      var m := if j < k then j else j + 1;
      assert old(Wired(hash, c, m, rows[m]));
      assert c'[j] == c[m] && rows'[j] == rows[m];
    }
  }

  /** Bucket `i` of the table is the chain `c` and holds the rows. */
  ghost predicate BucketAt(nethash: array<Entry?>, i: nat, c: seq<Entry>, rows: seq<Row>)
    reads nethash, set e | e in c
  {
    i < nethash.Length && nethash[i] == At(c, 0) && ChainOk(i, c, rows) && BucketOk(i, rows)
  }

  /** The walk over a chain that lookup, insert and `scdb_findEntry` share. */
  method Walk(nethash: array<Entry?>, hash: nat, a: Addr, ghost c: seq<Entry>, ghost rows: seq<Row>)
    returns (db: Entry?, ghost k: nat)
    requires BucketAt(nethash, hash, c, rows)
    ensures k == Index(rows, a) <= |c| && db == At(c, k)
    ensures db != null ==> db.addr == a && Wired(hash, c, k, rows[k])
  {
    hide BucketOk, AtHome;
    db, k := nethash[hash], 0;
    while db != null
      invariant k <= |c| && db == At(c, k)
      invariant forall j :: 0 <= j < k ==> rows[j].addr != a
      decreases |c| - k
    {
      assert Wired(hash, c, k, rows[k]);
      if db.addr == a {
        return;
      }
      db, k := db.next, k + 1;
    }
  }

  /** The entry that spoke last and its addresses (`scdb_entry`, `scdb_mac`, `scdb_ip`). */
  datatype Cached = Cached(entry: Entry?, mac: Mac, ip: seq<byte>)

  const WIPED := Cached(null, Zeros(6), Zeros(4))

  /** The memory is as before, or wiped because the address of its entry has left the table. */
  ghost predicate Remembers(x: Cached, y: Cached, t: seq<seq<Row>>) {
    y == x || (x.entry != null && y == WIPED && |t| == NAT25_HASH_SIZE && Read(t, x.entry.addr) == None)
  }

  /** No address is in the second table that was not in the first. */
  ghost predicate NoNew(t: seq<seq<Row>>, n: seq<seq<Row>>) {
    |t| == |n| == NAT25_HASH_SIZE && forall a: Addr :: Read(t, a) == None ==> Read(n, a) == None
  }

  lemma RemembersOn(x: Cached, y: Cached, z: Cached, t: seq<seq<Row>>, n: seq<seq<Row>>)
    requires Remembers(x, y, t) && Remembers(y, z, n) && NoNew(t, n)
    ensures Remembers(x, z, n)
  {
  }

  lemma NoNewOn(t: seq<seq<Row>>, n: seq<seq<Row>>, m: seq<seq<Row>>)
    requires NoNew(t, n) && NoNew(n, m)
    ensures NoNew(t, m)
  {
  }

  /** Row `k` of bucket `h` becomes `r`. */
  datatype Change = Change(h: nat, k: nat, r: Row)

  ghost function EntriesOf(chains: seq<seq<Entry>>): set<object> {
    set i, e | 0 <= i < |chains| && e in chains[i] :: e
  }

  /** An entry leaves its chain, and none comes in. */
  lemma EntriesLeave(chains: seq<seq<Entry>>, i: nat, m: nat)
    requires i < |chains| && m < |chains[i]|
    ensures EntriesOf(chains[i := chains[i][..m] + chains[i][m + 1..]]) <= EntriesOf(chains)
  {
    var now := chains[i := chains[i][..m] + chains[i][m + 1..]];
    forall j, e | 0 <= j < |now| && e in now[j] ensures e in chains[j] {
    }
  }

  /** The part of the adapter that holds the bridge database, with the entry that spoke last (`scdb`). */
  class Bridge {
    const nethash: array<Entry?>
    const hz: int
    var scdbEntry: Entry?
    var scdbMac: Mac
    var scdbIp: seq<byte>
    ghost var chains: seq<seq<Entry>>
    ghost var table: seq<seq<Row>>

    ghost function Members(): set<object>
      reads this`chains
    {
      EntriesOf(chains)
    }

    ghost function Memory(): Cached
      reads this
    {
      Cached(scdbEntry, scdbMac, scdbIp)
    }

    ghost predicate Valid()
      reads this`scdbEntry, this`chains, this`table, nethash, Members()
    {
      && nethash.Length == NAT25_HASH_SIZE == |chains| && |table| == NAT25_HASH_SIZE
      && (forall i :: 0 <= i < NAT25_HASH_SIZE ==> BucketAt(nethash, i, chains[i], table[i]))
      && (scdbEntry != null ==> scdbEntry in chains[Hash(scdbEntry.addr)])
    }

    constructor (hz: int)
      ensures Valid() && fresh(nethash) && Members() == {} && scdbEntry == null
      ensures this.hz == hz && table == seq(NAT25_HASH_SIZE, i => [])
    {
      nethash := new Entry?[NAT25_HASH_SIZE](_ => null);
      this.hz := hz;
      scdbEntry, scdbMac, scdbIp := null, Zeros(6), Zeros(4);
      chains, table := seq(NAT25_HASH_SIZE, i => []), seq(NAT25_HASH_SIZE, i => []);
    }

    /** The other buckets do not notice a change to the entries of bucket `h`. */
    twostate lemma OtherBuckets(h: nat)
      requires old(Valid()) && h < NAT25_HASH_SIZE
      requires forall e: Entry :: old(allocated(e)) && e !in old(chains)[h] ==> unchanged(e)
      requires forall j :: 0 <= j < NAT25_HASH_SIZE && j != h ==> nethash[j] == old(nethash[j])
      ensures forall j :: 0 <= j < NAT25_HASH_SIZE && j != h ==> BucketAt(nethash, j, old(chains)[j], old(table)[j])
    {
      forall j | 0 <= j < NAT25_HASH_SIZE && j != h ensures BucketAt(nethash, j, old(chains)[j], old(table)[j]) {
        assert old(BucketAt(nethash, j, chains[j], table[j]));
        assert old(BucketAt(nethash, h, chains[h], table[h]));
        assert AtHome(j, old(chains)[j]) && AtHome(h, old(chains)[h]);
        assert forall e :: e in old(chains)[j] ==> e !in old(chains)[h];
      }
    }

    /** Record the new contents of bucket `h`. */
    ghost method Record(h: nat, c: seq<Entry>, rows: seq<Row>)
      requires nethash.Length == NAT25_HASH_SIZE == |chains| && |table| == NAT25_HASH_SIZE && h < NAT25_HASH_SIZE
      requires BucketAt(nethash, h, c, rows)
      requires forall j :: 0 <= j < NAT25_HASH_SIZE && j != h ==> BucketAt(nethash, j, chains[j], table[j])
      requires scdbEntry != null ==> scdbEntry in chains[h := c][Hash(scdbEntry.addr)]
      modifies this`chains, this`table
      ensures Valid() && chains == old(chains)[h := c] && table == old(table)[h := rows]
    {
      hide BucketAt, Hash;
      chains := chains[h := c];
      table := table[h := rows];
    }

    /** Changing an entry's data in place changes one row of one bucket. */
    twostate lemma RowPut(x: Change)
      requires old(Valid()) && x.h < NAT25_HASH_SIZE && x.k < |old(chains)[x.h]|
      requires BucketOk(x.h, old(table)[x.h][x.k := x.r])
      requires unchanged(nethash)
      requires var c := old(chains)[x.h];
        && (forall e :: e in c && e != c[x.k] ==> unchanged(e))
        && (forall e: Entry :: old(allocated(e)) && e !in c ==> unchanged(e))
      requires var e := old(chains)[x.h][x.k]; e.next == old(e.next) && e.pprev == old(e.pprev) && e.Shows(x.r)
      ensures BucketAt(nethash, x.h, old(chains)[x.h], old(table)[x.h][x.k := x.r])
      ensures forall j :: 0 <= j < NAT25_HASH_SIZE && j != x.h ==> BucketAt(nethash, j, old(chains)[j], old(table)[j])
    {
      var c, rows, now := old(chains)[x.h], old(table)[x.h], old(table)[x.h][x.k := x.r];
      assert old(BucketAt(nethash, x.h, chains[x.h], table[x.h])) && AtHome(x.h, c);
      forall j | 0 <= j < |c| ensures Wired(x.h, c, j, now[j]) {
        assert old(Wired(x.h, c, j, rows[j]));
        assert c[j] in c && (j != x.k ==> c[j] != c[x.k]);
      }
      OtherBuckets(x.h);
    }

    /** The branch of `__nat25_db_network_insert` for an address that is there. */
    method Renew(db: Entry, mac: Mac, a: Addr, now: int, ghost k: nat)
      requires Valid() && k == Index(table[Hash(a)], a) < |chains[Hash(a)]| && db == chains[Hash(a)][k]
      modifies this`table, this`chains, db
      ensures Valid() && chains == old(chains)
      ensures table == Apply(old(table), BridgeRows.Insert(a, mac, now), hz)
    {
      ghost var hash := Hash(a);
      ghost var c, rows := chains[hash], table[hash];
      BucketInsert(hash, rows, a, mac, now, a);
      hide BucketOk, Hash;
      assert db in c;
      db.mac := mac;
      db.ageing := now;
      RowPut(Change(hash, k, rows[k].(mac := mac, ageing := now)));
      Record(hash, c, Inserted(rows, a, mac, now));
    }

    /** The branch for an address that is not there. */
    method Append(mac: Mac, a: Addr, now: int)
      requires Valid() && Index(table[Hash(a)], a) == |table[Hash(a)]|
      modifies this`table, this`chains, nethash, Members()
      ensures Valid() && fresh(Members() - old(Members()))
      ensures table == Apply(old(table), BridgeRows.Insert(a, mac, now), hz)
    {
      var hash := Hash(a);
      ghost var c, rows := chains[hash], table[hash];
      BucketInsert(hash, rows, a, mac, now, a);
      hide BucketOk, Hash;
      var db := new Entry(a, mac, now);
      Link(nethash, db, hash, c, rows, Row(a, mac, now, 1));
      OtherBuckets(hash);
      Record(hash, [db] + c, Inserted(rows, a, mac, now));
    }

    /** `__nat25_db_network_insert`. */
    method Insert(mac: Mac, a: Addr, now: int)
      requires Valid()
      modifies this`table, this`chains, nethash, Members()
      ensures Valid() && fresh(Members() - old(Members()))
      ensures table == Apply(old(table), BridgeRows.Insert(a, mac, now), hz)
    {
      var hash := Hash(a);
      var db, k := Walk(nethash, hash, a, chains[hash], table[hash]);
      hide Apply, Hash;
      if db != null {
        assert db in chains[hash];
        Renew(db, mac, a, now, k);
      } else {
        Append(mac, a, now);
      }
    }

    /** A use of an entry that has not expired. */
    method CountUse(db: Entry, a: Addr, now: int, ghost k: nat)
      requires Valid() && k == Index(table[Hash(a)], a) < |chains[Hash(a)]| && db == chains[Hash(a)][k]
      requires !Expired(table[Hash(a)][k].ageing, now, hz)
      modifies this`table, this`chains, db
      ensures Valid() && chains == old(chains)
      ensures table == Apply(old(table), BridgeRows.Lookup(a, now), hz)
    {
      ghost var hash := Hash(a);
      ghost var c, rows := chains[hash], table[hash];
      ghost var r := rows[k].(useCount := rows[k].useCount + 1);
      BucketLookup(hash, rows, a, now, hz, a);
      assert db in c && Wired(hash, c, k, rows[k]) && LookedUp(rows, a, now, hz) == rows[k := r];
      hide BucketOk, Hash, LookedUp;
      db.useCount := db.useCount + 1;
      RowPut(Change(hash, k, r));
      hide BucketAt;
      Record(hash, c, rows[k := r]);
    }

    /** `__nat25_db_network_lookup_and_replace` on a frame whose destination address comes first. */
    method Lookup(skb: array<byte>, a: Addr, now: int) returns (r: int)
      requires Valid() && skb.Length >= 6
      modifies this`table, this`chains, Members(), skb
      ensures Valid() && chains == old(chains)
      ensures table == Apply(old(table), BridgeRows.Lookup(a, now), hz)
      ensures r == if Read(old(table), a) == None then 0 else 1
      ensures skb[6..] == old(skb[6..])
      ensures var v := Read(old(table), a);
        skb[..6] == if v != None && now < v.value.ageing + 300 * hz then v.value.mac else old(skb[..6])
    {
      var hash := Hash(a);
      ghost var c, rows := chains[hash], table[hash];
      var db, k := Walk(nethash, hash, a, c, rows);
      hide Hash, BucketOk;
      if db != null {
        assert db in chains[hash];
        if !Expired(db.ageing, now, hz) {
          Memcpy(skb, 0, db.mac);
          CountUse(db, a, now, k);
        } else {
          assert LookedUp(rows, a, now, hz) == rows && table[hash := rows] == table;
        }
        r := 1;
      } else {
        assert LookedUp(rows, a, now, hz) == rows && table[hash := rows] == table;
        r := 0;
      }
    }

    /** Unlinking an entry that is not the cached one. */
    method TakeOut(f: Entry, ghost i: nat, ghost m: nat)
      requires Valid() && i < NAT25_HASH_SIZE && m < |chains[i]| && f == chains[i][m] && scdbEntry != f
      modifies this`chains, this`table, nethash, Members()
      ensures Valid() && Members() <= old(Members())
      ensures chains == old(chains)[i := old(chains)[i][..m] + old(chains)[i][m + 1..]]
      ensures table == old(table)[i := old(table)[i][..m] + old(table)[i][m + 1..]]
    {
      ghost var c, rows := chains[i], table[i];
      SpliceGet(i, rows, m, None, f.addr);
      assert rows[..m] + Kept(None) + rows[m + 1..] == rows[..m] + rows[m + 1..];
      hide BucketOk, Hash;
      assert scdbEntry != null ==> scdbEntry in c[..m] + c[m + 1..] || scdbEntry !in c;
      Unlink(nethash, f, i, c, rows, m);
      OtherBuckets(i);
      assert BucketAt(nethash, i, c[..m] + c[m + 1..], rows[..m] + rows[m + 1..]);
      hide BucketAt, ChainOk, AtHome, Wired, Members;
      Record(i, c[..m] + c[m + 1..], rows[..m] + rows[m + 1..]);
      EntriesLeave(old(chains), i, m);
    }

    /** Taking an entry out for good: the cached pointer to it goes first. */
    method Drop(f: Entry, ghost i: nat, ghost m: nat)
      requires Valid() && i < NAT25_HASH_SIZE && m < |chains[i]| && f == chains[i][m]
      modifies this, nethash, Members()
      ensures Valid() && Members() <= old(Members())
      ensures chains == old(chains)[i := old(chains)[i][..m] + old(chains)[i][m + 1..]]
      ensures table == old(table)[i := old(table)[i][..m] + old(table)[i][m + 1..]]
      ensures Memory() == if old(scdbEntry) == f then WIPED else old(Memory())
    {
      if scdbEntry == f {
        scdbMac := Zeros(6);
        scdbIp := Zeros(4);
        scdbEntry := null;
      }
      TakeOut(f, i, m);
    }

    /** An expired entry that is still in use loses one use. */
    method CountDown(f: Entry, ghost i: nat, ghost m: nat)
      requires Valid() && i < NAT25_HASH_SIZE && m < |chains[i]| && f == chains[i][m] && f.useCount > 1
      modifies this`table, this`chains, f
      ensures Valid() && chains == old(chains)
      ensures var r := old(table)[i][m]; table == old(table)[i := old(table)[i][m := r.(useCount := r.useCount - 1)]]
    {
      RowAt(i, m);
      ghost var c, rows := chains[i], table[i];
      ghost var r := rows[m].(useCount := rows[m].useCount - 1);
      PutGet(i, rows, m, r, f.addr);
      assert f in c;
      hide BucketOk, Hash, Wired, AtHome, At;
      f.useCount := f.useCount - 1;
      RowPut(Change(i, m, r));
      hide BucketAt, ChainOk;
      Record(i, c, rows[m := r]);
    }

    /** Row `m` of bucket `i`, and the entry that holds it. */
    lemma RowAt(i: nat, m: nat)
      requires Valid() && i < NAT25_HASH_SIZE && m < |chains[i]|
      ensures BucketOk(i, table[i]) && m < |table[i]| && chains[i][m].Shows(table[i][m])
    {
      assert BucketAt(nethash, i, chains[i], table[i]) && Wired(i, chains[i], m, table[i][m]);
    }

    /**
     * One turn of `nat25_db_expire`: entry `m` of chain `i` ages.
     * An entry whose count would drop to zero is taken out, so its count is not written.
     */
    method ExpireOne(f: Entry, now: int, ghost i: nat, ghost m: nat) returns (g: Entry?)
      requires Valid() && i < NAT25_HASH_SIZE && m < |chains[i]| && f == chains[i][m]
      modifies this, nethash, Members()
      ensures Valid() && Members() <= old(Members())
      ensures |old(table)[i]| == |old(chains)[i]|
      ensures var r := Kept(Aged(old(table)[i][m], now, hz));
        && table == old(table)[i := old(table)[i][..m] + r + old(table)[i][m + 1..]]
        && |chains[i]| == |table[i]| && g == At(chains[i], m + |r|)
        && Memory() == if old(scdbEntry) == f && r == [] then WIPED else old(Memory())
      ensures now < old(f.ageing) + 300 * hz ==> table == old(table) && Memory() == old(Memory())
      ensures now >= old(f.ageing) + 300 * hz ==> |table[i]| == |old(table)[i]| - if old(f.useCount) == 1 then 1 else 0
    {
      ghost var c, rows := chains[i], table[i];
      assert BucketAt(nethash, i, c, rows) && Wired(i, c, m, rows[m]);
      assert rows[m].useCount >= 1 && f in chains[i];
      g := f.next;
      if !Expired(f.ageing, now, hz) {
        assert rows[..m] + [rows[m]] + rows[m + 1..] == rows && table[i := rows] == table;
      } else if f.useCount == 1 {
        Drop(f, i, m);
        assert rows[..m] + [] == rows[..m];
      } else {
        CountDown(f, i, m);
        assert rows[m := rows[m].(useCount := rows[m].useCount - 1)] == rows[..m] + [rows[m].(useCount := rows[m].useCount - 1)] + rows[m + 1..];
      }
      assert BucketAt(nethash, i, chains[i], table[i]);
    }

    /** The walk over chain `i` of the table `t` has aged `m` rows and stands at `f`. */
    ghost predicate Ageing(t: seq<seq<Row>>, i: nat, m: nat, f: Entry?, now: int)
      reads this, nethash, Members()
    {
      && Valid() && |t| == NAT25_HASH_SIZE && i < NAT25_HASH_SIZE && m <= |t[i]|
      && table == t[i := AgeRows(t[i][..m], now, hz) + t[i][m..]]
      && f == At(chains[i], |AgeRows(t[i][..m], now, hz)|)
    }

    lemma AgeingStart(i: nat, now: int)
      requires Valid() && i < NAT25_HASH_SIZE
      ensures Ageing(table, i, 0, nethash[i], now)
    {
      assert BucketAt(nethash, i, chains[i], table[i]);
      assert table[i][..0] == [] && [] + table[i][0..] == table[i] && table[i := table[i]] == table;
    }

    lemma AgeingHere(t: seq<seq<Row>>, i: nat, m: nat, f: Entry?, now: int)
      requires Ageing(t, i, m, f, now)
      ensures Valid() && |t| == NAT25_HASH_SIZE && i < NAT25_HASH_SIZE && m <= |t[i]| && |chains[i]| == |table[i]|
      ensures f == null <==> m == |t[i]|
      ensures m == |t[i]| ==> table == t[i := AgeRows(t[i], now, hz)]
      ensures var done := AgeRows(t[i][..m], now, hz);
        f != null ==> |done| < |chains[i]| && f == chains[i][|done|] && table[i][|done|] == t[i][m]
    {
      assert BucketAt(nethash, i, chains[i], table[i]);
      var done := AgeRows(t[i][..m], now, hz);
      assert m == |t[i]| ==> t[i][..m] == t[i] && done + t[i][m..] == done;
      assert m < |t[i]| ==> (done + t[i][m..])[|done|] == t[i][m];
    }

    /** One turn of the walk. */
    method ExpireTurn(f: Entry, now: int, ghost t: seq<seq<Row>>, ghost i: nat, ghost m: nat) returns (g: Entry?)
      requires Ageing(t, i, m, f, now)
      modifies this, nethash, Members()
      ensures m < |t[i]| && Ageing(t, i, m + 1, g, now) && Members() <= old(Members())
      ensures Remembers(old(Memory()), Memory(), table) && NoNew(old(table), table)
    {
      AgeingHere(t, i, m, f, now);
      ghost var done := AgeRows(t[i][..m], now, hz);
      assert table == t[i := done + t[i][m..]];
      ghost var was := table;
      RowAgedOut(was, i, |done|, now, f);
      hide Valid, Members, AgeRows, Aged, Kept, Read;
      g := ExpireOne(f, now, i, |done|);
      AgeingNext(t, i, m, g, now, was);
    }

    lemma AgeingNext(t: seq<seq<Row>>, i: nat, m: nat, g: Entry?, now: int, was: seq<seq<Row>>)
      requires Valid() && |t| == NAT25_HASH_SIZE && i < NAT25_HASH_SIZE && m < |t[i]|
      requires was == t[i := AgeRows(t[i][..m], now, hz) + t[i][m..]]
      requires var done, r := AgeRows(t[i][..m], now, hz), Kept(Aged(t[i][m], now, hz));
        table == was[i := was[i][..|done|] + r + was[i][|done| + 1..]] && g == At(chains[i], |done| + |r|)
      ensures Ageing(t, i, m + 1, g, now)
    {
      AgeTurn(t[i], m, now, hz);
      assert t[i := table[i]] == table;
    }

    /** What ageing one row does to the table as a map: no address comes in, and a dropped row's address is gone. */
    lemma RowAgedOut(t: seq<seq<Row>>, i: nat, m: nat, now: int, f: Entry)
      requires Valid() && t == table && i < NAT25_HASH_SIZE && m < |chains[i]| && f == chains[i][m]
      ensures m < |t[i]|
      ensures var n := t[i := t[i][..m] + Kept(Aged(t[i][m], now, hz)) + t[i][m + 1..]];
        NoNew(t, n) && (Kept(Aged(t[i][m], now, hz)) == [] ==> Read(n, f.addr) == None)
    {
      assert BucketAt(nethash, i, chains[i], t[i]) && Wired(i, chains[i], m, t[i][m]);
      var o := Aged(t[i][m], now, hz);
      var n := t[i := t[i][..m] + Kept(o) + t[i][m + 1..]];
      assert f.addr == t[i][m].addr && f in chains[i];
      SpliceGet(i, t[i], m, o, f.addr);
      forall a: Addr | Read(t, a) == None ensures Read(n, a) == None {
        SpliceGet(i, t[i], m, o, a);
      }
    }

    /** The walk of `nat25_db_expire` over one chain. */
    method ExpireBucket(now: int, i: nat)
      requires Valid() && i < NAT25_HASH_SIZE
      modifies this, nethash, Members()
      ensures Valid() && Members() <= old(Members())
      ensures table == old(table)[i := AgeRows(old(table)[i], now, hz)]
      ensures Remembers(old(Memory()), Memory(), table) && NoNew(old(table), table)
    {
      ghost var t, m := table, 0;
      AgeingStart(i, now);
      assert Remembers(Memory(), Memory(), t) && NoNew(t, t);
      hide *;
      var f := nethash[i];
      while f != null
        invariant Ageing(t, i, m, f, now) && Members() <= old(Members())
        invariant Remembers(old(Memory()), Memory(), table) && NoNew(t, table)
        decreases |t[i]| - m
      {
        ghost var y, n := Memory(), table;
        f := ExpireTurn(f, now, t, i, m);
        RemembersOn(old(Memory()), y, Memory(), n, table);
        NoNewOn(t, n, table);
        m := m + 1;
      }
      AgeingHere(t, i, m, f, now);
    }

    /** `nat25_db_expire`. */
    method Expire(now: int)
      requires Valid()
      modifies this, nethash, Members()
      ensures Valid() && Members() <= old(Members())
      ensures table == Apply(old(table), BridgeRows.Expire(now), hz)
      ensures Remembers(old(Memory()), Memory(), table)
    {
      assert |table| == NAT25_HASH_SIZE && Remembers(Memory(), Memory(), table);
      ghost var t := table;
      AgedUpToNext(t, 0, now, hz);
      hide *;
      for i := 0 to NAT25_HASH_SIZE
        invariant Valid() && Members() <= old(Members()) && table == AgedUpTo(t, i, now, hz)
        invariant Remembers(old(Memory()), Memory(), table)
      {
        ghost var y, n := Memory(), table;
        ExpireBucket(now, i);
        RemembersOn(old(Memory()), y, Memory(), n, table);
        AgedUpToNext(t, i, now, hz);
      }
    }

    /** The walk of `nat25_db_cleanup` over chain `i` stands at `f`, the head of what is left of it. */
    ghost predicate Cleaning(c: seq<seq<Entry>>, t: seq<seq<Row>>, i: nat, f: Entry?)
      reads this, nethash, Members()
    {
      && Valid() && i < NAT25_HASH_SIZE && f == At(chains[i], 0)
      && |c| == |t| == NAT25_HASH_SIZE && chains == c[i := chains[i]] && table == t[i := table[i]]
    }

    lemma CleaningStart(i: nat)
      requires Valid() && i < NAT25_HASH_SIZE
      ensures Cleaning(chains, table, i, nethash[i])
    {
      HeadOf(i);
      assert chains[i := chains[i]] == chains && table[i := table[i]] == table;
    }

    lemma CleaningEnd(c: seq<seq<Entry>>, t: seq<seq<Row>>, i: nat)
      requires Cleaning(c, t, i, null)
      ensures Valid() && chains == c[i := []] && table == t[i := []]
    {
      HeadOf(i);
    }

    /** One turn of the walk. */
    method CleanupTurn(f: Entry, ghost c: seq<seq<Entry>>, ghost t: seq<seq<Row>>, ghost i: nat) returns (g: Entry?)
      requires Cleaning(c, t, i, f)
      modifies this, nethash, Members()
      ensures Cleaning(c, t, i, g) && Members() <= old(Members()) && |chains[i]| < |old(chains)[i]|
      ensures Memory() == if old(scdbEntry) == f then WIPED else old(Memory())
    {
      HeadOf(i);
      g := f.next;
      assert chains[i][0] == f;
      hide Valid, Members;
      Drop(f, i, 0);
    }

    /** The walk of `nat25_db_cleanup` over one chain. */
    method CleanupBucket(i: nat)
      requires Valid() && i < NAT25_HASH_SIZE
      modifies this, nethash, Members()
      ensures Valid() && Members() <= old(Members()) && chains == old(chains)[i := []] && table == old(table)[i := []]
      ensures Memory() == old(Memory()) || (Memory() == WIPED && old(scdbEntry) != null)
    {
      ghost var c, t := chains, table;
      CleaningStart(i);
      hide Valid, Members, Cleaning;
      var f := nethash[i];
      while f != null
        invariant Cleaning(c, t, i, f) && Members() <= old(Members()) && i < |chains|
        invariant Memory() == old(Memory()) || (Memory() == WIPED && old(scdbEntry) != null)
        decreases |chains[i]|
      {
        f := CleanupTurn(f, c, t, i);
      }
      CleaningEnd(c, t, i);
    }

    /** The head of a chain and its successor. */
    lemma HeadOf(i: nat)
      requires Valid() && i < NAT25_HASH_SIZE
      ensures |chains| == |table| == NAT25_HASH_SIZE == nethash.Length && |chains[i]| == |table[i]|
      ensures nethash[i] == At(chains[i], 0)
      ensures chains[i] != [] ==> chains[i][0].next == At(chains[i][..0] + chains[i][1..], 0) && chains[i][0] in Members()
    {
      assert BucketAt(nethash, i, chains[i], table[i]);
      if chains[i] != [] {
        assert Wired(i, chains[i], 0, table[i][0]) && chains[i][0] in chains[i];
      }
    }

    /** `nat25_db_cleanup`. */
    method Cleanup()
      requires Valid()
      modifies this, nethash, Members()
      ensures Valid() && Members() == {} && scdbEntry == null
      ensures table == Apply(old(table), BridgeRows.Cleanup, hz)
      ensures old(scdbEntry) != null ==> scdbMac == Zeros(6) && scdbIp == Zeros(4)
    {
      assert |table| == |chains| == NAT25_HASH_SIZE;
      for i := 0 to NAT25_HASH_SIZE
        invariant Valid() && Members() <= old(Members()) && |table| == |chains| == NAT25_HASH_SIZE
        invariant forall j :: 0 <= j < i ==> chains[j] == [] && table[j] == []
        invariant Memory() == old(Memory()) || (Memory() == WIPED && old(scdbEntry) != null)
      {
        hide Valid, Members;
        CleanupBucket(i);
      }
    }

    /** The sender's entry and its addresses; without an entry the addresses stay what they were. */
    method Point(db: Entry?, mac: Mac, ip: seq<byte>)
      requires Valid() && (db != null ==> db in chains[Hash(db.addr)])
      modifies this`scdbEntry, this`scdbMac, this`scdbIp
      ensures Valid() && scdbEntry == db
      ensures scdbMac == (if db != null then mac else old(scdbMac)) && scdbIp == if db != null then ip else old(scdbIp)
    {
      scdbEntry := db;
      if db != null {
        scdbMac := mac;
        scdbIp := ip;
      }
    }

    /** `scdb_findEntry` and its caller in the transmit path: remember the entry of the sender, and refresh it. */
    method Cache(a: Addr, mac: Mac, ip: seq<byte>, now: int)
      requires Valid()
      modifies this, Members()
      ensures Valid() && chains == old(chains)
      ensures table == Apply(old(table), Refresh(a, now), hz)
      ensures Read(old(table), a) == None ==> Memory() == Cached(null, old(scdbMac), old(scdbIp))
      ensures Read(old(table), a) != None ==> scdbEntry != null && scdbEntry.addr == a && Memory() == Cached(scdbEntry, mac, ip)
    {
      hide *;
      var db, k := Search(a, now);
      Point(db, mac, ip);
      if db != null {
        RefreshEntry(db, now, k);
      }
      MemoryIs();
    }

    lemma MemoryIs()
      ensures Memory() == Cached(scdbEntry, scdbMac, scdbIp)
    {
    }

    /** The walk of `scdb_findEntry`; to refresh an address that is not there changes nothing. */
    method Search(a: Addr, ghost now: int) returns (db: Entry?, ghost k: nat)
      requires Valid()
      ensures Valid() && |table| == |chains| == NAT25_HASH_SIZE && (db == null <==> Read(table, a) == None)
      ensures db == null ==> table == Apply(table, Refresh(a, now), hz)
      ensures db != null ==> db.addr == a && db in Members() && db in chains[Hash(a)]
      ensures db != null ==> k == Index(table[Hash(a)], a) < |chains[Hash(a)]| && db == chains[Hash(a)][k]
    {
      var hash := Hash(a);
      ghost var c, rows := chains[hash], table[hash];
      db, k := Walk(nethash, hash, a, c, rows);
      assert BucketAt(nethash, hash, c, rows);
      hide BucketOk, Hash, AtHome, Wired;
      assert db != null ==> db in c;
      assert db == null ==> Refreshed(rows, a, now) == rows && table[hash := rows] == table;
    }

    /** A use of the cached pointer, without a search. */
    method RefreshCached(now: int)
      requires Valid() && scdbEntry != null
      modifies this`table, this`chains, Members()
      ensures Valid() && chains == old(chains)
      ensures table == Apply(old(table), Refresh(scdbEntry.addr, now), hz)
    {
      ghost var hash := Hash(scdbEntry.addr);
      ghost var k :| 0 <= k < |chains[hash]| && chains[hash][k] == scdbEntry;
      assert BucketAt(nethash, hash, chains[hash], table[hash]) && Wired(hash, chains[hash], k, table[hash][k]);
      GetAt(hash, table[hash], k);
      RefreshEntry(scdbEntry, now, k);
    }

    method RefreshEntry(db: Entry, now: int, ghost k: nat)
      requires Valid()
      requires k == Index(table[Hash(db.addr)], db.addr) < |chains[Hash(db.addr)]| && db == chains[Hash(db.addr)][k]
      modifies this`table, this`chains, db
      ensures Valid() && chains == old(chains)
      ensures table == Apply(old(table), Refresh(db.addr, now), hz)
    {
      ghost var hash := Hash(db.addr);
      ghost var c, rows := chains[hash], table[hash];
      BucketRefresh(hash, rows, db.addr, now, db.addr);
      hide BucketOk;
      assert db in c && Wired(hash, c, k, rows[k]);
      db.ageing := now;
      RowPut(Change(hash, k, rows[k].(ageing := now)));
      Record(hash, c, Refreshed(rows, db.addr, now));
    }
  }
}
