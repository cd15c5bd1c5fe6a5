/** The sounding scheduler of beamforming version 2 (rtw_beamforming.c). */
module Sounding {
  import opened Bytes
  import opened Options

  const MAX_SU := 2
  const MAX_MU := 6
  const MAX_ENTRY := 8

  /** `enum _SOUNDING_STATE`. */
  datatype State = NoState | Init | SuStart | SuSounddown | MuStart | MuSounddown | Timeout
  {
    /** `_sounding_handler` goes on from these. */
    predicate Resumes() {
      SuSounddown? || MuSounddown? || Timeout?
    }
  }

  /** `struct beamformee_entry`, as far as sounding goes; `su` stands for either SU capability. */
  datatype Bfee = Bfee(
    used: bool, added: bool, mu: bool, su: bool,
    apply: bool, suspend: bool, delete: bool,
    sounding: bool, candidate: bool, timeout: bool,
    soundCnt: nat, soundPeriod: nat, failCnt: nat)
  {
    predicate Live() {
      used && added
    }

    /** The count runs out in the period that begins. */
    predicate Due() {
      Live() && soundCnt <= 1
    }

    predicate MuDue() {
      Due() && mu && apply
    }

    predicate SuDue() {
      Due() && !mu && su && (delete || (apply && !suspend))
    }
  }

  /** What the scheduler does to beamformees: sound one, drop the information about one, or sound a group together. */
  datatype Event = Sound(i: nat) | Delete(i: nat) | Together(group: seq<nat>)

  /** How many periods an entry waits until it is due again, in eight bits. */
  function Periods(e: Bfee, minPeriod: nat): nat
    requires minPeriod > 0
  {
    e.soundPeriod / minPeriod % 256
  }

  /** What `_sounding_get_list` makes of one entry, and whether it is listed. */
  function Listed(e: Bfee, minPeriod: nat, room: bool): (Bfee, bool)
    requires minPeriod > 0
  {
    var d := if e.Live() && e.soundCnt > 0 then e.(soundCnt := e.soundCnt - 1) else e;
    if !room then (d, false)
    else if e.SuDue() && e.delete then (d, true)
    else if e.SuDue() || e.MuDue() then (d.(candidate := true, soundCnt := Periods(e, minPeriod)), true)
    else (d, false)
  }

  /** The first `limit` of the entries below `n` that satisfy one of the two conditions. */
  function Picks(b: seq<Bfee>, mu: bool, n: nat, limit: nat): (r: seq<nat>)
    requires n <= |b|
    ensures |r| <= limit && forall k :: 0 <= k < |r| ==> r[k] < n
    ensures forall j, k :: 0 <= j < k < |r| ==> r[j] < r[k]
  {
    if n == 0 then []
    else
      var r := Picks(b, mu, n - 1, limit);
      if |r| < limit && (if mu then b[n - 1].MuDue() else b[n - 1].SuDue()) then r + [n - 1] else r
  }

  /** The events of a list of SU entries that have not been sounded. */
  function SuTodo(list: seq<nat>, b: seq<Bfee>): seq<Event> {
    if list == [] then []
    else
      (if list[0] >= |b| || b[list[0]].sounding then []
       else if b[list[0]].delete then [Delete(list[0])] else [Sound(list[0])])
      + SuTodo(list[1..], b)
  }

  /** The events of one period, in order: the SU entries one by one, then the MU entries together. */
  function Plan(b: seq<Bfee>): seq<Event> {
    SuTodo(Picks(b, false, |b|, MAX_SU), Reset(b)) + MuTodo(Picks(b, true, |b|, MAX_MU))
  }

  function MuTodo(group: seq<nat>): seq<Event> {
    if group == [] then [] else [Together(group)]
  }

  /** The entries after `_sounding_reset_vars`. */
  function Reset(b: seq<Bfee>): (r: seq<Bfee>)
    ensures |r| == |b|
  {
    seq(|b|, i requires 0 <= i < |b| => ResetOne(b[i]))
  }

  function ResetOne(e: Bfee): Bfee {
    if e.used && e.sounding then e.(sounding := false, candidate := false) else e
  }

  /** Two different places, or no place at all. */
  predicate Apart(list: seq<nat>) {
    forall j, k :: 0 <= j < k < |list| && list[j] < MAX_ENTRY ==> list[j] != list[k]
  }

  predicate Open(b: seq<Bfee>, i: nat) {
    i < |b| && !b[i].sounding
  }

  lemma {:induction false} NothingOpen(list: seq<nat>, b: seq<Bfee>)
    requires forall k :: 0 <= k < |list| ==> !Open(b, list[k])
    ensures SuTodo(list, b) == []
  {
    if list != [] {
      assert !Open(b, list[0]);
      NothingOpen(list[1..], b);
    }
  }

  function EventOf(b: seq<Bfee>, i: nat): Event
    requires i < |b|
  {
    if b[i].delete then Delete(i) else Sound(i)
  }

  /** Starting the first open entry takes its event off the agenda and leaves the rest. */
  lemma {:induction false} OneStarted(list: seq<nat>, b: seq<Bfee>, k: nat, e: Bfee)
    requires |b| == MAX_ENTRY && Apart(list) && k < |list| && Open(b, list[k]) && e.sounding
    requires forall j :: 0 <= j < k ==> !Open(b, list[j])
    ensures SuTodo(list, b) == [EventOf(b, list[k])] + SuTodo(list, b[list[k] := e])
  {
    var n := b[list[k] := e];
    if k == 0 {
      OthersSame(list[1..], b, list[0], e);
    } else {
      assert !Open(b, list[0]) && !Open(n, list[0]);
      OneStarted(list[1..], b, k - 1, e);
    }
  }

  lemma {:induction false} OthersSame(list: seq<nat>, b: seq<Bfee>, i: nat, e: Bfee)
    requires i < |b| && i !in list
    ensures SuTodo(list, b[i := e]) == SuTodo(list, b)
  {
    if list != [] {
      OthersSame(list[1..], b, i, e);
    }
  }

  /** Marking more entries as sounding opens nothing. */
  lemma {:induction false} StaysEmpty(list: seq<nat>, b: seq<Bfee>, n: seq<Bfee>)
    requires SuTodo(list, b) == [] && |n| == |b|
    requires forall i :: 0 <= i < |b| && b[i].sounding ==> n[i].sounding
    ensures SuTodo(list, n) == []
  {
    if list != [] {
      StaysEmpty(list[1..], b, n);
    }
  }

  /** Fields of an entry that the agenda does not look at. */
  lemma {:induction false} OnlyFlags(list: seq<nat>, b: seq<Bfee>, i: nat, e: Bfee)
    requires i < |b| && b[i].sounding && e.sounding
    ensures SuTodo(list, b[i := e]) == SuTodo(list, b)
  {
    if list != [] {
      OnlyFlags(list[1..], b, i, e);
    }
  }

  /** Resetting changes nothing that decides about the lists. */
  lemma {:induction false} PicksReset(b: seq<Bfee>, mu: bool, n: nat, limit: nat)
    requires n <= |b|
    ensures Picks(Reset(b), mu, n, limit) == Picks(b, mu, n, limit)
  {
    if n > 0 {
      PicksReset(b, mu, n - 1, limit);
    }
  }

  lemma {:induction false} PicksDue(b: seq<Bfee>, mu: bool, n: nat, limit: nat)
    requires n <= |b|
    ensures forall k :: 0 <= k < |Picks(b, mu, n, limit)| ==>
      var e := b[Picks(b, mu, n, limit)[k]]; if mu then e.MuDue() else e.SuDue()
  {
    if n > 0 {
      PicksDue(b, mu, n - 1, limit);
    }
  }

  lemma {:induction false} SameTodo(list: seq<nat>, b: seq<Bfee>, c: seq<Bfee>)
    requires |b| == |c| && forall i :: 0 <= i < |b| ==> b[i].sounding == c[i].sounding && b[i].delete == c[i].delete
    ensures SuTodo(list, b) == SuTodo(list, c)
  {
    if list != [] {
      SameTodo(list[1..], b, c);
    }
  }

  /** Places that name no entry add nothing. */
  lemma {:induction false} PaddedTodo(list: seq<nat>, pad: seq<nat>, b: seq<Bfee>)
    requires forall k :: 0 <= k < |pad| ==> pad[k] >= |b|
    ensures SuTodo(list + pad, b) == SuTodo(list, b)
  {
    if list == [] {
      assert list + pad == pad;
      NothingOpen(pad, b);
    } else {
      assert (list + pad)[1..] == list[1..] + pad;
      PaddedTodo(list[1..], pad, b);
    }
  }

  /** Entries none of which is sounding: one event each, in order. */
  lemma {:induction false} AllTodo(list: seq<nat>, b: seq<Bfee>)
    requires forall k :: 0 <= k < |list| ==> Open(b, list[k])
    ensures |SuTodo(list, b)| == |list|
    ensures forall k :: 0 <= k < |list| ==> Open(b, list[k]) && SuTodo(list, b)[k] == EventOf(b, list[k])
  {
    if list != [] {
      assert Open(b, list[0]);
      AllTodo(list[1..], b);
    }
  }

  /** The plan names every listed SU beamformee once, in list order, and then all listed MU ones together. */
  lemma PlanIsList(b: seq<Bfee>)
    ensures Plan(b) == [] <==> Picks(b, false, |b|, MAX_SU) == [] && Picks(b, true, |b|, MAX_MU) == []
    ensures var su, mu := Picks(b, false, |b|, MAX_SU), Picks(b, true, |b|, MAX_MU);
      && |Plan(b)| == |su| + (if mu == [] then 0 else 1)
      && (forall k :: 0 <= k < |su| ==> Plan(b)[k] == EventOf(b, su[k]))
      && (mu != [] ==> Plan(b)[|su|] == Together(mu))
  {
    assert MAX_SU >= 0 && MAX_MU >= 0;
    hide *;
    var su := Picks(b, false, |b|, MAX_SU);
    PlanIs(b);
    SuOpen(b);
    AllTodo(su, Reset(b));
  }

  lemma PlanIs(b: seq<Bfee>)
    ensures var su, mu := Picks(b, false, |b|, MAX_SU), Picks(b, true, |b|, MAX_MU);
      Plan(b) == SuTodo(su, Reset(b)) + if mu == [] then [] else [Together(mu)]
  {
  }

  /** At the start of a period every listed SU entry is open, and its event is that of the entry before. */
  lemma SuOpen(b: seq<Bfee>)
    ensures var su := Picks(b, false, |b|, MAX_SU);
      forall k :: 0 <= k < |su| ==> Open(Reset(b), su[k]) && EventOf(Reset(b), su[k]) == EventOf(b, su[k])
  {
    PicksDue(b, false, |b|, MAX_SU);
    hide Picks;
  }

  // ----- Who is sounded -----

  /** The entry asks for a place in one of the lists. */
  predicate Asks(e: Bfee, mu: bool) {
    if mu then e.MuDue() else e.SuDue()
  }

  /** The entries below `n` that do. */
  function Asking(b: seq<Bfee>, mu: bool, n: nat): set<nat>
    requires n <= |b|
  {
    set j: nat | j < n && Asks(b[j], mu)
  }

  lemma AskingOn(b: seq<Bfee>, mu: bool, n: nat)
    requires n < |b|
    ensures Asking(b, mu, n + 1) == Asking(b, mu, n) + if Asks(b[n], mu) then {n} else {}
    ensures n !in Asking(b, mu, n)
  {
    hide Asks;
  }

  lemma PicksOn(b: seq<Bfee>, mu: bool, n: nat, limit: nat)
    requires n < |b|
    ensures Picks(b, mu, n + 1, limit) ==
      Picks(b, mu, n, limit) + if |Picks(b, mu, n, limit)| < limit && Asks(b[n], mu) then [n] else []
  {
    hide Bfee.MuDue, Bfee.SuDue;
  }

  lemma {:induction false} PickedCount(b: seq<Bfee>, mu: bool, n: nat, limit: nat)
    requires n <= |b|
    ensures |Picks(b, mu, n, limit)| == if |Asking(b, mu, n)| < limit then |Asking(b, mu, n)| else limit
  {
    if n > 0 {
      PickedCount(b, mu, n - 1, limit);
      AskingOn(b, mu, n - 1);
      PicksOn(b, mu, n - 1, limit);
      hide *;
    } else {
      assert Asking(b, mu, 0) == {};
    }
  }

  /** An entry gets a place exactly if it asks for one and fewer than `limit` entries before it do. */
  lemma {:induction false} PickedIff(b: seq<Bfee>, mu: bool, n: nat, limit: nat, i: nat)
    requires n <= |b|
    ensures i in Picks(b, mu, n, limit) <==> i < n && Asks(b[i], mu) && |Asking(b, mu, i)| < limit
  {
    if n > 0 {
      PickedIff(b, mu, n - 1, limit, i);
      PickedCount(b, mu, n - 1, limit);
      PicksOn(b, mu, n - 1, limit);
      hide *;
    }
  }

  /** Which entries ask for sounding alone, and which for sounding in the group. */
  lemma AskingIs(b: seq<Bfee>, n: nat)
    requires n <= |b|
    ensures Asking(b, false, n) == set j: nat | j < n &&
      b[j].used && b[j].added && b[j].soundCnt <= 1 && !b[j].mu && b[j].su && (b[j].delete || (b[j].apply && !b[j].suspend))
    ensures Asking(b, true, n) == set j: nat | j < n &&
      b[j].used && b[j].added && b[j].soundCnt <= 1 && b[j].mu && b[j].apply
  {
  }

  /** A list of events, one for every place of a list of entries. */
  lemma {:induction false} Among(q: seq<Event>, su: seq<nat>, b: seq<Bfee>, i: nat, g: seq<nat>)
    requires |q| == |su| && forall k :: 0 <= k < |su| ==> su[k] < |b| && q[k] == EventOf(b, su[k])
    ensures Sound(i) in q <==> i in su && i < |b| && !b[i].delete
    ensures Delete(i) in q <==> i in su && i < |b| && b[i].delete
    ensures Together(g) !in q
  {
    if q != [] {
      Among(q[1..], su[1..], b, i, g);
      assert q == [q[0]] + q[1..] && su == [su[0]] + su[1..] && q[0] == EventOf(b, su[0]);
    }
  }

  /** The plan is such a list, with the group behind it. */
  lemma PlanSplit(b: seq<Bfee>) returns (q: seq<Event>)
    ensures var su, mu := Picks(b, false, |b|, 2), Picks(b, true, |b|, 6);
      && |q| == |su| && (forall k :: 0 <= k < |su| ==> q[k] == EventOf(b, su[k]))
      && Plan(b) == q + if mu == [] then [] else [Together(mu)]
  {
    assert MAX_SU == 2 && MAX_MU == 6;
    PlanIs(b);
    SuOpen(b);
    hide *;
    AllTodo(Picks(b, false, |b|, 2), Reset(b));
    q := SuTodo(Picks(b, false, |b|, 2), Reset(b));
  }

  /** The events of a period that concern one entry alone are those of the list. */
  lemma EventInPlan(b: seq<Bfee>, i: nat)
    ensures Sound(i) in Plan(b) <==> i in Picks(b, false, |b|, 2) && i < |b| && !b[i].delete
    ensures Delete(i) in Plan(b) <==> i in Picks(b, false, |b|, 2) && i < |b| && b[i].delete
  {
    hide *;
    var q := PlanSplit(b);
    Among(q, Picks(b, false, |b|, 2), b, i, []);
  }

  lemma GroupInPlan(b: seq<Bfee>, g: seq<nat>)
    ensures Together(g) in Plan(b) <==> g == Picks(b, true, |b|, 6) && g != []
  {
    hide *;
    var q := PlanSplit(b);
    Among(q, Picks(b, false, |b|, 2), b, 0, g);
  }

  /**
   * Alone are sounded: entries in use, added, due in this period, for SU and not for MU, that ask for it, are not
   * suspended and not to be deleted, as far as fewer than two such entries, or entries to be deleted, come before them.
   */
  lemma SoundIff(b: seq<Bfee>, i: nat)
    ensures Sound(i) in Plan(b) <==>
      && i < |b| && b[i].used && b[i].added && b[i].soundCnt <= 1 && !b[i].mu && b[i].su
      && b[i].apply && !b[i].suspend && !b[i].delete
      && |set j: nat | j < i && b[j].used && b[j].added && b[j].soundCnt <= 1 && !b[j].mu && b[j].su &&
                       (b[j].delete || (b[j].apply && !b[j].suspend))| < 2
  {
    EventInPlan(b, i);
    PickedIff(b, false, |b|, 2, i);
    if i < |b| {
      AskingIs(b, i);
    }
    hide Plan, Picks, Asking;
  }

  /** An entry to be deleted takes such a place whether it asks for sounding or not, suspended or not. */
  lemma DeleteIff(b: seq<Bfee>, i: nat)
    ensures Delete(i) in Plan(b) <==>
      && i < |b| && b[i].used && b[i].added && b[i].soundCnt <= 1 && !b[i].mu && b[i].su && b[i].delete
      && |set j: nat | j < i && b[j].used && b[j].added && b[j].soundCnt <= 1 && !b[j].mu && b[j].su &&
                       (b[j].delete || (b[j].apply && !b[j].suspend))| < 2
  {
    EventInPlan(b, i);
    PickedIff(b, false, |b|, 2, i);
    if i < |b| {
      AskingIs(b, i);
    }
    hide Plan, Picks, Asking;
  }

  /** Together are sounded, in order, the first six entries in use, added and due that are for MU and ask for it. */
  lemma TogetherIff(b: seq<Bfee>, g: seq<nat>)
    requires Together(g) in Plan(b)
    ensures forall j, k :: 0 <= j < k < |g| ==> g[j] < g[k]
    ensures forall i: nat :: i in g <==>
      && i < |b| && b[i].used && b[i].added && b[i].soundCnt <= 1 && b[i].mu && b[i].apply
      && |set j: nat | j < i && b[j].used && b[j].added && b[j].soundCnt <= 1 && b[j].mu && b[j].apply| < 6
  {
    GroupInPlan(b, g);
    forall i: nat ensures i in g <==>
      && i < |b| && b[i].used && b[i].added && b[i].soundCnt <= 1 && b[i].mu && b[i].apply
      && |set j: nat | j < i && b[j].used && b[j].added && b[j].soundCnt <= 1 && b[j].mu && b[j].apply| < 6
    {
      GroupMember(b, i);
    }
    hide *;
  }

  lemma GroupMember(b: seq<Bfee>, i: nat)
    ensures i in Picks(b, true, |b|, 6) <==>
      && i < |b| && b[i].used && b[i].added && b[i].soundCnt <= 1 && b[i].mu && b[i].apply
      && |set j: nat | j < i && b[j].used && b[j].added && b[j].soundCnt <= 1 && b[j].mu && b[j].apply| < 6
  {
    PickedIff(b, true, |b|, 6, i);
    if i < |b| {
      AskingIs(b, i);
    }
    hide Picks, Asking;
  }

  /** There is such a group exactly if there is such an entry. */
  lemma GroupIff(b: seq<Bfee>)
    ensures (exists g :: Together(g) in Plan(b)) <==>
      exists i :: 0 <= i < |b| && b[i].used && b[i].added && b[i].soundCnt <= 1 && b[i].mu && b[i].apply
  {
    var mu := Picks(b, true, |b|, 6);
    GroupInPlan(b, mu);
    PickedCount(b, true, |b|, 6);
    AskingIs(b, |b|);
    hide *;
    if g :| Together(g) in Plan(b) {
      GroupInPlan(b, g);
      GroupMember(b, mu[0]);
    }
    if i :| 0 <= i < |b| && b[i].used && b[i].added && b[i].soundCnt <= 1 && b[i].mu && b[i].apply {
      assert i in Asking(b, true, |b|);
    }
  }

  /**
   * What listing does to an entry: one that waits waits one period less; one that gets its place, unless it is to be
   * deleted, is a candidate and waits for as many periods as fit into its own, in eight bits; nothing else changes.
   */
  lemma ListedIs(e: Bfee, minPeriod: nat, room: bool)
    requires minPeriod > 0
    ensures var n, due := Listed(e, minPeriod, room).0, e.used && e.added && e.soundCnt <= 1;
      if !e.used || !e.added then n == e
      else if due && room && e.apply && (e.mu || (e.su && !e.suspend && !e.delete)) then
        n == e.(candidate := true, soundCnt := e.soundPeriod / minPeriod % 256)
      else if e.soundCnt > 0 then n == e.(soundCnt := e.soundCnt - 1)
      else n == e
  {
  }

  /** Whatever is under way at the end of a period is not at the beginning of the next. */
  lemma ResetIs(b: seq<Bfee>, i: nat)
    requires i < |b|
    ensures |Reset(b)| == |b|
    ensures Reset(b)[i] == if b[i].used && b[i].sounding then b[i].(sounding := false, candidate := false) else b[i]
  {
  }

  /** Whether the list that entry `i` belongs to has a free place when the walk comes to it. */
  predicate Room(b: seq<Bfee>, i: nat)
    requires i < |b|
  {
    if b[i].mu then |Picks(b, true, i, MAX_MU)| < MAX_MU else |Picks(b, false, i, MAX_SU)| < MAX_SU
  }

  /** Some entry is in use and not yet added. */
  predicate Unready(b: seq<Bfee>) {
    exists k :: 0 <= k < |b| && b[k].used && !b[k].added
  }

  /** The list is empty for want of an entry that has been added, although some are in use. */
  lemma UnreadyIff(b: seq<Bfee>)
    ensures Unready(b) <==> exists e :: e in b && e.used && !e.added
  {
    if e :| e in b && e.used && !e.added {
      var k :| 0 <= k < |b| && b[k] == e;
    }
    if k :| 0 <= k < |b| && b[k].used && !b[k].added {
      assert b[k] in b;
    }
  }

  /** Which list has room: fewer than six entries for MU, or fewer than two for SU, ask for a place before this one. */
  lemma RoomIff(b: seq<Bfee>, i: nat)
    requires i < |b|
    ensures Room(b, i) <==>
      if b[i].mu then |set j: nat | j < i && b[j].used && b[j].added && b[j].soundCnt <= 1 && b[j].mu && b[j].apply| < 6
      else |set j: nat | j < i && b[j].used && b[j].added && b[j].soundCnt <= 1 && !b[j].mu && b[j].su &&
                         (b[j].delete || (b[j].apply && !b[j].suspend))| < 2
  {
    PickedCount(b, true, i, 6);
    PickedCount(b, false, i, 2);
    AskingIs(b, i);
    hide Picks, Asking;
  }

  /** The walk of `_sounding_get_list` over the entries `b` has passed `i` of them; `now`, `su`, `mu` are the entries and lists. */
  ghost predicate Walked(b: seq<Bfee>, now: seq<Bfee>, su: seq<nat>, mu: seq<nat>, i: nat, minPeriod: nat,
                         muIdx: nat, suIdx: nat, notReady: nat)
  {
    && |b| == |now| == MAX_ENTRY && |su| == MAX_SU && |mu| == MAX_MU && i <= MAX_ENTRY && minPeriod > 0
    && (forall k :: 0 <= k < MAX_ENTRY ==> now[k] == if k < i then Listed(b[k], minPeriod, Room(b, k)).0 else b[k])
    && suIdx == |Picks(b, false, i, MAX_SU)| && su[..suIdx] == Picks(b, false, i, MAX_SU)
    && muIdx == |Picks(b, true, i, MAX_MU)| && mu[..muIdx] == Picks(b, true, i, MAX_MU)
    && (forall k :: suIdx <= k < MAX_SU ==> su[k] == 0xFF)
    && (forall k :: muIdx <= k < MAX_MU ==> mu[k] == 0xFF)
    && (notReady > 0 <==> exists k :: 0 <= k < i && b[k].used && !b[k].added)
  }

  lemma WalkedHere(b: seq<Bfee>, now: seq<Bfee>, su: seq<nat>, mu: seq<nat>, i: nat, minPeriod: nat,
                   muIdx: nat, suIdx: nat, notReady: nat)
    requires Walked(b, now, su, mu, i, minPeriod, muIdx, suIdx, notReady) && i < MAX_ENTRY
    ensures |b| == |now| == MAX_ENTRY && now[i] == b[i] && muIdx <= MAX_MU && suIdx <= MAX_SU
    ensures Room(b, i) == if b[i].mu then muIdx < MAX_MU else suIdx < MAX_SU
  {
  }

  /** One more entry, dealt with as `Consider` says. */
  lemma WalkedOn(b: seq<Bfee>, now: seq<Bfee>, su: seq<nat>, mu: seq<nat>, i: nat, minPeriod: nat,
                 muIdx: nat, suIdx: nat, notReady: nat)
    requires Walked(b, now, su, mu, i, minPeriod, muIdx, suIdx, notReady) && i < MAX_ENTRY && |b| == |now| == MAX_ENTRY
    requires |su| == MAX_SU && |mu| == MAX_MU && minPeriod > 0
    ensures var e := b[i];
      var room := if e.mu then muIdx < MAX_MU else suIdx < MAX_SU;
      var toMu, toSu := room && e.MuDue(), room && e.SuDue();
      Walked(b, now[i := Listed(e, minPeriod, room).0],
             if toSu then su[suIdx := i] else su, if toMu then mu[muIdx := i] else mu, i + 1, minPeriod,
             if toMu then muIdx + 1 else muIdx, if toSu then suIdx + 1 else suIdx,
             if e.used && !e.added then notReady + 1 else notReady)
  {
    hide Listed;
  }

  /** Listing leaves alone what the agenda looks at. */
  lemma ListedFlags(e: Bfee, minPeriod: nat, room: bool)
    requires minPeriod > 0
    ensures var n := Listed(e, minPeriod, room).0; n.sounding == e.sounding && n.delete == e.delete
  {
    hide Periods;
  }

  lemma ListTodo(b: seq<Bfee>, now: seq<Bfee>, su: seq<nat>, pad: seq<nat>)
    requires |b| == |now| == MAX_ENTRY && su == Picks(b, false, MAX_ENTRY, MAX_SU)
    requires forall k :: 0 <= k < |pad| ==> pad[k] == 0xFF
    requires forall k :: 0 <= k < MAX_ENTRY ==> now[k].sounding == Reset(b)[k].sounding && now[k].delete == b[k].delete
    ensures Apart(su + pad) && SuTodo(su + pad, now) == SuTodo(su, Reset(b))
  {
    assert forall k :: 0 <= k < |b| ==> Reset(b)[k].delete == b[k].delete;
    hide Picks, SuTodo, Reset;
    Padded(su, pad);
    PaddedTodo(su, pad, now);
    SameTodo(su, now, Reset(b));
  }

  lemma Padded(su: seq<nat>, pad: seq<nat>)
    requires forall j, k :: 0 <= j < k < |su| ==> su[j] < su[k]
    requires forall k :: 0 <= k < |pad| ==> pad[k] == 0xFF
    requires forall k :: 0 <= k < |su| ==> su[k] < MAX_ENTRY
    ensures Apart(su + pad)
  {
    assert forall k :: 0 <= k < |su + pad| ==> (su + pad)[k] == if k < |su| then su[k] else 0xFF;
  }

  /** An entry after the end of its sounding; the failure count is a field of five bits. */
  function Judged(e: Bfee, status: bool): Bfee {
    if status then e.(failCnt := 0)
    else if e.delete then e.(delete := false)
    else e.(failCnt := (e.failCnt + 1) % 32)
  }

  /** A failure after which the driver gives the entry up. */
  predicate Stops(e: Bfee, status: bool) {
    !status && !e.delete && Judged(e, status).failCnt > 30
  }

  /** What `n` failures in a row make of an entry. */
  function AfterFailures(e: Bfee, n: nat): Bfee {
    if n == 0 then e else Judged(AfterFailures(e, n - 1), false)
  }

  /** How often the driver gives the entry up on the way. */
  function GivenUp(e: Bfee, n: nat): nat {
    if n == 0 then 0 else GivenUp(e, n - 1) + if Stops(AfterFailures(e, n - 1), false) then 1 else 0
  }

  lemma JudgedIs(e: Bfee)
    ensures Judged(e, true) == e.(failCnt := 0) && !Stops(e, true)
    ensures !e.delete ==> Judged(e, false) == e.(failCnt := (e.failCnt + 1) % 32)
    ensures !e.delete ==> (Stops(e, false) <==> e.failCnt % 32 == 30)
  {
  }

  lemma {:induction false} CountAfter(e: Bfee, n: nat)
    requires !e.delete && e.failCnt == 0
    ensures AfterFailures(e, n) == e.(failCnt := n % 32)
  {
    if n > 0 {
      CountAfter(e, n - 1);
      FailedOn(e, n - 1);
      OneFailure(e, (n - 1) % 32);
      Rolls(n);
      hide *;
    }
  }

  lemma OneFailure(e: Bfee, k: nat)
    requires !e.delete
    ensures Judged(e.(failCnt := k), false) == e.(failCnt := (k + 1) % 32)
  {
  }

  lemma {:induction false} GivenUpAfter(e: Bfee, n: nat)
    requires !e.delete && e.failCnt == 0
    ensures GivenUp(e, n) == (n + 1) / 32
  {
    if n > 0 {
      GivenUpAfter(e, n - 1);
      CountAfter(e, n - 1);
      FailedOn(e, n - 1);
      JudgedIs(e.(failCnt := (n - 1) % 32));
      hide *;
      Rolls(n);
    }
  }

  /**
   * A success starts the count again. From there, failures are counted one by one and the driver gives the entry up at
   * the 31st in a row, and, because the count has five bits, again at every 32nd after that.
   */
  lemma FailuresInARow(e: Bfee, n: nat)
    requires !e.delete
    ensures Judged(e, true) == e.(failCnt := 0) && !Stops(e, true)
    ensures AfterFailures(Judged(e, true), n) == e.(failCnt := n % 32) && GivenUp(Judged(e, true), n) == (n + 1) / 32
    ensures Stops(AfterFailures(Judged(e, true), n), false) <==> n % 32 == 30
  {
    hide *;
    JudgedIs(e);
    CountAfter(e.(failCnt := 0), n);
    GivenUpAfter(e.(failCnt := 0), n);
    JudgedIs(e.(failCnt := n % 32));
    Rolls(n);
  }

  lemma FailedOn(e: Bfee, n: nat)
    ensures AfterFailures(e, n + 1) == Judged(AfterFailures(e, n), false)
    ensures GivenUp(e, n + 1) == GivenUp(e, n) + if Stops(AfterFailures(e, n), false) then 1 else 0
  {
  }

  lemma Rolls(n: nat)
    ensures n > 0 ==> ((n - 1) % 32 + 1) % 32 == n % 32 && (n + 1) / 32 == n / 32 + if (n - 1) % 32 == 30 then 1 else 0
    ensures n % 32 % 32 == n % 32
  {
  }

  /** A failure on an entry that is to be deleted ends the deletion and counts for nothing. */
  lemma FailureOnDelete(e: Bfee)
    requires e.delete
    ensures Judged(e, false) == e.(delete := false) && !Stops(e, false)
  {
  }

  /** The failure counts of all entries. */
  function Fails(b: seq<Bfee>): (f: seq<nat>)
    ensures |f| == |b|
  {
    seq(|b|, i requires 0 <= i < |b| => b[i].failCnt)
  }

  lemma FailsPut(b: seq<Bfee>, i: nat, e: Bfee)
    requires i < |b|
    ensures Fails(b[i := e]) == Fails(b)[i := e.failCnt]
    ensures e.failCnt == b[i].failCnt ==> Fails(b[i := e]) == Fails(b)
  {
  }

  const UNUSED := Bfee(false, false, false, false, false, false, false, false, false, false, 0, 0, 0)

  class Scheduler {
    const bfee: array<Bfee>
    const suList: array<nat>
    const muList: array<nat>
    var state: State
    var curIdx: nat
    var muCnt: nat
    var minPeriod: nat
    var running: nat
    var waitCnt: nat
    var leaves: nat            // LEAVE commands given to the command queue
    ghost var log: seq<Event>  // what has been started so far

    ghost predicate Valid()
      reads this`state, this`curIdx, this`muCnt, bfee, suList, muList
    {
      && bfee.Length == MAX_ENTRY && suList.Length == MAX_SU && muList.Length == MAX_MU && suList != muList
      && Apart(suList[..])
      && muCnt <= MAX_MU && (forall k :: 0 <= k < muCnt ==> muList[k] < MAX_ENTRY)
      && (state == SuStart ==> curIdx < MAX_ENTRY && bfee[curIdx].sounding && !bfee[curIdx].timeout)
    }

    /** `_sounding_init` and the start of the driver: no beamformee, nothing listed, nothing under way. */
    constructor ()
      ensures Valid() && fresh(bfee) && fresh(suList) && fresh(muList)
      ensures state == NoState && curIdx == 0xFF && minPeriod == 0 && running == 0 && waitCnt == 0 && leaves == 0
      ensures log == [] && Agenda() == [] && forall k :: 0 <= k < MAX_ENTRY ==> bfee[k] == UNUSED
    {
      bfee := new Bfee[MAX_ENTRY](_ => UNUSED);
      suList := new nat[MAX_SU](_ => 0xFF);
      muList := new nat[MAX_MU](_ => 0xFF);
      state, curIdx, muCnt, minPeriod, running, waitCnt, leaves, log := NoState, 0xFF, 0, 0, 0, 0, 0, [];
      new;
      NothingOpen(suList[..], bfee[..]);
      assert muList[..0] == [];
    }

    /** What is left to do in this period. */
    ghost function Agenda(): seq<Event>
      requires muCnt <= muList.Length
      reads this`muCnt, bfee, suList, muList
    {
      SuTodo(suList[..], bfee[..]) + MuTodo(muList[..muCnt])
    }

    /** The search of `_sounding_handler` for an SU beamformee that has not been sounded. */
    method FindOpen() returns (i: nat)
      requires Valid()
      ensures i <= MAX_SU && forall j :: 0 <= j < i ==> !Open(bfee[..], suList[j])
      ensures i < MAX_SU ==> Open(bfee[..], suList[i])
    {
      i := 0;
      while i < MAX_SU
        invariant i <= MAX_SU && forall j :: 0 <= j < i ==> !Open(bfee[..], suList[j])
      {
        if suList[i] < MAX_ENTRY && !bfee[suList[i]].sounding {
          return;
        }
        i := i + 1;
      }
    }

    /** The part of `_sounding_handler` that starts one SU beamformee. */
    method StartSu(i: nat)
      requires Valid() && i < MAX_SU && Open(bfee[..], suList[i])
      requires forall j :: 0 <= j < i ==> !Open(bfee[..], suList[j])
      modifies this`state, this`curIdx, this`log, bfee
      ensures Valid() && state == SuStart && curIdx == suList[i] < MAX_ENTRY
      ensures old(Agenda()) == [EventOf(old(bfee[..]), curIdx)] + Agenda()
      ensures log == old(log) + [EventOf(old(bfee[..]), curIdx)]
      ensures bfee[curIdx].delete == old(bfee[..])[curIdx].delete
      ensures |SuTodo(suList[..], bfee[..])| < |old(SuTodo(suList[..], bfee[..]))|
      ensures Fails(bfee[..]) == old(Fails(bfee[..]))
    {
      ghost var b := bfee[..];
      curIdx := suList[i];
      state := SuStart;
      bfee[curIdx] := bfee[curIdx].(sounding := true, timeout := false);
      assert bfee[..] == b[curIdx := bfee[curIdx]];
      FailsPut(b, curIdx, bfee[curIdx]);
      hide Fails;
      OneStarted(suList[..], b, i, bfee[curIdx]);
      log := log + [EventOf(b, curIdx)];
      Assoc([EventOf(b, curIdx)], SuTodo(suList[..], bfee[..]), MuTodo(muList[..muCnt]));
    }

    /** The part of `_sounding_handler` that starts the MU beamformees. */
    method StartMu()
      requires Valid() && SuTodo(suList[..], bfee[..]) == [] && muCnt > 0
      modifies this`state, this`muCnt, this`log, bfee
      ensures Valid() && state == MuStart && Agenda() == []
      ensures old(Agenda()) == [Together(muList[..old(muCnt)])]
      ensures log == old(log) + [Together(muList[..old(muCnt)])]
      ensures forall k :: 0 <= k < old(muCnt) ==> bfee[muList[k]].sounding
      ensures Fails(bfee[..]) == old(Fails(bfee[..]))
    {
      ghost var b := bfee[..];
      AgendaIs([]);
      state := MuStart;
      MarkMu();
      hide SuTodo, Apart, Fails;
      StaysEmpty(suList[..], b, bfee[..]);
      log := log + [Together(muList[..muCnt])];
      muCnt := 0;
      AgendaIs([]);
    }

    method MarkMu()
      requires Valid() && state == MuStart
      modifies bfee
      ensures Valid() && forall j :: 0 <= j < MAX_ENTRY && old(bfee[..])[j].sounding ==> bfee[j].sounding
      ensures forall k :: 0 <= k < muCnt ==> bfee[muList[k]].sounding
      ensures Fails(bfee[..]) == old(Fails(bfee[..]))
    {
      hide Apart, Fails;
      for i := 0 to muCnt
        invariant Fails(bfee[..]) == old(Fails(bfee[..]))
        invariant Valid() && forall j :: 0 <= j < MAX_ENTRY && old(bfee[..])[j].sounding ==> bfee[j].sounding
        invariant forall j :: 0 <= j < i ==> bfee[muList[j]].sounding
      {
        ghost var b := bfee[..];
        bfee[muList[i]] := bfee[muList[i]].(sounding := true);
        assert bfee[..] == b[muList[i] := bfee[muList[i]]];
        FailsPut(b, muList[i], bfee[muList[i]]);
      }
    }

    /** SU entries of this period that have not been started; each call of the handler back from itself starts one. */
    ghost function Rank(): nat
      requires Valid()
      reads this, bfee, suList, muList
    {
      |SuTodo(suList[..], bfee[..])|
    }

    /** What is left to do if the SU part is `su`. */
    lemma AgendaIs(su: seq<Event>)
      requires Valid() && su == SuTodo(suList[..], bfee[..])
      ensures su == [] && muCnt > 0 ==> Agenda() == [Together(muList[..muCnt])]
      ensures muCnt == 0 ==> Agenda() == su
    {
      assert muList[..0] == [];
    }

    /** The handler has done its turn: one beamformee or group is being sounded, or the period is over. */
    ghost predicate Turned(wasRunning: nat, wasLog: seq<Event>)
      requires Valid()
      reads this, bfee, suList, muList
    {
      && wasLog <= log
      && (state == Init || state == SuStart || state == MuStart)
      && (state == Init ==> Agenda() == [] && running + 1 == wasRunning)
      && (state != Init ==> running == wasRunning && |log| > |wasLog|)
      && (state == SuStart ==> log[|log| - 1] == Sound(curIdx) && !bfee[curIdx].delete)
      && (state == MuStart ==> log[|log| - 1].Together? && Agenda() == [])
    }

    /** `_sounding_handler` behind its first part, which belongs to the start of a period. */
    method Resume()
      requires Valid() && (state.Resumes() || state == Init) && running > 0
      modifies this, bfee
      ensures Valid() && log + Agenda() == old(log + Agenda()) && Turned(old(running), old(log))
      ensures minPeriod == old(minPeriod) && leaves == old(leaves) && waitCnt == old(waitCnt) && Fails(bfee[..]) == old(Fails(bfee[..]))
      decreases Rank(), 0
    {
      hide SuTodo, MuTodo, Apart, Agenda, Fails;
      var i := FindOpen();
      if i < MAX_SU {
        StartSu(i);
        Assoc(old(log), [EventOf(old(bfee[..]), curIdx)], Agenda());
        if bfee[curIdx].delete {
          SoundingDown(false);
        }
        return;
      }
      NothingOpen(suList[..], bfee[..]);
      AgendaIs([]);
      if muCnt > 0 {
        StartMu();
        Assoc(old(log), [Together(muList[..old(muCnt)])], []);
        return;
      }
      running := running - 1;
      state := Init;
      AgendaIs([]);
    }

    /**
     * `_beamforming_sounding_down`, which goes on with the handler.
     * The entry being sounded has no timeout flag, so the early return that would leave the period stuck is never taken.
     */
    method SoundingDown(status: bool)
      requires Valid() && (Busy() ==> running > 0)
      modifies this, bfee
      ensures Valid() && log + Agenda() == old(log + Agenda()) && minPeriod == old(minPeriod)
      ensures old(Busy()) ==> Turned(old(running), old(log))
      ensures !old(Busy()) ==> state == old(state) && log == old(log) && running == old(running) && bfee[..] == old(bfee[..])
      ensures old(state) != SuStart ==> leaves == old(leaves) && Fails(bfee[..]) == old(Fails(bfee[..]))
      ensures waitCnt == old(waitCnt)
      ensures old(state) == SuStart && old(bfee[curIdx]).delete && !status ==> Fails(bfee[..]) == old(Fails(bfee[..]))
      ensures old(state) == SuStart ==>
        && Fails(bfee[..]) == old(Fails(bfee[..]))[old(curIdx) := Judged(old(bfee[curIdx]), status).failCnt]
        && leaves == old(leaves) + if Stops(old(bfee[curIdx]), status) then 1 else 0
      decreases Rank(), 1
    {
      hide Fails, SuTodo, Apart, Agenda;
      if state == MuStart {
        state := MuSounddown;
      } else if state == SuStart {
        Judge(status);
      } else {
        return;
      }
      Resume();
    }

    /** The part of `_beamforming_sounding_down` that deals with the SU entry. */
    method Judge(status: bool)
      requires Valid() && state == SuStart
      modifies this`state, this`leaves, bfee
      ensures Valid() && state == SuSounddown && Agenda() == old(Agenda()) && Rank() == old(Rank())
      ensures bfee[..] == old(bfee[..])[curIdx := Judged(old(bfee[curIdx]), status)]
      ensures leaves == old(leaves) + if Stops(old(bfee[curIdx]), status) then 1 else 0
      ensures Fails(bfee[..]) == old(Fails(bfee[..]))[curIdx := Judged(old(bfee[curIdx]), status).failCnt]
      ensures old(bfee[curIdx]).delete && !status ==> Fails(bfee[..]) == old(Fails(bfee[..]))
    {
      hide Fails, SuTodo, Apart, Agenda, Judged, Stops;
      state := SuSounddown;
      if bfee[curIdx].timeout {
        assert false;
      }
      var e, stop := JudgeEntry(bfee[curIdx], status);
      if stop {
        leaves := leaves + 1;
      }
      FailsPut(bfee[..], curIdx, e);
      Store(e);
    }

    /** The failure count of an entry after a result, and whether that is one failure too many. */
    method JudgeEntry(was: Bfee, status: bool) returns (e: Bfee, stop: bool)
      ensures e == Judged(was, status) && stop == Stops(was, status) && e.sounding == was.sounding
      ensures was.delete && !status ==> e.failCnt == was.failCnt && !stop
    {
      e, stop := was, false;
      if status {
        e := e.(failCnt := 0);
      } else if e.delete {
        e := e.(delete := false);
      } else {
        e := e.(failCnt := (e.failCnt + 1) % 32);
        stop := e.failCnt > 30;
      }
    }

    /** Fields of the entry being sounded change; the agenda does not look at them. */
    method Store(e: Bfee)
      requires Valid() && state == SuSounddown && curIdx < MAX_ENTRY && bfee[curIdx].sounding && e.sounding
      modifies bfee
      ensures Valid() && Agenda() == old(Agenda()) && Rank() == old(Rank()) && bfee[..] == old(bfee[..])[curIdx := e]
    {
      OnlyFlags(suList[..], bfee[..], curIdx, e);
      ghost var b := bfee[..];
      bfee[curIdx] := e;
      assert bfee[..] == b[curIdx := e];
    }

    /** A beamformee or a group is being sounded. */
    ghost predicate Busy()
      reads this
    {
      state == SuStart || state == MuStart
    }

    /** `_sounding_timeout_timer_handler`; the command thread will run the handler later. */
    method TimeoutTimer()
      requires Valid()
      modifies this`state, bfee
      ensures Valid() && Agenda() == old(Agenda()) && Fails(bfee[..]) == old(Fails(bfee[..]))
      ensures state == if old(Busy()) then Timeout else old(state)
      ensures old(state) == SuStart ==> bfee[..] == old(bfee[..])[curIdx := old(bfee[curIdx]).(timeout := true)]
      ensures old(state) != SuStart ==> bfee[..] == old(bfee[..])
    {
      if state == SuStart {
        state := Timeout;
        ghost var b := bfee[..];
        bfee[curIdx] := bfee[curIdx].(timeout := true);
        assert bfee[..] == b[curIdx := bfee[curIdx]];
        OnlyFlags(suList[..], b, curIdx, bfee[curIdx]);
        FailsPut(b, curIdx, bfee[curIdx]);
      } else if state == MuStart {
        state := Timeout;
      }
    }

    /** `_sounding_reset_vars`. */
    method ResetVars()
      requires Valid()
      modifies this`curIdx, this`muCnt, bfee, suList, muList
      ensures bfee[..] == Reset(old(bfee[..])) && muCnt == 0
      ensures forall k :: 0 <= k < MAX_SU ==> suList[k] == 0xFF
      ensures forall k :: 0 <= k < MAX_MU ==> muList[k] == 0xFF
    {
      forall k | 0 <= k < MAX_SU { suList[k] := 0xFF; }
      forall k | 0 <= k < MAX_MU { muList[k] := 0xFF; }
      curIdx := 0xFF;
      muCnt := 0;
      for i := 0 to MAX_ENTRY
        invariant forall k :: 0 <= k < MAX_ENTRY ==> bfee[k] == if k < i then ResetOne(old(bfee[..])[k]) else old(bfee[..])[k]
        invariant muCnt == 0
        invariant forall k :: 0 <= k < MAX_SU ==> suList[k] == 0xFF
        invariant forall k :: 0 <= k < MAX_MU ==> muList[k] == 0xFF
      {
        if bfee[i].used && bfee[i].sounding {
          bfee[i] := bfee[i].(sounding := false, candidate := false);
        }
      }
    }

    /** `_sounding_get_list`: 0 if something is listed, otherwise -2 if some entry is not ready, otherwise -1. */
    method GetList() returns (ret: int)
      requires bfee.Length == MAX_ENTRY && suList.Length == MAX_SU && muList.Length == MAX_MU && suList != muList
      requires minPeriod > 0
      requires forall k :: 0 <= k < MAX_SU ==> suList[k] == 0xFF
      requires forall k :: 0 <= k < MAX_MU ==> muList[k] == 0xFF
      modifies this`muCnt, bfee, suList, muList
      ensures forall k :: 0 <= k < MAX_ENTRY ==> bfee[k] == Listed(old(bfee[..])[k], minPeriod, Room(old(bfee[..]), k)).0
      ensures var su, mu := Picks(old(bfee[..]), false, MAX_ENTRY, MAX_SU), Picks(old(bfee[..]), true, MAX_ENTRY, MAX_MU);
        && suList[..|su|] == su && (forall k :: |su| <= k < MAX_SU ==> suList[k] == 0xFF)
        && muCnt == |mu| && muList[..muCnt] == mu
        && (ret == 0 <==> su != [] || mu != [])
        && (ret != 0 ==> ret == if Unready(old(bfee[..])) then -2 else -1)
    {
      ghost var b := bfee[..];
      assert Blank();
      hide *;
      ListingStart();
      var muIdx, suIdx, notReady := ListAll(b);
      muCnt := muIdx;
      ListingEnd(b, muIdx, suIdx, notReady);
      ret := 0;
      if suIdx + muIdx == 0 {
        ret := -1;
        if notReady > 0 {
          ret := -2;
        }
      }
    }

    /** Nothing is listed, and there is a period. */
    ghost predicate Blank()
      reads this`minPeriod, suList, muList
    {
      && bfee.Length == MAX_ENTRY && suList.Length == MAX_SU && muList.Length == MAX_MU && suList != muList && minPeriod > 0
      && (forall k :: 0 <= k < MAX_SU ==> suList[k] == 0xFF)
      && (forall k :: 0 <= k < MAX_MU ==> muList[k] == 0xFF)
    }

    /** The loop of `_sounding_get_list`. */
    method ListAll(ghost b: seq<Bfee>) returns (muIdx: nat, suIdx: nat, notReady: nat)
      requires Listing(b, 0, 0, 0, 0)
      modifies bfee, suList, muList
      ensures Listing(b, MAX_ENTRY, muIdx, suIdx, notReady)
    {
      assert MAX_ENTRY == 8;
      hide *;
      muIdx, suIdx, notReady := 0, 0, 0;
      var idx: nat := 0;
      while idx != MAX_ENTRY
        invariant idx <= MAX_ENTRY && Listing(b, idx, muIdx, suIdx, notReady)
        decreases MAX_ENTRY - idx
      {
        muIdx, suIdx, notReady := ListTurn(b, idx, muIdx, suIdx, notReady);
        idx := idx + 1;
      }
    }

    ghost predicate Listing(b: seq<Bfee>, i: nat, muIdx: nat, suIdx: nat, notReady: nat)
      reads this`minPeriod, bfee, suList, muList
    {
      && bfee.Length == MAX_ENTRY && suList.Length == MAX_SU && muList.Length == MAX_MU && suList != muList && minPeriod > 0
      && Walked(b, bfee[..], suList[..], muList[..], i, minPeriod, muIdx, suIdx, notReady)
    }

    lemma ListingStart()
      requires Blank()
      ensures Listing(bfee[..], 0, 0, 0, 0)
    {
    }

    lemma ListingEnd(b: seq<Bfee>, muIdx: nat, suIdx: nat, notReady: nat)
      requires Listing(b, MAX_ENTRY, muIdx, suIdx, notReady)
      ensures |b| == MAX_ENTRY
      ensures forall k :: 0 <= k < MAX_ENTRY ==> bfee[k] == Listed(b[k], minPeriod, Room(b, k)).0
      ensures var su, mu := Picks(b, false, MAX_ENTRY, MAX_SU), Picks(b, true, MAX_ENTRY, MAX_MU);
        && suIdx == |su| && suList[..suIdx] == su && (forall k :: suIdx <= k < MAX_SU ==> suList[k] == 0xFF)
        && muIdx == |mu| && muList[..muIdx] == mu
      ensures notReady > 0 <==> Unready(b)
    {
    }

    method ListTurn(ghost b: seq<Bfee>, i: nat, muIdx: nat, suIdx: nat, notReady: nat)
      returns (muIdx': nat, suIdx': nat, notReady': nat)
      requires Listing(b, i, muIdx, suIdx, notReady) && i < MAX_ENTRY
      modifies bfee, suList, muList
      ensures Listing(b, i + 1, muIdx', suIdx', notReady')
    {
      ghost var now, su, mu := bfee[..], suList[..], muList[..];
      hide Walked;
      WalkedHere(b, now, su, mu, i, minPeriod, muIdx, suIdx, notReady);
      muIdx', suIdx', notReady' := Consider(i, muIdx, suIdx, notReady);
      hide Listed, Bfee.MuDue, Bfee.SuDue;
      WalkedOn(b, now, su, mu, i, minPeriod, muIdx, suIdx, notReady);
    }

    /** One turn of `_sounding_get_list`. */
    method Consider(i: nat, muIdx: nat, suIdx: nat, notReady: nat) returns (muIdx': nat, suIdx': nat, notReady': nat)
      requires bfee.Length == MAX_ENTRY && suList.Length == MAX_SU && muList.Length == MAX_MU && suList != muList
      requires minPeriod > 0 && i < MAX_ENTRY && muIdx <= MAX_MU && suIdx <= MAX_SU
      modifies bfee, suList, muList
      ensures var e := old(bfee[..])[i];
        var room := if e.mu then muIdx < MAX_MU else suIdx < MAX_SU;
        && bfee[..] == old(bfee[..])[i := Listed(e, minPeriod, room).0]
        && muIdx' == (if room && e.MuDue() then muIdx + 1 else muIdx)
        && suIdx' == (if room && e.SuDue() then suIdx + 1 else suIdx)
        && muList[..] == (if room && e.MuDue() then old(muList[..])[muIdx := i] else old(muList[..]))
        && suList[..] == (if room && e.SuDue() then old(suList[..])[suIdx := i] else old(suList[..]))
        && notReady' == (if e.used && !e.added then notReady + 1 else notReady)
    {
      muIdx', suIdx', notReady' := muIdx, suIdx, notReady;
      if !bfee[i].used {
        return;
      }
      if !bfee[i].added {
        notReady' := notReady + 1;
        return;
      }
      if bfee[i].soundCnt > 0 {
        bfee[i] := bfee[i].(soundCnt := bfee[i].soundCnt - 1);
        if bfee[i].soundCnt > 0 {
          return;
        }
      }
      muIdx', suIdx' := Enlist(i, muIdx, suIdx);
    }

    /** The part of the turn for an entry that is due: it is listed if its list has room and it asks for it. */
    method Enlist(i: nat, muIdx: nat, suIdx: nat) returns (muIdx': nat, suIdx': nat)
      requires bfee.Length == MAX_ENTRY && suList.Length == MAX_SU && muList.Length == MAX_MU && suList != muList
      requires minPeriod > 0 && i < MAX_ENTRY && muIdx <= MAX_MU && suIdx <= MAX_SU
      requires bfee[i].Live() && bfee[i].soundCnt == 0
      modifies bfee, suList, muList
      ensures var e := old(bfee[i]);
        var room := if e.mu then muIdx < MAX_MU else suIdx < MAX_SU;
        && bfee[..] == old(bfee[..])[i := Listed(e, minPeriod, room).0]
        && muIdx' == (if room && e.MuDue() then muIdx + 1 else muIdx)
        && suIdx' == (if room && e.SuDue() then suIdx + 1 else suIdx)
        && muList[..] == (if room && e.MuDue() then old(muList[..])[muIdx := i] else old(muList[..]))
        && suList[..] == (if room && e.SuDue() then old(suList[..])[suIdx := i] else old(suList[..]))
    {
      muIdx', suIdx' := muIdx, suIdx;
      var e := bfee[i];
      var again := e.(candidate := true, soundCnt := Periods(e, minPeriod));
      if e.mu {
        if muIdx >= MAX_MU {
          return;
        }
        if e.apply {
          bfee[i] := again;
          muList[muIdx] := i;
          muIdx' := muIdx + 1;
        }
      } else if e.su {
        if suIdx >= MAX_SU {
          return;
        }
        if e.delete {
          suList[suIdx] := i;
          suIdx' := suIdx + 1;
        } else if e.apply && !e.suspend {
          bfee[i] := again;
          suList[suIdx] := i;
          suIdx' := suIdx + 1;
        }
      }
    }

    /** The agenda after listing is the plan. */
    lemma PlanListed(b: seq<Bfee>, su: seq<nat>, mu: seq<nat>)
      requires bfee.Length == |b| == MAX_ENTRY && suList.Length == MAX_SU && muList.Length == MAX_MU && suList != muList
      requires su == Picks(Reset(b), false, MAX_ENTRY, MAX_SU) && mu == Picks(Reset(b), true, MAX_ENTRY, MAX_MU)
      requires muCnt == |mu| && minPeriod > 0 && state == Init
      requires forall k :: 0 <= k < MAX_ENTRY ==> bfee[k] == Listed(Reset(b)[k], minPeriod, Room(Reset(b), k)).0
      requires suList[..|su|] == su && (forall k :: |su| <= k < MAX_SU ==> suList[k] == 0xFF) && muList[..muCnt] == mu
      ensures Valid() && Agenda() == Plan(b) && (Plan(b) == [] <==> su == [] && mu == [])
    {
      hide *;
      PlanIsList(b);
      PicksReset(b, true, MAX_ENTRY, MAX_MU);
      PicksReset(b, false, MAX_ENTRY, MAX_SU);
      SuPlanned(b, su);
      PlanParts(b, su, mu);
    }

    lemma PlanParts(b: seq<Bfee>, su: seq<nat>, mu: seq<nat>)
      requires bfee.Length == |b| == MAX_ENTRY && suList.Length == MAX_SU && muList.Length == MAX_MU && suList != muList
      requires su == Picks(b, false, MAX_ENTRY, MAX_SU) && mu == Picks(b, true, MAX_ENTRY, MAX_MU)
      requires muCnt == |mu| && muList[..muCnt] == mu && state == Init
      requires Apart(suList[..]) && SuTodo(suList[..], bfee[..]) == SuTodo(su, Reset(b))
      ensures Valid() && Agenda() == Plan(b)
    {
      hide SuTodo, Apart, Reset, MuTodo;
      assert forall k :: 0 <= k < muCnt ==> muList[k] == mu[k];
    }

    /** The SU part of it. */
    lemma SuPlanned(b: seq<Bfee>, su: seq<nat>)
      requires bfee.Length == |b| == MAX_ENTRY && suList.Length == MAX_SU && minPeriod > 0
      requires su == Picks(b, false, MAX_ENTRY, MAX_SU)
      requires forall k :: 0 <= k < MAX_ENTRY ==> bfee[k] == Listed(Reset(b)[k], minPeriod, Room(Reset(b), k)).0
      requires suList[..|su|] == su && (forall k :: |su| <= k < MAX_SU ==> suList[k] == 0xFF)
      ensures Apart(suList[..]) && SuTodo(suList[..], bfee[..]) == SuTodo(su, Reset(b))
    {
      hide *;
      FlagsKept(b);
      assert suList[..] == su + suList[|su|..];
      ListTodo(b, bfee[..], su, suList[|su|..]);
    }

    lemma FlagsKept(b: seq<Bfee>)
      requires bfee.Length == |b| == MAX_ENTRY && minPeriod > 0
      requires forall k :: 0 <= k < MAX_ENTRY ==> bfee[k] == Listed(Reset(b)[k], minPeriod, Room(Reset(b), k)).0
      ensures forall k :: 0 <= k < MAX_ENTRY ==> bfee[k].sounding == Reset(b)[k].sounding && bfee[k].delete == b[k].delete
    {
      hide Listed, Room;
      forall k | 0 <= k < MAX_ENTRY ensures bfee[k].sounding == Reset(b)[k].sounding && bfee[k].delete == b[k].delete {
        ListedFlags(Reset(b)[k], minPeriod, Room(Reset(b), k));
      }
    }

    /** Reset and list: 0 if there is something to do, otherwise the reason. */
    method Prepare() returns (ret: int)
      requires Valid() && state == Init && minPeriod > 0
      modifies this`curIdx, this`muCnt, bfee, suList, muList
      ensures Valid() && Agenda() == Plan(old(bfee[..]))
      ensures ret == if Plan(old(bfee[..])) != [] then 0 else if Unready(old(bfee[..])) then -2 else -1
    {
      ghost var b := bfee[..];
      ResetVars();
      UnreadyReset(b);
      ret := GetList();
      hide Picks, Reset, Listed, Room, Plan, SuTodo, Apart;
      PlanListed(b, Picks(Reset(b), false, MAX_ENTRY, MAX_SU), Picks(Reset(b), true, MAX_ENTRY, MAX_MU));
    }

    /** Resetting makes no entry ready. */
    lemma UnreadyReset(b: seq<Bfee>)
      ensures Unready(Reset(b)) == Unready(b)
    {
      forall i | 0 <= i < |b| ensures Reset(b)[i].used == b[i].used && Reset(b)[i].added == b[i].added {
      }
    }

    /** `_sounding_handler` finds nothing to list. */
    method GiveUp(ret: int)
      requires Valid() && state == Init && running > 0 && (ret == -1 || ret == -2)
      modifies this`waitCnt, this`state, this`running
      ensures Valid() && running + 1 == old(running)
      ensures if ret == -2 && old(waitCnt) < 5 then state == Init && waitCnt == old(waitCnt) + 1
              else state == NoState && waitCnt == 0
    {
      if ret == -1 {
        waitCnt := 0;
        state := NoState;
      } else if waitCnt < 5 {
        waitCnt := waitCnt + 1;
      } else {
        waitCnt := 0;
        state := NoState;
      }
      running := running - 1;
    }

    /** `_sounding_handler` at the start of a period. */
    method Begin(scanning: bool) returns (ret: int)
      requires Valid() && state == Init && running > 0 && minPeriod > 0
      modifies this, bfee, suList, muList
      ensures Valid() && minPeriod == old(minPeriod)
      ensures ret == if Plan(old(bfee[..])) != [] then 0 else if Unready(old(bfee[..])) then -2 else -1
      ensures ret == 0 && !scanning ==> log + Agenda() == old(log) + Plan(old(bfee[..])) && Turned(old(running), old(log))
      ensures ret != 0 || scanning ==> log == old(log) && running + 1 == old(running)
      ensures ret != 0 ==>
        if ret == -2 && old(waitCnt) < 5 then state == Init && waitCnt == old(waitCnt) + 1 else state == NoState && waitCnt == 0
      ensures ret == 0 ==> waitCnt == 0 && (scanning ==> state == Init)
    {
      hide *;
      ret := Prepare();
      if ret != 0 {
        GiveUp(ret);
      } else {
        waitCnt := 0;
        if scanning {
          running := running - 1;
        } else {
          Resume();
        }
      }
    }

    /** `_sounding_handler`. */
    method Handler(scanning: bool)
      requires Valid() && minPeriod > 0 && (state == Init || state.Resumes() ==> running > 0)
      modifies this, bfee, suList, muList
      ensures Valid() && minPeriod == old(minPeriod)
      ensures old(state).Resumes() ==> log + Agenda() == old(log + Agenda()) && Turned(old(running), old(log))
      ensures old(state).Resumes() ==> leaves == old(leaves) && Fails(bfee[..]) == old(Fails(bfee[..]))
      ensures old(state) == Init && Plan(old(bfee[..])) != [] && !scanning ==>
        log + Agenda() == old(log) + Plan(old(bfee[..])) && Turned(old(running), old(log))
      ensures old(state) == Init && (Plan(old(bfee[..])) == [] || scanning) ==>
        log == old(log) && running + 1 == old(running) && !Busy()
      ensures old(state) == Init ==>
        if Plan(old(bfee[..])) != [] then waitCnt == 0
        else if Unready(old(bfee[..])) && old(waitCnt) < 5 then state == Init && waitCnt == old(waitCnt) + 1
        else state == NoState && waitCnt == 0
      ensures old(state) == SuSounddown || old(state) == MuSounddown || old(state) == Timeout ==>
        log + Agenda() == old(log + Agenda()) && Turned(old(running), old(log))
      ensures old(state) == NoState || old(state) == SuStart || old(state) == MuStart ==>
        state == old(state) && log == old(log) && running == old(running) && bfee[..] == old(bfee[..])
    {
      hide Valid, Turned, Plan, Agenda, Fails;
      if state == Init {
        var ret := Begin(scanning);
      } else if state.Resumes() {
        Resume();
      }
    }

    /** The end of one sounding, and what the driver makes of it. */
    method Finish(o: Outcome)
      requires Valid() && minPeriod > 0 && running > 0 && Busy()
      modifies this, bfee, suList, muList
      ensures Valid() && minPeriod == old(minPeriod)
      ensures log + Agenda() == old(log + Agenda()) && Turned(old(running), old(log))
      ensures old(state) == SuStart && !o.TimedOut? ==>
        Fails(bfee[..]) == old(Fails(bfee[..]))[old(curIdx) := Judged(old(bfee[curIdx]), o.Success?).failCnt]
      ensures o.TimedOut? || old(state) == MuStart ==> Fails(bfee[..]) == old(Fails(bfee[..])) && leaves == old(leaves)
    {
      hide Valid, Turned, Plan, Agenda, Fails, Judged, Stops;
      match o {
        case TimedOut(late) =>
          TimeoutTimer();
          if late.Some? {
            SoundingDown(late.value);
          }
          Handler(false);
        case _ =>
          SoundingDown(o.Success?);
      }
    }
  }

  /** How the sounding of one beamformee or group ends; a result may come too late, before the handler runs. */
  datatype Outcome = Success | Failure | TimedOut(late: Option<bool>)

  /**
   * One period, for every mix of outcomes: as far as the outcomes reach, the plan is carried out in order and nothing
   * else is; with one outcome for every event of the plan the period is over and the scheduler is ready for the next.
   */
  method Period(s: Scheduler, outcomes: seq<Outcome>)
    requires s.Valid() && s.minPeriod > 0 && s.state == Init && s.running > 0
    requires Plan(s.bfee[..]) != []
    modifies s, s.bfee, s.suList, s.muList
    ensures s.Valid() && s.log + s.Agenda() == old(s.log) + Plan(old(s.bfee[..]))
    ensures s.Busy() || s.state == Init
    ensures s.state == Init ==> s.log == old(s.log) + Plan(old(s.bfee[..])) && s.running + 1 == old(s.running)
    ensures |outcomes| >= |Plan(old(s.bfee[..]))| ==> s.state == Init
  {
    hide SuTodo, Plan, Scheduler.Agenda, Apart, Fails;
    ghost var all := s.log + Plan(s.bfee[..]);
    s.Handler(false);
    var k := 0;
    while k < |outcomes| && (s.state == SuStart || s.state == MuStart)
      invariant k <= |outcomes| && s.Valid() && s.minPeriod > 0 && s.log + s.Agenda() == all
      invariant s.Turned(old(s.running), old(s.log))
      invariant s.Busy() ==> |s.log| > |old(s.log)| + k
    {
      s.Finish(outcomes[k]);
      k := k + 1;
    }
  }
}
