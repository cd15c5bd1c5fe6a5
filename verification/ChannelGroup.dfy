/** Channel settings that share one radio: grouping, union, clamping (rtw_ieee80211.c, rtw_ap.c). */
module ChannelGroup {

  const WIDTH_20 := 0
  const WIDTH_40 := 1
  const WIDTH_80 := 2

  const DONT_CARE := 0
  const LOWER := 1
  const UPPER := 2

  /** Channel, bandwidth and position of the secondary channel. */
  datatype ChBw = ChBw(ch: nat, bw: nat, offset: nat)
  {
    predicate Wide() {
      bw == WIDTH_40 || bw == WIDTH_80
    }

    predicate Supported() {
      bw == WIDTH_20 || Wide()
    }
  }

  /** `rtw_is_chbw_grouped`. */
  predicate Grouped(a: ChBw, b: ChBw) {
    a.ch == b.ch && (a.Wide() && b.Wide() ==> a.offset == b.offset)
  }

  /** Being grouped is not transitive: a 20 MHz setting goes with two that do not go with each other. */
  lemma NotTransitive(ch: nat)
    ensures exists a: ChBw, b: ChBw, c: ChBw :: a.ch == ch && Grouped(a, b) && Grouped(b, c) && !Grouped(a, c)
  {
    var a, b, c := ChBw(ch, WIDTH_40, LOWER), ChBw(ch, WIDTH_20, DONT_CARE), ChBw(ch, WIDTH_40, UPPER);
    assert Grouped(a, b) && Grouped(b, c) && !Grouped(a, c);
  }

  /** The positions that `rtw_get_offset_by_chbw` allows on a channel that has a secondary one. */
  function Positions(ch: nat): set<nat> {
    if 1 <= ch <= 4 then {LOWER}
    else if 5 <= ch <= 9 then {LOWER, UPPER}
    else if 10 <= ch <= 13 then {UPPER}
    else if ch in {36, 44, 52, 60, 100, 108, 116, 124, 132, 140, 149, 157, 165, 173} then {LOWER}
    else if ch in {40, 48, 56, 64, 104, 112, 120, 128, 136, 144, 153, 161, 169, 177} then {UPPER}
    else {}
  }

  /** Which channels have their secondary channel above them, as the lower ones of a pair, and which below. */
  lemma PositionsIs(ch: nat)
    ensures 1 in Positions(ch) <==>
      1 <= ch <= 9 || (36 <= ch <= 60 && ch % 8 == 4) || (100 <= ch <= 140 && ch % 8 == 4) || (149 <= ch <= 173 && ch % 8 == 5)
    ensures 2 in Positions(ch) <==>
      5 <= ch <= 13 || (40 <= ch <= 64 && ch % 8 == 0) || (104 <= ch <= 144 && ch % 8 == 0) || (153 <= ch <= 177 && ch % 8 == 1)
    ensures Positions(ch) <= {1, 2}
  {
  }

  /** `rtw_get_offset_by_chbw`: the position is written only if there is one. */
  method GetOffset(ch: nat, bw: nat, rOffset: nat) returns (valid: bool, rOffset': nat)
    ensures valid <==> bw == WIDTH_20 || (Positions(ch) != {} && (bw >= WIDTH_80 ==> ch > 14))
    ensures !valid ==> rOffset' == rOffset
    ensures valid && bw == WIDTH_20 ==> rOffset' == DONT_CARE
    ensures valid && bw != WIDTH_20 ==>
      rOffset' in Positions(ch) && (rOffset in Positions(ch) ==> rOffset' == rOffset)
    ensures (valid, rOffset') == OffsetBy(ch, bw, rOffset)
  {
    rOffset' := rOffset;
    if bw == WIDTH_20 {
      return true, DONT_CARE;
    }
    if bw >= WIDTH_80 && ch <= 14 {
      return false, rOffset;
    }
    if 1 <= ch <= 4 {
      return true, LOWER;
    } else if 5 <= ch <= 9 {
      return true, if rOffset == LOWER || rOffset == UPPER then rOffset else UPPER;
    } else if 10 <= ch <= 13 {
      return true, UPPER;
    } else if ch == 14 {
      return false, rOffset;
    } else if 36 <= ch <= 177 {
      if ch in {36, 44, 52, 60, 100, 108, 116, 124, 132, 140, 149, 157, 165, 173} {
        return true, LOWER;
      } else if ch in {40, 48, 56, 64, 104, 112, 120, 128, 136, 144, 153, 161, 169, 177} {
        return true, UPPER;
      }
    }
    valid := false;
  }

  /** The only position there is, or the wanted one, or the upper one. */
  function OffsetBy(ch: nat, bw: nat, wanted: nat): (bool, nat) {
    if bw == WIDTH_20 then (true, DONT_CARE)
    else if Positions(ch) == {} || (bw >= WIDTH_80 && ch <= 14) then (false, wanted)
    else (true, if wanted in Positions(ch) then wanted else if UPPER in Positions(ch) then UPPER else LOWER)
  }

  /** The bandwidth a request may keep on the group's channel: there is no 80 MHz below channel 15. */
  function Fitting(req: ChBw, g: ChBw): nat {
    if req.bw == WIDTH_80 && g.ch <= 14 then WIDTH_40 else req.bw
  }

  /** The position a wide request ends up in: the group's, or else one of the channel's own. */
  function PositionIn(req: ChBw, g: ChBw): nat {
    if g.Wide() then g.offset
    else if g.bw == WIDTH_20 then OffsetBy(g.ch, Fitting(req, g), req.offset).1
    else req.offset
  }

  /** The request once it obeys the group. */
  function Obeying(req: ChBw, g: ChBw): ChBw {
    if req.bw == WIDTH_20 || (req.Wide() && PositionIn(req, g) == DONT_CARE) then ChBw(g.ch, WIDTH_20, DONT_CARE)
    else if req.Wide() then ChBw(g.ch, Fitting(req, g), PositionIn(req, g))
    else ChBw(g.ch, req.bw, req.offset)
  }

  /**
   * A 20 MHz request takes the group's channel. A wider one keeps its bandwidth, but for 80 MHz on channel 14 and below,
   * where it gets 40 MHz: in the position of a wide group that has one, or, in a 20 MHz group, in the position that the
   * channel allows, its own if there is a choice, the upper one if that does not settle it. Without a position, it gets 20 MHz.
   */
  lemma ObeyingIs(req: ChBw, g: ChBw)
    requires req.bw <= 2 && g.bw <= 2
    ensures var ch := g.ch;
      var w := if req.bw == 2 && ch <= 14 then 1 else req.bw;
      Obeying(req, g) ==
        if req.bw == 0 then ChBw(ch, 0, 0)
        else if g.bw > 0 then if g.offset == 0 then ChBw(ch, 0, 0) else ChBw(ch, w, g.offset)
        else if 2 !in Positions(ch) && 1 in Positions(ch) then ChBw(ch, w, 1)
        else if 1 !in Positions(ch) && 2 in Positions(ch) then ChBw(ch, w, 2)
        else if 1 in Positions(ch) then ChBw(ch, w, if req.offset == 1 then 1 else 2)
        else if req.offset == 0 then ChBw(ch, 0, 0) else ChBw(ch, w, req.offset)
  {
    PositionsIs(g.ch);
    hide Positions;
  }

  /** The group after the first `n` requests have been synced to it. */
  function Union(reqs: seq<ChBw>, g: ChBw, n: nat): ChBw
    requires n <= |reqs|
  {
    if n == 0 then g
    else
      var u := Union(reqs, g, n - 1);
      var r := Obeying(reqs[n - 1], u);
      if r.bw > u.bw then r else u
  }

  /** What becomes of request `k`. */
  function Synced(reqs: seq<ChBw>, g: ChBw, k: nat): ChBw
    requires k < |reqs|
  {
    Obeying(reqs[k], Union(reqs, g, k))
  }

  lemma {:induction false} UnionExists(reqs: seq<ChBw>, g: ChBw, n: nat)
    requires n <= |reqs| && g.bw <= 2 && Exists(g) && Positions(g.ch) != {}
    requires forall k :: 0 <= k < |reqs| ==> reqs[k].bw <= 2
    ensures var u := Union(reqs, g, n); u.ch == g.ch && u.bw <= 2 && Exists(u) && u.bw >= g.bw
  {
    if n > 0 {
      UnionExists(reqs, g, n - 1);
      KeepsWidth(reqs[n - 1], Union(reqs, g, n - 1));
      UnionOn(reqs, g, n - 1);
      hide *;
    }
  }

  /**
   * On a channel that has a secondary one, and with a group that exists, nobody is narrowed but for 80 MHz on channel 14
   * and below: every request keeps its bandwidth, all wide ones in the position of the union, which is no narrower.
   */
  lemma {:induction false} AllKeepWidth(reqs: seq<ChBw>, g: ChBw, n: nat, k: nat)
    requires k < n <= |reqs| && g.bw <= 2 && Exists(g) && Positions(g.ch) != {}
    requires forall j :: 0 <= j < |reqs| ==> reqs[j].bw <= 2
    ensures var r, u := Synced(reqs, g, k), Union(reqs, g, n);
      && r.ch == g.ch && r.bw == (if reqs[k].bw == 2 && g.ch <= 14 then 1 else reqs[k].bw) && u.bw >= r.bw
      && (r.bw > 0 ==> r.offset == u.offset)
  {
    UnionExists(reqs, g, n - 1);
    KeepsWidth(reqs[n - 1], Union(reqs, g, n - 1));
    UnionOn(reqs, g, n - 1);
    if k < n - 1 {
      AllKeepWidth(reqs, g, n - 1, k);
    }
    hide *;
  }

  lemma UnionOn(reqs: seq<ChBw>, g: ChBw, n: nat)
    requires n < |reqs|
    ensures var u := Union(reqs, g, n);
      && Synced(reqs, g, n) == Obeying(reqs[n], u)
      && Union(reqs, g, n + 1) == if Obeying(reqs[n], u).bw > u.bw then Obeying(reqs[n], u) else u
  {
  }

  lemma KeepsWidth(req: ChBw, u: ChBw)
    requires req.bw <= 2 && u.bw <= 2 && Exists(u) && Positions(u.ch) != {}
    ensures var r := Obeying(req, u);
      && r.ch == u.ch && r.bw == (if req.bw == 2 && u.ch <= 14 then 1 else req.bw) && r.bw <= 2 && Exists(r)
      && (r.bw > 0 && u.bw > 0 ==> r.offset == u.offset)
  {
    ObeyingIs(req, u);
    PositionsIs(u.ch);
    hide Obeying, Positions;
  }

  /** `rtw_sync_chbw`: the request obeys the group, and the group takes the request's setting over if that is wider. */
  method Sync(req: ChBw, g: ChBw) returns (req': ChBw, g': ChBw)
    ensures req' == Obeying(req, g)
    ensures g' == if req'.bw > g.bw then req' else g
    ensures req'.bw <= req.bw
    ensures req.Supported() ==> req'.Supported() && Follows(req', g')
    ensures req.Supported() && g.Supported() ==> g'.Supported() && Widened(g, g')
  {
    req', g' := req.(ch := g.ch), g;
    if req'.bw == WIDTH_80 && g.ch <= 14 {
      req' := req'.(bw := WIDTH_40);
    }
    if req'.Wide() {
      if g.Wide() {
        req' := req'.(offset := g.offset);
      } else if g.bw == WIDTH_20 {
        var valid, offset := GetOffset(req'.ch, req'.bw, req'.offset);
        req' := req'.(offset := offset);
      }
      if req'.offset == DONT_CARE {
        req' := req'.(bw := WIDTH_20);
      }
    } else if req'.bw == WIDTH_20 {
      req' := req'.(offset := DONT_CARE);
    }
    if req'.bw > g'.bw {
      g' := g'.(bw := req'.bw, offset := req'.offset);
    }
  }

  /** A setting that exists: a wide one has its secondary channel where its channel allows it. */
  predicate Exists(s: ChBw) {
    s.Wide() ==> s.offset in Positions(s.ch) && (s.bw == WIDTH_80 ==> s.ch > 14)
  }

  /**
   * Obeying a 20 MHz group on a channel without a secondary channel, such as channel 14, a wide request that
   * brings a position along stays wide. In every other case what comes out exists.
   */
  lemma ExistsIff(req: ChBw, g: ChBw)
    requires req.Supported() && g.Supported() && Exists(g)
    ensures Exists(Obeying(req, g)) <==>
      !(req.Wide() && !g.Wide() && Positions(g.ch) == {} && req.offset != DONT_CARE)
  {
    if !g.Wide() && Positions(g.ch) != {} {
      assert LOWER in Positions(g.ch) || UPPER in Positions(g.ch);
    }
  }

  /** One such request: it stays at 40 MHz on channel 14. */
  lemma FortyOnChannel14()
    ensures Obeying(ChBw(36, WIDTH_40, LOWER), ChBw(14, WIDTH_20, DONT_CARE)) == ChBw(14, WIDTH_40, LOWER)
    ensures !Exists(ChBw(14, WIDTH_40, LOWER))
  {
    assert Positions(14) == {};
  }

  /** The setting is on the group's channel, no wider than the group, and in its position if it has one. */
  predicate Follows(r: ChBw, g: ChBw) {
    r.ch == g.ch && r.bw <= g.bw && (r.Wide() && g.Wide() ==> r.offset == g.offset)
  }

  /** The group stays as it is, or gets wider; a group that had a position keeps it. */
  predicate Widened(g: ChBw, g': ChBw) {
    g'.ch == g.ch && (g' == g || (g'.bw > g.bw && (g.Wide() ==> g'.offset == g.offset)))
  }

  /** Whatever followed the group before it got wider follows it still. */
  lemma FollowsOn(r: ChBw, g: ChBw, g': ChBw)
    requires Follows(r, g) && Widened(g, g') && r.Supported() && g.Supported()
    ensures Follows(r, g')
  {
  }

  /** Settings that follow one group go with it and with each other. */
  lemma FollowersGrouped(a: ChBw, b: ChBw, g: ChBw)
    requires Follows(a, g) && Follows(b, g) && a.Supported() && b.Supported() && g.Supported()
    ensures Grouped(a, b) && Grouped(a, g)
  {
  }

  /** A request that obeys the group follows it, wider as it may have become. */
  lemma ObeyFollows(req: ChBw, g: ChBw)
    requires req.Supported() && g.Supported()
    ensures var r := Obeying(req, g);
      var u := if r.bw > g.bw then r else g;
      r.Supported() && r.bw <= req.bw && Follows(r, u) && u.Supported() && Widened(g, u)
  {
  }

  lemma {:induction false} UnionSupported(reqs: seq<ChBw>, g: ChBw, n: nat)
    requires n <= |reqs| && g.Supported() && forall k :: 0 <= k < |reqs| ==> reqs[k].Supported()
    ensures var u := Union(reqs, g, n);
      u.Supported() && u.ch == g.ch && u.bw >= g.bw && (u == g || exists k :: 0 <= k < n && Synced(reqs, g, k) == u)
  {
    if n > 0 {
      UnionSupported(reqs, g, n - 1);
      ObeyFollows(reqs[n - 1], Union(reqs, g, n - 1));
      UnionOn(reqs, g, n - 1);
      hide Obeying, Union, Synced;
    }
  }

  lemma {:induction false} AllFollow(reqs: seq<ChBw>, g: ChBw, n: nat, k: nat)
    requires k < n <= |reqs| && g.Supported() && forall j :: 0 <= j < |reqs| ==> reqs[j].Supported()
    ensures var r, u := Synced(reqs, g, k), Union(reqs, g, n);
      r.Supported() && u.Supported() && Follows(r, u) && r.bw <= reqs[k].bw
  {
    UnionSupported(reqs, g, n - 1);
    ObeyFollows(reqs[n - 1], Union(reqs, g, n - 1));
    UnionOn(reqs, g, n - 1);
    if k < n - 1 {
      AllFollow(reqs, g, n - 1, k);
      FollowsOn(Synced(reqs, g, k), Union(reqs, g, n - 1), Union(reqs, g, n));
    }
    hide *;
  }

  /** Any two of the settings go with each other and with the union. */
  lemma AllGrouped(reqs: seq<ChBw>, g: ChBw, j: nat, k: nat)
    requires j < |reqs| && k < |reqs| && g.Supported() && forall i :: 0 <= i < |reqs| ==> reqs[i].Supported()
    ensures Grouped(Synced(reqs, g, j), Synced(reqs, g, k)) && Grouped(Synced(reqs, g, j), Union(reqs, g, |reqs|))
  {
    AllFollow(reqs, g, |reqs|, j);
    AllFollow(reqs, g, |reqs|, k);
    hide *;
    FollowersGrouped(Synced(reqs, g, j), Synced(reqs, g, k), Union(reqs, g, |reqs|));
  }

  lemma AllSynced(reqs: seq<ChBw>, g: ChBw, now: seq<ChBw>)
    requires g.Supported() && forall i :: 0 <= i < |reqs| ==> reqs[i].Supported()
    requires |now| == |reqs| && forall k :: 0 <= k < |reqs| ==> now[k] == Synced(reqs, g, k)
    ensures var u := Union(reqs, g, |reqs|);
      && u.ch == g.ch && u.bw >= g.bw && u.Supported() && (u == g || u in now)
      && forall j, k :: 0 <= j < |now| && 0 <= k < |now| ==> Grouped(now[j], now[k]) && Grouped(now[j], u)
  {
    hide *;
    UnionSupported(reqs, g, |reqs|);
    var u := Union(reqs, g, |reqs|);
    if u != g {
      var k :| 0 <= k < |reqs| && Synced(reqs, g, k) == u;
      assert now[k] == u;
    }
    forall j, k | 0 <= j < |now| && 0 <= k < |now| ensures Grouped(now[j], now[k]) && Grouped(now[j], u) {
      AllGrouped(reqs, g, j, k);
    }
  }

  /**
   * Syncing all requests to a group, one after the other, as the channel decision does: the channel stays, the
   * bandwidth never goes down, and in the end all settings go with each other and with the union.
   */
  method SyncAll(reqs: array<ChBw>, g: ChBw) returns (u: ChBw)
    requires g.Supported() && forall k :: 0 <= k < reqs.Length ==> reqs[k].Supported()
    modifies reqs
    ensures u == Union(old(reqs[..]), g, reqs.Length)
    ensures forall k :: 0 <= k < reqs.Length ==> reqs[k] == Synced(old(reqs[..]), g, k)
    ensures u.ch == g.ch && u.bw >= g.bw && u.Supported()
    ensures forall j, k :: 0 <= j < reqs.Length && 0 <= k < reqs.Length ==> Grouped(reqs[j], reqs[k]) && Grouped(reqs[j], u)
    ensures u == g || u in reqs[..]
  {
    ghost var was := reqs[..];
    hide *;
    u := SyncEach(reqs, g);
    AllSynced(was, g, reqs[..]);
  }

  /** The loop. */
  method SyncEach(reqs: array<ChBw>, g: ChBw) returns (u: ChBw)
    modifies reqs
    ensures u == Union(old(reqs[..]), g, reqs.Length)
    ensures forall k :: 0 <= k < reqs.Length ==> reqs[k] == Synced(old(reqs[..]), g, k)
  {
    ghost var was := reqs[..];
    u := g;
    assert u == Union(was, g, 0);
    hide *;
    for i := 0 to reqs.Length
      invariant u == Union(was, g, i)
      invariant forall k :: 0 <= k < i ==> reqs[k] == Synced(was, g, k)
      invariant forall k :: i <= k < reqs.Length ==> reqs[k] == was[k]
    {
      u := SyncTurn(reqs, i, u, was, g);
    }
  }

  /** One turn of it. */
  method SyncTurn(reqs: array<ChBw>, i: nat, u: ChBw, ghost was: seq<ChBw>, ghost g: ChBw) returns (w: ChBw)
    requires i < reqs.Length == |was| && reqs[i] == was[i] && u == Union(was, g, i)
    modifies reqs
    ensures w == Union(was, g, i + 1) && reqs[i] == Synced(was, g, i)
    ensures forall k :: 0 <= k < reqs.Length && k != i ==> reqs[k] == old(reqs[k])
  {
    hide *;
    UnionOn(was, g, i);
    var r;
    r, w := Sync(reqs[i], u);
    reqs[i] := r;
  }

  /** The clamp of `rtw_ap_chbw_decision` for one interface. */
  function Clamped(dec: ChBw, u: ChBw): ChBw {
    var bw := if dec.bw > u.bw then u.bw else dec.bw;
    ChBw(u.ch, bw, if bw == WIDTH_20 then DONT_CARE else u.offset)
  }

  /** Clamping the interfaces to the union keeps them together with it, and no wider than they were. */
  method ClampAll(decs: array<ChBw>, u: ChBw)
    requires u.Supported() && forall k :: 0 <= k < decs.Length ==> decs[k].Supported()
    modifies decs
    ensures forall k :: 0 <= k < decs.Length ==>
      && decs[k].ch == u.ch && decs[k].bw == (if old(decs[k]).bw < u.bw then old(decs[k]).bw else u.bw)
      && decs[k].offset == (if decs[k].bw == 0 then 0 else u.offset)
    ensures forall k :: 0 <= k < decs.Length ==> Grouped(decs[k], u) && decs[k].bw <= old(decs[k].bw) && decs[k].bw <= u.bw
    ensures forall j, k :: 0 <= j < decs.Length && 0 <= k < decs.Length ==> Grouped(decs[j], decs[k])
  {
    for i := 0 to decs.Length
      invariant forall k :: 0 <= k < decs.Length ==> decs[k] == if k < i then Clamped(old(decs[k]), u) else old(decs[k])
    {
      decs[i] := decs[i].(ch := u.ch);
      if decs[i].bw > u.bw {
        decs[i] := decs[i].(bw := u.bw);
      }
      decs[i] := decs[i].(offset := if decs[i].bw == WIDTH_20 then DONT_CARE else u.offset);
    }
  }
}
