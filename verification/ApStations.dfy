/** What the access point keeps about its stations, and advertises because of them (rtw_ap.c). */
module ApStations {

  /** The `*_set` bits of a station, each with a counter in the access point. */
  datatype Mark = NoShortPreamble | NonErp | NoShortSlot | HtNoGf | NoHt | Ht20 | Intolerant40

  /** What a station says about itself when it joins. */
  datatype Caps = Caps(shortPreamble: bool, nonErp: bool, shortSlot: bool, ht: bool, gf: bool, width40: bool, intolerant: bool)

  /** The marks a station with these capabilities deserves, in an access point that does HT or does not. */
  function Profile(c: Caps, htMode: bool): set<Mark> {
    (if c.shortPreamble then {} else {NoShortPreamble}) + (if c.nonErp then {NonErp} else {})
    + (if c.shortSlot then {} else {NoShortSlot})
    + (if !htMode then {}
       else if !c.ht then {NoHt}
       else (if c.gf then {} else {HtNoGf}) + (if c.width40 then {} else {Ht20}) + (if c.intolerant then {Intolerant40} else {}))
  }

  /** Marks that a join may set and never takes back. */
  function Sticky(c: Caps, htMode: bool): set<Mark> {
    if htMode && c.ht then {HtNoGf, Ht20, Intolerant40} else {HtNoGf, NoHt, Ht20, Intolerant40}
  }

  /** The marks of a station after it has joined, or joined again. */
  function Joined(had: set<Mark>, c: Caps, htMode: bool): set<Mark> {
    Profile(c, htMode) + had * Sticky(c, htMode)
  }

  /** A station's marks are what it deserves exactly if it brought no HT mark along that it no longer deserves. */
  lemma JoinedIff(had: set<Mark>, c: Caps, htMode: bool)
    ensures Joined(had, c, htMode) == Profile(c, htMode) <==> had * Sticky(c, htMode) <= Profile(c, htMode)
    ensures Joined({}, c, htMode) == Profile(c, htMode)
  {
    assert {} * Sticky(c, htMode) == {};
    if Joined(had, c, htMode) == Profile(c, htMode) {
      assert had * Sticky(c, htMode) <= Joined(had, c, htMode);
    }
  }

  /** Mark by mark, what a join makes of a station. */
  lemma JoinedMarks(had: set<Mark>, c: Caps, htMode: bool)
    ensures var m := Joined(had, c, htMode);
      && (NoShortPreamble in m <==> !c.shortPreamble)
      && (NonErp in m <==> c.nonErp)
      && (NoShortSlot in m <==> !c.shortSlot)
      && (NoHt in m <==> if htMode then !c.ht else NoHt in had)
      && (HtNoGf in m <==> HtNoGf in had || (htMode && c.ht && !c.gf))
      && (Ht20 in m <==> Ht20 in had || (htMode && c.ht && !c.width40))
      && (Intolerant40 in m <==> Intolerant40 in had || (htMode && c.ht && c.intolerant))
  {
  }

  /** And what it deserves. */
  lemma ProfileMarks(c: Caps, htMode: bool)
    ensures var m := Profile(c, htMode);
      && (NoShortPreamble in m <==> !c.shortPreamble)
      && (NonErp in m <==> c.nonErp)
      && (NoShortSlot in m <==> !c.shortSlot)
      && (NoHt in m <==> htMode && !c.ht)
      && (HtNoGf in m <==> htMode && c.ht && !c.gf)
      && (Ht20 in m <==> htMode && c.ht && !c.width40)
      && (Intolerant40 in m <==> htMode && c.ht && c.intolerant)
  {
  }

  const OP_MODE_PURE := 0
  const OP_MODE_MAY_BE_LEGACY_STAS := 1
  const OP_MODE_20MHZ_HT_STA_ASSOCED := 2
  const OP_MODE_MIXED := 3

  /** The fields of `ht_op_mode`, which lie in disjoint bits: the two-bit mode, and the bits for non-greenfield and non-HT stations. */
  datatype HtOpMode = HtOpMode(mode: nat, nonGf: bool, nonHt: bool)

  /** The operation mode as a function of the counts that it advertises. */
  function OpMode(noGf: nat, noHt: nat, ht20: nat, olbcHt: bool, width40: bool): HtOpMode {
    HtOpMode(
      if noHt > 0 then OP_MODE_MIXED
      else if width40 && ht20 > 0 then OP_MODE_20MHZ_HT_STA_ASSOCED
      else if olbcHt then OP_MODE_MAY_BE_LEGACY_STAS
      else OP_MODE_PURE,
      noGf > 0,
      noHt > 0 || olbcHt)
  }

  /** What the driver edits in the HT operation element: channel width, secondary channel, and the operation mode. */
  datatype HtElement = HtElement(wide: bool, second: nat, mode: HtOpMode)

  /**
   * Whether the BSS runs with an HT operation element to edit (`info`), the channel is one of 1 to 14 (`low`), the BSS is
   * set up for 40 MHz or more (`wide`), and the code of its secondary channel.
   */
  datatype Channel = Channel(info: bool, low: bool, wide: bool, second: nat)

  /** `struct sta_info`. */
  class Station {
    var marks: set<Mark>

    constructor ()
      ensures marks == {}
    {
      marks := {};
    }
  }

  /** The stations of a set that carry a mark. */
  ghost function Marked(stations: set<Station>, k: Mark): set<Station>
    reads stations
  {
    set s | s in stations && k in s.marks
  }

  /** Mark `k` of station `s` changes. */
  datatype Change = Change(s: Station, k: Mark)

  /** Whether there are non-ERP stations, and stations with long preambles. */
  datatype Moment = Moment(nonErp: bool, longPreamble: bool)

  /** Index of the last moment that differs from the one before it as to non-ERP stations, or 0. */
  function LastEdge(seen: seq<Moment>): (j: nat)
    requires seen != []
    ensures j < |seen|
    ensures j > 0 ==> seen[j].nonErp != seen[j - 1].nonErp
    ensures forall i :: j < i < |seen| ==> seen[i].nonErp == seen[i - 1].nonErp
  {
    var n := |seen| - 1;
    if n == 0 || seen[n].nonErp != seen[n - 1].nonErp then n else LastEdge(seen[..n])
  }

  /** One more moment. */
  lemma EdgeOn(seen: seq<Moment>, m: Moment)
    requires seen != []
    ensures LastEdge(seen + [m]) == if m.nonErp != seen[|seen| - 1].nonErp then |seen| else LastEdge(seen)
  {
    assert (seen + [m])[..|seen|] == seen;
  }

  /** `struct mlme_priv` and its surroundings. */
  class Ap {
    var numNoShortPreamble: nat
    var numNonErp: nat
    var numNoShortSlot: nat
    var numHtNoGf: nat
    var numNoHt: nat
    var numHt20: nat
    var num40Intolerant: nat
    var htOpMode: HtOpMode
    var olbcHt: bool
    var ht20WidthReq: bool
    var htIntolerantChReported: bool
    var olbc: bool               // overlapping legacy BSS
    var swTo20: bool             // sw_to_20mhz
    var htElement: HtElement     // in the beacon
    var erpNonErp: bool          // bits of the ERP element in the beacon
    var erpUseProtection: bool
    var erpBarker: bool
    const htMode: bool           // HT is enabled and supported by the wireless mode
    const htOption: bool         // htpriv.ht_option
    const width40: bool          // the access point's own HT capabilities
    const above11b: bool         // cur_wireless_mode > WIRELESS_11B
    const erp: bool              // the BSS runs, ERP is enabled, and the beacon has an ERP element with a body
    const channel: Channel
    ghost var narrowTold: bool   // what Narrow() was when the HT operation element was last written, or at the start
    ghost var stations: set<Station>
    ghost var seen: seq<Moment>   // what has been so after the start and after each join and leave

    function Num(k: Mark): nat
      reads this`numNoShortPreamble, this`numNonErp, this`numNoShortSlot, this`numHtNoGf, this`numNoHt, this`numHt20, this`num40Intolerant
    {
      match k
      case NoShortPreamble => numNoShortPreamble
      case NonErp => numNonErp
      case NoShortSlot => numNoShortSlot
      case HtNoGf => numHtNoGf
      case NoHt => numNoHt
      case Ht20 => numHt20
      case Intolerant40 => num40Intolerant
    }

    /** Every counter is the number of stations with its mark, and the ERP bits say whether there is a non-ERP one. */
    ghost predicate Valid()
      reads this`numNoShortPreamble, this`numNonErp, this`numNoShortSlot, this`numHtNoGf, this`numNoHt, this`numHt20, this`num40Intolerant
      reads this`stations, this`erpNonErp, this`erpUseProtection, stations
    {
      && Counted(stations)
      && (erp ==> erpNonErp == erpUseProtection == (numNonErp > 0))
    }

    /** The Barker bit says what has been so at the last edge of the count of non-ERP stations. */
    ghost predicate Tracked()
      reads this`seen, this`numNonErp, this`numNoShortPreamble, this`erpBarker
    {
      && seen != [] && seen[|seen| - 1] == Moment(numNonErp > 0, numNoShortPreamble > 0)
      && (erp ==> erpBarker == seen[LastEdge(seen)].longPreamble)
    }

    /** The Barker bit says whether there is a station with long preambles. */
    predicate BarkerRight()
      reads this
    {
      erpBarker == (numNoShortPreamble > 0)
    }

    /**
     * Over every run: the Barker bit is right exactly if there are, or are not, stations with long preambles now as at
     * the last time that the first non-ERP station came or the last one went, or at the start.
     */
    lemma BarkerRightIff()
      requires Tracked() && erp
      ensures BarkerRight() <==> seen[LastEdge(seen)].longPreamble == (numNoShortPreamble > 0)
    {
    }

    /** The same, told by the stations. */
    lemma BarkerOfStations()
      requires Valid() && Tracked() && erp
      ensures (erpBarker <==> exists t :: t in stations && NoShortPreamble in t.marks) <==>
        (seen[LastEdge(seen)].longPreamble <==> exists t :: t in stations && NoShortPreamble in t.marks)
      ensures BarkerRight() <==> (erpBarker <==> exists t :: t in stations && NoShortPreamble in t.marks)
      ensures seen[|seen| - 1].nonErp <==> exists t :: t in stations && NonErp in t.marks
    {
      AnyMarked(NoShortPreamble);
      AnyMarked(NonErp);
      assert Num(NoShortPreamble) == numNoShortPreamble && Num(NonErp) == numNonErp;
      hide Valid, Num, LastEdge;
    }

    /** 40 MHz are ruled out. */
    predicate Narrow()
      reads this`num40Intolerant, this`ht20WidthReq, this`htIntolerantChReported, this`olbc
    {
      num40Intolerant > 0 || ht20WidthReq || htIntolerantChReported || olbc
    }

    /** The driver edits the HT operation element. */
    predicate Edits() {
      htOption && channel.info
    }

    /** It does, and there is a width to choose. */
    predicate Chooses() {
      Edits() && channel.low && channel.wide
    }

    /** The element says what it did when it was last written, and has the operation mode of now. */
    ghost predicate Shown()
      reads this`htElement, this`htOpMode, this`swTo20, this`narrowTold
    {
      && (Edits() ==> htElement.mode == htOpMode)
      && (Chooses() ==> swTo20 == narrowTold)
      && (swTo20 ==> !htElement.wide && htElement.second == 0)
    }

    /** The element gives 40 MHz up exactly if they are ruled out. */
    predicate WidthRight()
      reads this`num40Intolerant, this`ht20WidthReq, this`htIntolerantChReported, this`olbc, this`swTo20
    {
      swTo20 == Narrow()
    }

    /**
     * Over every run: it does exactly if they are ruled out, or not, now as when the element was last written. What rules
     * them out is a station that does not tolerate them, a request for 20 MHz, a report, or an overlapping legacy BSS.
     */
    lemma WidthRightIff()
      requires Shown() && Valid() && htOption && channel.info && channel.low && channel.wide
      ensures var narrow :=
        (exists t :: t in stations && Intolerant40 in t.marks) || ht20WidthReq || htIntolerantChReported || olbc;
        && (WidthRight() <==> swTo20 == narrow)
        && (WidthRight() <==> narrowTold == narrow)
    {
      AnyMarked(Intolerant40);
      assert Num(Intolerant40) == num40Intolerant;
      hide Valid, Marked, Num;
    }

    /** A counter that is not zero counts some station. */
    lemma AnyMarked(k: Mark)
      requires Valid()
      ensures Num(k) > 0 <==> exists t :: t in stations && k in t.marks
    {
      if Num(k) > 0 {
        assert Marked(stations, k) != {};
      }
      if t :| t in stations && k in t.marks {
        assert t in Marked(stations, k);
      }
    }

    /** Both bits of the ERP element say whether some station is non-ERP. */
    lemma ErpOfStations()
      requires Valid() && erp
      ensures erpNonErp <==> exists t :: t in stations && NonErp in t.marks
      ensures erpUseProtection == erpNonErp
    {
      AnyMarked(NonErp);
      assert Num(NonErp) == numNonErp;
    }

    /** The operation mode that fits the counters, told by the stations. */
    lemma ModeOfStations()
      requires Valid() && htOpMode == OpMode(numHtNoGf, numNoHt, numHt20, olbcHt, width40)
      ensures htOpMode.mode == 3 <==> exists t :: t in stations && NoHt in t.marks
      ensures htOpMode.mode == 2 <==>
        !(exists t :: t in stations && NoHt in t.marks) && width40 && exists t :: t in stations && Ht20 in t.marks
      ensures htOpMode.mode == 1 <==>
        && !(exists t :: t in stations && NoHt in t.marks)
        && !(width40 && exists t :: t in stations && Ht20 in t.marks) && olbcHt
      ensures htOpMode.mode == 0 <==>
        && !(exists t :: t in stations && NoHt in t.marks)
        && !(width40 && exists t :: t in stations && Ht20 in t.marks) && !olbcHt
      ensures htOpMode.nonGf <==> exists t :: t in stations && HtNoGf in t.marks
      ensures htOpMode.nonHt <==> (exists t :: t in stations && NoHt in t.marks) || olbcHt
    {
      AnyMarked(NoHt);
      AnyMarked(Ht20);
      AnyMarked(HtNoGf);
      assert Num(NoHt) == numNoHt && Num(Ht20) == numHt20 && Num(HtNoGf) == numHtNoGf;
      hide Valid, Num;
    }

    ghost predicate Counted(ss: set<Station>)
      reads this`numNoShortPreamble, this`numNonErp, this`numNoShortSlot, this`numHtNoGf, this`numNoHt, this`numHt20, this`num40Intolerant
      reads ss
    {
      forall k: Mark :: Num(k) == |Marked(ss, k)|
    }

    /** `start_ap_mode`, on a beacon whose ERP element and operation mode announce nothing. */
    constructor (htMode: bool, htOption: bool, width40: bool, above11b: bool, erp: bool, channel: Channel, htElement: HtElement)
      requires htElement.mode == HtOpMode(0, false, false)
      ensures Valid() && stations == {} && !olbcHt && !erpBarker && forall k: Mark :: Num(k) == 0
      ensures this.htMode == htMode && this.htOption == htOption && this.width40 == width40
      ensures this.above11b == above11b && this.erp == erp
      ensures htOpMode == HtOpMode(0, false, false) && !ht20WidthReq && !htIntolerantChReported
      ensures Tracked() && seen == [Moment(false, false)]
      ensures this.channel == channel && this.htElement == htElement && !swTo20 && !olbc && Shown() && WidthRight()
    {
      numNoShortPreamble, numNonErp, numNoShortSlot, numHtNoGf, numNoHt, numHt20, num40Intolerant := 0, 0, 0, 0, 0, 0, 0;
      htOpMode, olbcHt, ht20WidthReq, htIntolerantChReported := HtOpMode(0, false, false), false, false, false;
      erpNonErp, erpUseProtection, erpBarker := false, false, false;
      this.htMode, this.htOption, this.width40, this.above11b, this.erp := htMode, htOption, width40, above11b, erp;
      stations, seen := {}, [Moment(false, false)];
      this.channel, this.htElement, swTo20, olbc, narrowTold := channel, htElement, false, false, false;
      new;
      assert forall k: Mark :: Marked(stations, k) == {};
    }

    /** A counter goes up or down. */
    method Bump(k: Mark, up: bool)
      requires up || Num(k) > 0
      modifies this
      ensures Num(k) == if up then old(Num(k)) + 1 else old(Num(k)) - 1
      ensures Others(k)
    {
      var d := if up then 1 else -1;
      match k
      case NoShortPreamble => numNoShortPreamble := numNoShortPreamble + d;
      case NonErp => numNonErp := numNonErp + d;
      case NoShortSlot => numNoShortSlot := numNoShortSlot + d;
      case HtNoGf => numHtNoGf := numHtNoGf + d;
      case NoHt => numNoHt := numNoHt + d;
      case Ht20 => numHt20 := numHt20 + d;
      case Intolerant40 => num40Intolerant := num40Intolerant + d;
    }

    /** Nothing but the counter of the mark has changed. */
    twostate predicate Others(k: Mark)
      reads this
    {
      && (forall j: Mark :: j != k ==> Num(j) == old(Num(j)))
      && htOpMode == old(htOpMode) && olbcHt == old(olbcHt) && ht20WidthReq == old(ht20WidthReq)
      && htIntolerantChReported == old(htIntolerantChReported) && stations == old(stations)
      && erpNonErp == old(erpNonErp) && erpUseProtection == old(erpUseProtection) && erpBarker == old(erpBarker)
      && seen == old(seen) && SameHt()
    }

    /** The HT operation element and what goes with it are as before. */
    twostate predicate SameHt()
      reads this`htElement, this`swTo20, this`narrowTold, this`olbc
    {
      htElement == old(htElement) && swTo20 == old(swTo20) && narrowTold == old(narrowTold) && olbc == old(olbc)
    }

    /** Nothing but joins and leaves has happened to what decides about 40 MHz. */
    twostate predicate SameInputs()
      reads this`ht20WidthReq, this`htIntolerantChReported, this`olbc
    {
      ht20WidthReq == old(ht20WidthReq) && htIntolerantChReported == old(htIntolerantChReported) && olbc == old(olbc)
    }

    /** `rtw_alloc_stainfo` for an address that has no entry. */
    method Alloc() returns (s: Station)
      requires Valid()
      modifies this`stations
      ensures old(Tracked()) ==> Tracked()
      ensures Valid() && fresh(s) && s.marks == {} && stations == old(stations) + {s}
    {
      s := new Station();
      ghost var ss := stations;
      stations := stations + {s};
      forall k: Mark ensures Marked(stations, k) == Marked(ss, k) {
      }
    }

    /** Set a bit of the station that is not set, and count it. */
    method SetMark(s: Station, k: Mark) returns (changed: bool)
      requires Counted(stations) && s in stations
      modifies this, s
      ensures Counted(stations) && Others(k) && s.marks == old(s.marks) + {k}
      ensures changed <==> k !in old(s.marks)
      ensures Num(k) == old(Num(k)) + if changed then 1 else 0
    {
      hide Counted, Marked;
      changed := k !in s.marks;
      if changed {
        s.marks := s.marks + {k};
        Bump(k, true);
      } else {
        assert s.marks + {k} == s.marks;
      }
      CountedOn(Change(s, k));
    }

    /** The counters still count after the mark of one station and its counter have changed together. */
    twostate lemma CountedOn(x: Change)
      requires old(Counted(stations)) && x.s in stations && stations == old(stations)
      requires x.s.marks - {x.k} == old(x.s.marks) - {x.k}
      requires forall t :: t in stations && t != x.s ==> t.marks == old(t.marks)
      requires forall j: Mark :: j != x.k ==> Num(j) == old(Num(j))
      requires Num(x.k) == old(Num(x.k)) + (if x.k in x.s.marks then 1 else 0) - (if x.k in old(x.s.marks) then 1 else 0)
      ensures Counted(stations)
    {
      OthersMarked(x);
      var was, now := old(Marked(stations, x.k)), Marked(stations, x.k);
      if x.k in x.s.marks && x.k !in old(x.s.marks) {
        assert now == was + {x.s};
      } else if x.k !in x.s.marks && x.k in old(x.s.marks) {
        assert was == now + {x.s};
      } else {
        assert now == was;
      }
    }

    /** A mark that a station carries is counted. */
    lemma Counts(s: Station, k: Mark)
      requires Counted(stations) && s in stations && k in s.marks
      ensures Num(k) > 0
    {
      assert s in Marked(stations, k);
    }

    /** Only the set of stations with the changed mark has changed. */
    twostate lemma OthersMarked(x: Change)
      requires x.s.marks - {x.k} == old(x.s.marks) - {x.k} && stations == old(stations)
      requires forall t :: t in stations && t != x.s ==> t.marks == old(t.marks)
      ensures forall j: Mark :: j != x.k ==> Marked(stations, j) == old(Marked(stations, j))
    {
      forall j: Mark | j != x.k ensures Marked(stations, j) == old(Marked(stations, j)) {
        assert j in x.s.marks <==> j in x.s.marks - {x.k};
        assert old(j in x.s.marks <==> j in x.s.marks - {x.k});
      }
    }

    /** Clear a bit that is set, and discount it. */
    method ClearMark(s: Station, k: Mark) returns (changed: bool)
      requires Counted(stations) && s in stations
      modifies this, s
      ensures Counted(stations) && Others(k) && s.marks == old(s.marks) - {k}
      ensures changed <==> k in old(s.marks)
      ensures Num(k) == old(Num(k)) - if changed then 1 else 0
    {
      hide Counted, Marked;
      changed := k in s.marks;
      if changed {
        Counts(s, k);
        s.marks := s.marks - {k};
        Bump(k, false);
      } else {
        assert s.marks - {k} == s.marks;
      }
      CountedOn(Change(s, k));
    }

    /** `update_bcn_erpinfo_ie`. */
    method UpdateErp()
      modifies this`erpNonErp, this`erpUseProtection, this`erpBarker
      ensures erp ==> erpNonErp == erpUseProtection == (numNonErp == 1) && erpBarker == (numNoShortPreamble > 0)
      ensures !erp ==> unchanged(this)
    {
      if !erp {
        return;
      }
      erpNonErp := numNonErp == 1;
      erpUseProtection := numNonErp == 1;
      erpBarker := numNoShortPreamble > 0;
    }

    /** `rtw_ht_operation_update`: counts the changes it makes to the operation mode. */
    method HtOperationUpdate() returns (changes: nat)
      modifies this`htOpMode
      ensures htOpMode == if htOption then OpMode(numHtNoGf, numNoHt, numHt20, olbcHt, width40) else old(htOpMode)
      ensures htOption ==>
        && htOpMode.nonGf == (numHtNoGf > 0) && htOpMode.nonHt == (numNoHt > 0 || olbcHt)
        && htOpMode.mode == if numNoHt > 0 then 3 else if width40 && numHt20 > 0 then 2 else if olbcHt then 1 else 0
      ensures changes == 0 <==> htOpMode == old(htOpMode)
    {
      changes := 0;
      if !htOption {
        return;
      }
      if !htOpMode.nonGf && numHtNoGf > 0 {
        htOpMode := htOpMode.(nonGf := true);
        changes := changes + 1;
      } else if htOpMode.nonGf && numHtNoGf == 0 {
        htOpMode := htOpMode.(nonGf := false);
        changes := changes + 1;
      }
      if !htOpMode.nonHt && (numNoHt > 0 || olbcHt) {
        htOpMode := htOpMode.(nonHt := true);
        changes := changes + 1;
      } else if htOpMode.nonHt && numNoHt == 0 && !olbcHt {
        htOpMode := htOpMode.(nonHt := false);
        changes := changes + 1;
      }
      var newOpMode := OP_MODE_PURE;
      if numNoHt > 0 {
        newOpMode := OP_MODE_MIXED;
      } else if width40 && numHt20 > 0 {
        newOpMode := OP_MODE_20MHZ_HT_STA_ASSOCED;
      } else if olbcHt {
        newOpMode := OP_MODE_MAY_BE_LEGACY_STAS;
      }
      if htOpMode.mode != newOpMode {
        htOpMode := htOpMode.(mode := newOpMode);
        changes := changes + 1;
      }
    }

    /** `update_bcn_htinfo_ie`. */
    method UpdateHtElement()
      modifies this`htElement, this`swTo20, this`narrowTold
      ensures Written(old(htElement), old(swTo20))
      ensures !(htOption && channel.info) ==> unchanged(this)
      ensures htOption && channel.info ==> htElement.mode == htOpMode
      ensures var narrow := num40Intolerant > 0 || ht20WidthReq || htIntolerantChReported || olbc;
        htOption && channel.info ==>
          if channel.low && !old(swTo20) then
            && swTo20 == narrow
            && (htElement.wide, htElement.second) == if narrow then (false, 0) else old((htElement.wide, htElement.second))
          else if !narrow && channel.wide then !swTo20 && htElement.wide && htElement.second == channel.second
          else swTo20 == old(swTo20) && (htElement.wide, htElement.second) == old((htElement.wide, htElement.second))
    {
      if !htOption || !channel.info {
        return;
      }
      if !swTo20 && channel.low {
        if Narrow() {
          htElement := htElement.(second := 0, wide := false);
          swTo20 := true;
        }
      } else {
        if !Narrow() {
          if channel.wide {
            htElement := htElement.(wide := true, second := channel.second);
            swTo20 := false;
          }
        }
      }
      htElement := htElement.(mode := htOpMode);
      narrowTold := Narrow();
    }

    /** The HT operation element, which said `was` and had given 40 MHz up or not, has been written. */
    ghost predicate Written(was: HtElement, wasTo20: bool)
      reads this`htElement, this`swTo20, this`narrowTold, this`htOpMode
      reads this`num40Intolerant, this`ht20WidthReq, this`htIntolerantChReported, this`olbc
    {
      if !Edits() then htElement == was && swTo20 == wasTo20
      else
        && narrowTold == Narrow() && htElement.mode == htOpMode
        && swTo20 == (if channel.low && !wasTo20 then Narrow() else wasTo20 && (Narrow() || !channel.wide))
        && (htElement.wide, htElement.second) ==
             if channel.low && !wasTo20 then
               (if Narrow() then (false, 0) else (was.wide, was.second))
             else if !Narrow() && channel.wide then (true, channel.second)
             else (was.wide, was.second)
    }

    /**
     * What writing the element leaves behind: with 40 MHz ruled out on a low channel, no secondary channel; once they are
     * no longer ruled out, the width and the secondary channel that the BSS is set up for; the operation mode of now.
     */
    lemma WrittenSays(was: HtElement, wasTo20: bool)
      requires Written(was, wasTo20)
      ensures htOption && channel.info ==> htElement.mode == htOpMode
      ensures !(htOption && channel.info) ==> htElement == was && swTo20 == wasTo20
      ensures var narrow := num40Intolerant > 0 || ht20WidthReq || htIntolerantChReported || olbc;
        htOption && channel.info ==>
          if channel.low && !wasTo20 then
            swTo20 == narrow && htElement.wide == (!narrow && was.wide) && htElement.second == if narrow then 0 else was.second
          else if !narrow && channel.wide then !swTo20 && htElement.wide && htElement.second == channel.second
          else swTo20 == wasTo20 && htElement.wide == was.wide && htElement.second == was.second
    {
    }

    /** The beacon says what it said before. */
    twostate predicate SameBeacon()
      reads this`htOpMode, this`erpNonErp, this`erpUseProtection, this`erpBarker
      reads this`htElement, this`swTo20, this`narrowTold, this`olbc
    {
      htOpMode == old(htOpMode) && erpNonErp == old(erpNonErp) && erpUseProtection == old(erpUseProtection)
      && erpBarker == old(erpBarker) && SameHt()
    }

    /** The bits of the ERP element are as before. */
    twostate predicate SameErp()
      reads this`erpNonErp, this`erpUseProtection, this`erpBarker
    {
      erpNonErp == old(erpNonErp) && erpUseProtection == old(erpUseProtection) && erpBarker == old(erpBarker)
    }

    /** The counter of the mark has left zero or come back to it. */
    twostate predicate Edge(k: Mark)
      reads this`numNoShortPreamble, this`numNonErp, this`numNoShortSlot, this`numHtNoGf, this`numNoHt, this`numHt20, this`num40Intolerant
    {
      (Num(k) > 0) != (old(Num(k)) > 0)
    }

    /** What makes the driver send the whole beacon again, HT aside. */
    twostate predicate LegacyEdge()
      reads this`numNoShortPreamble, this`numNonErp, this`numNoShortSlot, this`numHtNoGf, this`numNoHt, this`numHt20, this`num40Intolerant
    {
      Edge(NonErp) || (above11b && (Edge(NoShortPreamble) || Edge(NoShortSlot)))
    }

    /** A mark is set or cleared, as the station asks; true if the counter leaves zero or comes back to it. */
    method Adjust(s: Station, k: Mark, want: bool) returns (edge: bool)
      requires Counted(stations) && s in stations
      modifies this, s
      ensures Counted(stations) && Others(k)
      ensures s.marks == if want then old(s.marks) + {k} else old(s.marks) - {k}
      ensures edge <==> Edge(k)
      ensures edge ==> Num(k) == if want then 1 else 0
    {
      var changed;
      if want {
        changed := SetMark(s, k);
        edge := changed && Num(k) == 1;
      } else {
        changed := ClearMark(s, k);
        edge := changed && Num(k) == 0;
      }
    }

    /** Any mark but the ERP one: the beacon stays as it is. */
    method AdjustQuietly(s: Station, k: Mark, want: bool) returns (edge: bool)
      requires Valid() && s in stations && k != NonErp
      modifies this, s
      ensures Valid() && Kept() && numNonErp == old(numNonErp)
      ensures k != NoShortPreamble ==> numNoShortPreamble == old(numNoShortPreamble)
      ensures s.marks == if want then old(s.marks) + {k} else old(s.marks) - {k}
      ensures edge <==> Edge(k)
      ensures forall j: Mark :: j != k ==> Num(j) == old(Num(j))
    {
      edge := Adjust(s, k, want);
      assert Num(NonErp) == old(Num(NonErp)) && (k != NoShortPreamble ==> Num(NoShortPreamble) == old(Num(NoShortPreamble)));
    }

    /** The beacon and everything but the marks and their counters are as before. */
    twostate predicate Kept()
      reads this
    {
      SameBeacon() && stations == old(stations) && olbcHt == old(olbcHt) && ht20WidthReq == old(ht20WidthReq)
      && htIntolerantChReported == old(htIntolerantChReported) && seen == old(seen)
    }

    /** The part of a join or leave that deals with ERP protection: the element is updated at the edges of the count. */
    method AdjustErp(s: Station, want: bool) returns (updated: bool)
      requires Valid() && s in stations
      modifies this, s
      ensures Valid() && stations == old(stations) && olbcHt == old(olbcHt) && htOpMode == old(htOpMode) && seen == old(seen)
      ensures SameHt() && SameInputs()
      ensures s.marks == if want then old(s.marks) + {NonErp} else old(s.marks) - {NonErp}
      ensures numNoShortPreamble == old(numNoShortPreamble)
      ensures updated <==> (numNonErp > 0) != (old(numNonErp) > 0)
      ensures updated <==> Edge(NonErp)
      ensures forall j: Mark :: j != NonErp ==> Num(j) == old(Num(j))
      ensures erpBarker == if erp && updated then numNoShortPreamble > 0 else old(erpBarker)
      ensures !updated ==> SameBeacon()
    {
      updated := Adjust(s, NonErp, want);
      assert Num(NonErp) == numNonErp && old(Num(NonErp)) == old(numNonErp) && Num(NoShortPreamble) == old(Num(NoShortPreamble));
      if updated {
        UpdateErp();
      }
    }

    /** What a join and a leave have in common: the marks that do not come from HT. */
    method AdjustLegacy(s: Station, longPreamble: bool, nonErp: bool, longSlot: bool) returns (updated: bool)
      requires Valid() && s in stations
      modifies this, s
      ensures Valid() && stations == old(stations) && olbcHt == old(olbcHt) && htOpMode == old(htOpMode) && seen == old(seen)
      ensures SameHt() && SameInputs()
      ensures s.marks == Legacy(old(s.marks), longPreamble, nonErp, longSlot)
      ensures erpBarker == if erp && (numNonErp > 0) != (old(numNonErp) > 0) then numNoShortPreamble > 0 else old(erpBarker)
      ensures !updated ==> SameBeacon()
      ensures updated <==> LegacyEdge()
    {
      hide Valid, Num;
      var edge := AdjustQuietly(s, NoShortPreamble, longPreamble);
      updated := edge && above11b;
      var erpUpdated := AdjustErp(s, nonErp);
      edge := AdjustQuietly(s, NoShortSlot, longSlot);
      updated := updated || erpUpdated || (edge && above11b);
    }

    /** The marks, counters and advertised bits after a join; true if the whole beacon is sent again. */
    method JoinMarks(s: Station, c: Caps) returns (updated: bool)
      requires Valid() && s in stations
      modifies this, s
      ensures Valid() && stations == old(stations) && olbcHt == old(olbcHt) && seen == old(seen)
      ensures s.marks == Joined(old(s.marks), c, htMode)
      ensures htOpMode == if htMode && htOption then OpMode(numHtNoGf, numNoHt, numHt20, olbcHt, width40) else old(htOpMode)
      ensures erpBarker == if erp && (numNonErp > 0) != (old(numNonErp) > 0) then numNoShortPreamble > 0 else old(erpBarker)
      ensures !updated ==> SameBeacon()
      ensures updated <==> LegacyEdge() || htOpMode != old(htOpMode)
      ensures if htOpMode != old(htOpMode) then Written(old(htElement), old(swTo20)) else SameHt()
      ensures SameInputs()
    {
      hide Valid, Num, Joined, JoinedHt, Profile, Legacy, OpMode, Written, Narrow;
      ghost var m := s.marks;
      updated := AdjustLegacy(s, !c.shortPreamble, c.nonErp, !c.shortSlot);
      if htMode {
        var changed := JoinAndTell(s, c);
        updated := updated || changed;
      }
      JoinedBy(m, c, htMode);
    }

    /** `bss_cap_update_on_sta_join`; true if the whole beacon is sent again. */
    method Join(s: Station, c: Caps) returns (updated: bool)
      requires Valid() && Tracked() && s in stations
      modifies this, s
      ensures Tracked() && seen == old(seen) + [Moment(numNonErp > 0, numNoShortPreamble > 0)]
      ensures BarkerRight() <==> (erp && Edge(NonErp)) || (old(BarkerRight()) <==> !Edge(NoShortPreamble))
      ensures Valid() && stations == old(stations) && olbcHt == old(olbcHt)
      ensures s.marks == Joined(old(s.marks), c, htMode)
      ensures htOpMode == if htMode && htOption then OpMode(numHtNoGf, numNoHt, numHt20, olbcHt, width40) else old(htOpMode)
      ensures erpBarker == if erp && (numNonErp > 0) != (old(numNonErp) > 0) then numNoShortPreamble > 0 else old(erpBarker)
      ensures updated <==>
        || (numNonErp > 0) != (old(numNonErp) > 0)
        || (above11b && ((numNoShortPreamble > 0) != (old(numNoShortPreamble) > 0) || (numNoShortSlot > 0) != (old(numNoShortSlot) > 0)))
        || htOpMode != old(htOpMode)
      ensures !updated ==> SameBeacon()
      ensures htMode && htOption ==>
        && (htOpMode.mode == 3 <==> exists t :: t in stations && NoHt in t.marks)
        && (htOpMode.mode == 2 <==>
             !(exists t :: t in stations && NoHt in t.marks) && width40 && exists t :: t in stations && Ht20 in t.marks)
        && (htOpMode.mode == 1 <==>
             && !(exists t :: t in stations && NoHt in t.marks)
             && !(width40 && exists t :: t in stations && Ht20 in t.marks) && olbcHt)
        && (htOpMode.mode == 0 <==>
             && !(exists t :: t in stations && NoHt in t.marks)
             && !(width40 && exists t :: t in stations && Ht20 in t.marks) && !olbcHt)
        && (htOpMode.nonGf <==> exists t :: t in stations && HtNoGf in t.marks)
        && (htOpMode.nonHt <==> (exists t :: t in stations && NoHt in t.marks) || olbcHt)
      ensures erp ==> erpUseProtection == erpNonErp == exists t :: t in stations && NonErp in t.marks
      ensures if htOpMode != old(htOpMode) then Written(old(htElement), old(swTo20)) else SameHt()
      ensures SameInputs()
      ensures old(Shown()) ==> Shown()
      ensures Chooses() ==> (WidthRight() <==> htOpMode != old(htOpMode) || (old(WidthRight()) <==> Narrow() == old(Narrow())))
    {
      hide Valid, Num, Joined, OpMode, Tracked, BarkerRight, LegacyEdge, Edge, LastEdge, Written, Narrow, Shown, WidthRight;
      hide SameBeacon, SameErp, SameHt, SameInputs, Chooses, Edits;
      SeenSome();
      updated := JoinMarks(s, c);
      seen := seen + [Moment(numNonErp > 0, numNoShortPreamble > 0)];
      BarkerOn();
      ShownOn();
      EdgesAre();
      ToldByStations();
    }

    /** What `rtw_ht_operation_update` is called for after a join or leave. */
    method UpdateOperation() returns (changes: nat)
      requires Valid()
      modifies this`htOpMode
      ensures Valid()
      ensures htOpMode == if htOption then OpMode(numHtNoGf, numNoHt, numHt20, olbcHt, width40) else old(htOpMode)
      ensures changes == 0 <==> htOpMode == old(htOpMode)
      ensures forall k: Mark :: Num(k) == old(Num(k))
    {
      hide OpMode, Valid, Num;
      changes := HtOperationUpdate();
    }

    /** The same, and the HT operation element with it if something changed. */
    method TellOperation() returns (changes: nat)
      requires Valid()
      modifies this`htOpMode, this`htElement, this`swTo20, this`narrowTold
      ensures Valid()
      ensures htOpMode == if htOption then OpMode(numHtNoGf, numNoHt, numHt20, olbcHt, width40) else old(htOpMode)
      ensures changes == 0 <==> htOpMode == old(htOpMode)
      ensures forall k: Mark :: Num(k) == old(Num(k))
      ensures if changes > 0 then Written(old(htElement), old(swTo20)) else SameHt()
    {
      hide OpMode, Valid, Num, Written, Narrow;
      changes := UpdateOperation();
      if changes > 0 {
        UpdateHtElement();
      }
    }

    /** What makes the driver send the beacon again, in terms of the counters. */
    twostate lemma EdgesAre()
      ensures LegacyEdge() <==>
        || (numNonErp > 0) != (old(numNonErp) > 0)
        || (above11b && ((numNoShortPreamble > 0) != (old(numNoShortPreamble) > 0) || (numNoShortSlot > 0) != (old(numNoShortSlot) > 0)))
      ensures Edge(NonErp) <==> (numNonErp > 0) != (old(numNonErp) > 0)
      ensures Edge(NoShortPreamble) <==> (numNoShortPreamble > 0) != (old(numNoShortPreamble) > 0)
    {
    }

    /** What the beacon says about the stations. */
    lemma ToldByStations()
      requires Valid()
      ensures htOpMode == OpMode(numHtNoGf, numNoHt, numHt20, olbcHt, width40) ==>
        && (htOpMode.mode == 3 <==> exists t :: t in stations && NoHt in t.marks)
        && (htOpMode.mode == 2 <==>
             !(exists t :: t in stations && NoHt in t.marks) && width40 && exists t :: t in stations && Ht20 in t.marks)
        && (htOpMode.mode == 1 <==>
             && !(exists t :: t in stations && NoHt in t.marks)
             && !(width40 && exists t :: t in stations && Ht20 in t.marks) && olbcHt)
        && (htOpMode.mode == 0 <==>
             && !(exists t :: t in stations && NoHt in t.marks)
             && !(width40 && exists t :: t in stations && Ht20 in t.marks) && !olbcHt)
        && (htOpMode.nonGf <==> exists t :: t in stations && HtNoGf in t.marks)
        && (htOpMode.nonHt <==> (exists t :: t in stations && NoHt in t.marks) || olbcHt)
      ensures erp ==> erpUseProtection == erpNonErp == exists t :: t in stations && NonErp in t.marks
    {
      hide Valid, OpMode;
      if htOpMode == OpMode(numHtNoGf, numNoHt, numHt20, olbcHt, width40) {
        ModeOfStations();
      }
      if erp {
        ErpOfStations();
      }
    }

    /** What writing the element, or leaving it alone, means for what it shows. */
    twostate lemma ShownOn()
      requires if htOpMode != old(htOpMode) then Written(old(htElement), old(swTo20)) else SameHt()
      requires SameInputs()
      ensures old(Shown()) ==> Shown()
      ensures Chooses() ==> (WidthRight() <==> htOpMode != old(htOpMode) || (old(WidthRight()) <==> Narrow() == old(Narrow())))
    {
    }

    lemma SeenSome()
      requires Tracked()
      ensures seen != []
    {
    }

    /** What a join or leave does to the Barker bit, and what that means for its being right. */
    twostate lemma BarkerOn()
      requires old(Tracked()) && seen == old(seen) + [Moment(numNonErp > 0, numNoShortPreamble > 0)]
      requires erpBarker == if erp && (numNonErp > 0) != (old(numNonErp) > 0) then numNoShortPreamble > 0 else old(erpBarker)
      ensures Tracked()
      ensures BarkerRight() <==> (erp && Edge(NonErp)) || (old(BarkerRight()) <==> !Edge(NoShortPreamble))
    {
      EdgeOn(old(seen), Moment(numNonErp > 0, numNoShortPreamble > 0));
      hide LastEdge;
    }

    /** The counters of the marks that do not come from HT are as before. */
    twostate predicate LegacyCounts()
      reads this
    {
      Num(NonErp) == old(Num(NonErp)) && Num(NoShortPreamble) == old(Num(NoShortPreamble))
      && Num(NoShortSlot) == old(Num(NoShortSlot))
    }

    /** The HT part of a join, and what the beacon says because of it. */
    method JoinAndTell(s: Station, c: Caps) returns (changed: bool)
      requires Valid() && s in stations
      modifies this, s
      ensures Valid() && stations == old(stations) && olbcHt == old(olbcHt) && seen == old(seen)
      ensures SameErp() && LegacyCounts() && SameInputs() && s.marks == JoinedHt(old(s.marks), c)
      ensures numNonErp == old(numNonErp) && numNoShortPreamble == old(numNoShortPreamble)
      ensures htOpMode == if htOption then OpMode(numHtNoGf, numNoHt, numHt20, olbcHt, width40) else old(htOpMode)
      ensures changed <==> htOpMode != old(htOpMode)
      ensures if changed then Written(old(htElement), old(swTo20)) else SameHt()
    {
      hide Valid, Num, JoinedHt, OpMode, Written, Narrow;
      JoinHt(s, c);
      var changes := TellOperation();
      changed := changes > 0;
    }

    /** The HT part of a join. */
    method JoinHt(s: Station, c: Caps)
      requires Valid() && s in stations
      modifies this, s
      ensures Valid() && Kept() && numNonErp == old(numNonErp) && numNoShortPreamble == old(numNoShortPreamble)
      ensures s.marks == JoinedHt(old(s.marks), c)
      ensures LegacyCounts()
    {
      hide Valid;
      var edge;
      if c.ht {
        edge := AdjustQuietly(s, NoHt, false);
        if !c.gf {
          edge := AdjustQuietly(s, HtNoGf, true);
        }
        if !c.width40 {
          edge := AdjustQuietly(s, Ht20, true);
        }
        if c.intolerant {
          edge := AdjustQuietly(s, Intolerant40, true);
        }
      } else {
        edge := AdjustQuietly(s, NoHt, true);
      }
    }

    /** The marks, counters and advertised bits after a leave, and the release of the station. */
    method LeaveMarks(s: Station, timBit: bool) returns (updated: bool)
      requires Valid() && s in stations
      modifies this, s
      ensures Valid() && stations == old(stations) - {s} && olbcHt == old(olbcHt) && s.marks == {} && seen == old(seen)
      ensures htOpMode == if htOption then OpMode(numHtNoGf, numNoHt, numHt20, olbcHt, width40) else old(htOpMode)
      ensures erpBarker == if erp && (numNonErp > 0) != (old(numNonErp) > 0) then numNoShortPreamble > 0 else old(erpBarker)
      ensures updated <==> timBit || LegacyEdge()
      ensures !updated ==> SameErp()
      ensures if htOpMode != old(htOpMode) then Written(old(htElement), old(swTo20)) else SameHt()
      ensures SameInputs()
    {
      hide Valid, Num, Legacy, OpMode, Written, Narrow;
      ghost var m := s.marks;
      updated := AdjustLegacy(s, false, false, false);
      updated := updated || timBit;
      LeaveHt(s);
      var changes := TellOperation();
      AllTaken(m);
      Free(s);
    }

    /** `bss_cap_update_on_sta_leave` and the release of the station; `timBit` tells whether its bit in the TIM was set. */
    method Leave(s: Station, timBit: bool) returns (updated: bool)
      requires Valid() && Tracked() && s in stations
      modifies this, s
      ensures Tracked() && seen == old(seen) + [Moment(numNonErp > 0, numNoShortPreamble > 0)]
      ensures BarkerRight() <==> (erp && Edge(NonErp)) || (old(BarkerRight()) <==> !Edge(NoShortPreamble))
      ensures Valid() && stations == old(stations) - {s} && olbcHt == old(olbcHt) && s.marks == {}
      ensures htOpMode == if htOption then OpMode(numHtNoGf, numNoHt, numHt20, olbcHt, width40) else old(htOpMode)
      ensures erpBarker == if erp && (numNonErp > 0) != (old(numNonErp) > 0) then numNoShortPreamble > 0 else old(erpBarker)
      ensures updated <==>
        || timBit || (numNonErp > 0) != (old(numNonErp) > 0)
        || (above11b && ((numNoShortPreamble > 0) != (old(numNoShortPreamble) > 0) || (numNoShortSlot > 0) != (old(numNoShortSlot) > 0)))
      ensures htOption ==>
        && (htOpMode.mode == 3 <==> exists t :: t in stations && NoHt in t.marks)
        && (htOpMode.mode == 2 <==>
             !(exists t :: t in stations && NoHt in t.marks) && width40 && exists t :: t in stations && Ht20 in t.marks)
        && (htOpMode.mode == 1 <==>
             && !(exists t :: t in stations && NoHt in t.marks)
             && !(width40 && exists t :: t in stations && Ht20 in t.marks) && olbcHt)
        && (htOpMode.mode == 0 <==>
             && !(exists t :: t in stations && NoHt in t.marks)
             && !(width40 && exists t :: t in stations && Ht20 in t.marks) && !olbcHt)
        && (htOpMode.nonGf <==> exists t :: t in stations && HtNoGf in t.marks)
        && (htOpMode.nonHt <==> (exists t :: t in stations && NoHt in t.marks) || olbcHt)
      ensures erp ==> erpUseProtection == erpNonErp == exists t :: t in stations && NonErp in t.marks
      ensures !updated ==> SameErp()
      ensures if htOpMode != old(htOpMode) then Written(old(htElement), old(swTo20)) else SameHt()
      ensures SameInputs()
      ensures old(Shown()) ==> Shown()
      ensures Chooses() ==> (WidthRight() <==> htOpMode != old(htOpMode) || (old(WidthRight()) <==> Narrow() == old(Narrow())))
    {
      hide Valid, Num, OpMode, Tracked, BarkerRight, LegacyEdge, Edge, LastEdge, Written, Narrow, Shown, WidthRight;
      hide SameBeacon, SameErp, SameHt, SameInputs, Chooses, Edits;
      SeenSome();
      updated := LeaveMarks(s, timBit);
      seen := seen + [Moment(numNonErp > 0, numNoShortPreamble > 0)];
      BarkerOn();
      ShownOn();
      EdgesAre();
      ToldByStations();
    }

    /** The HT part of a leave. */
    method LeaveHt(s: Station)
      requires Valid() && s in stations
      modifies this, s
      ensures Valid() && Kept() && numNonErp == old(numNonErp) && numNoShortPreamble == old(numNoShortPreamble)
      ensures s.marks == old(s.marks) - {HtNoGf} - {NoHt} - {Ht20} - {Intolerant40}
      ensures LegacyCounts()
    {
      hide Valid, Num;
      var edge := AdjustQuietly(s, HtNoGf, false);
      edge := AdjustQuietly(s, NoHt, false);
      edge := AdjustQuietly(s, Ht20, false);
      ClearIntolerant(s);
    }

    /** A station with the mark is counted, so the warning about a count that is already zero is never reached. */
    method ClearIntolerant(s: Station)
      requires Valid() && s in stations
      modifies this, s
      ensures Valid() && Kept() && numNonErp == old(numNonErp) && numNoShortPreamble == old(numNoShortPreamble)
      ensures s.marks == old(s.marks) - {Intolerant40} && LegacyCounts()
    {
      if Intolerant40 in s.marks {
        Counts(s, Intolerant40);
        if num40Intolerant == 0 {
          assert false;
        }
      }
      var edge := AdjustQuietly(s, Intolerant40, false);
    }

    /** With one station, a counter says whether that one has the mark. */
    lemma Alone(s: Station)
      requires Valid() && stations == {s}
      ensures numHtNoGf > 0 <==> HtNoGf in s.marks
      ensures numNoHt > 0 <==> NoHt in s.marks
      ensures numHt20 > 0 <==> Ht20 in s.marks
      ensures num40Intolerant > 0 <==> Intolerant40 in s.marks
    {
      forall k: Mark ensures Num(k) > 0 <==> k in s.marks {
        assert Marked(stations, k) == if k in s.marks then {s} else {};
      }
      assert Num(HtNoGf) == numHtNoGf && Num(NoHt) == numNoHt && Num(Ht20) == numHt20;
      assert Num(Intolerant40) == num40Intolerant;
    }

    /** A station without marks goes. */
    method Free(s: Station)
      requires Valid() && s.marks == {}
      modifies this`stations
      ensures Valid() && stations == old(stations) - {s} && forall k: Mark :: Num(k) == old(Num(k))
    {
      ghost var ss := stations;
      stations := stations - {s};
      forall k: Mark ensures Marked(stations, k) == Marked(ss, k) {
      }
    }

    /**
     * `rtw_process_public_act_bsscoex`: `coex` tells whether the frame has a coexistence element, `intolerant` and
     * `request20` are bits of it, `report` tells whether it has an intolerant channel report.
     */
    method Coex(s: Station, coex: bool, intolerant: bool, request20: bool, report: bool) returns (updated: bool)
      requires Valid() && s in stations
      modifies this, s
      ensures old(Tracked()) ==> Tracked()
      ensures Valid() && SameErp() && htOpMode == old(htOpMode) && stations == old(stations) && olbcHt == old(olbcHt)
      ensures s.marks == old(s.marks) + if coex && intolerant then {Intolerant40} else {}
      ensures ht20WidthReq == (old(ht20WidthReq) || (coex && !intolerant && request20))
      ensures htIntolerantChReported == (old(htIntolerantChReported) || report)
      ensures updated <==> s.marks != old(s.marks) || ht20WidthReq != old(ht20WidthReq) || htIntolerantChReported != old(htIntolerantChReported)
      ensures if updated then Written(old(htElement), old(swTo20)) else SameHt()
      ensures old(Shown()) ==> Shown()
      ensures olbc == old(olbc) && (Chooses() ==> (WidthRight() <==> updated || old(WidthRight())))
    {
      updated := CoexMarks(s, coex, intolerant, request20, report);
      hide Valid, Tracked;
      if updated {
        UpdateHtElement();
      }
    }

    /** The station says that it does not tolerate 40 MHz. */
    method CoexIntolerant(s: Station) returns (updated: bool)
      requires Valid() && s in stations
      modifies this, s
      ensures old(Tracked()) ==> Tracked()
      ensures Valid() && Kept() && s.marks == old(s.marks) + {Intolerant40}
      ensures updated <==> Intolerant40 !in old(s.marks)
      ensures !updated ==> num40Intolerant == old(num40Intolerant)
    {
      hide Valid, Num;
      updated := Intolerant40 !in s.marks;
      if updated {
        var edge := AdjustQuietly(s, Intolerant40, true);
      } else {
        assert s.marks + {Intolerant40} == s.marks;
      }
    }

    /** What the frame says about the station and the BSS. */
    method CoexMarks(s: Station, coex: bool, intolerant: bool, request20: bool, report: bool) returns (updated: bool)
      requires Valid() && s in stations
      modifies this, s
      ensures old(Tracked()) ==> Tracked()
      ensures Valid() && SameBeacon() && stations == old(stations) && olbcHt == old(olbcHt)
      ensures s.marks == old(s.marks) + if coex && intolerant then {Intolerant40} else {}
      ensures ht20WidthReq == (old(ht20WidthReq) || (coex && !intolerant && request20))
      ensures htIntolerantChReported == (old(htIntolerantChReported) || report)
      ensures updated <==> s.marks != old(s.marks) || ht20WidthReq != old(ht20WidthReq) || htIntolerantChReported != old(htIntolerantChReported)
      ensures !updated ==> num40Intolerant == old(num40Intolerant)
    {
      hide Valid, Tracked, Num;
      updated := false;
      if coex {
        if intolerant {
          updated := CoexIntolerant(s);
        } else if request20 {
          if !ht20WidthReq {
            ht20WidthReq := true;
            updated := true;
          }
        }
      }
      if report {
        if !htIntolerantChReported {
          htIntolerantChReported := true;
          updated := true;
        }
      }
    }
  }

  /** The marks after the HT part of a join. */
  function JoinedHt(m: set<Mark>, c: Caps): set<Mark> {
    if !c.ht then m + {NoHt}
    else m - {NoHt} + (if c.gf then {} else {HtNoGf}) + (if c.width40 then {} else {Ht20}) + (if c.intolerant then {Intolerant40} else {})
  }

  /** The marks after the part of a join or leave that does not come from HT. */
  function Legacy(m: set<Mark>, longPreamble: bool, nonErp: bool, longSlot: bool): set<Mark> {
    m - {NoShortPreamble, NonErp, NoShortSlot}
    + (if longPreamble then {NoShortPreamble} else {}) + (if nonErp then {NonErp} else {})
    + (if longSlot then {NoShortSlot} else {})
  }

  lemma AllTaken(m: set<Mark>)
    ensures Legacy(m, false, false, false) - {HtNoGf} - {NoHt} - {Ht20} - {Intolerant40} == {}
  {
    forall k | k in m ensures k in {NoShortPreamble, NonErp, NoShortSlot, HtNoGf, NoHt, Ht20, Intolerant40} {
      match k {
        case NoShortPreamble => case NonErp => case NoShortSlot => case HtNoGf =>
        case NoHt => case Ht20 => case Intolerant40 =>
      }
    }
  }

  lemma JoinedBy(m: set<Mark>, c: Caps, htMode: bool)
    ensures var n := Legacy(m, !c.shortPreamble, c.nonErp, !c.shortSlot);
      (if htMode then JoinedHt(n, c) else n) == Joined(m, c, htMode)
  {
    var n := Legacy(m, !c.shortPreamble, c.nonErp, !c.shortSlot);
    var r := if htMode then JoinedHt(n, c) else n;
    forall k: Mark ensures k in r <==> k in Joined(m, c, htMode) {
      HasJoined(m, c, htMode, k);
      HasAdjusted(m, c, htMode, k);
    }
  }

  /** Whether a station has the mark after a join, mark by mark. */
  predicate Has(m: set<Mark>, c: Caps, htMode: bool, k: Mark) {
    match k
    case NoShortPreamble => !c.shortPreamble
    case NonErp => c.nonErp
    case NoShortSlot => !c.shortSlot
    case HtNoGf => HtNoGf in m || (htMode && c.ht && !c.gf)
    case NoHt => if htMode && c.ht then false else NoHt in m || htMode
    case Ht20 => Ht20 in m || (htMode && c.ht && !c.width40)
    case Intolerant40 => Intolerant40 in m || (htMode && c.ht && c.intolerant)
  }

  lemma HasJoined(m: set<Mark>, c: Caps, htMode: bool, k: Mark)
    ensures k in Joined(m, c, htMode) <==> Has(m, c, htMode, k)
  {
  }

  lemma HasAdjusted(m: set<Mark>, c: Caps, htMode: bool, k: Mark)
    ensures var n := Legacy(m, !c.shortPreamble, c.nonErp, !c.shortSlot);
      k in (if htMode then JoinedHt(n, c) else n) <==> Has(m, c, htMode, k)
  {
    hide Joined;
    LegacyHas(m, c, k);
    hide Legacy;
  }

  lemma LegacyHas(m: set<Mark>, c: Caps, k: Mark)
    ensures k in Legacy(m, !c.shortPreamble, c.nonErp, !c.shortSlot) <==>
      if k == NoShortPreamble then !c.shortPreamble
      else if k == NonErp then c.nonErp
      else if k == NoShortSlot then !c.shortSlot
      else k in m
  {
  }

  /** Channel 6, say, with 40 MHz and the secondary channel above. */
  const SAMPLE := Channel(true, true, true, 1)

  /** A station that does not tolerate 40 MHz has joined, and the beacon still offers them. */
  method WidthLags() returns (ap: Ap)
    ensures ap.Valid() && ap.Chooses() && ap.num40Intolerant > 0 && ap.htElement.wide && !ap.WidthRight()
  {
    ap := new Ap(true, true, true, true, true, SAMPLE, HtElement(true, 1, HtOpMode(0, false, false)));
    var s := ap.Alloc();
    var updated := ap.Join(s, Caps(true, false, true, true, true, true, true));
    ap.Alone(s);
  }

  /** A station with long preambles alone is counted, but the Barker bit of the ERP element does not say so. */
  method BarkerLags() returns (ap: Ap)
    ensures ap.Valid() && ap.erp && ap.numNoShortPreamble > 0 && !ap.erpBarker
  {
    ap := new Ap(true, true, true, true, true, SAMPLE, HtElement(true, 1, HtOpMode(0, false, false)));
    assert ap.Num(NonErp) == 0;
    var s := ap.Alloc();
    var updated := ap.Join(s, Caps(false, false, true, true, true, true, false));
    assert s in Marked(ap.stations, NoShortPreamble) && ap.Num(NoShortPreamble) > 0;
    assert {} == Marked(ap.stations, NonErp) && ap.Num(NonErp) == 0;
  }

  /** A station that joins again with more than it had before keeps the mark it no longer deserves. */
  method MarkLags() returns (ap: Ap)
    ensures ap.Valid() && ap.htOpMode == HtOpMode(OP_MODE_20MHZ_HT_STA_ASSOCED, false, false)
    ensures forall s :: s in ap.stations ==> s.marks != Profile(Caps(true, false, true, true, true, true, false), true)
  {
    MarksStay();
    hide Profile, Joined, Ap.Valid, Ap.Num, Ap.Counted;
    ap := new Ap(true, true, true, true, true, SAMPLE, HtElement(true, 1, HtOpMode(0, false, false)));
    var s := ap.Alloc();
    var updated := ap.Join(s, Caps(true, false, true, true, true, false, false));
    updated := ap.Join(s, Caps(true, false, true, true, true, true, false));
    ap.Alone(s);
  }

  /** The marks of that station, join by join. */
  lemma MarksStay()
    ensures var m := Joined({}, Caps(true, false, true, true, true, false, false), true);
      && Joined(m, Caps(true, false, true, true, true, true, false), true) == {Ht20}
      && Profile(Caps(true, false, true, true, true, true, false), true) == {}
  {
  }
}
