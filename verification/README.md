# A model of the RTL8723DU driver's bookkeeping

The RTL8723DU Wi-Fi driver keeps most of its state in octet buffers, queues, hash chains and counters that it changes
in place. This project models five parts of it in Dafny and proves what those parts are for. All source paths below lie
in the driver's directory of the Yocto layer.

**Element buffers** (`core/rtw_ieee80211.c`, `core/rtw_ap.c`). `Elements` is the octet form of information elements.
`ElementSearch` appends, finds and removes elements. `ElementParse` is the table parser and its relation to the search.
`AttrWalk`, `VendorAttrs`, `BssAttrs` and
`AttrLists` search and delete attributes nested in P2P and WFD elements. `BeaconIes` edits the
beacon, `Tim` compresses the traffic indication map, `Rsne` parses the RSN element, and `ChannelGroup` merges channel
settings. The methods work on arrays with the driver's own moves and fills; their contracts speak of the elements, which
callers hand over as ghost sequences.

**Command thread** (`core/rtw_cmd.c`). `CmdThread` is a state machine with any number of submitters, one thread, the
queue, its semaphore, and a mutex that protects completion records on the submitters' stacks. Each region under a lock
is one step. The theorems hold for every sequence of steps from the initial state.

**Bridge** (`core/rtw_br_ext.c`). `BridgeRows` is the database as a table of rows and as a map, `BridgeDb` the linked
entries with `next_hash` and `pprev_hash`. `PppoeRelay` rewrites the relay tag of discovery frames, `DhcpBcast` sets the
broadcast flag of DHCP requests and updates their checksum.

**Stations of an access point** (`core/rtw_ap.c`). `ApStations` has the counters and advertised bits that joins, leaves
and coexistence frames maintain, and the set of stations they count.

**Beamforming sounding** (`core/rtw_beamforming.c`, the second version). `Sounding` is the scheduler whose handlers
call each other.

`Bytes` and `Options` hold what all of these share.

What the words of the contracts stand for is stated in octets, numbers and fields by theorems of their own:
`AttrLists.P2pFiltered`, `ElementParse.TableHas`, `Rsne.VerdictIff`, `CmdThread.FilterIff`, `BridgeRows.ExpireReads`,
`ApStations.JoinedMarks`, `Sounding.SoundIff` and `ChannelGroup.ObeyingIs`, for instance.

## Where the code does less than it seems to

Each of these is proved: by a case that shows it, by the exact condition under which the code does what it is for, or
by both.

- `rtw_add_bcn_ie` followed by `rtw_remove_bcn_ie` restores the elements only under the condition of
  `BeaconIes.AddThenRemoveIff`: an element with an empty body is neither replaced nor removed, and nothing is inserted
  behind one (`BeaconIes.NotUndone`).
- `rtw_get_p2p_attr` and `rtw_get_wfd_attr` add header and data length in sixteen bits. A header that declares 65533
  octets and has another id than the wanted one stops the cursor for ever; with the wanted id it is found, with nothing
  to cut. Lengths of 65534 and 65535 move the cursor by one and two octets. `AttrWalk.EndsIff` says exactly when the
  walk ends, `AttrWalk.PruneEndsIff` when a deletion does, and `AttrWalk.WalkForever` has an input on which neither does.
- `rtw_get_ie_ex` and `rtw_get_p2p_ie` compare as many octets as the OUI has, whatever the length of the element, so they
  can stop at a shorter element (`ElementSearch.SightIsFirstIff`, `ElementSearch.SightTooSoon`). `rtw_ies_remove_ie`
  then removes it (`ElementSearch.PurgedIff`, `ElementSearch.PurgedWrongly`). The deletion of attributes passes over it and
  does no harm (`BssAttrs.BssEx.DelAttr`).
- `update_BCNTIM` counts three octets for a DS element whether there is one or not. When the TIM still becomes one more
  element is `BeaconIes.TimAddedIff`; `BeaconIes.TimSplits` is a beacon in which it does not.
- `rtw_set_tim_ie` looks at the group traffic bit when it counts leading zero octets, so its element can be longer than
  necessary (`Tim.MaximalIff`, `Tim.NotMaximal`). It is lossless all the same.
- Between filter and insertion a submitter can outlive the command thread, and its payload leaks
  (`CmdThread.LeakyRun`). A command re-queued at the head takes no count of the semaphore with it
  (`CmdThread.LostWakeUpRun`). `CmdThread.WakeUpIff` counts what is missing, and `CmdThread.WakeUpsMissing` bounds it by
  the number of re-queues. An up from power save (`core/rtw_pwrctrl.c:1509`), which the model has as a step of the
  environment, makes up for one missing count if it comes while that is missing (`CmdThread.UpCovers`). One that the thread
  spends on an empty queue makes up for nothing (`CmdThread.UpSpent`).
- The Barker bit of the ERP element is updated only together with the bits for non-ERP stations, so it is right exactly
  under the condition of `ApStations.Ap.BarkerRightIff`; `ApStations.BarkerLags` is a run after which it is not.
- The HT operation element is written when the operation mode changes and after a coexistence frame that is news, but not
  because a station that does not tolerate 40 MHz comes or goes. When its width is right is `ApStations.Ap.WidthRightIff`;
  `ApStations.WidthLags` is a run after which it is not.
- A station that joins again without leaving keeps HT marks it no longer deserves (`ApStations.JoinedIff`,
  `ApStations.MarkLags`).
- `__nat25_add_pppoe_tag` reads the length of the tag in host order. On a little-endian host the room it asks for is
  more than two kilobytes, so the relay branch fails for want of room, with the client's own relay tag already gone
  (`PppoeRelay.Frame.RelayRequest`). An empty relay tag of the client is not given back (`PppoeRelay.RestoredIff`,
  `PppoeRelay.EmptyTagLost`).
- The failure count of a beamformee has five bits, so an entry that goes on failing is given up again at every 32nd
  failure after the 31st (`Sounding.FailuresInARow`).
- `dhcp_flag_bcast` updates the checksum as if all flags had been zero, and makes one up where there was none
  (`DhcpBcast.StaysRightIff`, `DhcpBcast.ChecksumSpoilt`, `DhcpBcast.AcceptedIff`).
- `rtw_sync_chbw` does not look at the result of `rtw_get_offset_by_chbw`, so a request can stay at 40 MHz on channel
  14 (`ChannelGroup.ExistsIff`).

## Model

| member | source | states |
|---|---|---|
| Elements.EncodeInjective | imx-yocto-imx6ull/meta-okmx6ull/recipes-kernel/rtl8723du/files/rtl8723DU/core/rtw_ieee80211.c:1372-1396 | an octet string is the form of at most one run of elements, so the walks over ids and lengths have one reading |
| Elements.StreamIff | imx-yocto-imx6ull/meta-okmx6ull/recipes-kernel/rtl8723du/files/rtl8723DU/core/rtw_ieee80211.c:1372-1396 | the octets from which complete elements can be cut one by one with nothing left are exactly the concatenations of elements |
| ElementSearch.SetIe | imx-yocto-imx6ull/meta-okmx6ull/recipes-kernel/rtl8723du/files/rtl8723DU/core/rtw_ieee80211.c:216-236 | writes header and body at the place given, keeps all other octets, returns the place behind and the new length; the length octet keeps eight bits |
| ElementSearch.SetIeExtends | imx-yocto-imx6ull/meta-okmx6ull/recipes-kernel/rtl8723du/files/rtl8723DU/core/rtw_ieee80211.c:216-236 | what is written behind a stream makes it a stream with one more element |
| ElementSearch.GetIe | imx-yocto-imx6ull/meta-okmx6ull/recipes-kernel/rtl8723du/files/rtl8723DU/core/rtw_ieee80211.c:294-318 | position and length of the first element with the id, nothing if there is none or the limit is below one |
| ElementSearch.GetIeEx | imx-yocto-imx6ull/meta-okmx6ull/recipes-kernel/rtl8723du/files/rtl8723DU/core/rtw_ieee80211.c:332-364 | position and size with header of the first element whose octets, with those behind it if it is short, open with the id and the OUI, for every comparison that stays in the buffer |
| ElementSearch.SightIsFirstIff | imx-yocto-imx6ull/meta-okmx6ull/recipes-kernel/rtl8723du/files/rtl8723DU/core/rtw_ieee80211.c:332-364 | exactly when that is the first element with the id whose body begins with the OUI: no shorter one before it looks like one |
| ElementSearch.SightTooSoon | imx-yocto-imx6ull/meta-okmx6ull/recipes-kernel/rtl8723du/files/rtl8723DU/core/rtw_ieee80211.c:332-364 | an element cut short that the search takes for one with the OUI, because the next element goes on with its last octet |
| ElementSearch.FirstMeaning | imx-yocto-imx6ull/meta-okmx6ull/recipes-kernel/rtl8723du/files/rtl8723DU/core/rtw_ieee80211.c:294-318 | the search result is a match and nothing before it is one |
| ElementSearch.FoundIs | imx-yocto-imx6ull/meta-okmx6ull/recipes-kernel/rtl8723du/files/rtl8723DU/core/rtw_ieee80211.c:294-364 | with the place of the first element whose id is asked for and whose body begins with the OUI, what the search answers; nothing if there is no such element |
| ElementSearch.RemoveIe | imx-yocto-imx6ull/meta-okmx6ull/recipes-kernel/rtl8723du/files/rtl8723DU/core/rtw_ieee80211.c:378-409 | in place: every element that opens with id and OUI when the loop comes to it is gone, the others follow the offset in order, the stale octets behind the new end are those the moves leave there, octets before the offset are untouched, success is reported iff something went |
| ElementSearch.PurgedIff | imx-yocto-imx6ull/meta-okmx6ull/recipes-kernel/rtl8723du/files/rtl8723DU/core/rtw_ieee80211.c:378-409 | exactly when the removal takes out the matches and nothing else: nothing opens like one without being one when the loop comes to it |
| ElementSearch.HonestLong | imx-yocto-imx6ull/meta-okmx6ull/recipes-kernel/rtl8723du/files/rtl8723DU/core/rtw_ieee80211.c:378-409 | so it does whenever no element with the id is shorter than the OUI and the beginning of it |
| ElementSearch.RoomEnough | imx-yocto-imx6ull/meta-okmx6ull/recipes-kernel/rtl8723du/files/rtl8723DU/core/rtw_ieee80211.c:332-409 | with as many octets behind the elements as the OUI has, no comparison of search or removal leaves the buffer |
| ElementSearch.PurgedWrongly | imx-yocto-imx6ull/meta-okmx6ull/recipes-kernel/rtl8723du/files/rtl8723DU/core/rtw_ieee80211.c:378-409 | an element that was not asked for and is removed all the same |
| ElementSearch.PurgedOn | imx-yocto-imx6ull/meta-okmx6ull/recipes-kernel/rtl8723du/files/rtl8723DU/core/rtw_ieee80211.c:392-405 | one turn of the loop: the removal goes on behind the first element in sight, with that one gone |
| ElementSearch.WithoutMembers | imx-yocto-imx6ull/meta-okmx6ull/recipes-kernel/rtl8723du/files/rtl8723DU/core/rtw_ieee80211.c:378-409 | what is left are exactly the elements that do not match |
| ElementSearch.WithoutIs | imx-yocto-imx6ull/meta-okmx6ull/recipes-kernel/rtl8723du/files/rtl8723DU/core/rtw_ieee80211.c:378-409 | whether an element is taken out depends on its id and the beginning of its body alone, and those left keep their order |
| ElementSearch.WithoutFirst | imx-yocto-imx6ull/meta-okmx6ull/recipes-kernel/rtl8723du/files/rtl8723DU/core/rtw_ieee80211.c:378-409 | taking out the first match does not change what the removal of all matches leaves |
| ElementParse.VendorFieldIs | imx-yocto-imx6ull/meta-okmx6ull/recipes-kernel/rtl8723du/files/rtl8723DU/core/rtw_ieee80211.c:1250-1345 | which vendor bodies belong to which field, told by the octets with which they begin, and that there is no other field for them |
| ElementParse.ParseElems | imx-yocto-imx6ull/meta-okmx6ull/recipes-kernel/rtl8723du/files/rtl8723DU/core/rtw_ieee80211.c:1355-1514 | fails iff the octets are no exact concatenation of elements, reports unknown iff some element has no field, and fills the table |
| ElementParse.TableIsLast | imx-yocto-imx6ull/meta-okmx6ull/recipes-kernel/rtl8723du/files/rtl8723DU/core/rtw_ieee80211.c:1355-1514 | a field is set iff some element belongs to it, and then it is the last such element |
| ElementParse.TableHas | imx-yocto-imx6ull/meta-okmx6ull/recipes-kernel/rtl8723du/files/rtl8723DU/core/rtw_ieee80211.c:1355-1514 | the table has an entry for an id exactly if it is one of the twenty-two in the switch and some element has it, and for a vendor field exactly if a body of an element 221 begins with its octets |
| ElementParse.UnknownIff | imx-yocto-imx6ull/meta-okmx6ull/recipes-kernel/rtl8723du/files/rtl8723DU/core/rtw_ieee80211.c:1355-1514 | an element is counted as unknown exactly if it has none of those ids and none of those beginnings |
| ElementParse.FirstAndLast | imx-yocto-imx6ull/meta-okmx6ull/recipes-kernel/rtl8723du/files/rtl8723DU/core/rtw_ieee80211.c:294-318 | the search finds the first and the table has the last of the elements with an id, and all of them lie between |
| ElementParse.ParsersAgreeIff | imx-yocto-imx6ull/meta-okmx6ull/recipes-kernel/rtl8723du/files/rtl8723DU/core/rtw_ieee80211.c:1355-1514 | search and table see the same element exactly when the id occurs at most once |
| VendorAttrs.GetKindIe | imx-yocto-imx6ull/meta-okmx6ull/recipes-kernel/rtl8723du/files/rtl8723DU/core/rtw_ieee80211.c:2088-2131 | first element whose octets, with those behind it if it is short, open one of the P2P or WFD family; nothing if it starts too near the limit of the element buffer |
| VendorAttrs.CappedIff | imx-yocto-imx6ull/meta-okmx6ull/recipes-kernel/rtl8723du/files/rtl8723DU/core/rtw_ieee80211.c:2088-2131 | an element is missed for the size of the buffer exactly if it starts 763 octets or more behind the beginning |
| VendorAttrs.HeadMatches | imx-yocto-imx6ull/meta-okmx6ull/recipes-kernel/rtl8723du/files/rtl8723DU/core/rtw_ieee80211.c:2088-2131 | what looks like an element of the family is one unless it is shorter than the OUI; `ElementSearch.SightIsFirstIff` says when the search is misled by that |
| VendorAttrs.GetAttr | imx-yocto-imx6ull/meta-okmx6ull/recipes-kernel/rtl8723du/files/rtl8723DU/core/rtw_ieee80211.c:2143-2188 | what the walk finds behind the header, nothing for an element that is too short or of another family; asked for is only that the walk ends |
| VendorAttrs.WalkAttrs | imx-yocto-imx6ull/meta-okmx6ull/recipes-kernel/rtl8723du/files/rtl8723DU/core/rtw_ieee80211.c:2155-2186 | the loop comes to the result of the walk, with its sixteen-bit size of header and data, on every input on which it ends |
| AttrWalk.StandsStillIff | imx-yocto-imx6ull/meta-okmx6ull/recipes-kernel/rtl8723du/files/rtl8723DU/core/rtw_ieee80211.c:2155-2186 | a turn leaves the cursor where it is exactly at a header that declares 65533 octets for another id |
| AttrWalk.EndsIff | imx-yocto-imx6ull/meta-okmx6ull/recipes-kernel/rtl8723du/files/rtl8723DU/core/rtw_ieee80211.c:2155-2186 | the walk ends exactly if its cursor never comes to such a header, for every input |
| AttrWalk.WalkForever | imx-yocto-imx6ull/meta-okmx6ull/recipes-kernel/rtl8723du/files/rtl8723DU/core/rtw_ieee80211.c:2155-2186 | three octets on which the walk for any id but 7 goes on for ever, and the walk for id 7 ends at once |
| AttrWalk.FoundHeader | imx-yocto-imx6ull/meta-okmx6ull/recipes-kernel/rtl8723du/files/rtl8723DU/core/rtw_ieee80211.c:2155-2186 | what the walk finds is a header with the id, and the size it reports is the low sixteen bits of data length and three |
| AttrWalk.PruneEndsIff | imx-yocto-imx6ull/meta-okmx6ull/recipes-kernel/rtl8723du/files/rtl8723DU/core/rtw_ieee80211.c:2281-2321 | the deletion ends exactly if each of its searches does |
| AttrWalk.PrunedLeaves | imx-yocto-imx6ull/meta-okmx6ull/recipes-kernel/rtl8723du/files/rtl8723DU/core/rtw_ieee80211.c:2281-2321 | after any deletion that ends, a search for the id finds nothing, or a header that declares 65533 octets and so nothing to cut |
| AttrWalk.PrunedIsFilter | imx-yocto-imx6ull/meta-okmx6ull/recipes-kernel/rtl8723du/files/rtl8723DU/core/rtw_ieee80211.c:2281-2321 | where no header overflows sixteen bits the deletion ends, takes out every attribute with the id, and leaves all others |
| VendorAttrs.CloseGap | imx-yocto-imx6ull/meta-okmx6ull/recipes-kernel/rtl8723du/files/rtl8723DU/core/rtw_ieee80211.c:2305-2306 | move and fill cut a stretch out and let in as many zeros before the end |
| AttrWalk.DelFirst | imx-yocto-imx6ull/meta-okmx6ull/recipes-kernel/rtl8723du/files/rtl8723DU/core/rtw_ieee80211.c:2290-2318 | cutting out the first attribute with the id does not change what the deletion of all of them leaves |
| VendorAttrs.DelKindAttr | imx-yocto-imx6ull/meta-okmx6ull/recipes-kernel/rtl8723du/files/rtl8723DU/core/rtw_ieee80211.c:2281-2321 | for every element on which its searches end: leaves header and OUI, a length octet that fits, what searching and cutting leaves of the attributes, zeros up to the old end, and everything outside as it was; an element too short for the OUI stays as it is; the same method with the other octet order is lines 2608-2648 |
| BssAttrs.StripAt | imx-yocto-imx6ull/meta-okmx6ull/recipes-kernel/rtl8723du/files/rtl8723DU/core/rtw_ieee80211.c:2340-2396 | every element keeps its place; those of the family lose the attributes of the id, all others stay as they are |
| BssAttrs.StripIe | imx-yocto-imx6ull/meta-okmx6ull/recipes-kernel/rtl8723du/files/rtl8723DU/core/rtw_ieee80211.c:2371-2381 | one turn of the outer loop: the element in sight is emptied of the attribute, or is left alone if it is too short, then the gap behind it is closed up to the end of all elements |
| BssAttrs.BssEx.DelAttr | imx-yocto-imx6ull/meta-okmx6ull/recipes-kernel/rtl8723du/files/rtl8723DU/core/rtw_ieee80211.c:2340-2396 | if the deletion inside each element of the family ends, so does the whole; behind the 12 octets of fixed parameters, or from the start in a probe request, the octets are those of the old elements, each of the family with the attributes deleted; `IELength` fits, the fixed part is untouched, the freed tail is zero; elements that only look like one of the family change nothing |
| AttrLists.DelIsFilter | imx-yocto-imx6ull/meta-okmx6ull/recipes-kernel/rtl8723du/files/rtl8723DU/core/rtw_ieee80211.c:2281-2321 | taking the attributes of an id out of the octets is filtering the list of attributes, for any octets that form no attribute behind it |
| AttrLists.PrunedIsKept | imx-yocto-imx6ull/meta-okmx6ull/recipes-kernel/rtl8723du/files/rtl8723DU/core/rtw_ieee80211.c:2281-2321 | for every list of attributes the deletion ends and leaves the list without those of the id, and the octets behind it |
| AttrLists.StripOneKeeps | imx-yocto-imx6ull/meta-okmx6ull/recipes-kernel/rtl8723du/files/rtl8723DU/core/rtw_ieee80211.c:2340-2396 | an element of the family made of OUI and attributes becomes the OUI and the attributes with another id |
| AttrLists.P2pFiltered | imx-yocto-imx6ull/meta-okmx6ull/recipes-kernel/rtl8723du/files/rtl8723DU/core/rtw_ieee80211.c:2340-2396 | the P2P deletion makes of an element 221 that begins with 50 6F 9A 09 one with the same beginning, the attributes with another id in their order, and the octets behind them |
| AttrLists.WfdFiltered | imx-yocto-imx6ull/meta-okmx6ull/recipes-kernel/rtl8723du/files/rtl8723DU/core/rtw_ieee80211.c:2666-2722 | the WFD deletion does so with an element 221 that begins with 50 6F 9A 0A |
| AttrLists.OtherFamilyStays | imx-yocto-imx6ull/meta-okmx6ull/recipes-kernel/rtl8723du/files/rtl8723DU/core/rtw_ieee80211.c:2340-2396 | the P2P deletion leaves every element that does not begin so as it is, those of WFD included, and the other way round |
| AttrLists.AttrOctetsAre | imx-yocto-imx6ull/meta-okmx6ull/recipes-kernel/rtl8723du/files/rtl8723DU/core/rtw_ieee80211.c:2155-2186 | the length of a P2P attribute has its least octet first, that of a WFD subelement its greatest |
| AttrLists.OneAttrGone | imx-yocto-imx6ull/meta-okmx6ull/recipes-kernel/rtl8723du/files/rtl8723DU/core/rtw_ieee80211.c:2340-2396 | attribute 3 goes out of a P2P element and stays in a WFD element |
| AttrLists.KeepMembers | imx-yocto-imx6ull/meta-okmx6ull/recipes-kernel/rtl8723du/files/rtl8723DU/core/rtw_ieee80211.c:2281-2321 | the filter keeps exactly the attributes with another id |
| AttrLists.FindIsSearch | imx-yocto-imx6ull/meta-okmx6ull/recipes-kernel/rtl8723du/files/rtl8723DU/core/rtw_ieee80211.c:2143-2188 | searching the octets is searching the list of attributes |
| AttrLists.SearchAfterDelete | imx-yocto-imx6ull/meta-okmx6ull/recipes-kernel/rtl8723du/files/rtl8723DU/core/rtw_ieee80211.c:2281-2321 | after a deletion no search finds the id, and a search for any other id finds the same octets as before |
| Tim.Carried | imx-yocto-imx6ull/meta-okmx6ull/recipes-kernel/rtl8723du/files/rtl8723DU/core/rtw_ap.c:55-72 | the two scans find the first carried octet, even, and the last one |
| Tim.CarriedPart | imx-yocto-imx6ull/meta-okmx6ull/recipes-kernel/rtl8723du/files/rtl8723DU/core/rtw_ap.c:55-72 | the carried part starts at an even octet, is not empty, and leaves out nothing but zeros |
| Tim.Shortest | imx-yocto-imx6ull/meta-okmx6ull/recipes-kernel/rtl8723du/files/rtl8723DU/core/rtw_ap.c:55-72 | nothing shorter would do: the last octet carried is not zero, nor are both of the first two; of nothing but zeros one is carried |
| Tim.TimIe | imx-yocto-imx6ull/meta-okmx6ull/recipes-kernel/rtl8723du/files/rtl8723DU/core/rtw_ap.c:49-86 | declared length of the element: four octets more than the carried part reaches, never above 253 |
| Tim.SetTimIe | imx-yocto-imx6ull/meta-okmx6ull/recipes-kernel/rtl8723du/files/rtl8723DU/core/rtw_ap.c:49-86 | writes the element at its place, returns its size, leaves everything around it alone |
| Tim.Lossless | imx-yocto-imx6ull/meta-okmx6ull/recipes-kernel/rtl8723du/files/rtl8723DU/core/rtw_ap.c:49-86 | decoding the element as in section 8.4.2.7 of IEEE 802.11-2012 gives back every AID bit and the group traffic bit, for every bitmap of 1 to 250 octets |
| Tim.MaximalIff | imx-yocto-imx6ull/meta-okmx6ull/recipes-kernel/rtl8723du/files/rtl8723DU/core/rtw_ap.c:55-63 | the part left out in front is as large as the standard allows unless the only bit of the first two octets is the group bit and a later octet is set |
| Tim.NotMaximal | imx-yocto-imx6ull/meta-okmx6ull/recipes-kernel/rtl8723du/files/rtl8723DU/core/rtw_ap.c:55-63 | such a bitmap |
| BeaconIes.AddBcnIe | imx-yocto-imx6ull/meta-okmx6ull/recipes-kernel/rtl8723du/files/rtl8723DU/core/rtw_ap.c:168-232 | in place: the octets from 12 to `IELength` become those of the elements with the new one inserted or exchanged, octets before and behind are untouched |
| BeaconIes.RemoveBcnIe | imx-yocto-imx6ull/meta-okmx6ull/recipes-kernel/rtl8723du/files/rtl8723DU/core/rtw_ap.c:234-269 | in place: the first element with the id is taken out unless its body is empty |
| BeaconIes.AddedIs | imx-yocto-imx6ull/meta-okmx6ull/recipes-kernel/rtl8723du/files/rtl8723DU/core/rtw_ap.c:168-232 | what becomes of the elements, from the first place that has no smaller id: an element with the id there is replaced unless its body is empty, otherwise the new one is put there unless nothing, or an empty body, is in front |
| BeaconIes.RemovedIs | imx-yocto-imx6ull/meta-okmx6ull/recipes-kernel/rtl8723du/files/rtl8723DU/core/rtw_ap.c:234-269 | from the first place with the id: that element goes unless its body is empty |
| BeaconIes.AddKeepsOrder | imx-yocto-imx6ull/meta-okmx6ull/recipes-kernel/rtl8723du/files/rtl8723DU/core/rtw_ap.c:168-232 | adding to elements sorted by id leaves them sorted |
| BeaconIes.RemoveKeepsOrder | imx-yocto-imx6ull/meta-okmx6ull/recipes-kernel/rtl8723du/files/rtl8723DU/core/rtw_ap.c:234-269 | removing from sorted elements leaves them sorted |
| BeaconIes.OthersStay | imx-yocto-imx6ull/meta-okmx6ull/recipes-kernel/rtl8723du/files/rtl8723DU/core/rtw_ap.c:168-269 | neither adding nor removing touches an element with another id, whatever the order |
| BeaconIes.AddThenRemoveIff | imx-yocto-imx6ull/meta-okmx6ull/recipes-kernel/rtl8723du/files/rtl8723DU/core/rtw_ap.c:168-269 | exactly when a removal right after an addition restores the elements: a non-empty element was inserted, or nothing was added and there is no element with the id, or the first one has an empty body |
| BeaconIes.NotUndone | imx-yocto-imx6ull/meta-okmx6ull/recipes-kernel/rtl8723du/files/rtl8723DU/core/rtw_ap.c:168-269 | one case of each kind in which it does not |
| BeaconIes.MeetsIff | imx-yocto-imx6ull/meta-okmx6ull/recipes-kernel/rtl8723du/files/rtl8723DU/core/rtw_ap.c:180-197 | among sorted elements the scan meets the id iff it is there, and then it is the first one |
| BeaconIes.Seek | imx-yocto-imx6ull/meta-okmx6ull/recipes-kernel/rtl8723du/files/rtl8723DU/core/rtw_ap.c:180-197 | the scan passes the smaller ids and remembers the last element it saw |
| BeaconIes.Splice | imx-yocto-imx6ull/meta-okmx6ull/recipes-kernel/rtl8723du/files/rtl8723DU/core/rtw_ap.c:199-229 | backing up the remainder, writing and putting it back exchanges one stretch of octets for another |
| BeaconIes.UpdateBcnTim | imx-yocto-imx6ull/meta-okmx6ull/recipes-kernel/rtl8723du/files/rtl8723DU/core/rtw_ap.c:88-166 | an existing non-empty TIM is exchanged, otherwise one is put behind SSID, rates and three more octets; nothing else changes |
| BeaconIes.TimExchanged | imx-yocto-imx6ull/meta-okmx6ull/recipes-kernel/rtl8723du/files/rtl8723DU/core/rtw_ap.c:88-118 | the first element with id 5 that has a body is exchanged for the new one |
| BeaconIes.TimPutAt | imx-yocto-imx6ull/meta-okmx6ull/recipes-kernel/rtl8723du/files/rtl8723DU/core/rtw_ap.c:119-139 | without one, the octets are put behind as many as the first elements with the ids 0 and 1 have, and three |
| BeaconIes.TimPlace | imx-yocto-imx6ull/meta-okmx6ull/recipes-kernel/rtl8723du/files/rtl8723DU/core/rtw_ap.c:106-137 | the stretch of the old TIM, or the place for a new one |
| BeaconIes.TimAddedIff | imx-yocto-imx6ull/meta-okmx6ull/recipes-kernel/rtl8723du/files/rtl8723DU/core/rtw_ap.c:119-139 | a new TIM comes to be one more element, with all others unchanged, exactly if there is an element boundary such that the TIM commutes with the octets between it and the place; for any elements in any order |
| BeaconIes.TimSplits | imx-yocto-imx6ull/meta-okmx6ull/recipes-kernel/rtl8723du/files/rtl8723DU/core/rtw_ap.c:119-139 | a beacon without DS element in which the new TIM comes into the middle of another element |
| BeaconIes.TimPlaceIff | imx-yocto-imx6ull/meta-okmx6ull/recipes-kernel/rtl8723du/files/rtl8723DU/core/rtw_ap.c:119-139 | the SSID and rates case of it: with those two in front some boundary is at the place itself exactly if the third body has one octet, as that of DS has |
| BeaconIes.TimInserted | imx-yocto-imx6ull/meta-okmx6ull/recipes-kernel/rtl8723du/files/rtl8723DU/core/rtw_ap.c:119-139 | at a boundary the TIM becomes one more element and changes no other |
| BeaconIes.TimComesFourth | imx-yocto-imx6ull/meta-okmx6ull/recipes-kernel/rtl8723du/files/rtl8723DU/core/rtw_ap.c:119-139 | behind SSID, rates and DS the TIM comes fourth |
| CmdThread.NoStaleAccess | imx-yocto-imx6ull/meta-okmx6ull/recipes-kernel/rtl8723du/files/rtl8723DU/core/rtw_cmd.c:661-735 | in every run no step uses memory that is gone: the thread never writes the completion record of a submitter that has returned, a submitter that gives up never touches a freed command object, nothing is freed twice |
| CmdThread.FirstInFirstOut | imx-yocto-imx6ull/meta-okmx6ull/recipes-kernel/rtl8723du/files/rtl8723DU/core/rtw_cmd.c:255-374 | in every run commands leave the thread in the order of insertion, re-queued at the head or not, and each is in one place |
| CmdThread.NeverTooBig | imx-yocto-imx6ull/meta-okmx6ull/recipes-kernel/rtl8723du/files/rtl8723DU/core/rtw_cmd.c:595-599 | the size test at dispatch never fires, because such a command was rejected at the queue |
| CmdThread.FilterIff | imx-yocto-imx6ull/meta-okmx6ull/recipes-kernel/rtl8723du/files/rtl8723DU/core/rtw_cmd.c:419-479 | in every run a command is turned away, and its object and payload freed, exactly if it is too big, the thread is not running, or the hardware is down and the command neither sets the channel plan nor does without I/O; otherwise it goes on as it was |
| CmdThread.DispatchIff | imx-yocto-imx6ull/meta-okmx6ull/recipes-kernel/rtl8723du/files/rtl8723DU/core/rtw_cmd.c:595-626 | in every run the thread executes the command it has taken exactly if there is a handler, the thread is running, and the hardware is up or the command sets the channel plan or does without I/O; otherwise it fails and its payload is freed |
| CmdThread.RunningIff | imx-yocto-imx6ull/meta-okmx6ull/recipes-kernel/rtl8723du/files/rtl8723DU/core/rtw_cmd.c:548-705 | in every run the thread counts as running exactly from its first step to the one with which it stops taking commands |
| CmdThread.ExecuteEnds | imx-yocto-imx6ull/meta-okmx6ull/recipes-kernel/rtl8723du/files/rtl8723DU/core/rtw_cmd.c:628-659 | an execution ends with the verdict of the handler, or with the command back at the head of the queue, and that only with power save built in and a command that does I/O |
| CmdThread.StopsAtTests | imx-yocto-imx6ull/meta-okmx6ull/recipes-kernel/rtl8723du/files/rtl8723DU/core/rtw_cmd.c:558-581 | at each of its tests the thread stops exactly if the driver cannot run |
| CmdThread.WaitEnds | imx-yocto-imx6ull/meta-okmx6ull/recipes-kernel/rtl8723du/files/rtl8723DU/core/rtw_cmd.c:553-557 | an interrupted wait stops the thread, one that ends otherwise takes one count |
| CmdThread.DrainDrops | imx-yocto-imx6ull/meta-okmx6ull/recipes-kernel/rtl8723du/files/rtl8723DU/core/rtw_cmd.c:704-735 | a command found in the queue of a stopped thread is dropped and fails, and its payload is freed |
| CmdThread.ChangesAccessed | imx-yocto-imx6ull/meta-okmx6ull/recipes-kernel/rtl8723du/files/rtl8723DU/core/rtw_cmd.c:255-742 | no step changes an object, a payload or a completion record that it does not count as accessed |
| CmdThread.PayloadsAtExit | imx-yocto-imx6ull/meta-okmx6ull/recipes-kernel/rtl8723du/files/rtl8723DU/core/rtw_cmd.c:704-735 | after the exit of the thread a payload is left over iff its command is still queued, which is so iff it was inserted when the thread was gone already; its submitter had then passed the filter before the thread stopped |
| CmdThread.NothingLeft | imx-yocto-imx6ull/meta-okmx6ull/recipes-kernel/rtl8723du/files/rtl8723DU/core/rtw_cmd.c:459-518 | with filter and insertion not torn apart by the stopping thread, every payload is freed, and the command objects left are exactly those whose callback keeps them on failure and was called after a failure outside the drain |
| CmdThread.LeakyRun | imx-yocto-imx6ull/meta-okmx6ull/recipes-kernel/rtl8723du/files/rtl8723DU/core/rtw_cmd.c:459-479 | a run in which a submitter between filter and insertion outlives the thread and its payload leaks |
| CmdThread.WakeUpIff | imx-yocto-imx6ull/meta-okmx6ull/recipes-kernel/rtl8723du/files/rtl8723DU/core/rtw_cmd.c:552-642 | in every run of either build: what a thread blocked on the semaphore has queued, less what the semaphore counts and submitters are about to raise, is the counts it took less the commands it let go of and the ups from elsewhere; so all is covered exactly if it took no more than those two together |
| CmdThread.UpSpent | imx-yocto-imx6ull/meta-okmx6ull/recipes-kernel/rtl8723du/files/rtl8723DU/core/rtw_cmd.c:552-576 | an up that finds the thread blocked and the queue empty is used up by one round that changes nothing |
| CmdThread.UpCovers | imx-yocto-imx6ull/meta-okmx6ull/recipes-kernel/rtl8723du/files/rtl8723DU/core/rtw_cmd.c:552-576 | an up that finds exactly one count missing covers everything queued |
| CmdThread.NoLostWakeUp | imx-yocto-imx6ull/meta-okmx6ull/recipes-kernel/rtl8723du/files/rtl8723DU/core/rtw_cmd.c:552-590 | so in every run that puts no command back, a thread blocked with commands queued is about to be woken |
| CmdThread.LostWakeUpRun | imx-yocto-imx6ull/meta-okmx6ull/recipes-kernel/rtl8723du/files/rtl8723DU/core/rtw_cmd.c:632-642 | with the re-queue, a run in which the thread blocks while the command it took the count for is queued again |
| CmdThread.KeepsInv | imx-yocto-imx6ull/meta-okmx6ull/recipes-kernel/rtl8723du/files/rtl8723DU/core/rtw_cmd.c:530-742 | every step of a submitter, of the thread and of the environment keeps the invariant |
| CmdThread.KeepsSub | imx-yocto-imx6ull/meta-okmx6ull/recipes-kernel/rtl8723du/files/rtl8723DU/core/rtw_cmd.c:1273-1286 | every step of a submitter keeps the invariant: filter, insertion, waiting, withdrawing the completion record under the mutex; `CmdThread.FilterIff` says which commands the filter lets through |
| CmdThread.KeepsServe | imx-yocto-imx6ull/meta-okmx6ull/recipes-kernel/rtl8723du/files/rtl8723DU/core/rtw_cmd.c:595-656 | dispatch, re-queue, execution and drop keep it |
| CmdThread.KeepsSettle | imx-yocto-imx6ull/meta-okmx6ull/recipes-kernel/rtl8723du/files/rtl8723DU/core/rtw_cmd.c:659-692 | completing the record under the mutex and handing the object to its callback keep it |
| CmdThread.RunInv | imx-yocto-imx6ull/meta-okmx6ull/recipes-kernel/rtl8723du/files/rtl8723DU/core/rtw_cmd.c:530-742 | it holds in every reachable state, for any number of commands and submitters |
| BridgeRows.BucketDecided | imx-yocto-imx6ull/meta-okmx6ull/recipes-kernel/rtl8723du/files/rtl8723DU/core/rtw_br_ext.c:327-377 | the octets that decide the bucket, for each protocol type: addresses that agree on them share it |
| BridgeRows.HashIs | imx-yocto-imx6ull/meta-okmx6ull/recipes-kernel/rtl8723du/files/rtl8723DU/core/rtw_br_ext.c:327-377 | the bucket is the low four bits of the exclusive or of those octets |
| BridgeRows.ActsAsMap | imx-yocto-imx6ull/meta-okmx6ull/recipes-kernel/rtl8723du/files/rtl8723DU/core/rtw_br_ext.c:412-521 | the buckets act as one map: an operation changes the entry of every address as its effect on that address alone says, and keeps every bucket sound |
| BridgeRows.RunsAsMap | imx-yocto-imx6ull/meta-okmx6ull/recipes-kernel/rtl8723du/files/rtl8723DU/core/rtw_br_ext.c:412-725 | the same over every run of insertions, lookups, ageing passes and cleanups |
| BridgeRows.InsertReads | imx-yocto-imx6ull/meta-okmx6ull/recipes-kernel/rtl8723du/files/rtl8723DU/core/rtw_br_ext.c:486-521 | what every address reads as after an insertion: the one inserted with its MAC and the time, its use count as it was or 1, any other as before |
| BridgeRows.LookupReads | imx-yocto-imx6ull/meta-okmx6ull/recipes-kernel/rtl8723du/files/rtl8723DU/core/rtw_br_ext.c:412-483 | a lookup adds one to the use count of its address if that was used less than 300 seconds ago, and changes nothing else |
| BridgeRows.ExpireReads | imx-yocto-imx6ull/meta-okmx6ull/recipes-kernel/rtl8723du/files/rtl8723DU/core/rtw_br_ext.c:640-725 | an ageing pass leaves every address used less than 300 seconds ago as it is; it takes one off the use count of any other, or the entry if that was its last |
| BridgeRows.StaysWhileFresh | imx-yocto-imx6ull/meta-okmx6ull/recipes-kernel/rtl8723du/files/rtl8723DU/core/rtw_br_ext.c:640-725 | an address stays in the table with its MAC, its use count never falling, in every run that happens within 300 seconds of its last use and does not empty the table or renew it |
| BridgeRows.InsertedStays | imx-yocto-imx6ull/meta-okmx6ull/recipes-kernel/rtl8723du/files/rtl8723DU/core/rtw_br_ext.c:486-521 | in particular one that has just been inserted |
| BridgeRows.AgeGet | imx-yocto-imx6ull/meta-okmx6ull/recipes-kernel/rtl8723du/files/rtl8723DU/core/rtw_br_ext.c:640-725 | an ageing pass over a bucket ages what is found in it and drops what is used up |
| BridgeRows.GoneAfterUseCountPasses | imx-yocto-imx6ull/meta-okmx6ull/recipes-kernel/rtl8723du/files/rtl8723DU/core/rtw_br_ext.c:640-725 | an expired entry that is not renewed stays for exactly as many ageing passes as its use count says, whatever else happens; lookups do not prolong its stay |
| BridgeRows.StaysGone | imx-yocto-imx6ull/meta-okmx6ull/recipes-kernel/rtl8723du/files/rtl8723DU/core/rtw_br_ext.c:412-521 | an address that is gone stays away until it is inserted again |
| BridgeDb.Link | imx-yocto-imx6ull/meta-okmx6ull/recipes-kernel/rtl8723du/files/rtl8723DU/core/rtw_br_ext.c:379-393 | an entry becomes the head of its chain, every `pprev_hash` again names the slot that points at its entry, other buckets are untouched |
| BridgeDb.Unlink | imx-yocto-imx6ull/meta-okmx6ull/recipes-kernel/rtl8723du/files/rtl8723DU/core/rtw_br_ext.c:396-409 | an entry leaves its chain wherever it is in it, the others stay linked in order |
| BridgeDb.Walk | imx-yocto-imx6ull/meta-okmx6ull/recipes-kernel/rtl8723du/files/rtl8723DU/core/rtw_br_ext.c:418-421 | the walk over a chain ends, at the entry with the address or behind the last one |
| BridgeDb.Bridge.constructor | imx-yocto-imx6ull/meta-okmx6ull/recipes-kernel/rtl8723du/files/rtl8723DU/core/rtw_br_ext.c:611-638 | an empty database |
| BridgeDb.Bridge.Insert | imx-yocto-imx6ull/meta-okmx6ull/recipes-kernel/rtl8723du/files/rtl8723DU/core/rtw_br_ext.c:486-521 | keeps all chains sound and acts on the table as an insertion: an address that is there gets the MAC and the age of now, with its place and use count unchanged; one that is not comes first in its bucket, used once |
| BridgeDb.Bridge.Lookup | imx-yocto-imx6ull/meta-okmx6ull/recipes-kernel/rtl8723du/files/rtl8723DU/core/rtw_br_ext.c:412-483 | returns 1 iff the address is there, puts its MAC into the frame iff it was also used less than 300 seconds ago, and then counts the use |
| BridgeDb.Bridge.ExpireOne | imx-yocto-imx6ull/meta-okmx6ull/recipes-kernel/rtl8723du/files/rtl8723DU/core/rtw_br_ext.c:640-725 | one entry: left alone if it was used less than 300 seconds ago, otherwise counted down, or unlinked when its count runs out, with the walk standing at its successor |
| BridgeDb.Bridge.Expire | imx-yocto-imx6ull/meta-okmx6ull/recipes-kernel/rtl8723du/files/rtl8723DU/core/rtw_br_ext.c:640-725 | keeps all chains sound and acts as an ageing pass over every bucket; `BridgeRows.ExpireReads` says what that does to an address |
| BridgeDb.Bridge.Drop | imx-yocto-imx6ull/meta-okmx6ull/recipes-kernel/rtl8723du/files/rtl8723DU/core/rtw_br_ext.c:709-715 | an entry that goes takes the cached pointer with it if that points at it, and nothing else |
| BridgeDb.Bridge.Cleanup | imx-yocto-imx6ull/meta-okmx6ull/recipes-kernel/rtl8723du/files/rtl8723DU/core/rtw_br_ext.c:611-638 | leaves an empty database and no cached pointer |
| BridgeDb.Bridge.Cache | imx-yocto-imx6ull/meta-okmx6ull/recipes-kernel/rtl8723du/files/rtl8723DU/core/rtw_xmit.c:4203-4213 | the sender is found and remembered, and its entry refreshed; the pointer is null if it is not there |
| BridgeDb.Bridge.RefreshCached | imx-yocto-imx6ull/meta-okmx6ull/recipes-kernel/rtl8723du/files/rtl8723DU/core/rtw_xmit.c:4182-4184 | the cached pointer never dangles, so refreshing through it is refreshing the entry of its address |
| BridgeDb.RemembersOn | imx-yocto-imx6ull/meta-okmx6ull/recipes-kernel/rtl8723du/files/rtl8723DU/core/rtw_br_ext.c:640-725 | over any number of ageing steps the cached pointer stays as it is, or is wiped because the address of its entry has left the table |
| PppoeRelay.Frame.Find | imx-yocto-imx6ull/meta-okmx6ull/recipes-kernel/rtl8723du/files/rtl8723DU/core/rtw_br_ext.c:86-101 | the first header with the type of a relay tag that the walk from tag to tag comes to, for any octets of which it reads no header behind the buffer |
| PppoeRelay.FindCarried | imx-yocto-imx6ull/meta-okmx6ull/recipes-kernel/rtl8723du/files/rtl8723DU/core/rtw_br_ext.c:86-101 | in a frame whose tags fill the declared length that is the start of the first relay tag, nothing if there is none |
| PppoeRelay.FirstTagAt | imx-yocto-imx6ull/meta-okmx6ull/recipes-kernel/rtl8723du/files/rtl8723DU/core/rtw_br_ext.c:86-121 | how a frame shows its tags: their length in octets 18 and 19, then type and length of the first in network order, its value, and the others |
| PppoeRelay.SessionIs | imx-yocto-imx6ull/meta-okmx6ull/recipes-kernel/rtl8723du/files/rtl8723DU/core/rtw_br_ext.c:1129-1170 | the session is the value of the first tag with type 0110, and the other tags are those without it |
| PppoeRelay.Frame.PullAndMerge | imx-yocto-imx6ull/meta-okmx6ull/recipes-kernel/rtl8723du/files/rtl8723DU/core/rtw_br_ext.c:123-142 | cuts a stretch out of the octets in use, or leaves the frame alone if it does not lie inside |
| PppoeRelay.Frame.Add | imx-yocto-imx6ull/meta-okmx6ull/recipes-kernel/rtl8723du/files/rtl8723DU/core/rtw_br_ext.c:104-121 | the tag comes in front of all others with the length made to fit, or the frame is left alone for want of room; the room is what the host reads from the length |
| PppoeRelay.Frame.RelayRequest | imx-yocto-imx6ull/meta-okmx6ull/recipes-kernel/rtl8723du/files/rtl8723DU/core/rtw_br_ext.c:1129-1170 | succeeds iff the host is big-endian, the old session has at most 28 octets and there is room; then the tags begin with 01 10, the length, 81 86, the source address of the frame and the old session, and the other tags are as before |
| PppoeRelay.Frame.RelayReply | imx-yocto-imx6ull/meta-okmx6ull/recipes-kernel/rtl8723du/files/rtl8723DU/core/rtw_br_ext.c:1200-1243 | succeeds iff the first relay tag has eight octets or more and begins with 81 86; then the frame goes to the address in it, the session without the stamp is in its place, other tags, other headers and padding are the same |
| PppoeRelay.RoundTrip | imx-yocto-imx6ull/meta-okmx6ull/recipes-kernel/rtl8723du/files/rtl8723DU/core/rtw_br_ext.c:1129-1243 | the reply branch undoes the request branch: whatever tags surround the echoed relay tag, the reply goes to the client with its own tag |
| PppoeRelay.RestoredIff | imx-yocto-imx6ull/meta-okmx6ull/recipes-kernel/rtl8723du/files/rtl8723DU/core/rtw_br_ext.c:1129-1243 | the session always comes back; the tag itself does not iff it was there and empty |
| PppoeRelay.EmptyTagLost | imx-yocto-imx6ull/meta-okmx6ull/recipes-kernel/rtl8723du/files/rtl8723DU/core/rtw_br_ext.c:1129-1243 | a client with an empty relay tag gets none back |
| PppoeRelay.Exchange | imx-yocto-imx6ull/meta-okmx6ull/recipes-kernel/rtl8723du/files/rtl8723DU/core/rtw_br_ext.c:1129-1243 | both branches in a row on two frames |
| DhcpBcast.FlagBroadcast | imx-yocto-imx6ull/meta-okmx6ull/recipes-kernel/rtl8723du/files/rtl8723DU/core/rtw_br_ext.c:1517-1556 | changes nothing unless the frame is a DHCP request without the flag; then sets the flag, writes the recalculated checksum, and changes no other octet |
| DhcpBcast.ChangedIff | imx-yocto-imx6ull/meta-okmx6ull/recipes-kernel/rtl8723du/files/rtl8723DU/core/rtw_br_ext.c:1517-1540 | which frames are changed: IPv4, UDP from port 68 to port 67, the cookie 63 82 53 63, and the highest bit of the flags clear, each at its octet |
| DhcpBcast.FlaggedIs | imx-yocto-imx6ull/meta-okmx6ull/recipes-kernel/rtl8723du/files/rtl8723DU/core/rtw_br_ext.c:1540-1548 | what is changed: that bit, and the checksum, which becomes the one number below 65535 that adds up with the new flags to the old checksum |
| DhcpBcast.FoldsToOnesIff | imx-yocto-imx6ull/meta-okmx6ull/recipes-kernel/rtl8723du/files/rtl8723DU/core/rtw_br_ext.c:1546-1547 | a checksum is right exactly if the folded sum is 65535 |
| DhcpBcast.Fold | imx-yocto-imx6ull/meta-okmx6ull/recipes-kernel/rtl8723du/files/rtl8723DU/core/rtw_br_ext.c:1546-1547 | the loop that folds the carry ends, with the remainder modulo 65535, all ones for a multiple of it |
| DhcpBcast.StaysRightIff | imx-yocto-imx6ull/meta-okmx6ull/recipes-kernel/rtl8723du/files/rtl8723DU/core/rtw_br_ext.c:1542-1548 | a right checksum stays right exactly when all flags were zero |
| DhcpBcast.ChecksumSpoilt | imx-yocto-imx6ull/meta-okmx6ull/recipes-kernel/rtl8723du/files/rtl8723DU/core/rtw_br_ext.c:1542-1548 | a request with a right checksum whose checksum is wrong after the update |
| DhcpBcast.AcceptedIff | imx-yocto-imx6ull/meta-okmx6ull/recipes-kernel/rtl8723du/files/rtl8723DU/core/rtw_br_ext.c:1542-1548 | exactly which flagged requests a receiver still takes, with those without a checksum included |
| DhcpBcast.EitherOrder | imx-yocto-imx6ull/meta-okmx6ull/recipes-kernel/rtl8723du/files/rtl8723DU/core/rtw_br_ext.c:1542-1548 | whether the checksum is right does not depend on the byte order of the host that sums up |
| ApStations.JoinedIff | imx-yocto-imx6ull/meta-okmx6ull/recipes-kernel/rtl8723du/files/rtl8723DU/core/rtw_ap.c:3540-3734 | after a join the marks of a station are those it deserves exactly if it brought no HT mark along that it no longer deserves; always at its first join |
| ApStations.JoinedMarks | imx-yocto-imx6ull/meta-okmx6ull/recipes-kernel/rtl8723du/files/rtl8723DU/core/rtw_ap.c:3540-3734 | mark by mark, which a station has after a join |
| ApStations.Ap.constructor | imx-yocto-imx6ull/meta-okmx6ull/recipes-kernel/rtl8723du/files/rtl8723DU/core/rtw_ap.c:4114-4179 | no stations, all counters zero, nothing announced, operation mode zero, coexistence flags clear, 40 MHz not given up |
| ApStations.Ap.HtOperationUpdate | imx-yocto-imx6ull/meta-okmx6ull/recipes-kernel/rtl8723du/files/rtl8723DU/core/rtw_ap.c:3437-3506 | the mode becomes 3 if there are stations without HT, otherwise 2 if the access point does 40 MHz and there are stations that do not, otherwise 1 if there is an overlapping legacy BSS, otherwise 0; the bits for non-greenfield and non-HT stations likewise; the result is 0 iff nothing of that is new |
| ApStations.Ap.AdjustErp | imx-yocto-imx6ull/meta-okmx6ull/recipes-kernel/rtl8723du/files/rtl8723DU/core/rtw_ap.c:3590-3614 | updating at the edges of the count only keeps both bits equal to whether there is a non-ERP station |
| ApStations.Ap.Join | imx-yocto-imx6ull/meta-okmx6ull/recipes-kernel/rtl8723du/files/rtl8723DU/core/rtw_ap.c:3540-3734 | keeps every counter equal to the number of stations with its mark; the station has the marks of a join; both ERP bits say whether some station carries `NonErp`; with HT on, the mode is 3 iff some station carries `NoHt`, 2 iff none does and some carries `Ht20` with 40 MHz on, 1 iff neither and `olbc_ht`, otherwise 0; the Barker bit is right afterwards iff the first or last non-ERP station came or went, or it was right and there was no such edge for long preambles, or it was wrong and there was one; the HT operation element is written iff the operation mode changes, and offers 40 MHz rightly iff that is so or it did before and nothing about 40 MHz has changed, or it did not and something has; the whole beacon is sent again exactly when a counter that matters leaves zero or comes back to it, or the HT mode changes |
| ApStations.Ap.BarkerRightIff | imx-yocto-imx6ull/meta-okmx6ull/recipes-kernel/rtl8723du/files/rtl8723DU/core/rtw_ap.c:3021-3053 | over every run of joins and leaves: the Barker bit says whether there are stations with long preambles exactly if that is now as it was at the last 0/1 edge of the count of non-ERP stations, or at the start |
| ApStations.Ap.BarkerOfStations | imx-yocto-imx6ull/meta-okmx6ull/recipes-kernel/rtl8723du/files/rtl8723DU/core/rtw_ap.c:3021-3053 | the same in terms of the stations that carry the mark |
| ApStations.Ap.Leave | imx-yocto-imx6ull/meta-okmx6ull/recipes-kernel/rtl8723du/files/rtl8723DU/core/rtw_ap.c:3736-3828 | the same for a leave, the Barker bit and the width included, whatever marks the station had; it goes without marks, and no other station is touched |
| ApStations.Ap.ClearIntolerant | imx-yocto-imx6ull/meta-okmx6ull/recipes-kernel/rtl8723du/files/rtl8723DU/core/rtw_ap.c:3793-3799 | a station with the mark is counted, so the warning is never reached |
| ApStations.Ap.Coex | imx-yocto-imx6ull/meta-okmx6ull/recipes-kernel/rtl8723du/files/rtl8723DU/core/rtw_ap.c:3336-3394 | a coexistence frame may set one mark and two flags; it leaves operation mode and ERP bits alone; the HT operation element is written iff one of those three is new, and its width is right afterwards iff it is written or was right |
| ApStations.Ap.UpdateHtElement | imx-yocto-imx6ull/meta-okmx6ull/recipes-kernel/rtl8723du/files/rtl8723DU/core/rtw_ap.c:3061-3140 | writes the operation mode into the element and chooses width and secondary channel: 40 MHz are given up as soon as they are ruled out, and come back only if they no longer are and the BSS is set up for them |
| ApStations.Ap.WrittenSays | imx-yocto-imx6ull/meta-okmx6ull/recipes-kernel/rtl8723du/files/rtl8723DU/core/rtw_ap.c:3061-3140 | what the element says after a join, leave or coexistence frame that writes it |
| ApStations.Ap.WidthRightIff | imx-yocto-imx6ull/meta-okmx6ull/recipes-kernel/rtl8723du/files/rtl8723DU/core/rtw_ap.c:3061-3140 | over every run of joins, leaves and coexistence frames: the element gives 40 MHz up rightly exactly if they are ruled out, or not, now as when it was last written; what rules them out is a station that carries `Intolerant40`, a request for 20 MHz, a report, or an overlapping legacy BSS |
| ApStations.WidthLags | imx-yocto-imx6ull/meta-okmx6ull/recipes-kernel/rtl8723du/files/rtl8723DU/core/rtw_ap.c:3653-3712 | a run after which a station that does not tolerate 40 MHz is counted and the beacon still offers them |
| ApStations.BarkerLags | imx-yocto-imx6ull/meta-okmx6ull/recipes-kernel/rtl8723du/files/rtl8723DU/core/rtw_ap.c:3021-3053 | a run after which a station with long preambles is counted but the Barker bit is clear |
| ApStations.MarkLags | imx-yocto-imx6ull/meta-okmx6ull/recipes-kernel/rtl8723du/files/rtl8723DU/core/rtw_ap.c:3653-3694 | a run after which a station that has joined again is still marked for what it no longer is |
| Sounding.Scheduler.constructor | imx-yocto-imx6ull/meta-okmx6ull/recipes-kernel/rtl8723du/files/rtl8723DU/core/rtw_beamforming.c:581-590 | a valid scheduler with nothing listed, nothing on the agenda and no entry in use |
| Sounding.Scheduler.ResetVars | imx-yocto-imx6ull/meta-okmx6ull/recipes-kernel/rtl8723du/files/rtl8723DU/core/rtw_beamforming.c:593-623 | the lists are empty; entries in use that were sounding are neither sounding nor candidates any more, and all else about the entries stays, timeout flags included |
| Sounding.Scheduler.GetList | imx-yocto-imx6ull/meta-okmx6ull/recipes-kernel/rtl8723du/files/rtl8723DU/core/rtw_beamforming.c:625-710 | lists exactly the first due entries of each kind, in order of index, counts all others down, and returns 0 iff something is listed |
| Sounding.Scheduler.Resume | imx-yocto-imx6ull/meta-okmx6ull/recipes-kernel/rtl8723du/files/rtl8723DU/core/rtw_beamforming.c:712-859 | behind the start of a period: what has been started and what is left to start, together, stay the plan; one more is started, or the period ends; the calls back and forth end because each starts one more SU entry |
| Sounding.Scheduler.SoundingDown | imx-yocto-imx6ull/meta-okmx6ull/recipes-kernel/rtl8723du/files/rtl8723DU/core/rtw_beamforming.c:1496-1555 | the same for the end of a sounding; its early return is never taken, the failure count of the entry is judged and no other count changes |
| Sounding.Scheduler.TimeoutTimer | imx-yocto-imx6ull/meta-okmx6ull/recipes-kernel/rtl8723du/files/rtl8723DU/core/rtw_beamforming.c:927-957 | the sounding under way is given up, its entry marked, and nothing else happens until the handler runs |
| Sounding.Scheduler.Judge | imx-yocto-imx6ull/meta-okmx6ull/recipes-kernel/rtl8723du/files/rtl8723DU/core/rtw_beamforming.c:1514-1548 | the failure count of the entry goes up or back to zero, and a LEAVE is asked for if it comes to 31; `Sounding.FailuresInARow` says when that is |
| Sounding.Scheduler.Handler | imx-yocto-imx6ull/meta-okmx6ull/recipes-kernel/rtl8723du/files/rtl8723DU/core/rtw_beamforming.c:712-859 | from INIT, the plan of the period is begun; with an empty plan the period is over, and the scheduler stops unless some entry is not ready and this is not the sixth such period in a row |
| Sounding.Scheduler.Finish | imx-yocto-imx6ull/meta-okmx6ull/recipes-kernel/rtl8723du/files/rtl8723DU/core/rtw_beamforming.c:927-957 | one sounding ends by a result or by its timer, and a result that comes between timer and handler changes nothing |
| Sounding.Period | imx-yocto-imx6ull/meta-okmx6ull/recipes-kernel/rtl8723du/files/rtl8723DU/core/rtw_beamforming.c:712-859 | one period, for every mix of success, failure and timeout: the plan is carried out in order, nothing else is, and then the state is INIT |
| Sounding.PlanIsList | imx-yocto-imx6ull/meta-okmx6ull/recipes-kernel/rtl8723du/files/rtl8723DU/core/rtw_beamforming.c:625-710 | the plan has every listed SU entry once, in list order, and all listed MU entries once together at its end |
| Sounding.SoundIff | imx-yocto-imx6ull/meta-okmx6ull/recipes-kernel/rtl8723du/files/rtl8723DU/core/rtw_beamforming.c:625-710 | which entries are sounded alone: in use, added, SU and not MU, asking for it, not suspended, not to be deleted, with a count of at most one, and fewer than two that are so or are to be deleted in front of them |
| Sounding.DeleteIff | imx-yocto-imx6ull/meta-okmx6ull/recipes-kernel/rtl8723du/files/rtl8723DU/core/rtw_beamforming.c:625-710 | which are deleted: the same without asking, suspended or not |
| Sounding.TogetherIff | imx-yocto-imx6ull/meta-okmx6ull/recipes-kernel/rtl8723du/files/rtl8723DU/core/rtw_beamforming.c:625-710 | the group has, in order, exactly the entries in use, added, MU, asking for it, with a count of at most one, and fewer than six such in front of them |
| Sounding.GroupIff | imx-yocto-imx6ull/meta-okmx6ull/recipes-kernel/rtl8723du/files/rtl8723DU/core/rtw_beamforming.c:625-710 | there is a group exactly if there is such an entry |
| Sounding.ListedIs | imx-yocto-imx6ull/meta-okmx6ull/recipes-kernel/rtl8723du/files/rtl8723DU/core/rtw_beamforming.c:625-710 | what listing does to an entry: the count goes down by one, or starts again from its period in eight bits with the entry a candidate; an entry not in use or not added stays as it is |
| Sounding.RoomIff | imx-yocto-imx6ull/meta-okmx6ull/recipes-kernel/rtl8723du/files/rtl8723DU/core/rtw_beamforming.c:625-710 | a list has room for an entry exactly if fewer than six, or two, ask for a place before it |
| Sounding.FailuresInARow | imx-yocto-imx6ull/meta-okmx6ull/recipes-kernel/rtl8723du/files/rtl8723DU/core/rtw_beamforming.c:1514-1548 | a success starts the count again; of the failures in a row after it, the 31st and every 32nd after that make the driver give the entry up |
| Sounding.OneStarted | imx-yocto-imx6ull/meta-okmx6ull/recipes-kernel/rtl8723du/files/rtl8723DU/core/rtw_beamforming.c:783-800 | starting the first open entry takes its event off the agenda and leaves the rest |
| Rsne.WalkEncoded | imx-yocto-imx6ull/meta-okmx6ull/recipes-kernel/rtl8723du/files/rtl8723DU/core/rtw_ieee80211.c:787-884 | an encoding cut behind any complete field is read back field by field |
| Rsne.AcceptIff | imx-yocto-imx6ull/meta-okmx6ull/recipes-kernel/rtl8723du/files/rtl8723DU/core/rtw_ieee80211.c:787-884 | exactly which octets are accepted: encoded fields, then nothing, a count of zero or without its list at the very end, or anything behind all six fields |
| Rsne.VerdictIff | imx-yocto-imx6ull/meta-okmx6ull/recipes-kernel/rtl8723du/files/rtl8723DU/core/rtw_ieee80211.c:787-884 | the same from the octets alone: with the counts that stand in them, the lengths at which an element may end |
| Rsne.RecordIs | imx-yocto-imx6ull/meta-okmx6ull/recipes-kernel/rtl8723du/files/rtl8723DU/core/rtw_ieee80211.c:787-884 | on any input, where the suites and the capabilities are recorded, from the octets alone |
| Rsne.FieldsInOrder | imx-yocto-imx6ull/meta-okmx6ull/recipes-kernel/rtl8723du/files/rtl8723DU/core/rtw_ieee80211.c:787-884 | on any input, accepted or not, the recorded fields and lists lie inside the element, in order, without overlap |
| Rsne.RsneInfoParse | imx-yocto-imx6ull/meta-okmx6ull/recipes-kernel/rtl8723du/files/rtl8723DU/core/rtw_ieee80211.c:787-884 | verdict and record of the parse, nothing for a wrong id or length |
| Rsne.ElementRecovered | imx-yocto-imx6ull/meta-okmx6ull/recipes-kernel/rtl8723du/files/rtl8723DU/core/rtw_ieee80211.c:787-884 | a whole element built from its fields, cut anywhere, is taken apart again |
| Rsne.InfoInside | imx-yocto-imx6ull/meta-okmx6ull/recipes-kernel/rtl8723du/files/rtl8723DU/core/rtw_ieee80211.c:787-884 | all six fields and lists that the record points at can be read without leaving the element |
| Rsne.ParseWpa2Ie | imx-yocto-imx6ull/meta-okmx6ull/recipes-kernel/rtl8723du/files/rtl8723DU/core/rtw_ieee80211.c:886-923 | succeeds iff the parse does, with the group flag, the union of the pairwise flags and of the AKM bits, and the protection option of the record |
| Rsne.MeaningRecovered | imx-yocto-imx6ull/meta-okmx6ull/recipes-kernel/rtl8723du/files/rtl8723DU/core/rtw_ieee80211.c:886-923 | for an element built from its fields, cut anywhere, the result has the flag of its group suite, the union over its pairwise suites, the union over its AKM suites and its protection option, each empty or zero if the element ends before it |
| Rsne.FlagsOfSuites | imx-yocto-imx6ull/meta-okmx6ull/recipes-kernel/rtl8723du/files/rtl8723DU/core/rtw_ieee80211.c:899-921 | the union of the flags over a list is that over the suites that were encoded |
| Rsne.CipherIs | imx-yocto-imx6ull/meta-okmx6ull/recipes-kernel/rtl8723du/files/rtl8723DU/core/rtw_ieee80211.c:660-676 | which of the selectors 00-0F-AC:0 to 5 stands for which cipher flag, and that no other selector sets one |
| Rsne.AkmIs | imx-yocto-imx6ull/meta-okmx6ull/recipes-kernel/rtl8723du/files/rtl8723DU/core/rtw_ieee80211.c:678-713 | which selector sets which of the fifteen AKM bits |
| Rsne.WholeElement | imx-yocto-imx6ull/meta-okmx6ull/recipes-kernel/rtl8723du/files/rtl8723DU/core/rtw_ieee80211.c:886-923 | a whole element, octet by octet, is accepted and gives the flag of its group suite, those of its pairwise suites, the bits of its AKM suites, and the top two bits of the first octet of its capabilities |
| ChannelGroup.NotTransitive | imx-yocto-imx6ull/meta-okmx6ull/recipes-kernel/rtl8723du/files/rtl8723DU/core/rtw_ieee80211.c:1908-1928 | grouped with the same third setting does not mean grouped |
| ChannelGroup.GetOffset | imx-yocto-imx6ull/meta-okmx6ull/recipes-kernel/rtl8723du/files/rtl8723DU/core/rtw_wlan_util.c:468-538 | valid iff the channel has a secondary one at that bandwidth; the wanted position is kept if it is possible |
| ChannelGroup.PositionsIs | imx-yocto-imx6ull/meta-okmx6ull/recipes-kernel/rtl8723du/files/rtl8723DU/core/rtw_wlan_util.c:468-538 | which channels have a secondary one above or below, by their numbers |
| ChannelGroup.Sync | imx-yocto-imx6ull/meta-okmx6ull/recipes-kernel/rtl8723du/files/rtl8723DU/core/rtw_ieee80211.c:1938-1986 | the request obeys the group; the group keeps its channel and, if it has one, its position, and never gets narrower |
| ChannelGroup.SyncAll | imx-yocto-imx6ull/meta-okmx6ull/recipes-kernel/rtl8723du/files/rtl8723DU/core/rtw_ieee80211.c:1938-1986 | folded over any requests: each obeys the union of those before it, all of them end up grouped with each other and with the union, which is the old group or one of them |
| ChannelGroup.ObeyingIs | imx-yocto-imx6ull/meta-okmx6ull/recipes-kernel/rtl8723du/files/rtl8723DU/core/rtw_ieee80211.c:1938-1986 | what each request becomes: a wide one keeps its bandwidth in the position of a wide group or in the one its channel allows, 80 MHz becoming 40 MHz on channel 14 and below; 20 MHz only for want of a position |
| ChannelGroup.AllKeepWidth | imx-yocto-imx6ull/meta-okmx6ull/recipes-kernel/rtl8723du/files/rtl8723DU/core/rtw_ieee80211.c:1938-1986 | on a channel that has a secondary one every request keeps its bandwidth but for 80 MHz on channel 14 and below, all wide ones in one position, and the union is no narrower than any |
| ChannelGroup.FollowsOn | imx-yocto-imx6ull/meta-okmx6ull/recipes-kernel/rtl8723du/files/rtl8723DU/core/rtw_ieee80211.c:1938-1986 | what followed the group before it got wider follows it still |
| ChannelGroup.ExistsIff | imx-yocto-imx6ull/meta-okmx6ull/recipes-kernel/rtl8723du/files/rtl8723DU/core/rtw_ieee80211.c:1938-1986 | exactly when what comes out is a setting that exists: unless a wide request with a position of its own obeys a 20 MHz group on a channel without a secondary one |
| ChannelGroup.FortyOnChannel14 | imx-yocto-imx6ull/meta-okmx6ull/recipes-kernel/rtl8723du/files/rtl8723DU/core/rtw_ieee80211.c:1938-1986 | such a request |
| ChannelGroup.ClampAll | imx-yocto-imx6ull/meta-okmx6ull/recipes-kernel/rtl8723du/files/rtl8723DU/core/rtw_ap.c:4902-4913 | clamping the interfaces to the union keeps them grouped with it and with each other, none of them wider than before |

## Left out

- ElementSearch.GetIeEx: asks that the comparisons it comes to stay in the buffer, because the driver compares without looking at a length.
- ElementSearch.RemoveIe: asks the same of the comparisons of the loop.
- VendorAttrs.WalkAttrs: has no result on inputs on which the driver's loop does not end; which those are is `AttrWalk.EndsIff`.
- VendorAttrs.DelKindAttr: has no result where one of its searches does not end; which those are is `AttrWalk.PruneEndsIff`.
- BeaconIes.AddBcnIe: asks that the elements fit into the buffer, because the driver does not test it.
- BeaconIes.UpdateBcnTim: asks that the place for a new TIM lies within the elements, because behind them the driver's unsigned remainder is nearly 2^32, and what an allocation of that size does is not part of this model.
- BeaconIes.TimComesFourth: does not cover other orders of the first elements; `BeaconIes.UpdateBcnTim` does, as octets.
- CmdThread.NoStaleAccess: has one adapter and one mutex, starts the thread once, and takes a wait and its timeout as possible at any time.
- CmdThread.NothingLeft: takes the handlers as not freeing payloads, and names no callback but the one that keeps the object when it fails.
- CmdThread.FirstInFirstOut: is about a state machine on values, not on the linked list of `_queue`, because its steps interleave.
- BridgeDb.Bridge.Expire: takes time as unbounded and allocation as successful.
- PppoeRelay.Frame.RelayRequest: on a little-endian host it covers frames without room for the length as read; with that much room the copy would run over the end of the tag's buffer, which has no meaning in the model.
- PppoeRelay.Frame.Find: asks that the headers it reads lie in the buffer, because the driver's walk does not look at the end of the frame.
- DhcpBcast.FlagBroadcast: asks that the octets it tests lie in the frame, because the driver does not look at its length.
- ApStations.Ap.Join: has the fields of the HT operation mode as a record instead of bits of one number, one flag for ERP being enabled, advertised and present, and a channel that does not change; `olbc` and `olbc_ht` are read and never set.
- ApStations.Ap.Coex: leaves out the bandwidth of the station that `associated_stainfo_update` narrows.
- ApStations.Ap.Leave: leaves out security, power save and queues of the station; the reset of the count of stations without HT by `rtw_ap_check_scan` (`core/rtw_ap.c:1531`) is not a step of the model.
- Sounding.Period: is a period without enter, leave, forced stop or scan; frames, timers and firmware commands are events in a log.
- ChannelGroup.SyncAll: takes requests of 20, 40 and 80 MHz; other bandwidths go through `ChannelGroup.Sync` with a warning in the driver.
- ChannelGroup.ClampAll: leaves out the adjustment for mesh interfaces.
- The deletion of whole P2P and WFD elements, `rtw_get_p2p_attr_content` and the merged forms, which use the same walks.
- IPX, AppleTalk, IPv6 and multicast branches of `nat25_db_handle`, which use the same lookup and insertion; PPPoE without relay tags.
- Beamforming entries, register maps, frame building and version 1; HAL, timers, logging, firmware, power save and BT coexistence.
- Channel plan tables, EEPROM, register I/O lists, U-Boot commands and Yocto recipes.
