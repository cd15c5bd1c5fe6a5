/** The broadcast flag that the bridge sets in DHCP requests, and the checksum that goes with it (rtw_br_ext.c). */
module DhcpBcast {
  import opened Bytes

  const ETH_HLEN := 14
  const UDP_HLEN := 8
  const CHECK_AT := 6
  const FLAGS_AT := 18
  const COOKIE_AT := 244
  const PSEUDO_LEN := 12

  /** Two octets as the host reads them. */
  function HostWord(big: bool, x: byte, y: byte): (w: nat)
    ensures w < 0x1_0000 && (w == 0 <==> x == 0 && y == 0)
  {
    if big then 256 * x as int + y as int else x as int + 256 * y as int
  }

  /** A number as the host stores it. */
  function HostOctets(big: bool, w: nat): (b: seq<byte>)
    requires w < 0x1_0000
    ensures |b| == 2 && HostWord(big, b[0], b[1]) == w
  {
    if big then [w / 256, w % 256] else [w % 256, w / 256]
  }

  /** The sum of all words; a last single octet counts as if a zero followed. */
  function WordSum(big: bool, b: seq<byte>): nat {
    if b == [] then 0
    else if |b| == 1 then HostWord(big, b[0], 0)
    else HostWord(big, b[0], b[1]) + WordSum(big, b[2..])
  }

  /** A checksum over `b` is right when the one's complement sum is all ones (RFC 1071, section 1). */
  predicate SumsUp(big: bool, b: seq<byte>) {
    AllOnes(WordSum(big, b))
  }

  predicate AllOnes(s: nat) {
    s > 0 && s % 0xFFFF == 0
  }

  /** The sum of every other octet. */
  function EvenOctets(b: seq<byte>): nat {
    if b == [] then 0 else if |b| == 1 then b[0] as int else b[0] as int + EvenOctets(b[2..])
  }

  lemma {:induction false} SumsSwapped(b: seq<byte>)
    ensures 256 * WordSum(true, b) == WordSum(false, b) + 0xFFFF * EvenOctets(b)
  {
    if |b| > 1 {
      SumsSwapped(b[2..]);
    }
  }

  lemma {:induction false} SumPositive(b: seq<byte>)
    ensures WordSum(true, b) > 0 <==> WordSum(false, b) > 0
  {
    if |b| > 1 {
      SumPositive(b[2..]);
    }
  }

  lemma Times256(s: nat, t: nat, k: nat)
    requires 256 * s == t + 0xFFFF * k
    ensures s % 0xFFFF == 0 <==> t % 0xFFFF == 0
  {
    if s % 0xFFFF == 0 {
      var q := s / 0xFFFF;
      assert t == 0xFFFF * (256 * q - k);
    }
    if t % 0xFFFF == 0 {
      var q := t / 0xFFFF;
      assert s == 0xFFFF * (256 * (q + k) - s);
    }
  }

  /** Whether a checksum is right does not depend on the byte order of the host that looks (RFC 1071, section 2). */
  lemma EitherOrder(b: seq<byte>)
    ensures SumsUp(true, b) <==> SumsUp(false, b)
  {
    SumsSwapped(b);
    SumPositive(b);
    Times256(WordSum(true, b), WordSum(false, b), EvenOctets(b));
  }

  lemma {:induction false} SumAppend(big: bool, x: seq<byte>, y: seq<byte>)
    requires |x| % 2 == 0
    ensures WordSum(big, x + y) == WordSum(big, x) + WordSum(big, y)
  {
    if x == [] {
      assert x + y == y;
    } else {
      assert (x + y)[2..] == x[2..] + y;
      SumAppend(big, x[2..], y);
    }
  }

  /** The one's complement sum folded into 16 bits, as the driver's loop does it. */
  method Fold(s: nat) returns (sum: nat)
    ensures sum < 0x1_0000 && sum % 0xFFFF == s % 0xFFFF && (sum == 0 <==> s == 0)
    ensures sum == Folded(s)
  {
    sum := s;
    while sum / 0x1_0000 != 0
      invariant sum % 0xFFFF == s % 0xFFFF && (sum == 0 <==> s == 0)
      decreases sum
    {
      FoldStep(sum);
      sum := sum % 0x1_0000 + sum / 0x1_0000;
    }
    FoldedUnique(s, sum);
  }

  /** What folding comes to: the remainder, with all ones for a multiple that is not zero. */
  function Folded(s: nat): (f: nat)
    ensures f < 0x1_0000 && f % 0xFFFF == s % 0xFFFF && (f == 0 <==> s == 0)
  {
    if s > 0 && s % 0xFFFF == 0 then 0xFFFF else s % 0xFFFF
  }

  lemma FoldedUnique(s: nat, f: nat)
    requires f < 0x1_0000 && f % 0xFFFF == s % 0xFFFF && (f == 0 <==> s == 0)
    ensures f == Folded(s)
  {
  }

  lemma FoldStep(s: nat)
    requires s / 0x1_0000 != 0
    ensures var t := s % 0x1_0000 + s / 0x1_0000; 0 < t < s && t % 0xFFFF == s % 0xFFFF
  {
    var q, r := s / 0x1_0000, s % 0x1_0000;
    assert s == 0xFFFF * q + (r + q);
  }

  /** The word at an even place of the covered octets. */
  function WordAt(big: bool, b: seq<byte>, k: nat): (w: nat)
    requires k + 2 <= |b|
    ensures w < 0x1_0000
  {
    HostWord(big, b[k], b[k + 1])
  }

  /** Changing the two words at `j` and `k` changes the sum by their differences. */
  lemma SumSplit(big: bool, b: seq<byte>, j: nat, k: nat)
    requires j % 2 == 0 && k % 2 == 0 && j + 2 <= k && k + 2 <= |b|
    ensures WordSum(big, b) ==
      WordSum(big, b[..j]) + WordAt(big, b, j) + WordSum(big, b[j + 2..k]) + WordAt(big, b, k) + WordSum(big, b[k + 2..])
  {
    hide *;
    SumWord(big, b, j);
    Behind(big, b, j, k);
    SumWord(big, b[j + 2..], k - j - 2);
  }

  /** What lies behind the word at `j`, seen from there. */
  lemma Behind(big: bool, b: seq<byte>, j: nat, k: nat)
    requires j % 2 == 0 && k % 2 == 0 && j + 2 <= k && k + 2 <= |b|
    ensures var c, n := b[j + 2..], k - j - 2;
      && n % 2 == 0 && n + 2 <= |c| && WordAt(big, c, n) == WordAt(big, b, k)
      && c[..n] == b[j + 2..k] && c[n + 2..] == b[k + 2..]
  {
  }

  lemma SumWord(big: bool, b: seq<byte>, k: nat)
    requires k % 2 == 0 && k + 2 <= |b|
    ensures WordSum(big, b) == WordSum(big, b[..k]) + WordAt(big, b, k) + WordSum(big, b[k + 2..])
  {
    Cut(b, k);
    SumAppend(big, b[..k], b[k..]);
    assert b[k..][2..] == b[k + 2..];
  }

  /** Where the UDP header starts: the low four bits of the first octet of the IP header count words. */
  function UdpAt(f: seq<byte>): nat
    requires |f| > ETH_HLEN
  {
    ETH_HLEN + 4 * (f[ETH_HLEN] as int % 16)
  }

  /** IPv4 and UDP, from a DHCP client to a server, with the magic cookie. */
  predicate Request(f: seq<byte>)
    requires Readable(f)
  {
    && f[12..14] == [0x08, 0x00] && f[ETH_HLEN + 9] == 17 && ToServer(f)
    && f[UdpAt(f) + COOKIE_AT..UdpAt(f) + COOKIE_AT + 4] == [0x63, 0x82, 0x53, 0x63]
  }

  /** The ports of a message from a client to a server. */
  predicate ToServer(f: seq<byte>)
    requires |f| > ETH_HLEN && UdpAt(f) + 4 <= |f|
  {
    f[UdpAt(f)..UdpAt(f) + 2] == PutBe16(68) && f[UdpAt(f) + 2..UdpAt(f) + 4] == PutBe16(67)
  }

  /** Frames are long enough for what they say they are. */
  predicate Readable(f: seq<byte>) {
    && |f| >= ETH_HLEN
    && (f[12..14] == [0x08, 0x00] ==>
      && |f| >= ETH_HLEN + 20
      && (f[ETH_HLEN + 9] == 17 ==>
        && UdpAt(f) + 4 <= |f|
        && (ToServer(f) ==> UdpAt(f) + COOKIE_AT + 4 <= |f|)))
  }

  /** The client asks for broadcasts already: the most significant bit of the flags. */
  predicate Broadcast(f: seq<byte>)
    requires Readable(f) && Request(f)
  {
    f[UdpAt(f) + FLAGS_AT] >= 128
  }

  /** The new checksum, from the old one and the new flags. */
  function NewCheck(check: nat, flags: nat): (c: nat)
    requires check < 0x1_0000 && 0 < flags < 0x1_0000
    ensures c < 0xFFFF
  {
    0xFFFF - Folded(0xFFFF - check + flags)
  }

  /** The driver's arithmetic on the two words. */
  lemma NewCheckIs(big: bool, g: seq<byte>, c: nat, k: nat, sum: nat)
    requires c + 2 <= |g| && k + 2 <= |g| && g[k] > 0
    requires sum == Folded(0xFFFF - HostWord(big, g[c], g[c + 1]) + HostWord(big, g[k], g[k + 1]))
    ensures 0xFFFF - sum == NewCheck(WordAt(big, g, c), WordAt(big, g, k))
  {
  }

  /** The frame with the flag set and the checksum recalculated. */
  function Flagged(big: bool, f: seq<byte>): (g: seq<byte>)
    requires Readable(f) && Request(f) && !Broadcast(f)
    ensures |g| == |f|
  {
    var u := UdpAt(f);
    var g := f[u + FLAGS_AT := f[u + FLAGS_AT] + 128];
    var c := HostOctets(big, NewCheck(WordAt(big, f, u + CHECK_AT), WordAt(big, g, u + FLAGS_AT)));
    g[u + CHECK_AT := c[0]][u + CHECK_AT + 1 := c[1]]
  }

  /** `dhcp_flag_bcast`. */
  method FlagBroadcast(disabled: bool, big: bool, skb: array<byte>)
    requires Readable(skb[..])
    modifies skb
    ensures disabled || !Request(old(skb[..])) || Broadcast(old(skb[..])) ==> skb[..] == old(skb[..])
    ensures !disabled && Request(old(skb[..])) && !Broadcast(old(skb[..])) ==> skb[..] == Flagged(big, old(skb[..]))
  {
    hide NewCheck, Folded;
    if disabled || skb[12..14] != [0x08, 0x00] || skb[ETH_HLEN + 9] != 17 {
      return;
    }
    var u := ETH_HLEN + 4 * (skb[ETH_HLEN] as int % 16);
    if skb[u..u + 2] != PutBe16(68) || skb[u + 2..u + 4] != PutBe16(67) {
      return;
    }
    if skb[u + COOKIE_AT..u + COOKIE_AT + 4] != [0x63, 0x82, 0x53, 0x63] || skb[u + FLAGS_AT] >= 128 {
      return;
    }
    skb[u + FLAGS_AT] := skb[u + FLAGS_AT] + 128;
    var sum := 0xFFFF - HostWord(big, skb[u + CHECK_AT], skb[u + CHECK_AT + 1]);
    sum := sum + HostWord(big, skb[u + FLAGS_AT], skb[u + FLAGS_AT + 1]);
    sum := Fold(sum);
    NewCheckIs(big, skb[..], u + CHECK_AT, u + FLAGS_AT, sum);
    var check := HostOctets(big, 0xFFFF - sum);
    skb[u + CHECK_AT] := check[0];
    skb[u + CHECK_AT + 1] := check[1];
  }

  /**
   * Which frames are changed: IPv4 in Ethernet, UDP from port 68 to port 67, the cookie 63 82 53 63, 236 octets behind the
   * UDP header, and the highest bit of the flags, ten octets behind it, not set.
   */
  lemma ChangedIff(f: seq<byte>)
    requires Readable(f)
    ensures Request(f) && !Broadcast(f) <==>
      && f[12] == 0x08 && f[13] == 0x00 && f[23] == 17
      && var u := 14 + 4 * (f[14] as int % 16);
        && f[u] == 0 && f[u + 1] == 68 && f[u + 2] == 0 && f[u + 3] == 67
        && f[u + 244] == 0x63 && f[u + 245] == 0x82 && f[u + 246] == 0x53 && f[u + 247] == 0x63
        && f[u + 18] < 128
  {
    assert f[12..14] == [f[12], f[13]];
    if f[12..14] == [0x08, 0x00] && f[23] == 17 {
      var u := 14 + 4 * (f[14] as int % 16);
      assert f[u..u + 2] == [f[u], f[u + 1]] && f[u + 2..u + 4] == [f[u + 2], f[u + 3]];
      if ToServer(f) {
        assert f[u + 244..u + 248] == [f[u + 244], f[u + 245], f[u + 246], f[u + 247]];
      }
    }
  }

  /**
   * What is changed: the flag, 18 octets behind the start of the UDP header, and the checksum, six octets behind it. As
   * the host reads them, the new checksum is the one number below 65535 that adds up with the new flags to the old one.
   */
  lemma FlaggedIs(big: bool, f: seq<byte>)
    requires Readable(f) && Request(f) && !Broadcast(f)
    ensures var u, g := 14 + 4 * (f[14] as int % 16), Flagged(big, f);
      && |g| == |f| && u + 20 <= |f| && g[u + 18] as int == f[u + 18] as int + 128
      && (forall i :: 0 <= i < |f| && i != u + 6 && i != u + 7 && i != u + 18 ==> g[i] == f[i])
      && var check := if big then 256 * f[u + 6] as int + f[u + 7] as int else f[u + 6] as int + 256 * f[u + 7] as int;
         var check' := if big then 256 * g[u + 6] as int + g[u + 7] as int else g[u + 6] as int + 256 * g[u + 7] as int;
         var flags' := if big then 256 * g[u + 18] as int + g[u + 19] as int else g[u + 18] as int + 256 * g[u + 19] as int;
         check' < 0xFFFF && (check' + flags') % 0xFFFF == check % 0xFFFF
  {
    var u, g := UdpAt(f), Flagged(big, f);
    hide NewCheck;
    NewSumIs(0, WordAt(big, f, u + 6), WordAt(big, g, u + 18));
  }

  /** The octets that the UDP checksum covers: pseudo header, UDP header and data (RFC 768). */
  function Covered(f: seq<byte>): (c: seq<byte>)
    requires Sound(f)
    ensures |c| == PSEUDO_LEN + Be16(f, UdpAt(f) + 4)
  {
    var u := UdpAt(f);
    f[ETH_HLEN + 12..ETH_HLEN + 20] + [0, 17] + f[u + 4..u + 6] + f[u..u + Be16(f, u + 4)]
  }

  /** Addresses, a zero octet, the protocol number of UDP, the UDP length, and all of the UDP message. */
  lemma CoveredIs(f: seq<byte>)
    requires Sound(f)
    ensures var u, c := 14 + 4 * (f[14] as int % 16), Covered(f);
      && c[..8] == f[26..34] && c[8] == 0 && c[9] == 17 && c[10] == f[u + 4] && c[11] == f[u + 5]
      && c[12..] == f[u..u + (256 * f[u + 4] as int + f[u + 5] as int)]
  {
    var u := UdpAt(f);
    assert PSEUDO_LEN == 12;
    CoveredAt(f);
    var c := Covered(f);
    assert c[..8] == c[..12][..8] && c[8] == c[..12][8] && c[9] == c[..12][9] && c[10] == c[..12][10] && c[11] == c[..12][11];
  }

  /** The sum is all ones exactly if folding makes it 65535. */
  lemma FoldsToOnesIff(big: bool, b: seq<byte>)
    ensures SumsUp(big, b) <==> Folded(WordSum(big, b)) == 0xFFFF
  {
    hide WordSum;
  }

  /** The UDP length takes in the DHCP message as far as the magic cookie, and the frame is that long. */
  predicate Sound(f: seq<byte>) {
    && |f| >= ETH_HLEN + 20 && UdpAt(f) >= ETH_HLEN + 20 && UdpAt(f) + UDP_HLEN <= |f|
    && COOKIE_AT + 4 <= Be16(f, UdpAt(f) + 4) && UdpAt(f) + Be16(f, UdpAt(f) + 4) <= |f|
  }

  /** The checksum and the flags of a frame, as numbers of the host. */
  function Check(big: bool, f: seq<byte>): (w: nat)
    requires Sound(f)
    ensures w < 0x1_0000
  {
    WordAt(big, f, UdpAt(f) + CHECK_AT)
  }

  function Flags(big: bool, f: seq<byte>): (w: nat)
    requires Sound(f)
    ensures w < 0x1_0000
  {
    WordAt(big, f, UdpAt(f) + FLAGS_AT)
  }

  const CHECK_IN := PSEUDO_LEN + CHECK_AT
  const FLAGS_IN := PSEUDO_LEN + FLAGS_AT

  /** The sum of all covered words but the checksum and the flags. */
  function OtherWords(big: bool, c: seq<byte>): nat
    requires |c| >= FLAGS_IN + 2
  {
    WordSum(big, c[..CHECK_IN]) + WordSum(big, c[CHECK_IN + 2..FLAGS_IN]) + WordSum(big, c[FLAGS_IN + 2..])
  }

  /** Where the octets behind the pseudo header come from. */
  lemma CoveredAt(f: seq<byte>)
    requires Sound(f)
    ensures var c, u := Covered(f), UdpAt(f);
      && |c| >= FLAGS_IN + 2
      && c[..PSEUDO_LEN] == f[ETH_HLEN + 12..ETH_HLEN + 20] + [0, 17] + f[u + 4..u + 6]
      && forall i :: PSEUDO_LEN <= i < |c| ==> c[i] == f[u + i - PSEUDO_LEN]
  {
    var u := UdpAt(f);
    Parts(f[ETH_HLEN + 12..ETH_HLEN + 20] + [0, 17] + f[u + 4..u + 6], f[u..u + Be16(f, u + 4)], []);
  }

  /** Only the checksum and the first octet of the flags are new. */
  lemma FlaggedAt(big: bool, f: seq<byte>)
    requires Sound(f) && Readable(f) && Request(f) && !Broadcast(f)
    ensures var g, u := Flagged(big, f), UdpAt(f);
      && Sound(g) && UdpAt(g) == u && Be16(g, u + 4) == Be16(f, u + 4)
      && (forall i :: 0 <= i < |f| && i != u + CHECK_AT && i != u + CHECK_AT + 1 && i != u + FLAGS_AT ==> g[i] == f[i])
      && Flags(big, g) == Flags(big, f) + HostWord(big, 128, 0)
      && Check(big, g) == NewCheck(Check(big, f), Flags(big, g))
  {
    hide NewCheck;
  }

  /** All other words are the same. */
  lemma OthersSame(big: bool, f: seq<byte>)
    requires Sound(f) && Readable(f) && Request(f) && !Broadcast(f)
    ensures Sound(Flagged(big, f))
    ensures OtherWords(big, Covered(Flagged(big, f))) == OtherWords(big, Covered(f))
  {
    hide *;
    FlaggedAt(big, f);
    SameOthers(big, f, Flagged(big, f));
  }

  lemma SoundBounds(f: seq<byte>)
    requires Sound(f)
    ensures UdpAt(f) >= ETH_HLEN + 20 && UdpAt(f) + UDP_HLEN <= |f| && UDP_HLEN == 8 && |Covered(f)| >= FLAGS_IN + 2
  {
  }

  lemma OtherWordsOf(big: bool, c: seq<byte>)
    requires |c| >= FLAGS_IN + 2
    ensures OtherWords(big, c) ==
      WordSum(big, c[..CHECK_IN]) + WordSum(big, c[CHECK_IN + 2..FLAGS_IN]) + WordSum(big, c[FLAGS_IN + 2..])
  {
  }

  /** Frames that differ in checksum and flags differ there in what is covered. */
  lemma SameCovered(f: seq<byte>, g: seq<byte>)
    requires Sound(f) && Sound(g) && UdpAt(g) == UdpAt(f) && |g| == |f|
    requires var u := UdpAt(f);
      && Be16(g, u + 4) == Be16(f, u + 4)
      && forall i :: 0 <= i < |f| && i != u + CHECK_AT && i != u + CHECK_AT + 1 && i != u + FLAGS_AT ==> g[i] == f[i]
    ensures var c, d := Covered(f), Covered(g);
      && |c| == |d| >= FLAGS_IN + 2 && c[..PSEUDO_LEN] == d[..PSEUDO_LEN]
      && forall i :: PSEUDO_LEN <= i < |c| && i != CHECK_IN && i != CHECK_IN + 1 && i != FLAGS_IN ==> c[i] == d[i]
  {
    var u := UdpAt(f);
    CoveredAt(f);
    CoveredAt(g);
    hide WordSum;
    assert f[ETH_HLEN + 12..ETH_HLEN + 20] == g[ETH_HLEN + 12..ETH_HLEN + 20] && f[u + 4..u + 6] == g[u + 4..u + 6];
  }

  lemma SameSlices(c: seq<byte>, d: seq<byte>)
    requires |c| == |d| >= FLAGS_IN + 2 && c[..PSEUDO_LEN] == d[..PSEUDO_LEN]
    requires forall i :: PSEUDO_LEN <= i < |c| && i != CHECK_IN && i != CHECK_IN + 1 && i != FLAGS_IN && i != FLAGS_IN + 1 ==>
      c[i] == d[i]
    ensures c[..CHECK_IN] == d[..CHECK_IN] && c[CHECK_IN + 2..FLAGS_IN] == d[CHECK_IN + 2..FLAGS_IN]
    ensures c[FLAGS_IN + 2..] == d[FLAGS_IN + 2..]
  {
    assert forall i :: 0 <= i < PSEUDO_LEN ==> c[i] == c[..PSEUDO_LEN][i] && d[i] == d[..PSEUDO_LEN][i];
  }

  /** The sum over the covered octets, in terms of the fields. */
  lemma SumOf(big: bool, f: seq<byte>)
    requires Sound(f)
    ensures |Covered(f)| >= FLAGS_IN + 2
    ensures WordSum(big, Covered(f)) == OtherWords(big, Covered(f)) + Check(big, f) + Flags(big, f)
  {
    CoveredAt(f);
    hide Covered;
    SumSplit(big, Covered(f), CHECK_IN, FLAGS_IN);
  }

  /** The new checksum makes up for the new flags, up to a multiple of 65535. */
  lemma NewSumIs(rest: nat, check: nat, newFlags: nat)
    requires check < 0x1_0000 && 0 < newFlags < 0x1_0000
    ensures (rest + NewCheck(check, newFlags) + newFlags) % 0xFFFF == (rest + check) % 0xFFFF
  {
    var d := 0xFFFF - check + newFlags;
    assert Folded(d) % 0xFFFF == d % 0xFFFF;
    var q, p := d / 0xFFFF, Folded(d) / 0xFFFF;
    Congruent(rest + NewCheck(check, newFlags) + newFlags, rest + check, q - p);
  }

  lemma Congruent(x: nat, y: nat, k: int)
    requires x == y + 0xFFFF * k
    ensures x % 0xFFFF == y % 0xFFFF
  {
  }

  /** What the new words do to a right sum. */
  lemma SumStaysIff(rest: nat, check: nat, flags: nat, newFlags: nat)
    requires check < 0x1_0000 && flags < newFlags < 0x1_0000 && AllOnes(rest + check + flags)
    ensures AllOnes(rest + NewCheck(check, newFlags) + newFlags) <==> flags == 0
  {
    NewSumIs(rest, check, newFlags);
    hide NewCheck;
    if (rest + check) % 0xFFFF == 0 {
      assert flags % 0xFFFF == 0;
    }
  }

  /** What they do to a sum without checksum. */
  lemma SumMadeUpIff(rest: nat, newFlags: nat)
    requires 0 < newFlags < 0x1_0000
    ensures AllOnes(rest + NewCheck(0, newFlags) + newFlags) <==> rest % 0xFFFF == 0
  {
    NewSumIs(rest, 0, newFlags);
    hide NewCheck;
  }

  /** When the new checksum is zero. */
  lemma NewCheckZero(check: nat, newFlags: nat)
    requires check < 0x1_0000 && 0 < newFlags < 0x1_0000
    ensures NewCheck(check, newFlags) == 0 <==> check == newFlags || (check == 0 && newFlags == 0xFFFF)
  {
  }

  /** The sum over the covered octets of the flagged frame. */
  lemma SumFlagged(big: bool, f: seq<byte>)
    requires Sound(f) && Readable(f) && Request(f) && !Broadcast(f)
    ensures Sound(Flagged(big, f))
    ensures var newFlags := Flags(big, f) + HostWord(big, 128, 0);
      && Flags(big, f) < newFlags < 0x1_0000
      && WordSum(big, Covered(Flagged(big, f))) ==
           OtherWords(big, Covered(f)) + NewCheck(Check(big, f), newFlags) + newFlags
  {
    hide *;
    FlaggedAt(big, f);
    var g := Flagged(big, f);
    OthersSame(big, f);
    SumOf(big, g);
  }

  lemma SumsUpIff(big: bool, f: seq<byte>)
    requires Sound(f)
    ensures SumsUp(big, Covered(f)) <==> AllOnes(WordSum(big, Covered(f)))
    ensures Be16(f, UdpAt(f) + FLAGS_AT) == 0 <==> Flags(big, f) == 0
  {
  }

  lemma AcceptedIs(big: bool, f: seq<byte>)
    requires Sound(f)
    ensures Accepted(big, f) <==> Check(big, f) == 0 || AllOnes(WordSum(big, Covered(f)))
  {
  }

  /**
   * Setting the flag keeps a right checksum right just when no other flag was set: the update takes the old flags
   * for zero, as they are in every request that keeps to RFC 2131, section 2.
   */
  lemma StaysRightIff(big: bool, f: seq<byte>)
    requires Sound(f) && Readable(f) && Request(f) && !Broadcast(f) && SumsUp(big, Covered(f))
    ensures Sound(Flagged(big, f))
    ensures SumsUp(big, Covered(Flagged(big, f))) <==> Be16(f, UdpAt(f) + FLAGS_AT) == 0
  {
    hide *;
    SumFlagged(big, f);
    SumOf(big, f);
    SumsUpIff(big, f);
    SumsUpIff(big, Flagged(big, f));
    SumStaysIff(OtherWords(big, Covered(f)), Check(big, f), Flags(big, f), Flags(big, f) + HostWord(big, 128, 0));
  }

  /** What a receiver takes: no checksum at all, or a right one (RFC 768). */
  predicate Accepted(big: bool, f: seq<byte>)
    requires Sound(f)
  {
    Check(big, f) == 0 || SumsUp(big, Covered(f))
  }

  /**
   * When the flagged request is accepted. With a checksum: no other flag was set, or the recalculated checksum is
   * zero, which says that there is none; that is when the old one equals the new flags. Without a checksum, one is
   * made up from the flags alone: right when all other words add up by themselves, or when all flags are set.
   */
  lemma AcceptedIff(big: bool, f: seq<byte>)
    requires Sound(f) && Readable(f) && Request(f) && !Broadcast(f) && Accepted(big, f)
    ensures Sound(Flagged(big, f))
    ensures var check, flags := Check(big, f), Flags(big, f);
      var newFlags := flags + HostWord(big, 128, 0);
      Accepted(big, Flagged(big, f)) <==>
        if check != 0 then flags == 0 || check == newFlags
        else OtherWords(big, Covered(f)) % 0xFFFF == 0 || newFlags == 0xFFFF
  {
    hide *;
    FlaggedAt(big, f);
    SumFlagged(big, f);
    SumOf(big, f);
    AcceptedIs(big, f);
    AcceptedIs(big, Flagged(big, f));
    var newFlags := Flags(big, f) + HostWord(big, 128, 0);
    NewCheckZero(Check(big, f), newFlags);
    if Check(big, f) == 0 {
      SumMadeUpIff(OtherWords(big, Covered(f)), newFlags);
    } else {
      SumStaysIff(OtherWords(big, Covered(f)), Check(big, f), Flags(big, f), newFlags);
    }
  }

  /** Every message can be given a right checksum. */
  lemma RightChecksum(big: bool, f: seq<byte>) returns (g: seq<byte>)
    requires Sound(f)
    ensures |g| == |f| && Sound(g) && SumsUp(big, Covered(g))
    ensures forall i :: 0 <= i < |f| && i != UdpAt(f) + CHECK_AT && i != UdpAt(f) + CHECK_AT + 1 ==> g[i] == f[i]
  {
    assert CHECK_AT == 6 && FLAGS_AT == 18;
    hide *;
    SoundBounds(f);
    var sum := OtherWords(big, Covered(f)) + Flags(big, f);
    var c := HostOctets(big, Complement(sum));
    var at := UdpAt(f) + CHECK_AT;
    g := f[at := c[0]][at + 1 := c[1]];
    CheckPut(big, f, g, c);
    SameOthers(big, f, g);
    SumOf(big, g);
    SumsUpIff(big, g);
    Multiple(sum);
  }

  /** What makes a sum up to a multiple of 65535. */
  function Complement(s: nat): (c: nat)
    ensures c < 0x1_0000
  {
    0xFFFF - s % 0xFFFF
  }

  lemma Multiple(s: nat)
    ensures AllOnes(s + Complement(s))
  {
    assert s + (0xFFFF - s % 0xFFFF) == 0xFFFF * (s / 0xFFFF + 1);
  }

  lemma CheckPut(big: bool, f: seq<byte>, g: seq<byte>, c: seq<byte>)
    requires Sound(f) && |c| == 2
    requires g == f[UdpAt(f) + CHECK_AT := c[0]][UdpAt(f) + CHECK_AT + 1 := c[1]]
    ensures Sound(g) && UdpAt(g) == UdpAt(f) && Be16(g, UdpAt(f) + 4) == Be16(f, UdpAt(f) + 4)
    ensures Check(big, g) == HostWord(big, c[0], c[1]) && Flags(big, g) == Flags(big, f)
  {
  }

  lemma SameOthers(big: bool, f: seq<byte>, g: seq<byte>)
    requires Sound(f) && Sound(g) && UdpAt(g) == UdpAt(f) && |g| == |f|
    requires var u := UdpAt(f);
      && Be16(g, u + 4) == Be16(f, u + 4)
      && forall i :: 0 <= i < |f| && i != u + CHECK_AT && i != u + CHECK_AT + 1 && i != u + FLAGS_AT ==> g[i] == f[i]
    ensures OtherWords(big, Covered(g)) == OtherWords(big, Covered(f))
  {
    hide *;
    SoundBounds(f);
    SameCovered(f, g);
    SameSlices(Covered(f), Covered(g));
    OtherWordsOf(big, Covered(f));
    OtherWordsOf(big, Covered(g));
  }

  /** A DHCP request as far as the magic cookie, with a flag set that is not the broadcast flag. */
  function SampleOctet(i: nat): byte {
    if i == 12 then 8              // IPv4
    else if i == 14 then 0x45      // a header of five words
    else if i == 23 then 17        // UDP
    else if i == 35 then 68        // from a client
    else if i == 37 then 67        // to a server
    else if i == 39 then 248       // octets of UDP
    else if i == 53 then 1         // flags
    else if i == 278 then 0x63 else if i == 279 then 0x82 else if i == 280 then 0x53 else if i == 281 then 0x63
    else 0
  }

  function Sample(): (f: seq<byte>)
    ensures |f| == 282 && forall i :: 0 <= i < 282 ==> f[i] == SampleOctet(i)
  {
    seq(282, i requires 0 <= i < 282 => SampleOctet(i))
  }

  /** A request with a right checksum whose checksum is wrong once the broadcast flag is set. */
  lemma ChecksumSpoilt(big: bool) returns (f: seq<byte>)
    ensures Sound(f) && Readable(f) && Request(f) && !Broadcast(f) && SumsUp(big, Covered(f))
    ensures Sound(Flagged(big, f)) && !SumsUp(big, Covered(Flagged(big, f)))
  {
    SampleSound();
    f := RightChecksum(big, Sample());
    SampleRequest(f);
    hide *;
    StaysRightIff(big, f);
  }

  lemma SampleSound()
    ensures Sound(Sample()) && UdpAt(Sample()) == 34
  {
  }

  lemma SampleRequest(f: seq<byte>)
    requires |f| == 282 && forall i :: 0 <= i < 282 && i != 40 && i != 41 ==> f[i] == SampleOctet(i)
    ensures Readable(f) && Request(f) && !Broadcast(f) && UdpAt(f) == 34 && Be16(f, UdpAt(f) + FLAGS_AT) == 1
  {
    assert f[12..14] == [8, 0] && f[34..36] == [0, 68] && f[36..38] == [0, 67];
    assert f[278..282] == [0x63, 0x82, 0x53, 0x63];
  }
}
