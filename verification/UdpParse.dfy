/** Locating a UDP payload inside an Ethernet frame, checked against an encoder of such
    frames in both directions, and against what the XDP program redirects. */
module UdpParse {
  import opened Octets
  import Xdp = XdpProgram

  const ETH_HDR := 14
  const VLAN_TAG := 4
  const IPV4_HDR := 20
  const UDP_HDR := 8
  const ETHERTYPE_IPV4 := 0x0800
  const ETHERTYPE_VLAN := 0x8100
  const IPPROTO_UDP := 17
  // more-fragments flag and fragment offset: the low 14 bits
  const FRAGMENT_BITS := 0x3FFF

  datatype Drop = NotIpv4 | Fragment | WrongDst | Truncated

  datatype Sender = Sender(ip: Octets, port: nat)

  /** Payload range inside the frame, and who sent it. */
  datatype Located = Located(start: nat, end: nat, peer: Sender)

  datatype Filter = Filter(port: nat, ip: Option<Octets>)

  function ParseUdp(frame: Octets, filter: Filter): (r: Result<Located, Drop>)
  {
    if |frame| < ETH_HDR then Err(Truncated)
    else
      var etherType := Word(frame[12], frame[13]);
      if etherType == ETHERTYPE_IPV4 then ParseIp(frame[ETH_HDR..], ETH_HDR, filter)
      else if etherType == ETHERTYPE_VLAN then
        if |frame| < ETH_HDR + VLAN_TAG then Err(Truncated)
        else if Word(frame[16], frame[17]) != ETHERTYPE_IPV4 then Err(NotIpv4)
        else ParseIp(frame[ETH_HDR + VLAN_TAG..], ETH_HDR + VLAN_TAG, filter)
      else Err(NotIpv4)
  }

  /** From the IPv4 header on; `l3` is where it starts in the frame. */
  function ParseIp(ip: Octets, l3: nat, filter: Filter): (r: Result<Located, Drop>)
  {
    if |ip| < IPV4_HDR then Err(Truncated)
    else if ip[0] / 16 != 4 then Err(NotIpv4)
    else
      var ihl := ip[0] % 16 as int * 4;
      if ihl < IPV4_HDR || |ip| < ihl then Err(Truncated)
      else if Word(ip[6], ip[7]) % (FRAGMENT_BITS + 1) != 0 then Err(Fragment)
      else if ip[9] != IPPROTO_UDP then Err(WrongDst)
      else
        var total := Word(ip[2], ip[3]);
        if total < ihl || |ip| < total then Err(Truncated)
        else ParseSegment(ip[ihl..total], ip[12..16], ip[16..20], l3 + ihl, filter)
  }

  /** The UDP header and what the IPv4 total length leaves behind it; `at` is where it
      starts in the frame. */
  function ParseSegment(segment: Octets, src: Octets, dst: Octets, at: nat, filter: Filter): (r: Result<Located, Drop>)
  {
    if |segment| < UDP_HDR then Err(Truncated)
    else if Word(segment[2], segment[3]) != filter.port || (filter.ip.Some? && filter.ip.value != dst)
    then Err(WrongDst)
    else
      var len := Word(segment[4], segment[5]);
      if len < UDP_HDR || len > |segment| then Err(Truncated)
      else Ok(Located(at + UDP_HDR, at + len, Sender(src, Word(segment[0], segment[1]))))
  }

  // ------------------------------------------------------------------ encoder

  /** Everything a frame carrying one UDP datagram says. `rest` is what the IPv4 total
      length covers behind the datagram, `padding` what only the frame covers. */
  datatype Datagram = Datagram(
    macs: Octets, tag: Option<(octet, octet)>,
    tos: octet, id: (octet, octet), flags: octet, ttl: octet, ipSum: (octet, octet),
    src: Octets, dst: Octets, options: Octets,
    srcPort: nat, dstPort: nat, udpSum: (octet, octet),
    payload: Octets, rest: Octets, padding: Octets)
  {
    ghost predicate Valid()
    {
      && |macs| == 12 && |src| == 4 && |dst| == 4
      && |options| <= 40 && |options| % 4 == 0
      && flags % 64 == 0
      && srcPort < 0x1_0000 && dstPort < 0x1_0000
      && TotalLength() < 0x1_0000
    }

    function UdpLength(): nat { 8 + |payload| }

    function TotalLength(): nat { 20 + |options| + UdpLength() + |rest| }

    function Link(): (s: Octets)
      requires |macs| == 12
      ensures |s| == if tag.Some? then 18 else 14
    {
      macs + (if tag.Some? then [0x81, 0x00, tag.value.0, tag.value.1] else []) + [0x08, 0x00]
    }

    ghost function IpHeader(): (s: Octets)
      requires Valid()
      ensures |s| == 20
    {
      [0x40 + (20 + |options|) / 4, tos, TotalLength() / 256, TotalLength() % 256,
       id.0, id.1, flags, 0, ttl, 17, ipSum.0, ipSum.1,
       src[0], src[1], src[2], src[3], dst[0], dst[1], dst[2], dst[3]]
    }

    ghost function UdpHeader(): (s: Octets)
      requires Valid()
      ensures |s| == 8
    {
      [srcPort / 256, srcPort % 256, dstPort / 256, dstPort % 256,
       UdpLength() / 256, UdpLength() % 256, udpSum.0, udpSum.1]
    }

    ghost function Segment(): (s: Octets)
      requires Valid()
      ensures |s| == UdpLength() + |rest|
    {
      UdpHeader() + payload + rest
    }

    ghost function Ip(): Octets
      requires Valid()
    {
      IpHeader() + options + Segment() + padding
    }

    ghost function Frame(): Octets
      requires Valid()
    {
      Link() + Ip()
    }
  }

  predicate Matches(filter: Filter, d: Datagram)
  {
    filter.port == d.dstPort && (filter.ip.Some? ==> filter.ip.value == d.dst)
  }

  lemma WordSplit(w: nat, high: octet, low: octet)
    requires w < 0x1_0000
    ensures Word(w / 256, w % 256) == w
    ensures Word(high, low) / 256 == high && Word(high, low) % 256 == low
  {
  }

  /** Three parts of a string, found again by their lengths. */
  lemma Cut(a: Octets, b: Octets, c: Octets)
    ensures var s := a + b + c;
            && |s| == |a| + |b| + |c|
            && s[..|a|] == a && s[|a|..|a| + |b|] == b && s[|a| + |b|..] == c && s[|a|..] == b + c
            && (forall k :: 0 <= k < |a| ==> s[k] == a[k])
  {
  }

  /** Any string is its parts. */
  lemma Glue(s: Octets, i: nat, j: nat)
    requires i <= j <= |s|
    ensures s == s[..i] + s[i..j] + s[j..]
  {
  }

  lemma SegmentParses(d: Datagram, at: nat, filter: Filter)
    requires d.Valid() && Matches(filter, d)
    ensures ParseSegment(d.Segment(), d.src, d.dst, at, filter) ==
            Ok(Located(at + 8, at + d.UdpLength(), Sender(d.src, d.srcPort)))
  {
    WordSplit(d.srcPort, 0, 0);
    WordSplit(d.dstPort, 0, 0);
    WordSplit(d.UdpLength(), 0, 0);
    Cut(d.UdpHeader(), d.payload, d.rest);
  }

  lemma IpLayout(d: Datagram)
    requires d.Valid()
    ensures var (ip, ihl, total) := (d.Ip(), 20 + |d.options|, d.TotalLength());
            && |ip| >= total
            && (forall k :: 0 <= k < 20 ==> ip[k] == d.IpHeader()[k])
            && ip[ihl..total] == d.Segment()
  {
    hide Datagram.IpHeader;
    hide Datagram.Segment;
    Cut(d.IpHeader() + d.options, d.Segment(), d.padding);
  }

  lemma IpParses(d: Datagram, l3: nat, filter: Filter)
    requires d.Valid() && Matches(filter, d)
    ensures ParseIp(d.Ip(), l3, filter) ==
            Ok(Located(l3 + 28 + |d.options|, l3 + 28 + |d.options| + |d.payload|, Sender(d.src, d.srcPort)))
  {
    hide ParseSegment;
    hide Word;
    hide Datagram.Ip;
    hide Datagram.Segment;
    IpLayout(d);
    var ip := d.Ip();
    WordSplit(d.TotalLength(), d.flags, 0);
    assert ip[0] / 16 == 4 && ip[0] % 16 as int * 4 == 20 + |d.options|;
    FragmentBits(d.flags, 0, d.flags as int / 64, 0);
    assert ip[12..16] == d.src && ip[16..20] == d.dst;
    SegmentParses(d, l3 + 20 + |d.options|, filter);
  }

  /** The fragment bits of a halfword, whatever the two bits above them. */
  lemma FragmentBits(high: octet, low: octet, top: nat, bits: nat)
    requires high as int == 64 * top + bits && bits < 64
    ensures Word(high, low) % (FRAGMENT_BITS + 1) == 256 * bits + low
  {
    assert Word(high, low) == (FRAGMENT_BITS + 1) * top + 256 * bits + low;
  }

  /** Every frame that carries a datagram for the filter is accepted, with exactly the
      datagram's payload (neither trailing bytes nor padding) and its sender. */
  lemma FrameIsLocated(d: Datagram, filter: Filter)
    requires d.Valid() && Matches(filter, d)
    ensures var r := ParseUdp(d.Frame(), filter);
            && r.Ok?
            && r.value.start <= r.value.end <= |d.Frame()|
            && d.Frame()[r.value.start..r.value.end] == d.payload
            && r.value.peer == Sender(d.src, d.srcPort)
  {
    hide ParseIp;
    var frame, l3 := d.Frame(), |d.Link()|;
    IpParses(d, l3, filter);
    assert frame[l3..] == d.Ip();
    assert frame[12] == d.Link()[12] && frame[13] == d.Link()[13];
    PayloadSits(d);
  }

  lemma SliceOfSlice(s: Octets, i: nat, j: nat, a: nat, b: nat)
    requires i <= j <= |s| && a <= b <= j - i
    ensures s[i..j][a..b] == s[i + a..i + b]
  {
    forall k | 0 <= k < b - a ensures s[i..j][a..b][k] == s[i + a..i + b][k] {
      assert s[i..j][a + k] == s[i + a + k];
    }
  }

  lemma PayloadSits(d: Datagram)
    requires d.Valid()
    ensures var at := |d.Link()| + 28 + |d.options|;
            at + |d.payload| <= |d.Frame()| && d.Frame()[at..at + |d.payload|] == d.payload
  {
    hide Datagram.UdpHeader;
    hide Datagram.IpHeader;
    hide Datagram.Link;
    var (ihl, total, l3) := (20 + |d.options|, d.TotalLength(), |d.Link()|);
    Cut(d.UdpHeader(), d.payload, d.rest);
    IpLayout(d);
    assert d.Frame()[l3..] == d.Ip();
    SliceOfSlice(d.Ip(), ihl, total, 8, 8 + |d.payload|);
    SliceOfSlice(d.Frame(), l3, |d.Frame()|, ihl + 8, ihl + 8 + |d.payload|);
  }

  // ------------------------------------------------------------------ converse

  /** What an accepted IPv4 packet says. */
  ghost function Carried(macs: Octets, tag: Option<(octet, octet)>, ip: Octets, l3: nat, filter: Filter): Datagram
    requires ParseIp(ip, l3, filter).Ok?
  {
    var (ihl, total) := (ip[0] % 16 as int * 4, Word(ip[2], ip[3]));
    var segment := ip[ihl..total];
    var len := Word(segment[4], segment[5]);
    Datagram(macs, tag, ip[1], (ip[4], ip[5]), ip[6], ip[8], (ip[10], ip[11]), ip[12..16], ip[16..20], ip[20..ihl],
             Word(segment[0], segment[1]), Word(segment[2], segment[3]), (segment[6], segment[7]),
             segment[8..len], segment[len..], ip[total..])
  }

  lemma CarriedIsValid(macs: Octets, tag: Option<(octet, octet)>, ip: Octets, l3: nat, filter: Filter)
    requires |macs| == 12 && ParseIp(ip, l3, filter).Ok?
    ensures var d := Carried(macs, tag, ip, l3, filter);
            && d.Valid() && Matches(filter, d)
            && d.TotalLength() == Word(ip[2], ip[3]) && 20 + |d.options| == ip[0] % 16 as int * 4
            && ip[7] == 0
  {
    hide Word;
    FragmentBits(ip[6], ip[7], ip[6] as int / 64, ip[6] as int % 64);
  }

  lemma SegmentIsCarried(macs: Octets, tag: Option<(octet, octet)>, ip: Octets, l3: nat, filter: Filter)
    requires |macs| == 12 && ParseIp(ip, l3, filter).Ok?
    requires Carried(macs, tag, ip, l3, filter).Valid()
    ensures var (ihl, total) := (ip[0] % 16 as int * 4, Word(ip[2], ip[3]));
            var d := Carried(macs, tag, ip, l3, filter);
            ihl <= total <= |ip| && ip[ihl..total] == d.Segment()
  {
    var (ihl, total) := (ip[0] % 16 as int * 4, Word(ip[2], ip[3]));
    var segment := ip[ihl..total];
    var len := Word(segment[4], segment[5]);
    Glue(segment, 8, len);
    WordSplit(0, segment[0], segment[1]);
    WordSplit(0, segment[2], segment[3]);
    WordSplit(0, segment[4], segment[5]);
    assert segment[..8] ==
           [segment[0], segment[1], segment[2], segment[3], segment[4], segment[5], segment[6], segment[7]];
  }

  lemma HeaderIsCarried(macs: Octets, tag: Option<(octet, octet)>, ip: Octets, l3: nat, filter: Filter)
    requires |macs| == 12 && ParseIp(ip, l3, filter).Ok?
    requires Carried(macs, tag, ip, l3, filter).Valid()
    ensures ip[..20] == Carried(macs, tag, ip, l3, filter).IpHeader()
  {
    CarriedIsValid(macs, tag, ip, l3, filter);
    hide ParseIp;
    hide Word;
    WordSplit(0, ip[2], ip[3]);
    assert ip[0] == 0x40 + ip[0] % 16;
  }

  /** An accepted IPv4 packet is the encoding of what it says. */
  lemma IpIsCarried(macs: Octets, tag: Option<(octet, octet)>, ip: Octets, l3: nat, filter: Filter, d: Datagram)
    requires |macs| == 12 && ParseIp(ip, l3, filter).Ok? && d == Carried(macs, tag, ip, l3, filter)
    ensures d.Valid() && Matches(filter, d) && d.Ip() == ip && d.macs == macs && d.tag == tag
  {
    CarriedIsValid(macs, tag, ip, l3, filter);
    SegmentIsCarried(macs, tag, ip, l3, filter);
    HeaderIsCarried(macs, tag, ip, l3, filter);
    InFour(ip, ip[0] % 16 as int * 4, Word(ip[2], ip[3]));
    hide ParseIp;
    hide Matches;
    hide Word;
    hide Datagram.Valid;
    hide Datagram.IpHeader;
    hide Datagram.Segment;
  }

  lemma InFour(ip: Octets, ihl: nat, total: nat)
    requires 20 <= ihl <= total <= |ip|
    ensures ip == ip[..20] + ip[20..ihl] + ip[ihl..total] + ip[total..]
  {
    Glue(ip, ihl, total);
    Glue(ip[..ihl], 20, ihl);
  }

  /** Every accepted frame is the encoding of a datagram for the filter. */
  lemma LocatedIsFrame(frame: Octets, filter: Filter) returns (d: Datagram)
    requires ParseUdp(frame, filter).Ok?
    ensures d.Valid() && Matches(filter, d) && d.Frame() == frame
  {
    hide ParseIp;
    hide Carried;
    hide Matches;
    hide Datagram.Ip;
    hide Datagram.Valid;
    var macs := frame[..12];
    if Word(frame[12], frame[13]) == ETHERTYPE_IPV4 {
      d := Carried(macs, None, frame[14..], 14, filter);
      IpIsCarried(macs, None, frame[14..], 14, filter, d);
      assert d.Link() == frame[..14];
    } else {
      var tag := Some((frame[14], frame[15]));
      d := Carried(macs, tag, frame[18..], 18, filter);
      IpIsCarried(macs, tag, frame[18..], 18, filter, d);
      assert d.Link() == frame[..18];
    }
  }

  ghost predicate Carries(frame: Octets, filter: Filter, d: Datagram)
  {
    d.Valid() && Matches(filter, d) && d.Frame() == frame
  }

  /** A frame is accepted exactly when it encodes a datagram for the filter. */
  lemma AcceptsExactlyDatagrams(frame: Octets, filter: Filter)
    ensures ParseUdp(frame, filter).Ok? <==> exists d :: Carries(frame, filter, d)
  {
    if ParseUdp(frame, filter).Ok? {
      var d := LocatedIsFrame(frame, filter);
      assert Carries(frame, filter, d);
    }
    forall d | Carries(frame, filter, d) ensures ParseUdp(frame, filter).Ok? {
      FrameIsLocated(d, filter);
    }
  }

  // --------------------------------------------------------- why frames are refused

  /** Where the IPv4 header starts: behind the addresses and the type, and behind a VLAN tag. */
  function IpAt(frame: Octets): nat
    requires |frame| >= 14
  {
    if frame[12] == 0x81 && frame[13] == 0x00 then 18 else 14
  }

  /** The link header is whole. */
  predicate Linked(frame: Octets) {
    |frame| >= 14 && |frame| >= IpAt(frame)
  }

  /** It announces IPv4. */
  predicate SaysIpv4(frame: Octets)
    requires Linked(frame)
  {
    frame[IpAt(frame) - 2] == 0x08 && frame[IpAt(frame) - 1] == 0x00
  }

  /** Where the IPv4 header ends, by its own length. */
  function IpEnd(frame: Octets): nat
    requires Linked(frame) && |frame| >= IpAt(frame) + 20
  {
    IpAt(frame) + 4 * (frame[IpAt(frame)] as int % 16)
  }

  /** A whole IPv4 header of version 4. */
  predicate HeaderThere(frame: Octets) {
    && Linked(frame) && SaysIpv4(frame) && |frame| >= IpAt(frame) + 20 && frame[IpAt(frame)] / 16 == 4
    && IpAt(frame) + 20 <= IpEnd(frame) <= |frame|
  }

  /** The more-fragments flag is set or the fragment offset is not zero. */
  predicate Fragmented(frame: Octets)
    requires HeaderThere(frame)
  {
    frame[IpAt(frame) + 6] % 64 != 0 || frame[IpAt(frame) + 7] != 0
  }

  /** The number two octets spell, most significant first. */
  function Number(frame: Octets, at: nat): nat
    requires at + 1 < |frame|
  {
    256 * (frame[at] as int) + frame[at + 1] as int
  }

  /** An unfragmented UDP packet whose total length reaches past the UDP header and no
      further than the frame. */
  predicate UdpThere(frame: Octets) {
    && HeaderThere(frame) && !Fragmented(frame) && frame[IpAt(frame) + 9] == 17
    && IpEnd(frame) + 8 <= IpAt(frame) + Number(frame, IpAt(frame) + 2) <= |frame|
  }

  /** It is for this port and, if the filter has one, this address. */
  predicate ForUs(frame: Octets, filter: Filter)
    requires UdpThere(frame)
  {
    && Number(frame, IpEnd(frame) + 2) == filter.port
    && (filter.ip.Some? ==> filter.ip.value == frame[IpAt(frame) + 16..IpAt(frame) + 20])
  }

  /** The reason a frame is refused for, on its octets. */
  predicate Refusal(frame: Octets, filter: Filter, reason: Drop)
  {
    match reason
    case NotIpv4 =>
      && Linked(frame)
      && (!SaysIpv4(frame) || (|frame| >= IpAt(frame) + 20 && frame[IpAt(frame)] / 16 != 4))
    case Fragment => HeaderThere(frame) && Fragmented(frame)
    case WrongDst =>
      && HeaderThere(frame) && !Fragmented(frame)
      && (frame[IpAt(frame) + 9] != 17 || (UdpThere(frame) && !ForUs(frame, filter)))
    case Truncated =>
      || !Linked(frame)
      || (SaysIpv4(frame) && |frame| < IpAt(frame) + 20)
      || (SaysIpv4(frame) && frame[IpAt(frame)] / 16 == 4 && !HeaderThere(frame))
      || (HeaderThere(frame) && !Fragmented(frame) && frame[IpAt(frame) + 9] == 17 && !UdpThere(frame))
      || (UdpThere(frame) && ForUs(frame, filter)
          && var len := Number(frame, IpEnd(frame) + 4);
          (len < 8 || IpEnd(frame) + len > IpAt(frame) + Number(frame, IpAt(frame) + 2)))
  }

  lemma LinkStep(frame: Octets, filter: Filter)
    ensures ParseUdp(frame, filter) ==
            if !Linked(frame) then Err(Truncated)
            else if !SaysIpv4(frame) then Err(NotIpv4)
            else ParseIp(frame[IpAt(frame)..], IpAt(frame), filter)
  {
    hide ParseIp;
  }

  /** The segment the total length leaves behind the IPv4 header. */
  function SegmentOf(frame: Octets): Octets
    requires HeaderThere(frame) && IpEnd(frame) <= IpAt(frame) + Number(frame, IpAt(frame) + 2) <= |frame|
  {
    frame[IpEnd(frame)..IpAt(frame) + Number(frame, IpAt(frame) + 2)]
  }

  lemma IpStep(frame: Octets, filter: Filter)
    requires Linked(frame) && SaysIpv4(frame)
    ensures var at := IpAt(frame);
            ParseIp(frame[at..], at, filter) ==
            if |frame| < at + 20 then Err(Truncated)
            else if frame[at] / 16 != 4 then Err(NotIpv4)
            else if !HeaderThere(frame) then Err(Truncated)
            else if Fragmented(frame) then Err(Fragment)
            else if frame[at + 9] != 17 then Err(WrongDst)
            else
              var end := at + Number(frame, at + 2);
              if end < IpEnd(frame) || |frame| < end then Err(Truncated)
              else ParseSegment(SegmentOf(frame), frame[at + 12..at + 16], frame[at + 16..at + 20], IpEnd(frame),
                                filter)
  {
    hide ParseSegment;
    var at := IpAt(frame);
    var ip := frame[at..|frame|];
    assert ip == frame[at..];
    if |ip| >= 20 {
      assert ip[0] == frame[at] && ip[6] == frame[at + 6] && ip[7] == frame[at + 7] && ip[9] == frame[at + 9];
      assert ip[2] == frame[at + 2] && ip[3] == frame[at + 3];
      SliceOfSlice(frame, at, |frame|, 12, 16);
      SliceOfSlice(frame, at, |frame|, 16, 20);
      FragmentWord(ip[6], ip[7]);
      if HeaderThere(frame) {
        var end := at + Number(frame, at + 2);
        if IpEnd(frame) <= end <= |frame| {
          SliceOfSlice(frame, at, |frame|, IpEnd(frame) - at, end - at);
        }
      }
    }
  }

  lemma FragmentWord(high: octet, low: octet)
    ensures Word(high, low) % (FRAGMENT_BITS + 1) == 0 <==> high % 64 == 0 && low == 0
  {
    FragmentBits(high, low, high / 64, high % 64);
  }

  lemma SegmentStep(frame: Octets, src: Octets, filter: Filter)
    requires HeaderThere(frame) && !Fragmented(frame) && frame[IpAt(frame) + 9] == 17
    requires IpEnd(frame) <= IpAt(frame) + Number(frame, IpAt(frame) + 2) <= |frame|
    ensures var dst := frame[IpAt(frame) + 16..IpAt(frame) + 20];
            var r := ParseSegment(SegmentOf(frame), src, dst, IpEnd(frame), filter);
            if !UdpThere(frame) then r == Err(Truncated)
            else if !ForUs(frame, filter) then r == Err(WrongDst)
            else
              var len := Number(frame, IpEnd(frame) + 4);
              if len < 8 || IpEnd(frame) + len > IpAt(frame) + Number(frame, IpAt(frame) + 2) then r == Err(Truncated)
              else r.Ok?
  {
    var (segment, at) := (SegmentOf(frame), IpEnd(frame));
    if |segment| >= 8 {
      assert segment[2] == frame[at + 2] && segment[3] == frame[at + 3];
      assert segment[4] == frame[at + 4] && segment[5] == frame[at + 5];
    }
  }

  /** Each frame that is refused is refused for exactly the reason its octets give. */
  lemma RefusedExactly(frame: Octets, filter: Filter, reason: Drop)
    ensures ParseUdp(frame, filter) == Err(reason) <==> Refusal(frame, filter, reason)
  {
    hide ParseUdp;
    hide ParseIp;
    hide ParseSegment;
    hide SegmentOf;
    LinkStep(frame, filter);
    if Linked(frame) && SaysIpv4(frame) {
      IpStep(frame, filter);
      if HeaderThere(frame) && !Fragmented(frame) && frame[IpAt(frame) + 9] == 17
         && IpEnd(frame) <= IpAt(frame) + Number(frame, IpAt(frame) + 2) <= |frame| {
        SegmentStep(frame, frame[IpAt(frame) + 12..IpAt(frame) + 16], filter);
        hide ForUs;
      }
      hide Fragmented;
    }
  }

  lemma IpNeedsUdp(ip: Octets, l3: nat, filter: Filter)
    requires ParseIp(ip, l3, filter).Ok?
    ensures |ip| >= 28 && ip[9] == 17
  {
  }

  lemma AcceptedIsWanted(frame: Octets, filter: Filter)
    requires ParseUdp(frame, filter).Ok?
    ensures Xdp.Wanted(frame)
  {
    hide ParseIp;
    var etherType := if Word(frame[12], frame[13]) == ETHERTYPE_IPV4 then 12 else 16;
    IpNeedsUdp(frame[etherType + 2..], etherType + 2, filter);
    assert frame[etherType..etherType + 2] == [frame[etherType], frame[etherType + 1]];
    assert frame[12..14] == [frame[12], frame[13]];
    assert frame[etherType + 2..][9] == frame[etherType + 11];
  }

  /** No frame the decapsulation would accept, for any port and address filter, is kept
      from the socket by the XDP program. */
  lemma AcceptedIsRedirected(fd: Xdp.i32, env: Xdp.Env, filter: Filter)
    requires ParseUdp(env.frame, filter).Ok? && (fd, env.queue) in env.sockets
    ensures Xdp.Run(Xdp.Instructions(fd), env, Xdp.ENTRY) == Xdp.Exit(Xdp.XDP_REDIRECT)
  {
    hide Xdp.Run;
    hide Xdp.Instructions;
    hide ParseUdp;
    hide Xdp.Wanted;
    AcceptedIsWanted(env.frame, filter);
    Xdp.RedirectsExactlyUdp(fd, env);
  }
}
