/** MoldUDP64 downstream packets: header, message blocks and the request packet. */
module MoldWire {
  import opened Octets

  const HEADER_LEN := 20
  const MAX_DOWNSTREAM_DATAGRAM := 64 * 1024

  datatype WireError = PacketTooShort | PacketTooLarge

  datatype DownstreamHeader = DownstreamHeader(session: Octets, sequence: nat, messageCount: nat)

  datatype PacketKind = Heartbeat | EndOfSession | Data

  /** A message block: its payload is `len` octets at `offset` of the whole datagram. */
  datatype Block = Block(offset: nat, len: nat)

  /** Field widths of the header: a 10-octet session, 64-bit sequence, 16-bit count. */
  predicate HeaderFits(h: DownstreamHeader) {
    |h.session| == 10 && h.sequence < Pow256(8) && h.messageCount < Pow256(2)
  }

  function Kind(h: DownstreamHeader): PacketKind {
    if h.messageCount == 0 then Heartbeat
    else if h.messageCount == 0xFFFF then EndOfSession
    else Data
  }

  function ParseHeader(buf: Octets): Result<DownstreamHeader, WireError> {
    if |buf| > MAX_DOWNSTREAM_DATAGRAM then Err(PacketTooLarge)
    else if |buf| < HEADER_LEN then Err(PacketTooShort)
    else Ok(DownstreamHeader(buf[..10], BigEndian(buf[10..18]), BigEndian(buf[18..20])))
  }

  /** The `count` blocks of `d` starting at octet `at`, or an error if one is cut short. */
  function ParseBlocks(d: Octets, at: nat, count: nat): Result<seq<Block>, WireError>
    requires at <= |d|
    decreases count
  {
    if count == 0 then Ok([])
    else if |d| - at < 2 then Err(PacketTooShort)
    else
      var len := BigEndian(d[at..at + 2]);
      if |d| - at - 2 < len then Err(PacketTooShort)
      else
        After([Block(at + 2, len)], ParseBlocks(d, at + 2 + len, count - 1))
  }

  /** A walk that already found `found` and then returns `rest`. */
  function After(found: seq<Block>, rest: Result<seq<Block>, WireError>): Result<seq<Block>, WireError> {
    match rest
    case Err(e) => Err(e)
    case Ok(bs) => Ok(found + bs)
  }

  lemma AfterAppends(found: seq<Block>, b: Block, rest: Result<seq<Block>, WireError>)
    ensures After([], rest) == rest
    ensures After(found, After([b], rest)) == After(found + [b], rest)
  {
    if rest.Ok? {
      assert [] + rest.value == rest.value;
      assert found + ([b] + rest.value) == (found + [b]) + rest.value;
    }
  }

  predicate InBounds(d: Octets, b: Block) {
    b.offset + b.len <= |d|
  }

  function Payload(d: Octets, b: Block): Octets
    requires InBounds(d, b)
  {
    d[b.offset..b.offset + b.len]
  }

  /** Iterator over the blocks of one datagram; borrows the datagram's unread tail. */
  class MessageBlockIter {
    ghost const datagram: Octets
    var remaining: Octets
    var blocksLeft: nat
    var truncated: bool
    var nextOffset: nat

    ghost predicate Valid()
      reads this
    {
      nextOffset <= |datagram| && remaining == datagram[nextOffset..]
    }

    /** What a full walk from here returns. */
    ghost function Rest(): Result<seq<Block>, WireError>
      requires Valid()
      reads this
    {
      ParseBlocks(datagram, nextOffset, blocksLeft)
    }

    constructor (h: DownstreamHeader, d: Octets)
      ensures Valid() && !truncated && datagram == d
      ensures blocksLeft == h.messageCount
      ensures HEADER_LEN <= |d| ==> nextOffset == HEADER_LEN
    {
      datagram := d;
      remaining := if HEADER_LEN <= |d| then d[HEADER_LEN..] else [];
      nextOffset := if HEADER_LEN <= |d| then HEADER_LEN else |d|;
      blocksLeft := h.messageCount;
      truncated := false;
    }

    /** One block, an error (after which the iterator is fused), or the end. */
    method Next() returns (r: Option<Result<Block, WireError>>)
      requires Valid()
      modifies this
      ensures Valid()
      ensures old(truncated) || old(blocksLeft) == 0 <==> r.None?
      ensures r.None? ==> truncated == old(truncated) && blocksLeft == old(blocksLeft)
      ensures r.Some? && r.value.Err? ==> truncated && old(Rest()) == Err(r.value.error)
      ensures r.Some? && r.value.Ok? ==>
                && !truncated && blocksLeft == old(blocksLeft) - 1
                && old(Rest()) == After([r.value.value], Rest())
    {
      if truncated || blocksLeft == 0 {
        return None;
      }
      if |remaining| < 2 {
        truncated := true;
        return Some(Err(PacketTooShort));
      }
      var len := BigEndian(remaining[..2]);
      assert remaining[..2] == datagram[nextOffset..nextOffset + 2];
      var rest := remaining[2..];
      if |rest| < len {
        truncated := true;
        return Some(Err(PacketTooShort));
      }
      var offset := nextOffset + 2;
      nextOffset := nextOffset + 2 + len;
      remaining := rest[len..];
      blocksLeft := blocksLeft - 1;
      r := Some(Ok(Block(offset, len)));
    }
  }

  /** Walks every block of `d`, stopping at the first error. */
  method CollectBlocks(h: DownstreamHeader, d: Octets) returns (r: Result<seq<Block>, WireError>)
    requires HEADER_LEN <= |d|
    ensures r == ParseBlocks(d, HEADER_LEN, h.messageCount)
  {
    var iter := new MessageBlockIter(h, d);
    var blocks := [];
    var more := true;
    AfterAppends([], Block(0, 0), iter.Rest());
    while more
      invariant fresh(iter) && iter.Valid() && iter.datagram == d && !iter.truncated
      invariant more || iter.blocksLeft == 0
      invariant ParseBlocks(d, HEADER_LEN, h.messageCount) == After(blocks, iter.Rest())
      decreases iter.blocksLeft, more
    {
      var next := iter.Next();
      match next
      case None => more := false;
      case Some(Err(e)) => return Err(e);
      case Some(Ok(b)) =>
        AfterAppends(blocks, b, iter.Rest());
        blocks := blocks + [b];
    }
    assert blocks + [] == blocks;
    return Ok(blocks);
  }

  // ---------------------------------------------------------------- encoding

  function EncodeHeader(h: DownstreamHeader): Octets {
    h.session + ToBigEndian(h.sequence, 8) + ToBigEndian(h.messageCount, 2)
  }

  function EncodeBlocks(payloads: seq<Octets>): Octets {
    if payloads == [] then []
    else ToBigEndian(|payloads[0]|, 2) + payloads[0] + EncodeBlocks(payloads[1..])
  }

  predicate BlocksFit(payloads: seq<Octets>) {
    forall i :: 0 <= i < |payloads| ==> |payloads[i]| < Pow256(2)
  }

  /** The payloads that `blocks` name in `d`. */
  function Payloads(d: Octets, blocks: seq<Block>): (ps: seq<Octets>)
    requires forall b :: b in blocks ==> InBounds(d, b)
    ensures |ps| == |blocks|
  {
    seq(|blocks|, i requires 0 <= i < |blocks| => Payload(d, blocks[i]))
  }

  /** A parsed header is exactly the first 20 octets, re-encoded. */
  lemma HeaderDecodes(d: Octets)
    requires ParseHeader(d).Ok?
    ensures HeaderFits(ParseHeader(d).value)
    ensures EncodeHeader(ParseHeader(d).value) == d[..HEADER_LEN]
  {
    EncodingOfBigEndian(d[10..18]);
    EncodingOfBigEndian(d[18..20]);
    assert d[..HEADER_LEN] == d[..10] + d[10..18] + d[18..20];
  }

  lemma HeaderIsThere(d: Octets)
    ensures ParseHeader(d).Ok? ==> HEADER_LEN <= |d|
  {
  }

  /** Every header whose fields fit survives encoding, whatever body follows. */
  lemma HeaderRoundTrip(h: DownstreamHeader, body: Octets)
    requires HeaderFits(h) && |body| <= MAX_DOWNSTREAM_DATAGRAM - HEADER_LEN
    ensures ParseHeader(EncodeHeader(h) + body) == Ok(h)
  {
    var d := EncodeHeader(h) + body;
    assert d[..10] == h.session;
    assert d[10..18] == ToBigEndian(h.sequence, 8);
    assert d[18..20] == ToBigEndian(h.messageCount, 2);
    BigEndianOfEncoding(h.sequence, 8);
    BigEndianOfEncoding(h.messageCount, 2);
  }

  /** Blocks that parse stay inside the datagram, behind the header and in order. */
  lemma {:induction false} BlocksInBounds(d: Octets, at: nat, count: nat)
    requires at <= |d| && ParseBlocks(d, at, count).Ok?
    ensures var bs := ParseBlocks(d, at, count).value;
            && |bs| == count
            && (forall i :: 0 <= i < |bs| ==> at + 2 <= bs[i].offset && InBounds(d, bs[i]))
            && (forall i, j :: 0 <= i < j < |bs| ==> bs[i].offset + bs[i].len <= bs[j].offset)
    decreases count
  {
    if count > 0 {
      var len := BigEndian(d[at..at + 2]);
      BlocksInBounds(d, at + 2 + len, count - 1);
    }
  }

  /** Blocks that parse are what the encoder writes for their payloads. */
  lemma {:induction false} BlocksDecode(d: Octets, at: nat, count: nat)
    requires at <= |d| && ParseBlocks(d, at, count).Ok?
    ensures var bs := ParseBlocks(d, at, count).value;
            && (forall b :: b in bs ==> InBounds(d, b))
            && EncodeBlocks(Payloads(d, bs)) <= d[at..]
    decreases count
  {
    BlocksInBounds(d, at, count);
    if count > 0 {
      var len := BigEndian(d[at..at + 2]);
      BlocksDecode(d, at + 2 + len, count - 1);
      var rest := ParseBlocks(d, at + 2 + len, count - 1).value;
      var bs := ParseBlocks(d, at, count).value;
      assert bs == [Block(at + 2, len)] + rest;
      hide ParseBlocks;
      hide EncodeBlocks;
      hide BigEndian;
      EncodesFirst(d, at, len, Payloads(d, bs), Payloads(d, rest));
    }
  }

  lemma EncodesFirst(d: Octets, at: nat, len: nat, ps: seq<Octets>, rest: seq<Octets>)
    requires at + 2 + len <= |d| && len == BigEndian(d[at..at + 2])
    requires |ps| > 0 && ps[0] == d[at + 2..at + 2 + len] && ps[1..] == rest
    requires EncodeBlocks(rest) <= d[at + 2 + len..]
    ensures EncodeBlocks(ps) <= d[at..]
  {
    EncodingOfBigEndian(d[at..at + 2]);
    hide BigEndian;
    hide ToBigEndian;
    var prefix := d[at..at + 2] + ps[0];
    ThreeParts(d, at, len);
    assert EncodeBlocks(ps) == prefix + EncodeBlocks(rest);
    hide EncodeBlocks;
    SamePrefix(prefix, EncodeBlocks(rest), d[at + 2 + len..]);
  }

  lemma ThreeParts(d: Octets, at: nat, len: nat)
    requires at + 2 + len <= |d|
    ensures d[at..] == d[at..at + 2] + d[at + 2..at + 2 + len] + d[at + 2 + len..]
  {
  }

  lemma SamePrefix(prefix: Octets, a: Octets, b: Octets)
    requires a <= b
    ensures prefix + a <= prefix + b
  {
  }

  /** Where a length prefix, a payload and the rest sit in their concatenation. */
  lemma Layout(before: Octets, len: Octets, p: Octets, rest: Octets, after: Octets)
    requires |len| == 2
    ensures var (at, d) := (|before|, before + (len + p + rest) + after);
            && at + 2 + |p| <= |d|
            && d[at..at + 2] == len
            && d[at + 2..at + 2 + |p|] == p
            && d == (before + len + p) + rest + after
  {
  }

  /** `d` holds `payloads` as blocks from octet `at` on. */
  ghost predicate Holds(d: Octets, at: nat, payloads: seq<Octets>) {
    at <= |d| &&
    var r := ParseBlocks(d, at, |payloads|);
    r.Ok? && (forall b :: b in r.value ==> InBounds(d, b)) && Payloads(d, r.value) == payloads
  }

  lemma HoldsCons(d: Octets, at: nat, payloads: seq<Octets>)
    requires payloads != [] && at + 2 + |payloads[0]| <= |d|
    requires BigEndian(d[at..at + 2]) == |payloads[0]|
    requires d[at + 2..at + 2 + |payloads[0]|] == payloads[0]
    requires Holds(d, at + 2 + |payloads[0]|, payloads[1..])
    ensures Holds(d, at, payloads)
  {
    hide BigEndian;
    var p := payloads[0];
    var rest := ParseBlocks(d, at + 2 + |p|, |payloads| - 1).value;
    var bs := ParseBlocks(d, at, |payloads|).value;
    assert bs == [Block(at + 2, |p|)] + rest;
    var ps := Payloads(d, bs);
    forall i | 0 <= i < |payloads| ensures |ps| == |payloads| && ps[i] == payloads[i] {
      assert i > 0 ==> Payloads(d, rest)[i - 1] == payloads[1..][i - 1];
    }
  }

  /** Encoded payloads parse back to themselves, with any octets before and after. */
  lemma {:induction false} BlocksRoundTrip(before: Octets, payloads: seq<Octets>, after: Octets)
    requires BlocksFit(payloads)
    ensures Holds(before + EncodeBlocks(payloads) + after, |before|, payloads)
    decreases |payloads|
  {
    var d := before + EncodeBlocks(payloads) + after;
    if payloads != [] {
      var (p, len) := (payloads[0], ToBigEndian(|payloads[0]|, 2));
      BigEndianOfEncoding(|p|, 2);
      Layout(before, len, p, EncodeBlocks(payloads[1..]), after);
      BlocksRoundTrip(before + len + p, payloads[1..], after);
      hide Holds;
      hide BigEndian;
      hide ToBigEndian;
      HoldsCons(d, |before|, payloads);
    }
  }

  // ---------------------------------------------------------- request packet

  /** Request packet: session, first sequence, message count; no block follows. */
  function EncodeRequest(session: Octets, startSeq: nat, count: nat): Octets {
    session + ToBigEndian(startSeq, 8) + ToBigEndian(count, 2)
  }

  /** A server reading the request with the header layout sees what was asked for. */
  lemma RequestRoundTrip(session: Octets, startSeq: nat, count: nat)
    requires HeaderFits(DownstreamHeader(session, startSeq, count))
    ensures |EncodeRequest(session, startSeq, count)| == 20
    ensures ParseHeader(EncodeRequest(session, startSeq, count))
         == Ok(DownstreamHeader(session, startSeq, count))
  {
    var h := DownstreamHeader(session, startSeq, count);
    HeaderRoundTrip(h, []);
    assert EncodeRequest(session, startSeq, count) == EncodeHeader(h) + [];
  }
}
