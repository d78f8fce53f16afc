/** SoupBinTCP logical packets: framing, and the pure reading of a server's stream. */
module SoupWire {
  import opened Octets

  datatype PacketType =
    | LoginRequest | LoginAccepted | LoginRejected | SequencedData | ServerHeartbeat
    | EndOfSession | Debug | UnsequencedData | ClientHeartbeat | LogoutRequest

  datatype SoupError = FrameTooLarge | ZeroLength | UnknownType(code: octet) | Unexpected | BadLogin

  datatype Packet = Packet(ty: PacketType, payload: Octets)

  const MAX_PAYLOAD := 0xFFFE

  function TypeCode(ty: PacketType): octet {
    match ty
    case LoginRequest => 'L' as int
    case LoginAccepted => 'A' as int
    case LoginRejected => 'J' as int
    case SequencedData => 'S' as int
    case ServerHeartbeat => 'H' as int
    case EndOfSession => 'Z' as int
    case Debug => '+' as int
    case UnsequencedData => 'U' as int
    case ClientHeartbeat => 'R' as int
    case LogoutRequest => 'O' as int
  }

  function TypeOf(code: octet): Option<PacketType> {
    if code == 'L' as int then Some(LoginRequest)
    else if code == 'A' as int then Some(LoginAccepted)
    else if code == 'J' as int then Some(LoginRejected)
    else if code == 'S' as int then Some(SequencedData)
    else if code == 'H' as int then Some(ServerHeartbeat)
    else if code == 'Z' as int then Some(EndOfSession)
    else if code == '+' as int then Some(Debug)
    else if code == 'U' as int then Some(UnsequencedData)
    else if code == 'R' as int then Some(ClientHeartbeat)
    else if code == 'O' as int then Some(LogoutRequest)
    else None
  }

  /** One packet off the front of `buf`, `None` while it is incomplete. */
  function ParsePacket(buf: Octets): (r: Result<Option<(Packet, nat)>, SoupError>)
    ensures r.Ok? && r.value.Some? ==> 3 <= r.value.value.1 <= |buf|
  {
    if |buf| < 3 then Ok(None)
    else
      var len := BigEndian(buf[..2]);
      if len < 1 then Err(ZeroLength)
      else if |buf| < 2 + len then Ok(None)
      else
        match TypeOf(buf[2])
        case None => Err(UnknownType(buf[2]))
        case Some(ty) => Ok(Some((Packet(ty, buf[3..2 + len]), 2 + len)))
  }

  /** `ParsePacket` behind the frame size guard on the length prefix. */
  function Take(buf: Octets, maxFrame: nat): (r: Result<Option<(Packet, nat)>, SoupError>)
    ensures r.Ok? && r.value.Some? ==> 3 <= r.value.value.1 <= |buf|
  {
    if 2 <= |buf| && 2 + BigEndian(buf[..2]) > maxFrame then Err(FrameTooLarge)
    else ParsePacket(buf)
  }

  function Encode(p: Packet): Octets {
    ToBigEndian(1 + |p.payload|, 2) + [TypeCode(p.ty)] + p.payload
  }

  function EncodeAll(ps: seq<Packet>): Octets {
    if ps == [] then [] else EncodeAll(ps[..|ps| - 1]) + Encode(ps[|ps| - 1])
  }

  // ------------------------------------------------------------------- framing

  lemma TypeRoundTrip(ty: PacketType, code: octet)
    ensures TypeOf(TypeCode(ty)) == Some(ty)
    ensures TypeOf(code).Some? ==> TypeCode(TypeOf(code).value) == code
  {
  }

  /** A packet that was read is the encoding at the front of the buffer. */
  lemma PacketDecodes(buf: Octets)
    requires ParsePacket(buf).Ok? && ParsePacket(buf).value.Some?
    ensures var (p, n) := ParsePacket(buf).value.value;
            |p.payload| <= MAX_PAYLOAD && n == 3 + |p.payload| && buf[..n] == Encode(p)
  {
    Widths();
    var len := BigEndian(buf[..2]);
    EncodingOfBigEndian(buf[..2]);
    TypeRoundTrip(Debug, buf[2]);
    var (p, n) := ParsePacket(buf).value.value;
    hide BigEndian;
    hide ToBigEndian;
    hide TypeOf;
    assert buf[..n] == buf[..2] + [buf[2]] + buf[3..n];
  }

  /** Where the parts of a packet sit in a buffer. */
  lemma Layout(len: Octets, code: octet, payload: Octets, rest: Octets)
    requires |len| == 2
    ensures var buf := len + [code] + payload + rest;
            && |buf| == 3 + |payload| + |rest|
            && buf[..2] == len && buf[2] == code && buf[3..3 + |payload|] == payload && buf[3 + |payload|..] == rest
  {
  }

  /** An encoded packet is read back whole, whatever follows it. */
  lemma PacketRoundTrip(p: Packet, rest: Octets)
    requires |p.payload| <= MAX_PAYLOAD
    ensures |Encode(p)| == 3 + |p.payload|
    ensures ParsePacket(Encode(p) + rest) == Ok(Some((p, 3 + |p.payload|)))
    ensures BigEndian((Encode(p) + rest)[..2]) == 1 + |p.payload|
    ensures (Encode(p) + rest)[3 + |p.payload|..] == rest
  {
    Widths();
    hide BigEndian;
    hide ToBigEndian;
    hide TypeOf;
    hide TypeCode;
    BigEndianOfEncoding(1 + |p.payload|, 2);
    TypeRoundTrip(p.ty, 0);
    Layout(ToBigEndian(1 + |p.payload|, 2), TypeCode(p.ty), p.payload, rest);
  }

  /** Reading does not depend on what has not arrived yet. */
  lemma TakeIsStable(buf: Octets, more: Octets, maxFrame: nat)
    ensures var r := Take(buf, maxFrame);
            r.Err? || r.value.Some? ==> Take(buf + more, maxFrame) == r
  {
    hide BigEndian;
    hide TypeOf;
    var r := Take(buf, maxFrame);
    if 2 <= |buf| {
      assert (buf + more)[..2] == buf[..2];
    }
    if r.Ok? && r.value.Some? {
      var n := r.value.value.1;
      assert (buf + more)[3..n] == buf[3..n];
    }
  }

  // ---------------------------------------------------------- reading a stream

  ghost predicate Framed(ps: seq<Packet>, maxFrame: nat) {
    forall i :: 0 <= i < |ps| ==> |ps[i].payload| <= MAX_PAYLOAD && 3 + |ps[i].payload| <= maxFrame
  }

  /** All whole packets of `stream`, up to the first bad one. */
  function Packets(stream: Octets, maxFrame: nat): seq<Packet>
    decreases |stream|
  {
    var r := Take(stream, maxFrame);
    if r.Err? || r.value.None? then []
    else [r.value.value.0] + Packets(stream[r.value.value.1..], maxFrame)
  }

  lemma TakeEncoded(p: Packet, rest: Octets, maxFrame: nat)
    requires |p.payload| <= MAX_PAYLOAD && 3 + |p.payload| <= maxFrame
    ensures Take(Encode(p) + rest, maxFrame) == Ok(Some((p, 3 + |p.payload|)))
    ensures (Encode(p) + rest)[3 + |p.payload|..] == rest
  {
    hide BigEndian;
    hide ParsePacket;
    hide Encode;
    PacketRoundTrip(p, rest);
  }

  /** Reading an encoded packet off the front leaves the rest. */
  lemma PacketsCons(p: Packet, rest: Octets, maxFrame: nat)
    requires |p.payload| <= MAX_PAYLOAD && 3 + |p.payload| <= maxFrame
    ensures Packets(Encode(p) + rest, maxFrame) == [p] + Packets(rest, maxFrame)
  {
    hide Take;
    hide Encode;
    TakeEncoded(p, rest, maxFrame);
  }

  /** However the stream came in, its packets are those written, then those of the rest. */
  lemma {:induction false} PacketsOfEncoding(ps: seq<Packet>, rest: Octets, maxFrame: nat)
    requires Framed(ps, maxFrame)
    ensures Packets(EncodeAll(ps) + rest, maxFrame) == ps + Packets(rest, maxFrame)
    decreases |ps|
  {
    hide Packets;
    hide Encode;
    if ps == [] {
      assert [] + rest == rest && [] + Packets(rest, maxFrame) == Packets(rest, maxFrame);
    } else {
      var (init, p) := (ps[..|ps| - 1], ps[|ps| - 1]);
      PacketsOfEncoding(init, Encode(p) + rest, maxFrame);
      Assoc(EncodeAll(init), Encode(p), rest);
      PacketsCons(p, rest, maxFrame);
      assert init + ([p] + Packets(rest, maxFrame)) == ps + Packets(rest, maxFrame);
    }
  }

  /** Bytes written by queueing packets parse back to those packets. */
  lemma EncodingParsesBack(ps: seq<Packet>)
    requires Framed(ps, 3 + MAX_PAYLOAD)
    ensures Packets(EncodeAll(ps), 3 + MAX_PAYLOAD) == ps
  {
    PacketsOfEncoding(ps, [], 3 + MAX_PAYLOAD);
    assert EncodeAll(ps) + [] == EncodeAll(ps);
    assert Packets([], 3 + MAX_PAYLOAD) == [];
  }
}
