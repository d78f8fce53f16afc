/** A SoupBinTCP client session: login, stream and close, over a transport that cuts
    the byte stream anywhere in both directions. */
module SoupSession {
  import opened Octets
  import opened Clock
  import opened SoupWire
  import opened SoupReading
  import SoupServer
  import SoupLogin

  // ---------------------------------------------------------------- transport

  datatype Incoming = Chunk(bytes: Octets) | ReadFailed
  datatype Outgoing = Room(n: nat) | WriteFailed

  /** The octets of all reads still to come. */
  ghost function Bytes(incoming: seq<Incoming>): Octets {
    if incoming == [] then [] else (if incoming[0].Chunk? then incoming[0].bytes else []) + Bytes(incoming[1..])
  }

  lemma {:induction false} BytesConcat(log: seq<Incoming>, more: seq<Incoming>)
    ensures Bytes(log + more) == Bytes(log) + Bytes(more)
  {
    if log == [] {
      assert log + more == more;
    } else {
      BytesConcat(log[1..], more);
      assert (log + more)[1..] == log[1..] + more;
    }
  }

  /** Reads that came up empty. */
  ghost function Dry(log: seq<Incoming>): nat {
    multiset(log)[Chunk([])]
  }

  /** Reads and writes that failed. */
  ghost function Faults(readLog: seq<Incoming>, writeLog: seq<Outgoing>): nat {
    multiset(readLog)[ReadFailed] + multiset(writeLog)[WriteFailed]
  }

  /** Writing `n` octets, as far as the transport takes them, meets a failure. */
  ghost predicate WriteFails(n: nat, outgoing: seq<Outgoing>)
    decreases n
  {
    && n > 0 && outgoing != []
    && (outgoing[0].Room? ==> 0 < outgoing[0].n < n && WriteFails(n - outgoing[0].n, outgoing[1..]))
  }

  /** A connected stream. What it will deliver and accept is fixed beforehand: any
      cut of the server's bytes, any partial write; past the list it is idle. `readLog`
      and `writeLog` are the parts of the two lists used up. */
  class Peer {
    var incoming: seq<Incoming>
    var outgoing: seq<Outgoing>
    ghost var readLog: seq<Incoming>
    ghost var writeLog: seq<Outgoing>
    ghost var delivered: Octets
    ghost var accepted: Octets

    constructor (incoming: seq<Incoming>, outgoing: seq<Outgoing>)
      ensures this.incoming == incoming && this.outgoing == outgoing && Untouched()
    {
      this.incoming, this.outgoing, readLog, writeLog, delivered, accepted := incoming, outgoing, [], [], [], [];
    }

    ghost predicate Untouched()
      reads this
    {
      readLog == [] && writeLog == [] && delivered == [] && accepted == []
    }

    /** All the server sends: delivered or still to come. */
    ghost function Given(): Octets
      reads this
    {
      delivered + Bytes(incoming)
    }

    /** All that is scripted: used up or still to come. */
    ghost function Script(): (seq<Incoming>, seq<Outgoing>)
      reads this
    {
      (readLog + incoming, writeLog + outgoing)
    }

    /** The server's stream and the script are the same. */
    twostate predicate Flowed()
      reads this
    {
      && Given() == old(Given()) && old(delivered) <= delivered && old(accepted) <= accepted
      && Script() == old(Script()) && |incoming| <= |old(incoming)|
    }

    /** Nothing more can be written now: past the script, or the transport is full. */
    ghost predicate Full()
      reads this
    {
      outgoing == [] || (writeLog != [] && writeLog[|writeLog| - 1] == Room(0))
    }

    /** `Ok([])` when nothing is ready: a read that comes up empty, or the script's end. */
    method RecvInto() returns (r: Result<Octets, ()>)
      modifies this`incoming, this`readLog, this`delivered
      ensures Flowed() && delivered == old(delivered) + (if r.Ok? then r.value else [])
      ensures if old(incoming) == [] then r == Ok([]) && readLog == old(readLog) && incoming == []
              else |incoming| < |old(incoming)|
                   && readLog == old(readLog) + [if r.Ok? then Chunk(r.value) else ReadFailed]
    {
      if incoming == [] {
        return Ok([]);
      }
      var read := incoming[0];
      assert readLog + incoming == (readLog + [read]) + incoming[1..];
      readLog, incoming := readLog + [read], incoming[1..];
      match read
      case ReadFailed => return Err(());
      case Chunk(bytes) =>
        Assoc(delivered, bytes, Bytes(incoming));
        delivered := delivered + bytes;
        return Ok(bytes);
    }

    /** Accepts a prefix of `buf`, of length zero when its buffer is full. */
    method TrySend(buf: Octets) returns (r: Result<nat, ()>)
      modifies this`outgoing, this`writeLog, this`accepted
      ensures r.Ok? ==> r.value <= |buf| && accepted == old(accepted) + buf[..r.value]
      ensures r.Err? ==> accepted == old(accepted)
      ensures Script() == old(Script())
      ensures multiset(writeLog)[WriteFailed] == old(multiset(writeLog)[WriteFailed]) + if r.Err? then 1 else 0
      ensures r == Ok(0) && buf != [] ==> Full()
      ensures buf != [] ==>
                match r
                case Err(_) => WriteFails(|buf|, old(outgoing))
                case Ok(k) => WriteFails(|buf|, old(outgoing)) <==> k > 0 && WriteFails(|buf| - k, outgoing)
    {
      if outgoing == [] {
        return Ok(0);
      }
      var write := outgoing[0];
      assert writeLog + outgoing == (writeLog + [write]) + outgoing[1..];
      writeLog, outgoing := writeLog + [write], outgoing[1..];
      match write
      case WriteFailed => return Err(());
      case Room(n) =>
        var k := if n < |buf| then n else |buf|;
        accepted := accepted + buf[..k];
        return Ok(k);
    }
  }

  // ------------------------------------------------------------------ session

  datatype ClientState = Auth | Stream | Closed

  datatype Config = Config(
    maxFrameSize: nat, heartbeatInterval: nat, heartbeatTimeout: nat, loginTimeout: nat,
    username: Octets, password: Octets, requestedSession: Octets, requestedSequence: nat)

  /** The login request a client opens its session with. */
  function Login(cfg: Config): Packet {
    Packet(LoginRequest,
           SoupLogin.LoginRequest(cfg.username, cfg.password, cfg.requestedSession, cfg.requestedSequence))
  }

  /** The octets of a login request: length 47, the letter L, then the fields. */
  ghost predicate LogsInWith(cfg: Config, octets: Octets) {
    && |octets| == 49 && octets[..3] == [0, 47, 0x4C]
    && SoupLogin.AsksToLogIn(octets[3..], cfg.username, cfg.password, cfg.requestedSession, cfg.requestedSequence)
  }

  lemma LoginOctets(cfg: Config)
    ensures LogsInWith(cfg, EncodeAll([Login(cfg)])) && EncodeAll([Login(cfg)]) == Encode(Login(cfg))
  {
    hide SoupLogin.AsksToLogIn;
    hide SoupLogin.LoginRequest;
    var p := Login(cfg);
    SoupLogin.LoginRequestReads(cfg.username, cfg.password, cfg.requestedSession, cfg.requestedSequence);
    SoupServer.FrameIsEncoding(LoginRequest, p.payload);
    SoupServer.Letters();
    assert [p][..0] == [] && [] + Encode(p) == Encode(p);
    assert EncodeAll([p]) == EncodeAll([]) + Encode(p);
    assert Encode(p)[3..] == p.payload;
  }

  datatype Message = FromServer(output: Output) | HeartbeatSent | HeartbeatTimeout

  datatype PollError = EndOfSessionError | LoginTimeout | Protocol(error: SoupError) | Transport

  type PollResult = Result<Option<Message>, PollError>

  /** Outputs that end the session. */
  predicate Ends(o: Output) {
    o.Rejected? || o.SessionEnd?
  }

  /** The answer that opens the stream. */
  predicate LogsIn(r: Result<Option<Output>, SoupError>) {
    r.Ok? && r.value.Some? && r.value.value.Accepted?
  }

  /** What a poll's result says the server sent. */
  function ServerOutput(r: PollResult): seq<Output> {
    if r.Ok? && r.value.Some? && r.value.value.FromServer? then [r.value.value.output] else []
  }

  /** Poll results with nothing more to read. */
  predicate Idles(r: PollResult) {
    r == Ok(None) || r == Err(LoginTimeout) || r == Ok(Some(HeartbeatTimeout))
  }

  /** Poll results that open the stream. */
  predicate OpensStream(r: PollResult) {
    r.Ok? && r.value.Some? && r.value.value.FromServer? && r.value.value.output.Accepted?
  }

  /** Poll results that close the session. */
  predicate Closes(r: PollResult) {
    match r
    case Err(e) => e == LoginTimeout
    case Ok(None) => false
    case Ok(Some(m)) => m == HeartbeatTimeout || (m.FromServer? && Ends(m.output))
  }

  /** Of these, the ones that drop what was not yet written. */
  predicate Drops(r: PollResult) {
    r == Err(LoginTimeout) || r == Ok(Some(HeartbeatTimeout)) || r == Ok(Some(FromServer(SessionEnd)))
  }

  class SoupBinClient {
    const cfg: Config
    const peer: Peer
    var state: ClientState
    var decodeBuf: Octets
    var out: Octets
    var nextExpected: nat
    var lastSend: nat
    var lastRecv: nat
    var loginDeadline: nat
    // history: packets taken off the stream and what they read as, packets queued,
    // whether a protocol error was reported, whether queued bytes were dropped
    ghost var packets: seq<Packet>
    ghost var queued: seq<Packet>
    ghost var failed: bool
    ghost var dropped: bool

    /** Packets taken plus what is buffered is all that was delivered, and the state
        is that of the packets' reading. */
    ghost predicate Inbound()
      reads this, peer
    {
      && peer.delivered == EncodeAll(packets) + decodeBuf
      && Framed(packets, cfg.maxFrameSize)
      && Read(packets).ok
      && (state == Auth ==> Read(packets).phase == Authenticating)
      && (state == Stream ==> Read(packets).phase == Streaming(nextExpected))
    }

    /** Accepted bytes plus the buffer are the encodings of all queued packets; once
        the buffer was dropped the session is closed for good. */
    ghost predicate Outbound()
      reads this, peer
    {
      && Framed(queued, 3 + MAX_PAYLOAD)
      && (!dropped ==> peer.accepted + out == EncodeAll(queued))
      && (dropped ==> state == Closed && out == [] && peer.accepted <= EncodeAll(queued))
    }

    ghost predicate Valid()
      reads this, peer
    {
      (!failed ==> Inbound()) && Outbound()
    }

    /** What was read broke the protocol: a bad frame comes next or a packet out of place
        came last. */
    ghost predicate Broken()
      reads this, peer
    {
      && peer.delivered == EncodeAll(packets) + decodeBuf
      && Framed(packets, cfg.maxFrameSize)
      && (Take(decodeBuf, cfg.maxFrameSize).Err? || !Read(packets).ok)
    }

    ghost function Outputs(): seq<Output>
      reads this
    {
      Read(packets).outputs
    }

    constructor (cfg: Config, peer: Peer, now: nat)
      requires peer.Untouched()
      ensures Valid() && this.cfg == cfg && this.peer == peer && state == Auth
      ensures packets == [] && queued == [] && out == [] && !failed && !dropped
      ensures lastSend == now && lastRecv == now
    {
      this.cfg, this.peer := cfg, peer;
      state, decodeBuf, out, nextExpected := Auth, [], [], 0;
      lastSend, lastRecv, loginDeadline := now, now, now;
      packets, queued, failed, dropped := [], [], false, false;
    }

    // ---------------------------------------------------------------- outbound

    method Queue(ty: PacketType, payload: Octets) returns (r: Result<(), SoupError>)
      requires Valid() && !dropped
      modifies this`out, this`queued
      ensures Valid()
      ensures |payload| <= MAX_PAYLOAD ==>
                r == Ok(()) && queued == old(queued) + [Packet(ty, payload)] && |out| == |old(out)| + 3 + |payload|
      ensures |payload| > MAX_PAYLOAD ==> r == Err(FrameTooLarge) && queued == old(queued) && out == old(out)
    {
      hide EncodeAll;
      hide Read;
      hide Encode;
      hide Framed;
      if 1 + |payload| > 0xFFFF {
        return Err(FrameTooLarge);
      }
      QueueSnoc(peer.accepted, out, queued, Packet(ty, payload));
      out := out + Encode(Packet(ty, payload));
      queued := queued + [Packet(ty, payload)];
      return Ok(());
    }

    /** Writes until the buffer is empty or the transport is full; the time is noted exactly
        when this emptied it. */
    method Flush(now: nat) returns (ok: bool)
      requires Valid()
      modifies this`out, this`lastSend, peer`outgoing, peer`writeLog, peer`accepted
      ensures Valid() && |out| <= |old(out)|
      ensures lastSend == if old(out) != [] && out == [] then now else old(lastSend)
      ensures |peer.accepted| + |out| == |old(peer.accepted)| + |old(out)|
      ensures peer.Flowed()
      ensures Faults(peer.readLog, peer.writeLog) == old(Faults(peer.readLog, peer.writeLog)) + if ok then 0 else 1
      ensures ok <==> !WriteFails(|old(out)|, old(peer.outgoing))
      ensures if ok then out == [] || peer.Full() else out != []
    {
      hide EncodeAll;
      hide Read;
      hide Bytes;
      while out != []
        invariant Valid() && |out| <= |old(out)|
        invariant lastSend == if old(out) != [] && out == [] then now else old(lastSend)
        invariant |peer.accepted| + |out| == |old(peer.accepted)| + |old(out)|
        invariant peer.Flowed() && Faults(peer.readLog, peer.writeLog) == old(Faults(peer.readLog, peer.writeLog))
        invariant WriteFails(|out|, peer.outgoing) <==> WriteFails(|old(out)|, old(peer.outgoing))
        decreases |out|
      {
        var n := peer.TrySend(out);
        if n.Err? {
          return false;
        }
        if n.value == 0 {
          return true;
        }
        out := out[n.value..];
        if out == [] {
          lastSend := now;
        }
      }
      return true;
    }

    method QueueLogin(now: nat) returns (r: Result<(), SoupError>)
      requires Valid() && !dropped
      modifies this`out, this`queued, this`loginDeadline
      ensures Valid() && r == Ok(()) && queued == old(queued) + [Login(cfg)] && |out| == |old(out)| + 49
      ensures loginDeadline == now + cfg.loginTimeout
    {
      hide SoupLogin.LoginRequest;
      r := Queue(LoginRequest, Login(cfg).payload);
      loginDeadline := now + cfg.loginTimeout;
    }

    /** Refused once closed, so nothing is queued behind a logout or a dropped buffer. */
    method QueueUnsequenced(payload: Octets) returns (r: Result<(), PollError>)
      requires Valid()
      modifies this`out, this`queued
      ensures Valid()
      ensures r == if state == Closed then Err(EndOfSessionError)
                   else if |payload| > MAX_PAYLOAD then Err(Protocol(FrameTooLarge))
                   else Ok(())
      ensures queued == if r.Ok? then old(queued) + [Packet(UnsequencedData, payload)] else old(queued)
      ensures if r.Ok? then |out| == |old(out)| + 3 + |payload| else out == old(out)
    {
      if state == Closed {
        return Err(EndOfSessionError);
      }
      var q := Queue(UnsequencedData, payload);
      if q.Err? {
        return Err(Protocol(q.error));
      }
      return Ok(());
    }

    /** Queues the logout and closes; later polls still flush it. */
    method QueueLogout() returns (r: Result<(), PollError>)
      requires Valid()
      modifies this`out, this`queued, this`state
      ensures Valid() && state == Closed
      ensures r == if old(state) == Closed then Err(EndOfSessionError) else Ok(())
      ensures queued == if r.Ok? then old(queued) + [Packet(LogoutRequest, [])] else old(queued)
      ensures if r.Ok? then |out| == |old(out)| + 3 else out == old(out)
    {
      if state == Closed {
        return Err(EndOfSessionError);
      }
      var q := Queue(LogoutRequest, []);
      state := Closed;
      return Ok(());
    }

    /** Closes for good, dropping what was not yet written. */
    method Abandon()
      requires Valid()
      modifies this`state, this`out, this`dropped
      ensures Valid() && state == Closed && out == [] && dropped
    {
      state := Closed;
      out := [];
      dropped := true;
    }

    // ----------------------------------------------------------------- inbound

    /** Lands one chunk in the decode buffer; `false` when nothing was ready. */
    method Ingest(now: nat) returns (r: Result<bool, ()>)
      requires Valid()
      modifies this`decodeBuf, this`lastRecv, peer`incoming, peer`readLog, peer`delivered
      ensures Valid() && peer.Flowed()
      ensures r == Ok(true) ==> |peer.incoming| < |old(peer.incoming)|
      ensures |peer.incoming| <= |old(peer.incoming)|
      ensures r != Ok(true) ==> decodeBuf == old(decodeBuf)
      ensures (r == Ok(true)) == (|peer.delivered| > |old(peer.delivered)|)
      ensures lastRecv == if r == Ok(true) then now else old(lastRecv)
      ensures Dry(peer.readLog) == old(Dry(peer.readLog)) + if r == Ok(false) && old(peer.incoming) != [] then 1 else 0
      ensures Faults(peer.readLog, peer.writeLog) == old(Faults(peer.readLog, peer.writeLog)) + if r.Err? then 1 else 0
    {
      hide EncodeAll;
      hide Read;
      hide Bytes;
      var chunk := peer.RecvInto();
      if chunk.Err? {
        return Err(());
      }
      decodeBuf := decodeBuf + chunk.value;
      if chunk.value != [] {
        lastRecv := now;
      }
      return Ok(chunk.value != []);
    }

    /** Splits the next whole packet off the decode buffer. */
    method TakePacket() returns (r: Result<Option<Packet>, SoupError>)
      modifies this`decodeBuf
      ensures match Take(old(decodeBuf), cfg.maxFrameSize)
              case Err(e) => r == Err(e) && decodeBuf == old(decodeBuf)
              case Ok(None) => r == Ok(None) && decodeBuf == old(decodeBuf)
              case Ok(Some((p, n))) =>
                && r == Ok(Some(p)) && old(decodeBuf) == Encode(p) + decodeBuf && |decodeBuf| < |old(decodeBuf)|
                && |p.payload| <= MAX_PAYLOAD && 3 + |p.payload| <= cfg.maxFrameSize
    {
      if 2 <= |decodeBuf| && 2 + BigEndian(decodeBuf[..2]) > cfg.maxFrameSize {
        return Err(FrameTooLarge);
      }
      var parsed := ParsePacket(decodeBuf);
      if parsed.Err? {
        return Err(parsed.error);
      }
      if parsed.value.None? {
        return Ok(None);
      }
      var (p, n) := parsed.value.value;
      PacketDecodes(decodeBuf);
      hide BigEndian;
      assert decodeBuf == decodeBuf[..n] + decodeBuf[n..];
      decodeBuf := decodeBuf[n..];
      return Ok(Some(p));
    }

    /** Account for a packet just taken off the buffer that broke no rule. */
    ghost method Account(p: Packet, before: Octets)
      requires !failed && peer.delivered == EncodeAll(packets) + before && before == Encode(p) + decodeBuf
      requires |p.payload| <= MAX_PAYLOAD && 3 + |p.payload| <= cfg.maxFrameSize && Framed(packets, cfg.maxFrameSize)
      modifies this`packets
      ensures packets == old(packets) + [p] && Framed(packets, cfg.maxFrameSize)
      ensures peer.delivered == EncodeAll(packets) + decodeBuf
      ensures ReadsNext(Read(old(packets)), p, Read(packets))
    {
      EncodeAllSnoc(packets, p);
      ReadStep(packets, p);
      packets := packets + [p];
    }

    /** Takes the next packet, keeping the account of what was read. */
    method TakeAccounted() returns (r: Result<Option<Packet>, SoupError>)
      requires Valid() && state != Closed
      modifies this`decodeBuf, this`packets, this`failed
      ensures Outbound()
      ensures r.Err? ==> failed && packets == old(packets) && (!old(failed) ==> Broken())
      ensures r == Ok(None) ==> Valid() && failed == old(failed) && packets == old(packets)
      ensures r == Ok(None) ==> Take(decodeBuf, cfg.maxFrameSize) == Ok(None)
      ensures r.Ok? && r.value.Some? ==>
                && failed == old(failed) && |decodeBuf| < |old(decodeBuf)|
                && (!failed ==> Facing(old(Read(packets)), r.value.value))
    {
      hide Read;
      hide EncodeAll;
      hide Take;
      ghost var before := decodeBuf;
      r := TakePacket();
      if r.Err? {
        failed := true;
      } else if r.value.Some? && !failed {
        Account(r.value.value, before);
      }
    }

    /** Packet `p` was just taken, on top of what read as `before`. */
    ghost predicate Facing(before: Reading, p: Packet)
      reads this, peer
    {
      && peer.delivered == EncodeAll(packets) + decodeBuf && Framed(packets, cfg.maxFrameSize)
      && ReadsNext(before, p, Read(packets)) && before.ok
      && (state == Auth ==> before.phase == Authenticating)
      && (state == Stream ==> before.phase == Streaming(nextExpected))
    }

    /** What answering packets did, in terms of the reading of the packets taken:
        `before` is what had been read until then. */
    twostate predicate Answered(before: seq<Output>, new r: Result<Option<Output>, SoupError>)
      reads this, peer
    {
      && failed == (old(failed) || r.Err?)
      && (!old(failed) ==> Outputs() == before + if r.Ok? && r.value.Some? then [r.value.value] else [])
      && (!old(failed) && failed ==> Broken())
      && (state == Closed <==> r.Ok? && r.value.Some? && Ends(r.value.value))
      && dropped == (old(dropped) || r == Ok(Some(SessionEnd)))
      && (state == Stream <==> state != Closed && (old(state) == Stream || LogsIn(r)))
    }

    /** Answers one packet before login; `None` when it is passed over. */
    method AnswerLogin(p: Packet, now: nat, ghost before: Reading) returns (r: Result<Option<Output>, SoupError>)
      requires state == Auth && Outbound() && (!failed ==> Facing(before, p))
      modifies this`state, this`nextExpected, this`lastRecv, this`failed
      ensures Valid() && Answered(before.outputs, r) && (r == Ok(None) ==> state == Auth)
      ensures lastRecv == if LogsIn(r) then now else old(lastRecv)
    {
      hide Read;
      hide EncodeAll;
      hide Take;
      hide Framed;
      hide SoupLogin.ParseLoginAccepted;
      hide ReadsNext;
      if !failed {
        LoginReads(before, p, Read(packets));
      }
      hide React;
      match p.ty {
        case LoginAccepted =>
          var login := SoupLogin.ParseLoginAccepted(p.payload);
          if login.Err? {
            failed := true;
            return Err(BadLogin);
          }
          nextExpected := login.value.1;
          lastRecv := now;
          state := Stream;
          return Ok(Some(Accepted(login.value.0, login.value.1)));
        case LoginRejected =>
          if p.payload == [] {
            failed := true;
            return Err(BadLogin);
          }
          state := Closed;
          return Ok(Some(Rejected(p.payload[0])));
        case Debug =>
          return Ok(None);
        case ServerHeartbeat =>
          return Ok(None);
        case _ =>
          failed := true;
          return Err(Unexpected);
      }
    }

    /** Answers one packet of the stream; `None` when it is passed over. */
    method AnswerStream(p: Packet, ghost before: Reading) returns (r: Result<Option<Output>, SoupError>)
      requires state == Stream && Outbound() && (!failed ==> Facing(before, p))
      modifies this`state, this`nextExpected, this`failed, this`out, this`dropped
      ensures Valid() && Answered(before.outputs, r) && (r == Ok(None) ==> state == Stream)
      ensures !LogsIn(r) && out == if r == Ok(Some(SessionEnd)) then [] else old(out)
    {
      hide Read;
      hide EncodeAll;
      hide Take;
      hide Framed;
      match p.ty {
        case SequencedData =>
          var sequence := nextExpected;
          nextExpected := Next(nextExpected);
          return Ok(Some(Data(sequence, p.payload)));
        case ServerHeartbeat =>
          return Ok(Some(HeartbeatReceived));
        case EndOfSession =>
          state := Closed;
          out := [];
          dropped := true;
          return Ok(Some(SessionEnd));
        case Debug =>
          return Ok(None);
        case _ =>
          failed := true;
          return Err(Unexpected);
      }
    }

    /** Reads buffered packets up to the login answer. */
    method DispatchLogin(now: nat) returns (r: Result<Option<Output>, SoupError>)
      requires Valid() && state == Auth
      modifies this`state, this`decodeBuf, this`nextExpected, this`lastRecv, this`packets, this`failed
      ensures Valid() && Answered(old(Outputs()), r)
      ensures r == Ok(None) ==> state == Auth && Take(decodeBuf, cfg.maxFrameSize) == Ok(None)
      ensures lastRecv == if LogsIn(r) then now else old(lastRecv)
    {
      hide Read;
      hide EncodeAll;
      hide Take;
      hide Framed;
      hide ReadsNext;
      while true
        invariant Valid() && state == old(state) == Auth && failed == old(failed) && lastRecv == old(lastRecv)
        invariant !failed ==> Outputs() == old(Outputs())
        decreases |decodeBuf|
      {
        ghost var before := Read(packets);
        var taken := TakeAccounted();
        if taken.Err? {
          return Err(taken.error);
        }
        if taken.value.None? {
          return Ok(None);
        }
        r := AnswerLogin(taken.value.value, now, before);
        if r != Ok(None) {
          return;
        }
      }
    }

    /** Reads the first buffered packet that is not debug. */
    method DispatchStream() returns (r: Result<Option<Output>, SoupError>)
      requires Valid() && state == Stream
      modifies this`state, this`decodeBuf, this`nextExpected, this`packets, this`failed, this`out, this`dropped
      ensures Valid() && Answered(old(Outputs()), r)
      ensures r == Ok(None) ==> state == Stream && Take(decodeBuf, cfg.maxFrameSize) == Ok(None)
      ensures !LogsIn(r) && out == if r == Ok(Some(SessionEnd)) then [] else old(out)
    {
      hide Read;
      hide EncodeAll;
      hide Take;
      hide Framed;
      hide ReadsNext;
      while true
        invariant Valid() && state == old(state) == Stream && failed == old(failed) && dropped == old(dropped)
        invariant out == old(out)
        invariant !failed ==> Outputs() == old(Outputs())
        decreases |decodeBuf|
      {
        ghost var before := Read(packets);
        var taken := TakeAccounted();
        if taken.Err? {
          return Err(taken.error);
        }
        if taken.value.None? {
          return Ok(None);
        }
        r := AnswerStream(taken.value.value, before);
        if r != Ok(None) {
          return;
        }
      }
    }

    // ------------------------------------------------------------------- polls

    /** What a poll reported, in terms of the reading of the packets taken. */
    twostate predicate Polled(new r: PollResult)
      reads this, peer
    {
      && failed == (old(failed) || (r.Err? && r.error.Protocol?))
      && (!old(failed) ==> Outputs() == old(Outputs()) + ServerOutput(r))
      && (!old(failed) && failed ==> Broken())
      && (state == Closed <==> old(state) == Closed || Closes(r))
      && (state == Stream <==> state != Closed && (old(state) == Stream || OpensStream(r)))
      && dropped == (old(dropped) || Drops(r))
      && peer.Flowed()
    }

    /** A failure is used up exactly when it is reported, an empty read exactly when there is
        nothing more to report, unless the script is at its end. */
    twostate predicate Spent(new idle: bool, new fault: bool)
      reads this, peer
    {
      && Faults(peer.readLog, peer.writeLog) == old(Faults(peer.readLog, peer.writeLog)) + (if fault then 1 else 0)
      && old(Dry(peer.readLog)) <= Dry(peer.readLog) <= old(Dry(peer.readLog)) + (if idle then 1 else 0)
      && (peer.incoming != [] ==> Dry(peer.readLog) == old(Dry(peer.readLog)) + if idle then 1 else 0)
    }

    /** The server was heard exactly when octets came or the login was accepted. */
    twostate predicate Heard(now: nat, new r: PollResult)
      reads this, peer
    {
      lastRecv == if |peer.delivered| > |old(peer.delivered)| || OpensStream(r) then now else old(lastRecv)
    }

    method PollLogin(now: nat) returns (r: PollResult)
      requires Valid() && state == Auth
      modifies this`state, this`decodeBuf, this`nextExpected, this`lastRecv, this`packets, this`failed, this`out
      modifies this`dropped, peer`incoming, peer`readLog, peer`delivered
      ensures Valid() && Polled(r) && Spent(Idles(r), r == Err(Transport)) && Heard(now, r)
      ensures out == old(out) || dropped
      ensures r == Ok(None) ==> Take(decodeBuf, cfg.maxFrameSize) == Ok(None) && now < loginDeadline
      ensures r == Err(LoginTimeout) ==> now >= loginDeadline
      ensures r != Err(EndOfSessionError) && r != Ok(Some(HeartbeatSent)) && r != Ok(Some(HeartbeatTimeout))
    {
      hide Read;
      hide EncodeAll;
      hide Take;
      hide Framed;
      hide Bytes;
      hide WriteFails;
      hide Valid;
      hide Broken;
      hide Dry;
      hide Faults;
      var more := true;
      while more
        invariant Valid() && state == Auth && failed == old(failed) && dropped == old(dropped) && out == old(out)
        invariant !failed ==> Outputs() == old(Outputs())
        invariant peer.Flowed() && Spent(!more, false) && Heard(now, Ok(None))
        invariant more || Take(decodeBuf, cfg.maxFrameSize) == Ok(None)
        decreases |peer.incoming|, more
      {
        var login := DispatchLogin(now);
        if login.Err? {
          return Err(Protocol(login.error));
        }
        if login.value.Some? {
          return Ok(Some(FromServer(login.value.value)));
        }
        var read := Ingest(now);
        if read.Err? {
          return Err(Transport);
        }
        more := read.value;
      }
      if now >= loginDeadline {
        Abandon();
        return Err(LoginTimeout);
      }
      return Ok(None);
    }

    /** Nothing is waiting to be written and nothing was for longer than the interval. */
    predicate HeartbeatDue(now: nat)
      reads this
    {
      out == [] && Elapsed(now, lastSend) > cfg.heartbeatInterval
    }

    method SendHeartbeat(now: nat) returns (r: PollResult)
      requires Valid() && state == Stream && out == []
      modifies this`out, this`queued, this`lastSend, peer`outgoing, peer`writeLog, peer`accepted
      ensures Valid() && queued == old(queued) + [Packet(ClientHeartbeat, [])] && peer.Flowed()
      ensures r == Ok(Some(HeartbeatSent)) || r == Err(Transport)
      ensures Spent(false, r == Err(Transport)) && |peer.accepted| + |out| == |old(peer.accepted)| + 3
      ensures lastSend == if out == [] then now else old(lastSend)
      ensures r.Ok? ==> out == [] || peer.Full()
    {
      hide Bytes;
      hide EncodeAll;
      hide Read;
      hide Dry;
      hide Faults;
      var queuedHeartbeat := Queue(ClientHeartbeat, []);
      var flushed := Flush(now);
      return if flushed then Ok(Some(HeartbeatSent)) else Err(Transport);
    }

    /** Reads until there is something to report or nothing left to read. */
    method Receive(now: nat) returns (r: PollResult)
      requires Valid() && state == Stream
      modifies this`state, this`decodeBuf, this`nextExpected, this`lastRecv, this`packets, this`failed, this`out
      modifies this`dropped, peer`incoming, peer`readLog, peer`delivered
      ensures Valid() && Polled(r) && Spent(Idles(r), r == Err(Transport)) && Heard(now, r)
      ensures out == old(out) || dropped
      ensures r == Ok(None) ==>
                Take(decodeBuf, cfg.maxFrameSize) == Ok(None) && Elapsed(now, lastRecv) <= cfg.heartbeatTimeout
      ensures r == Ok(Some(HeartbeatTimeout)) ==> Elapsed(now, lastRecv) > cfg.heartbeatTimeout
      ensures r != Err(EndOfSessionError) && r != Err(LoginTimeout) && r != Ok(Some(HeartbeatSent))
    {
      hide Read;
      hide EncodeAll;
      hide Take;
      hide Framed;
      hide Bytes;
      hide WriteFails;
      hide Valid;
      hide Broken;
      hide Dry;
      hide Faults;
      var more := true;
      while more
        invariant Valid() && state == Stream && failed == old(failed) && dropped == old(dropped) && out == old(out)
        invariant !failed ==> Outputs() == old(Outputs())
        invariant peer.Flowed() && Spent(!more, false) && Heard(now, Ok(None))
        invariant more || Take(decodeBuf, cfg.maxFrameSize) == Ok(None)
        decreases |peer.incoming|, more
      {
        var streamed := DispatchStream();
        if streamed.Err? {
          return Err(Protocol(streamed.error));
        }
        if streamed.value.Some? {
          return Ok(Some(FromServer(streamed.value.value)));
        }
        var read := Ingest(now);
        if read.Err? {
          return Err(Transport);
        }
        more := read.value;
      }
      if Elapsed(now, lastRecv) > cfg.heartbeatTimeout {
        Abandon();
        return Ok(Some(HeartbeatTimeout));
      }
      return Ok(None);
    }

    /** What an open session does about heartbeats: one goes out exactly when due, before
        anything is read; otherwise nothing is written. */
    twostate predicate Beats(now: nat, new r: PollResult)
      reads this, peer
    {
      if old(state == Stream && HeartbeatDue(now)) then
        && queued == old(queued) + [Packet(ClientHeartbeat, [])]
        && (r == Ok(Some(HeartbeatSent)) || r == Err(Transport))
        && |peer.accepted| + |out| == |old(peer.accepted)| + 3
        && lastSend == (if out == [] then now else old(lastSend))
        && (r.Ok? ==> out == [] || peer.Full()) && !dropped
      else
        && queued == old(queued) && r != Ok(Some(HeartbeatSent))
        && peer.accepted == old(peer.accepted) && (out == old(out) || dropped) && lastSend == old(lastSend)
        && peer.writeLog == old(peer.writeLog) && peer.outgoing == old(peer.outgoing)
    }

    /** The deadline and the server's silence, checked once nothing is left to read. */
    twostate predicate Judges(now: nat, new r: PollResult)
      reads this
    {
      && loginDeadline == old(loginDeadline)
      && (r == Err(LoginTimeout) ==> now >= loginDeadline && old(state) == Auth)
      && (r == Ok(Some(HeartbeatTimeout)) ==> Elapsed(now, lastRecv) > cfg.heartbeatTimeout && old(state) == Stream)
      && (r == Ok(None) && state == Auth ==> now < loginDeadline)
      && (r == Ok(None) && state == Stream ==> Elapsed(now, lastRecv) <= cfg.heartbeatTimeout)
    }

    /** A heartbeat goes out exactly when due, before anything is read; the server is
        timed out exactly past its silence with nothing left to read. */
    method PollStream(now: nat) returns (r: PollResult)
      requires Valid() && state == Stream
      modifies this, peer
      ensures Valid() && Polled(r) && Spent(Idles(r), r == Err(Transport)) && Heard(now, r) && Beats(now, r)
      ensures Judges(now, r) && r != Err(EndOfSessionError) && r != Err(LoginTimeout)
      ensures r == Ok(None) ==> Take(decodeBuf, cfg.maxFrameSize) == Ok(None)
    {
      hide Read;
      hide EncodeAll;
      hide Take;
      hide Framed;
      hide Bytes;
      hide WriteFails;
      hide Broken;
      hide Dry;
      hide Faults;
      if HeartbeatDue(now) {
        r := SendHeartbeat(now);
      } else {
        r := Receive(now);
      }
    }

    /** Nothing to report: what was delivered is all read, and it breaks no rule. */
    ghost predicate AllRead()
      reads this, peer
    {
      && Outputs() == Transcript(peer.delivered, cfg.maxFrameSize)
      && !Breaks(peer.delivered, cfg.maxFrameSize)
    }

    /** Advances an open session whose pending octets were written as far as they go. */
    method PollOpen(now: nat) returns (r: PollResult)
      requires Valid() && state != Closed
      modifies this, peer
      ensures Valid() && Polled(r) && Spent(Idles(r), r == Err(Transport)) && Heard(now, r) && Beats(now, r)
      ensures Judges(now, r) && r != Err(EndOfSessionError)
      ensures r == Ok(None) && !failed ==> AllRead()
    {
      hide Read;
      hide EncodeAll;
      hide Take;
      hide Framed;
      hide Bytes;
      hide Broken;
      hide Breaks;
      hide Transcript;
      hide Dry;
      hide Faults;
      if state == Auth {
        r := PollLogin(now);
      } else {
        r := PollStream(now);
      }
      if r == Ok(None) && !failed {
        TakenIsAll(packets, decodeBuf, cfg.maxFrameSize);
      }
    }

    /** The times the session keeps: when a poll last left nothing to write after writing
        something, and when it last heard the server. A heartbeat goes out exactly when
        nothing was left to write for longer than the interval. */
    twostate predicate Timed(now: nat, new r: PollResult)
      reads this, peer
    {
      && lastSend == (if |peer.accepted| > |old(peer.accepted)| && |peer.accepted| == |EncodeAll(queued)| then now
                      else old(lastSend))
      && Heard(now, r) && Judges(now, r)
      && (r == Ok(Some(HeartbeatSent)) ==> old(state == Stream && HeartbeatDue(now)))
      && (old(state == Stream && HeartbeatDue(now)) ==> r == Ok(Some(HeartbeatSent)) || r == Err(Transport))
    }

    /** What a poll queued: the heartbeat it reports, or one it could not write. */
    ghost predicate Beat(before: seq<Packet>, r: PollResult)
      reads this
    {
      var beaten := before + [Packet(ClientHeartbeat, [])];
      if r == Ok(Some(HeartbeatSent)) then queued == beaten
      else queued == before || (r == Err(Transport) && queued == beaten)
    }

    /** Advances the session. End of session is reported only once closed and flushed:
        unless the buffer was dropped, every queued byte is then out. Nothing to report
        in an open session means all that was delivered has been read, and it breaks no
        rule. Unless the transport fails, all is written or it is full. */
    method Poll(now: nat) returns (r: PollResult)
      requires Valid()
      modifies this, peer
      ensures Valid() && Polled(r) && Timed(now, r) && Beat(old(queued), r)
      ensures Spent(Idles(r) && old(state) != Closed, r == Err(Transport))
      ensures r == Err(EndOfSessionError) ==> old(state) == Closed && out == []
      ensures r == Err(EndOfSessionError) && !dropped ==> peer.accepted == EncodeAll(queued)
      ensures r != Err(Transport) ==> out == [] || peer.Full()
      ensures r == Ok(None) && state != Closed && !failed ==> AllRead()
      ensures old(state) == Closed ==>
                && (r == Err(EndOfSessionError) || r == Ok(None) || r == Err(Transport))
                && queued == old(queued) && |out| <= |old(out)|
    {
      hide Inbound;
      hide EncodeAll;
      hide Read;
      hide Bytes;
      hide WriteFails;
      hide Broken;
      hide AllRead;
      hide Dry;
      hide Faults;
      var flushed := Flush(now);
      if !flushed {
        return Err(Transport);
      }
      if state != Closed {
        r := PollOpen(now);
      } else if out == [] {
        assert peer.accepted + [] == peer.accepted;
        return Err(EndOfSessionError);
      } else {
        return Ok(None);
      }
    }
  }

  /** Opens a session over a connected transport; it is not opened exactly when writing
      the login request fails, whose octets are those of user, password, session and
      sequence. */
  method Start(cfg: Config, peer: Peer, now: nat) returns (r: Result<SoupBinClient, ()>)
    requires peer.Untouched()
    modifies peer`outgoing, peer`writeLog, peer`accepted
    ensures r.Err? <==> WriteFails(49, old(peer.outgoing))
    ensures peer.Flowed()
    ensures r.Ok? ==>
              && var client := r.value;
              && Dry(peer.readLog) == 0 && Faults(peer.readLog, peer.writeLog) == 0
              && fresh(client) && client.Valid() && client.cfg == cfg && client.peer == peer
              && client.state == Auth && client.packets == [] && client.queued == [Login(cfg)]
              && LogsInWith(cfg, peer.accepted + client.out)
              && !client.failed && !client.dropped && client.loginDeadline == now + cfg.loginTimeout
              && client.lastSend == now && client.lastRecv == now
  {
    hide Read;
    hide EncodeAll;
    hide Bytes;
    hide WriteFails;
    hide SoupLogin.LoginRequest;
    hide LogsInWith;
    LoginOctets(cfg);
    var client := new SoupBinClient(cfg, peer, now);
    var login := client.QueueLogin(now);
    var flushed := client.Flush(now);
    return if flushed then Ok(client) else Err(());
  }

  // ------------------------------------------------------------------ queueing

  lemma QueueSnoc(accepted: Octets, out: Octets, queued: seq<Packet>, p: Packet)
    requires accepted + out == EncodeAll(queued) && Framed(queued, 3 + MAX_PAYLOAD) && |p.payload| <= MAX_PAYLOAD
    ensures accepted + (out + Encode(p)) == EncodeAll(queued + [p]) && Framed(queued + [p], 3 + MAX_PAYLOAD)
    ensures |Encode(p)| == 3 + |p.payload|
  {
    hide EncodeAll;
    Assoc(accepted, out, Encode(p));
    EncodeAllSnoc(queued, p);
  }

  /** What a packet before login makes of a reading. */
  lemma LoginReads(before: Reading, p: Packet, after: Reading)
    requires before.ok && before.phase == Authenticating && ReadsNext(before, p, after)
    ensures match p.ty
            case LoginAccepted =>
              var login := SoupLogin.ParseLoginAccepted(p.payload);
              if login.Err? then after == before.(ok := false)
              else after == Reading(before.outputs + [Accepted(login.value.0, login.value.1)],
                                    Streaming(login.value.1), true)
            case LoginRejected =>
              if p.payload == [] then after == before.(ok := false)
              else after == Reading(before.outputs + [Rejected(p.payload[0])], Ended, true)
            case Debug => after == before
            case ServerHeartbeat => after == before
            case _ => after == before.(ok := false)
  {
  }

  lemma EncodeAllSnoc(ps: seq<Packet>, p: Packet)
    ensures EncodeAll(ps + [p]) == EncodeAll(ps) + Encode(p)
  {
    assert (ps + [p])[..|ps|] == ps;
  }
}
