/** What a server's byte stream means to a client: the pure reading of its packets. */
module SoupReading {
  import opened Octets
  import opened SoupWire
  import SoupLogin

  datatype Phase = Authenticating | Streaming(next: nat) | Ended

  datatype Output =
    | Accepted(session: Octets, first: nat)
    | Rejected(reason: octet)
    | Data(sequence: nat, payload: Octets)
    | HeartbeatReceived
    | SessionEnd

  datatype Reaction = Emit(output: Output, phase: Phase) | Skip | Violation(error: SoupError)

  /** The number after `n`, in a 64-bit word without overflow checks. */
  function Next(n: nat): nat {
    if n == SoupLogin.U64_MAX then 0 else n + 1
  }

  /** What one packet means to a session in `phase`. */
  function React(phase: Phase, p: Packet): Reaction {
    match phase
    case Authenticating => (
      match p.ty
      case LoginAccepted =>
        var r := SoupLogin.ParseLoginAccepted(p.payload);
        if r.Ok? then Emit(Accepted(r.value.0, r.value.1), Streaming(r.value.1)) else Violation(BadLogin)
      case LoginRejected => if p.payload == [] then Violation(BadLogin) else Emit(Rejected(p.payload[0]), Ended)
      case Debug => Skip
      case ServerHeartbeat => Skip
      case _ => Violation(Unexpected))
    case Streaming(next) => (
      match p.ty
      case SequencedData => Emit(Data(next, p.payload), Streaming(Next(next)))
      case ServerHeartbeat => Emit(HeartbeatReceived, phase)
      case EndOfSession => Emit(SessionEnd, Ended)
      case Debug => Skip
      case _ => Violation(Unexpected))
    case Ended => Skip
  }

  /** Reading of a packet list: outputs in order, up to the first violation. */
  datatype Reading = Reading(outputs: seq<Output>, phase: Phase, ok: bool)

  function Read(ps: seq<Packet>): Reading {
    if ps == [] then Reading([], Authenticating, true)
    else
      var before := Read(ps[..|ps| - 1]);
      if !before.ok then before
      else
        match React(before.phase, ps[|ps| - 1])
        case Emit(o, phase) => Reading(before.outputs + [o], phase, true)
        case Skip => before
        case Violation(_) => before.(ok := false)
  }

  /** What a client should report of the whole stream of a server. */
  function Transcript(stream: Octets, maxFrame: nat): seq<Output> {
    Read(Packets(stream, maxFrame)).outputs
  }

  /** What is left of a stream when no more packets can be taken. */
  function Rest(stream: Octets, maxFrame: nat): Octets
    decreases |stream|
  {
    var r := Take(stream, maxFrame);
    if r.Err? || r.value.None? then stream else Rest(stream[r.value.value.1..], maxFrame)
  }

  /** The server breaks the protocol: a packet its session may not send, or a bad frame. */
  ghost predicate Breaks(stream: Octets, maxFrame: nat) {
    !Read(Packets(stream, maxFrame)).ok || Take(Rest(stream, maxFrame), maxFrame).Err?
  }

  // ------------------------------------------------------------------- readings

  /** `after` is the reading `before` with one more packet. */
  ghost predicate ReadsNext(before: Reading, p: Packet, after: Reading) {
    after == if !before.ok then before
             else match React(before.phase, p)
                  case Emit(o, phase) => Reading(before.outputs + [o], phase, true)
                  case Skip => before
                  case Violation(_) => before.(ok := false)
  }

  lemma ReadNothing()
    ensures Read([]) == Reading([], Authenticating, true)
  {
  }

  lemma ReadStep(ps: seq<Packet>, p: Packet)
    ensures ReadsNext(Read(ps), p, Read(ps + [p]))
  {
    assert (ps + [p])[..|ps|] == ps;
  }

  /** More packets only add outputs, and add nothing after a violation. */
  lemma {:induction false} ReadGrows(ps: seq<Packet>, more: seq<Packet>)
    ensures Read(ps).outputs <= Read(ps + more).outputs
    ensures !Read(ps).ok ==> Read(ps + more) == Read(ps)
    decreases |more|
  {
    if more == [] {
      assert ps + more == ps;
    } else {
      var (init, p) := (more[..|more| - 1], more[|more| - 1]);
      ReadGrows(ps, init);
      assert ps + more == (ps + init) + [p];
      ReadStep(ps + init, p);
      hide React;
    }
  }

  // ------------------------------------------------------------------ numbering

  function DataCount(outs: seq<Output>): nat {
    if outs == [] then 0 else DataCount(outs[..|outs| - 1]) + if outs[|outs| - 1].Data? then 1 else 0
  }

  /** A number in a 64-bit word. */
  function Wrapped(n: nat): nat {
    n % (SoupLogin.U64_MAX + 1)
  }

  lemma NextWraps(n: nat)
    ensures Next(Wrapped(n)) == Wrapped(n + 1)
  {
  }

  lemma WrappedIsPlainIff(n: nat)
    ensures Wrapped(n) == n <==> n <= SoupLogin.U64_MAX
  {
  }

  /** The first output is the login, and data is numbered from its sequence on, in 64 bits. */
  ghost predicate Numbered(outs: seq<Output>) {
    forall i :: 0 <= i < |outs| && outs[i].Data? ==>
      outs[0].Accepted? && outs[i].sequence == Wrapped(outs[0].first + DataCount(outs[..i]))
  }

  /** Data is numbered from the login sequence on without wrapping round. */
  ghost predicate Consecutive(outs: seq<Output>) {
    forall i :: 0 <= i < |outs| && outs[i].Data? ==>
      outs[0].Accepted? && outs[i].sequence == outs[0].first + DataCount(outs[..i])
  }

  lemma DataCountSnoc(outs: seq<Output>, o: Output)
    ensures DataCount(outs + [o]) == DataCount(outs) + if o.Data? then 1 else 0
  {
    assert (outs + [o])[..|outs|] == outs;
  }

  lemma NumberedSnoc(outs: seq<Output>, o: Output)
    requires Numbered(outs)
    requires o.Data? ==> outs != [] && outs[0].Accepted? && o.sequence == Wrapped(outs[0].first + DataCount(outs))
    ensures Numbered(outs + [o])
  {
    hide Wrapped;
    hide DataCount;
    var after := outs + [o];
    assert after[..|outs|] == outs;
    assert forall i :: 0 <= i < |outs| ==> after[i] == outs[i] && after[..i] == outs[..i];
  }

  lemma {:induction false} ReadIsNumbered(ps: seq<Packet>)
    ensures var r := Read(ps);
            && Numbered(r.outputs)
            && (r.phase.Authenticating? <==> r.outputs == [])
            && (r.phase.Streaming? ==>
                  && r.outputs[0].Accepted?
                  && r.phase.next == Wrapped(r.outputs[0].first + DataCount(r.outputs)))
  {
    hide DataCount;
    hide Numbered;
    hide Wrapped;
    hide Next;
    hide SoupLogin.ParseLoginAccepted;
    NothingNumbered();
    if ps != [] {
      var init := ps[..|ps| - 1];
      ReadIsNumbered(init);
      var before := Read(init);
      var reaction := React(before.phase, ps[|ps| - 1]);
      if before.ok && reaction.Emit? {
        NumberedSnoc(before.outputs, reaction.output);
        DataCountSnoc(before.outputs, reaction.output);
        if reaction.output.Data? {
          NextWraps(before.outputs[0].first + DataCount(before.outputs));
        } else if reaction.output.Accepted? {
          WrappedIsPlainIff(reaction.output.first);
        }
      }
    }
  }

  lemma NothingNumbered()
    ensures Numbered([]) && DataCount([]) == 0
  {
  }

  /** The numbers of received data run on without a break exactly when login sequence and
      number of messages stay within 64 bits. */
  lemma {:induction false} ConsecutiveIff(outs: seq<Output>)
    requires Numbered(outs)
    ensures DataCount(outs) > 0 ==> outs[0].Accepted?
    ensures Consecutive(outs) <==>
              (DataCount(outs) > 0 ==> outs[0].first + DataCount(outs) <= SoupLogin.U64_MAX + 1)
  {
    if outs != [] {
      var (init, o) := (outs[..|outs| - 1], outs[|outs| - 1]);
      ConsecutiveInit(outs);
      ConsecutiveIff(init);
      hide Numbered;
      hide Consecutive;
      hide Wrapped;
      if o.Data? {
        WrappedIsPlainIff(outs[0].first + DataCount(init));
      }
    }
  }

  /** Dropping the last output drops one clause of either numbering. */
  lemma ConsecutiveInit(outs: seq<Output>)
    requires outs != [] && Numbered(outs)
    ensures var (init, o) := (outs[..|outs| - 1], outs[|outs| - 1]);
            && Numbered(init)
            && (o.Data? ==> outs[0].Accepted? && o.sequence == Wrapped(outs[0].first + DataCount(init)))
            && (Consecutive(outs) <==>
                  Consecutive(init) && (o.Data? ==> o.sequence == outs[0].first + DataCount(init)))
  {
    hide Wrapped;
    hide DataCount;
    var init := outs[..|outs| - 1];
    assert forall i :: 0 <= i < |init| ==> init[i] == outs[i] && init[..i] == outs[..i];
  }

  // ---------------------------------------------------- reading part of a stream

  /** Outputs of packets already taken off the stream are a prefix of the transcript,
      whatever is still to come. */
  lemma TakenIsPrefix(ps: seq<Packet>, rest: Octets, future: Octets, maxFrame: nat)
    requires Framed(ps, maxFrame)
    ensures Read(ps).outputs <= Transcript(EncodeAll(ps) + rest + future, maxFrame)
  {
    PacketsOfEncoding(ps, rest + future, maxFrame);
    assert EncodeAll(ps) + rest + future == EncodeAll(ps) + (rest + future);
    ReadGrows(ps, Packets(rest + future, maxFrame));
    hide Packets;
    hide EncodeAll;
    hide Read;
  }

  /** With no whole packet left over, they are the whole transcript so far. */
  lemma TakenIsAll(ps: seq<Packet>, rest: Octets, maxFrame: nat)
    requires Framed(ps, maxFrame) && Take(rest, maxFrame) == Ok(None)
    ensures Read(ps).outputs == Transcript(EncodeAll(ps) + rest, maxFrame)
    ensures Read(ps).ok ==> !Breaks(EncodeAll(ps) + rest, maxFrame)
  {
    PacketsOfEncoding(ps, rest, maxFrame);
    RestOfEncoding(ps, rest, maxFrame);
    assert Packets(rest, maxFrame) == [];
    assert Rest(rest, maxFrame) == rest;
    hide Packets;
    hide Rest;
    hide Take;
    assert ps + [] == ps;
  }

  /** After a bad packet or frame nothing the server sends adds to the transcript. */
  lemma BrokenForGood(ps: seq<Packet>, rest: Octets, future: Octets, maxFrame: nat)
    requires Framed(ps, maxFrame) && (Take(rest, maxFrame).Err? || !Read(ps).ok)
    ensures Read(ps).outputs == Transcript(EncodeAll(ps) + rest + future, maxFrame)
    ensures Breaks(EncodeAll(ps) + rest + future, maxFrame)
  {
    var tail := rest + future;
    PacketsOfEncoding(ps, tail, maxFrame);
    RestOfEncoding(ps, tail, maxFrame);
    assert EncodeAll(ps) + rest + future == EncodeAll(ps) + tail;
    if Take(rest, maxFrame).Err? {
      TakeIsStable(rest, future, maxFrame);
      assert Packets(tail, maxFrame) == [];
      assert Rest(tail, maxFrame) == tail;
      assert ps + [] == ps;
    } else {
      ReadGrows(ps, Packets(tail, maxFrame));
    }
    hide Packets;
    hide Rest;
    hide Take;
    hide Read;
    hide EncodeAll;
  }

  lemma RestCons(p: Packet, rest: Octets, maxFrame: nat)
    requires |p.payload| <= MAX_PAYLOAD && 3 + |p.payload| <= maxFrame
    ensures Rest(Encode(p) + rest, maxFrame) == Rest(rest, maxFrame)
  {
    hide Take;
    hide Encode;
    TakeEncoded(p, rest, maxFrame);
  }

  lemma {:induction false} RestOfEncoding(ps: seq<Packet>, rest: Octets, maxFrame: nat)
    requires Framed(ps, maxFrame)
    ensures Rest(EncodeAll(ps) + rest, maxFrame) == Rest(rest, maxFrame)
    decreases |ps|
  {
    hide Rest;
    hide Encode;
    if ps == [] {
      assert [] + rest == rest;
    } else {
      var (init, p) := (ps[..|ps| - 1], ps[|ps| - 1]);
      RestOfEncoding(init, Encode(p) + rest, maxFrame);
      Assoc(EncodeAll(init), Encode(p), rest);
      RestCons(p, rest, maxFrame);
    }
  }
}
