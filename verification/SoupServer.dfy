/** A session from the server's side: what a client reads of the octets a server writes, on
    the wire format itself. */
module SoupServer {
  import opened Octets
  import opened SoupWire
  import opened SoupReading
  import SoupLogin

  // --------------------------------------------------------------- wire format

  /** A packet on the wire: two octets of length, most significant first, counting the code
      and the payload. */
  function Frame(code: octet, payload: Octets): Octets
    requires |payload| <= MAX_PAYLOAD
  {
    [(1 + |payload|) / 256, (1 + |payload|) % 256, code] + payload
  }

  lemma FrameIsEncoding(ty: PacketType, payload: Octets)
    requires |payload| <= MAX_PAYLOAD
    ensures Encode(Packet(ty, payload)) == Frame(TypeCode(ty), payload)
  {
    hide TypeCode;
    var n := 1 + |payload|;
    assert ToBigEndian(n / 256, 1) == ToBigEndian(n / 256 / 256, 0) + [n / 256 % 256];
    assert ToBigEndian(n, 2) == [n / 256, n % 256];
  }

  /** The letters of the packet types. */
  lemma Letters()
    ensures TypeCode(LoginRequest) == 0x4C && TypeCode(LoginAccepted) == 0x41 && TypeCode(LoginRejected) == 0x4A
    ensures TypeCode(SequencedData) == 0x53 && TypeCode(ServerHeartbeat) == 0x48 && TypeCode(EndOfSession) == 0x5A
    ensures TypeCode(Debug) == 0x2B && TypeCode(UnsequencedData) == 0x55 && TypeCode(ClientHeartbeat) == 0x52
    ensures TypeCode(LogoutRequest) == 0x4F
  {
  }

  // ------------------------------------------------------------ what it writes

  /** What a server sends in an open stream. */
  datatype Action = Message(payload: Octets) | Beat | Note(text: Octets) | Finish

  /** How it answers the login. */
  datatype Answer = Accept(session: Octets, field: Octets) | Reject(reason: octet, text: Octets)

  predicate Fits(payload: Octets, maxFrame: nat) {
    |payload| <= MAX_PAYLOAD && 3 + |payload| <= maxFrame
  }

  predicate ActionFits(a: Action, maxFrame: nat) {
    match a
    case Message(payload) => Fits(payload, maxFrame)
    case Note(text) => Fits(text, maxFrame)
    case _ => Fits([], maxFrame)
  }

  /** The login answer, with a session of ten octets and a number spelled in twenty. */
  ghost predicate AnswerFits(answer: Answer, first: nat, maxFrame: nat) {
    match answer
    case Accept(session, field) =>
      && |session| == 10 && SoupLogin.Utf8(session).Some? && |field| == 20 && maxFrame >= 33
      && first <= SoupLogin.U64_MAX && SoupLogin.Spells(field, first)
    case Reject(reason, text) => Fits([reason] + text, maxFrame)
  }

  function WireAction(a: Action): Octets
    requires ActionFits(a, 3 + MAX_PAYLOAD)
  {
    match a
    case Message(payload) => Frame(0x53, payload)
    case Beat => Frame(0x48, [])
    case Note(text) => Frame(0x2B, text)
    case Finish => Frame(0x5A, [])
  }

  predicate AllFit(actions: seq<Action>, maxFrame: nat) {
    forall i :: 0 <= i < |actions| ==> ActionFits(actions[i], maxFrame)
  }

  function Wire(actions: seq<Action>): Octets
    requires AllFit(actions, 3 + MAX_PAYLOAD)
  {
    if actions == [] then [] else Wire(actions[..|actions| - 1]) + WireAction(actions[|actions| - 1])
  }

  function WireAnswer(answer: Answer): Octets
    requires answer.Accept? ==> |answer.session| == 10 && |answer.field| == 20
    requires answer.Reject? ==> Fits([answer.reason] + answer.text, 3 + MAX_PAYLOAD)
  {
    match answer
    case Accept(session, field) => Frame(0x41, session + field)
    case Reject(reason, text) => Frame(0x4A, [reason] + text)
  }

  // -------------------------------------------------------------- what it means

  function Messages(actions: seq<Action>): nat {
    if actions == [] then 0
    else Messages(actions[..|actions| - 1]) + if actions[|actions| - 1].Message? then 1 else 0
  }

  /** What one action means to the client, `n` being the number of the next message. */
  function Meaning(a: Action, n: nat): seq<Output> {
    match a
    case Message(payload) => [Data(n, payload)]
    case Beat => [HeartbeatReceived]
    case Note(_) => []
    case Finish => [SessionEnd]
  }

  /** What actions mean in a stream that starts at `first`: message `i` is number `first + i`
      in 64 bits, and nothing after the end of the session means anything. */
  function Told(first: nat, actions: seq<Action>): seq<Output> {
    if actions == [] then []
    else
      var (init, a) := (actions[..|actions| - 1], actions[|actions| - 1]);
      if Finish in init then Told(first, init)
      else Told(first, init) + Meaning(a, (first + Messages(init)) % 0x1_0000_0000_0000_0000)
  }

  /** What the client is told before the stream opens or is refused, and by the answer. */
  function ToldAnswer(answer: Answer, first: nat): Output {
    match answer
    case Accept(session, _) => Accepted(session, first)
    case Reject(reason, _) => Rejected(reason)
  }

  // ------------------------------------------------------------------- packets

  function PacketOf(a: Action): Packet {
    match a
    case Message(payload) => Packet(SequencedData, payload)
    case Beat => Packet(ServerHeartbeat, [])
    case Note(text) => Packet(Debug, text)
    case Finish => Packet(EndOfSession, [])
  }

  function PacketsOf(actions: seq<Action>): (ps: seq<Packet>)
    ensures |ps| == |actions|
  {
    seq(|actions|, i requires 0 <= i < |actions| => PacketOf(actions[i]))
  }

  function AnswerPacket(answer: Answer): Packet {
    match answer
    case Accept(session, field) => Packet(LoginAccepted, session + field)
    case Reject(reason, text) => Packet(LoginRejected, [reason] + text)
  }

  lemma {:induction false} WireIsEncoding(actions: seq<Action>)
    requires AllFit(actions, 3 + MAX_PAYLOAD)
    ensures Wire(actions) == EncodeAll(PacketsOf(actions))
  {
    if actions != [] {
      var (init, a) := (actions[..|actions| - 1], actions[|actions| - 1]);
      WireIsEncoding(init);
      var (ps, p) := (PacketsOf(actions), PacketOf(a));
      assert ps[..|ps| - 1] == PacketsOf(init) && ps[|ps| - 1] == p;
      FrameIsEncoding(p.ty, p.payload);
      Letters();
    }
  }

  // ------------------------------------------------------------------- readings

  lemma ReadSnoc(ps: seq<Packet>, p: Packet)
    ensures Read(ps + [p]) ==
            if !Read(ps).ok then Read(ps)
            else match React(Read(ps).phase, p)
                 case Emit(o, phase) => Reading(Read(ps).outputs + [o], phase, true)
                 case Skip => Read(ps)
                 case Violation(_) => Read(ps).(ok := false)
  {
    assert (ps + [p])[..|ps|] == ps;
  }

  /** Notes and heartbeats before the login answer. */
  predicate Prelude(actions: seq<Action>) {
    forall i :: 0 <= i < |actions| ==> actions[i].Note? || actions[i].Beat?
  }

  /** They mean nothing. */
  lemma {:induction false} PreludeIsSkipped(actions: seq<Action>)
    requires Prelude(actions)
    ensures Read(PacketsOf(actions)) == Reading([], Authenticating, true)
  {
    if actions == [] {
      assert PacketsOf(actions) == [];
    } else {
      var (init, a) := (actions[..|actions| - 1], actions[|actions| - 1]);
      PreludeIsSkipped(init);
      assert PacketsOf(actions) == PacketsOf(init) + [PacketOf(a)];
      ReadSnoc(PacketsOf(init), PacketOf(a));
    }
  }

  lemma AnswerIsRead(actions: seq<Action>, answer: Answer, first: nat, maxFrame: nat)
    requires Prelude(actions) && AnswerFits(answer, first, maxFrame)
    ensures Read(PacketsOf(actions) + [AnswerPacket(answer)]) ==
            Reading([ToldAnswer(answer, first)], if answer.Accept? then Streaming(first) else Ended, true)
  {
    PreludeIsSkipped(actions);
    ReadSnoc(PacketsOf(actions), AnswerPacket(answer));
    hide Read;
    if answer.Accept? {
      var payload := answer.session + answer.field;
      assert payload[..10] == answer.session && payload[10..30] == answer.field;
      SoupLogin.SpelledIsRead(answer.field, first);
      hide SoupLogin.ParseNumeric;
      hide SoupLogin.Utf8;
      assert [] + [Accepted(answer.session, first)] == [Accepted(answer.session, first)];
    }
  }

  /** What an action does to an open stream whose next message is number `n`. */
  lemma ActionIsRead(r: Reading, a: Action, n: nat)
    requires r.ok && r.phase == Streaming(n)
    ensures ReadsNext(r, PacketOf(a), Reading(r.outputs + Meaning(a, n),
                                              if a.Finish? then Ended
                                              else if a.Message? then Streaming(Next(n)) else Streaming(n), true))
  {
    hide Next;
    assert r.outputs + [] == r.outputs;
  }

  lemma ToldSnoc(first: nat, actions: seq<Action>, a: Action)
    ensures Told(first, actions + [a]) ==
            Told(first, actions) + if Finish in actions then [] else Meaning(a, Wrapped(first + Messages(actions)))
    ensures Messages(actions + [a]) == Messages(actions) + if a.Message? then 1 else 0
    ensures Finish in actions + [a] <==> Finish in actions || a == Finish
  {
    hide Meaning;
    assert (actions + [a])[..|actions|] == actions;
    assert Told(first, actions) + [] == Told(first, actions);
  }

  lemma NothingSaid(answered: seq<Packet>, first: nat, outs: seq<Output>)
    ensures answered + PacketsOf([]) == answered && outs + Told(first, []) == outs && Messages([]) == 0
  {
  }

  /** The reading of an open stream. */
  lemma {:induction false} StreamIsRead(answered: seq<Packet>, session: Octets, first: nat, actions: seq<Action>)
    requires Read(answered) == Reading([Accepted(session, first)], Streaming(first), true)
    requires first <= SoupLogin.U64_MAX
    ensures Read(answered + PacketsOf(actions)) ==
            Reading([Accepted(session, first)] + Told(first, actions),
                    if Finish in actions then Ended else Streaming(Wrapped(first + Messages(actions))), true)
    decreases |actions|
  {
    hide Read;
    hide Told;
    hide Messages;
    hide Meaning;
    hide Wrapped;
    hide Next;
    var login := [Accepted(session, first)];
    if actions == [] {
      NothingSaid(answered, first, login);
      WrappedIsPlainIff(first);
    } else {
      var (init, a) := (actions[..|actions| - 1], actions[|actions| - 1]);
      StreamIsRead(answered, session, first, init);
      assert answered + PacketsOf(actions) == (answered + PacketsOf(init)) + [PacketOf(a)];
      hide PacketsOf;
      assert actions == init + [a];
      ToldSnoc(first, init, a);
      NextWraps(first + Messages(init));
      ReadStep(answered + PacketsOf(init), PacketOf(a));
      var (told, n) := (Told(first, init), Wrapped(first + Messages(init)));
      if Finish in init {
        assert told + [] == told;
      } else {
        ActionIsRead(Read(answered + PacketsOf(init)), a, n);
        Assoc(login, told, Meaning(a, n));
        hide React;
      }
    }
  }

  /** The reading of a refused one: nothing after it means anything. */
  lemma {:induction false} RefusedIsRead(answered: seq<Packet>, reason: octet, actions: seq<Action>)
    requires Read(answered) == Reading([Rejected(reason)], Ended, true)
    ensures Read(answered + PacketsOf(actions)) == Read(answered)
    decreases |actions|
  {
    if actions == [] {
      assert answered + PacketsOf(actions) == answered;
    } else {
      var (init, a) := (actions[..|actions| - 1], actions[|actions| - 1]);
      RefusedIsRead(answered, reason, init);
      assert answered + PacketsOf(actions) == (answered + PacketsOf(init)) + [PacketOf(a)];
      ReadSnoc(answered + PacketsOf(init), PacketOf(a));
    }
  }

  // -------------------------------------------------------------- whole streams

  function PacketsUpTo(prelude: seq<Action>, answer: Answer, actions: seq<Action>): seq<Packet> {
    PacketsOf(prelude) + [AnswerPacket(answer)] + PacketsOf(actions)
  }

  /** Notes and heartbeats, the login answer, and what follows it. */
  function Stream(prelude: seq<Action>, answer: Answer, actions: seq<Action>): Octets
    requires AllFit(prelude, 3 + MAX_PAYLOAD) && AllFit(actions, 3 + MAX_PAYLOAD)
    requires answer.Accept? ==> |answer.session| == 10 && |answer.field| == 20
    requires answer.Reject? ==> Fits([answer.reason] + answer.text, 3 + MAX_PAYLOAD)
  {
    Wire(prelude) + WireAnswer(answer) + Wire(actions)
  }

  /** What all of it means. */
  function Meant(answer: Answer, first: nat, actions: seq<Action>): seq<Output> {
    [ToldAnswer(answer, first)] + if answer.Accept? then Told(first, actions) else []
  }

  ghost predicate Sendable(prelude: seq<Action>, answer: Answer, first: nat, actions: seq<Action>, maxFrame: nat) {
    && Prelude(prelude) && AllFit(prelude, maxFrame) && AllFit(actions, maxFrame)
    && AnswerFits(answer, first, maxFrame)
  }

  lemma {:induction false} EncodeAllConcat(ps: seq<Packet>, more: seq<Packet>)
    ensures EncodeAll(ps + more) == EncodeAll(ps) + EncodeAll(more)
    decreases |more|
  {
    hide Encode;
    if more == [] {
      assert ps + more == ps && EncodeAll(ps) + [] == EncodeAll(ps);
    } else {
      var (init, p) := (more[..|more| - 1], more[|more| - 1]);
      EncodeAllConcat(ps, init);
      assert (ps + more)[..|ps + more| - 1] == ps + init;
      Assoc(EncodeAll(ps), EncodeAll(init), Encode(p));
    }
  }

  lemma StreamIsFramed(prelude: seq<Action>, answer: Answer, first: nat, actions: seq<Action>, maxFrame: nat)
    requires Sendable(prelude, answer, first, actions, maxFrame)
    ensures Framed(PacketsUpTo(prelude, answer, actions), maxFrame)
  {
    hide SoupLogin.Spells;
    hide SoupLogin.Utf8;
  }

  lemma AnswerIsEncoding(answer: Answer, first: nat, maxFrame: nat)
    requires AnswerFits(answer, first, maxFrame)
    ensures WireAnswer(answer) == Encode(AnswerPacket(answer)) == EncodeAll([AnswerPacket(answer)])
  {
    hide SoupLogin.Spells;
    hide SoupLogin.Utf8;
    var p := AnswerPacket(answer);
    FrameIsEncoding(p.ty, p.payload);
    Letters();
    hide Encode;
    assert [p][..0] == [] && [] + Encode(p) == Encode(p);
    assert EncodeAll([p]) == EncodeAll([]) + Encode(p);
  }

  lemma StreamIsEncoding(prelude: seq<Action>, answer: Answer, first: nat, actions: seq<Action>, maxFrame: nat)
    requires Sendable(prelude, answer, first, actions, maxFrame)
    ensures Stream(prelude, answer, actions) == EncodeAll(PacketsUpTo(prelude, answer, actions))
    ensures Framed(PacketsUpTo(prelude, answer, actions), maxFrame)
  {
    hide SoupLogin.Spells;
    hide SoupLogin.Utf8;
    hide WireAnswer;
    hide AnswerPacket;
    hide PacketsOf;
    hide Wire;
    hide EncodeAll;
    hide Encode;
    StreamIsFramed(prelude, answer, first, actions, maxFrame);
    hide Framed;
    WireIsEncoding(prelude);
    WireIsEncoding(actions);
    AnswerIsEncoding(answer, first, maxFrame);
    EncodeAllConcat(PacketsOf(prelude), [AnswerPacket(answer)]);
    EncodeAllConcat(PacketsOf(prelude) + [AnswerPacket(answer)], PacketsOf(actions));
  }

  lemma UpToIsRead(prelude: seq<Action>, answer: Answer, first: nat, actions: seq<Action>, maxFrame: nat)
    requires Sendable(prelude, answer, first, actions, maxFrame)
    ensures var r := Read(PacketsUpTo(prelude, answer, actions));
            && r.ok && r.outputs == Meant(answer, first, actions)
            && (answer.Accept? && Finish !in actions ==> r.phase == Streaming(Wrapped(first + Messages(actions))))
  {
    hide Read;
    hide SoupLogin.Spells;
    hide SoupLogin.Utf8;
    AnswerIsRead(prelude, answer, first, maxFrame);
    var answered := PacketsOf(prelude) + [AnswerPacket(answer)];
    if answer.Accept? {
      StreamIsRead(answered, answer.session, first, actions);
    } else {
      RefusedIsRead(answered, answer.reason, actions);
      assert [Rejected(answer.reason)] + [] == [Rejected(answer.reason)];
    }
  }

  /** Every server, on the octets it writes: a client reads the login answer, message `i` as
      number `first + i` with its own octets, each heartbeat, and the end of the session with
      nothing after it; of a refused login only the reason; and no rule is broken. */
  lemma ServerIsRead(prelude: seq<Action>, answer: Answer, first: nat, actions: seq<Action>, maxFrame: nat)
    requires Sendable(prelude, answer, first, actions, maxFrame)
    ensures var stream := Stream(prelude, answer, actions);
            Transcript(stream, maxFrame) == Meant(answer, first, actions) && !Breaks(stream, maxFrame)
  {
    hide Read;
    hide Stream;
    hide Sendable;
    hide Meant;
    StreamIsEncoding(prelude, answer, first, actions, maxFrame);
    UpToIsRead(prelude, answer, first, actions, maxFrame);
    var ps := PacketsUpTo(prelude, answer, actions);
    TakenIsAll(ps, [], maxFrame);
    assert EncodeAll(ps) + [] == EncodeAll(ps);
  }

  // ------------------------------------------------------------- broken streams

  /** Letters of packets only a client sends. */
  predicate ClientLetter(code: octet) {
    code == 0x4C || code == 0x55 || code == 0x52 || code == 0x4F
  }

  /** A packet out of place breaks the protocol, whatever follows, and adds nothing. */
  lemma ViolationBreaks(ps: seq<Packet>, code: octet, payload: Octets, future: Octets, maxFrame: nat)
    requires Framed(ps, maxFrame) && Fits(payload, maxFrame) && TypeOf(code).Some? && Read(ps).ok
    requires React(Read(ps).phase, Packet(TypeOf(code).value, payload)).Violation?
    ensures var stream := EncodeAll(ps) + Frame(code, payload) + future;
            Breaks(stream, maxFrame) && Transcript(stream, maxFrame) == Read(ps).outputs
  {
    var p := Packet(TypeOf(code).value, payload);
    TypeRoundTrip(Debug, code);
    FrameIsEncoding(p.ty, payload);
    ReadSnoc(ps, p);
    EncodeAllConcat(ps, [p]);
    assert [p][..0] == [] && [] + Encode(p) == Encode(p);
    assert EncodeAll([p]) == Encode(p);
    hide Encode;
    hide Read;
    hide Frame;
    BrokenForGood(ps + [p], [], future, maxFrame);
    assert EncodeAll(ps + [p]) + [] == EncodeAll(ps + [p]);
  }

  /** Before the login answer: data, the end of the session or a client's packet. */
  lemma MisplacedBeforeLogin(prelude: seq<Action>, code: octet, payload: Octets, future: Octets, maxFrame: nat)
    requires Prelude(prelude) && AllFit(prelude, maxFrame) && Fits(payload, maxFrame)
    requires code == 0x53 || code == 0x5A || ClientLetter(code)
    ensures var stream := Wire(prelude) + Frame(code, payload) + future;
            Breaks(stream, maxFrame) && Transcript(stream, maxFrame) == []
  {
    hide Frame;
    hide Breaks;
    hide Transcript;
    PreludeIsSkipped(prelude);
    WireIsEncoding(prelude);
    ViolationBreaks(PacketsOf(prelude), code, payload, future, maxFrame);
  }

  /** A login answer that cannot be read: too short, no text, or no reason. */
  lemma BadAnswerBreaks(prelude: seq<Action>, code: octet, payload: Octets, future: Octets, maxFrame: nat)
    requires Prelude(prelude) && AllFit(prelude, maxFrame) && Fits(payload, maxFrame)
    requires || (code == 0x41 && |payload| < 30)
             || (code == 0x41 && |payload| >= 30 && SoupLogin.Utf8(payload[..10]).None?)
             || (code == 0x41 && |payload| >= 30 && SoupLogin.ParseNumeric(payload[10..30]).Err?)
             || (code == 0x4A && payload == [])
    ensures var stream := Wire(prelude) + Frame(code, payload) + future;
            Breaks(stream, maxFrame) && Transcript(stream, maxFrame) == []
  {
    hide Frame;
    hide Breaks;
    hide Transcript;
    hide SoupLogin.Utf8;
    hide SoupLogin.ParseNumeric;
    PreludeIsSkipped(prelude);
    WireIsEncoding(prelude);
    ViolationBreaks(PacketsOf(prelude), code, payload, future, maxFrame);
  }

  /** In an open stream: another login answer or a client's packet. */
  lemma MisplacedInStream(prelude: seq<Action>, answer: Answer, first: nat, actions: seq<Action>, code: octet,
                          payload: Octets, future: Octets, maxFrame: nat)
    requires Sendable(prelude, answer, first, actions, maxFrame) && answer.Accept? && Finish !in actions
    requires Fits(payload, maxFrame) && (code == 0x41 || code == 0x4A || ClientLetter(code))
    ensures var stream := Stream(prelude, answer, actions) + Frame(code, payload) + future;
            Breaks(stream, maxFrame) && Transcript(stream, maxFrame) == Meant(answer, first, actions)
  {
    hide Frame;
    hide Breaks;
    hide Transcript;
    hide Read;
    hide Stream;
    hide Sendable;
    hide Meant;
    StreamIsEncoding(prelude, answer, first, actions, maxFrame);
    UpToIsRead(prelude, answer, first, actions, maxFrame);
    ViolationBreaks(PacketsUpTo(prelude, answer, actions), code, payload, future, maxFrame);
  }

  /** The number two octets spell, most significant first. */
  function Length(high: octet, low: octet): nat {
    256 * (high as int) + low as int
  }

  /** A frame no packet has: of length zero, above the limit, or whole with a letter of no
      packet. */
  predicate BadFrame(frame: Octets, maxFrame: nat) {
    && |frame| >= 3
    && var len := Length(frame[0], frame[1]);
    || len == 0 || 2 + len > maxFrame || (|frame| >= 2 + len && NoLetter(frame[2]))
  }

  predicate NoLetter(code: octet) {
    && code != 0x41 && code != 0x4A && code != 0x53 && code != 0x48 && code != 0x5A && code != 0x2B
    && !ClientLetter(code)
  }

  lemma BadFrameIsRefused(frame: Octets, maxFrame: nat)
    requires BadFrame(frame, maxFrame)
    ensures Take(frame, maxFrame).Err?
  {
    var two := frame[..2];
    assert two[..1] == [frame[0]] && [frame[0]][..0] == [];
    assert BigEndian([frame[0]]) == frame[0];
    assert BigEndian(two) == Length(frame[0], frame[1]);
  }

  /** Such a frame breaks the protocol wherever it comes, whatever follows, and adds nothing. */
  lemma BadFrameBreaks(prelude: seq<Action>, answer: Answer, first: nat, actions: seq<Action>, frame: Octets,
                       future: Octets, maxFrame: nat)
    requires Sendable(prelude, answer, first, actions, maxFrame) && BadFrame(frame, maxFrame)
    ensures var stream := Stream(prelude, answer, actions) + frame + future;
            Breaks(stream, maxFrame) && Transcript(stream, maxFrame) == Meant(answer, first, actions)
  {
    hide Breaks;
    hide Transcript;
    hide Read;
    hide Stream;
    hide Sendable;
    hide Meant;
    hide BadFrame;
    StreamIsEncoding(prelude, answer, first, actions, maxFrame);
    UpToIsRead(prelude, answer, first, actions, maxFrame);
    BadFrameIsRefused(frame, maxFrame);
    BrokenForGood(PacketsUpTo(prelude, answer, actions), frame, future, maxFrame);
  }
}
