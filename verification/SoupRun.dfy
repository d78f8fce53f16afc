/** Whole sessions: any server bytes cut into any reads, any partial writes, any schedule
    of polls, sends and logout. */
module SoupRun {
  import opened Octets
  import opened Clock
  import opened SoupWire
  import opened SoupReading
  import SoupServer
  import opened SoupSession

  datatype Op = PollAt(now: nat) | Send(payload: Octets) | Logout

  datatype Answer =
    | ToPoll(poll: PollResult)
    | ToSend(sent: Result<(), PollError>)
    | ToLogout(left: Result<(), PollError>)

  // ---------------------------------------------------------------- one answer

  /** The call closed the session. */
  predicate Shuts(a: Answer) {
    a == ToLogout(Ok(())) || (a.ToPoll? && Closes(a.poll))
  }

  /** The call reported the accepted login. */
  predicate Opens(a: Answer) {
    a.ToPoll? && OpensStream(a.poll)
  }

  /** The call dropped queued octets. */
  predicate Loses(a: Answer) {
    a.ToPoll? && Drops(a.poll)
  }

  /** The call reported that the server broke the protocol. */
  predicate Blames(a: Answer) {
    a.ToPoll? && a.poll.Err? && a.poll.error.Protocol?
  }

  function OutputOf(a: Answer): seq<Output> {
    if a.ToPoll? then ServerOutput(a.poll) else []
  }

  // ---------------------------------------------------------- answers of a run

  ghost predicate Shut(answers: seq<Answer>) {
    exists k :: 0 <= k < |answers| && Shuts(answers[k])
  }

  ghost predicate LoggedIn(answers: seq<Answer>) {
    exists k :: 0 <= k < |answers| && Opens(answers[k])
  }

  ghost predicate Lost(answers: seq<Answer>) {
    exists k :: 0 <= k < |answers| && Loses(answers[k])
  }

  ghost predicate Blamed(answers: seq<Answer>) {
    exists k :: 0 <= k < |answers| && Blames(answers[k])
  }

  /** The outputs reported, up to the first protocol error. */
  ghost function Reported(answers: seq<Answer>): seq<Output> {
    if answers == [] then []
    else
      var before := answers[..|answers| - 1];
      Reported(before) + if Blamed(before) then [] else OutputOf(answers[|answers| - 1])
  }

  /** The packets queued are those the answers say: data and logout that were taken, the
      heartbeats reported, and heartbeats whose write failed. */
  ghost predicate QueuedBy(ops: seq<Op>, answers: seq<Answer>, queued: seq<Packet>)
    requires |ops| == |answers|
  {
    if ops == [] then queued == []
    else
      var n := |ops| - 1;
      || (QueuedBy(ops[..n], answers[..n], queued) && Queues(ops[n], answers[n], []))
      || (queued != [] && QueuedBy(ops[..n], answers[..n], queued[..|queued| - 1])
          && Queues(ops[n], answers[n], [queued[|queued| - 1]]))
  }

  /** This answer goes with queueing just `ps`. */
  ghost predicate Queues(op: Op, a: Answer, ps: seq<Packet>) {
    match a
    case ToSend(r) => op.Send? && ps == if r.Ok? then [Packet(UnsequencedData, op.payload)] else []
    case ToLogout(r) => op.Logout? && ps == if r.Ok? then [Packet(LogoutRequest, [])] else []
    case ToPoll(r) =>
      if r == Ok(Some(HeartbeatSent)) then ps == [Packet(ClientHeartbeat, [])]
      else ps == [] || (r == Err(Transport) && ps == [Packet(ClientHeartbeat, [])])
  }

  /** Octets after a call: taken by the transport, queued, and delivered by the server. */
  datatype Mark = Mark(accepted: nat, queued: nat, delivered: nat)

  /** The mark before call `n`. */
  function Before(first: Mark, marks: seq<Mark>, n: nat): Mark
    requires n <= |marks|
  {
    if n == 0 then first else marks[n - 1]
  }

  /** The call wrote something and left nothing to write. */
  predicate Emptied(before: Mark, after: Mark) {
    after.accepted > before.accepted && after.accepted == after.queued
  }

  /** The call heard the server: octets came, or the login was accepted. */
  predicate HeardIn(before: Mark, after: Mark, a: Answer) {
    after.delivered > before.delivered || Opens(a)
  }

  /** When a poll last left nothing to write after writing something, or the start. */
  function LastSent(start: nat, first: Mark, ops: seq<Op>, marks: seq<Mark>): nat
    requires |ops| == |marks|
  {
    if ops == [] then start
    else
      var n := |ops| - 1;
      if ops[n].PollAt? && Emptied(Before(first, marks, n), marks[n]) then ops[n].now
      else LastSent(start, first, ops[..n], marks[..n])
  }

  /** When a poll last heard the server, or the start. */
  function LastHeard(start: nat, first: Mark, ops: seq<Op>, answers: seq<Answer>, marks: seq<Mark>): nat
    requires |ops| == |answers| == |marks|
  {
    if ops == [] then start
    else
      var n := |ops| - 1;
      if ops[n].PollAt? && HeardIn(Before(first, marks, n), marks[n], answers[n]) then ops[n].now
      else LastHeard(start, first, ops[..n], answers[..n], marks[..n])
  }

  /** What a call may move: only polls read and write, and what is queued is what the answer
      says. */
  predicate Grows(before: Mark, after: Mark, op: Op, a: Answer) {
    match op
    case PollAt(_) =>
      && before.accepted <= after.accepted && before.delivered <= after.delivered
      && (if a == ToPoll(Ok(Some(HeartbeatSent))) then after.queued == before.queued + 3
          else after.queued == before.queued
               || (a == ToPoll(Err(Transport)) && after.queued == before.queued + 3))
    case Send(payload) =>
      after == before.(queued := before.queued + if a == ToSend(Ok(())) then 3 + |payload| else 0)
    case Logout => after == before.(queued := before.queued + if a == ToLogout(Ok(())) then 3 else 0)
  }

  /** What a call may answer, on the session before it: closed or not, past the login or not,
      when its login ends, when it last had nothing to write and last heard the server. */
  predicate AnswersWell(cfg: Config, shut: bool, loggedIn: bool, deadline: nat, sent: nat, heard: nat,
                        before: Mark, after: Mark, op: Op, a: Answer)
  {
    match op
    case Send(payload) =>
      a == ToSend(if shut then Err(EndOfSessionError)
                  else if |payload| > MAX_PAYLOAD then Err(Protocol(FrameTooLarge))
                  else Ok(()))
    case Logout => a == ToLogout(if shut then Err(EndOfSessionError) else Ok(()))
    case PollAt(now) =>
      var streaming := !shut && loggedIn;
      var due := streaming && before.accepted == before.queued && Elapsed(now, sent) > cfg.heartbeatInterval;
      var silence := Elapsed(now, if HeardIn(before, after, a) then now else heard);
      && a.ToPoll?
      && (a.poll == Err(EndOfSessionError) ==> shut)
      && (shut ==> a.poll == Err(EndOfSessionError) || a.poll == Ok(None) || a.poll == Err(Transport))
      && (a.poll == Ok(Some(HeartbeatSent)) ==> due)
      && (due ==> a.poll == Ok(Some(HeartbeatSent)) || a.poll == Err(Transport))
      && (a.poll == Err(LoginTimeout) ==> !streaming && now >= deadline)
      && (a.poll == Ok(Some(HeartbeatTimeout)) ==> streaming && silence > cfg.heartbeatTimeout)
      && (a.poll == Ok(None) && streaming ==> silence <= cfg.heartbeatTimeout)
      && (a.poll == Ok(None) && !shut && !loggedIn ==> now < deadline)
  }

  /** Every call is answered lawfully after those before it. */
  ghost predicate AllLawful(cfg: Config, start: nat, first: Mark, ops: seq<Op>, answers: seq<Answer>, marks: seq<Mark>)
    requires |ops| == |answers| == |marks|
  {
    ops == [] ||
      var n := |ops| - 1;
      var (ops0, answers0, marks0) := (ops[..n], answers[..n], marks[..n]);
      && AllLawful(cfg, start, first, ops0, answers0, marks0)
      && Grows(Before(first, marks, n), marks[n], ops[n], answers[n])
      && AnswersWell(cfg, Shut(answers0), LoggedIn(answers0), start + cfg.loginTimeout,
                     LastSent(start, first, ops0, marks0), LastHeard(start, first, ops0, answers0, marks0),
                     Before(first, marks, n), marks[n], ops[n], answers[n])
  }

  /** The answers that end a session: an accepted logout, a rejected login, the end of the
      session, and both timeouts. */
  predicate Final(a: Answer) {
    || a == ToLogout(Ok(()))
    || a == ToPoll(Err(LoginTimeout))
    || a == ToPoll(Ok(Some(HeartbeatTimeout)))
    || a == ToPoll(Ok(Some(FromServer(SessionEnd))))
    || (a.ToPoll? && a.poll.Ok? && a.poll.value.Some? && a.poll.value.value.FromServer?
        && a.poll.value.value.output.Rejected?)
  }

  /** In a lawful run data is taken exactly until a final answer, unless it is too long; and
      after one polls report nothing but the end, nothing or a failed write. */
  lemma {:induction false} FinalIsFinal(cfg: Config, start: nat, first: Mark, ops: seq<Op>, answers: seq<Answer>,
                                        marks: seq<Mark>, j: nat)
    requires |ops| == |answers| == |marks| && AllLawful(cfg, start, first, ops, answers, marks) && j < |ops|
    ensures var over := exists i :: 0 <= i < j && Final(answers[i]);
            && (ops[j].Send? ==>
                  answers[j] == ToSend(if over then Err(EndOfSessionError)
                                       else if |ops[j].payload| > MAX_PAYLOAD then Err(Protocol(FrameTooLarge))
                                       else Ok(())))
            && (ops[j].PollAt? && over ==>
                  answers[j] == ToPoll(Err(EndOfSessionError)) || answers[j] == ToPoll(Ok(None))
                  || answers[j] == ToPoll(Err(Transport)))
            && (answers[j] == ToPoll(Err(EndOfSessionError)) ==> over)
    decreases |ops|
  {
    hide Grows;
    hide LastSent;
    hide LastHeard;
    hide Before;
    var n := |ops| - 1;
    if j < n {
      FinalIsFinal(cfg, start, first, ops[..n], answers[..n], marks[..n], j);
      assert forall i :: 0 <= i < j ==> answers[..n][i] == answers[i];
    } else {
      var before := answers[..n];
      assert forall i :: 0 <= i < n ==> before[i] == answers[i];
      assert forall a :: Shuts(a) <==> Final(a);
      hide Final;
      hide Shuts;
    }
  }

  // -------------------------------------------------------- reads and failures

  /** Polls of an open session that found nothing more to read. */
  ghost function IdlePolls(answers: seq<Answer>): nat {
    if answers == [] then 0
    else
      var (before, a) := (answers[..|answers| - 1], answers[|answers| - 1]);
      IdlePolls(before) + if a.ToPoll? && Idles(a.poll) && !Shut(before) then 1 else 0
  }

  /** Each failure used up is reported, and nothing else is; each empty read used up is an
      idle poll, and each idle poll used one up unless the script of reads is at its end. */
  ghost predicate Accounted(answers: seq<Answer>, readLog: seq<Incoming>, writeLog: seq<Outgoing>,
                            incoming: seq<Incoming>)
  {
    && Faults(readLog, writeLog) == multiset(answers)[ToPoll(Err(Transport))]
    && Dry(readLog) <= IdlePolls(answers) && (incoming != [] ==> Dry(readLog) == IdlePolls(answers))
  }

  // ------------------------------------------------------------------ one call

  ghost function MarkOf(client: SoupBinClient): Mark
    reads client, client.peer
  {
    Mark(|client.peer.accepted|, |EncodeAll(client.queued)|, |client.peer.delivered|)
  }

  /** A call did what its answer says. */
  twostate predicate Performed(client: SoupBinClient, op: Op, new a: Answer)
    reads client, client.peer
  {
    && client.Valid() && client.peer.Flowed()
    && (client.state == Closed <==> old(client.state) == Closed || Shuts(a))
    && (client.state == Stream <==> client.state != Closed && (old(client.state) == Stream || Opens(a)))
    && client.dropped == (old(client.dropped) || Loses(a))
    && client.failed == (old(client.failed) || Blames(a))
    && (!old(client.failed) ==> client.Outputs() == old(client.Outputs()) + OutputOf(a))
    && (!old(client.failed) && client.failed ==> client.Broken())
    && client.loginDeadline == old(client.loginDeadline)
    && old(client.queued) <= client.queued && Queues(op, a, client.queued[|old(client.queued)|..])
    && (a == ToPoll(Err(EndOfSessionError)) ==> old(client.state) == Closed && client.out == [])
    && (old(client.state) == Closed ==> |client.out| <= |old(client.out)|)
    && client.Spent(a.ToPoll? && Idles(a.poll) && old(client.state) != Closed, a == ToPoll(Err(Transport)))
    && (a.ToPoll? && a.poll != Err(Transport) ==> client.out == [] || client.peer.Full())
  }

  /** The times the session keeps are those its marks show. */
  twostate predicate Clocked(client: SoupBinClient, op: Op, new a: Answer)
    reads client, client.peer
  {
    var (before, after) := (old(MarkOf(client)), MarkOf(client));
    && Grows(before, after, op, a)
    && client.lastSend == (if op.PollAt? && Emptied(before, after) then op.now else old(client.lastSend))
    && client.lastRecv == (if op.PollAt? && HeardIn(before, after, a) then op.now else old(client.lastRecv))
    && AnswersWell(client.cfg, old(client.state) == Closed, old(client.state) == Stream, old(client.loginDeadline),
                   old(client.lastSend), old(client.lastRecv), before, after, op, a)
  }

  /** All that was delivered is reported and breaks no rule. */
  ghost predicate Exhausted(client: SoupBinClient)
    reads client, client.peer
  {
    !client.failed ==>
      && client.Outputs() == Transcript(client.peer.delivered, client.cfg.maxFrameSize)
      && !Breaks(client.peer.delivered, client.cfg.maxFrameSize)
  }

  /** A heartbeat is three octets. */
  lemma HeartbeatSize(queued: seq<Packet>)
    ensures |EncodeAll(queued + [Packet(ClientHeartbeat, [])])| == |EncodeAll(queued)| + 3
  {
    EncodeAllSnoc(queued, Packet(ClientHeartbeat, []));
  }

  method Poll(client: SoupBinClient, now: nat) returns (a: Answer)
    requires client.Valid()
    modifies client, client.peer
    ensures Performed(client, PollAt(now), a) && Clocked(client, PollAt(now), a)
    ensures a == ToPoll(Ok(None)) && client.state != Closed ==> Exhausted(client)
  {
    hide Read;
    hide EncodeAll;
    hide Framed;
    hide Take;
    hide Bytes;
    hide Transcript;
    hide Breaks;
    hide Dry;
    hide Faults;
    HeartbeatSize(client.queued);
    ghost var (before, beaten) := (client.queued, client.queued + [Packet(ClientHeartbeat, [])]);
    assert before[|before|..] == [] && beaten[|before|..] == [Packet(ClientHeartbeat, [])];
    var r := client.Poll(now);
    a := ToPoll(r);
  }

  method Perform(client: SoupBinClient, op: Op) returns (a: Answer)
    requires client.Valid()
    modifies client, client.peer
    ensures Performed(client, op, a) && Clocked(client, op, a)
    ensures a == ToPoll(Ok(None)) && client.state != Closed ==> Exhausted(client)
  {
    hide Read;
    hide EncodeAll;
    hide Framed;
    hide Take;
    hide Bytes;
    hide Transcript;
    hide Breaks;
    hide Dry;
    hide Faults;
    match op {
      case PollAt(now) =>
        a := Poll(client, now);
      case Send(payload) =>
        var r := client.QueueUnsequenced(payload);
        a := ToSend(r);
      case Logout =>
        var r := client.QueueLogout();
        a := ToLogout(r);
    }
  }

  // ---------------------------------------------------------------- whole runs

  /** A session's state is what the answers so far say. */
  ghost predicate Tracks(client: SoupBinClient, start: nat, first: Mark, ops: seq<Op>, answers: seq<Answer>,
                         marks: seq<Mark>)
    requires |ops| == |answers| == |marks|
    reads client, client.peer
  {
    && client.Valid()
    && (client.state == Closed <==> Shut(answers))
    && (client.state == Stream <==> !Shut(answers) && LoggedIn(answers))
    && (client.dropped <==> Lost(answers))
    && (client.failed <==> Blamed(answers))
    && (!client.failed ==> client.Outputs() == Reported(answers))
    && client.loginDeadline == start + client.cfg.loginTimeout
    && client.lastSend == LastSent(start, first, ops, marks)
    && client.lastRecv == LastHeard(start, first, ops, answers, marks)
    && MarkOf(client) == Before(first, marks, |marks|)
    && Accounted(answers, client.peer.readLog, client.peer.writeLog, client.peer.incoming)
    && client.queued != [] && client.queued[0] == Login(client.cfg)
    && QueuedBy(ops, answers, client.queued[1..])
    && (ToPoll(Err(EndOfSessionError)) in answers ==> client.state == Closed && client.out == [])
  }

  lemma AnswersSnoc(answers: seq<Answer>, a: Answer)
    ensures Shut(answers + [a]) <==> Shut(answers) || Shuts(a)
    ensures Lost(answers + [a]) <==> Lost(answers) || Loses(a)
    ensures Blamed(answers + [a]) <==> Blamed(answers) || Blames(a)
    ensures LoggedIn(answers + [a]) <==> LoggedIn(answers) || Opens(a)
    ensures Reported(answers + [a]) == Reported(answers) + if Blamed(answers) then [] else OutputOf(a)
  {
    hide Shuts;
    hide Loses;
    hide Blames;
    hide Opens;
    var after := answers + [a];
    assert after[..|answers|] == answers;
    assert after[|answers|] == a;
    assert forall k :: 0 <= k < |answers| ==> after[k] == answers[k];
  }

  lemma QueuedBySnoc(ops: seq<Op>, answers: seq<Answer>, queued: seq<Packet>, op: Op, a: Answer, ps: seq<Packet>)
    requires |ops| == |answers| && QueuedBy(ops, answers, queued) && Queues(op, a, ps)
    ensures QueuedBy(ops + [op], answers + [a], queued + ps)
  {
    hide Queues;
    assert (ops + [op])[..|ops|] == ops && (answers + [a])[..|ops|] == answers;
    if ps == [] {
      assert queued + ps == queued;
    } else {
      OneAtATime(op, a, ps);
      assert (queued + ps)[..|queued|] == queued;
      assert ps == [(queued + ps)[|queued|]];
    }
  }

  lemma OneAtATime(op: Op, a: Answer, ps: seq<Packet>)
    requires Queues(op, a, ps)
    ensures |ps| <= 1
  {
  }

  lemma IdleSnoc(answers: seq<Answer>, a: Answer)
    ensures IdlePolls(answers + [a]) ==
            IdlePolls(answers) + if a.ToPoll? && Idles(a.poll) && !Shut(answers) then 1 else 0
  {
    hide Idles;
    hide Shut;
    assert (answers + [a])[..|answers|] == answers;
  }

  /** What a call used up of the script stays accounted for. */
  lemma AccountedOn(answers: seq<Answer>, a: Answer, readLog: seq<Incoming>, writeLog: seq<Outgoing>,
                    incoming: seq<Incoming>, readLog': seq<Incoming>, writeLog': seq<Outgoing>,
                    incoming': seq<Incoming>)
    requires Accounted(answers, readLog, writeLog, incoming) && (incoming' != [] ==> incoming != [])
    requires Faults(readLog', writeLog') == Faults(readLog, writeLog) + if a == ToPoll(Err(Transport)) then 1 else 0
    requires var idle := if a.ToPoll? && Idles(a.poll) && !Shut(answers) then 1 else 0;
             && Dry(readLog') <= Dry(readLog) + idle && (incoming' != [] ==> Dry(readLog') == Dry(readLog) + idle)
    ensures Accounted(answers + [a], readLog', writeLog', incoming')
  {
    hide Dry;
    hide Faults;
    hide Idles;
    hide Shut;
    IdleSnoc(answers, a);
  }

  /** The times after one more call. */
  lemma TimesSnoc(start: nat, first: Mark, ops: seq<Op>, answers: seq<Answer>, marks: seq<Mark>,
                  op: Op, a: Answer, mark: Mark)
    requires |ops| == |answers| == |marks|
    ensures var before := Before(first, marks, |marks|);
            && LastSent(start, first, ops + [op], marks + [mark]) ==
               (if op.PollAt? && Emptied(before, mark) then op.now else LastSent(start, first, ops, marks))
            && LastHeard(start, first, ops + [op], answers + [a], marks + [mark]) ==
               (if op.PollAt? && HeardIn(before, mark, a) then op.now
                else LastHeard(start, first, ops, answers, marks))
  {
    hide Emptied;
    hide HeardIn;
    var n := |ops|;
    assert (ops + [op])[..n] == ops && (answers + [a])[..n] == answers && (marks + [mark])[..n] == marks;
    assert Before(first, marks + [mark], n) == Before(first, marks, n);
  }

  /** An answered call keeps the queue in step with the answers: the first requires are
      about the session before the call, the others about what the call did. */
  lemma QueuesOn(cfg: Config, ops: seq<Op>, answers: seq<Answer>, op: Op, a: Answer, was: seq<Packet>,
                 queued: seq<Packet>)
    requires |ops| == |answers| && was != [] && was[0] == Login(cfg) && QueuedBy(ops, answers, was[1..])
    requires was <= queued && Queues(op, a, queued[|was|..])
    ensures queued != [] && queued[0] == Login(cfg) && QueuedBy(ops + [op], answers + [a], queued[1..])
  {
    hide QueuedBy;
    hide Queues;
    QueuedBySnoc(ops, answers, was[1..], op, a, queued[|was|..]);
    assert queued[1..] == was[1..] + queued[|was|..];
  }

  /** A session in step with the answers answers by the law. */
  lemma LawfulOn(cfg: Config, start: nat, first: Mark, ops: seq<Op>, answers: seq<Answer>, marks: seq<Mark>,
                 streaming: bool, op: Op, a: Answer, mark: Mark)
    requires |ops| == |answers| == |marks| && AllLawful(cfg, start, first, ops, answers, marks)
    requires Grows(Before(first, marks, |marks|), mark, op, a)
    requires streaming <==> !Shut(answers) && LoggedIn(answers)
    requires AnswersWell(cfg, Shut(answers), streaming, start + cfg.loginTimeout, LastSent(start, first, ops, marks),
                         LastHeard(start, first, ops, answers, marks), Before(first, marks, |marks|), mark, op, a)
    ensures AllLawful(cfg, start, first, ops + [op], answers + [a], marks + [mark])
  {
    hide Shut;
    hide LoggedIn;
    hide Grows;
    hide LastSent;
    hide LastHeard;
    var n := |ops|;
    assert AnswersWell(cfg, Shut(answers), LoggedIn(answers), start + cfg.loginTimeout,
                       LastSent(start, first, ops, marks), LastHeard(start, first, ops, answers, marks),
                       Before(first, marks, n), mark, op, a);
    hide AnswersWell;
    assert (ops + [op])[..n] == ops && (answers + [a])[..n] == answers && (marks + [mark])[..n] == marks;
    assert Before(first, marks + [mark], n) == Before(first, marks, n);
  }

  /** What the answers say of the server's whole stream. */
  ghost predicate Tells(answers: seq<Answer>, given: Octets, maxFrame: nat) {
    && Reported(answers) <= Transcript(given, maxFrame) && Numbered(Reported(answers))
    && (Blamed(answers) ==> Reported(answers) == Transcript(given, maxFrame) && Breaks(given, maxFrame))
  }

  lemma TellsWhole(client: SoupBinClient, answers: seq<Answer>)
    requires client.Valid() && !client.failed && !Blamed(answers) && client.Outputs() == Reported(answers)
    ensures Tells(answers, client.peer.Given(), client.cfg.maxFrameSize)
  {
    TakenIsPrefix(client.packets, client.decodeBuf, Bytes(client.peer.incoming), client.cfg.maxFrameSize);
    ReadIsNumbered(client.packets);
    hide Read;
    hide EncodeAll;
    hide Transcript;
    hide Breaks;
  }

  lemma TellsBroken(client: SoupBinClient, answers: seq<Answer>)
    requires client.Broken() && client.Outputs() == Reported(answers)
    ensures Tells(answers, client.peer.Given(), client.cfg.maxFrameSize)
  {
    BrokenForGood(client.packets, client.decodeBuf, Bytes(client.peer.incoming), client.cfg.maxFrameSize);
    ReadIsNumbered(client.packets);
    hide Read;
    hide EncodeAll;
    hide Transcript;
    hide Breaks;
  }

  /** The first protocol error ends what the answers tell. */
  lemma TellsOn(answers: seq<Answer>, a: Answer, given: Octets, maxFrame: nat)
    requires Tells(answers, given, maxFrame) && Blamed(answers)
    ensures Tells(answers + [a], given, maxFrame)
  {
    AnswersSnoc(answers, a);
    hide Blamed;
    hide Reported;
    hide Transcript;
    hide Breaks;
    assert Reported(answers) + [] == Reported(answers);
  }

  /** What a call's answer adds to what the answers tell. */
  lemma StillTells(client: SoupBinClient, answers: seq<Answer>, a: Answer, given: Octets)
    requires client.Valid() && given == client.peer.Given()
    requires client.failed <==> Blamed(answers) || Blames(a)
    requires !Blamed(answers) ==> client.Outputs() == Reported(answers) + OutputOf(a)
    requires !Blamed(answers) && Blames(a) ==> client.Broken()
    requires Tells(answers, given, client.cfg.maxFrameSize)
    ensures Tells(answers + [a], given, client.cfg.maxFrameSize)
  {
    hide Tells;
    hide Read;
    AnswersSnoc(answers, a);
    hide Blamed;
    hide Reported;
    if Blamed(answers) {
      TellsOn(answers, a, given, client.cfg.maxFrameSize);
    } else if Blames(a) {
      TellsBroken(client, answers + [a]);
    } else {
      TellsWhole(client, answers + [a]);
    }
  }

  /** Over any server, told by its own octets: a client reports the login answer, the messages
      with their numbers and octets, heartbeats and the end, in order and nothing else, and
      blames it for nothing. */
  lemma TellsServer(answers: seq<Answer>, prelude: seq<SoupServer.Action>, answer: SoupServer.Answer, first: nat,
                    actions: seq<SoupServer.Action>, maxFrame: nat)
    requires SoupServer.Sendable(prelude, answer, first, actions, maxFrame)
    requires Tells(answers, SoupServer.Stream(prelude, answer, actions), maxFrame)
    ensures Reported(answers) <= SoupServer.Meant(answer, first, actions) && !Blamed(answers)
  {
    hide SoupServer.Sendable;
    hide SoupServer.Stream;
    hide SoupServer.Meant;
    SoupServer.ServerIsRead(prelude, answer, first, actions, maxFrame);
  }

  /** The last answer says there is nothing to report in an open session. */
  ghost predicate Rests(answers: seq<Answer>) {
    answers != [] && answers[|answers| - 1] == ToPoll(Ok(None)) && !Shut(answers)
  }

  /** The last answer is one of a poll whose writes did not fail. */
  ghost predicate Pushed(answers: seq<Answer>) {
    && answers != []
    && var a := answers[|answers| - 1];
    && a.ToPoll? && a.poll != Err(Transport)
  }

  /** The octets start as a login request of this configuration, as far as they go. */
  ghost predicate OpensWithLogin(cfg: Config, accepted: Octets) {
    exists login :: LogsInWith(cfg, login) && (accepted <= login || login <= accepted)
  }

  lemma Comparable(a: Octets, b: Octets, rest: Octets)
    requires a <= b + rest
    ensures a <= b || b <= a
  {
    if |a| <= |b| {
      assert a == (b + rest)[..|a|] == b[..|a|];
    } else {
      assert b == (b + rest)[..|b|] == a[..|b|];
    }
  }

  lemma AcceptedOpensWithLogin(cfg: Config, queued: seq<Packet>, accepted: Octets)
    requires queued != [] && queued[0] == Login(cfg) && accepted <= EncodeAll(queued)
    ensures OpensWithLogin(cfg, accepted)
  {
    hide LogsInWith;
    hide EncodeAll;
    hide Encode;
    hide Login;
    LoginOctets(cfg);
    SoupServer.EncodeAllConcat([Login(cfg)], queued[1..]);
    assert queued == [Login(cfg)] + queued[1..];
    Comparable(accepted, EncodeAll([Login(cfg)]), EncodeAll(queued[1..]));
  }

  /** What was accepted opens with the login, is a prefix of what was queued, which parses
      back, and all of it
      once a session that dropped nothing has ended, or a poll left the transport able to
      take more. */
  ghost predicate Wrote(cfg: Config, answers: seq<Answer>, queued: seq<Packet>, accepted: Octets, full: bool) {
    && OpensWithLogin(cfg, accepted)
    && accepted <= EncodeAll(queued) && Packets(EncodeAll(queued), 3 + MAX_PAYLOAD) == queued
    && (ToPoll(Err(EndOfSessionError)) in answers && !Lost(answers) ==> accepted == EncodeAll(queued))
    && (Pushed(answers) && !Lost(answers) && !full ==> accepted == EncodeAll(queued))
  }

  lemma TracksWrote(client: SoupBinClient, start: nat, first: Mark, ops: seq<Op>, answers: seq<Answer>,
                    marks: seq<Mark>)
    requires |ops| == |answers| == |marks| && Tracks(client, start, first, ops, answers, marks)
    requires Pushed(answers) ==> client.out == [] || client.peer.Full()
    ensures Wrote(client.cfg, answers, client.queued, client.peer.accepted, client.peer.Full())
    ensures Accounted(answers, client.peer.readLog, client.peer.writeLog, client.peer.incoming)
    ensures Rests(answers) && !Blamed(answers) ==> !client.failed && client.Outputs() == Reported(answers)
  {
    EncodingParsesBack(client.queued);
    hide OpensWithLogin;
    hide Read;
    hide EncodeAll;
    hide Packets;
    hide Lost;
    hide Shut;
    hide LoggedIn;
    hide Blamed;
    hide Reported;
    hide QueuedBy;
    hide Accounted;
    hide LastSent;
    hide LastHeard;
    if client.out == [] {
      assert client.peer.accepted + client.out == client.peer.accepted;
    }
    AcceptedOpensWithLogin(client.cfg, client.queued, client.peer.accepted);
  }

  /** At rest, with a script that has no empty read, everything was delivered. */
  lemma RestsAtTheEnd(answers: seq<Answer>, readLog: seq<Incoming>, writeLog: seq<Outgoing>, incoming: seq<Incoming>)
    requires Accounted(answers, readLog, writeLog, incoming) && Rests(answers) && Chunk([]) !in readLog
    ensures incoming == []
  {
    var before := answers[..|answers| - 1];
    assert Shut(before) ==> Shut(answers);
  }

  /** The octets delivered are those of the reads used up. */
  lemma DeliveredIsRead(delivered: Octets, readLog: seq<Incoming>, incoming: seq<Incoming>)
    requires delivered + Bytes(incoming) == Bytes(readLog + incoming)
    ensures delivered == Bytes(readLog)
  {
    BytesConcat(readLog, incoming);
    var (a, b, c) := (delivered, Bytes(readLog), Bytes(incoming));
    assert |a| == |b| && a == (a + c)[..|a|] && b == (b + c)[..|b|];
  }

  /** Any session over any transport. Each call has its answer, lawful after those before:
      heartbeats and timeouts are told exactly by the marks of what was written and heard.
      What was reported up to the first protocol error is a prefix of the reading of all the
      server sends, and the whole of it when an error is reported: the server then breaks
      the protocol there. Every failure and empty read used up has its answer and every such
      answer its failure or empty read. At rest, all that was delivered is reported and breaks
      no rule; if no read came up empty that is all the server sends. Queued are the login and
      what the answers say; of that the transport accepted a prefix, and all of it once a
      session that dropped nothing has ended or the transport could take more. */
  method Drive(cfg: Config, peer: Peer, start: nat, ops: seq<Op>)
    returns (session: Result<SoupBinClient, ()>, answers: seq<Answer>, ghost first: Mark, ghost marks: seq<Mark>)
    requires peer.Untouched()
    modifies peer
    ensures session.Err? <==> WriteFails(49, old(peer.outgoing))
    ensures peer.readLog + peer.incoming == old(peer.incoming) && peer.writeLog + peer.outgoing == old(peer.outgoing)
    ensures session.Ok? ==>
              && |answers| == |marks| == |ops| && AllLawful(cfg, start, first, ops, answers, marks)
              && Tells(answers, old(Bytes(peer.incoming)), cfg.maxFrameSize)
              && peer.delivered == Bytes(peer.readLog)
              && Accounted(answers, peer.readLog, peer.writeLog, peer.incoming)
    ensures session.Ok? && Rests(answers) && !Blamed(answers) ==>
              && Reported(answers) == Transcript(peer.delivered, cfg.maxFrameSize)
              && !Breaks(peer.delivered, cfg.maxFrameSize)
    ensures session.Ok? && Rests(answers) && Chunk([]) !in old(peer.incoming) ==>
              peer.delivered == old(Bytes(peer.incoming))
    ensures session.Ok? ==>
              && var client := session.value;
              && client.peer == peer && client.cfg == cfg && Tracks(client, start, first, ops, answers, marks)
              && Wrote(cfg, answers, client.queued, peer.accepted, peer.Full())
  {
    hide Read;
    hide EncodeAll;
    hide Bytes;
    hide Transcript;
    hide Breaks;
    hide Reported;
    hide QueuedBy;
    hide Accounted;
    hide LastSent;
    hide LastHeard;
    hide Shut;
    hide LoggedIn;
    hide Lost;
    hide Blamed;
    hide Tracks;
    hide Tells;
    hide AllLawful;
    hide MarkOf;
    answers, marks := [], [];
    ghost var script := (peer.incoming, peer.outgoing);
    assert peer.readLog + peer.incoming == peer.incoming && peer.writeLog + peer.outgoing == peer.outgoing;
    session := Start(cfg, peer, start);
    first := Mark(0, 0, 0);
    if session.Err? {
      return;
    }
    var client := session.value;
    first := MarkOf(client);
    ghost var given := old(Bytes(peer.incoming));
    StartTracks(client, start, given);
    var i := 0;
    while i < |ops|
      invariant 0 <= i <= |ops| && |answers| == |marks| == i && fresh(client) && client.peer == peer
      invariant client.cfg == cfg && Tracks(client, start, first, ops[..i], answers, marks)
      invariant AllLawful(cfg, start, first, ops[..i], answers, marks)
      invariant Tells(answers, given, cfg.maxFrameSize) && peer.Given() == given && peer.Script() == script
      invariant Rests(answers) ==> Exhausted(client)
      invariant Pushed(answers) ==> client.out == [] || peer.Full()
    {
      var a := Advance(client, ops[i], start, first, ops[..i], answers, marks);
      assert ops[..i] + [ops[i]] == ops[..i + 1];
      answers, marks := answers + [a], marks + [MarkOf(client)];
      i := i + 1;
    }
    assert ops[..i] == ops;
    TracksWrote(client, start, first, ops, answers, marks);
    DeliveredIsRead(peer.delivered, peer.readLog, peer.incoming);
    if Rests(answers) && Chunk([]) !in old(peer.incoming) {
      assert forall x :: x in peer.readLog ==> x in peer.readLog + peer.incoming;
      RestsAtTheEnd(answers, peer.readLog, peer.writeLog, peer.incoming);
      assert peer.readLog + peer.incoming == peer.readLog;
    }
  }

  /** One call on a session in step with the answers so far. */
  method Advance(client: SoupBinClient, op: Op, ghost start: nat, ghost first: Mark, ghost ops: seq<Op>,
                 ghost answers: seq<Answer>, ghost marks: seq<Mark>)
    returns (a: Answer)
    requires |ops| == |answers| == |marks| && Tracks(client, start, first, ops, answers, marks)
    requires AllLawful(client.cfg, start, first, ops, answers, marks)
    requires Tells(answers, client.peer.Given(), client.cfg.maxFrameSize)
    modifies client, client.peer
    ensures client.peer.Flowed()
    ensures Tracks(client, start, first, ops + [op], answers + [a], marks + [MarkOf(client)])
    ensures AllLawful(client.cfg, start, first, ops + [op], answers + [a], marks + [MarkOf(client)])
    ensures Tells(answers + [a], client.peer.Given(), client.cfg.maxFrameSize)
    ensures Rests(answers + [a]) ==> Exhausted(client)
    ensures Pushed(answers + [a]) ==> client.out == [] || client.peer.Full()
  {
    hide Read;
    hide EncodeAll;
    hide Bytes;
    hide Transcript;
    hide Breaks;
    hide Reported;
    hide QueuedBy;
    hide AllLawful;
    hide AnswersWell;
    hide Grows;
    hide LastSent;
    hide LastHeard;
    hide Accounted;
    hide Dry;
    hide Faults;
    hide Idles;
    hide Emptied;
    hide HeardIn;
    hide Shut;
    hide LoggedIn;
    hide Lost;
    hide Blamed;
    hide Tells;
    hide Opens;
    hide Shuts;
    hide Loses;
    hide Blames;
    hide Queues;
    hide MarkOf;
    ghost var (queued, streaming) := (client.queued, client.state == Stream);
    ghost var (readLog, writeLog, incoming) := (client.peer.readLog, client.peer.writeLog, client.peer.incoming);
    a := Perform(client, op);
    AnswersSnoc(answers, a);
    StillTells(client, answers, a, client.peer.Given());
    LawfulOn(client.cfg, start, first, ops, answers, marks, streaming, op, a, MarkOf(client));
    TimesSnoc(start, first, ops, answers, marks, op, a, MarkOf(client));
    QueuesOn(client.cfg, ops, answers, op, a, queued, client.queued);
    assert client.peer.incoming != [] ==> incoming != [];
    AccountedOn(answers, a, readLog, writeLog, incoming, client.peer.readLog, client.peer.writeLog,
                client.peer.incoming);
  }

  lemma StartTracks(client: SoupBinClient, start: nat, given: Octets)
    requires client.Valid() && client.state == Auth && client.packets == [] && client.queued == [Login(client.cfg)]
    requires !client.failed && !client.dropped && client.loginDeadline == start + client.cfg.loginTimeout
    requires client.lastSend == start && client.lastRecv == start && client.peer.Given() == given
    requires Dry(client.peer.readLog) == 0 && Faults(client.peer.readLog, client.peer.writeLog) == 0
    ensures Tracks(client, start, MarkOf(client), [], [], []) && Tells([], given, client.cfg.maxFrameSize)
    ensures AllLawful(client.cfg, start, MarkOf(client), [], [], [])
  {
    ReadNothing();
    TellsWhole(client, []);
  }
}
