/** What the sources hand over reaches the caller: every datagram is decoded once and in
    order, every heartbeat and end of session is announced, and every failure is reported,
    told from the datagrams' own octets. */
module MoldSources {
  import opened Octets
  import opened MoldWire
  import opened GapTracking
  import opened Reassembly
  import opened Arbiter
  import opened MoldReceiver
  import opened MoldRefusals

  // ------------------------------------------------------------------- octets

  /** The 64-bit number in eight octets, most significant first. */
  function Number64(d: Octets, at: nat): nat
    requires at + 8 <= |d|
  {
    0x100_0000_0000_0000 * (d[at] as int) + 0x1_0000_0000_0000 * (d[at + 1] as int)
    + 0x100_0000_0000 * (d[at + 2] as int) + 0x1_0000_0000 * (d[at + 3] as int)
    + 0x100_0000 * (d[at + 4] as int) + 0x1_0000 * (d[at + 5] as int)
    + 0x100 * (d[at + 6] as int) + d[at + 7] as int
  }

  /** The 16-bit number in two octets, most significant first. */
  function Number16(d: Octets, at: nat): nat
    requires at + 2 <= |d|
  {
    0x100 * (d[at] as int) + d[at + 1] as int
  }

  lemma BigEndianNext(d: Octets, at: nat, n: nat)
    requires at + n < |d|
    ensures BigEndian(d[at..at + n + 1]) == 256 * BigEndian(d[at..at + n]) + d[at + n] as int
    ensures BigEndian(d[at..at]) == 0
  {
    var s := d[at..at + n + 1];
    assert s[..|s| - 1] == d[at..at + n];
  }

  lemma NumbersAreBigEndian(d: Octets, at: nat)
    ensures at + 2 <= |d| ==> BigEndian(d[at..at + 2]) == Number16(d, at)
    ensures at + 8 <= |d| ==> BigEndian(d[at..at + 8]) == Number64(d, at)
  {
    hide BigEndian;
    if at + 2 <= |d| {
      BigEndianNext(d, at, 0);
      BigEndianNext(d, at, 1);
    }
    if at + 8 <= |d| {
      BigEndianNext(d, at, 2);
      BigEndianNext(d, at, 3);
      BigEndianNext(d, at, 4);
      BigEndianNext(d, at, 5);
      BigEndianNext(d, at, 6);
      BigEndianNext(d, at, 7);
    }
  }

  /** The datagram up next is whole and of the session, if one is locked. */
  ghost predicate Takes(s: Rx)
    requires s.pending != []
  {
    var d := s.pending[0].1;
    20 <= |d| <= 0x1_0000 && (s.session.None? || s.session.value == d[..10])
  }

  lemma TakesIff(s: Rx)
    requires s.pending != []
    ensures Accepted(s).Some? <==> Takes(s)
    ensures var d := s.pending[0].1;
            Takes(s) ==> Accepted(s).value.0 == DownstreamHeader(d[..10], Number64(d, 10), Number16(d, 18))
  {
    NumbersAreBigEndian(s.pending[0].1, 10);
    NumbersAreBigEndian(s.pending[0].1, 18);
    hide BigEndian;
  }

  // ------------------------------------------------------------------- events

  /** What the datagram up next announces: a heartbeat with count zero, the end of the
      session with all ones, both with the sequence of the header. */
  ghost function Announced(s: Rx): seq<MoldEvent>
    requires s.pending != []
  {
    var d := s.pending[0].1;
    if !Takes(s) then []
    else if d[18] == 0x00 && d[19] == 0x00 then [HeartbeatSeen(Number64(d, 10))]
    else if d[18] == 0xFF && d[19] == 0xFF then [SessionEnded(Number64(d, 10))]
    else []
  }

  ghost function AllAnnounced(turns: seq<Rx>): seq<MoldEvent>
    requires forall s :: s in turns ==> s.pending != []
  {
    if turns == [] then [] else Announced(turns[0]) + AllAnnounced(turns[1..])
  }

  /** Events among items waiting. */
  function EventsIn(items: seq<ReadyItem>): seq<MoldEvent> {
    if items == [] then []
    else (if items[0].EventItem? then [items[0].event] else []) + EventsIn(items[1..])
  }

  /** Events among outcomes. */
  function EventsOf(outs: seq<Outcome>): seq<MoldEvent> {
    if outs == [] then []
    else EventsOf(outs[..|outs| - 1]) + if outs[|outs| - 1].Event? then [outs[|outs| - 1].event] else []
  }

  lemma {:induction false} EventsConcat(a: seq<ReadyItem>, b: seq<ReadyItem>)
    ensures EventsIn(a + b) == EventsIn(a) + EventsIn(b)
  {
    if a == [] {
      assert a + b == b;
    } else {
      EventsConcat(a[1..], b);
      assert (a + b)[1..] == a[1..] + b;
    }
  }

  /** Messages of this stream and gaps, no events. */
  ghost predicate From(items: seq<ReadyItem>, streamId: nat) {
    forall i :: 0 <= i < |items| ==> ItemFrom(items[i], streamId)
  }

  predicate ItemFrom(item: ReadyItem, streamId: nat) {
    match item
    case Inline(_, id, _, _) => id == streamId
    case View(_, _, id) => id == streamId
    case EventItem(_) => false
    case GapItem => true
  }

  lemma {:induction false} NoEventsIn(items: seq<ReadyItem>, streamId: nat)
    requires From(items, streamId)
    ensures EventsIn(items) == []
  {
    if items != [] {
      NoEventsIn(items[1..], streamId);
    }
  }

  /** The second state waits with what the first did and with messages of this stream. */
  ghost predicate Adds(a: Rx, b: Rx, streamId: nat) {
    a.ready <= b.ready && From(b.ready[|a.ready|..], streamId)
  }

  lemma AddsOn(a: Rx, b: Rx, c: Rx, streamId: nat)
    requires Adds(a, b, streamId) && Adds(b, c, streamId)
    ensures Adds(a, c, streamId)
  {
    hide ItemFrom;
    var more := c.ready[|a.ready|..];
    forall i | 0 <= i < |more| ensures ItemFrom(more[i], streamId) {
      var j := |a.ready| + i;
      if j < |b.ready| {
        assert more[i] == b.ready[j] == b.ready[|a.ready|..][i];
      } else {
        assert more[i] == c.ready[|b.ready|..][j - |b.ready|];
      }
    }
  }

  lemma AddsNoEvents(a: Rx, b: Rx, streamId: nat)
    requires Adds(a, b, streamId)
    ensures EventsIn(b.ready) == EventsIn(a.ready)
  {
    var more := b.ready[|a.ready|..];
    assert b.ready == a.ready + more;
    EventsConcat(a.ready, more);
    NoEventsIn(more, streamId);
  }

  lemma AddsNothing(a: Rx, b: Rx, streamId: nat)
    requires a.ready == b.ready
    ensures Adds(a, b, streamId)
  {
  }

  lemma PlaceAdds(w: Work, streamId: nat, q: nat, b: Block)
    requires w.rx.ring.capacity > 0
    ensures Adds(w.rx, Place(w, streamId, q, b).0.rx, streamId)
  {
    hide Drained;
    hide Placed;
  }

  lemma BlockAdds(w: Work, streamId: nat, q: nat, b: Block, now: nat)
    requires Sized(w.rx)
    ensures Adds(w.rx, BlockStep(w, streamId, q, b, now).0.rx, streamId)
  {
    hide Place;
    hide Observe;
    if w.rx.arbiter.None? {
      PlaceAdds(w, streamId, q, b);
    } else {
      var w1 := w.(rx := w.rx.(arbiter := Some(Observe(w.rx.arbiter.value, q, now).0)));
      PlaceAdds(w1, streamId, q, b);
    }
  }

  lemma {:induction false} BlocksAdd(w: Work, streamId: nat, first: nat, blocks: seq<Block>, i: nat, now: nat)
    requires Sized(w.rx) && i <= |blocks|
    ensures Adds(w.rx, Blocks(w, streamId, first, blocks, i, now).0.rx, streamId)
    decreases |blocks| - i
  {
    hide Adds;
    if i == |blocks| {
      AddsNothing(w.rx, w.rx, streamId);
    } else {
      BlockStepFrame(w, streamId, first + i, blocks[i], now);
      BlockAdds(w, streamId, first + i, blocks[i], now);
      hide BlockStep;
      var (w1, full) := BlockStep(w, streamId, first + i, blocks[i], now);
      if !full {
        BlocksAdd(w1, streamId, first, blocks, i + 1, now);
        AddsOn(w.rx, w1.rx, Blocks(w1, streamId, first, blocks, i + 1, now).0.rx, streamId);
      }
    }
  }

  lemma DataAdds(rx: Rx, streamId: nat, d: Octets, h: DownstreamHeader, blocks: seq<Block>, now: nat)
    requires Sized(rx)
    ensures Adds(rx, ProcessData(rx, streamId, d, h, blocks, now).0, streamId)
  {
    hide Blocks;
    var w := Work(OpenGap(rx, h, now), Owned(d), 0);
    assert Adds(rx, w.rx, streamId);
    BlocksAdd(w, streamId, h.sequence, blocks, 0, now);
    AddsOn(rx, w.rx, Blocks(w, streamId, h.sequence, blocks, 0, now).0.rx, streamId);
  }

  lemma ConfirmAdds(rx: Rx, now: nat, streamId: nat)
    ensures Adds(rx, DrainConfirmed(rx, now), streamId)
  {
    hide Due;
  }

  /** What decoding an accepted datagram queues: its event, or messages of its stream. */
  lemma AcceptedQueues(rx: Rx, streamId: nat, d: Octets, h: DownstreamHeader, now: nat)
    requires Sized(rx) && ParseHeader(d) == Ok(h)
    ensures var out := ProcessAccepted(rx, streamId, d, h, now).0;
            && (Kind(h) == Data ==> Adds(rx, out, streamId))
            && (Kind(h) == Heartbeat ==> EventsIn(out.ready) == EventsIn(rx.ready) + [HeartbeatSeen(h.sequence)])
            && (Kind(h) == EndOfSession ==> EventsIn(out.ready) == EventsIn(rx.ready) + [SessionEnded(h.sequence)])
  {
    hide ProcessData;
    hide ParseBlocks;
    hide ParseHeader;
    if Kind(h) == Data {
      AddsNothing(rx, rx, streamId);
      assert HEADER_LEN <= |d| by { HeaderIsLong(d); }
      var blocks := ParseBlocks(d, HEADER_LEN, h.messageCount);
      if blocks.Ok? {
        DataAdds(rx, streamId, d, h, blocks.value, now);
      }
    } else {
      var noted := NoteTailGap(rx, h.sequence);
      assert Adds(rx, noted, streamId);
      AddsNoEvents(rx, noted, streamId);
      var event := if Kind(h) == Heartbeat then HeartbeatSeen(h.sequence) else SessionEnded(h.sequence);
      EventsConcat(noted.ready, [EventItem(event)]);
      assert [EventItem(event)][1..] == [];
      assert EventsIn([EventItem(event)]) == [event];
    }
  }

  lemma HeaderIsLong(d: Octets)
    requires ParseHeader(d).Ok?
    ensures HEADER_LEN <= |d|
  {
  }

  /** A turn queues what its datagram announces, and messages of its stream. */
  lemma TurnAnnounces(s: Rx, now: nat)
    requires Sized(s) && s.pending != []
    ensures var out := Turn(s, now).0;
            && EventsIn(out.ready) == EventsIn(s.ready) + Announced(s)
            && (Announced(s) == [] ==> Adds(s, out, s.pending[0].0))
  {
    hide ProcessAccepted;
    hide ParseHeader;
    hide EventsIn;
    hide Adds;
    TakesIff(s);
    hide Takes;
    var (streamId, d) := s.pending[0];
    AddsNothing(s, Popped(s), streamId);
    assert EventsIn(s.ready) + [] == EventsIn(s.ready);
    if Accepted(s).Some? {
      var (h, accepted) := Accepted(s).value;
      assert accepted.ready == s.ready;
      AcceptedQueues(accepted, streamId, d, h, now);
      var (rx1, r) := ProcessNext(s, now);
      ConfirmAdds(rx1, now, streamId);
      AddsNothing(rx1, rx1, streamId);
      TurnJoins(s, accepted, rx1, Turn(s, now).0, streamId);
      assert d[18] == 0 && d[19] == 0 <==> Number16(d, 18) == 0;
      assert d[18] == 0xFF && d[19] == 0xFF <==> Number16(d, 18) == 0xFFFF;
    }
  }

  lemma TurnJoins(s: Rx, accepted: Rx, rx1: Rx, out: Rx, streamId: nat)
    requires accepted.ready == s.ready && Adds(rx1, out, streamId)
    ensures EventsIn(out.ready) == EventsIn(rx1.ready)
    ensures Adds(accepted, rx1, streamId) ==>
              Adds(s, out, streamId) && EventsIn(out.ready) == EventsIn(s.ready)
  {
    AddsNoEvents(rx1, out, streamId);
    if Adds(accepted, rx1, streamId) {
      AddsOn(accepted, rx1, out, streamId);
      AddsNoEvents(accepted, rx1, streamId);
    }
  }

  // --------------------------------------------------------------------- gaps

  /** Gap reports among items waiting. */
  function GapsIn(items: seq<ReadyItem>): nat {
    if items == [] then 0 else (if items[0].GapItem? then 1 else 0) + GapsIn(items[1..])
  }

  /** Gap reports among outcomes. */
  function GapsOf(outs: seq<Outcome>): nat {
    if outs == [] then 0
    else GapsOf(outs[..|outs| - 1]) + if outs[|outs| - 1] == GapDetected then 1 else 0
  }

  lemma {:induction false} GapsConcat(a: seq<ReadyItem>, b: seq<ReadyItem>)
    ensures GapsIn(a + b) == GapsIn(a) + GapsIn(b)
  {
    if a == [] {
      assert a + b == b;
    } else {
      GapsConcat(a[1..], b);
      assert (a + b)[1..] == a[1..] + b;
    }
  }

  lemma {:induction false} NoGapsIn(items: seq<ReadyItem>)
    requires forall i :: 0 <= i < |items| ==> !items[i].GapItem?
    ensures GapsIn(items) == 0
  {
    if items != [] {
      NoGapsIn(items[1..]);
    }
  }

  lemma {:induction false} OnlyGapsIn(n: nat)
    ensures GapsIn(Repeat(GapItem, n)) == n
  {
    var items := Repeat(GapItem, n);
    if n > 0 {
      OnlyGapsIn(n - 1);
      assert items[1..] == Repeat(GapItem, n - 1);
    }
  }

  /** No gap more is recorded and none is reported. */
  ghost predicate NoNewGap(a: Rx, b: Rx) {
    GapsIn(b.ready) == GapsIn(a.ready) && forall q :: q in b.gaps ==> q in a.gaps
  }

  lemma DrainToReportsNoGap(rx: Rx, first: nat, streamId: nat)
    ensures NoNewGap(rx, DrainTo(rx, first, streamId))
  {
    hide Drained;
    var items := Views(Drained(rx.ring).1, first, streamId);
    GapsConcat(rx.ready, items);
    NoGapsIn(items);
  }

  lemma PlaceReportsNoGap(w: Work, streamId: nat, q: nat, b: Block)
    requires w.rx.ring.capacity > 0
    ensures NoNewGap(w.rx, Place(w, streamId, q, b).0.rx)
  {
    hide Drained;
    hide Placed;
    hide DrainTo;
    var rx := w.rx.(gaps := w.rx.gaps - iset{q});
    if q == w.rx.ring.expected {
      var item := Inline(q, streamId, b.offset, b.len);
      GapsConcat(rx.ready, [item]);
      NoGapsIn([item]);
      DrainToReportsNoGap(rx.(ring := rx.ring.(expected := rx.ring.expected + 1), ready := rx.ready + [item]),
                          q + 1, streamId);
    } else if q > w.rx.ring.expected {
      var view := MessageView(w.backing.held, b.offset, b.len);
      DrainToReportsNoGap(rx.(ring := Placed(rx.ring, q, view).0), q, streamId);
    }
  }

  lemma BlockReportsNoGap(w: Work, streamId: nat, q: nat, b: Block, now: nat)
    requires Sized(w.rx)
    ensures NoNewGap(w.rx, BlockStep(w, streamId, q, b, now).0.rx)
  {
    hide Place;
    hide Observe;
    if w.rx.arbiter.None? {
      PlaceReportsNoGap(w, streamId, q, b);
    } else {
      PlaceReportsNoGap(w.(rx := w.rx.(arbiter := Some(Observe(w.rx.arbiter.value, q, now).0))), streamId, q, b);
    }
  }

  lemma {:induction false} BlocksReportNoGap(w: Work, streamId: nat, first: nat, blocks: seq<Block>, i: nat, now: nat)
    requires Sized(w.rx) && i <= |blocks|
    ensures NoNewGap(w.rx, Blocks(w, streamId, first, blocks, i, now).0.rx)
    decreases |blocks| - i
  {
    if i < |blocks| {
      BlockStepFrame(w, streamId, first + i, blocks[i], now);
      BlockReportsNoGap(w, streamId, first + i, blocks[i], now);
      hide BlockStep;
      var (w1, full) := BlockStep(w, streamId, first + i, blocks[i], now);
      if !full {
        BlocksReportNoGap(w1, streamId, first, blocks, i + 1, now);
      }
    }
  }

  /** The datagram up next, if decoded, jumps past the highest sequence seen. */
  ghost predicate JumpsAhead(s: Rx)
    requires s.pending != []
  {
    var d := s.pending[0].1;
    && Takes(s) && s.anchored && Number64(d, 10) > s.nextUnseen
    && (Number16(d, 18) == 0 || Number16(d, 18) == 0xFFFF || ParseBlocks(d, 20, Number16(d, 18)).Ok?)
  }

  /** Every gap that is recorded is reported along. */
  ghost predicate ReportsGaps(a: Rx, b: Rx) {
    GapsIn(b.ready) >= GapsIn(a.ready)
    && ((exists q :: q in b.gaps && q !in a.gaps) ==> GapsIn(b.ready) > GapsIn(a.ready))
  }

  lemma NotedReports(rx: Rx, nextExpected: nat, event: MoldEvent)
    ensures var noted := NoteTailGap(rx, nextExpected);
            var out := noted.(ready := noted.ready + [EventItem(event)]);
            && ReportsGaps(rx, out)
            && GapsIn(out.ready) == GapsIn(rx.ready) + if nextExpected > rx.nextUnseen then 1 else 0
  {
    var noted := NoteTailGap(rx, nextExpected);
    GapsConcat(rx.ready, [GapItem]);
    OnlyGapsIn(1);
    assert Repeat(GapItem, 1) == [GapItem];
    GapsConcat(noted.ready, [EventItem(event)]);
    NoGapsIn([EventItem(event)]);
  }

  lemma DataReports(rx: Rx, streamId: nat, d: Octets, h: DownstreamHeader, blocks: seq<Block>, now: nat)
    requires Sized(rx)
    ensures var out := ProcessData(rx, streamId, d, h, blocks, now).0;
            && ReportsGaps(rx, out)
            && GapsIn(out.ready) ==
               GapsIn(rx.ready) + if rx.arbiter.None? && h.sequence > rx.nextUnseen then 1 else 0
  {
    hide Blocks;
    GapsConcat(rx.ready, [GapItem]);
    OnlyGapsIn(1);
    assert Repeat(GapItem, 1) == [GapItem];
    BlocksReportNoGap(Work(OpenGap(rx, h, now), Owned(d), 0), streamId, h.sequence, blocks, 0, now);
    hide GapsIn;
  }

  lemma AcceptedReports(rx: Rx, streamId: nat, d: Octets, h: DownstreamHeader, now: nat)
    requires Sized(rx) && ParseHeader(d) == Ok(h)
    ensures HEADER_LEN <= |d|
    ensures var out := ProcessAccepted(rx, streamId, d, h, now).0;
            && ReportsGaps(rx, out)
            && (rx.arbiter.None? ==>
                  GapsIn(out.ready) ==
                  GapsIn(rx.ready) + if h.sequence > rx.nextUnseen
                                        && (Kind(h) != Data || ParseBlocks(d, HEADER_LEN, h.messageCount).Ok?)
                                     then 1 else 0)
  {
    hide ProcessData;
    hide ParseBlocks;
    hide GapsIn;
    hide ReportsGaps;
    HeaderIsLong(d);
    hide ParseHeader;
    if Kind(h) == Data {
      NothingReported(rx);
      var blocks := ParseBlocks(d, HEADER_LEN, h.messageCount);
      if blocks.Ok? {
        DataReports(rx, streamId, d, h, blocks.value, now);
      }
    } else {
      NotedReports(rx, h.sequence,
                   if Kind(h) == Heartbeat then HeartbeatSeen(h.sequence) else SessionEnded(h.sequence));
      hide NoteTailGap;
    }
  }

  lemma NothingReported(rx: Rx)
    ensures ReportsGaps(rx, rx)
  {
  }

  lemma ConfirmReports(rx: Rx, now: nat)
    ensures ReportsGaps(rx, DrainConfirmed(rx, now))
    ensures rx.arbiter.None? ==> DrainConfirmed(rx, now) == rx
  {
    if rx.arbiter.Some? {
      var due := Due(rx.arbiter.value, now);
      hide Due;
      GapsConcat(rx.ready, Repeat(GapItem, |due|));
      OnlyGapsIn(|due|);
      hide GapsIn;
      if q :| q in DrainConfirmed(rx, now).gaps && q !in rx.gaps {
        assert q in due;
        assert due != {};
      }
    }
  }

  /** A turn reports a gap along with every sequence it records as missing; on one leg it
      reports one exactly when its datagram jumps past the highest sequence seen. */
  lemma TurnReportsGaps(s: Rx, now: nat)
    requires Sized(s) && s.pending != []
    ensures var out := Turn(s, now).0;
            && ReportsGaps(s, out)
            && (s.arbiter.None? ==> GapsIn(out.ready) == GapsIn(s.ready) + if JumpsAhead(s) then 1 else 0)
  {
    hide ProcessAccepted;
    hide ParseBlocks;
    hide GapsIn;
    hide DrainConfirmed;
    TakesIff(s);
    hide Takes;
    hide ParseHeader;
    if Accepted(s).Some? {
      var (streamId, d) := s.pending[0];
      var (h, accepted) := Accepted(s).value;
      AcceptedReports(accepted, streamId, d, h, now);
      AcceptedFrame(accepted, streamId, d, h, now);
      ConfirmReports(ProcessNext(s, now).0, now);
    }
  }

  /** No candidate has waited out the confirm window. */
  ghost predicate NoneOverdue(rx: Rx, now: nat) {
    rx.arbiter.Some? ==>
      var a := rx.arbiter.value;
      forall q :: q in a.pending ==> a.pending[q] > now || now - a.pending[q] < a.grace
  }

  /** After a turn that did not fail no candidate is overdue. */
  lemma TurnConfirms(s: Rx, now: nat)
    requires Sized(s) && s.pending != [] && Turn(s, now).1.Ok?
    ensures NoneOverdue(Turn(s, now).0, now)
  {
    hide ProcessNext;
  }

  // ------------------------------------------------------------------ failures

  /** The error a turn on the datagram up next ends with: a bad size, a foreign session,
      message blocks cut short, or a message the ring refuses. */
  ghost function TurnError(s: Rx): Option<MoldError>
    requires Sized(s) && s.pending != []
  {
    var d := s.pending[0].1;
    if |d| > 0x1_0000 then Some(Wire(PacketTooLarge))
    else if |d| < 20 then Some(Wire(PacketTooShort))
    else if !Takes(s) then Some(SessionMismatch)
    else if Number16(d, 18) == 0 || Number16(d, 18) == 0xFFFF then None
    else if ParseBlocks(d, 20, Number16(d, 18)).Err? then Some(Wire(PacketTooShort))
    else if Refusing(s) then Some(BufferFull)
    else None
  }

  lemma {:induction false} CutShort(d: Octets, at: nat, count: nat)
    requires at <= |d|
    ensures ParseBlocks(d, at, count).Err? ==> ParseBlocks(d, at, count) == Err(PacketTooShort)
    decreases count
  {
    hide BigEndian;
    if count > 0 && |d| - at >= 2 {
      var len := BigEndian(d[at..at + 2]);
      if |d| - at - 2 >= len {
        CutShort(d, at + 2 + len, count - 1);
      }
    }
  }

  /** A turn fails exactly as the datagram's octets and the ring say. */
  lemma TurnFailsIff(s: Rx, now: nat)
    requires Orderly(s) && s.pending != []
    ensures Turn(s, now).1 == if TurnError(s).Some? then Err(TurnError(s).value) else Ok(())
  {
    hide Blocks;
    hide ParseBlocks;
    hide SomeRefused;
    TakesIff(s);
    TurnRefusedIff(s, now);
    var d := s.pending[0].1;
    if Accepted(s).Some? {
      CutShort(d, 20, Number16(d, 18));
      var (h, accepted) := Accepted(s).value;
      hide ParseHeader;
    }
  }

  // -------------------------------------------------------------------- rounds

  /** What a round over the sources hands over in the state it meets: the legs' datagrams,
      and the retransmissions while a gap is open, under the stream of the requester. */
  ghost function Brings(s: Rx, b: Burst): seq<(nat, Octets)> {
    b.legs + if b.legError || b.recoveryError || s.gaps == iset{} then []
             else seq(|b.recovered|, i requires 0 <= i < |b.recovered| => (s.recoveryStream, b.recovered[i]))
  }

  /** A leg fails, or the requester does while a gap is open. */
  ghost predicate RoundFails(s: Rx, b: Burst) {
    b.legError || (b.recoveryError && s.gaps != iset{})
  }

  lemma RoundBrings(rx: Rx, b: Burst)
    ensures var (out, r) := PollSources(rx, b);
            && out == rx.(pending := rx.pending + Brings(rx, b))
            && r == if RoundFails(rx, b) then Err(Transport) else Ok(())
  {
    assert b.legs + [] == b.legs;
    Assoc(rx.pending, b.legs, Tagged(b.recovered, rx.recoveryStream));
  }

  /** The states a pump asks the sources in: round `i` gets burst `i`. */
  ghost function PumpRounds(rx: Rx, bursts: seq<Burst>, clock: nat -> nat, k: nat): (rounds: seq<Rx>)
    requires Sized(rx)
    ensures |rounds| <= |bursts|
    decreases |bursts|, |rx.pending|
  {
    if rx.ready != [] then []
    else if rx.pending != [] then
      TurnFrame(rx, clock(k));
      var (rx1, r) := Turn(rx, clock(k));
      if r.Err? then [] else PumpRounds(rx1, bursts, clock, k + 1)
    else if bursts == [] then []
    else
      var (rx1, r) := PollSources(rx, bursts[0]);
      [rx] + if r.Err? || rx1.pending == [] then [] else PumpRounds(rx1, bursts[1..], clock, k)
  }

  ghost function Brought(rounds: seq<Rx>, bursts: seq<Burst>): seq<(nat, Octets)>
    requires |rounds| <= |bursts|
  {
    if rounds == [] then [] else Brings(rounds[0], bursts[0]) + Brought(rounds[1..], bursts[1..])
  }

  function Bare(items: seq<(nat, Octets)>): (ds: seq<Octets>)
    ensures |ds| == |items|
  {
    seq(|items|, i requires 0 <= i < |items| => items[i].1)
  }

  /** Between the states `n` datagrams were decoded: the first of those waiting and those
      brought, in order; the others wait. */
  ghost predicate Moves(a: Rx, b: Rx, n: nat, brought: seq<(nat, Octets)>) {
    var all := a.pending + brought;
    n <= |all| && b.seen == a.seen + Bare(all[..n]) && b.pending == all[n..]
  }

  lemma MovesOn(a: Rx, b: Rx, c: Rx, n: nat, m: nat, x: seq<(nat, Octets)>, y: seq<(nat, Octets)>)
    requires Moves(a, b, n, x) && Moves(b, c, m, y)
    ensures Moves(a, c, n + m, x + y)
  {
    var (one, two, all) := (a.pending + x, b.pending + y, a.pending + (x + y));
    assert all == one + y;
    assert all[..n] == one[..n] && all[n..] == two;
    assert all[..n + m] == one[..n] + two[..m];
    assert all[n + m..] == two[m..];
    assert Bare(one[..n] + two[..m]) == Bare(one[..n]) + Bare(two[..m]);
    Assoc(a.seen, Bare(one[..n]), Bare(two[..m]));
  }

  lemma TurnMoves(rx: Rx, now: nat)
    requires Sized(rx) && rx.pending != []
    ensures Moves(rx, Turn(rx, now).0, 1, [])
  {
    TurnFrame(rx, now);
    hide Turn;
    var all := rx.pending + [];
    assert all == rx.pending && Bare(all[..1]) == [rx.pending[0].1];
  }

  lemma RoundMoves(rx: Rx, b: Burst)
    ensures Moves(rx, PollSources(rx, b).0, 0, Brings(rx, b))
  {
    RoundBrings(rx, b);
    hide PollSources;
    var all := rx.pending + Brings(rx, b);
    assert Bare(all[..0]) == [] && all[0..] == all && rx.seen + [] == rx.seen;
  }

  lemma MovesNothing(a: Rx, b: Rx)
    requires a.pending == b.pending && a.seen == b.seen
    ensures Moves(a, b, 0, [])
  {
    assert a.pending + [] == a.pending && Bare(a.pending[..0]) == [];
  }

  /** A pump decodes what waits and what its rounds bring, in order, once each. */
  lemma {:induction false} PumpMoves(rx: Rx, bursts: seq<Burst>, clock: nat -> nat, k: nat)
    requires Sized(rx)
    ensures Moves(rx, Pump(rx, bursts, clock, k).0, |PumpTurns(rx, bursts, clock, k)|,
                  Brought(PumpRounds(rx, bursts, clock, k), bursts))
    decreases |bursts|, |rx.pending|
  {
    hide Turn;
    hide PollSources;
    hide Moves;
    hide Brings;
    MovesNothing(rx, rx);
    if rx.ready == [] && rx.pending != [] {
      TurnFrame(rx, clock(k));
      TurnMoves(rx, clock(k));
      var (rx1, r) := Turn(rx, clock(k));
      if r.Ok? {
        PumpMoves(rx1, bursts, clock, k + 1);
        var brought := Brought(PumpRounds(rx1, bursts, clock, k + 1), bursts);
        MovesOn(rx, rx1, Pump(rx1, bursts, clock, k + 1).0, 1, |PumpTurns(rx1, bursts, clock, k + 1)|, [], brought);
        assert [] + brought == brought;
      }
    } else if rx.ready == [] && bursts != [] {
      var (rx1, r) := PollSources(rx, bursts[0]);
      RoundMoves(rx, bursts[0]);
      RoundBrings(rx, bursts[0]);
      var brings := Brings(rx, bursts[0]);
      assert brings + [] == brings;
      assert [rx][1..] == [];
      if r.Ok? && rx1.pending != [] {
        PumpMoves(rx1, bursts[1..], clock, k);
        var rest := PumpRounds(rx1, bursts[1..], clock, k);
        MovesOn(rx, rx1, Pump(rx1, bursts[1..], clock, k).0, 0, |PumpTurns(rx1, bursts[1..], clock, k)|, brings,
                Brought(rest, bursts[1..]));
        assert ([rx] + rest)[1..] == rest;
      }
    }
  }

  lemma {:induction false} AnnouncedConcat(a: seq<Rx>, b: seq<Rx>)
    requires forall s :: s in a + b ==> s.pending != []
    ensures forall s :: s in a || s in b ==> s in a + b
    ensures AllAnnounced(a + b) == AllAnnounced(a) + AllAnnounced(b)
  {
    hide Announced;
    if a == [] {
      assert a + b == b;
    } else {
      assert (a + b)[1..] == a[1..] + b;
      AnnouncedConcat(a[1..], b);
      Assoc(Announced(a[0]), AllAnnounced(a[1..]), AllAnnounced(b));
    }
  }

  /** A pump queues what its datagrams announce. */
  lemma {:induction false} PumpAnnounces(rx: Rx, bursts: seq<Burst>, clock: nat -> nat, k: nat)
    requires Sized(rx)
    ensures EventsIn(Pump(rx, bursts, clock, k).0.ready) ==
            EventsIn(rx.ready) + AllAnnounced(PumpTurns(rx, bursts, clock, k))
    decreases |bursts|, |rx.pending|
  {
    hide Turn;
    hide PollSources;
    hide Announced;
    hide EventsIn;
    assert EventsIn(rx.ready) + [] == EventsIn(rx.ready);
    if rx.ready == [] && rx.pending != [] {
      TurnFrame(rx, clock(k));
      TurnAnnounces(rx, clock(k));
      var (rx1, r) := Turn(rx, clock(k));
      assert Announced(rx) + [] == Announced(rx);
      if r.Ok? {
        PumpAnnounces(rx1, bursts, clock, k + 1);
        var rest := PumpTurns(rx1, bursts, clock, k + 1);
        assert ([rx] + rest)[1..] == rest;
        Assoc(EventsIn(rx.ready), Announced(rx), AllAnnounced(rest));
      }
    } else if rx.ready == [] && bursts != [] {
      var (rx1, r) := PollSources(rx, bursts[0]);
      RoundBrings(rx, bursts[0]);
      if r.Ok? && rx1.pending != [] {
        PumpAnnounces(rx1, bursts[1..], clock, k);
      }
    }
  }

  // ------------------------------------------------------------------- reports

  ghost predicate NoTurnFails(turns: seq<Rx>)
    requires forall s :: s in turns ==> Sized(s) && s.pending != []
  {
    forall i :: 0 <= i < |turns| ==> turns[i] in turns && TurnError(turns[i]).None?
  }

  ghost predicate NoRoundFails(rounds: seq<Rx>, bursts: seq<Burst>)
    requires |rounds| <= |bursts|
  {
    forall i :: 0 <= i < |rounds| ==> !RoundFails(rounds[i], bursts[i])
  }

  /** Every round but the last brought something. */
  ghost predicate KeptAsking(rounds: seq<Rx>, bursts: seq<Burst>)
    requires |rounds| <= |bursts|
  {
    forall i :: 0 <= i < |rounds| - 1 ==> Brings(rounds[i], bursts[i]) != []
  }

  /** The sources were asked until a round brought nothing, or to the end of the script. */
  ghost predicate AskedToTheEnd(rounds: seq<Rx>, bursts: seq<Burst>)
    requires |rounds| <= |bursts|
  {
    |rounds| == |bursts| || (rounds != [] && Brings(rounds[|rounds| - 1], bursts[|rounds| - 1]) == [])
  }

  /** A pump stops at the first failure, which it reports; without one it leaves an item
      ready, or nothing waiting and every source asked until it brought nothing. */
  ghost predicate Reports(turns: seq<Rx>, rounds: seq<Rx>, bursts: seq<Burst>, r: Result<(), MoldError>, out: Rx)
    requires |rounds| <= |bursts| && forall s :: s in turns ==> Sized(s) && s.pending != []
  {
    && KeptAsking(rounds, bursts)
    && match r
       case Ok(_) =>
         && NoTurnFails(turns) && NoRoundFails(rounds, bursts)
         && (out.ready == [] ==> out.pending == [] && AskedToTheEnd(rounds, bursts))
       case Err(e) =>
         || (turns != [] && TurnError(turns[|turns| - 1]) == Some(e) && NoTurnFails(turns[..|turns| - 1])
             && NoRoundFails(rounds, bursts))
         || (rounds != [] && e == Transport && RoundFails(rounds[|rounds| - 1], bursts[|rounds| - 1])
             && NoTurnFails(turns) && NoRoundFails(rounds[..|rounds| - 1], bursts))
  }

  lemma ReportsTurn(s: Rx, turns: seq<Rx>, rounds: seq<Rx>, bursts: seq<Burst>, r: Result<(), MoldError>, out: Rx)
    requires Sized(s) && s.pending != [] && TurnError(s).None?
    requires |rounds| <= |bursts| && (forall t :: t in turns ==> Sized(t) && t.pending != [])
    requires Reports(turns, rounds, bursts, r, out)
    ensures forall t :: t in [s] + turns ==> Sized(t) && t.pending != []
    ensures Reports([s] + turns, rounds, bursts, r, out)
  {
    hide TurnError;
    var all := [s] + turns;
    assert forall i :: 0 <= i < |turns| ==> all[i + 1] == turns[i];
    if turns != [] {
      assert all[..|all| - 1] == [s] + turns[..|turns| - 1];
      assert forall i :: 1 <= i < |all| ==> all[i] == turns[i - 1];
    }
  }

  lemma ReportsRound(s: Rx, b: Burst, turns: seq<Rx>, rounds: seq<Rx>, bursts: seq<Burst>,
                     r: Result<(), MoldError>, out: Rx)
    requires !RoundFails(s, b) && Brings(s, b) != []
    requires |rounds| <= |bursts| && (forall t :: t in turns ==> Sized(t) && t.pending != [])
    requires Reports(turns, rounds, bursts, r, out)
    ensures Reports(turns, [s] + rounds, [b] + bursts, r, out)
  {
    hide TurnError;
    hide RoundFails;
    hide Brings;
    var (all, given) := ([s] + rounds, [b] + bursts);
    assert forall i :: 1 <= i < |all| ==> all[i] == rounds[i - 1] && given[i] == bursts[i - 1];
    if rounds != [] {
      assert all[..|all| - 1] == [s] + rounds[..|rounds| - 1];
    }
  }

  lemma {:induction false} PumpReports(rx: Rx, bursts: seq<Burst>, clock: nat -> nat, k: nat)
    requires Orderly(rx)
    ensures Sized(rx)
    ensures var (out, r) := Pump(rx, bursts, clock, k);
            Reports(PumpTurns(rx, bursts, clock, k), PumpRounds(rx, bursts, clock, k), bursts, r, out)
    decreases |bursts|, |rx.pending|
  {
    OrderlyIsSized(rx);
    hide Turn;
    hide PollSources;
    hide TurnError;
    hide RoundFails;
    hide Brings;
    if rx.ready == [] && rx.pending != [] {
      TurnFrame(rx, clock(k));
      TurnRefusedIff(rx, clock(k));
      TurnFailsIff(rx, clock(k));
      hide Orderly;
      var (rx1, r) := Turn(rx, clock(k));
      if r.Ok? {
        PumpReports(rx1, bursts, clock, k + 1);
        hide Reports;
        var (out, r1) := Pump(rx1, bursts, clock, k + 1);
        ReportsTurn(rx, PumpTurns(rx1, bursts, clock, k + 1), PumpRounds(rx1, bursts, clock, k + 1), bursts, r1, out);
      } else {
        assert [rx][..0] == [];
      }
    } else if rx.ready == [] && bursts != [] {
      var (rx1, r) := PollSources(rx, bursts[0]);
      RoundBrings(rx, bursts[0]);
      if r.Ok? && rx1.pending != [] {
        assert Orderly(rx1);
        hide Orderly;
        PumpReports(rx1, bursts[1..], clock, k);
        hide Reports;
        var (out, r1) := Pump(rx1, bursts[1..], clock, k);
        ReportsRound(rx, bursts[0], PumpTurns(rx1, bursts[1..], clock, k), PumpRounds(rx1, bursts[1..], clock, k),
                     bursts[1..], r1, out);
        assert [bursts[0]] + bursts[1..] == bursts;
      } else {
        assert [rx][..0] == [];
      }
    }
  }

  // --------------------------------------------------------------------- polls

  ghost function PollRounds(rx: Rx, c: Call): (rounds: seq<Rx>)
    requires Sized(rx)
    ensures |rounds| <= |c.bursts|
  {
    PumpRounds(Retire(rx), c.bursts, c.clock, 0)
  }

  /** The event among one outcome. */
  function EventIn(o: Outcome): seq<MoldEvent> {
    if o.Event? then [o.event] else []
  }

  /** A poll hands out the front of what its pump left ready. */
  lemma PollIsPump(rx: Rx, c: Call)
    requires Sized(rx)
    ensures var (rx1, r) := Pump(Retire(rx), c.bursts, c.clock, 0);
            var (out, o) := Poll(rx, c);
            && out.pending == rx1.pending && out.seen == rx1.seen && out.recoveryStream == rx1.recoveryStream
            && (if r.Err? then o == Failed(r.error) && out == rx1
                else if rx1.ready == [] then o == Idle && out == rx1
                else
                  && !o.Failed? && o != Idle && out.ready == rx1.ready[1..]
                  && EventIn(o) == if rx1.ready[0].EventItem? then [rx1.ready[0].event] else [])
    ensures Retire(rx).pending == rx.pending && Retire(rx).seen == rx.seen && Retire(rx).ready == rx.ready
    ensures Retire(rx).recoveryStream == rx.recoveryStream && Sized(Retire(rx))
  {
    hide Pump;
  }

  /** A poll reports the first failure, in a datagram or at a source; it is idle exactly
      without one, with nothing waiting and every source asked until it brought nothing. */
  lemma PollReports(rx: Rx, c: Call)
    requires Orderly(rx)
    ensures Sized(rx)
    ensures var (out, o) := Poll(rx, c);
            var (turns, rounds) := (PollTurns(rx, c), PollRounds(rx, c));
            && (o.Failed? ==> Reports(turns, rounds, c.bursts, Err(o.error), out))
            && (!o.Failed? ==> NoTurnFails(turns) && NoRoundFails(rounds, c.bursts) && KeptAsking(rounds, c.bursts))
            && (o == Idle ==> out.ready == [] && out.pending == [] && AskedToTheEnd(rounds, c.bursts))
  {
    hide Pump;
    hide Poll;
    hide PumpTurns;
    hide PumpRounds;
    hide NoTurnFails;
    hide NoRoundFails;
    hide KeptAsking;
    hide AskedToTheEnd;
    hide TurnError;
    hide Ahead;
    OrderlyIsSized(rx);
    PollIsPump(rx, c);
    RetireOrderly(rx);
    hide Orderly;
    hide Retire;
    PumpReports(Retire(rx), c.bursts, c.clock, 0);
    var (rx1, r) := Pump(Retire(rx), c.bursts, c.clock, 0);
    assert Reports(PollTurns(rx, c), PollRounds(rx, c), c.bursts, r, rx1);
    assert r.Ok? <==> !Poll(rx, c).1.Failed?;
  }

  lemma RetireOrderly(rx: Rx)
    requires Orderly(rx)
    ensures Orderly(Retire(rx))
  {
  }

  lemma PollMoves(rx: Rx, c: Call)
    requires Sized(rx)
    ensures var out := Poll(rx, c).0;
            && Moves(rx, out, |PollTurns(rx, c)|, Brought(PollRounds(rx, c), c.bursts))
            && out.recoveryStream == rx.recoveryStream
  {
    hide Moves;
    hide Brought;
    hide Pump;
    hide Poll;
    hide PumpTurns;
    hide PumpRounds;
    hide Retire;
    PollIsPump(rx, c);
    var rx0 := Retire(rx);
    PumpMoves(rx0, c.bursts, c.clock, 0);
    PumpKeepsStream(rx0, c.bursts, c.clock, 0);
    var rx1 := Pump(rx0, c.bursts, c.clock, 0).0;
    MovesSame(rx, rx0, rx1, Poll(rx, c).0, |PollTurns(rx, c)|, Brought(PollRounds(rx, c), c.bursts));
  }

  lemma MovesSame(a: Rx, b: Rx, c: Rx, d: Rx, n: nat, brought: seq<(nat, Octets)>)
    requires a.pending == b.pending && a.seen == b.seen && c.pending == d.pending && c.seen == d.seen
    requires Moves(b, c, n, brought)
    ensures Moves(a, d, n, brought)
  {
  }

  lemma {:induction false} PumpKeepsStream(rx: Rx, bursts: seq<Burst>, clock: nat -> nat, k: nat)
    requires Sized(rx)
    ensures Pump(rx, bursts, clock, k).0.recoveryStream == rx.recoveryStream
    decreases |bursts|, |rx.pending|
  {
    hide Turn;
    hide PollSources;
    if rx.ready == [] && rx.pending != [] {
      TurnFrame(rx, clock(k));
      var (rx1, r) := Turn(rx, clock(k));
      if r.Ok? {
        PumpKeepsStream(rx1, bursts, clock, k + 1);
      }
    } else if rx.ready == [] && bursts != [] {
      RoundBrings(rx, bursts[0]);
      var (rx1, r) := PollSources(rx, bursts[0]);
      if r.Ok? && rx1.pending != [] {
        PumpKeepsStream(rx1, bursts[1..], clock, k);
      }
    }
  }

  lemma PollAnnounces(rx: Rx, c: Call)
    requires Sized(rx)
    ensures var (out, o) := Poll(rx, c);
            EventIn(o) + EventsIn(out.ready) == EventsIn(rx.ready) + AllAnnounced(PollTurns(rx, c))
  {
    hide Pump;
    hide Poll;
    hide PumpTurns;
    hide AllAnnounced;
    hide Retire;
    PollIsPump(rx, c);
    PumpAnnounces(Retire(rx), c.bursts, c.clock, 0);
    var rx1 := Pump(Retire(rx), c.bursts, c.clock, 0).0;
    assert [] + EventsIn(rx1.ready) == EventsIn(rx1.ready);
  }

  // --------------------------------------------------------------- whole runs

  /** All that the sources handed over in the rounds of a run, in order. */
  ghost function HandedOver(rx0: Rx, calls: seq<Call>): seq<(nat, Octets)>
    requires Sized(rx0)
  {
    if calls == [] then []
    else
      var (init, c) := (calls[..|calls| - 1], calls[|calls| - 1]);
      HandedOver(rx0, init) + Brought(PollRounds(AfterPolls(rx0, init).0, c), c.bursts)
  }

  lemma {:induction false} RunMoves(rx0: Rx, calls: seq<Call>)
    requires Sized(rx0)
    ensures var rx := AfterPolls(rx0, calls).0;
            && Moves(rx0, rx, |RunTurns(rx0, calls)|, HandedOver(rx0, calls))
            && rx.recoveryStream == rx0.recoveryStream
    decreases |calls|
  {
    hide Poll;
    hide PollTurns;
    hide PollRounds;
    hide Moves;
    hide Brought;
    if calls == [] {
      MovesNothing(rx0, rx0);
    } else {
      var (init, c) := (calls[..|calls| - 1], calls[|calls| - 1]);
      RunMoves(rx0, init);
      var before := AfterPolls(rx0, init).0;
      PollMoves(before, c);
      MovesOn(rx0, before, Poll(before, c).0, |RunTurns(rx0, init)|, |PollTurns(before, c)|, HandedOver(rx0, init),
              Brought(PollRounds(before, c), c.bursts));
    }
  }

  lemma EventsOfSnoc(outs: seq<Outcome>, o: Outcome)
    ensures EventsOf(outs + [o]) == EventsOf(outs) + EventIn(o)
  {
    assert (outs + [o])[..|outs|] == outs;
  }

  lemma {:induction false} RunAnnounces(rx0: Rx, calls: seq<Call>)
    requires Sized(rx0)
    ensures var (rx, outs) := AfterPolls(rx0, calls);
            EventsOf(outs) + EventsIn(rx.ready) == EventsIn(rx0.ready) + AllAnnounced(RunTurns(rx0, calls))
    decreases |calls|
  {
    hide Poll;
    hide PollTurns;
    hide EventsIn;
    hide EventIn;
    if calls == [] {
      assert [] + EventsIn(rx0.ready) == EventsIn(rx0.ready) + [];
    } else {
      var (init, c) := (calls[..|calls| - 1], calls[|calls| - 1]);
      RunAnnounces(rx0, init);
      var (before, outs) := AfterPolls(rx0, init);
      PollAnnounces(before, c);
      var (after, o) := Poll(before, c);
      var (earlier, turns) := (RunTurns(rx0, init), PollTurns(before, c));
      AnnouncedConcat(earlier, turns);
      EventsOfSnoc(outs, o);
      hide EventsOf;
      hide AllAnnounced;
      Assoc(EventsOf(outs), EventIn(o), EventsIn(after.ready));
      Assoc(EventsOf(outs), EventsIn(before.ready), AllAnnounced(turns));
      Assoc(EventsIn(rx0.ready), AllAnnounced(earlier), AllAnnounced(turns));
    }
  }

  ghost function CountJumps(turns: seq<Rx>): nat
    requires forall s :: s in turns ==> s.pending != []
  {
    if turns == [] then 0 else (if JumpsAhead(turns[0]) then 1 else 0) + CountJumps(turns[1..])
  }

  lemma {:induction false} JumpsConcat(a: seq<Rx>, b: seq<Rx>)
    requires forall s :: s in a + b ==> s.pending != []
    ensures forall s :: s in a || s in b ==> s in a + b
    ensures CountJumps(a + b) == CountJumps(a) + CountJumps(b)
  {
    hide JumpsAhead;
    if a == [] {
      assert a + b == b;
    } else {
      assert (a + b)[1..] == a[1..] + b;
      JumpsConcat(a[1..], b);
    }
  }

  lemma {:induction false} PumpReportsGaps(rx: Rx, bursts: seq<Burst>, clock: nat -> nat, k: nat)
    requires Sized(rx) && rx.arbiter.None?
    ensures var out := Pump(rx, bursts, clock, k).0;
            && GapsIn(out.ready) == GapsIn(rx.ready) + CountJumps(PumpTurns(rx, bursts, clock, k))
            && out.arbiter.None?
    decreases |bursts|, |rx.pending|
  {
    hide Turn;
    hide PollSources;
    hide JumpsAhead;
    hide GapsIn;
    if rx.ready == [] && rx.pending != [] {
      TurnFrame(rx, clock(k));
      TurnReportsGaps(rx, clock(k));
      var (rx1, r) := Turn(rx, clock(k));
      assert rx1.arbiter.None?;
      if r.Ok? {
        PumpReportsGaps(rx1, bursts, clock, k + 1);
        var rest := PumpTurns(rx1, bursts, clock, k + 1);
        assert ([rx] + rest)[1..] == rest;
      }
    } else if rx.ready == [] && bursts != [] {
      var (rx1, r) := PollSources(rx, bursts[0]);
      RoundBrings(rx, bursts[0]);
      if r.Ok? && rx1.pending != [] {
        PumpReportsGaps(rx1, bursts[1..], clock, k);
      }
    }
  }

  lemma PollReportsGaps(rx: Rx, c: Call)
    requires Sized(rx) && rx.arbiter.None?
    ensures var (out, o) := Poll(rx, c);
            && (if o == GapDetected then 1 else 0) + GapsIn(out.ready) ==
               GapsIn(rx.ready) + CountJumps(PollTurns(rx, c))
            && out.arbiter.None?
  {
    hide Pump;
    hide PumpTurns;
    hide CountJumps;
    PumpReportsGaps(Retire(rx), c.bursts, c.clock, 0);
  }

  /** On every run of one leg the gaps reported, and those whose report waits, are as many as
      the datagrams that jumped past the highest sequence seen. */
  lemma {:induction false} EveryJumpIsReported(rx0: Rx, calls: seq<Call>)
    requires Sized(rx0) && rx0.arbiter.None?
    ensures var (rx, outs) := AfterPolls(rx0, calls);
            && GapsOf(outs) + GapsIn(rx.ready) == GapsIn(rx0.ready) + CountJumps(RunTurns(rx0, calls))
            && rx.arbiter.None?
    decreases |calls|
  {
    hide Poll;
    hide PollTurns;
    hide GapsIn;
    if calls != [] {
      var (init, c) := (calls[..|calls| - 1], calls[|calls| - 1]);
      EveryJumpIsReported(rx0, init);
      var (before, outs) := AfterPolls(rx0, init);
      PollReportsGaps(before, c);
      JumpsConcat(RunTurns(rx0, init), PollTurns(before, c));
      hide CountJumps;
      assert (outs + [Poll(before, c).1])[..|outs|] == outs;
    }
  }

  /** The turns of a run are the datagrams it has seen. */
  lemma {:induction false} TurnsAreSeen(rx: Rx, bursts: seq<Burst>, clock: nat -> nat, k: nat)
    requires Sized(rx)
    ensures Pump(rx, bursts, clock, k).0.seen == rx.seen + Heads(PumpTurns(rx, bursts, clock, k))
    decreases |bursts|, |rx.pending|
  {
    hide Turn;
    hide PollSources;
    assert rx.seen + [] == rx.seen;
    if rx.ready == [] && rx.pending != [] {
      TurnFrame(rx, clock(k));
      var (rx1, r) := Turn(rx, clock(k));
      HeadsCons(rx, []);
      assert [rx] + [] == [rx] && [rx.pending[0].1] + [] == [rx.pending[0].1];
      if r.Ok? {
        TurnsAreSeen(rx1, bursts, clock, k + 1);
        var rest := PumpTurns(rx1, bursts, clock, k + 1);
        HeadsCons(rx, rest);
        hide Heads;
        Assoc(rx.seen, [rx.pending[0].1], Heads(rest));
      }
    } else if rx.ready == [] && bursts != [] {
      RoundBrings(rx, bursts[0]);
      var (rx1, r) := PollSources(rx, bursts[0]);
      if r.Ok? && rx1.pending != [] {
        TurnsAreSeen(rx1, bursts[1..], clock, k);
      }
    }
  }

  ghost function Heads(turns: seq<Rx>): (ds: seq<Octets>)
    requires forall s :: s in turns ==> s.pending != []
    ensures |ds| == |turns|
  {
    seq(|turns|, i requires 0 <= i < |turns| => assert turns[i] in turns; turns[i].pending[0].1)
  }

  lemma HeadsCons(s: Rx, rest: seq<Rx>)
    requires s.pending != [] && forall t :: t in rest ==> t.pending != []
    ensures forall t :: t in [s] + rest ==> t.pending != []
    ensures Heads([s] + rest) == [s.pending[0].1] + Heads(rest)
  {
  }

  lemma {:induction false} RunIsSeen(rx0: Rx, calls: seq<Call>)
    requires Sized(rx0)
    ensures AfterPolls(rx0, calls).0.seen == rx0.seen + Heads(RunTurns(rx0, calls))
    decreases |calls|
  {
    hide Pump;
    hide Poll;
    hide PumpTurns;
    hide Retire;
    if calls == [] {
      assert rx0.seen + [] == rx0.seen;
    } else {
      var (init, c) := (calls[..|calls| - 1], calls[|calls| - 1]);
      RunIsSeen(rx0, init);
      var before := AfterPolls(rx0, init).0;
      PollIsPump(before, c);
      TurnsAreSeen(Retire(before), c.bursts, c.clock, 0);
      var (earlier, turns) := (RunTurns(rx0, init), PollTurns(before, c));
      assert Heads(earlier + turns) == Heads(earlier) + Heads(turns);
      Assoc(rx0.seen, Heads(earlier), Heads(turns));
    }
  }

  lemma EmptyFront<T>(s: seq<T>)
    ensures [] + s == s
  {
  }

  /** From nothing waiting: what was decoded, then what waits, is what was brought. */
  lemma MovedAll(a: Rx, b: Rx, n: nat, brought: seq<(nat, Octets)>)
    requires a.pending == [] && a.seen == [] && Moves(a, b, n, brought)
    ensures b.seen + Bare(b.pending) == Bare(brought)
    ensures |b.seen| <= |brought| && b.pending == brought[|b.seen|..]
  {
    EmptyFront(brought);
    EmptyFront(Bare(brought[..n]));
    BareSplit(brought, n);
  }

  lemma BareSplit(items: seq<(nat, Octets)>, n: nat)
    requires n <= |items|
    ensures Bare(items[..n]) + Bare(items[n..]) == Bare(items)
  {
  }

  /** For every run: the datagrams the sources handed over, legs in order and retransmissions
      of the rounds with a gap open, are those decoded, in order and once each, and then those
      still waiting; and the events the caller was told, then those still queued, are those
      the decoded datagrams announce, in order. */
  lemma NothingIsLost(legs: nat, start: Option<nat>, grace: nat, capacity: nat, calls: seq<Call>)
    requires legs > 0 && capacity > 0
    ensures var rx0 := Initial(legs, start, grace, capacity);
            var (rx, outs) := AfterPolls(rx0, calls);
            && rx.seen + Bare(rx.pending) == Bare(HandedOver(rx0, calls))
            && rx.pending == HandedOver(rx0, calls)[|rx.seen|..] && rx.recoveryStream == legs
            && rx.seen == Heads(RunTurns(rx0, calls))
            && EventsOf(outs) + EventsIn(rx.ready) == AllAnnounced(RunTurns(rx0, calls))
  {
    hide AfterPolls;
    hide RunTurns;
    hide AllAnnounced;
    hide EventsOf;
    hide HandedOver;
    hide Moves;
    hide Heads;
    hide Bare;
    var rx0 := Initial(legs, start, grace, capacity);
    RunMoves(rx0, calls);
    RunIsSeen(rx0, calls);
    RunAnnounces(rx0, calls);
    MovedAll(rx0, AfterPolls(rx0, calls).0, |RunTurns(rx0, calls)|, HandedOver(rx0, calls));
    EmptyFront(Heads(RunTurns(rx0, calls)));
    EmptyFront(AllAnnounced(RunTurns(rx0, calls)));
    assert EventsIn(rx0.ready) == [];
  }
}
