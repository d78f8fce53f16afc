/** Several legs and a refused message: an inline item can be left in the queue
    without its datagram, and the next poll slices outside the backing. */
module MoldStranded {
  import Slots
  import opened Octets
  import opened MoldWire
  import opened GapTracking
  import opened Reassembly
  import opened Arbiter
  import opened MoldReceiver
  import opened MoldBounds
  import opened MoldOrder

  // ------------------------------------------------------------------ datagrams

  ghost predicate Beats(d: Octets, session: Octets, next: nat) {
    ParseHeader(d) == Ok(DownstreamHeader(session, next, 0))
  }

  ghost predicate Carries(d: Octets, session: Octets, first: nat, blocks: seq<Block>) {
    && 0 < |blocks| < 0xFFFF
    && ParseHeader(d) == Ok(DownstreamHeader(session, first, |blocks|))
    && ParseBlocks(d, HEADER_LEN, |blocks|) == Ok(blocks)
    && (forall i :: 0 <= i < |blocks| ==> InBounds(d, blocks[i]) && blocks[i].len == 0)
  }

  /** A source whose messages are all empty. */
  function Blank(session: Octets, q: nat): Octets {
    []
  }

  function Blanks(count: nat): (payloads: seq<Octets>)
    ensures |payloads| == count && forall i :: 0 <= i < count ==> payloads[i] == []
  {
    if count == 0 then [] else [[]] + Blanks(count - 1)
  }

  lemma MakeHeartbeat(session: Octets, next: nat) returns (d: Octets)
    requires |session| == 10 && next < Pow256(8)
    ensures Beats(d, session, next) && Agrees(d, Blank)
    ensures forall room: nat :: next + room < U64_MAX ==> DatagramFits(d, room)
  {
    var h := DownstreamHeader(session, next, 0);
    HeaderRoundTrip(h, []);
    d := EncodeHeader(h) + [];
  }

  lemma MakeData(session: Octets, first: nat, count: nat) returns (d: Octets, blocks: seq<Block>)
    requires |session| == 10 && first < Pow256(8) && 0 < count <= 4
    ensures |blocks| == count && Carries(d, session, first, blocks) && Agrees(d, Blank)
    ensures forall room: nat :: first + count + room < U64_MAX ==> DatagramFits(d, room)
  {
    hide BigEndian;
    hide ToBigEndian;
    hide ParseBlocks;
    hide EncodeBlocks;
    hide Blanks;
    var payloads := Blanks(count);
    var h := DownstreamHeader(session, first, count);
    var body := EncodeBlocks(payloads);
    BlankBlocks(count);
    BlocksRoundTrip(EncodeHeader(h), payloads, []);
    d := EncodeHeader(h) + body + [];
    assert d == EncodeHeader(h) + body;
    HeaderRoundTrip(h, body);
    hide ParseHeader;
    assert |EncodeHeader(h)| == HEADER_LEN;
    var r := ParseBlocks(d, HEADER_LEN, count);
    blocks := r.value;
    BlocksInBounds(d, HEADER_LEN, count);
    forall i | 0 <= i < |blocks| ensures blocks[i].len == 0 {
      assert Payloads(d, blocks)[i] == payloads[i];
      assert |Payload(d, blocks[i])| == 0;
    }
  }

  lemma {:induction false} BlankBlocks(count: nat)
    ensures |EncodeBlocks(Blanks(count))| == 2 * count
  {
    if count > 0 {
      BlankBlocks(count - 1);
      assert Blanks(count)[1..] == Blanks(count - 1);
    }
  }

  // ---------------------------------------------------------------- single polls

  /** Nothing is queued, outstanding inline or waiting to be decoded. */
  ghost predicate Calm(rx: Rx) {
    && Sized(rx) && rx.ready == [] && rx.pending == [] && rx.anchored
    && (rx.current.Some? ==> !rx.current.value.Inline?)
  }

  ghost function One(d: Octets, now: nat): Call {
    Call([Burst([(0, d)], false, [], false)], _ => now, false)
  }

  /** A poll of a calm receiver that finds one datagram is a turn on it. */
  lemma PollIsTurn(rx: Rx, d: Octets, now: nat)
    requires Calm(rx)
    ensures var (out, r) := Turn(rx.(pending := [(0, d)], current := None), now);
            Poll(rx, One(d, now)) ==
              if r.Err? then (out, Failed(r.error))
              else if out.ready == [] then (out, Idle)
              else YieldItem(out.(ready := out.ready[1..]), out.ready[0])
  {
    var c := One(d, now);
    var rx1 := rx.(current := None);
    var rx2 := rx1.(pending := [(0, d)]);
    assert rx1.pending + c.bursts[0].legs == [(0, d)];
    assert rx2.pending + Tagged([], rx.recoveryStream) == rx2.pending;
    assert PollSources(rx1, c.bursts[0]) == (rx2, Ok(()));
    assert c.bursts[1..] == [];
    hide PollSources;
    TurnFrame(rx2, now);
    var (out, r) := Turn(rx2, now);
    hide Turn;
    assert Pump(rx1, c.bursts, c.clock, 0) == Pump(rx2, [], c.clock, 0);
    assert r.Ok? ==> Pump(out, [], c.clock, 1) == (out, Ok(()));
  }

  /** A poll that finds nothing hands out the next queued item. */
  lemma PollDrains(rx: Rx)
    requires Sized(rx) && rx.ready != [] && (rx.current.Some? ==> !rx.current.value.Inline?)
    ensures Poll(rx, Call([], _ => 0, false)) == YieldItem(rx.(ready := rx.ready[1..]), rx.ready[0])
  {
  }

  // ------------------------------------------------------------------ the run

  /** The receiver as the run below knows it. */
  ghost predicate Knows(rx: Rx, capacity: nat, grace: nat, session: Octets, nextUnseen: nat) {
    && Calm(rx) && rx.ring.capacity == capacity && rx.ring.expected == 1 && rx.nextUnseen == nextUnseen
    && (rx.session == None || rx.session == Some(session))
    && rx.arbiter.Some? && rx.arbiter.value.capacity == capacity && rx.arbiter.value.grace == grace
    && rx.backing == EMPTY_BACKING && rx.inlinePending == 0
  }

  /** A heartbeat ahead of what was seen: a gap and an event, and nothing staged. */
  lemma HeartbeatRuns(rx: Rx, d: Octets, next: nat, capacity: nat, grace: nat, session: Octets) returns (out: Rx)
    requires Knows(rx, capacity, grace, session, rx.nextUnseen) && Beats(d, session, next) && next > rx.nextUnseen
    requires Due(rx.arbiter.value, 0) == {}
    ensures Knows(out, capacity, grace, session, next) && out.session == Some(session)
    ensures out.arbiter == rx.arbiter && out.ring == rx.ring
    ensures var (mid, o1) := Poll(rx, One(d, 0));
            Sized(mid) && o1 == GapDetected && Poll(mid, Call([], _ => 0, false)) == (out, Event(HeartbeatSeen(next)))
  {
    PollIsTurn(rx, d, 0);
    var rx2 := rx.(pending := [(0, d)], current := None);
    var (turned, r) := Turn(rx2, 0);
    assert turned.ready == [GapItem, EventItem(HeartbeatSeen(next))] && r == Ok(()) by {
      assert Repeat(GapItem, 0) == [];
    }
    assert rx.arbiter.value.pending - {} == rx.arbiter.value.pending;
    var (mid, o1) := Poll(rx, One(d, 0));
    assert mid == turned.(ready := [EventItem(HeartbeatSeen(next))], current := Some(GapItem));
    PollDrains(mid);
    out := Poll(mid, Call([], _ => 0, false)).0;
  }

  /** The receiver about to decode `d`. */
  ghost function Facing(rx: Rx, d: Octets, session: Octets): Rx {
    rx.(pending := [], current := None, session := Some(session), seen := rx.seen + [d])
  }

  lemma DataTurn(rx: Rx, d: Octets, first: nat, blocks: seq<Block>, session: Octets, now: nat)
    requires Calm(rx) && (rx.session == None || rx.session == Some(session)) && Carries(d, session, first, blocks)
    ensures Sized(Facing(rx, d, session))
    ensures var h := DownstreamHeader(session, first, |blocks|);
            var (out, r) := ProcessData(Facing(rx, d, session), 0, d, h, blocks, now);
            Turn(rx.(pending := [(0, d)], current := None), now) == (if r.Ok? then DrainConfirmed(out, now) else out, r)
  {
    hide ProcessData;
    hide DrainConfirmed;
    var rx2 := rx.(pending := [(0, d)], current := None);
    assert rx2.pending[1..] == [];
    assert AcceptHeader(Popped(rx2), ParseHeader(d).value) == Ok(Facing(rx, d, session));
  }

  /** One message ahead of order on a free slot: staged up to it, forwarded and held. */
  lemma HeldTurn(rx: Rx, d: Octets, q: nat, b: Block, session: Octets, now: nat)
    requires Sized(rx) && rx.ready == [] && rx.arbiter.Some? && rx.ring.expected < q && q >= rx.nextUnseen
    requires q >= rx.arbiter.value.base && q !in rx.arbiter.value.forwarded
    requires q !in rx.ring.held && !Blocked(rx.ring, q) && q + 1 <= U64_MAX
    ensures var (out, r) := ProcessData(rx, 0, d, DownstreamHeader(session, q, 1), [b], now);
            && r == Ok(()) && out.ready == [] && out.nextUnseen == q + 1
            && out.ring == rx.ring.(held := rx.ring.held[q := MessageView(d, b.offset, b.len)])
            && SameSettings(rx, out) && out.backing == rx.backing && out.inlinePending == rx.inlinePending
            && var a := rx.arbiter.value;
            out.arbiter == Some(Observe(if q > rx.nextUnseen then Stage(a, rx.nextUnseen, q, now) else a, q, now).0)
  {
    var h := DownstreamHeader(session, q, 1);
    var w := Work(OpenGap(rx, h, now), Owned(d), 0);
    var a := w.rx.arbiter.value;
    assert a.base == rx.arbiter.value.base && a.forwarded == rx.arbiter.value.forwarded;
    assert a.capacity == rx.arbiter.value.capacity;
    assert Observe(a, q, now).1 == Forward;
    var (w1, full) := BlockStep(w, 0, q, b, now);
    assert !full && w1.inline == 0;
    assert Blocks(w1, 0, q, [b], 1, now) == (w1, false);
    assert Blocks(w, 0, q, [b], 0, now) == (w1, false);
  }

  /** Arbiter when message 3 arrived first: 2 waits, 3 was forwarded, 1 and 4 are unknown. */
  ghost function ArbThree(capacity: nat, grace: nat): Arb {
    Arb(capacity, 1, iset{3}, map[2 := 0], grace, [3])
  }

  lemma ThreeArrives(capacity: nat, grace: nat)
    requires capacity >= 5 && grace > 0
    ensures var a := Arb(capacity, 1, iset{}, map[], grace, []);
            Observe(Stage(a, 2, 3, 0), 3, 0).0 == ArbThree(capacity, grace)
    ensures Due(ArbThree(capacity, grace), 0) == {}
  {
    var a := Arb(capacity, 1, iset{}, map[], grace, []);
    assert Stage(a, 2, 3, 0).pending == map[2 := 0];
    assert map[2 := 0] - {3} == map[2 := 0];
    assert iset{} + iset{3} == iset{3};
  }

  lemma FarStaged(capacity: nat, grace: nat)
    requires capacity >= 5
    ensures var a := Stage(ArbThree(capacity, grace), 5, capacity + 4, grace);
            && a == ArbThree(capacity, grace).(pending := a.pending)
            && 2 in a.pending && a.pending[2] == 0 && 1 !in a.pending && 3 !in a.pending && 4 !in a.pending
            && forall p :: p in a.pending ==> p == 2 || a.pending[p] == grace
  {
  }

  lemma FarEvicts(a: Arb, grace: nat)
    requires a.base == 1 && 3 in a.forwarded && 1 !in a.forwarded && 4 !in a.forwarded
    requires 2 in a.pending && a.pending[2] == 0 && 3 !in a.pending
    requires forall p :: p in a.pending ==> p == 2 || a.pending[p] == grace
    ensures var b := Evict(a, 5, grace);
            && b == a.(base := 5, pending := b.pending)
            && 1 in b.pending && 4 in b.pending && 3 !in b.pending && 2 in b.pending && b.pending[2] == 0
            && forall p :: p in b.pending ==> p == 2 || b.pending[p] == grace
  {
  }

  /** Message `capacity + 4` pushes 1 to 4 out of the window; 2 is due, 1 and 4 are not. */
  lemma FarArrives(capacity: nat, grace: nat) returns (a: Arb)
    requires capacity >= 5 && grace > 0
    ensures a == Observe(Stage(ArbThree(capacity, grace), 5, capacity + 4, grace), capacity + 4, grace).0
    ensures a.capacity == capacity && a.base == 5 && a.grace == grace
    ensures 1 in a.pending && 4 in a.pending && 3 !in a.pending && Due(a, grace) == {2}
  {
    var a2 := Stage(ArbThree(capacity, grace), 5, capacity + 4, grace);
    FarStaged(capacity, grace);
    FarEvicts(a2, grace);
    var a3 := Evict(a2, 5, grace);
    a := Observe(a2, capacity + 4, grace).0;
    hide Stage;
    hide Evict;
    assert a == a3.(forwarded := a3.forwarded + iset{capacity + 4}, pending := a3.pending - {capacity + 4},
                    log := a3.log + [capacity + 4]);
    assert 2 in Due(a, grace);
  }

  /** The receiver between the two: messages 1 to 4 arrive in one datagram. Message 1
      goes out inline, 2 and 3 are dropped, and 4 finds its slot taken. */
  lemma FourArrive(rx: Rx, d: Octets, blocks: seq<Block>, session: Octets, now: nat)
    requires Sized(rx) && rx.ready == [] && rx.ring.expected == 1 && rx.arbiter.Some? && rx.nextUnseen > 5
    requires rx.arbiter.value.base == 5 && |blocks| == 4
    requires 1 in rx.arbiter.value.pending && 4 in rx.arbiter.value.pending
    requires 2 !in rx.arbiter.value.pending && 3 !in rx.arbiter.value.pending
    requires 2 !in rx.ring.held && 4 !in rx.ring.held && Blocked(rx.ring, 4)
    ensures var (out, r) := ProcessData(rx, 0, d, DownstreamHeader(session, 1, 4), blocks, now);
            && r == Err(BufferFull) && out.ready == [Inline(1, 0, blocks[0].offset, blocks[0].len)]
            && SameSettings(rx, out) && out.backing == rx.backing && out.inlinePending == rx.inlinePending && Sized(out)
  {
    var w0 := Work(OpenGap(rx, DownstreamHeader(session, 1, 4), now), Owned(d), 0);
    var w1 := BlockStep(w0, 0, 1, blocks[0], now).0;
    assert BlockStep(w0, 0, 1, blocks[0], now).1 == false;
    assert w1.rx.ring == rx.ring.(expected := 2) by {
      RunIsMaximal(rx.ring.held, 2);
      assert Drained(rx.ring.(expected := 2)).0.held == rx.ring.held;
    }
    assert w1.rx.ready == [Inline(1, 0, blocks[0].offset, blocks[0].len)];
    var w2 := BlockStep(w1, 0, 2, blocks[1], now).0;
    assert BlockStep(w1, 0, 2, blocks[1], now) == (w1, false);
    assert BlockStep(w1, 0, 3, blocks[2], now) == (w1, false);
    var (w4, full) := BlockStep(w1, 0, 4, blocks[3], now);
    assert full by { assert Blocked(w1.rx.ring, 4); }
    hide BlockStep;
    assert Blocks(w1, 0, 1, blocks, 3, now) == (w4, true);
    assert Blocks(w1, 0, 1, blocks, 2, now) == (w4, true);
    assert Blocks(w1, 0, 1, blocks, 1, now) == (w4, true);
    BlocksFrame(w0, 0, 1, blocks, 0, now);
  }

  /** A poll that finds only genuine datagrams, each leaving the room below 2^64. */
  ghost predicate Genuine(c: Call, room: nat) {
    CallAgrees(c, Blank) && CallFits(c, room)
  }

  /** Genuine polls lead to `rx` with these outcomes. */
  ghost predicate Reached(rx0: Rx, calls: seq<Call>, rx: Rx, outs: seq<Outcome>) {
    && Sized(rx0) && AfterPolls(rx0, calls) == (rx, outs)
    && forall i :: 0 <= i < |calls| ==> Genuine(calls[i], rx0.ring.capacity)
  }

  lemma Then(rx0: Rx, calls: seq<Call>, rx: Rx, outs: seq<Outcome>, c: Call, rx': Rx, o: Outcome)
    requires Reached(rx0, calls, rx, outs) && Genuine(c, rx0.ring.capacity) && Sized(rx) && Poll(rx, c) == (rx', o)
    ensures Reached(rx0, calls + [c], rx', outs + [o])
  {
    hide Poll;
    hide Genuine;
    assert (calls + [c])[..|calls|] == calls;
  }

  lemma ThenHeartbeat(rx0: Rx, calls: seq<Call>, rx: Rx, outs: seq<Outcome>, d: Octets, next: nat,
                      capacity: nat, grace: nat, session: Octets)
    returns (rx': Rx, calls': seq<Call>)
    requires Reached(rx0, calls, rx, outs) && Agrees(d, Blank) && DatagramFits(d, rx0.ring.capacity)
    requires Knows(rx, capacity, grace, session, rx.nextUnseen) && Beats(d, session, next) && next > rx.nextUnseen
    requires Due(rx.arbiter.value, 0) == {}
    ensures Reached(rx0, calls', rx', outs + [GapDetected] + [Event(HeartbeatSeen(next))])
    ensures Knows(rx', capacity, grace, session, next) && rx'.arbiter == rx.arbiter && rx'.ring == rx.ring
  {
    rx' := HeartbeatRuns(rx, d, next, capacity, grace, session);
    OneIsGenuine(d, 0, rx0.ring.capacity);
    assert Sized(rx);
    hide Poll;
    hide Knows;
    hide Agrees;
    hide Genuine;
    hide Reached;
    var nothing := Call([], _ => 0, false);
    var mid := Poll(rx, One(d, 0)).0;
    Then(rx0, calls, rx, outs, One(d, 0), mid, GapDetected);
    Then(rx0, calls + [One(d, 0)], mid, outs + [GapDetected], nothing, rx', Event(HeartbeatSeen(next)));
    calls' := calls + [One(d, 0)] + [nothing];
  }

  lemma OneIsGenuine(d: Octets, now: nat, room: nat)
    requires Agrees(d, Blank) && DatagramFits(d, room)
    ensures Genuine(One(d, now), room) && Genuine(Call([], _ => 0, false), room)
  {
    hide Agrees;
    hide DatagramFits;
  }

  lemma ThreePoll(rx: Rx, d: Octets, blocks: seq<Block>, capacity: nat, grace: nat, session: Octets) returns (out: Rx)
    requires capacity >= 5 && grace > 0 && Knows(rx, capacity, grace, session, 2) && |blocks| == 1
    requires rx.arbiter == Some(Arb(capacity, 1, iset{}, map[], grace, [])) && rx.ring.held == map[]
    requires Carries(d, session, 3, blocks)
    ensures Poll(rx, One(d, 0)) == (out, Idle) && Knows(out, capacity, grace, session, 4)
    ensures out.arbiter == Some(ArbThree(capacity, grace)) && out.ring.held.Keys == {3}
  {
    hide ProcessData;
    hide Poll;
    hide Turn;
    hide Stage;
    hide Observe;
    PollIsTurn(rx, d, 0);
    DataTurn(rx, d, 3, blocks, session, 0);
    assert blocks == [blocks[0]];
    HeldTurn(Facing(rx, d, session), d, 3, blocks[0], session, 0);
    ThreeArrives(capacity, grace);
    var held := ProcessData(Facing(rx, d, session), 0, d, DownstreamHeader(session, 3, 1), blocks, 0).0;
    out := DrainConfirmed(held, 0);
    assert Repeat(GapItem, 0) == [];
    assert held.arbiter.value.pending - {} == held.arbiter.value.pending;
  }

  /** The turn on message `capacity + 4`: held, and 2 confirmed as a gap. */
  lemma FarTurn(rx: Rx, d: Octets, b: Block, capacity: nat, grace: nat, session: Octets)
    requires capacity >= 5 && grace > 0 && capacity + 5 <= U64_MAX
    requires Sized(rx) && rx.ready == [] && rx.nextUnseen == 5 && rx.ring.capacity == capacity && rx.ring.expected == 1
    requires rx.arbiter == Some(ArbThree(capacity, grace)) && rx.ring.held.Keys == {3}
    ensures var (held, r) := ProcessData(rx, 0, d, DownstreamHeader(session, capacity + 4, 1), [b], grace);
            && r == Ok(()) && held.ready == [] && held.nextUnseen == capacity + 5 && SameSettings(rx, held)
            && held.ring.capacity == capacity && held.ring.expected == 1 && held.ring.held.Keys == {3, capacity + 4}
            && held.backing == rx.backing && held.inlinePending == rx.inlinePending
            && held.arbiter.Some? && var a := held.arbiter.value;
            && a.capacity == capacity && a.grace == grace && a.base == 5 && Due(a, grace) == {2}
            && 1 in a.pending && 4 in a.pending && 3 !in a.pending
  {
    hide ProcessData;
    hide Stage;
    hide Observe;
    NextLap(4, capacity);
    Slots.DistinctSlots(3, 4, capacity);
    assert !Blocked(rx.ring, capacity + 4);
    hide Blocked;
    HeldTurn(rx, d, capacity + 4, b, session, grace);
    var a := FarArrives(capacity, grace);
    hide Due;
  }

  lemma FarPoll(rx: Rx, d: Octets, blocks: seq<Block>, capacity: nat, grace: nat, session: Octets) returns (out: Rx)
    requires capacity >= 5 && grace > 0 && Knows(rx, capacity, grace, session, 5) && |blocks| == 1
    requires capacity + 5 <= U64_MAX
    requires rx.arbiter == Some(ArbThree(capacity, grace)) && rx.ring.held.Keys == {3}
    requires Carries(d, session, capacity + 4, blocks)
    ensures Poll(rx, One(d, grace)) == (out, GapDetected) && Knows(out, capacity, grace, session, capacity + 5)
    ensures out.arbiter.value.base == 5 && out.ring.held.Keys == {3, capacity + 4}
    ensures 1 in out.arbiter.value.pending && 4 in out.arbiter.value.pending
    ensures 2 !in out.arbiter.value.pending && 3 !in out.arbiter.value.pending
  {
    hide ProcessData;
    hide Poll;
    hide Turn;
    hide ArbThree;
    PollIsTurn(rx, d, grace);
    DataTurn(rx, d, capacity + 4, blocks, session, grace);
    assert blocks == [blocks[0]];
    FarTurn(Facing(rx, d, session), d, blocks[0], capacity, grace, session);
    var held := ProcessData(Facing(rx, d, session), 0, d, DownstreamHeader(session, capacity + 4, 1), blocks, grace).0;
    var turned := DrainConfirmed(held, grace);
    hide Due;
    assert turned.ready == [GapItem];
    assert turned.ready[1..] == [];
    out := YieldItem(turned.(ready := []), GapItem).0;
  }

  lemma FourPoll(rx: Rx, d: Octets, blocks: seq<Block>, capacity: nat, grace: nat, session: Octets) returns (out: Rx)
    requires capacity >= 5 && Knows(rx, capacity, grace, session, capacity + 5) && |blocks| == 4
    requires rx.arbiter.value.base == 5 && rx.ring.held.Keys == {3, capacity + 4}
    requires 1 in rx.arbiter.value.pending && 4 in rx.arbiter.value.pending
    requires 2 !in rx.arbiter.value.pending && 3 !in rx.arbiter.value.pending
    requires Carries(d, session, 1, blocks)
    ensures Poll(rx, One(d, grace)) == (out, Failed(BufferFull)) && Sized(out) && out.current.None?
    ensures out.backing == EMPTY_BACKING && out.ready == [Inline(1, 0, blocks[0].offset, blocks[0].len)]
    ensures blocks[0].offset > 0
  {
    hide ProcessData;
    hide Poll;
    hide Turn;
    PollIsTurn(rx, d, grace);
    DataTurn(rx, d, 1, blocks, session, grace);
    BlocksInBounds(d, HEADER_LEN, 4);
    NextLap(4, capacity);
    assert Blocked(rx.ring, 4) by {
      assert capacity + 4 in rx.ring.held;
    }
    FourArrive(Facing(rx, d, session), d, blocks, session, grace);
    out := ProcessData(Facing(rx, d, session), 0, d, DownstreamHeader(session, 1, 4), blocks, grace).0;
  }

  /** Message 3 arrives behind a heartbeat. */
  lemma ReachThree(capacity: nat, grace: nat, session: Octets) returns (calls: seq<Call>, rx: Rx)
    requires 5 <= capacity && 2 * capacity + 5 < U64_MAX && grace > 0 && |session| == 10
    ensures Reached(Initial(2, Some(1), grace, capacity), calls, rx, [GapDetected, Event(HeartbeatSeen(2)), Idle])
    ensures Knows(rx, capacity, grace, session, 4)
    ensures rx.arbiter == Some(ArbThree(capacity, grace)) && rx.ring.held.Keys == {3}
  {
    Widths();
    var rx0 := Initial(2, Some(1), grace, capacity);
    var d1 := MakeHeartbeat(session, 2);
    var d2, b2 := MakeData(session, 3, 1);
    OneIsGenuine(d2, 0, capacity);
    assert Knows(rx0, capacity, grace, session, 1);
    hide Agrees;
    hide Carries;
    hide Poll;
    hide Genuine;
    var rx1, calls1 := ThenHeartbeat(rx0, [], rx0, [], d1, 2, capacity, grace, session);
    rx := ThreePoll(rx1, d2, b2, capacity, grace, session);
    assert Sized(rx1);
    hide Reached;
    hide Knows;
    assert [] + [GapDetected] + [Event(HeartbeatSeen(2))] == [GapDetected, Event(HeartbeatSeen(2))];
    Then(rx0, calls1, rx1, [GapDetected, Event(HeartbeatSeen(2))], One(d2, 0), rx, Idle);
    calls := calls1 + [One(d2, 0)];
    assert [GapDetected, Event(HeartbeatSeen(2))] + [Idle] == [GapDetected, Event(HeartbeatSeen(2)), Idle];
  }

  /** Another heartbeat shows 4 missing too. */
  lemma ReachFive(capacity: nat, grace: nat, session: Octets) returns (calls: seq<Call>, rx: Rx)
    requires 5 <= capacity && 2 * capacity + 5 < U64_MAX && grace > 0 && |session| == 10
    ensures Reached(Initial(2, Some(1), grace, capacity), calls, rx,
                    [GapDetected, Event(HeartbeatSeen(2)), Idle, GapDetected, Event(HeartbeatSeen(5))])
    ensures Knows(rx, capacity, grace, session, 5)
    ensures rx.arbiter == Some(ArbThree(capacity, grace)) && rx.ring.held.Keys == {3}
  {
    Widths();
    var rx0 := Initial(2, Some(1), grace, capacity);
    var d := MakeHeartbeat(session, 5);
    hide Agrees;
    hide Poll;
    hide Reached;
    var calls2, rx2 := ReachThree(capacity, grace, session);
    ThreeArrives(capacity, grace);
    var outs := [GapDetected, Event(HeartbeatSeen(2)), Idle];
    rx, calls := ThenHeartbeat(rx0, calls2, rx2, outs, d, 5, capacity, grace, session);
    assert outs + [GapDetected] + [Event(HeartbeatSeen(5))]
        == [GapDetected, Event(HeartbeatSeen(2)), Idle, GapDetected, Event(HeartbeatSeen(5))];
  }

  /** Message `capacity + 4` arrives once 2 has waited out its grace. */
  lemma ReachFar(capacity: nat, grace: nat, session: Octets) returns (calls: seq<Call>, rx: Rx)
    requires 5 <= capacity && 2 * capacity + 5 < U64_MAX && grace > 0 && |session| == 10
    ensures Reached(Initial(2, Some(1), grace, capacity), calls, rx,
                    [GapDetected, Event(HeartbeatSeen(2)), Idle, GapDetected, Event(HeartbeatSeen(5)), GapDetected])
    ensures Knows(rx, capacity, grace, session, capacity + 5)
    ensures rx.arbiter.value.base == 5 && rx.ring.held.Keys == {3, capacity + 4}
    ensures 1 in rx.arbiter.value.pending && 4 in rx.arbiter.value.pending
    ensures 2 !in rx.arbiter.value.pending && 3 !in rx.arbiter.value.pending
  {
    Widths();
    var rx0 := Initial(2, Some(1), grace, capacity);
    var d, blocks := MakeData(session, capacity + 4, 1);
    OneIsGenuine(d, grace, capacity);
    hide Agrees;
    hide Carries;
    hide Poll;
    hide Genuine;
    hide Reached;
    var calls3, rx3 := ReachFive(capacity, grace, session);
    rx := FarPoll(rx3, d, blocks, capacity, grace, session);
    assert Sized(rx3);
    hide Knows;
    var outs := [GapDetected, Event(HeartbeatSeen(2)), Idle, GapDetected, Event(HeartbeatSeen(5))];
    Then(rx0, calls3, rx3, outs, One(d, grace), rx, GapDetected);
    calls := calls3 + [One(d, grace)];
    assert outs + [GapDetected]
        == [GapDetected, Event(HeartbeatSeen(2)), Idle, GapDetected, Event(HeartbeatSeen(5)), GapDetected];
  }

  /** Messages 1 to 4 arrive in one datagram, and 4 is refused after 1 went out inline. */
  lemma ReachRefused(capacity: nat, grace: nat, session: Octets) returns (calls: seq<Call>, rx: Rx)
    requires 5 <= capacity && 2 * capacity + 5 < U64_MAX && grace > 0 && |session| == 10
    ensures Reached(Initial(2, Some(1), grace, capacity), calls, rx,
                    [GapDetected, Event(HeartbeatSeen(2)), Idle, GapDetected, Event(HeartbeatSeen(5)), GapDetected,
                     Failed(BufferFull)])
    ensures Sized(rx) && rx.current.None? && rx.backing == EMPTY_BACKING
    ensures |rx.ready| == 1 && rx.ready[0].Inline? && rx.ready[0].offset > 0
  {
    Widths();
    var rx0 := Initial(2, Some(1), grace, capacity);
    var calls4, rx4 := ReachFar(capacity, grace, session);
    var d, blocks := MakeData(session, 1, 4);
    hide Carries;
    hide Agrees;
    rx := FourPoll(rx4, d, blocks, capacity, grace, session);
    OneIsGenuine(d, grace, capacity);
    assert Sized(rx4);
    hide Poll;
    hide Knows;
    hide Genuine;
    hide Reached;
    var outs := [GapDetected, Event(HeartbeatSeen(2)), Idle, GapDetected, Event(HeartbeatSeen(5)), GapDetected];
    Then(rx0, calls4, rx4, outs, One(d, grace), rx, Failed(BufferFull));
    calls := calls4 + [One(d, grace)];
    assert outs + [Failed(BufferFull)]
        == [GapDetected, Event(HeartbeatSeen(2)), Idle, GapDetected, Event(HeartbeatSeen(5)), GapDetected,
            Failed(BufferFull)];
  }

  lemma GenuineRunFits(capacity: nat, grace: nat, calls: seq<Call>)
    requires 0 < capacity && 1 + capacity < U64_MAX
    requires forall i :: 0 <= i < |calls| ==> Genuine(calls[i], capacity)
    ensures RunFits(2, Some(1), grace, capacity, calls)
  {
    hide AfterPolls;
    hide RunTurns;
    hide CallAgrees;
    hide CallFits;
    HeadersFit(Initial(2, Some(1), grace, capacity), calls, capacity);
  }

  /** With two legs and any ring of at least five slots (the code has 4096), a network
      that only reorders and loses genuine datagrams (none near 2^64) drives the receiver to a panic:
      a message is refused after an earlier one of its datagram went out inline. */
  lemma TwoLegsCanPanic(capacity: nat, grace: nat, session: Octets) returns (calls: seq<Call>)
    requires 5 <= capacity && 2 * capacity + 5 < U64_MAX && grace > 0 && |session| == 10
    ensures RunFits(2, Some(1), grace, capacity, calls) && forall i :: 0 <= i < |calls| ==> CallAgrees(calls[i], Blank)
    ensures var outs := AfterPolls(Initial(2, Some(1), grace, capacity), calls).1;
            |outs| == 8 && outs[6] == Failed(BufferFull) && outs[7] == Panicked
  {
    hide RunFits;
    hide AfterPolls;
    hide CallAgrees;
    hide CallFits;
    var rx0 := Initial(2, Some(1), grace, capacity);
    var calls5, rx5 := ReachRefused(capacity, grace, session);
    PollDrains(rx5);
    var nothing := Call([], _ => 0, false);
    assert Poll(rx5, nothing).1 == Panicked;
    hide Poll;
    NothingIsGenuine(capacity);
    var outs := [GapDetected, Event(HeartbeatSeen(2)), Idle, GapDetected, Event(HeartbeatSeen(5)), GapDetected,
                 Failed(BufferFull)];
    Then(rx0, calls5, rx5, outs, nothing, Poll(rx5, nothing).0, Panicked);
    calls := calls5 + [nothing];
    GenuineRunFits(capacity, grace, calls);
  }

  lemma NothingIsGenuine(room: nat)
    ensures Genuine(Call([], _ => 0, false), room)
  {
  }

  // ------------------------------------------------------- the end of 64 bits

  /** One message, next in order on one leg. */
  lemma InOrderTurn(rx: Rx, d: Octets, q: nat, b: Block, session: Octets, now: nat)
    requires Sized(rx) && rx.arbiter.None? && rx.ring.held == map[] && rx.ring.expected == q == rx.nextUnseen
    requires rx.ready == []
    ensures var (out, r) := ProcessData(rx, 0, d, DownstreamHeader(session, q, 1), [b], now);
            && r == Ok(()) && out.ring == rx.ring.(expected := q + 1) && out.gaps == rx.gaps - iset{q}
            && out.arbiter.None? && out.ready == [Inline(q, 0, b.offset, b.len)]
            && out.nextUnseen == Max(q, SaturatingAdd(q, 1))
  {
    var w := Work(OpenGap(rx, DownstreamHeader(session, q, 1), now), Owned(d), 0);
    var ring := rx.ring.(expected := q + 1);
    DrainedAlready(ring);
    hide Drained;
    var w1 := BlockStep(w, 0, q, b, now).0;
    assert w1.rx.ring == ring && w1.inline == 1;
    assert Blocks(w1, 0, q, [b], 1, now) == (w1, false);
  }

  /** The bound on headers is tight: a genuine datagram of one message at the configured
      start leaves every sum below 2^64 exactly when it leaves the room. At 2^64 - 1 the
      next sequence is no 64-bit word. */
  lemma BoundIsTight(q: nat, grace: nat, capacity: nat, session: Octets) returns (c: Call)
    requires q <= U64_MAX && 0 < capacity && |session| == 10
    ensures var rx := AfterPolls(Initial(1, Some(q), grace, capacity), [c]).0;
            && CallAgrees(c, Blank) && rx.ring.expected == q + 1
            && (Exact(rx) <==> q + 1 < U64_MAX)
  {
    Widths();
    var rx0 := Initial(1, Some(q), grace, capacity);
    var d, blocks := MakeData(session, q, 1);
    c := One(d, 0);
    hide Agrees;
    hide ProcessData;
    hide Poll;
    hide Turn;
    PollIsTurn(rx0, d, 0);
    DataTurn(rx0, d, q, blocks, session, 0);
    assert blocks == [blocks[0]];
    InOrderTurn(Facing(rx0, d, session), d, q, blocks[0], session, 0);
    assert [c][..0] == [];
    assert AfterPolls(rx0, []) == (rx0, []);
  }
}
