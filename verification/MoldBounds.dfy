/** Sequences are 64-bit words in the code and unbounded numbers in the model. For runs
    whose accepted headers leave room below 2^64 the two agree: no sum the receiver forms, in any
    state of the run, leaves 64 bits. */
module MoldBounds {
  import opened Octets
  import opened MoldWire
  import opened GapTracking
  import opened Reassembly
  import opened Arbiter
  import opened MoldReceiver

  // ------------------------------------------------------------------- inputs

  /** Messages a datagram with this header numbers from its sequence on. */
  function Messages(h: DownstreamHeader): nat {
    if Kind(h) == Data then h.messageCount else 0
  }

  /** Past the header's last message there is still `room` below 2^64. The code counts one
      step past the last message. */
  predicate Fits(h: DownstreamHeader, room: nat) {
    h.sequence + Messages(h) + room < U64_MAX
  }

  /** The datagram up next, if the receiver takes it, leaves the room. */
  ghost predicate NextFits(rx: Rx, room: nat) {
    rx.pending != [] && Accepted(rx).Some? ==> Fits(Accepted(rx).value.0, room)
  }

  ghost predicate TurnsFit(turns: seq<Rx>, room: nat) {
    forall s :: s in turns ==> NextFits(s, room)
  }

  lemma FitWithLess(turns: seq<Rx>, room: nat, less: nat)
    requires TurnsFit(turns, room) && less <= room
    ensures TurnsFit(turns, less)
  {
    assert forall s :: NextFits(s, room) ==> NextFits(s, less);
    hide NextFits;
  }

  /** The arbiter adds its window to sequences, one leg adds nothing. */
  function RoomFor(legs: nat, capacity: nat): nat {
    if legs > 1 then capacity else 0
  }

  /** Every header the run takes, and the configured start, leaves room below 2^64. */
  ghost predicate RunFits(legs: nat, start: Option<nat>, grace: nat, capacity: nat, calls: seq<Call>)
    requires legs > 0 && capacity > 0
  {
    && (start.Some? ==> start.value + RoomFor(legs, capacity) < U64_MAX)
    && 1 + RoomFor(legs, capacity) < U64_MAX
    && TurnsFit(RunTurns(Initial(legs, start, grace, capacity), calls), RoomFor(legs, capacity))
  }

  // ------------------------------------------------------------------- states

  /** Nothing tracked reaches the highest sequence unseen, which leaves the room. */
  ghost predicate Bounded(rx: Rx, room: nat) {
    && Sized(rx)
    && rx.nextUnseen + room < U64_MAX
    && rx.ring.expected <= rx.nextUnseen
    && (forall q :: q in rx.ring.held ==> q < rx.nextUnseen)
    && (forall q :: q in rx.gaps ==> q < rx.nextUnseen)
    && (!rx.anchored ==> rx.ring.held == map[] && rx.gaps == iset{})
    && (rx.arbiter.Some? ==>
          && rx.arbiter.value.capacity <= room && rx.arbiter.value.base <= rx.nextUnseen
          && forall q :: q in rx.arbiter.value.pending ==> q < rx.nextUnseen)
  }

  /** Every sum the code forms from the state is a 64-bit word. */
  ghost predicate Exact(rx: Rx) {
    && rx.nextUnseen + 1 <= U64_MAX && rx.ring.expected + 1 <= U64_MAX
    && (forall q :: q in rx.ring.held ==> q + 1 <= U64_MAX)
    && (forall q :: q in rx.gaps ==> q + 1 <= U64_MAX)
    && (rx.arbiter.Some? ==>
          && rx.arbiter.value.base + rx.arbiter.value.capacity <= U64_MAX
          && forall q :: q in rx.arbiter.value.pending ==> q + 1 <= U64_MAX)
  }

  lemma BoundedIsExact(rx: Rx, room: nat)
    requires Bounded(rx, room)
    ensures Exact(rx)
  {
  }

  lemma DrainBounded(rx: Rx, first: nat, streamId: nat, room: nat)
    requires Bounded(rx, room)
    ensures Bounded(DrainTo(rx, first, streamId), room)
  {
    DrainRemovesRun(rx.ring);
    var (ring, run) := Drained(rx.ring);
    hide Drained;
    hide Views;
    if run != [] {
      assert ring.expected - 1 in rx.ring.held;
    }
  }

  lemma PlaceBounded(w: Work, streamId: nat, q: nat, b: Block, room: nat)
    requires Bounded(w.rx, room) && w.rx.anchored && q < w.rx.nextUnseen
    ensures Bounded(Place(w, streamId, q, b).0.rx, room)
  {
    PlaceFrame(w, streamId, q, b);
    hide Blocked;
    if q == w.rx.ring.expected {
      var item := Inline(q, streamId, b.offset, b.len);
      var rx := w.rx.(gaps := w.rx.gaps - iset{q});
      DrainBounded(rx.(ring := rx.ring.(expected := q + 1), ready := rx.ready + [item]), q + 1, streamId, room);
    }
    hide DrainTo;
  }

  lemma ObserveBounded(a: Arb, q: nat, now: nat, limit: nat)
    requires a.capacity > 0 && a.base <= limit && q < limit && forall p :: p in a.pending ==> p < limit
    ensures var b := Observe(a, q, now).0;
            b.capacity == a.capacity && b.base <= limit && forall p :: p in b.pending ==> p < limit
  {
  }

  lemma BlockBounded(w: Work, streamId: nat, q: nat, b: Block, now: nat, room: nat)
    requires Bounded(w.rx, room) && w.rx.anchored && q < w.rx.nextUnseen
    ensures Bounded(BlockStep(w, streamId, q, b, now).0.rx, room)
  {
    hide Observe;
    hide Place;
    var w1 := w;
    if w.rx.arbiter.Some? {
      ObserveBounded(w.rx.arbiter.value, q, now, w.rx.nextUnseen);
      w1 := w.(rx := w.rx.(arbiter := Some(Observe(w.rx.arbiter.value, q, now).0)));
    }
    PlaceBounded(w1, streamId, q, b, room);
  }

  lemma {:induction false} BlocksBounded(w: Work, streamId: nat, first: nat, blocks: seq<Block>, i: nat, now: nat,
                                         room: nat)
    requires Bounded(w.rx, room) && w.rx.anchored && i <= |blocks| && first + |blocks| <= w.rx.nextUnseen
    ensures Bounded(Blocks(w, streamId, first, blocks, i, now).0.rx, room)
    decreases |blocks| - i
  {
    hide BlockStep;
    hide Bounded;
    assert Sized(w.rx) by { BoundedIsSized(w.rx, room); }
    if i < |blocks| {
      BlockBounded(w, streamId, first + i, blocks[i], now, room);
      BlockStepFrame(w, streamId, first + i, blocks[i], now);
      var (w1, full) := BlockStep(w, streamId, first + i, blocks[i], now);
      if !full {
        BlocksBounded(w1, streamId, first, blocks, i + 1, now, room);
      }
    }
  }

  lemma BoundedIsSized(rx: Rx, room: nat)
    requires Bounded(rx, room)
    ensures Sized(rx)
  {
  }

  lemma OpenGapBounded(rx: Rx, h: DownstreamHeader, now: nat, room: nat)
    requires Bounded(rx, room) && rx.anchored && Kind(h) == Data && Fits(h, room)
    ensures Bounded(OpenGap(rx, h, now), room) && h.sequence + h.messageCount <= OpenGap(rx, h, now).nextUnseen
  {
  }

  lemma AcceptedBounded(rx: Rx, streamId: nat, d: Octets, h: DownstreamHeader, now: nat, room: nat)
    requires Bounded(rx, room) && rx.anchored && ParseHeader(d) == Ok(h) && Fits(h, room)
    ensures Bounded(ProcessAccepted(rx, streamId, d, h, now).0, room)
  {
    assert HEADER_LEN <= |d|;
    hide ParseBlocks;
    hide ParseHeader;
    hide Blocks;
    var blocks := ParseBlocks(d, HEADER_LEN, h.messageCount);
    if Kind(h) == Data && blocks.Ok? {
      BlocksInBounds(d, HEADER_LEN, h.messageCount);
      OpenGapBounded(rx, h, now, room);
      BlocksBounded(Work(OpenGap(rx, h, now), Owned(d), 0), streamId, h.sequence, blocks.value, 0, now, room);
      hide OpenGap;
    }
  }

  lemma TurnBounded(rx: Rx, now: nat, room: nat)
    requires Bounded(rx, room) && rx.pending != [] && NextFits(rx, room)
    ensures Bounded(Turn(rx, now).0, room)
  {
    hide ProcessAccepted;
    hide ParseHeader;
    if Accepted(rx).Some? {
      var (h, accepted) := Accepted(rx).value;
      assert Bounded(accepted, room);
      AcceptedFrame(accepted, rx.pending[0].0, rx.pending[0].1, h, now);
      AcceptedBounded(accepted, rx.pending[0].0, rx.pending[0].1, h, now, room);
    }
  }

  // --------------------------------------------------------------- whole runs

  lemma SourcesBounded(rx: Rx, burst: Burst, room: nat)
    requires Bounded(rx, room)
    ensures Bounded(PollSources(rx, burst).0, room)
  {
  }

  /** A state about to decode a datagram that fits. */
  ghost predicate FitsNext(rx: Rx, room: nat) {
    Bounded(rx, room) && rx.pending != [] && NextFits(rx, room)
  }

  lemma {:induction false} PumpBounded(rx: Rx, bursts: seq<Burst>, clock: nat -> nat, k: nat, room: nat)
    requires Sized(rx) && Bounded(rx, room) && TurnsFit(PumpTurns(rx, bursts, clock, k), room)
    ensures Bounded(Pump(rx, bursts, clock, k).0, room)
    ensures forall s :: s in PumpTurns(rx, bursts, clock, k) ==> FitsNext(s, room)
    decreases |bursts|, |rx.pending|
  {
    hide Bounded;
    hide Turn;
    hide PollSources;
    hide NextFits;
    if rx.ready == [] && rx.pending != [] {
      assert rx in PumpTurns(rx, bursts, clock, k);
      TurnBounded(rx, clock(k), room);
      TurnFrame(rx, clock(k));
      var (rx1, r) := Turn(rx, clock(k));
      if r.Ok? {
        PumpBounded(rx1, bursts, clock, k + 1, room);
      }
    } else if rx.ready == [] && bursts != [] {
      var (rx1, r) := PollSources(rx, bursts[0]);
      SourcesBounded(rx, bursts[0], room);
      BoundedIsSized(rx1, room);
      if r.Ok? && rx1.pending != [] {
        PumpBounded(rx1, bursts[1..], clock, k, room);
      }
    }
  }

  lemma YieldBounded(rx: Rx, owned: bool, room: nat)
    requires Bounded(rx, room) && rx.ready != []
    ensures var rest := rx.(ready := rx.ready[1..]);
            var out := (if owned then YieldOwned(rest, rx.ready[0]) else YieldItem(rest, rx.ready[0])).0;
            Bounded(out, room)
  {
  }

  lemma PollBounded(rx: Rx, c: Call, room: nat)
    requires Sized(rx) && Bounded(rx, room) && TurnsFit(PollTurns(rx, c), room)
    ensures Bounded(Poll(rx, c).0, room)
    ensures forall s :: s in PollTurns(rx, c) ==> FitsNext(s, room)
  {
    hide TurnsFit;
    hide FitsNext;
    var rx0 := Retire(rx);
    assert Bounded(rx0, room);
    PumpBounded(rx0, c.bursts, c.clock, 0, room);
    var (rx1, r) := Pump(rx0, c.bursts, c.clock, 0);
    hide Pump;
    hide PumpTurns;
    if r.Ok? && rx1.ready != [] {
      YieldBounded(rx1, c.owned, room);
    }
    hide Bounded;
  }

  /** The turns of all polls but the last, and of the last. */
  lemma TurnsFitSplit(rx0: Rx, calls: seq<Call>, room: nat)
    requires Sized(rx0) && calls != []
    ensures var (init, c) := (calls[..|calls| - 1], calls[|calls| - 1]);
            TurnsFit(RunTurns(rx0, calls), room) <==>
            TurnsFit(RunTurns(rx0, init), room) && TurnsFit(PollTurns(AfterPolls(rx0, init).0, c), room)
  {
    hide NextFits;
    hide PollTurns;
  }

  lemma {:induction false} RunBounded(rx0: Rx, calls: seq<Call>, room: nat)
    requires Sized(rx0) && Bounded(rx0, room) && TurnsFit(RunTurns(rx0, calls), room)
    ensures Bounded(AfterPolls(rx0, calls).0, room)
    ensures forall s :: s in RunTurns(rx0, calls) ==> FitsNext(s, room)
    decreases |calls|
  {
    hide Bounded;
    hide TurnsFit;
    hide FitsNext;
    hide Poll;
    hide PollTurns;
    if calls != [] {
      TurnsFitSplit(rx0, calls, room);
      var init := calls[..|calls| - 1];
      RunBounded(rx0, init, room);
      PollBounded(AfterPolls(rx0, init).0, calls[|calls| - 1], room);
    }
  }

  /** The receiver after the first `n` messages of the datagram up next. */
  ghost function Partway(rx: Rx, n: nat, now: nat): Rx
    requires Sized(rx) && rx.pending != []
  {
    if Accepted(rx).None? then rx
    else
      var ((streamId, d), (h, accepted)) := (rx.pending[0], Accepted(rx).value);
      var blocks := ParseBlocks(d, HEADER_LEN, h.messageCount);
      if Kind(h) != Data || blocks.Err? || n > |blocks.value| then accepted
      else Blocks(Work(OpenGap(accepted, h, now), Owned(d), 0), streamId, h.sequence, blocks.value[..n], 0, now).0.rx
  }

  lemma PartwayBounded(rx: Rx, n: nat, now: nat, room: nat)
    requires Sized(rx) && FitsNext(rx, room)
    ensures Bounded(Partway(rx, n, now), room)
  {
    hide ParseHeader;
    hide ParseBlocks;
    hide Blocks;
    if Accepted(rx).Some? {
      var ((streamId, d), (h, accepted)) := (rx.pending[0], Accepted(rx).value);
      assert HEADER_LEN <= |d| by { HeaderIsThere(d); }
      assert Bounded(accepted, room);
      var blocks := ParseBlocks(d, HEADER_LEN, h.messageCount);
      if Kind(h) == Data && blocks.Ok? && n <= |blocks.value| {
        BlocksInBounds(d, HEADER_LEN, h.messageCount);
        OpenGapBounded(accepted, h, now, room);
        BlocksBounded(Work(OpenGap(accepted, h, now), Owned(d), 0), streamId, h.sequence, blocks.value[..n],
                      0, now, room);
      }
    }
  }

  /** In every state a fitting run decodes a datagram in, after any number of its messages,
      and at the end, every sum the code forms stays below 2^64: the 64-bit words of the
      code and the numbers of the model are the same. */
  lemma EveryStateIsExact(legs: nat, start: Option<nat>, grace: nat, capacity: nat, calls: seq<Call>)
    requires legs > 0 && capacity > 0 && RunFits(legs, start, grace, capacity, calls)
    ensures var rx0 := Initial(legs, start, grace, capacity);
            && Exact(AfterPolls(rx0, calls).0)
            && (forall s :: s in RunTurns(rx0, calls) ==> Exact(s))
            && (forall s, n, now :: s in RunTurns(rx0, calls) ==> Exact(Partway(s, n, now)))
  {
    var (rx0, room) := (Initial(legs, start, grace, capacity), RoomFor(legs, capacity));
    assert Bounded(rx0, room) && Sized(rx0);
    RunBounded(rx0, calls, room);
    hide RunTurns;
    hide AfterPolls;
    BoundedIsExact(AfterPolls(rx0, calls).0, room);
    forall s | s in RunTurns(rx0, calls) ensures Exact(s) {
      BoundedIsExact(s, room);
    }
    forall s, n, now | s in RunTurns(rx0, calls) ensures Exact(Partway(s, n, now)) {
      PartwayBounded(s, n, now, room);
      BoundedIsExact(Partway(s, n, now), room);
    }
  }

  // ------------------------------------------------------------ on datagrams

  /** Any datagram's header leaves the room, taken or not. */
  ghost predicate DatagramFits(d: Octets, room: nat) {
    ParseHeader(d).Ok? ==> Fits(ParseHeader(d).value, room)
  }

  ghost predicate AllFit(pending: seq<(nat, Octets)>, room: nat) {
    forall i :: 0 <= i < |pending| ==> DatagramFits(pending[i].1, room)
  }

  ghost predicate BurstFits(burst: Burst, room: nat) {
    AllFit(burst.legs, room) && forall i :: 0 <= i < |burst.recovered| ==> DatagramFits(burst.recovered[i], room)
  }

  ghost predicate CallFits(c: Call, room: nat) {
    forall i :: 0 <= i < |c.bursts| ==> BurstFits(c.bursts[i], room)
  }

  lemma SourcesFit(rx: Rx, burst: Burst, room: nat)
    requires AllFit(rx.pending, room) && BurstFits(burst, room)
    ensures AllFit(PollSources(rx, burst).0.pending, room) && (Sized(rx) ==> Sized(PollSources(rx, burst).0))
  {
    hide DatagramFits;
  }

  lemma TurnFits(rx: Rx, now: nat, room: nat)
    requires Sized(rx) && rx.pending != [] && AllFit(rx.pending, room)
    ensures AllFit(Turn(rx, now).0.pending, room) && NextFits(rx, room)
  {
    TurnFrame(rx, now);
    assert DatagramFits(rx.pending[0].1, room);
    hide Turn;
    hide ParseHeader;
  }

  lemma {:induction false} PumpFits(rx: Rx, bursts: seq<Burst>, clock: nat -> nat, k: nat, room: nat)
    requires Sized(rx) && AllFit(rx.pending, room) && forall i :: 0 <= i < |bursts| ==> BurstFits(bursts[i], room)
    ensures AllFit(Pump(rx, bursts, clock, k).0.pending, room) && TurnsFit(PumpTurns(rx, bursts, clock, k), room)
    decreases |bursts|, |rx.pending|
  {
    hide Turn;
    hide PollSources;
    hide AllFit;
    hide BurstFits;
    hide NextFits;
    if rx.ready == [] && rx.pending != [] {
      TurnFits(rx, clock(k), room);
      TurnFrame(rx, clock(k));
      var (rx1, r) := Turn(rx, clock(k));
      if r.Ok? {
        PumpFits(rx1, bursts, clock, k + 1, room);
      }
    } else if rx.ready == [] && bursts != [] {
      var (rx1, r) := PollSources(rx, bursts[0]);
      SourcesFit(rx, bursts[0], room);
      if r.Ok? && rx1.pending != [] {
        PumpFits(rx1, bursts[1..], clock, k, room);
      }
    }
  }

  lemma PollFits(rx: Rx, c: Call, room: nat)
    requires Sized(rx) && AllFit(rx.pending, room) && CallFits(c, room)
    ensures AllFit(Poll(rx, c).0.pending, room) && TurnsFit(PollTurns(rx, c), room)
  {
    hide BurstFits;
    hide TurnsFit;
    PumpFits(Retire(rx), c.bursts, c.clock, 0, room);
    hide Pump;
    hide PumpTurns;
    hide AllFit;
  }

  /** When every header leaves the room, those taken do. */
  lemma {:induction false} HeadersFit(rx0: Rx, calls: seq<Call>, room: nat)
    requires Sized(rx0) && AllFit(rx0.pending, room) && forall i :: 0 <= i < |calls| ==> CallFits(calls[i], room)
    ensures AllFit(AfterPolls(rx0, calls).0.pending, room) && TurnsFit(RunTurns(rx0, calls), room)
    decreases |calls|
  {
    hide Poll;
    hide PollTurns;
    hide AllFit;
    hide CallFits;
    if calls != [] {
      var init := calls[..|calls| - 1];
      HeadersFit(rx0, init, room);
      PollFits(AfterPolls(rx0, init).0, calls[|calls| - 1], room);
      TurnsFitSplit(rx0, calls, room);
    }
  }
}
