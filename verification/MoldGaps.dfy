/** Completeness: what the receiver has not delivered is held, or known missing. */
module MoldGaps {
  import opened Octets
  import opened MoldWire
  import opened GapTracking
  import opened Reassembly
  import opened Arbiter
  import opened MoldReceiver
  import opened MoldBounds
  import opened MoldRefusals
  import opened MoldOrder

  // ------------------------------------------------------------------- one leg

  /** Up to `limit`, each sequence not delivered is in exactly one of the reorder ring
      and the gap set; nothing else is in either, and the ring is drained. */
  ghost predicate SplitUpTo(rx: Rx, limit: nat) {
    && WellFormed(rx.ring)
    && rx.ring.expected <= limit
    && rx.ring.expected !in rx.ring.held
    && (forall q: nat :: q in rx.gaps || q in rx.ring.held <==> rx.ring.expected <= q < limit)
    && (forall q: nat :: q in rx.gaps ==> q !in rx.ring.held)
  }

  ghost predicate Partition(rx: Rx) {
    && rx.arbiter.None?
    && SplitUpTo(rx, rx.nextUnseen)
    && (!rx.anchored ==> rx.ring.expected == rx.nextUnseen)
  }

  /** Hence no gap is pending exactly when all that was seen has been delivered. */
  lemma NoGapIffCaughtUp(rx: Rx)
    requires Partition(rx)
    ensures rx.gaps == iset{} <==> rx.ring.expected == rx.nextUnseen
  {
    if rx.ring.expected < rx.nextUnseen {
      assert rx.ring.expected in rx.gaps;
    }
  }

  lemma InlineSplits(w: Work, streamId: nat, q: nat, b: Block, limit: nat)
    requires SplitUpTo(w.rx, limit) && q == w.rx.ring.expected
    ensures SplitUpTo(DeliverInline(w.(rx := w.rx.(gaps := w.rx.gaps - iset{q})), streamId, q, b).rx, Max(limit, q + 1))
  {
    var ring := w.rx.ring.(expected := q + 1);
    DrainRemovesRun(ring);
    var (ring', run) := Drained(ring);
    var limit' := Max(limit, q + 1);
    forall x: nat | x in ring'.held ensures x in w.rx.ring.held {}
    assert q + 1 <= limit' < ring'.expected ==> limit' in w.rx.ring.held;
  }

  lemma HoldBackSplits(w: Work, streamId: nat, q: nat, b: Block, limit: nat)
    requires SplitUpTo(w.rx, limit) && w.rx.ring.expected < q <= limit
    ensures var (out, full) := HoldBack(w.(rx := w.rx.(gaps := w.rx.gaps - iset{q})), streamId, q, b);
            && (!full ==> SplitUpTo(out.rx, Max(limit, q + 1)))
            && (full ==> q !in out.rx.gaps && q !in out.rx.ring.held && out.rx.ring.expected <= q)
  {
  }

  /** A block moves the frontier past itself, or is refused and lost. */
  lemma BlockSplits(w: Work, streamId: nat, q: nat, b: Block, now: nat, limit: nat)
    requires w.rx.arbiter.None? && SplitUpTo(w.rx, limit) && q <= limit
    ensures var (out, full) := BlockStep(w, streamId, q, b, now);
            && (!full ==> SplitUpTo(out.rx, Max(limit, q + 1)))
            && (full ==> q !in out.rx.gaps && q !in out.rx.ring.held && out.rx.ring.expected <= q)
  {
    if q == w.rx.ring.expected {
      InlineSplits(w, streamId, q, b, limit);
    } else if q > w.rx.ring.expected {
      HoldBackSplits(w, streamId, q, b, limit);
    }
  }

  /** Some sequence below `limit` is neither delivered, held nor known missing. */
  ghost predicate Loses(rx: Rx, limit: nat) {
    exists q: nat :: rx.ring.expected <= q < limit && q !in rx.gaps && q !in rx.ring.held
  }

  lemma {:induction false} BlocksSplit(w: Work, streamId: nat, first: nat, blocks: seq<Block>, i: nat, now: nat,
                                       limit: nat)
    requires Sized(w.rx) && i <= |blocks| && w.rx.arbiter.None? && SplitUpTo(w.rx, limit) && first + i <= limit
    ensures var (out, full) := Blocks(w, streamId, first, blocks, i, now);
            && (!full ==> SplitUpTo(out.rx, Max(limit, first + |blocks|)))
            && (full ==> Loses(out.rx, first + |blocks|))
    decreases |blocks| - i
  {
    hide BlockStep;
    if i < |blocks| {
      BlockSplits(w, streamId, first + i, blocks[i], now, limit);
      BlockStepFrame(w, streamId, first + i, blocks[i], now);
      var (w1, full) := BlockStep(w, streamId, first + i, blocks[i], now);
      if !full {
        BlocksSplit(w1, streamId, first, blocks, i + 1, now, Max(limit, first + i + 1));
      }
    }
  }

  lemma DataSplits(rx: Rx, streamId: nat, d: Octets, h: DownstreamHeader, blocks: seq<Block>, now: nat)
    requires Sized(rx) && Partition(rx) && rx.anchored && Kind(h) == Data && Fits(h, 0) && |blocks| == h.messageCount
    ensures var (out, r) := ProcessData(rx, streamId, d, h, blocks, now);
            Partition(out) <==> r.Ok?
  {
    hide BlockStep;
    hide Blocks;
    var w := Work(OpenGap(rx, h, now), Owned(d), 0);
    assert SplitUpTo(w.rx, Max(rx.nextUnseen, h.sequence));
    BlocksSplit(w, streamId, h.sequence, blocks, 0, now, Max(rx.nextUnseen, h.sequence));
    BlocksFrame(w, streamId, h.sequence, blocks, 0, now);
    var (done, full) := Blocks(w, streamId, h.sequence, blocks, 0, now);
    if full {
      var q: nat :| done.rx.ring.expected <= q < h.sequence + |blocks| && q !in done.rx.gaps && q !in done.rx.ring.held;
      assert !SplitUpTo(done.rx, done.rx.nextUnseen);
    }
  }

  lemma TailGapSplits(rx: Rx, nextExpected: nat)
    requires Partition(rx) && rx.anchored
    ensures Partition(NoteTailGap(rx, nextExpected))
  {
  }

  lemma AcceptedSplits(rx: Rx, streamId: nat, d: Octets, h: DownstreamHeader, now: nat)
    requires Sized(rx) && Partition(rx) && rx.anchored && ParseHeader(d) == Ok(h) && Fits(h, 0)
    ensures var (out, r) := ProcessAccepted(rx, streamId, d, h, now);
            Partition(out) <==> r != Err(BufferFull)
  {
    TailGapSplits(rx, h.sequence);
    var blocks := ParseBlocks(d, HEADER_LEN, h.messageCount);
    if Kind(h) == Data && blocks.Ok? {
      BlocksInBounds(d, HEADER_LEN, h.messageCount);
      DataSplits(rx, streamId, d, h, blocks.value, now);
    }
  }

  lemma AcceptSplits(rx: Rx, h: DownstreamHeader)
    requires Partition(rx) && AcceptHeader(rx, h).Ok?
    ensures Partition(AcceptHeader(rx, h).value) && AcceptHeader(rx, h).value.anchored
  {
    var out := AcceptHeader(rx, h).value;
    if !rx.anchored {
      assert rx.gaps == iset{} && rx.ring.held == map[];
    }
  }

  /** With one leg a turn keeps the partition exactly when no message was refused. */
  lemma TurnPartitionIff(rx: Rx, now: nat)
    requires Sized(rx) && Partition(rx) && rx.pending != [] && NextFits(rx, 0)
    ensures Partition(Turn(rx, now).0) <==> Turn(rx, now).1 != Err(BufferFull)
  {
    hide ProcessAccepted;
    hide ParseHeader;
    var (streamId, d) := rx.pending[0];
    assert Partition(Popped(rx));
    if Accepted(rx).Some? {
      var (h, accepted) := Accepted(rx).value;
      AcceptSplits(Popped(rx), h);
      AcceptedSplits(accepted, streamId, d, h, now);
    }
  }

  /** What gap tracking reads is unchanged. */
  ghost predicate SameTracking(a: Rx, b: Rx) {
    && a.ring == b.ring && a.gaps == b.gaps && a.nextUnseen == b.nextUnseen
    && a.arbiter == b.arbiter && a.anchored == b.anchored && a.anchor == b.anchor
  }

  lemma SourcesTrack(rx: Rx, burst: Burst)
    ensures var out := PollSources(rx, burst).0;
            SameTracking(rx, out) && out.ready == rx.ready && (Sized(rx) ==> Sized(out))
    ensures PollSources(rx, burst).1 != Err(BufferFull)
  {
  }

  lemma {:induction false} PumpPartitionIff(rx: Rx, bursts: seq<Burst>, clock: nat -> nat, k: nat)
    requires Sized(rx) && Partition(rx) && TurnsFit(PumpTurns(rx, bursts, clock, k), 0)
    ensures var (out, r) := Pump(rx, bursts, clock, k);
            Partition(out) <==> r != Err(BufferFull)
    decreases |bursts|, |rx.pending|
  {
    hide Turn;
    hide PollSources;
    hide NextFits;
    hide SplitUpTo;
    if rx.ready == [] && rx.pending != [] {
      TurnFrame(rx, clock(k));
      assert rx in PumpTurns(rx, bursts, clock, k);
      TurnPartitionIff(rx, clock(k));
      var (rx1, r) := Turn(rx, clock(k));
      if r.Ok? {
        PumpPartitionIff(rx1, bursts, clock, k + 1);
      }
    } else if rx.ready == [] && bursts != [] {
      var (rx1, r) := PollSources(rx, bursts[0]);
      SourcesTrack(rx, bursts[0]);
      SameSplit(rx, rx1, rx.nextUnseen);
      if r.Ok? && rx1.pending != [] {
        PumpPartitionIff(rx1, bursts[1..], clock, k);
      }
    }
  }

  lemma SameSplit(a: Rx, b: Rx, limit: nat)
    requires SameTracking(a, b)
    ensures SplitUpTo(a, limit) <==> SplitUpTo(b, limit)
  {
  }

  lemma PartitionIsOrderly(rx: Rx)
    requires Sized(rx) && Partition(rx)
    ensures Orderly(rx)
  {
    if !rx.anchored {
      assert forall q :: q !in rx.ring.held;
    }
  }

  lemma PollSplits(rx: Rx, c: Call)
    requires Sized(rx) && Partition(rx) && TurnsFit(PollTurns(rx, c), 0)
    ensures Partition(Poll(rx, c).0) <==> Poll(rx, c).1 != Failed(BufferFull)
  {
    hide Pump;
    hide PumpTurns;
    hide SplitUpTo;
    hide TurnsFit;
    SameSplit(rx, Retire(rx), rx.nextUnseen);
    PumpPartitionIff(Retire(rx), c.bursts, c.clock, 0);
    var (rx1, r) := Pump(Retire(rx), c.bursts, c.clock, 0);
    SameSplit(rx1, Poll(rx, c).0, rx1.nextUnseen);
  }

  /** With one leg a poll keeps the partition exactly when no datagram it decodes holds a
      message that the ring refuses, told from the state that datagram meets. */
  lemma PollPartitionIff(rx: Rx, c: Call)
    requires Sized(rx) && Partition(rx) && TurnsFit(PollTurns(rx, c), 0)
    ensures Partition(Poll(rx, c).0) <==> NoneRefusing(PollTurns(rx, c))
  {
    hide Poll;
    hide PollTurns;
    hide Partition;
    hide TurnsFit;
    hide Orderly;
    hide NoneRefusing;
    PartitionIsOrderly(rx);
    PollRefusedIff(rx, c);
    PollSplits(rx, c);
  }

  /** The partition held after every poll of the run. */
  ghost predicate PartitionThroughout(rx0: Rx, calls: seq<Call>)
    requires Sized(rx0)
  {
    Partition(AfterPolls(rx0, calls).0) && (calls != [] ==> PartitionThroughout(rx0, calls[..|calls| - 1]))
  }

  lemma {:induction false} RunPartitionIff(rx0: Rx, calls: seq<Call>)
    requires Sized(rx0) && Partition(rx0) && TurnsFit(RunTurns(rx0, calls), 0)
    ensures PartitionThroughout(rx0, calls) <==> NoneRefusing(RunTurns(rx0, calls))
    decreases |calls|
  {
    hide Poll;
    hide PollTurns;
    hide Refusing;
    hide Partition;
    hide TurnsFit;
    if calls != [] {
      var (init, c) := (calls[..|calls| - 1], calls[|calls| - 1]);
      TurnsFitSplit(rx0, calls, 0);
      RunPartitionIff(rx0, init);
      var before := AfterPolls(rx0, init).0;
      var (earlier, turns) := (RunTurns(rx0, init), PollTurns(before, c));
      assert RunTurns(rx0, calls) == earlier + turns;
      assert forall s :: s in earlier + turns <==> s in earlier || s in turns;
      if NoneRefusing(earlier) {
        PollPartitionIff(before, c);
      }
    }
  }

  /** For every run of one leg with sequences that leave room below 2^64: after every poll
      each sequence between the next to deliver and the highest seen is in exactly one of
      the reorder ring and the gap set, if and only if no datagram holds a message that the
      ring refuses in the state it meets. Then no gap is pending exactly when nothing is
      outstanding. */
  lemma OneLegPartitionIff(start: Option<nat>, grace: nat, capacity: nat, calls: seq<Call>)
    requires capacity > 0 && RunFits(1, start, grace, capacity, calls)
    ensures var rx0 := Initial(1, start, grace, capacity);
            var rx := AfterPolls(rx0, calls).0;
            && (PartitionThroughout(rx0, calls) <==> NoneRefusing(RunTurns(rx0, calls)))
            && (PartitionThroughout(rx0, calls) ==> (rx.gaps == iset{} <==> rx.ring.expected == rx.nextUnseen))
  {
    hide AfterPolls;
    hide RunTurns;
    hide NoneRefusing;
    var rx0 := Initial(1, start, grace, capacity);
    assert Partition(rx0);
    RunPartitionIff(rx0, calls);
    if PartitionThroughout(rx0, calls) {
      NoGapIffCaughtUp(AfterPolls(rx0, calls).0);
    }
  }

  // -------------------------------------------------------- refusal of messages

  /** Every message of the datagram up next lies within one capacity of the next to
      deliver. */
  ghost predicate Near(rx: Rx)
    requires rx.pending != []
  {
    Upcoming(rx).Some? ==>
      var (accepted, first, n) := Upcoming(rx).value; first + n <= accepted.ring.expected + accepted.ring.capacity
  }

  /** The ring holds nothing deliverable, and nothing beyond one capacity. */
  ghost predicate Roomy(ring: Reorder<MessageView>) {
    ring.capacity > 0 && Windowed(ring) && ring.expected !in ring.held
  }

  lemma InlineRoomy(ring: Reorder<MessageView>)
    requires Roomy(ring)
    ensures var out := Drained(ring.(expected := ring.expected + 1)).0;
            Roomy(out) && ring.expected < out.expected && out.capacity == ring.capacity
  {
    DrainRemovesRun(ring.(expected := ring.expected + 1));
  }

  lemma PlaceNeverFull(w: Work, streamId: nat, q: nat, b: Block)
    requires Roomy(w.rx.ring) && q < w.rx.ring.expected + w.rx.ring.capacity
    ensures var (out, full) := Place(w, streamId, q, b);
            && !full && Roomy(out.rx.ring)
            && w.rx.ring.expected <= out.rx.ring.expected && out.rx.ring.capacity == w.rx.ring.capacity
  {
    hide Drained;
    if q == w.rx.ring.expected {
      InlineRoomy(w.rx.ring);
    } else if q > w.rx.ring.expected {
      NeverFullInWindow(w.rx.ring, q, MessageView(w.backing.held, b.offset, b.len));
    }
  }

  lemma BlockNeverFull(w: Work, streamId: nat, q: nat, b: Block, now: nat)
    requires Sized(w.rx) && Roomy(w.rx.ring) && q < w.rx.ring.expected + w.rx.ring.capacity
    ensures var (out, full) := BlockStep(w, streamId, q, b, now);
            && !full && Roomy(out.rx.ring)
            && w.rx.ring.expected <= out.rx.ring.expected && out.rx.ring.capacity == w.rx.ring.capacity
  {
    hide Observe;
    hide Place;
    hide Roomy;
    var w1 := if w.rx.arbiter.None? then w
              else w.(rx := w.rx.(arbiter := Some(Observe(w.rx.arbiter.value, q, now).0)));
    PlaceNeverFull(w1, streamId, q, b);
  }

  lemma {:induction false} BlocksNeverFull(w: Work, streamId: nat, first: nat, blocks: seq<Block>, i: nat, now: nat)
    requires Sized(w.rx) && i <= |blocks| && Roomy(w.rx.ring)
    requires first + |blocks| <= w.rx.ring.expected + w.rx.ring.capacity
    ensures var (out, full) := Blocks(w, streamId, first, blocks, i, now);
            !full && Roomy(out.rx.ring)
    decreases |blocks| - i
  {
    hide BlockStep;
    hide Roomy;
    if i < |blocks| {
      BlockNeverFull(w, streamId, first + i, blocks[i], now);
      BlockStepFrame(w, streamId, first + i, blocks[i], now);
      BlocksNeverFull(BlockStep(w, streamId, first + i, blocks[i], now).0, streamId, first, blocks, i + 1, now);
    }
  }

  lemma DataNeverFull(rx: Rx, streamId: nat, d: Octets, h: DownstreamHeader, blocks: seq<Block>, now: nat)
    requires Sized(rx) && Roomy(rx.ring) && h.sequence + |blocks| <= rx.ring.expected + rx.ring.capacity
    ensures var (out, r) := ProcessData(rx, streamId, d, h, blocks, now); r.Ok? && Roomy(out.ring)
  {
    hide Blocks;
    hide Roomy;
    BlocksNeverFull(Work(OpenGap(rx, h, now), Owned(d), 0), streamId, h.sequence, blocks, 0, now);
  }

  /** A ring with room, empty before the first header. */
  ghost predicate HasRoom(rx: Rx) {
    Sized(rx) && Roomy(rx.ring) && (!rx.anchored ==> rx.ring.held == map[])
  }

  /** Messages within one capacity of the next to deliver are never refused, on any
      number of legs. */
  lemma NearIsNeverFull(rx: Rx, now: nat)
    requires HasRoom(rx) && rx.pending != [] && Near(rx)
    ensures Turn(rx, now).1 != Err(BufferFull) && HasRoom(Turn(rx, now).0)
  {
    TurnFrame(rx, now);
    hide ProcessData;
    hide ParseHeader;
    if Accepted(rx).Some? {
      var (h, accepted) := Accepted(rx).value;
      var d := rx.pending[0].1;
      HeaderIsThere(d);
      var blocks := ParseBlocks(d, HEADER_LEN, h.messageCount);
      assert Roomy(accepted.ring);
      if Kind(h) == Data && blocks.Ok? {
        BlocksInBounds(d, HEADER_LEN, h.messageCount);
        DataNeverFull(accepted, rx.pending[0].0, d, h, blocks.value, now);
      }
      hide ParseBlocks;
    }
  }

  ghost predicate AllNear(turns: seq<Rx>)
    requires forall s :: s in turns ==> s.pending != []
  {
    forall s :: s in turns ==> Near(s)
  }

  lemma {:induction false} PumpNeverFull(rx: Rx, bursts: seq<Burst>, clock: nat -> nat, k: nat)
    requires HasRoom(rx)
    ensures AllNear(PumpTurns(rx, bursts, clock, k)) ==>
              Pump(rx, bursts, clock, k).1 != Err(BufferFull) && HasRoom(Pump(rx, bursts, clock, k).0)
    decreases |bursts|, |rx.pending|
  {
    hide Turn;
    hide Near;
    hide Roomy;
    if !AllNear(PumpTurns(rx, bursts, clock, k)) {
    } else if rx.ready == [] && rx.pending != [] {
      assert rx in PumpTurns(rx, bursts, clock, k);
      NearIsNeverFull(rx, clock(k));
      TurnFrame(rx, clock(k));
      var (rx1, r) := Turn(rx, clock(k));
      if r.Ok? {
        var rest := PumpTurns(rx1, bursts, clock, k + 1);
        assert PumpTurns(rx, bursts, clock, k) == [rx] + rest;
        assert forall s :: s in rest ==> s in [rx] + rest;
        PumpNeverFull(rx1, bursts, clock, k + 1);
      }
    } else if rx.ready == [] && bursts != [] {
      var (rx1, r) := PollSources(rx, bursts[0]);
      assert HasRoom(rx1) && r != Err(BufferFull);
      if r.Ok? && rx1.pending != [] {
        PumpNeverFull(rx1, bursts[1..], clock, k);
      }
    }
  }

  lemma PollNeverFull(rx: Rx, c: Call)
    requires HasRoom(rx)
    ensures AllNear(PollTurns(rx, c)) ==> Poll(rx, c).1 != Failed(BufferFull) && HasRoom(Poll(rx, c).0)
  {
    hide Pump;
    hide PumpTurns;
    hide AllNear;
    hide Roomy;
    PumpNeverFull(Retire(rx), c.bursts, c.clock, 0);
  }

  lemma {:induction false} RunNeverFull(rx0: Rx, calls: seq<Call>)
    requires HasRoom(rx0)
    ensures AllNear(RunTurns(rx0, calls)) ==> NeverFull(AfterPolls(rx0, calls).1) && HasRoom(AfterPolls(rx0, calls).0)
    decreases |calls|
  {
    hide Poll;
    hide PollTurns;
    hide Near;
    hide Roomy;
    if calls != [] && AllNear(RunTurns(rx0, calls)) {
      var (init, c) := (calls[..|calls| - 1], calls[|calls| - 1]);
      var (before, outs) := AfterPolls(rx0, init);
      var (earlier, turns) := (RunTurns(rx0, init), PollTurns(before, c));
      assert RunTurns(rx0, calls) == earlier + turns && AfterPolls(rx0, calls).1 == outs + [Poll(before, c).1];
      assert forall s :: s in earlier || s in turns ==> s in earlier + turns;
      RunNeverFull(rx0, init);
      PollNeverFull(before, c);
    }
  }

  lemma NearRunRefusesNothing(legs: nat, start: Option<nat>, grace: nat, capacity: nat, calls: seq<Call>)
    requires legs > 0 && capacity > 0 && AllNear(RunTurns(Initial(legs, start, grace, capacity), calls))
    ensures var rx0 := Initial(legs, start, grace, capacity);
            NeverFull(AfterPolls(rx0, calls).1) && NoneRefusing(RunTurns(rx0, calls))
            && NoneStranding(RunTurns(rx0, calls))
  {
    var rx0 := Initial(legs, start, grace, capacity);
    assert HasRoom(rx0) && Orderly(rx0);
    hide Initial;
    hide AfterPolls;
    hide RunTurns;
    hide AllNear;
    hide Orderly;
    hide HasRoom;
    hide Stranding;
    hide Refusing;
    RunNeverFull(rx0, calls);
    RunRefusedIff(rx0, calls);
    forall s | s in RunTurns(rx0, calls) ensures !Stranding(s) {
      StrandingRefuses(s);
    }
  }

  /** When every datagram lies within one capacity of the next to deliver in the state it
      meets, all promises hold without further condition: nothing is refused, messages come
      in order, and one leg keeps track of every sequence. */
  lemma NearRunKeepsPromises(legs: nat, start: Option<nat>, grace: nat, capacity: nat, calls: seq<Call>, src: Source)
    requires legs > 0 && capacity > 0 && RunFits(legs, start, grace, capacity, calls)
    requires forall i :: 0 <= i < |calls| ==> CallAgrees(calls[i], src)
    requires AllNear(RunTurns(Initial(legs, start, grace, capacity), calls))
    ensures var rx0 := Initial(legs, start, grace, capacity);
            var (rx, outs) := AfterPolls(rx0, calls);
            && NeverFull(outs) && StaysInside(outs)
            && Delivered(outs) == Stretch(src, SessionOf(rx), rx.anchor, |Delivered(outs)|)
            && (legs == 1 ==> PartitionThroughout(rx0, calls))
  {
    hide AfterPolls;
    hide RunTurns;
    hide AllNear;
    hide NeverFull;
    hide NoneStranding;
    hide NoneRefusing;
    hide PartitionThroughout;
    hide Delivered;
    hide Stretch;
    hide FirstHeader;
    hide CallAgrees;
    hide RunFits;
    NearRunRefusesNothing(legs, start, grace, capacity, calls);
    DeliveredInOrder(legs, start, grace, capacity, calls, src);
    if legs == 1 {
      OneLegPartitionIff(start, grace, capacity, calls);
    }
  }
}
