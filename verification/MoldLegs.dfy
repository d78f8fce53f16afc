/** Several legs: the arbiter loses no account of a sequence, and the receiver
    never stages one it forwarded before. */
module MoldLegs {
  import opened Octets
  import opened MoldWire
  import opened GapTracking
  import opened Reassembly
  import opened Arbiter
  import opened MoldReceiver
  import opened MoldBounds
  import opened MoldOrder
  import opened MoldRefusals
  import opened MoldGaps

  // ----------------------------------------------------------- forwarding once

  /** No two Forward verdicts were about the same sequence. */
  ghost predicate Once(a: Arb) {
    && (forall q :: q in a.log <==> q in a.forwarded)
    && (forall i, j :: 0 <= i < j < |a.log| ==> a.log[i] != a.log[j])
  }

  /** The arbiter is sound, forwarded nothing twice, nothing from the highest unseen
      sequence on, and nothing before the first header. */
  ghost predicate Safe(rx: Rx) {
    rx.arbiter.Some? ==>
      && Sound(rx.arbiter.value) && Once(rx.arbiter.value)
      && (forall q :: q in rx.arbiter.value.forwarded ==> q < rx.nextUnseen)
      && (!rx.anchored ==> rx.arbiter.value.log == [])
  }

  lemma ObserveOnce(a: Arb, q: nat, now: nat)
    requires Sound(a) && Once(a)
    ensures Once(Observe(a, q, now).0)
  {
    ObserveForwardsOnce(a, q, now);
    hide Observe;
  }

  lemma BlockSafe(w: Work, streamId: nat, q: nat, b: Block, now: nat)
    requires Sized(w.rx) && Safe(w.rx) && w.rx.anchored && q < w.rx.nextUnseen
    ensures Safe(BlockStep(w, streamId, q, b, now).0.rx)
  {
    if w.rx.arbiter.Some? {
      var arb := w.rx.arbiter.value;
      ObserveForwardsOnce(arb, q, now);
      ObserveOnce(arb, q, now);
      PlaceFrame(w.(rx := w.rx.(arbiter := Some(Observe(arb, q, now).0))), streamId, q, b);
    }
    hide Observe;
    hide Place;
    BlockStepFrame(w, streamId, q, b, now);
  }

  lemma {:induction false} BlocksSafe(w: Work, streamId: nat, first: nat, blocks: seq<Block>, i: nat, now: nat)
    requires Sized(w.rx) && Safe(w.rx) && w.rx.anchored && i <= |blocks| && first + |blocks| <= w.rx.nextUnseen
    ensures Safe(Blocks(w, streamId, first, blocks, i, now).0.rx)
    decreases |blocks| - i
  {
    hide BlockStep;
    hide Safe;
    if i < |blocks| {
      BlockSafe(w, streamId, first + i, blocks[i], now);
      BlockStepFrame(w, streamId, first + i, blocks[i], now);
      var (w1, full) := BlockStep(w, streamId, first + i, blocks[i], now);
      if !full {
        BlocksSafe(w1, streamId, first, blocks, i + 1, now);
      }
    }
  }

  lemma OpenGapSafe(rx: Rx, h: DownstreamHeader, now: nat)
    requires Safe(rx)
    ensures Safe(OpenGap(rx, h, now))
  {
    if rx.arbiter.Some? {
      StageIsSoundIff(rx.arbiter.value, rx.nextUnseen, h.sequence, now);
    }
    hide Sound;
  }

  lemma AcceptedSafe(rx: Rx, streamId: nat, d: Octets, h: DownstreamHeader, now: nat)
    requires Sized(rx) && Safe(rx) && rx.anchored && ParseHeader(d) == Ok(h) && Fits(h, 0)
    ensures Safe(ProcessAccepted(rx, streamId, d, h, now).0)
  {
    var blocks := ParseBlocks(d, HEADER_LEN, h.messageCount);
    if Kind(h) == Data && blocks.Ok? {
      BlocksInBounds(d, HEADER_LEN, h.messageCount);
      OpenGapSafe(rx, h, now);
      BlocksSafe(Work(OpenGap(rx, h, now), Owned(d), 0), streamId, h.sequence, blocks.value, 0, now);
    }
    hide Blocks;
    hide Sound;
    hide ParseBlocks;
  }

  /** Every turn, even one that refuses a message, leaves the arbiter sound: what the
      receiver stages was never forwarded, so no sequence is forwarded twice. */
  lemma TurnSafe(rx: Rx, now: nat)
    requires Sized(rx) && Safe(rx) && rx.pending != [] && NextFits(rx, 0)
    ensures Safe(Turn(rx, now).0)
  {
    hide ProcessAccepted;
    if Accepted(rx).Some? {
      var (h, accepted) := Accepted(rx).value;
      assert Safe(accepted);
      AcceptedSafe(accepted, rx.pending[0].0, rx.pending[0].1, h, now);
      var (out, r) := ProcessNext(rx, now);
      if out.arbiter.Some? {
        ConfirmIsSound(out.arbiter.value, now);
      }
    }
  }

  // ----------------------------------------------------- nothing unaccounted for

  /** Each sequence from the anchor to `limit` was forwarded, waits out the confirm
      window, or is a recorded gap; the arbiter knows of nothing else. */
  ghost predicate AccountedUpTo(rx: Rx, limit: nat) {
    rx.arbiter.Some? &&
    var a := rx.arbiter.value;
    && Sound(a)
    && rx.anchor <= a.base <= limit
    && (forall q :: q in a.forwarded ==> rx.anchor <= q < limit)
    && (forall q :: q in a.pending ==> rx.anchor <= q < limit)
    && (forall q: nat :: rx.anchor <= q < limit ==> q in a.forwarded || q in a.pending || q in rx.gaps)
  }

  /** Everything the arbiter forwarded was delivered or is held. */
  ghost predicate Kept(rx: Rx) {
    rx.arbiter.Some? && rx.anchor <= rx.ring.expected &&
    forall q :: q in rx.arbiter.value.forwarded ==> q < rx.ring.expected || q in rx.ring.held
  }

  lemma ObserveAccounts(rx: Rx, q: nat, now: nat, limit: nat)
    requires Sized(rx) && AccountedUpTo(rx, limit) && q <= limit
    ensures var (a, v) := Observe(rx.arbiter.value, q, now);
            && AccountedUpTo(rx.(arbiter := Some(a)), Max(limit, q + 1))
            && (v == Forward ==> q in a.forwarded)
            && a.forwarded == rx.arbiter.value.forwarded + (if v == Forward then iset{q} else iset{})
  {
    var a0 := rx.arbiter.value;
    ObserveForwardsOnce(a0, q, now);
    var (a, v) := Observe(a0, q, now);
    forall p: nat | rx.anchor <= p < Max(limit, q + 1) ensures p in a.forwarded || p in a.pending || p in rx.gaps {
      assert p < limit ==> p in a0.forwarded || p in a0.pending || p in rx.gaps;
    }
  }

  lemma PlaceKeeps(w: Work, streamId: nat, q: nat, b: Block)
    requires Sized(w.rx) && w.rx.arbiter.Some? && w.rx.anchor <= w.rx.ring.expected
    requires forall x :: x in w.rx.arbiter.value.forwarded ==> x == q || x < w.rx.ring.expected || x in w.rx.ring.held
    ensures var (out, full) := Place(w, streamId, q, b); full || Kept(out.rx)
  {
    DrainRemovesRun(w.rx.ring.(expected := w.rx.ring.expected + 1));
    hide Drained;
    PlaceFrame(w, streamId, q, b);
  }

  lemma BlockAccounts(w: Work, streamId: nat, q: nat, b: Block, now: nat, limit: nat)
    requires Sized(w.rx) && AccountedUpTo(w.rx, limit) && Kept(w.rx) && q <= limit
    ensures var (out, full) := BlockStep(w, streamId, q, b, now);
            AccountedUpTo(out.rx, Max(limit, q + 1)) && (full || Kept(out.rx))
  {
    hide Observe;
    ObserveAccounts(w.rx, q, now, limit);
    var (a, v) := Observe(w.rx.arbiter.value, q, now);
    var w1 := w.(rx := w.rx.(arbiter := Some(a)));
    if v == Forward {
      PlaceKeeps(w1, streamId, q, b);
      PlaceFrame(w1, streamId, q, b);
      PlaceGaps(w1, streamId, q, b);
    }
    hide Place;
  }

  lemma PlaceGaps(w: Work, streamId: nat, q: nat, b: Block)
    requires Sized(w.rx)
    ensures Place(w, streamId, q, b).0.rx.gaps == w.rx.gaps - iset{q}
  {
  }

  lemma {:induction false} BlocksAccount(w: Work, streamId: nat, first: nat, blocks: seq<Block>, i: nat, now: nat,
                                         limit: nat)
    requires Sized(w.rx) && AccountedUpTo(w.rx, limit) && Kept(w.rx) && i <= |blocks| && first + i <= limit
    ensures var (out, full) := Blocks(w, streamId, first, blocks, i, now);
            full || (AccountedUpTo(out.rx, Max(limit, first + |blocks|)) && Kept(out.rx))
    decreases |blocks| - i
  {
    hide BlockStep;
    hide AccountedUpTo;
    hide Kept;
    if i < |blocks| {
      BlockAccounts(w, streamId, first + i, blocks[i], now, limit);
      BlockStepFrame(w, streamId, first + i, blocks[i], now);
      var (w1, full) := BlockStep(w, streamId, first + i, blocks[i], now);
      if !full {
        BlocksAccount(w1, streamId, first, blocks, i + 1, now, Max(limit, first + i + 1));
      }
    }
  }

  /** Account of a receiver at rest. */
  ghost predicate Accounted(rx: Rx) {
    rx.arbiter.Some? && (rx.anchored ==> AccountedUpTo(rx, rx.nextUnseen) && Kept(rx))
  }

  lemma StageAccounts(rx: Rx, h: DownstreamHeader, now: nat)
    requires Accounted(rx) && rx.anchored && Kind(h) == Data && Fits(h, 0)
    ensures AccountedUpTo(OpenGap(rx, h, now), Max(rx.nextUnseen, h.sequence)) && Kept(OpenGap(rx, h, now))
    ensures OpenGap(rx, h, now).nextUnseen == Max(rx.nextUnseen, h.sequence + h.messageCount)
  {
    StageIsSoundIff(rx.arbiter.value, rx.nextUnseen, h.sequence, now);
  }

  lemma DataAccounts(rx: Rx, streamId: nat, d: Octets, h: DownstreamHeader, blocks: seq<Block>, now: nat)
    requires Sized(rx) && Accounted(rx) && rx.anchored && Kind(h) == Data && Fits(h, 0) && |blocks| == h.messageCount
    ensures var (out, r) := ProcessData(rx, streamId, d, h, blocks, now); r.Err? || Accounted(out)
  {
    StageAccounts(rx, h, now);
    var w := Work(OpenGap(rx, h, now), Owned(d), 0);
    var limit := Max(rx.nextUnseen, h.sequence);
    hide Blocks;
    hide OpenGap;
    hide Sound;
    assert Sized(w.rx) by { OpenGapSized(rx, h, now); }
    BlocksAccount(w, streamId, h.sequence, blocks, 0, now, limit);
    BlocksFrame(w, streamId, h.sequence, blocks, 0, now);
    var done := Blocks(w, streamId, h.sequence, blocks, 0, now).0;
    OpenGapSized(rx, h, now);
  }

  lemma OpenGapSized(rx: Rx, h: DownstreamHeader, now: nat)
    requires Sized(rx)
    ensures Sized(OpenGap(rx, h, now)) && OpenGap(rx, h, now).anchored == rx.anchored
    ensures OpenGap(rx, h, now).arbiter.Some? == rx.arbiter.Some?
  {
  }

  lemma AcceptedAccounts(rx: Rx, streamId: nat, d: Octets, h: DownstreamHeader, now: nat)
    requires Sized(rx) && Accounted(rx) && rx.anchored && ParseHeader(d) == Ok(h) && Fits(h, 0)
    ensures var (out, r) := ProcessAccepted(rx, streamId, d, h, now);
            (r != Err(BufferFull) ==> Accounted(out)) && out.anchored
  {
    hide ProcessData;
    AcceptedFrame(rx, streamId, d, h, now);
    var blocks := ParseBlocks(d, HEADER_LEN, h.messageCount);
    if Kind(h) == Data && blocks.Ok? {
      BlocksInBounds(d, HEADER_LEN, h.messageCount);
      DataAccounts(rx, streamId, d, h, blocks.value, now);
      DataErrors(rx, streamId, d, h, blocks.value, now);
    }
  }

  lemma DataErrors(rx: Rx, streamId: nat, d: Octets, h: DownstreamHeader, blocks: seq<Block>, now: nat)
    requires Sized(rx)
    ensures ProcessData(rx, streamId, d, h, blocks, now).1 in {Ok(()), Err(BufferFull)}
  {
  }

  lemma ConfirmAccounts(rx: Rx, now: nat)
    requires Accounted(rx) && rx.anchored
    ensures Accounted(DrainConfirmed(rx, now))
  {
    ConfirmIsSound(rx.arbiter.value, now);
    var out := DrainConfirmed(rx, now);
    forall q: nat | rx.anchor <= q < rx.nextUnseen
      ensures q in out.arbiter.value.forwarded || q in out.arbiter.value.pending || q in out.gaps
    {
    }
  }

  /** A turn that refuses no message keeps every sequence accounted for. */
  lemma TurnAccounts(rx: Rx, now: nat)
    requires Sized(rx) && Accounted(rx) && rx.pending != [] && NextFits(rx, 0)
    ensures Turn(rx, now).1 != Err(BufferFull) ==> Accounted(Turn(rx, now).0)
  {
    hide ProcessAccepted;
    hide DrainConfirmed;
    assert Accounted(Popped(rx));
    if Accepted(rx).Some? {
      var (h, accepted) := Accepted(rx).value;
      assert Accounted(accepted) && Sized(accepted);
      AcceptedAccounts(accepted, rx.pending[0].0, rx.pending[0].1, h, now);
      var (out, r) := ProcessNext(rx, now);
      if r.Ok? {
        ConfirmAccounts(out, now);
      }
    }
  }

  // --------------------------------------------------------------- whole runs

  lemma SameAccount(a: Rx, b: Rx)
    requires SameTracking(a, b)
    ensures (Safe(a) <==> Safe(b)) && (Accounted(a) <==> Accounted(b))
  {
  }

  lemma {:induction false} PumpAccounts(rx: Rx, bursts: seq<Burst>, clock: nat -> nat, k: nat)
    requires Sized(rx) && Safe(rx) && TurnsFit(PumpTurns(rx, bursts, clock, k), 0)
    ensures var (out, r) := Pump(rx, bursts, clock, k);
            && Safe(out) && out.arbiter.Some? == rx.arbiter.Some?
            && (Accounted(rx) && r != Err(BufferFull) ==> Accounted(out))
    decreases |bursts|, |rx.pending|
  {
    hide Turn;
    hide PollSources;
    hide NextFits;
    hide Accounted;
    hide Safe;
    if rx.ready == [] && rx.pending != [] {
      TurnFrame(rx, clock(k));
      assert rx in PumpTurns(rx, bursts, clock, k);
      TurnSafe(rx, clock(k));
      if Accounted(rx) {
        TurnAccounts(rx, clock(k));
      }
      var (rx1, r) := Turn(rx, clock(k));
      if r.Ok? {
        PumpAccounts(rx1, bursts, clock, k + 1);
      }
    } else if rx.ready == [] && bursts != [] {
      var (rx1, r) := PollSources(rx, bursts[0]);
      SourcesTrack(rx, bursts[0]);
      SameAccount(rx, rx1);
      if r.Ok? && rx1.pending != [] {
        PumpAccounts(rx1, bursts[1..], clock, k);
      }
    }
  }

  lemma PollAccounts(rx: Rx, c: Call)
    requires Sized(rx) && Safe(rx) && TurnsFit(PollTurns(rx, c), 0)
    ensures var (out, o) := Poll(rx, c);
            && Safe(out) && out.arbiter.Some? == rx.arbiter.Some?
            && (Accounted(rx) && o != Failed(BufferFull) ==> Accounted(out))
  {
    hide Pump;
    hide PumpTurns;
    hide TurnsFit;
    hide Safe;
    hide Accounted;
    SameAccount(rx, Retire(rx));
    PumpAccounts(Retire(rx), c.bursts, c.clock, 0);
    var (rx1, r) := Pump(Retire(rx), c.bursts, c.clock, 0);
    SameAccount(rx1, Poll(rx, c).0);
  }

  lemma {:induction false} RunAccounts(rx0: Rx, calls: seq<Call>)
    requires Sized(rx0) && Safe(rx0) && TurnsFit(RunTurns(rx0, calls), 0)
    ensures var (rx, outs) := AfterPolls(rx0, calls);
            && Safe(rx) && rx.arbiter.Some? == rx0.arbiter.Some?
            && (Accounted(rx0) && NeverFull(outs) ==> Accounted(rx))
    decreases |calls|
  {
    hide Poll;
    hide PollTurns;
    hide TurnsFit;
    hide Safe;
    hide Accounted;
    if calls != [] {
      TurnsFitSplit(rx0, calls, 0);
      var (init, c) := (calls[..|calls| - 1], calls[|calls| - 1]);
      var (before, outs) := AfterPolls(rx0, init);
      assert AfterPolls(rx0, calls) == (Poll(before, c).0, outs + [Poll(before, c).1]);
      assert NeverFull(outs + [Poll(before, c).1]) ==> NeverFull(outs) && Poll(before, c).1 != Failed(BufferFull);
      RunAccounts(rx0, init);
      PollAccounts(before, c);
    }
  }

  lemma RunIsSafe(legs: nat, start: Option<nat>, grace: nat, capacity: nat, calls: seq<Call>)
    requires legs > 1 && capacity > 0 && RunFits(legs, start, grace, capacity, calls)
    ensures var (rx, outs) := AfterPolls(Initial(legs, start, grace, capacity), calls);
            rx.arbiter.Some? && Safe(rx) && (NeverFull(outs) ==> Accounted(rx))
  {
    hide AfterPolls;
    hide RunTurns;
    hide TurnsFit;
    var rx0 := Initial(legs, start, grace, capacity);
    assert Safe(rx0) && Accounted(rx0) && Sized(rx0);
    FitWithLess(RunTurns(rx0, calls), RoomFor(legs, capacity), 0);
    RunAccounts(rx0, calls);
  }

  /** Over every run of several legs, even one that refuses messages, no two Forward
      verdicts of the arbiter are about the same sequence, and every sequence it forwarded
      was one of them. */
  lemma ForwardedOnce(legs: nat, start: Option<nat>, grace: nat, capacity: nat, calls: seq<Call>, i: nat, j: nat)
    requires legs > 1 && capacity > 0 && RunFits(legs, start, grace, capacity, calls)
    ensures var a := AfterPolls(Initial(legs, start, grace, capacity), calls).0.arbiter;
            && a.Some? && (i < j < |a.value.log| ==> a.value.log[i] != a.value.log[j])
            && forall q :: q in a.value.forwarded <==> q in a.value.log
  {
    hide AfterPolls;
    hide Initial;
    RunIsSafe(legs, start, grace, capacity, calls);
  }

  /** For every run of several legs: no sequence staged as a gap was ever forwarded. If
      moreover no datagram holds a message that the ring refuses in the state it meets,
      each sequence from the anchor to the highest seen was forwarded, waits out the
      confirm window or is a recorded gap, and each one not yet delivered is held, waits or
      is a recorded gap. */
  lemma SeveralLegsAccounted(legs: nat, start: Option<nat>, grace: nat, capacity: nat, calls: seq<Call>)
    requires legs > 1 && capacity > 0 && RunFits(legs, start, grace, capacity, calls)
    ensures var rx0 := Initial(legs, start, grace, capacity);
            var rx := AfterPolls(rx0, calls).0;
            && rx.arbiter.Some?
            && var a := rx.arbiter.value;
            && (forall q :: q in a.forwarded ==> q !in a.pending)
            && (NoneRefusing(RunTurns(rx0, calls)) && rx.anchored ==>
                  && (forall q: nat :: rx.anchor <= q < rx.nextUnseen ==>
                        q in a.forwarded || q in a.pending || q in rx.gaps)
                  && (forall q: nat :: rx.ring.expected <= q < rx.nextUnseen ==>
                        q in rx.ring.held || q in a.pending || q in rx.gaps))
  {
    hide AfterPolls;
    hide RunTurns;
    hide NoneRefusing;
    var rx0 := Initial(legs, start, grace, capacity);
    RunIsSafe(legs, start, grace, capacity, calls);
    RunRefusedIff(rx0, calls);
  }
}
