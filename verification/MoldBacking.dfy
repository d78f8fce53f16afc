/** The datagram behind inline items, for every run over any datagrams at all, genuine or
    not: the counter is the inline items queued or handed out, their datagram is kept
    while any remain, and no poll slices outside it. */
module MoldBacking {
  import opened Octets
  import opened MoldWire
  import opened GapTracking
  import opened Reassembly
  import opened Arbiter
  import opened MoldReceiver
  import opened MoldOrder
  import opened MoldRefusals
  import opened MoldBounds

  predicate ViewFits(v: MessageView) {
    v.offset + v.len <= |v.datagram|
  }

  /** Handing out `item` stays inside its datagram. */
  predicate ItemFits(item: ReadyItem, held: Octets) {
    match item
    case Inline(_, _, offset, len) => offset + len <= |held|
    case View(view, _, _) => ViewFits(view)
    case _ => true
  }

  ghost predicate ItemsFit(items: seq<ReadyItem>, held: Octets) {
    forall i :: 0 <= i < |items| ==> ItemFits(items[i], held)
  }

  ghost predicate RingFits(ring: Reorder<MessageView>) {
    forall q :: q in ring.held ==> ViewFits(ring.held[q])
  }

  lemma {:induction false} InlinesConcat(a: seq<ReadyItem>, b: seq<ReadyItem>)
    ensures Inlines(a + b) == Inlines(a) + Inlines(b)
    decreases |a|
  {
    if a == [] {
      assert a + b == b;
    } else {
      InlinesConcat(a[1..], b);
      assert (a + b)[1..] == a[1..] + b;
    }
  }

  lemma {:induction false} NoInline(items: seq<ReadyItem>)
    requires forall i :: 0 <= i < |items| ==> !items[i].Inline?
    ensures Inlines(items) == 0
    decreases |items|
  {
    if items != [] {
      NoInline(items[1..]);
    }
  }

  lemma {:induction false} Inlineless(items: seq<ReadyItem>, held: Octets, other: Octets)
    requires Inlines(items) == 0 && ItemsFit(items, held)
    ensures ItemsFit(items, other)
    decreases |items|
  {
    if items != [] {
      Inlineless(items[1..], held, other);
      assert forall i :: 1 <= i < |items| ==> items[i] == items[1..][i - 1];
    }
  }

  // ------------------------------------------------------------- one datagram

  /** A decode of `d` under way. */
  ghost predicate WorkFits(w: Work, d: Octets) {
    w.backing.held == d && RingFits(w.rx.ring) && ItemsFit(w.rx.ready, d) && Inlines(w.rx.ready) == w.inline
  }

  lemma DrainFits(rx: Rx, first: nat, streamId: nat, d: Octets)
    requires RingFits(rx.ring) && ItemsFit(rx.ready, d)
    ensures var out := DrainTo(rx, first, streamId);
            && RingFits(out.ring) && ItemsFit(out.ready, d) && Inlines(out.ready) == Inlines(rx.ready)
            && rx.ring.expected <= out.ring.expected
  {
    DrainRemovesRun(rx.ring);
    var (ring, run) := Drained(rx.ring);
    hide Drained;
    var views := Views(run, first, streamId);
    forall i | 0 <= i < |run| ensures ViewFits(run[i]) {
      assert run[(rx.ring.expected + i) - rx.ring.expected] == rx.ring.held[rx.ring.expected + i];
    }
    NoInline(views);
    InlinesConcat(rx.ready, views);
  }

  lemma InlineFits(w: Work, streamId: nat, q: nat, b: Block, d: Octets)
    requires WorkFits(w, d) && InBounds(d, b) && q == w.rx.ring.expected
    ensures WorkFits(DeliverInline(w, streamId, q, b), d)
  {
    hide DrainTo;
    var item := Inline(q, streamId, b.offset, b.len);
    var rx := w.rx.(ring := w.rx.ring.(expected := q + 1), ready := w.rx.ready + [item]);
    assert [item][1..] == [] && Inlines([item]) == 1;
    InlinesConcat(w.rx.ready, [item]);
    DrainFits(rx, q + 1, streamId, d);
  }

  lemma BlockFits(w: Work, streamId: nat, q: nat, b: Block, now: nat, d: Octets)
    requires Sized(w.rx) && WorkFits(w, d) && InBounds(d, b)
    ensures WorkFits(BlockStep(w, streamId, q, b, now).0, d)
  {
    hide Inlines;
    hide Observe;
    var w0 := w;
    if w.rx.arbiter.Some? {
      w0 := w.(rx := w.rx.(arbiter := Some(Observe(w.rx.arbiter.value, q, now).0)));
    }
    var w1 := w0.(rx := w0.rx.(gaps := w0.rx.gaps - iset{q}));
    if q == w.rx.ring.expected {
      InlineFits(w1, streamId, q, b, d);
    }
  }

  lemma {:induction false} BlocksFit(w: Work, streamId: nat, first: nat, blocks: seq<Block>, i: nat, now: nat,
                                     d: Octets)
    requires Sized(w.rx) && i <= |blocks| && WorkFits(w, d)
    requires forall j :: 0 <= j < |blocks| ==> InBounds(d, blocks[j])
    ensures WorkFits(Blocks(w, streamId, first, blocks, i, now).0, d)
    decreases |blocks| - i
  {
    hide BlockStep;
    hide WorkFits;
    if i < |blocks| {
      BlockFits(w, streamId, first + i, blocks[i], now, d);
      BlockStepFrame(w, streamId, first + i, blocks[i], now);
      var (w1, full) := BlockStep(w, streamId, first + i, blocks[i], now);
      if !full {
        BlocksFit(w1, streamId, first, blocks, i + 1, now, d);
      }
    }
  }

  // ----------------------------------------------------------------- receiver

  /** The counter is the inline items queued or handed out; the backing is released
      exactly when there are none, and while there are, it is the datagram decoded last
      and covers each of them. */
  ghost predicate Backed(rx: Rx) {
    && Orderly(rx) && RingFits(rx.ring)
    && rx.inlinePending == Inlines(rx.ready) + InlineOut(rx)
    && (rx.inlinePending == 0 ==> rx.backing == EMPTY_BACKING)
    && (rx.inlinePending > 0 ==> rx.seen != [] && rx.backing.held == rx.seen[|rx.seen| - 1])
    && ItemsFit(rx.ready, rx.backing.held)
  }

  /** Nothing handed out and nothing queued. */
  ghost predicate AtRest(rx: Rx) {
    Backed(rx) && rx.ready == [] && rx.current.None?
  }

  lemma RetireBacked(rx: Rx)
    requires Backed(rx)
    ensures Backed(Retire(rx)) && Retire(rx).current.None?
  {
    if InlineOut(rx) == 1 && Inlines(rx.ready) == 0 {
      Inlineless(rx.ready, rx.backing.held, []);
    }
  }

  /** What decoding a datagram leaves: everything fits, and inline items behind a refusal
      are left exactly when the state before strands one. */
  lemma DecodedFits(rx: Rx, streamId: nat, d: Octets, h: DownstreamHeader, blocks: seq<Block>, now: nat)
    requires AtRest(rx) && forall j :: 0 <= j < |blocks| ==> InBounds(d, blocks[j])
    ensures var (done, full) := Decoded(rx, streamId, d, h, blocks, now);
            && WorkFits(done, d) && Ahead(done.rx.ring) && Sized(done.rx) && SameShell(OpenGap(rx, h, now), done.rx)
            && (full && done.inline > 0 <==> Strands(rx, h.sequence, |blocks|))
    ensures rx.arbiter.None? ==> !Strands(rx, h.sequence, |blocks|)
  {
    hide Blocks;
    hide Strands;
    hide SomeRefused;
    var noted := OpenGap(rx, h, now);
    assert noted.ready == [] || noted.ready == [GapItem];
    NoInline(noted.ready);
    var w := Work(noted, Owned(d), 0);
    BlocksFit(w, streamId, h.sequence, blocks, 0, now, d);
    BlocksFrame(w, streamId, h.sequence, blocks, 0, now);
    BlocksAhead(w, streamId, h.sequence, blocks, 0, now);
    DataRefusedIff(rx, streamId, d, h, blocks, now);
    if rx.arbiter.None? {
      OneLegRefusedIff(rx, h.sequence, |blocks|);
    }
  }

  /** A datagram leaves the backing right exactly when the state before it does not strand
      an inline item: the next message in order gets through with it, and a later one is
      refused. On one leg that cannot happen. */
  lemma DataBackedIff(rx: Rx, streamId: nat, d: Octets, h: DownstreamHeader, blocks: seq<Block>, now: nat)
    requires AtRest(rx) && rx.anchored && rx.seen != [] && rx.seen[|rx.seen| - 1] == d
    requires forall j :: 0 <= j < |blocks| ==> InBounds(d, blocks[j])
    ensures Backed(ProcessData(rx, streamId, d, h, blocks, now).0) <==> !Strands(rx, h.sequence, |blocks|)
    ensures rx.arbiter.None? ==> !Strands(rx, h.sequence, |blocks|)
  {
    hide Blocks;
    hide Strands;
    DecodedFits(rx, streamId, d, h, blocks, now);
    var (done, full) := Decoded(rx, streamId, d, h, blocks, now);
    if done.inline == 0 {
      Inlineless(done.rx.ready, d, rx.backing.held);
    }
    hide Ahead;
    hide ItemsFit;
    hide RingFits;
  }

  /** Items that are neither inline nor views change nothing. */
  lemma OthersBacked(rx: Rx, out: Rx, items: seq<ReadyItem>)
    requires Backed(rx) && (forall i :: 0 <= i < |items| ==> !IsFrame(items[i]))
    requires out.ready == rx.ready + items && out.ring == rx.ring && out.current == rx.current && out.seen == rx.seen
    requires out.anchored == rx.anchored
    requires out.backing == rx.backing && out.inlinePending == rx.inlinePending && Sized(out)
    ensures Backed(out)
  {
    NoInline(items);
    InlinesConcat(rx.ready, items);
  }

  lemma TailGapBacked(rx: Rx, nextExpected: nat, item: ReadyItem)
    requires Backed(rx) && !IsFrame(item)
    ensures var noted := NoteTailGap(rx, nextExpected); Backed(noted.(ready := noted.ready + [item]))
  {
    hide Backed;
    assert Sized(rx) by { SizedOf(rx); }
    var noted := NoteTailGap(rx, nextExpected);
    if nextExpected > rx.nextUnseen {
      OthersBacked(rx, noted, [GapItem]);
    }
    OthersBacked(noted, noted.(ready := noted.ready + [item]), [item]);
  }

  lemma SizedOf(rx: Rx)
    requires Backed(rx)
    ensures Sized(rx)
  {
  }

  lemma AcceptedBackedIff(rx: Rx, streamId: nat, d: Octets, h: DownstreamHeader, now: nat)
    requires AtRest(rx) && rx.anchored && rx.seen != [] && rx.seen[|rx.seen| - 1] == d && ParseHeader(d) == Ok(h)
    ensures HEADER_LEN <= |d|
    ensures var stranded := Kind(h) == Data && ParseBlocks(d, HEADER_LEN, h.messageCount).Ok?
                            && Strands(rx, h.sequence, h.messageCount);
            && (Backed(ProcessAccepted(rx, streamId, d, h, now).0) <==> !stranded)
            && (rx.arbiter.None? ==> !stranded)
  {
    assert HEADER_LEN <= |d|;
    hide ProcessData;
    hide ParseBlocks;
    hide ParseHeader;
    hide Strands;
    match Kind(h)
    case Heartbeat => TailGapBacked(rx, h.sequence, EventItem(HeartbeatSeen(h.sequence)));
    case EndOfSession => TailGapBacked(rx, h.sequence, EventItem(SessionEnded(h.sequence)));
    case Data =>
      var blocks := ParseBlocks(d, HEADER_LEN, h.messageCount);
      if blocks.Ok? {
        BlocksInBounds(d, HEADER_LEN, h.messageCount);
        DataBackedIff(rx, streamId, d, h, blocks.value, now);
      }
  }

  lemma ProcessBackedIff(rx: Rx, now: nat)
    requires AtRest(rx) && rx.pending != []
    ensures Backed(ProcessNext(rx, now).0) <==> !Stranding(rx)
    ensures rx.arbiter.None? ==> !Stranding(rx)
  {
    hide ProcessAccepted;
    hide ParseHeader;
    hide Strands;
    var (streamId, d) := rx.pending[0];
    assert AtRest(Popped(rx));
    if Accepted(rx).Some? {
      var (h, accepted) := Accepted(rx).value;
      assert AtRest(accepted);
      AcceptedBackedIff(accepted, streamId, d, h, now);
    }
  }

  /** A turn leaves the backing right exactly when its datagram strands nothing, told from
      the state before. */
  lemma TurnBackedIff(rx: Rx, now: nat)
    requires AtRest(rx) && rx.pending != []
    ensures Backed(Turn(rx, now).0) <==> !Stranding(rx)
    ensures Turn(rx, now).0.current.None? && (Turn(rx, now).0.arbiter.None? <==> rx.arbiter.None?)
    ensures Stranding(rx) ==> Turn(rx, now).1 == Err(BufferFull)
    ensures rx.arbiter.None? ==> !Stranding(rx)
  {
    TurnFrame(rx, now);
    ProcessBackedIff(rx, now);
    StrandingRefuses(rx);
    TurnRefusedIff(rx, now);
    hide ProcessNext;
    hide Backed;
    hide Stranding;
    hide Refusing;
    var (out, r) := ProcessNext(rx, now);
    if r.Ok? && out.arbiter.Some? && Backed(out) {
      SizedOf(out);
      OthersBacked(out, DrainConfirmed(out, now), Repeat(GapItem, |Due(out.arbiter.value, now)|));
    }
  }

  lemma {:induction false} PumpBackedIff(rx: Rx, bursts: seq<Burst>, clock: nat -> nat, k: nat)
    requires Backed(rx) && rx.current.None?
    ensures Sized(rx)
    ensures var (out, r) := Pump(rx, bursts, clock, k);
            var fine := NoneStranding(PumpTurns(rx, bursts, clock, k));
            && (Backed(out) <==> fine) && (r.Ok? ==> fine) && (rx.arbiter.None? ==> fine)
            && out.current.None? && (out.arbiter.None? <==> rx.arbiter.None?)
    decreases |bursts|, |rx.pending|
  {
    SizedOf(rx);
    hide Turn;
    hide Stranding;
    if rx.ready == [] && rx.pending != [] {
      TurnBackedIff(rx, clock(k));
      TurnFrame(rx, clock(k));
      hide Backed;
      var (rx1, r) := Turn(rx, clock(k));
      if r.Ok? {
        PumpBackedIff(rx1, bursts, clock, k + 1);
        var rest := PumpTurns(rx1, bursts, clock, k + 1);
        assert PumpTurns(rx, bursts, clock, k) == [rx] + rest;
        assert forall s :: s in [rx] + rest <==> s == rx || s in rest;
      }
    } else if rx.ready == [] && bursts != [] {
      var (rx1, r) := PollSources(rx, bursts[0]);
      assert Backed(rx1);
      if r.Ok? && rx1.pending != [] {
        PumpBackedIff(rx1, bursts[1..], clock, k);
      }
    }
  }

  lemma YieldBacked(rx: Rx, owned: bool)
    requires Backed(rx) && rx.current.None? && rx.ready != []
    ensures var rest := rx.(ready := rx.ready[1..]);
            var (out, o) := if owned then YieldOwned(rest, rx.ready[0]) else YieldItem(rest, rx.ready[0]);
            Backed(out) && StaysInside([o]) && out.arbiter == rx.arbiter
  {
    assert ItemFits(rx.ready[0], rx.backing.held);
    assert ItemsFit(rx.ready[1..], rx.backing.held);
    if owned && rx.ready[0].Inline? && Inlines(rx.ready[1..]) == 0 {
      Inlineless(rx.ready[1..], rx.backing.held, []);
    }
  }

  lemma PollBackedIff(rx: Rx, c: Call)
    requires Backed(rx)
    ensures Sized(rx)
    ensures var (out, o) := Poll(rx, c);
            var fine := NoneStranding(PollTurns(rx, c));
            && (Backed(out) <==> fine) && (rx.arbiter.None? ==> fine)
            && (out.arbiter.None? <==> rx.arbiter.None?) && StaysInside([o])
  {
    SizedOf(rx);
    RetireBacked(rx);
    var rx0 := Retire(rx);
    PumpBackedIff(rx0, c.bursts, c.clock, 0);
    hide Pump;
    hide PumpTurns;
    hide NoneStranding;
    hide Backed;
    var (rx1, r) := Pump(rx0, c.bursts, c.clock, 0);
    if r.Ok? && rx1.ready != [] {
      YieldBacked(rx1, c.owned);
    }
  }

  /** The backing was right after every poll of the run. */
  ghost predicate BackedThroughout(rx0: Rx, calls: seq<Call>)
    requires Sized(rx0)
  {
    Backed(AfterPolls(rx0, calls).0) && (calls != [] ==> BackedThroughout(rx0, calls[..|calls| - 1]))
  }

  lemma {:induction false} RunBackedIff(rx0: Rx, calls: seq<Call>)
    requires Backed(rx0)
    ensures Sized(rx0)
    ensures var fine := NoneStranding(RunTurns(rx0, calls));
            && (BackedThroughout(rx0, calls) <==> fine)
            && (fine ==> StaysInside(AfterPolls(rx0, calls).1))
            && (rx0.arbiter.None? ==> fine && AfterPolls(rx0, calls).0.arbiter.None?)
    decreases |calls|
  {
    SizedOf(rx0);
    hide Backed;
    hide Poll;
    hide PollTurns;
    hide Stranding;
    if calls != [] {
      var (init, c) := (calls[..|calls| - 1], calls[|calls| - 1]);
      var (before, outs) := AfterPolls(rx0, init);
      RunBackedIff(rx0, init);
      var (earlier, turns) := (RunTurns(rx0, init), PollTurns(before, c));
      assert RunTurns(rx0, calls) == earlier + turns && AfterPolls(rx0, calls).1 == outs + [Poll(before, c).1];
      assert forall s :: s in earlier + turns <==> s in earlier || s in turns;
      if NoneStranding(earlier) {
        PollBackedIff(before, c);
      }
    }
  }

  /** Over any datagrams that leave room below 2^64, genuine or not, and any number of legs:
      after every poll the inline counter is exact, the backing is the last datagram and
      covers every inline item while any remain, and it is released exactly when none do,
      if and only if no datagram strands an inline item in the state it meets. Then no poll
      panics. On one leg none ever does. */
  lemma BackedIffNoneStranding(legs: nat, start: Option<nat>, grace: nat, capacity: nat, calls: seq<Call>)
    requires legs > 0 && capacity > 0 && RunFits(legs, start, grace, capacity, calls)
    ensures var rx0 := Initial(legs, start, grace, capacity);
            var fine := NoneStranding(RunTurns(rx0, calls));
            && (BackedThroughout(rx0, calls) <==> fine)
            && (fine ==> StaysInside(AfterPolls(rx0, calls).1))
            && (legs == 1 ==> fine)
  {
    var rx0 := Initial(legs, start, grace, capacity);
    assert Backed(rx0);
    RunBackedIff(rx0, calls);
  }
}
