/** When the reorder ring refuses a message, told from the state before its datagram. */
module MoldRefusals {
  import opened Octets
  import opened MoldWire
  import opened GapTracking
  import opened Reassembly
  import opened Arbiter
  import opened MoldReceiver

  // ------------------------------------------------------- what gets through

  /** The arbiter would forward `q`. */
  ghost predicate Forwards(a: Arb, q: nat) {
    if q < a.base then q in a.pending else q !in a.forwarded
  }

  lemma ObserveForwardsIff(a: Arb, q: nat, now: nat)
    requires a.capacity > 0
    ensures Observe(a, q, now).1 == Forward <==> Forwards(a, q)
    ensures forall later :: q < later ==> (Forwards(Observe(a, q, now).0, later) <==> Forwards(a, later))
  {
  }

  lemma StageForwardsSame(a: Arb, start: nat, end: nat, now: nat)
    ensures forall later :: end <= later ==> (Forwards(Stage(a, start, end, now), later) <==> Forwards(a, later))
  {
  }

  /** With one leg every message gets through, with several those the arbiter forwards. */
  ghost predicate GetsThrough(rx: Rx, q: nat) {
    rx.arbiter.Some? ==> Forwards(rx.arbiter.value, q)
  }

  /** `q` is one of the `n` messages from `first` on, and gets through. */
  ghost predicate Carried(rx: Rx, first: nat, n: nat, q: nat) {
    first <= q < first + n && GetsThrough(rx, q)
  }

  /** `p` is held already or comes with the datagram. */
  ghost predicate Filled(rx: Rx, first: nat, n: nat, p: nat) {
    p in rx.ring.held || Carried(rx, first, n, p)
  }

  /** Something between the next to deliver and `r` stays missing. */
  ghost predicate Behind(rx: Rx, first: nat, n: nat, r: nat) {
    exists p :: rx.ring.expected <= p < r && !Filled(rx, first, n, p)
  }

  ghost predicate SharesSlot(capacity: nat, q: nat, r: nat)
    requires capacity > 0
  {
    r != q && r % capacity == q % capacity
  }

  /** `r` takes a slot before `q` of the datagram comes, and keeps it. */
  ghost predicate Occupies(rx: Rx, first: nat, n: nat, q: nat, r: nat)
    requires rx.ring.capacity > 0
  {
    && SharesSlot(rx.ring.capacity, q, r)
    && Behind(rx, first, n, r)
    && (r in rx.ring.held || (r < q && Carried(rx, first, n, r)))
  }

  /** Message `q` finds its slot taken: it gets through, is not held, waits behind a
      missing one, and so does another sequence of its slot. */
  ghost predicate Refuses(rx: Rx, first: nat, n: nat, q: nat)
    requires rx.ring.capacity > 0
  {
    && Carried(rx, first, n, q) && q !in rx.ring.held && Behind(rx, first, n, q)
    && exists r :: Occupies(rx, first, n, q, r)
  }

  ghost predicate SomeRefused(rx: Rx, first: nat, n: nat)
    requires rx.ring.capacity > 0
  {
    exists q :: Refuses(rx, first, n, q)
  }

  /** What is held is ahead of the next to deliver. */
  ghost predicate Ahead(ring: Reorder<MessageView>) {
    forall q :: q in ring.held ==> ring.expected < q
  }

  // -------------------------------------------------------- block by block

  /** The ring after the first `i` messages of a datagram that `rx` met. */
  ghost predicate RingAfter(rx: Rx, first: nat, i: nat, ring: Reorder<MessageView>) {
    && ring.capacity == rx.ring.capacity
    && rx.ring.expected <= ring.expected
    && (forall p :: rx.ring.expected <= p < ring.expected ==> Filled(rx, first, i, p))
    && !Filled(rx, first, i, ring.expected)
    && (forall r :: r in ring.held <==> ring.expected < r && Filled(rx, first, i, r))
  }

  ghost predicate WorkAfter(rx: Rx, first: nat, i: nat, w: Work) {
    && RingAfter(rx, first, i, w.rx.ring)
    && (w.rx.arbiter.None? <==> rx.arbiter.None?)
    && (forall q :: first + i <= q ==> (GetsThrough(w.rx, q) <==> GetsThrough(rx, q)))
    && (w.inline > 0 <==> Carried(rx, first, i, rx.ring.expected))
  }

  lemma FilledGrows(rx: Rx, first: nat, i: nat, j: nat)
    requires j == i + 1
    ensures forall p :: Filled(rx, first, j, p) <==>
                        Filled(rx, first, i, p) || (p == first + i && GetsThrough(rx, p))
  {
  }

  lemma SkippedAfter(rx: Rx, first: nat, i: nat, ring: Reorder<MessageView>)
    requires RingAfter(rx, first, i, ring)
    requires !GetsThrough(rx, first + i) || first + i < ring.expected
    ensures RingAfter(rx, first, i + 1, ring)
  {
    FilledGrows(rx, first, i, i + 1);
    hide Filled;
  }

  lemma DeliveredAfter(rx: Rx, first: nat, i: nat, ring: Reorder<MessageView>)
    requires RingAfter(rx, first, i, ring) && GetsThrough(rx, first + i) && first + i == ring.expected
    ensures RingAfter(rx, first, i + 1, Drained(ring.(expected := first + i + 1)).0)
  {
    FilledGrows(rx, first, i, i + 1);
    DrainRemovesRun(ring.(expected := first + i + 1));
    hide Filled;
    hide Drained;
  }

  lemma HeldAfter(rx: Rx, first: nat, i: nat, ring: Reorder<MessageView>, view: MessageView)
    requires RingAfter(rx, first, i, ring) && GetsThrough(rx, first + i) && first + i > ring.expected
    requires ring.capacity > 0
    ensures var (out, inserted) := Placed(ring, first + i, view);
            && inserted != Ready
            && (inserted != Full ==> RingAfter(rx, first, i + 1, out))
  {
    FilledGrows(rx, first, i, i + 1);
    hide Filled;
    hide Blocked;
  }

  /** A missing sequence below `q` stays missing whatever comes after it. */
  lemma BehindIff(rx: Rx, first: nat, n: nat, i: nat, ring: Reorder<MessageView>, r: nat)
    requires RingAfter(rx, first, i, ring) && i < n && ring.expected < first + i
    ensures Behind(rx, first, n, r) <==> ring.expected < r
  {
    var x := ring.expected;
    assert !Filled(rx, first, n, x);
    assert forall p :: Filled(rx, first, i, p) ==> Filled(rx, first, n, p);
  }

  /** A message is refused by the ring as it stands then exactly when the state before the
      datagram says so. */
  lemma RefusedIff(rx: Rx, first: nat, n: nat, i: nat, ring: Reorder<MessageView>, view: MessageView)
    requires RingAfter(rx, first, i, ring) && i < n && ring.capacity > 0
    ensures Refuses(rx, first, n, first + i) <==>
            GetsThrough(rx, first + i) && first + i > ring.expected && Placed(ring, first + i, view).1 == Full
  {
    var q := first + i;
    if q <= ring.expected {
      NotBehind(rx, first, n, i, ring);
    } else {
      forall r ensures Occupies(rx, first, n, q, r) <==> SharesSlot(ring.capacity, q, r) && r in ring.held {
        BehindIff(rx, first, n, i, ring, r);
        EarlierCarried(rx, first, n, i, r);
      }
      BehindIff(rx, first, n, i, ring, q);
      hide Occupies;
      assert q in ring.held <==> q in rx.ring.held;
      assert Blocked(ring, q) <==> exists r :: Occupies(rx, first, n, q, r) by {
        assert forall r :: SharesSlot(ring.capacity, q, r) && r in ring.held <==> Occupies(rx, first, n, q, r);
      }
    }
  }

  lemma EarlierCarried(rx: Rx, first: nat, n: nat, i: nat, r: nat)
    requires i < n
    ensures r in rx.ring.held || (r < first + i && Carried(rx, first, n, r)) <==> Filled(rx, first, i, r)
  {
  }

  lemma NotBehind(rx: Rx, first: nat, n: nat, i: nat, ring: Reorder<MessageView>)
    requires RingAfter(rx, first, i, ring) && i < n && first + i <= ring.expected
    ensures !Behind(rx, first, n, first + i)
  {
    assert forall p :: Filled(rx, first, i, p) ==> Filled(rx, first, n, p);
  }

  lemma InlineAfter(rx: Rx, first: nat, i: nat, ring: Reorder<MessageView>)
    requires Ahead(rx.ring) && RingAfter(rx, first, i, ring)
    ensures var e := rx.ring.expected;
            && (e < ring.expected ==> Carried(rx, first, i, e))
            && (ring.expected == first + i && GetsThrough(rx, first + i) ==> Carried(rx, first, i + 1, e))
            && (!(ring.expected == first + i && GetsThrough(rx, first + i)) ==>
                  (Carried(rx, first, i + 1, e) <==> Carried(rx, first, i, e)))
  {
    var e := rx.ring.expected;
    assert e < ring.expected ==> Filled(rx, first, i, e);
  }

  /** One message that gets through. */
  lemma PlaceAfter(rx: Rx, first: nat, n: nat, i: nat, w: Work, streamId: nat, b: Block)
    requires rx.ring.capacity > 0 && w.rx.ring.capacity > 0 && Ahead(rx.ring) && i < n
    requires RingAfter(rx, first, i, w.rx.ring) && GetsThrough(rx, first + i)
    requires w.inline > 0 <==> Carried(rx, first, i, rx.ring.expected)
    ensures var (out, full) := Place(w, streamId, first + i, b);
            && (full <==> Refuses(rx, first, n, first + i))
            && (full ==> out.inline == w.inline)
            && (!full ==> RingAfter(rx, first, i + 1, out.rx.ring)
                          && (out.inline > 0 <==> Carried(rx, first, i + 1, rx.ring.expected)))
  {
    hide Refuses;
    hide RingAfter;
    hide Carried;
    hide GetsThrough;
    hide Placed;
    hide Drained;
    hide Views;
    var (q, ring) := (first + i, w.rx.ring);
    var view := MessageView(w.backing.held, b.offset, b.len);
    RefusedIff(rx, first, n, i, ring, view);
    InlineAfter(rx, first, i, ring);
    if q < ring.expected {
      SkippedAfter(rx, first, i, ring);
    } else if q == ring.expected {
      DeliveredAfter(rx, first, i, ring);
    } else {
      HeldAfter(rx, first, i, ring, view);
    }
  }

  /** One message, with its verdict. */
  lemma BlockAfter(rx: Rx, first: nat, n: nat, i: nat, w: Work, streamId: nat, b: Block, now: nat)
    requires Sized(rx) && Sized(w.rx) && Ahead(rx.ring) && WorkAfter(rx, first, i, w) && i < n
    ensures var (out, full) := BlockStep(w, streamId, first + i, b, now);
            && (full <==> Refuses(rx, first, n, first + i))
            && (full ==> out.inline == w.inline)
            && (!full ==> WorkAfter(rx, first, i + 1, out))
  {
    hide Refuses;
    hide RingAfter;
    hide Carried;
    hide Place;
    hide Observe;
    hide Forwards;
    var q := first + i;
    var w1 := w;
    if w.rx.arbiter.Some? {
      var a := w.rx.arbiter.value;
      ObserveForwardsIff(a, q, now);
      ObserveFrame(a, q, now);
      w1 := w.(rx := w.rx.(arbiter := Some(Observe(a, q, now).0)));
    }
    assert GetsThrough(w.rx, q) <==> GetsThrough(rx, q);
    if GetsThrough(rx, q) {
      PlaceFrame(w1, streamId, q, b);
      PlaceAfter(rx, first, n, i, w1, streamId, b);
    } else {
      SkippedAfter(rx, first, i, w.rx.ring);
      InlineAfter(rx, first, i, w.rx.ring);
      RefusedGetsThrough(rx, first, n, q);
    }
  }

  lemma RefusedGetsThrough(rx: Rx, first: nat, n: nat, q: nat)
    requires rx.ring.capacity > 0
    ensures Refuses(rx, first, n, q) ==> GetsThrough(rx, q)
  {
  }

  /** Some message from number `i` on is refused. */
  ghost predicate RefusedFrom(rx: Rx, first: nat, n: nat, i: nat)
    requires rx.ring.capacity > 0
  {
    exists q :: first + i <= q && Refuses(rx, first, n, q)
  }

  lemma {:induction false} BlocksRefusedIff(rx: Rx, first: nat, blocks: seq<Block>, i: nat, w: Work, streamId: nat,
                                            now: nat)
    requires Sized(rx) && Sized(w.rx) && Ahead(rx.ring) && i <= |blocks| && WorkAfter(rx, first, i, w)
    ensures var (out, full) := Blocks(w, streamId, first, blocks, i, now);
            && (full <==> RefusedFrom(rx, first, |blocks|, i))
            && (full ==> (out.inline > 0 <==> Carried(rx, first, |blocks|, rx.ring.expected)))
    decreases |blocks| - i
  {
    hide BlockStep;
    if i < |blocks| {
      BlockAfter(rx, first, |blocks|, i, w, streamId, blocks[i], now);
      BlockStepFrame(w, streamId, first + i, blocks[i], now);
      var (w1, full) := BlockStep(w, streamId, first + i, blocks[i], now);
      if !full {
        BlocksRefusedIff(rx, first, blocks, i + 1, w1, streamId, now);
      }
    }
  }

  /** An inline item will be queued and a later message refused: the item is left without
      its datagram. */
  ghost predicate Strands(rx: Rx, first: nat, n: nat)
    requires rx.ring.capacity > 0
  {
    Carried(rx, first, n, rx.ring.expected) && SomeRefused(rx, first, n)
  }

  /** The datagram's blocks as decoded from `rx`. */
  ghost function Decoded(rx: Rx, streamId: nat, d: Octets, h: DownstreamHeader, blocks: seq<Block>,
                         now: nat): (Work, bool)
    requires Sized(rx)
  {
    Blocks(Work(OpenGap(rx, h, now), Owned(d), 0), streamId, h.sequence, blocks, 0, now)
  }

  /** A datagram is refused exactly when some message of it is, told beforehand; and the
      work it leaves behind has inline items exactly when it strands one. */
  lemma DataRefusedIff(rx: Rx, streamId: nat, d: Octets, h: DownstreamHeader, blocks: seq<Block>, now: nat)
    requires Sized(rx) && Ahead(rx.ring)
    ensures ProcessData(rx, streamId, d, h, blocks, now).1 == Err(BufferFull) <==> SomeRefused(rx, h.sequence, |blocks|)
    ensures var (w, full) := Decoded(rx, streamId, d, h, blocks, now);
            full && w.inline > 0 <==> Strands(rx, h.sequence, |blocks|)
  {
    var w := Work(OpenGap(rx, h, now), Owned(d), 0);
    if rx.arbiter.Some? {
      StageForwardsSame(rx.arbiter.value, rx.nextUnseen, h.sequence, now);
    }
    BlocksRefusedIff(rx, h.sequence, blocks, 0, w, streamId, now);
    hide Blocks;
    hide Refuses;
    assert RefusedFrom(rx, h.sequence, |blocks|, 0) <==> SomeRefused(rx, h.sequence, |blocks|) by {
      assert forall q: nat :: Refuses(rx, h.sequence, |blocks|, q) ==> h.sequence <= q by {
        RefusedIsCarried(rx, h.sequence, |blocks|);
      }
    }
  }

  lemma RefusedIsCarried(rx: Rx, first: nat, n: nat)
    requires rx.ring.capacity > 0
    ensures forall q: nat :: Refuses(rx, first, n, q) ==> first <= q < first + n && rx.ring.expected < q
  {
  }

  /** On one leg: the datagram is ahead of order, and some message of it that is not held
      shares its slot with a held one or an earlier one of the datagram. So no message
      follows an inline one that is refused. */
  lemma OneLegRefusedIff(rx: Rx, first: nat, n: nat)
    requires rx.ring.capacity > 0 && rx.arbiter.None? && Ahead(rx.ring)
    ensures SomeRefused(rx, first, n) <==> rx.ring.expected < first && exists q, r :: Clashes(rx, first, n, q, r)
    ensures !Strands(rx, first, n)
  {
    var e := rx.ring.expected;
    if e < first {
      assert !Filled(rx, first, n, e);
      forall q, r | Clashes(rx, first, n, q, r) ensures Refuses(rx, first, n, q) {
        assert Occupies(rx, first, n, q, r);
      }
      forall q, r | Carried(rx, first, n, q) && q !in rx.ring.held && Occupies(rx, first, n, q, r)
        ensures Clashes(rx, first, n, q, r)
      {
      }
    } else {
      forall q | Carried(rx, first, n, q) ensures !Behind(rx, first, n, q) {
        assert forall p :: e <= p < q ==> Carried(rx, first, n, p);
      }
    }
  }

  /** `q` of the datagram is not held and shares its slot with `r`, held or earlier in it. */
  ghost predicate Clashes(rx: Rx, first: nat, n: nat, q: nat, r: nat)
    requires rx.ring.capacity > 0
  {
    && first <= q < first + n && q !in rx.ring.held && SharesSlot(rx.ring.capacity, q, r)
    && (r in rx.ring.held || first <= r < q)
  }

  // --------------------------------------------------------------- whole runs

  /** What is held is ahead of order, and nothing is held before the first header. */
  ghost predicate Orderly(rx: Rx) {
    Sized(rx) && Ahead(rx.ring) && (!rx.anchored ==> rx.ring.held == map[])
  }

  lemma PlaceAhead(w: Work, streamId: nat, q: nat, b: Block)
    requires w.rx.ring.capacity > 0 && Ahead(w.rx.ring)
    ensures Ahead(Place(w, streamId, q, b).0.rx.ring)
  {
    hide Blocked;
    DrainRemovesRun(w.rx.ring.(expected := w.rx.ring.expected + 1));
    hide Drained;
  }

  lemma BlockAhead(w: Work, streamId: nat, q: nat, b: Block, now: nat)
    requires Sized(w.rx) && Ahead(w.rx.ring)
    ensures Ahead(BlockStep(w, streamId, q, b, now).0.rx.ring)
  {
    hide Observe;
    hide Place;
    hide Ahead;
    var w1 := if w.rx.arbiter.None? then w
              else w.(rx := w.rx.(arbiter := Some(Observe(w.rx.arbiter.value, q, now).0)));
    PlaceAhead(w1, streamId, q, b);
  }

  lemma {:induction false} BlocksAhead(w: Work, streamId: nat, first: nat, blocks: seq<Block>, i: nat, now: nat)
    requires Sized(w.rx) && Ahead(w.rx.ring) && i <= |blocks|
    ensures Ahead(Blocks(w, streamId, first, blocks, i, now).0.rx.ring)
    decreases |blocks| - i
  {
    hide BlockStep;
    hide Ahead;
    if i < |blocks| {
      BlockAhead(w, streamId, first + i, blocks[i], now);
      BlockStepFrame(w, streamId, first + i, blocks[i], now);
      var (w1, full) := BlockStep(w, streamId, first + i, blocks[i], now);
      if !full {
        BlocksAhead(w1, streamId, first, blocks, i + 1, now);
      }
    }
  }

  /** The datagram up next, if its messages will be decoded: the state they meet, their
      first sequence and how many they are. */
  ghost function Upcoming(rx: Rx): Option<(Rx, nat, nat)>
    requires rx.pending != []
  {
    if Accepted(rx).None? then None
    else
      var (h, accepted) := Accepted(rx).value;
      if Kind(h) == Data && HEADER_LEN <= |rx.pending[0].1|
         && ParseBlocks(rx.pending[0].1, HEADER_LEN, h.messageCount).Ok?
      then Some((accepted, h.sequence, h.messageCount)) else None
  }

  /** The datagram up next holds a message that the ring will refuse. */
  ghost predicate Refusing(rx: Rx)
    requires Sized(rx) && rx.pending != []
  {
    Upcoming(rx).Some? && var (accepted, first, n) := Upcoming(rx).value; SomeRefused(accepted, first, n)
  }

  /** The datagram up next will strand an inline item. */
  ghost predicate Stranding(rx: Rx)
    requires Sized(rx) && rx.pending != []
  {
    Upcoming(rx).Some? && var (accepted, first, n) := Upcoming(rx).value; Strands(accepted, first, n)
  }

  lemma AcceptedRefusedIff(rx: Rx, streamId: nat, d: Octets, h: DownstreamHeader, now: nat)
    requires Sized(rx) && Ahead(rx.ring) && ParseHeader(d) == Ok(h)
    ensures var (out, r) := ProcessAccepted(rx, streamId, d, h, now);
            && Ahead(out.ring)
            && HEADER_LEN <= |d|
            && (r == Err(BufferFull) <==> Kind(h) == Data && ParseBlocks(d, HEADER_LEN, h.messageCount).Ok?
                                          && SomeRefused(rx, h.sequence, h.messageCount))
  {
    hide ParseBlocks;
    hide ParseHeader;
    hide SomeRefused;
    hide ProcessData;
    HeaderIsThere(d);
    var blocks := ParseBlocks(d, HEADER_LEN, h.messageCount);
    if Kind(h) == Data && blocks.Ok? {
      BlocksInBounds(d, HEADER_LEN, h.messageCount);
      DataRefusedIff(rx, streamId, d, h, blocks.value, now);
      DataAhead(rx, streamId, d, h, blocks.value, now);
    }
  }

  lemma DataAhead(rx: Rx, streamId: nat, d: Octets, h: DownstreamHeader, blocks: seq<Block>, now: nat)
    requires Sized(rx) && Ahead(rx.ring)
    ensures Ahead(ProcessData(rx, streamId, d, h, blocks, now).0.ring)
  {
    hide Blocks;
    hide Ahead;
    BlocksAhead(Work(OpenGap(rx, h, now), Owned(d), 0), streamId, h.sequence, blocks, 0, now);
  }

  /** A turn reports a full ring exactly when the datagram it decodes holds a message that
      the ring refuses, told from the state before. */
  lemma TurnRefusedIff(rx: Rx, now: nat)
    requires Orderly(rx) && rx.pending != []
    ensures Orderly(Turn(rx, now).0)
    ensures Turn(rx, now).1 == Err(BufferFull) <==> Refusing(rx)
  {
    TurnFrame(rx, now);
    hide ProcessAccepted;
    hide ParseHeader;
    hide SomeRefused;
    if Accepted(rx).Some? {
      var (h, accepted) := Accepted(rx).value;
      AcceptedRefusedIff(accepted, rx.pending[0].0, rx.pending[0].1, h, now);
    }
  }

  ghost predicate NoneRefusing(turns: seq<Rx>)
    requires forall s :: s in turns ==> Sized(s) && s.pending != []
  {
    forall s :: s in turns ==> !Refusing(s)
  }

  ghost predicate NoneStranding(turns: seq<Rx>)
    requires forall s :: s in turns ==> Sized(s) && s.pending != []
  {
    forall s :: s in turns ==> !Stranding(s)
  }

  lemma StrandingRefuses(rx: Rx)
    requires Sized(rx) && rx.pending != []
    ensures Stranding(rx) ==> Refusing(rx)
  {
  }

  /** On one leg nothing is ever stranded. */
  lemma OneLegStrandsNothing(rx: Rx)
    requires Orderly(rx) && rx.pending != [] && rx.arbiter.None?
    ensures !Stranding(rx)
  {
    hide ParseHeader;
    hide ParseBlocks;
    hide Strands;
    if Upcoming(rx).Some? {
      var (accepted, first, n) := Upcoming(rx).value;
      OneLegRefusedIff(accepted, first, n);
    }
  }

  lemma {:induction false} PumpRefusedIff(rx: Rx, bursts: seq<Burst>, clock: nat -> nat, k: nat)
    requires Orderly(rx)
    ensures Orderly(Pump(rx, bursts, clock, k).0)
    ensures Pump(rx, bursts, clock, k).1 == Err(BufferFull) <==> !NoneRefusing(PumpTurns(rx, bursts, clock, k))
    ensures rx.arbiter.None? ==>
              NoneStranding(PumpTurns(rx, bursts, clock, k)) && Pump(rx, bursts, clock, k).0.arbiter.None?
    decreases |bursts|, |rx.pending|
  {
    hide Turn;
    hide Refusing;
    hide Stranding;
    if rx.ready == [] && rx.pending != [] {
      TurnRefusedIff(rx, clock(k));
      TurnFrame(rx, clock(k));
      if rx.arbiter.None? {
        OneLegStrandsNothing(rx);
      }
      var (rx1, r) := Turn(rx, clock(k));
      if r.Ok? {
        PumpRefusedIff(rx1, bursts, clock, k + 1);
        var rest := PumpTurns(rx1, bursts, clock, k + 1);
        assert PumpTurns(rx, bursts, clock, k) == [rx] + rest;
        assert forall s :: s in [rx] + rest <==> s == rx || s in rest;
      }
    } else if rx.ready == [] && bursts != [] {
      var (rx1, r) := PollSources(rx, bursts[0]);
      assert Orderly(rx1) && r != Err(BufferFull);
      if r.Ok? && rx1.pending != [] {
        PumpRefusedIff(rx1, bursts[1..], clock, k);
      }
    }
  }

  lemma PollRefusedIff(rx: Rx, c: Call)
    requires Orderly(rx)
    ensures Orderly(Poll(rx, c).0)
    ensures Poll(rx, c).1 == Failed(BufferFull) <==> !NoneRefusing(PollTurns(rx, c))
    ensures rx.arbiter.None? ==> NoneStranding(PollTurns(rx, c)) && Poll(rx, c).0.arbiter.None?
  {
    hide Pump;
    hide PumpTurns;
    hide NoneRefusing;
    hide NoneStranding;
    hide Ahead;
    PumpRefusedIff(Retire(rx), c.bursts, c.clock, 0);
  }

  /** A run reports a full ring exactly when some datagram of it, in the state it meets,
      holds a message that the ring refuses. A run of one leg strands nothing. */
  lemma {:induction false} RunRefusedIff(rx0: Rx, calls: seq<Call>)
    requires Orderly(rx0)
    ensures Orderly(AfterPolls(rx0, calls).0)
    ensures NeverFull(AfterPolls(rx0, calls).1) <==> NoneRefusing(RunTurns(rx0, calls))
    ensures rx0.arbiter.None? ==> NoneStranding(RunTurns(rx0, calls)) && AfterPolls(rx0, calls).0.arbiter.None?
    decreases |calls|
  {
    hide Poll;
    hide PollTurns;
    hide Refusing;
    hide Stranding;
    hide Orderly;
    assert Sized(rx0) by { OrderlyIsSized(rx0); }
    if calls != [] {
      var (init, c) := (calls[..|calls| - 1], calls[|calls| - 1]);
      var (before, outs) := AfterPolls(rx0, init);
      RunRefusedIff(rx0, init);
      PollRefusedIff(before, c);
      var (o, earlier, turns) := (Poll(before, c).1, RunTurns(rx0, init), PollTurns(before, c));
      assert AfterPolls(rx0, calls).1 == outs + [o] && RunTurns(rx0, calls) == earlier + turns;
      assert forall s :: s in earlier + turns <==> s in earlier || s in turns;
    }
  }

  lemma OrderlyIsSized(rx: Rx)
    requires Orderly(rx)
    ensures Sized(rx)
  {
  }
}
