/** Order of delivery: over every run the receiver hands out the source's messages
    one by one from its anchor, with no skip, repeat or swap. */
module MoldOrder {
  import opened Octets
  import opened MoldWire
  import opened GapTracking
  import opened Reassembly
  import opened Arbiter
  import opened MoldReceiver
  import opened MoldBounds
  import opened MoldRefusals

  /** Message `q` of a session, as the server numbered it. */
  type Source = (Octets, nat) -> Octets

  /** A datagram carries the source's messages: the network may lose, repeat and
      reorder datagrams and deliver malformed or foreign ones, not alter messages. */
  ghost predicate Agrees(d: Octets, src: Source) {
    var header := ParseHeader(d);
    header.Ok? && Kind(header.value) == Data ==>
      var h := header.value;
      var blocks := ParseBlocks(d, HEADER_LEN, h.messageCount);
      blocks.Ok? ==> BlocksAgree(d, blocks.value, h.session, h.sequence, src)
  }

  ghost predicate BlocksAgree(d: Octets, blocks: seq<Block>, session: Octets, first: nat, src: Source) {
    forall i :: 0 <= i < |blocks| ==> BlockAgrees(d, blocks[i], session, first + i, src)
  }

  ghost predicate BlockAgrees(d: Octets, b: Block, session: Octets, q: nat, src: Source) {
    InBounds(d, b) && Payload(d, b) == src(session, q)
  }

  // ---------------------------------------------------------------- item lists

  predicate IsFrame(item: ReadyItem) {
    item.Inline? || item.View?
  }

  /** Handing out `item` yields its own message of the source. */
  ghost predicate Genuine(item: ReadyItem, held: Octets, src: Source, session: Octets)
    requires IsFrame(item)
  {
    OutcomeOf(item, held) == Frame(item.sequence, item.streamId, src(session, item.sequence))
  }

  /** The frames among `items` are the messages `from..to`, in order. */
  ghost predicate Delivers(items: seq<ReadyItem>, held: Octets, src: Source, session: Octets, from: nat, to: nat) {
    if items == [] then from == to
    else if IsFrame(items[0]) then
      && items[0].sequence == from && Genuine(items[0], held, src, session)
      && Delivers(items[1..], held, src, session, from + 1, to)
    else Delivers(items[1..], held, src, session, from, to)
  }

  function Inlines(items: seq<ReadyItem>): nat {
    if items == [] then 0 else (if items[0].Inline? then 1 else 0) + Inlines(items[1..])
  }

  lemma {:induction false} ListsConcat(a: seq<ReadyItem>, b: seq<ReadyItem>, held: Octets, src: Source, session: Octets,
                                       from: nat, mid: nat, to: nat)
    requires Delivers(a, held, src, session, from, mid) && Delivers(b, held, src, session, mid, to)
    ensures Delivers(a + b, held, src, session, from, to)
    ensures Inlines(a + b) == Inlines(a) + Inlines(b)
    decreases |a|
  {
    if a == [] {
      assert a + b == b;
    } else {
      ListsConcat(a[1..], b, held, src, session, if IsFrame(a[0]) then from + 1 else from, mid, to);
      assert (a + b)[1..] == a[1..] + b;
    }
  }

  lemma {:induction false} NoInlineNeedsNoBacking(items: seq<ReadyItem>, h1: Octets, h2: Octets, src: Source,
                                                  session: Octets,
                                                  from: nat, to: nat)
    requires Inlines(items) == 0 && Delivers(items, h1, src, session, from, to)
    ensures Delivers(items, h2, src, session, from, to)
    decreases |items|
  {
    if items != [] {
      NoInlineNeedsNoBacking(items[1..], h1, h2, src, session, if IsFrame(items[0]) then from + 1 else from, to);
    }
  }

  ghost predicate ViewGenuine(v: MessageView, src: Source, session: Octets, q: nat) {
    v.offset + v.len <= |v.datagram| && v.datagram[v.offset..v.offset + v.len] == src(session, q)
  }

  lemma {:induction false} ViewsDeliver(run: seq<MessageView>, first: nat, streamId: nat, held: Octets, src: Source,
                                        session: Octets)
    requires forall i :: 0 <= i < |run| ==> ViewGenuine(run[i], src, session, first + i)
    ensures Delivers(Views(run, first, streamId), held, src, session, first, first + |run|)
    ensures Inlines(Views(run, first, streamId)) == 0
    decreases |run|
  {
    if run != [] {
      var items := Views(run, first, streamId);
      assert items[1..] == Views(run[1..], first + 1, streamId);
      assert ViewGenuine(run[0], src, session, first + 0);
      assert items[0] == View(run[0], first, streamId) && Genuine(items[0], held, src, session);
      hide Genuine;
      hide ViewGenuine;
      forall i | 0 <= i < |run[1..]| ensures ViewGenuine(run[1..][i], src, session, first + 1 + i) {
        assert ViewGenuine(run[i + 1], src, session, first + (i + 1));
      }
      ViewsDeliver(run[1..], first + 1, streamId, held, src, session);
    }
  }

  lemma OtherDeliversNothing(item: ReadyItem, held: Octets, src: Source, session: Octets, at: nat)
    requires !IsFrame(item)
    ensures Delivers([item], held, src, session, at, at) && Inlines([item]) == 0
  {
    assert [item][1..] == [];
  }

  lemma {:induction false} GapsDeliverNothing(n: nat, held: Octets, src: Source, session: Octets, at: nat)
    ensures Delivers(Repeat(GapItem, n), held, src, session, at, at) && Inlines(Repeat(GapItem, n)) == 0
  {
    if n > 0 {
      GapsDeliverNothing(n - 1, held, src, session, at);
      assert Repeat(GapItem, n)[1..] == Repeat(GapItem, n - 1);
    }
  }

  // ------------------------------------------------------------- one datagram

  /** Everything held back is genuine. */
  ghost predicate RingGenuine(ring: Reorder<MessageView>, src: Source, session: Octets) {
    WellFormed(ring) && forall q :: q in ring.held ==> ViewGenuine(ring.held[q], src, session, q)
  }

  /** State of a decode whose datagram is `d`, started when `from` was next in order. */
  ghost predicate WorkGenuine(w: Work, d: Octets, src: Source, session: Octets, from: nat) {
    && w.backing.held == d
    && RingGenuine(w.rx.ring, src, session)
    && Delivers(w.rx.ready, d, src, session, from, w.rx.ring.expected)
    && Inlines(w.rx.ready) == w.inline
  }

  lemma DrainGenuine(rx: Rx, first: nat, streamId: nat, d: Octets, src: Source, session: Octets, from: nat)
    requires RingGenuine(rx.ring, src, session) && first == rx.ring.expected
    requires Delivers(rx.ready, d, src, session, from, rx.ring.expected)
    ensures var out := DrainTo(rx, first, streamId);
            && RingGenuine(out.ring, src, session)
            && Delivers(out.ready, d, src, session, from, out.ring.expected)
            && Inlines(out.ready) == Inlines(rx.ready)
            && rx.ring.expected <= out.ring.expected
  {
    var (ring, run) := Drained(rx.ring);
    DrainRemovesRun(rx.ring);
    forall i | 0 <= i < |run| ensures ViewGenuine(run[i], src, session, first + i) {
      assert first + i in rx.ring.held && run[(first + i) - first] == rx.ring.held[first + i];
    }
    ViewsDeliver(run, first, streamId, d, src, session);
    ListsConcat(rx.ready, Views(run, first, streamId), d, src, session, from, first, ring.expected);
  }

  lemma InlineGenuine(w: Work, streamId: nat, q: nat, b: Block, d: Octets, src: Source, session: Octets, from: nat)
    requires WorkGenuine(w, d, src, session, from) && q == w.rx.ring.expected && BlockAgrees(d, b, session, q, src)
    ensures var out := DeliverInline(w, streamId, q, b);
            WorkGenuine(out, d, src, session, from)
  {
    var item := Inline(q, streamId, b.offset, b.len);
    var rx := w.rx.(ring := w.rx.ring.(expected := q + 1), ready := w.rx.ready + [item]);
    assert Delivers([item], d, src, session, q, q + 1) by {
      assert Genuine(item, d, src, session);
    }
    assert Inlines([item]) == 1;
    ListsConcat(w.rx.ready, [item], d, src, session, from, q, q + 1);
    DrainGenuine(rx, q + 1, streamId, d, src, session, from);
  }

  lemma HoldBackGenuine(w: Work, streamId: nat, q: nat, b: Block, d: Octets, src: Source, session: Octets, from: nat)
    requires WorkGenuine(w, d, src, session, from) && q > w.rx.ring.expected && BlockAgrees(d, b, session, q, src)
    ensures var (out, full) := HoldBack(w, streamId, q, b);
            WorkGenuine(out, d, src, session, from) && out.inline == w.inline
  {
    var view := MessageView(d, b.offset, b.len);
    assert ViewGenuine(view, src, session, q);
    OpsKeepWellFormed(w.rx.ring, q, view);
  }

  /** Decoding a block keeps what is ready and held genuine. */
  lemma BlockGenuine(w: Work, streamId: nat, q: nat, b: Block, now: nat, d: Octets, src: Source, session: Octets,
                     from: nat)
    requires Sized(w.rx) && WorkGenuine(w, d, src, session, from) && BlockAgrees(d, b, session, q, src)
    ensures WorkGenuine(BlockStep(w, streamId, q, b, now).0, d, src, session, from)
  {
    var w0 := w;
    if w.rx.arbiter.Some? {
      var (arb, verdict) := Observe(w.rx.arbiter.value, q, now);
      w0 := w.(rx := w.rx.(arbiter := Some(arb)));
    }
    var w1 := w0.(rx := w0.rx.(gaps := w0.rx.gaps - iset{q}));
    if q == w.rx.ring.expected {
      InlineGenuine(w1, streamId, q, b, d, src, session, from);
    } else if q > w.rx.ring.expected {
      HoldBackGenuine(w1, streamId, q, b, d, src, session, from);
    }
  }

  lemma {:induction false} BlocksGenuine(w: Work, streamId: nat, first: nat, blocks: seq<Block>, i: nat, now: nat,
                                         d: Octets, src: Source, session: Octets, from: nat)
    requires Sized(w.rx) && i <= |blocks| && WorkGenuine(w, d, src, session, from)
    requires BlocksAgree(d, blocks, session, first, src)
    ensures WorkGenuine(Blocks(w, streamId, first, blocks, i, now).0, d, src, session, from)
    decreases |blocks| - i
  {
    hide BlockStep;
    hide WorkGenuine;
    if i < |blocks| {
      assert BlockAgrees(d, blocks[i], session, first + i, src);
      BlockGenuine(w, streamId, first + i, blocks[i], now, d, src, session, from);
      BlockStepFrame(w, streamId, first + i, blocks[i], now);
      var (w1, full) := BlockStep(w, streamId, first + i, blocks[i], now);
      if !full {
        BlocksGenuine(w1, streamId, first, blocks, i + 1, now, d, src, session, from);
      }
    }
  }

  // ----------------------------------------------------------------- receiver

  function SessionOf(rx: Rx): Octets {
    if rx.session.Some? then rx.session.value else []
  }

  /** One if the item handed out last is inline. */
  function InlineOut(rx: Rx): nat {
    if rx.current.Some? && rx.current.value.Inline? then 1 else 0
  }

  ghost predicate AllAgree(pending: seq<(nat, Octets)>, src: Source) {
    forall i :: 0 <= i < |pending| ==> Agrees(pending[i].1, src)
  }

  /** `next` is the next message to hand out, what is ready and held is genuine, and
      the backing is kept exactly while inline items are queued or handed out. */
  ghost predicate Consistent(rx: Rx, src: Source, next: nat) {
    && Sized(rx) && Ahead(rx.ring)
    && RingGenuine(rx.ring, src, SessionOf(rx))
    && Delivers(rx.ready, rx.backing.held, src, SessionOf(rx), next, rx.ring.expected)
    && rx.inlinePending == Inlines(rx.ready) + InlineOut(rx)
    && (rx.inlinePending == 0 ==> rx.backing == EMPTY_BACKING)
    && (rx.session.None? ==> rx.ready == [] && rx.ring.held == map[] && (rx.anchored ==> rx.ring.expected == rx.anchor))
    && (!rx.anchored ==> rx.session.None?)
    && AllAgree(rx.pending, src)
  }

  /** Once set, session and anchor stay. */
  ghost predicate Settled(a: Rx, b: Rx) {
    && (a.session.Some? ==> b.session == a.session)
    && (a.anchored ==> b.anchored && b.anchor == a.anchor)
    && (a.arbiter.None? <==> b.arbiter.None?)
  }

  /** Anchoring moves the next message to the anchor. */
  function NextAfter(a: Rx, b: Rx, next: nat): nat {
    if !a.anchored && b.anchored then b.anchor else next
  }

  /** The first well-formed header among the datagrams decoded so far. */
  ghost function FirstHeader(seen: seq<Octets>): Option<DownstreamHeader> {
    if seen == [] then None
    else
      var before := FirstHeader(seen[..|seen| - 1]);
      var last := ParseHeader(seen[|seen| - 1]);
      if before.Some? then before else if last.Ok? then Some(last.value) else None
  }

  /** Session and anchor are those of the first header, unless a start was configured. */
  ghost predicate Rooted(rx: Rx) {
    var first := FirstHeader(rx.seen);
    && rx.session == (if first.Some? then Some(first.value.session) else None)
    && (rx.start.Some? ==> rx.anchored && rx.anchor == rx.start.value)
    && (rx.start.None? ==> (rx.anchored <==> first.Some?) && (rx.anchored ==> rx.anchor == first.value.sequence))
  }

  lemma TurnRooted(rx: Rx, now: nat)
    requires Sized(rx) && Rooted(rx) && rx.pending != []
    ensures Rooted(Turn(rx, now).0) && Turn(rx, now).0.start == rx.start
  {
    TurnFrame(rx, now);
    hide Turn;
    hide ParseHeader;
    var d := rx.pending[0].1;
    assert (rx.seen + [d])[..|rx.seen|] == rx.seen;
    assert FirstHeader(rx.seen + [d]) == if FirstHeader(rx.seen).Some? then FirstHeader(rx.seen)
                                         else if ParseHeader(d).Ok? then Some(ParseHeader(d).value) else None;
  }

  lemma RetireConsistent(rx: Rx, src: Source, next: nat)
    requires Consistent(rx, src, next)
    ensures Consistent(Retire(rx), src, next) && Settled(rx, Retire(rx)) && Retire(rx).current.None?
    ensures rx.anchored == Retire(rx).anchored && rx.seen == Retire(rx).seen && rx.start == Retire(rx).start
    ensures rx.anchor == Retire(rx).anchor && rx.session == Retire(rx).session
  {
    if InlineOut(rx) == 1 && Inlines(rx.ready) == 0 {
      NoInlineNeedsNoBacking(rx.ready, rx.backing.held, [], src, SessionOf(rx), next, rx.ring.expected);
    }
  }

  lemma AcceptConsistent(rx: Rx, h: DownstreamHeader, src: Source, next: nat)
    requires Consistent(rx, src, next) && rx.ready == []
    ensures var r := AcceptHeader(rx, h);
            r.Ok? ==> && Consistent(r.value, src, NextAfter(rx, r.value, next)) && Settled(rx, r.value)
                      && r.value.session == Some(h.session) && r.value.anchored && r.value.ready == []
                      && r.value.current == rx.current && r.value.pending == rx.pending
  {
  }

  lemma AppendOther(rx: Rx, out: Rx, item: ReadyItem, src: Source, next: nat)
    requires Consistent(rx, src, next) && !IsFrame(item) && rx.session.Some?
    requires out.ready == rx.ready + [item] && out.ring == rx.ring && SameSettings(rx, out) && Sized(out)
    requires out.backing == rx.backing && out.inlinePending == rx.inlinePending
    ensures Consistent(out, src, next)
  {
    var (held, s, at) := (rx.backing.held, SessionOf(rx), rx.ring.expected);
    OtherDeliversNothing(item, held, src, s, at);
    ListsConcat(rx.ready, [item], held, src, s, next, at, at);
  }

  lemma TailGapConsistent(rx: Rx, nextExpected: nat, item: ReadyItem, src: Source, next: nat)
    requires Consistent(rx, src, next) && !IsFrame(item) && rx.session.Some?
    ensures var noted := NoteTailGap(rx, nextExpected);
            Consistent(noted.(ready := noted.ready + [item]), src, next)
  {
    var noted := NoteTailGap(rx, nextExpected);
    if nextExpected > rx.nextUnseen {
      AppendOther(rx, noted, GapItem, src, next);
    }
    AppendOther(noted, noted.(ready := noted.ready + [item]), item, src, next);
  }

  lemma DataConsistent(rx: Rx, streamId: nat, d: Octets, h: DownstreamHeader, blocks: seq<Block>, now: nat,
                       src: Source, next: nat)
    requires Consistent(rx, src, next) && rx.ready == [] && rx.current.None?
    requires rx.session == Some(h.session) && rx.anchored && BlocksAgree(d, blocks, h.session, h.sequence, src)
    ensures var out := ProcessData(rx, streamId, d, h, blocks, now).0;
            SameSettings(rx, out) && (!Strands(rx, h.sequence, |blocks|) ==> Consistent(out, src, next))
  {
    hide Blocks;
    hide Strands;
    var noted := OpenGap(rx, h, now);
    var s := h.session;
    OtherDeliversNothing(GapItem, d, src, s, next);
    assert noted.ready == [] || noted.ready == [GapItem];
    var w := Work(noted, Owned(d), 0);
    BlocksGenuine(w, streamId, h.sequence, blocks, 0, now, d, src, s, next);
    BlocksFrame(w, streamId, h.sequence, blocks, 0, now);
    BlocksAhead(w, streamId, h.sequence, blocks, 0, now);
    DataRefusedIff(rx, streamId, d, h, blocks, now);
    hide SomeRefused;
    var (done, full) := Blocks(w, streamId, h.sequence, blocks, 0, now);
    if done.inline == 0 {
      NoInlineNeedsNoBacking(done.rx.ready, d, rx.backing.held, src, s, next, done.rx.ring.expected);
    }
  }

  lemma AcceptedConsistent(rx: Rx, streamId: nat, d: Octets, h: DownstreamHeader, now: nat, src: Source, next: nat)
    requires Consistent(rx, src, next) && rx.ready == [] && rx.current.None? && rx.session == Some(h.session)
    requires rx.anchored
    requires ParseHeader(d) == Ok(h) && Agrees(d, src)
    ensures HEADER_LEN <= |d|
    ensures var out := ProcessAccepted(rx, streamId, d, h, now).0;
            var stranded := Kind(h) == Data && ParseBlocks(d, HEADER_LEN, h.messageCount).Ok?
                            && Strands(rx, h.sequence, h.messageCount);
            SameSettings(rx, out) && (!stranded ==> Consistent(out, src, next))
  {
    hide ProcessData;
    hide Strands;
    hide ParseBlocks;
    hide ParseHeader;
    hide BlocksAgree;
    HeaderIsThere(d);
    assert Sized(rx);
    hide Consistent;
    match Kind(h)
    case Heartbeat => TailGapConsistent(rx, h.sequence, EventItem(HeartbeatSeen(h.sequence)), src, next);
    case EndOfSession => TailGapConsistent(rx, h.sequence, EventItem(SessionEnded(h.sequence)), src, next);
    case Data =>
      var blocks := ParseBlocks(d, HEADER_LEN, h.messageCount);
      if blocks.Ok? {
        BlocksInBounds(d, HEADER_LEN, h.messageCount);
        DataConsistent(rx, streamId, d, h, blocks.value, now, src, next);
      }
  }

  lemma ProcessConsistent(rx: Rx, now: nat, src: Source, next: nat)
    requires Consistent(rx, src, next) && rx.ready == [] && rx.current.None? && rx.pending != []
    ensures var (out, r) := ProcessNext(rx, now);
            && Settled(rx, out) && out.current.None?
            && (r.Ok? ==> out.session.Some?)
            && (!Stranding(rx) ==> Consistent(out, src, NextAfter(rx, out, next)))
  {
    hide ProcessAccepted;
    hide Agrees;
    hide Strands;
    hide ParseBlocks;
    var (streamId, d) := rx.pending[0];
    var popped := Popped(rx);
    assert Agrees(rx.pending[0].1, src);
    assert Consistent(popped, src, next);
    if ParseHeader(d).Ok? {
      var h := ParseHeader(d).value;
      AcceptConsistent(popped, h, src, next);
      var accepted := AcceptHeader(popped, h);
      if accepted.Ok? {
        AcceptedConsistent(accepted.value, streamId, d, h, now, src, NextAfter(popped, accepted.value, next));
      }
    }
  }

  lemma ConfirmSettings(rx: Rx, now: nat)
    ensures SameSettings(rx, DrainConfirmed(rx, now))
  {
  }

  lemma ConfirmConsistent(rx: Rx, now: nat, src: Source, next: nat)
    requires Consistent(rx, src, next) && rx.session.Some?
    ensures Consistent(DrainConfirmed(rx, now), src, next)
  {
    if rx.arbiter.Some? {
      var (held, s, at) := (rx.backing.held, SessionOf(rx), rx.ring.expected);
      var n := |Due(rx.arbiter.value, now)|;
      GapsDeliverNothing(n, held, src, s, at);
      ListsConcat(rx.ready, Repeat(GapItem, n), held, src, s, next, at, at);
    }
  }

  lemma TurnConsistent(rx: Rx, now: nat, src: Source, next: nat)
    requires Consistent(rx, src, next) && rx.ready == [] && rx.current.None? && rx.pending != []
    ensures var out := Turn(rx, now).0;
            && Settled(rx, out) && out.current.None?
            && (!Stranding(rx) ==> Consistent(out, src, NextAfter(rx, out, next)))
  {
    assert Sized(rx);
    hide ProcessNext;
    hide Consistent;
    hide DrainConfirmed;
    hide Stranding;
    ProcessConsistent(rx, now, src, next);
    var (out, r) := ProcessNext(rx, now);
    ConfirmSettings(out, now);
    if r.Ok? && !Stranding(rx) {
      ConfirmConsistent(out, now, src, NextAfter(rx, out, next));
    }
  }

  ghost predicate BurstAgrees(burst: Burst, src: Source) {
    AllAgree(burst.legs, src) && forall i :: 0 <= i < |burst.recovered| ==> Agrees(burst.recovered[i], src)
  }

  ghost predicate CallAgrees(c: Call, src: Source) {
    forall i :: 0 <= i < |c.bursts| ==> BurstAgrees(c.bursts[i], src)
  }

  lemma SourcesConsistent(rx: Rx, burst: Burst, src: Source, next: nat)
    requires Consistent(rx, src, next) && BurstAgrees(burst, src)
    ensures Consistent(PollSources(rx, burst).0, src, next)
    ensures SameSettings(rx, PollSources(rx, burst).0.(pending := rx.pending))
    ensures PollSources(rx, burst).0.ready == rx.ready
    ensures PollSources(rx, burst).1 == Ok(()) || PollSources(rx, burst).1 == Err(Transport)
  {
    hide Agrees;
    hide Delivers;
    hide RingGenuine;
    hide Inlines;
  }

  lemma {:induction false} PumpConsistent(rx: Rx, bursts: seq<Burst>, clock: nat -> nat, k: nat, src: Source, next: nat)
    requires Consistent(rx, src, next) && rx.current.None?
    requires forall i :: 0 <= i < |bursts| ==> BurstAgrees(bursts[i], src)
    ensures Sized(rx)
    ensures NoneStranding(PumpTurns(rx, bursts, clock, k)) ==>
              var out := Pump(rx, bursts, clock, k).0;
              && Settled(rx, out) && out.current.None?
              && (Rooted(rx) ==> Rooted(out) && out.start == rx.start)
              && Consistent(out, src, NextAfter(rx, out, next))
    decreases |bursts|, |rx.pending|
  {
    assert Sized(rx);
    hide Consistent;
    hide Turn;
    hide PollSources;
    hide FirstHeader;
    hide BurstAgrees;
    hide Stranding;
    if !NoneStranding(PumpTurns(rx, bursts, clock, k)) {
    } else if rx.ready == [] && rx.pending != [] {
      assert rx in PumpTurns(rx, bursts, clock, k);
      TurnConsistent(rx, clock(k), src, next);
      TurnFrame(rx, clock(k));
      if Rooted(rx) {
        TurnRooted(rx, clock(k));
      }
      var (rx1, r) := Turn(rx, clock(k));
      if r.Ok? {
        var rest := PumpTurns(rx1, bursts, clock, k + 1);
        assert PumpTurns(rx, bursts, clock, k) == [rx] + rest;
        assert forall s :: s in rest ==> s in [rx] + rest;
        PumpConsistent(rx1, bursts, clock, k + 1, src, NextAfter(rx, rx1, next));
      }
    } else if rx.ready == [] && bursts != [] {
      var (rx1, r) := PollSources(rx, bursts[0]);
      SourcesConsistent(rx, bursts[0], src, next);
      if r.Ok? && rx1.pending != [] {
        PumpConsistent(rx1, bursts[1..], clock, k, src, next);
      }
    }
  }

  /** The outcome of a poll is the next message, or no message at all. */
  ghost predicate Advances(o: Outcome, src: Source, session: Octets, next: nat, next': nat) {
    if o.Frame? then o.sequence == next && o.payload == src(session, next) && next' == next + 1
    else next' == next && StaysInside([o])
  }

  lemma YieldConsistent(rx: Rx, owned: bool, src: Source, next: nat) returns (next': nat)
    requires Consistent(rx, src, next) && rx.current.None? && rx.ready != []
    ensures var rest := rx.(ready := rx.ready[1..]);
            var (out, o) := if owned then YieldOwned(rest, rx.ready[0]) else YieldItem(rest, rx.ready[0]);
            Consistent(out, src, next') && Advances(o, src, SessionOf(rx), next, next')
            && SameSettings(rx, out.(current := None))
  {
    var item := rx.ready[0];
    next' := if IsFrame(item) then next + 1 else next;
    if owned && item.Inline? && Inlines(rx.ready[1..]) == 0 {
      NoInlineNeedsNoBacking(rx.ready[1..], rx.backing.held, [], src, SessionOf(rx), next', rx.ring.expected);
    }
  }

  /** State of a call once it has pumped. */
  ghost function Pumped(rx: Rx, c: Call): (Rx, Result<(), MoldError>)
    requires Sized(rx)
  {
    Pump(Retire(rx), c.bursts, c.clock, 0)
  }

  lemma PumpedConsistent(rx: Rx, c: Call, src: Source, next: nat)
    requires Consistent(rx, src, next) && CallAgrees(c, src) && Sized(rx) && NoneStranding(PollTurns(rx, c))
    ensures var out := Pumped(rx, c).0;
            && Settled(rx, out) && out.current.None?
            && (Rooted(rx) ==> Rooted(out) && out.start == rx.start)
            && Consistent(out, src, NextAfter(rx, out, next))
  {
    RetireConsistent(rx, src, next);
    hide Consistent;
    hide FirstHeader;
    hide Retire;
    hide Pump;
    PumpConsistent(Retire(rx), c.bursts, c.clock, 0, src, next);
  }

  /** One poll that strands nothing keeps the receiver consistent and moves it on by at
      most one message. */
  lemma PollConsistent(rx: Rx, c: Call, src: Source, next: nat) returns (next': nat)
    requires Consistent(rx, src, next) && CallAgrees(c, src) && Sized(rx) && NoneStranding(PollTurns(rx, c))
    ensures var (out, o) := Poll(rx, c);
            && Settled(rx, out)
            && (Rooted(rx) ==> Rooted(out) && out.start == rx.start)
            && Consistent(out, src, next') && Advances(o, src, SessionOf(out), NextAfter(rx, out, next), next')
            && (o.Frame? ==> out.anchored)
  {
    hide Stranding;
    PumpedConsistent(rx, c, src, next);
    var (rx1, r) := Pumped(rx, c);
    hide Pump;
    hide PollTurns;
    hide Retire;
    hide FirstHeader;
    hide RingGenuine;
    hide Delivers;
    hide AllAgree;
    next' := NextAfter(rx, rx1, next);
    if r.Ok? && rx1.ready != [] {
      next' := YieldConsistent(rx1, c.owned, src, next');
    }
  }

  // --------------------------------------------------------------- whole runs

  /** The messages among the outcomes, with their sequences. */
  function Delivered(outs: seq<Outcome>): seq<(nat, Octets)> {
    if outs == [] then []
    else
      var last := outs[|outs| - 1];
      Delivered(outs[..|outs| - 1]) + if last.Frame? then [(last.sequence, last.payload)] else []
  }

  /** Messages `from`, `from + 1`, ... of the source, `n` of them. */
  function Stretch(src: Source, session: Octets, from: nat, n: nat): seq<(nat, Octets)> {
    seq(n, i requires 0 <= i < n => (from + i, src(session, from + i)))
  }

  /** Before the session is known nothing was delivered, so learning it changes nothing. */
  lemma SessionMatters(a: Rx, b: Rx, src: Source, next: nat)
    requires Consistent(a, src, next) && Settled(a, b)
    ensures a.anchored && a.session.None? ==> next == a.anchor
    ensures a.anchored && a.anchor <= next ==>
              Stretch(src, SessionOf(a), a.anchor, next - a.anchor) ==
              Stretch(src, SessionOf(b), a.anchor, next - a.anchor)
  {
  }

  /** What was handed out so far is the stretch of the source from the anchor to `next`. */
  ghost predicate SoFar(rx: Rx, outs: seq<Outcome>, src: Source, next: nat) {
    && Consistent(rx, src, next)
    && StaysInside(outs)
    && (!rx.anchored ==> Delivered(outs) == [])
    && (rx.anchored ==>
          rx.anchor <= next && Delivered(outs) == Stretch(src, SessionOf(rx), rx.anchor, next - rx.anchor))
  }

  lemma SoFarAdvances(rx: Rx, rx': Rx, outs: seq<Outcome>, o: Outcome, src: Source, was: nat, next: nat)
    requires SoFar(rx, outs, src, was) && Settled(rx, rx') && Consistent(rx', src, next)
    requires Advances(o, src, SessionOf(rx'), NextAfter(rx, rx', was), next) && (o.Frame? ==> rx'.anchored)
    ensures SoFar(rx', outs + [o], src, next)
  {
    SessionMatters(rx, rx', src, was);
    assert (outs + [o])[..|outs|] == outs;
  }

  lemma {:induction false} RunSoFar(rx0: Rx, calls: seq<Call>, src: Source, next0: nat) returns (next: nat)
    requires SoFar(rx0, [], src, next0) && forall i :: 0 <= i < |calls| ==> CallAgrees(calls[i], src)
    requires Sized(rx0) && NoneStranding(RunTurns(rx0, calls))
    ensures SoFar(AfterPolls(rx0, calls).0, AfterPolls(rx0, calls).1, src, next)
    ensures Settled(rx0, AfterPolls(rx0, calls).0)
    ensures Rooted(rx0) ==> Rooted(AfterPolls(rx0, calls).0) && AfterPolls(rx0, calls).0.start == rx0.start
    decreases |calls|
  {
    if calls == [] {
      next := next0;
    } else {
      var (init, c) := (calls[..|calls| - 1], calls[|calls| - 1]);
      var (before, outs) := AfterPolls(rx0, init);
      assert AfterPolls(rx0, calls).1 == outs + [Poll(before, c).1];
      hide Poll;
      hide Stranding;
      var (earlier, turns) := (RunTurns(rx0, init), PollTurns(before, c));
      assert RunTurns(rx0, calls) == earlier + turns;
      assert forall s :: s in earlier || s in turns ==> s in earlier + turns;
      hide PollTurns;
      var was := RunSoFar(rx0, init, src, next0);
      assert CallAgrees(calls[|calls| - 1], src);
      next := PollConsistent(before, c, src, was);
      SoFarAdvances(before, Poll(before, c).0, outs, Poll(before, c).1, src, was, next);
    }
  }

  lemma InitialSoFar(legs: nat, start: Option<nat>, grace: nat, capacity: nat, src: Source)
    requires legs > 0 && capacity > 0
    ensures var rx0 := Initial(legs, start, grace, capacity);
            SoFar(rx0, [], src, rx0.ring.expected)
  {
  }

  lemma SoFarIsStretch(rx: Rx, outs: seq<Outcome>, src: Source, next: nat)
    requires SoFar(rx, outs, src, next)
    ensures StaysInside(outs)
    ensures Delivered(outs) == Stretch(src, SessionOf(rx), rx.anchor, |Delivered(outs)|)
    ensures rx.anchored ==> rx.anchor + |Delivered(outs)| + Frames(rx.ready) == rx.ring.expected
  {
    FramesWait(rx.ready, rx.backing.held, src, SessionOf(rx), next, rx.ring.expected);
  }

  /** Messages among items waiting. */
  function Frames(items: seq<ReadyItem>): nat {
    if items == [] then 0 else (if IsFrame(items[0]) then 1 else 0) + Frames(items[1..])
  }

  lemma {:induction false} FramesWait(items: seq<ReadyItem>, held: Octets, src: Source, session: Octets, from: nat,
                                      to: nat)
    requires Delivers(items, held, src, session, from, to)
    ensures from + Frames(items) == to
  {
    hide Genuine;
    if items != [] {
      FramesWait(items[1..], held, src, session, if IsFrame(items[0]) then from + 1 else from, to);
    }
  }

  /** For every run of one leg, and every run of several legs in which no datagram strands
      an inline item in the state it meets, with sequences that leave room below 2^64: the
      messages handed out are those of the source from the anchor on, one by one, and with
      those waiting they are all up to the next one expected. The
      anchor is the configured start, or else the sequence of the first well-formed header;
      its session is the one delivered. */
  lemma DeliveredInOrder(legs: nat, start: Option<nat>, grace: nat, capacity: nat, calls: seq<Call>, src: Source)
    requires legs > 0 && capacity > 0 && RunFits(legs, start, grace, capacity, calls)
    requires forall i :: 0 <= i < |calls| ==> CallAgrees(calls[i], src)
    requires legs == 1 || NoneStranding(RunTurns(Initial(legs, start, grace, capacity), calls))
    ensures var (rx, outs) := AfterPolls(Initial(legs, start, grace, capacity), calls);
            && StaysInside(outs)
            && Delivered(outs) == Stretch(src, SessionOf(rx), rx.anchor, |Delivered(outs)|)
            && (rx.anchored ==> rx.anchor + |Delivered(outs)| + Frames(rx.ready) == rx.ring.expected)
            && (start.Some? ==> rx.anchor == start.value)
            && (start.None? && FirstHeader(rx.seen).Some? ==> rx.anchor == FirstHeader(rx.seen).value.sequence)
            && (FirstHeader(rx.seen).Some? ==> SessionOf(rx) == FirstHeader(rx.seen).value.session)
            && (FirstHeader(rx.seen).None? ==> Delivered(outs) == [])
  {
    var rx0 := Initial(legs, start, grace, capacity);
    InitialSoFar(legs, start, grace, capacity, src);
    RunRefusedIff(rx0, calls);
    var next := RunSoFar(rx0, calls, src, rx0.ring.expected);
    SoFarIsStretch(AfterPolls(rx0, calls).0, AfterPolls(rx0, calls).1, src, next);
  }
}
