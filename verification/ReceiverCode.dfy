/** The receiver as it runs: ring, interval map, bitmap and queues updated in place.
    Every method does to `State()` what the machine of `MoldReceiver` does. */
module ReceiverCode {
  import opened Octets
  import opened MoldWire
  import opened GapTracking
  import opened Reassembly
  import opened Arbiter
  import M = MoldReceiver

  lemma RepeatGrows(item: M.ReadyItem, n: nat)
    ensures M.Repeat(item, n + 1) == M.Repeat(item, n) + [item]
  {
  }

  /** The first `n` of these sequences. */
  ghost function Among(qs: seq<nat>, n: nat): iset<nat>
    requires n <= |qs|
  {
    iset q | q in qs[..n]
  }

  lemma NoneYet(gaps: iset<nat>, ready: seq<M.ReadyItem>, qs: seq<nat>)
    ensures gaps + Among(qs, 0) == gaps && ready + M.Repeat(M.GapItem, 0) == ready
  {
  }

  lemma OneMore(gaps: iset<nat>, ready: seq<M.ReadyItem>, qs: seq<nat>, i: nat)
    requires i < |qs|
    ensures (gaps + Among(qs, i)) + iset{qs[i]} == gaps + Among(qs, i + 1)
    ensures (ready + M.Repeat(M.GapItem, i)) + [M.GapItem] == ready + M.Repeat(M.GapItem, i + 1)
  {
    assert qs[..i + 1] == qs[..i] + [qs[i]];
    RepeatGrows(M.GapItem, i);
    Assoc(ready, M.Repeat(M.GapItem, i), [M.GapItem]);
  }

  class MoldUdpReceiver {
    const reassembler: SequenceReassembler<M.MessageView>
    const gapHandler: GapRequestHandler
    const arbiter: AbArbiter?
    const recoveryStream: nat
    var session: Option<Octets>
    var nextUnseen: nat
    var ready: seq<M.ReadyItem>
    var current: Option<M.ReadyItem>
    var pendingDatagrams: seq<(nat, Octets)>
    var backing: M.Backing
    var inlinePending: int
    var seqAnchored: bool
    ghost const start: Option<nat>
    ghost var anchor: nat
    ghost var seen: seq<Octets>

    /** The receiver's parts, none shared with anything else. */
    ghost function Parts(): set<object> {
      {reassembler, reassembler.slots, gapHandler} + if arbiter == null then {} else {arbiter, arbiter.bits}
    }

    ghost predicate Valid()
      reads this, Parts()
    {
      && reassembler.Valid() && gapHandler.Valid()
      && (arbiter != null ==> arbiter.Valid() && arbiter.bits as object != reassembler.slots)
    }

    ghost function State(): M.Rx
      reads this, Parts()
    {
      M.Rx(session, reassembler.State(), nextUnseen, gapHandler.State(),
           if arbiter == null then None else Some(arbiter.State()),
           ready, current, pendingDatagrams, backing, inlinePending, seqAnchored, anchor, seen, start, recoveryStream)
    }

    lemma ValidIsSized()
      requires Valid()
      ensures M.Sized(State())
    {
    }

    constructor (legs: nat, start: Option<nat>, grace: nat)
      requires legs > 0
      ensures Valid() && fresh(Parts())
      ensures State() == M.Initial(legs, start, grace, M.RING_CAPACITY)
    {
      var ring := new SequenceReassembler<M.MessageView>(M.RING_CAPACITY);
      var gaps := new GapRequestHandler();
      var arb: AbArbiter? := null;
      if legs > 1 {
        arb := new AbArbiter(M.RING_CAPACITY, grace);
      }
      if start.Some? {
        ring.ResetExpected(start.value);
        if arb != null {
          arb.Rebase(start.value);
        }
      }
      reassembler, gapHandler, arbiter, recoveryStream := ring, gaps, arb, legs;
      session, nextUnseen, ready, current, pendingDatagrams := None, ring.expectedNext, [], None, [];
      backing, inlinePending, seqAnchored := M.EMPTY_BACKING, 0, start.Some?;
      this.start, anchor, seen := start, ring.expectedNext, [];
    }

    // ------------------------------------------------------ handing items out

    method ReleaseInline()
      modifies this`inlinePending, this`backing
      ensures State() == M.Release(old(State()))
    {
      inlinePending := inlinePending - 1;
      if inlinePending == 0 {
        backing := M.EMPTY_BACKING;
      }
    }

    method RetireCurrent()
      modifies this`current, this`inlinePending, this`backing
      ensures State() == M.Retire(old(State()))
    {
      var taken := current;
      current := None;
      if taken.Some? && taken.value.Inline? {
        ReleaseInline();
      }
    }

    method YieldItem(item: M.ReadyItem) returns (o: M.Outcome)
      modifies this`current
      ensures (State(), o) == M.YieldItem(old(State()), item)
    {
      current := Some(item);
      match item
      case Inline(sequence, streamId, offset, len) => o := M.Sliced(backing.held, offset, len, sequence, streamId);
      case View(view, sequence, streamId) => o := M.Sliced(view.datagram, view.offset, view.len, sequence, streamId);
      case EventItem(event) => o := M.Event(event);
      case GapItem => o := M.GapDetected;
    }

    method YieldOwned(item: M.ReadyItem) returns (o: M.Outcome)
      modifies this`inlinePending, this`backing
      ensures (State(), o) == M.YieldOwned(old(State()), item)
    {
      match item
      case Inline(sequence, streamId, offset, len) =>
        var datagram := backing.held;
        backing := M.Shared(datagram);
        ReleaseInline();
        o := M.SlicedLater(datagram, offset, len, sequence, streamId);
      case View(view, sequence, streamId) =>
        o := M.SlicedLater(view.datagram, view.offset, view.len, sequence, streamId);
      case EventItem(event) => o := M.Event(event);
      case GapItem => o := M.GapDetected;
    }

    // ----------------------------------------------------------------- headers

    method NoteTailGap(nextExpected: nat)
      requires Valid()
      modifies this, Parts()
      ensures Valid() && State() == M.NoteTailGap(old(State()), nextExpected)
    {
      var expected := nextUnseen;
      if nextExpected > expected {
        nextUnseen := nextExpected;
        gapHandler.RecordMissingRange(expected, nextExpected);
        ready := ready + [M.GapItem];
      }
    }

    method AcceptHeader(h: DownstreamHeader) returns (r: Result<(), M.MoldError>)
      requires Valid()
      modifies this, Parts()
      ensures Valid()
      ensures match M.AcceptHeader(old(State()), h)
              case Err(e) => r == Err(e) && State() == old(State())
              case Ok(accepted) => r == Ok(()) && State() == accepted
    {
      match session {
        case None => session := Some(h.session);
        case Some(expected) =>
          if expected != h.session {
            return Err(M.SessionMismatch);
          }
      }
      if !seqAnchored {
        reassembler.ResetExpected(h.sequence);
        nextUnseen := h.sequence;
        if arbiter != null {
          arbiter.Rebase(h.sequence);
        }
        seqAnchored := true;
        anchor := h.sequence;
      }
      return Ok(());
    }

    method OpenGap(h: DownstreamHeader, now: nat)
      requires Valid()
      modifies this, Parts()
      ensures Valid() && State() == M.OpenGap(old(State()), h, now)
    {
      var unseen := nextUnseen;
      if h.sequence > unseen {
        if arbiter != null {
          arbiter.NoteMissingRange(unseen, h.sequence, now);
        } else {
          gapHandler.RecordMissingRange(unseen, h.sequence);
          ready := ready + [M.GapItem];
        }
      }
      nextUnseen := Max(unseen, M.SaturatingAdd(h.sequence, h.messageCount));
    }

    // ------------------------------------------------------------------ blocks

    /** Queues what is contiguous from `first` on. */
    method DrainTo(first: nat, streamId: nat)
      requires Valid()
      modifies this`ready, reassembler, reassembler.slots
      ensures Valid() && State() == M.DrainTo(old(State()), first, streamId)
    {
      var run := reassembler.DrainAll();
      ready := ready + M.Views(run, first, streamId);
    }

    method Place(streamId: nat, q: nat, b: Block, backing0: M.Backing, inline0: nat)
      returns (held: M.Backing, inline: nat, full: bool)
      requires Valid()
      modifies this, Parts()
      ensures Valid()
      ensures M.Sized(old(State()))
      ensures (M.Work(State(), held, inline), full) == M.Place(M.Work(old(State()), backing0, inline0), streamId, q, b)
    {
      hide Drained;
      hide Placed;
      hide M.Views;
      held, inline, full := backing0, inline0, false;
      gapHandler.MarkReceived(q);
      var next := reassembler.expectedNext;
      if q == next {
        reassembler.AdvanceExpected(1);
        ready := ready + [M.Inline(q, streamId, b.offset, b.len)];
        inline := inline + 1;
        DrainTo(q + 1, streamId);
      } else if q > next {
        held := M.Shared(held.held);
        var inserted := reassembler.Insert(q, M.MessageView(held.held, b.offset, b.len));
        if inserted == Full {
          full := true;
        } else if inserted == Ready {
          DrainTo(q, streamId);
        }
      }
    }

    method Block(streamId: nat, q: nat, b: Block, now: nat, backing0: M.Backing, inline0: nat)
      returns (held: M.Backing, inline: nat, full: bool)
      requires Valid()
      modifies this, Parts()
      ensures Valid()
      ensures M.Sized(old(State()))
      ensures (M.Work(State(), held, inline), full) ==
              M.BlockStep(M.Work(old(State()), backing0, inline0), streamId, q, b, now)
    {
      if arbiter != null {
        var verdict := arbiter.ObserveSequence(q, now);
        if verdict != Forward {
          return backing0, inline0, false;
        }
      }
      held, inline, full := Place(streamId, q, b, backing0, inline0);
    }

    method ProcessData(streamId: nat, d: Octets, h: DownstreamHeader, blocks: seq<Block>, now: nat)
      returns (r: Result<(), M.MoldError>)
      requires Valid()
      modifies this, Parts()
      ensures Valid() && M.Sized(old(State()))
      ensures (State(), r) == M.ProcessData(old(State()), streamId, d, h, blocks, now)
    {
      hide M.BlockStep;
      hide M.OpenGap;
      ValidIsSized();
      OpenGap(h, now);
      ValidIsSized();
      var held, inline := M.Owned(d), 0;
      ghost var done := M.Blocks(M.Work(State(), held, inline), streamId, h.sequence, blocks, 0, now);
      for i := 0 to |blocks|
        invariant Valid() && M.Sized(State())
        invariant M.Blocks(M.Work(State(), held, inline), streamId, h.sequence, blocks, i, now) == done
      {
        var full: bool;
        held, inline, full := Block(streamId, h.sequence + i, blocks[i], now, held, inline);
        ValidIsSized();
        if full {
          return Err(M.BufferFull);
        }
      }
      if inline > 0 {
        backing := held;
        inlinePending := inline;
      }
      return Ok(());
    }

    // --------------------------------------------------------------- datagrams

    method ProcessAccepted(streamId: nat, d: Octets, h: DownstreamHeader, now: nat) returns (r: Result<(), M.MoldError>)
      requires Valid() && ParseHeader(d) == Ok(h)
      modifies this, Parts()
      ensures Valid() && M.Sized(old(State()))
      ensures (State(), r) == M.ProcessAccepted(old(State()), streamId, d, h, now)
    {
      hide M.ProcessData;
      ValidIsSized();
      match Kind(h)
      case Heartbeat =>
        NoteTailGap(h.sequence);
        ready := ready + [M.EventItem(M.HeartbeatSeen(h.sequence))];
        return Ok(());
      case EndOfSession =>
        NoteTailGap(h.sequence);
        ready := ready + [M.EventItem(M.SessionEnded(h.sequence))];
        return Ok(());
      case Data =>
        var blocks := CollectBlocks(h, d);
        if blocks.Err? {
          return Err(M.Wire(blocks.error));
        }
        r := ProcessData(streamId, d, h, blocks.value, now);
    }

    /** Decodes the next pending datagram into ready items. */
    method ProcessNextPending(now: nat) returns (r: Result<(), M.MoldError>)
      requires Valid()
      modifies this, Parts()
      ensures Valid() && M.Sized(old(State()))
      ensures (State(), r) == M.ProcessNext(old(State()), now)
    {
      hide M.ProcessAccepted;
      ValidIsSized();
      if pendingDatagrams == [] {
        return Ok(());
      }
      var (streamId, d) := pendingDatagrams[0];
      pendingDatagrams := pendingDatagrams[1..];
      seen := seen + [d];
      var h := ParseHeader(d);
      if h.Err? {
        return Err(M.Wire(h.error));
      }
      var accepted := AcceptHeader(h.value);
      if accepted.Err? {
        return Err(accepted.error);
      }
      r := ProcessAccepted(streamId, d, h.value, now);
    }

    /** One candidate becomes a gap. */
    method ConfirmGap(q: nat)
      requires Valid()
      modifies gapHandler, this`ready
      ensures Valid()
      ensures State() == old(State()).(gaps := old(gapHandler.State()) + iset{q}, ready := old(ready) + [M.GapItem])
    {
      gapHandler.RecordGap(q);
      ready := ready + [M.GapItem];
    }

    /** Promotes gap candidates whose confirm window is over. */
    method DrainConfirmedGaps(now: nat)
      requires Valid()
      modifies this, Parts()
      ensures Valid() && State() == M.DrainConfirmed(old(State()), now)
    {
      hide Due;
      hide Confirm;
      hide Missing;
      hide M.Repeat;
      if arbiter == null {
        return;
      }
      ghost var before := State();
      var confirmed := arbiter.ConfirmedGaps(now);
      ghost var arb := arbiter.State();
      ghost var mid := before.(arbiter := Some(arb));
      assert State() == mid;
      NoneYet(before.gaps, before.ready, confirmed);
      hide Valid;
      for i := 0 to |confirmed|
        invariant Valid()
        invariant State() == mid.(gaps := before.gaps + Among(confirmed, i),
                                       ready := before.ready + M.Repeat(M.GapItem, i))
        modifies gapHandler, this`ready
      {
        OneMore(before.gaps, before.ready, confirmed, i);
        ConfirmGap(confirmed[i]);
      }
      assert Among(confirmed, |confirmed|) == iset q | q in confirmed;
    }

    // ------------------------------------------------------------------- polls

    /** One round over the legs and, while a gap is open, the requester. */
    method PollSources(burst: M.Burst) returns (r: Result<(), M.MoldError>)
      requires Valid()
      modifies this`pendingDatagrams
      ensures Valid() && (State(), r) == M.PollSources(old(State()), burst)
    {
      pendingDatagrams := pendingDatagrams + burst.legs;
      if burst.legError {
        return Err(M.Transport);
      }
      var open := gapHandler.HasPending();
      if open {
        if burst.recoveryError {
          return Err(M.Transport);
        }
        pendingDatagrams := pendingDatagrams + M.Tagged(burst.recovered, recoveryStream);
      }
      return Ok(());
    }

    method Turn(now: nat) returns (r: Result<(), M.MoldError>)
      requires Valid()
      modifies this, Parts()
      ensures Valid() && M.Sized(old(State()))
      ensures (State(), r) == M.Turn(old(State()), now)
    {
      hide M.ProcessNext;
      hide M.DrainConfirmed;
      r := ProcessNextPending(now);
      if r.Ok? {
        DrainConfirmedGaps(now);
      }
    }

    /** Polls and decodes until an item is ready or every source is idle. */
    method Pump(bursts: seq<M.Burst>, clock: nat -> nat) returns (r: Result<(), M.MoldError>)
      requires Valid()
      modifies this, Parts()
      ensures Valid() && M.Sized(old(State()))
      ensures (State(), r) == M.Pump(old(State()), bursts, clock, 0)
    {
      hide M.Turn;
      hide M.PollSources;
      ValidIsSized();
      ghost var done := M.Pump(State(), bursts, clock, 0);
      var round, k := 0, 0;
      while ready == []
        invariant Valid() && M.Sized(State()) && round <= |bursts|
        invariant M.Pump(State(), bursts[round..], clock, k) == done
        decreases |bursts| - round, |pendingDatagrams|, ready == []
      {
        if pendingDatagrams == [] {
          if round == |bursts| {
            return Ok(());
          }
          assert bursts[round..][0] == bursts[round] && bursts[round..][1..] == bursts[round + 1..];
          r := PollSources(bursts[round]);
          ValidIsSized();
          round := round + 1;
          if r.Err? || pendingDatagrams == [] {
            return r;
          }
        } else {
          M.TurnFrame(State(), clock(k));
          r := Turn(clock(k));
          ValidIsSized();
          if r.Err? {
            return r;
          }
          k := k + 1;
        }
      }
      return Ok(());
    }

    /** `poll`, or `recv_owned` when `owned`. */
    method Poll(c: M.Call) returns (o: M.Outcome)
      requires Valid()
      modifies this, Parts()
      ensures Valid() && M.Sized(old(State()))
      ensures (State(), o) == M.Poll(old(State()), c)
    {
      hide M.Pump;
      ValidIsSized();
      RetireCurrent();
      ValidIsSized();
      var r := Pump(c.bursts, c.clock);
      if r.Err? {
        return M.Failed(r.error);
      }
      if ready == [] {
        return M.Idle;
      }
      var item := ready[0];
      ready := ready[1..];
      if c.owned {
        o := YieldOwned(item);
      } else {
        o := YieldItem(item);
      }
    }
  }
}
