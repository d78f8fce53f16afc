/** When a run hands out octets outside a datagram: exactly when some datagram of it strands
    an inline item. */
module MoldPanics {
  import opened Octets
  import opened MoldWire
  import opened Reassembly
  import opened Arbiter
  import opened MoldReceiver
  import opened MoldOrder
  import opened MoldRefusals
  import opened MoldBounds
  import opened MoldBacking

  // ------------------------------------------------------------- inline items

  /** Messages sit behind the header, never at the start of their datagram. */
  ghost predicate Deep(items: seq<ReadyItem>) {
    forall i :: 0 <= i < |items| && items[i].Inline? ==> items[i].offset > 0
  }

  lemma BlockDeep(w: Work, streamId: nat, q: nat, b: Block, now: nat)
    requires Sized(w.rx) && Deep(w.rx.ready) && b.offset > 0
    ensures Deep(BlockStep(w, streamId, q, b, now).0.rx.ready)
  {
    hide Observe;
    hide Drained;
    hide Blocked;
  }

  lemma {:induction false} BlocksDeep(w: Work, streamId: nat, first: nat, blocks: seq<Block>, i: nat, now: nat)
    requires Sized(w.rx) && i <= |blocks| && Deep(w.rx.ready)
    requires forall j :: 0 <= j < |blocks| ==> blocks[j].offset > 0
    ensures Deep(Blocks(w, streamId, first, blocks, i, now).0.rx.ready)
    decreases |blocks| - i
  {
    hide BlockStep;
    hide Deep;
    if i < |blocks| {
      BlockDeep(w, streamId, first + i, blocks[i], now);
      BlockStepFrame(w, streamId, first + i, blocks[i], now);
      var (w1, full) := BlockStep(w, streamId, first + i, blocks[i], now);
      if !full {
        BlocksDeep(w1, streamId, first, blocks, i + 1, now);
      }
    }
  }

  // ------------------------------------------------------------- doomed states

  /** An inline item waits without its datagram. */
  ghost predicate Doomed(rx: Rx) {
    && Sized(rx) && rx.backing.held == [] && InlineOut(rx) == 0 && Deep(rx.ready) && Inlines(rx.ready) > 0
  }

  /** A stranding datagram leaves an inline item without it. */
  lemma DataDooms(rx: Rx, streamId: nat, d: Octets, h: DownstreamHeader, blocks: seq<Block>, now: nat)
    requires AtRest(rx) && Strands(rx, h.sequence, |blocks|)
    requires forall j :: 0 <= j < |blocks| ==> InBounds(d, blocks[j]) && blocks[j].offset > 0
    ensures var (out, r) := ProcessData(rx, streamId, d, h, blocks, now); Doomed(out) && r == Err(BufferFull)
  {
    hide Blocks;
    hide Strands;
    DecodedFits(rx, streamId, d, h, blocks, now);
    BlocksDeep(Work(OpenGap(rx, h, now), Owned(d), 0), streamId, h.sequence, blocks, 0, now);
    hide Ahead;
    hide ItemsFit;
    hide RingFits;
  }

  lemma TurnDooms(rx: Rx, now: nat)
    requires AtRest(rx) && rx.pending != [] && Stranding(rx)
    ensures Doomed(Turn(rx, now).0) && Turn(rx, now).1 == Err(BufferFull)
  {
    hide ProcessData;
    hide ParseHeader;
    hide ParseBlocks;
    hide Strands;
    var (streamId, d) := rx.pending[0];
    var (h, accepted) := Accepted(rx).value;
    assert AtRest(accepted);
    var blocks := ParseBlocks(d, HEADER_LEN, h.messageCount).value;
    BlocksInBounds(d, HEADER_LEN, h.messageCount);
    DataDooms(accepted, streamId, d, h, blocks, now);
  }

  lemma {:induction false} PumpDooms(rx: Rx, bursts: seq<Burst>, clock: nat -> nat, k: nat)
    requires Backed(rx) && rx.current.None?
    ensures Sized(rx)
    ensures !NoneStranding(PumpTurns(rx, bursts, clock, k)) ==>
              Doomed(Pump(rx, bursts, clock, k).0) && Pump(rx, bursts, clock, k).1.Err?
    decreases |bursts|, |rx.pending|
  {
    SizedOf(rx);
    hide Turn;
    hide Stranding;
    hide Doomed;
    if rx.ready == [] && rx.pending != [] {
      TurnBackedIff(rx, clock(k));
      TurnFrame(rx, clock(k));
      hide Backed;
      var (rx1, r) := Turn(rx, clock(k));
      if Stranding(rx) {
        TurnDooms(rx, clock(k));
      } else if r.Ok? {
        PumpDooms(rx1, bursts, clock, k + 1);
        var rest := PumpTurns(rx1, bursts, clock, k + 1);
        assert PumpTurns(rx, bursts, clock, k) == [rx] + rest;
        assert forall s :: s in [rx] + rest <==> s == rx || s in rest;
      }
    } else if rx.ready == [] && bursts != [] {
      var (rx1, r) := PollSources(rx, bursts[0]);
      assert Backed(rx1);
      if r.Ok? && rx1.pending != [] {
        PumpDooms(rx1, bursts[1..], clock, k);
      }
    }
  }

  lemma PollDooms(rx: Rx, c: Call)
    requires Backed(rx)
    ensures Sized(rx)
    ensures !NoneStranding(PollTurns(rx, c)) ==> Doomed(Poll(rx, c).0)
  {
    SizedOf(rx);
    RetireBacked(rx);
    PumpDooms(Retire(rx), c.bursts, c.clock, 0);
    hide Pump;
    hide PumpTurns;
    hide NoneStranding;
    hide Backed;
    hide Doomed;
  }

  /** Nothing is received while items wait: a poll hands out the first of them. */
  lemma PollHandsOut(rx: Rx, c: Call)
    requires Sized(rx) && rx.ready != []
    ensures PollTurns(rx, c) == [] && |Poll(rx, c).0.ready| == |rx.ready| - 1
    ensures var rest := Retire(rx).(ready := rx.ready[1..]);
            Poll(rx, c) == if c.owned then YieldOwned(rest, rx.ready[0]) else YieldItem(rest, rx.ready[0])
  {
  }

  lemma DoomedPoll(rx: Rx, c: Call)
    requires Doomed(rx)
    ensures var (out, o) := Poll(rx, c); !StaysInside([o]) || (Doomed(out) && |out.ready| == |rx.ready| - 1)
  {
    PollHandsOut(rx, c);
    assert forall i :: 0 <= i < |rx.ready| - 1 ==> rx.ready[1..][i] == rx.ready[i + 1];
  }

  // -------------------------------------------------------------- whole runs

  /** A run in two parts. */
  lemma {:induction false} RunConcat(rx0: Rx, calls: seq<Call>, more: seq<Call>)
    requires Sized(rx0)
    ensures var (rx, outs) := AfterPolls(rx0, calls);
            && AfterPolls(rx0, calls + more) == (AfterPolls(rx, more).0, outs + AfterPolls(rx, more).1)
            && RunTurns(rx0, calls + more) == RunTurns(rx0, calls) + RunTurns(rx, more)
    decreases |more|
  {
    hide Poll;
    hide PollTurns;
    if more == [] {
      var (rx, outs) := AfterPolls(rx0, calls);
      assert calls + more == calls && outs + [] == outs && RunTurns(rx0, calls) + [] == RunTurns(rx0, calls);
      assert AfterPolls(rx, more) == (rx, []) && RunTurns(rx, more) == [];
    } else {
      var (init, c) := (more[..|more| - 1], more[|more| - 1]);
      RunConcat(rx0, calls, init);
      assert (calls + more)[..|calls + more| - 1] == calls + init;
      var (rx, outs) := AfterPolls(rx0, calls);
      var mid := AfterPolls(rx, init);
      Assoc(outs, mid.1, [Poll(mid.0, c).1]);
      Assoc(RunTurns(rx0, calls), RunTurns(rx, init), PollTurns(mid.0, c));
    }
  }

  /** A doomed receiver hands out octets outside a datagram once it is polled as often as
      items wait, whatever the polls find. */
  lemma {:induction false} DoomedRun(rx: Rx, more: seq<Call>)
    requires Doomed(rx) && |more| >= |rx.ready|
    ensures !StaysInside(AfterPolls(rx, more).1)
    decreases |more|
  {
    assert |rx.ready| > 0;
    DoomedPoll(rx, more[0]);
    RunConcat(rx, more[..1], more[1..]);
    OnePoll(rx, more[0]);
    assert more == more[..1] + more[1..] && more[..1] == [more[0]];
    hide Poll;
    hide Doomed;
    var (out, o) := Poll(rx, more[0]);
    if StaysInside([o]) {
      DoomedRun(out, more[1..]);
    }
  }

  lemma OnePoll(rx: Rx, c: Call)
    requires Sized(rx)
    ensures AfterPolls(rx, [c]) == (Poll(rx, c).0, [Poll(rx, c).1]) && RunTurns(rx, [c]) == PollTurns(rx, c)
  {
    hide Poll;
    hide PollTurns;
    hide Sized;
    assert [c][..0] == [];
    assert AfterPolls(rx, []) == (rx, []) && RunTurns(rx, []) == [];
    assert [] + PollTurns(rx, c) == PollTurns(rx, c) && [] + [Poll(rx, c).1] == [Poll(rx, c).1];
    assert AfterPolls(rx, [c]) == (Poll(rx, c).0, [] + [Poll(rx, c).1]);
  }

  /** A run that strands has handed out such octets or is bound to. */
  lemma {:induction false} RunDooms(rx0: Rx, calls: seq<Call>)
    requires Backed(rx0)
    ensures Sized(rx0)
    ensures !NoneStranding(RunTurns(rx0, calls)) ==>
              !StaysInside(AfterPolls(rx0, calls).1) || Doomed(AfterPolls(rx0, calls).0)
    decreases |calls|
  {
    SizedOf(rx0);
    RunBackedIff(rx0, calls);
    hide Backed;
    hide Poll;
    hide PollTurns;
    hide Stranding;
    if calls != [] {
      var (init, c) := (calls[..|calls| - 1], calls[|calls| - 1]);
      var (before, outs) := AfterPolls(rx0, init);
      RunDooms(rx0, init);
      RunBackedIff(rx0, init);
      var (earlier, turns) := (RunTurns(rx0, init), PollTurns(before, c));
      assert RunTurns(rx0, calls) == earlier + turns && AfterPolls(rx0, calls).1 == outs + [Poll(before, c).1];
      assert forall s :: s in earlier + turns <==> s in earlier || s in turns;
      if NoneStranding(earlier) {
        PollDooms(before, c);
      } else if Doomed(before) {
        DoomedPoll(before, c);
      }
      hide Doomed;
    }
  }

  /** Polls that only hand out waiting items decode nothing. */
  lemma {:induction false} HandingOut(rx: Rx, more: seq<Call>)
    requires Sized(rx) && |more| <= |rx.ready|
    ensures RunTurns(rx, more) == [] && |AfterPolls(rx, more).0.ready| == |rx.ready| - |more|
    decreases |more|
  {
    hide Poll;
    hide PollTurns;
    if more != [] {
      var init := more[..|more| - 1];
      HandingOut(rx, init);
      PollHandsOut(AfterPolls(rx, init).0, more[|more| - 1]);
    }
  }

  lemma RunOutsideIff(rx0: Rx, calls: seq<Call>, more: seq<Call>)
    requires Backed(rx0)
    ensures Sized(rx0)
    ensures |more| == |AfterPolls(rx0, calls).0.ready| ==>
              (StaysInside(AfterPolls(rx0, calls + more).1) <==> NoneStranding(RunTurns(rx0, calls)))
  {
    SizedOf(rx0);
    hide Backed;
    hide Stranding;
    hide Sized;
    hide Poll;
    hide PollTurns;
    var (rx, outs) := AfterPolls(rx0, calls);
    if |more| == |rx.ready| {
      RunConcat(rx0, calls, more);
      RunDooms(rx0, calls);
      if NoneStranding(RunTurns(rx0, calls)) {
        HandingOut(rx, more);
        RunBackedIff(rx0, calls + more);
      } else if StaysInside(outs) {
        DoomedRun(rx, more);
      }
      hide Doomed;
    }
  }

  /** Over any datagrams that leave room below 2^64 and any number of legs: once the items
      still waiting after a run are handed out, by polls of any kind, no poll has panicked
      and no owned frame lies outside its datagram, if and only if no datagram of the run
      strands an inline item in the state it meets. */
  lemma OutsideIffStranding(legs: nat, start: Option<nat>, grace: nat, capacity: nat, calls: seq<Call>,
                            more: seq<Call>)
    requires legs > 0 && capacity > 0 && RunFits(legs, start, grace, capacity, calls)
    requires |more| == |AfterPolls(Initial(legs, start, grace, capacity), calls).0.ready|
    ensures var rx0 := Initial(legs, start, grace, capacity);
            StaysInside(AfterPolls(rx0, calls + more).1) <==> NoneStranding(RunTurns(rx0, calls))
  {
    hide AfterPolls;
    hide RunTurns;
    hide RunFits;
    hide NoneStranding;
    var rx0 := Initial(legs, start, grace, capacity);
    assert Backed(rx0);
    RunOutsideIff(rx0, calls, more);
  }
}
