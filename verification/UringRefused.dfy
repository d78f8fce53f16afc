/** A run of the io_uring engine that leaves slots behind: the provide of one of them meets
    a full submission queue and a busy kernel. */
module UringRefused {
  import opened Octets
  import opened Slots
  import opened SlotPool
  import opened ProvideRuns
  import opened Uring
  import opened UringSound
  import opened UringRuns

  /** Frames into the slots 0, 2, ... one poll at a time, then all of them dropped at once. */
  function Plan(k: nat): seq<seq<Move>>
    requires k <= 5
    decreases 5 - k
  {
    if k == 5 then [[DropFrame(0), DropFrame(0), DropFrame(0), DropFrame(0), DropFrame(0)]]
    else [[Deliver(k, 1, false)], []] + Plan(k + 1)
  }

  /** The kernel takes each new request, and then is busy. */
  function Answers(k: nat): seq<Enter>
    requires k <= 5
    decreases 5 - k
  {
    if k == 5 then [Busy] else [Took(1)] + Answers(k + 1)
  }

  function Evens(k: nat): (s: seq<nat>)
    ensures |s| == k
  {
    if k == 0 then [] else Evens(k - 1) + [2 * (k - 1)]
  }

  function Odds(k: nat): (s: seq<nat>)
    ensures |s| == k
  {
    if k == 0 then [] else Odds(k - 1) + [2 * k - 1]
  }

  /** After `k` frames. */
  ghost predicate AtFrame(u: Uring, k: nat)
    requires k <= 5
  {
    && u.path == Legacy && u.depth == 1 && u.capacity == 4 && 10 <= u.slots && 0 < u.slotSize
    && u.sq == [] && u.cq == [] && u.back == [] && u.freed == [] && u.minted == []
    && u.inflight == 1 && u.armed == 1 && !u.starved
    && u.group == Odds(k) + ProvideRuns.Run(2 * k, u.slots - 2 * k) && u.held == Evens(k)
    && u.moves == Plan(k) && u.enters == Answers(k)
  }

  lemma GroupAt(slots: nat, k: nat)
    requires k < 5 && 10 <= slots
    ensures var group := Odds(k) + ProvideRuns.Run(2 * k, slots - 2 * k);
            && |group| > k && group[k] == 2 * k
            && Without(group, k) == Odds(k + 1) + ProvideRuns.Run(2 * (k + 1), slots - 2 * (k + 1))
  {
    var (odds, run) := (Odds(k), ProvideRuns.Run(2 * k, slots - 2 * k));
    assert Odds(k + 1) == odds + [2 * k + 1];
    hide Odds;
    var rest := ProvideRuns.Run(2 * (k + 1), slots - 2 * (k + 1));
    assert run == [2 * k] + ([2 * k + 1] + rest);
    hide ProvideRuns.Run;
    assert (odds + run)[..k] == odds && (odds + run)[k + 1..] == [2 * k + 1] + rest;
    Assoc(odds, [2 * k + 1], rest);
  }

  lemma FrameArrives(u: Uring, k: nat)
    requires k < 5 && AtFrame(u, k)
    ensures var v := Others(u);
            var cqe := Cqe(Recv, 1, Flags(2 * k, false));
            && v == u.(moves := [[]] + Plan(k + 1), group := Without(u.group, k), cq := [cqe],
                       posted := u.posted + [cqe], inflight := 0)
            && Classify(cqe, u.slotSize, false) == Data(2 * k, 1, true)
  {
    hide Answers;
    hide Evens;
    hide Odds;
    hide ProvideRuns.Run;
    hide Without;
    hide Flags;
    GroupAt(u.slots, k);
    FlagBits(2 * k, false);
    var cqe := Cqe(Recv, 1, Flags(2 * k, false));
    var w := u.(moves := [[]] + Plan(k + 1));
    var turn := [Deliver(k, 1, false)];
    assert u.moves[0] == turn && u.moves[1..] == [[]] + Plan(k + 1);
    hide Plan;
    assert Classify(cqe, u.slotSize, false) == Data(2 * k, 1, true);
    hide Classify;
    assert Performed(w, turn, 0) == w;
    assert u.cq + [cqe] == [cqe];
    assert Performed(w, turn, 1) == Post(w.(group := Without(w.group, k)), cqe, true);
  }

  /** The poll reads the one frame. */
  lemma FrameIsRead(u: Uring, slot: nat)
    requires u.path == Legacy && u.back == [] && u.freed == [] && u.minted == [] && u.armed == 1 && |u.cq| == 1
    requires u.cq[0].tag == Recv && Classify(u.cq[0], u.slotSize, false) == Data(slot, 1, true)
    ensures var (h, failed) := Harvest(Drain(u), 1);
            && failed.None? && h.yielded == u.yielded + [IndexFrame(slot, 0, 1)]
            && h == u.(cq := [], minted := [slot], armed := 0, read := h.read, yielded := h.yielded, offered := [])
  {
    hide Classify;
    var d := Drain(u);
    assert d.minted + [slot] == [slot];
    assert Readable(d.cq[1..], 0, d.slotSize, false) == 0;
    assert Readable(d.cq, 1, d.slotSize, false) == 1;
    assert Taken(d, 0) == d;
    assert Taken(d, 1) == TakeOne(d);
  }

  lemma FrameIsPolled(u: Uring, k: nat)
    requires k < 5 && AtFrame(u, k)
    ensures AtFrame(Round(u, 1).0, k + 1)
  {
    hide Plan;
    hide Answers;
    hide Evens;
    hide Odds;
    hide ProvideRuns.Run;
    hide Classify;
    hide Flags;
    hide Harvest;
    hide Others;
    hide Refill;
    hide Without;
    FrameArrives(u, k);
    GroupAt(u.slots, k);
    var ready := Others(u);
    FrameIsRead(ready, 2 * k);
    var h := Harvest(Drain(ready), 1).0;
    QuietTurn(h, Plan(k + 1));
    var w := h.(moves := Plan(k + 1));
    NextOf(k);
    RefillArms(w);
  }

  lemma NextOf(k: nat)
    requires k < 5
    ensures Answers(k) != [] && Answers(k)[0] == Took(1) && Answers(k)[1..] == Answers(k + 1)
    ensures Evens(k + 1) == Evens(k) + [2 * k]
  {
  }

  lemma QuietTurn(u: Uring, rest: seq<seq<Move>>)
    requires u.moves == [[]] + rest
    ensures Others(u) == u.(moves := rest)
  {
  }

  lemma RefillArms(u: Uring)
    requires u.sq == [] && u.back == [] && u.capacity == 4 && u.depth == 1 && u.armed == 0 && !u.starved
    requires u.enters != [] && u.enters[0] == Took(1)
    ensures Refill(u, false) == (u.(armed := 1, inflight := u.inflight + 1, enters := u.enters[1..]), None)
  {
    hide HandRuns;
    var a := u.(sq := [Receive], armed := 1);
    assert u.sq + [Receive] == [Receive];
    assert Arm(a, 0) == (a, None);
    assert Arm(u, 1) == (a, None);
    var v := a.(enters := u.enters[1..]);
    assert Submit(v, 0) == v && [Receive][1..] == [];
    assert Submit(v, 1) == TakeEntry(v);
  }

  lemma ReadyForFrames(slots: nat, slotSize: nat)
    requires 10 <= slots && 0 < slotSize
    ensures AtFrame(Bound(slots, slotSize, Legacy, 1, [Took(2)] + Answers(0), Plan(0)).0, 0)
  {
    hide Plan;
    hide Answers;
    assert QueueSize(1) == 4;
    var (enters, moves) := ([Took(2)] + Answers(0), Plan(0));
    var u := Initial(slots, slotSize, Legacy, 1, enters, moves);
    OneRun(0, slots);
    LengthOfRun(0, slots, 0);
    hide ProvideRuns.Run;
    hide Sort;
    hide RunLength;
    var entry := Provide(0, slots);
    assert u.back[0] == 0 && u.back[slots..] == [];
    var given := u.(sq := [entry], back := []);
    assert u.sq + [entry] == [entry];
    assert HandRuns(given) == (given, None);
    assert HandRuns(u) == (given, None);
    var armed := given.(sq := [entry, Receive], armed := 1);
    assert Arm(armed, 0) == (armed, None);
    assert given.sq + [Receive] == [entry, Receive];
    assert Push(given, Receive) == (given.(sq := [entry, Receive]), None);
    assert Arm(given, 1) == (armed, None);
    var v := armed.(enters := Answers(0));
    assert Submit(v, 0) == v;
    var one := TakeEntry(v);
    assert Submit(v, 1) == one;
    assert Submit(v, 2) == TakeEntry(one);
  }

  lemma {:induction false} FramesSoFar(slots: nat, slotSize: nat, k: nat)
    requires 10 <= slots && 0 < slotSize && k <= 5
    ensures AtFrame(AfterPolls(Bound(slots, slotSize, Legacy, 1, [Took(2)] + Answers(0), Plan(0)).0,
                               seq(k, _ => 1)).0, k)
  {
    hide AtFrame;
    hide Round;
    hide Bound;
    var u0 := Bound(slots, slotSize, Legacy, 1, [Took(2)] + Answers(0), Plan(0)).0;
    var sizes := seq(k, _ => 1);
    if k == 0 {
      ReadyForFrames(slots, slotSize);
    } else {
      FramesSoFar(slots, slotSize, k - 1);
      assert sizes[..k - 1] == seq(k - 1, _ => 1);
      FrameIsPolled(AfterPolls(u0, sizes[..k - 1]).0, k - 1);
    }
  }

  /** Dropping the oldest frame held, again and again. */
  lemma {:induction false} DropsInOrder(u: Uring, turn: seq<Move>, n: nat)
    requires n <= |turn| && n <= |u.held| && forall i :: 0 <= i < |turn| ==> turn[i] == DropFrame(0)
    ensures Performed(u, turn, n) == u.(held := u.held[n..], freed := u.freed + u.held[..n])
  {
    hide Performed;
    hide Perform;
    if n == 0 {
      PerformedNone(u, turn);
      assert u.freed + u.held[..0] == u.freed;
    } else {
      DropsInOrder(u, turn, n - 1);
      PerformedNext(u, turn, n - 1);
      DropsOldest(u, n - 1);
    }
  }

  lemma DropsOldest(u: Uring, n: nat)
    requires n < |u.held|
    ensures Perform(u.(held := u.held[n..], freed := u.freed + u.held[..n]), DropFrame(0)) ==
            u.(held := u.held[n + 1..], freed := u.freed + u.held[..n + 1])
  {
    assert Without(u.held[n..], 0) == u.held[n + 1..];
    assert u.held[..n + 1] == u.held[..n] + [u.held[n]];
    Assoc(u.freed, u.held[..n], [u.held[n]]);
  }

  lemma FramesAreDropped(u: Uring)
    requires AtFrame(u, 5)
    ensures Others(u) == u.(freed := Evens(5), held := [], moves := [])
  {
    var (turn, w) := (u.moves[0], u.(moves := []));
    assert u.moves[1..] == [] && |turn| == 5;
    hide Plan;
    hide Answers;
    hide Evens;
    hide Odds;
    hide ProvideRuns.Run;
    DropsInOrder(w, turn, 5);
    hide Performed;
    assert w.freed + w.held[..5] == Evens(5) && w.held[5..] == [];
  }

  lemma DropsRefused(u: Uring)
    requires AtFrame(u, 5) && Sound(u)
    ensures Round(u, 1).1.result == Err(QueueFull) && Round(u, 1).0.back != []
  {
    hide Plan;
    hide Answers;
    hide Evens;
    hide Odds;
    hide ProvideRuns.Run;
    hide Sound;
    hide Others;
    hide Poll;
    hide Readable;
    hide Sort;
    hide RunCount;
    FramesAreDropped(u);
    OthersSound(u);
    var v := Others(u);
    PollLeavesSlotsIff(v, 1);
    FiveRuns();
    assert Readable(v.cq, 1, v.slotSize, false) == 0;
    assert v.cq[..0] == [] && CutSlots(v.cq[..0], v.slotSize, false) == [];
    assert Returned(v, 1) == Evens(5);
  }

  lemma FiveRuns()
    ensures RunCount(Sort(Evens(5))) == 5 && Answers(5) == [Busy]
  {
    var s := [0, 2, 4, 6, 8];
    assert Evens(5) == s;
    hide Evens;
    SortOfOrdered(s);
    hide Sort;
    LonelySlots(s);
  }

  /** One request, a queue of four and five dropped slots that are no neighbours: while the
      kernel is busy the fifth provide is refused, and the next poll brings the list of
      dropped slots a list that is not empty. */
  lemma RefusedProvideLeavesSlots(slots: nat, slotSize: nat) returns (enters: seq<Enter>, moves: seq<seq<Move>>)
    requires 10 <= slots <= 0x8000 && 0 < slotSize < 0x8000_0000
    ensures var (u0, bound) := Bound(slots, slotSize, Legacy, 1, enters, moves);
            var (u, outs) := AfterPolls(u0, [1, 1, 1, 1, 1, 1, 1]);
            bound.None? && Honest(moves) && outs[5].result == Err(QueueFull) && u.offered != []
  {
    hide Bound;
    hide AtFrame;
    hide Sound;
    hide Round;
    hide Answers;
    hide Plan;
    hide Accounts;
    hide HadRoom;
    hide Honest;
    hide AfterPolls;
    enters, moves := [Took(2)] + Answers(0), Plan(0);
    var (u0, bound) := Bound(slots, slotSize, Legacy, 1, enters, moves);
    BindFailsIff(slots, slotSize, Legacy, 1, enters, moves);
    var (five, six, sizes) := ([1, 1, 1, 1, 1], [1, 1, 1, 1, 1, 1], [1, 1, 1, 1, 1, 1, 1]);
    FramesSoFar(slots, slotSize, 5);
    RunSound(u0, five);
    assert seq(5, _ => 1) == five && six[..5] == five && sizes[..6] == six;
    DropsRefused(AfterPolls(u0, five).0);
    LastPoll(u0, six);
    RunSound(u0, six);
    SwapOffers(AfterPolls(u0, six).0);
    LastPoll(u0, sizes);
    PlanIsHonest(0);
  }

  lemma LastPoll(u: Uring, sizes: seq<nat>)
    requires sizes != []
    ensures var (before, outs) := AfterPolls(u, sizes[..|sizes| - 1]);
            var (after, o) := Round(before, sizes[|sizes| - 1]);
            AfterPolls(u, sizes) == (after, outs + [o])
  {
  }

  lemma SwapOffers(u: Uring)
    requires Sound(u)
    ensures Round(u, 1).0.offered == u.back
  {
    OthersSound(u);
    OthersYield(u);
    hide Sound;
    hide Others;
    PollLeavesSlotsIff(Others(u), 1);
    hide Poll;
  }

  lemma {:induction false} PlanIsHonest(k: nat)
    requires k <= 5
    ensures Honest(Plan(k))
    decreases 5 - k
  {
    if k < 5 {
      PlanIsHonest(k + 1);
    }
  }
}
