/** Whole lives of the io_uring engine, and exactly when slots stay behind: for every pool,
    path, depth, kernel and schedule. */
module UringRuns {
  import opened Octets
  import opened Slots
  import opened SlotPool
  import opened ProvideRuns
  import opened Uring
  import opened UringSound

  // --------------------------------------------------------- when pushes fail

  /** The error `n` pushes meet in a queue with `free` places left: a full queue needs the
      kernel to take something, and it may be busy or broken. */
  function PushesFail(free: nat, n: nat, capacity: nat, enters: seq<Enter>): Option<Error>
    decreases |enters|
  {
    if n <= free || enters == [] then None
    else
      match enters[0]
      case Broken => Some(EnterFailed)
      case Busy => Some(QueueFull)
      case Interrupted => Some(QueueFull)
      case Took(k) => if k == 0 then Some(QueueFull) else PushesFail(Min(k, capacity), n - free, capacity, enters[1..])
  }

  function Room(u: Uring): nat
  {
    if |u.sq| < u.capacity then u.capacity - |u.sq| else 0
  }

  /** One push, then the others. */
  lemma OnePush(u: Uring, entry: Entry, n: nat)
    requires Sized(u)
    ensures var (v, err) := Push(u, entry);
            && (err.Some? ==> PushesFail(Room(u), n + 1, u.capacity, u.enters) == err)
            && (err.None? ==>
                  && Sized(v) && v.capacity == u.capacity
                  && PushesFail(Room(u), n + 1, u.capacity, u.enters) == PushesFail(Room(v), n, v.capacity, v.enters))
  {
    PushKeepsLists(u, entry);
    if |u.sq| == u.capacity {
      EnterKeepsLists(u);
      var w := u.(enters := if u.enters == [] then [] else u.enters[1..]);
      if NextEnter(u).Took? {
        SubmitKeepsLists(w, Min(NextEnter(u).n, |w.sq|));
      }
      hide Submit;
      FreshRoom(u.capacity, n, w.enters);
    }
  }

  /** Nothing fails past the script. */
  lemma FreshRoom(capacity: nat, n: nat, enters: seq<Enter>)
    ensures enters == [] ==> forall free: nat :: PushesFail(free, n, capacity, enters) == None
  {
  }

  /** Handing over runs fails exactly as that many pushes do. */
  lemma {:induction false} HandRunsFailsIff(u: Uring)
    requires Sized(u)
    ensures HandRuns(u).1 == PushesFail(Room(u), RunCount(u.back), u.capacity, u.enters)
    decreases |u.back|
  {
    hide Push;
    hide Room;
    if u.back != [] {
      var n := RunLength(u.back, 0, u.back[0]);
      var entry := Provide(u.back[0], n);
      OnePush(u, entry, RunCount(u.back[n..]));
      PushKeepsLists(u, entry);
      hide PushesFail;
      hide RunLength;
      var (v, err) := Push(u, entry);
      if err.None? {
        var w := v.(back := v.back[n..]);
        HandRunsFailsIff(w);
        assert Room(w) == Room(v) by { SameRoom(v, w); }
      }
    }
  }

  lemma SameRoom(u: Uring, v: Uring)
    requires u.sq == v.sq && u.capacity == v.capacity
    ensures Room(u) == Room(v)
  {
  }

  lemma {:induction false} ArmFailsIff(u: Uring, n: nat)
    requires Sized(u)
    ensures Arm(u, n).1 == PushesFail(Room(u), n, u.capacity, u.enters)
    decreases n
  {
    hide Push;
    hide Room;
    if n > 0 {
      OnePush(u, Receive, n - 1);
      hide PushesFail;
      var (v, err) := Push(u, Receive);
      if err.None? {
        var w := v.(armed := v.armed + 1);
        ArmFailsIff(w, n - 1);
        assert Room(w) == Room(v) by { SameRoom(v, w); }
      }
    }
  }

  /** Slots stay waiting exactly when the path is the legacy one and a push for one of their
      runs fails. */
  lemma GiveBackFailsIff(u: Uring)
    requires Sound(u)
    ensures Sized(u)
    ensures GiveBack(u).1 ==
            if u.path == Legacy then PushesFail(Room(u), RunCount(Sort(u.back)), u.capacity, u.enters) else None
    ensures GiveBack(u).0.back != [] <==> GiveBack(u).1.Some?
  {
    SoundIsSized(u);
    GiveBackSound(u);
    hide Sound;
    hide HandRuns;
    if u.back == [] {
      assert Sort(u.back) == [] && RunCount([]) == 0;
    } else if u.path == Legacy {
      var v := u.(back := Sort(u.back));
      HandRunsFailsIff(v);
      SameRoom(u, v);
    }
  }

  // ------------------------------------------------- what the kernel's answers give

  /** A datagram the kernel answers with gives, once read, one frame of its buffer and its
      length, or is counted as cut short; and the kernel keeps exactly a multishot request it
      has more for. */
  lemma DeliveryGives(u: Uring, which: nat, len: nat, more: bool)
    requires u.inflight > 0 && (if u.path == Legacy then which < |u.group| else u.unread != [])
    ensures var v := Delivered(u, which, len, more);
            var slot := if u.path == Legacy then u.group[which] else u.unread[0];
            var (frames, cut, starved) := Given(u.posted, u.slotSize, u.IsMultishot());
            && Given(v.posted, u.slotSize, u.IsMultishot()) ==
               (if len <= u.slotSize then (frames + [IndexFrame(slot, 0, len)], cut, starved)
                else (frames, cut + 1, starved))
            && v.inflight == u.inflight - if u.path == Multishot && more then 0 else 1
  {
    hide Given;
    hide Flags;
    hide Without;
    var slot := if u.path == Legacy then u.group[which] else u.unread[0];
    var cqe := Cqe(Recv, len, Flags(slot, more));
    DatagramIsClassified(slot, len, more, u.slotSize, u.path);
    hide Classify;
    var frames := Given(u.posted, u.slotSize, u.IsMultishot()).0;
    assert frames + [] == frames;
    GivenSnoc(u.posted, cqe, u.slotSize, u.IsMultishot());
  }

  /** An empty datagram, a lack of buffers or an error gives no frame; only a lack of buffers
      is counted; and the kernel keeps exactly a multishot request it has more for. */
  lemma AnswerGives(u: Uring, move: Move)
    requires u.inflight > 0 && (move.DeliverEmpty? || move.Starve? || move.Fail?)
    ensures var v := Perform(u, move);
            var (frames, cut, starved) := Given(u.posted, u.slotSize, u.IsMultishot());
            var lack := move.Starve? || (move.Fail? && move.errno + 1 == 105);
            && Given(v.posted, u.slotSize, u.IsMultishot()) == (frames, cut, if lack then starved + 1 else starved)
            && v.inflight == u.inflight - if move.DeliverEmpty? && u.path == Multishot && move.more then 0 else 1
  {
    hide Given;
    AnswerIsClassified(move, u.slotSize, u.path);
    hide Classify;
    var frames := Given(u.posted, u.slotSize, u.IsMultishot()).0;
    assert frames + [] == frames;
    GivenSnoc(u.posted, Bare(move), u.slotSize, u.IsMultishot());
  }

  // ------------------------------------------------------------ what a poll does

  /** The frames of completions. */
  function FramesIn(cqes: seq<Cqe>, slotSize: nat, multishot: bool): seq<IndexFrame>
  {
    if cqes == [] then [] else FrameOf(cqes[0], slotSize, multishot) + FramesIn(cqes[1..], slotSize, multishot)
  }

  lemma {:induction false} FramesSnoc(cqes: seq<Cqe>, cqe: Cqe, slotSize: nat, multishot: bool)
    ensures FramesIn(cqes + [cqe], slotSize, multishot) ==
            FramesIn(cqes, slotSize, multishot) + FrameOf(cqe, slotSize, multishot)
  {
    hide FrameOf;
    if cqes == [] {
      assert [cqe][1..] == [];
    } else {
      FramesSnoc(cqes[1..], cqe, slotSize, multishot);
      assert (cqes + [cqe])[1..] == cqes[1..] + [cqe];
      Assoc(FrameOf(cqes[0], slotSize, multishot), FramesIn(cqes[1..], slotSize, multishot),
            FrameOf(cqe, slotSize, multishot));
    }
  }

  /** What reading completions does to the lists. */
  lemma {:induction false} TakenLists(u: Uring, n: nat)
    requires n <= |u.cq|
    ensures var v := Taken(u, n);
            && v == u.(cq := v.cq, back := v.back, minted := v.minted, armed := v.armed, starved := v.starved,
                       truncated := v.truncated, noBuffer := v.noBuffer, read := v.read, yielded := v.yielded)
            && v.back == u.back + CutSlots(u.cq[..n], u.slotSize, u.IsMultishot())
            && v.yielded == u.yielded + FramesIn(u.cq[..n], u.slotSize, u.IsMultishot())
            && v.read == u.read + u.cq[..n]
  {
    hide Taken;
    hide TakeOne;
    hide CutSlots;
    hide FramesIn;
    hide Cut;
    hide FrameOf;
    if n == 0 {
      TakenNone(u);
    } else {
      TakenLists(u, n - 1);
      var (w, cqe, before) := (Taken(u, n - 1), u.cq[n - 1], u.cq[..n - 1]);
      assert u.cq[..n] == before + [cqe] && w.cq[0] == cqe;
      TakeOneExact(w);
      TakenNext(u, n - 1);
      CutSnoc(before, cqe, u.slotSize, u.IsMultishot());
      FramesSnoc(before, cqe, u.slotSize, u.IsMultishot());
      Assoc(u.back, CutSlots(before, u.slotSize, u.IsMultishot()), Cut(cqe, u.slotSize, u.IsMultishot()));
      Assoc(u.yielded, FramesIn(before, u.slotSize, u.IsMultishot()), FrameOf(cqe, u.slotSize, u.IsMultishot()));
      Assoc(u.read, before, [cqe]);
    }
  }

  lemma TakenNone(u: Uring)
    ensures Taken(u, 0) == u && u.back + CutSlots(u.cq[..0], u.slotSize, u.IsMultishot()) == u.back
    ensures u.yielded + FramesIn(u.cq[..0], u.slotSize, u.IsMultishot()) == u.yielded && u.read + u.cq[..0] == u.read
  {
  }

  lemma TakenNext(u: Uring, n: nat)
    requires n < |u.cq|
    ensures Taken(u, n + 1) == TakeOne(Taken(u, n))
  {
    hide TakeOne;
  }

  lemma TakeOneExact(u: Uring)
    requires u.cq != []
    ensures var (v, cqe) := (TakeOne(u), u.cq[0]);
            && v == u.(cq := v.cq, back := v.back, minted := v.minted, armed := v.armed, starved := v.starved,
                       truncated := v.truncated, noBuffer := v.noBuffer, read := v.read, yielded := v.yielded)
            && v.back == u.back + Cut(cqe, u.slotSize, u.IsMultishot())
            && v.yielded == u.yielded + FrameOf(cqe, u.slotSize, u.IsMultishot()) && v.read == u.read + [cqe]
  {
    hide Classify;
  }

  /** A poll reads no more frames than it has room for, and stops short of the end of the
      queue only at an error or with the room used up. */
  lemma {:induction false} ReadableFits(cq: seq<Cqe>, room: nat, slotSize: nat, multishot: bool)
    ensures var n := Readable(cq, room, slotSize, multishot);
            var frames := FramesIn(cq[..n], slotSize, multishot);
            && |frames| <= room
            && (n < |cq| && |frames| < room ==> n > 0 && Failure(cq[n - 1], slotSize, multishot).Some?)
    decreases |cq|
  {
    hide Classify;
    hide Failure;
    if room > 0 && cq != [] {
      var given := FrameOf(cq[0], slotSize, multishot);
      assert |given| <= 1;
      hide FrameOf;
      var n := Readable(cq, room, slotSize, multishot);
      assert cq[..n][0] == cq[0] && cq[..n][1..] == cq[1..][..n - 1];
      if Failure(cq[0], slotSize, multishot).Some? {
        assert cq[1..][..0] == [];
      } else {
        ReadableFits(cq[1..], room - |given|, slotSize, multishot);
      }
    }
  }

  /** The slots a poll has to hand over: those dropped before it, and those of datagrams cut
      short that it reads. */
  ghost function Returned(u: Uring, room: nat): seq<nat>
  {
    u.freed + CutSlots(u.cq[..Readable(u.cq, room, u.slotSize, u.IsMultishot())], u.slotSize, u.IsMultishot())
  }

  /** The completion error a poll stops at. */
  function Stopped(u: Uring, room: nat): Option<Error>
  {
    Harvest(Drain(u), room).1
  }

  /** The first half of a poll: its list is swapped with the dropped slots, completions are
      read, and the queue of submissions is as it was. */
  lemma HarvestLists(u: Uring, room: nat)
    ensures var (n, h) := (Readable(u.cq, room, u.slotSize, u.IsMultishot()), Harvest(Drain(u), room).0);
            && h.back == Returned(u, room) && h.offered == u.back && h.read == u.read + u.cq[..n]
            && h.yielded == u.yielded + FramesIn(u.cq[..n], u.slotSize, u.IsMultishot()) && h.cq == u.cq[n..]
            && h.sq == u.sq && h.capacity == u.capacity && h.enters == u.enters && h.path == u.path
            && h.moves == u.moves && h.lost == u.lost
  {
    hide Readable;
    hide Taken;
    hide CutSlots;
    hide FramesIn;
    TakenLists(Drain(u), Readable(u.cq, room, u.slotSize, u.IsMultishot()));
  }

  /** One poll: slots stay for the next one exactly when a push for one of the runs of the
      slots it has to hand over fails, told from the state before; completions are read up to
      an error, a full batch or the end; and the result is the first error, or tells. */
  lemma PollLeavesSlotsIff(u: Uring, room: nat)
    requires Sound(u)
    ensures var (v, r) := Poll(u, room);
            var n := Readable(u.cq, room, u.slotSize, u.IsMultishot());
            var refused := if u.path != Legacy then None
                           else PushesFail(Room(u), RunCount(Sort(Returned(u, room))), u.capacity, u.enters);
            && (v.back != [] <==> refused.Some?)
            && v.offered == u.back && v.read == u.read + u.cq[..n]
            && v.yielded == u.yielded + FramesIn(u.cq[..n], u.slotSize, u.IsMultishot())
            && (Stopped(u, room).Some? ==> r == Err(Stopped(u, room).value))
            && (Stopped(u, room).None? && refused.Some? ==> r == Err(refused.value))
  {
    hide All;
    hide Sum;
    hide InQueue;
    hide Ended;
    hide InProvides;
    hide Requests;
    hide Given;
    hide Sound;
    hide Taken;
    hide Others;
    hide GiveBack;
    hide Arm;
    hide EnterKernel;
    HarvestLists(u, room);
    var h := Harvest(Drain(u), room).0;
    DrainSound(u);
    TakenSound(Drain(u), Readable(u.cq, room, u.slotSize, u.IsMultishot()));
    hide Readable;
    hide Returned;
    OthersSound(h);
    OthersYield(h);
    var w := Others(h);
    GiveBackFailsIff(w);
    SameRoom(u, w);
    hide PushesFail;
    RefillKeepsRefused(w);
    RefillYields(w, false);
  }

  /** A refill leaves slots exactly when handing them over fails, with that error. */
  lemma RefillKeepsRefused(u: Uring)
    requires GiveBack(u).0.back != [] <==> GiveBack(u).1.Some?
    ensures var (v, err) := Refill(u, false);
            (v.back != [] <==> GiveBack(u).1.Some?) && (GiveBack(u).1.Some? ==> err == GiveBack(u).1)
  {
    hide GiveBack;
    hide Arm;
    hide EnterKernel;
    var (gave, e1) := GiveBack(u);
    if e1.None? {
      ArmYields(gave, Wanted(gave));
      EnterKeepsLists(Arm(gave, Wanted(gave)).0);
    }
  }

  lemma {:induction false} TakenStarves(u: Uring, n: nat)
    requires n <= |u.cq|
    ensures var v := Taken(u, n);
            v.noBuffer >= u.noBuffer && (v.starved <==> u.starved || v.noBuffer > u.noBuffer)
  {
    hide Classify;
    if n > 0 {
      TakenStarves(u, n - 1);
    }
  }

  lemma GiveBackFeeds(u: Uring)
    requires Sound(u)
    ensures var v := GiveBack(u).0;
            v.starved <==> u.starved && |v.back| == |u.back|
  {
    hide All;
    hide Sum;
    hide InQueue;
    hide Ended;
    hide InProvides;
    hide Requests;
    hide Given;
    hide Sound;
    hide HandRuns;
    hide Sort;
    if u.back != [] && u.path == Legacy {
      SortedSound(u);
      HandRunsSound(u.(back := Sort(u.back)));
      SortIsOrdered(u.back);
    }
  }

  lemma RefillFeeds(u: Uring)
    requires Sound(u)
    ensures var v := Refill(u, false).0;
            v.noBuffer == u.noBuffer && (v.starved <==> u.starved && |v.back| == |u.back|)
  {
    hide All;
    hide Sum;
    hide InQueue;
    hide Ended;
    hide InProvides;
    hide Requests;
    hide Given;
    hide Sound;
    hide GiveBack;
    hide Arm;
    hide EnterKernel;
    GiveBackFeeds(u);
    RefillYields(u, false);
    var gave := GiveBack(u).0;
    ArmYields(gave, Wanted(gave));
    EnterKeepsLists(Arm(gave, Wanted(gave)).0);
  }

  /** The fleet starves exactly from a lack of buffers read on, until a slot is handed over;
      and a poll that meets no error and pushes no frame says so exactly then. */
  lemma PollStarvedIff(u: Uring, room: nat)
    requires Sound(u)
    ensures var (v, r) := Poll(u, room);
            && (v.starved <==> (u.starved || v.noBuffer > u.noBuffer) && |v.back| == |Returned(u, room)|)
            && (r == Ok(Exhausted) ==> v.starved) && (r == Ok(Idle) ==> !v.starved)
            && (r.Ok? && |v.yielded| == |u.yielded| ==> r.value == if v.starved then Exhausted else Idle)
  {
    hide All;
    hide Sum;
    hide InQueue;
    hide Ended;
    hide InProvides;
    hide Requests;
    hide Given;
    hide Sound;
    hide Taken;
    hide Others;
    hide Refill;
    HarvestLists(u, room);
    var (d, n) := (Drain(u), Readable(u.cq, room, u.slotSize, u.IsMultishot()));
    hide Readable;
    hide Returned;
    TakenStarves(d, n);
    DrainSound(u);
    TakenSound(d, n);
    var h := Taken(d, n);
    OthersSound(h);
    OthersYield(h);
    RefillFeeds(Others(h));
    RefillYields(Others(h), false);
    TakenYields(d, n);
  }

  // ------------------------------------------------------------------ binding

  /** Binding needs one provide and a full fleet, which the queue holds: it fails exactly
      when the kernel cannot be entered. */
  lemma BindFailsIff(slots: nat, slotSize: nat, path: Path, depth: nat, enters: seq<Enter>, moves: seq<seq<Move>>)
    requires 0 < slots <= 0x8000 && 0 < slotSize < 0x8000_0000 && depth > 0
    ensures var (u, err) := Bound(slots, slotSize, path, depth, enters, moves);
            && err == (if enters != [] && enters[0].Broken? then Some(EnterFailed) else None)
            && Sound(u) && u.yielded == [] && u.cq == [] && u.moves == moves && u.lost == [] && u.minted == []
            && (err.None? ==> u.back == [] && u.armed == if path == Multishot then 1 else depth)
  {
    hide All;
    hide Sum;
    hide InQueue;
    hide Ended;
    hide InProvides;
    hide Requests;
    hide Given;
    hide Sound;
    hide PowerFrom;
    hide GiveBack;
    hide Arm;
    hide ProvideRuns.Run;
    var u := Initial(slots, slotSize, path, depth, enters, moves);
    InitialIsSound(slots, slotSize, path, depth, enters, moves);
    RefillSound(u, true);
    RefillYields(u, true);
    GiveBackFailsIff(u);
    OneRun(0, slots);
    FirstHanded(u);
    var gave := GiveBack(u).0;
    GiveBackSound(u);
    SoundIsSized(gave);
    ArmFailsIff(gave, Wanted(gave));
    ArmYields(gave, Wanted(gave));
    var armed := Arm(gave, Wanted(gave)).0;
    ArmTakesNoEnter(gave, Wanted(gave));
    EnterKeepsLists(armed);
    hide Submit;
  }

  /** The first hand-over takes at most one place in the queue. */
  lemma FirstHanded(u: Uring)
    requires u.sq == [] && u.back == ProvideRuns.Run(0, u.slots) && 0 < u.slots && u.capacity > 1 && !u.starved
    ensures var (v, err) := GiveBack(u);
            && err.None? && |v.sq| <= 1 && v.back == [] && !v.starved
            && v == u.(sq := v.sq, unread := v.unread, back := [])
  {
    OneRun(0, u.slots);
    LengthOfRun(0, u.slots, 0);
    hide ProvideRuns.Run;
    hide Sort;
    hide RunLength;
    var n := u.slots;
    assert u.back[n..] == [];
    if u.path == Legacy {
      var v := u.(sq := [Provide(u.back[0], n)], back := []);
      assert HandRuns(v) == (v, None);
      assert u.sq + [Provide(u.back[0], n)] == [Provide(u.back[0], n)];
      assert Push(u, Provide(u.back[0], n)) == (u.(sq := [Provide(u.back[0], n)]), None);
      assert RunLength(u.back, 0, u.back[0]) == n;
      assert HandRuns(u) == (v, None);
    }
  }

  /** While there is room, arming enters no kernel. */
  lemma {:induction false} ArmTakesNoEnter(u: Uring, n: nat)
    requires |u.sq| + n <= u.capacity
    ensures var (v, err) := Arm(u, n); err.None? && v.enters == u.enters && v.armed == u.armed + n
    decreases n
  {
    if n > 0 {
      ArmTakesNoEnter(u.(sq := u.sq + [Receive], armed := u.armed + 1), n - 1);
    }
  }

  /** A power of two. */
  ghost predicate PowerOfTwo(p: nat)
    decreases p
  {
    p == 1 || (p > 1 && p % 2 == 0 && PowerOfTwo(p / 2))
  }

  lemma {:induction false} PowerFromIsLeast(p: nat, n: nat)
    requires PowerOfTwo(p) && (p == 1 || p / 2 < n)
    ensures var q := PowerFrom(p, n); PowerOfTwo(q) && (q == 1 || q / 2 < n)
    decreases n - p
  {
    if p < n {
      assert 2 * p / 2 == p;
      PowerFromIsLeast(2 * p, n);
    }
  }

  /** The queue is the least power of two with room for a full fleet, a provide and a
      cancellation. */
  lemma QueueIsLeast(depth: nat)
    ensures var size := QueueSize(depth); PowerOfTwo(size) && size / 2 < depth + 2 <= size
  {
    PowerFromIsLeast(1, depth + 2);
  }

  // --------------------------------------------------------------- whole runs

  /** Every provide succeeds: no buffer given to the kernel is lost. */
  ghost predicate Honest(moves: seq<seq<Move>>)
  {
    forall i :: 0 <= i < |moves| ==> NoLoss(moves[i])
  }

  ghost predicate NoLoss(turn: seq<Move>)
  {
    forall k :: 0 <= k < |turn| ==> !turn[k].Lose?
  }

  lemma {:induction false} PerformedLosesNothing(u: Uring, turn: seq<Move>, n: nat)
    requires NoLoss(turn) && n <= |turn|
    ensures Performed(u, turn, n).lost == u.lost
  {
    hide EndsOne;
    hide Flags;
    hide Without;
    if n > 0 {
      PerformedLosesNothing(u, turn, n - 1);
    }
  }

  lemma OthersHonest(u: Uring)
    requires Honest(u.moves)
    ensures Honest(Others(u).moves) && Others(u).lost == u.lost
  {
    OthersYield(u);
    hide Performed;
    if u.moves != [] {
      PerformedLosesNothing(u.(moves := u.moves[1..]), u.moves[0], |u.moves[0]|);
    }
  }

  /** The result tells the frames, of which there are no more than room for them. */
  ghost predicate Tells(o: Outcome, size: nat)
  {
    && |o.frames| <= size
    && match o.result
       case Ok(Frames(n)) => n == |o.frames| && n > 0
       case Ok(_) => o.frames == []
       case Err(_) => true
  }

  ghost function Gathered(outs: seq<Outcome>): seq<IndexFrame>
  {
    if outs == [] then [] else Gathered(outs[..|outs| - 1]) + outs[|outs| - 1].frames
  }

  /** What one round of other threads and a poll does, besides keeping the state sound. */
  lemma RoundTells(u: Uring, size: nat)
    requires Sound(u)
    ensures var (v, o) := Round(u, size);
            && Sound(v) && v.minted == [] && v.yielded == u.yielded + o.frames && Tells(o, size)
            && |v.moves| <= (if |u.moves| < 2 then 0 else |u.moves| - 2)
            && (o.result.Ok? && |o.frames| < size && |u.moves| < 2 ==> v.cq == [])
            && (Honest(u.moves) ==> Honest(v.moves) && v.lost == u.lost)
  {
    hide All;
    hide Sum;
    hide InQueue;
    hide Ended;
    hide InProvides;
    hide Requests;
    hide Given;
    hide Sound;
    hide Poll;
    hide Others;
    hide Honest;
    OthersSound(u);
    OthersYield(u);
    var w := Others(u);
    PollSound(w, size);
    PollTells(w, size);
    PollYields(w, size);
    if Honest(u.moves) {
      OthersHonest(u);
    }
    assert Round(u, size).1.frames == Poll(w, size).0.yielded[|w.yielded|..];
  }

  lemma PollTells(u: Uring, size: nat)
    requires Sound(u)
    ensures var (v, r) := Poll(u, size);
            && u.yielded <= v.yielded && Tells(Outcome(r, v.yielded[|u.yielded|..]), size)
            && v.moves == (if u.moves == [] then [] else u.moves[1..])
            && (r.Ok? && |v.yielded| - |u.yielded| < size && u.moves == [] ==> v.cq == [])
            && (Honest(u.moves) ==> Honest(v.moves) && v.lost == u.lost)
  {
    hide All;
    hide Sum;
    hide InQueue;
    hide Ended;
    hide InProvides;
    hide Requests;
    hide Given;
    hide Sound;
    hide Taken;
    hide Refill;
    hide Others;
    hide Honest;
    HarvestLists(u, size);
    ReadableFits(u.cq, size, u.slotSize, u.IsMultishot());
    hide Readable;
    hide FramesIn;
    hide Returned;
    var h := Harvest(Drain(u), size).0;
    OthersYield(h);
    RefillYields(Others(h), false);
    if Honest(u.moves) {
      OthersHonest(h);
    }
  }

  lemma {:induction false} TakenMints(u: Uring, n: nat)
    requires n <= |u.cq|
    ensures Taken(u, n).minted == u.minted + SlotsOf(FramesIn(u.cq[..n], u.slotSize, u.IsMultishot()))
  {
    hide TakeOne;
    hide FrameOf;
    if n == 0 {
      assert FramesIn(u.cq[..0], u.slotSize, u.IsMultishot()) == [];
    } else {
      hide FramesIn;
      TakenMints(u, n - 1);
      var (w, cqe, before) := (Taken(u, n - 1), u.cq[n - 1], u.cq[..n - 1]);
      assert u.cq[..n] == before + [cqe] && w.cq[0] == cqe;
      var (frames, given) := (FramesIn(before, u.slotSize, u.IsMultishot()), FrameOf(cqe, u.slotSize, u.IsMultishot()));
      TakeOneMints(w);
      FramesSnoc(before, cqe, u.slotSize, u.IsMultishot());
      assert SlotsOf(frames + given) == SlotsOf(frames) + SlotsOf(given);
      Assoc(u.minted, SlotsOf(frames), SlotsOf(given));
    }
  }

  lemma TakeOneMints(u: Uring)
    requires u.cq != []
    ensures TakeOne(u).minted == u.minted + SlotsOf(FrameOf(u.cq[0], u.slotSize, u.IsMultishot()))
  {
    hide Classify;
  }

  /** The frames a poll pushed are the caller's to drop: their slots are the last ones held. */
  lemma PollHandsOut(u: Uring, size: nat)
    requires u.minted == []
    ensures |u.yielded| <= |Poll(u, size).0.yielded|
    ensures var (v, pushed) := (Poll(u, size).0, Poll(u, size).0.yielded[|u.yielded|..]);
            v.minted == [] && |pushed| <= |v.held| && v.held[|v.held| - |pushed|..] == SlotsOf(pushed)
  {
    hide Taken;
    hide Refill;
    hide Others;
    hide SlotsOf;
    HarvestLists(u, size);
    var (d, n) := (Drain(u), Readable(u.cq, size, u.slotSize, u.IsMultishot()));
    hide Readable;
    TakenMints(d, n);
    hide FramesIn;
    hide Returned;
    var (h, frames) := (Taken(d, n), FramesIn(u.cq[..n], u.slotSize, u.IsMultishot()));
    OthersYield(h);
    RefillYields(Others(h), false);
    assert h.minted == SlotsOf(frames);
    assert Poll(u, size).0.yielded[|u.yielded|..] == frames;
  }

  /** Polls with these batch sizes had these outcomes and lead to `u`. */
  ghost predicate Accounts(u: Uring, outs: seq<Outcome>, sizes: seq<nat>)
  {
    && |outs| == |sizes| && Gathered(outs) == u.yielded
    && forall i :: 0 <= i < |sizes| ==> Tells(outs[i], sizes[i])
  }

  lemma AccountsOn(u: Uring, outs: seq<Outcome>, sizes: seq<nat>, v: Uring, o: Outcome, size: nat)
    requires Accounts(u, outs, sizes) && v.yielded == u.yielded + o.frames && Tells(o, size)
    ensures Accounts(v, outs + [o], sizes + [size])
  {
    hide Tells;
    assert (outs + [o])[..|outs|] == outs;
  }

  /** The last poll succeeded with room left in its batch. */
  ghost predicate HadRoom(outs: seq<Outcome>, sizes: seq<nat>)
    requires |outs| == |sizes|
  {
    && outs != []
    && var last := |outs| - 1;
    && outs[last].result.Ok? && |outs[last].frames| < sizes[last]
  }

  lemma {:induction false} RunSound(u0: Uring, sizes: seq<nat>)
    requires Sound(u0) && u0.yielded == []
    ensures var (u, outs) := AfterPolls(u0, sizes);
            && Sound(u) && Accounts(u, outs, sizes)
            && |u.moves| <= (if |u0.moves| < 2 * |sizes| then 0 else |u0.moves| - 2 * |sizes|)
            && (HadRoom(outs, sizes) && |u0.moves| < 2 * |sizes| ==> u.cq == [])
            && (Honest(u0.moves) ==> Honest(u.moves) && u.lost == u0.lost)
    decreases |sizes|
  {
    hide All;
    hide Sum;
    hide InQueue;
    hide Ended;
    hide InProvides;
    hide Requests;
    hide Given;
    hide Sound;
    hide Round;
    hide Honest;
    hide Tells;
    if sizes != [] {
      var (init, size) := (sizes[..|sizes| - 1], sizes[|sizes| - 1]);
      RunSound(u0, init);
      hide Accounts;
      var (before, outs) := AfterPolls(u0, init);
      RoundTells(before, size);
      var (after, o) := Round(before, size);
      AccountsOn(before, outs, init, after, o, size);
      assert sizes == init + [size];
    }
  }

  /** Each slot is once in exactly one place. */
  ghost predicate EachSlotOnce(u: Uring)
  {
    forall slot :: 0 <= slot < u.slots ==> Sum(Places(u))[slot] == 1
  }

  lemma PlacedIsOnce(u: Uring)
    requires Placed(u)
    ensures EachSlotOnce(u)
  {
    hide Sum;
    hide InQueue;
    hide InProvides;
    forall slot | 0 <= slot < u.slots ensures Sum(Places(u))[slot] == 1 {
      AllOnce(u.slots, slot);
    }
  }

  /** Every pool, path, depth, kernel and schedule: after binding and any number of polls with
      any batch sizes each slot is once in exactly one place, lost only if a provide failed;
      the armed count is exact; the frames the polls pushed are those of the completions read,
      in the kernel's order, each poll as many as it says; and a poll that succeeds with room
      left once the kernel is quiet has read all that was posted. */
  lemma EveryRunKeepsSlots(slots: nat, slotSize: nat, path: Path, depth: nat, enters: seq<Enter>,
                           moves: seq<seq<Move>>, sizes: seq<nat>)
    requires 0 < slots <= 0x8000 && 0 < slotSize < 0x8000_0000 && 0 < depth <= slots
    ensures var u0 := Bound(slots, slotSize, path, depth, enters, moves).0;
            var (u, outs) := AfterPolls(u0, sizes);
            && EachSlotOnce(u) && Counted(u) && Accounts(u, outs, sizes)
            && u.posted == u.read + u.cq && u.yielded == Given(u.read, u.slotSize, u.IsMultishot()).0
            && (Honest(moves) ==> u.lost == [])
            && (HadRoom(outs, sizes) && |moves| < 2 * |sizes| ==> u.cq == [])
  {
    hide All;
    hide Sum;
    hide InQueue;
    hide Ended;
    hide InProvides;
    hide Requests;
    hide Given;
    hide Accounts;
    hide EachSlotOnce;
    hide HadRoom;
    hide Honest;
    hide Bound;
    var u0 := Bound(slots, slotSize, path, depth, enters, moves).0;
    BindFailsIff(slots, slotSize, path, depth, enters, moves);
    RunSound(u0, sizes);
    PlacedIsOnce(AfterPolls(u0, sizes).0);
    hide AfterPolls;
  }
}
