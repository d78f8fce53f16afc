/** The io_uring driver as it runs: its fleet of requests, submission queue, buffer ring and
    pool updated in place, while the kernel and other threads move in between. Every method
    does to `State()` what the machine of `Uring` does. */
module IoUring {
  import opened Octets
  import opened Batches
  import opened Slots
  import opened SlotPool
  import opened BufferRing
  import opened ProvideRuns
  import opened M = Uring
  import opened UringSound
  import opened UringRuns
  import opened UringTeardown

  // ------------------------------------------------------------------- fleet

  class Fleet {
    const depth: nat
    var armed: nat
    var starved: bool

    constructor (depth: nat)
      ensures this.depth == depth && armed == 0 && !starved
    {
      this.depth, armed, starved := depth, 0, false;
    }

    function Wanted(): nat
      reads this
    {
      if starved || depth <= armed then 0 else depth - armed
    }

    method Complete(completion: Completion)
      modifies this`armed, this`starved
      ensures armed == if completion.Ends() && old(armed) > 0 then old(armed) - 1 else old(armed)
      ensures starved == (old(starved) || completion.NoBuffers?)
    {
      if completion.NoBuffers? {
        starved := true;
      }
      if completion.Ends() {
        armed := if armed > 0 then armed - 1 else 0;
      }
    }

    method Refilled(slots: nat)
      modifies this`starved
      ensures starved == (old(starved) && slots == 0)
    {
      if slots > 0 {
        starved := false;
      }
    }
  }

  // ------------------------------------------------------------ sizes and runs

  predicate Power(p: nat)
  {
    || p == 1 || p == 2 || p == 4 || p == 8 || p == 0x10 || p == 0x20 || p == 0x40 || p == 0x80 || p == 0x100
    || p == 0x200 || p == 0x400 || p == 0x800 || p == 0x1000 || p == 0x2000 || p == 0x4000 || p == 0x8000
  }

  lemma {:induction false} PowerFromPower(p: nat, n: nat)
    requires Power(p) && n <= 0x8000
    ensures Power(PowerFrom(p, n))
    decreases n - p
  {
    if p < n {
      PowerFromPower(2 * p, n);
    }
  }

  /** The ring of the next power of two holds every slot, and 16-bit indices wrap evenly. */
  lemma RingSize(slots: nat)
    requires slots <= 0x8000
    ensures var entries := PowerFrom(1, slots); slots <= entries <= 0x8000 && WRAP16 % entries == 0
  {
    PowerFromPower(1, slots);
  }

  lemma {:induction false} RunFromHere(s: seq<nat>, from: nat, k: nat, next: nat)
    requires from + k <= |s|
    ensures RunLength(s[from..], k, next) == RunLength(s, from + k, next)
    decreases |s| - from - k
  {
    if from + k < |s| {
      RunFromHere(s, from, k + 1, next + 1);
    }
  }

  // ------------------------------------------------------------------- driver

  class UringDriver {
    const slots: nat
    const slotSize: nat
    const path: Path
    const capacity: nat
    const pool: IndexPool
    const fleet: Fleet
    const mem: RingMem
    var sq: seq<Entry>
    var cq: seq<Cqe>
    var back: seq<nat>
    var noBuffer: nat
    var truncated: nat
    // kernel: buffers it may select on the legacy path, buffers no one has any more, the
    // requests it has, what it and other threads do next, and its answers to entries
    var group: seq<nat>
    var lost: seq<nat>
    var inflight: nat
    var moves: seq<seq<Move>>
    var enters: seq<Enter>
    ghost var posted: seq<Cqe>
    ghost var read: seq<Cqe>
    ghost var yielded: seq<IndexFrame>

    predicate IsMultishot() { path == Multishot }

    ghost function State(): M.Uring
      reads this, pool, fleet, mem
    {
      M.Uring.Uring(slots, slotSize, path, fleet.depth, capacity, sq, group, mem.Unread(), cq, back, pool.held,
                    pool.minted, pool.freed, lost, inflight, fleet.armed, fleet.starved, truncated, noBuffer, moves,
                    enters, pool.offered, posted, read, yielded)
    }

    /** The ring holds every slot, and all that was pushed on it is published. */
    ghost predicate Fits()
      reads mem, mem.entries
    {
      && mem.Valid() && |mem.log| == mem.shown && slots <= mem.entries.Length
      && pool.count == slots && pool.stride == slotSize
    }

    ghost predicate Valid()
      reads this, pool, fleet, mem, mem.entries
    {
      Fits() && Sound(State())
    }

    /** Every slot starts on its way to the kernel, nothing armed. */
    constructor (slots: nat, slotSize: nat, path: Path, depth: nat, enters: seq<Enter>, moves: seq<seq<Move>>)
      requires 0 < slots <= 0x8000 && 0 < slotSize < 0x8000_0000
      ensures Valid() && fresh(pool) && fresh(fleet) && fresh(mem) && fresh(mem.entries)
      ensures State() == Initial(slots, slotSize, path, depth, enters, moves)
    {
      hide Sound;
      hide PowerFrom;
      RingSize(slots);
      this.slots, this.slotSize, this.path, this.capacity := slots, slotSize, path, QueueSize(depth);
      this.moves, this.enters := moves, enters;
      pool := new IndexPool(slots, slotSize);
      fleet := new Fleet(FleetDepth(path, depth));
      mem := new RingMem(PowerFrom(1, slots));
      sq, cq, back, noBuffer, truncated := [], [], Run(0, slots), 0, 0;
      group, lost, inflight, posted, read, yielded := [], [], 0, [], [], [];
      new;
      assert mem.Unread() == [];
      InitialIsSound(slots, slotSize, path, depth, enters, moves);
    }

    // ------------------------------------------------- kernel and other threads

    /** A completion of a request the kernel has, which then is over or goes on, or of
        something else. */
    method KernelPosts(cqe: Cqe, over: bool)
      requires Fits()
      modifies this`cq, this`posted, this`inflight
      ensures Fits() && State() == Post(old(State()), cqe, over)
    {
      if cqe.tag == Recv && inflight == 0 {
        return;
      }
      cq, posted := cq + [cqe], posted + [cqe];
      if cqe.tag == Recv && over {
        inflight := inflight - 1;
      }
    }

    /** A datagram in any buffer of the group, or the oldest one in the ring. */
    method KernelDelivers(which: nat, len: nat, more: bool)
      requires Fits()
      modifies this`cq, this`posted, this`inflight, this`group, mem`head, mem`read
      ensures Fits() && State() == Delivered(old(State()), which, len, more)
    {
      hide Post;
      hide Flags;
      hide Without;
      mem.WaitingIsExact();
      hide Fits;
      if inflight == 0 {
        return;
      }
      if path == Legacy {
        if which < |group| {
          var slot := group[which];
          group := Without(group, which);
          KernelPosts(Cqe(Recv, len, Flags(slot, more)), Over(path, more));
        }
      } else if mem.Waiting() {
        var slot := mem.KernelTakes();
        KernelPosts(Cqe(Recv, len, Flags(slot, more)), Over(path, more));
      }
    }

    method Perform(move: Move)
      requires Valid()
      modifies this`cq, this`posted, this`inflight, this`group, this`lost, mem`head, mem`read, pool`held, pool`freed
      ensures Valid() && State() == M.Perform(old(State()), move)
    {
      hide All;
      hide Sum;
      hide InQueue;
      hide Ended;
      hide InProvides;
      hide Requests;
      hide Given;
      hide Sound;
      PerformSound(State(), move);
      hide Delivered;
      hide Post;
      hide Bare;
      hide Without;
      match move {
        case Deliver(which, len, more) =>
          KernelDelivers(which, len, more);
        case Lose(which) =>
          if which < |group| {
            lost, group := lost + [group[which]], Without(group, which);
          }
        case DropFrame(which) =>
          if which < |pool.held| {
            pool.Drop(which);
          }
        case _ =>
          KernelPosts(Bare(move), BareEnds(move, path));
      }
    }

    /** Kernel and other threads run for a while. */
    method Others()
      requires Valid()
      modifies this`cq, this`posted, this`inflight, this`group, this`lost, this`moves, mem`head, mem`read
      modifies pool`held, pool`freed
      ensures Valid() && State() == M.Others(old(State()))
    {
      hide All;
      hide Sum;
      hide InQueue;
      hide Ended;
      hide InProvides;
      hide Requests;
      hide Given;
      hide Sound;
      hide Fits;
      if moves == [] {
        return;
      }
      StaysSound(State(), State().(moves := moves[1..]));
      hide M.Perform;
      hide Performed;
      ghost var start := State().(moves := moves[1..]);
      var turn := moves[0];
      moves := moves[1..];
      PerformedNone(start, turn);
      for i := 0 to |turn|
        invariant Valid() && State() == Performed(start, turn, i)
        modifies this`cq, this`posted, this`inflight, this`group, this`lost, mem`head, mem`read, pool`held, pool`freed
      {
        PerformedNext(start, turn, i);
        Perform(turn[i]);
      }
    }

    // -------------------------------------------------------------- submissions

    /** The kernel takes the oldest submission. */
    method KernelTakes()
      requires Fits() && sq != []
      modifies this`sq, this`group, this`inflight
      ensures Fits() && State() == TakeEntry(old(State())) && sq == old(sq)[1..]
    {
      var entry := sq[0];
      sq := sq[1..];
      match entry {
        case Provide(first, count) => group := group + Run(first, count);
        case Receive => inflight := inflight + 1;
        case Cancel =>
      }
    }

    /** Enters the kernel, which takes what it will. */
    method Enter() returns (answer: M.Enter)
      requires Fits()
      modifies this`sq, this`group, this`inflight, this`enters
      ensures Fits() && State() == EnterKernel(old(State())).0
      ensures answer == NextEnter(old(State())) && EnterKernel(old(State())).1 == !answer.Broken?
    {
      hide TakeEntry;
      hide Fits;
      answer := if enters == [] then Took(|sq|) else enters[0];
      if enters != [] {
        enters := enters[1..];
      }
      if answer.Took? {
        var n := Min(answer.n, |sq|);
        ghost var start := State();
        for i := 0 to n
          invariant Fits() && |sq| == |start.sq| - i && State() == Submit(start, i)
          modifies this`sq, this`group, this`inflight
        {
          KernelTakes();
        }
      }
    }

    /** Queues a submission, entering the kernel once to make room. */
    method Push(entry: Entry) returns (err: Option<Error>)
      requires Fits()
      modifies this`sq, this`group, this`inflight, this`enters
      ensures Fits() && (State(), err) == M.Push(old(State()), entry)
    {
      hide EnterKernel;
      hide Fits;
      if |sq| < capacity {
        sq := sq + [entry];
        return None;
      }
      EnterKeepsLists(State());
      var answer := Enter();
      if answer.Broken? {
        return Some(EnterFailed);
      }
      if |sq| < capacity {
        sq := sq + [entry];
        return None;
      }
      return Some(QueueFull);
    }

    // ------------------------------------------------------------------- driver

    /** Provides contiguous runs in order; slots of refused runs stay. */
    method HandAsRuns() returns (err: Option<Error>)
      requires Fits()
      modifies this`back, this`sq, this`group, this`inflight, this`enters
      ensures Fits() && (State(), err) == HandRuns(old(State()).(back := Sort(old(back))))
    {
      hide M.Push;
      hide HandRuns;
      hide RunLength;
      hide Fits;
      hide Sort;
      hide Left;
      back := Sort(back);
      ghost var start := State();
      var handed: nat := 0;
      NothingHanded(start);
      while handed < |back|
        invariant Fits() && handed <= |back| && HandRuns(Left(State(), handed)) == HandRuns(start)
      {
        var first := back[handed];
        var run := RunLength(back, handed, first);
        NextRun(State(), handed);
        err := Push(Provide(first, run));
        if err.Some? {
          back := back[handed..];
          return;
        }
        handed := handed + run;
      }
      AllHanded(State());
      back := [];
      err := None;
    }

    /** Queues every slot on the buffer ring and publishes once; none overwrites an entry
        the kernel has not read. */
    method HandToRing()
      requires Fits() && |mem.Unread()| + |back| <= slots
      modifies this`back, mem`tail, mem`log, mem`published, mem`shown, mem.entries
      ensures Fits() && State() == old(State()).(unread := old(mem.Unread()) + old(back), back := [])
    {
      hide RingMem.Valid;
      ghost var unread := mem.Unread();
      assert unread + back[..0] == unread;
      for i := 0 to |back|
        invariant mem.Valid() && mem.Unread() == unread + back[..i]
        modifies mem`tail, mem`log, mem.entries
      {
        assert unread + back[..i + 1] == (unread + back[..i]) + [back[i]];
        mem.Push(back[i]);
      }
      assert unread + back[..|back|] == unread + back;
      mem.Publish();
      back := [];
    }

    /** Hands waiting slots to the kernel; any slot handed reopens a starved fleet, and
        slots not handed stay for the next call. */
    method GiveBack() returns (err: Option<Error>)
      requires Valid()
      modifies this`back, this`sq, this`group, this`inflight, this`enters, fleet`starved
      modifies mem`tail, mem`log, mem`published, mem`shown, mem.entries
      ensures Valid() && (State(), err) == M.GiveBack(old(State()))
    {
      hide All;
      hide Sum;
      hide InQueue;
      hide Ended;
      hide InProvides;
      hide Requests;
      hide Given;
      hide Sound;
      hide HandRuns;
      hide Sort;
      hide RingMem.Valid;
      GiveBackSound(State());
      if back == [] {
        return None;
      }
      var queued := |back|;
      if path == Legacy {
        SortedSound(State());
        HandRunsSound(State().(back := Sort(back)));
        SortIsOrdered(back);
        HandRunsYields(State().(back := Sort(back)));
        err := HandAsRuns();
      } else {
        RingHasRoom(State());
        HandToRing();
        err := None;
      }
      fleet.Refilled(queued - |back|);
    }

    /** Arms requests up to the depth, none while starved. */
    method Arm() returns (err: Option<Error>)
      requires Fits()
      modifies this`sq, this`group, this`inflight, this`enters, fleet`armed
      ensures Fits() && (State(), err) == M.Arm(old(State()), Wanted(old(State())))
    {
      hide M.Push;
      hide Fits;
      var wanted := fleet.Wanted();
      for i := 0 to wanted
        invariant Fits() && M.Arm(State(), wanted - i) == M.Arm(old(State()), wanted)
      {
        err := Push(Receive);
        if err.Some? {
          return;
        }
        fleet.armed := fleet.armed + 1;
      }
      err := None;
    }

    /** Hands slots back, arms and submits, in that order, stopping at the first failure. */
    method Refill(binding: bool) returns (err: Option<Error>)
      requires Valid()
      modifies this`back, this`sq, this`group, this`inflight, this`enters, fleet`armed, fleet`starved
      modifies mem`tail, mem`log, mem`published, mem`shown, mem.entries
      ensures Valid() && (State(), err) == M.Refill(old(State()), binding)
    {
      hide All;
      hide Sum;
      hide InQueue;
      hide Ended;
      hide InProvides;
      hide Requests;
      hide Given;
      hide Sound;
      hide M.GiveBack;
      hide M.Arm;
      hide EnterKernel;
      hide Fits;
      RefillSound(State(), binding);
      err := GiveBack();
      if err.Some? {
        return;
      }
      err := Arm();
      if err.Some? || (sq == [] && !binding) {
        return;
      }
      var answer := Enter();
      err := if answer.Broken? then Some(EnterFailed) else None;
    }

    /** Takes a completion off the queue; one of a receive counts in the fleet. */
    method Pop() returns (cqe: Cqe)
      requires Fits() && cq != []
      modifies this`cq, this`read, fleet`armed, fleet`starved
      ensures Fits() && State() == Popped(old(State())) && cqe == old(cq)[0]
    {
      hide Classify;
      hide Fits;
      cqe := cq[0];
      cq, read := cq[1..], read + [cqe];
      if cqe.tag == Recv {
        fleet.Complete(Classify(cqe, slotSize, IsMultishot()));
      }
    }

    /** Hands out a frame, recycles a slot or counts; the slot of a new frame is in no frame,
        no ring and no list. */
    method Settle(c: Completion, out: FrameBatch<IndexFrame>, ghost elsewhere: multiset<nat>)
      requires Fits() && out.Spare() > 0
      requires c.Data? ==> c.slot < slots && c.len <= slotSize && c.slot !in pool.held && c.slot !in pool.minted
      requires c.Data? ==> c.slot !in elsewhere
      modifies this`back, this`truncated, this`noBuffer, this`yielded, pool`minted, out`frames
      ensures Fits() && State() == Settled(old(State()), c) && out.frames == old(out.frames) + FramesOf(c)
    {
      assert pool.count == slots && pool.stride == slotSize;
      hide Fits;
      hide RingMem.Unread;
      assert !c.Data? ==> out.frames == out.frames + FramesOf(c);
      match c {
        case Data(slot, len, _) =>
          var frame := pool.Frame(slot, 0, len, elsewhere);
          out.Push(frame);
          yielded := yielded + [frame];
        case Truncated(slot, _) =>
          truncated, back := truncated + 1, back + [slot];
        case NoBuffers =>
          noBuffer := noBuffer + 1;
        case _ =>
      }
    }

    /** Reads one completion: a frame, a recycled slot, a count or an error. */
    method TakeOne(out: FrameBatch<IndexFrame>) returns (failed: Option<Error>)
      requires Valid() && cq != [] && out.Spare() > 0
      modifies this`cq, this`read, this`back, this`truncated, this`noBuffer, this`yielded, fleet`armed, fleet`starved
      modifies pool`minted, out`frames
      ensures Valid() && State() == M.TakeOne(old(State()))
      ensures failed == Failure(old(cq)[0], slotSize, IsMultishot())
      ensures out.frames == old(out.frames) + FrameOf(old(cq)[0], slotSize, IsMultishot())
      ensures out.Spare() == old(out.Spare()) - |FrameOf(old(cq)[0], slotSize, IsMultishot())|
    {
      hide All;
      hide Sum;
      hide InQueue;
      hide Ended;
      hide InProvides;
      hide Requests;
      hide Given;
      hide Sound;
      hide Classify;
      hide Fits;
      hide M.TakeOne;
      hide FrameOf;
      hide FramesOf;
      hide Settled;
      hide Popped;
      hide Failure;
      TakeOneSound(State());
      TakeOneCases(State());
      ghost var elsewhere := multiset(group) + multiset(mem.Unread()) + InProvides(sq);
      if cq[0].tag == Recv && Classify(cq[0], slotSize, IsMultishot()).Data? {
        TakeOneOwns(State());
      }
      PoppedKeeps(State());
      var cqe := Pop();
      failed := Failure(cqe, slotSize, IsMultishot());
      if cqe.tag == Recv {
        Settle(Classify(cqe, slotSize, IsMultishot()), out, elsewhere);
      }
    }

    lemma StateReads()
      ensures State().cq == cq && State().yielded == yielded && State().slotSize == slotSize && State().path == path
    {
    }

    /** Reads completions until the batch is full, none is left or one is an error. */
    method Complete(out: FrameBatch<IndexFrame>) returns (failed: Option<Error>)
      requires Valid()
      modifies this`cq, this`read, this`back, this`truncated, this`noBuffer, this`yielded, fleet`armed, fleet`starved
      modifies pool`minted, out`frames
      ensures Valid() && (State(), failed) == Harvest(old(State()), old(out.Spare()))
      ensures InStep(old(out.frames), old(yielded), out.frames, yielded)
    {
      hide All;
      hide Sum;
      hide InQueue;
      hide Ended;
      hide InProvides;
      hide Requests;
      hide Given;
      hide Sound;
      hide M.TakeOne;
      hide Failure;
      hide FrameOf;
      hide InStep;
      hide Harvest;
      hide Reading;
      hide Valid;
      hide State;
      hide FrameBatch.Spare;
      StateReads();
      ghost var (u, room) := (State(), out.Spare());
      ghost var n: nat := 0;
      ReadNone(u, room);
      InStepYet(out.frames, yielded);
      failed := None;
      while out.Spare() > 0 && cq != []
        invariant Valid() && failed.None? && Reading(u, room, n, State(), out.Spare())
        invariant InStep(old(out.frames), old(yielded), out.frames, yielded)
        decreases |cq|
      {
        InStepOn(old(out.frames), old(yielded), out.frames, yielded, FrameOf(cq[0], slotSize, IsMultishot()));
        StateReads();
        ReadNext(u, room, n, State(), out.Spare());
        failed := TakeOne(out);
        StateReads();
        n := n + 1;
        if failed.Some? {
          return;
        }
      }
      StateReads();
      ReadAll(u, room, n, State(), out.Spare());
    }

    /** One driver poll: dropped slots are drained, completions read, and slots handed back
        and requests armed even if a completion was an error, which is then reported first. */
    method Poll(out: FrameBatch<IndexFrame>) returns (r: Result<Polled, Error>)
      requires Valid()
      modifies this`cq, this`posted, this`read, this`back, this`truncated, this`noBuffer, this`yielded, this`sq
      modifies this`group, this`lost, this`inflight, this`moves, this`enters, fleet`armed, fleet`starved
      modifies mem`head, mem`read, mem`tail, mem`log, mem`published, mem`shown, mem.entries
      modifies pool`held, pool`freed, pool`offered, pool`minted, out`frames
      ensures Valid() && (State(), r) == M.Poll(old(State()), old(out.Spare()))
      ensures InStep(old(out.frames), old(yielded), out.frames, yielded)
    {
      hide All;
      hide Sum;
      hide InQueue;
      hide Ended;
      hide InProvides;
      hide Requests;
      hide Given;
      hide Sound;
      hide Harvest;
      hide M.Refill;
      hide M.Others;
      hide Fits;
      var before := |out.frames|;
      PollSound(State(), out.Spare());
      DrainSound(State());
      back := pool.DrainFreed(back);
      var failed := Complete(out);
      OthersYield(State());
      Others();
      RefillYields(State(), false);
      var refill := Refill(false);
      // the frames pushed are the caller's from here on
      pool.held, pool.minted := pool.held + pool.minted, [];
      if failed.Some? {
        return Err(failed.value);
      }
      if refill.Some? {
        return Err(refill.value);
      }
      var pushed := |out.frames| - before;
      return Ok(if pushed > 0 then Frames(pushed) else if fleet.starved then Exhausted else Idle);
    }

    // ---------------------------------------------------------------- teardown

    /** Reads a completion at teardown; its buffer goes nowhere. */
    method Discard()
      requires Valid() && cq != []
      modifies this`cq, this`posted, this`lost, fleet`armed, fleet`starved
      ensures Valid() && State() == M.Discard(old(State())) && cq == old(cq)[1..]
    {
      hide All;
      hide Sum;
      hide InQueue;
      hide Ended;
      hide InProvides;
      hide Requests;
      hide Given;
      hide Sound;
      hide Classify;
      hide SlotOf;
      hide Fits;
      DiscardSound(State());
      var cqe := cq[0];
      cq := cq[1..];
      posted := read + cq;
      lost := lost + SlotOf(cqe, slotSize, IsMultishot());
      if cqe.tag == Recv {
        fleet.Complete(Classify(cqe, slotSize, IsMultishot()));
      }
    }

    method DiscardAll()
      requires Valid()
      modifies this`cq, this`posted, this`lost, fleet`armed, fleet`starved
      ensures Valid() && State() == Discarded(old(State()))
    {
      hide Sound;
      hide M.Discard;
      hide Fits;
      while cq != []
        invariant Valid() && Discarded(State()) == Discarded(old(State()))
        decreases |cq|
      {
        Discard();
      }
    }

    /** Cancels until no request is armed, or gives up at the deadline or on a failure. */
    method CancelRecvs() returns (quiet: bool)
      requires Valid()
      modifies this`cq, this`posted, this`inflight, this`group, this`lost, this`moves, this`enters, this`sq
      modifies mem`head, mem`read, pool`held, pool`freed, fleet`armed, fleet`starved
      ensures Valid() && (State(), quiet) == Cancelled(old(State()))
    {
      hide All;
      hide Sum;
      hide InQueue;
      hide Ended;
      hide InProvides;
      hide Requests;
      hide Given;
      hide Sound;
      hide M.Push;
      hide EnterKernel;
      hide M.Others;
      hide Discarded;
      hide Fits;
      while fleet.armed > 0
        invariant Valid() && Cancelled(State()) == Cancelled(old(State()))
        decreases |enters|
      {
        if enters == [] {
          return false;
        }
        PushKeepsEnters(State(), Cancel);
        PushCancelSound(State());
        var err := Push(Cancel);
        if err.Some? {
          return false;
        }
        EnterSound(State());
        var answer := Enter();
        if answer.Broken? || answer.Busy? {
          return false;
        }
        OthersYield(State());
        Others();
        DiscardAll();
      }
      return true;
    }

    /** Receive memory is freed only when no request is outstanding: none queued, none in the
        kernel and none whose end is still unread. */
    method Drop() returns (freedMemory: bool)
      requires Valid()
      modifies this`cq, this`posted, this`inflight, this`group, this`lost, this`moves, this`enters, this`sq
      modifies mem`head, mem`read, pool`held, pool`freed, fleet`armed, fleet`starved
      ensures Valid() && (State(), freedMemory) == Cancelled(old(State()))
      ensures freedMemory <==> inflight == 0 && Requests(sq) == 0 && Ended(cq, slotSize, IsMultishot()) == 0
    {
      hide Cancelled;
      hide Sound;
      FreedOnlyWhenQuiet(State());
      freedMemory := CancelRecvs();
    }
  }

  /** A completion off the queue, counted in the fleet. */
  ghost function Popped(u: M.Uring): M.Uring
    requires u.cq != []
  {
    var c := Classify(u.cq[0], u.slotSize, u.IsMultishot());
    var v := u.(cq := u.cq[1..], read := u.read + [u.cq[0]]);
    if u.cq[0].tag != Recv then v
    else v.(armed := if c.Ends() && u.armed > 0 then u.armed - 1 else u.armed, starved := u.starved || c.NoBuffers?)
  }

  lemma PoppedKeeps(u: M.Uring)
    requires u.cq != []
    ensures Popped(u).held == u.held && Popped(u).minted == u.minted
  {
    hide Classify;
  }

  function FramesOf(c: Completion): seq<IndexFrame>
  {
    if c.Data? then [IndexFrame(c.slot, 0, c.len)] else []
  }

  /** What a completion of each kind does. */
  ghost function Settled(u: M.Uring, c: Completion): M.Uring
  {
    match c
    case Data(slot, len, _) => u.(minted := u.minted + [slot], yielded := u.yielded + [IndexFrame(slot, 0, len)])
    case Truncated(slot, _) => u.(back := u.back + [slot], truncated := u.truncated + 1)
    case NoBuffers => u.(noBuffer := u.noBuffer + 1)
    case _ => u
  }

  /** Reading a completion takes it off the queue and, for a receive, settles it. */
  lemma TakeOneCases(u: M.Uring)
    requires u.cq != []
    ensures var cqe := u.cq[0];
            var c := Classify(cqe, u.slotSize, u.IsMultishot());
            && M.TakeOne(u) == (if cqe.tag == Recv then Settled(Popped(u), c) else Popped(u))
            && FrameOf(cqe, u.slotSize, u.IsMultishot()) == (if cqe.tag == Recv then FramesOf(c) else [])
            && |FrameOf(cqe, u.slotSize, u.IsMultishot())| <= 1
  {
    hide Classify;
  }

  /** The first `n` completions are read, without an error, and leave room for `spare`. */
  ghost predicate Reading(u: M.Uring, room: nat, n: nat, v: M.Uring, spare: nat)
  {
    && n <= |u.cq| && v == Taken(u, n)
    && Readable(u.cq, room, u.slotSize, u.IsMultishot()) == n + Readable(v.cq, spare, u.slotSize, u.IsMultishot())
    && (n > 0 ==> Failure(u.cq[n - 1], u.slotSize, u.IsMultishot()).None?)
  }

  lemma ReadNone(u: M.Uring, room: nat)
    ensures Reading(u, room, 0, u, room)
  {
    TakenNone(u);
    assert u.cq[0..] == u.cq;
  }

  lemma ReadNext(u: M.Uring, room: nat, n: nat, v: M.Uring, spare: nat)
    requires Reading(u, room, n, v, spare) && v.cq != [] && spare > 0
    ensures var (w, failed) := (M.TakeOne(v), Failure(v.cq[0], v.slotSize, v.IsMultishot()));
            var given := FrameOf(v.cq[0], v.slotSize, v.IsMultishot());
            && |given| <= 1 && w.yielded == v.yielded + given && w.cq == v.cq[1..]
            && (failed.None? ==> Reading(u, room, n + 1, w, spare - |given|))
            && (failed.Some? ==> Harvest(u, room) == (w, failed))
  {
    hide Failure;
    hide Classify;
    hide Taken;
    hide M.TakeOne;
    TakeOneExact(v);
    TakenNext(u, n);
    assert v.cq[0] == u.cq[n] && v.cq[1..] == u.cq[n + 1..];
  }

  lemma ReadAll(u: M.Uring, room: nat, n: nat, v: M.Uring, spare: nat)
    requires Reading(u, room, n, v, spare) && (spare == 0 || v.cq == [])
    ensures Harvest(u, room) == (v, None)
  {
    hide Failure;
    hide Taken;
  }

  /** The first slots are handed, the others are left. */
  ghost function Left(u: M.Uring, handed: nat): M.Uring
    requires handed <= |u.back|
  {
    u.(back := u.back[handed..])
  }

  lemma NothingHanded(u: M.Uring)
    ensures Left(u, 0) == u
  {
  }

  lemma AllHanded(u: M.Uring)
    ensures HandRuns(Left(u, |u.back|)) == (u.(back := []), None)
  {
    assert Left(u, |u.back|) == u.(back := []);
  }

  /** Handing over what is left of the list: its first run, then the rest. */
  lemma NextRun(u: M.Uring, handed: nat)
    requires handed < |u.back|
    ensures var run := RunLength(u.back, handed, u.back[handed]);
            var (v, err) := M.Push(u, Provide(u.back[handed], run));
            && run > 0 && v.back == u.back
            && HandRuns(Left(u, handed)) ==
               if err.Some? then (v.(back := u.back[handed..]), err) else HandRuns(Left(v, handed + run))
  {
    hide M.Push;
    hide RunLength;
    var (first, rest, run) := (u.back[handed], u.back[handed..], RunLength(u.back, handed, u.back[handed]));
    RunFromHere(u.back, handed, 0, first);
    PushIgnoresBack(u, rest, Provide(first, run));
    PushKeepsLists(u, Provide(first, run));
    assert rest[run..] == u.back[handed + run..];
  }

  lemma PushIgnoresBack(u: M.Uring, back: seq<nat>, entry: Entry)
    ensures M.Push(u.(back := back), entry) == (M.Push(u, entry).0.(back := back), M.Push(u, entry).1)
  {
    EnterIgnoresBack(u, back);
    EnterKeepsLists(u);
    hide EnterKernel;
  }

  lemma EnterIgnoresBack(u: M.Uring, back: seq<nat>)
    ensures EnterKernel(u.(back := back)) == (EnterKernel(u).0.(back := back), EnterKernel(u).1)
  {
    var v := u.(enters := if u.enters == [] then [] else u.enters[1..]);
    if NextEnter(u).Took? {
      SubmitIgnoresBack(v, back, Min(NextEnter(u).n, |v.sq|));
    }
    hide Submit;
  }

  lemma {:induction false} SubmitIgnoresBack(u: M.Uring, back: seq<nat>, n: nat)
    requires n <= |u.sq|
    ensures Submit(u.(back := back), n) == Submit(u, n).(back := back)
  {
    hide TakeEntry;
    if n > 0 {
      SubmitIgnoresBack(u, back, n - 1);
      TakeEntryIgnoresBack(Submit(u, n - 1), back);
    }
  }

  lemma TakeEntryIgnoresBack(u: M.Uring, back: seq<nat>)
    requires u.sq != []
    ensures TakeEntry(u.(back := back)) == TakeEntry(u).(back := back)
  {
  }

  /** A whole life of the driver, from binding to teardown, is a run of the machine, outcome
      by outcome. */
  method Drive(slots: nat, slotSize: nat, path: Path, depth: nat, enters: seq<M.Enter>, moves: seq<seq<Move>>,
               sizes: seq<nat>)
    returns (driver: UringDriver, bound: Option<Error>, outcomes: seq<Outcome>, freedMemory: bool)
    requires 0 < slots <= 0x8000 && 0 < slotSize < 0x8000_0000 && 0 < depth <= slots
    ensures driver.Valid()
    ensures var (u0, err) := Bound(slots, slotSize, path, depth, enters, moves);
            var (u, outs) := AfterPolls(u0, if err.Some? then [] else sizes);
            bound == err && outcomes == outs && (driver.State(), freedMemory) == Cancelled(u)
  {
    hide Sound;
    hide M.Refill;
    hide Cancelled;
    hide Round;
    hide UringDriver.Fits;
    driver := new UringDriver(slots, slotSize, path, depth, enters, moves);
    bound := driver.Refill(true);
    outcomes := [];
    ghost var u0 := driver.State();
    if bound.None? {
      for i := 0 to |sizes|
        invariant driver.Valid() && fresh(driver) && fresh(driver.pool) && fresh(driver.fleet) && fresh(driver.mem)
        invariant fresh(driver.mem.entries) && (driver.State(), outcomes) == AfterPolls(u0, sizes[..i])
      {
        var o := PollOnce(driver, sizes[i]);
        outcomes := outcomes + [o];
        assert sizes[..i + 1][..i] == sizes[..i];
      }
      assert sizes[..|sizes|] == sizes;
    }
    freedMemory := driver.Drop();
  }

  /** The kernel and other threads run for a while, then one poll into a new batch. */
  method PollOnce(driver: UringDriver, size: nat) returns (o: Outcome)
    requires driver.Valid()
    modifies driver, driver.pool, driver.fleet, driver.mem, driver.mem.entries
    ensures driver.Valid() && (driver.State(), o) == Round(old(driver.State()), size)
  {
    hide Sound;
    hide M.Poll;
    hide M.Others;
    hide UringDriver.Fits;
    driver.Others();
    ghost var before := driver.yielded;
    var out := new FrameBatch<IndexFrame>(size);
    var r := driver.Poll(out);
    assert out.frames == driver.yielded[|before|..];
    o := Outcome(r, out.frames);
  }
}
