/** The AF_XDP driver as it runs: both rings, the free list and the pool updated in place,
    while the kernel and other threads move in between. Every method does to `State()` what
    the machine of `Afxdp` does. */
module AfxdpCode {
  import opened Octets
  import opened Batches
  import opened SlotPool
  import opened Slots
  import opened Afxdp

  class Rings {
    const frames: nat
    const frameSize: nat
    const pool: IndexPool
    var fill: seq<nat>
    var rx: seq<Desc>
    var free: seq<nat>
    var freed: seq<nat>
    var truncated: nat
    // slots inside the kernel, what it and other threads do each time they get to run, and
    // what polls that find nothing meet
    var kernel: seq<nat>
    var moves: seq<seq<Move>>
    var wakeups: seq<Wakeup>
    ghost var delivered: seq<Desc>
    ghost var collected: seq<Desc>
    ghost var yielded: seq<IndexFrame>

    ghost function State(): Xsk
      reads this, pool
    {
      Xsk(frames, frameSize, fill, kernel, rx, pool.held, pool.minted, pool.freed, free, truncated, moves, wakeups,
          delivered, collected, yielded)
    }

    /** The swap target of the drain is empty between calls. */
    ghost predicate Valid()
      reads this, pool
    {
      Sound(State()) && freed == [] && pool.count == frames && pool.stride == frameSize
    }

    constructor (frames: nat, frameSize: nat, moves: seq<seq<Move>>, wakeups: seq<Wakeup>)
      requires 0 < frameSize < U32 && frames < U32
      ensures Valid() && fresh(pool) && State() == Initial(frames, frameSize, moves, wakeups)
    {
      this.frames, this.frameSize, this.moves, this.wakeups := frames, frameSize, moves, wakeups;
      pool := new IndexPool(frames, frameSize);
      fill, rx, freed, truncated, kernel := [], [], [], 0, [];
      free := seq(frames, i => i);
      delivered, collected, yielded := [], [], [];
      new;
      hide Sound;
      InitialIsSound(frames, frameSize, moves, wakeups);
    }

    lemma ValidIsSized()
      requires Valid()
      ensures Sized(State())
    {
      SoundIsSized(State());
    }

    // ------------------------------------------------- kernel and other threads

    method Perform(move: Move)
      requires Valid()
      modifies this`fill, this`rx, this`kernel, this`delivered, pool`held, pool`freed
      ensures Valid() && frameSize > 0 && State() == Afxdp.Perform(old(State()), move)
    {
      hide All;
      hide Filled;
      hide Owned;
      hide Sum;
      hide FramesOf;
      hide Sound;
      SoundIsSized(State());
      PerformSound(State(), move);
      hide Without;
      match move {
        case Take =>
          if fill != [] {
            kernel, fill := kernel + [fill[0] / frameSize], fill[1..];
          }
        case Return(which, offset, len) =>
          if which < |kernel| && offset < frameSize {
            var desc := Desc(Address(kernel[which], frameSize) + offset, len);
            kernel := Without(kernel, which);
            rx, delivered := rx + [desc], delivered + [desc];
          }
        case Stray(addr, len) =>
          if addr >= Address(frames, frameSize) {
            rx, delivered := rx + [Desc(addr, len)], delivered + [Desc(addr, len)];
          }
        case DropFrame(which) =>
          if which < |pool.held| {
            pool.Drop(which);
          }
      }
    }

    /** Kernel and other threads run for a while. */
    method Others()
      requires Valid()
      modifies this`fill, this`rx, this`kernel, this`delivered, this`moves, pool`held, pool`freed
      ensures Valid() && frameSize > 0 && State() == Afxdp.Others(old(State()))
    {
      hide All;
      hide Filled;
      hide Owned;
      hide Sum;
      hide FramesOf;
      hide Sound;
      SoundIsSized(State());
      if moves == [] {
        return;
      }
      StaysSound(State(), State().(moves := moves[1..]));
      hide Afxdp.Perform;
      ghost var start := State().(moves := moves[1..]);
      var turn := moves[0];
      moves := moves[1..];
      for i := 0 to |turn|
        invariant Valid() && State() == Performed(start, turn, i)
        modifies this`fill, this`rx, this`kernel, this`delivered, pool`held, pool`freed
      {
        Perform(turn[i]);
      }
    }

    // ------------------------------------------------------------------- driver

    /** Owed slots, last first, into the fill ring as far as it has room. */
    method Produce()
      modifies this`free, this`fill
      ensures State() == GiveBack(old(State()), if |old(fill)| < frames then frames - |old(fill)| else 0)
    {
      var room: nat := if |fill| < frames then frames - |fill| else 0;
      ghost var all := room;
      while free != [] && room > 0
        invariant GiveBack(State(), room) == GiveBack(old(State()), all)
        decreases |free|
      {
        var slot := free[|free| - 1];
        free := free[..|free| - 1];
        fill := fill + [Address(slot, frameSize)];
        room := room - 1;
      }
    }

    /** Slots of dropped frames go back to the kernel; all of them fit, and they are drained
        into an empty list, as debug builds insist. */
    method Refill()
      requires Valid()
      modifies this`fill, this`rx, this`kernel, this`delivered, this`moves, this`free, this`freed
      modifies pool`held, pool`freed, pool`offered
      ensures Valid() && frameSize > 0 && State() == Afxdp.Refill(old(State()))
      ensures free == [] && pool.freed == [] && pool.offered == []
    {
      hide All;
      hide Filled;
      hide Owned;
      hide Sum;
      hide FramesOf;
      hide Sound;
      SoundIsSized(State());
      RefillSound(State());
      hide Afxdp.Others;
      hide GiveBack;
      Others();
      freed := pool.DrainFreed(freed);
      free, freed := free + freed, [];
      Produce();
    }

    /** Takes one receive descriptor: a frame inside its slot goes to the batch, one that
        runs past it is counted and its slot recycled, a foreign one is only counted. */
    method Collect(out: FrameBatch<IndexFrame>)
      requires Valid() && rx != [] && out.Spare() > 0
      modifies this`rx, this`free, this`truncated, this`collected, this`yielded, pool`minted, out`frames
      ensures Valid() && frameSize > 0 && State() == Afxdp.Collect(old(State()))
      ensures yielded == old(yielded) + FrameOf(old(rx)[0], frameSize, frames)
      ensures out.frames == old(out.frames) + FrameOf(old(rx)[0], frameSize, frames)
    {
      hide All;
      hide Filled;
      hide Owned;
      hide Sum;
      hide FramesOf;
      hide Sound;
      SoundIsSized(State());
      CollectSound(State());
      if Locate(rx[0], frameSize, frames).InFrame? {
        CollectOwns(State());
      }
      hide Locate;
      var desc := rx[0];
      ghost var elsewhere := Places(State())[FILL] + multiset(kernel) + Owned(rx[1..], frameSize, frames);
      rx, collected := rx[1..], collected + [desc];
      match Locate(desc, frameSize, frames) {
        case InFrame(slot, offset, len) =>
          var frame := pool.Frame(slot, offset, len, elsewhere);
          out.Push(frame);
          yielded := yielded + [frame];
        case Overrun(slot) =>
          truncated := truncated + 1;
          free := free + [slot];
        case Foreign =>
          truncated := truncated + 1;
      }
    }

    /** Takes what the ring holds now, as far as the batch has room. */
    method CollectReady(out: FrameBatch<IndexFrame>) returns (taken: nat)
      requires Valid()
      modifies this`rx, this`free, this`truncated, this`collected, this`yielded, pool`minted, out`frames
      ensures taken == Min(|old(rx)|, old(out.Spare()))
      ensures Valid() && frameSize > 0 && State() == Collected(old(State()), taken)
      ensures InStep(old(out.frames), old(yielded), out.frames, yielded)
    {
      hide All;
      hide Filled;
      hide Owned;
      hide Sum;
      hide FramesOf;
      hide Sound;
      hide Afxdp.Collect;
      hide FrameOf;
      hide Collected;
      hide InStep;
      ValidIsSized();
      if rx != [] {
        CollectedNext(State(), 0);
      }
      var ready := Min(|rx|, out.Spare());
      taken := 0;
      InStepYet(out.frames, yielded);
      while taken < ready
        invariant taken <= ready && Valid() && State() == Collected(old(State()), taken)
        invariant ready - taken <= out.Spare()
        invariant InStep(old(out.frames), old(yielded), out.frames, yielded)
      {
        CollectedNext(old(State()), taken);
        InStepOn(old(out.frames), old(yielded), out.frames, yielded, FrameOf(rx[0], frameSize, frames));
        Collect(out);
        taken := taken + 1;
      }
    }

    /** Drains the receive ring until a frame is pushed, the batch is full or the ring is
        empty. */
    method PollFrames(out: FrameBatch<IndexFrame>) returns (pushed: nat)
      requires Valid()
      modifies this`fill, this`rx, this`kernel, this`delivered, this`moves, this`free, this`truncated
      modifies this`collected, this`yielded, pool`held, pool`freed, pool`minted, out`frames
      ensures Valid() && frameSize > 0 && State() == Drain(old(State()), old(out.Spare()))
      ensures InStep(old(out.frames), old(yielded), out.frames, yielded)
      ensures pushed == |out.frames| - |old(out.frames)|
    {
      hide All;
      hide Filled;
      hide Owned;
      hide Sum;
      hide FramesOf;
      hide Sound;
      SoundIsSized(State());
      hide Afxdp.Others;
      hide Collected;
      ghost var room := out.Spare();
      var before := |out.frames|;
      while true
        invariant Valid() && out.frames == old(out.frames) && yielded == old(yielded)
        invariant Drain(State(), room) == Drain(old(State()), room)
        decreases |moves|, |rx|
      {
        OthersYieldNothing(State());
        Others();
        var taken := CollectReady(out);
        pushed := |out.frames| - before;
        if taken == 0 || pushed > 0 || out.Spare() == 0 {
          return;
        }
        assert yielded == old(yielded);
      }
    }

    /** One driver poll; a poll that finds no frame wakes the kernel if it has to. */
    method Poll(out: FrameBatch<IndexFrame>) returns (r: Result<Polled, Error>)
      requires Valid()
      modifies this`fill, this`rx, this`kernel, this`delivered, this`moves, this`free, this`freed, this`truncated
      modifies this`collected, this`yielded, this`wakeups
      modifies pool`held, pool`freed, pool`offered, pool`minted, out`frames
      ensures Valid() && frameSize > 0 && (State(), r) == Afxdp.Poll(old(State()), old(out.Spare()))
      ensures InStep(old(out.frames), old(yielded), out.frames, yielded)
    {
      hide All;
      hide Filled;
      hide Owned;
      hide Sum;
      hide FramesOf;
      hide Sound;
      SoundIsSized(State());
      PollSound(State(), out.Spare());
      RefillYieldsNothing(State());
      hide Afxdp.Refill;
      hide Drain;
      Refill();
      var pushed := PollFrames(out);
      // the frames pushed are the caller's from here on
      pool.held, pool.minted := pool.held + pool.minted, [];
      if pushed > 0 {
        return Ok(Frames(pushed));
      }
      var wakeup := if wakeups == [] then NotNeeded else wakeups[0];
      if wakeups != [] {
        wakeups := wakeups[1..];
      }
      return if wakeup == WakeFailed then Err(WakeupError) else Ok(Idle);
    }
  }

  /** A whole life of the driver is a run of the machine, outcome by outcome. */
  method Drive(frames: nat, frameSize: nat, moves: seq<seq<Move>>, wakeups: seq<Wakeup>, sizes: seq<nat>)
    returns (rings: Rings, outcomes: seq<Outcome>)
    requires 0 < frameSize < U32 && frames < U32
    ensures rings.Valid()
    ensures (rings.State(), outcomes) == AfterPolls(Initial(frames, frameSize, moves, wakeups), sizes)
  {
    hide Sound;
    hide Afxdp.Poll;
    rings := new Rings(frames, frameSize, moves, wakeups);
    outcomes := [];
    ghost var x0 := rings.State();
    for i := 0 to |sizes|
      invariant rings.Valid() && fresh(rings) && fresh(rings.pool)
      invariant (rings.State(), outcomes) == AfterPolls(x0, sizes[..i])
    {
      var out := new FrameBatch<IndexFrame>(sizes[i]);
      ghost var before := rings.yielded;
      var r := rings.Poll(out);
      assert out.frames == rings.yielded[|before|..];
      outcomes := outcomes + [Outcome(r, out.frames)];
      assert sizes[..i + 1][..i] == sizes[..i];
    }
    assert sizes[..|sizes|] == sizes;
  }
}
