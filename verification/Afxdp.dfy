/** AF_XDP slot ownership: the driver's free list, the pool's freed list, the frames
    callers hold, both rings and the kernel share one set of slots, and every slot is in
    exactly one of them while the kernel and other threads move on their own. The driver,
    the kernel and the other threads as one machine, and what holds of all its runs. */
module Afxdp {
  import opened Octets
  import opened SlotPool
  import opened Slots

  const U32 := 0x1_0000_0000

  /** A receive descriptor. */
  datatype Desc = Desc(addr: nat, len: nat)

  datatype Location = InFrame(slot: nat, offset: nat, len: nat) | Overrun(slot: nat) | Foreign

  /** Slot and offset of a descriptor; addresses outside the region belong to no slot. */
  function Locate(d: Desc, size: nat, frames: nat): (l: Location)
    requires size > 0
  {
    var (slot, offset) := (d.addr / size, d.addr % size);
    if slot >= U32 || offset >= U32 then Foreign
    else if slot >= frames then Foreign
    else if offset + d.len < U32 && offset + d.len <= size then InFrame(slot, offset, d.len)
    else Overrun(slot)
  }

  /** A located frame is exactly the descriptor's bytes and lies inside one slot; a
      descriptor is foreign exactly when its address is outside every slot. */
  lemma LocateIsExact(d: Desc, size: nat, frames: nat)
    requires 0 < size < U32 && frames < U32
    ensures var l := Locate(d, size, frames);
            && (l.Foreign? <==> d.addr >= frames * size)
            && (l.InFrame? ==>
                  && l.slot < frames && l.slot * size + l.offset == d.addr
                  && l.offset + l.len <= size && l.len == d.len)
            && (l.Overrun? ==> l.slot < frames && l.slot * size <= d.addr < (l.slot + 1) * size < d.addr + d.len)
  {
    var (slot, offset) := (d.addr / size, d.addr % size);
    assert d.addr == slot * size + offset && (slot + 1) * size == slot * size + size;
    if slot >= frames {
      ScaleKeepsOrder(frames, slot, size);
    } else {
      ScaleKeepsOrder(slot + 1, frames, size);
    }
  }

  // ------------------------------------------------------------------- slots

  /** Slots of the addresses in the fill ring. */
  ghost function Filled(fill: seq<nat>, size: nat): (m: multiset<nat>)
    requires size > 0
    ensures |m| == |fill|
  {
    if fill == [] then multiset{} else Filled(fill[..|fill| - 1], size) + multiset{fill[|fill| - 1] / size}
  }

  lemma FilledSnoc(fill: seq<nat>, slot: nat, size: nat)
    requires size > 0 && slot * size >= 0
    ensures Filled(fill + [slot * size], size) == Filled(fill, size) + multiset{slot}
  {
    SlotOfAddress(slot, 0, size);
    assert (fill + [slot * size])[..|fill|] == fill;
  }

  lemma {:induction false} FilledHead(fill: seq<nat>, size: nat)
    requires size > 0 && fill != []
    ensures Filled(fill, size) == multiset{fill[0] / size} + Filled(fill[1..], size)
    decreases |fill|
  {
    if |fill| > 1 {
      var init := fill[..|fill| - 1];
      FilledHead(init, size);
      assert fill[1..][..|fill| - 2] == init[1..];
    }
  }

  /** The frame a descriptor gives, if any. */
  ghost function FrameOf(d: Desc, size: nat, frames: nat): (given: seq<IndexFrame>)
    requires size > 0
    ensures |given| <= 1
  {
    match Locate(d, size, frames)
    case InFrame(slot, offset, len) => [IndexFrame(slot, offset, len)]
    case _ => []
  }

  ghost function FramesOf(descs: seq<Desc>, size: nat, frames: nat): seq<IndexFrame>
    requires size > 0
  {
    if descs == [] then []
    else FramesOf(descs[..|descs| - 1], size, frames) + FrameOf(descs[|descs| - 1], size, frames)
  }

  lemma FramesSnoc(descs: seq<Desc>, d: Desc, size: nat, frames: nat)
    requires size > 0
    ensures FramesOf(descs + [d], size, frames) == FramesOf(descs, size, frames) + FrameOf(d, size, frames)
  {
    assert (descs + [d])[..|descs|] == descs;
  }

  /** The slot a descriptor carries, if any. */
  ghost function Owner(d: Desc, size: nat, frames: nat): multiset<nat>
    requires size > 0
  {
    match Locate(d, size, frames)
    case InFrame(slot, _, _) => multiset{slot}
    case Overrun(slot) => multiset{slot}
    case Foreign => multiset{}
  }

  ghost function Owned(rx: seq<Desc>, size: nat, frames: nat): multiset<nat>
    requires size > 0
  {
    if rx == [] then multiset{} else Owned(rx[..|rx| - 1], size, frames) + Owner(rx[|rx| - 1], size, frames)
  }

  lemma OwnedSnoc(rx: seq<Desc>, d: Desc, size: nat, frames: nat)
    requires size > 0
    ensures Owned(rx + [d], size, frames) == Owned(rx, size, frames) + Owner(d, size, frames)
  {
    assert (rx + [d])[..|rx|] == rx;
  }

  lemma {:induction false} OwnedHead(rx: seq<Desc>, size: nat, frames: nat)
    requires size > 0 && rx != []
    ensures Owned(rx, size, frames) == Owner(rx[0], size, frames) + Owned(rx[1..], size, frames)
    decreases |rx|
  {
    hide Owner;
    if |rx| > 1 {
      var init := rx[..|rx| - 1];
      OwnedHead(init, size, frames);
      assert rx[1..][..|rx| - 2] == init[1..];
    }
  }

  // ------------------------------------------------------------------ machine

  /** What happens beside the driver: the kernel takes the next fill entry, returns a
      slot it took at any offset inside it with any length, or delivers an address in no
      slot; another thread drops a frame. */
  datatype Move = Take | Return(which: nat, offset: nat, len: nat) | Stray(addr: nat, len: nat) | DropFrame(which: nat)

  /** What a poll that found no frame meets: the kernel needs no waking, is woken, or the
      wakeup fails. */
  datatype Wakeup = NotNeeded | Woken | WakeFailed

  datatype Polled = Frames(n: nat) | Idle

  datatype Error = WakeupError

  /** Driver, kernel and callers. `fill` to `free` hold the slots; `moves` and `wakeups` are
      what is still to happen beside the driver; `delivered`, `collected` and `yielded` are
      the descriptors the kernel delivered, those read, and the frames they gave. */
  datatype Xsk = Xsk(
    frames: nat, frameSize: nat,
    fill: seq<nat>, kernel: seq<nat>, rx: seq<Desc>, held: seq<nat>, minted: seq<nat>, freed: seq<nat>, free: seq<nat>,
    truncated: nat, moves: seq<seq<Move>>, wakeups: seq<Wakeup>,
    delivered: seq<Desc>, collected: seq<Desc>, yielded: seq<IndexFrame>)

  predicate Sized(x: Xsk)
  {
    0 < x.frameSize < U32 && x.frames < U32
  }

  /** Every slot starts on the free list. */
  function Initial(frames: nat, frameSize: nat, moves: seq<seq<Move>>, wakeups: seq<Wakeup>): Xsk
  {
    Xsk(frames, frameSize, [], [], [], [], [], [], seq(frames, i => i), 0, moves, wakeups, [], [], [])
  }

  // ------------------------------------------------- kernel and other threads

  function KernelTakes(x: Xsk): Xsk
    requires x.frameSize > 0
  {
    if x.fill == [] then x else x.(kernel := x.kernel + [x.fill[0] / x.frameSize], fill := x.fill[1..])
  }

  function Deliver(x: Xsk, desc: Desc): Xsk
  {
    x.(rx := x.rx + [desc], delivered := x.delivered + [desc])
  }

  function KernelReturns(x: Xsk, which: nat, offset: nat, len: nat): Xsk
  {
    if which >= |x.kernel| || offset >= x.frameSize then x
    else Deliver(x.(kernel := Without(x.kernel, which)), Desc(Address(x.kernel[which], x.frameSize) + offset, len))
  }

  function KernelStrays(x: Xsk, addr: nat, len: nat): Xsk
  {
    if addr < Address(x.frames, x.frameSize) then x else Deliver(x, Desc(addr, len))
  }

  function FrameDrops(x: Xsk, which: nat): Xsk
  {
    if which >= |x.held| then x else x.(held := Without(x.held, which), freed := x.freed + [x.held[which]])
  }

  function Perform(x: Xsk, move: Move): (y: Xsk)
    requires x.frameSize > 0
    ensures y.frames == x.frames && y.frameSize == x.frameSize && y.moves == x.moves
  {
    match move
    case Take => KernelTakes(x)
    case Return(which, offset, len) => KernelReturns(x, which, offset, len)
    case Stray(addr, len) => KernelStrays(x, addr, len)
    case DropFrame(which) => FrameDrops(x, which)
  }

  /** The first `n` of these moves. */
  function Performed(x: Xsk, turn: seq<Move>, n: nat): (y: Xsk)
    requires x.frameSize > 0 && n <= |turn|
    ensures y.frames == x.frames && y.frameSize == x.frameSize && y.moves == x.moves
  {
    if n == 0 then x else Perform(Performed(x, turn, n - 1), turn[n - 1])
  }

  /** Kernel and other threads run for a while. */
  function Others(x: Xsk): (y: Xsk)
    requires x.frameSize > 0
    ensures y.frames == x.frames && y.frameSize == x.frameSize
    ensures y.moves == if x.moves == [] then [] else x.moves[1..]
    ensures x.moves == [] ==> y == x
  {
    if x.moves == [] then x else Performed(x.(moves := x.moves[1..]), x.moves[0], |x.moves[0]|)
  }

  // ------------------------------------------------------------------- driver

  function CollectFreed(x: Xsk): Xsk
  {
    x.(free := x.free + x.freed, freed := [])
  }

  /** Owed slots, last first, into the fill ring as far as there is room. */
  function GiveBack(x: Xsk, room: nat): (y: Xsk)
    ensures y.frames == x.frames && y.frameSize == x.frameSize && y.moves == x.moves && y.rx == x.rx
    decreases room
  {
    if x.free == [] || room == 0 then x
    else
      var n := |x.free| - 1;
      GiveBack(x.(free := x.free[..n], fill := x.fill + [Address(x.free[n], x.frameSize)]), room - 1)
  }

  /** Slots of dropped frames go back to the kernel. */
  function Refill(x: Xsk): (y: Xsk)
    requires x.frameSize > 0
    ensures y.frames == x.frames && y.frameSize == x.frameSize && |y.moves| <= |x.moves|
  {
    var freed := CollectFreed(Others(x));
    GiveBack(freed, if |freed.fill| < freed.frames then freed.frames - |freed.fill| else 0)
  }

  /** Takes one receive descriptor: a frame inside its slot is handed out, one that runs
      past it is counted and its slot recycled, a foreign one is only counted. */
  function Collect(x: Xsk): Xsk
    requires x.frameSize > 0 && x.rx != []
  {
    var y := x.(rx := x.rx[1..], collected := x.collected + [x.rx[0]]);
    match Locate(x.rx[0], x.frameSize, x.frames)
    case InFrame(slot, offset, len) =>
      y.(minted := x.minted + [slot], yielded := x.yielded + [IndexFrame(slot, offset, len)])
    case Overrun(slot) => y.(free := x.free + [slot], truncated := x.truncated + 1)
    case Foreign => y.(truncated := x.truncated + 1)
  }

  function Collected(x: Xsk, n: nat): (y: Xsk)
    requires x.frameSize > 0 && n <= |x.rx|
    ensures |y.rx| == |x.rx| - n && y.moves == x.moves && y.frames == x.frames && y.frameSize == x.frameSize
    ensures x.yielded <= y.yielded && |y.yielded| <= |x.yielded| + n
    ensures n == 0 ==> y == x
  {
    if n == 0 then x else Collect(Collected(x, n - 1))
  }

  function Min(a: nat, b: nat): nat
  {
    if a < b then a else b
  }

  /** Drains the receive ring until a frame is handed out, `room` is used up or the ring is
      empty. */
  function Drain(x: Xsk, room: nat): (y: Xsk)
    requires x.frameSize > 0
    ensures y.frames == x.frames && y.frameSize == x.frameSize && x.yielded <= y.yielded
    ensures |y.yielded| <= |x.yielded| + room
    decreases |x.moves|, |x.rx|
  {
    var ready := Others(x);
    OthersYieldNothing(x);
    var taken := Min(|ready.rx|, room);
    var y := Collected(ready, taken);
    if taken == 0 || y.yielded != x.yielded then y else Drain(y, room)
  }

  /** One driver poll into a batch with this much room. */
  function Poll(x: Xsk, room: nat): (r: (Xsk, Result<Polled, Error>))
    requires x.frameSize > 0
    ensures r.0.frames == x.frames && r.0.frameSize == x.frameSize && x.yielded <= r.0.yielded
  {
    RefillYieldsNothing(x);
    var y := Drain(Refill(x), room);
    var z := y.(held := y.held + y.minted, minted := []);
    var pushed := |y.yielded| - |x.yielded|;
    if pushed > 0 then (z, Ok(Frames(pushed)))
    else
      var wakeup := if z.wakeups == [] then NotNeeded else z.wakeups[0];
      (z.(wakeups := if z.wakeups == [] then [] else z.wakeups[1..]),
       if wakeup == WakeFailed then Err(WakeupError) else Ok(Idle))
  }

  lemma {:induction false} PerformedYieldsNothing(x: Xsk, turn: seq<Move>, n: nat)
    requires x.frameSize > 0 && n <= |turn|
    ensures Performed(x, turn, n).yielded == x.yielded && Performed(x, turn, n).collected == x.collected
    ensures Performed(x, turn, n).minted == x.minted
  {
    hide Without;
    if n > 0 {
      PerformedYieldsNothing(x, turn, n - 1);
    }
  }

  lemma OthersYieldNothing(x: Xsk)
    requires x.frameSize > 0
    ensures Others(x).yielded == x.yielded && Others(x).collected == x.collected && Others(x).minted == x.minted
  {
    if x.moves != [] {
      PerformedYieldsNothing(x.(moves := x.moves[1..]), x.moves[0], |x.moves[0]|);
    }
  }

  lemma {:induction false} GiveBackYieldsNothing(x: Xsk, room: nat)
    ensures var y := GiveBack(x, room); y.yielded == x.yielded && y.minted == x.minted && y.freed == x.freed
    decreases room
  {
    if x.free != [] && room > 0 {
      var n := |x.free| - 1;
      GiveBackYieldsNothing(x.(free := x.free[..n], fill := x.fill + [Address(x.free[n], x.frameSize)]), room - 1);
    }
  }

  lemma RefillYieldsNothing(x: Xsk)
    requires x.frameSize > 0
    ensures Refill(x).yielded == x.yielded && Refill(x).minted == x.minted && Refill(x).freed == []
  {
    OthersYieldNothing(x);
    var freed := CollectFreed(Others(x));
    GiveBackYieldsNothing(freed, if |freed.fill| < freed.frames then freed.frames - |freed.fill| else 0);
  }

  // --------------------------------------------------------------- whole runs

  /** One poll: its result and the frames it pushed. */
  datatype Outcome = Outcome(result: Result<Polled, Error>, frames: seq<IndexFrame>)

  /** The state after polls with batches of these sizes, and every outcome. */
  function AfterPolls(x: Xsk, sizes: seq<nat>): (r: (Xsk, seq<Outcome>))
    requires x.frameSize > 0
    ensures r.0.frameSize == x.frameSize && r.0.frames == x.frames && |r.1| == |sizes|
  {
    if sizes == [] then (x, [])
    else
      var (before, outs) := AfterPolls(x, sizes[..|sizes| - 1]);
      var (after, result) := Poll(before, sizes[|sizes| - 1]);
      (after, outs + [Outcome(result, after.yielded[|before.yielded|..])])
  }

  // --------------------------------------------------------------------- laws

  const FILL := 0
  const KERNEL := 1
  const RX := 2
  const HELD := 3
  const MINTED := 4
  const FREED := 5
  const FREE := 6

  /** Every place a slot can be. */
  ghost function Places(x: Xsk): seq<multiset<nat>>
    requires x.frameSize > 0
  {
    [Filled(x.fill, x.frameSize), multiset(x.kernel), Owned(x.rx, x.frameSize, x.frames),
     multiset(x.held), multiset(x.minted), multiset(x.freed), multiset(x.free)]
  }

  /** Every slot is in exactly one place. */
  ghost predicate Placed(x: Xsk)
  {
    Sized(x) && Sum(Places(x)) == All(x.frames)
  }

  /** Descriptors are read in order, each once; those inside their slot gave a frame,
      every other one was counted. */
  ghost predicate Logged(x: Xsk)
  {
    && x.frameSize > 0 && x.delivered == x.collected + x.rx
    && x.yielded == FramesOf(x.collected, x.frameSize, x.frames)
    && x.truncated == |x.collected| - |x.yielded|
  }

  ghost predicate Sound(x: Xsk)
  {
    Placed(x) && Logged(x)
  }

  lemma InitialIsSound(frames: nat, frameSize: nat, moves: seq<seq<Move>>, wakeups: seq<Wakeup>)
    requires 0 < frameSize < U32 && frames < U32
    ensures Sound(Initial(frames, frameSize, moves, wakeups))
  {
    hide Sum;
    hide All;
    EachOnce(frames);
    NothingBut(Places(Initial(frames, frameSize, moves, wakeups)), FREE);
  }

  lemma TakesSound(x: Xsk)
    requires Sound(x)
    ensures Sound(KernelTakes(x))
  {
    hide All;
    hide Filled;
    hide Owned;
    hide Sum;
    hide FramesOf;
    if x.fill != [] {
      var y := KernelTakes(x);
      FilledHead(x.fill, x.frameSize);
      MoveKeeps(Places(x), FILL, KERNEL, Filled(y.fill, x.frameSize), multiset{x.fill[0] / x.frameSize});
      assert Places(y) == Places(x)[FILL := Places(y)[FILL]][KERNEL := Places(y)[KERNEL]];
    }
  }

  lemma DeliverLogs(x: Xsk, desc: Desc)
    requires Logged(x)
    ensures Logged(Deliver(x, desc))
  {
    hide FramesOf;
  }

  lemma ReturnsSound(x: Xsk, which: nat, offset: nat, len: nat)
    requires Sound(x)
    ensures Sound(KernelReturns(x, which, offset, len))
  {
    hide All;
    hide Filled;
    hide Owned;
    hide Sum;
    hide FramesOf;
    hide Owner;
    hide Without;
    hide Address;
    if which < |x.kernel| && offset < x.frameSize {
      var slot := x.kernel[which];
      var desc := Desc(Address(slot, x.frameSize) + offset, len);
      var rest := multiset(Without(x.kernel, which));
      WithoutOne(x.kernel, which);
      OnlyHere(Places(x), x.frames, KERNEL, slot, rest);
      ReturnedOwner(slot, offset, len, x.frameSize, x.frames);
      OwnedSnoc(x.rx, desc, x.frameSize, x.frames);
      MoveKeeps(Places(x), KERNEL, RX, rest, multiset{slot});
      var y := KernelReturns(x, which, offset, len);
      assert Places(y) == Places(x)[KERNEL := Places(y)[KERNEL]][RX := Places(y)[RX]];
      DeliverLogs(x.(kernel := Without(x.kernel, which)), desc);
    }
  }

  lemma ReturnedOwner(slot: nat, offset: nat, len: nat, size: nat, frames: nat)
    requires slot < frames < U32 && offset < size < U32
    ensures Owner(Desc(Address(slot, size) + offset, len), size, frames) == multiset{slot}
  {
    SlotOfAddress(slot, offset, size);
  }

  lemma StraysSound(x: Xsk, addr: nat, len: nat)
    requires Sound(x)
    ensures Sound(KernelStrays(x, addr, len))
  {
    LocateIsExact(Desc(addr, len), x.frameSize, x.frames);
    hide All;
    hide Filled;
    hide Owned;
    hide Sum;
    hide FramesOf;
    hide Locate;
    if addr >= Address(x.frames, x.frameSize) {
      var y := KernelStrays(x, addr, len);
      OwnedSnoc(x.rx, Desc(addr, len), x.frameSize, x.frames);
      assert Places(y)[RX] == Places(x)[RX];
      assert Places(y) == Places(x);
      DeliverLogs(x, Desc(addr, len));
    }
  }

  lemma DropsSound(x: Xsk, which: nat)
    requires Sound(x)
    ensures Sound(FrameDrops(x, which))
  {
    hide All;
    hide Filled;
    hide Owned;
    hide Sum;
    hide FramesOf;
    hide Without;
    if which < |x.held| {
      var y := FrameDrops(x, which);
      WithoutOne(x.held, which);
      MoveKeeps(Places(x), HELD, FREED, multiset(Without(x.held, which)), multiset{x.held[which]});
      assert Places(y) == Places(x)[HELD := Places(y)[HELD]][FREED := Places(y)[FREED]];
    }
  }

  lemma PerformSound(x: Xsk, move: Move)
    requires Sound(x)
    ensures Sound(Perform(x, move))
  {
    hide Sound;
    hide Without;
    match move {
      case Take => TakesSound(x);
      case Return(which, offset, len) => ReturnsSound(x, which, offset, len);
      case Stray(addr, len) => StraysSound(x, addr, len);
      case DropFrame(which) => DropsSound(x, which);
    }
  }

  lemma SoundIsSized(x: Xsk)
    requires Sound(x)
    ensures Sized(x)
  {
  }

  lemma {:induction false} PerformedSound(x: Xsk, turn: seq<Move>, n: nat)
    requires Sound(x) && n <= |turn|
    ensures Sized(x) && Sound(Performed(x, turn, n))
  {
    hide All;
    hide Filled;
    hide Owned;
    hide Sum;
    hide FramesOf;
    SoundIsSized(x);
    hide Sound;
    hide Perform;
    if n > 0 {
      PerformedSound(x, turn, n - 1);
      PerformSound(Performed(x, turn, n - 1), turn[n - 1]);
    }
  }

  /** Nothing that holds slots or records them changed. */
  lemma StaysSound(x: Xsk, y: Xsk)
    requires Sound(x) && y == x.(moves := y.moves, wakeups := y.wakeups)
    ensures Sound(y)
  {
    hide All;
    hide Filled;
    hide Owned;
    hide Sum;
    hide FramesOf;
    assert Places(y) == Places(x);
  }

  lemma OthersSound(x: Xsk)
    requires Sound(x)
    ensures Sound(Others(x))
  {
    if x.moves != [] {
      var y := x.(moves := x.moves[1..]);
      StaysSound(x, y);
      hide Sound;
      PerformedSound(y, x.moves[0], |x.moves[0]|);
    }
  }

  lemma CollectFreedSound(x: Xsk)
    requires Sound(x)
    ensures Sound(CollectFreed(x))
  {
    hide All;
    hide Filled;
    hide Owned;
    hide Sum;
    hide FramesOf;
    var y := CollectFreed(x);
    MoveKeeps(Places(x), FREED, FREE, multiset{}, multiset(x.freed));
    assert Places(y) == Places(x)[FREED := Places(y)[FREED]][FREE := Places(y)[FREE]];
  }

  lemma GiveOneSound(x: Xsk)
    requires Sound(x) && x.free != []
    ensures var n := |x.free| - 1;
            Sound(x.(free := x.free[..n], fill := x.fill + [Address(x.free[n], x.frameSize)]))
  {
    hide All;
    hide Filled;
    hide Owned;
    hide Sum;
    hide FramesOf;
    var n := |x.free| - 1;
    var slot := x.free[n];
    var y := x.(free := x.free[..n], fill := x.fill + [Address(slot, x.frameSize)]);
    FilledSnoc(x.fill, slot, x.frameSize);
    assert x.free == x.free[..n] + [slot];
    MoveKeeps(Places(x), FREE, FILL, multiset(x.free[..n]), multiset{slot});
    assert Places(y) == Places(x)[FREE := Places(y)[FREE]][FILL := Places(y)[FILL]];
  }

  lemma {:induction false} GiveBackSound(x: Xsk, room: nat)
    requires Sound(x)
    ensures Sound(GiveBack(x, room)) && (|x.free| <= room ==> GiveBack(x, room).free == [])
    decreases room
  {
    hide Sound;
    if x.free != [] && room > 0 {
      var n := |x.free| - 1;
      GiveOneSound(x);
      GiveBackSound(x.(free := x.free[..n], fill := x.fill + [Address(x.free[n], x.frameSize)]), room - 1);
    }
  }

  lemma FillFits(x: Xsk)
    requires Sound(x)
    ensures |x.fill| + |x.free| <= x.frames
  {
    hide All;
    hide Owned;
    hide FramesOf;
    AllOnce(x.frames, 0);
    TwoFit(Places(x), FILL, FREE);
  }

  /** Slots of dropped frames go back to the fill ring: all of them fit. */
  lemma RefillSound(x: Xsk)
    requires Sound(x)
    ensures Sound(Refill(x)) && Refill(x).free == [] && Refill(x).freed == []
  {
    hide All;
    hide Filled;
    hide Owned;
    hide Sum;
    hide FramesOf;
    SoundIsSized(x);
    hide Sound;
    hide Others;
    hide GiveBack;
    OthersSound(x);
    CollectFreedSound(Others(x));
    var freed := CollectFreed(Others(x));
    FillFits(freed);
    GiveBackSound(freed, freed.frames - |freed.fill|);
    RefillYieldsNothing(x);
  }

  /** The slot of a received frame is in no frame, no ring and no list. */
  lemma CollectOwns(x: Xsk)
    requires Sound(x) && x.rx != [] && Locate(x.rx[0], x.frameSize, x.frames).InFrame?
    ensures var l := Locate(x.rx[0], x.frameSize, x.frames);
            && l.slot < x.frames && l.offset + l.len <= x.frameSize
            && l.slot !in x.held && l.slot !in x.minted && l.slot !in Places(x)[FILL] && l.slot !in x.kernel
            && l.slot !in Owned(x.rx[1..], x.frameSize, x.frames)
  {
    LocateIsExact(x.rx[0], x.frameSize, x.frames);
    var l := Locate(x.rx[0], x.frameSize, x.frames);
    OwnedHead(x.rx, x.frameSize, x.frames);
    hide All;
    hide Filled;
    hide Owned;
    hide Sum;
    hide FramesOf;
    hide Locate;
    OnlyHere(Places(x), x.frames, RX, l.slot, Owned(x.rx[1..], x.frameSize, x.frames));
    assert l.slot !in Places(x)[HELD] && l.slot !in Places(x)[MINTED] && l.slot !in Places(x)[KERNEL];
  }

  lemma CollectPlaces(x: Xsk)
    requires Placed(x) && x.rx != []
    ensures Placed(Collect(x))
  {
    hide All;
    hide Filled;
    hide Owned;
    hide Sum;
    hide Locate;
    var y := Collect(x);
    OwnedHead(x.rx, x.frameSize, x.frames);
    var rest := Owned(x.rx[1..], x.frameSize, x.frames);
    match Locate(x.rx[0], x.frameSize, x.frames) {
      case InFrame(slot, _, _) =>
        MoveKeeps(Places(x), RX, MINTED, rest, multiset{slot});
        assert Places(y) == Places(x)[RX := Places(y)[RX]][MINTED := Places(y)[MINTED]];
      case Overrun(slot) =>
        MoveKeeps(Places(x), RX, FREE, rest, multiset{slot});
        assert Places(y) == Places(x)[RX := Places(y)[RX]][FREE := Places(y)[FREE]];
      case Foreign =>
        assert Places(y)[RX] == Places(x)[RX];
        assert Places(y) == Places(x);
    }
  }

  lemma CollectLogs(x: Xsk)
    requires Logged(x) && x.rx != []
    ensures Logged(Collect(x))
  {
    hide Locate;
    hide FramesOf;
    var y := Collect(x);
    FramesSnoc(x.collected, x.rx[0], x.frameSize, x.frames);
    HeadMoves(x.collected, x.rx);
    assert y.yielded == x.yielded + FrameOf(x.rx[0], x.frameSize, x.frames);
  }

  lemma HeadMoves(collected: seq<Desc>, rx: seq<Desc>)
    requires rx != []
    ensures collected + rx == (collected + [rx[0]]) + rx[1..]
  {
    assert rx == [rx[0]] + rx[1..];
  }

  lemma CollectedNext(x: Xsk, n: nat)
    requires x.frameSize > 0 && n < |x.rx|
    ensures Collected(x, 0) == x && Collected(x, n + 1) == Collect(Collected(x, n))
  {
    hide Collect;
  }

  lemma CollectSound(x: Xsk)
    requires Sound(x) && x.rx != []
    ensures Sound(Collect(x))
  {
    hide All;
    hide Filled;
    hide Owned;
    hide Sum;
    hide FramesOf;
    hide Collect;
    CollectPlaces(x);
    CollectLogs(x);
  }

  lemma {:induction false} CollectedSound(x: Xsk, n: nat)
    requires Sound(x) && n <= |x.rx|
    ensures Sound(Collected(x, n))
  {
    hide All;
    hide Filled;
    hide Owned;
    hide Sum;
    hide FramesOf;
    hide Sound;
    hide Collect;
    SoundIsSized(x);
    if n > 0 {
      CollectedSound(x, n - 1);
      CollectSound(Collected(x, n - 1));
    }
  }

  /** Handing nothing out means that the ring was empty, or there was no room. */
  lemma {:induction false} DrainSound(x: Xsk, room: nat)
    requires Sound(x)
    ensures var y := Drain(x, room);
            && Sound(y) && |y.moves| <= |x.moves| && (x.moves != [] ==> |y.moves| < |x.moves|)
            && (y.yielded == x.yielded ==> y.rx == [] || room == 0)
    decreases |x.moves|, |x.rx|
  {
    hide All;
    hide Filled;
    hide Owned;
    hide Sum;
    hide FramesOf;
    SoundIsSized(x);
    hide Sound;
    hide Others;
    hide Collected;
    OthersSound(x);
    OthersYieldNothing(x);
    var ready := Others(x);
    var taken := Min(|ready.rx|, room);
    CollectedSound(ready, taken);
    var y := Collected(ready, taken);
    if taken > 0 && y.yielded == x.yielded {
      DrainSound(y, room);
    }
  }

  lemma HandOverSound(x: Xsk)
    requires Sound(x)
    ensures Sound(x.(held := x.held + x.minted, minted := []))
  {
    hide All;
    hide Filled;
    hide Owned;
    hide Sum;
    hide FramesOf;
    var y := x.(held := x.held + x.minted, minted := []);
    MoveKeeps(Places(x), MINTED, HELD, multiset{}, multiset(x.minted));
    assert Places(y) == Places(x)[MINTED := Places(y)[MINTED]][HELD := Places(y)[HELD]];
  }

  /** One poll keeps every slot in one place and every descriptor accounted for; with room
      left it hands out nothing only when no descriptor is unread. */
  lemma PollSound(x: Xsk, room: nat)
    requires Sound(x)
    ensures var (y, r) := Poll(x, room);
            && Sound(y) && y.minted == [] && |y.yielded| <= |x.yielded| + room
            && (r.Ok? ==> r.value == if y.yielded == x.yielded then Idle else Frames(|y.yielded| - |x.yielded|))
            && (r.Err? ==> y.yielded == x.yielded)
            && (y.yielded == x.yielded && room > 0 ==> y.rx == [])
  {
    hide All;
    hide Filled;
    hide Owned;
    hide Sum;
    hide FramesOf;
    SoundIsSized(x);
    hide Sound;
    hide Drain;
    hide Refill;
    RefillSound(x);
    RefillYieldsNothing(x);
    var y := Drain(Refill(x), room);
    DrainSound(Refill(x), room);
    HandOverSound(y);
    var z := y.(held := y.held + y.minted, minted := []);
    StaysSound(z, Poll(x, room).0);
  }

  ghost function Gathered(outcomes: seq<Outcome>): seq<IndexFrame>
  {
    if outcomes == [] then [] else Gathered(outcomes[..|outcomes| - 1]) + outcomes[|outcomes| - 1].frames
  }

  /** The result tells the frames, of which there are no more than room for them. */
  ghost predicate Tells(o: Outcome, size: nat)
  {
    && |o.frames| <= size
    && match o.result
       case Ok(Frames(n)) => n == |o.frames| && n > 0
       case _ => o.frames == []
  }

  /** Polls with these batch sizes had these outcomes and lead to `x`. */
  ghost predicate Accounts(x: Xsk, outs: seq<Outcome>, sizes: seq<nat>)
  {
    && |outs| == |sizes| && Gathered(outs) == x.yielded
    && (forall i :: 0 <= i < |sizes| ==> Tells(outs[i], sizes[i]))
    && (sizes != [] && outs[|sizes| - 1].frames == [] && sizes[|sizes| - 1] > 0 ==> x.rx == [])
  }

  lemma AccountsOn(x: Xsk, outs: seq<Outcome>, sizes: seq<nat>, y: Xsk, result: Result<Polled, Error>, size: nat)
    requires Accounts(x, outs, sizes) && x.yielded <= y.yielded && |y.yielded| <= |x.yielded| + size
    requires result.Ok? ==>
               result.value == if y.yielded == x.yielded then Idle else Frames(|y.yielded| - |x.yielded|)
    requires result.Err? ==> y.yielded == x.yielded
    requires y.yielded == x.yielded && size > 0 ==> y.rx == []
    ensures Accounts(y, outs + [Outcome(result, y.yielded[|x.yielded|..])], sizes + [size])
  {
    var o := Outcome(result, y.yielded[|x.yielded|..]);
    assert (outs + [o])[..|outs|] == outs;
    assert y.yielded == x.yielded + o.frames;
  }

  lemma {:induction false} RunSound(x0: Xsk, sizes: seq<nat>)
    requires Sound(x0) && x0.yielded == []
    ensures Sized(x0) && Sound(AfterPolls(x0, sizes).0)
    ensures Accounts(AfterPolls(x0, sizes).0, AfterPolls(x0, sizes).1, sizes)
    decreases |sizes|
  {
    hide All;
    hide Filled;
    hide Owned;
    hide Sum;
    hide FramesOf;
    hide Sound;
    hide Poll;
    hide Tells;
    SoundIsSized(x0);
    if sizes != [] {
      var (init, size) := (sizes[..|sizes| - 1], sizes[|sizes| - 1]);
      RunSound(x0, init);
      hide Accounts;
      var (before, outs) := AfterPolls(x0, init);
      PollSound(before, size);
      AccountsOn(before, outs, init, Poll(before, size).0, Poll(before, size).1, size);
      assert sizes == init + [size];
    }
  }

  /** Each slot is once in exactly one of fill ring, kernel, receive ring, live frames, freed
      list and free list. */
  ghost predicate EachSlotOnce(x: Xsk)
  {
    x.frameSize > 0 && forall slot :: 0 <= slot < x.frames ==> Sum(Places(x))[slot] == 1
  }

  lemma PlacedIsOnce(x: Xsk)
    requires Placed(x)
    ensures EachSlotOnce(x)
  {
    hide Sum;
    hide Filled;
    hide Owned;
    forall slot | 0 <= slot < x.frames ensures Sum(Places(x))[slot] == 1 {
      AllOnce(x.frames, slot);
    }
  }

  /** Every pool, every kernel and every way callers hold and drop frames: after any number
      of polls with any batch sizes each slot is once in exactly one place; the frames the
      polls pushed are those of the descriptors read, in the kernel's order, each poll as
      many as it says; and a poll with room that pushes nothing leaves no descriptor unread. */
  lemma EveryRunKeepsSlots(frames: nat, frameSize: nat, moves: seq<seq<Move>>, wakeups: seq<Wakeup>, sizes: seq<nat>)
    requires 0 < frameSize < U32 && frames < U32
    ensures var (x, outs) := AfterPolls(Initial(frames, frameSize, moves, wakeups), sizes);
            && EachSlotOnce(x) && Accounts(x, outs, sizes)
            && x.delivered == x.collected + x.rx && x.yielded == FramesOf(x.collected, frameSize, frames)
  {
    hide Accounts;
    hide EachSlotOnce;
    hide Sum;
    hide FramesOf;
    var x0 := Initial(frames, frameSize, moves, wakeups);
    InitialIsSound(frames, frameSize, moves, wakeups);
    RunSound(x0, sizes);
    PlacedIsOnce(AfterPolls(x0, sizes).0);
    hide Placed;
    hide AfterPolls;
  }

  /** Polls that pushed nothing. */
  ghost function Empties(outs: seq<Outcome>): nat
  {
    if outs == [] then 0
    else Empties(outs[..|outs| - 1]) + if outs[|outs| - 1].frames == [] then 1 else 0
  }

  /** What is left of the wakeups after `n` of them. */
  function After(wakeups: seq<Wakeup>, n: nat): seq<Wakeup>
  {
    if n < |wakeups| then wakeups[n..] else []
  }

  /** What a poll meets that finds the next wakeup so. */
  function Woken(wakeups: seq<Wakeup>): Result<Polled, Error>
  {
    if wakeups != [] && wakeups[0] == WakeFailed then Err(WakeupError) else Ok(Idle)
  }

  /** Outcome `n` reports its own wakeup, failed or not, exactly if it pushed nothing. */
  ghost predicate WakesInTurn(wakeups: seq<Wakeup>, outs: seq<Outcome>)
  {
    forall n :: 0 <= n < |outs| ==>
      outs[n].result == if outs[n].frames == [] then Woken(After(wakeups, Empties(outs[..n])))
                        else Ok(Frames(|outs[n].frames|))
  }

  lemma PollWakes(x: Xsk, room: nat)
    requires x.frameSize > 0
    ensures var (y, r) := Poll(x, room);
            var frames := y.yielded[|x.yielded|..];
            && r == (if frames == [] then Woken(x.wakeups) else Ok(Frames(|frames|)))
            && y.wakeups == if frames == [] then After(x.wakeups, 1) else x.wakeups
  {
    hide Drain;
    hide Refill;
    RefillKeepsWakeups(x);
    DrainKeepsWakeups(Refill(x), room);
    RefillYieldsNothing(x);
  }

  lemma {:induction false} PerformedKeepsWakeups(x: Xsk, turn: seq<Move>, n: nat)
    requires x.frameSize > 0 && n <= |turn|
    ensures Performed(x, turn, n).wakeups == x.wakeups
  {
    hide Without;
    if n > 0 {
      PerformedKeepsWakeups(x, turn, n - 1);
    }
  }

  lemma OthersKeepWakeups(x: Xsk)
    requires x.frameSize > 0
    ensures Others(x).wakeups == x.wakeups
  {
    if x.moves != [] {
      PerformedKeepsWakeups(x.(moves := x.moves[1..]), x.moves[0], |x.moves[0]|);
    }
  }

  lemma {:induction false} GiveBackKeepsWakeups(x: Xsk, room: nat)
    ensures GiveBack(x, room).wakeups == x.wakeups
    decreases room
  {
    if x.free != [] && room > 0 {
      var n := |x.free| - 1;
      GiveBackKeepsWakeups(x.(free := x.free[..n], fill := x.fill + [Address(x.free[n], x.frameSize)]), room - 1);
    }
  }

  lemma RefillKeepsWakeups(x: Xsk)
    requires x.frameSize > 0
    ensures Refill(x).wakeups == x.wakeups
  {
    hide Others;
    hide GiveBack;
    OthersKeepWakeups(x);
    var freed := CollectFreed(Others(x));
    GiveBackKeepsWakeups(freed, if |freed.fill| < freed.frames then freed.frames - |freed.fill| else 0);
  }

  lemma {:induction false} CollectedKeepsWakeups(x: Xsk, n: nat)
    requires x.frameSize > 0 && n <= |x.rx|
    ensures Collected(x, n).wakeups == x.wakeups
  {
    hide Locate;
    if n > 0 {
      CollectedKeepsWakeups(x, n - 1);
    }
  }

  lemma {:induction false} DrainKeepsWakeups(x: Xsk, room: nat)
    requires x.frameSize > 0
    ensures Drain(x, room).wakeups == x.wakeups
    decreases |x.moves|, |x.rx|
  {
    hide Others;
    hide Collected;
    var ready := Others(x);
    OthersKeepWakeups(x);
    OthersYieldNothing(x);
    var taken := Min(|ready.rx|, room);
    var y := Collected(ready, taken);
    CollectedKeepsWakeups(ready, taken);
    if taken > 0 && y.yielded == x.yielded {
      DrainKeepsWakeups(y, room);
    }
  }

  /** Over every run: a poll that pushes frames says how many and wakes nobody; the others
      use up the wakeups one by one, and each reports its own, failed or not. */
  lemma {:induction false} EveryWakeupIsReported(x0: Xsk, sizes: seq<nat>)
    requires x0.frameSize > 0
    ensures var (x, outs) := AfterPolls(x0, sizes);
            WakesInTurn(x0.wakeups, outs) && x.wakeups == After(x0.wakeups, Empties(outs))
    decreases |sizes|
  {
    hide Poll;
    hide WakesInTurn;
    hide Empties;
    hide After;
    if sizes == [] {
      NoneWoken(x0.wakeups);
    } else {
      var init := sizes[..|sizes| - 1];
      EveryWakeupIsReported(x0, init);
      var (before, outs) := AfterPolls(x0, init);
      PollWakes(before, sizes[|sizes| - 1]);
      WakesSnoc(x0.wakeups, outs, AfterPolls(x0, sizes).1[|outs|]);
    }
  }

  lemma NoneWoken(wakeups: seq<Wakeup>)
    ensures WakesInTurn(wakeups, []) && Empties([]) == 0 && After(wakeups, 0) == wakeups
  {
  }

  lemma WakesSnoc(wakeups: seq<Wakeup>, outs: seq<Outcome>, o: Outcome)
    requires WakesInTurn(wakeups, outs)
    requires o.result == if o.frames == [] then Woken(After(wakeups, Empties(outs))) else Ok(Frames(|o.frames|))
    ensures WakesInTurn(wakeups, outs + [o])
    ensures Empties(outs + [o]) == Empties(outs) + if o.frames == [] then 1 else 0
    ensures After(After(wakeups, Empties(outs)), 1) == After(wakeups, Empties(outs) + 1)
  {
    hide Woken;
    var all := outs + [o];
    assert all[..|outs|] == outs;
    assert forall n :: 0 <= n < |outs| ==> all[n] == outs[n] && all[..n] == outs[..n];
  }

  /** A sound state has every slot once in one place and in no other. */
  lemma ExactlyOnePlace(x: Xsk, slot: nat)
    requires Sound(x) && slot < x.frames
    ensures exists i :: 0 <= i < |Places(x)| && Places(x)[i][slot] == 1
                        && forall j :: 0 <= j < |Places(x)| && j != i ==> slot !in Places(x)[j]
  {
    hide All;
    hide Filled;
    hide Owned;
    hide FramesOf;
    hide Sum;
    AllOnce(x.frames, slot);
    var i := PlaceOf(Places(x), slot);
    OnlyOne(Places(x), x.frames, i, slot);
  }
}
