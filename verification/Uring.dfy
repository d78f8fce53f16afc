/** The io_uring receive engine as one machine: buffer slots, the submission queue, armed
    receive requests and completions, the kernel that takes entries and completes requests,
    and other threads that drop frames. */
module Uring {
  import opened Octets
  import opened Slots
  import opened SlotPool
  import opened ProvideRuns

  // -------------------------------------------------------------- completions

  const ENOBUFS := 105
  const EIO := 5

  datatype Completion =
    | Data(slot: nat, len: nat, rearm: bool)
    | Truncated(slot: nat, rearm: bool)
    | Empty(rearm: bool)
    | NoBuffers
    | Failed(errno: int)
  {
    /** The request behind it is over. */
    predicate Ends()
    {
      match this
      case Data(_, _, rearm) => rearm
      case Truncated(_, rearm) => rearm
      case Empty(rearm) => rearm
      case NoBuffers => true
      case Failed(_) => true
    }
  }

  datatype Tag = Recv | Provided | Other

  datatype Cqe = Cqe(tag: Tag, res: int, flags: nat)

  predicate More(flags: nat) { flags / 2 % 2 == 1 }

  function BufferSelect(flags: nat): Option<nat>
  {
    if flags % 2 == 1 then Some(flags / 0x1_0000) else None
  }

  function Classify(cqe: Cqe, slotSize: nat, multishot: bool): Completion
  {
    if cqe.res < 0 then
      if cqe.res == -ENOBUFS then NoBuffers else Failed(-cqe.res)
    else
      var rearm := !(multishot && More(cqe.flags));
      match BufferSelect(cqe.flags)
      case None => if cqe.res == 0 then Empty(rearm) else Failed(EIO)
      case Some(slot) => if cqe.res > slotSize then Truncated(slot, rearm) else Data(slot, cqe.res, rearm)
  }

  /** Flags of a completion that hands a buffer back. */
  function Flags(slot: nat, more: bool): nat
  {
    slot * 0x1_0000 + (if more then 2 else 0) + 1
  }

  // -------------------------------------------------------- what a queue holds

  /** The slot a completion hands back. */
  ghost function Owner(cqe: Cqe, slotSize: nat, multishot: bool): multiset<nat>
  {
    if cqe.tag != Recv then multiset{}
    else match Classify(cqe, slotSize, multishot)
      case Data(slot, _, _) => multiset{slot}
      case Truncated(slot, _) => multiset{slot}
      case _ => multiset{}
  }

  predicate EndsOne(cqe: Cqe, slotSize: nat, multishot: bool)
  {
    cqe.tag == Recv && Classify(cqe, slotSize, multishot).Ends()
  }

  ghost function InQueue(cq: seq<Cqe>, slotSize: nat, multishot: bool): multiset<nat>
  {
    if cq == [] then multiset{}
    else InQueue(cq[..|cq| - 1], slotSize, multishot) + Owner(cq[|cq| - 1], slotSize, multishot)
  }

  /** Requests whose end waits in the queue. */
  ghost function Ended(cq: seq<Cqe>, slotSize: nat, multishot: bool): nat
  {
    if cq == [] then 0
    else Ended(cq[..|cq| - 1], slotSize, multishot) + (if EndsOne(cq[|cq| - 1], slotSize, multishot) then 1 else 0)
  }

  lemma QueueSnoc(cq: seq<Cqe>, cqe: Cqe, slotSize: nat, multishot: bool)
    ensures InQueue(cq + [cqe], slotSize, multishot) ==
            InQueue(cq, slotSize, multishot) + Owner(cqe, slotSize, multishot)
    ensures Ended(cq + [cqe], slotSize, multishot) ==
            Ended(cq, slotSize, multishot) + (if EndsOne(cqe, slotSize, multishot) then 1 else 0)
  {
    assert (cq + [cqe])[..|cq|] == cq;
  }

  lemma {:induction false} QueueHead(cq: seq<Cqe>, slotSize: nat, multishot: bool)
    requires cq != []
    ensures InQueue(cq, slotSize, multishot) ==
            Owner(cq[0], slotSize, multishot) + InQueue(cq[1..], slotSize, multishot)
    ensures Ended(cq, slotSize, multishot) ==
            (if EndsOne(cq[0], slotSize, multishot) then 1 else 0) + Ended(cq[1..], slotSize, multishot)
    decreases |cq|
  {
    hide Owner;
    hide EndsOne;
    if |cq| > 1 {
      var init := cq[..|cq| - 1];
      QueueHead(init, slotSize, multishot);
      assert cq[1..][..|cq| - 2] == init[1..];
    }
  }

  /** The frame a completion gives. */
  function FrameOf(cqe: Cqe, slotSize: nat, multishot: bool): seq<IndexFrame>
  {
    if cqe.tag != Recv then []
    else match Classify(cqe, slotSize, multishot)
      case Data(slot, len, _) => [IndexFrame(slot, 0, len)]
      case _ => []
  }

  /** Frames, datagrams cut short and lacks of buffers among completions. */
  ghost function Given(read: seq<Cqe>, slotSize: nat, multishot: bool): (seq<IndexFrame>, nat, nat)
  {
    if read == [] then ([], 0, 0)
    else
      var (frames, cut, starved) := Given(read[..|read| - 1], slotSize, multishot);
      var last := read[|read| - 1];
      var c := Classify(last, slotSize, multishot);
      (frames + FrameOf(last, slotSize, multishot),
       if last.tag == Recv && c.Truncated? then cut + 1 else cut,
       if last.tag == Recv && c.NoBuffers? then starved + 1 else starved)
  }

  lemma GivenSnoc(read: seq<Cqe>, cqe: Cqe, slotSize: nat, multishot: bool)
    ensures var (frames, cut, starved) := Given(read, slotSize, multishot);
            var c := Classify(cqe, slotSize, multishot);
            Given(read + [cqe], slotSize, multishot) ==
            (frames + FrameOf(cqe, slotSize, multishot),
             if cqe.tag == Recv && c.Truncated? then cut + 1 else cut,
             if cqe.tag == Recv && c.NoBuffers? then starved + 1 else starved)
  {
    hide Classify;
    hide FrameOf;
    assert (read + [cqe])[..|read|] == read;
  }

  /** The slots of datagrams cut short. */
  ghost function CutSlots(read: seq<Cqe>, slotSize: nat, multishot: bool): seq<nat>
  {
    if read == [] then []
    else CutSlots(read[..|read| - 1], slotSize, multishot) + Cut(read[|read| - 1], slotSize, multishot)
  }

  ghost function Cut(cqe: Cqe, slotSize: nat, multishot: bool): seq<nat>
  {
    if cqe.tag != Recv then []
    else match Classify(cqe, slotSize, multishot)
      case Truncated(slot, _) => [slot]
      case _ => []
  }

  lemma CutSnoc(read: seq<Cqe>, cqe: Cqe, slotSize: nat, multishot: bool)
    ensures CutSlots(read + [cqe], slotSize, multishot) ==
            CutSlots(read, slotSize, multishot) + Cut(cqe, slotSize, multishot)
  {
    assert (read + [cqe])[..|read|] == read;
  }

  /** What a completion with a buffer hands back and gives. */
  lemma Handed(cqe: Cqe, slotSize: nat, multishot: bool)
    requires cqe.tag == Recv
    ensures var c := Classify(cqe, slotSize, multishot);
            && (c.Data? ==> Owner(cqe, slotSize, multishot) == multiset{c.slot} && c.len <= slotSize
                            && FrameOf(cqe, slotSize, multishot) == [IndexFrame(c.slot, 0, c.len)])
            && (c.Truncated? ==> Owner(cqe, slotSize, multishot) == multiset{c.slot}
                                 && FrameOf(cqe, slotSize, multishot) == [])
  {
  }

  // ------------------------------------------------------------------ machine

  datatype Path = Legacy | BufRing | Multishot

  datatype Polled = Frames(n: nat) | Idle | Exhausted

  datatype Error = ProvideFailed(errno: int) | RecvFailed(errno: int) | QueueFull | EnterFailed

  /** A submission: buffers for the kernel, a receive request, or a cancellation. */
  datatype Entry = Provide(first: nat, count: nat) | Receive | Cancel

  /** How the kernel answers an entry into it: it takes some of the submissions, is busy or
      interrupted and takes none, or fails. */
  datatype Enter = Took(n: nat) | Busy | Interrupted | Broken

  /** What happens beside the driver. The kernel answers a request it has with a datagram in
      a buffer it was given (any one of the group, or the next of the ring), an empty
      datagram, a lack of buffers or an error; reports on a provide, loses a provided buffer
      whose provide failed, or completes something else; another thread drops a frame. */
  datatype Move =
    | Deliver(which: nat, len: nat, more: bool)
    | DeliverEmpty(more: bool)
    | Starve
    | Fail(errno: nat)
    | ReportProvide(res: int)
    | Complete(res: int, flags: nat)
    | Lose(which: nat)
    | DropFrame(which: nat)

  /** Driver, kernel and callers. Slots are in the kernel's group (legacy path), published in
      the buffer ring and not yet taken, in queued provides, in completions, on their way
      back, in frames held or just made, on the list of dropped ones, or lost. `inflight` are
      the requests the kernel has. `moves` and `enters` are what is still to happen beside the
      driver. `offered` is the list the last drain was given; `posted`, `read` and `yielded`
      are all completions, those read, and the frames they gave. */
  datatype Uring = Uring(
    slots: nat, slotSize: nat, path: Path, depth: nat, capacity: nat,
    sq: seq<Entry>, group: seq<nat>, unread: seq<nat>, cq: seq<Cqe>,
    back: seq<nat>, held: seq<nat>, minted: seq<nat>, freed: seq<nat>, lost: seq<nat>,
    inflight: nat, armed: nat, starved: bool, truncated: nat, noBuffer: nat,
    moves: seq<seq<Move>>, enters: seq<Enter>, offered: seq<nat>,
    posted: seq<Cqe>, read: seq<Cqe>, yielded: seq<IndexFrame>)
  {
    predicate IsMultishot() { path == Multishot }
  }

  function PowerFrom(p: nat, n: nat): (q: nat)
    requires p > 0
    ensures q >= n && q >= p
    decreases n - p
  {
    if p >= n then p else PowerFrom(2 * p, n)
  }

  /** Room for a full fleet, a provide and a cancellation, as a power of two. */
  function QueueSize(depth: nat): (size: nat)
    ensures size >= depth + 2
  {
    PowerFrom(1, depth + 2)
  }

  /** One request stands for all on the multishot path. */
  function FleetDepth(path: Path, depth: nat): nat
  {
    if path == Multishot then 1 else depth
  }

  /** Every slot starts on its way to the kernel, nothing armed. */
  function Initial(slots: nat, slotSize: nat, path: Path, depth: nat, enters: seq<Enter>, moves: seq<seq<Move>>): Uring
  {
    Uring(slots, slotSize, path, FleetDepth(path, depth), QueueSize(depth), [], [], [], [],
          Run(0, slots), [], [], [], [], 0, 0, false, 0, 0, moves, enters, [], [], [], [])
  }

  // ------------------------------------------------- kernel and other threads

  /** A completion of a request the kernel has, which then is over or goes on, or of something
      else. */
  function Post(u: Uring, cqe: Cqe, over: bool): Uring
  {
    if cqe.tag == Recv && u.inflight == 0 then u
    else u.(cq := u.cq + [cqe], posted := u.posted + [cqe],
            inflight := if cqe.tag == Recv && over then u.inflight - 1 else u.inflight)
  }

  /** The kernel is done with a request it answers with a datagram, unless the request is a
      multishot one and more is to come. */
  predicate Over(path: Path, more: bool)
  {
    !(path == Multishot && more)
  }

  /** The completion of a move that hands no buffer back. */
  function Bare(move: Move): Cqe
  {
    match move
    case DeliverEmpty(more) => Cqe(Recv, 0, if more then 2 else 0)
    case Fail(errno) => Cqe(Recv, -(errno as int) - 1, 0)
    case ReportProvide(res) => Cqe(Provided, res, 0)
    case Complete(res, flags) => Cqe(Other, res, flags)
    case _ => Cqe(Recv, -ENOBUFS, 0)
  }

  /** Such a move ends the request: a lack of buffers and an error always do. */
  predicate BareEnds(move: Move, path: Path)
  {
    match move
    case DeliverEmpty(more) => Over(path, more)
    case _ => true
  }

  /** A datagram in any buffer of the group, or the oldest one in the ring. */
  function Delivered(u: Uring, which: nat, len: nat, more: bool): Uring
  {
    if u.inflight == 0 then u
    else if u.path == Legacy then
      if which >= |u.group| then u
      else Post(u.(group := Without(u.group, which)), Cqe(Recv, len, Flags(u.group[which], more)), Over(u.path, more))
    else
      if u.unread == [] then u
      else Post(u.(unread := u.unread[1..]), Cqe(Recv, len, Flags(u.unread[0], more)), Over(u.path, more))
  }

  function Lost(u: Uring, which: nat): Uring
  {
    if which >= |u.group| then u else u.(group := Without(u.group, which), lost := u.lost + [u.group[which]])
  }

  function Dropped(u: Uring, which: nat): Uring
  {
    if which >= |u.held| then u else u.(held := Without(u.held, which), freed := u.freed + [u.held[which]])
  }

  function Perform(u: Uring, move: Move): Uring
  {
    match move
    case Deliver(which, len, more) => Delivered(u, which, len, more)
    case Lose(which) => Lost(u, which)
    case DropFrame(which) => Dropped(u, which)
    case _ => Post(u, Bare(move), BareEnds(move, u.path))
  }

  /** The first `n` of these moves. */
  function Performed(u: Uring, turn: seq<Move>, n: nat): Uring
    requires n <= |turn|
  {
    if n == 0 then u else Perform(Performed(u, turn, n - 1), turn[n - 1])
  }

  lemma PerformedNone(u: Uring, turn: seq<Move>)
    ensures Performed(u, turn, 0) == u
  {
  }

  lemma PerformedNext(u: Uring, turn: seq<Move>, n: nat)
    requires n < |turn|
    ensures Performed(u, turn, n + 1) == Perform(Performed(u, turn, n), turn[n])
  {
    hide Perform;
  }

  /** Kernel and other threads run for a while. */
  function Others(u: Uring): Uring
  {
    if u.moves == [] then u else Performed(u.(moves := u.moves[1..]), u.moves[0], |u.moves[0]|)
  }

  // -------------------------------------------------------------- submissions

  /** The kernel takes the oldest submission. */
  function TakeEntry(u: Uring): Uring
    requires u.sq != []
  {
    var v := u.(sq := u.sq[1..]);
    match u.sq[0]
    case Provide(first, count) => v.(group := u.group + Run(first, count))
    case Receive => v.(inflight := u.inflight + 1)
    case Cancel => v
  }

  function Submit(u: Uring, n: nat): (v: Uring)
    requires n <= |u.sq|
    ensures |v.sq| == |u.sq| - n
  {
    if n == 0 then u else TakeEntry(Submit(u, n - 1))
  }

  /** Past the script every entry into the kernel takes all submissions. */
  function NextEnter(u: Uring): Enter
  {
    if u.enters == [] then Took(|u.sq|) else u.enters[0]
  }

  function Min(a: nat, b: nat): nat
  {
    if a < b then a else b
  }

  /** Enters the kernel; false when that fails. Busy and interrupted count as success. */
  function EnterKernel(u: Uring): (Uring, bool)
  {
    var v := u.(enters := if u.enters == [] then [] else u.enters[1..]);
    match NextEnter(u)
    case Took(n) => (Submit(v, Min(n, |v.sq|)), true)
    case Busy => (v, true)
    case Interrupted => (v, true)
    case Broken => (v, false)
  }

  /** Queues a submission, entering the kernel once to make room. */
  function Push(u: Uring, entry: Entry): (Uring, Option<Error>)
  {
    if |u.sq| < u.capacity then (u.(sq := u.sq + [entry]), None)
    else
      var (v, ok) := EnterKernel(u);
      if !ok then (v, Some(EnterFailed))
      else if |v.sq| < v.capacity then (v.(sq := v.sq + [entry]), None)
      else (v, Some(QueueFull))
  }

  // ------------------------------------------------------------------- driver

  lemma {:induction false} SubmitKeepsLists(u: Uring, n: nat)
    requires n <= |u.sq|
    ensures var v := Submit(u, n);
            v == u.(sq := v.sq, group := v.group, inflight := v.inflight) && v.sq == u.sq[n..]
  {
    if n > 0 {
      SubmitKeepsLists(u, n - 1);
    }
  }

  lemma EnterKeepsLists(u: Uring)
    ensures var v := EnterKernel(u).0;
            && v == u.(sq := v.sq, group := v.group, inflight := v.inflight, enters := v.enters)
            && |v.sq| <= |u.sq|
  {
    hide Submit;
    var v := u.(enters := if u.enters == [] then [] else u.enters[1..]);
    if NextEnter(u).Took? {
      SubmitKeepsLists(v, Min(NextEnter(u).n, |v.sq|));
    }
  }

  /** A push touches nothing but the queue and what the kernel took. */
  lemma PushKeepsLists(u: Uring, entry: Entry)
    ensures var v := Push(u, entry).0;
            && v == u.(sq := v.sq, group := v.group, inflight := v.inflight, enters := v.enters)
            && (|u.sq| <= u.capacity ==> |v.sq| <= v.capacity)
  {
    EnterKeepsLists(u);
    hide EnterKernel;
  }

  /** Provides the first run, and so on; slots of refused runs stay. */
  function HandRuns(u: Uring): (Uring, Option<Error>)
    decreases |u.back|
  {
    if u.back == [] then (u, None)
    else
      var n := RunLength(u.back, 0, u.back[0]);
      var (v, err) := Push(u, Provide(u.back[0], n));
      PushKeepsLists(u, Provide(u.back[0], n));
      if err.Some? then (v, err) else HandRuns(v.(back := v.back[n..]))
  }

  /** Hands waiting slots to the kernel; any slot handed reopens a starved fleet. */
  function GiveBack(u: Uring): (Uring, Option<Error>)
  {
    if u.back == [] then (u, None)
    else if u.path == Legacy then
      var (v, err) := HandRuns(u.(back := Sort(u.back)));
      (v.(starved := u.starved && |v.back| >= |u.back|), err)
    else (u.(unread := u.unread + u.back, back := [], starved := false), None)
  }

  function Wanted(u: Uring): nat
  {
    if u.starved || u.depth <= u.armed then 0 else u.depth - u.armed
  }

  /** Arms `n` requests, counting those queued. */
  function Arm(u: Uring, n: nat): (Uring, Option<Error>)
    decreases n
  {
    if n == 0 then (u, None)
    else
      var (v, err) := Push(u, Receive);
      if err.Some? then (v, err) else Arm(v.(armed := v.armed + 1), n - 1)
  }

  /** Hands slots back, arms and submits, in that order, stopping at the first failure. The
      first submission after binding happens even with nothing queued. */
  function Refill(u: Uring, binding: bool): (Uring, Option<Error>)
  {
    var (gave, e1) := GiveBack(u);
    if e1.Some? then (gave, e1)
    else
      var (armed, e2) := Arm(gave, Wanted(gave));
      if e2.Some? then (armed, e2)
      else if armed.sq == [] && !binding then (armed, None)
      else
        var (entered, ok) := EnterKernel(armed);
        (entered, if ok then None else Some(EnterFailed))
  }

  /** Reads one completion: a frame, a recycled slot, a count or an error. */
  function TakeOne(u: Uring): Uring
    requires u.cq != []
  {
    var cqe := u.cq[0];
    var v := u.(cq := u.cq[1..], read := u.read + [cqe]);
    if cqe.tag != Recv then v
    else
      var c := Classify(cqe, u.slotSize, u.IsMultishot());
      var w := v.(armed := if c.Ends() && u.armed > 0 then u.armed - 1 else u.armed,
                  starved := u.starved || c.NoBuffers?);
      match c
      case Data(slot, len, _) =>
        w.(minted := u.minted + [slot], yielded := u.yielded + [IndexFrame(slot, 0, len)])
      case Truncated(slot, _) => w.(back := u.back + [slot], truncated := u.truncated + 1)
      case NoBuffers => w.(noBuffer := u.noBuffer + 1)
      case _ => w
  }

  function Taken(u: Uring, n: nat): (v: Uring)
    requires n <= |u.cq|
    ensures v.cq == u.cq[n..] && v.slotSize == u.slotSize && v.path == u.path
  {
    if n == 0 then u else TakeOne(Taken(u, n - 1))
  }

  /** The error a completion stops a poll with. */
  function Failure(cqe: Cqe, slotSize: nat, multishot: bool): (failed: Option<Error>)
    ensures failed.Some? ==> failed.value.ProvideFailed? || failed.value.RecvFailed?
  {
    match cqe.tag
    case Other => None
    case Provided => if cqe.res < 0 then Some(ProvideFailed(-cqe.res)) else None
    case Recv =>
      var c := Classify(cqe, slotSize, multishot);
      if c.Failed? then Some(RecvFailed(c.errno)) else None
  }

  /** How many completions a poll with room for `room` frames reads: up to an error, a full
      batch or the end of the queue. */
  function Readable(cq: seq<Cqe>, room: nat, slotSize: nat, multishot: bool): (n: nat)
    ensures n <= |cq|
  {
    if room == 0 || cq == [] then 0
    else if Failure(cq[0], slotSize, multishot).Some? then 1
    else 1 + Readable(cq[1..], room - |FrameOf(cq[0], slotSize, multishot)|, slotSize, multishot)
  }

  /** Exchanges the list of dropped slots with the slots still waiting. */
  function Drain(u: Uring): Uring
  {
    u.(back := u.freed, freed := u.back, offered := u.back)
  }

  /** Reads completions into a batch with this much room; the error that stopped it. */
  function Harvest(u: Uring, room: nat): (Uring, Option<Error>)
  {
    var n := Readable(u.cq, room, u.slotSize, u.IsMultishot());
    (Taken(u, n), if n == 0 then None else Failure(u.cq[n - 1], u.slotSize, u.IsMultishot()))
  }

  function HandOver(u: Uring): Uring
  {
    u.(held := u.held + u.minted, minted := [])
  }

  /** One poll into a batch with this much room. A failed request or provide is reported
      before a failed refill, whose slots wait for the next poll. */
  function Poll(u: Uring, room: nat): (Uring, Result<Polled, Error>)
  {
    var (harvested, failed) := Harvest(Drain(u), room);
    var (filled, refill) := Refill(Others(harvested), false);
    var after := HandOver(filled);
    var pushed := |after.yielded| - |u.yielded|;
    (after,
     if failed.Some? then Err(failed.value)
     else if refill.Some? then Err(refill.value)
     else Ok(if pushed > 0 then Frames(pushed) else if after.starved then Exhausted else Idle))
  }

  // --------------------------------------------------------------- whole runs

  lemma {:induction false} TakenYields(u: Uring, n: nat)
    requires n <= |u.cq|
    ensures u.yielded <= Taken(u, n).yielded
  {
    hide Classify;
    if n > 0 {
      TakenYields(u, n - 1);
    }
  }

  lemma {:induction false} PerformedYields(u: Uring, turn: seq<Move>, n: nat)
    requires n <= |turn|
    ensures var v := Performed(u, turn, n);
            && v == u.(cq := v.cq, posted := v.posted, inflight := v.inflight, group := v.group, unread := v.unread,
                       lost := v.lost, held := v.held, freed := v.freed)
            && u.cq <= v.cq
  {
    hide EndsOne;
    hide Flags;
    hide Without;
    if n > 0 {
      PerformedYields(u, turn, n - 1);
    }
  }

  /** Kernel and other threads leave the driver's own lists and counts alone. */
  lemma OthersYield(u: Uring)
    ensures var v := Others(u);
            && v == u.(cq := v.cq, posted := v.posted, inflight := v.inflight, group := v.group, unread := v.unread,
                       lost := v.lost, held := v.held, freed := v.freed, moves := v.moves)
            && u.cq <= v.cq && v.moves == (if u.moves == [] then [] else u.moves[1..]) && (u.moves == [] ==> v == u)
  {
    if u.moves != [] {
      PerformedYields(u.(moves := u.moves[1..]), u.moves[0], |u.moves[0]|);
    }
  }

  lemma {:induction false} HandRunsYields(u: Uring)
    ensures var v := HandRuns(u).0;
            v == u.(sq := v.sq, group := v.group, inflight := v.inflight, enters := v.enters, back := v.back)
    decreases |u.back|
  {
    hide Push;
    if u.back != [] {
      var n := RunLength(u.back, 0, u.back[0]);
      hide RunLength;
      PushKeepsLists(u, Provide(u.back[0], n));
      var (v, err) := Push(u, Provide(u.back[0], n));
      if err.None? {
        HandRunsYields(v.(back := v.back[n..]));
      }
    }
  }

  lemma {:induction false} ArmYields(u: Uring, n: nat)
    ensures var v := Arm(u, n).0;
            v == u.(sq := v.sq, group := v.group, inflight := v.inflight, enters := v.enters, armed := v.armed)
    decreases n
  {
    hide Push;
    if n > 0 {
      PushKeepsLists(u, Receive);
      var (v, err) := Push(u, Receive);
      if err.None? {
        ArmYields(v.(armed := v.armed + 1), n - 1);
      }
    }
  }

  lemma RefillYields(u: Uring, binding: bool)
    ensures var v := Refill(u, binding).0;
            v == u.(sq := v.sq, group := v.group, unread := v.unread, inflight := v.inflight, enters := v.enters,
                    armed := v.armed, back := v.back, starved := v.starved)
  {
    hide HandRuns;
    hide Arm;
    hide Sort;
    hide EnterKernel;
    HandRunsYields(u.(back := Sort(u.back)));
    var (gave, _) := GiveBack(u);
    ArmYields(gave, Wanted(gave));
    EnterKeepsLists(Arm(gave, Wanted(gave)).0);
  }

  /** A poll only adds frames. */
  lemma PollYields(u: Uring, room: nat)
    ensures u.yielded <= Poll(u, room).0.yielded
  {
    hide Taken;
    hide Refill;
    hide Others;
    var d := Drain(u);
    TakenYields(d, Readable(d.cq, room, d.slotSize, d.IsMultishot()));
    hide Readable;
    var h := Harvest(d, room).0;
    OthersYield(h);
    RefillYields(Others(h), false);
  }

  /** One poll: its result and the frames it pushed. */
  datatype Outcome = Outcome(result: Result<Polled, Error>, frames: seq<IndexFrame>)

  /** The kernel and other threads run for a while, then one poll. */
  function Round(u: Uring, size: nat): (Uring, Outcome)
  {
    var ready := Others(u);
    var (v, result) := Poll(ready, size);
    PollYields(ready, size);
    (v, Outcome(result, v.yielded[|ready.yielded|..]))
  }

  /** The state after polls with batches of these sizes, and every outcome. */
  function AfterPolls(u: Uring, sizes: seq<nat>): (r: (Uring, seq<Outcome>))
    ensures |r.1| == |sizes|
  {
    if sizes == [] then (u, [])
    else
      var (before, outs) := AfterPolls(u, sizes[..|sizes| - 1]);
      var (after, o) := Round(before, sizes[|sizes| - 1]);
      (after, outs + [o])
  }

  /** Binds the driver: every slot to the kernel, the fleet armed, one submission. */
  function Bound(slots: nat, slotSize: nat, path: Path, depth: nat, enters: seq<Enter>, moves: seq<seq<Move>>)
    : (Uring, Option<Error>)
  {
    Refill(Initial(slots, slotSize, path, depth, enters, moves), true)
  }

  // ---------------------------------------------------------------- teardown

  function SlotOf(cqe: Cqe, slotSize: nat, multishot: bool): seq<nat>
  {
    if cqe.tag != Recv then []
    else match Classify(cqe, slotSize, multishot)
      case Data(slot, _, _) => [slot]
      case Truncated(slot, _) => [slot]
      case _ => []
  }

  /** A completion read at teardown gives no frame: its buffer goes nowhere, and it leaves
      the log. */
  function Discard(u: Uring): Uring
    requires u.cq != []
  {
    var cqe := u.cq[0];
    var c := Classify(cqe, u.slotSize, u.IsMultishot());
    var v := u.(cq := u.cq[1..], posted := u.read + u.cq[1..],
                lost := u.lost + SlotOf(cqe, u.slotSize, u.IsMultishot()));
    if cqe.tag != Recv then v
    else v.(armed := if c.Ends() && u.armed > 0 then u.armed - 1 else u.armed, starved := u.starved || c.NoBuffers?)
  }

  function Discarded(u: Uring): (v: Uring)
    ensures v.enters == u.enters && v.cq == []
    decreases |u.cq|
  {
    if u.cq == [] then u else Discarded(Discard(u))
  }

  lemma EnterTakesOne(u: Uring)
    ensures EnterKernel(u).0.enters == if u.enters == [] then [] else u.enters[1..]
  {
    var v := u.(enters := if u.enters == [] then [] else u.enters[1..]);
    if NextEnter(u).Took? {
      SubmitKeepsLists(v, Min(NextEnter(u).n, |v.sq|));
    }
    hide Submit;
  }

  lemma PushKeepsEnters(u: Uring, entry: Entry)
    ensures var v := Push(u, entry).0;
            && |v.enters| <= |u.enters| && (v.enters != [] ==> |EnterKernel(v).0.enters| < |u.enters|)
            && EnterKernel(v).0.enters == (if v.enters == [] then [] else v.enters[1..])
  {
    EnterTakesOne(u);
    EnterTakesOne(Push(u, entry).0);
    hide EnterKernel;
  }

  /** Cancels until no request is armed; gives up at the deadline, where the script of
      entries ends, or when the kernel is busy or fails. */
  function Cancelled(u: Uring): (Uring, bool)
    decreases |u.enters|
  {
    if u.armed == 0 then (u, true)
    else if u.enters == [] then (u, false)
    else
      var (pushed, err) := Push(u, Cancel);
      PushKeepsEnters(u, Cancel);
      if err.Some? then (pushed, false)
      else
        var (entered, ok) := EnterKernel(pushed);
        EnterKeepsLists(pushed);
        if !ok || NextEnter(pushed).Busy? then (entered, false)
        else
          OthersYield(entered);
          Cancelled(Discarded(Others(entered)))
  }
}
