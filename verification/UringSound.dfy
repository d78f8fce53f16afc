/** What every step of the io_uring engine keeps: each slot in exactly one place, the armed
    count exact, each completion accounted for. */
module UringSound {
  import opened Octets
  import opened Slots
  import opened SlotPool
  import opened ProvideRuns
  import opened Uring

  const GROUP := 0
  const UNREAD := 1
  const SUBMITTED := 2
  const QUEUE := 3
  const BACK := 4
  const HELD := 5
  const MINTED := 6
  const FREED := 7
  const LOST := 8

  /** Slots in queued provides. */
  ghost function InProvides(sq: seq<Entry>): multiset<nat>
  {
    if sq == [] then multiset{} else InProvides(sq[..|sq| - 1]) + SlotsIn(sq[|sq| - 1])
  }

  ghost function SlotsIn(entry: Entry): multiset<nat>
  {
    if entry.Provide? then multiset(ProvideRuns.Run(entry.first, entry.count)) else multiset{}
  }

  /** Receive requests still queued. */
  ghost function Requests(sq: seq<Entry>): nat
  {
    if sq == [] then 0 else Requests(sq[..|sq| - 1]) + if sq[|sq| - 1].Receive? then 1 else 0
  }

  lemma EntriesSnoc(sq: seq<Entry>, entry: Entry)
    ensures InProvides(sq + [entry]) == InProvides(sq) + SlotsIn(entry)
    ensures Requests(sq + [entry]) == Requests(sq) + if entry.Receive? then 1 else 0
  {
    assert (sq + [entry])[..|sq|] == sq;
  }

  lemma {:induction false} EntriesHead(sq: seq<Entry>)
    requires sq != []
    ensures InProvides(sq) == SlotsIn(sq[0]) + InProvides(sq[1..])
    ensures Requests(sq) == (if sq[0].Receive? then 1 else 0) + Requests(sq[1..])
    decreases |sq|
  {
    hide SlotsIn;
    if |sq| > 1 {
      var init := sq[..|sq| - 1];
      EntriesHead(init);
      assert sq[1..][..|sq| - 2] == init[1..];
    }
  }

  /** Every place a slot can be. */
  ghost function Places(u: Uring): seq<multiset<nat>>
  {
    [multiset(u.group), multiset(u.unread), InProvides(u.sq), InQueue(u.cq, u.slotSize, u.IsMultishot()),
     multiset(u.back), multiset(u.held), multiset(u.minted), multiset(u.freed), multiset(u.lost)]
  }

  predicate Sized(u: Uring)
  {
    0 < u.slots <= 0x8000 && 0 < u.slotSize < 0x8000_0000 && |u.sq| <= u.capacity && u.capacity > 0
  }

  /** Every slot is in exactly one place. */
  ghost predicate Placed(u: Uring)
  {
    Sized(u) && Sum(Places(u)) == All(u.slots)
  }

  /** The armed count is the requests queued, the requests the kernel has, and those whose
      end is not yet read. */
  ghost predicate Counted(u: Uring)
  {
    u.armed == Requests(u.sq) + u.inflight + Ended(u.cq, u.slotSize, u.IsMultishot()) <= u.depth
  }

  /** Each completion read gave its frame or was counted, nothing else was. */
  ghost predicate Logged(u: Uring)
  {
    && u.posted == u.read + u.cq
    && (u.yielded, u.truncated, u.noBuffer) == Given(u.read, u.slotSize, u.IsMultishot())
  }

  ghost predicate Sound(u: Uring)
  {
    Placed(u) && Counted(u) && Logged(u)
  }

  lemma SoundIsSized(u: Uring)
    requires Sound(u)
    ensures Sized(u)
  {
  }

  lemma InitialIsSound(slots: nat, slotSize: nat, path: Path, depth: nat, enters: seq<Enter>, moves: seq<seq<Move>>)
    requires 0 < slots <= 0x8000 && 0 < slotSize < 0x8000_0000
    ensures Sound(Initial(slots, slotSize, path, depth, enters, moves))
  {
    hide Sum;
    hide All;
    hide PowerFrom;
    var u := Initial(slots, slotSize, path, depth, enters, moves);
    EachOnce(slots);
    assert u.back == seq(slots, i => i);
    NothingBut(Places(u), BACK);
  }

  /** Only scripts and logs that no law mentions changed. */
  lemma StaysSound(u: Uring, v: Uring)
    requires Sound(u) && v == u.(moves := v.moves, enters := v.enters, starved := v.starved, offered := v.offered)
    ensures Sound(v)
  {
    hide All;
    hide Sum;
    hide InQueue;
    hide Ended;
    hide InProvides;
    hide Requests;
    hide Given;
    assert Places(v) == Places(u);
  }

  // ------------------------------------------------- kernel and other threads

  lemma BareSound(u: Uring, cqe: Cqe, over: bool)
    requires Sound(u) && Owner(cqe, u.slotSize, u.IsMultishot()) == multiset{}
    requires cqe.tag == Recv ==> (EndsOne(cqe, u.slotSize, u.IsMultishot()) <==> over)
    ensures Sound(Post(u, cqe, over))
  {
    hide All;
    hide Sum;
    hide InQueue;
    hide Ended;
    hide InProvides;
    hide Requests;
    hide Given;
    hide Owner;
    hide Classify;
    var v := Post(u, cqe, over);
    QueueSnoc(u.cq, cqe, u.slotSize, u.IsMultishot());
    assert Places(v)[QUEUE] == Places(u)[QUEUE];
    assert Places(v) == Places(u);
  }

  /** A completion that carries a slot out of another place. */
  lemma PostPlaces(u: Uring, v: Uring, from: nat, slot: nat, rest: multiset<nat>, cqe: Cqe)
    requires Placed(u) && from < |Places(u)| && from != QUEUE && Places(u)[from] == rest + multiset{slot}
    requires Owner(cqe, u.slotSize, u.IsMultishot()) == multiset{slot}
    requires v.slotSize == u.slotSize && v.path == u.path && v.cq == u.cq + [cqe] && v.sq == u.sq
    requires v.slots == u.slots && v.capacity == u.capacity
    requires Places(v) == Places(u)[from := rest][QUEUE := Places(v)[QUEUE]]
    ensures Placed(v)
  {
    hide All;
    hide Sum;
    hide InQueue;
    hide Ended;
    hide InProvides;
    hide Owner;
    QueueSnoc(u.cq, cqe, u.slotSize, u.IsMultishot());
    MoveKeeps(Places(u), from, QUEUE, rest, multiset{slot});
  }

  lemma PostCounts(u: Uring, cqe: Cqe, over: bool)
    requires Counted(u) && Logged(u) && (cqe.tag == Recv ==> (EndsOne(cqe, u.slotSize, u.IsMultishot()) <==> over))
    ensures Counted(Post(u, cqe, over)) && Logged(Post(u, cqe, over))
  {
    hide InQueue;
    hide Ended;
    hide Requests;
    hide Given;
    hide Classify;
    QueueSnoc(u.cq, cqe, u.slotSize, u.IsMultishot());
  }

  /** A completion with a slot that `w` no longer has. */
  lemma PostSound(u: Uring, w: Uring, from: nat, slot: nat, rest: multiset<nat>, cqe: Cqe, over: bool)
    requires Sound(u) && from < |Places(u)| && from != QUEUE && Places(u)[from] == rest + multiset{slot}
    requires cqe.tag == Recv && Owner(cqe, u.slotSize, u.IsMultishot()) == multiset{slot} && u.inflight > 0
    requires w == u.(group := w.group, unread := w.unread) && Places(w) == Places(u)[from := rest]
    requires EndsOne(cqe, u.slotSize, u.IsMultishot()) <==> over
    ensures Sound(Post(w, cqe, over))
  {
    hide All;
    hide Sum;
    hide InQueue;
    hide Ended;
    hide InProvides;
    hide Requests;
    hide Given;
    hide Owner;
    hide EndsOne;
    PostCounts(w, cqe, over);
    var v := Post(w, cqe, over);
    assert Places(v) == Places(u)[from := rest][QUEUE := Places(v)[QUEUE]];
    PostPlaces(u, v, from, slot, rest, cqe);
  }

  lemma FromGroupSound(u: Uring, which: nat, len: nat, more: bool)
    requires Sound(u) && u.inflight > 0 && which < |u.group|
    ensures Sound(Post(u.(group := Without(u.group, which)), Cqe(Recv, len, Flags(u.group[which], more)),
                       Over(u.path, more)))
  {
    hide All;
    hide Sum;
    hide InQueue;
    hide Ended;
    hide InProvides;
    hide Requests;
    hide Given;
    hide Sound;
    hide Flags;
    hide Without;
    hide Owner;
    hide Post;
    var (slot, rest) := (u.group[which], Without(u.group, which));
    WithoutOne(u.group, which);
    HandsBack(slot, len, more, u.slotSize, u.IsMultishot());
    hide EndsOne;
    var w := u.(group := rest);
    assert Places(w) == Places(u)[GROUP := multiset(rest)];
    PostSound(u, w, GROUP, slot, multiset(rest), Cqe(Recv, len, Flags(slot, more)), Over(u.path, more));
  }

  lemma FromRingSound(u: Uring, len: nat, more: bool)
    requires Sound(u) && u.inflight > 0 && u.unread != []
    ensures Sound(Post(u.(unread := u.unread[1..]), Cqe(Recv, len, Flags(u.unread[0], more)), Over(u.path, more)))
  {
    hide All;
    hide Sum;
    hide InQueue;
    hide Ended;
    hide InProvides;
    hide Requests;
    hide Given;
    hide Sound;
    hide Flags;
    hide Owner;
    hide Post;
    var (slot, rest) := (u.unread[0], u.unread[1..]);
    assert u.unread == [slot] + rest;
    HandsBack(slot, len, more, u.slotSize, u.IsMultishot());
    hide EndsOne;
    var w := u.(unread := rest);
    assert Places(w) == Places(u)[UNREAD := multiset(rest)];
    PostSound(u, w, UNREAD, slot, multiset(rest), Cqe(Recv, len, Flags(slot, more)), Over(u.path, more));
  }

  lemma DeliveredSound(u: Uring, which: nat, len: nat, more: bool)
    requires Sound(u)
    ensures Sound(Delivered(u, which, len, more))
  {
    hide All;
    hide Sum;
    hide InQueue;
    hide Ended;
    hide InProvides;
    hide Requests;
    hide Given;
    hide Sound;
    hide Flags;
    hide Without;
    hide Post;
    if u.inflight > 0 && u.path == Legacy && which < |u.group| {
      FromGroupSound(u, which, len, more);
    } else if u.inflight > 0 && u.path != Legacy && u.unread != [] {
      FromRingSound(u, len, more);
    }
  }

  lemma FlagBits(slot: nat, more: bool)
    ensures BufferSelect(Flags(slot, more)) == Some(slot) && More(Flags(slot, more)) == more
  {
    var (flags, low) := (Flags(slot, more), if more then 3 else 1);
    SlotOfAddress(slot, low, 0x1_0000);
    Odd(0x8000 * slot + low / 2);
    assert flags / 2 == 2 * (0x4000 * slot) + low / 2;
    if more {
      Odd(0x4000 * slot);
    }
  }

  lemma Odd(half: nat)
    ensures (2 * half + 1) % 2 == 1
  {
  }

  /** What the driver takes a datagram's completion for: the buffer, the length if it fits,
      and whether the kernel is done with the request, as the kernel has it. */
  lemma DatagramIsClassified(slot: nat, len: nat, more: bool, slotSize: nat, path: Path)
    ensures Classify(Cqe(Recv, len, Flags(slot, more)), slotSize, path == Multishot) ==
            if len > slotSize then Truncated(slot, Over(path, more)) else Data(slot, len, Over(path, more))
  {
    hide Flags;
    hide BufferSelect;
    hide More;
    FlagBits(slot, more);
  }

  /** And any other answer of the kernel: an empty datagram, a lack of buffers, or an error. */
  lemma AnswerIsClassified(move: Move, slotSize: nat, path: Path)
    requires move.DeliverEmpty? || move.Starve? || move.Fail?
    ensures Bare(move).tag == Recv
    ensures Classify(Bare(move), slotSize, path == Multishot) ==
            match move
            case DeliverEmpty(more) => Empty(Over(path, more))
            case Fail(errno) => if errno + 1 == 105 then NoBuffers else Failed(errno + 1)
            case _ => NoBuffers
  {
  }

  /** A failed provide and a failed request are errors, with the kernel's number; nothing else
      the kernel completes is. */
  lemma FailuresAreErrors(move: Move, slot: nat, len: nat, more: bool, slotSize: nat, path: Path)
    ensures Failure(Bare(move), slotSize, path == Multishot) ==
            match move
            case ReportProvide(res) => if res < 0 then Some(ProvideFailed(-res)) else None
            case Fail(errno) => if errno + 1 == 105 then None else Some(RecvFailed(errno + 1))
            case _ => None
    ensures Failure(Cqe(Recv, len, Flags(slot, more)), slotSize, path == Multishot) == None
  {
    hide Flags;
    DatagramIsClassified(slot, len, more, slotSize, path);
    if move.DeliverEmpty? || move.Starve? || move.Fail? {
      AnswerIsClassified(move, slotSize, path);
    }
  }

  lemma HandsBack(slot: nat, len: nat, more: bool, slotSize: nat, multishot: bool)
    ensures Owner(Cqe(Recv, len, Flags(slot, more)), slotSize, multishot) == multiset{slot}
    ensures EndsOne(Cqe(Recv, len, Flags(slot, more)), slotSize, multishot) <==>
            Over(if multishot then Multishot else Legacy, more)
  {
    hide Flags;
    hide Classify;
    DatagramIsClassified(slot, len, more, slotSize, if multishot then Multishot else Legacy);
  }

  lemma LostSound(u: Uring, which: nat)
    requires Sound(u)
    ensures Sound(Lost(u, which))
  {
    hide All;
    hide Sum;
    hide InQueue;
    hide Ended;
    hide InProvides;
    hide Requests;
    hide Given;
    hide Without;
    if which < |u.group| {
      var v := Lost(u, which);
      WithoutOne(u.group, which);
      MoveKeeps(Places(u), GROUP, LOST, multiset(Without(u.group, which)), multiset{u.group[which]});
      assert Places(v) == Places(u)[GROUP := Places(v)[GROUP]][LOST := Places(v)[LOST]];
    }
  }

  lemma DroppedSound(u: Uring, which: nat)
    requires Sound(u)
    ensures Sound(Dropped(u, which))
  {
    hide All;
    hide Sum;
    hide InQueue;
    hide Ended;
    hide InProvides;
    hide Requests;
    hide Given;
    hide Without;
    if which < |u.held| {
      var v := Dropped(u, which);
      WithoutOne(u.held, which);
      MoveKeeps(Places(u), HELD, FREED, multiset(Without(u.held, which)), multiset{u.held[which]});
      assert Places(v) == Places(u)[HELD := Places(v)[HELD]][FREED := Places(v)[FREED]];
    }
  }

  lemma Bufferless(move: Move, slotSize: nat, path: Path)
    ensures Owner(Bare(move), slotSize, path == Multishot) == multiset{}
    ensures Bare(move).tag == Recv ==> (EndsOne(Bare(move), slotSize, path == Multishot) <==> BareEnds(move, path))
  {
  }

  lemma PerformSound(u: Uring, move: Move)
    requires Sound(u)
    ensures Sound(Perform(u, move))
  {
    hide All;
    hide Sum;
    hide InQueue;
    hide Ended;
    hide InProvides;
    hide Requests;
    hide Given;
    hide Sound;
    hide Bare;
    hide Owner;
    hide Without;
    hide EndsOne;
    Bufferless(move, u.slotSize, u.path);
    match move {
      case Deliver(which, len, more) => DeliveredSound(u, which, len, more);
      case Lose(which) => LostSound(u, which);
      case DropFrame(which) => DroppedSound(u, which);
      case _ => BareSound(u, Bare(move), BareEnds(move, u.path));
    }
  }

  lemma {:induction false} PerformedSound(u: Uring, turn: seq<Move>, n: nat)
    requires Sound(u) && n <= |turn|
    ensures Sound(Performed(u, turn, n))
  {
    hide All;
    hide Sum;
    hide InQueue;
    hide Ended;
    hide InProvides;
    hide Requests;
    hide Given;
    hide Sound;
    hide Perform;
    if n > 0 {
      PerformedSound(u, turn, n - 1);
      PerformSound(Performed(u, turn, n - 1), turn[n - 1]);
    }
  }

  lemma OthersSound(u: Uring)
    requires Sound(u)
    ensures Sound(Others(u))
  {
    hide All;
    hide Sum;
    hide InQueue;
    hide Ended;
    hide InProvides;
    hide Requests;
    hide Given;
    hide Sound;
    if u.moves != [] {
      var v := u.(moves := u.moves[1..]);
      StaysSound(u, v);
      PerformedSound(v, u.moves[0], |u.moves[0]|);
    }
  }

  // -------------------------------------------------------------- submissions

  lemma TakeEntrySound(u: Uring)
    requires Sound(u) && u.sq != []
    ensures Sound(TakeEntry(u))
  {
    hide All;
    hide Sum;
    hide InQueue;
    hide Ended;
    hide InProvides;
    hide Requests;
    hide Given;
    hide ProvideRuns.Run;
    var v := TakeEntry(u);
    EntriesHead(u.sq);
    var rest := InProvides(u.sq[1..]);
    if u.sq[0].Provide? {
      MoveKeeps(Places(u), SUBMITTED, GROUP, rest, SlotsIn(u.sq[0]));
      assert Places(v) == Places(u)[SUBMITTED := Places(v)[SUBMITTED]][GROUP := Places(v)[GROUP]];
    } else {
      assert Places(v)[SUBMITTED] == Places(u)[SUBMITTED];
      assert Places(v) == Places(u);
    }
  }

  lemma {:induction false} SubmitSound(u: Uring, n: nat)
    requires Sound(u) && n <= |u.sq|
    ensures Sound(Submit(u, n))
  {
    hide All;
    hide Sum;
    hide InQueue;
    hide Ended;
    hide InProvides;
    hide Requests;
    hide Given;
    hide Sound;
    hide TakeEntry;
    if n > 0 {
      SubmitSound(u, n - 1);
      TakeEntrySound(Submit(u, n - 1));
    }
  }

  lemma EnterSound(u: Uring)
    requires Sound(u)
    ensures Sound(EnterKernel(u).0)
  {
    hide All;
    hide Sum;
    hide InQueue;
    hide Ended;
    hide InProvides;
    hide Requests;
    hide Given;
    hide Sound;
    hide Submit;
    var v := u.(enters := if u.enters == [] then [] else u.enters[1..]);
    StaysSound(u, v);
    if NextEnter(u).Took? {
      SubmitSound(v, Min(NextEnter(u).n, |v.sq|));
    }
  }

  /** Queues a request that is then counted. */
  lemma RequestSound(u: Uring)
    requires Sound(u) && |u.sq| < u.capacity && u.armed < u.depth
    ensures Sound(u.(sq := u.sq + [Receive], armed := u.armed + 1))
  {
    hide All;
    hide Sum;
    hide InQueue;
    hide Ended;
    hide InProvides;
    hide Requests;
    hide Given;
    EntriesSnoc(u.sq, Receive);
    var v := u.(sq := u.sq + [Receive], armed := u.armed + 1);
    assert Places(v)[SUBMITTED] == Places(u)[SUBMITTED];
    assert Places(v) == Places(u);
  }

  /** Queues the first run of waiting slots, which leave the list. */
  lemma ProvideSound(u: Uring, n: nat)
    requires Sound(u) && |u.sq| < u.capacity && 0 < n <= |u.back|
    requires u.back[..n] == ProvideRuns.Run(u.back[0], n)
    ensures Sound(u.(sq := u.sq + [Provide(u.back[0], n)], back := u.back[n..]))
  {
    hide All;
    hide Sum;
    hide InQueue;
    hide Ended;
    hide InProvides;
    hide Requests;
    hide Given;
    hide ProvideRuns.Run;
    var entry := Provide(u.back[0], n);
    var v := u.(sq := u.sq + [entry], back := u.back[n..]);
    EntriesSnoc(u.sq, entry);
    assert u.back == u.back[..n] + u.back[n..];
    MoveKeeps(Places(u), BACK, SUBMITTED, multiset(u.back[n..]), multiset(u.back[..n]));
    assert Places(v) == Places(u)[BACK := Places(v)[BACK]][SUBMITTED := Places(v)[SUBMITTED]];
  }

  lemma PushRequestSound(u: Uring)
    requires Sound(u) && u.armed < u.depth
    ensures var (v, err) := Push(u, Receive);
            && Sound(if err.Some? then v else v.(armed := v.armed + 1))
            && v.armed == u.armed && v.depth == u.depth
  {
    hide All;
    hide Sum;
    hide InQueue;
    hide Ended;
    hide InProvides;
    hide Requests;
    hide Given;
    hide Sound;
    hide EnterKernel;
    EnterSound(u);
    EnterKeepsLists(u);
    var w := if |u.sq| < u.capacity then u else EnterKernel(u).0;
    if |w.sq| < w.capacity {
      RequestSound(w);
    }
  }

  lemma PushProvideSound(u: Uring, n: nat)
    requires Sound(u) && 0 < n <= |u.back| && u.back[..n] == ProvideRuns.Run(u.back[0], n)
    ensures var (v, err) := Push(u, Provide(u.back[0], n));
            v.back == u.back && Sound(if err.Some? then v else v.(back := v.back[n..]))
  {
    hide All;
    hide Sum;
    hide InQueue;
    hide Ended;
    hide InProvides;
    hide Requests;
    hide Given;
    hide Sound;
    hide EnterKernel;
    hide ProvideRuns.Run;
    EnterSound(u);
    EnterKeepsLists(u);
    var w := if |u.sq| < u.capacity then u else EnterKernel(u).0;
    if |w.sq| < w.capacity {
      ProvideSound(w, n);
    }
  }

  // ------------------------------------------------------------------- driver

  lemma {:induction false} HandRunsSound(u: Uring)
    requires Sound(u)
    ensures var (v, err) := HandRuns(u); Sound(v) && (err.None? <==> v.back == []) && |v.back| <= |u.back|
    decreases |u.back|
  {
    hide All;
    hide Sum;
    hide InQueue;
    hide Ended;
    hide InProvides;
    hide Requests;
    hide Given;
    hide Sound;
    hide Push;
    if u.back != [] {
      var n := RunLength(u.back, 0, u.back[0]);
      RunIsMaximal(u.back, 0, u.back[0]);
      hide RunLength;
      assert u.back[0..n] == u.back[..n];
      PushProvideSound(u, n);
      var (v, err) := Push(u, Provide(u.back[0], n));
      if err.None? {
        HandRunsSound(v.(back := v.back[n..]));
      }
    }
  }

  lemma SortedSound(u: Uring)
    requires Sound(u)
    ensures Sound(u.(back := Sort(u.back)))
  {
    hide All;
    hide Sum;
    hide InQueue;
    hide Ended;
    hide InProvides;
    hide Requests;
    hide Given;
    hide Sort;
    SortIsOrdered(u.back);
    assert Places(u.(back := Sort(u.back))) == Places(u);
  }

  lemma ToRingSound(u: Uring)
    requires Sound(u)
    ensures Sound(u.(unread := u.unread + u.back, back := []))
  {
    hide All;
    hide Sum;
    hide InQueue;
    hide Ended;
    hide InProvides;
    hide Requests;
    hide Given;
    var v := u.(unread := u.unread + u.back, back := []);
    MoveKeeps(Places(u), BACK, UNREAD, multiset{}, multiset(u.back));
    assert Places(v) == Places(u)[BACK := Places(v)[BACK]][UNREAD := Places(v)[UNREAD]];
  }

  /** No published buffer is overwritten: all slots together fit the ring. */
  lemma RingHasRoom(u: Uring)
    requires Sound(u)
    ensures |u.unread| + |u.back| <= u.slots
  {
    hide All;
    hide InQueue;
    hide InProvides;
    AllOnce(u.slots, 0);
    TwoFit(Places(u), UNREAD, BACK);
  }

  lemma GiveBackSound(u: Uring)
    requires Sound(u)
    ensures var (v, err) := GiveBack(u); Sound(v) && (err.None? <==> v.back == []) && v.depth == u.depth
  {
    hide All;
    hide Sum;
    hide InQueue;
    hide Ended;
    hide InProvides;
    hide Requests;
    hide Given;
    hide Sound;
    hide HandRuns;
    hide Sort;
    if u.back != [] && u.path == Legacy {
      SortedSound(u);
      var (w, err) := HandRuns(u.(back := Sort(u.back)));
      HandRunsSound(u.(back := Sort(u.back)));
      HandRunsYields(u.(back := Sort(u.back)));
      StaysSound(w, GiveBack(u).0);
    } else if u.back != [] {
      ToRingSound(u);
      StaysSound(u.(unread := u.unread + u.back, back := []), GiveBack(u).0);
    }
  }

  lemma {:induction false} ArmSound(u: Uring, n: nat)
    requires Sound(u) && u.armed + n <= u.depth
    ensures var (v, err) := Arm(u, n);
            Sound(v) && (err.None? ==> v.armed == u.armed + n)
    decreases n
  {
    hide All;
    hide Sum;
    hide InQueue;
    hide Ended;
    hide InProvides;
    hide Requests;
    hide Given;
    hide Sound;
    hide Push;
    if n > 0 {
      PushRequestSound(u);
      PushKeepsLists(u, Receive);
      var (v, err) := Push(u, Receive);
      if err.None? {
        ArmSound(v.(armed := v.armed + 1), n - 1);
      }
    }
  }

  lemma ArmedWithin(u: Uring)
    requires Sound(u)
    ensures u.armed <= u.depth
  {
  }

  /** A refill that succeeds leaves no slot waiting and, unless starved, the fleet full. */
  lemma RefillSound(u: Uring, binding: bool)
    requires Sound(u)
    ensures var (v, err) := Refill(u, binding);
            && Sound(v) && v.depth == u.depth
            && (err.None? ==> v.back == [] && (!v.starved ==> v.armed == v.depth))
  {
    hide All;
    hide Sum;
    hide InQueue;
    hide Ended;
    hide InProvides;
    hide Requests;
    hide Given;
    hide Sound;
    hide GiveBack;
    hide Arm;
    hide EnterKernel;
    GiveBackSound(u);
    var (gave, e1) := GiveBack(u);
    if e1.None? {
      ArmedWithin(gave);
      ArmSound(gave, Wanted(gave));
      ArmYields(gave, Wanted(gave));
      var (armed, e2) := Arm(gave, Wanted(gave));
      EnterSound(armed);
      EnterKeepsLists(armed);
    }
  }

  // -------------------------------------------------------------- completions

  /** The head of the queue is read and its slot, if any, goes to place `to`. */
  lemma ReadPlaces(u: Uring, v: Uring, to: nat)
    requires Placed(u) && u.cq != [] && to < |Places(u)| && to != QUEUE
    requires v.slots == u.slots && v.slotSize == u.slotSize && v.path == u.path && v.capacity == u.capacity
    requires v.cq == u.cq[1..] && v.sq == u.sq
    requires Places(v) == Places(u)[QUEUE := Places(v)[QUEUE]]
                                   [to := Places(u)[to] + Owner(u.cq[0], u.slotSize, u.IsMultishot())]
    ensures Placed(v)
  {
    hide All;
    hide Sum;
    hide InQueue;
    hide Ended;
    hide InProvides;
    hide Requests;
    hide Given;
    hide Owner;
    QueueHead(u.cq, u.slotSize, u.IsMultishot());
    var rest := InQueue(u.cq[1..], u.slotSize, u.IsMultishot());
    MoveKeeps(Places(u), QUEUE, to, rest, Owner(u.cq[0], u.slotSize, u.IsMultishot()));
  }

  /** Reading a completion changes no list but those its slot can go to. */
  lemma TakeOneLists(u: Uring)
    requires u.cq != []
    ensures var (v, own) := (TakeOne(u), Owner(u.cq[0], u.slotSize, u.IsMultishot()));
            && v == u.(cq := u.cq[1..], back := v.back, minted := v.minted, armed := v.armed, starved := v.starved,
                       truncated := v.truncated, noBuffer := v.noBuffer, read := v.read, yielded := v.yielded)
            && (|| (multiset(v.back) == multiset(u.back) + own && v.minted == u.minted)
                || (multiset(v.minted) == multiset(u.minted) + own && v.back == u.back))
  {
    hide Classify;
    var (v, own) := (TakeOne(u), Owner(u.cq[0], u.slotSize, u.IsMultishot()));
    var c := Classify(u.cq[0], u.slotSize, u.IsMultishot());
    if u.cq[0].tag == Recv && c.Data? {
      assert v.minted == u.minted + [c.slot] && own == multiset{c.slot};
    } else if u.cq[0].tag == Recv && c.Truncated? {
      assert v.back == u.back + [c.slot] && own == multiset{c.slot};
    } else {
      assert own == multiset{} && v.back == u.back && v.minted == u.minted;
    }
  }

  lemma TakeOnePlaces(u: Uring)
    requires Placed(u) && u.cq != []
    ensures Placed(TakeOne(u))
  {
    hide All;
    hide Sum;
    hide InQueue;
    hide InProvides;
    hide TakeOne;
    hide Owner;
    TakeOneLists(u);
    var (v, own) := (TakeOne(u), Owner(u.cq[0], u.slotSize, u.IsMultishot()));
    if v.minted == u.minted && multiset(v.back) == multiset(u.back) + own {
      assert Places(v) == Places(u)[QUEUE := Places(v)[QUEUE]][BACK := Places(u)[BACK] + own];
      ReadPlaces(u, v, BACK);
    } else {
      assert Places(v) == Places(u)[QUEUE := Places(v)[QUEUE]][MINTED := Places(u)[MINTED] + own];
      ReadPlaces(u, v, MINTED);
    }
  }

  lemma TakeOneCounts(u: Uring)
    requires Counted(u) && u.cq != []
    ensures Counted(TakeOne(u))
  {
    hide InQueue;
    hide Ended;
    hide Requests;
    hide Classify;
    QueueHead(u.cq, u.slotSize, u.IsMultishot());
  }

  lemma TakeOneLogs(u: Uring)
    requires Logged(u) && u.cq != []
    ensures Logged(TakeOne(u))
  {
    hide Given;
    hide Classify;
    var v := TakeOne(u);
    GivenSnoc(u.read, u.cq[0], u.slotSize, u.IsMultishot());
    assert u.cq == [u.cq[0]] + u.cq[1..];
    Assoc(u.read, [u.cq[0]], u.cq[1..]);
    assert v.yielded == u.yielded + FrameOf(u.cq[0], u.slotSize, u.IsMultishot());
  }

  lemma TakeOneSound(u: Uring)
    requires Sound(u) && u.cq != []
    ensures Sound(TakeOne(u))
  {
    hide All;
    hide Sum;
    hide InQueue;
    hide Ended;
    hide InProvides;
    hide Requests;
    hide Given;
    hide TakeOne;
    TakeOnePlaces(u);
    TakeOneCounts(u);
    TakeOneLogs(u);
  }

  /** A datagram becomes a frame: its slot is in no frame, no ring and no list. */
  lemma TakeOneOwns(u: Uring)
    requires Sound(u) && u.cq != [] && u.cq[0].tag == Recv
    requires Classify(u.cq[0], u.slotSize, u.IsMultishot()).Data?
    ensures var c := Classify(u.cq[0], u.slotSize, u.IsMultishot());
            && c.slot < u.slots && c.len <= u.slotSize
            && c.slot !in u.held && c.slot !in u.minted && c.slot !in u.group && c.slot !in u.unread
            && c.slot !in InProvides(u.sq)
  {
    hide All;
    hide Sum;
    hide InQueue;
    hide Ended;
    hide InProvides;
    hide Requests;
    hide Given;
    hide Classify;
    hide Owner;
    var c := Classify(u.cq[0], u.slotSize, u.IsMultishot());
    Handed(u.cq[0], u.slotSize, u.IsMultishot());
    QueueHead(u.cq, u.slotSize, u.IsMultishot());
    OnlyHere(Places(u), u.slots, QUEUE, c.slot, InQueue(u.cq[1..], u.slotSize, u.IsMultishot()));
    assert c.slot !in Places(u)[HELD] && c.slot !in Places(u)[MINTED];
    assert c.slot !in Places(u)[GROUP] && c.slot !in Places(u)[UNREAD] && c.slot !in Places(u)[SUBMITTED];
  }

  lemma {:induction false} TakenSound(u: Uring, n: nat)
    requires Sound(u) && n <= |u.cq|
    ensures Sound(Taken(u, n))
  {
    hide All;
    hide Sum;
    hide InQueue;
    hide Ended;
    hide InProvides;
    hide Requests;
    hide Given;
    hide Sound;
    hide TakeOne;
    if n > 0 {
      TakenSound(u, n - 1);
      TakeOneSound(Taken(u, n - 1));
    }
  }

  lemma DrainSound(u: Uring)
    requires Sound(u)
    ensures Sound(Drain(u))
  {
    hide All;
    hide Sum;
    hide InQueue;
    hide Ended;
    hide InProvides;
    hide Requests;
    hide Given;
    var (places, v) := (Places(u), Drain(u));
    MoveKeeps(places, BACK, FREED, multiset{}, places[BACK]);
    var moved := places[BACK := multiset{}][FREED := places[FREED] + places[BACK]];
    MoveKeeps(moved, FREED, BACK, places[BACK], places[FREED]);
    assert multiset{} + places[FREED] == places[FREED];
    assert Places(v) == moved[FREED := places[BACK]][BACK := places[FREED]];
  }

  lemma HandOverSound(u: Uring)
    requires Sound(u)
    ensures Sound(HandOver(u))
  {
    hide All;
    hide Sum;
    hide InQueue;
    hide Ended;
    hide InProvides;
    hide Requests;
    hide Given;
    var v := HandOver(u);
    MoveKeeps(Places(u), MINTED, HELD, multiset{}, multiset(u.minted));
    assert Places(v) == Places(u)[MINTED := Places(v)[MINTED]][HELD := Places(v)[HELD]];
  }

  /** One poll keeps every slot in one place and the armed count exact, whether or not the
      refill succeeds. */
  lemma PollSound(u: Uring, room: nat)
    requires Sound(u)
    ensures var (v, r) := Poll(u, room);
            && Sound(v) && v.minted == []
            && (r.Ok? ==> v.back == [] && (!v.starved ==> v.armed == v.depth))
  {
    hide All;
    hide Sum;
    hide InQueue;
    hide Ended;
    hide InProvides;
    hide Requests;
    hide Given;
    hide Sound;
    hide Taken;
    hide Others;
    hide Refill;
    DrainSound(u);
    var d := Drain(u);
    TakenSound(d, Readable(d.cq, room, d.slotSize, d.IsMultishot()));
    hide Readable;
    var h := Harvest(d, room).0;
    OthersSound(h);
    RefillSound(Others(h), false);
    HandOverSound(Refill(Others(h), false).0);
  }
}
