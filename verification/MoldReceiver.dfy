/** The MoldUDP64 receiver as a state machine: each function is what one operation
    of the receiver does to its state. `ReceiverCode` refines these with the
    ring, the interval map and the bitmap. */
module MoldReceiver {
  import opened Octets
  import opened MoldWire
  import opened GapTracking
  import opened Reassembly
  import opened Arbiter

  const RING_CAPACITY := 4096
  const U64_MAX := 0xFFFF_FFFF_FFFF_FFFF

  /** A message inside a shared datagram. */
  datatype MessageView = MessageView(datagram: Octets, offset: nat, len: nat)

  datatype MoldEvent = HeartbeatSeen(nextExpected: nat) | SessionEnded(nextExpected: nat)

  datatype ReadyItem =
    | Inline(sequence: nat, streamId: nat, offset: nat, len: nat)
    | View(view: MessageView, sequence: nat, streamId: nat)
    | EventItem(event: MoldEvent)
    | GapItem

  /** The datagram behind outstanding `Inline` items, as received or shared. */
  datatype Backing = Owned(held: Octets) | Shared(held: Octets)

  datatype MoldError = Wire(error: WireError) | SessionMismatch | BufferFull | Transport

  /** What a poll hands to the caller. `Panicked` is a slice outside its datagram, `Dangling`
      an owned frame outside its datagram, which panics when it is read. */
  datatype Outcome =
    | Frame(sequence: nat, streamId: nat, payload: Octets)
    | Event(event: MoldEvent)
    | GapDetected
    | Idle
    | Failed(error: MoldError)
    | Panicked
    | Dangling

  /** Receiver state. Two fields are history the code does not keep: `anchor`, where
      delivery started, and `seen`, the datagrams decoded so far. `inlinePending`
      below zero would be the counter's underflow. */
  datatype Rx = Rx(
    session: Option<Octets>,
    ring: Reorder<MessageView>,
    nextUnseen: nat,
    gaps: iset<nat>,
    arbiter: Option<Arb>,
    ready: seq<ReadyItem>,
    current: Option<ReadyItem>,
    pending: seq<(nat, Octets)>,
    backing: Backing,
    inlinePending: int,
    anchored: bool,
    anchor: nat,
    seen: seq<Octets>,
    start: Option<nat>,
    recoveryStream: nat)

  const EMPTY_BACKING := Owned([])

  // ------------------------------------------------------------ construction

  /** Receiver over `legs` legs; more than one leg runs the arbiter. */
  ghost function Initial(legs: nat, start: Option<nat>, grace: nat, capacity: nat): Rx
    requires legs > 0 && capacity > 0
  {
    var at := if start.Some? then start.value else 1;
    var base := if start.Some? then start.value else 0;
    Rx(None, Reorder(capacity, at, map[]), at, iset{},
       if legs > 1 then Some(Arb(capacity, base, iset{}, map[], grace, [])) else None,
       [], None, [], EMPTY_BACKING, 0, start.Some?, at, [], start, legs)
  }

  // -------------------------------------------------------- handing items out

  ghost function Release(rx: Rx): Rx {
    var left := rx.inlinePending - 1;
    rx.(inlinePending := left, backing := if left == 0 then EMPTY_BACKING else rx.backing)
  }

  ghost function Retire(rx: Rx): Rx {
    var freed := rx.(current := None);
    if rx.current.Some? && rx.current.value.Inline? then Release(freed) else freed
  }

  /** The octets `[offset, offset + len)` of `held` as message `sequence`. */
  function Sliced(held: Octets, offset: nat, len: nat, sequence: nat, streamId: nat): Outcome {
    if offset + len <= |held| then Frame(sequence, streamId, held[offset..offset + len]) else Panicked
  }

  function OutcomeOf(item: ReadyItem, held: Octets): Outcome {
    match item
    case Inline(sequence, streamId, offset, len) => Sliced(held, offset, len, sequence, streamId)
    case View(view, sequence, streamId) => Sliced(view.datagram, view.offset, view.len, sequence, streamId)
    case EventItem(event) => Event(event)
    case GapItem => GapDetected
  }

  /** Borrowed outcome: the item stays current until the next call. */
  ghost function YieldItem(rx: Rx, item: ReadyItem): (Rx, Outcome) {
    (rx.(current := Some(item)), OutcomeOf(item, rx.backing.held))
  }

  /** The same octets as an owned frame, which slices them only when it is read. */
  function SlicedLater(held: Octets, offset: nat, len: nat, sequence: nat, streamId: nat): Outcome {
    if offset + len <= |held| then Frame(sequence, streamId, held[offset..offset + len]) else Dangling
  }

  function OwnedOutcomeOf(item: ReadyItem, held: Octets): Outcome {
    match item
    case Inline(sequence, streamId, offset, len) => SlicedLater(held, offset, len, sequence, streamId)
    case View(view, sequence, streamId) => SlicedLater(view.datagram, view.offset, view.len, sequence, streamId)
    case _ => OutcomeOf(item, held)
  }

  /** Owned outcome: an inline item shares its datagram and is released at once. */
  ghost function YieldOwned(rx: Rx, item: ReadyItem): (Rx, Outcome) {
    if item.Inline? then
      (Release(rx.(backing := Shared(rx.backing.held))), OwnedOutcomeOf(item, rx.backing.held))
    else (rx, OwnedOutcomeOf(item, rx.backing.held))
  }

  // ------------------------------------------------------------------ headers

  function SaturatingAdd(a: nat, b: nat): nat {
    if a + b <= U64_MAX then a + b else U64_MAX
  }

  /** Locks the session and anchors the sequence on the first packet. */
  ghost function AcceptHeader(rx: Rx, h: DownstreamHeader): Result<Rx, MoldError> {
    if rx.session.Some? && rx.session.value != h.session then Err(SessionMismatch)
    else
      var locked := rx.(session := Some(h.session));
      if rx.anchored then Ok(locked)
      else Ok(locked.(
        ring := rx.ring.(expected := h.sequence),
        nextUnseen := h.sequence,
        arbiter := if rx.arbiter.None? then None
                   else Some(rx.arbiter.value.(base := h.sequence, forwarded := iset{}, pending := map[])),
        anchored := true,
        anchor := h.sequence))
  }

  /** Records what a heartbeat or end of session shows as lost. */
  ghost function NoteTailGap(rx: Rx, nextExpected: nat): Rx {
    if nextExpected <= rx.nextUnseen then rx
    else rx.(nextUnseen := nextExpected,
             gaps := rx.gaps + Range(rx.nextUnseen, nextExpected),
             ready := rx.ready + [GapItem])
  }

  /** Records or stages the jump past the highest sequence seen. */
  ghost function OpenGap(rx: Rx, h: DownstreamHeader, now: nat): Rx {
    var seen := rx.(nextUnseen := Max(rx.nextUnseen, SaturatingAdd(h.sequence, h.messageCount)));
    if h.sequence <= rx.nextUnseen then seen
    else if rx.arbiter.Some? then
      seen.(arbiter := Some(Stage(rx.arbiter.value, rx.nextUnseen, h.sequence, now)))
    else
      seen.(gaps := rx.gaps + Range(rx.nextUnseen, h.sequence), ready := rx.ready + [GapItem])
  }

  // ------------------------------------------------------------------- blocks

  /** A datagram being decoded: its backing and how many inline items it gave. */
  datatype Work = Work(rx: Rx, backing: Backing, inline: nat)

  function Views(run: seq<MessageView>, first: nat, streamId: nat): (items: seq<ReadyItem>)
    ensures |items| == |run|
  {
    seq(|run|, i requires 0 <= i < |run| => View(run[i], first + i, streamId))
  }

  ghost function DrainTo(rx: Rx, first: nat, streamId: nat): Rx {
    var (ring, run) := Drained(rx.ring);
    rx.(ring := ring, ready := rx.ready + Views(run, first, streamId))
  }

  /** A message that is next in order goes out inline, with what it frees behind it. */
  ghost function DeliverInline(w: Work, streamId: nat, q: nat, b: Block): Work {
    var item := Inline(q, streamId, b.offset, b.len);
    var rx := w.rx.(ring := w.rx.ring.(expected := w.rx.ring.expected + 1), ready := w.rx.ready + [item]);
    w.(rx := DrainTo(rx, q + 1, streamId), inline := w.inline + 1)
  }

  /** A message ahead of order shares its datagram and waits; `true` if its slot is taken. */
  ghost function HoldBack(w: Work, streamId: nat, q: nat, b: Block): (Work, bool)
    requires w.rx.ring.capacity > 0
  {
    var view := MessageView(w.backing.held, b.offset, b.len);
    var (ring, outcome) := Placed(w.rx.ring, q, view);
    var rx := w.rx.(ring := ring);
    (w.(rx := if outcome == Ready then DrainTo(rx, q, streamId) else rx, backing := Shared(w.backing.held)),
     outcome == Full)
  }

  ghost function Place(w: Work, streamId: nat, q: nat, b: Block): (Work, bool)
    requires w.rx.ring.capacity > 0
  {
    var w1 := w.(rx := w.rx.(gaps := w.rx.gaps - iset{q}));
    if q == w.rx.ring.expected then (DeliverInline(w1, streamId, q, b), false)
    else if q > w.rx.ring.expected then HoldBack(w1, streamId, q, b)
    else (w1, false)
  }

  ghost function BlockStep(w: Work, streamId: nat, q: nat, b: Block, now: nat): (Work, bool)
    requires w.rx.ring.capacity > 0 && (w.rx.arbiter.Some? ==> w.rx.arbiter.value.capacity > 0)
  {
    if w.rx.arbiter.None? then Place(w, streamId, q, b)
    else
      var (arb, verdict) := Observe(w.rx.arbiter.value, q, now);
      var w1 := w.(rx := w.rx.(arbiter := Some(arb)));
      if verdict == Forward then Place(w1, streamId, q, b) else (w1, false)
  }

  ghost predicate Sized(rx: Rx) {
    rx.ring.capacity > 0 && (rx.arbiter.Some? ==> rx.arbiter.value.capacity > 0)
  }

  /** Fields that decoding blocks leaves alone. */
  ghost predicate SameShell(a: Rx, b: Rx) {
    && a.session == b.session && a.current == b.current && a.pending == b.pending && a.seen == b.seen
    && a.backing == b.backing && a.inlinePending == b.inlinePending
    && a.anchored == b.anchored && a.anchor == b.anchor && a.nextUnseen == b.nextUnseen
    && a.arbiter.None? == b.arbiter.None? && a.recoveryStream == b.recoveryStream && a.start == b.start
  }

  lemma PlaceFrame(w: Work, streamId: nat, q: nat, b: Block)
    requires Sized(w.rx)
    ensures Sized(Place(w, streamId, q, b).0.rx) && SameShell(w.rx, Place(w, streamId, q, b).0.rx)
    ensures Place(w, streamId, q, b).0.rx.arbiter == w.rx.arbiter
  {
    hide Blocked;
    hide Views;
  }

  lemma ObserveFrame(a: Arb, q: nat, now: nat)
    requires a.capacity > 0
    ensures Observe(a, q, now).0.capacity == a.capacity
  {
  }

  lemma BlockStepFrame(w: Work, streamId: nat, q: nat, b: Block, now: nat)
    requires Sized(w.rx)
    ensures Sized(BlockStep(w, streamId, q, b, now).0.rx)
    ensures SameShell(w.rx, BlockStep(w, streamId, q, b, now).0.rx)
  {
    hide Observe;
    hide Place;
    if w.rx.arbiter.None? {
      PlaceFrame(w, streamId, q, b);
    } else {
      ObserveFrame(w.rx.arbiter.value, q, now);
      PlaceFrame(w.(rx := w.rx.(arbiter := Some(Observe(w.rx.arbiter.value, q, now).0))), streamId, q, b);
    }
  }

  /** Blocks `i..` of a datagram whose first message is `first`; stops when a slot is taken. */
  ghost function Blocks(w: Work, streamId: nat, first: nat, blocks: seq<Block>, i: nat, now: nat): (Work, bool)
    requires Sized(w.rx) && i <= |blocks|
    decreases |blocks| - i
  {
    if i == |blocks| then (w, false)
    else
      var (w1, full) := BlockStep(w, streamId, first + i, blocks[i], now);
      BlockStepFrame(w, streamId, first + i, blocks[i], now);
      if full then (w1, true) else Blocks(w1, streamId, first, blocks, i + 1, now)
  }

  ghost function ProcessData(rx: Rx, streamId: nat, d: Octets, h: DownstreamHeader, blocks: seq<Block>, now: nat)
    : (Rx, Result<(), MoldError>)
    requires Sized(rx)
  {
    var (w, full) := Blocks(Work(OpenGap(rx, h, now), Owned(d), 0), streamId, h.sequence, blocks, 0, now);
    if full then (w.rx, Err(BufferFull))
    else if w.inline > 0 then (w.rx.(backing := w.backing, inlinePending := w.inline), Ok(()))
    else (w.rx, Ok(()))
  }

  // ---------------------------------------------------------------- datagrams

  /** Decodes an accepted datagram. */
  ghost function ProcessAccepted(rx: Rx, streamId: nat, d: Octets, h: DownstreamHeader, now: nat)
    : (Rx, Result<(), MoldError>)
    requires Sized(rx) && ParseHeader(d) == Ok(h)
  {
    match Kind(h)
    case Heartbeat =>
      var noted := NoteTailGap(rx, h.sequence);
      (noted.(ready := noted.ready + [EventItem(HeartbeatSeen(h.sequence))]), Ok(()))
    case EndOfSession =>
      var noted := NoteTailGap(rx, h.sequence);
      (noted.(ready := noted.ready + [EventItem(SessionEnded(h.sequence))]), Ok(()))
    case Data =>
      match ParseBlocks(d, HEADER_LEN, h.messageCount)
      case Err(e) => (rx, Err(Wire(e)))
      case Ok(blocks) => ProcessData(rx, streamId, d, h, blocks, now)
  }

  ghost function Popped(rx: Rx): Rx
    requires rx.pending != []
  {
    rx.(pending := rx.pending[1..], seen := rx.seen + [rx.pending[0].1])
  }

  /** Decodes the next pending datagram. `now` matters only with an arbiter. */
  ghost function ProcessNext(rx: Rx, now: nat): (Rx, Result<(), MoldError>)
    requires Sized(rx)
  {
    if rx.pending == [] then (rx, Ok(()))
    else
      var (streamId, d) := rx.pending[0];
      var popped := Popped(rx);
      match ParseHeader(d)
      case Err(e) => (popped, Err(Wire(e)))
      case Ok(h) =>
        match AcceptHeader(popped, h)
        case Err(e) => (popped, Err(e))
        case Ok(accepted) => ProcessAccepted(accepted, streamId, d, h, now)
  }

  function Repeat(item: ReadyItem, n: nat): (items: seq<ReadyItem>)
    ensures |items| == n
  {
    seq(n, _ => item)
  }

  /** Turns gap candidates whose confirm window is over into gaps. */
  ghost function DrainConfirmed(rx: Rx, now: nat): Rx {
    if rx.arbiter.None? then rx
    else
      var due := Due(rx.arbiter.value, now);
      rx.(arbiter := Some(Confirm(rx.arbiter.value, now)),
          gaps := rx.gaps + (iset q | q in due),
          ready := rx.ready + Repeat(GapItem, |due|))
  }

  /** One turn of the pump: decode a datagram, then confirm gaps. */
  ghost function Turn(rx: Rx, now: nat): (Rx, Result<(), MoldError>)
    requires Sized(rx)
  {
    var (rx1, r) := ProcessNext(rx, now);
    if r.Ok? then (DrainConfirmed(rx1, now), r) else (rx1, r)
  }

  // -------------------------------------------------------------------- polls

  /** What one round over the sources brings: datagrams off the legs (an error stops
      the round), and retransmissions, which are read only while a gap is open. */
  datatype Burst = Burst(legs: seq<(nat, Octets)>, legError: bool, recovered: seq<Octets>, recoveryError: bool)

  function Tagged(recovered: seq<Octets>, streamId: nat): (items: seq<(nat, Octets)>)
    ensures |items| == |recovered|
  {
    seq(|recovered|, i requires 0 <= i < |recovered| => (streamId, recovered[i]))
  }

  ghost function PollSources(rx: Rx, burst: Burst): (Rx, Result<(), MoldError>) {
    var landed := rx.(pending := rx.pending + burst.legs);
    if burst.legError then (landed, Err(Transport))
    else if rx.gaps == iset{} then (landed, Ok(()))
    else
      // a failed read of the requester hands over no datagram
      if burst.recoveryError then (landed, Err(Transport))
      else (landed.(pending := landed.pending + Tagged(burst.recovered, rx.recoveryStream)), Ok(()))
  }

  /** Fields that decoding an accepted datagram leaves alone. */
  ghost predicate SameSettings(a: Rx, b: Rx) {
    && a.session == b.session && a.current == b.current && a.pending == b.pending && a.seen == b.seen
    && a.anchored == b.anchored && a.anchor == b.anchor
    && a.arbiter.None? == b.arbiter.None? && a.recoveryStream == b.recoveryStream && a.start == b.start
  }

  lemma DataFrame(rx: Rx, streamId: nat, d: Octets, h: DownstreamHeader, blocks: seq<Block>, now: nat)
    requires Sized(rx)
    ensures var out := ProcessData(rx, streamId, d, h, blocks, now).0; Sized(out) && SameSettings(rx, out)
  {
    hide Blocks;
    BlocksFrame(Work(OpenGap(rx, h, now), Owned(d), 0), streamId, h.sequence, blocks, 0, now);
  }

  lemma AcceptedFrame(rx: Rx, streamId: nat, d: Octets, h: DownstreamHeader, now: nat)
    requires Sized(rx) && ParseHeader(d) == Ok(h)
    ensures Sized(ProcessAccepted(rx, streamId, d, h, now).0)
    ensures SameSettings(rx, ProcessAccepted(rx, streamId, d, h, now).0)
  {
    assert HEADER_LEN <= |d|;
    hide ProcessData;
    hide ParseBlocks;
    hide ParseHeader;
    var r := ParseBlocks(d, HEADER_LEN, h.messageCount);
    if Kind(h) == Data && r.Ok? {
      DataFrame(rx, streamId, d, h, r.value, now);
    }
  }

  /** The header of the datagram up next, if it is well-formed and of our session. */
  ghost function Accepted(rx: Rx): Option<(DownstreamHeader, Rx)>
    requires rx.pending != []
  {
    match ParseHeader(rx.pending[0].1)
    case Err(_) => None
    case Ok(h) =>
      match AcceptHeader(Popped(rx), h)
      case Err(_) => None
      case Ok(accepted) => Some((h, accepted))
  }

  /** A turn decodes the datagram up next or drops it, and touches no other. */
  lemma TurnFrame(rx: Rx, now: nat)
    requires Sized(rx) && rx.pending != []
    ensures var (out, r) := Turn(rx, now);
            && Sized(out) && out.pending == rx.pending[1..] && out.seen == rx.seen + [rx.pending[0].1]
            && SameSettings(if Accepted(rx).Some? then Accepted(rx).value.1 else Popped(rx), out)
            && (Accepted(rx).None? ==> out == Popped(rx) && r.Err?)
  {
    hide ProcessAccepted;
    hide ParseHeader;
    hide Due;
    if Accepted(rx).Some? {
      var (h, accepted) := Accepted(rx).value;
      AcceptedFrame(accepted, rx.pending[0].0, rx.pending[0].1, h, now);
    }
  }

  lemma {:induction false} BlocksFrame(w: Work, streamId: nat, first: nat, blocks: seq<Block>, i: nat, now: nat)
    requires Sized(w.rx) && i <= |blocks|
    ensures Sized(Blocks(w, streamId, first, blocks, i, now).0.rx)
    ensures SameShell(w.rx, Blocks(w, streamId, first, blocks, i, now).0.rx)
    decreases |blocks| - i
  {
    hide BlockStep;
    if i < |blocks| {
      BlockStepFrame(w, streamId, first + i, blocks[i], now);
      var (w1, full) := BlockStep(w, streamId, first + i, blocks[i], now);
      if !full {
        BlocksFrame(w1, streamId, first, blocks, i + 1, now);
      }
    }
  }

  /** Polls and decodes until an item is ready or every source is idle. `clock(k)`
      is the time read for the call's datagram number `k`. */
  ghost function Pump(rx: Rx, bursts: seq<Burst>, clock: nat -> nat, k: nat): (Rx, Result<(), MoldError>)
    requires Sized(rx)
    decreases |bursts|, |rx.pending|
  {
    if rx.ready != [] then (rx, Ok(()))
    else if rx.pending != [] then
      TurnFrame(rx, clock(k));
      var (rx1, r) := Turn(rx, clock(k));
      if r.Err? then (rx1, r) else Pump(rx1, bursts, clock, k + 1)
    else if bursts == [] then (rx, Ok(()))
    else
      var (rx1, r) := PollSources(rx, bursts[0]);
      if r.Err? || rx1.pending == [] then (rx1, r) else Pump(rx1, bursts[1..], clock, k)
  }

  datatype Call = Call(bursts: seq<Burst>, clock: nat -> nat, owned: bool)

  /** `poll`, or `recv_owned` when `owned`: retire, pump, hand out the front item. */
  ghost function Poll(rx: Rx, c: Call): (Rx, Outcome)
    requires Sized(rx)
  {
    var (rx1, r) := Pump(Retire(rx), c.bursts, c.clock, 0);
    if r.Err? then (rx1, Failed(r.error))
    else if rx1.ready == [] then (rx1, Idle)
    else
      var (item, rx2) := (rx1.ready[0], rx1.(ready := rx1.ready[1..]));
      if c.owned then YieldOwned(rx2, item) else YieldItem(rx2, item)
  }

  // --------------------------------------------------------------- whole runs

  /** The state after `calls`, and every outcome so far. */
  ghost function AfterPolls(rx: Rx, calls: seq<Call>): (r: (Rx, seq<Outcome>))
    requires Sized(rx)
    ensures Sized(r.0)
  {
    if calls == [] then (rx, [])
    else
      var (before, outs) := AfterPolls(rx, calls[..|calls| - 1]);
      PollKeepsSizes(before, calls[|calls| - 1]);
      var (after, o) := Poll(before, calls[|calls| - 1]);
      (after, outs + [o])
  }

  lemma PollKeepsSizes(rx: Rx, c: Call)
    requires Sized(rx)
    ensures Sized(Poll(rx, c).0)
  {
    PumpKeepsSizes(Retire(rx), c.bursts, c.clock, 0);
  }

  lemma {:induction false} PumpKeepsSizes(rx: Rx, bursts: seq<Burst>, clock: nat -> nat, k: nat)
    requires Sized(rx)
    ensures Sized(Pump(rx, bursts, clock, k).0)
    decreases |bursts|, |rx.pending|
  {
    if rx.ready == [] && rx.pending != [] {
      TurnFrame(rx, clock(k));
      var (rx1, r) := Turn(rx, clock(k));
      if r.Ok? {
        PumpKeepsSizes(rx1, bursts, clock, k + 1);
      }
    } else if rx.ready == [] && bursts != [] {
      var (rx1, r) := PollSources(rx, bursts[0]);
      if r.Ok? && rx1.pending != [] {
        PumpKeepsSizes(rx1, bursts[1..], clock, k);
      }
    }
  }

  /** The states a pump decodes a datagram in. */
  ghost function PumpTurns(rx: Rx, bursts: seq<Burst>, clock: nat -> nat, k: nat): (turns: seq<Rx>)
    requires Sized(rx)
    ensures forall s :: s in turns ==> Sized(s) && s.pending != []
    decreases |bursts|, |rx.pending|
  {
    if rx.ready != [] then []
    else if rx.pending != [] then
      TurnFrame(rx, clock(k));
      var (rx1, r) := Turn(rx, clock(k));
      [rx] + if r.Err? then [] else PumpTurns(rx1, bursts, clock, k + 1)
    else if bursts == [] then []
    else
      var (rx1, r) := PollSources(rx, bursts[0]);
      if r.Err? || rx1.pending == [] then [] else PumpTurns(rx1, bursts[1..], clock, k)
  }

  ghost function PollTurns(rx: Rx, c: Call): (turns: seq<Rx>)
    requires Sized(rx)
    ensures forall s :: s in turns ==> Sized(s) && s.pending != []
  {
    PumpTurns(Retire(rx), c.bursts, c.clock, 0)
  }

  /** The states a whole run decodes its datagrams in. */
  ghost function RunTurns(rx: Rx, calls: seq<Call>): (turns: seq<Rx>)
    requires Sized(rx)
    ensures forall s :: s in turns ==> Sized(s) && s.pending != []
  {
    if calls == [] then []
    else
      var init := calls[..|calls| - 1];
      RunTurns(rx, init) + PollTurns(AfterPolls(rx, init).0, calls[|calls| - 1])
  }

  /** No poll of the run handed out octets outside a datagram. */
  predicate StaysInside(outs: seq<Outcome>) {
    Panicked !in outs && Dangling !in outs
  }

  /** No poll of the run was refused a slot of the reorder ring. */
  ghost predicate NeverFull(outs: seq<Outcome>) {
    Failed(BufferFull) !in outs
  }
}
