/** Decapsulation over the kernel-bypass shell: a driver that answers polls as it likes,
    the shell that defers errors behind frames, and the filter that turns frames into
    datagrams. Ghost histories record what the driver gave and what the caller got. */
module UdpDecap {
  import opened Octets
  import opened Batches
  import opened UdpParse

  datatype Error = Backend(code: nat) | PoolExhausted(inUse: nat, capacity: nat)

  datatype Polled = Frames(n: nat) | Idle | Exhausted

  /** What a driver produced, in order; `Quiet` is a poll that found nothing. */
  datatype Event = Arrived(frame: Octets) | Failed(error: Error) | Quiet

  function Arrivals(frames: seq<Octets>): (events: seq<Event>)
    ensures |events| == |frames|
  {
    seq(|frames|, k requires 0 <= k < |frames| => Arrived(frames[k]))
  }

  lemma FirstMoves(consumed: seq<Event>, frames: seq<Octets>)
    requires frames != []
    ensures consumed + Arrivals(frames) == (consumed + [Arrived(frames[0])]) + Arrivals(frames[1..])
  {
    assert Arrivals(frames) == [Arrived(frames[0])] + Arrivals(frames[1..]);
  }

  // ------------------------------------------------------------------- driver

  /** How a poll ends once its frames are pushed. */
  datatype Ending = Done | RanOut | Broke(error: Error)

  /** The events of one answer. Running out of slots with nothing to push surfaces as an
      error, with frames it does not. */
  function Said(frames: seq<Octets>, ending: Ending, pool: (nat, nat)): seq<Event>
  {
    match ending
    case Done => if frames == [] then [Quiet] else Arrivals(frames)
    case RanOut => if frames == [] then [Failed(PoolExhausted(pool.0, pool.1))] else Arrivals(frames)
    case Broke(error) => Arrivals(frames) + [Failed(error)]
  }

  /** All a script has to say. */
  function Events(script: seq<(seq<Octets>, Ending)>, pool: (nat, nat)): seq<Event>
  {
    if script == [] then [] else Said(script[0].0, script[0].1, pool) + Events(script[1..], pool)
  }

  function Weight(script: seq<(seq<Octets>, Ending)>): nat
  {
    if script == [] then 0 else |script[0].0| + 1 + Weight(script[1..])
  }

  lemma WeightCons(frames: seq<Octets>, ending: Ending, rest: seq<(seq<Octets>, Ending)>)
    ensures Weight([(frames, ending)] + rest) == |frames| + 1 + Weight(rest)
  {
    assert ([(frames, ending)] + rest)[1..] == rest;
  }

  /** Frames that did not fit are said later. */
  lemma SaidInTwo(before: seq<Event>, frames: seq<Octets>, n: nat, ending: Ending, rest: seq<(seq<Octets>, Ending)>,
                  pool: (nat, nat))
    requires 0 < n < |frames|
    ensures (before + Arrivals(frames[..n])) + Events([(frames[n..], ending)] + rest, pool) ==
            before + (Said(frames, ending, pool) + Events(rest, pool))
  {
    var (first, later) := (Arrivals(frames[..n]), Said(frames[n..], ending, pool));
    ArrivalsInTwo(frames, n);
    SaidSplits(frames, n, ending, pool);
    assert ([(frames[n..], ending)] + rest)[1..] == rest;
    hide Arrivals;
    hide Said;
    Assoc(before, first, later + Events(rest, pool));
    Assoc(first, later, Events(rest, pool));
  }

  lemma ArrivalsInTwo(frames: seq<Octets>, n: nat)
    requires n <= |frames|
    ensures Arrivals(frames) == Arrivals(frames[..n]) + Arrivals(frames[n..])
  {
  }

  lemma SaidSplits(frames: seq<Octets>, n: nat, ending: Ending, pool: (nat, nat))
    requires 0 < n < |frames|
    ensures Said(frames, ending, pool) == Arrivals(frames[..n]) + Said(frames[n..], ending, pool)
  {
    ArrivalsInTwo(frames, n);
    hide Arrivals;
  }

  /** `after` is `before`, and once all is said, silence. */
  ghost predicate Continues(before: seq<Event>, after: seq<Event>, over: bool)
  {
    && before <= after && (!over ==> after == before)
    && forall i :: |before| <= i < |after| ==> after[i] == Quiet
  }

  lemma NothingSaid(events: seq<Event>, over: bool)
    ensures Continues(events, events, over)
  {
  }

  lemma ContinuesOn(a: seq<Event>, b: seq<Event>, c: seq<Event>, over1: bool, over2: bool)
    requires Continues(a, b, over1) && Continues(b, c, over2) && (over1 ==> over2)
    ensures Continues(a, c, over2)
  {
  }

  /** A device whose every answer is chosen in advance: any frames, any ending. It pushes
      what fits and keeps the rest for the next poll; past its script it is idle. */
  class Driver {
    const pool: (nat, nat)
    var script: seq<(seq<Octets>, Ending)>
    ghost var history: seq<Event>

    constructor (script: seq<(seq<Octets>, Ending)>, pool: (nat, nat))
      ensures history == [] && this.script == script && this.pool == pool
    {
      this.script, this.pool := script, pool;
      history := [];
    }

    /** All it has said and has to say. */
    ghost function Given(): seq<Event>
      reads this
    {
      history + Events(script, pool)
    }

    /** It said nothing but what its script holds, in order. */
    twostate predicate Spoke()
      reads this
    {
      Continues(old(Given()), Given(), script == []) && (old(script) == [] ==> script == [])
    }

    method PollFrames(out: FrameBatch<Octets>) returns (r: Result<Polled, Error>)
      requires out.Spare() > 0
      modifies this`script, this`history, out`frames
      ensures Spoke() && |out.frames| <= out.capacity && old(out.frames) <= out.frames
      ensures r == Ok(Idle) ==> out.frames == old(out.frames)
      ensures r != Ok(Idle) ==> Weight(script) < Weight(old(script))
      ensures r.Ok? && r.value.Frames? ==> r.value.n == |out.frames| - |old(out.frames)| > 0
      ensures history == old(history) + Arrivals(out.frames[|old(out.frames)|..]) +
              (if r.Err? then [Failed(r.error)]
               else if r.value.Idle? then [Quiet]
               else if r.value.Exhausted? && out.frames == old(out.frames) then [Failed(PoolExhausted(pool.0, pool.1))]
               else [])
    {
      hide Weight;
      if script == [] {
        assert history + [Quiet] + Events([], pool) == (history + Events([], pool)) + [Quiet];
        history := history + [Quiet];
        return Ok(Idle);
      }
      var (frames, ending) := script[0];
      var rest := script[1..];
      assert script == [(frames, ending)] + rest;
      WeightCons(frames, ending, rest);
      ghost var before := history;
      if out.Spare() < |frames| {
        var n := out.Spare();
        SaidInTwo(before, frames, n, ending, rest, pool);
        WeightCons(frames[n..], ending, rest);
        out.frames := out.frames + frames[..n];
        assert out.frames[|old(out.frames)|..] == frames[..n];
        script := [(frames[n..], ending)] + rest;
        history := history + Arrivals(frames[..n]);
        return Ok(Frames(n));
      }
      out.frames := out.frames + frames;
      assert out.frames[|old(out.frames)|..] == frames;
      script := rest;
      history := history + Said(frames, ending, pool);
      Assoc(before, Said(frames, ending, pool), Events(rest, pool));
      match ending {
        case Done =>
          return Ok(if frames == [] then Idle else Frames(|frames|));
        case RanOut =>
          return Ok(Exhausted);
        case Broke(error) =>
          return Err(error);
      }
    }
  }

  // -------------------------------------------------------------------- shell

  class BypassTransport {
    const driver: Driver
    var deferred: Option<Error>
    // what the shell's callers were given
    ghost var given: seq<Event>

    ghost function Held(): seq<Event>
      reads this
    {
      if deferred.Some? then [Failed(deferred.value)] else []
    }

    ghost predicate Valid()
      reads this, driver
    {
      driver.history == given + Held()
    }

    constructor (driver: Driver)
      requires driver.history == []
      ensures Valid() && this.driver == driver && given == [] && deferred == None
    {
      this.driver, deferred, given := driver, None, [];
    }

    /** Either frames or one error, never both, in the driver's order; nothing only when a
        poll of the driver found nothing. */
    method RecvBurst(out: FrameBatch<Octets>) returns (r: Result<nat, Error>)
      requires Valid() && out.Spare() > 0
      modifies this`deferred, this`given, driver`script, driver`history, out`frames
      ensures Valid() && driver.Spoke()
      ensures r.Err? ==> out.frames == old(out.frames) && given == old(given) + [Failed(r.error)]
      ensures r.Ok? ==>
        && old(out.frames) <= out.frames && r.value == |out.frames| - |old(out.frames)|
        && |out.frames| <= out.capacity
        && given == old(given) + if r.value == 0 then [Quiet] else Arrivals(out.frames[|old(out.frames)|..])
      ensures r == Ok(0) ==> deferred == None
      ensures r.Ok? && r.value > 0 ==> Weight(driver.script) < Weight(old(driver.script))
    {
      hide Events;
      hide Weight;
      if deferred.Some? {
        var error := deferred.value;
        deferred := None;
        given := given + [Failed(error)];
        return Err(error);
      }
      var before := |out.frames|;
      var polled := driver.PollFrames(out);
      var pushed := |out.frames| - before;
      ghost var arrived := Arrivals(out.frames[before..]);
      if polled == Ok(Exhausted) && pushed == 0 {
        assert arrived == [];
        given := given + [Failed(PoolExhausted(driver.pool.0, driver.pool.1))];
        return Err(PoolExhausted(driver.pool.0, driver.pool.1));
      }
      match polled {
        case Ok(_) =>
          given := given + if pushed == 0 then [Quiet] else arrived;
          return Ok(pushed);
        case Err(error) =>
          if pushed > 0 {
            deferred := Some(error);
            given := given + arrived;
            return Ok(pushed);
          }
          assert arrived == [];
          given := given + [Failed(error)];
          return Err(error);
      }
    }
  }

  // ------------------------------------------------------------ decapsulation

  datatype Delivery = Delivery(frame: Octets, located: Located)

  /** What a caller of the decapsulation sees, in order. */
  datatype Output = Delivered(delivery: Delivery) | Raised(error: Error) | Silence

  datatype Stats = Stats(notIpv4: nat, fragment: nat, wrongDst: nat, truncated: nat)
  {
    function Count(reason: Drop): Stats
    {
      match reason
      case NotIpv4 => this.(notIpv4 := notIpv4 + 1)
      case Fragment => this.(fragment := fragment + 1)
      case WrongDst => this.(wrongDst := wrongDst + 1)
      case Truncated => this.(truncated := truncated + 1)
    }

    function Total(): nat { notIpv4 + fragment + wrongDst + truncated }
  }

  function Deliveries(ds: seq<Delivery>): (outputs: seq<Output>)
    ensures |outputs| == |ds|
  {
    seq(|ds|, k requires 0 <= k < |ds| => Delivered(ds[k]))
  }

  lemma OneMore(before: seq<Output>, ds: seq<Delivery>, d: Delivery)
    ensures before + Deliveries(ds + [d]) == (before + Deliveries(ds)) + [Delivered(d)]
  {
    assert Deliveries(ds + [d]) == Deliveries(ds) + [Delivered(d)];
  }

  /** What the caller must see of one event: errors and silence as they are, frames the
      filter accepts, nothing of the others. */
  function Seen(event: Event, filter: Filter): seq<Output>
  {
    match event
    case Failed(error) => [Raised(error)]
    case Quiet => [Silence]
    case Arrived(frame) =>
      var r := ParseUdp(frame, filter);
      if r.Ok? then [Delivered(Delivery(frame, r.value))] else []
  }

  /** The driver's events as the caller must see them, order kept. */
  function Kept(events: seq<Event>, filter: Filter): seq<Output>
  {
    if events == [] then []
    else Kept(events[..|events| - 1], filter) + Seen(events[|events| - 1], filter)
  }

  /** Frames the filter refuses, per reason. */
  function Tally(events: seq<Event>, filter: Filter): Stats
  {
    if events == [] then Stats(0, 0, 0, 0)
    else
      var before := Tally(events[..|events| - 1], filter);
      match events[|events| - 1]
      case Failed(_) => before
      case Quiet => before
      case Arrived(frame) =>
        var r := ParseUdp(frame, filter);
        if r.Ok? then before else before.Count(r.error)
  }

  lemma Snoc(events: seq<Event>, event: Event, filter: Filter)
    ensures Kept(events + [event], filter) == Kept(events, filter) + Seen(event, filter)
    ensures !event.Arrived? ==> Tally(events + [event], filter) == Tally(events, filter)
    ensures event.Arrived? && ParseUdp(event.frame, filter).Ok? ==>
      Tally(events + [event], filter) == Tally(events, filter)
    ensures event.Arrived? && ParseUdp(event.frame, filter).Err? ==>
      Tally(events + [event], filter) == Tally(events, filter).Count(ParseUdp(event.frame, filter).error)
  {
    assert (events + [event])[..|events|] == events;
  }

  lemma Nothing(filter: Filter)
    ensures Kept([], filter) == [] && Tally([], filter) == Stats(0, 0, 0, 0)
  {
  }

  lemma {:induction false} KeptConcat(a: seq<Event>, b: seq<Event>, filter: Filter)
    ensures Kept(a + b, filter) == Kept(a, filter) + Kept(b, filter)
    decreases |b|
  {
    hide ParseUdp;
    hide Kept;
    hide Seen;
    if b == [] {
      Nothing(filter);
      assert a + b == a;
    } else {
      var (init, last) := (b[..|b| - 1], b[|b| - 1]);
      assert b == init + [last];
      KeptConcat(a, init, filter);
      Assoc(a, init, [last]);
      Snoc(a + init, last, filter);
      Snoc(init, last, filter);
      Assoc(Kept(a, filter), Kept(init, filter), Seen(last, filter));
    }
  }

  /** Every event is seen by the caller or counted under one reason, never both. */
  lemma {:induction false} Balanced(events: seq<Event>, filter: Filter)
    ensures |events| == |Kept(events, filter)| + Tally(events, filter).Total()
  {
    hide ParseUdp;
    hide Kept;
    hide Tally;
    if events == [] {
      Nothing(filter);
    } else {
      var (init, last) := (events[..|events| - 1], events[|events| - 1]);
      Balanced(init, filter);
      Snoc(init, last, filter);
      assert events == init + [last];
    }
  }

  /** Frames among events whose octets give this reason to refuse them. */
  function RefusedFor(events: seq<Event>, filter: Filter, reason: Drop): nat
  {
    if events == [] then 0
    else
      var last := events[|events| - 1];
      RefusedFor(events[..|events| - 1], filter, reason)
      + if last.Arrived? && Refusal(last.frame, filter, reason) then 1 else 0
  }

  /** The counters say for each reason how many frames were refused for it. */
  lemma {:induction false} TallyIsPerReason(events: seq<Event>, filter: Filter)
    ensures Tally(events, filter) ==
            Stats(RefusedFor(events, filter, NotIpv4), RefusedFor(events, filter, Fragment),
                  RefusedFor(events, filter, WrongDst), RefusedFor(events, filter, Truncated))
  {
    hide ParseUdp;
    hide Refusal;
    if events != [] {
      var (init, last) := (events[..|events| - 1], events[|events| - 1]);
      TallyIsPerReason(init, filter);
      if last.Arrived? {
        RefusedExactly(last.frame, filter, NotIpv4);
        RefusedExactly(last.frame, filter, Fragment);
        RefusedExactly(last.frame, filter, WrongDst);
        RefusedExactly(last.frame, filter, Truncated);
      }
    }
  }

  class UdpDecap {
    const inner: BypassTransport
    const filter: Filter
    const collected: FrameBatch<Octets>
    var pending: seq<Octets>
    var stats: Stats
    // events fully dealt with, and what the caller got
    ghost var consumed: seq<Event>
    ghost var returned: seq<Output>

    ghost predicate Valid()
      reads this, inner, inner.driver, collected
    {
      && inner.Valid()
      && collected.frames == [] && collected.capacity > 0
      && |pending| <= collected.capacity
      && inner.given == consumed + Arrivals(pending)
      && returned == Kept(consumed, filter)
      && stats == Tally(consumed, filter)
    }

    /** Frames and the error that the caller has not seen yet. */
    ghost function Waiting(): seq<Event>
      reads this, inner
    {
      Arrivals(pending) + inner.Held()
    }

    constructor (inner: BypassTransport, filter: Filter, burst: nat)
      requires inner.Valid() && inner.given == [] && burst > 0
      ensures Valid() && this.inner == inner && this.filter == filter
      ensures returned == [] && fresh(collected) && collected.capacity == burst
    {
      this.inner, this.filter := inner, filter;
      collected := new FrameBatch(burst);
      pending, stats := [], Stats(0, 0, 0, 0);
      consumed, returned := [], [];
    }

    /** What the caller got, then what waits, is what the driver produced. */
    lemma Account()
      requires Valid()
      ensures returned + Kept(Waiting(), filter) == Kept(inner.driver.history, filter)
      ensures |inner.driver.history| == |returned| + |Waiting()| + stats.Total()
      ensures |Waiting()| <= collected.capacity + 1 && |Waiting()| <= |inner.driver.history|
      ensures var done := inner.driver.history[..|inner.driver.history| - |Waiting()|];
              stats == Stats(RefusedFor(done, filter, NotIpv4), RefusedFor(done, filter, Fragment),
                             RefusedFor(done, filter, WrongDst), RefusedFor(done, filter, Truncated))
      ensures Waiting() == [] ==> Kept(Waiting(), filter) == []
    {
      hide ParseUdp;
      hide Tally;
      hide Arrivals;
      assert inner.driver.history == consumed + Waiting();
      KeptConcat(consumed, Waiting(), filter);
      Balanced(consumed, filter);
      TallyIsPerReason(consumed, filter);
      hide RefusedFor;
      hide Kept;
      assert inner.driver.history[..|inner.driver.history| - |Waiting()|] == consumed;
    }

    /** Hands over waiting frames while there is room; refused ones are counted. */
    method Deliver(out: FrameBatch<Delivery>) returns (pushed: nat)
      requires Valid()
      modifies this`pending, this`stats, this`consumed, this`returned, out`frames
      ensures Valid()
      ensures old(out.frames) <= out.frames && pushed == |out.frames| - |old(out.frames)|
      ensures returned == old(returned) + Deliveries(out.frames[|old(out.frames)|..])
      ensures pending == [] || out.Spare() == 0
      ensures |out.frames| <= out.capacity || out.frames == old(out.frames)
    {
      hide ParseUdp;
      hide Kept;
      hide Tally;
      hide Arrivals;
      hide Deliveries;
      pushed := 0;
      ghost var start := |out.frames|;
      assert out.frames[start..] == [] && Deliveries([]) == [];
      while out.Spare() > 0 && pending != []
        invariant Valid()
        invariant old(out.frames) <= out.frames && pushed == |out.frames| - start
        invariant returned == old(returned) + Deliveries(out.frames[start..])
        invariant |out.frames| <= out.capacity || out.frames == old(out.frames)
        decreases |pending|
      {
        var frame := pending[0];
        FirstMoves(consumed, pending);
        Snoc(consumed, Arrived(frame), filter);
        pending := pending[1..];
        consumed := consumed + [Arrived(frame)];
        match ParseUdp(frame, filter) {
          case Ok(located) =>
            ghost var sofar := out.frames[start..];
            OneMore(old(returned), sofar, Delivery(frame, located));
            out.Push(Delivery(frame, located));
            assert out.frames[start..] == sofar + [Delivery(frame, located)];
            returned := returned + [Delivered(Delivery(frame, located))];
            pushed := pushed + 1;
          case Err(reason) =>
            stats := stats.Count(reason);
        }
      }
    }

    /** Reads one burst into the waiting frames; `false` when there was none. */
    method Fetch() returns (r: Result<bool, Error>)
      requires Valid() && pending == []
      modifies this`pending, this`consumed, this`returned
      modifies inner`deferred, inner`given, inner.driver`script, inner.driver`history, collected`frames
      ensures Valid() && inner.driver.Spoke()
      ensures returned == old(returned) +
              (if r.Err? then [Raised(r.error)] else if r.value then [] else [Silence])
      ensures r == Ok(false) ==> pending == [] && inner.deferred == None
      ensures r == Ok(true) ==> Weight(inner.driver.script) < Weight(old(inner.driver.script))
    {
      hide ParseUdp;
      hide Kept;
      hide Tally;
      hide Events;
      hide Weight;
      hide Continues;
      var burst := inner.RecvBurst(collected);
      if burst.Err? {
        Snoc(consumed, Failed(burst.error), filter);
        consumed := consumed + [Failed(burst.error)];
        returned := returned + [Raised(burst.error)];
        return Err(burst.error);
      }
      if burst.value == 0 {
        Snoc(consumed, Quiet, filter);
        consumed := consumed + [Quiet];
        returned := returned + [Silence];
        return Ok(false);
      }
      var frames := collected.Drain();
      pending := pending + frames;
      return Ok(true);
    }

    /** Datagrams, or one error and no datagram; nothing only when a poll of the driver found
        nothing, with no frame and no error held back. */
    method RecvBurst(out: FrameBatch<Delivery>) returns (r: Result<nat, Error>)
      requires Valid() && out.Spare() > 0
      modifies this`pending, this`stats, this`consumed, this`returned, out`frames
      modifies inner`deferred, inner`given, inner.driver`script, inner.driver`history
      modifies collected`frames
      ensures Valid() && inner.driver.Spoke()
      ensures r.Err? ==> out.frames == old(out.frames) && returned == old(returned) + [Raised(r.error)]
      ensures r.Ok? ==>
        && old(out.frames) <= out.frames && r.value == |out.frames| - |old(out.frames)|
        && |out.frames| <= out.capacity
        && returned == old(returned) + if r.value == 0 then [Silence] else Deliveries(out.frames[|old(out.frames)|..])
      ensures r == Ok(0) ==> pending == [] && inner.deferred == None
    {
      hide Valid;
      hide Deliveries;
      hide Events;
      hide Weight;
      hide Continues;
      ghost var given := inner.driver.Given();
      NothingSaid(given, inner.driver.script == []);
      while true
        invariant Valid() && inner.driver.Spoke()
        invariant out.frames == old(out.frames) && returned == old(returned)
        decreases Weight(inner.driver.script)
      {
        var pushed := Deliver(out);
        if pushed > 0 || out.Spare() == 0 {
          return Ok(pushed);
        }
        NoDeliveries(out.frames);
        ghost var (before, over) := (inner.driver.Given(), inner.driver.script == []);
        var more := Fetch();
        ContinuesOn(given, before, inner.driver.Given(), over, inner.driver.script == []);
        if more.Err? {
          return Err(more.error);
        }
        if !more.value {
          return Ok(0);
        }
      }
      assert false;
    }
  }

  lemma NoDeliveries(frames: seq<Delivery>)
    ensures Deliveries(frames[|frames|..]) == []
  {
  }

  // --------------------------------------------------------------- whole runs

  /** One call: its result and what it put in the batch. */
  datatype Call = Call(result: Result<nat, Error>, batch: seq<Delivery>)

  /** The result tells the batch: so many datagrams, or one error and none. */
  ghost predicate Tells(c: Call, size: nat)
  {
    if c.result.Ok? then c.result.value == |c.batch| <= size else c.batch == []
  }

  function OutputsOf(c: Call): seq<Output>
  {
    if c.result.Err? then [Raised(c.result.error)]
    else if c.batch == [] then [Silence]
    else Deliveries(c.batch)
  }

  /** All that the calls told the caller, in order. */
  function Told(calls: seq<Call>): seq<Output>
  {
    if calls == [] then [] else Told(calls[..|calls| - 1]) + OutputsOf(calls[|calls| - 1])
  }

  lemma ToldSnoc(calls: seq<Call>, c: Call)
    ensures Told(calls + [c]) == Told(calls) + OutputsOf(c)
  {
    assert (calls + [c])[..|calls|] == calls;
  }

  method CallOnce(decap: UdpDecap, size: nat) returns (c: Call)
    requires decap.Valid() && size > 0
    modifies decap, decap.inner, decap.inner.driver, decap.collected
    ensures decap.Valid() && Tells(c, size) && decap.returned == old(decap.returned) + OutputsOf(c)
    ensures c.result == Ok(0) ==> decap.Waiting() == []
    ensures decap.inner.driver.Spoke()
  {
    hide Deliveries;
    hide Events;
    hide UdpDecap.Valid;
    var out := new FrameBatch<Delivery>(size);
    var r := decap.RecvBurst(out);
    assert out.frames[0..] == out.frames;
    c := Call(r, out.frames);
  }

  method CallAll(decap: UdpDecap, sizes: seq<nat>) returns (calls: seq<Call>)
    requires decap.Valid() && decap.returned == [] && forall i :: 0 <= i < |sizes| ==> sizes[i] > 0
    modifies decap, decap.inner, decap.inner.driver, decap.collected
    ensures decap.Valid() && |calls| == |sizes| && decap.returned == Told(calls)
    ensures forall i :: 0 <= i < |calls| ==> Tells(calls[i], sizes[i])
    ensures calls != [] && calls[|calls| - 1].result == Ok(0) ==> decap.Waiting() == []
    ensures decap.inner.driver.Spoke()
  {
    hide Tells;
    hide OutputsOf;
    hide Events;
    hide Continues;
    hide UdpDecap.Valid;
    calls := [];
    ghost var given := decap.inner.driver.Given();
    NothingSaid(given, decap.inner.driver.script == []);
    for i := 0 to |sizes|
      invariant decap.Valid() && |calls| == i && decap.returned == Told(calls)
      invariant forall k :: 0 <= k < i ==> Tells(calls[k], sizes[k])
      invariant decap.inner.driver.Spoke()
      invariant i > 0 && calls[i - 1].result == Ok(0) ==> decap.Waiting() == []
    {
      ghost var (before, over) := (decap.inner.driver.Given(), decap.inner.driver.script == []);
      var c := CallOnce(decap, sizes[i]);
      ContinuesOn(given, before, decap.inner.driver.Given(), over, decap.inner.driver.script == []);
      ToldSnoc(calls, c);
      calls := calls + [c];
    }
  }

  /** For every driver, filter, burst size and schedule of calls with any batch sizes:
      what the calls told, then what waits, is what the driver said with refused frames left
      out, in order; and what it said, then what its script still holds, is the script it was
      given, followed only by silence. Every event was told, waits, or was counted; at most a
      burst of frames and one error wait, and nothing after a call that tells nothing. */
  method Drive(driver: Driver, filter: Filter, burst: nat, sizes: seq<nat>)
    returns (decap: UdpDecap, calls: seq<Call>)
    requires driver.history == [] && burst > 0 && forall i :: 0 <= i < |sizes| ==> sizes[i] > 0
    modifies driver
    ensures decap.inner.driver == driver && decap.Valid() && decap.filter == filter
    ensures |calls| == |sizes| && forall i :: 0 <= i < |calls| ==> Tells(calls[i], sizes[i])
    ensures |decap.Waiting()| <= burst + 1
    ensures Told(calls) + Kept(decap.Waiting(), filter) == Kept(driver.history, filter)
    ensures Continues(old(Events(driver.script, driver.pool)), driver.history + Events(driver.script, driver.pool),
                      driver.script == [])
    ensures |driver.history| == |Told(calls)| + |decap.Waiting()| + decap.stats.Total()
    ensures var done := driver.history[..|driver.history| - |decap.Waiting()|];
            decap.stats == Stats(RefusedFor(done, filter, NotIpv4), RefusedFor(done, filter, Fragment),
                                 RefusedFor(done, filter, WrongDst), RefusedFor(done, filter, Truncated))
    ensures calls != [] && calls[|calls| - 1].result == Ok(0) ==> Told(calls) == Kept(driver.history, filter)
  {
    hide ParseUdp;
    hide Kept;
    hide Tally;
    hide Arrivals;
    hide Events;
    hide Continues;
    hide Told;
    hide Tells;
    hide RefusedFor;
    hide UdpDecap.Valid;
    assert driver.Given() == Events(driver.script, driver.pool);
    var inner := new BypassTransport(driver);
    decap := new UdpDecap(inner, filter, burst);
    calls := CallAll(decap, sizes);
    decap.Account();
    assert Told(calls) + [] == Told(calls);
  }
}
