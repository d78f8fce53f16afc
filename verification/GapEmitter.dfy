/** Rate-limited re-requests: a gap inside a range requested within the last
    interval is not requested again. */
module GapEmitter {
  import opened Clock
  import opened Octets
  import opened GapTracking
  import MoldWire

  const SECOND := 1_000_000_000

  /** A range `[start, end)` remembered as requested, newest send time `at`. */
  datatype Remembered = Remembered(start: nat, end: nat, at: nat)

  /** What the socket did with one packet. */
  datatype Send = Sent | WouldBlock | Failed

  datatype Attempt = Attempt(gap: GapRequest, at: nat, packet: Octets, outcome: Send)

  datatype Emission = Emission(requested: seq<Remembered>, attempts: seq<Attempt>, sent: Result<nat, Send>)

  datatype Call = Call(gaps: seq<GapRequest>, session: Octets, net: nat -> Send, now: nat)

  function End(gap: GapRequest): nat {
    gap.startSeq + gap.count
  }

  /** One second divided by the cap, truncated to nanoseconds. */
  function Interval(maxPerSec: nat): nat
    requires maxPerSec > 0
  {
    SECOND / maxPerSec
  }

  function Recent(list: seq<Remembered>, now: nat, interval: nat): seq<Remembered> {
    if list == [] then []
    else if Elapsed(now, list[0].at) < interval then [list[0]] + Recent(list[1..], now, interval)
    else Recent(list[1..], now, interval)
  }

  predicate Covers(list: seq<Remembered>, gap: GapRequest) {
    exists r :: r in list && r.start <= gap.startSeq && End(gap) <= r.end
  }

  /** One pass over `list`: ranges touching `[start, end)` widen it and go, the
      rest stay. The bounds a range is compared with are those widened so far. */
  function Absorb(list: seq<Remembered>, start: nat, end: nat): (seq<Remembered>, nat, nat) {
    if list == [] then ([], start, end)
    else
      var r := list[0];
      if r.start > end || start > r.end then
        var (kept, s, e) := Absorb(list[1..], start, end);
        ([r] + kept, s, e)
      else
        Absorb(list[1..], if r.start < start then r.start else start, Max(end, r.end))
  }

  function Mark(list: seq<Remembered>, start: nat, end: nat, now: nat): seq<Remembered> {
    var (kept, s, e) := Absorb(list, start, end);
    kept + [Remembered(s, e, now)]
  }

  function Tried(c: Call, gap: GapRequest, outcome: Send): Attempt {
    Attempt(gap, c.now, MoldWire.EncodeRequest(c.session, gap.startSeq, gap.count), outcome)
  }

  /** The rest of a round: `k` packets were tried and `sent` went out before it. */
  function Emit(list: seq<Remembered>, c: Call, i: nat, k: nat, sent: nat): Emission
    requires i <= |c.gaps|
    decreases |c.gaps| - i
  {
    if i == |c.gaps| then Emission(list, [], Ok(sent))
    else
      var gap := c.gaps[i];
      if Covers(list, gap) then Emit(list, c, i + 1, k, sent)
      else
        var tried := Tried(c, gap, c.net(k));
        match c.net(k)
        case WouldBlock => Emission(list, [tried], Ok(sent))
        case Failed => Emission(Mark(list, gap.startSeq, End(gap), c.now), [tried], Err(Failed))
        case Sent =>
          var rest := Emit(Mark(list, gap.startSeq, End(gap), c.now), c, i + 1, k + 1, sent + 1);
          rest.(attempts := [tried] + rest.attempts)
  }

  /** One call of the emitter: prune, then try each gap not covered. */
  function EmitRound(list: seq<Remembered>, c: Call, interval: nat): Emission {
    Emit(Recent(list, c.now, interval), c, 0, 0, 0)
  }

  /** Every attempt of a run of calls from an empty memory. */
  function History(calls: seq<Call>, interval: nat): (seq<Remembered>, seq<Attempt>) {
    if calls == [] then ([], [])
    else
      var (list, before) := History(calls[..|calls| - 1], interval);
      var round := EmitRound(list, calls[|calls| - 1], interval);
      (round.requested, before + round.attempts)
  }

  // ------------------------------------------------------------ single-pass absorb

  predicate Apart(a: Remembered, b: Remembered) {
    a.start > b.end || b.start > a.end
  }

  /** Remembered ranges are non-empty, pairwise disjoint and non-adjacent. */
  ghost predicate Separated(list: seq<Remembered>) {
    list != [] ==>
    && list[0].start < list[0].end
    && (forall x :: x in list[1..] ==> Apart(list[0], x))
    && Separated(list[1..])
  }

  lemma {:induction false} SeparatedPair(list: seq<Remembered>, x: Remembered, y: Remembered)
    requires Separated(list) && x in list && y in list
    ensures x.start < x.end
    ensures x != y ==> Apart(x, y)
  {
    assert list == [list[0]] + list[1..];
    if x != list[0] && y != list[0] {
      SeparatedPair(list[1..], x, y);
    } else if x != list[0] {
      SeparatedPair(list[1..], x, x);
    }
  }

  lemma {:induction false} SeparatedSnoc(list: seq<Remembered>, last: Remembered)
    requires Separated(list) && last.start < last.end && forall x :: x in list ==> Apart(x, last)
    ensures Separated(list + [last])
  {
    var out := list + [last];
    if list != [] {
      SeparatedSnoc(list[1..], last);
      assert out[1..] == list[1..] + [last];
    }
  }

  ghost predicate Remembers(list: seq<Remembered>, q: nat) {
    exists i :: 0 <= i < |list| && list[i].start <= q < list[i].end
  }

  /** A range apart from every range that may be absorbed stays apart from the
      widened one, although it was compared with narrower bounds. */
  lemma {:induction false} AbsorbAvoids(list: seq<Remembered>, start: nat, end: nat, x: Remembered)
    requires x.start < x.end && start < end
    requires Apart(x, Remembered(start, end, 0))
    requires forall i :: 0 <= i < |list| ==> Apart(x, list[i]) && list[i].start < list[i].end
    ensures var (kept, s, e) := Absorb(list, start, end); Apart(x, Remembered(s, e, 0))
    decreases |list|
  {
    if list != [] {
      var r := list[0];
      if r.start > end || start > r.end {
        AbsorbAvoids(list[1..], start, end, x);
      } else {
        AbsorbAvoids(list[1..], if r.start < start then r.start else start, Max(end, r.end), x);
      }
    }
  }

  /** What the pass keeps was in the list, and nothing of the list is lost. */
  lemma {:induction false} AbsorbAccounts(list: seq<Remembered>, start: nat, end: nat)
    requires start < end
    ensures var (kept, s, e) := Absorb(list, start, end);
            && s <= start && end <= e
            && (forall r :: r in kept ==> r in list)
            && (forall r :: r in list ==> r in kept || (s <= r.start && r.end <= e))
    decreases |list|
  {
    if list != [] {
      var r := list[0];
      assert list == [r] + list[1..];
      if r.start > end || start > r.end {
        AbsorbAccounts(list[1..], start, end);
      } else {
        AbsorbAccounts(list[1..], if r.start < start then r.start else start, Max(end, r.end));
      }
    }
  }

  /** The single pass keeps the list separated, whatever its order. */
  lemma {:induction false} AbsorbSeparates(list: seq<Remembered>, start: nat, end: nat)
    requires Separated(list) && start < end
    ensures var (kept, s, e) := Absorb(list, start, end);
            Separated(kept) && forall x :: x in kept ==> Apart(x, Remembered(s, e, 0))
    decreases |list|
  {
    if list != [] {
      var (r, rest) := (list[0], list[1..]);
      if r.start > end || start > r.end {
        AbsorbSeparates(rest, start, end);
        forall x | x in rest ensures x.start < x.end { SeparatedPair(rest, x, x); }
        AbsorbAvoids(rest, start, end, r);
        AbsorbAccounts(rest, start, end);
        assert ([r] + Absorb(rest, start, end).0)[1..] == Absorb(rest, start, end).0;
      } else {
        AbsorbSeparates(rest, if r.start < start then r.start else start, Max(end, r.end));
      }
    }
  }

  /** The widened range covers exactly the request and what it absorbed. */
  lemma {:induction false} AbsorbCovers(list: seq<Remembered>, start: nat, end: nat, q: nat)
    requires start < end
    ensures var (kept, s, e) := Absorb(list, start, end);
            Remembers(kept, q) || s <= q < e <==> Remembers(list, q) || start <= q < end
    decreases |list|
  {
    if list != [] {
      var (r, rest) := (list[0], list[1..]);
      assert Remembers(list, q) <==> r.start <= q < r.end || Remembers(rest, q) by {
        RemembersSplit(r, rest, q);
        assert list == [r] + rest;
      }
      if r.start > end || start > r.end {
        AbsorbCovers(rest, start, end, q);
        RemembersSplit(r, Absorb(rest, start, end).0, q);
      } else {
        AbsorbCovers(rest, if r.start < start then r.start else start, Max(end, r.end), q);
      }
    }
  }

  lemma RemembersSplit(r: Remembered, rest: seq<Remembered>, q: nat)
    ensures Remembers([r] + rest, q) <==> r.start <= q < r.end || Remembers(rest, q)
  {
    var list := [r] + rest;
    assert forall i :: 0 <= i < |rest| ==> list[i + 1] == rest[i];
    if Remembers(rest, q) {
      var i :| 0 <= i < |rest| && rest[i].start <= q < rest[i].end;
      assert list[i + 1].start <= q < list[i + 1].end;
    }
    if r.start <= q < r.end {
      assert list[0].start <= q < list[0].end;
    }
  }

  lemma MarkSeparates(list: seq<Remembered>, start: nat, end: nat, now: nat)
    requires Separated(list) && start < end
    ensures Separated(Mark(list, start, end, now))
  {
    AbsorbSeparates(list, start, end);
    AbsorbAccounts(list, start, end);
    var (kept, s, e) := Absorb(list, start, end);
    SeparatedSnoc(kept, Remembered(s, e, now));
  }

  lemma {:induction false} RecentKeeps(list: seq<Remembered>, now: nat, interval: nat)
    ensures forall r :: r in Recent(list, now, interval) <==> r in list && Elapsed(now, r.at) < interval
    ensures Separated(list) ==> Separated(Recent(list, now, interval))
  {
    if list != [] {
      RecentKeeps(list[1..], now, interval);
      assert list == [list[0]] + list[1..];
      var kept := Recent(list[1..], now, interval);
      assert ([list[0]] + kept)[1..] == kept;
    }
  }

  // ------------------------------------------------------------- rate limiting

  /** A gap no single range covers has a sequence no range covers at all: the
      ranges are not adjacent, so two of them never cover it together. */
  lemma Uncovered(list: seq<Remembered>, gap: GapRequest) returns (q: nat)
    requires Separated(list) && gap.count > 0 && !Covers(list, gap)
    ensures gap.startSeq <= q < End(gap) && !Remembers(list, q)
  {
    q := gap.startSeq;
    if i :| 0 <= i < |list| && list[i].start <= q < list[i].end {
      q := list[i].end;
      assert list[i] in list;
      forall j | 0 <= j < |list| ensures !(list[j].start <= q < list[j].end) {
        SeparatedPair(list, list[i], list[j]);
      }
    }
  }

  predicate Counts(a: Attempt, now: nat, interval: nat) {
    a.outcome != WouldBlock && Elapsed(now, a.at) < interval
  }

  /** The server reads a request for `q` in the packet. */
  predicate AsksFor(a: Attempt, q: nat) {
    var read := MoldWire.ParseHeader(a.packet);
    read.Ok? && read.value.sequence <= q < read.value.sequence + read.value.messageCount
  }

  /** The server reads session, first sequence and count in the packet, and nothing follows. */
  predicate Reads(a: Attempt, session: Octets, gap: GapRequest) {
    && |a.packet| == MoldWire.HEADER_LEN
    && MoldWire.ParseHeader(a.packet) == Ok(MoldWire.DownstreamHeader(session, gap.startSeq, gap.count))
  }

  /** The server reads the attempt's own gap in the packet. */
  ghost predicate SaysItsGap(a: Attempt) {
    exists session :: Reads(a, session, a.gap)
  }

  lemma AsksForItsGap(a: Attempt, q: nat)
    requires SaysItsGap(a)
    ensures AsksFor(a, q) <==> a.gap.startSeq <= q < End(a.gap)
  {
  }

  /** Session and gaps have the widths of a request packet. */
  ghost predicate Packable(c: Call) {
    && |c.session| == 10
    && forall g :: g in c.gaps ==> g.count > 0 && Fitting(c.session, g)
  }

  ghost predicate Fitting(session: Octets, gap: GapRequest) {
    MoldWire.HeaderFits(MoldWire.DownstreamHeader(session, gap.startSeq, gap.count))
  }

  lemma TriedReadsBack(c: Call, gap: GapRequest, outcome: Send)
    requires Fitting(c.session, gap)
    ensures Reads(Tried(c, gap, outcome), c.session, gap) && SaysItsGap(Tried(c, gap, outcome))
  {
    MoldWire.RequestRoundTrip(c.session, gap.startSeq, gap.count);
    var a := Tried(c, gap, outcome);
    assert Reads(a, c.session, a.gap);
  }

  /** Every attempt of the last interval still sits inside one remembered range. */
  ghost predicate Remembering(list: seq<Remembered>, past: seq<Attempt>, now: nat, interval: nat) {
    && Separated(list)
    && (forall r :: r in list ==> r.at <= now)
    && (forall a :: a in past ==> a.at <= now && SaysItsGap(a))
    && (forall a :: a in past && Counts(a, now, interval) ==> HeldBy(list, a))
  }

  ghost predicate HeldBy(list: seq<Remembered>, a: Attempt) {
    exists r :: r in list && r.start <= a.gap.startSeq && End(a.gap) <= r.end && a.at <= r.at
  }

  /** An attempt asks for a sequence that no counted attempt before it asked for. */
  ghost predicate News(a: Attempt, past: seq<Attempt>, interval: nat) {
    exists q :: AsksFor(a, q) && forall b :: b in past && Counts(b, a.at, interval) ==> !AsksFor(b, q)
  }

  /** Attempt number `n` of `all` is news against those before it. */
  ghost predicate AllNews(all: seq<Attempt>, interval: nat) {
    forall n :: 0 <= n < |all| ==> News(all[n], all[..n], interval)
  }

  lemma TriedIsNews(list: seq<Remembered>, past: seq<Attempt>, a: Attempt, interval: nat)
    requires Remembering(list, past, a.at, interval) && a.gap.count > 0 && !Covers(list, a.gap) && SaysItsGap(a)
    ensures News(a, past, interval)
  {
    var q := Uncovered(list, a.gap);
    AsksForItsGap(a, q);
    forall b | b in past && Counts(b, a.at, interval) ensures !AsksFor(b, q) {
      AsksForItsGap(b, q);
      var r :| r in list && r.start <= b.gap.startSeq && End(b.gap) <= r.end && b.at <= r.at;
      var i :| 0 <= i < |list| && list[i] == r;
    }
    assert AsksFor(a, q);
  }

  lemma MarkRemembers(list: seq<Remembered>, past: seq<Attempt>, a: Attempt, interval: nat)
    requires Remembering(list, past, a.at, interval) && a.gap.count > 0 && SaysItsGap(a)
    ensures Remembering(Mark(list, a.gap.startSeq, End(a.gap), a.at), past + [a], a.at, interval)
  {
    var out := Mark(list, a.gap.startSeq, End(a.gap), a.at);
    MarkSeparates(list, a.gap.startSeq, End(a.gap), a.at);
    AbsorbAccounts(list, a.gap.startSeq, End(a.gap));
    var last := out[|out| - 1];
    assert last in out;
    forall b | b in past + [a] && Counts(b, a.at, interval) ensures HeldBy(out, b) {
      if b in past {
        var r :| r in list && r.start <= b.gap.startSeq && End(b.gap) <= r.end && b.at <= r.at;
        assert r in out || (last.start <= r.start && r.end <= last.end);
      }
    }
  }

  lemma RecentRemembers(list: seq<Remembered>, past: seq<Attempt>, was: nat, now: nat, interval: nat)
    requires Remembering(list, past, was, interval) && was <= now
    ensures Remembering(Recent(list, now, interval), past, now, interval)
  {
    RecentKeeps(list, now, interval);
    var recent := Recent(list, now, interval);
    forall a | a in past && Counts(a, now, interval) ensures HeldBy(recent, a) {
      assert Counts(a, was, interval);
      var r :| r in list && r.start <= a.gap.startSeq && End(a.gap) <= r.end && a.at <= r.at;
      assert r in recent;
    }
  }

  lemma NewsAppend(past: seq<Attempt>, a: Attempt, interval: nat)
    requires AllNews(past, interval) && News(a, past, interval)
    ensures AllNews(past + [a], interval)
  {
    var all := past + [a];
    forall n | 0 <= n < |all| ensures News(all[n], all[..n], interval) {
      if n < |past| {
        assert all[..n] == past[..n];
      } else {
        assert all[..n] == past;
      }
    }
  }

  ghost predicate Good(list: seq<Remembered>, past: seq<Attempt>, now: nat, interval: nat) {
    Remembering(list, past, now, interval) && AllNews(past, interval)
  }

  lemma TriedKeepsGood(list: seq<Remembered>, past: seq<Attempt>, a: Attempt, interval: nat)
    requires Good(list, past, a.at, interval) && a.gap.count > 0 && !Covers(list, a.gap) && SaysItsGap(a)
    ensures a.outcome == WouldBlock ==> Good(list, past + [a], a.at, interval)
    ensures Good(Mark(list, a.gap.startSeq, End(a.gap), a.at), past + [a], a.at, interval)
  {
    hide SaysItsGap;
    hide News;
    hide Mark;
    TriedIsNews(list, past, a, interval);
    NewsAppend(past, a, interval);
    hide AllNews;
    hide Separated;
    MarkRemembers(list, past, a, interval);
    assert a.outcome == WouldBlock ==> !Counts(a, a.at, interval);
  }

  lemma {:induction false} EmitIsNews(list: seq<Remembered>, past: seq<Attempt>, c: Call, i: nat, k: nat, sent: nat,
                                      interval: nat)
    requires i <= |c.gaps| && Packable(c) && Good(list, past, c.now, interval)
    ensures var e := Emit(list, c, i, k, sent);
            Good(e.requested, past + e.attempts, c.now, interval)
    decreases |c.gaps| - i
  {
    hide Good;
    hide Mark;
    hide Covers;
    if i == |c.gaps| {
      assert past + [] == past;
    } else if Covers(list, c.gaps[i]) {
      EmitIsNews(list, past, c, i + 1, k, sent, interval);
    } else {
      var gap := c.gaps[i];
      var a := Tried(c, gap, c.net(k));
      TriedReadsBack(c, gap, c.net(k));
      TriedKeepsGood(list, past, a, interval);
      if c.net(k) == Sent {
        var list' := Mark(list, gap.startSeq, End(gap), c.now);
        EmitIsNews(list', past + [a], c, i + 1, k + 1, sent + 1, interval);
        var rest := Emit(list', c, i + 1, k + 1, sent + 1);
        assert past + ([a] + rest.attempts) == (past + [a]) + rest.attempts;
      }
    }
  }

  /** The clock never runs back, no gap is empty, and all fits a request packet. */
  ghost predicate Steady(calls: seq<Call>) {
    && (forall i, j :: 0 <= i < j < |calls| ==> calls[i].now <= calls[j].now)
    && (forall i :: 0 <= i < |calls| ==> Packable(calls[i]))
  }

  /** Over every run: each packet tried asks, as the server reads it, for a sequence that no
      packet sent or failed within the last interval asked for. */
  lemma {:induction false} EveryAttemptIsNews(calls: seq<Call>, interval: nat)
    requires Steady(calls)
    ensures AllNews(History(calls, interval).1, interval)
    ensures calls != [] ==>
              Remembering(History(calls, interval).0, History(calls, interval).1, calls[|calls| - 1].now, interval)
  {
    if calls != [] {
      var (init, c) := (calls[..|calls| - 1], calls[|calls| - 1]);
      EveryAttemptIsNews(init, interval);
      var (list, past) := History(init, interval);
      var was := if init == [] then 0 else init[|init| - 1].now;
      RecentRemembers(list, past, was, c.now, interval);
      EmitIsNews(Recent(list, c.now, interval), past, c, 0, 0, 0, interval);
    }
  }

  /** An attempt made by a call. */
  ghost predicate MadeBy(a: Attempt, c: Call) {
    a.gap in c.gaps && a.at == c.now && Reads(a, c.session, a.gap)
  }

  lemma {:induction false} EmitReadsBack(list: seq<Remembered>, c: Call, i: nat, k: nat, sent: nat, a: Attempt)
    requires i <= |c.gaps| && Packable(c) && a in Emit(list, c, i, k, sent).attempts
    ensures MadeBy(a, c)
    decreases |c.gaps| - i
  {
    hide Mark;
    hide Covers;
    hide Reads;
    var gap := c.gaps[i];
    TriedReadsBack(c, gap, c.net(k));
    if Covers(list, gap) {
      EmitReadsBack(list, c, i + 1, k, sent, a);
    } else if a != Tried(c, gap, c.net(k)) {
      EmitReadsBack(Mark(list, gap.startSeq, End(gap), c.now), c, i + 1, k + 1, sent + 1, a);
    }
  }

  /** Over every run the server reads in each packet the session and a gap of the call that
      made it. */
  lemma {:induction false} EveryPacketReadsBack(calls: seq<Call>, interval: nat, a: Attempt)
    requires Steady(calls) && a in History(calls, interval).1
    ensures exists i :: 0 <= i < |calls| && MadeBy(a, calls[i])
    decreases |calls|
  {
    hide MadeBy;
    hide Emit;
    hide Packable;
    var (init, c) := (calls[..|calls| - 1], calls[|calls| - 1]);
    var (list, before) := History(init, interval);
    if a in before {
      EveryPacketReadsBack(init, interval, a);
      var i :| 0 <= i < |init| && MadeBy(a, init[i]);
      assert MadeBy(a, calls[i]);
    } else {
      EmitReadsBack(Recent(list, c.now, interval), c, 0, 0, 0, a);
      assert MadeBy(a, calls[|calls| - 1]);
    }
  }

  // ---------------------------------------------------------- limits and results

  /** The interval is the longest whole time that fits the cap into a second. */
  lemma IntervalIsLongest(maxPerSec: nat)
    requires maxPerSec > 0
    ensures Interval(maxPerSec) * maxPerSec <= SECOND < (Interval(maxPerSec) + 1) * maxPerSec
  {
  }

  /** A gap tried again, whole or in part, waits out the interval since it was sent or failed. */
  lemma RepeatWaitsOut(calls: seq<Call>, interval: nat, n: nat, m: nat)
    requires Steady(calls) && n < m < |History(calls, interval).1|
    ensures var all := History(calls, interval).1;
            all[n].outcome != WouldBlock && (forall q :: AsksFor(all[m], q) ==> AsksFor(all[n], q)) ==>
              all[m].at >= all[n].at + interval
  {
    hide History;
    hide AsksFor;
    EveryAttemptIsNews(calls, interval);
    var all := History(calls, interval).1;
    assert News(all[m], all[..m], interval);
    var q :| AsksFor(all[m], q) && forall b :: b in all[..m] && Counts(b, all[m].at, interval) ==> !AsksFor(b, q);
    assert all[..m][n] == all[n];
    TimesInOrder(calls, interval, n, m);
  }

  lemma {:induction false} TimesInOrder(calls: seq<Call>, interval: nat, n: nat, m: nat)
    requires Steady(calls) && n < m < |History(calls, interval).1|
    ensures History(calls, interval).1[n].at <= History(calls, interval).1[m].at
    decreases |calls|
  {
    hide Emit;
    hide Packable;
    var (init, c) := (calls[..|calls| - 1], calls[|calls| - 1]);
    var (list, before) := History(init, interval);
    var recent := Recent(list, c.now, interval);
    var round := Emit(recent, c, 0, 0, 0).attempts;
    var all := before + round;
    EveryAttemptIsNews(calls, interval);
    if m < |before| {
      TimesInOrder(init, interval, n, m);
    } else {
      assert all[m] in round;
      EmitReadsBack(recent, c, 0, 0, 0, all[m]);
      assert all[n] in History(calls, interval).1;
    }
  }

  /** Packets that went out. */
  function CountSent(attempts: seq<Attempt>): nat {
    if attempts == [] then 0 else (if attempts[0].outcome == Sent then 1 else 0) + CountSent(attempts[1..])
  }

  /** Packets go out one by one until the socket is full or fails. */
  ghost predicate OneByOne(attempts: seq<Attempt>, net: nat -> Send, k: nat) {
    && (forall j :: 0 <= j < |attempts| ==> attempts[j].outcome == net(k + j))
    && (forall j :: 0 <= j < |attempts| - 1 ==> attempts[j].outcome == Sent)
  }

  lemma OneByOneCons(a: Attempt, rest: seq<Attempt>, net: nat -> Send, k: nat)
    requires OneByOne(rest, net, k + 1) && a.outcome == net(k) == Sent
    ensures OneByOne([a] + rest, net, k) && CountSent([a] + rest) == 1 + CountSent(rest)
  {
    var all := [a] + rest;
    assert all[1..] == rest;
    forall j | 0 <= j < |all| ensures all[j].outcome == net(k + j) {
      if j > 0 {
        assert all[j] == rest[j - 1] && k + j == (k + 1) + (j - 1);
      }
    }
    forall j | 0 <= j < |all| - 1 ensures all[j].outcome == Sent {
      if j > 0 {
        assert all[j] == rest[j - 1];
      }
    }
  }

  lemma NoTry(net: nat -> Send, k: nat)
    ensures OneByOne([], net, k) && CountSent([]) == 0
  {
  }

  lemma OneTry(a: Attempt, net: nat -> Send, k: nat)
    requires a.outcome == net(k)
    ensures OneByOne([a], net, k) && CountSent([a]) == if a.outcome == Sent then 1 else 0
  {
  }

  /** The result of a round, told by its attempts: the last one shows whether the socket was
      full or failed, and the number returned is that of the packets sent. */
  lemma {:induction false} RoundTells(list: seq<Remembered>, c: Call, i: nat, k: nat, sent: nat)
    requires i <= |c.gaps|
    ensures var e := Emit(list, c, i, k, sent);
            && OneByOne(e.attempts, c.net, k)
            && e.sent == if e.attempts != [] && e.attempts[|e.attempts| - 1].outcome == Failed then Err(Failed)
                         else Ok(sent + CountSent(e.attempts))
    decreases |c.gaps| - i
  {
    hide Mark;
    hide Covers;
    hide OneByOne;
    hide CountSent;
    if i == |c.gaps| {
      NoTry(c.net, k);
    } else if Covers(list, c.gaps[i]) {
      RoundTells(list, c, i + 1, k, sent);
    } else {
      var (gap, a) := (c.gaps[i], Tried(c, c.gaps[i], c.net(k)));
      OneTry(a, c.net, k);
      if c.net(k) == Sent {
        var marked := Mark(list, gap.startSeq, End(gap), c.now);
        RoundTells(marked, c, i + 1, k + 1, sent + 1);
        var rest := Emit(marked, c, i + 1, k + 1, sent + 1).attempts;
        OneByOneCons(a, rest, c.net, k);
        assert rest != [] ==> ([a] + rest)[|rest|] == rest[|rest| - 1];
      }
    }
  }

  /** After a round remembered are the ranges remembered before it and those of every attempt
      but one the full socket did not take. */
  lemma {:induction false} RoundMarks(list: seq<Remembered>, c: Call, i: nat, k: nat, sent: nat, q: nat)
    requires i <= |c.gaps| && forall g :: g in c.gaps ==> g.count > 0
    ensures var e := Emit(list, c, i, k, sent);
            Remembers(e.requested, q) <==> Remembers(list, q) || Marks(e.attempts, q)
    decreases |c.gaps| - i
  {
    hide Mark;
    hide Covers;
    hide Remembers;
    hide Marks;
    if i == |c.gaps| {
      MarksNothing(q);
    } else if Covers(list, c.gaps[i]) {
      RoundMarks(list, c, i + 1, k, sent, q);
    } else {
      var (gap, a) := (c.gaps[i], Tried(c, c.gaps[i], c.net(k)));
      var marked := Mark(list, gap.startSeq, End(gap), c.now);
      MarkIsExact(list, gap.startSeq, End(gap), c.now, q);
      MarksOne(a, q);
      if c.net(k) == Sent {
        RoundMarks(marked, c, i + 1, k + 1, sent + 1, q);
        MarksFirst(a, Emit(marked, c, i + 1, k + 1, sent + 1).attempts, q);
      }
    }
  }

  /** An attempt the socket did not put off asks for `q`. */
  ghost predicate Marks(attempts: seq<Attempt>, q: nat) {
    exists j :: 0 <= j < |attempts| && attempts[j].outcome != WouldBlock
                && attempts[j].gap.startSeq <= q < End(attempts[j].gap)
  }

  lemma MarksNothing(q: nat)
    ensures !Marks([], q)
  {
  }

  lemma MarksOne(a: Attempt, q: nat)
    ensures Marks([a], q) <==> a.outcome != WouldBlock && a.gap.startSeq <= q < End(a.gap)
  {
    assert [a][0] == a;
  }

  lemma MarksFirst(a: Attempt, rest: seq<Attempt>, q: nat)
    ensures Marks([a] + rest, q) <==> Marks([a], q) || Marks(rest, q)
  {
    var all := [a] + rest;
    MarksOne(a, q);
    assert all[0] == a;
    if Marks(rest, q) {
      var j :| 0 <= j < |rest| && rest[j].outcome != WouldBlock && rest[j].gap.startSeq <= q < End(rest[j].gap);
      assert all[j + 1] == rest[j];
    }
    if Marks(all, q) {
      var j :| 0 <= j < |all| && all[j].outcome != WouldBlock && all[j].gap.startSeq <= q < End(all[j].gap);
      assert j > 0 ==> all[j] == rest[j - 1];
    }
  }

  /** Marking remembers the range and what was remembered, and nothing else. */
  lemma MarkIsExact(list: seq<Remembered>, start: nat, end: nat, now: nat, q: nat)
    requires start < end
    ensures Remembers(Mark(list, start, end, now), q) <==> Remembers(list, q) || start <= q < end
  {
    var (kept, s, e) := Absorb(list, start, end);
    AbsorbCovers(list, start, end, q);
    RemembersLast(kept, Remembered(s, e, now), q);
  }

  lemma RemembersLast(kept: seq<Remembered>, r: Remembered, q: nat)
    ensures Remembers(kept + [r], q) <==> Remembers(kept, q) || r.start <= q < r.end
  {
    var all := kept + [r];
    if Remembers(kept, q) {
      var j :| 0 <= j < |kept| && kept[j].start <= q < kept[j].end;
      assert all[j] == kept[j];
    }
    if r.start <= q < r.end {
      assert all[|kept|] == r;
    }
    if Remembers(all, q) {
      var j :| 0 <= j < |all| && all[j].start <= q < all[j].end;
      assert j < |kept| ==> all[j] == kept[j];
    }
  }

  // ------------------------------------------------------------------ emitter

  class GapRequestEmitter {
    var requested: seq<Remembered>
    const maxPerGapPerSec: nat

    constructor (maxPerGapPerSec: nat)
      ensures requested == [] && this.maxPerGapPerSec == if maxPerGapPerSec == 0 then 1 else maxPerGapPerSec
    {
      requested := [];
      this.maxPerGapPerSec := if maxPerGapPerSec == 0 then 1 else maxPerGapPerSec;
    }

    method MarkRequested(start0: nat, end0: nat, now: nat)
      modifies this
      ensures requested == Mark(old(requested), start0, end0, now)
    {
      var start: nat, end: nat := start0, end0;
      var kept := [];
      assert requested[0..] == requested;
      assert [] + Absorb(requested, start, end).0 == Absorb(requested, start, end).0;
      for i := 0 to |requested|
        invariant requested == old(requested)
        invariant var rest := Absorb(requested[i..], start, end);
                  Absorb(old(requested), start0, end0) == (kept + rest.0, rest.1, rest.2)
      {
        var r := requested[i];
        assert requested[i..] == [r] + requested[i + 1..];
        if r.start > end || start > r.end {
          assert kept + ([r] + Absorb(requested[i + 1..], start, end).0)
              == (kept + [r]) + Absorb(requested[i + 1..], start, end).0;
          kept := kept + [r];
        } else {
          start := if r.start < start then r.start else start;
          end := Max(end, r.end);
        }
      }
      assert requested[|requested|..] == [] && kept + [] == kept;
      requested := kept + [Remembered(start, end, now)];
    }

    /** Drops ranges no interval of `now` reaches. */
    method Prune(now: nat, interval: nat)
      modifies this
      ensures requested == Recent(old(requested), now, interval)
    {
      var kept := [];
      for i := 0 to |requested|
        invariant requested == old(requested)
        invariant Recent(old(requested), now, interval) == kept + Recent(requested[i..], now, interval)
      {
        var r := requested[i];
        assert requested[i..] == [r] + requested[i + 1..];
        if Elapsed(now, r.at) < interval {
          kept := kept + [r];
        }
      }
      assert requested[|requested|..] == [];
      requested := kept;
    }

    /** `net(k)` is what the socket does with the round's packet number `k`. */
    method EmitGaps(c: Call) returns (sent: Result<nat, Send>, attempts: seq<Attempt>)
      requires maxPerGapPerSec > 0
      modifies this
      ensures Emission(requested, attempts, sent) == EmitRound(old(requested), c, Interval(maxPerGapPerSec))
    {
      var interval := SECOND / maxPerGapPerSec;
      Prune(c.now, interval);
      ghost var round := EmitRound(old(requested), c, interval);
      attempts := [];
      var count := 0;
      JoinedNone(round);
      for i := 0 to |c.gaps|
        invariant round == Joined(attempts, Emit(requested, c, i, count, count))
      {
        EmitUnfolds(requested, c, i, count, attempts);
        hide Emit;
        hide Mark;
        hide Joined;
        hide EmitRound;
        var gap := c.gaps[i];
        if Covers(requested, gap) {
          continue;
        }
        var outcome := c.net(count);
        attempts := attempts + [Tried(c, gap, outcome)];
        if outcome == WouldBlock {
          return Ok(count), attempts;
        }
        MarkRequested(gap.startSeq, End(gap), c.now);
        if outcome == Failed {
          return Err(outcome), attempts;
        }
        count := count + 1;
      }
      assert attempts + [] == attempts;
      return Ok(count), attempts;
    }
  }

  /** A round that already made the attempts `done`. */
  function Joined(done: seq<Attempt>, e: Emission): Emission {
    e.(attempts := done + e.attempts)
  }

  lemma JoinedNone(e: Emission)
    ensures Joined([], e) == e
  {
    assert [] + e.attempts == e.attempts;
  }

  /** What the next gap adds to a round that made the attempts `done`. */
  lemma EmitUnfolds(list: seq<Remembered>, c: Call, i: nat, k: nat, done: seq<Attempt>)
    requires i < |c.gaps|
    ensures var gap := c.gaps[i];
            var tried := Tried(c, gap, c.net(k));
            var marked := Mark(list, gap.startSeq, End(gap), c.now);
            Joined(done, Emit(list, c, i, k, k)) ==
              if Covers(list, gap) then Joined(done, Emit(list, c, i + 1, k, k))
              else match c.net(k)
                   case WouldBlock => Emission(list, done + [tried], Ok(k))
                   case Failed => Emission(marked, done + [tried], Err(Failed))
                   case Sent => Joined(done + [tried], Emit(marked, c, i + 1, k + 1, k + 1))
  {
    hide Mark;
    var gap := c.gaps[i];
    if !Covers(list, gap) && c.net(k) == Sent {
      var rest := Emit(Mark(list, gap.startSeq, End(gap), c.now), c, i + 1, k + 1, k + 1);
      var tried := Tried(c, gap, c.net(k));
      assert done + ([tried] + rest.attempts) == (done + [tried]) + rest.attempts;
    }
  }
}
