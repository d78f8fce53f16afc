/** Gap recovery: the ranges the tracker reports missing, sent through the rate-limited
    emitter at every poll. */
module Recovery {
  import opened Octets
  import opened GapTracking
  import opened GapEmitter

  /** A sequence remembered, or asked for by one of the gaps still to try. */
  ghost predicate Due(list: seq<Remembered>, c: Call, i: nat, q: nat)
  {
    Remembers(list, q) || exists j :: i <= j < |c.gaps| && c.gaps[j].startSeq <= q < End(c.gaps[j])
  }

  ghost predicate Unblocked(e: Emission)
  {
    e.sent.Ok? && forall a :: a in e.attempts ==> a.outcome == Sent
  }

  /** A round in which every send went out leaves every gap remembered as requested. */
  lemma {:induction false} RoundIsComplete(list: seq<Remembered>, c: Call, i: nat, k: nat, sent: nat, q: nat)
    requires i <= |c.gaps| && (forall g :: g in c.gaps ==> g.count > 0)
    requires Unblocked(Emit(list, c, i, k, sent)) && Due(list, c, i, q)
    ensures Remembers(Emit(list, c, i, k, sent).requested, q)
    decreases |c.gaps| - i
  {
    hide Mark;
    if i < |c.gaps| {
      var gap := c.gaps[i];
      if Covers(list, gap) {
        if gap.startSeq <= q < End(gap) {
          var r :| r in list && r.start <= gap.startSeq && End(gap) <= r.end;
          var j :| 0 <= j < |list| && list[j] == r;
          assert list[j].start <= q < list[j].end;
        }
        RoundIsComplete(list, c, i + 1, k, sent, q);
      } else {
        var tried := Tried(c, gap, c.net(k));
        assert tried in Emit(list, c, i, k, sent).attempts;
        var marked := Mark(list, gap.startSeq, End(gap), c.now);
        if Remembers(list, q) || gap.startSeq <= q < End(gap) {
          MarkIsExact(list, gap.startSeq, End(gap), c.now, q);
        }
        var rest := Emit(marked, c, i + 1, k + 1, sent + 1);
        assert forall a :: a in rest.attempts ==> a in Emit(list, c, i, k, sent).attempts;
        RoundIsComplete(marked, c, i + 1, k + 1, sent + 1, q);
      }
    }
  }

  class Requester {
    const emitter: GapRequestEmitter
    // every round so far and every packet tried
    ghost var rounds: seq<Call>
    ghost var attempts: seq<Attempt>

    ghost function Interval(): nat
      requires emitter.maxPerGapPerSec > 0
    {
      GapEmitter.Interval(emitter.maxPerGapPerSec)
    }

    ghost predicate Valid()
      reads this, emitter
    {
      && emitter.maxPerGapPerSec > 0
      && Steady(rounds)
      && History(rounds, Interval()) == (emitter.requested, attempts)
    }

    constructor (maxPerGapPerSec: nat)
      ensures Valid() && rounds == [] && attempts == [] && fresh(emitter)
    {
      emitter := new GapRequestEmitter(maxPerGapPerSec);
      rounds, attempts := [], [];
    }

    /** Asks, in packets as the server reads them, for what is missing now and for nothing
        else; over the whole run each packet asks for a sequence that no packet of the last
        interval asked for; when every send went out, every missing sequence is remembered as
        requested; and the number returned is that of the packets sent. */
    method SendDue(handler: GapRequestHandler, session: Octets, net: nat -> Send, now: nat)
      returns (sent: Result<nat, Send>)
      requires Valid() && handler.Valid()
      requires rounds != [] ==> rounds[|rounds| - 1].now <= now
      requires |session| == 10 && forall q :: q in handler.State() ==> q < Pow256(8)
      modifies this`rounds, this`attempts, emitter
      ensures Valid() && rounds != [] && rounds[|rounds| - 1].now == now
      ensures old(attempts) <= attempts && AllNews(attempts, Interval())
      ensures forall a :: a in attempts[|old(attempts)|..] ==> a.at == now && Reads(a, session, a.gap)
      ensures forall a, q :: a in attempts[|old(attempts)|..] && AsksFor(a, q) ==> q in handler.State()
      ensures sent.Ok? ==> sent.value == CountSent(attempts[|old(attempts)|..])
      ensures sent.Ok? && (forall a :: a in attempts[|old(attempts)|..] ==> a.outcome == Sent) ==>
              forall q :: q in handler.State() ==> Remembers(emitter.requested, q)
    {
      hide Emit;
      hide History;
      hide Steady;
      hide AllNews;
      hide Remembers;
      hide AsksFor;
      hide Reads;
      hide Packable;
      var due := handler.PendingGaps();
      ghost var missing := handler.State();
      ghost var list := emitter.requested;
      var c := Call(due, session, net, now);
      DueIsPackable(c, missing);
      var tried;
      sent, tried := emitter.EmitGaps(c);
      ghost var recent := Recent(list, now, Interval());
      RunGrows(rounds, c, Interval());
      ghost var e := EmitRound(list, c, Interval());
      rounds, attempts := rounds + [c], attempts + tried;
      assert attempts[|old(attempts)|..] == tried;
      EveryAttemptIsNews(rounds, Interval());
      forall a | a in tried ensures MadeBy(a, c) {
        EmitReadsBack(recent, c, 0, 0, 0, a);
      }
      forall a, q | a in tried && AsksFor(a, q) ensures q in missing {
        AskedIsMissing(due, missing, a, session, q);
      }
      RoundTells(recent, c, 0, 0, 0);
      if Unblocked(e) {
        forall q | q in missing ensures Remembers(emitter.requested, q) {
          MissingIsDue(recent, c, missing, q);
          RoundIsComplete(recent, c, 0, 0, 0, q);
        }
      }
    }
  }

  lemma AskedIsMissing(due: seq<GapRequest>, missing: iset<nat>, a: Attempt, session: Octets, q: nat)
    requires Lists(due, missing) && a.gap in due && Reads(a, session, a.gap) && AsksFor(a, q)
    ensures q in missing
  {
    var i :| 0 <= i < |due| && due[i] == a.gap;
    assert AskedFor(due, q);
  }

  /** Gaps of 64-bit sequences, cut to 16-bit counts, fit a request packet. */
  lemma DueIsPackable(c: Call, missing: iset<nat>)
    requires Lists(c.gaps, missing) && |c.session| == 10 && forall q :: q in missing ==> q < Pow256(8)
    requires forall g :: g in c.gaps ==> 0 < g.count <= 0xFFFF
    ensures Packable(c)
  {
    Widths();
    forall g | g in c.gaps ensures Fitting(c.session, g) {
      var i :| 0 <= i < |c.gaps| && c.gaps[i] == g;
      assert AskedFor(c.gaps, g.startSeq);
    }
  }

  lemma MissingIsDue(list: seq<Remembered>, c: Call, missing: iset<nat>, q: nat)
    requires Lists(c.gaps, missing) && q in missing
    ensures Due(list, c, 0, q)
  {
    assert AskedFor(c.gaps, q);
  }

  lemma RunGrows(rounds: seq<Call>, c: Call, interval: nat)
    requires Steady(rounds) && (rounds != [] ==> rounds[|rounds| - 1].now <= c.now)
    requires Packable(c)
    ensures Steady(rounds + [c])
    ensures var (list, before) := History(rounds, interval);
            var e := EmitRound(list, c, interval);
            History(rounds + [c], interval) == (e.requested, before + e.attempts)
  {
    hide Emit;
    assert (rounds + [c])[..|rounds|] == rounds;
  }
}
