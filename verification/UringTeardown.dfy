/** Teardown of the io_uring engine: receive memory outlives every request. */
module UringTeardown {
  import opened Octets
  import opened Slots
  import opened SlotPool
  import opened ProvideRuns
  import opened Uring
  import opened UringSound

  lemma SlotOfOwner(cqe: Cqe, slotSize: nat, multishot: bool)
    ensures multiset(SlotOf(cqe, slotSize, multishot)) == Owner(cqe, slotSize, multishot)
  {
    hide Classify;
  }

  lemma DiscardSound(u: Uring)
    requires Sound(u) && u.cq != []
    ensures Sound(Discard(u))
  {
    hide All;
    hide Sum;
    hide InQueue;
    hide Ended;
    hide InProvides;
    hide Requests;
    hide Given;
    hide Owner;
    hide SlotOf;
    hide Classify;
    var (v, own) := (Discard(u), Owner(u.cq[0], u.slotSize, u.IsMultishot()));
    SlotOfOwner(u.cq[0], u.slotSize, u.IsMultishot());
    assert Places(v) == Places(u)[QUEUE := Places(v)[QUEUE]][LOST := Places(u)[LOST] + own];
    ReadPlaces(u, v, LOST);
    QueueHead(u.cq, u.slotSize, u.IsMultishot());
  }

  lemma {:induction false} DiscardedSound(u: Uring)
    requires Sound(u)
    ensures Sound(Discarded(u))
    decreases |u.cq|
  {
    hide All;
    hide Sum;
    hide InQueue;
    hide Ended;
    hide InProvides;
    hide Requests;
    hide Given;
    hide Sound;
    hide Classify;
    hide SlotOf;
    if u.cq != [] {
      DiscardSound(u);
      DiscardedSound(Discard(u));
    }
  }

  /** A cancellation is no request and holds no slot. */
  lemma PushCancelSound(u: Uring)
    requires Sound(u)
    ensures var (v, err) := Push(u, Cancel); Sound(v) && v.armed == u.armed
  {
    hide Sound;
    hide EnterKernel;
    SoundIsSized(u);
    EnterSound(u);
    EnterKeepsLists(u);
    var w := if |u.sq| < u.capacity then u else EnterKernel(u).0;
    if |w.sq| < w.capacity {
      QueuedCancelSound(w);
    }
  }

  lemma QueuedCancelSound(u: Uring)
    requires Sound(u) && |u.sq| < u.capacity
    ensures Sound(u.(sq := u.sq + [Cancel]))
  {
    hide All;
    hide Sum;
    hide InQueue;
    hide Ended;
    hide InProvides;
    hide Requests;
    hide Given;
    EntriesSnoc(u.sq, Cancel);
    var v := u.(sq := u.sq + [Cancel]);
    assert InProvides(u.sq) + multiset{} == InProvides(u.sq);
    assert Places(v) == Places(u);
  }

  /** Receive memory is freed exactly when no request is outstanding: none queued, none in
      the kernel and none whose end is unread. */
  lemma {:induction false} FreedOnlyWhenQuiet(u: Uring)
    requires Sound(u)
    ensures var (v, quiet) := Cancelled(u);
            && Sound(v)
            && (quiet <==> v.inflight == 0 && Requests(v.sq) == 0 && Ended(v.cq, v.slotSize, v.IsMultishot()) == 0)
    decreases |u.enters|
  {
    hide All;
    hide Sum;
    hide InQueue;
    hide Ended;
    hide InProvides;
    hide Requests;
    hide Given;
    hide Sound;
    hide Push;
    hide EnterKernel;
    hide Others;
    hide Discarded;
    ArmedIsOutstanding(u);
    if u.armed > 0 && u.enters != [] {
      var (pushed, err) := Push(u, Cancel);
      PushKeepsEnters(u, Cancel);
      PushCancelSound(u);
      ArmedIsOutstanding(pushed);
      if err.None? {
        var (entered, ok) := EnterKernel(pushed);
        EnterSound(pushed);
        EnterKeepsLists(pushed);
        ArmedIsOutstanding(entered);
        if ok && !NextEnter(pushed).Busy? {
          OthersYield(entered);
          OthersSound(entered);
          DiscardedSound(Others(entered));
          FreedOnlyWhenQuiet(Discarded(Others(entered)));
        }
      }
    }
  }

  lemma ArmedIsOutstanding(u: Uring)
    requires Sound(u)
    ensures u.armed == 0 <==> u.inflight == 0 && Requests(u.sq) == 0 && Ended(u.cq, u.slotSize, u.IsMultishot()) == 0
  {
  }

  /** Every entry into the kernel takes something. */
  predicate Willing(enters: seq<Enter>)
  {
    forall i :: 0 <= i < |enters| ==> enters[i].Took? && enters[i].n > 0
  }

  lemma WillingPush(u: Uring)
    requires Sized(u) && Willing(u.enters)
    ensures var (v, err) := Push(u, Cancel);
            && err.None? && Willing(v.enters) && v.sq != [] && Sized(v)
            && NextEnter(v).Took? && EnterKernel(v).1 && Willing(EnterKernel(v).0.enters)
  {
    EnterTakesOne(u);
    EnterKeepsLists(u);
    if |u.sq| == u.capacity {
      var w := u.(enters := if u.enters == [] then [] else u.enters[1..]);
      SubmitKeepsLists(w, Min(NextEnter(u).n, |w.sq|));
    }
    hide Submit;
    var v := Push(u, Cancel).0;
    EnterTakesOne(v);
  }

  /** While the kernel takes what it is given, cancelling gives up only at the deadline. */
  lemma {:induction false} GivesUpOnlyAtDeadline(u: Uring)
    requires Sound(u) && Willing(u.enters)
    ensures var (v, quiet) := Cancelled(u); quiet || v.enters == []
    decreases |u.enters|
  {
    hide All;
    hide Sum;
    hide InQueue;
    hide Ended;
    hide InProvides;
    hide Requests;
    hide Given;
    SoundIsSized(u);
    hide Sound;
    hide Push;
    hide EnterKernel;
    hide Others;
    hide Discarded;
    hide Willing;
    if u.armed > 0 && u.enters != [] {
      var pushed := Push(u, Cancel).0;
      WillingPush(u);
      PushKeepsEnters(u, Cancel);
      PushCancelSound(u);
      var entered := EnterKernel(pushed).0;
      EnterSound(pushed);
      EnterKeepsLists(pushed);
      OthersYield(entered);
      OthersSound(entered);
      DiscardedSound(Others(entered));
      GivesUpOnlyAtDeadline(Discarded(Others(entered)));
    }
  }
}
