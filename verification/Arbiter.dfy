/** A/B arbitration: a circular bitmap over a sliding window drops sequences some
    stream already delivered, and holds back gaps for a grace period. */
module Arbiter {
  import opened Clock
  import opened Octets
  import opened GapTracking
  import Slots

  datatype Verdict = Forward | Duplicate | OutOfWindow

  /** What the arbiter stands for: every sequence it forwarded since it was last rebased,
      the time each gap candidate was staged, and all its Forward verdicts in order. Times
      are nanoseconds. */
  datatype Arb =
    Arb(capacity: nat, base: nat, forwarded: iset<nat>, pending: map<nat, nat>, grace: nat, log: seq<nat>)

  ghost predicate InWindow(a: Arb, q: nat) {
    a.base <= q < a.base + a.capacity
  }

  /** Slides the base up to `target`; evicted sequences never forwarded become pending. */
  ghost function Evict(a: Arb, target: nat, now: nat): Arb {
    if target <= a.base then a
    else
      var staged := map p | a.base <= p < target && p !in a.forwarded && p !in a.pending :: now;
      a.(base := target, pending := a.pending + staged)
  }

  ghost function Observe(a: Arb, q: nat, now: nat): (Arb, Verdict)
    requires a.capacity > 0
  {
    if q < a.base then
      if q in a.pending then
        (a.(pending := a.pending - {q}, forwarded := a.forwarded + iset{q}, log := a.log + [q]), Forward)
      else (a, OutOfWindow)
    else
      var s := if q < a.base + a.capacity then a else Evict(a, q - a.capacity + 1, now);
      if q in s.forwarded then (s, Duplicate)
      else (s.(forwarded := s.forwarded + iset{q}, pending := s.pending - {q}, log := s.log + [q]), Forward)
  }

  /** Stages `[start, end)`; only sequences the window knows as delivered are skipped. */
  ghost function Stage(a: Arb, start: nat, end: nat, now: nat): Arb {
    var staged := map p | start <= p < end && p !in a.pending && !(InWindow(a, p) && p in a.forwarded) :: now;
    a.(pending := a.pending + staged)
  }

  ghost function Due(a: Arb, now: nat): set<nat> {
    set p | p in a.pending && Elapsed(now, a.pending[p]) >= a.grace
  }

  ghost function Confirm(a: Arb, now: nat): Arb {
    a.(pending := a.pending - Due(a, now))
  }

  // -------------------------------------------------------------------- laws

  /** Nothing forwarded is still a gap candidate, and the window covers the rest. */
  ghost predicate Sound(a: Arb) {
    && a.capacity > 0
    && (forall q :: q in a.forwarded ==> q < a.base + a.capacity)
    && (forall q :: q in a.forwarded ==> q !in a.pending)
  }

  /** A sequence is forwarded only if it never was before; a duplicate was. */
  lemma ObserveForwardsOnce(a: Arb, q: nat, now: nat)
    requires Sound(a)
    ensures var (b, v) := Observe(a, q, now);
            && Sound(b)
            && b.capacity == a.capacity && b.grace == a.grace && a.base <= b.base
            && (v == Forward ==> q !in a.forwarded && b.forwarded == a.forwarded + iset{q} && b.log == a.log + [q])
            && (v == Duplicate ==> q in a.forwarded && b.forwarded == a.forwarded && b.log == a.log)
            && (v == OutOfWindow ==> q < a.base && q !in a.pending && b == a)
  {
  }

  /** Staging keeps the arbiter sound exactly when the range holds no sequence that
      was forwarded and has since left the window. */
  lemma StageIsSoundIff(a: Arb, start: nat, end: nat, now: nat)
    requires Sound(a)
    ensures Sound(Stage(a, start, end, now)) <==>
            forall p :: start <= p < end && p in a.forwarded ==> a.base <= p
  {
    var b := Stage(a, start, end, now);
    forall p | start <= p < end && p in a.forwarded && p < a.base ensures !Sound(b) {
      assert p in b.pending && p in b.forwarded;
    }
  }

  /** Staging lets the arbiter forward a sequence a second time, at any later time,
      exactly when the range holds a forwarded sequence below the window. */
  lemma ForwardsAgainIff(a: Arb, start: nat, end: nat, now: nat, later: nat)
    requires Sound(a)
    ensures (exists q :: q in a.forwarded && Observe(Stage(a, start, end, now), q, later).1 == Forward) <==>
            (exists p :: start <= p < end && p in a.forwarded && p < a.base)
  {
    var b := Stage(a, start, end, now);
    forall p | start <= p < end && p in a.forwarded && p < a.base ensures Observe(b, p, later).1 == Forward {
      assert p in b.pending;
    }
    forall q | q in a.forwarded && Observe(b, q, later).1 == Forward ensures start <= q < end && q < a.base {
      assert q < a.base + a.capacity && q !in a.pending;
    }
  }

  /** Such a sequence, reached from an empty arbiter. */
  lemma StagedAgainIsForwardedTwice()
    ensures var a0 := Arb(1, 0, iset{}, map[], 5, []);
            var (a1, v1) := Observe(a0, 0, 10);
            var (a2, v2) := Observe(a1, 1, 10);
            var a3 := Stage(a2, 0, 1, 10);
            var (a4, v4) := Observe(a3, 0, 10);
            Sound(a0) && v1 == Forward && v2 == Forward && v4 == Forward
  {
    var a0 := Arb(1, 0, iset{}, map[], 5, []);
    var (a1, v1) := Observe(a0, 0, 10);
    var (a2, v2) := Observe(a1, 1, 10);
    assert 0 in a1.forwarded && 1 !in a1.forwarded;
    assert a2.base == 1 && 0 in a2.forwarded;
    var a3 := Stage(a2, 0, 1, 10);
    assert 0 in a3.pending;
  }

  /** A confirmed gap was pending for the whole grace period and never forwarded. */
  lemma ConfirmIsSound(a: Arb, now: nat)
    requires Sound(a)
    ensures Sound(Confirm(a, now))
    ensures forall p :: p in Due(a, now) ==> p !in a.forwarded && Elapsed(now, a.pending[p]) >= a.grace
  {
  }

  // --------------------------------------------------------------- whole runs

  datatype Op = Observed(q: nat, now: nat) | Staged(start: nat, end: nat, now: nat) | Confirmed(now: nat)

  ghost function Step(a: Arb, op: Op): Arb
    requires a.capacity > 0
  {
    match op
    case Observed(q, now) => Observe(a, q, now).0
    case Staged(start, end, now) => Stage(a, start, end, now)
    case Confirmed(now) => Confirm(a, now)
  }

  /** The state after the first `n` of `ops`. */
  ghost function After(a: Arb, ops: seq<Op>, n: nat): (r: Arb)
    requires a.capacity > 0 && n <= |ops|
    ensures r.capacity == a.capacity && r.grace == a.grace
  {
    if n == 0 then a else Step(After(a, ops, n - 1), ops[n - 1])
  }

  /** Staged ranges hold no sequence forwarded before: what the receiver guarantees. */
  ghost predicate StagesUnseen(a: Arb, ops: seq<Op>)
    requires a.capacity > 0
  {
    forall n :: 0 <= n < |ops| && ops[n].Staged? ==>
      forall p :: ops[n].start <= p < ops[n].end ==> p !in After(a, ops, n).forwarded
  }

  ghost predicate Forwards(a: Arb, ops: seq<Op>, n: nat)
    requires a.capacity > 0 && n < |ops|
  {
    ops[n].Observed? && Observe(After(a, ops, n), ops[n].q, ops[n].now).1 == Forward
  }

  lemma {:induction false} RunIsSound(a: Arb, ops: seq<Op>, n: nat)
    requires Sound(a) && StagesUnseen(a, ops) && n <= |ops|
    ensures Sound(After(a, ops, n))
  {
    if n > 0 {
      RunIsSound(a, ops, n - 1);
      var b := After(a, ops, n - 1);
      match ops[n - 1]
      case Observed(q, now) => ObserveForwardsOnce(b, q, now);
      case Staged(start, end, now) => StageIsSoundIff(b, start, end, now);
      case Confirmed(now) => ConfirmIsSound(b, now);
    }
  }

  /** Once forwarded, a sequence stays on record. */
  lemma {:induction false} ForwardedGrows(a: Arb, ops: seq<Op>, m: nat, n: nat)
    requires a.capacity > 0 && m <= n <= |ops|
    ensures After(a, ops, m).forwarded <= After(a, ops, n).forwarded
    ensures After(a, ops, m).base <= After(a, ops, n).base
    decreases n
  {
    if m < n {
      ForwardedGrows(a, ops, m, n - 1);
    }
  }

  /** A forwarded sequence is new, and on record afterwards. */
  lemma ForwardIsNew(a: Arb, ops: seq<Op>, n: nat)
    requires Sound(a) && StagesUnseen(a, ops) && n < |ops| && Forwards(a, ops, n)
    ensures ops[n].q !in After(a, ops, n).forwarded && ops[n].q in After(a, ops, n + 1).forwarded
  {
    RunIsSound(a, ops, n);
    ObserveForwardsOnce(After(a, ops, n), ops[n].q, ops[n].now);
    hide Observe;
  }

  /** Over every run no sequence is forwarded twice. */
  lemma NeverForwardedTwice(a: Arb, ops: seq<Op>, m: nat, n: nat)
    requires Sound(a) && StagesUnseen(a, ops) && m < n < |ops|
    requires Forwards(a, ops, m) && Forwards(a, ops, n)
    ensures ops[m].q != ops[n].q
  {
    ForwardIsNew(a, ops, m);
    ForwardIsNew(a, ops, n);
    ForwardedGrows(a, ops, m + 1, n);
    hide After;
    hide Forwards;
    hide Sound;
  }

  /** `p` was returned as a confirmed gap by one of the first `n` operations. */
  ghost predicate WasConfirmed(a: Arb, ops: seq<Op>, n: nat, p: nat)
    requires a.capacity > 0 && n <= |ops|
  {
    exists k :: 0 <= k < n && ops[k].Confirmed? && p in Due(After(a, ops, k), ops[k].now)
  }

  /** A step loses no account of `p`: it may only turn it into another. */
  lemma StepAccounts(a: Arb, op: Op, p: nat)
    requires a.capacity > 0
    ensures var b := Step(a, op);
            (a.base <= p < b.base) || p in a.forwarded || p in a.pending ==>
              p in b.forwarded || p in b.pending || (op.Confirmed? && p in Due(a, op.now))
  {
  }

  /** No sequence leaves the window unaccounted for. */
  lemma {:induction false} NothingLeavesUnaccounted(a: Arb, ops: seq<Op>, n: nat, p: nat)
    requires a.capacity > 0 && n <= |ops|
    requires a.base <= p < After(a, ops, n).base
    ensures var b := After(a, ops, n);
            p in b.forwarded || p in b.pending || WasConfirmed(a, ops, n, p)
  {
    if n > 0 {
      var b := After(a, ops, n - 1);
      StepAccounts(b, ops[n - 1], p);
      hide Step;
      if p < b.base {
        NothingLeavesUnaccounted(a, ops, n - 1, p);
      }
    }
  }

  /** A step keeps a candidate's start time, or starts it now. */
  lemma StepPending(a: Arb, op: Op, p: nat)
    requires a.capacity > 0 && p in Step(a, op).pending
    ensures Step(a, op).pending[p] == if p in a.pending then a.pending[p] else op.now
  {
  }

  /** `p` is a candidate staged at time `at` in each state after operation `i`, up to `n`. */
  ghost predicate PendingThrough(a: Arb, ops: seq<Op>, i: nat, n: nat, p: nat, at: nat)
    requires a.capacity > 0 && n <= |ops|
  {
    forall k :: i < k <= n ==> PendingAt(After(a, ops, k), p, at)
  }

  ghost predicate PendingAt(a: Arb, p: nat, at: nat) {
    p in a.pending && a.pending[p] == at
  }

  /** A candidate pending now has been pending, with the same start time, in every
      state since the operation that staged it at that time. */
  lemma {:induction false} PendingSince(a: Arb, ops: seq<Op>, n: nat, p: nat, at: nat) returns (i: nat)
    requires a.capacity > 0 && a.pending == map[] && n <= |ops|
    requires PendingAt(After(a, ops, n), p, at)
    ensures i < n && ops[i].now == at && PendingThrough(a, ops, i, n, p, at)
  {
    var b := After(a, ops, n - 1);
    StepPending(b, ops[n - 1], p);
    hide Step;
    if p in b.pending {
      i := PendingSince(a, ops, n - 1, p, at);
      ThroughExtends(a, ops, i, n, p, at);
    } else {
      i := n - 1;
    }
  }

  lemma ThroughExtends(a: Arb, ops: seq<Op>, i: nat, n: nat, p: nat, at: nat)
    requires a.capacity > 0 && i < n <= |ops|
    requires PendingThrough(a, ops, i, n - 1, p, at) && PendingAt(After(a, ops, n), p, at)
    ensures PendingThrough(a, ops, i, n, p, at)
  {
  }

  /** Over every run: a gap is confirmed only after it was pending, without a break,
      for the whole grace period, and no stream had delivered it. */
  lemma ConfirmedWaitedOutGrace(a: Arb, ops: seq<Op>, n: nat, p: nat) returns (i: nat)
    requires Sound(a) && a.pending == map[] && StagesUnseen(a, ops)
    requires n < |ops| && ops[n].Confirmed? && p in Due(After(a, ops, n), ops[n].now)
    ensures i < n && Elapsed(ops[n].now, ops[i].now) >= a.grace
    ensures forall k :: i < k <= n ==>
              p in After(a, ops, k).pending && p !in After(a, ops, k).forwarded
  {
    i := PendingSince(a, ops, n, p, After(a, ops, n).pending[p]);
    forall k | i < k <= n ensures p in After(a, ops, k).pending && p !in After(a, ops, k).forwarded {
      assert PendingAt(After(a, ops, k), p, ops[i].now);
      RunIsSound(a, ops, k);
    }
  }

  // ----------------------------------------------------------------- arbiter

  class AbArbiter {
    const bits: array<bool>
    var base: nat
    const grace: nat
    var pending: map<nat, nat>
    ghost var forwarded: iset<nat>
    ghost var log: seq<nat>

    ghost predicate Valid()
      reads this, bits
    {
      && bits.Length > 0
      && (forall q :: q in forwarded ==> q < base + bits.Length)
      && (forall q: nat :: base <= q < base + bits.Length ==> bits[q % bits.Length] == (q in forwarded))
    }

    ghost function State(): Arb
      reads this
    {
      Arb(bits.Length, base, forwarded, pending, grace, log)
    }

    constructor (capacity: nat, grace: nat)
      requires capacity > 0
      ensures Valid() && fresh(bits) && State() == Arb(capacity, 0, iset{}, map[], grace, [])
    {
      bits := new bool[capacity](_ => false);
      base := 0;
      this.grace := grace;
      pending := map[];
      forwarded, log := iset{}, [];
    }

    method Rebase(b: nat)
      requires Valid()
      modifies this, bits
      ensures Valid() && State() == old(State()).(base := b, forwarded := iset{}, pending := map[])
    {
      base := b;
      for i := 0 to bits.Length
        modifies bits
        invariant forall j :: 0 <= j < i ==> !bits[j]
      {
        bits[i] := false;
      }
      pending := map[];
      forwarded := iset{};
    }

    method StageOne(q: nat, now: nat)
      requires Valid()
      modifies this`pending
      ensures pending == if q in old(pending) || (InWindow(State(), q) && q in forwarded) then old(pending)
                         else old(pending)[q := now]
    {
      if q >= base && q < base + bits.Length {
        if bits[q % bits.Length] {
          return;
        }
      }
      if q !in pending {
        pending := pending[q := now];
      }
    }

    method NoteMissingRange(start: nat, end: nat, now: nat)
      requires Valid()
      modifies this`pending
      ensures Valid() && State() == Stage(old(State()), start, end, now)
    {
      hide Stage;
      var q := start;
      ghost var before := State();
      StageNone(before, start, end, now);
      while q < end
        invariant start <= q && (q <= end || q == start)
        invariant Valid() && State() == Stage(before, start, q, now)
      {
        StageStep(before, start, q, now);
        StageOne(q, now);
        q := q + 1;
      }
    }

    /** Moves the base one position on, staging the sequence it leaves behind. */
    method EvictOne(now: nat)
      requires Valid()
      modifies this, bits
      ensures Valid() && base == old(base) + 1 && forwarded == old(forwarded) && log == old(log)
      ensures pending == if old(base) in old(forwarded) || old(base) in old(pending) then old(pending)
                         else old(pending)[old(base) := now]
    {
      WindowSlots(base, bits.Length);
      var idx := base % bits.Length;
      if !bits[idx] && base !in pending {
        pending := pending[base := now];
      }
      bits[idx] := false;
      base := base + 1;
    }

    /** Slides the window up to `target`, one position at a time. */
    method Slide(target: nat, now: nat)
      requires Valid()
      modifies this, bits
      ensures Valid() && State() == Evict(old(State()), target, now)
    {
      hide Evict;
      ghost var before := State();
      EvictNone(before, target, now);
      while base < target
        invariant Valid() && before.base <= base && (base <= target || base == before.base)
        invariant State() == Evict(before, base, now)
      {
        EvictStep(before, base, now);
        EvictOne(now);
      }
    }

    method ObserveSequence(q: nat, now: nat) returns (v: Verdict)
      requires Valid()
      modifies this, bits
      ensures Valid() && (State(), v) == Observe(old(State()), q, now)
    {
      if q < base {
        if q in pending {
          pending := pending - {q};
          forwarded, log := forwarded + iset{q}, log + [q];
          return Forward;
        }
        return OutOfWindow;
      }
      if q >= base + bits.Length {
        Slide(q - bits.Length + 1, now);
      }
      var idx := q % bits.Length;
      if bits[idx] {
        return Duplicate;
      }
      SlotOfOnly(base, bits.Length, q);
      bits[idx] := true;
      forwarded, log := forwarded + iset{q}, log + [q];
      pending := pending - {q};
      return Forward;
    }

    /** Takes out, in order, the candidates whose grace period is over. */
    method ConfirmedGaps(now: nat) returns (confirmed: seq<nat>)
      requires Valid()
      modifies this`pending
      ensures Valid() && State() == Confirm(old(State()), now)
      ensures forall i, j :: 0 <= i < j < |confirmed| ==> confirmed[i] < confirmed[j]
      ensures forall p :: p in confirmed <==> p in Due(old(State()), now)
      ensures |confirmed| == |Due(old(State()), now)|
    {
      var due := set p | p in pending && Elapsed(now, pending[p]) >= grace;
      assert due == Due(State(), now);
      pending := pending - due;
      confirmed := [];
      ghost var all := due;
      while due != {}
        invariant Valid() && pending == old(pending) - all
        invariant forall p :: p in confirmed || p in due <==> p in all
        invariant |confirmed| + |due| == |all|
        invariant forall i :: 0 <= i < |confirmed| ==> forall p :: p in due ==> confirmed[i] < p
        invariant forall i, j :: 0 <= i < j < |confirmed| ==> confirmed[i] < confirmed[j]
        decreases due
      {
        var p := Least(due);
        confirmed := confirmed + [p];
        due := due - {p};
      }
    }
  }

  method Least(s: set<nat>) returns (least: nat)
    requires s != {}
    ensures least in s && forall p :: p in s ==> least <= p
  {
    ghost var some :| some in s;
    least := 0;
    while least !in s
      invariant least <= some && forall p :: p in s ==> least <= p
      decreases some - least
    {
      least := least + 1;
    }
  }

  lemma StageNone(a: Arb, start: nat, end: nat, now: nat)
    ensures Stage(a, start, start, now) == a
    ensures end <= start ==> Stage(a, start, end, now) == a
  {
    assert end <= start ==> Stage(a, start, end, now).pending == a.pending;
  }

  lemma StageStep(a: Arb, start: nat, q: nat, now: nat)
    requires start <= q
    ensures Stage(a, start, q + 1, now) ==
            var s := Stage(a, start, q, now);
            if q in s.pending || (InWindow(s, q) && q in s.forwarded) then s
            else s.(pending := s.pending[q := now])
  {
  }

  lemma EvictNone(a: Arb, target: nat, now: nat)
    ensures Evict(a, a.base, now) == a
    ensures target <= a.base ==> Evict(a, target, now) == a
  {
  }

  lemma EvictStep(a: Arb, b: nat, now: nat)
    requires a.base <= b
    ensures Evict(a, b + 1, now) ==
            var s := Evict(a, b, now);
            if b in s.pending || b in s.forwarded then s.(base := b + 1)
            else s.(base := b + 1, pending := s.pending[b := now])
  {
  }

  /** In a window only the base and the position one capacity on share its slot. */
  lemma WindowSlots(base: nat, capacity: nat)
    requires capacity > 0
    ensures forall p: nat :: base < p < base + capacity ==> p % capacity != base % capacity
    ensures (base + capacity) % capacity == base % capacity
  {
    forall p: nat | base < p < base + capacity ensures p % capacity != base % capacity {
      Slots.DistinctSlots(base, p, capacity);
    }
    NextLap(base, capacity);
  }

  lemma NextLap(base: nat, capacity: nat)
    requires capacity > 0
    ensures (base + capacity) % capacity == base % capacity
  {
    var (k, k') := (base / capacity, (base + capacity) / capacity);
    Slots.MultipleIsFar(capacity, k' - k - 1);
    assert (base + capacity) % capacity - base % capacity == capacity * (k + 1 - k');
  }

  lemma SlotOfOnly(base: nat, capacity: nat, q: nat)
    requires base <= q < base + capacity
    ensures forall p: nat :: base <= p < base + capacity && p != q ==> p % capacity != q % capacity
  {
    forall p: nat | base <= p < base + capacity && p != q ensures p % capacity != q % capacity {
      Slots.DistinctSlots(if p < q then p else q, if p < q then q else p, capacity);
    }
  }
}
