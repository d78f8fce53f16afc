/** The reorder ring: a fixed array of slots keyed by `sequence % capacity`, and the
    finite map from sequence to message that it stands for. */
module Reassembly {
  import opened Octets
  import opened Slots

  /** What the ring stands for: messages held ahead of the next sequence to deliver. */
  datatype Reorder<+S> = Reorder(capacity: nat, expected: nat, held: map<nat, S>)

  datatype Inserted = Dropped | Buffered | Ready | Full

  /** Held sequences never share a slot. */
  ghost predicate WellFormed<S>(r: Reorder<S>) {
    && r.capacity > 0
    && forall p, q :: p in r.held && q in r.held && p % r.capacity == q % r.capacity ==> p == q
  }

  /** The slot of `sequence` holds some other sequence. */
  predicate Blocked<S>(r: Reorder<S>, sequence: nat)
    requires r.capacity > 0
  {
    exists q :: q in r.held && q != sequence && q % r.capacity == sequence % r.capacity
  }

  /** Keeps `slab` for `sequence` unless it is stale, a duplicate, or its slot is taken. */
  function Placed<S>(r: Reorder<S>, sequence: nat, slab: S): (Reorder<S>, Inserted)
    requires r.capacity > 0
  {
    if sequence < r.expected || sequence in r.held then (r, Dropped)
    else if Blocked(r, sequence) then (r, Full)
    else (r.(held := r.held[sequence := slab]), if sequence == r.expected then Ready else Buffered)
  }

  /** The messages held at `e`, `e + 1`, ... up to the first one missing. */
  function Run<S>(held: map<nat, S>, e: nat): seq<S>
    decreases |held|
  {
    if e in held then [held[e]] + Run(held - {e}, e + 1) else []
  }

  /** Takes the whole contiguous run at `expected` out of the ring. */
  function Drained<S>(r: Reorder<S>): (Reorder<S>, seq<S>) {
    var run := Run(r.held, r.expected);
    var next := r.expected + |run|;
    (Reorder(r.capacity, next, map q | q in r.held && !(r.expected <= q < next) :: r.held[q]), run)
  }

  // -------------------------------------------------------------------- laws

  /** `Run` is the maximal run: every item in place, and the sequence after it missing. */
  lemma {:induction false} RunIsMaximal<S>(held: map<nat, S>, e: nat)
    ensures var run := Run(held, e);
            e + |run| !in held && forall q :: e <= q < e + |run| ==> q in held && run[q - e] == held[q]
    decreases |held|
  {
    if e in held {
      RunIsMaximal(held - {e}, e + 1);
      RunGrows(held, e, held - {e}, Run(held - {e}, e + 1));
    }
  }

  lemma RunGrows<S>(held: map<nat, S>, e: nat, less: map<nat, S>, rest: seq<S>)
    requires e in held && less == held - {e}
    requires e + 1 + |rest| !in less && forall q :: e < q <= e + |rest| ==> q in less && rest[q - e - 1] == less[q]
    ensures var run := [held[e]] + rest;
            e + |run| !in held && forall q :: e <= q < e + |run| ==> q in held && run[q - e] == held[q]
  {
    var run := [held[e]] + rest;
    forall q | e <= q < e + |run| ensures q in held && run[q - e] == held[q] {
      if q > e {
        assert q in less && run[q - e] == rest[q - e - 1];
      }
    }
  }

  /** Taking the first item and then draining is draining. */
  lemma DrainStep<S>(r: Reorder<S>)
    requires r.expected in r.held
    ensures var r1 := Reorder(r.capacity, r.expected + 1, r.held - {r.expected});
            && Drained(r).0 == Drained(r1).0
            && Drained(r).1 == [r.held[r.expected]] + Drained(r1).1
  {
  }

  /** A ring with nothing at `expected` is drained. */
  lemma DrainedAlready<S>(r: Reorder<S>)
    ensures r.expected !in r.held ==> Drained(r) == (r, [])
  {
    if r.expected !in r.held {
      assert Drained(r).0.held == r.held;
    }
  }

  /** Draining removes exactly the maximal run at `expected` and keeps all else. */
  lemma DrainRemovesRun<S>(r: Reorder<S>)
    ensures var (r', run) := Drained(r);
            && r'.capacity == r.capacity
            && r'.expected == r.expected + |run|
            && r'.expected !in r.held
            && (forall q :: r.expected <= q < r'.expected ==> q in r.held && run[q - r.expected] == r.held[q])
            && (forall q :: q in r'.held <==> q in r.held && !(r.expected <= q < r'.expected))
            && (forall q :: q in r'.held ==> r'.held[q] == r.held[q])
  {
    RunIsMaximal(r.held, r.expected);
  }

  /** Ring operations keep slots distinct. */
  lemma OpsKeepWellFormed<S>(r: Reorder<S>, sequence: nat, slab: S)
    requires WellFormed(r)
    ensures WellFormed(Placed(r, sequence, slab).0)
    ensures WellFormed(Drained(r).0)
  {
  }

  /** Everything held lies within one capacity of the next sequence to deliver. */
  ghost predicate Windowed<S>(r: Reorder<S>) {
    forall q :: q in r.held ==> r.expected <= q < r.expected + r.capacity
  }

  /** Sequences within one capacity of `expected` are never refused. */
  lemma NeverFullInWindow<S>(r: Reorder<S>, sequence: nat, slab: S)
    requires r.capacity > 0 && Windowed(r) && sequence < r.expected + r.capacity
    ensures Placed(r, sequence, slab).1 != Full
    ensures Windowed(Placed(r, sequence, slab).0)
    ensures Windowed(Drained(r).0)
  {
    if sequence >= r.expected && Blocked(r, sequence) {
      var q :| q in r.held && q != sequence && q % r.capacity == sequence % r.capacity;
      DistinctSlots(if q < sequence then q else sequence, if q < sequence then sequence else q, r.capacity);
      assert false;
    }
    DrainRemovesRun(r);
  }

  // -------------------------------------------------------------------- ring

  datatype Slot<+S> = Slot(sequence: nat, payload: Option<S>)

  class SequenceReassembler<S> {
    const slots: array<Slot<S>>
    const capacity: nat
    var expectedNext: nat
    ghost var held: map<nat, S>

    ghost predicate Valid()
      reads this, slots
    {
      && capacity == slots.Length > 0
      && (forall q :: q in held ==> slots[q % capacity] == Slot(q, Some(held[q])))
      && (forall i :: 0 <= i < slots.Length && slots[i].payload.Some? ==>
            slots[i].sequence in held && slots[i].sequence % capacity == i)
    }

    ghost function State(): Reorder<S>
      reads this
    {
      Reorder(capacity, expectedNext, held)
    }

    constructor (capacity: nat)
      requires capacity > 0
      ensures Valid() && fresh(slots) && State() == Reorder(capacity, 1, map[])
    {
      slots := new Slot<S>[capacity](_ => Slot(0, None));
      this.capacity := capacity;
      expectedNext := 1;
      held := map[];
    }

    method AdvanceExpected(n: nat)
      requires Valid()
      modifies this
      ensures Valid() && State() == old(State()).(expected := old(expectedNext) + n)
    {
      expectedNext := expectedNext + n;
    }

    method ResetExpected(expected: nat)
      requires Valid()
      modifies this
      ensures Valid() && State() == old(State()).(expected := expected)
    {
      expectedNext := expected;
    }

    /** `Ready` stands for the returned cursor: the caller drains or drops it. */
    method Insert(sequence: nat, slab: S) returns (r: Inserted)
      requires Valid()
      modifies this, slots
      ensures Valid() && (State(), r) == Placed(old(State()), sequence, slab)
    {
      if sequence < expectedNext {
        return Dropped;
      }
      var idx := sequence % capacity;
      var slot := slots[idx];
      if slot.payload.Some? {
        if slot.sequence == sequence {
          return Dropped;
        }
        assert slot.sequence in held;
        return Full;
      }
      assert !Blocked(State(), sequence);
      slots[idx] := Slot(sequence, Some(slab));
      held := held[sequence := slab];
      if sequence == expectedNext {
        return Ready;
      } else {
        return Buffered;
      }
    }

    /** The cursor's step: the item at `expected_next`, if the ring holds it. */
    method CursorNext() returns (item: Option<S>)
      requires Valid()
      modifies this, slots
      ensures Valid()
      ensures item.None? ==> old(expectedNext) !in old(held) && State() == old(State())
      ensures item.Some? ==>
                && old(expectedNext) in old(held) && item.value == old(held)[old(expectedNext)]
                && State() == Reorder(capacity, old(expectedNext) + 1, old(held) - {old(expectedNext)})
    {
      var idx := expectedNext % capacity;
      var slot := slots[idx];
      if slot.sequence != expectedNext {
        return None;
      }
      if slot.payload.None? {
        return None;
      }
      slots[idx] := Slot(slot.sequence, None);
      held := held - {expectedNext};
      expectedNext := expectedNext + 1;
      return slot.payload;
    }

    /** The cursor run to its end, as a loop over it or its drop does. */
    method DrainAll() returns (items: seq<S>)
      requires Valid()
      modifies this, slots
      ensures Valid() && (State(), items) == Drained(old(State()))
    {
      hide Drained;
      ghost var before := State();
      items := [];
      assert items + Drained(before).1 == Drained(before).1;
      var more := true;
      while more
        invariant Valid() && before == old(State())
        invariant Drained(State()).0 == Drained(before).0
        invariant items + Drained(State()).1 == Drained(before).1
        invariant more || expectedNext !in held
        decreases |held|, more
      {
        ghost var step := State();
        var item := CursorNext();
        if item.Some? {
          DrainStep(step);
          items := items + [item.value];
        } else {
          more := false;
        }
      }
      DrainedAlready(State());
      assert items + [] == items;
    }

    /** Takes up to `limit` items and drops the cursor: however many are taken, the
        ring ends up as after a full drain. */
    method CursorTake(limit: nat) returns (items: seq<S>)
      requires Valid()
      modifies this, slots
      ensures Valid() && State() == Drained(old(State())).0
      ensures items <= Drained(old(State())).1
      ensures |items| == if limit < |Drained(old(State())).1| then limit else |Drained(old(State())).1|
    {
      hide Drained;
      items := [];
      assert items + Drained(State()).1 == Drained(State()).1;
      var more := true;
      while more && |items| < limit
        invariant Valid() && |items| <= limit
        invariant Drained(State()).0 == Drained(old(State())).0
        invariant items + Drained(State()).1 == Drained(old(State())).1
        invariant more || expectedNext !in held
        decreases |held|, more
      {
        ghost var before := State();
        var item := CursorNext();
        if item.Some? {
          DrainStep(before);
          items := items + [item.value];
        } else {
          more := false;
        }
      }
      DrainedAlready(State());
      var dropped := DrainAll();
    }
  }
}
