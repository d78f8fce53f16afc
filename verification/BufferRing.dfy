/** The provided-buffer ring: the driver appends entries at a 16-bit wrapping tail and
    publishes it, the kernel reads below the published tail. */
module BufferRing {
  import opened Slots

  const WRAP16 := 0x1_0000

  function Wrapped(index: nat): nat { index % WRAP16 }

  /** Where an index sits; the size is a power of two, so masking is the remainder. */
  function At(index: nat, size: nat): (at: nat)
    requires size > 0
    ensures at < size
  {
    index % size
  }

  lemma WrappedNext(index: nat)
    ensures Wrapped(Wrapped(index) + 1) == Wrapped(index + 1)
  {
  }

  lemma WrappedAt(index: nat, size: nat)
    requires size > 0 && WRAP16 % size == 0
    ensures At(Wrapped(index), size) == At(index, size)
  {
    WrapKeepsSlot(index, WRAP16, size);
  }

  /** Every entry the kernel has not read still holds what was pushed. */
  ghost predicate Intact(entries: seq<nat>, log: seq<nat>, head: nat)
    requires |entries| > 0
  {
    forall k :: head <= k < |log| ==> entries[At(k, |entries|)] == log[k]
  }

  /** The entry after the last one pushed holds nothing the kernel still has to read. */
  lemma PushKeeps(entries: seq<nat>, log: seq<nat>, head: nat, bid: nat)
    requires |entries| > 0 && head <= |log| < head + |entries| && Intact(entries, log, head)
    ensures Intact(entries[At(|log|, |entries|) := bid], log + [bid], head)
  {
    forall k | head <= k < |log| ensures At(k, |entries|) != At(|log|, |entries|) {
      DistinctSlots(k, |log|, |entries|);
    }
  }

  /** `log` lists every buffer id ever pushed; `read` of them are read by the kernel and
      `shown` published. */
  class RingMem {
    const entries: array<nat>
    var tail: nat
    var published: nat
    // the kernel's own index
    var head: nat
    ghost var log: seq<nat>
    ghost var shown: nat
    ghost var read: nat

    ghost predicate Valid()
      reads this, entries
    {
      && 0 < entries.Length < WRAP16 && WRAP16 % entries.Length == 0
      && read <= shown <= |log| <= read + entries.Length
      && tail == Wrapped(|log|) && published == Wrapped(shown) && head == Wrapped(read)
      && Intact(entries[..], log, read)
    }

    /** Entries on their way to or waiting for the kernel. */
    ghost function Unread(): seq<nat>
      reads this
    {
      if read <= |log| then log[read..] else []
    }

    constructor (count: nat)
      requires 0 < count < WRAP16 && WRAP16 % count == 0
      ensures Valid() && fresh(entries) && entries.Length == count && log == [] && read == 0
    {
      entries := new nat[count];
      tail, published, head, log, shown, read := 0, 0, 0, [], 0, 0;
    }

    /** Overwrites nothing unread, as long as the unread entries are fewer than the ring. */
    method Push(bid: nat)
      requires Valid() && |Unread()| < entries.Length
      modifies this`tail, this`log, entries
      ensures Valid() && Unread() == old(Unread()) + [bid]
    {
      hide Intact;
      hide Wrapped;
      hide At;
      PushKeeps(entries[..], log, read, bid);
      WrappedAt(|log|, entries.Length);
      WrappedNext(|log|);
      ghost var before := entries[..];
      entries[At(tail, entries.Length)] := bid;
      assert entries[..] == before[At(|log|, entries.Length) := bid];
      log := log + [bid];
      tail := Wrapped(tail + 1);
    }

    method Publish()
      requires Valid()
      modifies this`published, this`shown
      ensures Valid() && shown == |log|
    {
      published := tail;
      shown := |log|;
    }

    /** What the kernel tests: its index has not caught up with the published tail. */
    predicate Waiting()
      reads this
    {
      head != published
    }

    /** The kernel takes the oldest published entry and finds exactly what was pushed. */
    method KernelTakes() returns (bid: nat)
      requires Valid() && Waiting()
      modifies this`head, this`read
      ensures Valid() && old(Unread()) != [] && bid == old(Unread())[0]
      ensures Unread() == old(Unread())[1..]
    {
      hide Wrapped;
      hide At;
      WaitingIsExact();
      WrappedAt(read, entries.Length);
      WrappedNext(read);
      bid := entries[At(head, entries.Length)];
      assert entries[..][At(read, entries.Length)] == log[read];
      head := Wrapped(head + 1);
      read := read + 1;
    }

    /** The two indices tell exactly whether an entry waits. */
    lemma WaitingIsExact()
      requires Valid()
      ensures Waiting() <==> read < shown
    {
      hide Intact;
      Distance(read, shown);
    }
  }

  lemma Distance(read: nat, shown: nat)
    requires read <= shown < read + WRAP16
    ensures Wrapped(read) == Wrapped(shown) <==> read == shown
  {
  }
}
