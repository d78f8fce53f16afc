/** The single-producer, single-consumer ring shared with the kernel: two words that run
    free and wrap at 32 bits, an array of entries, and one side that writes while the
    other reads. Every interleaving of the two sides' steps behaves as a bounded queue. */
module SpscRing {
  import opened Slots

  const WRAP := 0x1_0000_0000

  function Wrapped(index: int): nat { index % WRAP }

  function Min(a: nat, b: nat): nat { if a < b then a else b }

  /** Room the writer sees: wrapping difference of the words, never above the size. */
  function Free(consumer: nat, prod: nat, size: nat): nat
  {
    Min(Wrapped(consumer + size - prod), size)
  }

  /** Entries the reader sees. */
  function Ready(producer: nat, cons: nat, size: nat): nat
  {
    Min(Wrapped(producer - cons), size)
  }

  /** Where a free-running index sits; the size is a power of two, so masking the index
      is its remainder. */
  function Entry(index: nat, size: nat): (at: nat)
    requires size > 0
    ensures at < size
  {
    Wrapped(index) % size
  }

  predicate PowerOfTwo(size: nat)
  {
    size == 1 || (size % 2 == 0 && size > 0 && PowerOfTwo(size / 2))
  }

  lemma {:induction false} PowerDivides(size: nat, big: nat)
    requires PowerOfTwo(size) && PowerOfTwo(big) && size <= big
    ensures big % size == 0
  {
    if size > 1 {
      var (half, rest) := (size / 2, big / 2);
      PowerDivides(half, rest);
      TwiceDivides(half, rest);
    }
  }

  // ------------------------------------------------------------------ machine

  /** One side: between calls, or inside one that may still touch up to `limit` entries
      and has touched `done`. */
  datatype Side = Resting | Busy(limit: nat, done: nat)

  /** `producer` and `consumer` are the shared words, `prod` and `cons` each side's own
      copy. `written` and `read` log every entry stored and loaded; the first `published`
      and `released` of them have been handed over. `base` is where the words started. */
  datatype State<T> = State(
    size: nat, base: nat, desc: seq<T>, producer: nat, consumer: nat,
    prod: nat, writing: Side, cons: nat, reading: Side,
    written: seq<T>, published: nat, read: seq<T>, released: nat)

  /** Everything either side does to shared memory, one access at a time. */
  datatype Step<T> =
    | LoadConsumer
    | Write(item: T)
    | Publish
    | LoadProducer(max: nat)
    | ReadEntry
    | Release

  function Start<T>(size: nat, base: nat, desc: seq<T>): State<T>
  {
    State(size, base, desc, Wrapped(base), Wrapped(base), Wrapped(base), Resting, Wrapped(base), Resting, [], 0, [], 0)
  }

  /** A step that is not due changes nothing. */
  function Next<T>(s: State<T>, step: Step<T>): State<T>
    requires s.size == |s.desc| > 0
  {
    match step
    case LoadConsumer =>
      if s.writing.Resting? then s.(writing := Busy(Free(s.consumer, s.prod, s.size), 0)) else s
    case Write(item) =>
      if s.writing.Busy? && s.writing.done < s.writing.limit then
        s.(desc := s.desc[Entry(s.prod + s.writing.done, s.size) := item],
           writing := s.writing.(done := s.writing.done + 1),
           written := s.written + [item])
      else s
    case Publish =>
      if s.writing.Busy? then
        var prod := Wrapped(s.prod + s.writing.done);
        s.(prod := prod, producer := prod, writing := Resting, published := s.published + s.writing.done)
      else s
    case LoadProducer(max) =>
      if s.reading.Resting? then s.(reading := Busy(Min(Ready(s.producer, s.cons, s.size), max), 0)) else s
    case ReadEntry =>
      if s.reading.Busy? && s.reading.done < s.reading.limit then
        s.(reading := s.reading.(done := s.reading.done + 1),
           read := s.read + [s.desc[Entry(s.cons + s.reading.done, s.size)]])
      else s
    case Release =>
      if s.reading.Busy? && s.reading.done == s.reading.limit then
        var cons := Wrapped(s.cons + s.reading.done);
        s.(cons := cons, consumer := cons, reading := Resting, released := s.released + s.reading.done)
      else s
  }

  /** Steps in the order they hit memory, from both sides. */
  ghost function Run<T>(s: State<T>, steps: seq<Step<T>>, n: nat): (r: State<T>)
    requires s.size == |s.desc| > 0 && n <= |steps|
    ensures r.size == |r.desc| == s.size
  {
    if n == 0 then s else Next(Run(s, steps, n - 1), steps[n - 1])
  }

  // --------------------------------------------------------------- invariants

  /** How far each side has come, in counts that never wrap. */
  ghost predicate Counted<T>(s: State<T>)
  {
    && s.released <= |s.read| <= s.published <= |s.written| <= s.released + s.size
    && s.producer == s.prod == Wrapped(s.base + s.published)
    && s.consumer == s.cons == Wrapped(s.base + s.released)
    && (match s.writing
        case Resting => |s.written| == s.published
        case Busy(limit, done) =>
          |s.written| == s.published + done && done <= limit && s.published + limit <= s.released + s.size)
    && (match s.reading
        case Resting => |s.read| == s.released
        case Busy(limit, done) => |s.read| == s.released + done && done <= limit && s.released + limit <= s.published)
  }

  /** Where the entry of a count sits. */
  ghost function Place(base: nat, count: nat, size: nat): (at: nat)
    requires size > 0
    ensures at < size
  {
    Entry(base + count, size)
  }

  /** Every entry not yet released still holds what was written. */
  ghost predicate Intact<T>(desc: seq<T>, base: nat, written: seq<T>, released: nat)
    requires |desc| > 0
  {
    forall k :: released <= k < |written| ==> desc[Place(base, k, |desc|)] == written[k]
  }

  ghost predicate Sound<T>(s: State<T>)
  {
    && 0 < s.size == |s.desc| <= 0x8000_0000 && PowerOfTwo(s.size)
    && Counted(s)
    && Intact(s.desc, s.base, s.written, s.released)
    && s.read <= s.written
  }

  lemma Divides(size: nat)
    requires PowerOfTwo(size) && size <= 0x8000_0000
    ensures size > 0 && WRAP % size == 0
  {
    WrapIsPower();
    PowerDivides(size, WRAP);
    hide PowerOfTwo;
  }

  lemma WrapIsPower()
    ensures PowerOfTwo(WRAP)
  {
    assert PowerOfTwo(1);
    hide PowerOfTwo;
    Sixteenfold(1);
    Sixteenfold(0x10);
    Sixteenfold(0x100);
    Sixteenfold(0x1000);
    Sixteenfold(0x1_0000);
    Sixteenfold(0x10_0000);
    Sixteenfold(0x100_0000);
    Sixteenfold(0x1000_0000);
  }

  lemma Sixteenfold(x: nat)
    requires PowerOfTwo(x)
    ensures PowerOfTwo(16 * x)
  {
    Doubled(x);
    Doubled(2 * x);
    Doubled(4 * x);
    Doubled(8 * x);
    hide PowerOfTwo;
  }

  lemma Doubled(x: nat)
    requires PowerOfTwo(x)
    ensures PowerOfTwo(2 * x)
  {
  }

  lemma WrapSum(x: nat, d: nat)
    ensures Wrapped(Wrapped(x) + d) == Wrapped(x + d)
  {
  }

  /** A wrapped count plus a little is the same entry as the unwrapped sum. */
  lemma EntryOf(base: nat, count: nat, done: nat, size: nat)
    requires size > 0 && WRAP % size == 0
    ensures Entry(Wrapped(base + count) + done, size) == Place(base, count + done, size)
    ensures Place(base, count, size) == (base + count) % size
  {
    WrapSum(base + count, done);
    WrapKeepsSlot(base + count, WRAP, size);
  }

  /** Counts less than one lap apart sit in different entries. */
  lemma EntriesDiffer(base: nat, j: nat, k: nat, size: nat)
    requires size > 0 && WRAP % size == 0 && j < k < j + size
    ensures Place(base, j, size) != Place(base, k, size)
  {
    EntryOf(base, j, 0, size);
    EntryOf(base, k, 0, size);
    DistinctSlots(base + j, base + k, size);
  }

  lemma Difference(base: nat, ahead: nat, behind: nat, room: nat)
    requires behind <= ahead <= behind + room < behind + WRAP
    ensures Wrapped(Wrapped(base + behind) + room - Wrapped(base + ahead)) == room - (ahead - behind)
    ensures Wrapped(Wrapped(base + ahead) - Wrapped(base + behind)) == ahead - behind
  {
    var (a, b) := (base + ahead, base + behind);
    assert a % WRAP == a - WRAP * (a / WRAP) && b % WRAP == b - WRAP * (b / WRAP);
  }

  /** At the load a side sees exactly the room, or the entries, that there are. */
  lemma LoadIsExact<T>(s: State<T>)
    requires Sound(s)
    ensures Free(s.consumer, s.prod, s.size) == s.size - (s.published - s.released)
    ensures Ready(s.producer, s.cons, s.size) == s.published - s.released
  {
    hide PowerOfTwo;
    hide Intact;
    hide Wrapped;
    Difference(s.base, s.published, s.released, s.size);
  }

  lemma LoadKeeps<T>(s: State<T>, step: Step<T>)
    requires Sound(s) && (step.LoadConsumer? || step.LoadProducer?)
    ensures Sound(Next(s, step))
  {
    hide PowerOfTwo;
    hide Intact;
    hide Wrapped;
    hide Free;
    hide Ready;
    LoadIsExact(s);
  }

  lemma ReleaseIntact<T>(desc: seq<T>, base: nat, written: seq<T>, released: nat, more: nat)
    requires |desc| > 0 && Intact(desc, base, written, released)
    ensures Intact(desc, base, written, released + more)
  {
  }

  lemma HandOverKeeps<T>(s: State<T>, step: Step<T>)
    requires Sound(s) && (step.Publish? || step.Release?)
    ensures Sound(Next(s, step))
  {
    hide PowerOfTwo;
    hide Intact;
    hide Wrapped;
    if s.writing.Busy? {
      WrapSum(s.base + s.published, s.writing.done);
    }
    if s.reading.Busy? {
      WrapSum(s.base + s.released, s.reading.done);
    }
    if step.Release? && s.reading.Busy? {
      ReleaseIntact(s.desc, s.base, s.written, s.released, s.reading.done);
    }
  }

  lemma WriteIntact<T>(desc: seq<T>, base: nat, written: seq<T>, released: nat, item: T)
    requires |desc| > 0 && WRAP % |desc| == 0 && released <= |written| < released + |desc|
    requires Intact(desc, base, written, released)
    ensures Intact(desc[Place(base, |written|, |desc|) := item], base, written + [item], released)
  {
    hide Place;
    forall k | released <= k < |written| ensures Place(base, k, |desc|) != Place(base, |written|, |desc|) {
      EntriesDiffer(base, k, |written|, |desc|);
    }
  }

  lemma WriteKeeps<T>(s: State<T>, item: T)
    requires Sound(s) && s.writing.Busy? && s.writing.done < s.writing.limit
    ensures Sound(Next(s, Write(item)))
  {
    hide PowerOfTwo;
    hide Intact;
    hide Entry;
    hide Wrapped;
    hide Place;
    Divides(s.size);
    EntryOf(s.base, s.published, s.writing.done, s.size);
    WriteIntact(s.desc, s.base, s.written, s.released, item);
  }

  lemma ReadKeeps<T>(s: State<T>)
    requires Sound(s) && s.reading.Busy? && s.reading.done < s.reading.limit
    ensures Sound(Next(s, ReadEntry))
    ensures Next(s, ReadEntry).read == s.read + [s.written[|s.read|]]
  {
    hide PowerOfTwo;
    hide Entry;
    hide Wrapped;
    hide Place;
    Divides(s.size);
    EntryOf(s.base, s.released, s.reading.done, s.size);
    assert s.desc[Place(s.base, |s.read|, s.size)] == s.written[|s.read|];
  }

  lemma StepKeeps<T>(s: State<T>, step: Step<T>)
    requires Sound(s)
    ensures Sound(Next(s, step))
  {
    match step
    case Write(item) =>
      if s.writing.Busy? && s.writing.done < s.writing.limit {
        WriteKeeps(s, item);
      }
    case ReadEntry =>
      if s.reading.Busy? && s.reading.done < s.reading.limit {
        ReadKeeps(s);
      }
    case LoadConsumer => LoadKeeps(s, step);
    case LoadProducer(_) => LoadKeeps(s, step);
    case Publish => HandOverKeeps(s, step);
    case Release => HandOverKeeps(s, step);
  }

  lemma StartIsSound<T>(size: nat, base: nat, desc: seq<T>)
    requires 0 < |desc| == size <= 0x8000_0000 && PowerOfTwo(size)
    ensures Sound(Start(size, base, desc))
  {
  }

  /** Under every interleaving: entries come out in the order they went in, each once;
      nothing comes out before it was published; and no entry is overwritten while its
      reader has not released it. */
  lemma {:induction false} EveryInterleavingIsSound<T>(size: nat, base: nat, desc: seq<T>, steps: seq<Step<T>>, n: nat)
    requires 0 < |desc| == size <= 0x8000_0000 && PowerOfTwo(size) && n <= |steps|
    ensures var s := Run(Start(size, base, desc), steps, n);
            && s.read <= s.written && |s.read| <= s.published
            && |s.written| <= s.released + size
            && Intact(s.desc, s.base, s.written, s.released) && Sound(s)
  {
    hide Next;
    hide PowerOfTwo;
    hide Intact;
    if n == 0 {
      StartIsSound(size, base, desc);
    } else {
      EveryInterleavingIsSound(size, base, desc, steps, n - 1);
      StepKeeps(Run(Start(size, base, desc), steps, n - 1), steps[n - 1]);
    }
  }

  // --------------------------------------------------------------- refinement

  /** The queue the ring stands for: what is published and not released. */
  ghost function Queue<T>(s: State<T>): seq<T>
    requires Counted(s)
  {
    s.written[s.released..s.published]
  }

  lemma PublishAppends<T>(s: State<T>)
    requires Sound(s) && Sound(Next(s, Publish))
    ensures Queue(Next(s, Publish)) == Queue(s) + s.written[s.published..]
  {
    hide PowerOfTwo;
    hide Intact;
    hide Wrapped;
    var t := Next(s, Publish);
    assert t.published == |s.written|;
    Cut(s.written, s.released, s.published, t.published);
  }

  lemma ReleaseTakes<T>(s: State<T>)
    requires Sound(s) && Sound(Next(s, Release)) && s.reading.Busy? && s.reading.done == s.reading.limit
    ensures s.read[s.released..] <= Queue(s)
    ensures Queue(Next(s, Release)) == Queue(s)[|s.read| - s.released..]
  {
    hide PowerOfTwo;
    hide Intact;
    hide Wrapped;
    var t := Next(s, Release);
    assert t.released == |s.read| <= s.published;
    Cut(s.written, s.released, t.released, s.published);
    PrefixSlice(s.read, s.written, s.released);
  }

  lemma OthersLeave<T>(s: State<T>, step: Step<T>)
    requires Sound(s) && Sound(Next(s, step)) && !step.Publish? && !step.Release?
    ensures Queue(Next(s, step)) == Queue(s)
  {
    hide PowerOfTwo;
    hide Intact;
    hide Wrapped;
    hide Entry;
    if step.Write? {
      Grown(s.written, step.item, s.released, s.published);
    }
  }

  lemma PrefixSlice<T>(r: seq<T>, s: seq<T>, i: nat)
    requires r <= s && i <= |r|
    ensures r[i..] == s[i..|r|]
  {
  }

  lemma Cut<T>(s: seq<T>, i: nat, j: nat, k: nat)
    requires i <= j <= k <= |s|
    ensures s[i..k] == s[i..j] + s[j..k]
  {
  }

  lemma Grown<T>(s: seq<T>, item: T, i: nat, j: nat)
    requires i <= j <= |s|
    ensures (s + [item])[i..j] == s[i..j]
  {
  }

  /** A publish appends the batch just written, a release removes the batch just read
      from the front, every other step leaves the queue alone; it never outgrows the
      ring. */
  lemma StepRefinesQueue<T>(s: State<T>, step: Step<T>)
    requires Sound(s)
    ensures var t := Next(s, step);
            && Sound(t)
            && |Queue(t)| <= s.size
            && (step.Publish? ==> Queue(t) == Queue(s) + s.written[s.published..])
            && (step.Release? && s.reading.Busy? && s.reading.done == s.reading.limit ==>
                  s.read[s.released..] <= Queue(s) && Queue(t) == Queue(s)[|s.read| - s.released..])
            && (!step.Publish? && !step.Release? ==> Queue(t) == Queue(s))
  {
    StepKeeps(s, step);
    if step.Publish? {
      PublishAppends(s);
    } else if !step.Release? {
      OthersLeave(s, step);
    } else if s.reading.Busy? && s.reading.done == s.reading.limit {
      ReleaseTakes(s);
    }
    SameSize(s, step);
    hide Next;
    hide Intact;
    hide PowerOfTwo;
    hide Wrapped;
  }

  lemma SameSize<T>(s: State<T>, step: Step<T>)
    requires s.size == |s.desc| > 0
    ensures Next(s, step).size == s.size
  {
  }
}
