/** The ring's `produce` and `consume` as they run: each takes several memory accesses,
    and before any of them the other side may have moved. */
module RingCode {
  import opened SpscRing

  /** Steps of the side that writes entries. */
  predicate Writer<T>(step: Step<T>)
  {
    step.LoadConsumer? || step.Write? || step.Publish?
  }

  /** Shared memory, both sides' own words, and what the other side will do each time it
      gets to run. */
  class Ring<T> {
    const desc: array<T>
    var producer: nat
    var consumer: nat
    var prod: nat
    var writing: Side
    var cons: nat
    var reading: Side
    var others: seq<seq<Step<T>>>
    ghost var base: nat
    ghost var written: seq<T>
    ghost var published: nat
    ghost var read: seq<T>
    ghost var released: nat

    ghost function State(): State<T>
      reads this, desc
    {
      SpscRing.State(desc.Length, base, desc[..], producer, consumer, prod, writing, cons, reading,
                     written, published, read, released)
    }

    ghost predicate Valid()
      reads this, desc
    {
      Sound(State())
    }

    /** One access of either side. */
    method Perform(step: Step<T>)
      requires Valid()
      modifies this, desc
      ensures State() == Next(old(State()), step) && Valid()
      ensures others == old(others)
    {
      hide Sound;
      hide Entry;
      hide Wrapped;
      Logs(State());
      StepKeeps(State(), step);
      match step {
        case LoadConsumer =>
          if writing.Resting? {
            writing := Busy(Free(consumer, prod, desc.Length), 0);
          }
        case Write(item) =>
          if writing.Busy? && writing.done < writing.limit {
            desc[Entry(prod + writing.done, desc.Length)] := item;
            writing := writing.(done := writing.done + 1);
            written := written + [item];
          }
        case Publish =>
          if writing.Busy? {
            prod := Wrapped(prod + writing.done);
            producer, published, writing := prod, published + writing.done, Resting;
          }
        case LoadProducer(max) =>
          if reading.Resting? {
            reading := Busy(Min(Ready(producer, cons, desc.Length), max), 0);
          }
        case ReadEntry =>
          if reading.Busy? && reading.done < reading.limit {
            read := read + [desc[Entry(cons + reading.done, desc.Length)]];
            reading := reading.(done := reading.done + 1);
          }
        case Release =>
          if reading.Busy? && reading.done == reading.limit {
            cons := Wrapped(cons + reading.done);
            consumer, released, reading := cons, released + reading.done, Resting;
          }
      }
    }

    /** The other side runs for a while. */
    method Others(writer: bool)
      requires Valid()
      modifies this, desc
      ensures Valid()
      ensures !writer ==> WriterKept(old(State()), State())
      ensures writer ==> ReaderKept(old(State()), State())
    {
      hide Sound;
      hide Next;
      if others == [] {
        return;
      }
      var turn := others[0];
      others := others[1..];
      for i := 0 to |turn|
        invariant Valid()
        invariant !writer ==> WriterKept(old(State()), State())
        invariant writer ==> ReaderKept(old(State()), State())
      {
        if Writer(turn[i]) == writer {
          OtherSideKept(State(), turn[i]);
          Perform(turn[i]);
        }
      }
    }

    method StoreEntry(item: T)
      requires Valid() && writing.Busy? && writing.done < writing.limit
      modifies this, desc
      ensures Valid()
      ensures WriterLog() == (Busy(old(writing).limit, old(writing).done + 1), old(written) + [item], old(published))
    {
      hide Sound;
      hide Next;
      hide Entry;
      Others(false);
      ghost var before := State();
      StepKeeps(before, Write(item));
      Stored(before, item);
      desc[Entry(prod + writing.done, desc.Length)] := item;
      written := written + [item];
      writing := writing.(done := writing.done + 1);
      assert State() == Next(before, Write(item));
    }

    method PublishEntries(count: nat)
      requires Valid() && writing.Busy? && writing.done == count
      modifies this, desc
      ensures Valid() && WriterLog() == (Resting, old(written), old(published) + count)
    {
      hide Sound;
      hide Next;
      hide Wrapped;
      Others(false);
      ghost var before := State();
      Logs(before);
      StepKeeps(before, Publish);
      Published(before);
      if count > 0 {
        prod := Wrapped(prod + count);
        producer := prod;
      }
      writing, published := Resting, published + count;
      assert State() == Next(before, Publish);
    }

    ghost function WriterLog(): (Side, seq<T>, nat)
      reads this
    {
      (writing, written, published)
    }

    ghost function ReaderLog(): (Side, seq<T>, nat)
      reads this
    {
      (reading, read, released)
    }

    /** Writes items until the ring is full or they end, then publishes once. */
    method Produce(items: seq<T>) returns (count: nat)
      requires Valid() && writing.Resting?
      modifies this, desc
      ensures Valid() && writing.Resting?
      ensures count == Min(|items|, desc.Length - (old(published) - old(released)))
      ensures written == old(written) + items[..count] && published == |written|
    {
      hide Sound;
      hide Free;
      hide Next;
      Logs(State());
      LoadIsExact(State());
      Loaded(State());
      StepKeeps(State(), LoadConsumer);
      var free := Free(consumer, prod, desc.Length);
      writing := Busy(free, 0);
      count := 0;
      assert old(written) + items[..0] == old(written);
      while count < free && count < |items|
        invariant Valid() && count <= free && count <= |items|
        invariant WriterLog() == (Busy(free, count), old(written) + items[..count], old(published))
        decreases |items| - count
      {
        OneMore(old(written), items, count);
        StoreEntry(items[count]);
        count := count + 1;
      }
      PublishEntries(count);
      Logs(State());
    }

    method FetchEntry() returns (entry: T)
      requires Valid() && reading.Busy? && reading.done < reading.limit
      modifies this, desc
      ensures Valid()
      ensures ReaderLog() == (Busy(old(reading).limit, old(reading).done + 1), old(read) + [entry], old(released))
    {
      hide Sound;
      hide Next;
      hide Entry;
      Others(true);
      ghost var before := State();
      StepKeeps(before, ReadEntry);
      Fetched(before);
      entry := desc[Entry(cons + reading.done, desc.Length)];
      read := read + [entry];
      reading := reading.(done := reading.done + 1);
      assert State() == Next(before, ReadEntry);
    }

    method ReleaseEntries(count: nat)
      requires Valid() && reading == Busy(count, count)
      modifies this, desc
      ensures Valid() && ReaderLog() == (Resting, old(read), old(released) + count)
    {
      hide Sound;
      hide Next;
      hide Wrapped;
      Others(true);
      ghost var before := State();
      Logs(before);
      StepKeeps(before, Release);
      Released(before);
      if count > 0 {
        cons := Wrapped(cons + count);
        consumer := cons;
      }
      reading, released := Resting, released + count;
      assert State() == Next(before, Release);
    }

    /** Takes up to `max` published entries in order, then releases them at once. */
    method Consume(max: nat) returns (taken: seq<T>)
      requires Valid() && reading.Resting?
      modifies this, desc
      ensures Valid() && reading.Resting?
      ensures |taken| == Min(old(published) - old(released), max)
      ensures read == old(read) + taken && released == |read| && read <= written
    {
      hide Sound;
      hide Ready;
      hide Next;
      Logs(State());
      LoadIsExact(State());
      Observed(State(), max);
      StepKeeps(State(), LoadProducer(max));
      var limit := Min(Ready(producer, cons, desc.Length), max);
      reading := Busy(limit, 0);
      taken := [];
      assert old(read) + taken == old(read);
      while |taken| < limit
        invariant Valid() && |taken| <= limit
        invariant ReaderLog() == (Busy(limit, |taken|), old(read) + taken, old(released))
        decreases limit - |taken|
      {
        var entry := FetchEntry();
        assert old(read) + (taken + [entry]) == (old(read) + taken) + [entry];
        taken := taken + [entry];
      }
      ReleaseEntries(limit);
      Logs(State());
    }
  }

  lemma OneMore<T>(log: seq<T>, items: seq<T>, count: nat)
    requires count < |items|
    ensures log + items[..count + 1] == (log + items[..count]) + [items[count]]
  {
  }

  /** The reader moved, the writer did not. */
  ghost predicate WriterKept<T>(s: State<T>, t: State<T>)
  {
    s.writing == t.writing && s.written == t.written && s.published == t.published && s.prod == t.prod
  }

  /** The writer moved, the reader did not. */
  ghost predicate ReaderKept<T>(s: State<T>, t: State<T>)
  {
    s.reading == t.reading && s.read == t.read && s.released == t.released && s.cons == t.cons
  }

  lemma OtherSideKept<T>(s: State<T>, step: Step<T>)
    requires Sound(s)
    ensures Writer(step) ==> ReaderKept(s, Next(s, step))
    ensures !Writer(step) ==> WriterKept(s, Next(s, step))
  {
  }

  lemma Logs<T>(s: State<T>)
    requires Sound(s)
    ensures s.size > 0 && s.producer == s.prod && s.consumer == s.cons && s.read <= s.written
    ensures s.writing.Resting? ==> |s.written| == s.published
    ensures s.reading.Resting? ==> |s.read| == s.released
  {
  }

  lemma Loaded<T>(s: State<T>)
    requires Sound(s) && s.writing.Resting?
    ensures Next(s, LoadConsumer) == s.(writing := Busy(Free(s.consumer, s.prod, s.size), 0))
  {
  }

  lemma Observed<T>(s: State<T>, max: nat)
    requires Sound(s) && s.reading.Resting?
    ensures Next(s, LoadProducer(max)) == s.(reading := Busy(Min(Ready(s.producer, s.cons, s.size), max), 0))
  {
  }

  lemma Stored<T>(s: State<T>, item: T)
    requires Sound(s) && s.writing.Busy? && s.writing.done < s.writing.limit
    ensures Next(s, Write(item)) ==
            s.(desc := s.desc[Entry(s.prod + s.writing.done, s.size) := item],
               writing := Busy(s.writing.limit, s.writing.done + 1),
               written := s.written + [item])
  {
  }

  lemma Fetched<T>(s: State<T>)
    requires Sound(s) && s.reading.Busy? && s.reading.done < s.reading.limit
    ensures Next(s, ReadEntry) ==
            s.(reading := Busy(s.reading.limit, s.reading.done + 1),
               read := s.read + [s.desc[Entry(s.cons + s.reading.done, s.size)]])
  {
  }

  lemma Fixed<T>(s: State<T>)
    requires Sound(s)
    ensures Wrapped(s.prod) == s.prod && Wrapped(s.cons) == s.cons
  {
    hide Intact;
    hide PowerOfTwo;
  }

  /** With nothing written the published word does not move. */
  lemma Published<T>(s: State<T>)
    requires Sound(s) && s.writing.Busy?
    ensures var prod := if s.writing.done > 0 then Wrapped(s.prod + s.writing.done) else s.prod;
            Next(s, Publish) ==
            s.(prod := prod, producer := prod, writing := Resting, published := s.published + s.writing.done)
  {
    hide Sound;
    Logs(s);
    Fixed(s);
  }

  lemma Released<T>(s: State<T>)
    requires Sound(s) && s.reading.Busy? && s.reading.done == s.reading.limit
    ensures var cons := if s.reading.done > 0 then Wrapped(s.cons + s.reading.done) else s.cons;
            Next(s, Release) ==
            s.(cons := cons, consumer := cons, reading := Resting, released := s.released + s.reading.done)
  {
    hide Sound;
    Logs(s);
    Fixed(s);
  }
}
