/** Missing sequences as an ordered map `start -> end (exclusive)`, and the plain
    set of sequences it stands for. */
module GapTracking {
  import opened Octets

  const MAX_COUNT := 0xFFFF

  datatype GapRequest = GapRequest(startSeq: nat, count: nat)

  type GapMap = map<nat, nat>

  function Max(a: nat, b: nat): nat {
    if a < b then b else a
  }

  predicate Between(start: nat, q: nat, end: nat) {
    start <= q < end
  }

  /** The sequences of `[start, end)`. */
  ghost function Range(start: nat, end: nat): iset<nat> {
    iset q: nat | Between(start, q, end)
  }

  ghost predicate Covered(m: GapMap, q: nat) {
    exists s :: s in m && s <= q < m[s]
  }

  /** The sequences some range of `m` covers. */
  ghost function Missing(m: GapMap): iset<nat> {
    iset q: nat | Covered(m, q)
  }

  /** Ranges are non-empty, disjoint and non-adjacent. */
  ghost predicate Canonical(m: GapMap) {
    && (forall s :: s in m ==> s < m[s])
    && (forall s, t :: s in m && t in m && s < t ==> m[s] < t)
  }

  // ------------------------------------------------------ ordered map queries

  /** Greatest key below `k`. */
  method LastBefore(m: GapMap, k: nat) returns (r: Option<nat>)
    ensures r.None? ==> forall s :: s in m ==> k <= s
    ensures r.Some? ==> r.value in m && r.value < k && forall s :: s in m && s < k ==> s <= r.value
  {
    var at := k;
    while at > 0
      invariant forall s :: s in m && s < k ==> s < at
    {
      at := at - 1;
      if at in m {
        return Some(at);
      }
    }
    return None;
  }

  /** Least key from `k` on. */
  method FirstFrom(m: GapMap, k: nat) returns (r: Option<nat>)
    ensures r.None? ==> forall s :: s in m ==> s < k
    ensures r.Some? ==> r.value in m && k <= r.value && forall s :: s in m && k <= s ==> r.value <= s
  {
    if forall s :: s in m ==> s < k {
      return None;
    }
    ghost var limit :| limit in m && k <= limit;
    var at := k;
    while at !in m
      invariant k <= at <= limit
      invariant forall s :: s in m && k <= s ==> at <= s
      decreases limit - at
    {
      at := at + 1;
    }
    return Some(at);
  }

  // -------------------------------------------------------------------- laws

  lemma EmptyRange(start: nat, end: nat, s: iset<nat>)
    requires start >= end
    ensures s + Range(start, end) == s
  {
  }

  lemma InsertAdds(m: GapMap, s: nat, e: nat)
    requires s !in m
    ensures Missing(m[s := e]) == Missing(m) + Range(s, e)
  {
    var m' := m[s := e];
    assert m'[s] == e;
    assert forall t :: t in m ==> t in m' && m'[t] == m[t];
    assert forall q :: Covered(m, q) ==> Covered(m', q);
    assert forall q :: Covered(m', q) ==> Covered(m, q) || q in Range(s, e);
  }

  lemma InsertCanonical(m: GapMap, s: nat, e: nat)
    requires Canonical(m) && s < e
    requires forall t :: t in m && t < s ==> m[t] < s
    requires forall t :: t in m && s <= t ==> e < t
    ensures Canonical(m[s := e])
  {
  }

  lemma RemoveUncovers(m: GapMap, s: nat, q: nat)
    requires Canonical(m) && s in m
    ensures Covered(m - {s}, q) <==> Covered(m, q) && !(s <= q < m[s])
  {
    var m' := m - {s};
    if Covered(m, q) {
      var t :| t in m && t <= q < m[t];
      assert t != s ==> t in m';
    }
    if Covered(m', q) {
      var t :| t in m' && t <= q < m'[t];
      assert t in m && t != s;
    }
  }

  lemma RemoveSubtracts(m: GapMap, s: nat)
    requires Canonical(m) && s in m
    ensures Canonical(m - {s})
    ensures Missing(m - {s}) == Missing(m) - Range(s, m[s])
    ensures Range(s, m[s]) <= Missing(m)
  {
    forall q: nat ensures Covered(m - {s}, q) <==> Covered(m, q) && !(s <= q < m[s]) {
      RemoveUncovers(m, s, q);
    }
  }

  /** Absorbing a touching range into `[start, end)` covers nothing new. */
  lemma AbsorbKeeps(m: GapMap, start: nat, end: nat, s: nat)
    requires Canonical(m) && s in m && start <= s <= end
    ensures Canonical(m - {s})
    ensures Missing(m - {s}) + Range(start, Max(end, m[s])) == Missing(m) + Range(start, end)
  {
    RemoveSubtracts(m, s);
  }

  /** A range reaching `start` from the left extends `[start, end)` leftwards. */
  lemma WidenLeft(m: GapMap, s: nat, start: nat, end: nat)
    requires Canonical(m) && s in m && s < start <= m[s] && start < end
    ensures Missing(m) + Range(s, Max(end, m[s])) == Missing(m) + Range(start, end)
  {
    RemoveSubtracts(m, s);
  }

  /** `m` with `q` cut out of the range at `s`. */
  ghost function Cut(m: GapMap, s: nat, q: nat): GapMap
    requires s in m
  {
    var m1 := m - {s};
    var m2 := if s < q then m1[s := q] else m1;
    if q + 1 < m[s] then m2[q + 1 := m[s]] else m2
  }

  lemma CutUncovers(m: GapMap, s: nat, q: nat, p: nat)
    requires Canonical(m) && s in m && s <= q < m[s]
    ensures Covered(Cut(m, s, q), p) <==> Covered(m, p) && p != q
  {
    var c := Cut(m, s, q);
    if Covered(m, p) && p != q {
      var t :| t in m && t <= p < m[t];
      var t' := if t == s && q < p then q + 1 else t;
      assert t' in c && t' <= p < c[t'];
    }
    if Covered(c, p) {
      var t :| t in c && t <= p < c[t];
      assert t == q + 1 || (t in m && p < m[t]);
      assert t == q + 1 && t !in m ==> s <= p < m[s];
    }
  }

  lemma CutRemoves(m: GapMap, s: nat, q: nat)
    requires Canonical(m) && s in m && s <= q < m[s]
    ensures Canonical(Cut(m, s, q))
    ensures Missing(Cut(m, s, q)) == Missing(m) - iset{q}
  {
    forall p: nat ensures Covered(Cut(m, s, q), p) <==> Covered(m, p) && p != q {
      CutUncovers(m, s, q, p);
    }
    hide Covered;
  }

  /** Neither neighbour of a tracked range is missing. */
  lemma EdgesUncovered(m: GapMap, s: nat)
    requires Canonical(m) && s in m
    ensures Covered(m, s) && Covered(m, m[s] - 1) && !Covered(m, m[s])
    ensures s > 0 ==> !Covered(m, s - 1)
  {
  }

  lemma RangeCovers(m: GapMap, s: nat, q: nat)
    requires s in m
    ensures s <= q < m[s] ==> Covered(m, q)
  {
  }

  lemma SameRange(m: GapMap, n: GapMap, s: nat)
    requires Canonical(m) && Canonical(n) && s in m
    requires forall q: nat :: Covered(m, q) <==> Covered(n, q)
    ensures s in n && n[s] == m[s]
  {
    EdgesUncovered(m, s);
    var t := CoveringRange(n, s);
    EdgesUncovered(n, t);
    hide Canonical;
    var (left, right, right') := (if s > 0 then s - 1 else 0, m[s], n[t]);
    RangeCovers(n, t, left);
    RangeCovers(n, t, right);
    RangeCovers(m, s, right');
    hide Covered;
  }

  lemma CoveringRange(m: GapMap, q: nat) returns (s: nat)
    requires Covered(m, q)
    ensures s in m && s <= q < m[s]
  {
    s :| s in m && s <= q < m[s];
  }

  /** A canonical map is determined by the set it stands for. */
  lemma CanonicalIsUnique(m: GapMap, n: GapMap)
    requires Canonical(m) && Canonical(n) && Missing(m) == Missing(n)
    ensures m == n
  {
    forall q: nat ensures Covered(m, q) <==> Covered(n, q) {
      assert q in Missing(m) <==> q in Missing(n);
    }
    forall s | s in m ensures s in n && n[s] == m[s] { SameRange(m, n, s); }
    forall s | s in n ensures s in m && n[s] == m[s] { SameRange(n, m, s); }
  }

  // ----------------------------------------------------------------- handler

  class GapRequestHandler {
    var gaps: GapMap

    ghost predicate Valid()
      reads this
    {
      Canonical(gaps)
    }

    ghost function State(): iset<nat>
      reads this
    {
      Missing(gaps)
    }

    constructor ()
      ensures Valid() && gaps == map[] && State() == iset{}
    {
      gaps := map[];
    }

    /** Takes out every range that `[start, end)` touches or overlaps on its right, and
        returns how far the ranges reach. */
    method AbsorbRight(start: nat, end0: nat) returns (end: nat)
      requires Valid() && start < end0
      modifies this
      ensures Valid() && start < end && (forall s :: s in gaps && start <= s ==> end < s)
      ensures forall s :: s in gaps ==> s in old(gaps) && gaps[s] == old(gaps)[s]
      ensures State() + Range(start, end) == old(State()) + Range(start, end0)
    {
      hide Missing;
      hide Covered;
      hide Range;
      hide Canonical;
      end := end0;
      var next := FirstFrom(gaps, start);
      while next.Some? && next.value <= end
        invariant Canonical(gaps) && start < end && (next.Some? ==> next.value in gaps && start <= next.value)
        invariant forall s :: s in gaps && start <= s ==> next.Some? && next.value <= s
        invariant forall s :: s in gaps ==> s in old(gaps) && gaps[s] == old(gaps)[s]
        invariant State() + Range(start, end) == old(State()) + Range(start, end0)
        decreases |gaps|
      {
        AbsorbKeeps(gaps, start, end, next.value);
        end := Max(end, gaps[next.value]);
        gaps := gaps - {next.value};
        next := FirstFrom(gaps, start);
      }
    }

    /** Adds `[start, end)`, absorbing every range it touches or overlaps. */
    method RecordMissingRange(start0: nat, end0: nat)
      requires Valid()
      modifies this
      ensures Valid() && State() == old(State()) + Range(start0, end0)
    {
      hide Missing;
      hide Covered;
      hide Range;
      if start0 >= end0 {
        EmptyRange(start0, end0, State());
        return;
      }
      var start, end := start0, end0;
      var prev := LastBefore(gaps, start);
      if prev.Some? && gaps[prev.value] >= start {
        WidenLeft(gaps, prev.value, start, end);
        start := prev.value;
        end := Max(end, gaps[prev.value]);
      }
      assert forall s :: s in gaps && s < start ==> gaps[s] < start;
      end := AbsorbRight(start, end);
      InsertAdds(gaps, start, end);
      InsertCanonical(gaps, start, end);
      gaps := gaps[start := end];
    }

    method RecordGap(sequence: nat)
      requires Valid()
      modifies this
      ensures Valid() && State() == old(State()) + iset{sequence}
    {
      RecordMissingRange(sequence, sequence + 1);
      assert Range(sequence, sequence + 1) == iset{sequence};
    }

    /** Takes `sequence` out of the range that covers it, splitting the range. */
    method MarkReceived(sequence: nat)
      requires Valid()
      modifies this
      ensures Valid() && State() == old(State()) - iset{sequence}
    {
      var at := LastBefore(gaps, sequence + 1);
      if at.None? || sequence >= gaps[at.value] {
        assert !Covered(gaps, sequence);
        return;
      }
      var start, end := at.value, gaps[at.value];
      CutRemoves(gaps, start, sequence);
      gaps := gaps - {start};
      if start < sequence {
        gaps := gaps[start := sequence];
      }
      if sequence + 1 < end {
        gaps := gaps[sequence + 1 := end];
      }
    }

    method HasPending() returns (pending: bool)
      requires Valid()
      ensures pending <==> State() != iset{}
    {
      pending := gaps != map[];
      if pending {
        var s :| s in gaps;
        assert s in State();
      }
    }

    /** The tracked ranges cut into requests of at most `MAX_COUNT` sequences. */
    method PendingGaps() returns (out: seq<GapRequest>)
      requires Valid()
      ensures Lists(out, State())
    {
      out := [];
      var done: nat := 0;
      var key := FirstFrom(gaps, 0);
      while key.Some?
        invariant key.None? ==> forall s :: s in gaps ==> s < done
        invariant key.Some? ==> key.value in gaps && done <= key.value
        invariant key.Some? ==> forall s :: s in gaps && done <= s ==> key.value <= s
        invariant forall s :: s in gaps && s < done ==> gaps[s] <= done
        invariant ListsBelow(out, gaps, done)
        decreases |KeysFrom(gaps, done)|, key.Some?
      {
        SkipTo(out, gaps, done, key.value);
        out := ListRange(key.value, out);
        KeysDrop(gaps, done, key.value);
        done := gaps[key.value];
        key := FirstFrom(gaps, done);
      }
    }

    /** Appends the requests for the range at `start`. */
    method ListRange(start: nat, listed: seq<GapRequest>) returns (out: seq<GapRequest>)
      requires Valid() && start in gaps && ListsBelow(listed, gaps, start)
      ensures ListsBelow(out, gaps, gaps[start])
    {
      out := listed;
      var end := gaps[start];
      var cur: nat := start;
      while cur < end
        invariant start <= cur <= end
        invariant ListsBelow(out, gaps, cur)
      {
        var count := if end - cur <= MAX_COUNT then end - cur else MAX_COUNT;
        AppendChunk(out, gaps, start, cur, count);
        out := out + [GapRequest(cur, count)];
        cur := cur + count;
      }
    }
  }

  // ---------------------------------------------------------------- requests

  ghost predicate AskedFor(out: seq<GapRequest>, q: nat) {
    exists i :: 0 <= i < |out| && out[i].startSeq <= q < out[i].startSeq + out[i].count
  }

  ghost predicate Ordered(out: seq<GapRequest>) {
    && (forall i :: 0 <= i < |out| ==> 1 <= out[i].count <= MAX_COUNT)
    && (forall i, j :: 0 <= i < j < |out| ==> out[i].startSeq + out[i].count <= out[j].startSeq)
  }

  /** `out` asks for each member of `missing` once, in order, in requests that a
      16-bit count can carry; a request below the limit ends its run. */
  ghost predicate Lists(out: seq<GapRequest>, missing: iset<nat>) {
    && Ordered(out)
    && (forall q :: q in missing <==> AskedFor(out, q))
    && forall i :: 0 <= i < |out| && out[i].count < MAX_COUNT ==> out[i].startSeq + out[i].count !in missing
  }

  // ------------------------------------------------------- chunking the ranges

  ghost function KeysFrom(m: GapMap, k: nat): set<nat> {
    set s | s in m && k <= s
  }

  lemma KeysDrop(m: GapMap, done: nat, key: nat)
    requires Canonical(m) && key in m && done <= key
    ensures |KeysFrom(m, m[key])| < |KeysFrom(m, done)|
  {
    var (a, b) := (KeysFrom(m, m[key]), KeysFrom(m, done));
    assert key in b && key !in a && a <= b;
    assert b == a + (b - a);
  }

  /** `out` lists what `m` covers below `limit`; a request below the size limit
      ends its run, unless it runs up to `limit`. */
  ghost predicate ListsBelow(out: seq<GapRequest>, m: GapMap, limit: nat) {
    && Ordered(out)
    && (forall i :: 0 <= i < |out| ==> out[i].startSeq + out[i].count <= limit)
    && (forall q: nat :: AskedFor(out, q) <==> Covered(m, q) && q < limit)
    && (forall i :: 0 <= i < |out| && out[i].count < MAX_COUNT ==> !Covered(m, out[i].startSeq + out[i].count))
  }

  lemma SkipTo(out: seq<GapRequest>, m: GapMap, done: nat, start: nat)
    requires ListsBelow(out, m, done) && Canonical(m)
    requires done <= start && forall s :: s in m && s < start ==> m[s] <= done
    ensures ListsBelow(out, m, start)
  {
  }

  lemma AskedAppend(out: seq<GapRequest>, g: GapRequest, q: nat)
    ensures AskedFor(out + [g], q) <==> AskedFor(out, q) || g.startSeq <= q < g.startSeq + g.count
  {
    var out' := out + [g];
    if AskedFor(out, q) {
      var i :| 0 <= i < |out| && out[i].startSeq <= q < out[i].startSeq + out[i].count;
      assert out'[i] == out[i];
    }
    assert out'[|out|] == g;
  }

  lemma ChunkCovered(m: GapMap, start: nat, cur: nat, count: nat)
    requires Canonical(m) && start in m && start <= cur && cur + count <= m[start]
    ensures forall q: nat :: cur <= q < cur + count ==> Covered(m, q)
    ensures cur + count == m[start] ==> !Covered(m, cur + count)
  {
    EdgesUncovered(m, start);
  }

  lemma AppendChunk(out: seq<GapRequest>, m: GapMap, start: nat, cur: nat, count: nat)
    requires ListsBelow(out, m, cur) && Canonical(m)
    requires start in m && start <= cur && cur + count <= m[start] && 1 <= count <= MAX_COUNT
    requires count < MAX_COUNT ==> cur + count == m[start]
    ensures ListsBelow(out + [GapRequest(cur, count)], m, cur + count)
  {
    ChunkCovered(m, start, cur, count);
    hide Covered;
    hide AskedFor;
    var g := GapRequest(cur, count);
    forall q: nat ensures AskedFor(out + [g], q) <==> AskedFor(out, q) || cur <= q < cur + count {
      AskedAppend(out, g, q);
    }
  }

  // ------------------------------------------------------------- whole history

  datatype GapOp = Recorded(start: nat, end: nat) | Received(sequence: nat)

  /** What the handler stands for after `ops`, by its methods' contracts. */
  ghost function Tracked(ops: seq<GapOp>): iset<nat> {
    if ops == [] then iset{}
    else
      var before := Tracked(ops[..|ops| - 1]);
      match ops[|ops| - 1]
      case Recorded(start, end) => before + Range(start, end)
      case Received(q) => before - iset{q}
  }

  ghost predicate Opens(op: GapOp, q: nat) {
    op.Recorded? && op.start <= q < op.end
  }

  /** Some operation recorded `q` and none after it received `q`. */
  ghost predicate StillOpen(ops: seq<GapOp>, q: nat) {
    exists i :: 0 <= i < |ops| && Opens(ops[i], q) && Received(q) !in ops[i..]
  }

  /** Exactly the recorded and not since received sequences are tracked. */
  lemma {:induction false} TrackedIsRecordedMinusReceived(ops: seq<GapOp>, q: nat)
    ensures q in Tracked(ops) <==> StillOpen(ops, q)
  {
    if ops != [] {
      var (n, init) := (|ops| - 1, ops[..|ops| - 1]);
      TrackedIsRecordedMinusReceived(init, q);
      if StillOpen(init, q) && ops[n] != Received(q) {
        var i :| 0 <= i < |init| && Opens(init[i], q) && Received(q) !in init[i..];
        assert ops[i..] == init[i..] + [ops[n]];
        assert Opens(ops[i], q);
      }
      if Opens(ops[n], q) {
        assert ops[n..] == [ops[n]];
      }
      if StillOpen(ops, q) {
        var i :| 0 <= i < |ops| && Opens(ops[i], q) && Received(q) !in ops[i..];
        assert ops[n] in ops[i..];
        if i < n {
          assert ops[i..] == init[i..] + [ops[n]];
          assert Opens(init[i], q);
        }
      }
    }
  }
}
