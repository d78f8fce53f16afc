/** Slots as contiguous runs: what the legacy path asks the kernel to take, one request a
    run. */
module ProvideRuns {

  predicate Ordered(s: seq<nat>)
  {
    forall i, j :: 0 <= i < j < |s| ==> s[i] <= s[j]
  }

  function Insert(x: nat, s: seq<nat>): seq<nat>
  {
    if s == [] || x <= s[0] then [x] + s else [s[0]] + Insert(x, s[1..])
  }

  function Sort(s: seq<nat>): seq<nat>
  {
    if s == [] then [] else Insert(s[0], Sort(s[1..]))
  }

  lemma OrderedCons(x: nat, s: seq<nat>)
    requires Ordered(s) && (s != [] ==> x <= s[0])
    ensures Ordered([x] + s)
  {
  }

  lemma {:induction false} InsertHolds(x: nat, s: seq<nat>)
    ensures multiset(Insert(x, s)) == multiset(s) + multiset{x} && |Insert(x, s)| == |s| + 1
  {
    if s != [] && x > s[0] {
      var rest := s[1..];
      InsertHolds(x, rest);
      assert s == [s[0]] + rest;
    }
  }

  lemma {:induction false} InsertKeeps(x: nat, s: seq<nat>)
    requires Ordered(s)
    ensures Ordered(Insert(x, s)) && Insert(x, s) != []
    ensures Insert(x, s)[0] == x || (s != [] && Insert(x, s)[0] == s[0])
  {
    if s == [] || x <= s[0] {
      OrderedCons(x, s);
    } else {
      var rest := s[1..];
      assert Ordered(rest) && (rest != [] ==> s[0] <= rest[0]);
      hide Ordered;
      InsertKeeps(x, rest);
      OrderedCons(s[0], Insert(x, rest));
    }
  }

  lemma {:induction false} SortIsOrdered(s: seq<nat>)
    ensures Ordered(Sort(s)) && multiset(Sort(s)) == multiset(s) && |Sort(s)| == |s|
  {
    if s != [] {
      SortIsOrdered(s[1..]);
      hide Ordered;
      InsertKeeps(s[0], Sort(s[1..]));
      InsertHolds(s[0], Sort(s[1..]));
      hide Insert;
      assert s == [s[0]] + s[1..];
    }
  }

  lemma {:induction false} SortOfOrdered(s: seq<nat>)
    requires Ordered(s)
    ensures Sort(s) == s
  {
    if s != [] {
      SortOfOrdered(s[1..]);
      assert s == [s[0]] + s[1..];
    }
  }

  // --------------------------------------------------------------------- runs

  /** Slots `first`, `first + 1`, ... */
  function Run(first: nat, n: nat): (r: seq<nat>)
    ensures |r| == n
  {
    seq(n, k requires 0 <= k => first + k)
  }

  /** How many entries from `from` on count up from `next`. */
  function RunLength(s: seq<nat>, from: nat, next: nat): (n: nat)
    requires from <= |s|
    ensures from + n <= |s| && (from < |s| && s[from] == next ==> n > 0)
    decreases |s| - from
  {
    if from < |s| && s[from] == next then 1 + RunLength(s, from + 1, next + 1) else 0
  }

  /** The run is contiguous and as long as it can be. */
  lemma {:induction false} RunIsMaximal(s: seq<nat>, from: nat, next: nat)
    requires from <= |s|
    ensures var n := RunLength(s, from, next);
            && s[from..from + n] == Run(next, n)
            && (from + n < |s| ==> s[from + n] != next + n)
    decreases |s| - from
  {
    if from < |s| && s[from] == next {
      RunIsMaximal(s, from + 1, next + 1);
      var n := RunLength(s, from, next);
      assert Run(next, n) == [next] + Run(next + 1, n - 1);
      assert s[from..from + n] == [s[from]] + s[from + 1..from + n];
    }
  }

  /** Into how many runs the slots fall, taken in order. */
  function RunCount(s: seq<nat>): nat
  {
    if s == [] then 0 else 1 + RunCount(s[RunLength(s, 0, s[0])..])
  }

  lemma {:induction false} LengthOfRun(first: nat, n: nat, from: nat)
    requires from <= n
    ensures RunLength(Run(first, n), from, first + from) == n - from
    decreases n - from
  {
    if from < n {
      LengthOfRun(first, n, from + 1);
    }
  }

  /** Contiguous slots are one run. */
  lemma OneRun(first: nat, n: nat)
    requires n > 0
    ensures Sort(Run(first, n)) == Run(first, n) && RunCount(Run(first, n)) == 1
  {
    var s := Run(first, n);
    SortOfOrdered(s);
    LengthOfRun(first, n, 0);
    hide RunLength;
    assert s[n..] == [];
  }

  /** Slots no two of which are neighbours are as many runs as slots. */
  lemma {:induction false} LonelySlots(s: seq<nat>)
    requires forall i :: 0 <= i < |s| - 1 ==> s[i] + 1 < s[i + 1]
    ensures RunCount(s) == |s|
  {
    if s != [] {
      LonelySlots(s[1..]);
      assert RunLength(s, 0, s[0]) == 1;
    }
  }
}
