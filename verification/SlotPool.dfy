/** The pool of fixed slots behind kernel-bypass drivers: frames callers hold, the list
    that dropped frames queue their slots on, and the multiset each slot is once in. */
module SlotPool {

  /** Each of the slots 0..n once. */
  ghost function All(n: nat): multiset<nat>
  {
    if n == 0 then multiset{} else All(n - 1) + multiset{n - 1}
  }

  lemma {:induction false} AllOnce(n: nat, slot: nat)
    ensures All(n)[slot] == if slot < n then 1 else 0
    ensures |All(n)| == n
  {
    if n > 0 {
      AllOnce(n - 1, slot);
    }
  }

  function Without<T>(s: seq<T>, i: nat): seq<T>
    requires i < |s|
  {
    s[..i] + s[i + 1..]
  }

  lemma WithoutOne(s: seq<nat>, i: nat)
    requires i < |s|
    ensures multiset(s) == multiset(Without(s, i)) + multiset{s[i]}
  {
    assert s == s[..i] + [s[i]] + s[i + 1..];
  }

  lemma {:induction false} EachOnce(n: nat)
    ensures multiset(seq(n, i => i)) == All(n)
  {
    if n > 0 {
      EachOnce(n - 1);
      assert seq(n, i => i) == seq(n - 1, i => i) + [n - 1];
    }
  }

  /** Everything in some place. */
  ghost function Sum(places: seq<multiset<nat>>): multiset<nat>
  {
    if places == [] then multiset{} else Sum(places[..|places| - 1]) + places[|places| - 1]
  }

  lemma {:induction false} SumUpdate(places: seq<multiset<nat>>, i: nat, m: multiset<nat>)
    requires i < |places|
    ensures Sum(places[i := m]) + places[i] == Sum(places) + m
    decreases |places|
  {
    var n := |places| - 1;
    var updated := places[i := m];
    if i < n {
      SumUpdate(places[..n], i, m);
      assert updated[..n] == places[..n][i := m];
      Shuffle(Sum(updated[..n]), places[i], Sum(places[..n]), m, places[n]);
    } else {
      assert updated[..n] == places[..n];
      Shuffle(Sum(places[..n]), multiset{}, Sum(places[..n]), multiset{}, multiset{});
    }
  }

  lemma Shuffle(a: multiset<nat>, b: multiset<nat>, c: multiset<nat>, d: multiset<nat>, e: multiset<nat>)
    requires a + b == c + d
    ensures (a + e) + b == (c + e) + d
  {
    forall x: nat ensures ((a + e) + b)[x] == ((c + e) + d)[x] {
      assert (a + b)[x] == (c + d)[x];
    }
  }

  lemma Cancel(s: multiset<nat>, s1: multiset<nat>, s2: multiset<nat>,
               kept: multiset<nat>, moved: multiset<nat>, there: multiset<nat>)
    requires s1 + (kept + moved) == s + kept && s2 + there == s1 + (there + moved)
    ensures s2 == s
  {
    forall x: nat ensures s2[x] == s[x] {
      assert (s1 + (kept + moved))[x] == (s + kept)[x] && (s2 + there)[x] == (s1 + (there + moved))[x];
    }
  }

  /** Moving slots from one place to another loses none and doubles none. */
  lemma MoveKeeps(places: seq<multiset<nat>>, from: nat, to: nat, kept: multiset<nat>, moved: multiset<nat>)
    requires from < |places| && to < |places| && from != to && places[from] == kept + moved
    ensures Sum(places[from := kept][to := places[to] + moved]) == Sum(places)
  {
    SumUpdate(places, from, kept);
    var between := places[from := kept];
    SumUpdate(between, to, places[to] + moved);
    Cancel(Sum(places), Sum(between), Sum(between[to := places[to] + moved]), kept, moved, places[to]);
  }

  /** A slot in two places would be there twice. */
  lemma {:induction false} Elsewhere(places: seq<multiset<nat>>, i: nat, j: nat, slot: nat)
    requires i < j < |places| && slot in places[i] && slot in places[j]
    ensures Sum(places)[slot] >= 2
    decreases |places|
  {
    var n := |places| - 1;
    if j < n {
      Elsewhere(places[..n], i, j, slot);
    } else {
      Somewhere(places[..n], i, slot);
    }
  }

  lemma {:induction false} Somewhere(places: seq<multiset<nat>>, i: nat, slot: nat)
    requires i < |places| && slot in places[i]
    ensures Sum(places)[slot] >= places[i][slot] >= 1
    decreases |places|
  {
    var n := |places| - 1;
    if i < n {
      Somewhere(places[..n], i, slot);
    }
  }

  /** A slot in the sum is in some place. */
  lemma {:induction false} PlaceOf(places: seq<multiset<nat>>, slot: nat) returns (i: nat)
    requires slot in Sum(places)
    ensures i < |places| && slot in places[i]
    decreases |places|
  {
    var n := |places| - 1;
    if slot in places[n] {
      i := n;
    } else {
      i := PlaceOf(places[..n], slot);
    }
  }

  /** When every slot is in one place, it is there once and nowhere else. */
  lemma OnlyOne(places: seq<multiset<nat>>, n: nat, i: nat, slot: nat)
    requires i < |places| && Sum(places) == All(n) && slot in places[i]
    ensures slot < n && places[i][slot] == 1
    ensures forall j :: 0 <= j < |places| && j != i ==> slot !in places[j]
  {
    hide Sum;
    AllOnce(n, slot);
    Somewhere(places, i, slot);
    forall j | 0 <= j < |places| && j != i ensures slot !in places[j] {
      if slot in places[j] {
        Elsewhere(places, if i < j then i else j, if i < j then j else i, slot);
        assert false;
      }
    }
  }

  /** With every other place empty, the sum is the one place. */
  lemma {:induction false} NothingBut(places: seq<multiset<nat>>, i: nat)
    requires i < |places| && forall k :: 0 <= k < |places| && k != i ==> places[k] == multiset{}
    ensures Sum(places) == places[i]
    decreases |places|
  {
    var n := |places| - 1;
    if i < n {
      NothingBut(places[..n], i);
    } else {
      NothingAnywhere(places[..n]);
    }
  }

  lemma {:induction false} NothingAnywhere(places: seq<multiset<nat>>)
    requires forall k :: 0 <= k < |places| ==> places[k] == multiset{}
    ensures Sum(places) == multiset{}
    decreases |places|
  {
    if places != [] {
      NothingAnywhere(places[..|places| - 1]);
    }
  }

  /** Two places together hold no more than there is. */
  lemma {:induction false} TwoFit(places: seq<multiset<nat>>, i: nat, j: nat)
    requires i < j < |places|
    ensures |places[i]| + |places[j]| <= |Sum(places)|
    decreases |places|
  {
    var n := |places| - 1;
    if j < n {
      TwoFit(places[..n], i, j);
    } else {
      OneFits(places[..n], i);
    }
  }

  lemma {:induction false} OneFits(places: seq<multiset<nat>>, i: nat)
    requires i < |places|
    ensures |places[i]| <= |Sum(places)|
    decreases |places|
  {
    var n := |places| - 1;
    if i < n {
      OneFits(places[..n], i);
    }
  }

  /** When every slot is in one place, a slot taken out of a place is nowhere else. */
  lemma OnlyHere(places: seq<multiset<nat>>, n: nat, i: nat, slot: nat, rest: multiset<nat>)
    requires i < |places| && Sum(places) == All(n) && places[i] == multiset{slot} + rest
    ensures slot < n && slot !in rest
    ensures forall j :: 0 <= j < |places| && j != i ==> slot !in places[j]
  {
    hide Sum;
    hide All;
    OnlyOne(places, n, i, slot);
  }

  datatype IndexFrame = IndexFrame(slot: nat, offset: nat, len: nat)

  /** `held` are the slots of frames callers hold, `minted` those of frames made by the
      poll under way. */
  class IndexPool {
    const count: nat
    const stride: nat
    var freed: seq<nat>
    var held: seq<nat>
    var minted: seq<nat>
    // the list the last drain was given to fill
    ghost var offered: seq<nat>

    constructor (count: nat, stride: nat)
      ensures this.count == count && this.stride == stride && freed == [] && held == [] && minted == []
      ensures offered == []
    {
      this.count, this.stride, freed, held, minted, offered := count, stride, [], [], [], [];
    }

    /** The caller must own the slot: no live frame covers it and it is in none of the
        places in `elsewhere`. */
    method Frame(slot: nat, offset: nat, len: nat, ghost elsewhere: multiset<nat>) returns (frame: IndexFrame)
      requires slot < count && offset + len <= stride
      requires slot !in held && slot !in minted && slot !in elsewhere
      modifies this`minted
      ensures frame == IndexFrame(slot, offset, len) && minted == old(minted) + [slot]
    {
      minted := minted + [slot];
      frame := IndexFrame(slot, offset, len);
    }

    /** Swaps the list of dropped slots with the caller's list. Debug builds also insist
        that the caller's list is empty. */
    method DrainFreed(into: seq<nat>) returns (drained: seq<nat>)
      modifies this`freed, this`offered
      ensures drained == old(freed) && freed == into && offered == into
    {
      drained, freed, offered := freed, into, into;
    }

    /** A caller's frame drops. */
    method Drop(i: nat)
      requires i < |held|
      modifies this`freed, this`held
      ensures freed == old(freed) + [old(held)[i]] && held == Without(old(held), i)
    {
      freed := freed + [held[i]];
      held := Without(held, i);
    }
  }

  ghost function SlotsOf(frames: seq<IndexFrame>): (slots: seq<nat>)
    ensures |slots| == |frames|
  {
    seq(|frames|, k requires 0 <= k < |frames| => frames[k].slot)
  }

  /** What was added to the batch is what was yielded. */
  ghost predicate InStep(frames0: seq<IndexFrame>, yielded0: seq<IndexFrame>, frames: seq<IndexFrame>,
                         yielded: seq<IndexFrame>)
  {
    yielded0 <= yielded && frames == frames0 + yielded[|yielded0|..]
  }

  lemma InStepYet(frames: seq<IndexFrame>, yielded: seq<IndexFrame>)
    ensures InStep(frames, yielded, frames, yielded)
  {
  }

  lemma InStepOn(frames0: seq<IndexFrame>, yielded0: seq<IndexFrame>, frames: seq<IndexFrame>,
                 yielded: seq<IndexFrame>, given: seq<IndexFrame>)
    requires InStep(frames0, yielded0, frames, yielded)
    ensures InStep(frames0, yielded0, frames + given, yielded + given)
  {
    assert (yielded + given)[|yielded0|..] == yielded[|yielded0|..] + given;
  }
}
