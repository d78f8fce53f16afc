/** Free-running indices kept in circular slots. */
module Slots {
  lemma MultipleIsFar(c: int, k: int)
    requires c > 0
    ensures k >= 1 ==> c * k >= c
    ensures k <= -1 ==> c * k <= -c
  {
  }

  /** Indices less than one lap apart sit in different slots. */
  lemma DistinctSlots(p: nat, q: nat, capacity: nat)
    requires p < q < p + capacity
    ensures p % capacity != q % capacity
  {
    var k := q / capacity - p / capacity;
    MultipleIsFar(capacity, k);
    assert q - p == capacity * k + (q % capacity - p % capacity);
  }

  lemma DropsMultiple(x: nat, c: nat, k: int)
    requires c > 0 && x - c * k >= 0
    ensures (x - c * k) % c == x % c
  {
    var d := x / c - k - (x - c * k) / c;
    MultipleIsFar(c, d);
    assert c * d == (x - c * k) % c - x % c;
  }

  lemma MultipleDivides(c: nat, k: nat)
    requires c > 0
    ensures c * k >= 0 && (c * k) % c == 0
  {
    MultipleIsFar(c, k);
    DropsMultiple(c * k, c, k);
  }

  /** Where slot `slot` starts. */
  function Address(slot: nat, size: nat): nat
  {
    ScaleKeepsOrder(0, slot, size);
    slot * size
  }

  /** An offset inside a slot does not move its quotient. */
  lemma SlotOfAddress(slot: nat, offset: nat, size: nat)
    requires offset < size
    ensures slot * size >= 0 && (slot * size + offset) / size == slot && (slot * size + offset) % size == offset
  {
    var a := slot * size + offset;
    var q := a / size;
    MultipleIsFar(size, q - slot);
    Distributes(size, q, slot);
    assert a == size * q + a % size;
  }

  lemma Distributes(c: int, a: int, b: int)
    ensures c * (a - b) == c * a - c * b && c * b == b * c
  {
  }

  lemma ScaleKeepsOrder(a: nat, b: nat, size: nat)
    requires a <= b
    ensures a * size <= b * size
  {
  }

  lemma Exactly(c: nat, x: nat)
    requires c > 0 && x % c == 0
    ensures x == c * (x / c)
  {
  }

  lemma DoubleFactor(c: nat, k: nat, d: nat)
    requires d == 2 * c
    ensures d * k == 2 * (c * k)
  {
  }

  lemma TwiceMultiple(c: nat, k: nat, x: nat, d: nat)
    requires c > 0 && x == c * k && d == 2 * c
    ensures (2 * x) % d == 0
  {
    DoubleFactor(c, k, d);
    MultipleDivides(d, k);
  }

  lemma TwiceDivides(c: nat, x: nat)
    requires c > 0 && x % c == 0
    ensures (2 * x) % (2 * c) == 0
  {
    Exactly(c, x);
    TwiceMultiple(c, x / c, x, 2 * c);
  }

  /** An index that wraps at a multiple of the capacity keeps its slot. */
  lemma WrapKeepsSlot(x: nat, wrap: nat, c: nat)
    requires c > 0 && wrap > 0 && wrap % c == 0
    ensures x % wrap % c == x % c
  {
    var m, laps := wrap / c, x / wrap;
    assert wrap == c * m;
    assert wrap * laps == c * (m * laps);
    assert x % wrap == x - c * (m * laps);
    DropsMultiple(x, c, m * laps);
  }
}
