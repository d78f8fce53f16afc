/** The caller's batch that receive calls fill, bounded by its capacity. */
module Batches {

  class FrameBatch<T> {
    const capacity: nat
    var frames: seq<T>

    constructor (capacity: nat)
      ensures this.capacity == capacity && frames == []
    {
      this.capacity, frames := capacity, [];
    }

    function Spare(): nat
      reads this
    {
      if capacity < |frames| then 0 else capacity - |frames|
    }

    method Push(frame: T)
      requires Spare() > 0
      modifies this`frames
      ensures frames == old(frames) + [frame]
    {
      frames := frames + [frame];
    }

    method Drain() returns (all: seq<T>)
      modifies this`frames
      ensures all == old(frames) && frames == []
    {
      all, frames := frames, [];
    }
  }
}
