/** Monotonic instants, in nanoseconds. */
module Clock {

  /** Time from `at` to `now`, zero when `at` is later. */
  function Elapsed(now: nat, at: nat): nat {
    if at <= now then now - at else 0
  }
}
