/** The millisecond timers of include/mx/timer.h. */
module Timers {
  import opened Wrappers

  /** A millisecond timer; interval 0 is stopped. */
  datatype Timer = Timer(start: nat, interval: nat)

  const STOPPED := Timer(0, 0)

  predicate Running(t: Timer) {
    t.interval != 0
  }

  /** timer_value on the 32-bit clock */
  function Value(t: Timer, now: nat): nat {
    (now - t.start) % UINT32
  }

  /** timer_remaining */
  function Remaining(t: Timer, now: nat): nat {
    if Value(t, now) < t.interval then t.interval - Value(t, now) else 0
  }

  /** timer_expired */
  predicate Expired(t: Timer, now: nat) {
    t.interval != 0 && t.interval <= Value(t, now)
  }
}
