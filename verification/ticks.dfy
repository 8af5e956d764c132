/** Elapsed time on a free-running 32-bit tick counter, as the wait loops measure it. */
module Ticks {
  import opened Uint

  /** `now - start` computed on `uint32_t`: the distance forward from `start` to `now`,
      going round the counter once when `now` has wrapped past zero. */
  function Elapsed(start: u32, now: u32): (e: u32)
    ensures start <= now ==> e == now - start
    ensures now < start ==> e == now + U32_LIMIT - start
  {
    ToU32(now - start)
  }

  /** The tick counter shows real time modulo 2^32. As long as less than one full counter
      period separates the two readings, the wrapped difference is the real elapsed time,
      whether or not the counter wrapped in between. */
  lemma ElapsedMatchesRealTime(t0: nat, t1: nat)
    requires t0 <= t1 < t0 + U32_LIMIT
    ensures Elapsed(ToU32(t0), ToU32(t1)) == t1 - t0
  {
  }

  /** One full counter period is invisible: the guarantee above cannot be stretched
      past a single wrap. */
  lemma ElapsedAliasesAfterFullPeriod(t0: nat)
    ensures Elapsed(ToU32(t0), ToU32(t0 + U32_LIMIT)) == 0
  {
  }
}
