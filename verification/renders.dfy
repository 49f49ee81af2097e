/** The slow-render rule the Redux slice and the profiler share: a render
    slower than one frame at 60 frames per second. */
module Renders {
  const SLOW_RENDER_MS: real := 16.0

  predicate IsSlow(ms: real) {
    ms > SLOW_RENDER_MS
  }

  /** The number of slow renders among `times`. */
  function SlowCount(times: seq<real>): (n: nat)
    ensures n <= |times|
  {
    if |times| == 0 then 0 else (if IsSlow(times[0]) then 1 else 0) + SlowCount(times[1..])
  }
}
