/**
 * The servers' `std::chrono::steady_clock`: a time point is a count of
 * ticks, and `duration_cast<seconds>` keeps the whole seconds of a tick
 * count, truncating toward zero.
 */
module Clock {
  /** Ticks per second of `steady_clock` (nanoseconds on the usual platforms). */
  const TicksPerSecond: nat := 1_000_000_000

  /** `duration_cast<std::chrono::seconds>` of a duration of `d` ticks. */
  function WholeSeconds(d: int): (s: int)
    ensures 0 <= d ==> 0 <= s && s * TicksPerSecond <= d < (s + 1) * TicksPerSecond
    ensures d < 0 ==> s <= 0 && (s - 1) * TicksPerSecond < d <= s * TicksPerSecond
  {
    if d >= 0 then d / TicksPerSecond else -((-d) / TicksPerSecond)
  }

  /**
   * A duration of `d` ticks is longer than `timeout` whole seconds exactly
   * when it lasts at least one second more than the timeout.
   */
  lemma LongerThan(d: int, timeout: nat)
    ensures WholeSeconds(d) > timeout <==> d >= (timeout + 1) * TicksPerSecond
  {
    var s := WholeSeconds(d);
    if s > timeout {
      assert s * TicksPerSecond >= (timeout + 1) * TicksPerSecond;
    } else if d >= 0 {
      assert (s + 1) * TicksPerSecond <= (timeout + 1) * TicksPerSecond;
    }
  }

  /** An elapsed time is under `timeout` whole seconds exactly when it is under `timeout` seconds of ticks. */
  lemma ShorterThan(d: int, timeout: int)
    requires 0 <= d
    ensures WholeSeconds(d) < timeout <==> d < timeout * TicksPerSecond
  {
    var s := WholeSeconds(d);
    if s < timeout {
      assert (s + 1) * TicksPerSecond <= timeout * TicksPerSecond;
    } else {
      assert s * TicksPerSecond >= timeout * TicksPerSecond;
    }
  }
}
