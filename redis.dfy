/** The reconnect policy in the broker options of src/redis.ts: how long
    the publisher and subscriber handles wait before reconnecting. */
module Redis {

  /** Milliseconds added to the delay per failed attempt. */
  const StepMs: int := 50

  /** The ceiling on the reconnect delay, in milliseconds. */
  const CeilingMs: int := 2000

  /** `retryStrategy(times)`: the delay before reconnect attempt `times`,
      `Math.min(times * 50, 2000)`. The result is the smaller of the two
      candidates and equal to one of them. */
  function RetryStrategy(times: int): (delay: int)
    ensures delay <= CeilingMs && delay <= times * StepMs
    ensures delay == CeilingMs || delay == times * StepMs
    ensures times >= 0 ==> delay >= 0
  {
    if times * StepMs < CeilingMs then times * StepMs else CeilingMs
  }

  /** Up to the 40th attempt the delay grows linearly. */
  lemma RetryLinearBelowCeiling(times: int)
    requires times <= 40
    ensures RetryStrategy(times) == StepMs * times
  {
  }

  /** From the 40th attempt on the delay stays at the ceiling. */
  lemma RetryCappedFrom40(times: int)
    requires times >= 40
    ensures RetryStrategy(times) == CeilingMs
  {
  }

  /** A later attempt never waits less than an earlier one. */
  lemma RetryMonotone(earlier: int, later: int)
    requires earlier <= later
    ensures RetryStrategy(earlier) <= RetryStrategy(later)
  {
  }
}
