/** What the two webhook receivers have in common: their limits and the shape of their answers. */
module WebhookLimits {
  import opened TokenBucket
  import opened KeyedLimiter
  import opened OutOfOrder

  const PER_IP: Config := Config(PerSecond(10, 20), 10000)
  const PER_SUBSCRIPTION: Config := Config(PerSecond(5, 10), 10000)
  const GLOBAL: Rate := PerSecond(50, 100)

  datatype Body = Readable | TooLarge | Broken
  /** The answer's status; Refreshing leaves it to the refresh request. */
  datatype Verdict = Status(code: int) | Refreshing

  /** Ten idle minutes refill every bucket in use. */
  lemma ConstantsRefill()
    ensures IdleRefills(PER_IP.rate) && IdleRefills(PER_SUBSCRIPTION.rate)
  {
  }

  /** With calls out of order, one source can have 40 calls admitted at one instant and one
      Subscription 20: twice what their bounds allow. */
  lemma ConstantsExceed()
    ensures AdmittedOver(PER_IP, SecondBurst(PER_IP), "k", RETURN, 0) >= 40
    ensures AdmittedOver(PER_SUBSCRIPTION, SecondBurst(PER_SUBSCRIPTION), "k", RETURN, 0) >= 20
    ensures !Bounded(PER_IP, SecondBurst(PER_IP)) && !Bounded(PER_SUBSCRIPTION, SecondBurst(PER_SUBSCRIPTION))
  {
    SecondBurstExceeds(PER_IP);
    SecondBurstExceeds(PER_SUBSCRIPTION);
  }
}
