/**
 One token bucket, as the receivers use golang.org/x/time/rate: AllowN(now, 1) on a bucket
 that holds at most `burst` tokens and refills at a constant rate. Balances are exact. A
 token is worth `unit` units and `perNano` units accrue every nanosecond, so every rational
 rate has an exact form.
 */
module TokenBucket {
  import opened Timeline

  type pos = n: nat | n >= 1 witness 1

  datatype Rate = Rate(unit: pos, perNano: nat, burst: nat) {
    /** A full bucket, in units. */
    function Cap(): nat {
      burst * unit
    }

    function Accrued(elapsed: nat): nat {
      perNano * elapsed
    }
  }

  function PerSecond(tokens: nat, burst: nat): Rate {
    Rate(SECOND, tokens, burst)
  }

  datatype Bucket = Bucket(tokens: int, last: int)

  /** A new limiter starts full; its clock starts at the zero time. */
  function Fresh(r: Rate): Bucket {
    Bucket(r.Cap(), 0)
  }

  /** The balance at t. A clock reading before the last admitted call accrues nothing. */
  function Available(r: Rate, b: Bucket, t: int): (a: int)
    ensures a <= r.Cap()
    ensures b.tokens >= 0 ==> a >= 0
  {
    var balance := b.tokens + r.Accrued(Max0(t - b.last));
    if balance > r.Cap() then r.Cap() else balance
  }

  predicate Admits(r: Rate, b: Bucket, t: int) {
    Available(r, b, t) >= r.unit
  }

  /** An admitted call spends one token and moves the bucket's clock, back as well as forth;
      a refused one changes nothing. */
  function Take(r: Rate, b: Bucket, t: int): Bucket {
    if Admits(r, b, t) then Bucket(Available(r, b, t) - r.unit, t) else b
  }

  /** A bucket is full from t on. */
  predicate Full(r: Rate, b: Bucket, t: int) {
    b.tokens + r.Accrued(Max0(t - b.last)) >= r.Cap()
  }

  lemma AccruedMonotone(r: Rate, a: nat, b: nat)
    requires a <= b
    ensures r.Accrued(a) <= r.Accrued(b)
  {
  }

  lemma AccruedAdds(r: Rate, a: nat, b: nat)
    ensures r.Accrued(a + b) == r.Accrued(a) + r.Accrued(b)
  {
  }

  lemma FullAvailable(r: Rate, b: Bucket, t: int, later: int)
    requires Full(r, b, t) && t <= later
    ensures Full(r, b, later) && Available(r, b, later) == r.Cap()
  {
    AccruedMonotone(r, Max0(t - b.last), Max0(later - b.last));
  }

  /** A balance grows by no more than the rate over the time the clock moved forwards. */
  lemma AvailableGrows(r: Rate, b: Bucket, t: int, later: int)
    ensures Available(r, b, later) <= Available(r, b, t) + r.Accrued(Max0(later - t))
    ensures t <= later ==> Available(r, b, t) <= Available(r, b, later)
  {
    var before, after, moved := Max0(t - b.last), Max0(later - b.last), Max0(later - t);
    AccruedAdds(r, before, moved);
    AccruedMonotone(r, after, before + moved);
    if t <= later {
      AccruedMonotone(r, before, after);
    }
  }

  /** Between calls the balance of a bucket whose clock is not ahead grows with time, up to full. */
  lemma BalanceLater(r: Rate, b: Bucket, t: int, later: int)
    requires t <= later && (b.last <= t || b.tokens == r.Cap())
    ensures var a := Available(r, b, t) + r.Accrued(later - t);
            Available(r, b, later) == if a > r.Cap() then r.Cap() else a
  {
    if b.last <= t {
      AccruedAdds(r, t - b.last, later - t);
    }
  }

  lemma AfterTake(r: Rate, b: Bucket, t: int)
    ensures Available(r, Take(r, b, t), t) == Available(r, b, t) - (if Admits(r, b, t) then r.unit else 0)
  {
  }

  /** The buckets answer alike from t on: they are the same, or both full. */
  predicate Alike(r: Rate, b: Bucket, c: Bucket, t: int) {
    b == c || (Full(r, b, t) && Full(r, c, t))
  }

  lemma AlikeStep(r: Rate, b: Bucket, c: Bucket, t: int, now: int)
    requires Alike(r, b, c, t) && t <= now
    ensures Admits(r, b, now) == Admits(r, c, now)
    ensures Alike(r, Take(r, b, now), Take(r, c, now), now)
  {
    if b != c {
      FullAvailable(r, b, t, now);
      FullAvailable(r, c, t, now);
    }
  }
}
