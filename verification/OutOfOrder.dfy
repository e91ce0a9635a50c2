/**
 Calls whose times go back. The time of a call is read before the limiter's lock is taken, so
 calls may reach the table in another order than their times. The bound of burst + rate * d over
 an interval then fails, for two reasons: a key that was swept out on an early reading gets a new
 bucket for times it had already been served at, and a bucket whose clock moved back is refilled
 for the same time again. Here is exactly when.
 */
module OutOfOrder {
  import opened Timeline
  import opened TokenBucket
  import opened KeyedLimiter
  import opened KeyedLimiterExactness

  /** The calls admitted for a key from `from` on, over a time d. */
  function AdmittedOver(cfg: Config, calls: seq<Call>, key: string, from: int, d: nat): nat {
    AdmittedWithin(cfg, calls, key, from, from + d + 1)
  }

  predicate BoundHolds(cfg: Config, calls: seq<Call>, key: string, from: int, d: nat) {
    AdmittedOver(cfg, calls, key, from, d) * cfg.rate.unit <= cfg.rate.Cap() + cfg.rate.Accrued(d)
  }

  /** Over every interval and for every key. */
  ghost predicate Bounded(cfg: Config, calls: seq<Call>) {
    forall key, from, d: nat :: BoundHolds(cfg, calls, key, from, d)
  }

  // ---------- Calls in order ----------

  /** A key spends its burst, is swept out just over ten minutes later and comes back: two bursts
      within that time. */
  lemma ReturnedCounts(r: Rate)
    requires r.burst > 0
    ensures AdmittedOver(Config(r, 2), Returned(r), "a", 0, LATE) >= 2 * r.burst
  {
    var cfg := Config(r, 2);
    var first, rest := [] + Repeat("a", 0, r.burst), [Call("b", 0)] + [Call("c", LATE)];
    EmptiedTable(r);
    var m := After(cfg, Emptied(r));
    assert |m| == |m.Keys| == 1;
    forall j | 0 <= j < r.burst
      ensures AdmitsNth(cfg, [], "a", 0, j) && AdmitsNth(cfg, Emptied(r), "a", LATE, j)
    {
      BurstNth(cfg, [], "a", 0, j);
      BurstNth(cfg, Emptied(r), "a", LATE, j);
    }
    BurstCounts(cfg, [], "a", 0, r.burst, 0, LATE);
    assert Emptied(r) == first + rest;
    CountsGrow(cfg, first, rest, "a", 0, LATE);
    BurstCounts(cfg, Emptied(r), "a", LATE, r.burst, 0, LATE);
  }

  lemma ReturnedExceeds(r: Rate)
    requires !IdleRefills(r)
    ensures !BoundHolds(Config(r, 2), Returned(r), "a", 0, LATE) && Nondecreasing(Times(Returned(r)))
  {
    ReturnedCounts(r);
    TwoBurstsExceed(r, AdmittedOver(Config(r, 2), Returned(r), "a", 0, LATE));
  }

  lemma TwoBurstsExceed(r: Rate, c: nat)
    requires c >= 2 * r.burst && !IdleRefills(r)
    ensures c * r.unit > r.Cap() + r.Accrued(LATE)
  {
    assert c * r.unit >= 2 * r.burst * r.unit;
  }

  /** On calls in order, whatever the size of the table, the bound holds on every run exactly when
      ten idle minutes refill a bucket. */
  lemma SlidingBoundExactly(r: Rate)
    ensures IdleRefills(r)
       <==> forall max: nat, calls, key, from, d: nat ::
              Nondecreasing(Times(calls)) ==> BoundHolds(Config(r, max), calls, key, from, d)
  {
    if IdleRefills(r) {
      forall max: nat, calls, key, from, d: nat | Nondecreasing(Times(calls))
        ensures BoundHolds(Config(r, max), calls, key, from, d)
      {
        SlidingBoundInterval(Config(r, max), calls, key, from, d);
      }
    } else {
      ReturnedExceeds(r);
    }
  }

  // ---------- A swept key whose late calls arrive ----------

  const RETURN: int := 2 * LATE

  /** A key spends its burst and is then seen once at an early time. */
  function Early(r: Rate): seq<Call> {
    Repeat("k", RETURN, r.burst) + [Call("k", 0)]
  }

  /** Other keys fill the table at that time; one more key comes just over ten minutes later and
      sweeps them all out. */
  function SweptOut(cfg: Config): seq<Call>
    requires cfg.max >= 1
  {
    Early(cfg.rate) + Fillers("", 0, cfg.max - 1) + [Call("c", LATE)]
  }

  /** The rest of the first key's calls arrive. */
  function SecondBurst(cfg: Config): seq<Call>
    requires cfg.max >= 1
  {
    SweptOut(cfg) + Repeat("k", RETURN, cfg.rate.burst)
  }

  lemma EarlyTable(cfg: Config)
    requires cfg.max >= 1 && cfg.rate.burst >= 1
    ensures var m := After(cfg, Early(cfg.rate)); m.Keys == {"k"} && m["k"].seen == 0
  {
    var first := Repeat("k", RETURN, cfg.rate.burst);
    assert [] + first == first;
    BurstTable(cfg, [], "k", RETURN, cfg.rate.burst);
    assert After(cfg, first).Keys == {"k"};
    OneMore(cfg, first, Call("k", 0));
    KnownStep(cfg, After(cfg, first), "k", 0);
  }

  /** A new key that comes late finds a full table of idle keys and sweeps it empty. */
  lemma SweepsAll(cfg: Config, m: Table, key: string)
    requires key !in m && |m| == cfg.max >= 1 && forall k :: k in m ==> m[k].seen == 0
    ensures var t := Step(cfg, m, Call(key, LATE)).table; t.Keys == {key} && t[key].seen == LATE
  {
    assert Swept(m, LATE) == map[];
  }

  lemma EarlyFilled(cfg: Config, m: Table)
    requires cfg.max >= 1 && cfg.rate.burst >= 1
    requires m == After(cfg, Early(cfg.rate) + Fillers("", 0, cfg.max - 1))
    ensures |m| == cfg.max && "c" !in m && forall k :: k in m ==> m[k].seen == 0
  {
    var early, n: nat := After(cfg, Early(cfg.rate)), cfg.max - 1;
    EarlyTable(cfg);
    assert |early| == |early.Keys| == 1;
    forall k | k in FillerKeys("", n)
      ensures k != "k" && k != "c"
    {
      FillerLength("", n, k);
    }
    FillersFill(cfg, Early(cfg.rate), "", 0, n);
  }

  lemma SweptOutTable(cfg: Config)
    requires cfg.max >= 1 && cfg.rate.burst >= 1
    ensures var m := After(cfg, SweptOut(cfg)); m.Keys == {"c"} && m["c"].seen == LATE
  {
    var filled := Early(cfg.rate) + Fillers("", 0, cfg.max - 1);
    EarlyFilled(cfg, After(cfg, filled));
    OneMore(cfg, filled, Call("c", LATE));
    SweepsAll(cfg, After(cfg, filled), "c");
  }

  /** The key is let in again with a full bucket, whether or not that takes another sweep. */
  lemma SecondBurstStart(cfg: Config)
    requires cfg.max >= 1 && cfg.rate.burst >= 1
    ensures Step(cfg, After(cfg, SweptOut(cfg)), Call("k", RETURN)).answer.Admitted?
    ensures Spent(cfg, SweptOut(cfg) + Repeat("k", RETURN, 1),
                  After(cfg, SweptOut(cfg) + Repeat("k", RETURN, 1)), "k", Left(cfg.rate, 1), RETURN)
  {
    SweptOutTable(cfg);
    var m := After(cfg, SweptOut(cfg));
    assert |m| == |m.Keys| == 1;
    LeftIs(cfg.rate, 1);
    assert cfg.max == 1 ==> Swept(m, RETURN) == map[];
    OneMore(cfg, SweptOut(cfg), Call("k", RETURN));
    assert Repeat("k", RETURN, 1) == [Call("k", RETURN)];
    PaidStep(cfg, Consulted(cfg, m, Call("k", RETURN)), "k", RETURN, Left(cfg.rate, 1));
  }

  lemma {:induction false} SecondBurstTable(cfg: Config, n: nat)
    requires cfg.max >= 1 && 1 <= n <= cfg.rate.burst
    ensures Spent(cfg, SweptOut(cfg) + Repeat("k", RETURN, n),
                  After(cfg, SweptOut(cfg) + Repeat("k", RETURN, 1)), "k", Left(cfg.rate, n), RETURN)
  {
    if n == 1 {
      SecondBurstStart(cfg);
    } else {
      SecondBurstTable(cfg, n - 1);
      LeftIs(cfg.rate, n);
      LeftIs(cfg.rate, n - 1);
      RepeatMore(SweptOut(cfg), "k", RETURN, n);
      PaidAgain(cfg, SweptOut(cfg) + Repeat("k", RETURN, n - 1),
                After(cfg, SweptOut(cfg) + Repeat("k", RETURN, 1)), "k", RETURN, Left(cfg.rate, n));
    }
  }

  lemma SecondBurstAdmitted(cfg: Config, j: nat)
    requires cfg.max >= 1 && j < cfg.rate.burst
    ensures AdmitsNth(cfg, SweptOut(cfg), "k", RETURN, j)
  {
    if j == 0 {
      SecondBurstStart(cfg);
      assert SweptOut(cfg) + Repeat("k", RETURN, 0) == SweptOut(cfg);
    } else {
      SecondBurstTable(cfg, j);
      LeftIs(cfg.rate, j);
      LeftIs(cfg.rate, j + 1);
      JustTaken(cfg.rate, Left(cfg.rate, j), RETURN);
      PaidStep(cfg, After(cfg, SweptOut(cfg) + Repeat("k", RETURN, j)), "k", RETURN, Left(cfg.rate, j + 1));
    }
  }

  /** A burst at one instant counts in full. */
  lemma {:induction false} BurstCounts(cfg: Config, calls: seq<Call>, key: string, at: int, n: nat, from: int, d: nat)
    requires forall j :: 0 <= j < n ==> AdmitsNth(cfg, calls, key, at, j)
    requires from <= at <= from + d
    ensures AdmittedOver(cfg, calls + Repeat(key, at, n), key, from, d) == AdmittedOver(cfg, calls, key, from, d) + n
  {
    if n == 0 {
      assert calls + Repeat(key, at, 0) == calls;
    } else {
      BurstCounts(cfg, calls, key, at, n - 1, from, d);
      NthCounts(cfg, calls, key, at, n - 1, from, d);
    }
  }

  lemma NthCounts(cfg: Config, calls: seq<Call>, key: string, at: int, j: nat, from: int, d: nat)
    requires AdmitsNth(cfg, calls, key, at, j) && from <= at <= from + d
    ensures AdmittedOver(cfg, calls + Repeat(key, at, j + 1), key, from, d)
         == AdmittedOver(cfg, calls + Repeat(key, at, j), key, from, d) + 1
  {
    var before, more := calls + Repeat(key, at, j), calls + Repeat(key, at, j + 1);
    RepeatMore(calls, key, at, j + 1);
    assert more == before + [Call(key, at)];
    CountedCall(cfg, before, Call(key, at), from, d);
  }

  lemma CountedCall(cfg: Config, calls: seq<Call>, c: Call, from: int, d: nat)
    requires Step(cfg, After(cfg, calls), c).answer.Admitted? && from <= c.at <= from + d
    ensures AdmittedOver(cfg, calls + [c], c.key, from, d) == AdmittedOver(cfg, calls, c.key, from, d) + 1
  {
    AdmittedStep(cfg, calls, c, c.key, from, from + d + 1);
  }

  lemma {:induction false} CountsGrow(cfg: Config, calls: seq<Call>, more: seq<Call>, key: string, from: int, d: nat)
    ensures AdmittedOver(cfg, calls, key, from, d) <= AdmittedOver(cfg, calls + more, key, from, d)
  {
    if more == [] {
      assert calls + more == calls;
    } else {
      var n := |more| - 1;
      CountsGrow(cfg, calls, more[..n], key, from, d);
      assert calls + more == calls + more[..n] + [more[n]];
      AdmittedStep(cfg, calls + more[..n], more[n], key, from, from + d + 1);
    }
  }

  /** Two bursts at one and the same instant, in every table that admits anything at all. */
  lemma SecondBurstExceeds(cfg: Config)
    requires cfg.max >= 1 && cfg.rate.burst >= 1
    ensures AdmittedOver(cfg, SecondBurst(cfg), "k", RETURN, 0) >= 2 * cfg.rate.burst
    ensures !BoundHolds(cfg, SecondBurst(cfg), "k", RETURN, 0)
  {
    var r := cfg.rate;
    var first := [] + Repeat("k", RETURN, r.burst);
    var rest := [Call("k", 0)] + Fillers("", 0, cfg.max - 1) + [Call("c", LATE)];
    forall j | 0 <= j < r.burst
      ensures AdmitsNth(cfg, [], "k", RETURN, j) && AdmitsNth(cfg, SweptOut(cfg), "k", RETURN, j)
    {
      BurstNth(cfg, [], "k", RETURN, j);
      SecondBurstAdmitted(cfg, j);
    }
    BurstCounts(cfg, [], "k", RETURN, r.burst, RETURN, 0);
    assert SweptOut(cfg) == first + rest;
    CountsGrow(cfg, first, rest, "k", RETURN, 0);
    BurstCounts(cfg, SweptOut(cfg), "k", RETURN, r.burst, RETURN, 0);
    DoubleBurst(r, AdmittedOver(cfg, SecondBurst(cfg), "k", RETURN, 0));
  }

  lemma DoubleBurst(r: Rate, c: nat)
    requires c >= 2 * r.burst && r.burst >= 1
    ensures c * r.unit > r.Cap() + r.Accrued(0)
  {
    assert c * r.unit >= 2 * r.burst * r.unit;
    assert r.burst * r.unit >= r.unit;
  }

  lemma {:induction false} NothingAdmitted(cfg: Config, calls: seq<Call>, key: string, from: int, d: nat)
    requires cfg.max == 0 || cfg.rate.burst == 0
    ensures AdmittedOver(cfg, calls, key, from, d) == 0
  {
    if calls != [] {
      var n := |calls| - 1;
      NothingAdmitted(cfg, calls[..n], key, from, d);
      assert calls[..n] + [calls[n]] == calls;
      TableBounded(cfg, calls[..n]);
      AdmittedStep(cfg, calls[..n], calls[n], key, from, from + d + 1);
      NoneAdmitted(cfg, After(cfg, calls[..n]), calls[n]);
    }
  }

  lemma NoneAdmitted(cfg: Config, m: Table, c: Call)
    requires cfg.max == 0 || cfg.rate.burst == 0
    requires |m| <= cfg.max
    ensures !Step(cfg, m, c).answer.Admitted?
  {
    if cfg.max == 0 {
      assert m == map[] && Swept(m, c.at) == map[];
    }
  }

  /** For calls in whatever order, the bound over an interval holds on every run exactly for the
      limiters that never admit a call. */
  lemma OutOfOrderExceeds(cfg: Config)
    ensures (forall calls :: Bounded(cfg, calls)) <==> cfg.max == 0 || cfg.rate.burst == 0
  {
    if cfg.max == 0 || cfg.rate.burst == 0 {
      forall calls: seq<Call>, key, from, d: nat
        ensures BoundHolds(cfg, calls, key, from, d)
      {
        NothingAdmitted(cfg, calls, key, from, d);
      }
    } else {
      SecondBurstExceeds(cfg);
      assert !Bounded(cfg, SecondBurst(cfg));
    }
  }

  // ---------- One key whose clock goes back and forth ----------

  /** A time that pays for two calls, if time pays at all. */
  function Pair(r: Rate): int {
    2 * r.unit
  }

  function Seesaw(r: Rate, key: string, n: nat): (calls: seq<Call>)
    ensures OneKey(calls, key)
  {
    if n == 0 then [] else Seesaw(r, key, n - 1) + [Call(key, Pair(r))] + [Call(key, 0)]
  }

  predicate OneKey(calls: seq<Call>, key: string) {
    forall i :: 0 <= i < |calls| ==> calls[i].key == key
  }

  /** The table has at most this key, its clock back at the start. */
  ghost predicate Rewound(cfg: Config, m: Table, key: string) {
    var b := BucketOf(cfg, m, key);
    m.Keys <= {key} && b.last == 0 && Solvent(cfg.rate, b)
  }

  lemma PairPays(r: Rate, b: Bucket)
    requires r.burst >= 2 && r.perNano >= 1 && b.last == 0 && Solvent(r, b)
    ensures Available(r, b, Pair(r)) >= 2 * r.unit
  {
    assert r.Cap() >= 2 * r.unit;
    assert r.perNano * Pair(r) >= Pair(r);
  }

  lemma SeesawStep(cfg: Config, m: Table, key: string)
    requires cfg.max >= 1 && cfg.rate.burst >= 2 && cfg.rate.perNano >= 1 && Rewound(cfg, m, key)
    ensures var up := Step(cfg, m, Call(key, Pair(cfg.rate)));
            var down := Step(cfg, up.table, Call(key, 0));
            up.answer.Admitted? && down.answer.Admitted? && Rewound(cfg, down.table, key)
  {
    var r, b := cfg.rate, BucketOf(cfg, m, key);
    PairPays(r, b);
    assert key in m || m == map[];
    var left := Available(r, b, Pair(r)) - r.unit;
    PaidStep(cfg, m, key, Pair(r), left);
    var up := m[key := Entry(Bucket(left, Pair(r)), Pair(r))];
    PaidStep(cfg, up, key, 0, left - r.unit);
  }

  lemma SeesawPair(cfg: Config, calls: seq<Call>, key: string)
    requires cfg.max >= 1 && cfg.rate.burst >= 2 && cfg.rate.perNano >= 1 && Rewound(cfg, After(cfg, calls), key)
    ensures var t := Pair(cfg.rate);
            var more := calls + [Call(key, t)] + [Call(key, 0)];
            && Rewound(cfg, After(cfg, more), key)
            && AdmittedOver(cfg, more, key, 0, t) == AdmittedOver(cfg, calls, key, 0, t) + 2
  {
    var t := Pair(cfg.rate);
    var up := calls + [Call(key, t)];
    SeesawStep(cfg, After(cfg, calls), key);
    OneMore(cfg, calls, Call(key, t));
    OneMore(cfg, up, Call(key, 0));
    AdmittedStep(cfg, calls, Call(key, t), key, 0, t + 1);
    AdmittedStep(cfg, up, Call(key, 0), key, 0, t + 1);
  }

  lemma {:induction false} SeesawCounts(cfg: Config, key: string, n: nat)
    requires cfg.max >= 1 && cfg.rate.burst >= 2 && cfg.rate.perNano >= 1
    ensures Rewound(cfg, After(cfg, Seesaw(cfg.rate, key, n)), key)
    ensures AdmittedOver(cfg, Seesaw(cfg.rate, key, n), key, 0, Pair(cfg.rate)) == 2 * n
  {
    if n > 0 {
      SeesawCounts(cfg, key, n - 1);
      SeesawPair(cfg, Seesaw(cfg.rate, key, n - 1), key);
    }
  }

  lemma TooMany(r: Rate, c: nat, d: nat)
    requires c > r.Cap() + r.Accrued(d)
    ensures c * r.unit > r.Cap() + r.Accrued(d)
  {
    assert c * r.unit >= c * 1;
  }

  lemma SeesawExceeds(cfg: Config, key: string) returns (n: nat)
    requires cfg.max >= 1 && cfg.rate.burst >= 2 && cfg.rate.perNano >= 1
    ensures !BoundHolds(cfg, Seesaw(cfg.rate, key, n), key, 0, Pair(cfg.rate))
  {
    n := cfg.rate.Cap() + cfg.rate.Accrued(Pair(cfg.rate)) + 1;
    SeesawCounts(cfg, key, n);
    TooMany(cfg.rate, 2 * n, Pair(cfg.rate));
  }

  /** A bucket of one token is empty after every admitted call, so the next one has to come later
      by the time that pays for it; without refill a bucket's tokens are all there is. `c` calls
      were admitted at times from `from` to `to`. */
  ghost predicate Spaced(r: Rate, b: Bucket, c: nat, from: int, to: int) {
    if r.perNano == 0 then
      b.tokens >= 0 && c * r.unit + b.tokens <= r.Cap()
    else if b.tokens == r.Cap() then
      c == 0
    else
      var end := if to < b.last then to else b.last;
      && b.tokens == 0
      && (if from <= end then c * r.unit <= r.unit + r.Accrued(end - from) else c == 0)
  }

  lemma SpacedTake(r: Rate, b: Bucket, c: nat, from: int, to: int, t: int)
    requires r.burst == 1 || (r.perNano == 0 && r.burst >= 1)
    requires Spaced(r, b, c, from, to)
    ensures Spaced(r, Take(r, b, t), if Admits(r, b, t) && from <= t <= to then c + 1 else c, from, to)
  {
    if Admits(r, b, t) {
      assert (c + 1) * r.unit == c * r.unit + r.unit;
      if r.perNano > 0 {
        SpacedAdmitted(r, b, c, from, to, t);
      }
    }
  }

  lemma SpacedAdmitted(r: Rate, b: Bucket, c: nat, from: int, to: int, t: int)
    requires r.burst == 1 && r.perNano > 0 && Spaced(r, b, c, from, to) && Admits(r, b, t)
    ensures Spaced(r, Take(r, b, t), if from <= t <= to then c + 1 else c, from, to)
  {
    assert r.Cap() == r.unit;
    assert Take(r, b, t) == Bucket(0, t);
    if b.tokens == 0 {
      assert r.Accrued(Max0(t - b.last)) >= r.unit;
      assert t > b.last;
      if from <= b.last && t <= to {
        AccruedAdds(r, b.last - from, t - b.last);
        assert (c + 1) * r.unit == c * r.unit + r.unit;
      } else if t > to && from <= to {
        var end := if to < b.last then to else b.last;
        if from <= end {
          AccruedMonotone(r, end - from, to - from);
        }
      }
    }
  }

  lemma OneKeyStep(cfg: Config, m: Table, c: Call)
    requires cfg.max >= 1 && m.Keys <= {c.key}
    ensures var o, b := Step(cfg, m, c), BucketOf(cfg, m, c.key);
            && o.table.Keys <= {c.key} && BucketOf(cfg, o.table, c.key) == Take(cfg.rate, b, c.at)
            && o.answer.Admitted? == Admits(cfg.rate, b, c.at)
  {
    assert c.key in m || m == map[];
  }

  lemma {:induction false} OneKeySpaced(cfg: Config, calls: seq<Call>, key: string, from: int, d: nat)
    requires cfg.max >= 1 && (cfg.rate.burst == 1 || (cfg.rate.perNano == 0 && cfg.rate.burst >= 1)) &&
             OneKey(calls, key)
    ensures After(cfg, calls).Keys <= {key}
    ensures Spaced(cfg.rate, BucketOf(cfg, After(cfg, calls), key),
                   AdmittedOver(cfg, calls, key, from, d), from, from + d)
  {
    if calls != [] {
      var n := |calls| - 1;
      OneKeySpaced(cfg, calls[..n], key, from, d);
      assert calls[..n] + [calls[n]] == calls;
      OneKeyMore(cfg, calls[..n], calls[n], from, d);
    }
  }

  lemma OneKeyMore(cfg: Config, calls: seq<Call>, c: Call, from: int, d: nat)
    requires cfg.max >= 1 && (cfg.rate.burst == 1 || (cfg.rate.perNano == 0 && cfg.rate.burst >= 1))
    requires After(cfg, calls).Keys <= {c.key}
    requires Spaced(cfg.rate, BucketOf(cfg, After(cfg, calls), c.key),
                    AdmittedOver(cfg, calls, c.key, from, d), from, from + d)
    ensures After(cfg, calls + [c]).Keys <= {c.key}
    ensures Spaced(cfg.rate, BucketOf(cfg, After(cfg, calls + [c]), c.key),
                   AdmittedOver(cfg, calls + [c], c.key, from, d), from, from + d)
  {
    var m := After(cfg, calls);
    OneKeyStep(cfg, m, c);
    OneMore(cfg, calls, c);
    AdmittedStep(cfg, calls, c, c.key, from, from + d + 1);
    SpacedTake(cfg.rate, BucketOf(cfg, m, c.key), AdmittedOver(cfg, calls, c.key, from, d), from, from + d, c.at);
  }

  lemma SpacedFits(r: Rate, b: Bucket, c: nat, from: int, d: nat)
    requires Spaced(r, b, c, from, from + d) && (r.burst == 1 || r.perNano == 0)
    ensures c * r.unit <= r.Cap() + r.Accrued(d)
  {
    if r.perNano > 0 && b.tokens == 0 {
      var end := if from + d < b.last then from + d else b.last;
      if from <= end {
        AccruedMonotone(r, end - from, d);
      }
    }
  }

  /** One key alone: the bound holds on all its runs in whatever order exactly when nothing is
      admitted, a bucket holds one token, or nothing is ever refilled. */
  lemma OneKeyExceeds(cfg: Config, key: string)
    ensures (forall calls, from, d: nat :: OneKey(calls, key) ==> BoundHolds(cfg, calls, key, from, d))
        <==> cfg.max == 0 || cfg.rate.burst <= 1 || cfg.rate.perNano == 0
  {
    if cfg.max == 0 || cfg.rate.burst <= 1 || cfg.rate.perNano == 0 {
      forall calls: seq<Call>, from, d: nat | OneKey(calls, key)
        ensures BoundHolds(cfg, calls, key, from, d)
      {
        if cfg.max == 0 || cfg.rate.burst == 0 {
          NothingAdmitted(cfg, calls, key, from, d);
        } else {
          OneKeySpaced(cfg, calls, key, from, d);
          SpacedFits(cfg.rate, BucketOf(cfg, After(cfg, calls), key), AdmittedOver(cfg, calls, key, from, d), from, d);
        }
      }
    } else {
      var n := SeesawExceeds(cfg, key);
    }
  }
}
