/**
 The bounded table of buckets that stands in for one bucket per key: its code as a class, its step
 as a function, and what holds on every run at whatever times.
 */
module KeyedLimiter {
  import opened Timeline
  import opened TokenBucket

  const IDLE: int := 10 * MINUTE

  datatype Config = Config(rate: Rate, max: nat)
  datatype Entry = Entry(bucket: Bucket, seen: int)
  type Table = map<string, Entry>
  datatype Call = Call(key: string, at: int)
  datatype Answer = Admitted | Limited | TableFull
  datatype Outcome = Outcome(table: Table, answer: Answer)

  predicate Idle(e: Entry, now: int) {
    now - e.seen > IDLE
  }

  function Swept(m: Table, now: int): Table {
    map k | k in m && !Idle(m[k], now) :: m[k]
  }

  function BucketOf(cfg: Config, m: Table, key: string): Bucket {
    if key in m then m[key].bucket else Fresh(cfg.rate)
  }

  /** The table after the sweep a call makes, if it makes one. */
  function Consulted(cfg: Config, m: Table, c: Call): Table {
    if c.key !in m && |m| >= cfg.max then Swept(m, c.at) else m
  }

  /** One call on the bounded table. */
  function Step(cfg: Config, m: Table, c: Call): Outcome {
    var t := Consulted(cfg, m, c);
    if c.key !in t && |t| >= cfg.max then Outcome(t, TableFull)
    else
      var b := BucketOf(cfg, t, c.key);
      Outcome(t[c.key := Entry(Take(cfg.rate, b, c.at), c.at)],
              if Admits(cfg.rate, b, c.at) then Admitted else Limited)
  }

  class Limiter {
    const cfg: Config
    var m: Table

    constructor (cfg: Config)
      ensures this.cfg == cfg && m == map[]
    {
      this.cfg, m := cfg, map[];
    }

    /** Drops the idle keys, one at a time. */
    method Sweep(now: int)
      modifies this
      ensures m == Swept(old(m), now)
      ensures m == map k | k in old(m) && now - old(m)[k].seen <= 600 * 1_000_000_000 :: old(m)[k]
    {
      var keys := m.Keys;
      while keys != {}
        invariant keys <= old(m).Keys
        invariant forall k :: k in m <==> k in old(m) && (k in keys || !Idle(old(m)[k], now))
        invariant forall k :: k in m ==> m[k] == old(m)[k]
      {
        var k :| k in keys;
        keys := keys - {k};
        if now - m[k].seen > IDLE {
          m := m - {k};
        }
      }
    }

    method Allow(key: string, now: int) returns (ok: bool)
      modifies this
      ensures m == Step(cfg, old(m), Call(key, now)).table
      ensures ok == Step(cfg, old(m), Call(key, now)).answer.Admitted?
    {
      if key !in m {
        if |m| >= cfg.max {
          Sweep(now);
          if |m| >= cfg.max {
            return false;
          }
        }
        m := m[key := Entry(Fresh(cfg.rate), 0)];
      }
      var e := m[key];
      m := m[key := Entry(e.bucket, now)];
      ok := Admits(cfg.rate, e.bucket, now);
      m := m[key := Entry(Take(cfg.rate, e.bucket, now), now)];
    }
  }

  // ---------- Runs ----------

  /** The table after a run of calls on a new limiter. */
  function After(cfg: Config, calls: seq<Call>): Table {
    if calls == [] then map[]
    else Step(cfg, After(cfg, calls[..|calls| - 1]), calls[|calls| - 1]).table
  }

  function AnswerAt(cfg: Config, calls: seq<Call>, i: nat): Answer
    requires i < |calls|
  {
    Step(cfg, After(cfg, calls[..i]), calls[i]).answer
  }

  lemma AfterNext(cfg: Config, calls: seq<Call>, i: nat)
    requires i < |calls|
    ensures After(cfg, calls[..i + 1]) == Step(cfg, After(cfg, calls[..i]), calls[i]).table
  {
    assert calls[..i + 1][..i] == calls[..i];
  }

  function Times(calls: seq<Call>): (t: seq<int>)
    ensures |t| == |calls|
  {
    seq(|calls|, i requires 0 <= i < |calls| => calls[i].at)
  }

  /** Which calls of a run were admitted for one key. */
  function AdmittedFor(cfg: Config, calls: seq<Call>, key: string): (f: seq<bool>)
    ensures |f| == |calls|
  {
    seq(|calls|, i requires 0 <= i < |calls| => calls[i].key == key && AnswerAt(cfg, calls, i).Admitted?)
  }

  predicate Solvent(r: Rate, b: Bucket) {
    0 <= b.tokens <= r.Cap()
  }

  /** What every table of a run keeps. */
  ghost predicate Sound(cfg: Config, m: Table) {
    && |m| <= cfg.max
    && forall k :: k in m ==> Solvent(cfg.rate, m[k].bucket)
  }

  lemma SweptIsSmaller(m: Table, now: int)
    ensures |Swept(m, now)| <= |m|
  {
    assert Swept(m, now).Keys <= m.Keys;
    SubsetIsSmaller(Swept(m, now).Keys, m.Keys);
  }

  lemma SubsetIsSmaller(a: set<string>, b: set<string>)
    requires a <= b
    ensures |a| <= |b|
  {
    assert |b - a| == |b| - |a|;
  }

  lemma StepKeepsBound(cfg: Config, m: Table, c: Call)
    requires |m| <= cfg.max
    ensures |Step(cfg, m, c).table| <= cfg.max
  {
    SweptIsSmaller(m, c.at);
    var t := Consulted(cfg, m, c);
    var e := Entry(Take(cfg.rate, BucketOf(cfg, t, c.key), c.at), c.at);
    assert t[c.key := e].Keys == t.Keys + {c.key};
  }

  lemma StepKeepsSolvent(cfg: Config, m: Table, c: Call)
    requires forall k :: k in m ==> Solvent(cfg.rate, m[k].bucket)
    ensures forall k :: k in Step(cfg, m, c).table ==> Solvent(cfg.rate, Step(cfg, m, c).table[k].bucket)
  {
    var t := Consulted(cfg, m, c);
    assert Solvent(cfg.rate, BucketOf(cfg, t, c.key));
    assert Solvent(cfg.rate, Take(cfg.rate, BucketOf(cfg, t, c.key), c.at));
  }

  /** The table never holds more than `max` entries, on any run at any times. */
  lemma {:induction false} TableBounded(cfg: Config, calls: seq<Call>)
    ensures |After(cfg, calls)| <= cfg.max
    ensures Sound(cfg, After(cfg, calls))
  {
    if calls != [] {
      var n := |calls| - 1;
      TableBounded(cfg, calls[..n]);
      StepKeepsBound(cfg, After(cfg, calls[..n]), calls[n]);
      StepKeepsSolvent(cfg, After(cfg, calls[..n]), calls[n]);
    }
  }

  // ---------- Sliding bound ----------

  /** Ten idle minutes refill any bucket. */
  predicate IdleRefills(r: Rate) {
    r.Accrued(IDLE + 1) >= r.Cap()
  }

  /** c admitted calls for `key` fit a stretch over which the clock moved forwards by `adv` to
      reach `now`, with what the key's bucket still holds on top. A dropped key is owed a full
      bucket, so it may have cost no more than the refill. */
  ghost predicate Fits(cfg: Config, m: Table, key: string, now: int, c: nat, adv: nat) {
    var r := cfg.rate;
    if key in m then
      && c * r.unit + Available(r, m[key].bucket, now) <= r.Cap() + r.Accrued(adv)
      && (c > 0 ==> var quiet := Max0(now - m[key].seen);
                    quiet <= adv && c * r.unit <= r.Cap() + r.Accrued(adv - quiet))
    else
      c * r.unit <= r.Accrued(adv)
  }

  /** Time passes without a call for the key. */
  lemma FitsLater(cfg: Config, m: Table, key: string, now: int, c: nat, adv: nat, later: int)
    requires Fits(cfg, m, key, now, c, adv)
    ensures Fits(cfg, m, key, later, c, adv + Max0(later - now))
  {
    var r, moved := cfg.rate, Max0(later - now);
    AccruedAdds(r, adv, moved);
    if key in m {
      AvailableGrows(r, m[key].bucket, now, later);
      var quiet, quiet' := Max0(now - m[key].seen), Max0(later - m[key].seen);
      if c > 0 {
        AccruedMonotone(r, adv - quiet, adv + moved - quiet');
      }
    }
  }

  /** A sweep drops the key only when the stretch is long enough to pay for the new bucket. */
  lemma FitsSwept(cfg: Config, m: Table, key: string, now: int, c: nat, adv: nat)
    requires Fits(cfg, m, key, now, c, adv)
    requires IdleRefills(cfg.rate)
    ensures Fits(cfg, Swept(m, now), key, now, c, adv)
  {
    if key in m && Idle(m[key], now) && c > 0 {
      var quiet := Max0(now - m[key].seen);
      AccruedMonotone(cfg.rate, IDLE + 1, quiet);
      AccruedAdds(cfg.rate, adv - quiet, quiet);
    }
  }

  /** One call at `now`. */
  lemma FitsStep(cfg: Config, m: Table, key: string, c: Call, n: nat, adv: nat)
    requires Fits(cfg, m, key, c.at, n, adv) && Sound(cfg, m)
    requires IdleRefills(cfg.rate)
    ensures var o := Step(cfg, m, c);
            Fits(cfg, o.table, key, c.at, n + (if c.key == key && o.answer.Admitted? then 1 else 0), adv)
  {
    FitsSwept(cfg, m, key, c.at, n, adv);
    var t, o, r := Consulted(cfg, m, c), Step(cfg, m, c), cfg.rate;
    assert Fits(cfg, t, key, c.at, n, adv);
    if c.key == key && !o.answer.TableFull? {
      var b := BucketOf(cfg, t, key);
      AfterTake(r, b, c.at);
      assert (n + 1) * r.unit == n * r.unit + r.unit;
      assert n * r.unit + Available(r, b, c.at) <= r.Cap() + r.Accrued(adv);
      assert Available(r, Take(r, b, c.at), c.at) >= 0;
    }
  }

  lemma {:induction false} FitsStretch(cfg: Config, calls: seq<Call>, key: string, i: nat, j: nat)
    requires i < j <= |calls|
    requires IdleRefills(cfg.rate)
    ensures Fits(cfg, After(cfg, calls[..j]), key, calls[j - 1].at,
                 CountTrue(AdmittedFor(cfg, calls, key), i, j), Advance(Times(calls), i, j))
    decreases j
  {
    var flags, last := AdmittedFor(cfg, calls, key), j - 1;
    var m := After(cfg, calls[..last]);
    TableBounded(cfg, calls[..last]);
    AfterNext(cfg, calls, last);
    if i == last {
      assert CountTrue(flags, i, i) == 0;
      FitsStep(cfg, m, key, calls[last], 0, 0);
    } else {
      FitsStretch(cfg, calls, key, i, last);
      var c, adv := CountTrue(flags, i, last), Advance(Times(calls), i, last);
      FitsLater(cfg, m, key, calls[last - 1].at, c, adv, calls[last].at);
      FitsStep(cfg, m, key, calls[last], c, Advance(Times(calls), i, j));
    }
  }

  /** The sliding bound on any run whatsoever, calls that come out of order, evictions,
      re-creations and full-table refusals included: the calls admitted for one key over a
      stretch cost no more than one burst and the refill over the time the clock moved
      forwards. */
  lemma SlidingBound(cfg: Config, calls: seq<Call>, key: string, i: nat, j: nat)
    requires i < j <= |calls|
    requires IdleRefills(cfg.rate)
    ensures CountTrue(AdmittedFor(cfg, calls, key), i, j) * cfg.rate.unit
         <= cfg.rate.Cap() + cfg.rate.Accrued(Advance(Times(calls), i, j))
  {
    FitsStretch(cfg, calls, key, i, j);
    TableBounded(cfg, calls[..j]);
    var m := After(cfg, calls[..j]);
    assert key in m ==> Solvent(cfg.rate, m[key].bucket);
  }

  /** On calls in order of time: at most burst + rate * d for one key in any interval of length d. */
  lemma SlidingBoundInterval(cfg: Config, calls: seq<Call>, key: string, from: int, d: nat)
    requires Nondecreasing(Times(calls))
    requires IdleRefills(cfg.rate)
    ensures CountWithin(AdmittedFor(cfg, calls, key), Times(calls), from, from + d + 1) * cfg.rate.unit
         <= cfg.rate.Cap() + cfg.rate.Accrued(d)
  {
    var i, j := IntervalIsStretch(AdmittedFor(cfg, calls, key), Times(calls), from, from + d + 1);
    if i < j {
      SlidingBound(cfg, calls, key, i, j);
      AdvanceOfNondecreasing(Times(calls), i, j);
      AccruedMonotone(cfg.rate, Advance(Times(calls), i, j), d);
    } else {
      assert CountTrue(AdmittedFor(cfg, calls, key), i, j) == 0;
    }
  }
}
