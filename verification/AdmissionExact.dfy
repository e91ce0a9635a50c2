/**
 What a token bucket decides, without the bucket: a call is admitted exactly when admitting it
 breaks the sliding bound over no stretch of calls that ends with it. Together with the
 refinement this describes every answer of the keyed limiter by the key's own admitted calls.
 */
module AdmissionExact {
  import opened Timeline
  import opened TokenBucket
  import opened KeyedLimiter
  import opened KeyedLimiterRefinement

  /** Which calls a bucket serving one key alone admits. */
  function PrivateFlags(r: Rate, times: seq<int>): (f: seq<bool>)
    ensures |f| == |times|
  {
    if times == [] then []
    else
      var n := |times| - 1;
      PrivateFlags(r, times[..n]) + [Admits(r, Private(r, times[..n]), times[n])]
  }

  /** What the sliding bound leaves after c calls within a given time. */
  function Room(r: Rate, elapsed: nat, c: nat): int {
    r.Cap() + r.Accrued(elapsed) - c * r.unit
  }

  /** What it leaves for a call at `now`, counting from call j on. */
  function Slack(r: Rate, times: seq<int>, j: nat, now: int): int
    requires j <= |times|
  {
    Room(r, if j < |times| then Max0(now - times[j]) else 0, CountTrue(PrivateFlags(r, times), j, |times|))
  }

  /** The call breaks the bound over no stretch that ends with it. */
  ghost predicate WithinBound(r: Rate, times: seq<int>, now: int) {
    forall j :: 0 <= j <= |times| ==> Slack(r, times, j, now) >= r.unit
  }

  /** A run in order of time, up to `now`. */
  ghost predicate InOrder(times: seq<int>, now: int) {
    Nondecreasing(times) && forall i :: 0 <= i < |times| ==> times[i] <= now
  }

  lemma InOrderBefore(times: seq<int>, now: int)
    requires times != [] && InOrder(times, now)
    ensures InOrder(times[..|times| - 1], times[|times| - 1]) && times[|times| - 1] <= now
  {
  }

  /** No bucket's clock is ahead of the calls it served, unless it is full anyway. */
  lemma {:induction false} PrivateSettled(r: Rate, times: seq<int>, now: int)
    requires InOrder(times, now)
    ensures Solvent(r, Private(r, times)) && (Private(r, times).last <= now || Private(r, times).tokens == r.Cap())
  {
    if times != [] {
      InOrderBefore(times, now);
      PrivateSettled(r, times[..|times| - 1], times[|times| - 1]);
    }
  }

  lemma FlagsMore(r: Rate, times: seq<int>, j: nat)
    requires j < |times|
    ensures CountTrue(PrivateFlags(r, times), j, |times|)
         == var before := times[..|times| - 1];
            CountTrue(PrivateFlags(r, before), j, |before|) + if PrivateFlags(r, times)[|times| - 1] then 1 else 0
  {
    var n, flags := |times| - 1, PrivateFlags(r, times);
    assert flags[..n] == PrivateFlags(r, times[..n]);
    CountTrueOfPrefix(flags, j, n, n);
  }

  lemma RoomMore(r: Rate, elapsed: nat, c: nat, later: nat, more: bool)
    ensures Room(r, elapsed + later, if more then c + 1 else c) == Room(r, elapsed, c) + Change(r, later, more)
  {
    AccruedAdds(r, elapsed, later);
  }

  /** What the refill over a time adds and a call, if it was admitted, costs. */
  function Change(r: Rate, later: nat, more: bool): int {
    r.Accrued(later) - if more then r.unit else 0
  }

  /** The change from the last call to `now`. */
  function Moved(r: Rate, times: seq<int>, now: int): int
    requires times != []
  {
    Change(r, Max0(now - times[|times| - 1]), PrivateFlags(r, times)[|times| - 1])
  }

  /** One more call moves every slack by the refill and what the call cost. */
  lemma SlackMore(r: Rate, times: seq<int>, j: nat, now: int)
    requires times != [] && InOrder(times, now) && j < |times|
    ensures Slack(r, times, j, now) == Slack(r, times[..|times| - 1], j, times[|times| - 1]) + Moved(r, times, now)
  {
    var n := |times| - 1;
    var before, t, more := times[..n], times[n], PrivateFlags(r, times)[n];
    var c, elapsed := CountTrue(PrivateFlags(r, before), j, n), t - times[j];
    FlagsMore(r, times, j);
    assert Slack(r, times, j, now) == Room(r, elapsed + (now - t), if more then c + 1 else c);
    assert Slack(r, before, j, t) == Room(r, elapsed, c);
    RoomMore(r, elapsed, c, now - t, more);
  }

  /** The balance is the least slack. */
  lemma {:induction false} BalanceIsLeastSlack(r: Rate, times: seq<int>, now: int) returns (least: nat)
    requires InOrder(times, now)
    ensures least <= |times| && Available(r, Private(r, times), now) == Slack(r, times, least, now)
    ensures forall j :: 0 <= j <= |times| ==> Slack(r, times, least, now) <= Slack(r, times, j, now)
  {
    SlackFull(r, times, now);
    if times == [] {
      least := 0;
    } else {
      var n := |times| - 1;
      var before, t := times[..n], times[n];
      InOrderBefore(times, now);
      least := BalanceIsLeastSlack(r, before, t);
      PrivateSettled(r, before, t);
      AfterTake(r, Private(r, before), t);
      PrivateSettled(r, times, t);
      BalanceLater(r, Private(r, times), t, now);
      SlackMore(r, times, least, now);
      forall j | 0 <= j <= n
        ensures Slack(r, times, least, now) <= Slack(r, times, j, now)
      {
        SlackMore(r, times, j, now);
      }
      if Slack(r, times, least, now) > r.Cap() {
        least := |times|;
      }
    }
  }

  lemma SlackFull(r: Rate, times: seq<int>, now: int)
    ensures Slack(r, times, |times|, now) == r.Cap()
  {
  }

  /** A bucket admits a call exactly when the sliding bound permits it. */
  lemma AdmitsExactly(r: Rate, times: seq<int>, now: int)
    requires InOrder(times, now)
    ensures Admits(r, Private(r, times), now) <==> WithinBound(r, times, now)
  {
    var least := BalanceIsLeastSlack(r, times, now);
  }

  lemma {:induction false} TimesOfInOrder(calls: seq<Call>, key: string, now: int)
    requires Nondecreasing(Times(calls)) && forall i :: 0 <= i < |calls| ==> calls[i].at <= now
    ensures InOrder(TimesOf(calls, key), now)
  {
    if calls != [] {
      var n := |calls| - 1;
      PrefixInOrder(calls, n);
      forall i | 0 <= i < n
        ensures calls[..n][i].at <= calls[n].at
      {
        assert Times(calls)[i] <= Times(calls)[n];
      }
      TimesOfInOrder(calls[..n], key, calls[n].at);
    }
  }

  lemma {:induction false} ServedInOrder(cfg: Config, calls: seq<Call>, now: int)
    requires Nondecreasing(Times(calls)) && forall i :: 0 <= i < |calls| ==> calls[i].at <= now
    ensures Nondecreasing(Times(Served(cfg, calls)))
    ensures forall i :: 0 <= i < |Served(cfg, calls)| ==> Served(cfg, calls)[i].at <= now
  {
    if calls != [] {
      var n := |calls| - 1;
      PrefixInOrder(calls, n);
      forall i | 0 <= i < n
        ensures calls[..n][i].at <= calls[n].at
      {
        assert Times(calls)[i] <= Times(calls)[n];
      }
      ServedInOrder(cfg, calls[..n], calls[n].at);
      var before, served := Served(cfg, calls[..n]), Served(cfg, calls);
      assert forall i :: 0 <= i < |before| ==> Times(served)[i] == Times(before)[i];
    }
  }

  /** The keyed limiter: on every run in order, a call the table has room for is admitted exactly
      when the sliding bound for its key's served calls permits it. Nothing is refused that could
      have been admitted, and nothing admitted that should not. */
  lemma LimiterExactly(cfg: Config, calls: seq<Call>, i: nat)
    requires i < |calls| && Nondecreasing(Times(calls)) && IdleRefills(cfg.rate)
    requires !AnswerAt(cfg, calls, i).TableFull?
    ensures AnswerAt(cfg, calls, i).Admitted?
        <==> WithinBound(cfg.rate, ServedTimes(cfg, calls[..i], calls[i].key), calls[i].at)
  {
    KeysIsolated(cfg, calls, i);
    PrefixInOrder(calls, i);
    forall j | 0 <= j < i
      ensures calls[..i][j].at <= calls[i].at
    {
      assert Times(calls)[j] <= Times(calls)[i];
    }
    ServedInOrder(cfg, calls[..i], calls[i].at);
    TimesOfInOrder(Served(cfg, calls[..i]), calls[i].key, calls[i].at);
    AdmitsExactly(cfg.rate, ServedTimes(cfg, calls[..i], calls[i].key), calls[i].at);
  }
}
