/**
 The bounded, evicting table against the limiter it stands in for: one that keeps the bucket
 of every key it has ever seen.
 */
module KeyedLimiterRefinement {
  import opened Timeline
  import opened TokenBucket
  import opened KeyedLimiter

  // ---------- The limiter that keeps every key ----------

  type Ledger = map<string, Bucket>

  function LedgerBucket(r: Rate, ledger: Ledger, key: string): Bucket {
    if key in ledger then ledger[key] else Fresh(r)
  }

  function LedgerAfter(r: Rate, calls: seq<Call>): Ledger {
    if calls == [] then map[]
    else
      var before, c := LedgerAfter(r, calls[..|calls| - 1]), calls[|calls| - 1];
      before[c.key := Take(r, LedgerBucket(r, before, c.key), c.at)]
  }

  predicate LedgerAdmits(r: Rate, calls: seq<Call>, i: nat)
    requires i < |calls|
  {
    Admits(r, LedgerBucket(r, LedgerAfter(r, calls[..i]), calls[i].key), calls[i].at)
  }

  /** No call of the run was refused for a full table. */
  predicate NeverFull(cfg: Config, calls: seq<Call>) {
    forall i :: 0 <= i < |calls| ==> !AnswerAt(cfg, calls, i).TableFull?
  }

  /** The bounded table answers every call as the ledger does. */
  predicate AnswersAlike(cfg: Config, calls: seq<Call>) {
    forall i :: 0 <= i < |calls| ==> AnswerAt(cfg, calls, i).Admitted? == LedgerAdmits(cfg.rate, calls, i)
  }

  /** The calls of a run that were not refused for a full table. */
  function Served(cfg: Config, calls: seq<Call>): seq<Call> {
    if calls == [] then []
    else
      var n := |calls| - 1;
      Served(cfg, calls[..n]) + (if AnswerAt(cfg, calls, n).TableFull? then [] else [calls[n]])
  }

  function ServedLedger(cfg: Config, calls: seq<Call>): Ledger {
    LedgerAfter(cfg.rate, Served(cfg, calls))
  }

  /** Call i is answered as by a ledger fed only the served calls before it. */
  predicate ServedAlikeAt(cfg: Config, calls: seq<Call>, i: nat)
    requires i < |calls|
  {
    AnswerAt(cfg, calls, i).Admitted?
    == Admits(cfg.rate, LedgerBucket(cfg.rate, ServedLedger(cfg, calls[..i]), calls[i].key), calls[i].at)
  }

  /** So is every call the table has room for. */
  predicate ServedAlike(cfg: Config, calls: seq<Call>) {
    forall i :: 0 <= i < |calls| && !AnswerAt(cfg, calls, i).TableFull? ==> ServedAlikeAt(cfg, calls, i)
  }

  lemma ServedNext(cfg: Config, calls: seq<Call>, i: nat)
    requires i < |calls|
    ensures Served(cfg, calls[..i + 1])
         == Served(cfg, calls[..i]) + if AnswerAt(cfg, calls, i).TableFull? then [] else [calls[i]]
  {
    assert calls[..i + 1][..i] == calls[..i];
  }

  lemma {:induction false} NeverFullServesAll(cfg: Config, calls: seq<Call>, n: nat)
    requires n <= |calls| && NeverFull(cfg, calls)
    ensures Served(cfg, calls[..n]) == calls[..n]
  {
    if n > 0 {
      var i: nat := n - 1;
      NeverFullServesAll(cfg, calls, i);
      assert !AnswerAt(cfg, calls, i).TableFull?;
      ServedNext(cfg, calls, i);
      assert calls[..i + 1] == calls[..i] + [calls[i]];
    }
  }

  // ---------- Eviction is invisible ----------

  /** A kept entry is the ledger's bucket, or both are full; a dropped key's ledger bucket is full. */
  predicate Mirrors(r: Rate, m: Table, ledger: Ledger, clock: int) {
    && (forall k :: k in m ==>
          && k in ledger && Solvent(r, m[k].bucket) && Alike(r, m[k].bucket, ledger[k], clock)
          && m[k].seen <= clock
          && (m[k].bucket.last <= m[k].seen || Full(r, m[k].bucket, clock)))
    && (forall k :: k in ledger && k !in m ==> Full(r, ledger[k], clock))
  }

  lemma AlikeLater(r: Rate, b: Bucket, c: Bucket, clock: int, later: int)
    requires Alike(r, b, c, clock) && clock <= later
    ensures Alike(r, b, c, later)
  {
    if b != c {
      FullAvailable(r, b, clock, later);
      FullAvailable(r, c, clock, later);
    }
  }

  lemma MirrorsLater(r: Rate, m: Table, ledger: Ledger, clock: int, later: int)
    requires Mirrors(r, m, ledger, clock) && clock <= later
    ensures Mirrors(r, m, ledger, later)
  {
    forall k | k in m
      ensures Alike(r, m[k].bucket, ledger[k], later)
      ensures m[k].bucket.last <= m[k].seen || Full(r, m[k].bucket, later)
    {
      AlikeLater(r, m[k].bucket, ledger[k], clock, later);
      if m[k].bucket.last > m[k].seen {
        FullAvailable(r, m[k].bucket, clock, later);
      }
    }
    forall k | k in ledger && k !in m
      ensures Full(r, ledger[k], later)
    {
      FullAvailable(r, ledger[k], clock, later);
    }
  }

  /** An entry the sweep drops was full again. */
  lemma IdleIsFull(r: Rate, e: Entry, now: int)
    requires IdleRefills(r) && Idle(e, now) && Solvent(r, e.bucket)
    requires e.bucket.last <= e.seen || Full(r, e.bucket, now)
    ensures Full(r, e.bucket, now)
  {
    if e.bucket.last <= e.seen {
      AccruedMonotone(r, IDLE + 1, now - e.bucket.last);
    }
  }

  lemma SweptMirrors(r: Rate, m: Table, ledger: Ledger, now: int)
    requires IdleRefills(r) && Mirrors(r, m, ledger, now)
    ensures Mirrors(r, Swept(m, now), ledger, now)
  {
    forall k | k in ledger && k !in Swept(m, now)
      ensures Full(r, ledger[k], now)
    {
      if k in m {
        IdleIsFull(r, m[k], now);
      }
    }
  }

  lemma StepMirrors(cfg: Config, m: Table, ledger: Ledger, c: Call)
    requires IdleRefills(cfg.rate) && Mirrors(cfg.rate, m, ledger, c.at)
    requires !Step(cfg, m, c).answer.TableFull?
    ensures var b := LedgerBucket(cfg.rate, ledger, c.key);
            && Step(cfg, m, c).answer.Admitted? == Admits(cfg.rate, b, c.at)
            && Mirrors(cfg.rate, Step(cfg, m, c).table, ledger[c.key := Take(cfg.rate, b, c.at)], c.at)
  {
    SweptMirrors(cfg.rate, m, ledger, c.at);
    var t := Consulted(cfg, m, c);
    assert Mirrors(cfg.rate, t, ledger, c.at);
    var b := BucketOf(cfg, t, c.key);
    assert Alike(cfg.rate, b, LedgerBucket(cfg.rate, ledger, c.key), c.at);
    AlikeStep(cfg.rate, b, LedgerBucket(cfg.rate, ledger, c.key), c.at, c.at);
    TakeKeepsOrder(cfg.rate, b, c.at);
  }

  lemma TakeKeepsOrder(r: Rate, b: Bucket, now: int)
    requires Solvent(r, b) && (b.last <= now || Full(r, b, now))
    ensures var b' := Take(r, b, now); Solvent(r, b') && (b'.last <= now || Full(r, b', now))
  {
  }

  /** A call refused for a full table only sweeps. */
  lemma RefusedMirrors(cfg: Config, m: Table, ledger: Ledger, c: Call)
    requires IdleRefills(cfg.rate) && Mirrors(cfg.rate, m, ledger, c.at)
    requires Step(cfg, m, c).answer.TableFull?
    ensures Mirrors(cfg.rate, Step(cfg, m, c).table, ledger, c.at)
  {
    SweptMirrors(cfg.rate, m, ledger, c.at);
  }

  lemma LedgerMore(r: Rate, calls: seq<Call>, c: Call)
    ensures var ledger := LedgerAfter(r, calls);
            LedgerAfter(r, calls + [c]) == ledger[c.key := Take(r, LedgerBucket(r, ledger, c.key), c.at)]
  {
    assert (calls + [c])[..|calls|] == calls;
  }

  /** The clock a prefix of the run leaves behind. */
  function ClockBefore(calls: seq<Call>, n: nat): int
    requires n <= |calls|
  {
    if n > 0 then calls[n - 1].at else if calls == [] then 0 else calls[0].at
  }

  lemma {:induction false} RunMirrors(cfg: Config, calls: seq<Call>, n: nat)
    requires n <= |calls| && Nondecreasing(Times(calls)) && IdleRefills(cfg.rate)
    ensures Mirrors(cfg.rate, After(cfg, calls[..n]), ServedLedger(cfg, calls[..n]), ClockBefore(calls, n))
  {
    if n > 0 {
      RunMirrors(cfg, calls, n - 1);
      CallMirrors(cfg, calls, n - 1);
    }
  }

  lemma CallMirrors(cfg: Config, calls: seq<Call>, i: nat)
    requires i < |calls| && Nondecreasing(Times(calls)) && IdleRefills(cfg.rate)
    requires Mirrors(cfg.rate, After(cfg, calls[..i]), ServedLedger(cfg, calls[..i]), ClockBefore(calls, i))
    ensures Mirrors(cfg.rate, After(cfg, calls[..i + 1]), ServedLedger(cfg, calls[..i + 1]), calls[i].at)
    ensures !AnswerAt(cfg, calls, i).TableFull? ==> ServedAlikeAt(cfg, calls, i)
  {
    var m, ledger := After(cfg, calls[..i]), ServedLedger(cfg, calls[..i]);
    assert i > 0 ==> Times(calls)[i - 1] <= Times(calls)[i];
    MirrorsLater(cfg.rate, m, ledger, ClockBefore(calls, i), calls[i].at);
    AfterNext(cfg, calls, i);
    ServedNext(cfg, calls, i);
    if AnswerAt(cfg, calls, i).TableFull? {
      RefusedMirrors(cfg, m, ledger, calls[i]);
      assert Served(cfg, calls[..i]) + [] == Served(cfg, calls[..i]);
    } else {
      StepMirrors(cfg, m, ledger, calls[i]);
      LedgerMore(cfg.rate, Served(cfg, calls[..i]), calls[i]);
    }
  }

  /** Dropping idle keys never changes an answer: on every run in order, each call the table has
      room for is answered as by a ledger that keeps every key and is fed the served calls. On a
      run that never finds the table full, that is the ledger fed the same run. */
  lemma EvictionInvisible(cfg: Config, calls: seq<Call>)
    requires Nondecreasing(Times(calls)) && IdleRefills(cfg.rate)
    ensures ServedAlike(cfg, calls)
    ensures NeverFull(cfg, calls) ==> AnswersAlike(cfg, calls)
  {
    forall i | 0 <= i < |calls|
      ensures !AnswerAt(cfg, calls, i).TableFull? ==> ServedAlikeAt(cfg, calls, i)
      ensures NeverFull(cfg, calls) ==> AnswerAt(cfg, calls, i).Admitted? == LedgerAdmits(cfg.rate, calls, i)
    {
      RunMirrors(cfg, calls, i);
      CallMirrors(cfg, calls, i);
      if NeverFull(cfg, calls) {
        NeverFullServesAll(cfg, calls, i);
        assert !AnswerAt(cfg, calls, i).TableFull?;
      }
    }
  }

  // ---------- Key isolation ----------

  /** The times of one key's calls. */
  function TimesOf(calls: seq<Call>, key: string): seq<int> {
    if calls == [] then []
    else
      var n := |calls| - 1;
      TimesOf(calls[..n], key) + (if calls[n].key == key then [calls[n].at] else [])
  }

  /** A bucket that serves one key only. */
  function Private(r: Rate, times: seq<int>): Bucket {
    if times == [] then Fresh(r) else Take(r, Private(r, times[..|times| - 1]), times[|times| - 1])
  }

  lemma {:induction false} LedgerIsPrivate(r: Rate, calls: seq<Call>, key: string)
    ensures LedgerBucket(r, LedgerAfter(r, calls), key) == Private(r, TimesOf(calls, key))
  {
    if calls != [] {
      var n := |calls| - 1;
      LedgerIsPrivate(r, calls[..n], key);
      if calls[n].key == key {
        assert TimesOf(calls, key)[..|TimesOf(calls, key)| - 1] == TimesOf(calls[..n], key);
      } else {
        assert TimesOf(calls, key) == TimesOf(calls[..n], key);
      }
    }
  }

  /** The times of a key's served calls. */
  function ServedTimes(cfg: Config, calls: seq<Call>, key: string): seq<int> {
    TimesOf(Served(cfg, calls), key)
  }

  /** Every answer for a key is what a bucket serving that key alone would give: it depends on
      the key's own served calls, although other keys' insertions may have swept it out. */
  lemma KeysIsolated(cfg: Config, calls: seq<Call>, i: nat)
    requires i < |calls| && Nondecreasing(Times(calls)) && IdleRefills(cfg.rate)
    requires !AnswerAt(cfg, calls, i).TableFull?
    ensures AnswerAt(cfg, calls, i).Admitted?
        <==> Admits(cfg.rate, Private(cfg.rate, ServedTimes(cfg, calls[..i], calls[i].key)), calls[i].at)
    ensures NeverFull(cfg, calls) ==> Served(cfg, calls[..i]) == calls[..i]
  {
    EvictionInvisible(cfg, calls);
    assert ServedAlikeAt(cfg, calls, i);
    LedgerIsPrivate(cfg.rate, Served(cfg, calls[..i]), calls[i].key);
    if NeverFull(cfg, calls) {
      NeverFullServesAll(cfg, calls, i);
    }
  }

  // ---------- When the table is full ----------

  /** The keys a run served within ten minutes of `now`. */
  function RecentKeys(cfg: Config, calls: seq<Call>, now: int): set<string> {
    if calls == [] then {}
    else
      var n := |calls| - 1;
      RecentKeys(cfg, calls[..n], now) +
      (if !AnswerAt(cfg, calls, n).TableFull? && now - calls[n].at <= IDLE then {calls[n].key} else {})
  }

  ghost predicate SeenBy(m: Table, clock: int) {
    forall k :: k in m ==> m[k].seen <= clock
  }

  lemma SweptUpdate(t: Table, key: string, e: Entry, now: int)
    requires SeenBy(t, e.seen)
    ensures SeenBy(t[key := e], e.seen)
    ensures Swept(t[key := e], now).Keys == Swept(t, now).Keys + (if Idle(e, now) then {} else {key})
  {
  }

  lemma SweptTwice(m: Table, first: int, now: int)
    requires first <= now
    ensures Swept(Swept(m, first), now) == Swept(m, now)
  {
  }

  lemma SweptStep(cfg: Config, m: Table, c: Call, now: int)
    requires SeenBy(m, c.at) && c.at <= now
    ensures SeenBy(Step(cfg, m, c).table, c.at)
    ensures Swept(Step(cfg, m, c).table, now).Keys
         == Swept(m, now).Keys + (if !Step(cfg, m, c).answer.TableFull? && now - c.at <= IDLE then {c.key} else {})
  {
    SweptTwice(m, c.at, now);
    var t := Consulted(cfg, m, c);
    assert SeenBy(t, c.at) && Swept(t, now) == Swept(m, now);
    SweptUpdate(t, c.key, Entry(Take(cfg.rate, BucketOf(cfg, t, c.key), c.at), c.at), now);
  }

  lemma {:induction false} KeptAreRecent(cfg: Config, calls: seq<Call>, now: int)
    requires Nondecreasing(Times(calls)) && (calls != [] ==> calls[|calls| - 1].at <= now)
    ensures Swept(After(cfg, calls), now).Keys == RecentKeys(cfg, calls, now)
    ensures SeenBy(After(cfg, calls), now)
  {
    if calls != [] {
      var n := |calls| - 1;
      var before, c := calls[..n], calls[n];
      PrefixInOrder(calls, n);
      KeptAreRecent(cfg, before, now);
      KeptAreRecent(cfg, before, c.at);
      SweptStep(cfg, After(cfg, before), c, now);
    }
  }

  lemma PrefixInOrder(calls: seq<Call>, n: nat)
    requires n < |calls| && Nondecreasing(Times(calls))
    ensures Nondecreasing(Times(calls[..n]))
    ensures n > 0 ==> calls[..n][n - 1].at <= calls[n].at
  {
    assert forall i :: 0 <= i < n ==> Times(calls[..n])[i] == Times(calls)[i];
    assert n > 0 ==> Times(calls)[n - 1] <= Times(calls)[n];
  }

  /** A call is refused for a full table exactly when its key is not in the table and `max`
      keys were served in the last ten minutes. */
  lemma FullExactly(cfg: Config, calls: seq<Call>, i: nat)
    requires i < |calls| && Nondecreasing(Times(calls))
    ensures AnswerAt(cfg, calls, i).TableFull?
        <==> calls[i].key !in After(cfg, calls[..i]) && |RecentKeys(cfg, calls[..i], calls[i].at)| >= cfg.max
  {
    var m, now := After(cfg, calls[..i]), calls[i].at;
    PrefixInOrder(calls, i);
    KeptAreRecent(cfg, calls[..i], now);
    assert |Swept(m, now)| == |Swept(m, now).Keys|;
    SweptIsSmaller(m, now);
  }
}
