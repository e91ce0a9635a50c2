/**
 The refill condition is necessary as well as sufficient for evictions to be invisible. The runs
 that show it, and the lemmas about bursts and full tables they need.
 */
module KeyedLimiterExactness {
  import opened Timeline
  import opened TokenBucket
  import opened KeyedLimiter
  import opened KeyedLimiterRefinement

  function Repeat(key: string, at: int, n: nat): (calls: seq<Call>)
    ensures |calls| == n && forall i :: 0 <= i < n ==> calls[i] == Call(key, at)
  {
    seq(n, _ => Call(key, at))
  }

  lemma AnswerOfPrefix(cfg: Config, calls: seq<Call>, more: seq<Call>, i: nat)
    requires i < |calls|
    ensures AnswerAt(cfg, calls + more, i) == AnswerAt(cfg, calls, i)
    ensures LedgerAdmits(cfg.rate, calls + more, i) == LedgerAdmits(cfg.rate, calls, i)
  {
    assert (calls + more)[..i] == calls[..i];
  }

  lemma OneMore(cfg: Config, calls: seq<Call>, c: Call)
    ensures After(cfg, calls + [c]) == Step(cfg, After(cfg, calls), c).table
    ensures AnswerAt(cfg, calls + [c], |calls|) == Step(cfg, After(cfg, calls), c).answer
  {
    assert (calls + [c])[..|calls|] == calls;
  }

  lemma OneMoreInLedger(r: Rate, calls: seq<Call>, c: Call)
    ensures var b := LedgerBucket(r, LedgerAfter(r, calls), c.key);
            && LedgerAdmits(r, calls + [c], |calls|) == Admits(r, b, c.at)
            && LedgerAfter(r, calls + [c]) == LedgerAfter(r, calls)[c.key := Take(r, b, c.at)]
  {
    assert (calls + [c])[..|calls|] == calls;
  }

  /** A call the key's bucket can pay for. */
  lemma PaidStep(cfg: Config, m: Table, key: string, at: int, left: nat)
    requires key in m || |m| < cfg.max
    requires Available(cfg.rate, BucketOf(cfg, m, key), at) == left + cfg.rate.unit
    ensures Step(cfg, m, Call(key, at)) == Outcome(m[key := Entry(Bucket(left, at), at)], Admitted)
  {
  }

  lemma JustTaken(r: Rate, left: nat, at: int)
    requires left <= r.Cap()
    ensures Available(r, Bucket(left, at), at) == left
  {
  }

  /** What n calls leave of a full bucket. */
  function Left(r: Rate, n: nat): int {
    if n == 0 then r.Cap() else Left(r, n - 1) - r.unit
  }

  lemma {:induction false} LeftIs(r: Rate, n: nat)
    requires n <= r.burst
    ensures 0 <= Left(r, n) == (r.burst - n) * r.unit <= r.Cap()
  {
    if n > 0 {
      LeftIs(r, n - 1);
    }
  }

  lemma LeftStep(r: Rate, n: nat)
    requires 1 <= n <= r.burst
    ensures Left(r, n) >= 0 && Left(r, n) + r.unit == Left(r, n - 1) <= r.Cap()
  {
    LeftIs(r, n);
    LeftIs(r, n - 1);
  }

  lemma RepeatMore(calls: seq<Call>, key: string, at: int, n: nat)
    requires n >= 1
    ensures calls + Repeat(key, at, n) == calls + Repeat(key, at, n - 1) + [Call(key, at)]
  {
  }

  /** After the calls, the table is as before except that the key has this much left of its bucket. */
  ghost predicate Spent(cfg: Config, calls: seq<Call>, before: Table, key: string, left: int, at: int) {
    After(cfg, calls) == before[key := Entry(Bucket(left, at), at)]
  }

  lemma PaidMore(cfg: Config, calls: seq<Call>, key: string, at: int, left: nat)
    requires key in After(cfg, calls) || |After(cfg, calls)| < cfg.max
    requires Available(cfg.rate, BucketOf(cfg, After(cfg, calls), key), at) == left + cfg.rate.unit
    ensures Spent(cfg, calls + [Call(key, at)], After(cfg, calls), key, left, at)
    ensures AnswerAt(cfg, calls + [Call(key, at)], |calls|).Admitted?
  {
    OneMore(cfg, calls, Call(key, at));
    PaidStep(cfg, After(cfg, calls), key, at, left);
  }

  lemma PaidAgain(cfg: Config, calls: seq<Call>, before: Table, key: string, at: int, left: nat)
    requires left + cfg.rate.unit <= cfg.rate.Cap() && Spent(cfg, calls, before, key, left + cfg.rate.unit, at)
    ensures Spent(cfg, calls + [Call(key, at)], before, key, left, at)
    ensures AnswerAt(cfg, calls + [Call(key, at)], |calls|).Admitted?
  {
    JustTaken(cfg.rate, left + cfg.rate.unit, at);
    PaidMore(cfg, calls, key, at, left);
  }

  lemma BurstFirst(cfg: Config, calls: seq<Call>, key: string, at: int)
    requires key in After(cfg, calls) || |After(cfg, calls)| < cfg.max
    requires Available(cfg.rate, BucketOf(cfg, After(cfg, calls), key), at) == cfg.rate.Cap()
    requires cfg.rate.burst >= 1
    ensures Spent(cfg, calls + Repeat(key, at, 1), After(cfg, calls), key, Left(cfg.rate, 1), at)
    ensures AnswerAt(cfg, calls + Repeat(key, at, 1), |calls|).Admitted?
  {
    LeftIs(cfg.rate, 1);
    assert Left(cfg.rate, 1) + cfg.rate.unit == cfg.rate.Cap();
    assert Repeat(key, at, 1) == [Call(key, at)];
    PaidMore(cfg, calls, key, at, Left(cfg.rate, 1));
  }

  /** A key with a full bucket and a place in the table spends n tokens at once. */
  lemma {:induction false} BurstTable(cfg: Config, calls: seq<Call>, key: string, at: int, n: nat)
    requires key in After(cfg, calls) || |After(cfg, calls)| < cfg.max
    requires Available(cfg.rate, BucketOf(cfg, After(cfg, calls), key), at) == cfg.rate.Cap()
    requires 1 <= n <= cfg.rate.burst
    ensures Spent(cfg, calls + Repeat(key, at, n), After(cfg, calls), key, Left(cfg.rate, n), at)
    ensures AnswerAt(cfg, calls + Repeat(key, at, n), |calls| + n - 1).Admitted?
  {
    if n == 1 {
      BurstFirst(cfg, calls, key, at);
    } else {
      BurstTable(cfg, calls, key, at, n - 1);
      BurstMore(cfg, calls, After(cfg, calls), key, at, n);
    }
  }

  lemma BurstMore(cfg: Config, calls: seq<Call>, before: Table, key: string, at: int, n: nat)
    requires 2 <= n <= cfg.rate.burst &&
             Spent(cfg, calls + Repeat(key, at, n - 1), before, key, Left(cfg.rate, n - 1), at)
    ensures Spent(cfg, calls + Repeat(key, at, n), before, key, Left(cfg.rate, n), at)
    ensures AnswerAt(cfg, calls + Repeat(key, at, n), |calls| + n - 1).Admitted?
  {
    LeftStep(cfg.rate, n);
    RepeatMore(calls, key, at, n);
    PaidAgain(cfg, calls + Repeat(key, at, n - 1), before, key, at, Left(cfg.rate, n));
  }

  /** It is admitted every time. */
  lemma BurstAnswer(cfg: Config, calls: seq<Call>, key: string, at: int, n: nat, i: nat)
    requires key in After(cfg, calls) || |After(cfg, calls)| < cfg.max
    requires Available(cfg.rate, BucketOf(cfg, After(cfg, calls), key), at) == cfg.rate.Cap()
    requires |calls| <= i < |calls| + n && n <= cfg.rate.burst
    ensures AnswerAt(cfg, calls + Repeat(key, at, n), i).Admitted?
  {
    var done := i - |calls| + 1;
    assert |calls| + done - 1 == i;
    BurstTable(cfg, calls, key, at, done);
    SplitRepeat(calls, key, at, done, n);
    AnswerOfPrefix(cfg, calls + Repeat(key, at, done), Repeat(key, at, n - done), i);
  }

  lemma SplitRepeat(calls: seq<Call>, key: string, at: int, done: nat, n: nat)
    requires done <= n
    ensures calls + Repeat(key, at, done) + Repeat(key, at, n - done) == calls + Repeat(key, at, n)
  {
  }

  lemma BurstAdmitted(cfg: Config, calls: seq<Call>, key: string, at: int, n: nat)
    requires key in After(cfg, calls) || |After(cfg, calls)| < cfg.max
    requires Available(cfg.rate, BucketOf(cfg, After(cfg, calls), key), at) == cfg.rate.Cap()
    requires 1 <= n <= cfg.rate.burst
    ensures forall i :: |calls| <= i < |calls| + n ==> AnswerAt(cfg, calls + Repeat(key, at, n), i).Admitted?
  {
    forall i | |calls| <= i < |calls| + n
      ensures AnswerAt(cfg, calls + Repeat(key, at, n), i).Admitted?
    {
      BurstAnswer(cfg, calls, key, at, n, i);
    }
  }

  /** The j-th call of a burst after the calls is admitted. */
  predicate AdmitsNth(cfg: Config, calls: seq<Call>, key: string, at: int, j: nat) {
    Step(cfg, After(cfg, calls + Repeat(key, at, j)), Call(key, at)).answer.Admitted?
  }

  lemma BurstNth(cfg: Config, calls: seq<Call>, key: string, at: int, j: nat)
    requires key in After(cfg, calls) || |After(cfg, calls)| < cfg.max
    requires Available(cfg.rate, BucketOf(cfg, After(cfg, calls), key), at) == cfg.rate.Cap()
    requires j < cfg.rate.burst
    ensures AdmitsNth(cfg, calls, key, at, j)
  {
    BurstAnswer(cfg, calls, key, at, j + 1, |calls| + j);
    RepeatMore(calls, key, at, j + 1);
    OneMore(cfg, calls + Repeat(key, at, j), Call(key, at));
  }

  lemma LedgerPaid(r: Rate, b: Bucket, at: int)
    requires Admits(r, b, at)
    ensures Take(r, b, at) == Bucket(Available(r, b, at) - r.unit, at)
    ensures Available(r, Take(r, b, at), at) == Available(r, b, at) - r.unit >= 0
  {
  }

  /** The ledger can admit n calls at once only out of the balance the key had. */
  lemma {:induction false} LedgerBurst(cfg: Config, calls: seq<Call>, key: string, at: int, n: nat)
    requires n >= 1
    requires forall i :: |calls| <= i < |calls| + n ==> LedgerAdmits(cfg.rate, calls + Repeat(key, at, n), i)
    ensures var had := Available(cfg.rate, LedgerBucket(cfg.rate, LedgerAfter(cfg.rate, calls), key), at);
            && key in LedgerAfter(cfg.rate, calls + Repeat(key, at, n))
            && LedgerAfter(cfg.rate, calls + Repeat(key, at, n))[key] == Bucket(had - n * cfg.rate.unit, at)
            && had >= n * cfg.rate.unit
  {
    var shorter := calls + Repeat(key, at, n - 1);
    assert calls + Repeat(key, at, n) == shorter + [Call(key, at)];
    assert LedgerAdmits(cfg.rate, calls + Repeat(key, at, n), |shorter|);
    OneMoreInLedger(cfg.rate, shorter, Call(key, at));
    LedgerPaid(cfg.rate, LedgerBucket(cfg.rate, LedgerAfter(cfg.rate, shorter), key), at);
    if n == 1 {
      assert shorter == calls;
    } else {
      forall i | |calls| <= i < |shorter|
        ensures LedgerAdmits(cfg.rate, shorter, i)
      {
        assert LedgerAdmits(cfg.rate, calls + Repeat(key, at, n), i);
        AnswerOfPrefix(cfg, shorter, [Call(key, at)], i);
      }
      LedgerBurst(cfg, calls, key, at, n - 1);
      var had := Available(cfg.rate, LedgerBucket(cfg.rate, LedgerAfter(cfg.rate, calls), key), at);
      JustTaken(cfg.rate, had - (n - 1) * cfg.rate.unit, at);
      assert n * cfg.rate.unit == (n - 1) * cfg.rate.unit + cfg.rate.unit;
    }
  }

  // ---------- Necessity of the refill condition ----------

  const LATE: int := IDLE + 1

  /** One key spends its burst, a second fills the table, a third arrives just over ten minutes
      later and sweeps both out, and the first comes back. */
  function Filled(r: Rate): seq<Call> {
    Repeat("a", 0, r.burst) + [Call("b", 0)]
  }

  function Emptied(r: Rate): seq<Call> {
    Filled(r) + [Call("c", LATE)]
  }

  function Returned(r: Rate): seq<Call> {
    Emptied(r) + Repeat("a", LATE, r.burst)
  }

  lemma DrainedTable(r: Rate)
    requires r.burst > 0
    ensures var m := After(Config(r, 2), Repeat("a", 0, r.burst)); m.Keys == {"a"} && m["a"].seen == 0 && |m| == 1
  {
    var cfg, first := Config(r, 2), Repeat("a", 0, r.burst);
    assert [] + first == first;
    BurstTable(cfg, [], "a", 0, r.burst);
    var m := After(cfg, first);
    assert |m| == |m.Keys| && m.Keys == {"a"};
  }

  lemma FilledTable(r: Rate)
    requires r.burst > 0
    ensures var m := After(Config(r, 2), Filled(r)); m.Keys == {"a", "b"} && m["a"].seen == 0 && m["b"].seen == 0
    ensures !AnswerAt(Config(r, 2), Filled(r), r.burst).TableFull?
  {
    DrainedTable(r);
    OneMore(Config(r, 2), Repeat("a", 0, r.burst), Call("b", 0));
  }

  lemma FilledAnswers(r: Rate)
    requires r.burst > 0
    ensures NeverFull(Config(r, 2), Filled(r))
  {
    var cfg, first := Config(r, 2), Repeat("a", 0, r.burst);
    FilledTable(r);
    assert [] + first == first;
    forall i | 0 <= i < |Filled(r)|
      ensures !AnswerAt(cfg, Filled(r), i).TableFull?
    {
      if i < |first| {
        BurstAnswer(cfg, [], "a", 0, r.burst, i);
        AnswerOfPrefix(cfg, first, [Call("b", 0)], i);
      }
    }
  }

  lemma EmptiedTable(r: Rate)
    requires r.burst > 0
    ensures After(Config(r, 2), Emptied(r)).Keys == {"c"}
    ensures NeverFull(Config(r, 2), Emptied(r))
  {
    FilledTable(r);
    FilledAnswers(r);
    OneMore(Config(r, 2), Filled(r), Call("c", LATE));
    LateComer(Config(r, 2), After(Config(r, 2), Filled(r)));
    StillNeverFull(Config(r, 2), Filled(r), Call("c", LATE));
  }

  /** A third key finds two idle ones and sweeps them out. */
  lemma LateComer(cfg: Config, m: Table)
    requires cfg.max == 2 && m.Keys == {"a", "b"} && m["a"].seen == 0 && m["b"].seen == 0
    ensures var o := Step(cfg, m, Call("c", LATE)); o.table.Keys == {"c"} && !o.answer.TableFull?
  {
    assert |m| == |m.Keys| == 2;
    assert Swept(m, LATE) == map[];
  }

  lemma StillNeverFull(cfg: Config, calls: seq<Call>, c: Call)
    requires NeverFull(cfg, calls) && !AnswerAt(cfg, calls + [c], |calls|).TableFull?
    ensures NeverFull(cfg, calls + [c])
  {
    forall i | 0 <= i < |calls + [c]|
      ensures !AnswerAt(cfg, calls + [c], i).TableFull?
    {
      if i < |calls| {
        AnswerOfPrefix(cfg, calls, [c], i);
      }
    }
  }

  lemma ReturnedAdmitted(r: Rate)
    requires r.burst > 0
    ensures NeverFull(Config(r, 2), Returned(r))
    ensures forall i :: |Emptied(r)| <= i < |Returned(r)| ==> AnswerAt(Config(r, 2), Returned(r), i).Admitted?
  {
    var cfg := Config(r, 2);
    EmptiedTable(r);
    var m := After(cfg, Emptied(r));
    assert |m| == |m.Keys| == 1;
    BurstAdmitted(cfg, Emptied(r), "a", LATE, r.burst);
    forall i | 0 <= i < |Returned(r)|
      ensures !AnswerAt(cfg, Returned(r), i).TableFull?
    {
      if i < |Emptied(r)| {
        AnswerOfPrefix(cfg, Emptied(r), Repeat("a", LATE, r.burst), i);
        assert !AnswerAt(cfg, Emptied(r), i).TableFull?;
      }
    }
  }

  lemma FirstBurstInLedger(r: Rate, i: nat)
    requires i < r.burst && AnswersAlike(Config(r, 2), Returned(r))
    ensures LedgerAdmits(r, Repeat("a", 0, r.burst), i)
  {
    var cfg, first := Config(r, 2), Repeat("a", 0, r.burst);
    var rest := [Call("b", 0)] + [Call("c", LATE)] + Repeat("a", LATE, r.burst);
    assert [] + first == first && Returned(r) == first + rest;
    BurstAnswer(cfg, [], "a", 0, r.burst, i);
    AnswerOfPrefix(cfg, first, rest, i);
    assert AnswerAt(cfg, Returned(r), i).Admitted? == LedgerAdmits(r, Returned(r), i);
  }

  /** The ledger still knows that the first key spent its burst. */
  lemma LedgerRemembers(r: Rate)
    requires r.burst > 0 && AnswersAlike(Config(r, 2), Returned(r))
    ensures LedgerBucket(r, LedgerAfter(r, Emptied(r)), "a") == Bucket(0, 0)
  {
    var first := Repeat("a", 0, r.burst);
    assert [] + first == first;
    forall i | 0 <= i < r.burst
      ensures LedgerAdmits(r, first, i)
    {
      FirstBurstInLedger(r, i);
    }
    LedgerBurst(Config(r, 2), [], "a", 0, r.burst);
    OneMoreInLedger(r, first, Call("b", 0));
    OneMoreInLedger(r, Filled(r), Call("c", LATE));
  }

  lemma ReturnedRemembered(r: Rate)
    requires r.burst > 0 && AnswersAlike(Config(r, 2), Returned(r))
    ensures IdleRefills(r)
  {
    LedgerRemembers(r);
    ReturnedAdmitted(r);
    forall i | |Emptied(r)| <= i < |Returned(r)|
      ensures LedgerAdmits(r, Returned(r), i)
    {
      assert AnswerAt(Config(r, 2), Returned(r), i).Admitted?;
    }
    LedgerBurst(Config(r, 2), Emptied(r), "a", LATE, r.burst);
  }

  lemma ReturnedAlike(r: Rate)
    requires r.burst > 0 && ServedAlike(Config(r, 2), Returned(r))
    ensures AnswersAlike(Config(r, 2), Returned(r))
  {
    var cfg := Config(r, 2);
    ReturnedAdmitted(r);
    forall i | 0 <= i < |Returned(r)|
      ensures AnswerAt(cfg, Returned(r), i).Admitted? == LedgerAdmits(r, Returned(r), i)
    {
      assert ServedAlikeAt(cfg, Returned(r), i);
      NeverFullServesAll(cfg, Returned(r), i);
    }
  }

  lemma AlikeOnReturned(r: Rate)
    requires r.burst > 0
    requires ServedAlike(Config(r, 2), Returned(r)) || AnswersAlike(Config(r, 2), Returned(r))
    ensures IdleRefills(r)
  {
    if ServedAlike(Config(r, 2), Returned(r)) {
      ReturnedAlike(r);
    }
    ReturnedRemembered(r);
  }

  /** Dropping idle keys changes an answer on no run in order, whatever the size of the table,
      exactly when ten idle minutes refill a bucket. Looking only at runs that never find the
      table full does not weaken the condition. */
  lemma EvictionInvisibleExactly(r: Rate)
    ensures IdleRefills(r)
        <==> forall max: nat, calls: seq<Call> :: Nondecreasing(Times(calls)) ==> ServedAlike(Config(r, max), calls)
    ensures IdleRefills(r)
        <==> forall max: nat, calls: seq<Call> ::
               Nondecreasing(Times(calls)) && NeverFull(Config(r, max), calls) ==> AnswersAlike(Config(r, max), calls)
  {
    if IdleRefills(r) {
      forall max: nat, calls: seq<Call> | Nondecreasing(Times(calls))
        ensures ServedAlike(Config(r, max), calls)
        ensures NeverFull(Config(r, max), calls) ==> AnswersAlike(Config(r, max), calls)
      {
        EvictionInvisible(Config(r, max), calls);
      }
    } else {
      assert r.burst > 0;
      ReturnedAdmitted(r);
      assert Nondecreasing(Times(Returned(r)));
      assert NeverFull(Config(r, 2), Returned(r));
      if ServedAlike(Config(r, 2), Returned(r)) || AnswersAlike(Config(r, 2), Returned(r)) {
        AlikeOnReturned(r);
        assert false;
      }
    }
  }

  // ---------- Filling the table ----------

  /** The i-th of a family of keys; no two are equal. */
  function Filler(prefix: string, i: nat): string {
    prefix + seq(i + 1, _ => 'b')
  }

  function Fillers(prefix: string, at: int, n: nat): (calls: seq<Call>)
    ensures |calls| == n && forall i :: 0 <= i < n ==> calls[i] == Call(Filler(prefix, i), at)
  {
    seq(n, i requires 0 <= i < n => Call(Filler(prefix, i), at))
  }

  function FillerKeys(prefix: string, n: nat): set<string> {
    if n == 0 then {} else FillerKeys(prefix, n - 1) + {Filler(prefix, n - 1)}
  }

  lemma {:induction false} FillerLength(prefix: string, n: nat, key: string)
    requires key in FillerKeys(prefix, n)
    ensures |prefix| < |key| <= |prefix| + n && prefix <= key && key[|prefix|] == 'b'
  {
    if key != Filler(prefix, n - 1) {
      FillerLength(prefix, n - 1, key);
    }
  }

  lemma NextFiller(prefix: string, n: nat)
    ensures Filler(prefix, n) !in FillerKeys(prefix, n)
  {
    if Filler(prefix, n) in FillerKeys(prefix, n) {
      FillerLength(prefix, n, Filler(prefix, n));
    }
  }

  /** m with these keys added at one time. */
  ghost predicate Added(m: Table, m': Table, added: set<string>, at: int) {
    && m'.Keys == m.Keys + added && (forall k :: k in m ==> m'[k] == m[k])
    && (forall k :: k in added && k !in m ==> m'[k].seen == at)
  }

  lemma FillerMore(cfg: Config, calls: seq<Call>, prefix: string, at: int, n: nat)
    ensures var before := calls + Fillers(prefix, at, n);
            After(cfg, calls + Fillers(prefix, at, n + 1))
              == Step(cfg, After(cfg, before), Call(Filler(prefix, n), at)).table
  {
    var before := calls + Fillers(prefix, at, n);
    assert calls + Fillers(prefix, at, n + 1) == before + [Call(Filler(prefix, n), at)];
    OneMore(cfg, before, Call(Filler(prefix, n), at));
  }

  lemma FillerStep(cfg: Config, before: Table, key: string, at: int)
    requires key !in before && |before| < cfg.max
    ensures var o := Step(cfg, before, Call(key, at));
            |o.table| == |before| + 1 && Added(before, o.table, {key}, at) && !o.answer.TableFull?
  {
    var o := Step(cfg, before, Call(key, at));
    assert |o.table| == |o.table.Keys|;
  }

  lemma AddedMore(m: Table, before: Table, after: Table, added: set<string>, key: string, at: int)
    requires Added(m, before, added, at) && Added(before, after, {key}, at) && key !in before
    ensures Added(m, after, added + {key}, at)
  {
  }

  /** New keys are taken in as long as there is room. */
  lemma {:induction false} FillersFill(cfg: Config, calls: seq<Call>, prefix: string, at: int, n: nat)
    requires |After(cfg, calls)| + n <= cfg.max
    requires FillerKeys(prefix, n) !! After(cfg, calls).Keys
    ensures |After(cfg, calls + Fillers(prefix, at, n))| == |After(cfg, calls)| + n
    ensures Added(After(cfg, calls), After(cfg, calls + Fillers(prefix, at, n)), FillerKeys(prefix, n), at)
  {
    if n == 0 {
      assert calls + Fillers(prefix, at, 0) == calls;
    } else {
      FillersFill(cfg, calls, prefix, at, n - 1);
      NextFiller(prefix, n - 1);
      FillerMore(cfg, calls, prefix, at, n - 1);
      var before := After(cfg, calls + Fillers(prefix, at, n - 1));
      FillerStep(cfg, before, Filler(prefix, n - 1), at);
      AddedMore(After(cfg, calls), before, After(cfg, calls + Fillers(prefix, at, n)), FillerKeys(prefix, n - 1),
                Filler(prefix, n - 1), at);
    }
  }

  lemma KnownStep(cfg: Config, m: Table, key: string, at: int)
    requires key in m
    ensures var t := Step(cfg, m, Call(key, at)).table; t.Keys == m.Keys && t[key].seen == at
  {
  }

  // ---------- Counting over longer runs ----------

  /** The calls admitted for a key at times in [from, to). */
  function AdmittedWithin(cfg: Config, calls: seq<Call>, key: string, from: int, to: int): nat {
    CountWithin(AdmittedFor(cfg, calls, key), Times(calls), from, to)
  }

  /** What one more call adds to them. */
  function Admission(cfg: Config, calls: seq<Call>, c: Call, key: string, from: int, to: int): nat {
    if c.key == key && from <= c.at < to && Step(cfg, After(cfg, calls), c).answer.Admitted? then 1 else 0
  }

  lemma AdmittedStep(cfg: Config, calls: seq<Call>, c: Call, key: string, from: int, to: int)
    ensures AdmittedWithin(cfg, calls + [c], key, from, to)
         == AdmittedWithin(cfg, calls, key, from, to) + Admission(cfg, calls, c, key, from, to)
  {
    var more, n := calls + [c], |calls|;
    OneMore(cfg, calls, c);
    forall i | 0 <= i < n
      ensures AnswerAt(cfg, more, i) == AnswerAt(cfg, calls, i)
    {
      AnswerOfPrefix(cfg, calls, [c], i);
    }
    assert AdmittedFor(cfg, more, key)[..n] == AdmittedFor(cfg, calls, key);
    assert Times(more)[..n] == Times(calls);
  }
}
