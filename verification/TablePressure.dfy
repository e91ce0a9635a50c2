/**
 What one key's call does to another key. On calls in order there is one way only: through the
 table. A call may add its key to those served lately, or sweep the other key out, so that the
 other key finds the table full.
 */
module TablePressure {
  import opened Timeline
  import opened TokenBucket
  import opened KeyedLimiter
  import opened KeyedLimiterRefinement
  import opened KeyedLimiterExactness

  lemma {:induction false} TimesOfMore(calls: seq<Call>, more: seq<Call>, key: string)
    ensures TimesOf(calls + more, key) == TimesOf(calls, key) + TimesOf(more, key)
  {
    if more == [] {
      assert calls + more == calls;
    } else {
      var n := |more| - 1;
      TimesOfMore(calls, more[..n], key);
      assert (calls + more)[..|calls| + n] == calls + more[..n];
    }
  }

  // ---------- The next call ----------

  /** The answer to a call that comes right after a run. */
  function Reply(cfg: Config, calls: seq<Call>, c: Call): Answer {
    Step(cfg, After(cfg, calls), c).answer
  }

  lemma ReplyIsAnswer(cfg: Config, calls: seq<Call>, c: Call)
    ensures Reply(cfg, calls, c) == AnswerAt(cfg, calls + [c], |calls|)
  {
    OneMore(cfg, calls, c);
  }

  lemma ServedMore(cfg: Config, calls: seq<Call>, c: Call, key: string)
    ensures ServedTimes(cfg, calls + [c], key) == ServedTimes(cfg, calls, key) +
              if c.key == key && !Reply(cfg, calls, c).TableFull? then [c.at] else []
  {
    var all := calls + [c];
    assert all[..|calls|] == calls && all[..|calls| + 1] == all;
    ReplyIsAnswer(cfg, calls, c);
    ServedNext(cfg, all, |calls|);
    var last := if AnswerAt(cfg, all, |calls|).TableFull? then [] else [c];
    TimesOfMore(Served(cfg, calls), last, key);
    assert TimesOf([c], key) == if c.key == key then [c.at] else [] by {
      assert [c][..0] == [];
    }
  }

  ghost predicate InOrder(calls: seq<Call>) {
    Nondecreasing(Times(calls))
  }

  lemma ReplyFull(cfg: Config, calls: seq<Call>, c: Call)
    requires InOrder(calls + [c])
    ensures Reply(cfg, calls, c).TableFull?
        <==> c.key !in After(cfg, calls) && |RecentKeys(cfg, calls, c.at)| >= cfg.max
  {
    ReplyIsAnswer(cfg, calls, c);
    FullExactly(cfg, calls + [c], |calls|);
    assert (calls + [c])[..|calls|] == calls;
  }

  lemma ReplyIsPrivate(cfg: Config, calls: seq<Call>, c: Call)
    requires InOrder(calls + [c]) && IdleRefills(cfg.rate) && !Reply(cfg, calls, c).TableFull?
    ensures Reply(cfg, calls, c).Admitted?
       <==> Admits(cfg.rate, Private(cfg.rate, ServedTimes(cfg, calls, c.key)), c.at)
  {
    ReplyIsAnswer(cfg, calls, c);
    KeysIsolated(cfg, calls + [c], |calls|);
    assert (calls + [c])[..|calls|] == calls;
  }

  lemma SameReply(cfg: Config, calls: seq<Call>, calls': seq<Call>, c: Call)
    requires InOrder(calls + [c]) && InOrder(calls' + [c]) && IdleRefills(cfg.rate)
    requires ServedTimes(cfg, calls, c.key) == ServedTimes(cfg, calls', c.key)
    requires Reply(cfg, calls, c).TableFull? == Reply(cfg, calls', c).TableFull?
    ensures Reply(cfg, calls, c) == Reply(cfg, calls', c)
  {
    if !Reply(cfg, calls, c).TableFull? {
      ReplyIsPrivate(cfg, calls, c);
      ReplyIsPrivate(cfg, calls', c);
    }
  }

  /** What a call adds to the keys served lately, seen from `now`. */
  function Counted(cfg: Config, calls: seq<Call>, c: Call, now: int): set<string> {
    if !Reply(cfg, calls, c).TableFull? && now - c.at <= IDLE then {c.key} else {}
  }

  lemma RecentMore(cfg: Config, calls: seq<Call>, c: Call, now: int)
    ensures RecentKeys(cfg, calls + [c], now)
         == RecentKeys(cfg, calls, now) + Counted(cfg, calls, c, now)
  {
    assert (calls + [c])[..|calls|] == calls;
    ReplyIsAnswer(cfg, calls, c);
  }

  lemma OnlyNewKey(cfg: Config, calls: seq<Call>, c: Call, key: string)
    requires key != c.key && key in After(cfg, calls + [c])
    ensures key in After(cfg, calls)
  {
    OneMore(cfg, calls, c);
  }

  lemma WithoutOne(calls: seq<Call>, c: Call, rest: seq<Call>)
    requires InOrder(calls + [c] + rest)
    ensures InOrder(calls + rest)
  {
    var long, short := calls + [c] + rest, calls + rest;
    forall i, j | 0 <= i < j < |short|
      ensures Times(short)[i] <= Times(short)[j]
    {
      var i', j' := if i < |calls| then i else i + 1, if j < |calls| then j else j + 1;
      assert Times(long)[i'] == Times(short)[i] && Times(long)[j'] == Times(short)[j];
    }
  }

  /** One more call changes the answer to another key's next call exactly when that key is not in
      the table any more, or not yet, and finds `max` keys served lately, where without the call
      it would have been in the table or found fewer. Then it is refused for the full table. */
  lemma OthersReply(cfg: Config, calls: seq<Call>, c: Call, next: Call)
    requires InOrder(calls + [c] + [next]) && IdleRefills(cfg.rate) && next.key != c.key
    ensures Reply(cfg, calls + [c], next) != Reply(cfg, calls, next)
        <==> Reply(cfg, calls + [c], next).TableFull? && !Reply(cfg, calls, next).TableFull?
    ensures Reply(cfg, calls + [c], next) != Reply(cfg, calls, next)
        <==> && next.key !in After(cfg, calls + [c])
             && |RecentKeys(cfg, calls, next.at) + Counted(cfg, calls, c, next.at)| >= cfg.max
             && (next.key in After(cfg, calls) || |RecentKeys(cfg, calls, next.at)| < cfg.max)
  {
    WithoutOne(calls, c, [next]);
    ReplyFull(cfg, calls, next);
    ReplyFull(cfg, calls + [c], next);
    RecentMore(cfg, calls, c, next.at);
    SubsetIsSmaller(RecentKeys(cfg, calls, next.at), RecentKeys(cfg, calls + [c], next.at));
    if next.key in After(cfg, calls + [c]) {
      OnlyNewKey(cfg, calls, c, next.key);
    }
    ServedMore(cfg, calls, c, next.key);
    if Reply(cfg, calls + [c], next).TableFull? == Reply(cfg, calls, next).TableFull? {
      SameReply(cfg, calls, calls + [c], next);
    }
  }

  // ---------- Any later call ----------

  predicate SameRefusal(cfg: Config, calls: seq<Call>, calls': seq<Call>, c: Call) {
    Reply(cfg, calls, c).TableFull? == Reply(cfg, calls', c).TableFull?
  }

  /** The key's calls in `rest` find the table full after one run exactly when they do after the other. */
  ghost predicate SameRefusals(cfg: Config, calls: seq<Call>, calls': seq<Call>, rest: seq<Call>, key: string) {
    forall i :: 0 <= i < |rest| && rest[i].key == key ==>
      SameRefusal(cfg, calls + rest[..i], calls' + rest[..i], rest[i])
  }

  lemma RefusalsBefore(cfg: Config, calls: seq<Call>, calls': seq<Call>, rest: seq<Call>, c: Call, key: string)
    requires SameRefusals(cfg, calls, calls', rest + [c], key)
    ensures SameRefusals(cfg, calls, calls', rest, key)
    ensures c.key == key ==> SameRefusal(cfg, calls + rest, calls' + rest, c)
  {
    var all := rest + [c];
    assert all[..|rest|] == rest && all[|rest|] == c;
    forall i | 0 <= i < |rest| && rest[i].key == key
      ensures SameRefusal(cfg, calls + rest[..i], calls' + rest[..i], rest[i])
    {
      assert all[..i] == rest[..i] && all[i] == rest[i];
    }
  }

  lemma ServedBoth(cfg: Config, calls: seq<Call>, calls': seq<Call>, c: Call, key: string)
    requires ServedTimes(cfg, calls, key) == ServedTimes(cfg, calls', key)
    requires c.key == key ==> SameRefusal(cfg, calls, calls', c)
    ensures ServedTimes(cfg, calls + [c], key) == ServedTimes(cfg, calls' + [c], key)
  {
    ServedMore(cfg, calls, c, key);
    ServedMore(cfg, calls', c, key);
  }

  lemma {:induction false} SameServed(cfg: Config, calls: seq<Call>, calls': seq<Call>, rest: seq<Call>, key: string)
    requires ServedTimes(cfg, calls, key) == ServedTimes(cfg, calls', key) &&
             SameRefusals(cfg, calls, calls', rest, key)
    ensures ServedTimes(cfg, calls + rest, key) == ServedTimes(cfg, calls' + rest, key)
    decreases |rest|
  {
    if rest == [] {
      assert calls + rest == calls && calls' + rest == calls';
    } else {
      var n := |rest| - 1;
      var before, c := rest[..n], rest[n];
      assert rest == before + [c];
      RefusalsBefore(cfg, calls, calls', before, c, key);
      SameServed(cfg, calls, calls', before, key);
      assert calls + rest == calls + before + [c] && calls' + rest == calls' + before + [c];
      ServedBoth(cfg, calls + before, calls' + before, c, key);
    }
  }

  lemma BothInOrder(calls: seq<Call>, c: Call, rest: seq<Call>, next: Call)
    requires InOrder(calls + [c] + rest + [next])
    ensures InOrder(calls + rest + [next])
  {
    var all := rest + [next];
    assert calls + [c] + rest + [next] == calls + [c] + all && calls + all == calls + rest + [next];
    WithoutOne(calls, c, all);
  }

  /** However much later: if another key's call is answered differently because of one call, then
      some call of that key by then was refused for a full table in one case and not in the other. */
  lemma OnlyThroughFullTable(cfg: Config, calls: seq<Call>, c: Call, rest: seq<Call>, next: Call)
    requires InOrder(calls + [c] + rest + [next]) && IdleRefills(cfg.rate) && next.key != c.key
    requires Reply(cfg, calls + [c] + rest, next) != Reply(cfg, calls + rest, next)
    ensures !SameRefusals(cfg, calls + [c], calls, rest + [next], next.key)
  {
    var key, all := next.key, rest + [next];
    if SameRefusals(cfg, calls + [c], calls, all, key) {
      RefusalsBefore(cfg, calls + [c], calls, rest, next, key);
      ServedMore(cfg, calls, c, key);
      SameServed(cfg, calls + [c], calls, rest, key);
      BothInOrder(calls, c, rest, next);
      SameReply(cfg, calls + [c] + rest, calls + rest, next);
      assert false;
    }
  }
}
