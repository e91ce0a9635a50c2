/**
 What a sender over its own limit does to others. The Subscription's limit is asked before the
 source's, so a request that is refused for its source has already been charged to the
 Subscription it names, and has taken or renewed a place in the table of Subscriptions.
 */
module OverLimit {
  import opened Timeline
  import opened TokenBucket
  import opened KeyedLimiter
  import opened KeyedLimiterRefinement
  import opened KeyedLimiterExactness
  import opened TablePressure
  import opened WebhookLimits
  import opened GoStrings
  import opened WebhookPaths
  import opened SubscriptionReceiver

  function SubCall(q: Request): Call {
    Call(q.key, q.at)
  }

  function IPCall(q: Request): Call {
    Call(q.ip, q.at)
  }

  /** The tables after both limits, and whether they let the request through. */
  function Asked(st: Tables, q: Request): Tables {
    Limits(st, q.key, q.ip, q.at).0
  }

  predicate Passes(st: Tables, q: Request) {
    Limits(st, q.key, q.ip, q.at).1
  }

  /** The balance a Subscription has left at t. */
  function Budget(st: Tables, key: string, t: int): int {
    Available(PER_SUBSCRIPTION.rate, BucketOf(PER_SUBSCRIPTION, st.perSub, key), t)
  }

  predicate SourceOver(st: Tables, q: Request) {
    !Step(PER_IP, st.perIP, IPCall(q)).answer.Admitted?
  }

  /** A request from a source over its limit is refused, and leaves its Subscription's budget
      alone exactly when the Subscription's own limit refused it first. */
  lemma OverLimitCharges(st: Tables, q: Request)
    requires SourceOver(st, q)
    ensures !Passes(st, q)
    ensures Budget(Asked(st, q), q.key, q.at) == Budget(st, q.key, q.at)
        <==> !Step(PER_SUBSCRIPTION, st.perSub, SubCall(q)).answer.Admitted?
  {
    var t := Consulted(PER_SUBSCRIPTION, st.perSub, SubCall(q));
    assert BucketOf(PER_SUBSCRIPTION, t, q.key) == BucketOf(PER_SUBSCRIPTION, st.perSub, q.key);
    AfterTake(PER_SUBSCRIPTION.rate, BucketOf(PER_SUBSCRIPTION, t, q.key), q.at);
  }

  // ---------- Requests one after the other ----------

  function TablesAfter(qs: seq<Request>): Tables {
    if qs == [] then START.tables else Asked(TablesAfter(qs[..|qs| - 1]), qs[|qs| - 1])
  }

  /** A request right after these is refused. */
  predicate Refused(qs: seq<Request>, q: Request) {
    !Passes(TablesAfter(qs), q)
  }

  lemma OneMoreRequest(qs: seq<Request>, q: Request)
    ensures TablesAfter(qs + [q]) == Asked(TablesAfter(qs), q)
  {
    assert (qs + [q])[..|qs|] == qs;
  }

  function Copies(q: Request, n: nat): (qs: seq<Request>)
    ensures |qs| == n && forall i :: 0 <= i < n ==> qs[i] == q
  {
    seq(n, _ => q)
  }

  lemma OneMoreCopy(qs: seq<Request>, q: Request, n: nat)
    requires n > 0
    ensures qs + Copies(q, n) == qs + Copies(q, n - 1) + [q]
    ensures TablesAfter(qs + Copies(q, n)) == Asked(TablesAfter(qs + Copies(q, n - 1)), q)
  {
    assert qs + Copies(q, n) == qs + Copies(q, n - 1) + [q];
    OneMoreRequest(qs + Copies(q, n - 1), q);
  }

  // ---------- Using up a Subscription's budget ----------

  /** The source is over its limit, and the Subscription has a place or room for one and this many
      tokens left. */
  ghost predicate Charging(st: Tables, q: Request, tokens: nat) {
    && Budget(st, q.key, q.at) == tokens * SECOND && SourceOver(st, q)
    && !Step(PER_SUBSCRIPTION, st.perSub, SubCall(q)).answer.TableFull?
  }

  /** A refused source stays refused at that time. */
  lemma StaysOver(m: Table, c: Call)
    requires !Step(PER_IP, m, c).answer.Admitted?
    ensures !Step(PER_IP, Step(PER_IP, m, c).table, c).answer.Admitted?
  {
    SweptTwice(m, c.at, c.at);
  }

  /** A Subscription that can pay is charged, and stays in the table. */
  lemma ChargedStep(m: Table, c: Call, left: nat)
    requires Available(PER_SUBSCRIPTION.rate, BucketOf(PER_SUBSCRIPTION, m, c.key), c.at) == left + SECOND
    requires !Step(PER_SUBSCRIPTION, m, c).answer.TableFull?
    ensures var o := Step(PER_SUBSCRIPTION, m, c);
            o.answer.Admitted? && c.key in o.table && o.table[c.key] == Entry(Bucket(left, c.at), c.at)
  {
    var t := Consulted(PER_SUBSCRIPTION, m, c);
    assert BucketOf(PER_SUBSCRIPTION, t, c.key) == BucketOf(PER_SUBSCRIPTION, m, c.key);
  }

  lemma ChargedOnce(st: Tables, q: Request, tokens: nat)
    requires Charging(st, q, tokens + 1)
    ensures Charging(Asked(st, q), q, tokens) && !Passes(st, q) && q.key in Asked(st, q).perSub
  {
    ChargedStep(st.perSub, SubCall(q), tokens * SECOND);
    JustTaken(PER_SUBSCRIPTION.rate, tokens * SECOND, q.at);
    StaysOver(st.perIP, IPCall(q));
  }

  lemma {:induction false} ChargedMany(qs: seq<Request>, q: Request, left: nat, n: nat)
    requires Charging(TablesAfter(qs), q, left + n)
    ensures Charging(TablesAfter(qs + Copies(q, n)), q, left)
    ensures n > 0 ==> q.key in TablesAfter(qs + Copies(q, n)).perSub && Refused(qs + Copies(q, n - 1), q)
    decreases n
  {
    if n == 0 {
      assert qs + Copies(q, 0) == qs;
    } else {
      ChargedMany(qs, q, left + 1, n - 1);
      OneMoreCopy(qs, q, n);
      ChargedOnce(TablesAfter(qs + Copies(q, n - 1)), q, left);
    }
  }

  /** An empty Subscription bucket refuses whoever asks before it has one token again. */
  lemma EmptyRefuses(st: Tables, at: int, other: Request)
    requires other.key in st.perSub && Budget(st, other.key, at) == 0 && 5 * (other.at - at) < SECOND
    ensures !Passes(st, other)
  {
    AvailableGrows(PER_SUBSCRIPTION.rate, st.perSub[other.key].bucket, at, other.at);
  }

  /** Ten requests that are all refused because their source is over its limit use up the whole
      budget of the Subscription they name, known or not: whoever asks for it in the next fifth of
      a second is refused too, from whatever source. */
  lemma OverLimitEmpties(qs: seq<Request>, q: Request, other: Request)
    requires Charging(TablesAfter(qs), q, 10) && other.key == q.key && 5 * (other.at - q.at) < SECOND
    ensures forall i :: 0 <= i < 10 ==> Refused(qs + Copies(q, i), q)
    ensures Refused(qs + Copies(q, 10), other)
  {
    forall i | 0 <= i < 10
      ensures Refused(qs + Copies(q, i), q)
    {
      ChargedMany(qs, q, 9 - i, i + 1);
    }
    ChargedMany(qs, q, 0, 10);
    EmptyRefuses(TablesAfter(qs + Copies(q, 10)), q.at, other);
  }

  // ---------- A source that gets over its limit ----------

  /** A request for n/<name>. */
  function To(name: string, ip: string, at: int): Request {
    Request("n/" + name, ip, at, Readable)
  }

  /** The calls a run of requests makes on the two limiters. */
  function SubRun(qs: seq<Request>): seq<Call> {
    if qs == [] then [] else SubRun(qs[..|qs| - 1]) + [SubCall(qs[|qs| - 1])]
  }

  function IPRun(qs: seq<Request>): seq<Call> {
    if qs == [] then []
    else
      var before, q := qs[..|qs| - 1], qs[|qs| - 1];
      IPRun(before) + if Reply(PER_SUBSCRIPTION, SubRun(before), SubCall(q)).Admitted? then [IPCall(q)] else []
  }

  lemma RunMore(qs: seq<Request>, q: Request)
    ensures SubRun(qs + [q]) == SubRun(qs) + [SubCall(q)]
    ensures IPRun(qs + [q])
            == IPRun(qs) + if Reply(PER_SUBSCRIPTION, SubRun(qs), SubCall(q)).Admitted? then [IPCall(q)] else []
  {
    assert (qs + [q])[..|qs|] == qs;
  }

  lemma {:induction false} RunTables(qs: seq<Request>)
    ensures TablesAfter(qs) == Tables(After(PER_SUBSCRIPTION, SubRun(qs)), After(PER_IP, IPRun(qs)))
  {
    if qs != [] {
      var before, q := qs[..|qs| - 1], qs[|qs| - 1];
      RunTables(before);
      assert IPRun(before) + [] == IPRun(before);
      OneMore(PER_SUBSCRIPTION, SubRun(before), SubCall(q));
      OneMore(PER_IP, IPRun(before), IPCall(q));
    }
  }

  lemma {:induction false} SubRunMany(qs: seq<Request>, q: Request, n: nat)
    ensures SubRun(qs + Copies(q, n)) == SubRun(qs) + Repeat(q.key, q.at, n)
  {
    if n == 0 {
      assert qs + Copies(q, 0) == qs;
    } else {
      SubRunMany(qs, q, n - 1);
      OneMoreCopy(qs, q, n);
      RunMore(qs + Copies(q, n - 1), q);
      RepeatMore(SubRun(qs), q.key, q.at, n);
    }
  }

  /** Requests the Subscription's limit admits all reach the source's. */
  lemma {:induction false} IPRunMany(qs: seq<Request>, q: Request, n: nat)
    requires forall j :: 0 <= j < n ==> AdmitsNth(PER_SUBSCRIPTION, SubRun(qs), q.key, q.at, j)
    ensures IPRun(qs + Copies(q, n)) == IPRun(qs) + Repeat(q.ip, q.at, n)
  {
    if n == 0 {
      assert qs + Copies(q, 0) == qs;
    } else {
      IPRunMany(qs, q, n - 1);
      IPRunOnce(qs, q, n);
      RepeatMore(IPRun(qs), q.ip, q.at, n);
    }
  }

  lemma IPRunOnce(qs: seq<Request>, q: Request, n: nat)
    requires n > 0 && AdmitsNth(PER_SUBSCRIPTION, SubRun(qs), q.key, q.at, n - 1)
    ensures IPRun(qs + Copies(q, n)) == IPRun(qs + Copies(q, n - 1)) + [IPCall(q)]
  {
    SubRunMany(qs, q, n - 1);
    OneMoreCopy(qs, q, n);
    RunMore(qs + Copies(q, n - 1), q);
  }

  /** A source spends its burst on two Subscriptions. */
  function Spree(ip: string, at: int): seq<Request> {
    Copies(To("a", ip, at), 10) + Copies(To("c", ip, at), 10)
  }

  /** Two Subscriptions are known and one source, which has nothing left. */
  ghost predicate Exhausted(st: Tables, ip: string, at: int) {
    && st.perSub.Keys == {"n/a", "n/c"} && (forall k :: k in st.perSub ==> st.perSub[k].seen == at)
    && st.perIP == map[ip := Entry(Bucket(0, at), at)]
  }

  lemma FromNothing(key: string, at: int, n: nat)
    ensures [] + Repeat(key, at, n) == Repeat(key, at, n)
  {
  }

  lemma FirstAdmitted(key: string, at: int, j: nat)
    requires j < 10
    ensures AdmitsNth(PER_SUBSCRIPTION, [], key, at, j)
  {
    BurstNth(PER_SUBSCRIPTION, [], key, at, j);
  }

  /** The table of Subscriptions after a burst for one, and for each of two. */
  lemma OneBurst(a: string, at: int)
    ensures After(PER_SUBSCRIPTION, Repeat(a, at, 10)) == map[a := Entry(Bucket(0, at), at)]
  {
    FromNothing(a, at, 10);
    BurstTable(PER_SUBSCRIPTION, [], a, at, 10);
    LeftIs(PER_SUBSCRIPTION.rate, 10);
  }

  lemma SecondAdmitted(a: string, c: string, at: int, j: nat)
    requires a != c && j < 10
    ensures AdmitsNth(PER_SUBSCRIPTION, Repeat(a, at, 10), c, at, j)
  {
    OneBurst(a, at);
    BurstNth(PER_SUBSCRIPTION, Repeat(a, at, 10), c, at, j);
  }

  lemma TwoBursts(a: string, c: string, at: int)
    requires a != c
    ensures var m := After(PER_SUBSCRIPTION, Repeat(a, at, 10) + Repeat(c, at, 10));
            m.Keys == {a, c} && forall k :: k in m ==> m[k].seen == at
  {
    OneBurst(a, at);
    BurstTable(PER_SUBSCRIPTION, Repeat(a, at, 10), c, at, 10);
  }

  lemma SourceBurst(ip: string, at: int)
    ensures After(PER_IP, Repeat(ip, at, 20)) == map[ip := Entry(Bucket(0, at), at)]
  {
    FromNothing(ip, at, 20);
    BurstTable(PER_IP, [], ip, at, 20);
    LeftIs(PER_IP.rate, 20);
  }

  lemma TwoCopies(a: Request, c: Request)
    requires a.key != c.key && a.ip == c.ip && a.at == c.at
    ensures SubRun(Copies(a, 10) + Copies(c, 10)) == Repeat(a.key, a.at, 10) + Repeat(c.key, a.at, 10)
    ensures IPRun(Copies(a, 10) + Copies(c, 10)) == Repeat(a.ip, a.at, 20)
  {
    forall j | 0 <= j < 10
      ensures AdmitsNth(PER_SUBSCRIPTION, [], a.key, a.at, j) &&
              AdmitsNth(PER_SUBSCRIPTION, Repeat(a.key, a.at, 10), c.key, a.at, j)
    {
      FirstAdmitted(a.key, a.at, j);
      SecondAdmitted(a.key, c.key, a.at, j);
    }
    assert [] + Copies(a, 10) == Copies(a, 10);
    SubRunMany([], a, 10);
    IPRunMany([], a, 10);
    FromNothing(a.key, a.at, 10);
    SubRunMany(Copies(a, 10), c, 10);
    IPRunMany(Copies(a, 10), c, 10);
    SplitRepeat([], a.ip, a.at, 10, 20);
    FromNothing(a.ip, a.at, 20);
  }

  lemma SpreeTables(ip: string, at: int)
    ensures Exhausted(TablesAfter(Spree(ip, at)), ip, at)
  {
    assert "n/" + "a" == "n/a" && "n/" + "c" == "n/c";
    RunTables(Spree(ip, at));
    TwoCopies(To("a", ip, at), To("c", ip, at));
    TwoBursts("n/a", "n/c", at);
    SourceBurst(ip, at);
  }

  /** From then on it is over its limit, and every other Subscription still has its budget. */
  lemma ExhaustedCharges(st: Tables, ip: string, at: int, q: Request)
    requires Exhausted(st, ip, at) && q.key !in {"n/a", "n/c"} && q.ip == ip && q.at == at
    ensures Charging(st, q, 10)
  {
    assert |st.perSub| == |st.perSub.Keys| == 2;
    JustTaken(PER_IP.rate, 0, at);
  }

  /** A request from elsewhere is not limited then. */
  lemma ExhaustedLeavesOthers(st: Tables, ip: string, at: int, other: Request)
    requires Exhausted(st, ip, at) && other.key !in {"n/a", "n/c"} && other.ip != ip
    ensures Passes(st, other)
  {
    assert |st.perSub| == |st.perSub.Keys| == 2;
    assert |st.perIP| == 1;
  }

  /** A source over its limit asks ten more times, for a third Subscription. Each
      request is refused, and with them so is whoever asks for that Subscription next; without them
      a request from elsewhere is let through. */
  lemma SpreeUsesUp(ip: string, at: int, other: Request)
    requires other.key == "n/d" && 5 * (other.at - at) < SECOND
    ensures var qs, q := Spree(ip, at), To("d", ip, at);
            && (forall i :: 0 <= i < 10 ==> Refused(qs + Copies(q, i), q))
            && Refused(qs + Copies(q, 10), other)
            && (other.ip != ip ==> !Refused(qs, other))
  {
    assert "n/" + "d" == "n/d";
    SpreeTables(ip, at);
    ExhaustedCharges(TablesAfter(Spree(ip, at)), ip, at, To("d", ip, at));
    OverLimitEmpties(Spree(ip, at), To("d", ip, at), other);
    if other.ip != ip {
      ExhaustedLeavesOthers(TablesAfter(Spree(ip, at)), ip, at, other);
    }
  }

  // ---------- Taking up the table ----------

  /** Whatever becomes of a request, its Subscription has a place in the table as of now, unless
      the table was full. */
  lemma EveryRequestHoldsPlace(st: Tables, q: Request)
    ensures var m := Asked(st, q).perSub;
            (q.key in m && m[q.key].seen == q.at) <==> !Step(PER_SUBSCRIPTION, st.perSub, SubCall(q)).answer.TableFull?
  {
  }

  /** Either table refuses a key for want of room exactly when it is not in it and 10000 others were
      served in the last ten minutes. */
  lemma TablesFullExactly(moves: seq<Move>, q: Request)
    requires InOrder(SubCalls(moves) + [SubCall(q)]) && InOrder(IPCalls(moves) + [IPCall(q)])
    ensures var f := FlowAfter(moves);
            && (SubReply(f, q).answer.TableFull? <==>
                  q.key !in f.tables.perSub && |RecentKeys(PER_SUBSCRIPTION, SubCalls(moves), q.at)| >= 10000)
            && (IPReply(f, q).answer.TableFull? <==>
                  q.ip !in f.tables.perIP && |RecentKeys(PER_IP, IPCalls(moves), q.at)| >= 10000)
  {
    TablesAreLimiters(moves);
    ReplyFull(PER_SUBSCRIPTION, SubCalls(moves), SubCall(q));
    ReplyFull(PER_IP, IPCalls(moves), IPCall(q));
  }

  /** A request q, over its source's limit or not, changes what the limiter of Subscriptions says
      next to a request e for another Subscription exactly when e's Subscription then has no place
      in a table that q filled, or that was full already when q swept that Subscription out. */
  lemma OthersRefusedExactly(moves: seq<Move>, q: Request, e: Request)
    requires q.key != e.key && Nondecreasing(Times(SubCalls(moves + [Ask(q)] + [Ask(e)])))
    ensures var f, f' := FlowAfter(moves), FlowAfter(moves + [Ask(q)]);
            var recent := RecentKeys(PER_SUBSCRIPTION, SubCalls(moves), e.at);
            var counted := if !SubReply(f, q).answer.TableFull? && e.at - q.at <= IDLE then {q.key} else {};
            && (SubReply(f', e).answer != SubReply(f, e).answer <==>
                  && e.key !in f'.tables.perSub && |recent + counted| >= PER_SUBSCRIPTION.max
                  && (e.key in f.tables.perSub || |recent| < PER_SUBSCRIPTION.max))
            && (SubReply(f', e).answer != SubReply(f, e).answer ==> SubReply(f', e).answer.TableFull?)
  {
    CallsMore(moves, q);
    CallsMore(moves + [Ask(q)], e);
    TablesAreLimiters(moves);
    TablesAreLimiters(moves + [Ask(q)]);
    ConstantsRefill();
    OthersReply(PER_SUBSCRIPTION, SubCalls(moves), SubCall(q), SubCall(e));
  }

  lemma CallsMore(moves: seq<Move>, q: Request)
    ensures SubCalls(moves + [Ask(q)]) == SubCalls(moves) + [SubCall(q)]
  {
    assert (moves + [Ask(q)])[..|moves|] == moves;
  }

  /** A request for the n-th of many Subscriptions nobody has heard of, and one for each. */
  function Unheard(n: nat): string {
    seq(n + 1, _ => 'b')
  }

  function Stray(ip: string, at: int, n: nat): Request {
    To(Unheard(n), ip, at)
  }

  function Spray(ip: string, at: int, n: nat): seq<Request> {
    seq(n, i requires 0 <= i < n => Stray(ip, at, i))
  }

  /** The places taken in the table of Subscriptions. */
  ghost predicate Places(m: Table, at: int, n: nat) {
    && m.Keys == {"n/a", "n/c"} + FillerKeys("n/", n) && |m| == n + 2
    && (forall k :: k in m ==> m[k].seen == at)
  }

  ghost predicate Sprayed(st: Tables, ip: string, at: int, n: nat) {
    Places(st.perSub, at, n) && st.perIP == map[ip := Entry(Bucket(0, at), at)]
  }

  lemma ExhaustedRefuses(m: Table, ip: string, at: int)
    requires m == map[ip := Entry(Bucket(0, at), at)]
    ensures Step(PER_IP, m, Call(ip, at)) == Outcome(m, Limited)
  {
    JustTaken(PER_IP.rate, 0, at);
    assert Step(PER_IP, m, Call(ip, at)).table == m;
  }

  lemma OnePlaceMore(m: Table, at: int, n: nat)
    requires Places(m, at, n) && n + 2 < PER_SUBSCRIPTION.max
    ensures Places(Step(PER_SUBSCRIPTION, m, Call(Filler("n/", n), at)).table, at, n + 1)
  {
    var key := Filler("n/", n);
    NextFiller("n/", n);
    assert key[2] == 'b';
    FillerStep(PER_SUBSCRIPTION, m, key, at);
    assert FillerKeys("n/", n + 1) == FillerKeys("n/", n) + {key};
  }

  /** One more place taken by a request that is refused. */
  lemma SprayedStep(qs: seq<Request>, ip: string, at: int, n: nat)
    requires Sprayed(TablesAfter(qs), ip, at, n) && n + 2 < PER_SUBSCRIPTION.max
    ensures Sprayed(TablesAfter(qs + [Stray(ip, at, n)]), ip, at, n + 1) && Refused(qs, Stray(ip, at, n))
  {
    OneMoreRequest(qs, Stray(ip, at, n));
    OnePlaceMore(TablesAfter(qs).perSub, at, n);
    ExhaustedRefuses(TablesAfter(qs).perIP, ip, at);
  }

  function Sprayer(ip: string, at: int, n: nat): seq<Request> {
    Spree(ip, at) + Spray(ip, at, n)
  }

  lemma SprayerMore(ip: string, at: int, n: nat)
    ensures Sprayer(ip, at, n + 1) == Sprayer(ip, at, n) + [Stray(ip, at, n)]
  {
    assert Spray(ip, at, n + 1) == Spray(ip, at, n) + [Stray(ip, at, n)];
  }

  lemma SprayerStart(ip: string, at: int)
    ensures Sprayed(TablesAfter(Sprayer(ip, at, 0)), ip, at, 0)
  {
    assert Sprayer(ip, at, 0) == Spree(ip, at);
    SpreeTables(ip, at);
    var m := TablesAfter(Spree(ip, at)).perSub;
    assert |m| == |m.Keys| == 2;
  }

  lemma SprayerNext(ip: string, at: int, n: nat)
    requires Sprayed(TablesAfter(Sprayer(ip, at, n)), ip, at, n) && n + 2 < PER_SUBSCRIPTION.max
    ensures Sprayed(TablesAfter(Sprayer(ip, at, n + 1)), ip, at, n + 1)
  {
    SprayedStep(Sprayer(ip, at, n), ip, at, n);
    SprayerMore(ip, at, n);
  }

  lemma {:induction false} SprayerTables(ip: string, at: int, n: nat)
    requires n + 2 <= PER_SUBSCRIPTION.max
    ensures Sprayed(TablesAfter(Sprayer(ip, at, n)), ip, at, n)
  {
    if n == 0 {
      SprayerStart(ip, at);
    } else {
      var m: nat := n - 1;
      SprayerTables(ip, at, m);
      SprayerNext(ip, at, m);
      assert m + 1 == n;
    }
  }

  /** A Subscription none of the requests names. */
  predicate Stranger(key: string, n: nat) {
    key != "n/a" && key != "n/c" && forall i :: 0 <= i < n ==> key != "n/" + Unheard(i)
  }

  lemma {:induction false} StrangerToAll(key: string, n: nat)
    requires Stranger(key, n)
    ensures key !in {"n/a", "n/c"} + FillerKeys("n/", n)
  {
    if n > 0 {
      StrangerToAll(key, n - 1);
      assert Filler("n/", n - 1) == "n/" + Unheard(n - 1);
    }
  }

  lemma FullRefuses(st: Tables, ip: string, at: int, n: nat, other: Request)
    requires Sprayed(st, ip, at, n) && n + 2 == PER_SUBSCRIPTION.max
    requires other.key !in {"n/a", "n/c"} + FillerKeys("n/", n) && other.at - at <= IDLE
    ensures !Passes(st, other)
  {
    assert Swept(st.perSub, other.at) == st.perSub;
  }

  /** A source over its limit names one new Subscription after the other. Each
      request is refused, and together they fill the table: for ten minutes every Subscription not
      in it is refused, whoever asks; without them a request from elsewhere is let through. */
  lemma SprayFillsTable(ip: string, at: int, n: nat, other: Request)
    requires n == 9998 && Stranger(other.key, n) && other.at - at <= IDLE
    ensures forall i :: 0 <= i < n ==> Refused(Sprayer(ip, at, i), Stray(ip, at, i))
    ensures Refused(Sprayer(ip, at, n), other)
    ensures other.ip != ip ==> !Refused(Spree(ip, at), other)
  {
    forall i | 0 <= i < n
      ensures Refused(Sprayer(ip, at, i), Stray(ip, at, i))
    {
      SprayerTables(ip, at, i);
      SprayedStep(Sprayer(ip, at, i), ip, at, i);
    }
    SprayerTables(ip, at, n);
    StrangerToAll(other.key, n);
    FullRefuses(TablesAfter(Sprayer(ip, at, n)), ip, at, n, other);
    if other.ip != ip {
      SpreeTables(ip, at);
      ExhaustedLeavesOthers(TablesAfter(Spree(ip, at)), ip, at, other);
    }
  }

  // ---------- Deliveries ----------

  /** What the handler leaves in the tables after a run of deliveries. */
  function TablesOf(ds: seq<Delivery>): Tables {
    if ds == [] then START.tables else Handle(TablesOf(ds[..|ds| - 1]), ds[|ds| - 1]).tables
  }

  /** A delivery right after these gets 429. */
  predicate TooMany(ds: seq<Delivery>, d: Delivery) {
    Handle(TablesOf(ds), d).verdict == Status(429)
  }

  /** The request a delivery makes, if it names a Subscription. */
  function RequestIn(d: Delivery): Option<Request> {
    if KeyOf(d).Some? then Some(RequestOf(d)) else None
  }

  function Each(ds: seq<Delivery>): (os: seq<Option<Request>>)
    ensures |os| == |ds| && forall i :: 0 <= i < |ds| ==> os[i] == RequestIn(ds[i])
  {
    seq(|ds|, i requires 0 <= i < |ds| => RequestIn(ds[i]))
  }

  function Present(os: seq<Option<Request>>): seq<Request> {
    if os == [] then []
    else Present(os[..|os| - 1]) + if os[|os| - 1].Some? then [os[|os| - 1].value] else []
  }

  function Requests(ds: seq<Delivery>): seq<Request> {
    Present(Each(ds))
  }

  lemma {:induction false} PresentMore(os: seq<Option<Request>>, more: seq<Option<Request>>)
    ensures Present(os + more) == Present(os) + Present(more)
  {
    if more == [] {
      assert os + more == os;
    } else {
      var n := |more| - 1;
      PresentMore(os, more[..n]);
      assert (os + more)[..|os| + n] == os + more[..n];
    }
  }

  lemma {:induction false} PresentAll(os: seq<Option<Request>>, qs: seq<Request>)
    requires |os| == |qs| && forall i :: 0 <= i < |os| ==> os[i] == Some(qs[i])
    ensures Present(os) == qs
  {
    if os != [] {
      var n := |os| - 1;
      PresentAll(os[..n], qs[..n]);
    }
  }

  lemma RequestsMore(ds: seq<Delivery>, more: seq<Delivery>)
    ensures Requests(ds + more) == Requests(ds) + Requests(more)
  {
    assert Each(ds + more) == Each(ds) + Each(more);
    PresentMore(Each(ds), Each(more));
  }

  lemma LastRequest(ds: seq<Delivery>, d: Delivery)
    ensures Requests(ds + [d]) == Requests(ds) + if RequestIn(d).Some? then [RequestIn(d).value] else []
  {
    RequestsMore(ds, [d]);
    var os := Each([d]);
    assert os[..|os| - 1] == [];
    assert Present(os) == [] + if RequestIn(d).Some? then [RequestIn(d).value] else [];
  }

  lemma {:induction false} DeliveriesAreRequests(ds: seq<Delivery>)
    ensures TablesOf(ds) == TablesAfter(Requests(ds))
  {
    if ds != [] {
      var before, d := ds[..|ds| - 1], ds[|ds| - 1];
      DeliveriesAreRequests(before);
      HandleTables(TablesOf(before), d);
      assert before + [d] == ds;
      LastRequest(before, d);
      if KeyOf(d).Some? {
        OneMoreRequest(Requests(before), RequestOf(d));
      } else {
        assert Requests(before) + [] == Requests(before);
      }
    }
  }

  lemma RefusedIs429(ds: seq<Delivery>, d: Delivery)
    requires KeyOf(d).Some?
    ensures TooMany(ds, d) <==> Refused(Requests(ds), RequestOf(d))
  {
    DeliveriesAreRequests(ds);
    HandleVerdict(TablesOf(ds), d);
  }

  lemma HandleVerdict(st: Tables, d: Delivery)
    requires KeyOf(d).Some?
    ensures Handle(st, d).verdict == Status(429) <==> !Passes(st, RequestOf(d))
  {
  }

  /** Their moves when nothing comes between the two limits of one. */
  function Whole(qs: seq<Request>): seq<Move> {
    if qs == [] then [] else Whole(qs[..|qs| - 1]) + [Ask(qs[|qs| - 1]), AskSource(0)]
  }

  lemma {:induction false} WholeRun(qs: seq<Request>)
    ensures FlowAfter(Whole(qs)) == Flow(TablesAfter(qs), [])
  {
    if qs != [] {
      var before, q := qs[..|qs| - 1], qs[|qs| - 1];
      WholeRun(before);
      TwoMoves(Whole(before), Ask(q), AskSource(0));
    }
  }

  lemma TwoMoves(moves: seq<Move>, a: Move, b: Move)
    ensures FlowAfter(moves + [a, b]) == Apply(Apply(FlowAfter(moves), a), b)
  {
    var all := moves + [a, b];
    assert all[..|all| - 1] == moves + [a] && (moves + [a])[..|moves|] == moves;
  }

  /** A run of deliveries is one of the interleavings. */
  lemma DeliveriesAreMoves(ds: seq<Delivery>)
    ensures FlowAfter(Whole(Requests(ds))) == Flow(TablesOf(ds), [])
  {
    DeliveriesAreRequests(ds);
    WholeRun(Requests(ds));
  }

  /** A delivery for n/<name>. */
  function Sent(name: string, ip: string, at: int): Delivery {
    Delivery(true, PrintSubscription(Target(name)), ip, at, Readable, false, NotUnderstood)
  }

  function Target(name: string): SubscriptionTarget {
    SubscriptionTarget("n", name, "github", "")
  }

  lemma TargetParses(name: string)
    requires Segment(name)
    ensures ParseSubscription(PrintSubscription(Target(name))) == Some(Target(name))
  {
    assert SubscriptionOk(Target(name));
    SubscriptionPathExact(PrintSubscription(Target(name)), Target(name));
  }

  lemma ParsedKey(d: Delivery, t: SubscriptionTarget)
    requires d.post && ParseSubscription(d.path) == Some(t)
    ensures KeyOf(d) == Some(LimitKey(t.ns, t.name))
  {
  }

  lemma SentIsTo(name: string, ip: string, at: int)
    requires Segment(name)
    ensures Makes(Sent(name, ip, at), To(name, ip, at))
  {
    TargetParses(name);
    ParsedKey(Sent(name, ip, at), Target(name));
    assert LimitKey("n", name) == "n/" + name;
  }

  predicate Makes(d: Delivery, q: Request) {
    RequestIn(d) == Some(q)
  }

  lemma RequestsAre(ds: seq<Delivery>, qs: seq<Request>)
    requires |ds| == |qs| && forall i :: 0 <= i < |ds| ==> Makes(ds[i], qs[i])
    ensures Requests(ds) == qs
  {
    forall i | 0 <= i < |ds|
      ensures Each(ds)[i] == Some(qs[i])
    {
      assert Makes(ds[i], qs[i]);
    }
    PresentAll(Each(ds), qs);
  }

  function Often(name: string, ip: string, at: int, n: nat): seq<Delivery> {
    seq(n, _ => Sent(name, ip, at))
  }

  lemma OftenIsCopies(name: string, ip: string, at: int, n: nat)
    requires Segment(name)
    ensures Requests(Often(name, ip, at, n)) == Copies(To(name, ip, at), n)
  {
    SentIsTo(name, ip, at);
    RequestsAre(Often(name, ip, at, n), Copies(To(name, ip, at), n));
  }

  /** A source spends its burst on two Subscriptions. */
  function Lavish(ip: string, at: int): seq<Delivery> {
    Often("a", ip, at, 10) + Often("c", ip, at, 10)
  }

  lemma LavishIsSpree(ip: string, at: int)
    ensures Requests(Lavish(ip, at)) == Spree(ip, at)
  {
    RequestsMore(Often("a", ip, at, 10), Often("c", ip, at, 10));
    OftenIsCopies("a", ip, at, 10);
    OftenIsCopies("c", ip, at, 10);
  }

  lemma LavishMore(ip: string, at: int, n: nat)
    ensures Requests(Lavish(ip, at) + Often("d", ip, at, n)) == Spree(ip, at) + Copies(To("d", ip, at), n)
  {
    RequestsMore(Lavish(ip, at), Often("d", ip, at, n));
    LavishIsSpree(ip, at);
    OftenIsCopies("d", ip, at, n);
  }

  /** The whole run, from the start: a source over its limit delivers ten more times, for a third
      Subscription. Each delivery gets 429, and with them so does whoever delivers for that
      Subscription next; without them a delivery from elsewhere is let through. */
  lemma OverLimitUsesUpSubscription(ip: string, at: int, other: Delivery)
    requires KeyOf(other) == Some("n/d") && 5 * (other.at - at) < SECOND
    ensures forall i :: 0 <= i < 10 ==> TooMany(Lavish(ip, at) + Often("d", ip, at, i), Sent("d", ip, at))
    ensures TooMany(Lavish(ip, at) + Often("d", ip, at, 10), other)
    ensures other.ip != ip ==> !TooMany(Lavish(ip, at), other)
  {
    SpreeUsesUp(ip, at, RequestOf(other));
    SentIsTo("d", ip, at);
    forall i | 0 <= i < 10
      ensures TooMany(Lavish(ip, at) + Often("d", ip, at, i), Sent("d", ip, at))
    {
      RefusedIs429(Lavish(ip, at) + Often("d", ip, at, i), Sent("d", ip, at));
      LavishMore(ip, at, i);
    }
    LavishMore(ip, at, 10);
    RefusedIs429(Lavish(ip, at) + Often("d", ip, at, 10), other);
    LavishIsSpree(ip, at);
    RefusedIs429(Lavish(ip, at), other);
  }

  /** One delivery each for n Subscriptions nobody has heard of. */
  function Strewn(ip: string, at: int, n: nat): seq<Delivery> {
    seq(n, i requires 0 <= i < n => Sent(Unheard(i), ip, at))
  }

  lemma StrewnIsSpray(ip: string, at: int, n: nat)
    ensures Requests(Strewn(ip, at, n)) == Spray(ip, at, n)
  {
    forall i | 0 <= i < n
      ensures Makes(Strewn(ip, at, n)[i], Spray(ip, at, n)[i])
    {
      SentIsTo(Unheard(i), ip, at);
    }
    RequestsAre(Strewn(ip, at, n), Spray(ip, at, n));
  }

  lemma LavishStrewn(ip: string, at: int, n: nat)
    ensures Requests(Lavish(ip, at) + Strewn(ip, at, n)) == Sprayer(ip, at, n)
  {
    RequestsMore(Lavish(ip, at), Strewn(ip, at, n));
    LavishIsSpree(ip, at);
    StrewnIsSpray(ip, at, n);
  }

  /** The whole run, from the start: a source over its limit names one new Subscription after the
      other. Each delivery gets 429, and together they fill the table: for ten minutes every
      Subscription not in it is refused, whoever delivers; without them a delivery from elsewhere
      is let through. */
  lemma OverLimitFillsTable(ip: string, at: int, n: nat, other: Delivery)
    requires n == 9998
    requires KeyOf(other).Some? && Stranger(KeyOf(other).value, n) && other.at - at <= IDLE
    ensures forall i :: 0 <= i < n ==> TooMany(Lavish(ip, at) + Strewn(ip, at, i), Sent(Unheard(i), ip, at))
    ensures TooMany(Lavish(ip, at) + Strewn(ip, at, n), other)
    ensures other.ip != ip ==> !TooMany(Lavish(ip, at), other)
  {
    SprayFillsTable(ip, at, n, RequestOf(other));
    forall i | 0 <= i < n
      ensures TooMany(Lavish(ip, at) + Strewn(ip, at, i), Sent(Unheard(i), ip, at))
    {
      assert Refused(Sprayer(ip, at, i), Stray(ip, at, i));
      StrewnTooMany(ip, at, i);
    }
    LavishStrewn(ip, at, n);
    RefusedIs429(Lavish(ip, at) + Strewn(ip, at, n), other);
    LavishIsSpree(ip, at);
    RefusedIs429(Lavish(ip, at), other);
  }

  lemma StrewnTooMany(ip: string, at: int, i: nat)
    requires Refused(Sprayer(ip, at, i), Stray(ip, at, i))
    ensures TooMany(Lavish(ip, at) + Strewn(ip, at, i), Sent(Unheard(i), ip, at))
  {
    SentIsTo(Unheard(i), ip, at);
    LavishStrewn(ip, at, i);
    RefusedIs429(Lavish(ip, at) + Strewn(ip, at, i), Sent(Unheard(i), ip, at));
  }
}
