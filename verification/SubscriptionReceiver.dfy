/**
 The Subscription webhook handler up to authentication: the order of its checks, and what its
 two limits together promise. Authentication and the event a payload announces are given. Other
 deliveries may come between a delivery's call on the one limiter and its call on the other.
 */
module SubscriptionReceiver {
  import opened Timeline
  import opened KeyedLimiter
  import opened KeyedLimiterExactness
  import opened WebhookLimits
  import opened GoStrings
  import opened WebhookPaths

  datatype Event = NotUnderstood | Ignored | Push
  datatype Delivery = Delivery(post: bool, path: string, ip: string, at: int, body: Body, authentic: bool, event: Event)

  datatype Tables = Tables(perSub: Table, perIP: Table)
  /** `checked` says whether the delivery was authenticated, which costs a Secret read. */
  datatype Handled = Handled(tables: Tables, verdict: Verdict, checked: bool)

  /** The two limits, the Subscription's first; the source's is not asked when that one refuses. */
  function Limits(st: Tables, key: string, ip: string, at: int): (Tables, bool) {
    var sub := Step(PER_SUBSCRIPTION, st.perSub, Call(key, at));
    if !sub.answer.Admitted? then (Tables(sub.table, st.perIP), false)
    else
      var src := Step(PER_IP, st.perIP, Call(ip, at));
      (Tables(sub.table, src.table), src.answer.Admitted?)
  }

  function Handle(st: Tables, d: Delivery): Handled {
    if !d.post then Handled(st, Status(405), false)
    else
      match ParseSubscription(d.path)
      case None => Handled(st, Status(404), false)
      case Some(t) =>
        var (st', within) := Limits(st, LimitKey(t.ns, t.name), d.ip, d.at);
        if !within then Handled(st', Status(429), false)
        else if d.body.TooLarge? then Handled(st', Status(413), false)
        else if d.body.Broken? then Handled(st', Status(400), false)
        else if !d.authentic then Handled(st', Status(401), true)
        else if d.event.NotUnderstood? then Handled(st', Status(400), true)
        else if d.event.Ignored? then Handled(st', Status(200), true)
        else Handled(st', Refreshing, true)
  }

  class Receiver {
    const perSub: Limiter
    const perIP: Limiter

    constructor ()
      ensures fresh(perSub) && fresh(perIP) && perSub != perIP
      ensures perSub.cfg == PER_SUBSCRIPTION && perIP.cfg == PER_IP && Now() == Tables(map[], map[])
    {
      perSub := new Limiter(PER_SUBSCRIPTION);
      perIP := new Limiter(PER_IP);
    }

    function Now(): Tables
      reads perSub, perIP
    {
      Tables(perSub.m, perIP.m)
    }

    method Admit(key: string, ip: string, now: int) returns (ok: bool)
      requires perSub != perIP && perSub.cfg == PER_SUBSCRIPTION && perIP.cfg == PER_IP
      modifies perSub, perIP
      ensures (Now(), ok) == Limits(old(Now()), key, ip, now)
    {
      ok := perSub.Allow(key, now);
      if ok {
        ok := perIP.Allow(ip, now);
      }
    }
  }

  function KeyOf(d: Delivery): Option<string> {
    match ParseSubscription(d.path)
    case None => None
    case Some(t) => if d.post then Some(LimitKey(t.ns, t.name)) else None
  }

  /** A delivery touches the tables only through the limits. */
  lemma HandleTables(st: Tables, d: Delivery)
    ensures Handle(st, d).tables == if KeyOf(d).Some? then Limits(st, KeyOf(d).value, d.ip, d.at).0 else st
  {
  }

  /** A delivery is authenticated only if both limiters admitted it. */
  lemma CheckedWasAdmitted(st: Tables, d: Delivery)
    requires Handle(st, d).checked
    ensures KeyOf(d).Some?
    ensures Step(PER_SUBSCRIPTION, st.perSub, Call(KeyOf(d).value, d.at)).answer.Admitted?
    ensures Step(PER_IP, st.perIP, Call(d.ip, d.at)).answer.Admitted?
  {
  }

  /** The delivery names a Subscription in a POST, and both limits admit it. */
  predicate Through(st: Tables, d: Delivery) {
    && d.post && ParseSubscription(d.path).Some?
    && var t := ParseSubscription(d.path).value;
       && Step(PER_SUBSCRIPTION, st.perSub, Call(LimitKey(t.ns, t.name), d.at)).answer.Admitted?
       && Step(PER_IP, st.perIP, Call(d.ip, d.at)).answer.Admitted?
  }

  /** Each answer of the handler, by the delivery and what the two limits say: a refresh is asked
      for exactly when everything is in order. */
  lemma VerdictExactly(st: Tables, d: Delivery)
    ensures var v := Handle(st, d).verdict;
            && (v == Status(405) <==> !d.post)
            && (v == Status(404) <==> d.post && ParseSubscription(d.path).None?)
            && (v == Status(429) <==> d.post && ParseSubscription(d.path).Some? && !Through(st, d))
            && (v == Status(413) <==> Through(st, d) && d.body.TooLarge?)
            && (v == Status(401) <==> Through(st, d) && d.body.Readable? && !d.authentic)
            && (v == Status(400) <==>
                  Through(st, d) && (d.body.Broken? || (d.body.Readable? && d.authentic && d.event.NotUnderstood?)))
            && (v == Status(200) <==> Through(st, d) && d.body.Readable? && d.authentic && d.event.Ignored?)
            && (v == Refreshing <==> Through(st, d) && d.body.Readable? && d.authentic && d.event.Push?)
    ensures Handle(st, d).checked <==> Through(st, d) && d.body.Readable?
  {
  }

  // ---------- Interleaved deliveries ----------

  /** What a delivery that names a Subscription brings to the limits. */
  datatype Request = Request(key: string, ip: string, at: int, body: Body)

  function RequestOf(d: Delivery): Request
    requires KeyOf(d).Some?
  {
    Request(KeyOf(d).value, d.ip, d.at, d.body)
  }

  /** The tables, and the requests between their two limits. */
  datatype Flow = Flow(tables: Tables, pending: seq<Request>)

  datatype Move =
    | Ask(q: Request)      // a request arrives and asks the Subscription's limit
    | AskSource(i: nat)    // a pending one asks its source's limit, and is done with both

  const START: Flow := Flow(Tables(map[], map[]), [])

  function SubReply(f: Flow, q: Request): Outcome {
    Step(PER_SUBSCRIPTION, f.tables.perSub, Call(q.key, q.at))
  }

  function IPReply(f: Flow, q: Request): Outcome {
    Step(PER_IP, f.tables.perIP, Call(q.ip, q.at))
  }

  function Without(p: seq<Request>, i: nat): seq<Request>
    requires i < |p|
  {
    p[..i] + p[i + 1..]
  }

  function Apply(f: Flow, move: Move): Flow {
    match move
    case Ask(q) =>
      var o := SubReply(f, q);
      Flow(f.tables.(perSub := o.table), if o.answer.Admitted? then f.pending + [q] else f.pending)
    case AskSource(i) =>
      if i >= |f.pending| then f
      else Flow(f.tables.(perIP := IPReply(f, f.pending[i]).table), Without(f.pending, i))
  }

  function FlowAfter(moves: seq<Move>): Flow {
    if moves == [] then START else Apply(FlowAfter(moves[..|moves| - 1]), moves[|moves| - 1])
  }

  /** A delivery nothing comes between is handled as a whole; one that names no Subscription
      makes no move. */
  lemma UninterruptedIsHandle(st: Tables, d: Delivery)
    ensures Flow(Handle(st, d).tables, [])
         == if KeyOf(d).Some? then Apply(Apply(Flow(st, []), Ask(RequestOf(d))), AskSource(0)) else Flow(st, [])
    ensures Handle(st, d).checked
       <==> KeyOf(d).Some? && Checks(Apply(Flow(st, []), Ask(RequestOf(d))), AskSource(0))
    ensures KeyOf(d).Some? ==>
              var f := Apply(Flow(st, []), Ask(RequestOf(d)));
              Handle(st, d).verdict == Status(429)
              <==> f.pending == [] || !IPReply(f, f.pending[0]).answer.Admitted?
  {
    HandleTables(st, d);
    if KeyOf(d).Some? {
      VerdictOfMoves(st, d);
    }
  }

  lemma VerdictOfMoves(st: Tables, d: Delivery)
    requires KeyOf(d).Some?
    ensures var f := Apply(Flow(st, []), Ask(RequestOf(d)));
            && (Handle(st, d).checked <==> Checks(f, AskSource(0)))
            && (Handle(st, d).verdict == Status(429) <==> f.pending == [] || !IPReply(f, f.pending[0]).answer.Admitted?)
  {
  }

  /** The calls a run makes on the per-Subscription limiter, and on the per-source one. */
  function SubCalls(moves: seq<Move>): seq<Call> {
    if moves == [] then []
    else
      var n := |moves| - 1;
      SubCalls(moves[..n]) + SubCallsOf(moves[n])
  }

  function SubCallsOf(move: Move): seq<Call> {
    if move.Ask? then [Call(move.q.key, move.q.at)] else []
  }

  function IPCalls(moves: seq<Move>): seq<Call> {
    if moves == [] then []
    else
      var n := |moves| - 1;
      IPCalls(moves[..n]) + IPCallsOf(FlowAfter(moves[..n]), moves[n])
  }

  function IPCallsOf(f: Flow, move: Move): seq<Call> {
    if Leaves(f, move) then [Call(f.pending[move.i].ip, f.pending[move.i].at)] else []
  }

  /** A pending delivery asks its source's limit. */
  predicate Leaves(f: Flow, move: Move) {
    move.AskSource? && move.i < |f.pending|
  }

  /** What a move makes of the tables of two limiters. */
  lemma MoveIsCalls(f: Flow, move: Move, sub: seq<Call>, ip: seq<Call>)
    requires f.tables == Tables(After(PER_SUBSCRIPTION, sub), After(PER_IP, ip))
    ensures Apply(f, move).tables.perSub == After(PER_SUBSCRIPTION, sub + SubCallsOf(move))
    ensures Apply(f, move).tables.perIP == After(PER_IP, ip + IPCallsOf(f, move))
  {
    assert sub + [] == sub && ip + [] == ip;
    if SubCallsOf(move) != [] {
      OneMore(PER_SUBSCRIPTION, sub, SubCallsOf(move)[0]);
    }
    if Leaves(f, move) {
      OneMore(PER_IP, ip, IPCallsOf(f, move)[0]);
    }
  }

  /** However deliveries interleave, each table is that of a limiter fed the calls that reach it. */
  lemma {:induction false} TablesAreLimiters(moves: seq<Move>)
    ensures FlowAfter(moves).tables == Tables(After(PER_SUBSCRIPTION, SubCalls(moves)), After(PER_IP, IPCalls(moves)))
  {
    if moves != [] {
      var n := |moves| - 1;
      TablesAreLimiters(moves[..n]);
      MoveIsCalls(FlowAfter(moves[..n]), moves[n], SubCalls(moves[..n]), IPCalls(moves[..n]));
    }
  }

  // ---------- What the limits promise ----------

  /** Whether the move leads to an authentication, of which delivery and when. */
  predicate Checks(f: Flow, move: Move) {
    Leaves(f, move) && IPReply(f, f.pending[move.i]).answer.Admitted? && f.pending[move.i].body.Readable?
  }

  function TimeOf(f: Flow, move: Move): int {
    if move.Ask? then move.q.at else if Leaves(f, move) then f.pending[move.i].at else 0
  }

  function MoveTimes(moves: seq<Move>): (t: seq<int>)
    ensures |t| == |moves|
  {
    if moves == [] then []
    else
      var n := |moves| - 1;
      MoveTimes(moves[..n]) + [TimeOf(FlowAfter(moves[..n]), moves[n])]
  }

  /** Which moves authenticate a delivery for one Subscription, and which one from one source. */
  function CheckedFor(moves: seq<Move>, key: string): (flags: seq<bool>)
    ensures |flags| == |moves|
  {
    if moves == [] then []
    else
      var n := |moves| - 1;
      var f := FlowAfter(moves[..n]);
      CheckedFor(moves[..n], key) + [Checks(f, moves[n]) && f.pending[moves[n].i].key == key]
  }

  function CheckedFrom(moves: seq<Move>, ip: string): (flags: seq<bool>)
    ensures |flags| == |moves|
  {
    if moves == [] then []
    else
      var n := |moves| - 1;
      var f := FlowAfter(moves[..n]);
      CheckedFrom(moves[..n], ip) + [Checks(f, moves[n]) && f.pending[moves[n].i].ip == ip]
  }

  /** How many pending deliveries for a Subscription arrived in an interval. */
  function Waiting(p: seq<Request>, key: string, from: int, to: int): nat {
    if p == [] then 0 else Waiting(p[..|p| - 1], key, from, to) + Awaited(p[|p| - 1], key, from, to)
  }

  function Awaited(q: Request, key: string, from: int, to: int): nat {
    if q.key == key && from <= q.at < to then 1 else 0
  }

  lemma {:induction false} WaitingMore(p: seq<Request>, q: seq<Request>, key: string, from: int, to: int)
    ensures Waiting(p + q, key, from, to) == Waiting(p, key, from, to) + Waiting(q, key, from, to)
  {
    if q == [] {
      assert p + q == p;
    } else {
      var n := |q| - 1;
      WaitingMore(p, q[..n], key, from, to);
      assert (p + q)[..|p| + n] == p + q[..n];
    }
  }

  lemma WaitingOne(p: seq<Request>, q: Request, key: string, from: int, to: int)
    ensures Waiting(p + [q], key, from, to) == Waiting(p, key, from, to) + Awaited(q, key, from, to)
  {
    assert (p + [q])[..|p|] == p;
  }

  lemma WaitingWithout(p: seq<Request>, i: nat, key: string, from: int, to: int)
    requires i < |p|
    ensures Waiting(p, key, from, to) == Waiting(Without(p, i), key, from, to) + Awaited(p[i], key, from, to)
  {
    assert p == p[..i] + [p[i]] + p[i + 1..];
    WaitingMore(p[..i] + [p[i]], p[i + 1..], key, from, to);
    WaitingOne(p[..i], p[i], key, from, to);
    WaitingMore(p[..i], p[i + 1..], key, from, to);
  }

  lemma AskCounts(f: Flow, calls: seq<Call>, q: Request, key: string, from: int, to: int)
    requires f.tables.perSub == After(PER_SUBSCRIPTION, calls)
    ensures Waiting(Apply(f, Ask(q)).pending, key, from, to) - Waiting(f.pending, key, from, to)
         == AdmittedWithin(PER_SUBSCRIPTION, calls + [Call(q.key, q.at)], key, from, to)
          - AdmittedWithin(PER_SUBSCRIPTION, calls, key, from, to)
  {
    AdmittedStep(PER_SUBSCRIPTION, calls, Call(q.key, q.at), key, from, to);
    WaitingOne(f.pending, q, key, from, to);
  }

  function CheckedForCount(moves: seq<Move>, key: string, from: int, to: int): nat {
    CountWithin(CheckedFor(moves, key), MoveTimes(moves), from, to)
  }

  function CheckedFromCount(moves: seq<Move>, ip: string, from: int, to: int): nat {
    CountWithin(CheckedFrom(moves, ip), MoveTimes(moves), from, to)
  }

  /** What one move adds to the authentications. */
  lemma CheckedMore(moves: seq<Move>, key: string, ip: string, from: int, to: int)
    requires moves != []
    ensures var before, move := moves[..|moves| - 1], moves[|moves| - 1];
            var f := FlowAfter(before);
            && CheckedForCount(moves, key, from, to) == CheckedForCount(before, key, from, to) +
                 (if Checks(f, move) && f.pending[move.i].key == key && from <= f.pending[move.i].at < to then 1 else 0)
            && CheckedFromCount(moves, ip, from, to) == CheckedFromCount(before, ip, from, to) +
                 (if Checks(f, move) && f.pending[move.i].ip == ip && from <= f.pending[move.i].at < to then 1 else 0)
  {
    var n := |moves| - 1;
    assert CheckedFor(moves, key)[..n] == CheckedFor(moves[..n], key) &&
           CheckedFrom(moves, ip)[..n] == CheckedFrom(moves[..n], ip);
    assert MoveTimes(moves)[..n] == MoveTimes(moves[..n]);
  }

  /** What was authenticated for a Subscription, with what is still pending, was admitted by its limit. */
  lemma {:induction false} ChecksAndPending(moves: seq<Move>, key: string, from: int, to: int)
    ensures CheckedForCount(moves, key, from, to) + Waiting(FlowAfter(moves).pending, key, from, to)
         <= AdmittedWithin(PER_SUBSCRIPTION, SubCalls(moves), key, from, to)
  {
    if moves != [] {
      var n := |moves| - 1;
      var before, f, move := moves[..n], FlowAfter(moves[..n]), moves[n];
      ChecksAndPending(before, key, from, to);
      CheckedMore(moves, key, "", from, to);
      TablesAreLimiters(before);
      if move.Ask? {
        AskCounts(f, SubCalls(before), move.q, key, from, to);
      } else {
        assert SubCalls(before) + [] == SubCalls(before);
        if Leaves(f, move) {
          WaitingWithout(f.pending, move.i, key, from, to);
        }
      }
    }
  }

  lemma ChecksForAdmitted(moves: seq<Move>, key: string, from: int, to: int)
    ensures CheckedForCount(moves, key, from, to) <= AdmittedWithin(PER_SUBSCRIPTION, SubCalls(moves), key, from, to)
  {
    ChecksAndPending(moves, key, from, to);
  }

  lemma {:induction false} ChecksFromAdmitted(moves: seq<Move>, ip: string, from: int, to: int)
    ensures CheckedFromCount(moves, ip, from, to) <= AdmittedWithin(PER_IP, IPCalls(moves), ip, from, to)
  {
    if moves != [] {
      var n := |moves| - 1;
      var before, f, move := moves[..n], FlowAfter(moves[..n]), moves[n];
      ChecksFromAdmitted(before, ip, from, to);
      CheckedMore(moves, "", ip, from, to);
      TablesAreLimiters(before);
      assert IPCalls(before) + [] == IPCalls(before);
      if Leaves(f, move) {
        AdmittedStep(PER_IP, IPCalls(before), IPCallsOf(f, move)[0], ip, from, to);
      }
    }
  }

  lemma LimitsInSeconds(d: nat)
    ensures PER_SUBSCRIPTION.rate.unit == SECOND &&
            PER_SUBSCRIPTION.rate.Cap() + PER_SUBSCRIPTION.rate.Accrued(d) == 10 * SECOND + 5 * d
    ensures PER_IP.rate.unit == SECOND && PER_IP.rate.Cap() + PER_IP.rate.Accrued(d) == 20 * SECOND + 10 * d
  {
  }

  /** The sliding bound in the constants of the two limiters. */
  lemma SubscriptionSeconds(calls: seq<Call>, key: string, from: int, d: nat)
    requires Nondecreasing(Times(calls))
    ensures AdmittedWithin(PER_SUBSCRIPTION, calls, key, from, from + d + 1) * SECOND <= 10 * SECOND + 5 * d
  {
    ConstantsRefill();
    SlidingBoundInterval(PER_SUBSCRIPTION, calls, key, from, d);
    LimitsInSeconds(d);
  }

  lemma SourceSeconds(calls: seq<Call>, ip: string, from: int, d: nat)
    requires Nondecreasing(Times(calls))
    ensures AdmittedWithin(PER_IP, calls, ip, from, from + d + 1) * SECOND <= 20 * SECOND + 10 * d
  {
    ConstantsRefill();
    SlidingBoundInterval(PER_IP, calls, ip, from, d);
    LimitsInSeconds(d);
  }

  /** In any interval of d nanoseconds, one Subscription costs at most 10 authentications and 5
      more a second, if its limiter is asked in order. */
  lemma SubscriptionBounded(moves: seq<Move>, t: SubscriptionTarget, from: int, d: nat)
    requires Nondecreasing(Times(SubCalls(moves)))
    ensures CheckedForCount(moves, LimitKey(t.ns, t.name), from, from + d + 1) * SECOND <= 10 * SECOND + 5 * d
  {
    var key := LimitKey(t.ns, t.name);
    SubscriptionSeconds(SubCalls(moves), key, from, d);
    ChecksForAdmitted(moves, key, from, from + d + 1);
  }

  /** And one source at most 20 and 10 more a second, if that limiter is. */
  lemma SourceBounded(moves: seq<Move>, ip: string, from: int, d: nat)
    requires Nondecreasing(Times(IPCalls(moves)))
    ensures CheckedFromCount(moves, ip, from, from + d + 1) * SECOND <= 20 * SECOND + 10 * d
  {
    SourceSeconds(IPCalls(moves), ip, from, d);
    ChecksFromAdmitted(moves, ip, from, from + d + 1);
  }

  /** Two targets the parser accepts are limited together only if they are the same Subscription. */
  lemma SubscriptionsApart(path: string, path': string)
    requires ParseSubscription(path).Some? && ParseSubscription(path').Some?
    ensures var t, t' := ParseSubscription(path).value, ParseSubscription(path').value;
            LimitKey(t.ns, t.name) == LimitKey(t'.ns, t'.name) <==> t.ns == t'.ns && t.name == t'.name
  {
    var t, t' := ParseSubscription(path).value, ParseSubscription(path').value;
    SubscriptionPathExact(path, t);
    SubscriptionPathExact(path', t');
    if LimitKey(t.ns, t.name) == LimitKey(t'.ns, t'.name) {
      LimitKeyInjective(t.ns, t.name, t'.ns, t'.name);
    }
  }
}
