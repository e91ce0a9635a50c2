/**
 The change-request webhook handler: a coarse limit over all requests first, then the token,
 then the template's own limit. Authentication is given. Its work lies between the two limits, so
 other triggers may come between them.
 */
module ChangeRequestReceiver {
  import opened Timeline
  import opened TokenBucket
  import opened KeyedLimiter
  import opened KeyedLimiterRefinement
  import AdmissionExact
  import opened WebhookLimits
  import opened GoStrings
  import opened WebhookPaths

  datatype Trigger = Trigger(post: bool, path: string, at: int, body: Body, authentic: bool)
  /** `pending` are the triggers with a valid token that have not asked their template's limit yet. */
  datatype State = State(coarse: Bucket, perTemplate: Table, pending: multiset<Call>)

  datatype Move =
    | Arrive(r: Trigger)   // a trigger asks the coarse limit and is authenticated
    | Proceed(c: Call)     // a pending one asks its template's limit

  const START: State := State(Fresh(GLOBAL), map[], multiset{})

  predicate Asks(r: Trigger) {
    r.post && ParseChangeRequest(r.path).Some?
  }

  function TemplateCall(r: Trigger): Call
    requires Asks(r)
  {
    var t := ParseChangeRequest(r.path).value;
    Call(LimitKey(t.ns, t.name), r.at)
  }

  /** Two triggers are limited together on their way out only if they are for the same template. */
  lemma TemplatesApart(r: Trigger, r': Trigger)
    requires Asks(r) && Asks(r')
    ensures var t, t' := ParseChangeRequest(r.path).value, ParseChangeRequest(r'.path).value;
            && (TemplateCall(r).key == TemplateCall(r').key <==> t.ns == t'.ns && t.name == t'.name)
            && TemplateCall(r).at == r.at
  {
    var t, t' := ParseChangeRequest(r.path).value, ParseChangeRequest(r'.path).value;
    ChangeRequestPathExact(r.path, t);
    ChangeRequestPathExact(r'.path, t');
    if LimitKey(t.ns, t.name) == LimitKey(t'.ns, t'.name) {
      LimitKeyInjective(t.ns, t.name, t'.ns, t'.name);
    }
  }

  /** What the first half of the handler answers; None when the trigger goes on to its template. */
  function First(st: State, r: Trigger): Option<Verdict> {
    if !r.post then Some(Status(405))
    else if ParseChangeRequest(r.path).None? then Some(Status(404))
    else if !Admits(GLOBAL, st.coarse, r.at) then Some(Status(429))
    else if r.body.TooLarge? then Some(Status(413))
    else if r.body.Broken? then Some(Status(400))
    else if !r.authentic then Some(Status(401))
    else None
  }

  /** And the second half. */
  function Second(st: State, c: Call): Verdict {
    if Step(PER_SUBSCRIPTION, st.perTemplate, c).answer.Admitted? then Refreshing else Status(429)
  }

  /** Each answer of the handler, by the trigger and what the two limits say: None is a trigger that
      goes on to its template, and a refresh is asked for exactly if that one's limit admits it. */
  lemma VerdictExactly(st: State, r: Trigger, c: Call)
    ensures var first, within := First(st, r), Asks(r) && Admits(GLOBAL, st.coarse, r.at);
            && (first == Some(Status(405)) <==> !r.post)
            && (first == Some(Status(404)) <==> r.post && ParseChangeRequest(r.path).None?)
            && (first == Some(Status(429)) <==> Asks(r) && !within)
            && (first == Some(Status(413)) <==> within && r.body.TooLarge?)
            && (first == Some(Status(400)) <==> within && r.body.Broken?)
            && (first == Some(Status(401)) <==> within && r.body.Readable? && !r.authentic)
            && (first == None <==> within && r.body.Readable? && r.authentic)
    ensures Second(st, c) == Refreshing <==> Step(PER_SUBSCRIPTION, st.perTemplate, c).answer.Admitted?
    ensures Second(st, c) == Status(429) <==> !Step(PER_SUBSCRIPTION, st.perTemplate, c).answer.Admitted?
    ensures Asks(r) <==> r.post && ParseChangeRequest(r.path).Some?
  {
  }

  function Apply(st: State, move: Move): State {
    match move
    case Arrive(r) =>
      if !Asks(r) then st
      else
        var st' := st.(coarse := Take(GLOBAL, st.coarse, r.at));
        if First(st, r).None? then st'.(pending := st.pending + multiset{TemplateCall(r)}) else st'
    case Proceed(c) =>
      if c !in st.pending then st
      else st.(perTemplate := Step(PER_SUBSCRIPTION, st.perTemplate, c).table, pending := st.pending - multiset{c})
  }

  function StateAfter(moves: seq<Move>): State {
    if moves == [] then START else Apply(StateAfter(moves[..|moves| - 1]), moves[|moves| - 1])
  }

  /** A move of a trigger with a valid token. */
  predicate IsValid(st: State, move: Move) {
    if move.Arrive? then First(st, move.r).None? else move.c in st.pending
  }

  /** The moves of a run that belong to triggers with a valid token, in order. */
  function Valid(moves: seq<Move>): seq<Move> {
    if moves == [] then []
    else
      var before, move := moves[..|moves| - 1], moves[|moves| - 1];
      Valid(before) + (if IsValid(StateAfter(before), move) then [move] else [])
  }

  /** The triggers arrive in order of time; when they proceed does not matter. */
  ghost predicate InOrder(moves: seq<Move>) {
    forall i, j :: 0 <= i < j < |moves| && moves[i].Arrive? && moves[j].Arrive? ==> moves[i].r.at <= moves[j].r.at
  }

  // ---------- A bucket that served fewer calls has more left ----------

  /** The bucket's clock is not ahead, unless it is full anyway. */
  predicate Settled(b: Bucket, t: int) {
    0 <= b.tokens <= GLOBAL.Cap() && (b.last <= t || b.tokens == GLOBAL.Cap())
  }

  predicate Richer(b: Bucket, c: Bucket, t: int) {
    Settled(b, t) && Settled(c, t) && Available(GLOBAL, b, t) >= Available(GLOBAL, c, t)
  }

  lemma RicherLater(b: Bucket, c: Bucket, t: int, later: int)
    requires Richer(b, c, t) && t <= later
    ensures Richer(b, c, later)
  {
    BalanceLater(GLOBAL, b, t, later);
    BalanceLater(GLOBAL, c, t, later);
  }

  /** Richer stays richer when both serve a call, and when only the poorer one does. */
  lemma RicherTake(b: Bucket, c: Bucket, t: int)
    requires Richer(b, c, t)
    ensures Admits(GLOBAL, c, t) ==> Admits(GLOBAL, b, t)
    ensures Admits(GLOBAL, c, t) ==> Richer(Take(GLOBAL, b, t), Take(GLOBAL, c, t), t)
    ensures Richer(b, Take(GLOBAL, c, t), t)
  {
    AfterTake(GLOBAL, b, t);
    AfterTake(GLOBAL, c, t);
  }

  // ---------- Replaying the authenticated triggers ----------

  /** Replaying only the valid triggers gives the same template table, the same triggers pending
      and a coarse bucket at least as full. */
  ghost predicate Replays(full: State, valid: State, t: int) {
    && full.perTemplate == valid.perTemplate && full.pending == valid.pending
    && Richer(valid.coarse, full.coarse, t)
  }

  lemma ReplayArrive(full: State, valid: State, r: Trigger)
    requires Replays(full, valid, r.at)
    ensures var replayed := if First(full, r).None? then Apply(valid, Arrive(r)) else valid;
            Replays(Apply(full, Arrive(r)), replayed, r.at)
    ensures First(full, r).None? ==> First(valid, r).None?
  {
    RicherTake(valid.coarse, full.coarse, r.at);
  }

  lemma ReplayProceed(full: State, valid: State, c: Call, t: int)
    requires Replays(full, valid, t)
    ensures var replayed := if c in full.pending then Apply(valid, Proceed(c)) else valid;
            Replays(Apply(full, Proceed(c)), replayed, t)
    ensures Second(full, c) == Second(valid, c)
  {
  }

  /** The time the last trigger arrived. */
  function Clock(moves: seq<Move>): int {
    if moves == [] then 0
    else if moves[|moves| - 1].Arrive? then moves[|moves| - 1].r.at
    else Clock(moves[..|moves| - 1])
  }

  predicate AnyArrived(moves: seq<Move>) {
    exists i :: 0 <= i < |moves| && moves[i].Arrive?
  }

  lemma {:induction false} ClockBefore(moves: seq<Move>, r: Trigger)
    requires InOrder(moves + [Arrive(r)]) && AnyArrived(moves)
    ensures Clock(moves) <= r.at && InOrder(moves)
  {
    var n := |moves| - 1;
    var all := moves + [Arrive(r)];
    assert forall i :: 0 <= i <= n ==> all[i] == moves[i];
    assert all[n + 1] == Arrive(r);
    if !moves[n].Arrive? {
      var shorter := moves[..n] + [Arrive(r)];
      assert forall i :: 0 <= i < n ==> shorter[i] == moves[i];
      ClockBefore(moves[..n], r);
    }
  }

  lemma InOrderBefore(moves: seq<Move>, n: nat)
    requires InOrder(moves) && n <= |moves|
    ensures InOrder(moves[..n])
  {
  }

  lemma {:induction false} NoneArrived(moves: seq<Move>)
    requires !AnyArrived(moves)
    ensures StateAfter(moves) == START && Valid(moves) == []
  {
    if moves != [] {
      var n := |moves| - 1;
      assert forall i :: 0 <= i < n ==> moves[..n][i] == moves[i];
      assert !moves[n].Arrive?;
      NoneArrived(moves[..n]);
    }
  }

  /** Before an arrival at t the replay is where it should be. */
  lemma ReplayBefore(moves: seq<Move>, r: Trigger)
    requires InOrder(moves + [Arrive(r)])
    requires AnyArrived(moves) ==> Replays(StateAfter(moves), StateAfter(Valid(moves)), Clock(moves))
    ensures Replays(StateAfter(moves), StateAfter(Valid(moves)), r.at)
  {
    if AnyArrived(moves) {
      ClockBefore(moves, r);
      RicherLater(StateAfter(Valid(moves)).coarse, StateAfter(moves).coarse, Clock(moves), r.at);
    } else {
      NoneArrived(moves);
    }
  }

  lemma {:induction false} ReplayRun(moves: seq<Move>)
    requires InOrder(moves) && AnyArrived(moves)
    ensures Replays(StateAfter(moves), StateAfter(Valid(moves)), Clock(moves))
  {
    var n := |moves| - 1;
    var before, move := moves[..n], moves[n];
    assert moves == before + [move];
    InOrderBefore(moves, n);
    assert AnyArrived(before) || move.Arrive? by {
      var i :| 0 <= i < |moves| && moves[i].Arrive?;
      assert i < n ==> before[i].Arrive?;
    }
    if AnyArrived(before) {
      ReplayRun(before);
    }
    var valid := StateAfter(Valid(before));
    if move.Arrive? {
      ReplayBefore(before, move.r);
      ReplayArrive(StateAfter(before), valid, move.r);
    } else {
      ReplayProceed(StateAfter(before), valid, move.c, Clock(before));
    }
    ReplayedMore(before, move);
  }

  lemma ReplayedMore(moves: seq<Move>, move: Move)
    ensures StateAfter(Valid(moves + [move]))
         == if IsValid(StateAfter(moves), move) then Apply(StateAfter(Valid(moves)), move) else StateAfter(Valid(moves))
    ensures StateAfter(moves + [move]) == Apply(StateAfter(moves), move)
  {
    assert (moves + [move])[..|moves|] == moves;
    var valid := Valid(moves);
    assert (valid + [move])[..|valid|] == valid && valid + [] == valid;
  }

  /** The per-template table after any run, however its triggers interleave, is the table after
      only the moves of its authenticated triggers. */
  lemma OnlyValidTokensCharge(moves: seq<Move>)
    requires InOrder(moves)
    ensures StateAfter(moves).perTemplate == StateAfter(Valid(moves)).perTemplate
    ensures StateAfter(moves).pending == StateAfter(Valid(moves)).pending
  {
    if AnyArrived(moves) {
      ReplayRun(moves);
    } else {
      NoneArrived(moves);
    }
  }

  // ---------- Each trigger asks its template's limit once ----------

  /** The call of a trigger that goes on to its template in this move, and of one that proceeds. */
  function GoesOnAt(st: State, move: Move): seq<Call> {
    if move.Arrive? && First(st, move.r).None? then [TemplateCall(move.r)] else []
  }

  function ProceedsAt(st: State, move: Move): seq<Call> {
    if move.Proceed? && move.c in st.pending then [move.c] else []
  }

  /** The same over a run, in order. */
  function WentOn(moves: seq<Move>): seq<Call> {
    if moves == [] then []
    else
      var n := |moves| - 1;
      WentOn(moves[..n]) + GoesOnAt(StateAfter(moves[..n]), moves[n])
  }

  function Proceeded(moves: seq<Move>): seq<Call> {
    if moves == [] then []
    else
      var n := |moves| - 1;
      Proceeded(moves[..n]) + ProceedsAt(StateAfter(moves[..n]), moves[n])
  }

  lemma MoveConserves(st: State, move: Move)
    ensures Apply(st, move).pending + multiset(ProceedsAt(st, move)) == st.pending + multiset(GoesOnAt(st, move))
  {
  }

  lemma MoveCalls(st: State, move: Move, calls: seq<Call>)
    requires st.perTemplate == After(PER_SUBSCRIPTION, calls)
    ensures Apply(st, move).perTemplate == After(PER_SUBSCRIPTION, calls + ProceedsAt(st, move))
  {
    if move.Proceed? && move.c in st.pending {
      assert (calls + [move.c])[..|calls|] == calls;
    } else {
      assert calls + [] == calls;
    }
  }

  /** On every interleaving the table of templates is that of a limiter fed the calls that proceeded,
      and every trigger that went on has proceeded once or is pending. */
  lemma {:induction false} EachProceedsOnce(moves: seq<Move>)
    ensures StateAfter(moves).perTemplate == After(PER_SUBSCRIPTION, Proceeded(moves))
    ensures multiset(WentOn(moves)) == multiset(Proceeded(moves)) + StateAfter(moves).pending
  {
    if moves != [] {
      var n := |moves| - 1;
      var st := StateAfter(moves[..n]);
      EachProceedsOnce(moves[..n]);
      MoveCalls(st, moves[n], Proceeded(moves[..n]));
      MoveConserves(st, moves[n]);
      Balanced(WentOn(moves[..n]), GoesOnAt(st, moves[n]), Proceeded(moves[..n]), ProceedsAt(st, moves[n]),
               st.pending, Apply(st, moves[n]).pending);
    }
  }

  lemma Balanced(all: seq<Call>, more: seq<Call>, done: seq<Call>, now: seq<Call>,
                 left: multiset<Call>, left': multiset<Call>)
    requires multiset(all) == multiset(done) + left && left' + multiset(now) == left + multiset(more)
    ensures multiset(all + more) == multiset(done + now) + left'
  {
    assert multiset(all + more) == multiset(all) + multiset(more);
    assert multiset(done + now) == multiset(done) + multiset(now);
    BalancedBags(multiset(all), multiset(more), multiset(done), multiset(now), left, left');
  }

  lemma BalancedBags(all: multiset<Call>, more: multiset<Call>, done: multiset<Call>, now: multiset<Call>,
                     left: multiset<Call>, left': multiset<Call>)
    requires all == done + left && left' + now == left + more
    ensures all + more == done + now + left'
  {
    forall c
      ensures (all + more)[c] == (done + now + left')[c]
    {
      assert all[c] == (done + left)[c] && (left' + now)[c] == (left + more)[c];
    }
  }

  // ---------- Arrivals out of order ----------

  function To(name: string, at: int, authentic: bool): Trigger {
    Trigger(true, PrintChangeRequest(ChangeRequestTarget("n", name, "")), at, Readable, authentic)
  }

  lemma ToCalls(name: string, at: int, authentic: bool)
    requires Segment(name)
    ensures Asks(To(name, at, authentic)) && TemplateCall(To(name, at, authentic)) == Call("n/" + name, at)
  {
    var t := ChangeRequestTarget("n", name, "");
    ChangeRequestPathExact(PrintChangeRequest(t), t);
    assert LimitKey("n", name) == "n/" + name;
  }

  function Often(r: Trigger, n: nat): seq<Move> {
    if n == 0 then [] else Often(r, n - 1) + [Arrive(r)]
  }

  /** An authenticated trigger that would make this call on its template's limit. */
  predicate Genuine(r: Trigger, call: Call) {
    Asks(r) && r.body.Readable? && r.authentic && TemplateCall(r) == call && r.at == call.at
  }

  /** So many tokens are left of the coarse bucket, and only this call is pending. */
  ghost predicate Left(st: State, tokens: nat, call: Call) {
    && st.perTemplate == map[] && Available(GLOBAL, st.coarse, call.at) == tokens * SECOND
    && forall c :: c in st.pending ==> c == call
  }

  lemma LeftTake(b: Bucket, t: int, tokens: nat)
    requires Available(GLOBAL, b, t) == tokens * SECOND
    ensures Admits(GLOBAL, b, t) <==> tokens > 0
    ensures tokens > 0 ==> Take(GLOBAL, b, t) == Bucket((tokens - 1) * SECOND, t)
    ensures tokens > 0 ==> Available(GLOBAL, Take(GLOBAL, b, t), t) == (tokens - 1) * SECOND
  {
    AfterTake(GLOBAL, b, t);
  }

  /** An authenticated trigger takes a token and goes on to its template, if there is one. */
  lemma GenuineArrives(st: State, r: Trigger, call: Call, tokens: nat)
    requires Genuine(r, call) && Available(GLOBAL, st.coarse, call.at) == tokens * SECOND
    ensures First(st, r).None? <==> tokens > 0
    ensures tokens == 0 ==> Apply(st, Arrive(r)) == st
    ensures tokens > 0 ==>
              Apply(st, Arrive(r))
                == st.(coarse := Bucket((tokens - 1) * SECOND, call.at), pending := st.pending + multiset{call})
    ensures tokens > 0 ==> Available(GLOBAL, Apply(st, Arrive(r)).coarse, call.at) == (tokens - 1) * SECOND
  {
    LeftTake(st.coarse, call.at, tokens);
  }

  lemma OneMoreMove(moves: seq<Move>, move: Move)
    ensures StateAfter(moves + [move]) == Apply(StateAfter(moves), move)
    ensures Valid(moves + [move]) == Valid(moves) + if IsValid(StateAfter(moves), move) then [move] else []
  {
    assert (moves + [move])[..|moves|] == moves;
  }

  lemma {:induction false} OftenLeaves(r: Trigger, call: Call, n: nat)
    requires Genuine(r, call) && n <= 100
    ensures Left(StateAfter(Often(r, n)), 100 - n, call) && Valid(Often(r, n)) == Often(r, n)
    ensures n > 0 ==> StateAfter(Often(r, n)).coarse == Bucket((100 - n) * SECOND, call.at)
  {
    if n > 0 {
      OftenLeaves(r, call, n - 1);
      OneMoreMove(Often(r, n - 1), Arrive(r));
      GenuineArrives(StateAfter(Often(r, n - 1)), r, call, 100 - n + 1);
    }
  }

  /** A trigger without the token that carries an earlier time moves the bucket's clock back, and so
      refills it. */
  lemma BackdatedRefills(moves: seq<Move>, call: Call, bad: Trigger)
    requires Left(StateAfter(moves), 1, call) && StateAfter(moves).coarse == Bucket(SECOND, call.at)
    requires Asks(bad) && !bad.authentic && bad.at == call.at - 10 * SECOND
    ensures Left(StateAfter(moves + [Arrive(bad)]), 100, call) && Valid(moves + [Arrive(bad)]) == Valid(moves)
  {
    OneMoreMove(moves, Arrive(bad));
    LeftTake(StateAfter(moves).coarse, bad.at, 1);
  }

  /** Two more triggers; the second goes on to its template. */
  function GoesOn(moves: seq<Move>, r: Trigger, z: Trigger, call: Call): seq<Move> {
    moves + [Arrive(r)] + [Arrive(z)] + [Proceed(call)]
  }

  /** With one token only the first of them passes. */
  lemma OnePasses(moves: seq<Move>, r: Trigger, call: Call, z: Trigger, other: Call)
    requires Left(StateAfter(moves), 1, call) && Genuine(r, call) && Genuine(z, other) && call != other &&
             call.at == other.at
    ensures StateAfter(GoesOn(moves, r, z, other)).perTemplate == map[]
  {
    OneMoreMove(moves, Arrive(r));
    OneMoreMove(moves + [Arrive(r)], Arrive(z));
    OneMoreMove(moves + [Arrive(r)] + [Arrive(z)], Proceed(other));
    OnlyFirst(StateAfter(moves), r, call, z, other);
  }

  lemma OnlyFirst(st: State, r: Trigger, call: Call, z: Trigger, other: Call)
    requires Left(st, 1, call) && Genuine(r, call) && Genuine(z, other) && call != other && call.at == other.at
    ensures Apply(Apply(Apply(st, Arrive(r)), Arrive(z)), Proceed(other)).perTemplate == map[]
  {
    GenuineArrives(st, r, call, 1);
    var st' := Apply(st, Arrive(r));
    GenuineArrives(st', z, other, 0);
    assert other !in st'.pending;
  }

  lemma TemplateTaken(m: Table, c: Call)
    requires m == map[]
    ensures c.key in Step(PER_SUBSCRIPTION, m, c).table
  {
  }

  /** With more than one both do, and the second reaches its template's table. */
  lemma BothPass(moves: seq<Move>, r: Trigger, call: Call, z: Trigger, other: Call)
    requires Left(StateAfter(moves), 100, call) && Genuine(r, call) && Genuine(z, other) && call.at == other.at
    ensures other.key in StateAfter(GoesOn(moves, r, z, other)).perTemplate
    ensures Valid(GoesOn(moves, r, z, other)) == GoesOn(Valid(moves), r, z, other)
  {
    OneMoreMove(moves, Arrive(r));
    GenuineArrives(StateAfter(moves), r, call, 100);
    OneMoreMove(moves + [Arrive(r)], Arrive(z));
    GenuineArrives(StateAfter(moves + [Arrive(r)]), z, other, 99);
    OneMoreMove(moves + [Arrive(r)] + [Arrive(z)], Proceed(other));
    TemplateTaken(StateAfter(moves).perTemplate, other);
  }

  /** With arrivals out of order the replay can differ. n = 99 authenticated triggers, one without the
      token that carries an earlier time, and two more that are authenticated: the last of them gets
      its template into the table, but not in the replay. */
  lemma ReplayDiffers(r: Trigger, call: Call, bad: Trigger, z: Trigger, other: Call, n: nat)
    requires Genuine(r, call) && Genuine(z, other) && call != other && call.at == other.at && n == 99
    requires Asks(bad) && !bad.authentic && bad.at == call.at - 10 * SECOND
    ensures var moves := GoesOn(Often(r, n) + [Arrive(bad)], r, z, other);
            StateAfter(moves).perTemplate != StateAfter(Valid(moves)).perTemplate
  {
    OftenLeaves(r, call, n);
    BackdatedRefills(Often(r, n), call, bad);
    BothPass(Often(r, n) + [Arrive(bad)], r, call, z, other);
    OnePasses(Often(r, n), r, call, z, other);
  }

  /** And there are such triggers. */
  lemma OutOfOrderDiffers(at: int) returns (moves: seq<Move>)
    ensures StateAfter(moves).perTemplate != StateAfter(Valid(moves)).perTemplate
  {
    var r, call := GenuineTo("a", at);
    var z, other := GenuineTo("z", at);
    assert call.key[2] == 'a' && other.key[2] == 'z';
    var bad := To("a", at - 10 * SECOND, false);
    ToCalls("a", at - 10 * SECOND, false);
    var n := 99;
    moves := GoesOn(Often(r, n) + [Arrive(bad)], r, z, other);
    ReplayDiffers(r, call, bad, z, other, n);
  }

  lemma GenuineTo(name: string, at: int) returns (r: Trigger, call: Call)
    requires Segment(name)
    ensures Genuine(r, call) && call == Call("n/" + name, at)
  {
    r, call := To(name, at, true), Call("n/" + name, at);
    ToCalls(name, at, true);
  }

  // ---------- The coarse limit ----------

  /** Which moves passed the coarse limit and so cost reads. */
  predicate Passes(st: State, move: Move) {
    move.Arrive? && Asks(move.r) && Admits(GLOBAL, st.coarse, move.r.at)
  }

  function Passed(moves: seq<Move>): (f: seq<bool>)
    ensures |f| == |moves|
  {
    if moves == [] then []
    else
      var n := |moves| - 1;
      Passed(moves[..n]) + [Passes(StateAfter(moves[..n]), moves[n])]
  }

  lemma ApplyCoarse(st: State, move: Move)
    ensures Apply(st, move).coarse
         == if move.Arrive? && Asks(move.r) then Take(GLOBAL, st.coarse, move.r.at) else st.coarse
  {
  }

  lemma CoarseStep(st: State, move: Move, c: nat, t: int, room: int)
    requires c * SECOND + Available(GLOBAL, st.coarse, t) <= room && (move.Arrive? ==> move.r.at == t)
    ensures (if Passes(st, move) then c + 1 else c) * SECOND + Available(GLOBAL, Apply(st, move).coarse, t) <= room
  {
    ApplyCoarse(st, move);
    AfterTake(GLOBAL, st.coarse, t);
  }

  lemma PassedMore(moves: seq<Move>, i: nat)
    requires i < |moves|
    ensures var n := |moves| - 1;
            CountTrue(Passed(moves), i, |moves|)
            == CountTrue(Passed(moves[..n]), i, n) + if Passes(StateAfter(moves[..n]), moves[n]) then 1 else 0
  {
    var n := |moves| - 1;
    assert Passed(moves)[..n] == Passed(moves[..n]);
    CountTrueOfPrefix(Passed(moves), i, n, n);
  }

  lemma {:induction false} CoarseStretch(moves: seq<Move>, i: nat)
    requires i < |moves| && moves[i].Arrive? && InOrder(moves)
    ensures CountTrue(Passed(moves), i, |moves|) * SECOND + Available(GLOBAL, StateAfter(moves).coarse, Clock(moves))
         <= 100 * SECOND + 50 * (Clock(moves) - moves[i].r.at)
    decreases |moves|
  {
    var n := |moves| - 1;
    var before, move, t := moves[..n], moves[n], Clock(moves);
    assert moves == before + [move];
    var b, c := StateAfter(before).coarse, CountTrue(Passed(before), i, n);
    PassedMore(moves, i);
    InOrderBefore(moves, n);
    assert c * SECOND + Available(GLOBAL, b, t) <= 100 * SECOND + 50 * (t - moves[i].r.at) by {
      if i < n {
        CoarseStretch(before, i);
        assert before[i].Arrive?;
        if move.Arrive? {
          ClockBefore(before, move.r);
          AvailableGrows(GLOBAL, b, Clock(before), t);
        }
      }
    }
    CoarseStep(StateAfter(before), move, c, t, 100 * SECOND + 50 * (t - moves[i].r.at));
  }

  lemma {:induction false} CoarseSolvent(moves: seq<Move>)
    ensures StateAfter(moves).coarse.tokens >= 0
  {
    if moves != [] {
      CoarseSolvent(moves[..|moves| - 1]);
      ApplyCoarse(StateAfter(moves[..|moves| - 1]), moves[|moves| - 1]);
    }
  }

  /** However many templates and senders there are, from the arrival of one trigger to the last
      at most 100 triggers, and 50 more a second, get as far as reading anything. */
  lemma ReadsBounded(moves: seq<Move>, i: nat)
    requires i < |moves| && moves[i].Arrive? && InOrder(moves)
    ensures CountTrue(Passed(moves), i, |moves|) * SECOND <= 100 * SECOND + 50 * (Clock(moves) - moves[i].r.at)
  {
    CoarseStretch(moves, i);
    CoarseSolvent(moves);
  }

  /** When the triggers of a run asked the coarse limit. */
  function AskTimes(moves: seq<Move>): seq<int> {
    if moves == [] then []
    else
      var n := |moves| - 1;
      AskTimes(moves[..n]) + if moves[n].Arrive? && Asks(moves[n].r) then [moves[n].r.at] else []
  }

  lemma {:induction false} CoarseIsPrivate(moves: seq<Move>)
    ensures StateAfter(moves).coarse == Private(GLOBAL, AskTimes(moves))
  {
    if moves != [] {
      var n := |moves| - 1;
      var times := AskTimes(moves[..n]);
      CoarseIsPrivate(moves[..n]);
      ApplyCoarse(StateAfter(moves[..n]), moves[n]);
      if moves[n].Arrive? && Asks(moves[n].r) {
        assert (times + [moves[n].r.at])[..|times|] == times;
      } else {
        assert times + [] == times;
      }
    }
  }

  lemma {:induction false} AskTimesInOrder(moves: seq<Move>, now: int)
    requires InOrder(moves) && forall i :: 0 <= i < |moves| && moves[i].Arrive? ==> moves[i].r.at <= now
    ensures AdmissionExact.InOrder(AskTimes(moves), now)
  {
    if moves != [] {
      var n := |moves| - 1;
      InOrderBefore(moves, n);
      if moves[n].Arrive? && Asks(moves[n].r) {
        forall i | 0 <= i < n && moves[..n][i].Arrive?
          ensures moves[..n][i].r.at <= moves[n].r.at
        {
          assert moves[i].Arrive?;
        }
        AskTimesInOrder(moves[..n], moves[n].r.at);
        LaterTime(AskTimes(moves[..n]), moves[n].r.at, now);
      } else {
        AskTimesInOrder(moves[..n], now);
        assert AskTimes(moves[..n]) + [] == AskTimes(moves[..n]);
      }
    }
  }

  lemma LaterTime(times: seq<int>, t: int, now: int)
    requires AdmissionExact.InOrder(times, t) && t <= now
    ensures AdmissionExact.InOrder(times + [t], now)
  {
  }

  /** The coarse limit in its own numbers, on arrivals in order: a trigger passes exactly when that
      makes no more than 100 and 50 a second over any stretch of triggers that ends with it. */
  lemma CoarseExactly(moves: seq<Move>, r: Trigger)
    requires InOrder(moves + [Arrive(r)]) && Asks(r)
    ensures var times := AskTimes(moves);
            Admits(GLOBAL, StateAfter(moves).coarse, r.at)
            <==> forall j :: 0 <= j <= |times| ==>
                   var d := if j < |times| then r.at - times[j] else 0;
                   (CountTrue(AdmissionExact.PrivateFlags(GLOBAL, times), j, |times|) + 1) * 1_000_000_000
                   <= 100 * 1_000_000_000 + 50 * d
  {
    var all, times := moves + [Arrive(r)], AskTimes(moves);
    forall i | 0 <= i < |moves| && moves[i].Arrive?
      ensures moves[i].r.at <= r.at
    {
      assert all[i] == moves[i] && all[|moves|] == Arrive(r);
    }
    assert all[..|moves|] == moves;
    InOrderBefore(all, |moves|);
    AskTimesInOrder(moves, r.at);
    CoarseIsPrivate(moves);
    AdmissionExact.AdmitsExactly(GLOBAL, times, r.at);
    forall j | 0 <= j <= |times|
      ensures AdmissionExact.Slack(GLOBAL, times, j, r.at) >= GLOBAL.unit
         <==> var d := if j < |times| then r.at - times[j] else 0;
              (CountTrue(AdmissionExact.PrivateFlags(GLOBAL, times), j, |times|) + 1) * 1_000_000_000
              <= 100 * 1_000_000_000 + 50 * d
    {
      SlackInNumbers(times, j, r.at);
    }
  }

  lemma SlackInNumbers(times: seq<int>, j: nat, now: int)
    requires j <= |times| && (j < |times| ==> times[j] <= now)
    ensures AdmissionExact.Slack(GLOBAL, times, j, now)
         == 100 * 1_000_000_000 + 50 * (if j < |times| then now - times[j] else 0)
          - CountTrue(AdmissionExact.PrivateFlags(GLOBAL, times), j, |times|) * 1_000_000_000
    ensures GLOBAL.unit == 1_000_000_000
  {
  }
}
