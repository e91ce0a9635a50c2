/**
 The audit writer: many request handlers record API writes, a per-second budget and a bounded
 queue may drop them, and one consumer writes them to the API server until it is told to stop
 and has drained the queue. Handlers and consumer interleave step by step.
 */
module AuditPipeline {
  import opened Timeline
  import opened GoStrings
  import opened FixedWindow

  const QUEUE_SIZE: nat := 256

  datatype Target = Target(ns: string, pipeline: string, bundle: string, environment: string, message: string)
  datatype Write = Write(status: int, target: Option<Target>)

  /** A write is recorded only if it names a namespace and an object in it. */
  predicate Recordable(w: Write) {
    w.target.Some? && w.target.value.ns != "" &&
    !(w.target.value.pipeline == "" && w.target.value.bundle == "" && w.target.value.environment == "")
  }

  /** Where the consumer is. */
  datatype Consumer = Waiting | Writing(w: Write) | Draining | DrainWriting(w: Write) | Returned

  /** The pipeline, with everything that has happened to the writes so far. `held` are the writes
      between the budget and the queue, in handlers that have not sent them yet; `sealed` is how
      many were accepted when the drain last found the queue empty. */
  datatype State = State(
    window: Window, held: multiset<Write>, queue: seq<Write>, consumer: Consumer, cancelled: bool,
    valid: seq<Write>, accepted: seq<Write>, attempted: seq<Write>, created: seq<Write>,
    rateDrops: seq<Write>, queueDrops: seq<Write>, errorDrops: seq<Write>, sealed: nat)

  datatype Step =
    | Offer(w: Write, now: int)  // a handler asks the budget
    | Send(w: Write)             // a handler that was allowed sends without blocking
    | Cancel                     // the context ends
    | Take                       // the consumer receives, before or while draining
    | Finish(ok: bool)           // its write to the API server returns
    | Notice                     // it sees that the context ended
    | Return                     // its drain finds the queue empty

  const INITIAL: State := State(Window(0, 0), multiset{}, [], Waiting, false, [], [], [], [], [], [], [], 0)

  predicate Enabled(s: State, step: Step) {
    match step
    case Offer(_, _) => true
    case Send(w) => w in s.held
    case Cancel => true
    case Take => s.queue != [] && (s.consumer.Waiting? || s.consumer.Draining?)
    case Finish(_) => s.consumer.Writing? || s.consumer.DrainWriting?
    case Notice => s.consumer.Waiting? && s.cancelled
    case Return => s.consumer.Draining? && s.queue == []
  }

  predicate OfConsumer(step: Step) {
    step.Take? || step.Finish? || step.Notice? || step.Return?
  }

  function Apply(s: State, step: Step): State
    requires Enabled(s, step)
  {
    match step
    case Offer(w, now) =>
      if !Recordable(w) then s
      else
        var s' := s.(window := Spend(s.window, now), valid := s.valid + [w]);
        if HasRoom(s.window, now) then s'.(held := s.held + multiset{w}) else s'.(rateDrops := s.rateDrops + [w])
    case Send(w) =>
      var s' := s.(held := s.held - multiset{w});
      if |s.queue| < QUEUE_SIZE then s'.(queue := s.queue + [w], accepted := s.accepted + [w])
      else s'.(queueDrops := s.queueDrops + [w])
    case Cancel => s.(cancelled := true)
    case Take =>
      s.(queue := s.queue[1..],
         consumer := if s.consumer.Waiting? then Writing(s.queue[0]) else DrainWriting(s.queue[0]))
    case Finish(ok) =>
      var w := s.consumer.w;
      var s' := s.(consumer := if s.consumer.Writing? then Waiting else Draining, attempted := s.attempted + [w]);
      if ok then s'.(created := s.created + [w]) else s'.(errorDrops := s.errorDrops + [w])
    case Notice => s.(consumer := Draining)
    case Return => s.(consumer := Returned, sealed := |s.accepted|)
  }

  function InFlight(s: State): seq<Write> {
    if s.consumer.Writing? || s.consumer.DrainWriting? then [s.consumer.w] else []
  }

  // ---------- What every interleaving keeps ----------

  /** Every accepted write is attempted, in flight or queued, in order. */
  ghost predicate InOrder(s: State) {
    s.accepted == s.attempted + InFlight(s) + s.queue
  }

  /** What became of the writes: attempted, dropped and counted, held, in flight or queued. */
  ghost function Fates(s: State): multiset<Write> {
    multiset(s.attempted) + multiset(s.rateDrops) + multiset(s.queueDrops) + s.held + multiset(InFlight(s) + s.queue)
  }

  /** Every valid write has exactly one fate, and an attempt ends in a record or a counted drop. */
  ghost predicate Conserved(s: State) {
    && multiset(s.valid) == Fates(s)
    && multiset(s.attempted) == multiset(s.created) + multiset(s.errorDrops)
  }

  ghost predicate Bounded(s: State) {
    |s.queue| <= QUEUE_SIZE
  }

  /** Once the consumer has returned, what it attempted is what had been accepted when it last
      looked; later arrivals stay queued. */
  ghost predicate Sealed(s: State) {
    s.consumer.Returned? ==> s.sealed <= |s.accepted| && s.attempted == s.accepted[..s.sealed]
  }

  ghost predicate Inv(s: State) {
    InOrder(s) && Conserved(s) && Bounded(s) && Sealed(s)
  }

  lemma StepInOrder(s: State, step: Step)
    requires Enabled(s, step) && InOrder(s)
    ensures InOrder(Apply(s, step))
  {
    match step
    case Send(w) =>
      assert s.attempted + InFlight(s) + (s.queue + [w]) == s.attempted + InFlight(s) + s.queue + [w];
    case Take =>
      assert s.attempted + [] + s.queue == s.attempted + [s.queue[0]] + s.queue[1..];
    case Finish(ok) =>
      assert s.attempted + [s.consumer.w] + s.queue == s.attempted + [s.consumer.w] + [] + s.queue;
    case _ =>
  }

  lemma Append(s: seq<Write>, w: Write)
    ensures multiset(s + [w]) == multiset(s) + multiset{w}
  {
  }

  lemma OfferConserved(s: State, w: Write, now: int)
    requires Conserved(s)
    ensures Conserved(Apply(s, Offer(w, now)))
  {
    if Recordable(w) {
      var s' := Apply(s, Offer(w, now));
      Append(s.valid, w);
      assert InFlight(s') + s'.queue == InFlight(s) + s.queue;
      if HasRoom(s.window, now) {
        assert Fates(s') == Fates(s) + multiset{w};
      } else {
        Append(s.rateDrops, w);
        assert Fates(s') == Fates(s) + multiset{w};
      }
    }
  }

  /** A held write moves on to the queue or to the drops. */
  lemma MoveHeld(rest: multiset<Write>, drops: multiset<Write>, held: multiset<Write>, queued: multiset<Write>,
                 w: Write)
    requires w in held
    ensures rest + drops + (held - multiset{w}) + (queued + multiset{w}) == rest + drops + held + queued
    ensures rest + (drops + multiset{w}) + (held - multiset{w}) + queued == rest + drops + held + queued
  {
  }

  lemma SendConserved(s: State, w: Write)
    requires Conserved(s) && w in s.held
    ensures Conserved(Apply(s, Send(w)))
  {
    var s' := Apply(s, Send(w));
    var rest, drops := multiset(s.attempted) + multiset(s.rateDrops), multiset(s.queueDrops);
    var queued := multiset(InFlight(s) + s.queue);
    MoveHeld(rest, drops, s.held, queued, w);
    assert InFlight(s') == InFlight(s);
    if |s.queue| < QUEUE_SIZE {
      Append(InFlight(s) + s.queue, w);
      assert InFlight(s) + (s.queue + [w]) == InFlight(s) + s.queue + [w];
      assert Fates(s') == rest + drops + (s.held - multiset{w}) + (queued + multiset{w});
    } else {
      Append(s.queueDrops, w);
      assert Fates(s') == rest + (drops + multiset{w}) + (s.held - multiset{w}) + queued;
    }
  }

  lemma TakeConserved(s: State)
    requires Conserved(s) && Enabled(s, Take)
    ensures Conserved(Apply(s, Take))
  {
    assert InFlight(s) + s.queue == [s.queue[0]] + s.queue[1..];
  }

  lemma MoveFlying(attempted: seq<Write>, rate: multiset<Write>, drops: multiset<Write>, held: multiset<Write>,
                   queue: seq<Write>, w: Write)
    ensures multiset(attempted + [w]) + rate + drops + held + multiset(queue)
         == multiset(attempted) + rate + drops + held + multiset([w] + queue)
  {
    Append(attempted, w);
    assert multiset([w] + queue) == multiset{w} + multiset(queue);
  }

  lemma FinishFates(s: State, ok: bool)
    requires Enabled(s, Finish(ok))
    ensures Fates(Apply(s, Finish(ok))) == Fates(s)
  {
    var s', w := Apply(s, Finish(ok)), s.consumer.w;
    MoveFlying(s.attempted, multiset(s.rateDrops), multiset(s.queueDrops), s.held, s.queue, w);
    assert InFlight(s') + s'.queue == s.queue;
  }

  lemma FinishConserved(s: State, ok: bool)
    requires Conserved(s) && Enabled(s, Finish(ok))
    ensures Conserved(Apply(s, Finish(ok)))
  {
    FinishFates(s, ok);
    Append(s.attempted, s.consumer.w);
    if ok {
      Append(s.created, s.consumer.w);
    } else {
      Append(s.errorDrops, s.consumer.w);
    }
  }

  lemma StepConserved(s: State, step: Step)
    requires Enabled(s, step) && Conserved(s)
    ensures Conserved(Apply(s, step))
  {
    match step
    case Offer(w, now) => OfferConserved(s, w, now);
    case Send(w) => SendConserved(s, w);
    case Take => TakeConserved(s);
    case Finish(ok) => FinishConserved(s, ok);
    case _ =>
  }

  lemma StepSealed(s: State, step: Step)
    requires Enabled(s, step) && Sealed(s) && InOrder(s)
    ensures Sealed(Apply(s, step))
  {
    var s' := Apply(s, step);
    if s'.consumer.Returned? && !step.Return? {
      assert s'.accepted[..s.sealed] == s.accepted[..s.sealed];
    }
  }

  lemma StepKeeps(s: State, step: Step)
    requires Enabled(s, step) && Inv(s)
    ensures Inv(Apply(s, step))
  {
    StepInOrder(s, step);
    StepConserved(s, step);
    StepSealed(s, step);
    StepBounded(s, step);
  }

  lemma StepBounded(s: State, step: Step)
    requires Enabled(s, step) && Bounded(s)
    ensures Bounded(Apply(s, step))
  {
  }

  /** The state after a run; a step that is not enabled when its turn comes does not happen. */
  function After(steps: seq<Step>): State {
    if steps == [] then INITIAL
    else
      var s, step := After(steps[..|steps| - 1]), steps[|steps| - 1];
      if Enabled(s, step) then Apply(s, step) else s
  }

  lemma {:induction false} EveryRunKeeps(steps: seq<Step>)
    ensures Inv(After(steps))
  {
    if steps != [] {
      var s, step := After(steps[..|steps| - 1]), steps[|steps| - 1];
      EveryRunKeeps(steps[..|steps| - 1]);
      if Enabled(s, step) {
        StepKeeps(s, step);
      }
    }
  }

  /** In numbers: nothing a handler recorded is unaccounted for. */
  lemma Accounted(steps: seq<Step>)
    ensures var s := After(steps);
            |s.valid| == |s.created| + |s.errorDrops| + |s.rateDrops| + |s.queueDrops|
                       + |s.held| + |InFlight(s)| + |s.queue|
  {
    EveryRunKeeps(steps);
    var s := After(steps);
    assert |multiset(s.valid)| == |s.valid| && |multiset(s.attempted)| == |s.attempted|;
    assert |multiset(s.created)| == |s.created| && |multiset(s.errorDrops)| == |s.errorDrops|;
  }

  /** A write is dropped for the queue exactly when 256 accepted writes have not been taken yet. */
  lemma QueueDropsExactly(steps: seq<Step>, w: Write)
    requires w in After(steps).held
    ensures var s := After(steps);
            Apply(s, Send(w)).queueDrops == s.queueDrops + [w]
            <==> |s.accepted| == |s.attempted| + |InFlight(s)| + 256
  {
    EveryRunKeeps(steps);
    assert After(steps).queueDrops != After(steps).queueDrops + [w];
  }

  // ---------- The budget on a run ----------

  /** When the handlers of a run asked the budget. */
  function OfferTimes(steps: seq<Step>): seq<int> {
    if steps == [] then []
    else
      var n := |steps| - 1;
      OfferTimes(steps[..n]) + if Offers(steps[n]) then [steps[n].now] else []
  }

  predicate Offers(step: Step) {
    step.Offer? && Recordable(step.w)
  }

  /** How many writes got past the budget at times in [from, to). */
  function PastBudget(steps: seq<Step>, from: int, to: int): nat {
    if steps == [] then 0
    else
      var n := |steps| - 1;
      PastBudget(steps[..n], from, to) +
      if Offers(steps[n]) && HasRoom(After(steps[..n]).window, steps[n].now) && from <= steps[n].now < to then 1 else 0
  }

  lemma OneMoreOffer(times: seq<int>, now: int, from: int, to: int)
    ensures WindowAfter(times + [now]) == Spend(WindowAfter(times), now)
    ensures CountWithin(Allowed(times + [now]), times + [now], from, to)
         == CountWithin(Allowed(times), times, from, to) +
            if HasRoom(WindowAfter(times), now) && from <= now < to then 1 else 0
  {
    var all := times + [now];
    assert all[..|times|] == times && Allowed(all)[..|times|] == Allowed(times);
  }

  /** Whatever else happens in between, the budget sees the handlers' own calls. */
  lemma {:induction false} BudgetOfRun(steps: seq<Step>, from: int, to: int)
    ensures After(steps).window == WindowAfter(OfferTimes(steps))
    ensures PastBudget(steps, from, to) == CountWithin(Allowed(OfferTimes(steps)), OfferTimes(steps), from, to)
  {
    if steps != [] {
      var n := |steps| - 1;
      var times := OfferTimes(steps[..n]);
      BudgetOfRun(steps[..n], from, to);
      if Offers(steps[n]) {
        OneMoreOffer(times, steps[n].now, from, to);
      } else {
        assert times + [] == times;
      }
    }
  }

  /** On every interleaving, at most 50 * (k + 1) writes get past the budget in any k seconds. */
  lemma RunWithinBudget(steps: seq<Step>, from: int, k: nat)
    requires Nondecreasing(OfferTimes(steps))
    ensures PastBudget(steps, from, from + k * 1_000_000_000) <= 50 * (k + 1)
  {
    BudgetOfRun(steps, from, from + k * SECOND);
    AuditBound(OfferTimes(steps), from, k);
  }

  // ---------- What becomes of each write ----------

  /** The write whose attempt the API server answers with `ok` in this step, if any. */
  function AnsweredAt(s: State, step: Step, ok: bool): seq<Write> {
    if step == Finish(ok) then InFlight(s) else []
  }

  /** The write that a handler sends in this step, when fewer than 256 are queued or when 256 are. */
  function SentAt(s: State, step: Step, fits: bool): seq<Write> {
    if step.Send? && step.w in s.held && (|s.queue| < 256) == fits then [step.w] else []
  }

  /** The write that a handler offers in this step, when the budget has room or when it has none. */
  function OfferedAt(s: State, step: Step, room: bool): seq<Write> {
    if Offers(step) && HasRoom(s.window, step.now) == room then [step.w] else []
  }

  /** The same over a run, in order. */
  function AllAnswered(steps: seq<Step>, ok: bool): seq<Write> {
    if steps == [] then []
    else
      var n := |steps| - 1;
      AllAnswered(steps[..n], ok) + AnsweredAt(After(steps[..n]), steps[n], ok)
  }

  function AllSent(steps: seq<Step>, fits: bool): seq<Write> {
    if steps == [] then []
    else
      var n := |steps| - 1;
      AllSent(steps[..n], fits) + SentAt(After(steps[..n]), steps[n], fits)
  }

  function AllOffered(steps: seq<Step>, room: bool): seq<Write> {
    if steps == [] then []
    else
      var n := |steps| - 1;
      AllOffered(steps[..n], room) + OfferedAt(After(steps[..n]), steps[n], room)
  }

  /** What one step, if it is enabled, adds to the histories. */
  lemma StepFates(s: State, step: Step)
    ensures var t := if Enabled(s, step) then Apply(s, step) else s;
            && t.created == s.created + AnsweredAt(s, step, true)
            && t.errorDrops == s.errorDrops + AnsweredAt(s, step, false)
            && t.rateDrops == s.rateDrops + OfferedAt(s, step, false)
            && t.accepted == s.accepted + SentAt(s, step, true)
            && t.queueDrops == s.queueDrops + SentAt(s, step, false)
  {
  }

  /** On every run: created are exactly the writes the API server took and error drops those it
      refused; rate drops are those the budget had no room for, queue drops those sent to a full
      queue and accepted the others sent; all in order. */
  lemma {:induction false} EachFateExactly(steps: seq<Step>)
    ensures var s := After(steps);
            && s.created == AllAnswered(steps, true) && s.errorDrops == AllAnswered(steps, false)
            && s.rateDrops == AllOffered(steps, false)
            && s.accepted == AllSent(steps, true) && s.queueDrops == AllSent(steps, false)
  {
    if steps != [] {
      var n := |steps| - 1;
      EachFateExactly(steps[..n]);
      StepFates(After(steps[..n]), steps[n]);
    }
  }

  // ---------- Shutdown ----------

  /** The consumer stops receiving only once the context has ended, and returns from a drain only. */
  lemma {:induction false} StopsOnlyWhenEnded(steps: seq<Step>)
    ensures var s := After(steps);
            (s.consumer.Draining? || s.consumer.DrainWriting? || s.consumer.Returned? ==> s.cancelled)
            && (s.cancelled <==> Cancel in steps)
  {
    if steps != [] {
      StopsOnlyWhenEnded(steps[..|steps| - 1]);
      assert steps == steps[..|steps| - 1] + [steps[|steps| - 1]];
    }
  }

  /** How many consumer steps are left once the context has ended and no handler sends. */
  function Remaining(s: State): nat {
    match s.consumer
    case Waiting => 2 * |s.queue| + 2
    case Writing(_) => 2 * |s.queue| + 3
    case Draining => 2 * |s.queue| + 1
    case DrainWriting(_) => 2 * |s.queue| + 2
    case Returned => 0
  }

  /** All of these are consumer steps, each enabled in its turn. */
  ghost predicate ConsumerRun(s: State, steps: seq<Step>)
    decreases |steps|
  {
    steps == [] || (OfConsumer(steps[0]) && Enabled(s, steps[0]) && ConsumerRun(Apply(s, steps[0]), steps[1..]))
  }

  function Finally(s: State, steps: seq<Step>): State
    requires ConsumerRun(s, steps)
    decreases |steps|
  {
    if steps == [] then s else Finally(Apply(s, steps[0]), steps[1..])
  }

  /** The consumer is never stuck before it returns. */
  lemma ConsumerCanStep(s: State)
    requires s.cancelled
    ensures s.consumer.Returned? <==> forall step :: OfConsumer(step) ==> !Enabled(s, step)
  {
    if !s.consumer.Returned? {
      var step := match s.consumer
                  case Writing(_) => Finish(true)
                  case DrainWriting(_) => Finish(true)
                  case Waiting => Notice
                  case _ => if s.queue == [] then Return else Take;
      assert OfConsumer(step) && Enabled(s, step);
    }
  }

  lemma ConsumerStep(s: State, step: Step)
    requires OfConsumer(step) && Enabled(s, step)
    ensures !s.consumer.Returned? && Remaining(Apply(s, step)) < Remaining(s)
    ensures var t := Apply(s, step);
            && t.accepted == s.accepted && t.cancelled == s.cancelled
            && (t.consumer.Returned? ==> t.queue == [])
  {
  }

  lemma {:induction false} DrainRun(s: State, steps: seq<Step>)
    requires Inv(s) && ConsumerRun(s, steps)
    ensures var t := Finally(s, steps);
            && |steps| + Remaining(t) <= Remaining(s)
            && Inv(t) && t.accepted == s.accepted && t.cancelled == s.cancelled
            && (t.consumer.Returned? && !s.consumer.Returned? ==> t.queue == [])
    decreases |steps|
  {
    if steps != [] {
      ConsumerStep(s, steps[0]);
      StepKeeps(s, steps[0]);
      DrainRun(Apply(s, steps[0]), steps[1..]);
      if Apply(s, steps[0]).consumer.Returned? && steps[1..] != [] {
        ConsumerStep(Apply(s, steps[0]), steps[1..][0]);
        assert false;
      }
    }
  }

  /** With no handler sending, the consumer takes at most Remaining(s) steps, and when it can take
      no more it has returned and every accepted write has been attempted. */
  lemma DrainEnds(s: State, steps: seq<Step>)
    requires Inv(s) && s.cancelled && !s.consumer.Returned? && ConsumerRun(s, steps)
    ensures |steps| <= Remaining(s)
    ensures var t := Finally(s, steps);
            (forall step :: OfConsumer(step) ==> !Enabled(t, step))
            ==> t.consumer.Returned? && t.queue == [] && t.attempted == s.accepted
  {
    DrainRun(s, steps);
    ConsumerCanStep(Finally(s, steps));
  }

  // ---------- The writer itself ----------

  /** What the writer's own fields hold. */
  datatype Sink = Sink(window: Window, queue: seq<Write>, created: seq<Write>,
                       rateDropped: nat, queueDropped: nat, errorDropped: nat)

  function Project(s: State): Sink {
    Sink(s.window, s.queue, s.created, |s.rateDrops|, |s.queueDrops|, |s.errorDrops|)
  }

  /** A handler's Record, with nothing in between. */
  function Recorded(s: State, w: Write, now: int): State {
    var s' := Apply(s, Offer(w, now));
    if Recordable(w) && HasRoom(s.window, now) then Apply(s', Send(w)) else s'
  }

  lemma OfferSeen(s: State, w: Write, now: int)
    requires Recordable(w)
    ensures var room := HasRoom(s.window, now);
            && Project(Apply(s, Offer(w, now))) ==
                 Project(s).(window := Spend(s.window, now), rateDropped := |s.rateDrops| + if room then 0 else 1)
            && (room ==> w in Apply(s, Offer(w, now)).held)
  {
  }

  lemma SendSeen(s: State, w: Write)
    requires w in s.held
    ensures Project(Apply(s, Send(w))) ==
              if |s.queue| < QUEUE_SIZE then Project(s).(queue := s.queue + [w])
              else Project(s).(queueDropped := |s.queueDrops| + 1)
  {
  }

  /** A record that names no namespace or no object in it changes nothing; any other is dropped
      for the budget, dropped for the queue, or queued. */
  lemma RecordExactly(s: State, w: Write, now: int)
    ensures Recorded(s, w, now) == s
       <==> || w.target.None? || w.target.value.ns == ""
            || (w.target.value.pipeline == "" && w.target.value.bundle == "" && w.target.value.environment == "")
    ensures var t := Recorded(s, w, now);
            t != s ==>
              if !HasRoom(s.window, now) then
                t.rateDrops == s.rateDrops + [w] && t.queueDrops == s.queueDrops && t.queue == s.queue
              else if |s.queue| >= 256 then
                t.rateDrops == s.rateDrops && t.queueDrops == s.queueDrops + [w] && t.queue == s.queue
              else
                t.rateDrops == s.rateDrops && t.queueDrops == s.queueDrops && t.queue == s.queue + [w]
  {
    assert s.valid + [w] != s.valid;
  }

  /** Writes that handlers record while the consumer is busy. */
  datatype Arrival = Arrival(w: Write, now: int)

  function Meanwhile(s: State, arrivals: seq<Arrival>): (t: State)
    ensures t.consumer == s.consumer && t.cancelled == s.cancelled && t.attempted == s.attempted
    decreases |arrivals|
  {
    if arrivals == [] then s else Meanwhile(Recorded(s, arrivals[0].w, arrivals[0].now), arrivals[1..])
  }

  /** The consumer takes the next write and writes it, with what arrives during that; `ok` is what
      the API server says. */
  function Consumed(s: State, arrivals: seq<Arrival>, ok: bool): (t: State)
    requires s.queue != [] && (s.consumer.Waiting? || s.consumer.Draining?)
    ensures t.consumer == s.consumer
  {
    Apply(Meanwhile(Apply(s, Take), arrivals), Finish(ok))
  }

  function Head(during: seq<seq<Arrival>>): seq<Arrival> {
    if during == [] then [] else during[0]
  }

  function Rest(during: seq<seq<Arrival>>): seq<seq<Arrival>> {
    if during == [] then [] else during[1..]
  }

  /** The consumer's drain: during its i-th write, during[i] arrives, and nothing after those. */
  function Drained(s: State, during: seq<seq<Arrival>>, accepts: Write -> bool): State
    requires s.consumer.Draining?
    decreases |during|, |s.queue|
  {
    if s.queue == [] then Apply(s, Return)
    else Drained(Consumed(s, Head(during), accepts(s.queue[0])), Rest(during), accepts)
  }

  lemma RecordedKeeps(s: State, w: Write, now: int)
    requires Inv(s)
    ensures Inv(Recorded(s, w, now))
  {
    StepKeeps(s, Offer(w, now));
    if Recordable(w) && HasRoom(s.window, now) {
      StepKeeps(Apply(s, Offer(w, now)), Send(w));
    }
  }

  lemma DrainOnce(s: State, during: seq<seq<Arrival>>, accepts: Write -> bool)
    requires s.consumer.Draining? && s.queue != []
    ensures Drained(s, during, accepts)
            == Drained(Consumed(s, Head(during), accepts(s.queue[0])), Rest(during), accepts)
    ensures during != [] ==> |Rest(during)| < |during|
    ensures during == [] ==> Head(during) == [] && Rest(during) == []
  {
  }

  lemma {:induction false} MeanwhileKeeps(s: State, arrivals: seq<Arrival>)
    requires Inv(s)
    ensures Inv(Meanwhile(s, arrivals))
    decreases |arrivals|
  {
    if arrivals != [] {
      RecordedKeeps(s, arrivals[0].w, arrivals[0].now);
      MeanwhileKeeps(Recorded(s, arrivals[0].w, arrivals[0].now), arrivals[1..]);
    }
  }

  lemma ConsumedKeeps(s: State, arrivals: seq<Arrival>, ok: bool)
    requires Inv(s) && s.queue != [] && (s.consumer.Waiting? || s.consumer.Draining?)
    ensures Inv(Consumed(s, arrivals, ok))
  {
    StepKeeps(s, Take);
    MeanwhileKeeps(Apply(s, Take), arrivals);
    StepKeeps(Meanwhile(Apply(s, Take), arrivals), Finish(ok));
  }

  /** The drain ends with nothing queued and every write accepted by then attempted, those that
      arrived during it included. */
  lemma {:induction false} DrainedKeeps(s: State, during: seq<seq<Arrival>>, accepts: Write -> bool)
    requires Inv(s) && s.consumer.Draining?
    ensures var t := Drained(s, during, accepts);
            Inv(t) && t.consumer.Returned? && t.queue == [] && t.attempted == t.accepted
    decreases |during|, |s.queue|
  {
    if s.queue == [] {
      ReturnKeeps(s);
    } else {
      var next := Consumed(s, Head(during), accepts(s.queue[0]));
      ConsumedKeeps(s, Head(during), accepts(s.queue[0]));
      DrainOnce(s, during, accepts);
      DrainedKeeps(next, Rest(during), accepts);
    }
  }

  lemma ReturnKeeps(s: State)
    requires Inv(s) && s.consumer.Draining? && s.queue == []
    ensures var t := Apply(s, Return);
            Inv(t) && t.consumer.Returned? && t.queue == [] && t.attempted == t.accepted
  {
    StepKeeps(s, Return);
  }

  // ---------- The consumer's loop ----------

  /** What happens before the consumer sees that the context ended: a handler records a write, the
      context ends, or the consumer receives, with what arrives during its write. */
  datatype Turn = Arrives(w: Write, now: int) | Ends | Receives(during: seq<Arrival>)

  function Received(s: State, during: seq<Arrival>, accepts: Write -> bool): (t: State)
    requires s.consumer.Waiting?
    ensures t.consumer.Waiting?
  {
    if s.queue == [] then s else Consumed(s, during, accepts(s.queue[0]))
  }

  function Turned(s: State, turn: Turn, accepts: Write -> bool): (t: State)
    requires s.consumer.Waiting?
    ensures t.consumer.Waiting?
  {
    match turn
    case Arrives(w, now) => Recorded(s, w, now)
    case Ends => Apply(s, Cancel)
    case Receives(during) => Received(s, during, accepts)
  }

  function TurnedAll(s: State, turns: seq<Turn>, accepts: Write -> bool): (t: State)
    requires s.consumer.Waiting?
    ensures t.consumer.Waiting?
    decreases |turns|
  {
    if turns == [] then s else TurnedAll(Turned(s, turns[0], accepts), turns[1..], accepts)
  }

  /** The whole of Start: the turns, then the context has ended and the consumer sees it. */
  function Started(s: State, turns: seq<Turn>, during: seq<seq<Arrival>>, accepts: Write -> bool): State
    requires s.consumer.Waiting?
  {
    Drained(Apply(Apply(TurnedAll(s, turns, accepts), Cancel), Notice), during, accepts)
  }

  lemma TurnedKeeps(s: State, turn: Turn, accepts: Write -> bool)
    requires Inv(s) && s.consumer.Waiting?
    ensures Inv(Turned(s, turn, accepts))
  {
    match turn
    case Arrives(w, now) => RecordedKeeps(s, w, now);
    case Ends => StepKeeps(s, Cancel);
    case Receives(during) =>
      if s.queue != [] {
        ConsumedKeeps(s, during, accepts(s.queue[0]));
      }
  }

  lemma {:induction false} TurnedAllKeeps(s: State, turns: seq<Turn>, accepts: Write -> bool)
    requires Inv(s) && s.consumer.Waiting?
    ensures Inv(TurnedAll(s, turns, accepts))
    decreases |turns|
  {
    if turns != [] {
      TurnedKeeps(s, turns[0], accepts);
      TurnedAllKeeps(Turned(s, turns[0], accepts), turns[1..], accepts);
    }
  }

  /** When Start returns, every write accepted until then has been attempted. */
  lemma StartedKeeps(s: State, turns: seq<Turn>, during: seq<seq<Arrival>>, accepts: Write -> bool)
    requires Inv(s) && s.consumer.Waiting?
    ensures var t := Started(s, turns, during, accepts);
            Inv(t) && t.consumer.Returned? && t.queue == [] && t.attempted == t.accepted
  {
    var t := TurnedAll(s, turns, accepts);
    TurnedAllKeeps(s, turns, accepts);
    StepKeeps(t, Cancel);
    StepKeeps(Apply(t, Cancel), Notice);
    DrainedKeeps(Apply(Apply(t, Cancel), Notice), during, accepts);
  }

  /** What was created the API server accepts, and what was dropped for an error it does not. */
  ghost predicate SortedBy(s: State, accepts: Write -> bool) {
    (forall w :: w in s.created ==> accepts(w)) && (forall w :: w in s.errorDrops ==> !accepts(w))
  }

  lemma {:induction false} MeanwhileWrites(s: State, arrivals: seq<Arrival>)
    ensures var t := Meanwhile(s, arrivals); t.created == s.created && t.errorDrops == s.errorDrops
    decreases |arrivals|
  {
    if arrivals != [] {
      MeanwhileWrites(Recorded(s, arrivals[0].w, arrivals[0].now), arrivals[1..]);
    }
  }

  lemma ConsumedSorts(s: State, arrivals: seq<Arrival>, accepts: Write -> bool)
    requires SortedBy(s, accepts) && s.queue != [] && (s.consumer.Waiting? || s.consumer.Draining?)
    ensures SortedBy(Consumed(s, arrivals, accepts(s.queue[0])), accepts)
  {
    MeanwhileWrites(Apply(s, Take), arrivals);
  }

  lemma {:induction false} DrainedSorts(s: State, during: seq<seq<Arrival>>, accepts: Write -> bool)
    requires SortedBy(s, accepts) && s.consumer.Draining?
    ensures SortedBy(Drained(s, during, accepts), accepts)
    decreases |during|, |s.queue|
  {
    if s.queue != [] {
      ConsumedSorts(s, Head(during), accepts);
      DrainOnce(s, during, accepts);
      DrainedSorts(Consumed(s, Head(during), accepts(s.queue[0])), Rest(during), accepts);
    }
  }

  lemma {:induction false} TurnedAllSorts(s: State, turns: seq<Turn>, accepts: Write -> bool)
    requires SortedBy(s, accepts) && s.consumer.Waiting?
    ensures SortedBy(TurnedAll(s, turns, accepts), accepts)
    decreases |turns|
  {
    if turns != [] {
      if turns[0].Receives? && s.queue != [] {
        ConsumedSorts(s, turns[0].during, accepts);
      }
      TurnedAllSorts(Turned(s, turns[0], accepts), turns[1..], accepts);
    }
  }

  /** Whatever the handlers do, a writer that starts anew ends with exactly the attempted writes the
      API server accepts created and the others counted as errors. */
  lemma StartedSorts(turns: seq<Turn>, during: seq<seq<Arrival>>, accepts: Write -> bool)
    ensures var t := Started(INITIAL, turns, during, accepts);
            && SortedBy(t, accepts) && multiset(t.attempted) == multiset(t.created) + multiset(t.errorDrops)
            && t.attempted == t.accepted
  {
    TurnedAllSorts(INITIAL, turns, accepts);
    DrainedSorts(Apply(Apply(TurnedAll(INITIAL, turns, accepts), Cancel), Notice), during, accepts);
    EveryRunKeeps([]);
    StartedKeeps(INITIAL, turns, during, accepts);
  }

  class ApiAudit {
    const budget: AuditBudget
    var queue: seq<Write>
    var created: seq<Write>
    var rateDropped: nat
    var queueDropped: nat
    var errorDropped: nat
    ghost var history: State

    function View(): Sink
      reads this, budget
    {
      Sink(budget.View(), queue, created, rateDropped, queueDropped, errorDropped)
    }

    /** The fields are what the history of the pipeline leads to. */
    ghost predicate Valid()
      reads this, budget
    {
      Project(history) == View()
    }

    constructor ()
      ensures Valid() && fresh(budget) && history == INITIAL
    {
      budget := new AuditBudget();
      queue, created, rateDropped, queueDropped, errorDropped := [], [], 0, 0, 0;
      history := INITIAL;
    }

    method Record(w: Write, now: int)
      requires Valid()
      modifies this, budget
      ensures Valid() && history == Recorded(old(history), w, now)
      ensures rateDropped == old(rateDropped) + if Recordable(w) && !HasRoom(old(budget.View()), now) then 1 else 0
      ensures var sends := Recordable(w) && HasRoom(old(budget.View()), now);
              && queueDropped == old(queueDropped) + (if sends && |old(queue)| >= 256 then 1 else 0)
              && queue == old(queue) + (if sends && |old(queue)| < 256 then [w] else [])
      ensures created == old(created) && errorDropped == old(errorDropped)
    {
      ghost var s := history;
      if w.target.None? || w.target.value.ns == "" ||
         (w.target.value.pipeline == "" && w.target.value.bundle == "" && w.target.value.environment == "") {
        return;
      }
      OfferSeen(s, w, now);
      history := Apply(s, Offer(w, now));
      var ok := budget.Allow(now);
      if !ok {
        rateDropped := rateDropped + 1;
        return;
      }
      Send(w);
    }

    /** The send that does not block. */
    method Send(w: Write)
      requires Valid() && w in history.held
      modifies this
      ensures Valid() && history == Apply(old(history), Step.Send(w))
      ensures queueDropped == old(queueDropped) + if |old(queue)| >= 256 then 1 else 0
      ensures queue == old(queue) + if |old(queue)| < 256 then [w] else []
      ensures created == old(created) && errorDropped == old(errorDropped) && rateDropped == old(rateDropped)
    {
      SendSeen(history, w);
      history := Apply(history, Step.Send(w));
      if |queue| < QUEUE_SIZE {
        queue := queue + [w];
      } else {
        queueDropped := queueDropped + 1;
      }
    }

    /** What handlers record in the meantime. */
    method RecordAll(arrivals: seq<Arrival>)
      requires Valid()
      modifies this, budget
      ensures Valid() && history == Meanwhile(old(history), arrivals)
      ensures created == old(created) && errorDropped == old(errorDropped)
    {
      for i := 0 to |arrivals|
        invariant Valid() && created == old(created) && errorDropped == old(errorDropped)
        invariant Meanwhile(history, arrivals[i..]) == Meanwhile(old(history), arrivals)
      {
        assert arrivals[i..][0] == arrivals[i] && arrivals[i..][1..] == arrivals[i + 1..];
        Record(arrivals[i].w, arrivals[i].now);
      }
    }

    /** Takes the next write from the queue and writes it to the API server. */
    method Consume(arrivals: seq<Arrival>, accepts: Write -> bool)
      requires Valid() && queue != [] && (history.consumer.Waiting? || history.consumer.Draining?)
      modifies this, budget
      ensures Valid() && history == Consumed(old(history), arrivals, accepts(old(queue[0])))
      ensures arrivals == [] ==> |queue| < |old(queue)|
      ensures created == old(created) + (if accepts(old(queue[0])) then [old(queue[0])] else [])
      ensures errorDropped == old(errorDropped) + if accepts(old(queue[0])) then 0 else 1
    {
      var w := queue[0];
      queue := queue[1..];
      history := Apply(history, Take);
      RecordAll(arrivals);
      Written(w, accepts(w));
    }

    /** What the API server's answer leads to. */
    method Written(w: Write, ok: bool)
      requires Valid() && InFlight(history) == [w]
      modifies this
      ensures Valid() && history == Apply(old(history), Finish(ok)) && queue == old(queue)
      ensures created == old(created) + if ok then [w] else []
      ensures errorDropped == old(errorDropped) + if ok then 0 else 1
    {
      history := Apply(history, Finish(ok));
      if ok {
        created := created + [w];
      } else {
        errorDropped := errorDropped + 1;
      }
    }

    /** The consumer's loop: it receives until it sees that the context ended, then drains. What
        the handlers do before and during each write, and when the context ends, is given. */
    method Start(turns: seq<Turn>, during: seq<seq<Arrival>>, accepts: Write -> bool)
      requires Valid() && history.consumer.Waiting?
      modifies this, budget
      ensures Valid() && history == Started(old(history), turns, during, accepts) && queue == []
    {
      for i := 0 to |turns|
        invariant Valid() && history.consumer.Waiting?
        invariant TurnedAll(history, turns[i..], accepts) == TurnedAll(old(history), turns, accepts)
      {
        assert turns[i..][0] == turns[i] && turns[i..][1..] == turns[i + 1..];
        match turns[i]
        case Arrives(w, now) => Record(w, now);
        case Ends => history := Apply(history, Cancel);
        case Receives(arrivals) =>
          if queue != [] {
            Consume(arrivals, accepts);
          }
      }
      history := Apply(Apply(history, Cancel), Notice);
      Drain(during, accepts);
    }

    /** What the consumer does once it has seen that the context ended. */
    method Drain(during: seq<seq<Arrival>>, accepts: Write -> bool)
      requires Valid() && history.consumer.Draining?
      modifies this, budget
      ensures Valid() && history == Drained(old(history), during, accepts) && queue == []
    {
      var left := during;
      while queue != []
        invariant Valid() && history.consumer.Draining?
        invariant Drained(history, left, accepts) == Drained(old(history), during, accepts)
        decreases |left|, |queue|
      {
        DrainOnce(history, left, accepts);
        Consume(Head(left), accepts);
        left := Rest(left);
      }
      history := Apply(history, Return);
    }
  }
}
