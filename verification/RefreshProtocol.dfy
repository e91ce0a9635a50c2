/**
 The refresh request: the webhook sets an annotation unless one is still unanswered, and the
 reconciler answers by copying the annotation it read when its poll began to the status. Polls
 and deliveries interleave.
 */
module RefreshProtocol {

  /** A request is outstanding while it is set and not the one last answered. */
  predicate Outstanding(annotation: string, last: string) {
    annotation != "" && annotation != last
  }

  datatype Poll = Idle | Polling(read: string, began: nat)

  /** `used` are the values seen so far; `writes` counts annotation writes and `answered` the polls
      that answered an outstanding request. */
  datatype State = State(annotation: string, last: string, poll: Poll, used: set<string>,
                         clock: nat, writtenAt: nat, writes: nat, answered: nat) {
    predicate Open() {
      Outstanding(annotation, last)
    }
  }

  datatype Step =
    | Deliver(stamp: string)  // an authenticated delivery, with the time it would write
    | Begin                   // a poll begins and reads the annotation
    | End(acks: bool)         // a poll ends; one that records nothing answers nothing

  function Start(annotation: string, last: string): State {
    State(annotation, last, Idle, {"", annotation, last}, 1, 0, 0, 0)
  }

  function Apply(s: State, step: Step): State {
    var s' := s.(clock := s.clock + 1);
    match step
    case Deliver(stamp) =>
      if s.Open() then s'
      else s'.(annotation := stamp, used := s.used + {stamp}, writtenAt := s.clock, writes := s.writes + 1)
    case Begin =>
      if s.poll.Idle? then s'.(poll := Polling(s.annotation, s.clock)) else s'
    case End(acks) =>
      if s.poll.Idle? then s'
      else if !acks then s'.(poll := Idle)
      else s'.(poll := Idle, last := s.poll.read,
               answered := s.answered + if s.Open() && s.poll.read == s.annotation then 1 else 0)
  }

  function After(init: State, steps: seq<Step>): State {
    if steps == [] then init else Apply(After(init, steps[..|steps| - 1]), steps[|steps| - 1])
  }

  /** The clock never gives the same time twice. */
  predicate FreshStep(s: State, step: Step) {
    step.Deliver? ==> step.stamp !in s.used
  }

  ghost predicate FreshRun(init: State, steps: seq<Step>) {
    forall i :: 0 <= i < |steps| ==> FreshStep(After(init, steps[..i]), steps[i])
  }

  ghost predicate Inv(s: State) {
    && {"", s.annotation, s.last} <= s.used
    && s.writtenAt < s.clock
    && (s.poll.Polling? ==>
          && s.poll.read in s.used && s.poll.began < s.clock
          && (!s.Open() ==> s.poll.read == s.annotation)
          && (s.Open() && s.poll.read == s.annotation ==> s.poll.began > s.writtenAt))
  }

  function One(b: bool): nat {
    if b then 1 else 0
  }

  lemma StepKeeps(s: State, step: Step)
    requires Inv(s) && FreshStep(s, step)
    ensures Inv(Apply(s, step))
    ensures var t := Apply(s, step); t.writes - s.writes + One(s.Open()) == t.answered - s.answered + One(t.Open())
  {
  }

  lemma FreshPrefix(init: State, steps: seq<Step>, n: nat)
    requires n <= |steps| && FreshRun(init, steps)
    ensures FreshRun(init, steps[..n])
  {
    forall i | 0 <= i < n
      ensures FreshStep(After(init, steps[..n][..i]), steps[..n][i])
    {
      assert steps[..n][..i] == steps[..i];
    }
  }

  /** On every run, each write is answered once or still outstanding, and nothing else is answered. */
  lemma {:induction false} WritesBalance(annotation: string, last: string, steps: seq<Step>)
    requires FreshRun(Start(annotation, last), steps)
    ensures var s := After(Start(annotation, last), steps);
            && Inv(s)
            && s.writes + One(Outstanding(annotation, last)) == s.answered + One(s.Open())
            && s.writes <= s.answered + 1
  {
    if steps != [] {
      var init, n := Start(annotation, last), |steps| - 1;
      FreshPrefix(init, steps, n);
      WritesBalance(annotation, last, steps[..n]);
      assert FreshStep(After(init, steps[..n]), steps[n]);
      StepKeeps(After(init, steps[..n]), steps[n]);
    }
  }

  /** After a delivery a request is outstanding exactly when one already was, or the time it wrote
      is a new value; the second always holds for a clock that never repeats. */
  lemma DeliveryLeavesOutstanding(s: State, stamp: string)
    ensures Apply(s, Deliver(stamp)).Open() <==> s.Open() || (stamp != "" && stamp != s.last)
    ensures Inv(s) && FreshStep(s, Deliver(stamp)) ==> Apply(s, Deliver(stamp)).Open()
  {
  }

  /** The other case is reachable: a time that was answered once before is written and leaves nothing
      outstanding, so that nobody answers it. */
  lemma RepeatedTimeIsLost(time: string)
    requires time != ""
    ensures var steps := [Deliver(time), Begin, End(true), Deliver(time)];
            var s := After(Start("", ""), steps);
            s.writes == 2 && s.answered == 1 && !s.Open()
  {
    var init, written := Start("", ""), [Deliver(time)];
    var read := written + [Begin];
    var done := read + [End(true)];
    OneMoreStep(init, [], Deliver(time));
    assert [] + written == written;
    OneMoreStep(init, written, Begin);
    OneMoreStep(init, read, End(true));
    OneMoreStep(init, done, Deliver(time));
    assert done + [Deliver(time)] == [Deliver(time), Begin, End(true), Deliver(time)];
  }

  lemma OneMoreStep(init: State, steps: seq<Step>, step: Step)
    ensures After(init, steps + [step]) == Apply(After(init, steps), step)
  {
    assert (steps + [step])[..|steps|] == steps;
  }

  /** No request is lost: it stays outstanding until a poll that began after it was written ends
      with an answer. */
  lemma AnsweredByLaterPoll(s: State, step: Step)
    requires Inv(s) && FreshStep(s, step) && s.Open()
    ensures !Apply(s, step).Open() <==> step == End(true) && s.poll.Polling? && s.poll.read == s.annotation
    ensures !Apply(s, step).Open() ==> s.poll.began > s.writtenAt
    ensures Apply(s, step).annotation == s.annotation
  {
  }

  /** While a request is outstanding, any number of deliveries write nothing. */
  lemma {:induction false} DeliveriesCoalesce(s: State, stamps: seq<string>)
    requires s.Open()
    ensures var t := After(s, Deliveries(stamps)); t == s.(clock := s.clock + |stamps|)
  {
    if stamps != [] {
      var n := |stamps| - 1;
      DeliveriesCoalesce(s, stamps[..n]);
      assert Deliveries(stamps)[..n] == Deliveries(stamps[..n]);
    }
  }

  function Deliveries(stamps: seq<string>): (steps: seq<Step>)
    ensures |steps| == |stamps|
  {
    seq(|stamps|, i requires 0 <= i < |stamps| => Deliver(stamps[i]))
  }
}
