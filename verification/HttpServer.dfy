/**
 One HTTP listener: a goroutine serves and sends its error on a channel with one slot; the
 caller waits for that or for the context to end, and then shuts the server down. The two
 interleave.
 */
module HttpServer {
  import opened GoStrings

  /** What Serve may return. */
  datatype ServeError = NoError | ServerClosed | Other(text: string)

  datatype Goroutine = Serving | Sending(e: ServeError) | Finished

  datatype Outcome = Clean | ServeFailed(e: ServeError) | ShutdownFailed(text: string)
  datatype Caller = Selecting | ShuttingDown | Awaiting | Returned(outcome: Outcome)

  /** `served` and `shutdown` are what Serve and Shutdown returned, once they have; Some("") is a
      shutdown without an error. */
  datatype State = State(channel: seq<ServeError>, goroutine: Goroutine, caller: Caller, cancelled: bool,
                         served: Option<ServeError>, shutdown: Option<string>, sends: nat, receives: nat)

  datatype Step =
    | ServeReturns(e: ServeError)
    | Send
    | Cancel
    | ReceiveFirst            // select picks the channel
    | SeeCancelled            // select picks the context
    | ShutdownReturns(text: string)
    | ReceiveLast

  const CAPACITY: nat := 1
  const INITIAL := State([], Serving, Selecting, false, None, None, 0, 0)

  predicate Enabled(s: State, step: Step) {
    match step
    case ServeReturns(_) => s.goroutine.Serving?
    case Send => s.goroutine.Sending? && |s.channel| < CAPACITY
    case Cancel => true
    case ReceiveFirst => s.caller.Selecting? && s.channel != []
    case SeeCancelled => s.caller.Selecting? && s.cancelled
    case ShutdownReturns(_) => s.caller.ShuttingDown?
    case ReceiveLast => s.caller.Awaiting? && s.channel != []
  }

  function Apply(s: State, step: Step): State
    requires Enabled(s, step)
  {
    match step
    case ServeReturns(e) => s.(goroutine := Sending(e), served := Some(e))
    case Send => s.(goroutine := Finished, channel := s.channel + [s.goroutine.e], sends := s.sends + 1)
    case Cancel => s.(cancelled := true)
    case ReceiveFirst =>
      s.(channel := s.channel[1..], caller := Returned(ServeFailed(s.channel[0])), receives := s.receives + 1)
    case SeeCancelled => s.(caller := ShuttingDown)
    case ShutdownReturns(text) =>
      s.(shutdown := Some(text), caller := if text != "" then Returned(ShutdownFailed(text)) else Awaiting)
    case ReceiveLast =>
      var e := s.channel[0];
      s.(channel := s.channel[1..], receives := s.receives + 1,
         caller := Returned(if e.NoError? || e.ServerClosed? then Clean else ServeFailed(e)))
  }

  /** The state after a run; a step that is not enabled when its turn comes does not happen. */
  function After(steps: seq<Step>): State {
    if steps == [] then INITIAL
    else
      var s, step := After(steps[..|steps| - 1]), steps[|steps| - 1];
      if Enabled(s, step) then Apply(s, step) else s
  }

  ghost predicate Inv(s: State) {
    && |s.channel| + s.receives == s.sends && s.sends <= 1
    && (s.goroutine.Finished? <==> s.sends == 1)
    && (s.goroutine.Serving? <==> s.served == None)
    && (s.goroutine.Sending? ==> s.served == Some(s.goroutine.e))
    && (s.channel != [] ==> s.served == Some(s.channel[0]))
    && (s.caller.Selecting? || s.caller.ShuttingDown? ==> s.receives == 0 && s.shutdown == None)
    && (s.caller.ShuttingDown? || s.caller.Awaiting? || s.shutdown.Some? ==> s.cancelled)
    && (s.caller.Awaiting? ==> s.receives == 0 && s.shutdown == Some(""))
    && (s.caller.Returned? ==>
          match s.caller.outcome
          case Clean => s.shutdown == Some("") && s.receives == 1 && s.served in {Some(NoError), Some(ServerClosed)}
          case ServeFailed(e) =>
            && s.receives == 1 && s.served == Some(e)
            && (s.shutdown == None || (s.shutdown == Some("") && e.Other?))
          case ShutdownFailed(text) => s.shutdown == Some(text) && text != "" && s.receives == 0)
  }

  lemma StepKeeps(s: State, step: Step)
    requires Inv(s) && Enabled(s, step)
    ensures Inv(Apply(s, step))
  {
  }

  lemma {:induction false} EveryRunKeeps(steps: seq<Step>)
    ensures Inv(After(steps))
  {
    if steps != [] {
      var s, step := After(steps[..|steps| - 1]), steps[|steps| - 1];
      EveryRunKeeps(steps[..|steps| - 1]);
      if Enabled(s, step) {
        StepKeeps(s, step);
      }
    }
  }

  /** The goroutine's send never blocks, whatever the caller has done by then: it cannot leak. */
  lemma SendNeverBlocks(steps: seq<Step>)
    ensures After(steps).goroutine.Sending? ==> Enabled(After(steps), Send)
  {
    EveryRunKeeps(steps);
  }

  /** The caller never waits for a result that was already taken: the goroutine still has it, or it
      is in the channel. */
  lemma NeverWaitsInVain(steps: seq<Step>)
    ensures var s := After(steps); s.caller.Awaiting? ==> s.channel != [] || !s.goroutine.Finished?
  {
    EveryRunKeeps(steps);
  }

  /** The caller returns without an error exactly when the context ended, the shutdown succeeded and
      the server ended with nothing but its closing; no other serve error is swallowed. */
  lemma CleanExactly(steps: seq<Step>)
    ensures var s := After(steps);
            s.caller.Returned? ==>
              && (s.caller.outcome.Clean? <==>
                    s.cancelled && s.shutdown == Some("") && s.served.Some? && !s.served.value.Other?)
              && (s.receives == 1 && s.served.Some? && s.served.value.Other? ==>
                    s.caller.outcome == ServeFailed(s.served.value))
              && (s.shutdown == None ==> s.served.Some? && s.caller.outcome == ServeFailed(s.served.value))
  {
    EveryRunKeeps(steps);
  }
}
