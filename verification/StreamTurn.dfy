/**
 * The hook bridge and the loop that drives one turn: hooks arrive at the loop's await points,
 * their events wait in a queue, and the loop writes them out, watches for failures and decides
 * when the turn has an answer.
 */
module StreamTurn {
  import opened Prelude
  import opened HookHistory
  import opened HookTurn

  const CONFIRMATION_TIMEOUT := 30.0
  const TURN_TIMEOUT := 7200.0
  const PROBE_INTERVAL := 0.5

  /** What one client connection brings. */
  datatype Arrival =
    | EmptyRequest
    | MalformedRequest    // not JSON, or not a JSON object
    | WrongToken
    | BadPayload          // no payload object, or no hook_event_name in it
    | HookRequest(hook: Hook)
    | BrokenReply         // the reply of an earlier request could not be written

  lemma {:induction false} QueueStaysComplete(expected: Expected, taken: seq<TurnEvent>, events: seq<TurnEvent>,
                                              history: seq<Hook>, h: Hook)
    requires taken + events == AllEvents(expected, history)
    ensures taken + (events + EventsOf(expected, h)) == AllEvents(expected, history + [h])
  {
    AllEventsSnoc(expected, history, h);
    Assoc(taken, events, EventsOf(expected, h));
  }

  /** The accepted history after some connections: each hook joins it exactly when it is accepted. */
  ghost function After(turn: HookTurnState, history: seq<Hook>, arrivals: seq<Arrival>): seq<Hook> {
    if arrivals == [] then history
    else Joined(turn, After(turn, history, arrivals[..|arrivals| - 1]), arrivals[|arrivals| - 1])
  }

  ghost function Joined(turn: HookTurnState, history: seq<Hook>, a: Arrival): seq<Hook> {
    if a.HookRequest? && Accepts(turn.expected, turn.canonical, history, a.hook) then history + [a.hook] else history
  }

  lemma {:induction false} AfterAppend(turn: HookTurnState, history: seq<Hook>, a: seq<Arrival>, b: seq<Arrival>)
    ensures After(turn, history, a + b) == After(turn, After(turn, history, a), b)
    ensures AnyFails(turn, history, a + b) <==> AnyFails(turn, history, a) || AnyFails(turn, After(turn, history, a), b)
    decreases |b|
  {
    if b == [] {
      assert a + b == a;
    } else {
      assert (a + b)[..|a + b| - 1] == a + b[..|b| - 1];
      AfterAppend(turn, history, a, b[..|b| - 1]);
    }
  }

  /** A connection that leaves a failure: no acceptable hook, or one that reports a failed Stop. */
  ghost predicate Fails(turn: HookTurnState, history: seq<Hook>, a: Arrival) {
    !a.HookRequest? || !Accepts(turn.expected, turn.canonical, history, a.hook) || a.hook.kind.StopFailure?
  }

  ghost predicate AnyFails(turn: HookTurnState, history: seq<Hook>, arrivals: seq<Arrival>) {
    arrivals != []
    && (AnyFails(turn, history, arrivals[..|arrivals| - 1])
        || Fails(turn, After(turn, history, arrivals[..|arrivals| - 1]), arrivals[|arrivals| - 1]))
  }

  class HookBridge {
    const state: HookTurnState
    var events: seq<TurnEvent>
    var failure: Option<Failure>
    ghost var taken: seq<TurnEvent>  // what has been read off the queue, in order

    /**
     * A failure is recorded here exactly when the turn has one, and nothing the accepted hooks
     * stand for is lost, repeated or reordered between the state and the reader.
     */
    ghost predicate Valid()
      reads this, state
    {
      && state.Valid()
      && (failure.Some? <==> state.failure.Some?)
      && taken + events == AllEvents(state.expected, state.accepted)
    }

    /** The turn accepts the hook. */
    ghost predicate Takes(h: Hook)
      reads state
    {
      Accepts(state.expected, state.canonical, state.accepted, h)
    }

    constructor (turn: HookTurnState)
      requires turn.Valid() && turn.failure.None? && turn.accepted == []
      ensures Valid() && state == turn && taken == [] && failure.None?
    {
      state := turn;
      events := [];
      failure := None;
      taken := [];
    }

    /** _record_failure: the first failure is kept. */
    method RecordFailure(f: Failure)
      requires state.Valid()
      modifies this`failure, state`failure
      ensures state.Valid()
      ensures failure == if old(failure).Some? then old(failure) else Some(f)
      ensures state.failure == if old(failure).Some? then old(state.failure) else Some(f)
    {
      if failure.None? {
        failure := Some(f);
        state.failure := Some(f);
      }
    }

    /** An accepted hook's events are queued, and a failure it reports is recorded. */
    method ServeHook(h: Hook)
      requires Valid()
      modifies this`events, this`failure, state
      ensures Valid()
      ensures old(state.acknowledged) ==> state.acknowledged
      ensures old(failure).Some? ==> failure == old(failure)
      ensures state.accepted == if old(Takes(h)) then old(state.accepted) + [h] else old(state.accepted)
      ensures failure.Some? <==> old(failure).Some? || old(!Takes(h)) || h.kind.StopFailure?
    {
      ghost var before := state.accepted;
      FieldsDecide(state, h);
      var r := state.Handle(h);
      match r
      case Err(reason) =>
        RecordFailure(Rejected(reason));
      case Ok(produced) =>
        QueueStaysComplete(state.expected, taken, events, before, h);
        Enqueue(produced);
    }

    method Enqueue(produced: seq<TurnEvent>)
      requires state.Valid() && taken + (events + produced) == AllEvents(state.expected, state.accepted)
      requires failure.Some? ==> state.failure.Some?
      modifies this`events, this`failure, state`failure
      ensures Valid()
      ensures failure.Some? <==> state.failure.Some?
      ensures old(state.failure).Some? <==> state.failure.Some?
      ensures old(failure).Some? ==> failure == old(failure)
    {
      events := events + produced;
      if state.failure.Some? {
        RecordFailure(state.failure.value);
      }
    }

    /** The await-free body of _serve_client. */
    method Serve(a: Arrival)
      requires Valid()
      modifies this`events, this`failure, state
      ensures Valid()
      ensures old(state.acknowledged) ==> state.acknowledged
      ensures old(failure).Some? ==> failure == old(failure)
      ensures state.accepted == Joined(state, old(state.accepted), a)
      ensures failure.Some? <==> old(failure).Some? || Fails(state, old(state.accepted), a)
    {
      match a
      case HookRequest(h) => ServeHook(h);
      case _ => RecordFailure(Transport);
    }

    /** Whatever connections are served while the loop awaits. */
    method ServeAll(arrivals: seq<Arrival>)
      requires Valid()
      modifies this`events, this`failure, state
      ensures Valid()
      ensures old(state.acknowledged) ==> state.acknowledged
      ensures old(failure).Some? ==> failure == old(failure)
      ensures state.accepted == After(state, old(state.accepted), arrivals)
      ensures failure.Some? <==> old(failure).Some? || AnyFails(state, old(state.accepted), arrivals)
    {
      assert arrivals[..0] == [];
      for i := 0 to |arrivals|
        invariant Valid()
        invariant state.accepted == After(state, old(state.accepted), arrivals[..i])
        invariant failure.Some? <==> old(failure).Some? || AnyFails(state, old(state.accepted), arrivals[..i])
        invariant old(state.acknowledged) ==> state.acknowledged
        invariant old(failure).Some? ==> failure == old(failure)
      {
        assert arrivals[..i + 1][..i] == arrivals[..i];
        Serve(arrivals[i]);
      }
      assert arrivals[..|arrivals|] == arrivals;
    }

    /** events.get_nowait */
    method Take() returns (event: TurnEvent)
      requires Valid() && events != []
      modifies this`events, this`taken
      ensures Valid() && [event] + events == old(events) && taken == old(taken) + [event]
    {
      event := events[0];
      TakeFirst(taken, events);
      taken := taken + [event];
      events := events[1..];
    }
  }

  lemma {:induction false} TakeFirst<T>(taken: seq<T>, waiting: seq<T>)
    requires waiting != []
    ensures (taken + [waiting[0]]) + waiting[1..] == taken + waiting
  {
  }

  // ---------------------------------------------------------------------------
  // The turn loop
  // ---------------------------------------------------------------------------

  datatype Line = EventLine(event: TurnEvent) | ResultLine(text: string)

  function EventLines(events: seq<TurnEvent>): seq<Line> {
    seq(|events|, i requires 0 <= i < |events| => EventLine(events[i]))
  }

  datatype Probe = Alive | Dead | Unreadable

  /**
   * One round of the loop: what it reads from the world, who connects at its two awaits, and
   * whether terminating the foreground process would succeed in it.
   */
  datatype Tick = Tick(stopRequested: bool, now: real, probe: Probe, duringProbe: seq<Arrival>,
                       duringWait: seq<Arrival>, timedOut: bool, terminates: bool)

  datatype Cause = ByFailure(failure: Failure) | NotConfirmed | ExitedEarly

  datatype Outcome =
    | Running
    | Completed(message: string)
    | Cancelled
    | UnknownDelivery(cause: Cause)
    | Failed(failure: Failure)
    | TurnTimedOut
    | ProcessExited
    | ProbeFailed
    | Unterminated(meant: Outcome)  // the branch's own termination raised before its error could

  /** The endings whose branch terminates the foreground process itself. */
  predicate EndsInBranch(outcome: Outcome) {
    outcome.Cancelled? || outcome.Failed? || outcome.TurnTimedOut?
    || (outcome.UnknownDelivery? && !outcome.cause.ExitedEarly?)
  }

  function Meant(outcome: Outcome): Outcome {
    if outcome.Unterminated? then outcome.meant else outcome
  }

  /** What an outcome says about the bridge it was decided on. */
  ghost predicate OutcomeOk(bridge: HookBridge, outcome: Outcome)
    reads bridge, bridge.state
  {
    (outcome.Unterminated? ==> EndsInBranch(outcome.meant)) && MeaningOk(bridge, Meant(outcome))
  }

  ghost predicate MeaningOk(bridge: HookBridge, outcome: Outcome)
    reads bridge, bridge.state
  {
    match outcome
    case Completed(message) =>
      && bridge.events == [] && bridge.failure.None?
      && bridge.taken == AllEvents(bridge.state.expected, bridge.state.accepted)
      && bridge.state.acknowledged && bridge.state.idleSeen && bridge.state.stopCandidate == Some(message)
    case UnknownDelivery(cause) =>
      !bridge.state.acknowledged && (cause.ByFailure? ==> bridge.failure == Some(cause.failure))
    case Failed(f) => bridge.state.acknowledged && bridge.failure == Some(f)
    case TurnTimedOut => bridge.state.acknowledged
    case ProcessExited => bridge.state.acknowledged
    case _ => true
  }

  method Drain(bridge: HookBridge, written: seq<Line>) returns (stdout: seq<Line>)
    requires bridge.Valid() && written == EventLines(bridge.taken)
    modifies bridge`events, bridge`taken
    ensures bridge.Valid() && bridge.events == [] && stdout == EventLines(bridge.taken)
    ensures bridge.taken == AllEvents(bridge.state.expected, bridge.state.accepted)
  {
    stdout := written;
    while bridge.events != []
      invariant bridge.Valid() && stdout == EventLines(bridge.taken)
      decreases |bridge.events|
    {
      var event := bridge.Take();
      stdout := stdout + [EventLine(event)];
    }
    assert bridge.taken + [] == bridge.taken;
  }

  /** Prompt, Stop and idle are there. */
  predicate Answered(t: Turn) {
    t.prompted && t.stopMessage.Some? && t.idle
  }

  /** What the checks before the probe decide, from what the accepted hooks amount to. */
  predicate Decides(t: Turn, failed: bool, start: real, now: real, outcome: Outcome) {
    if failed && t.prompted then outcome.Failed?
    else if failed then outcome.UnknownDelivery? && outcome.cause.ByFailure?
    else if Answered(t) then outcome == Completed(t.stopMessage.value)
    else if !t.prompted && now >= start + CONFIRMATION_TIMEOUT then outcome == UnknownDelivery(NotConfirmed)
    else if now >= start + TURN_TIMEOUT then outcome == TurnTimedOut
    else outcome == Running
  }

  /**
   * The deadlines: 30 seconds for the acknowledgement, two hours for the turn, both from its start,
   * and each passed from the very moment on; a failure and an answer come before them.
   */
  lemma {:induction false} DeadlinesAre(t: Turn, start: real, now: real, outcome: Outcome)
    requires Decides(t, false, start, now, outcome) && !(t.prompted && t.stopMessage.Some? && t.idle)
    ensures outcome == UnknownDelivery(NotConfirmed) <==> !t.prompted && now - start >= 30.0
    ensures outcome == TurnTimedOut <==> t.prompted && now - start >= 7200.0
    ensures outcome == Running <==> now - start < if t.prompted then 7200.0 else 30.0
  {
  }

  /** The checks before the probe: a failure, an answer, a deadline. */
  method Decide(bridge: HookBridge, start: real, now: real) returns (outcome: Outcome)
    requires bridge.Valid() && bridge.events == []
    ensures OutcomeOk(bridge, outcome)
    ensures Decides(TurnOf(bridge.state.accepted), bridge.failure.Some?, start, now, outcome)
  {
    var state := bridge.state;
    if bridge.failure.Some? {
      return if !state.acknowledged then UnknownDelivery(ByFailure(bridge.failure.value)) else Failed(bridge.failure.value);
    }
    if state.acknowledged && state.stopSeen && state.idleSeen {
      return Completed(if state.stopCandidate.Some? then state.stopCandidate.value else "");
    }
    if !state.acknowledged && now >= start + CONFIRMATION_TIMEOUT {
      return UnknownDelivery(NotConfirmed);
    }
    if now >= start + TURN_TIMEOUT {
      return TurnTimedOut;
    }
    return Running;
  }

  /** The bridge is where these connections take it from this history. */
  ghost predicate Serves(bridge: HookBridge, history: seq<Hook>, failed: bool, arrivals: seq<Arrival>)
    reads bridge, bridge.state
  {
    && bridge.state.accepted == After(bridge.state, history, arrivals)
    && (bridge.failure.Some? <==> failed || AnyFails(bridge.state, history, arrivals))
  }

  function ProbeOutcome(probe: Probe, prompted: bool): Outcome {
    match probe
    case Alive => Running
    case Dead => if prompted then ProcessExited else UnknownDelivery(ExitedEarly)
    case Unreadable => ProbeFailed
  }

  method ProbeProcess(bridge: HookBridge, probe: Probe, arrivals: seq<Arrival>) returns (outcome: Outcome)
    requires bridge.Valid()
    modifies bridge`events, bridge`failure, bridge.state
    ensures bridge.Valid() && OutcomeOk(bridge, outcome)
    ensures outcome.Running? <==> probe.Alive?
    ensures Serves(bridge, old(bridge.state.accepted), old(bridge.failure).Some?, arrivals)
    ensures old(bridge.state.acknowledged) ==> bridge.state.acknowledged
    ensures outcome == ProbeOutcome(probe, TurnOf(bridge.state.accepted).prompted)
  {
    bridge.ServeAll(arrivals);
    match probe
    case Unreadable => outcome := ProbeFailed;
    case Dead => outcome := if !bridge.state.acknowledged then UnknownDelivery(ExitedEarly) else ProcessExited;
    case Alive => outcome := Running;
  }

  /** What is on stdout: the events read off the queue and, after a completed turn, its result. */
  function Written(taken: seq<TurnEvent>, outcome: Outcome): seq<Line> {
    if outcome.Completed? then EventLines(taken) + [ResultLine(outcome.message)] else EventLines(taken)
  }

  /** The outcomes that end the turn with an exception. */
  predicate Raises(outcome: Outcome) {
    !outcome.Running? && !outcome.Completed?
  }

  /** The await-for of one event: it is written unless the wait timed out first. */
  method WaitForEvent(bridge: HookBridge, arrivals: seq<Arrival>, timedOut: bool, written: seq<Line>)
      returns (stdout: seq<Line>)
    requires bridge.Valid() && written == EventLines(bridge.taken)
    modifies bridge`events, bridge`taken, bridge`failure, bridge.state
    ensures bridge.Valid() && stdout == EventLines(bridge.taken)
    ensures old(bridge.state.acknowledged) ==> bridge.state.acknowledged
    ensures Serves(bridge, old(bridge.state.accepted), old(bridge.failure).Some?, arrivals)
    ensures old(bridge.taken) <= bridge.taken
    ensures timedOut ==> stdout == written
    ensures stdout == written || AddsOne(written, stdout)
  {
    bridge.ServeAll(arrivals);
    stdout := TakeOne(bridge, timedOut, written);
  }

  method TakeOne(bridge: HookBridge, timedOut: bool, written: seq<Line>) returns (stdout: seq<Line>)
    requires bridge.Valid() && written == EventLines(bridge.taken)
    modifies bridge`events, bridge`taken
    ensures bridge.Valid() && stdout == EventLines(bridge.taken) && old(bridge.taken) <= bridge.taken
    ensures if timedOut || old(bridge.events) == [] then stdout == written else AddsOne(written, stdout)
  {
    stdout := written;
    if !timedOut && bridge.events != [] {
      var event := bridge.Take();
      stdout := stdout + [EventLine(event)];
    }
  }

  predicate AddsOne(written: seq<Line>, stdout: seq<Line>) {
    |stdout| == |written| + 1 && written <= stdout
  }

  /** A branch that ends the turn terminates the foreground process first, and raises its own error if that works. */
  method EndBranch(meant: Outcome, terminates: bool) returns (outcome: Outcome, terminated: bool)
    requires EndsInBranch(meant)
    ensures outcome == (if terminates then meant else Unterminated(meant)) && (terminated <==> terminates)
  {
    terminated := false;
    if !terminates {
      return Unterminated(meant), terminated;
    }
    terminated := true;
    return meant, terminated;
  }

  /** Whether a round's branch has terminated the process, and how often it tried. */
  predicate Tried(outcome: Outcome, terminated: bool, attempts: nat) {
    (terminated <==> EndsInBranch(outcome)) && attempts == if EndsInBranch(Meant(outcome)) then 1 else 0
  }

  predicate Due(lastProbe: real, t: Tick) {
    t.now - lastProbe >= PROBE_INTERVAL
  }

  /** The process is probed half a second after the last probe, or later. */
  lemma {:induction false} ProbesAre(lastProbe: real, t: Tick)
    ensures Due(lastProbe, t) <==> t.now >= lastProbe + 0.5
  {
  }

  /** What a round that starts with this history comes to, its failed terminations aside. */
  ghost predicate RoundIs(turn: HookTurnState, history: seq<Hook>, failed: bool, start: real, lastProbe: real, t: Tick,
                          meant: Outcome)
  {
    if t.stopRequested then meant == Cancelled
    else if !Decides(TurnOf(history), failed, start, t.now, Running) then Decides(TurnOf(history), failed, start, t.now, meant)
    else meant == AwaitOutcome(turn, history, lastProbe, t)
  }

  /** What the awaits of a round come to: a probe, if one is due, meets the hooks served during it. */
  ghost function AwaitOutcome(turn: HookTurnState, history: seq<Hook>, lastProbe: real, t: Tick): Outcome {
    if Due(lastProbe, t) then ProbeOutcome(t.probe, TurnOf(After(turn, history, t.duringProbe)).prompted) else Running
  }

  /** The connections served in a round: those of the awaits it reached. */
  function ServedIn(lastProbe: real, t: Tick, meant: Outcome): seq<Arrival> {
    if meant.Running? then (if Due(lastProbe, t) then t.duringProbe else []) + t.duringWait
    else if meant.ProcessExited? || meant.ProbeFailed? || meant == UnknownDelivery(ExitedEarly) then t.duringProbe
    else []
  }

  /** A branch's own termination worked, unless the outcome says that it raised. */
  predicate EndsAsTerminated(t: Tick, outcome: Outcome) {
    && (outcome.Unterminated? ==> EndsInBranch(outcome.meant) && !t.terminates)
    && (EndsInBranch(outcome) ==> t.terminates)
  }

  function NextProbe(lastProbe: real, t: Tick): real {
    if Due(lastProbe, t) then t.now else lastProbe
  }

  /** When the process was last probed, n rounds into a turn still running. */
  function LastProbe(start: real, ticks: seq<Tick>, n: nat): real
    requires n <= |ticks|
  {
    if n == 0 then start else NextProbe(LastProbe(start, ticks, n - 1), ticks[n - 1])
  }

  /** A round from this history comes to the outcome, serves what it should and has written what was accepted before it. */
  ghost predicate RoundDone(bridge: HookBridge, history: seq<Hook>, failed: bool, start: real, lastProbe: real, t: Tick,
                            outcome: Outcome)
    reads bridge, bridge.state
  {
    && RoundIs(bridge.state, history, failed, start, lastProbe, t, Meant(outcome))
    && Serves(bridge, history, failed, ServedIn(lastProbe, t, Meant(outcome)))
    && (!t.stopRequested ==> AllEvents(bridge.state.expected, history) <= bridge.taken)
  }

  /** One round of the loop; attempts counts the terminations its branch tried. */
  method Round(bridge: HookBridge, start: real, lastProbe: real, t: Tick, written: seq<Line>)
      returns (stdout: seq<Line>, outcome: Outcome, probed: real, terminated: bool, attempts: nat)
    requires bridge.Valid() && written == EventLines(bridge.taken)
    modifies bridge`events, bridge`taken, bridge`failure, bridge.state
    ensures bridge.Valid() && OutcomeOk(bridge, outcome)
    ensures stdout == Written(bridge.taken, outcome)
    ensures RoundDone(bridge, old(bridge.state.accepted), old(bridge.failure).Some?, start, lastProbe, t, outcome)
    ensures outcome.Running? ==> probed == NextProbe(lastProbe, t)
    ensures Tried(outcome, terminated, attempts) && EndsAsTerminated(t, outcome)
  {
    if t.stopRequested {
      probed, stdout, attempts := lastProbe, written, 1;
      outcome, terminated := EndBranch(Cancelled, t.terminates);
    } else {
      stdout, outcome, probed, terminated, attempts := OpenRound(bridge, start, lastProbe, t, written);
    }
  }

  /** A round that was not asked to stop. */
  method OpenRound(bridge: HookBridge, start: real, lastProbe: real, t: Tick, written: seq<Line>)
      returns (stdout: seq<Line>, outcome: Outcome, probed: real, terminated: bool, attempts: nat)
    requires bridge.Valid() && written == EventLines(bridge.taken) && !t.stopRequested
    modifies bridge`events, bridge`taken, bridge`failure, bridge.state
    ensures bridge.Valid() && OutcomeOk(bridge, outcome)
    ensures stdout == Written(bridge.taken, outcome)
    ensures RoundDone(bridge, old(bridge.state.accepted), old(bridge.failure).Some?, start, lastProbe, t, outcome)
    ensures outcome.Running? ==> probed == NextProbe(lastProbe, t)
    ensures Tried(outcome, terminated, attempts) && EndsAsTerminated(t, outcome)
  {
    probed := lastProbe;
    stdout, outcome, terminated, attempts := DrainAndDecide(bridge, start, t, written);
    if outcome.Running? {
      ghost var history, failed := bridge.state.accepted, bridge.failure.Some?;
      stdout, outcome, probed := ProbeAndWait(bridge, lastProbe, t, stdout);
      ProbedRound(bridge, history, failed, start, lastProbe, t, outcome);
    } else {
      DecidedRound(bridge, start, lastProbe, t, outcome);
    }
  }

  lemma {:induction false} ProbedRound(bridge: HookBridge, history: seq<Hook>, failed: bool, start: real, lastProbe: real, t: Tick,
                                       outcome: Outcome)
    requires !t.stopRequested && Decides(TurnOf(history), failed, start, t.now, Running)
    requires outcome == AwaitOutcome(bridge.state, history, lastProbe, t)
    requires Serves(bridge, history, failed, ServedIn(lastProbe, t, outcome))
    requires AllEvents(bridge.state.expected, history) <= bridge.taken
    ensures RoundDone(bridge, history, failed, start, lastProbe, t, outcome)
    ensures Tried(outcome, false, 0) && EndsAsTerminated(t, outcome) && !outcome.Completed?
  {
  }

  lemma {:induction false} DecidedRound(bridge: HookBridge, start: real, lastProbe: real, t: Tick, outcome: Outcome)
    requires !t.stopRequested && !Meant(outcome).Running?
    requires Decides(TurnOf(bridge.state.accepted), bridge.failure.Some?, start, t.now, Meant(outcome))
    requires bridge.taken == AllEvents(bridge.state.expected, bridge.state.accepted)
    ensures RoundDone(bridge, bridge.state.accepted, bridge.failure.Some?, start, lastProbe, t, outcome)
  {
  }

  /** The await-free part of a round: write what is queued, and end the turn if it is decided. */
  method DrainAndDecide(bridge: HookBridge, start: real, t: Tick, written: seq<Line>)
      returns (stdout: seq<Line>, outcome: Outcome, terminated: bool, attempts: nat)
    requires bridge.Valid() && written == EventLines(bridge.taken)
    modifies bridge`events, bridge`taken
    ensures bridge.Valid() && OutcomeOk(bridge, outcome)
    ensures stdout == Written(bridge.taken, outcome) && bridge.taken == AllEvents(bridge.state.expected, bridge.state.accepted)
    ensures Decides(TurnOf(bridge.state.accepted), bridge.failure.Some?, start, t.now, Meant(outcome))
    ensures Tried(outcome, terminated, attempts) && EndsAsTerminated(t, outcome)
  {
    terminated, attempts := false, 0;
    stdout := Drain(bridge, written);
    outcome := Decide(bridge, start, t.now);
    if outcome.Completed? {
      stdout := stdout + [ResultLine(outcome.message)];
    } else if !outcome.Running? {
      attempts := 1;
      outcome, terminated := EndBranch(outcome, t.terminates);
    }
  }

  /** The awaits of a round: the probe, when one is due, and the wait for an event. */
  method ProbeAndWait(bridge: HookBridge, lastProbe: real, t: Tick, written: seq<Line>)
      returns (stdout: seq<Line>, outcome: Outcome, probed: real)
    requires bridge.Valid() && written == EventLines(bridge.taken)
    modifies bridge`events, bridge`taken, bridge`failure, bridge.state
    ensures bridge.Valid() && OutcomeOk(bridge, outcome)
    ensures stdout == EventLines(bridge.taken) && old(bridge.taken) <= bridge.taken
    ensures probed == NextProbe(lastProbe, t)
    ensures outcome == AwaitOutcome(bridge.state, old(bridge.state.accepted), lastProbe, t)
    ensures Serves(bridge, old(bridge.state.accepted), old(bridge.failure).Some?, ServedIn(lastProbe, t, outcome))
  {
    if Due(lastProbe, t) {
      probed := t.now;
      stdout, outcome := ProbeThenWait(bridge, t, written);
      ServedByProbe(lastProbe, t, bridge.state.acknowledged);
    } else {
      probed, outcome := lastProbe, Running;
      ServedByWait(lastProbe, t);
      stdout := WaitForEvent(bridge, t.duringWait, t.timedOut, written);
    }
  }

  lemma {:induction false} ServedByWait(lastProbe: real, t: Tick)
    requires !Due(lastProbe, t)
    ensures ServedIn(lastProbe, t, Running) == t.duringWait && NextProbe(lastProbe, t) == lastProbe
  {
  }

  lemma {:induction false} ServedByProbe(lastProbe: real, t: Tick, prompted: bool)
    requires Due(lastProbe, t)
    ensures ServedIn(lastProbe, t, Running) == t.duringProbe + t.duringWait && NextProbe(lastProbe, t) == t.now
    ensures forall outcome :: ((outcome == ProbeOutcome(t.probe, prompted) || outcome == ProbeOutcome(t.probe, !prompted))
                               && !outcome.Running?) ==> ServedIn(lastProbe, t, outcome) == t.duringProbe
  {
  }

  /** A probe is due, and the wait follows if the process is alive. */
  method ProbeThenWait(bridge: HookBridge, t: Tick, written: seq<Line>) returns (stdout: seq<Line>, outcome: Outcome)
    requires bridge.Valid() && written == EventLines(bridge.taken)
    modifies bridge`events, bridge`taken, bridge`failure, bridge.state
    ensures bridge.Valid() && OutcomeOk(bridge, outcome)
    ensures stdout == EventLines(bridge.taken) && old(bridge.taken) <= bridge.taken
    ensures outcome == ProbeOutcome(t.probe, TurnOf(After(bridge.state, old(bridge.state.accepted), t.duringProbe)).prompted)
    ensures Serves(bridge, old(bridge.state.accepted), old(bridge.failure).Some?,
                   if outcome.Running? then t.duringProbe + t.duringWait else t.duringProbe)
  {
    stdout := written;
    AfterAppend(bridge.state, bridge.state.accepted, t.duringProbe, t.duringWait);
    outcome := ProbeProcess(bridge, t.probe, t.duringProbe);
    if outcome.Running? {
      stdout := WaitForEvent(bridge, t.duringWait, t.timedOut, stdout);
    }
  }

  // ---------------------------------------------------------------------------
  // Whole turns
  // ---------------------------------------------------------------------------

  /** The accepted history after n rounds that left the turn running, from the hooks accepted before. */
  ghost function HistoryAt(turn: HookTurnState, first: seq<Hook>, start: real, ticks: seq<Tick>, n: nat): seq<Hook>
    requires n <= |ticks|
  {
    if n == 0 then first
    else After(turn, HistoryAt(turn, first, start, ticks, n - 1), ServedIn(LastProbe(start, ticks, n - 1), ticks[n - 1], Running))
  }

  /** A failure was recorded before, or some connection of those n rounds left one. */
  ghost predicate FailedAt(turn: HookTurnState, first: seq<Hook>, failed: bool, start: real, ticks: seq<Tick>, n: nat)
    requires n <= |ticks|
  {
    if n == 0 then failed
    else
      FailedAt(turn, first, failed, start, ticks, n - 1)
      || AnyFails(turn, HistoryAt(turn, first, start, ticks, n - 1),
                  ServedIn(LastProbe(start, ticks, n - 1), ticks[n - 1], Running))
  }

  /** The k-th round of this schedule, if the turn reaches it, comes to this. */
  ghost predicate RoundAt(turn: HookTurnState, first: seq<Hook>, failed: bool, start: real, ticks: seq<Tick>, k: nat,
                          meant: Outcome)
    requires k < |ticks|
  {
    RoundIs(turn, HistoryAt(turn, first, start, ticks, k), FailedAt(turn, first, failed, start, ticks, k), start,
            LastProbe(start, ticks, k), ticks[k], meant)
  }

  ghost predicate RunsOn(turn: HookTurnState, first: seq<Hook>, failed: bool, start: real, ticks: seq<Tick>, n: nat)
    requires n <= |ticks|
  {
    forall k :: 0 <= k < n ==> RoundAt(turn, first, failed, start, ticks, k, Running)
  }

  /** The turn takes n rounds, of which the last comes to the outcome and all others leave it running. */
  ghost predicate TurnIs(turn: HookTurnState, first: seq<Hook>, failed: bool, start: real, ticks: seq<Tick>, n: nat,
                         outcome: Outcome)
    requires n <= |ticks|
  {
    if outcome.Running? then n == |ticks| && RunsOn(turn, first, failed, start, ticks, n)
    else
      && n > 0 && RunsOn(turn, first, failed, start, ticks, n - 1)
      && RoundAt(turn, first, failed, start, ticks, n - 1, Meant(outcome))
      && EndsAsTerminated(ticks[n - 1], outcome)
  }

  /** Outcomes that differ at most in which failure was recorded. */
  predicate SameOutcome(a: Outcome, b: Outcome) {
    || a == b
    || (a.Failed? && b.Failed?)
    || (a.UnknownDelivery? && b.UnknownDelivery? && a.cause.ByFailure? && b.cause.ByFailure?)
  }

  lemma {:induction false} RoundIsDetermined(turn: HookTurnState, history: seq<Hook>, failed: bool, start: real, lastProbe: real,
                                             t: Tick, a: Outcome, b: Outcome)
    requires RoundIs(turn, history, failed, start, lastProbe, t, a) && RoundIs(turn, history, failed, start, lastProbe, t, b)
    ensures SameOutcome(a, b)
  {
  }

  /** The schedule determines how many rounds a turn takes and what it comes to. */
  lemma {:induction false} TurnIsDetermined(turn: HookTurnState, first: seq<Hook>, failed: bool, start: real, ticks: seq<Tick>,
                                            m: nat, a: Outcome, n: nat, b: Outcome)
    requires m <= n <= |ticks|
    requires TurnIs(turn, first, failed, start, ticks, m, a) && TurnIs(turn, first, failed, start, ticks, n, b)
    ensures m == n && SameOutcome(Meant(a), Meant(b)) && (a.Unterminated? <==> b.Unterminated?)
  {
    if a.Running? {
      if !b.Running? {
        SameRound(turn, first, failed, start, ticks, n - 1, Meant(b), Running);
      }
    } else if m < n || b.Running? {
      SameRound(turn, first, failed, start, ticks, m - 1, Meant(a), Running);
    } else {
      SameRound(turn, first, failed, start, ticks, m - 1, Meant(a), Meant(b));
    }
  }

  lemma {:induction false} SameRound(turn: HookTurnState, first: seq<Hook>, failed: bool, start: real, ticks: seq<Tick>, k: nat,
                                     a: Outcome, b: Outcome)
    requires k < |ticks|
    requires RoundAt(turn, first, failed, start, ticks, k, a) && RoundAt(turn, first, failed, start, ticks, k, b)
    ensures SameOutcome(a, b)
  {
    RoundIsDetermined(turn, HistoryAt(turn, first, start, ticks, k), FailedAt(turn, first, failed, start, ticks, k), start,
                      LastProbe(start, ticks, k), ticks[k], a, b);
  }

  /** The k-th round starts with prompt, Stop and idle accepted, no failure, and no request to stop. */
  ghost predicate StartsAnswered(turn: HookTurnState, first: seq<Hook>, failed: bool, start: real, ticks: seq<Tick>, k: nat)
    requires k < |ticks|
  {
    && !ticks[k].stopRequested && !FailedAt(turn, first, failed, start, ticks, k)
    && Answered(TurnOf(HistoryAt(turn, first, start, ticks, k)))
  }

  /** Of the rounds a turn takes, one that starts answered is the last one, and completes it; no other does. */
  lemma {:induction false} CompletesExactly(turn: HookTurnState, first: seq<Hook>, failed: bool, start: real, ticks: seq<Tick>,
                                            n: nat, outcome: Outcome, k: nat)
    requires k < n <= |ticks| && TurnIs(turn, first, failed, start, ticks, n, outcome)
    ensures StartsAnswered(turn, first, failed, start, ticks, k) <==> k == n - 1 && outcome.Completed?
    ensures outcome.Completed? ==>
              TurnOf(HistoryAt(turn, first, start, ticks, n - 1)).stopMessage == Some(outcome.message)
  {
    if outcome.Running? || k < n - 1 {
      assert RoundAt(turn, first, failed, start, ticks, k, Running);
    }
    if !outcome.Running? {
      assert RoundAt(turn, first, failed, start, ticks, n - 1, Meant(outcome));
    }
  }

  /**
   * A turn over any schedule; rounds is how many it took.  The hooks of the connections served in
   * those rounds decide what every round comes to.  What the turn writes is every event of the
   * accepted hooks, in order, followed by a result exactly if its last round starts answered, with
   * no failure and no request to stop.  A turn that ends with an error tries to terminate the
   * foreground process once, or twice exactly when its branch's own try raised.
   */
  method StreamTurn(bridge: HookBridge, start: real, ticks: seq<Tick>)
      returns (stdout: seq<Line>, outcome: Outcome, attempts: nat, ghost rounds: nat)
    requires bridge.Valid() && bridge.taken == []
    modifies bridge`events, bridge`taken, bridge`failure, bridge.state
    ensures bridge.Valid() && OutcomeOk(bridge, outcome)
    ensures stdout == Written(bridge.taken, outcome)
    ensures rounds <= |ticks|
    ensures TurnIs(bridge.state, old(bridge.state.accepted), old(bridge.failure).Some?, start, ticks, rounds, outcome)
    ensures EndState(bridge, old(bridge.state.accepted), old(bridge.failure).Some?, start, ticks, rounds, outcome)
    ensures attempts == if !Raises(outcome) then 0 else if outcome.Unterminated? then 2 else 1
  {
    var terminated;
    stdout, outcome, terminated, attempts, rounds := Rounds(bridge, start, ticks);
    if Raises(outcome) && !terminated {
      attempts := attempts + 1;
    }
  }

  /** The history, the failure and what has been written after n rounds. */
  ghost predicate EndState(bridge: HookBridge, first: seq<Hook>, failed: bool, start: real, ticks: seq<Tick>, n: nat,
                           outcome: Outcome)
    requires n <= |ticks|
    reads bridge, bridge.state
  {
    if n == 0 then bridge.state.accepted == first && (bridge.failure.Some? <==> failed)
    else
      var before := HistoryAt(bridge.state, first, start, ticks, n - 1);
      && Serves(bridge, before, FailedAt(bridge.state, first, failed, start, ticks, n - 1),
                ServedIn(LastProbe(start, ticks, n - 1), ticks[n - 1], Meant(outcome)))
      && (!ticks[n - 1].stopRequested ==> AllEvents(bridge.state.expected, before) <= bridge.taken)
  }

  /** What has been written and what the outcome says of the bridge, and of the terminations tried. */
  ghost predicate OnTrack(bridge: HookBridge, stdout: seq<Line>, outcome: Outcome, terminated: bool, attempts: nat)
    reads bridge, bridge.state
  {
    OutcomeOk(bridge, outcome) && stdout == Written(bridge.taken, outcome) && Tried(outcome, terminated, attempts)
  }

  /** The rounds of the loop, up to the first that does not leave the turn running. */
  method Rounds(bridge: HookBridge, start: real, ticks: seq<Tick>)
      returns (stdout: seq<Line>, outcome: Outcome, terminated: bool, attempts: nat, ghost rounds: nat)
    requires bridge.Valid() && bridge.taken == []
    modifies bridge`events, bridge`taken, bridge`failure, bridge.state
    ensures bridge.Valid() && OnTrack(bridge, stdout, outcome, terminated, attempts)
    ensures rounds <= |ticks|
    ensures TurnIs(bridge.state, old(bridge.state.accepted), old(bridge.failure).Some?, start, ticks, rounds, outcome)
    ensures EndState(bridge, old(bridge.state.accepted), old(bridge.failure).Some?, start, ticks, rounds, outcome)
  {
    ghost var first, failed := bridge.state.accepted, bridge.failure.Some?;
    TurnStarts(bridge, first, failed, start, ticks);
    stdout, outcome, terminated, attempts, rounds := Loop(bridge, first, failed, start, ticks);
    TurnEnds(bridge, first, failed, start, ticks, rounds, outcome);
  }

  method Loop(bridge: HookBridge, ghost first: seq<Hook>, ghost failed: bool, start: real, ticks: seq<Tick>)
      returns (stdout: seq<Line>, outcome: Outcome, terminated: bool, attempts: nat, rounds: nat)
    requires bridge.Valid() && OnTrack(bridge, [], Running, false, 0)
    requires InTurn(bridge, first, failed, start, ticks, 0, Running)
    modifies bridge`events, bridge`taken, bridge`failure, bridge.state
    ensures bridge.Valid() && OnTrack(bridge, stdout, outcome, terminated, attempts)
    ensures rounds <= |ticks| && (outcome.Running? ==> rounds == |ticks|)
    ensures InTurn(bridge, first, failed, start, ticks, rounds, outcome)
  {
    stdout, outcome, terminated, attempts := [], Running, false, 0;
    var probed := start;
    rounds := 0;
    while rounds < |ticks| && outcome.Running?
      invariant rounds <= |ticks|
      invariant bridge.Valid() && OnTrack(bridge, stdout, outcome, terminated, attempts)
      invariant InTurn(bridge, first, failed, start, ticks, rounds, outcome)
      invariant outcome.Running? ==> probed == LastProbe(start, ticks, rounds)
    {
      RunningOnTrack(bridge, stdout, terminated, attempts);
      stdout, outcome, probed, terminated, attempts :=
        RoundInTurn(bridge, first, failed, start, probed, ticks, rounds, stdout);
      rounds := rounds + 1;
    }
  }

  lemma {:induction false} RunningOnTrack(bridge: HookBridge, stdout: seq<Line>, terminated: bool, attempts: nat)
    requires OnTrack(bridge, stdout, Running, terminated, attempts)
    ensures OnTrack(bridge, stdout, Running, false, 0)
  {
  }

  lemma {:induction false} TurnStarts(bridge: HookBridge, first: seq<Hook>, failed: bool, start: real, ticks: seq<Tick>)
    requires bridge.taken == [] && bridge.state.accepted == first && (bridge.failure.Some? <==> failed)
    ensures InTurn(bridge, first, failed, start, ticks, 0, Running) && OnTrack(bridge, [], Running, false, 0)
    ensures LastProbe(start, ticks, 0) == start
  {
  }

  lemma {:induction false} TurnEnds(bridge: HookBridge, first: seq<Hook>, failed: bool, start: real, ticks: seq<Tick>, n: nat,
                                    outcome: Outcome)
    requires n <= |ticks| && InTurn(bridge, first, failed, start, ticks, n, outcome) && (outcome.Running? ==> n == |ticks|)
    ensures TurnIs(bridge.state, first, failed, start, ticks, n, outcome)
    ensures EndState(bridge, first, failed, start, ticks, n, outcome)
  {
  }

  /** The n-th round of a turn that still runs. */
  method RoundInTurn(bridge: HookBridge, ghost first: seq<Hook>, ghost failed: bool, start: real, lastProbe: real, ticks: seq<Tick>,
                     n: nat, written: seq<Line>)
      returns (stdout: seq<Line>, outcome: Outcome, probed: real, terminated: bool, attempts: nat)
    requires n < |ticks| && lastProbe == LastProbe(start, ticks, n)
    requires bridge.Valid() && OnTrack(bridge, written, Running, false, 0)
    requires InTurn(bridge, first, failed, start, ticks, n, Running)
    modifies bridge`events, bridge`taken, bridge`failure, bridge.state
    ensures bridge.Valid() && OnTrack(bridge, stdout, outcome, terminated, attempts)
    ensures InTurn(bridge, first, failed, start, ticks, n + 1, outcome)
    ensures outcome.Running? ==> probed == LastProbe(start, ticks, n + 1)
  {
    StateAt(bridge, first, failed, start, ticks, n);
    stdout, outcome, probed, terminated, attempts := Round(bridge, start, lastProbe, ticks[n], written);
    NextRound(bridge, first, failed, start, ticks, n, outcome);
  }

  /** n rounds into a turn: either it runs on, or it has just come to its outcome. */
  ghost predicate InTurn(bridge: HookBridge, first: seq<Hook>, failed: bool, start: real, ticks: seq<Tick>, n: nat,
                         outcome: Outcome)
    requires n <= |ticks|
    reads bridge, bridge.state
  {
    && EndState(bridge, first, failed, start, ticks, n, outcome)
    && (if outcome.Running? then RunsOn(bridge.state, first, failed, start, ticks, n)
        else TurnIs(bridge.state, first, failed, start, ticks, n, outcome))
  }

  lemma {:induction false} StateAt(bridge: HookBridge, first: seq<Hook>, failed: bool, start: real, ticks: seq<Tick>, n: nat)
    requires n <= |ticks| && EndState(bridge, first, failed, start, ticks, n, Running)
    ensures bridge.state.accepted == HistoryAt(bridge.state, first, start, ticks, n)
    ensures bridge.failure.Some? <==> FailedAt(bridge.state, first, failed, start, ticks, n)
  {
  }

  lemma {:induction false} NextRound(bridge: HookBridge, first: seq<Hook>, failed: bool, start: real, ticks: seq<Tick>, n: nat,
                                     outcome: Outcome)
    requires n < |ticks| && RunsOn(bridge.state, first, failed, start, ticks, n)
    requires RoundDone(bridge, HistoryAt(bridge.state, first, start, ticks, n),
                       FailedAt(bridge.state, first, failed, start, ticks, n), start, LastProbe(start, ticks, n), ticks[n], outcome)
    requires EndsAsTerminated(ticks[n], outcome)
    ensures InTurn(bridge, first, failed, start, ticks, n + 1, outcome)
  {
    RoundEnds(bridge, first, failed, start, ticks, n, outcome);
    assert RoundAt(bridge.state, first, failed, start, ticks, n, Meant(outcome));
    if outcome.Running? {
      RunsOnSnoc(bridge.state, first, failed, start, ticks, n);
    }
  }

  lemma {:induction false} RoundEnds(bridge: HookBridge, first: seq<Hook>, failed: bool, start: real, ticks: seq<Tick>, n: nat,
                                     outcome: Outcome)
    requires n < |ticks|
    requires RoundDone(bridge, HistoryAt(bridge.state, first, start, ticks, n),
                       FailedAt(bridge.state, first, failed, start, ticks, n), start, LastProbe(start, ticks, n), ticks[n], outcome)
    ensures EndState(bridge, first, failed, start, ticks, n + 1, outcome)
  {
  }

  lemma {:induction false} RunsOnSnoc(turn: HookTurnState, first: seq<Hook>, failed: bool, start: real, ticks: seq<Tick>, n: nat)
    requires n < |ticks| && RunsOn(turn, first, failed, start, ticks, n)
    requires RoundAt(turn, first, failed, start, ticks, n, Running)
    ensures RunsOn(turn, first, failed, start, ticks, n + 1)
  {
    forall k | 0 <= k < n + 1 ensures RoundAt(turn, first, failed, start, ticks, k, Running) {
    }
  }

  /** A completed turn's result is backed by the ordered history, and is its Stop's message. */
  lemma {:induction false} CompletedMeansConcluded(bridge: HookBridge, message: string)
    requires bridge.Valid() && OutcomeOk(bridge, Completed(message))
    ensures Concluded(bridge.state.accepted, message)
  {
    IdleConcludes(bridge.state.expected, bridge.state.canonical, bridge.state.accepted);
  }
}
