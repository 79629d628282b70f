/**
 * The hook protocol in terms of payloads alone: exactly which payload each kind of hook needs, and
 * which chat events an accepted one gives.
 */
module HookMeaning {
  import opened Prelude
  import opened HookHistory
  import opened HookTurn
  import StreamTurn

  predicate NonEmpty(p: Payload, k: Key) {
    k in p && p[k].JStr? && |p[k].s| > 0
  }

  predicate AnyString(p: Payload, k: Key) {
    k in p && p[k].JStr?
  }

  predicate OneOf(p: Payload, k: Key, words: set<string>) {
    NonEmpty(p, k) && p[k].s in words
  }

  predicate NullOrString(p: Payload, k: Key) {
    k !in p || p[k] == JNull || p[k].JStr?
  }

  predicate ToolCall(p: Payload) {
    NonEmpty(p, ToolNameKey) && NonEmpty(p, ToolUseIdKey) && ToolInputKey in p && p[ToolInputKey].JDict?
  }

  /** What a hook's payload must hold, the history aside. */
  predicate Needs(expected: Expected, h: Hook) {
    var p := h.payload;
    match h.kind
    case SessionStart =>
      && OneOf(p, SourceKey, {"startup", "resume", "clear", "compact"}) && p[SourceKey].s == expected.source
      && (ModelKey in p ==> p[ModelKey].JStr?)
    case UserPromptSubmit => true
    case MessageDisplay =>
      && NonEmpty(p, TurnIdKey) && NonEmpty(p, MessageIdKey) && AnyString(p, DeltaKey)
      && IndexKey in p && ((p[IndexKey].JInt? && p[IndexKey].i >= 0) || p[IndexKey].JBool?)
      && FinalKey in p && p[FinalKey].JBool?
    case PreToolUse => ToolCall(p)
    case PostToolUse => ToolCall(p) && ToolResponseKey in p
    case PostToolUseFailure => ToolCall(p) && AnyString(p, ErrorKey)
    case PostCompact =>
      && OneOf(p, TriggerKey, {"manual", "auto"}) && NonEmpty(p, CompactSummaryKey)
      && (PreTokensKey in p ==> p[PreTokensKey].JInt? || p[PreTokensKey].JFloat? || p[PreTokensKey].JBool?)
    case Stop => true
    case StopFailure =>
      && OneOf(p, ErrorKey, {"rate_limit", "overloaded", "authentication_failed", "oauth_org_not_allowed", "billing_error",
                             "invalid_request", "model_not_found", "server_error", "max_output_tokens", "unknown"})
      && NullOrString(p, ErrorDetailsKey) && NullOrString(p, LastAssistantMessageKey)
    case Notification =>
      && NonEmpty(p, MessageKey)
      && OneOf(p, NotificationTypeKey, {"idle_prompt", "auth_success", "elicitation_complete", "elicitation_response",
                                        "agent_completed"})
    case SessionEnd =>
      OneOf(p, ReasonKey, {"clear", "resume", "logout", "prompt_input_exit", "bypass_permissions_disabled", "other"})
    case PermissionRequest => false
    case Unsupported(_) => false
  }

  lemma {:induction false} NotificationNeeds(expected: Expected, h: Hook)
    requires h.kind == Notification
    ensures NotificationPayload(h.payload) <==> Needs(expected, h)
  {
  }

  lemma {:induction false} FailureNeeds(expected: Expected, h: Hook)
    requires h.kind == StopFailure
    ensures StopFailurePayload(h.payload) <==> Needs(expected, h)
  {
  }

  /** A hook that the history allows is accepted exactly if its payload holds what it needs. */
  lemma {:induction false} AcceptedIff(expected: Expected, canonical: string -> string, history: seq<Hook>, h: Hook)
    requires Allowed(expected, canonical, TurnOf(history), h)
    ensures Accepts(expected, canonical, history, h) <==> Needs(expected, h)
  {
    if h.kind.Notification? {
      NotificationNeeds(expected, h);
    } else if h.kind.StopFailure? {
      FailureNeeds(expected, h);
    }
  }

  /** The message of a reported failure: the candidate answer if there is one, else the details, else the error word. */
  function Reported(p: Payload): string
    requires NonEmpty(p, ErrorKey)
  {
    if NonEmpty(p, LastAssistantMessageKey) then p[LastAssistantMessageKey].s
    else if NonEmpty(p, ErrorDetailsKey) then p[ErrorDetailsKey].s
    else p[ErrorKey].s
  }

  /** The chat events of a hook whose payload holds what it needs. */
  function Gives(expected: Expected, h: Hook): seq<TurnEvent>
    requires Needs(expected, h)
  {
    var p := h.payload;
    match h.kind
    case SessionStart => [InitEvent(if ModelKey in p then p[ModelKey].s else expected.model)]
    case MessageDisplay =>
      if p[DeltaKey] == JStr("") then [] else [AssistantText(p[MessageIdKey].s, p[TurnIdKey].s, p[DeltaKey].s)]
    case PreToolUse => [ToolUseEvent(p[ToolUseIdKey].s, p[ToolNameKey].s, p[ToolInputKey].fields)]
    case PostToolUse => [ToolResultEvent(p[ToolUseIdKey].s, p[ToolResponseKey], false)]
    case PostToolUseFailure => [ToolResultEvent(p[ToolUseIdKey].s, p[ErrorKey], true)]
    case PostCompact => [Compacted(p[TriggerKey].s, if PreTokensKey in p then p[PreTokensKey] else JNull)]
    case StopFailure =>
      if p[ErrorKey].s == "rate_limit" then [RateLimited, ErrorEvent(Reported(p), "rate_limit")]
      else [ErrorEvent(Reported(p), p[ErrorKey].s)]
    case _ => []
  }

  lemma {:induction false} EventsAre(expected: Expected, h: Hook)
    requires Needs(expected, h)
    ensures EventsOf(expected, h) == Gives(expected, h)
  {
    if h.kind.StopFailure? {
      FailureGives(expected, h);
    }
  }

  lemma {:induction false} FailureGives(expected: Expected, h: Hook)
    requires Needs(expected, h) && h.kind == StopFailure
    ensures EventsOf(expected, h) == Gives(expected, h)
  {
    var p := h.payload;
    assert FailureMessage(p) == Reported(p);
    assert [RateLimited] + [ErrorEvent(Reported(p), "rate_limit")] == [RateLimited, ErrorEvent(Reported(p), "rate_limit")];
    assert [] + [ErrorEvent(Reported(p), p[ErrorKey].s)] == [ErrorEvent(Reported(p), p[ErrorKey].s)];
  }

  // ---------------------------------------------------------------------------
  // What a turn says, read off its hooks
  // ---------------------------------------------------------------------------

  /** Every hook of the history needs no more than its payload holds. */
  predicate AllNeeds(expected: Expected, history: seq<Hook>) {
    forall n :: 0 <= n < |history| ==> Needs(expected, history[n])
  }

  /** The texts of the assistant events, in order. */
  function SaidIn(events: seq<TurnEvent>): seq<string> {
    if events == [] then []
    else
      var e := events[|events| - 1];
      SaidIn(events[..|events| - 1]) + if e.AssistantText? then [e.text] else []
  }

  /** The non-empty deltas of the displayed messages, in order. */
  function DeltasOf(history: seq<Hook>): seq<string> {
    if history == [] then []
    else
      var h := history[|history| - 1];
      DeltasOf(history[..|history| - 1])
      + if h.kind == MessageDisplay && NonEmpty(h.payload, DeltaKey) then [h.payload[DeltaKey].s] else []
  }

  lemma {:induction false} SaidAppend(a: seq<TurnEvent>, b: seq<TurnEvent>)
    ensures SaidIn(a + b) == SaidIn(a) + SaidIn(b)
    decreases |b|
  {
    if b == [] {
      assert a + b == a;
    } else {
      SaidAppend(a, b[..|b| - 1]);
      assert (a + b)[..|a + b| - 1] == a + b[..|b| - 1];
    }
  }

  lemma {:induction false} SaidByOne(expected: Expected, h: Hook)
    requires Needs(expected, h)
    ensures SaidIn(EventsOf(expected, h)) ==
            if h.kind == MessageDisplay && NonEmpty(h.payload, DeltaKey) then [h.payload[DeltaKey].s] else []
  {
    EventsAre(expected, h);
    var events := Gives(expected, h);
    if |events| == 1 {
      SaidOne(events[0]);
      assert events == [events[0]];
    } else if |events| == 2 {
      SaidOne(events[0]);
      SaidOne(events[1]);
      SaidAppend([events[0]], [events[1]]);
      assert events == [events[0]] + [events[1]];
    }
  }

  lemma {:induction false} SaidOne(e: TurnEvent)
    ensures SaidIn([e]) == if e.AssistantText? then [e.text] else []
  {
    assert [e][..0] == [];
  }

  /** What a turn says is the displayed deltas, each once and in order. */
  lemma {:induction false} SaidIsDisplayed(expected: Expected, history: seq<Hook>)
    requires AllNeeds(expected, history)
    ensures SaidIn(AllEvents(expected, history)) == DeltasOf(history)
  {
    if history != [] {
      var n := |history| - 1;
      SaidIsDisplayed(expected, history[..n]);
      SaidByOne(expected, history[n]);
      SaidAppend(AllEvents(expected, history[..n]), EventsOf(expected, history[n]));
    }
  }

  /** The hooks that any connections leave accepted each held what it needed. */
  lemma {:induction false} ServedNeeds(turn: HookTurnState, history: seq<Hook>, arrivals: seq<StreamTurn.Arrival>)
    requires AllNeeds(turn.expected, history)
    ensures AllNeeds(turn.expected, StreamTurn.After(turn, history, arrivals))
  {
    if arrivals != [] {
      var front, last := arrivals[..|arrivals| - 1], arrivals[|arrivals| - 1];
      ServedNeeds(turn, history, front);
      var before := StreamTurn.After(turn, history, front);
      if last.HookRequest? && Accepts(turn.expected, turn.canonical, before, last.hook) {
        AcceptedIff(turn.expected, turn.canonical, before, last.hook);
      }
    }
  }

  /** Whatever connects, what a turn says is the displayed deltas of the accepted hooks, each once and in order. */
  lemma {:induction false} ServedSays(turn: HookTurnState, arrivals: seq<StreamTurn.Arrival>)
    ensures var history := StreamTurn.After(turn, [], arrivals);
            SaidIn(AllEvents(turn.expected, history)) == DeltasOf(history)
  {
    ServedNeeds(turn, [], arrivals);
    SaidIsDisplayed(turn.expected, StreamTurn.After(turn, [], arrivals));
  }
}
