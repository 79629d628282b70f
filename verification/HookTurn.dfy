/**
 * The hook turn state: it validates one hook payload at a time, updates the turn's fields only
 * when the payload is accepted, and returns the chat events the hook stands for.
 */
module HookTurn {
  import opened Prelude
  import opened HookHistory

  datatype TurnEvent =
    | InitEvent(model: string)
    | AssistantText(messageId: string, turnId: string, text: string)
    | ToolUseEvent(id: string, name: string, input: map<string, Json>)
    | ToolResultEvent(id: string, response: Json, isError: bool)
    | Compacted(trigger: string, preTokens: Json)
    | RateLimited
    | ErrorEvent(message: string, error: string)

  /** Why a payload is rejected. */
  datatype HookError =
    | MalformedPayload  // a field is missing, of the wrong type or outside its vocabulary
    | WrongSession      // not this process's session, cwd or start source
    | WrongTurn         // before the prompt was acknowledged, or another turn's correlation
    | PromptMismatch
    | OutOfOrder
    | DuplicateHook
    | NotStable         // a Stop with work still running
    | CannotAnswer      // the channel cannot answer what the hook asks
    | UnknownHook

  /** What ends a turn: a rejected hook, a reported stop failure, or the transport. */
  datatype Failure = Rejected(reason: HookError) | StopFailed(error: string, message: string) | Transport

  type Handled = Result<seq<TurnEvent>, HookError>

  const SESSION_START_SOURCES := {"startup", "resume", "clear", "compact"}
  const NOTIFICATION_TYPES := {"permission_prompt", "idle_prompt", "auth_success", "elicitation_dialog",
                               "elicitation_complete", "elicitation_response", "agent_needs_input", "agent_completed"}
  const BLOCKING_NOTIFICATIONS := {"permission_prompt", "elicitation_dialog", "agent_needs_input"}
  const SESSION_END_REASONS := {"clear", "resume", "logout", "prompt_input_exit", "bypass_permissions_disabled", "other"}
  const POST_COMPACT_TRIGGERS := {"manual", "auto"}
  const STOP_FAILURE_TYPES := {"rate_limit", "overloaded", "authentication_failed", "oauth_org_not_allowed",
                               "billing_error", "invalid_request", "model_not_found", "server_error",
                               "max_output_tokens", "unknown"}

  /** The message of a StopFailure: the candidate answer, else the details, else the error word. */
  function FailureMessage(p: Payload): string
    requires HasText(p, ErrorKey)
  {
    if HasText(p, LastAssistantMessageKey) then p[LastAssistantMessageKey].s
    else if HasText(p, ErrorDetailsKey) then p[ErrorDetailsKey].s
    else p[ErrorKey].s
  }

  predicate StartPayload(expected: Expected, p: Payload) {
    && HasText(p, SourceKey) && p[SourceKey].s in SESSION_START_SOURCES && p[SourceKey].s == expected.source
    && (ModelKey in p ==> p[ModelKey].JStr?)
  }

  predicate DisplayPayload(p: Payload) {
    && HasText(p, TurnIdKey) && HasText(p, MessageIdKey) && HasInt(p, IndexKey) && IntOf(p[IndexKey]) >= 0
    && HasBool(p, FinalKey) && HasString(p, DeltaKey)
  }

  predicate StopFailurePayload(p: Payload) {
    && HasText(p, ErrorKey) && p[ErrorKey].s in STOP_FAILURE_TYPES
    && OptionalString(p, ErrorDetailsKey) && OptionalString(p, LastAssistantMessageKey)
  }

  function FailureEvents(p: Payload): seq<TurnEvent>
    requires HasText(p, ErrorKey)
  {
    (if p[ErrorKey].s == "rate_limit" then [RateLimited] else []) + [ErrorEvent(FailureMessage(p), p[ErrorKey].s)]
  }

  function TextAt(p: Payload, k: Key): string {
    if HasString(p, k) then p[k].s else ""
  }

  function ValueAt(p: Payload, k: Key): Json {
    if k in p then p[k] else JNull
  }

  predicate ToolPayload(p: Payload) {
    HasText(p, ToolNameKey) && HasDict(p, ToolInputKey) && HasText(p, ToolUseIdKey)
  }

  predicate OutcomePayload(h: Hook) {
    if h.kind.PostToolUse? then ToolResponseKey in h.payload else HasString(h.payload, ErrorKey)
  }

  predicate CompactPayload(p: Payload) {
    && HasText(p, TriggerKey) && p[TriggerKey].s in POST_COMPACT_TRIGGERS && HasText(p, CompactSummaryKey)
    && (PreTokensKey in p ==> p[PreTokensKey].JInt? || p[PreTokensKey].JBool? || p[PreTokensKey].JFloat?)
  }

  predicate NotificationPayload(p: Payload) {
    && HasText(p, NotificationTypeKey) && HasText(p, MessageKey)
    && p[NotificationTypeKey].s in NOTIFICATION_TYPES && p[NotificationTypeKey].s !in BLOCKING_NOTIFICATIONS
  }

  predicate EndPayload(p: Payload) {
    HasText(p, ReasonKey) && p[ReasonKey].s in SESSION_END_REASONS
  }

  /** What a payload must hold besides what the history asks of it. */
  predicate TurnPayload(h: Hook) {
    match h.kind
    case MessageDisplay => DisplayPayload(h.payload)
    case PreToolUse => ToolPayload(h.payload)
    case PostToolUse => ToolPayload(h.payload) && OutcomePayload(h)
    case PostToolUseFailure => ToolPayload(h.payload) && OutcomePayload(h)
    case PostCompact => CompactPayload(h.payload)
    case StopFailure => StopFailurePayload(h.payload)
    case _ => true
  }

  predicate SessionPayload(expected: Expected, correlation: Option<(Key, string)>, h: Hook) {
    match h.kind
    case SessionStart => StartPayload(expected, h.payload)
    case UserPromptSubmit => CorrelationOf(Established(correlation), h.payload).Some?
    case Notification => NotificationPayload(h.payload)
    case SessionEnd => EndPayload(h.payload)
    case _ => false
  }

  predicate Payloads(expected: Expected, correlation: Option<(Key, string)>, h: Hook) {
    if IsTurnHook(h.kind) then TurnPayload(h) else SessionPayload(expected, correlation, h)
  }

  /** Whether a hook is accepted after a history: the history allows it and its payload is in order. */
  predicate Accepts(expected: Expected, canonical: string -> string, history: seq<Hook>, h: Hook) {
    Allowed(expected, canonical, TurnOf(history), h) && Payloads(expected, TurnOf(history).correlation, h)
  }

  /** The chat events of a hook of the acknowledged turn. */
  function TurnHookEvents(h: Hook): seq<TurnEvent> {
    var p := h.payload;
    match h.kind
    case MessageDisplay =>
      if TextAt(p, DeltaKey) == "" then []
      else [AssistantText(TextAt(p, MessageIdKey), TextAt(p, TurnIdKey), TextAt(p, DeltaKey))]
    case PreToolUse =>
      [ToolUseEvent(TextAt(p, ToolUseIdKey), TextAt(p, ToolNameKey),
                    if HasDict(p, ToolInputKey) then p[ToolInputKey].fields else map[])]
    case PostToolUse => [ToolResultEvent(TextAt(p, ToolUseIdKey), ValueAt(p, ToolResponseKey), false)]
    case PostToolUseFailure => [ToolResultEvent(TextAt(p, ToolUseIdKey), ValueAt(p, ErrorKey), true)]
    case PostCompact => [Compacted(TextAt(p, TriggerKey), ValueAt(p, PreTokensKey))]
    case StopFailure => if HasText(p, ErrorKey) then FailureEvents(p) else []
    case _ => []
  }

  /** The chat events an accepted hook stands for. */
  function EventsOf(expected: Expected, h: Hook): seq<TurnEvent> {
    if IsTurnHook(h.kind) then TurnHookEvents(h)
    else if h.kind.SessionStart? then
      [InitEvent(if HasString(h.payload, ModelKey) then h.payload[ModelKey].s else expected.model)]
    else []
  }

  /** Every event of a history, in order. */
  function AllEvents(expected: Expected, history: seq<Hook>): seq<TurnEvent> {
    if history == [] then []
    else AllEvents(expected, history[..|history| - 1]) + EventsOf(expected, history[|history| - 1])
  }

  lemma {:induction false} AllEventsSnoc(expected: Expected, history: seq<Hook>, h: Hook)
    ensures AllEvents(expected, history + [h]) == AllEvents(expected, history) + EventsOf(expected, h)
  {
    assert (history + [h])[..|history|] == history;
  }

  class HookTurnState {
    const expected: Expected
    const canonical: string -> string    // os.path.realpath
    var acknowledged: bool               // delivery
    var sessionStarted: bool
    var correlation: Option<(Key, string)>  // correlation_field, correlation_id
    var stopSeen: bool
    var stopCandidate: Option<string>
    var idleSeen: bool
    var active: bool
    var failure: Option<Failure>
    var seenBatches: set<(string, int)>
    ghost var accepted: seq<Hook>        // every hook handled without an error, in order

    function Facts(): Turn
      reads this
    {
      Turn(sessionStarted, acknowledged, correlation, stopCandidate, idleSeen, seenBatches)
    }

    /** The fields say exactly what the accepted history amounts to. */
    ghost predicate Valid()
      reads this
    {
      && Facts() == TurnOf(accepted)
      && active == acknowledged
      && (acknowledged <==> correlation.Some?)
      && (stopSeen <==> stopCandidate.Some?)
      && WellOrdered(expected, canonical, accepted)
    }

    constructor (exp: Expected, realpath: string -> string)
      ensures Valid() && accepted == [] && failure.None? && expected == exp && canonical == realpath
    {
      expected, canonical := exp, realpath;
      acknowledged, sessionStarted, correlation := false, false, None;
      stopSeen, stopCandidate, idleSeen, active := false, None, false, false;
      failure, seenBatches, accepted := None, {}, [];
    }

    /** _validate_common */
    predicate CommonValid(h: Hook) {
      CommonOk(expected, canonical, h)
    }

    /** _validate_current_turn */
    predicate CurrentTurnValid(h: Hook)
      reads this
    {
      && CommonValid(h) && sessionStarted && acknowledged
      && (CarriesCorrelation(h.payload) ==> CorrelationMatches(h.payload))
    }

    predicate CorrelationMatches(p: Payload)
      reads this
    {
      var found := CorrelationOf(Established(correlation), p);
      found.Some? && correlation.Some? && found.value.1 == correlation.value.1
    }

    /** An allowed hook joins the history; the caller updates the fields to match. */
    ghost method Accept(h: Hook)
      requires WellOrdered(expected, canonical, accepted) && Facts() == TurnOf(accepted)
      requires Allowed(expected, canonical, Facts(), h)
      modifies this`accepted
      ensures WellOrdered(expected, canonical, accepted) && accepted == old(accepted) + [h]
      ensures TurnOf(accepted) == Advance(Facts(), h)
    {
      WellOrderedSnoc(expected, canonical, accepted, h);
      accepted := accepted + [h];
    }

    /** The field test of a current-turn hook is the history's, for a hook that changes no field. */
    lemma {:induction false} CurrentTurnDecides(h: Hook)
      requires Valid() && IsTurnHook(h.kind) && !h.kind.MessageDisplay? && !h.kind.Stop?
      ensures CurrentTurnValid(h) <==> Allowed(expected, canonical, Facts(), h)
      ensures Advance(Facts(), h) == Facts()
    {
      TurnHookMayFollow(expected, canonical, Facts(), h);
    }

    method HandleSessionStart(h: Hook) returns (r: Handled)
      requires Valid() && h.kind.SessionStart?
      modifies this`sessionStarted, this`accepted
      ensures r.Ok? <==> Allowed(expected, canonical, old(Facts()), h) && StartPayload(expected, h.payload)
      ensures r.Err? ==> unchanged(this)
      ensures r.Ok? ==> Valid() && accepted == old(accepted) + [h] && r.value == EventsOf(expected, h)
    {
      var p := h.payload;
      if !CommonValid(h) { return Err(WrongSession); }
      if !HasText(p, SourceKey) { return Err(MalformedPayload); }
      if ModelKey in p && !p[ModelKey].JStr? { return Err(MalformedPayload); }
      if p[SourceKey].s !in SESSION_START_SOURCES { return Err(MalformedPayload); }
      if p[SourceKey].s != expected.source { return Err(WrongSession); }
      if sessionStarted { return Err(DuplicateHook); }
      Accept(h);
      sessionStarted := true;
      return Ok([InitEvent(if ModelKey in p then p[ModelKey].s else expected.model)]);
    }

    method HandleUserPromptSubmit(h: Hook) returns (r: Handled)
      requires Valid() && h.kind.UserPromptSubmit?
      modifies this`acknowledged, this`active, this`correlation, this`accepted
      ensures r.Ok? <==> Allowed(expected, canonical, old(Facts()), h)
                         && CorrelationOf(Established(old(correlation)), h.payload).Some?
      ensures r.Err? ==> unchanged(this)
      ensures r.Ok? ==> Valid() && accepted == old(accepted) + [h] && acknowledged && r.value == []
    {
      var p := h.payload;
      if !CommonValid(h) { return Err(WrongSession); }
      if !sessionStarted { return Err(OutOfOrder); }
      if !HasString(p, PromptKey) { return Err(MalformedPayload); }
      var found := CorrelationOf(Established(correlation), p);
      if found.None? { return Err(WrongTurn); }
      if p[PromptKey].s != expected.prompt { return Err(PromptMismatch); }
      Acknowledge(h, found);
      return Ok([]);
    }

    method Acknowledge(h: Hook, found: Option<(Key, string)>)
      requires Valid() && h.kind.UserPromptSubmit? && Allowed(expected, canonical, Facts(), h)
      requires found.Some? && found == CorrelationOf(Established(correlation), h.payload)
      modifies this`acknowledged, this`active, this`correlation, this`accepted
      ensures Valid() && accepted == old(accepted) + [h] && acknowledged
    {
      Accept(h);
      correlation := found;
      acknowledged := true;
      active := true;
    }

    method HandleMessageDisplay(h: Hook) returns (r: Handled)
      requires Valid() && h.kind.MessageDisplay?
      modifies this`seenBatches, this`accepted
      ensures r.Ok? <==> Allowed(expected, canonical, old(Facts()), h) && DisplayPayload(h.payload)
      ensures r.Err? ==> unchanged(this)
      ensures r.Ok? ==> Valid() && accepted == old(accepted) + [h] && r.value == TurnHookEvents(h)
    {
      var p := h.payload;
      if !CurrentTurnValid(h) { return Err(WrongTurn); }
      if !CorrelationMatches(p) { return Err(WrongTurn); }
      if !HasText(p, TurnIdKey) || !HasText(p, MessageIdKey) { return Err(MalformedPayload); }
      if !HasInt(p, IndexKey) { return Err(MalformedPayload); }
      if IntOf(p[IndexKey]) < 0 { return Err(MalformedPayload); }
      if !HasBool(p, FinalKey) || !HasString(p, DeltaKey) { return Err(MalformedPayload); }
      var batch := (p[MessageIdKey].s, IntOf(p[IndexKey]));
      if batch in seenBatches { return Err(DuplicateHook); }
      Accept(h);
      seenBatches := seenBatches + {batch};
      if p[DeltaKey].s == "" {
        return Ok([]);
      }
      return Ok([AssistantText(p[MessageIdKey].s, p[TurnIdKey].s, p[DeltaKey].s)]);
    }

    method HandlePreToolUse(h: Hook) returns (r: Handled)
      requires Valid() && h.kind.PreToolUse?
      modifies this`accepted
      ensures r.Ok? <==> Allowed(expected, canonical, old(Facts()), h) && ToolPayload(h.payload)
      ensures r.Err? ==> unchanged(this)
      ensures r.Ok? ==> Valid() && accepted == old(accepted) + [h] && r.value == TurnHookEvents(h)
    {
      var p := h.payload;
      if !CurrentTurnValid(h) { return Err(WrongTurn); }
      if !HasText(p, ToolNameKey) || !HasDict(p, ToolInputKey) || !HasText(p, ToolUseIdKey) {
        return Err(MalformedPayload);
      }
      Accept(h);
      return Ok([ToolUseEvent(p[ToolUseIdKey].s, p[ToolNameKey].s, p[ToolInputKey].fields)]);
    }

    method HandlePostToolUse(h: Hook) returns (r: Handled)
      requires Valid() && (h.kind.PostToolUse? || h.kind.PostToolUseFailure?)
      modifies this`accepted
      ensures r.Ok? <==> Allowed(expected, canonical, old(Facts()), h) && ToolPayload(h.payload) && OutcomePayload(h)
      ensures r.Err? ==> unchanged(this)
      ensures r.Ok? ==> Valid() && accepted == old(accepted) + [h] && r.value == TurnHookEvents(h)
    {
      var p := h.payload;
      if !CurrentTurnValid(h) { return Err(WrongTurn); }
      if !HasText(p, ToolNameKey) || !HasDict(p, ToolInputKey) || !HasText(p, ToolUseIdKey) {
        return Err(MalformedPayload);
      }
      var response;
      if h.kind.PostToolUse? {
        if ToolResponseKey !in p { return Err(MalformedPayload); }
        response := p[ToolResponseKey];
      } else {
        if !HasString(p, ErrorKey) { return Err(MalformedPayload); }
        response := p[ErrorKey];
      }
      Accept(h);
      return Ok([ToolResultEvent(p[ToolUseIdKey].s, response, h.kind.PostToolUseFailure?)]);
    }

    method HandlePostCompact(h: Hook) returns (r: Handled)
      requires Valid() && h.kind.PostCompact?
      modifies this`accepted
      ensures r.Ok? <==> Allowed(expected, canonical, old(Facts()), h) && CompactPayload(h.payload)
      ensures r.Err? ==> unchanged(this)
      ensures r.Ok? ==> Valid() && accepted == old(accepted) + [h] && r.value == TurnHookEvents(h)
    {
      var p := h.payload;
      CurrentTurnDecides(h);
      if !CurrentTurnValid(h) { return Err(WrongTurn); }
      if !HasText(p, TriggerKey) || p[TriggerKey].s !in POST_COMPACT_TRIGGERS { return Err(MalformedPayload); }
      if !HasText(p, CompactSummaryKey) { return Err(MalformedPayload); }
      if PreTokensKey in p && !p[PreTokensKey].JInt? && !p[PreTokensKey].JBool? && !p[PreTokensKey].JFloat? {
        return Err(MalformedPayload);
      }
      Accept(h);
      return Ok([Compacted(p[TriggerKey].s, if PreTokensKey in p then p[PreTokensKey] else JNull)]);
    }

    method HandleStop(h: Hook) returns (r: Handled)
      requires Valid() && h.kind.Stop?
      modifies this`stopSeen, this`stopCandidate, this`accepted
      ensures r.Ok? <==> Allowed(expected, canonical, old(Facts()), h)
      ensures r.Err? ==> unchanged(this)
      ensures r.Ok? ==> Valid() && accepted == old(accepted) + [h] && r.value == []
    {
      var p := h.payload;
      if !CurrentTurnValid(h) { return Err(WrongTurn); }
      if !HasString(p, LastAssistantMessageKey) { return Err(MalformedPayload); }
      if !HasList(p, BackgroundTasksKey) || !HasList(p, SessionCronsKey) { return Err(MalformedPayload); }
      if p[BackgroundTasksKey].items != [] || p[SessionCronsKey].items != [] { return Err(NotStable); }
      if !HasBool(p, StopHookActiveKey) { return Err(MalformedPayload); }
      if p[StopHookActiveKey].b { return Err(NotStable); }
      if stopSeen { return Err(DuplicateHook); }
      Accept(h);
      stopSeen := true;
      stopCandidate := Some(p[LastAssistantMessageKey].s);
      return Ok([]);
    }

    method HandleStopFailure(h: Hook) returns (r: Handled)
      requires Valid() && h.kind.StopFailure?
      modifies this`failure, this`accepted
      ensures r.Ok? <==> Allowed(expected, canonical, old(Facts()), h) && StopFailurePayload(h.payload)
      ensures r.Err? ==> unchanged(this)
      ensures r.Ok? ==> Valid() && accepted == old(accepted) + [h] && failure.Some? && StopFailurePayload(h.payload)
                        && r.value == FailureEvents(h.payload)
    {
      CurrentTurnDecides(h);
      if !CurrentTurnValid(h) { return Err(WrongTurn); }
      if !StopFailurePayload(h.payload) { return Err(MalformedPayload); }
      Accept(h);
      failure := Some(StopFailed(h.payload[ErrorKey].s, FailureMessage(h.payload)));
      return Ok(FailureEvents(h.payload));
    }

    method HandleNotification(h: Hook) returns (r: Handled)
      requires Valid() && h.kind.Notification?
      modifies this`idleSeen, this`accepted
      ensures r.Ok? <==> Allowed(expected, canonical, old(Facts()), h) && NotificationPayload(h.payload)
      ensures r.Err? ==> unchanged(this)
      ensures r.Ok? ==> Valid() && accepted == old(accepted) + [h] && r.value == []
    {
      var p := h.payload;
      if !CommonValid(h) { return Err(WrongSession); }
      if !HasText(p, NotificationTypeKey) || !HasText(p, MessageKey) { return Err(MalformedPayload); }
      if IsIdle(h) {
        r := HandleIdlePrompt(h);
      } else {
        r := HandleOtherNotification(h);
      }
    }

    method HandleOtherNotification(h: Hook) returns (r: Handled)
      requires Valid() && h.kind.Notification? && CommonValid(h) && !IsIdle(h)
      requires HasText(h.payload, NotificationTypeKey) && HasText(h.payload, MessageKey)
      modifies this`accepted
      ensures Allowed(expected, canonical, old(Facts()), h) && (r.Ok? <==> NotificationPayload(h.payload))
      ensures r.Err? ==> unchanged(this)
      ensures r.Ok? ==> Valid() && accepted == old(accepted) + [h] && r.value == []
    {
      var p := h.payload;
      NotificationMayFollow(expected, canonical, Facts(), h);
      if p[NotificationTypeKey].s !in NOTIFICATION_TYPES { return Err(MalformedPayload); }
      if p[NotificationTypeKey].s in BLOCKING_NOTIFICATIONS { return Err(CannotAnswer); }
      Accept(h);
      return Ok([]);
    }

    method HandleIdlePrompt(h: Hook) returns (r: Handled)
      requires Valid() && CommonValid(h) && IsIdle(h)
      modifies this`idleSeen, this`accepted
      ensures r.Ok? <==> Allowed(expected, canonical, old(Facts()), h)
      ensures r.Err? ==> unchanged(this)
      ensures r.Ok? ==> Valid() && accepted == old(accepted) + [h] && r.value == []
    {
      if !active { return Err(OutOfOrder); }
      if !stopSeen { return Err(OutOfOrder); }
      if CarriesCorrelation(h.payload) && !CorrelationMatches(h.payload) { return Err(WrongTurn); }
      IdleMayFollow(expected, canonical, Facts(), h);
      Accept(h);
      idleSeen := true;
      return Ok([]);
    }

    /** _handle_permission_request: every path raises. */
    function PermissionError(h: Hook): HookError
      reads this
    {
      var p := h.payload;
      if !CurrentTurnValid(h) then WrongTurn
      else if !HasText(p, ToolNameKey) || !HasDict(p, ToolInputKey) then MalformedPayload
      else CannotAnswer
    }

    method HandleSessionEnd(h: Hook) returns (r: Handled)
      requires Valid() && h.kind.SessionEnd?
      modifies this`accepted
      ensures r.Ok? <==> Allowed(expected, canonical, old(Facts()), h) && EndPayload(h.payload)
      ensures r.Err? ==> unchanged(this)
      ensures r.Ok? ==> Valid() && accepted == old(accepted) + [h] && r.value == []
    {
      if !CommonValid(h) { return Err(WrongSession); }
      if !HasText(h.payload, ReasonKey) || h.payload[ReasonKey].s !in SESSION_END_REASONS { return Err(MalformedPayload); }
      if active && !idleSeen { return Err(OutOfOrder); }
      Accept(h);
      return Ok([]);
    }

    /** The part of the dispatch on the hooks that must belong to the acknowledged turn. */
    method HandleTurnHook(h: Hook) returns (r: Handled)
      requires Valid() && IsTurnHook(h.kind)
      modifies this`seenBatches, this`stopSeen, this`stopCandidate, this`failure, this`accepted
      ensures r.Ok? <==> Allowed(expected, canonical, old(Facts()), h) && TurnPayload(h)
      ensures r.Err? ==> unchanged(this)
      ensures r.Ok? ==> Valid() && accepted == old(accepted) + [h] && r.value == TurnHookEvents(h)
      ensures failure.Some? <==> old(failure).Some? || (r.Ok? && h.kind.StopFailure?)
    {
      match h.kind
      case MessageDisplay => r := HandleMessageDisplay(h);
      case PreToolUse => r := HandlePreToolUse(h);
      case PostToolUse => r := HandlePostToolUse(h);
      case PostToolUseFailure => r := HandlePostToolUse(h);
      case PostCompact => r := HandlePostCompact(h);
      case Stop => r := HandleStop(h);
      case StopFailure => r := HandleStopFailure(h);
    }

    /** The rest of the dispatch. */
    method HandleSessionHook(h: Hook) returns (r: Handled)
      requires Valid() && !IsTurnHook(h.kind)
      modifies this`sessionStarted, this`acknowledged, this`active, this`correlation, this`idleSeen, this`accepted
      ensures r.Ok? <==> Allowed(expected, canonical, old(Facts()), h) && SessionPayload(expected, old(correlation), h)
      ensures r.Err? ==> unchanged(this)
      ensures r.Ok? ==> Valid() && accepted == old(accepted) + [h] && r.value == EventsOf(expected, h)
      ensures old(acknowledged) ==> acknowledged
    {
      match h.kind
      case SessionStart => r := HandleSessionStart(h);
      case UserPromptSubmit => r := HandleUserPromptSubmit(h);
      case Notification => r := HandleNotification(h);
      case PermissionRequest => r := Err(PermissionError(h));
      case SessionEnd => r := HandleSessionEnd(h);
      case _ => r := Err(UnknownHook);
    }

    /**
     * Validate one hook payload.  It is accepted exactly when the history allows it and its own
     * fields are in order; a rejected one changes nothing, an accepted one joins the history.
     */
    method Handle(h: Hook) returns (r: Handled)
      requires Valid()
      modifies this
      ensures r.Ok? <==> Allowed(expected, canonical, old(Facts()), h) && Payloads(expected, old(correlation), h)
      ensures r.Err? ==> unchanged(this)
      ensures r.Ok? ==> Valid() && accepted == old(accepted) + [h] && r.value == EventsOf(expected, h)
      ensures old(acknowledged) ==> acknowledged
      ensures failure.Some? <==> old(failure).Some? || (r.Ok? && h.kind.StopFailure?)
    {
      if IsTurnHook(h.kind) {
        r := HandleTurnHook(h);
      } else {
        r := HandleSessionHook(h);
      }
    }
  }

  /** The fields decide acceptance as the history does. */
  lemma {:induction false} FieldsDecide(turn: HookTurnState, h: Hook)
    requires turn.Valid()
    ensures Accepts(turn.expected, turn.canonical, turn.accepted, h) <==>
              Allowed(turn.expected, turn.canonical, turn.Facts(), h) && Payloads(turn.expected, turn.correlation, h)
  {
    assert turn.Facts() == TurnOf(turn.accepted);
  }
}
