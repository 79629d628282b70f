/**
 * Hook payloads, and the histories of accepted hooks that one Claude turn may have.  `Allowed`
 * says which hook may follow an accepted history; the state machine is proved to accept nothing
 * else.
 */
module HookHistory {
  import opened Prelude

  datatype Json =
    | JNull
    | JBool(b: bool)
    | JInt(i: int)
    | JFloat(r: real)
    | JStr(s: string)
    | JList(items: seq<Json>)
    | JDict(fields: map<string, Json>)

  /** The payload keys the protocol reads (turn_id and turnId are different keys); any other key is OtherKey. */
  datatype Key =
    | HookEventNameKey | SessionIdKey | CwdKey | SourceKey | ModelKey
    | PromptKey | TurnIdKey | PromptIdKey | TurnIdCamelKey | PromptIdCamelKey
    | MessageIdKey | IndexKey | FinalKey | DeltaKey | ToolNameKey
    | ToolInputKey | ToolUseIdKey | ToolResponseKey | ErrorKey | TriggerKey
    | CompactSummaryKey | PreTokensKey | LastAssistantMessageKey | BackgroundTasksKey | SessionCronsKey
    | StopHookActiveKey | ErrorDetailsKey | NotificationTypeKey | MessageKey | ReasonKey
    | OtherKey(name: string)

  type Payload = map<Key, Json>

  datatype HookKind =
    | SessionStart | UserPromptSubmit | MessageDisplay | PreToolUse | PostToolUse | PostToolUseFailure
    | PostCompact | Stop | StopFailure | Notification | PermissionRequest | SessionEnd
    | Unsupported(name: string)

  /** The hook_event_name a kind is sent under. */
  function EventName(kind: HookKind): string {
    match kind
    case SessionStart => "SessionStart"
    case UserPromptSubmit => "UserPromptSubmit"
    case MessageDisplay => "MessageDisplay"
    case PreToolUse => "PreToolUse"
    case PostToolUse => "PostToolUse"
    case PostToolUseFailure => "PostToolUseFailure"
    case PostCompact => "PostCompact"
    case Stop => "Stop"
    case StopFailure => "StopFailure"
    case Notification => "Notification"
    case PermissionRequest => "PermissionRequest"
    case SessionEnd => "SessionEnd"
    case Unsupported(name) => name
  }

  datatype Hook = Hook(kind: HookKind, payload: Payload)

  /** What the turn was launched with. */
  datatype Expected = Expected(sessionId: string, cwd: string, prompt: string, model: string, source: string)

  predicate HasString(p: Payload, f: Key) {
    f in p && p[f].JStr?
  }

  /** _required_string */
  predicate HasText(p: Payload, f: Key) {
    HasString(p, f) && p[f].s != ""
  }

  /** isinstance(value, int): a JSON boolean is an int there. */
  predicate HasInt(p: Payload, f: Key) {
    f in p && (p[f].JInt? || p[f].JBool?)
  }

  function IntOf(v: Json): int {
    match v
    case JInt(i) => i
    case JBool(b) => if b then 1 else 0
    case _ => 0
  }

  predicate HasBool(p: Payload, f: Key) {
    f in p && p[f].JBool?
  }

  predicate HasList(p: Payload, f: Key) {
    f in p && p[f].JList?
  }

  predicate HasDict(p: Payload, f: Key) {
    f in p && p[f].JDict?
  }

  /** None passes, any other value must be a string. */
  predicate OptionalString(p: Payload, f: Key) {
    f in p ==> p[f].JNull? || p[f].JStr?
  }

  // ---------------------------------------------------------------------------
  // Turn correlation
  // ---------------------------------------------------------------------------

  predicate CarriesCorrelation(p: Payload) {
    TurnIdKey in p || PromptIdKey in p || TurnIdCamelKey in p || PromptIdCamelKey in p
  }

  /** The first correlation field present. */
  function FirstCorrelationField(p: Payload): (f: Key)
    requires CarriesCorrelation(p)
    ensures f in p
  {
    if TurnIdKey in p then TurnIdKey
    else if PromptIdKey in p then PromptIdKey
    else if TurnIdCamelKey in p then TurnIdCamelKey
    else PromptIdCamelKey
  }

  function Established(correlation: Option<(Key, string)>): Option<Key> {
    if correlation.Some? then Some(correlation.value.0) else None
  }

  /** _correlation: the established field when there is one, else the first present; None raises. */
  function CorrelationOf(established: Option<Key>, p: Payload): Option<(Key, string)> {
    if established.Some? then
      if HasText(p, established.value) then Some((established.value, p[established.value].s)) else None
    else if CarriesCorrelation(p) then
      var f := FirstCorrelationField(p);
      if HasText(p, f) then Some((f, p[f].s)) else None
    else None
  }

  // ---------------------------------------------------------------------------
  // Accepted histories
  // ---------------------------------------------------------------------------

  /** Hooks that must belong to the acknowledged turn. */
  predicate IsTurnHook(kind: HookKind) {
    kind.MessageDisplay? || kind.PreToolUse? || kind.PostToolUse? || kind.PostToolUseFailure?
    || kind.PostCompact? || kind.Stop? || kind.StopFailure?
  }

  predicate IsIdle(h: Hook) {
    h.kind.Notification? && HasString(h.payload, NotificationTypeKey)
    && h.payload[NotificationTypeKey].s == "idle_prompt"
  }

  /** What a turn's accepted hooks amount to. */
  datatype Turn = Turn(
    started: bool,                           // a SessionStart
    prompted: bool,                          // a UserPromptSubmit
    correlation: Option<(Key, string)>,   // what the latest prompt submission established
    stopMessage: Option<string>,             // the message of a Stop
    idle: bool,                              // an idle notification
    batches: set<(string, int)>)             // the displayed (message id, index) batches

  const FRESH_TURN := Turn(false, false, None, None, false, {})

  function Advance(t: Turn, h: Hook): Turn {
    var p := h.payload;
    if h.kind.SessionStart? then t.(started := true)
    else if h.kind.UserPromptSubmit? then
      t.(prompted := true, correlation := CorrelationOf(Established(t.correlation), p))
    else if h.kind.Stop? then
      t.(stopMessage := Some(if HasString(p, LastAssistantMessageKey) then p[LastAssistantMessageKey].s else ""))
    else if h.kind.MessageDisplay? then
      if HasString(p, MessageIdKey) && HasInt(p, IndexKey)
      then t.(batches := t.batches + {(p[MessageIdKey].s, IntOf(p[IndexKey]))}) else t
    else if IsIdle(h) then t.(idle := true)
    else t
  }

  function TurnOf(history: seq<Hook>): Turn {
    if history == [] then FRESH_TURN
    else Advance(TurnOf(history[..|history| - 1]), history[|history| - 1])
  }

  predicate CommonOk(expected: Expected, canonical: string -> string, h: Hook) {
    && HasText(h.payload, HookEventNameKey) && h.payload[HookEventNameKey].s == EventName(h.kind)
    && HasText(h.payload, SessionIdKey) && h.payload[SessionIdKey].s == expected.sessionId
    && HasText(h.payload, CwdKey) && canonical(h.payload[CwdKey].s) == canonical(expected.cwd)
  }

  /** A correlation a payload carries must be the current turn's. */
  predicate SameTurn(t: Turn, p: Payload) {
    CarriesCorrelation(p) ==>
      t.correlation.Some? && HasText(p, t.correlation.value.0) && p[t.correlation.value.0].s == t.correlation.value.1
  }

  /** Which hook may follow a history that amounts to t. */
  predicate Allowed(expected: Expected, canonical: string -> string, t: Turn, h: Hook) {
    var p := h.payload;
    && CommonOk(expected, canonical, h)
    && (h.kind.SessionStart? ==> !t.started)
    && (h.kind.UserPromptSubmit? ==>
          t.started && HasString(p, PromptKey) && p[PromptKey].s == expected.prompt
          && CorrelationOf(Established(t.correlation), p).Some?)
    && (IsTurnHook(h.kind) ==> t.started && t.prompted && SameTurn(t, p))
    && (h.kind.MessageDisplay? ==>
          CarriesCorrelation(p) && HasString(p, MessageIdKey) && HasInt(p, IndexKey)
          && (p[MessageIdKey].s, IntOf(p[IndexKey])) !in t.batches)
    && (h.kind.Stop? ==>
          t.stopMessage.None? && HasString(p, LastAssistantMessageKey)
          && HasList(p, BackgroundTasksKey) && p[BackgroundTasksKey].items == []
          && HasList(p, SessionCronsKey) && p[SessionCronsKey].items == []
          && HasBool(p, StopHookActiveKey) && !p[StopHookActiveKey].b)
    && (IsIdle(h) ==> t.prompted && t.stopMessage.Some? && SameTurn(t, p))
    && (h.kind.SessionEnd? ==> t.prompted ==> t.idle)
    && !h.kind.PermissionRequest?
  }

  lemma {:induction false} IdleMayFollow(expected: Expected, canonical: string -> string, t: Turn, h: Hook)
    requires CommonOk(expected, canonical, h) && IsIdle(h)
    requires t.prompted && t.stopMessage.Some? && SameTurn(t, h.payload)
    ensures Allowed(expected, canonical, t, h)
    ensures Advance(t, h) == t.(idle := true)
  {
  }

  lemma {:induction false} NotificationMayFollow(expected: Expected, canonical: string -> string, t: Turn, h: Hook)
    requires h.kind.Notification? && !IsIdle(h)
    ensures Allowed(expected, canonical, t, h) <==> CommonOk(expected, canonical, h)
    ensures Advance(t, h) == t
  {
  }

  /** The hooks of the current turn that leave what the history amounts to as it is. */
  lemma {:induction false} TurnHookMayFollow(expected: Expected, canonical: string -> string, t: Turn, h: Hook)
    requires IsTurnHook(h.kind) && !h.kind.MessageDisplay? && !h.kind.Stop?
    ensures Allowed(expected, canonical, t, h) <==>
              CommonOk(expected, canonical, h) && t.started && t.prompted && SameTurn(t, h.payload)
    ensures Advance(t, h) == t
  {
  }

  ghost predicate WellOrdered(expected: Expected, canonical: string -> string, history: seq<Hook>) {
    forall n :: 0 <= n < |history| ==> Allowed(expected, canonical, TurnOf(history[..n]), history[n])
  }

  lemma {:induction false} WellOrderedSnoc(expected: Expected, canonical: string -> string, history: seq<Hook>, h: Hook)
    requires WellOrdered(expected, canonical, history) && Allowed(expected, canonical, TurnOf(history), h)
    ensures WellOrdered(expected, canonical, history + [h])
    ensures TurnOf(history + [h]) == Advance(TurnOf(history), h)
  {
    var grown := history + [h];
    forall n | 0 <= n < |grown| ensures Allowed(expected, canonical, TurnOf(grown[..n]), grown[n]) {
      assert grown[..n] == history[..n];
      assert n == |history| ==> history[..n] == history;
    }
    assert grown[..|history|] == history;
  }

  // ---------------------------------------------------------------------------
  // What every accepted history satisfies
  // ---------------------------------------------------------------------------

  predicate Happened(history: seq<Hook>, kind: HookKind) {
    exists i :: 0 <= i < |history| && history[i].kind == kind
  }

  predicate Idled(history: seq<Hook>) {
    exists i :: 0 <= i < |history| && IsIdle(history[i])
  }

  lemma {:induction false} HappenedSnoc(history: seq<Hook>, h: Hook, kind: HookKind)
    ensures Happened(history + [h], kind) <==> Happened(history, kind) || h.kind == kind
  {
    var grown := history + [h];
    assert grown[|history|] == h;
    if Happened(history, kind) {
      var i :| 0 <= i < |history| && history[i].kind == kind;
      assert grown[i].kind == kind;
    }
  }

  lemma {:induction false} IdledSnoc(history: seq<Hook>, h: Hook)
    ensures Idled(history + [h]) <==> Idled(history) || IsIdle(h)
  {
    var grown := history + [h];
    assert grown[|history|] == h;
    if Idled(history) {
      var i :| 0 <= i < |history| && IsIdle(history[i]);
      assert IsIdle(grown[i]);
    }
  }

  /** The folded facts say whether each milestone happened. */
  lemma {:induction false} TurnMeans(history: seq<Hook>)
    ensures TurnOf(history).started <==> Happened(history, SessionStart)
    ensures TurnOf(history).prompted <==> Happened(history, UserPromptSubmit)
    ensures TurnOf(history).stopMessage.Some? <==> Happened(history, Stop)
    ensures TurnOf(history).idle <==> Idled(history)
  {
    if history != [] {
      var n := |history| - 1;
      TurnMeans(history[..n]);
      assert history == history[..n] + [history[n]];
      HappenedSnoc(history[..n], history[n], SessionStart);
      HappenedSnoc(history[..n], history[n], UserPromptSubmit);
      HappenedSnoc(history[..n], history[n], Stop);
      IdledSnoc(history[..n], history[n]);
    }
  }

  /** An earlier hook of a milestone, found from the facts before place n. */
  lemma {:induction false} Earlier(history: seq<Hook>, n: nat, kind: HookKind) returns (i: nat)
    requires n <= |history| && Happened(history[..n], kind)
    ensures i < n && history[i].kind == kind
  {
    i :| 0 <= i < n && history[..n][i].kind == kind;
  }

  /** An idle turn went through start, prompt, stop and idle, in that order. */
  lemma {:induction false} IdleComesLast(expected: Expected, canonical: string -> string, history: seq<Hook>)
      returns (a: nat, b: nat, c: nat, d: nat)
    requires WellOrdered(expected, canonical, history) && Idled(history)
    ensures a < b < c < d < |history|
    ensures history[a].kind.SessionStart? && history[b].kind.UserPromptSubmit?
    ensures history[c].kind.Stop? && IsIdle(history[d])
  {
    d :| d < |history| && IsIdle(history[d]);
    assert Allowed(expected, canonical, TurnOf(history[..d]), history[d]);
    TurnMeans(history[..d]);
    c := Earlier(history, d, Stop);
    assert Allowed(expected, canonical, TurnOf(history[..c]), history[c]);
    TurnMeans(history[..c]);
    b := Earlier(history, c, UserPromptSubmit);
    assert Allowed(expected, canonical, TurnOf(history[..b]), history[b]);
    TurnMeans(history[..b]);
    a := Earlier(history, b, SessionStart);
  }

  /** SessionStart and Stop are each accepted at most once. */
  lemma {:induction false} OnlyOnce(expected: Expected, canonical: string -> string, history: seq<Hook>, i: nat, j: nat)
    requires WellOrdered(expected, canonical, history) && i < j < |history|
    requires history[i].kind.SessionStart? || history[i].kind.Stop?
    ensures history[j].kind != history[i].kind
  {
    assert Allowed(expected, canonical, TurnOf(history[..j]), history[j]);
    assert history[..j][i].kind == history[i].kind;
    TurnMeans(history[..j]);
  }

  lemma {:induction false} OnlyStopSetsTheMessage(t: Turn, h: Hook)
    ensures !h.kind.Stop? ==> Advance(t, h).stopMessage == t.stopMessage
    ensures h.kind.Stop? && HasString(h.payload, LastAssistantMessageKey) ==>
              Advance(t, h).stopMessage == Some(h.payload[LastAssistantMessageKey].s)
  {
  }

  lemma {:induction false} LastStopIsKept(history: seq<Hook>, i: nat)
    requires i < |history| && history[i].kind.Stop? && HasString(history[i].payload, LastAssistantMessageKey)
    requires forall j :: i < j < |history| ==> !history[j].kind.Stop?
    ensures TurnOf(history).stopMessage == Some(history[i].payload[LastAssistantMessageKey].s)
  {
    var n := |history| - 1;
    OnlyStopSetsTheMessage(TurnOf(history[..n]), history[n]);
    if i < n {
      LastStopIsKept(history[..n], i);
    }
  }

  /** The kept message is the one the accepted Stop carried. */
  lemma {:induction false} StopMessageIs(expected: Expected, canonical: string -> string, history: seq<Hook>, i: nat)
    requires WellOrdered(expected, canonical, history) && i < |history| && history[i].kind.Stop?
    ensures HasString(history[i].payload, LastAssistantMessageKey)
    ensures TurnOf(history).stopMessage == Some(history[i].payload[LastAssistantMessageKey].s)
  {
    assert Allowed(expected, canonical, TurnOf(history[..i]), history[i]);
    forall j | i < j < |history| ensures !history[j].kind.Stop? {
      OnlyOnce(expected, canonical, history, i, j);
    }
    LastStopIsKept(history, i);
  }

  /** Start, prompt, Stop and idle happened in that order, and the Stop said message. */
  ghost predicate Concluded(history: seq<Hook>, message: string) {
    exists a, b, c, d ::
      && 0 <= a < b < c < d < |history|
      && history[a].kind.SessionStart? && history[b].kind.UserPromptSubmit?
      && SaysAtStop(history[c], message) && IsIdle(history[d])
  }

  predicate SaysAtStop(h: Hook, message: string) {
    h.kind.Stop? && HasString(h.payload, LastAssistantMessageKey) && h.payload[LastAssistantMessageKey].s == message
  }

  lemma {:induction false} IdleConcludes(expected: Expected, canonical: string -> string, history: seq<Hook>)
    requires WellOrdered(expected, canonical, history) && TurnOf(history).idle
    ensures TurnOf(history).stopMessage.Some? && Concluded(history, TurnOf(history).stopMessage.value)
  {
    TurnMeans(history);
    var a, b, c, d := IdleComesLast(expected, canonical, history);
    StopMessageIs(expected, canonical, history, c);
    assert SaysAtStop(history[c], TurnOf(history).stopMessage.value);
  }

  lemma {:induction false} BatchesHold(history: seq<Hook>, i: nat)
    requires i < |history| && history[i].kind.MessageDisplay?
    requires HasString(history[i].payload, MessageIdKey) && HasInt(history[i].payload, IndexKey)
    ensures (history[i].payload[MessageIdKey].s, IntOf(history[i].payload[IndexKey])) in TurnOf(history).batches
  {
    var n := |history| - 1;
    if i < n {
      BatchesHold(history[..n], i);
    }
  }

  /** No (message id, index) batch is accepted, and so emitted, twice. */
  lemma {:induction false} BatchesDiffer(expected: Expected, canonical: string -> string, history: seq<Hook>, i: nat, j: nat)
    requires WellOrdered(expected, canonical, history) && i < j < |history|
    requires history[i].kind.MessageDisplay? && history[j].kind.MessageDisplay?
    ensures HasString(history[i].payload, MessageIdKey) && HasInt(history[i].payload, IndexKey)
    ensures HasString(history[j].payload, MessageIdKey) && HasInt(history[j].payload, IndexKey)
    ensures (history[i].payload[MessageIdKey].s, IntOf(history[i].payload[IndexKey])) !=
            (history[j].payload[MessageIdKey].s, IntOf(history[j].payload[IndexKey]))
  {
    assert Allowed(expected, canonical, TurnOf(history[..i]), history[i]);
    assert Allowed(expected, canonical, TurnOf(history[..j]), history[j]);
    assert history[..j][i] == history[i];
    BatchesHold(history[..j], i);
  }

  // ---------------------------------------------------------------------------
  // What the payloads of an accepted history say of its turn
  // ---------------------------------------------------------------------------

  /** The field a first prompt establishes: the first of the four that its payload has. */
  predicate Establishes(p: Payload, k: Key) {
    || (k == TurnIdKey && k in p)
    || (k == PromptIdKey && k in p && TurnIdKey !in p)
    || (k == TurnIdCamelKey && k in p && TurnIdKey !in p && PromptIdKey !in p)
    || (k == PromptIdCamelKey && k in p && TurnIdKey !in p && PromptIdKey !in p && TurnIdCamelKey !in p)
  }

  /** The place of the first prompt in a history. */
  predicate FirstPrompt(history: seq<Hook>, f: nat) {
    f < |history| && history[f].kind.UserPromptSubmit? && forall j :: 0 <= j < f ==> !history[j].kind.UserPromptSubmit?
  }

  lemma {:induction false} NoCorrelationYet(history: seq<Hook>)
    requires forall j :: 0 <= j < |history| ==> !history[j].kind.UserPromptSubmit?
    ensures TurnOf(history).correlation.None?
  {
    if history != [] {
      NoCorrelationYet(history[..|history| - 1]);
    }
  }

  /** Only a prompt sets the correlation; it keeps the key there is, or establishes one, with its own value. */
  lemma {:induction false} CorrelationAdvances(t: Turn, h: Hook)
    ensures !h.kind.UserPromptSubmit? ==> Advance(t, h).correlation == t.correlation
    ensures h.kind.UserPromptSubmit? && CorrelationOf(Established(t.correlation), h.payload).Some? ==>
              var c := Advance(t, h).correlation;
              && c.Some? && HasText(h.payload, c.value.0) && c.value.1 == h.payload[c.value.0].s
              && (if t.correlation.Some? then c.value.0 == t.correlation.value.0 else Establishes(h.payload, c.value.0))
  {
  }

  lemma {:induction false} TurnStep(history: seq<Hook>, n: nat)
    requires 0 < n <= |history|
    ensures TurnOf(history[..n]) == Advance(TurnOf(history[..n - 1]), history[n - 1])
  {
    assert history[..n][..n - 1] == history[..n - 1];
  }

  predicate CorrelatesAt(history: seq<Hook>, n: nat)
    requires n < |history|
  {
    history[n].kind.UserPromptSubmit? ==>
      CorrelationOf(Established(TurnOf(history[..n]).correlation), history[n].payload).Some?
  }

  /** Every prompt has a correlation under the key established before it, if there is one. */
  predicate PromptsCorrelate(history: seq<Hook>) {
    forall n :: 0 <= n < |history| ==> CorrelatesAt(history, n)
  }

  lemma {:induction false} AcceptedCorrelate(expected: Expected, canonical: string -> string, history: seq<Hook>)
    requires WellOrdered(expected, canonical, history)
    ensures PromptsCorrelate(history)
  {
    forall n | 0 <= n < |history| ensures CorrelatesAt(history, n) {
      assert Allowed(expected, canonical, TurnOf(history[..n]), history[n]);
    }
  }

  /** From the first prompt on, the turn is known by the key it established. */
  lemma {:induction false} TurnKey(history: seq<Hook>, f: nat, n: nat) returns (k: Key)
    requires PromptsCorrelate(history) && FirstPrompt(history, f) && f < n <= |history|
    ensures Establishes(history[f].payload, k) && HasText(history[f].payload, k)
    ensures TurnOf(history[..n]).correlation.Some? && TurnOf(history[..n]).correlation.value.0 == k
    decreases n
  {
    if n == f + 1 {
      k := KeyEstablished(history, f);
    } else {
      k := TurnKey(history, f, n - 1);
      KeyStays(history, n - 1);
    }
  }

  lemma {:induction false} KeyEstablished(history: seq<Hook>, f: nat) returns (k: Key)
    requires FirstPrompt(history, f) && CorrelatesAt(history, f)
    ensures Establishes(history[f].payload, k) && HasText(history[f].payload, k)
    ensures TurnOf(history[..f + 1]).correlation.Some? && TurnOf(history[..f + 1]).correlation.value.0 == k
  {
    TurnStep(history, f + 1);
    NoCorrelationYet(history[..f]);
    CorrelationAdvances(TurnOf(history[..f]), history[f]);
    k := TurnOf(history[..f + 1]).correlation.value.0;
  }

  lemma {:induction false} KeyStays(history: seq<Hook>, n: nat)
    requires n < |history| && CorrelatesAt(history, n) && TurnOf(history[..n]).correlation.Some?
    ensures TurnOf(history[..n + 1]).correlation.Some?
    ensures TurnOf(history[..n + 1]).correlation.value.0 == TurnOf(history[..n]).correlation.value.0
  {
    TurnStep(history, n + 1);
    CorrelationAdvances(TurnOf(history[..n]), history[n]);
  }

  /** Every accepted prompt carries a non-empty string under the key that the first one established. */
  lemma {:induction false} PromptsShareKey(expected: Expected, canonical: string -> string, history: seq<Hook>, f: nat, j: nat)
      returns (k: Key)
    requires WellOrdered(expected, canonical, history) && FirstPrompt(history, f)
    requires j < |history| && history[j].kind.UserPromptSubmit?
    ensures Establishes(history[f].payload, k) && HasText(history[f].payload, k)
    ensures HasText(history[j].payload, k)
  {
    AcceptedCorrelate(expected, canonical, history);
    PromptHasKey(history, j);
    k := TurnKey(history, f, j + 1);
  }

  lemma {:induction false} PromptHasKey(history: seq<Hook>, j: nat)
    requires j < |history| && CorrelatesAt(history, j) && history[j].kind.UserPromptSubmit?
    ensures var c := TurnOf(history[..j + 1]).correlation;
            c.Some? && HasText(history[j].payload, c.value.0) && c.value.1 == history[j].payload[c.value.0].s
  {
    TurnStep(history, j + 1);
    CorrelationAdvances(TurnOf(history[..j]), history[j]);
  }

  lemma {:induction false} CorrelationStays(history: seq<Hook>, i: nat, n: nat)
    requires i < n <= |history| && forall j :: i < j < n ==> !history[j].kind.UserPromptSubmit?
    ensures TurnOf(history[..n]).correlation == TurnOf(history[..i + 1]).correlation
    decreases n
  {
    if i + 1 < n {
      CorrelationStays(history, i, n - 1);
      TurnStep(history, n);
      CorrelationAdvances(TurnOf(history[..n - 1]), history[n - 1]);
    }
  }

  lemma {:induction false} LatestPrompt(history: seq<Hook>, f: nat, i: nat, n: nat) returns (k: Key)
    requires PromptsCorrelate(history) && FirstPrompt(history, f)
    requires i < n <= |history| && history[i].kind.UserPromptSubmit?
    requires forall j :: i < j < n ==> !history[j].kind.UserPromptSubmit?
    ensures Establishes(history[f].payload, k) && HasText(history[f].payload, k)
    ensures HasText(history[i].payload, k) && TurnOf(history[..n]).correlation == Some((k, history[i].payload[k].s))
  {
    k := TurnKey(history, f, n);
    assert CorrelatesAt(history, i);
    PromptHasKey(history, i);
    CorrelationStays(history, i, n);
  }

  /**
   * A hook that carries any of the four correlation fields belongs to the latest accepted prompt:
   * under the one key that the first prompt of the history established, both carry the same
   * non-empty string.
   */
  lemma {:induction false} BelongsToLatestPrompt(expected: Expected, canonical: string -> string, history: seq<Hook>,
                                                 f: nat, i: nat, n: nat) returns (k: Key)
    requires WellOrdered(expected, canonical, history) && FirstPrompt(history, f)
    requires i < n < |history| && history[i].kind.UserPromptSubmit?
    requires forall j :: i < j < n ==> !history[j].kind.UserPromptSubmit?
    requires history[n].kind in {MessageDisplay, PreToolUse, PostToolUse, PostToolUseFailure, PostCompact, Stop, StopFailure}
             || (history[n].kind == Notification && NotificationTypeKey in history[n].payload
                 && history[n].payload[NotificationTypeKey] == JStr("idle_prompt"))
    requires var p := history[n].payload; TurnIdKey in p || PromptIdKey in p || TurnIdCamelKey in p || PromptIdCamelKey in p
    ensures Establishes(history[f].payload, k) && HasText(history[f].payload, k)
    ensures HasText(history[i].payload, k) && HasText(history[n].payload, k)
    ensures history[n].payload[k].s == history[i].payload[k].s
  {
    AcceptedCorrelate(expected, canonical, history);
    k := LatestPrompt(history, f, i, n);
    assert Allowed(expected, canonical, TurnOf(history[..n]), history[n]);
  }

  predicate NamesNoTurn(p: Payload) {
    TurnIdKey !in p && PromptIdKey !in p && TurnIdCamelKey !in p && PromptIdCamelKey !in p
  }

  /**
   * A tool hook, a compaction or a reported failure of this session is allowed after a prompt if and
   * only if it names no turn, or the one of the latest prompt under the established key.
   */
  lemma {:induction false} CurrentTurnIff(expected: Expected, canonical: string -> string, history: seq<Hook>,
                                          f: nat, i: nat, h: Hook) returns (k: Key)
    requires WellOrdered(expected, canonical, history) && FirstPrompt(history, f)
    requires i < |history| && history[i].kind.UserPromptSubmit?
    requires forall j :: i < j < |history| ==> !history[j].kind.UserPromptSubmit?
    requires h.kind in {PreToolUse, PostToolUse, PostToolUseFailure, PostCompact, StopFailure} && CommonOk(expected, canonical, h)
    ensures Establishes(history[f].payload, k) && HasText(history[f].payload, k) && HasText(history[i].payload, k)
    ensures Allowed(expected, canonical, TurnOf(history), h) <==>
              NamesNoTurn(h.payload) || (HasText(h.payload, k) && h.payload[k].s == history[i].payload[k].s)
  {
    assert history[..|history|] == history;
    AcceptedCorrelate(expected, canonical, history);
    k := LatestPrompt(history, f, i, |history|);
    StartedAndPrompted(expected, canonical, history, i);
    TurnHookMayFollow(expected, canonical, TurnOf(history), h);
  }

  lemma {:induction false} StartedAndPrompted(expected: Expected, canonical: string -> string, history: seq<Hook>, i: nat)
    requires WellOrdered(expected, canonical, history) && i < |history| && history[i].kind.UserPromptSubmit?
    ensures TurnOf(history).started && TurnOf(history).prompted
  {
    assert Allowed(expected, canonical, TurnOf(history[..i]), history[i]);
    TurnMeans(history[..i]);
    var a := Earlier(history, i, SessionStart);
    TurnMeans(history);
  }

  /** Every hook of the turn comes after a start and, after that, a prompt, and a displayed message names its turn. */
  lemma {:induction false} TurnHooksComeLater(expected: Expected, canonical: string -> string, history: seq<Hook>, n: nat)
      returns (a: nat, b: nat)
    requires WellOrdered(expected, canonical, history) && n < |history| && IsTurnHook(history[n].kind)
    ensures a < b < n && history[a].kind.SessionStart? && history[b].kind.UserPromptSubmit?
    ensures var p := history[n].payload;
            history[n].kind.MessageDisplay? ==>
              TurnIdKey in p || PromptIdKey in p || TurnIdCamelKey in p || PromptIdCamelKey in p
  {
    assert Allowed(expected, canonical, TurnOf(history[..n]), history[n]);
    TurnMeans(history[..n]);
    b := Earlier(history, n, UserPromptSubmit);
    assert Allowed(expected, canonical, TurnOf(history[..b]), history[b]);
    TurnMeans(history[..b]);
    a := Earlier(history, b, SessionStart);
  }

  /** A session ends in an accepted history only before any prompt or after an idle notification. */
  lemma {:induction false} SessionEndsIdle(expected: Expected, canonical: string -> string, history: seq<Hook>, i: nat, n: nat)
      returns (d: nat)
    requires WellOrdered(expected, canonical, history) && i < n < |history|
    requires history[i].kind.UserPromptSubmit? && history[n].kind.SessionEnd?
    ensures d < n && IsIdle(history[d])
  {
    assert Allowed(expected, canonical, TurnOf(history[..n]), history[n]);
    TurnMeans(history[..n]);
    assert history[..n][i] == history[i];
    d :| 0 <= d < n && IsIdle(history[..n][d]);
  }

  /** Every accepted hook names this session and directory, every prompt is the expected one, and no permission is asked. */
  lemma {:induction false} EveryHookBelongs(expected: Expected, canonical: string -> string, history: seq<Hook>, n: nat)
    requires WellOrdered(expected, canonical, history) && n < |history|
    ensures var p := history[n].payload;
            && SessionIdKey in p && p[SessionIdKey] == JStr(expected.sessionId) && expected.sessionId != ""
            && CwdKey in p && p[CwdKey].JStr? && canonical(p[CwdKey].s) == canonical(expected.cwd)
            && (history[n].kind.UserPromptSubmit? ==> PromptKey in p && p[PromptKey] == JStr(expected.prompt))
            && history[n].kind != PermissionRequest
  {
    assert Allowed(expected, canonical, TurnOf(history[..n]), history[n]);
  }

  /** A Stop leaves no background task, no scheduled one and no active stop hook behind. */
  lemma {:induction false} StopIsFinal(expected: Expected, canonical: string -> string, history: seq<Hook>, n: nat)
    requires WellOrdered(expected, canonical, history) && n < |history| && history[n].kind.Stop?
    ensures var p := history[n].payload;
            && BackgroundTasksKey in p && p[BackgroundTasksKey] == JList([])
            && SessionCronsKey in p && p[SessionCronsKey] == JList([])
            && StopHookActiveKey in p && p[StopHookActiveKey] == JBool(false)
  {
    assert Allowed(expected, canonical, TurnOf(history[..n]), history[n]);
  }
}
