/**
 * The account relay: a watch folds a process's events into a decision, and the turn loop moves the
 * transcript to another account and resumes there, a bounded number of times.
 */
module Relay {
  import opened Prelude
  import opened Accounts

  const MAX_RELAYS_PER_TURN := 3
  const RELAY_MIN_RESET_AHEAD := 2700.0

  // ---------------------------------------------------------------------------
  // The watch
  // ---------------------------------------------------------------------------

  /** A backend event; info is None when the payload is not an object. */
  datatype Event =
    | RateLimit(info: Option<Info>)
    | AssistantText(namesAuthFailure: bool)
    | ToolResult
    | OtherEvent

  datatype Reason = RelayRejected | RelayWarning | LoginFailed

  /** A warning at or above the line whose reset is far enough ahead. */
  predicate ArmingWarning(e: Event, now: real) {
    && e.RateLimit? && e.info.Some? && e.info.value.status.AllowedWarning?
    && ReadingOf(e.info.value, now).Some? && ReadingOf(e.info.value, now).value.utilization >= WARNING_UTILIZATION
    && (e.info.value.resetsAt.None? || e.info.value.resetsAt.value - now > RELAY_MIN_RESET_AHEAD)
  }

  predicate Rejection(e: Event) {
    e.RateLimit? && e.info.Some? && e.info.value.status.RejectedStatus?
  }

  /** What a history of events (each with its time) amounts to. */
  predicate Rejected(history: seq<(Event, real)>) {
    history != [] && (Rejected(history[..|history| - 1]) || Rejection(history[|history| - 1].0))
  }

  predicate Warned(history: seq<(Event, real)>) {
    history != [] && (Warned(history[..|history| - 1]) || ArmingWarning(history[|history| - 1].0, history[|history| - 1].1))
  }

  /** A tool result came after an arming warning and before any rejection. */
  predicate Stopped(history: seq<(Event, real)>) {
    history != [] &&
    (var front := history[..|history| - 1];
     Stopped(front) || (history[|history| - 1].0.ToolResult? && Warned(front) && !Rejected(front)))
  }

  predicate AuthNamed(history: seq<(Event, real)>) {
    exists e :: e in history && e.0 == AssistantText(true)
  }

  /** What the events alone ask for: a rejection wins over a warning. */
  function ReasonOf(history: seq<(Event, real)>): Option<Reason> {
    if Rejected(history) then Some(RelayRejected) else if Stopped(history) then Some(RelayWarning) else None
  }

  lemma {:induction false} HistorySnoc(history: seq<(Event, real)>, e: Event, now: real)
    ensures var h := history + [(e, now)];
            && Rejected(h) == (Rejected(history) || Rejection(e))
            && Warned(h) == (Warned(history) || ArmingWarning(e, now))
            && Stopped(h) == (Stopped(history) || (e.ToolResult? && Warned(history) && !Rejected(history)))
            && AuthNamed(h) == (AuthNamed(history) || e == AssistantText(true))
  {
    var h := history + [(e, now)];
    assert h[..|history|] == history && h[|history|] == (e, now);
    assert (e, now) in h;
  }

  /** A warning arms from nine tenths on, if its reset is unknown or more than 45 minutes ahead. */
  lemma {:induction false} ArmingIs(info: Info, now: real)
    ensures ArmingWarning(RateLimit(Some(info)), now) <==>
              && info.status == AllowedWarning
              && (exists u :: u in info.utilizations && u >= 0.90)
              && (info.resetsAt.Some? ==> info.resetsAt.value > now + 45.0 * 60.0)
  {
    if info.utilizations != [] {
      MaxOfIs(info.utilizations);
    }
  }

  predicate RejectionAt(history: seq<(Event, real)>, i: nat)
    requires i < |history|
  {
    history[i].0.RateLimit? && history[i].0.info.Some? && history[i].0.info.value.status == RejectedStatus
  }

  predicate ArmsAt(history: seq<(Event, real)>, i: nat)
    requires i < |history|
  {
    ArmingWarning(history[i].0, history[i].1)
  }

  lemma {:induction false} RejectedMeans(history: seq<(Event, real)>)
    ensures Rejected(history) <==> exists i :: 0 <= i < |history| && RejectionAt(history, i)
  {
    if history != [] {
      var n := |history| - 1;
      RejectedMeans(history[..n]);
      assert forall i :: 0 <= i < n ==> RejectionAt(history[..n], i) == RejectionAt(history, i);
      assert Rejection(history[n].0) == RejectionAt(history, n);
    }
  }

  lemma {:induction false} WarnedMeans(history: seq<(Event, real)>)
    ensures Warned(history) <==> exists i :: 0 <= i < |history| && ArmsAt(history, i)
  {
    if history != [] {
      var n := |history| - 1;
      WarnedMeans(history[..n]);
      assert forall i :: 0 <= i < n ==> ArmsAt(history[..n], i) == ArmsAt(history, i);
      assert ArmsAt(history, n) == ArmingWarning(history[n].0, history[n].1);
    }
  }

  /** A tool result at j comes after an arming warning, and no rejection comes before it. */
  ghost predicate SafeStopAt(history: seq<(Event, real)>, j: nat)
    requires j < |history|
  {
    && history[j].0 == ToolResult
    && (exists i :: 0 <= i < j && ArmsAt(history, i))
    && (forall i :: 0 <= i < j ==> !RejectionAt(history, i))
  }

  lemma {:induction false} StoppedMeans(history: seq<(Event, real)>)
    ensures Stopped(history) <==> exists j :: 0 <= j < |history| && SafeStopAt(history, j)
  {
    if history != [] {
      var n := |history| - 1;
      StoppedMeans(history[..n]);
      forall j | 0 <= j < n ensures SafeStopAt(history[..n], j) <==> SafeStopAt(history, j) {
        assert forall i :: 0 <= i < j ==> ArmsAt(history[..n], i) == ArmsAt(history, i)
                                          && RejectionAt(history[..n], i) == RejectionAt(history, i);
      }
      LastStops(history);
    }
  }

  lemma {:induction false} LastStops(history: seq<(Event, real)>)
    requires history != []
    ensures var n := |history| - 1;
            SafeStopAt(history, n) <==> history[n].0.ToolResult? && Warned(history[..n]) && !Rejected(history[..n])
  {
    var n := |history| - 1;
    WarnedMeans(history[..n]);
    RejectedMeans(history[..n]);
    assert forall i :: 0 <= i < n ==> ArmsAt(history[..n], i) == ArmsAt(history, i)
                                      && RejectionAt(history[..n], i) == RejectionAt(history, i);
  }

  /** What a process's events ask for: a rejection anywhere, else a safe stop, else nothing. */
  lemma {:induction false} ReasonMeans(history: seq<(Event, real)>)
    ensures ReasonOf(history) == Some(RelayRejected) <==> exists i :: 0 <= i < |history| && RejectionAt(history, i)
    ensures ReasonOf(history) == Some(RelayWarning) <==>
              (forall i :: 0 <= i < |history| ==> !RejectionAt(history, i))
              && exists j :: 0 <= j < |history| && SafeStopAt(history, j)
  {
    RejectedMeans(history);
    StoppedMeans(history);
  }

  class RelayWatch {
    const login: string
    const memory: PoolMemory
    var reason: Option<Reason>
    var armed: bool
    var authFailed: bool
    ghost var history: seq<(Event, real)>

    /** The fields are functions of the events seen. */
    ghost predicate Valid()
      reads this
    {
      && (authFailed <==> AuthNamed(history))
      && reason == ReasonOf(history)
      && (reason.None? ==> (armed <==> Warned(history)))
    }

    constructor (account: string, poolMemory: PoolMemory)
      ensures Valid() && history == [] && login == account && memory == poolMemory
    {
      login, memory := account, poolMemory;
      reason, armed, authFailed, history := None, false, false, [];
    }

    /** True exactly at the first tool result after an arming warning, with no rejection before it. */
    method Observe(e: Event, now: real) returns (terminate: bool)
      requires Valid()
      modifies this, memory`events
      ensures Valid() && history == old(history) + [(e, now)]
      ensures terminate <==>
                e.ToolResult? && Warned(old(history)) && !Rejected(old(history)) && !Stopped(old(history))
      ensures memory.events ==
              if e.RateLimit? && e.info.Some? && ReadingOf(e.info.value, now).Some?
              then old(memory.events)[login := ReadingOf(e.info.value, now).value] else old(memory.events)
    {
      HistorySnoc(history, e, now);
      history := history + [(e, now)];
      match e
      case RateLimit(info) =>
        if info.Some? {
          ObserveInfo(info.value, now);
        }
        return false;
      case AssistantText(namesAuthFailure) =>
        if namesAuthFailure { authFailed := true; }
        return false;
      case ToolResult =>
        if armed && reason.None? {
          reason := Some(RelayWarning);
          return true;
        }
        return false;
      case OtherEvent =>
        return false;
    }

    /** The rate-limit branch: the reading is stored, a rejection asks for a relay, a high warning arms one. */
    method ObserveInfo(info: Info, now: real)
      modifies this`reason, this`armed, memory`events
      ensures memory.events == if ReadingOf(info, now).Some? then old(memory.events)[login := ReadingOf(info, now).value]
                               else old(memory.events)
      ensures reason == if Rejection(RateLimit(Some(info))) then Some(RelayRejected) else old(reason)
      ensures armed <==> !Rejection(RateLimit(Some(info))) && (old(armed) || ArmingWarning(RateLimit(Some(info)), now))
    {
      var reading := memory.ObserveRateLimit(login, info, now);
      if info.status.RejectedStatus? {
        reason := Some(RelayRejected);
        armed := false;
      } else if info.status.AllowedWarning? && reading.Some? && reading.value.utilization >= WARNING_UTILIZATION
                && (info.resetsAt.None? || info.resetsAt.value - now > RELAY_MIN_RESET_AHEAD) {
        armed := true;
      }
    }

    /** What the finished run asks for. */
    function Decision(exitCode: int, stderrNamesAuthFailure: bool): Option<Reason>
      reads this
    {
      if exitCode != 0 && (authFailed || stderrNamesAuthFailure) then Some(LoginFailed) else reason
    }
  }

  /** The watch asks for termination at event i. */
  predicate TerminatesAt(history: seq<(Event, real)>, i: nat)
    requires i < |history|
  {
    history[i].0.ToolResult? && Warned(history[..i]) && !Rejected(history[..i]) && !Stopped(history[..i])
  }

  lemma {:induction false} StoppedStays(history: seq<(Event, real)>, i: nat, j: nat)
    requires i <= j <= |history| && Stopped(history[..i])
    ensures Stopped(history[..j])
  {
    if i < j {
      StoppedStays(history, i, j - 1);
      assert history[..j][..j - 1] == history[..j - 1];
    }
  }

  /** A process is asked to terminate at most once. */
  lemma {:induction false} TerminatesOnce(history: seq<(Event, real)>, i: nat, j: nat)
    requires i < |history| && j < |history| && TerminatesAt(history, i) && TerminatesAt(history, j)
    ensures i == j
  {
    assert history[..i + 1][..i] == history[..i];
    assert history[..j + 1][..j] == history[..j];
    assert Stopped(history[..i + 1]) && Stopped(history[..j + 1]);
    if i < j {
      StoppedStays(history, i + 1, j);
    } else if j < i {
      StoppedStays(history, j + 1, i);
    }
  }

  // ---------------------------------------------------------------------------
  // Moving to the next account
  // ---------------------------------------------------------------------------

  /** How a copy lands: whole, or of another size. */
  datatype CopyOutcome = Faithful | Damaged(content: string)

  datatype RelayError = NoSession | PoolExhausted | CopyFailed

  /** Transcripts by config directory and session id. */
  type Files = map<(string, string), string>

  /** A copy fails if the source is missing, or if what lands has another size. */
  predicate CopyFails(files: Files, sid: string, src: string, copy: CopyOutcome) {
    (src, sid) !in files || (copy.Damaged? && |copy.content| != |files[(src, sid)]|)
  }

  /** What a copy leaves, a damaged one included. */
  function Moved(files: Files, sid: string, src: string, dst: string, copy: CopyOutcome): Files {
    if (src, sid) !in files then files
    else files[(dst, sid) := if copy.Faithful? then files[(src, sid)] else copy.content]
  }

  class TranscriptStore {
    var files: Files

    constructor ()
      ensures files == map[]
    {
      files := map[];
    }

    /** move_transcript: the source stays where it is. */
    method Move(sid: string, src: string, dst: string, copy: CopyOutcome) returns (ok: bool)
      requires src != dst
      modifies this
      ensures ok <==> !CopyFails(old(files), sid, src, copy)
      ensures files == Moved(old(files), sid, src, dst, copy)
    {
      if (src, sid) !in files { return false; }
      var landed := if copy.Faithful? then files[(src, sid)] else copy.content;
      files := files[(dst, sid) := landed];
      return |landed| == |files[(src, sid)]|;
    }

    method Write(dir: string, sid: string, content: string)
      modifies this
      ensures files == old(files)[(dir, sid) := content]
    {
      files := files[(dir, sid) := content];
    }
  }

  predicate Named(sid: Option<string>) {
    sid.Some? && sid.value != ""
  }

  /** Accounts of a pool have directories of their own. */
  predicate DistinctDirs(pool: seq<Account>) {
    forall a, b :: a in pool && b in pool && a.configDir == b.configDir ==> a.login == b.login
  }

  /** No account besides the current one is available. */
  ghost predicate NoneAvailable(q: Query, pool: seq<Account>, current: string) {
    forall a :: a in pool ==> !Available(q.(exclude := {current}, busy := None), a)
  }

  /** The account that the selection rule picks besides the current one. */
  ghost predicate IsNext(q: Query, pool: seq<Account>, current: string, a: Account) {
    IsChoice(q.(exclude := {current}, busy := None), pool, a)
  }

  /**
   * The next account, or exactly why there is none: no conversation to move, no account to take it,
   * or a copy that failed.  Nothing but the copy changes.
   */
  method MoveToNextAccount(store: TranscriptStore, pool: seq<Account>, q: Query, current: Account,
                           sid: Option<string>, copy: CopyOutcome) returns (r: Result<Account, RelayError>)
    requires DistinctDirs(pool) && current in pool
    modifies store
    ensures old(store.files).Keys <= store.files.Keys
    ensures r.Ok? ==>
              && Named(sid) && r.value in pool && r.value.login != current.login
              && IsNext(q, pool, current.login, r.value)
              && store.files == Moved(old(store.files), sid.value, current.configDir, r.value.configDir, copy)
              && (current.configDir, sid.value) in store.files && (r.value.configDir, sid.value) in store.files
    ensures r == Err(NoSession) <==> !Named(sid)
    ensures r == Err(PoolExhausted) <==> Named(sid) && NoneAvailable(q, pool, current.login)
    ensures r == Err(CopyFailed) <==>
              && Named(sid) && !NoneAvailable(q, pool, current.login)
              && CopyFails(old(store.files), sid.value, current.configDir, copy)
    ensures r == Err(NoSession) || r == Err(PoolExhausted) ==> store.files == old(store.files)
    ensures r == Err(CopyFailed) ==>
              exists a :: IsNext(q, pool, current.login, a)
                          && store.files == Moved(old(store.files), sid.value, current.configDir, a.configDir, copy)
  {
    if !Named(sid) { return Err(NoSession); }
    var next := Select(q.(exclude := {current.login}, busy := None), pool);
    if next.None? { return Err(PoolExhausted); }
    var ok := store.Move(sid.value, current.configDir, next.value.configDir, copy);
    if !ok { return Err(CopyFailed); }
    return Ok(next.value);
  }
}
