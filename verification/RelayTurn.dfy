/**
 * One turn on pooled accounts: a process runs, what it and everyone else observed decides whether
 * the turn goes on, and a relay resumes the conversation on another account.
 */
module RelayTurn {
  import opened Prelude
  import opened Accounts
  import opened Relay

  // ---------------------------------------------------------------------------
  // What is remembered
  // ---------------------------------------------------------------------------

  /** What other runs and the usage panel observe while a process runs. */
  datatype Observation =
    | OtherInfo(login: string, info: Info)
    | OtherPanel(login: string, panel: Panel)
    | OtherFailure(login: string)

  /**
   * What one process does (the transcript it leaves, if any, included), what is observed meanwhile,
   * the moment its end is decided on, and how a copy after it would land.
   */
  datatype ProcessRun = ProcessRun(events: seq<(Event, real)>, exitCode: int, stderrNamesAuthFailure: bool,
                                   sessionId: Option<string>, transcript: Option<string>, observed: seq<Observation>,
                                   credentials: set<string>, now: real, copy: CopyOutcome)

  /** What a finished process asks for: a failed login wins over everything its events ask. */
  ghost function DecisionOf(run: ProcessRun): Option<Reason> {
    if run.exitCode != 0 && (AuthNamed(run.events) || run.stderrNamesAuthFailure) then Some(LoginFailed)
    else ReasonOf(run.events)
  }

  /** What a process asks for: a failed login, if it failed and said so, before anything its events ask. */
  lemma {:induction false} DecisionMeans(run: ProcessRun)
    ensures DecisionOf(run) == Some(LoginFailed) <==>
              run.exitCode != 0
              && (run.stderrNamesAuthFailure
                  || exists i :: 0 <= i < |run.events| && run.events[i].0 == AssistantText(true))
    ensures DecisionOf(run) != Some(LoginFailed) ==> DecisionOf(run) == ReasonOf(run.events)
  {
    if i :| 0 <= i < |run.events| && run.events[i].0 == AssistantText(true) {
      assert run.events[i] in run.events;
    }
  }

  function Learn(k: Known, login: string, info: Info, now: real): Known {
    var reading := ReadingOf(info, now);
    if reading.Some? then k.(events := k.events[login := reading.value]) else k
  }

  function AfterEvent(k: Known, login: string, e: Event, now: real): Known {
    if e.RateLimit? && e.info.Some? then Learn(k, login, e.info.value, now) else k
  }

  function AfterEvents(k: Known, login: string, events: seq<(Event, real)>): Known {
    if events == [] then k
    else
      var (e, at) := events[|events| - 1];
      AfterEvent(AfterEvents(k, login, events[..|events| - 1]), login, e, at)
  }

  /** After a process's events the account's reading is that of the last one that taught something. */
  lemma {:induction false} LastTaught(k: Known, login: string, events: seq<(Event, real)>, i: nat)
    requires i < |events| && Teaches(events[i]) && forall j :: i < j < |events| ==> !Teaches(events[j])
    ensures login in AfterEvents(k, login, events).events
    ensures Some(AfterEvents(k, login, events).events[login]) == ReadingOf(events[i].0.info.value, events[i].1)
  {
    var n := |events| - 1;
    if i < n {
      LastTaught(k, login, events[..n], i);
    }
  }

  /** A rate-limit event with a utilization, or a rejection. */
  predicate Teaches(event: (Event, real)) {
    && event.0.RateLimit? && event.0.info.Some?
    && (event.0.info.value.utilizations != [] || event.0.info.value.status == RejectedStatus)
  }

  function AfterObservation(k: Known, o: Observation, now: real): Known {
    match o
    case OtherInfo(login, info) => Learn(k, login, info, now)
    case OtherPanel(login, panel) => k.(panels := k.panels[login := panel])
    case OtherFailure(login) => k.(authFailures := k.authFailures[login := now])
  }

  function AfterObserved(k: Known, observed: seq<Observation>, now: real): Known {
    if observed == [] then k
    else AfterObservation(AfterObserved(k, observed[..|observed| - 1], now), observed[|observed| - 1], now)
  }

  /** What is remembered when a process's end is decided on. */
  ghost function AfterRun(k: Known, login: string, run: ProcessRun): Known {
    var known := AfterObserved(AfterEvents(k, login, run.events), run.observed, run.now);
    if DecisionOf(run) == Some(LoginFailed) then known.(authFailures := known.authFailures[login := run.now]) else known
  }

  /** Stream a process's events; the events after a termination request still arrive. */
  method Stream(account: Account, memory: PoolMemory, run: ProcessRun) returns (decision: Option<Reason>)
    modifies memory`events
    ensures decision == DecisionOf(run)
    ensures memory.Remembered() == AfterEvents(old(memory.Remembered()), account.login, run.events)
  {
    var watch := new RelayWatch(account.login, memory);
    ghost var before := memory.Remembered();
    assert run.events[..0] == [];
    for i := 0 to |run.events|
      invariant watch.Valid() && watch.history == run.events[..i] && watch.memory == memory && watch.login == account.login
      invariant memory.Remembered() == AfterEvents(before, account.login, run.events[..i])
    {
      assert run.events[..i + 1][..i] == run.events[..i];
      var terminate := watch.Observe(run.events[i].0, run.events[i].1);
    }
    assert run.events[..|run.events|] == run.events;
    decision := watch.Decision(run.exitCode, run.stderrNamesAuthFailure);
  }

  method Overhear(memory: PoolMemory, observed: seq<Observation>, now: real)
    modifies memory
    ensures memory.Remembered() == AfterObserved(old(memory.Remembered()), observed, now)
  {
    ghost var before := memory.Remembered();
    assert observed[..0] == [];
    for i := 0 to |observed|
      invariant memory.Remembered() == AfterObserved(before, observed[..i], now)
    {
      assert observed[..i + 1][..i] == observed[..i];
      match observed[i]
      case OtherInfo(login, info) => var reading := memory.ObserveRateLimit(login, info, now);
      case OtherPanel(login, panel) => memory.ObserveUsagePanel(login, panel);
      case OtherFailure(login) => memory.RecordAuthFailure(login, now);
    }
    assert observed[..|observed|] == observed;
  }

  // ---------------------------------------------------------------------------
  // One process
  // ---------------------------------------------------------------------------

  datatype Spawn = Spawn(account: Option<Account>, resume: Option<string>, continuation: bool)

  datatype TurnOutcome = Ended | RelayLimit | RelayFailed(error: RelayError)

  /** What a process leaves of the transcripts. */
  function Transcribed(files: Files, dir: string, conversation: Option<string>, run: ProcessRun): Files {
    if Named(conversation) && run.transcript.Some? then files[(dir, conversation.value) := run.transcript.value] else files
  }

  /**
   * One process to its end: its conversation id is kept from the first one on, it may write its
   * transcript, and what it and the others observed is remembered, a failed login included.
   */
  method RunProcess(store: TranscriptStore, memory: PoolMemory, account: Account, sid: Option<string>, run: ProcessRun)
      returns (decision: Option<Reason>, conversation: Option<string>)
    modifies store, memory
    ensures decision == DecisionOf(run)
    ensures conversation == if Named(sid) then sid else run.sessionId
    ensures store.files == Transcribed(old(store.files), account.configDir, conversation, run)
    ensures memory.Remembered() == AfterRun(old(memory.Remembered()), account.login, run)
  {
    conversation := if Named(sid) then sid else run.sessionId;
    if Named(conversation) && run.transcript.Some? {
      store.Write(account.configDir, conversation.value, run.transcript.value);
    }
    decision := Stream(account, memory, run);
    Overhear(memory, run.observed, run.now);
    if decision == Some(LoginFailed) {
      memory.RecordAuthFailure(account.login, run.now);
    }
  }

  // ---------------------------------------------------------------------------
  // The turn
  // ---------------------------------------------------------------------------

  /** The k-th process resumes the conversation of the one before it, on another account that holds its transcript. */
  predicate Resumes(kept: set<(string, string)>, pool: seq<Account>, spawned: seq<Spawn>, k: nat)
    requires 0 < k < |spawned|
  {
    var a, b := spawned[k - 1], spawned[k];
    && a.account.Some? && b.account.Some? && b.account.value in pool
    && a.account.value.login != b.account.value.login
    && b.continuation && Named(b.resume)
    && (k > 1 ==> a.resume == b.resume)
    && (a.account.value.configDir, b.resume.value) in kept
    && (b.account.value.configDir, b.resume.value) in kept
  }

  predicate AllResume(kept: set<(string, string)>, pool: seq<Account>, spawned: seq<Spawn>) {
    forall k :: 0 < k < |spawned| ==> Resumes(kept, pool, spawned, k)
  }

  lemma {:induction false} AllResumeStays(kept: set<(string, string)>, more: set<(string, string)>, pool: seq<Account>,
                                          spawned: seq<Spawn>)
    requires AllResume(kept, pool, spawned) && kept <= more
    ensures AllResume(more, pool, spawned)
  {
    forall k | 0 < k < |spawned| ensures Resumes(more, pool, spawned, k) {
      assert Resumes(kept, pool, spawned, k);
    }
  }

  lemma {:induction false} AllResumeSnoc(kept: set<(string, string)>, pool: seq<Account>, spawned: seq<Spawn>, s: Spawn)
    requires AllResume(kept, pool, spawned) && spawned != [] && Resumes(kept, pool, spawned + [s], |spawned|)
    ensures AllResume(kept, pool, spawned + [s])
  {
    forall k | 0 < k < |spawned + [s]| ensures Resumes(kept, pool, spawned + [s], k) {
      assert k < |spawned| ==> Resumes(kept, pool, spawned, k);
    }
  }

  /** The turn's conversation: the one it was given, else the one its first process reports. */
  function Conversation(given: Option<string>, runs: nat -> ProcessRun): Option<string> {
    if Named(given) then given else runs(0).sessionId
  }

  /** What a relay after this run is decided on. */
  function QueryAt(known: Known, run: ProcessRun, model: Model, neverActive: real): Query {
    Query(known, run.credentials, model, {}, None, run.now, neverActive)
  }

  /** What the turn chose from and had on disk at its start, and at the end of each process. */
  datatype Trace = Trace(pool: seq<Account>, model: Model, neverActive: real, conversation: Option<string>,
                         first: Known, firstFiles: Files, knowns: seq<Known>, stores: seq<Files>)

  function LoginOf(s: Spawn): string {
    if s.account.Some? then s.account.value.login else ""
  }

  function DirOf(s: Spawn): string {
    if s.account.Some? then s.account.value.configDir else ""
  }

  /** The transcripts after a relay from a to b. */
  function RelayedFiles(t: Trace, files: Files, a: Spawn, b: Spawn, copy: CopyOutcome): Files {
    if t.conversation.Some? then Moved(files, t.conversation.value, DirOf(a), DirOf(b), copy) else files
  }

  /** What is remembered when the k-th process starts. */
  function KnownBefore(t: Trace, k: nat): Known
    requires k <= |t.knowns|
  {
    if k == 0 then t.first else t.knowns[k - 1]
  }

  /** The transcripts when the k-th process starts. */
  function FilesBefore(t: Trace, spawned: seq<Spawn>, runs: nat -> ProcessRun, k: nat): Files
    requires k < |spawned| && k <= |t.stores|
  {
    if k == 0 then t.firstFiles
    else RelayedFiles(t, t.stores[k - 1], spawned[k - 1], spawned[k], runs(k - 1).copy)
  }

  /** The k-th process leaves the memory and the transcripts as its run says. */
  ghost predicate TraceAt(t: Trace, spawned: seq<Spawn>, runs: nat -> ProcessRun, k: nat)
    requires k < |spawned| && k < |t.knowns| && k < |t.stores|
  {
    && t.knowns[k] == AfterRun(KnownBefore(t, k), LoginOf(spawned[k]), runs(k))
    && t.stores[k] == Transcribed(FilesBefore(t, spawned, runs, k), DirOf(spawned[k]), t.conversation, runs(k))
  }

  /** Why the turn ends after its k-th process; None if it goes on. */
  ghost function EndAt(t: Trace, s: Spawn, known: Known, files: Files, run: ProcessRun, k: nat): Option<TurnOutcome> {
    if DecisionOf(run).None? then Some(Ended)
    else if k >= MAX_RELAYS_PER_TURN then Some(RelayLimit)
    else if !Named(t.conversation) then Some(RelayFailed(NoSession))
    else if NoneAvailable(QueryAt(known, run, t.model, t.neverActive), t.pool, LoginOf(s)) then Some(RelayFailed(PoolExhausted))
    else if CopyFails(files, t.conversation.value, DirOf(s), run.copy) then Some(RelayFailed(CopyFailed))
    else None
  }

  /**
   * The turn went on after the process before the k-th one, which resumes the turn's conversation on
   * the account that the selection rule picks from what was remembered then.
   */
  ghost predicate ChosenAt(t: Trace, spawned: seq<Spawn>, runs: nat -> ProcessRun, k: nat)
    requires 0 < k < |spawned| && k <= |t.knowns| && k <= |t.stores|
  {
    && EndAt(t, spawned[k - 1], t.knowns[k - 1], t.stores[k - 1], runs(k - 1), k - 1).None?
    && spawned[k].account.Some? && spawned[k].continuation && spawned[k].resume == t.conversation
    && IsNext(QueryAt(t.knowns[k - 1], runs(k - 1), t.model, t.neverActive), t.pool, LoginOf(spawned[k - 1]),
              spawned[k].account.value)
  }

  ghost predicate Follows(t: Trace, spawned: seq<Spawn>, runs: nat -> ProcessRun) {
    && |t.knowns| == |t.stores| && |t.knowns| <= |spawned| <= |t.knowns| + 1
    && (forall k :: 0 <= k < |t.knowns| ==> TraceAt(t, spawned, runs, k))
    && (forall k :: 0 < k < |spawned| ==> ChosenAt(t, spawned, runs, k))
  }

  /** The trace with one more process's end. */
  function Noted(t: Trace, known: Known, files: Files): Trace {
    t.(knowns := t.knowns + [known], stores := t.stores + [files])
  }

  lemma {:induction false} FollowsKnown(t: Trace, spawned: seq<Spawn>, runs: nat -> ProcessRun, known: Known, files: Files)
    requires Follows(t, spawned, runs) && |spawned| == |t.knowns| + 1
    requires known == AfterRun(KnownBefore(t, |t.knowns|), LoginOf(spawned[|t.knowns|]), runs(|t.knowns|))
    requires files == Transcribed(FilesBefore(t, spawned, runs, |t.knowns|), DirOf(spawned[|t.knowns|]), t.conversation,
                                  runs(|t.knowns|))
    ensures Follows(Noted(t, known, files), spawned, runs)
  {
    var u := Noted(t, known, files);
    forall k | 0 <= k < |u.knowns| ensures TraceAt(u, spawned, runs, k) {
      assert k < |t.knowns| ==> TraceAt(t, spawned, runs, k);
    }
    forall k | 0 < k < |spawned| ensures ChosenAt(u, spawned, runs, k) {
      assert ChosenAt(t, spawned, runs, k);
    }
  }

  lemma {:induction false} FollowsSpawn(t: Trace, spawned: seq<Spawn>, runs: nat -> ProcessRun, s: Spawn)
    requires Follows(t, spawned, runs) && |spawned| == |t.knowns| > 0
    requires ChosenAt(t, spawned + [s], runs, |spawned|)
    ensures Follows(t, spawned + [s], runs)
  {
    var grown := spawned + [s];
    forall k | 0 <= k < |t.knowns| ensures TraceAt(t, grown, runs, k) {
      assert TraceAt(t, spawned, runs, k);
    }
    forall k | 0 < k < |grown| ensures ChosenAt(t, grown, runs, k) {
      assert k < |spawned| ==> ChosenAt(t, spawned, runs, k);
    }
  }

  /** Run the last spawned process, and note what is remembered and on disk at its end. */
  method RunLast(store: TranscriptStore, memory: PoolMemory, spawned: seq<Spawn>, sid: Option<string>, runs: nat -> ProcessRun,
                 ghost t: Trace)
      returns (decision: Option<Reason>, conversation: Option<string>, ghost trace: Trace)
    requires spawned != [] && spawned[|spawned| - 1].account.Some?
    requires |spawned| == |t.knowns| + 1 && Follows(t, spawned, runs) && AllResume(store.files.Keys, t.pool, spawned)
    requires t.conversation == if Named(sid) then sid else runs(|spawned| - 1).sessionId
    requires memory.Remembered() == KnownBefore(t, |t.knowns|)
    requires store.files == FilesBefore(t, spawned, runs, |t.knowns|)
    modifies store, memory
    ensures decision == DecisionOf(runs(|spawned| - 1)) && conversation == t.conversation
    ensures old(store.files).Keys <= store.files.Keys && AllResume(store.files.Keys, t.pool, spawned)
    ensures trace == Noted(t, memory.Remembered(), store.files) && Follows(trace, spawned, runs)
  {
    ghost var kept := store.files.Keys;
    decision, conversation := RunProcess(store, memory, spawned[|spawned| - 1].account.value, sid, runs(|spawned| - 1));
    AllResumeStays(kept, store.files.Keys, t.pool, spawned);
    FollowsKnown(t, spawned, runs, memory.Remembered(), store.files);
    trace := Noted(t, memory.Remembered(), store.files);
  }

  /** Move the conversation to the next account and prepare the process that resumes it there, or say why not. */
  method RelayOn(store: TranscriptStore, pool: seq<Account>, q: Query, spawned: seq<Spawn>, sid: Option<string>, copy: CopyOutcome)
      returns (r: Result<Spawn, RelayError>)
    requires DistinctDirs(pool) && spawned != [] && AllResume(store.files.Keys, pool, spawned)
    requires spawned[|spawned| - 1].account.Some? && spawned[|spawned| - 1].account.value in pool
    requires |spawned| > 1 ==> spawned[|spawned| - 1].resume == sid
    modifies store
    ensures old(store.files).Keys <= store.files.Keys
    ensures AllResume(store.files.Keys, pool, if r.Ok? then spawned + [r.value] else spawned)
    ensures r.Ok? ==>
              && Named(sid) && r.value.account.Some? && r.value == Spawn(r.value.account, sid, true)
              && r.value.account.value in pool
              && IsNext(q, pool, LoginOf(spawned[|spawned| - 1]), r.value.account.value)
              && store.files == Moved(old(store.files), sid.value, DirOf(spawned[|spawned| - 1]), DirOf(r.value), copy)
    ensures r == Err(NoSession) <==> !Named(sid)
    ensures r == Err(PoolExhausted) <==> Named(sid) && NoneAvailable(q, pool, LoginOf(spawned[|spawned| - 1]))
    ensures r == Err(CopyFailed) <==>
              && Named(sid) && !NoneAvailable(q, pool, LoginOf(spawned[|spawned| - 1]))
              && CopyFails(old(store.files), sid.value, DirOf(spawned[|spawned| - 1]), copy)
  {
    ghost var kept := store.files.Keys;
    var next := MoveToNextAccount(store, pool, q, spawned[|spawned| - 1].account.value, sid, copy);
    AllResumeStays(kept, store.files.Keys, pool, spawned);
    if next.Err? {
      return Err(next.error);
    }
    var s := Spawn(Some(next.value), sid, true);
    AllResumeSnoc(store.files.Keys, pool, spawned, s);
    return Ok(s);
  }

  /** The last process is where the turn ends, and the outcome is what ends it. */
  ghost predicate EndsRightly(t: Trace, spawned: seq<Spawn>, runs: nat -> ProcessRun, outcome: TurnOutcome)
    requires spawned != []
  {
    var last := |spawned| - 1;
    if spawned[0].account.None? then last == 0 && outcome.Ended?
    else
      && |t.knowns| == |t.stores| == |spawned|
      && EndAt(t, spawned[last], t.knowns[last], t.stores[last], runs(last), last) == Some(outcome)
  }

  /** After the last process: the next one, or how the turn ends. */
  method GoOn(store: TranscriptStore, pool: seq<Account>, q: Query, spawned: seq<Spawn>, sid: Option<string>,
              decision: Option<Reason>, runs: nat -> ProcessRun, ghost t: Trace)
      returns (r: Result<Spawn, TurnOutcome>)
    requires DistinctDirs(pool) && spawned != [] && AllResume(store.files.Keys, pool, spawned)
    requires spawned[0].account.Some? && spawned[|spawned| - 1].account.Some? && spawned[|spawned| - 1].account.value in pool
    requires |spawned| > 1 ==> spawned[|spawned| - 1].resume == sid
    requires Follows(t, spawned, runs) && |t.knowns| == |spawned| && t.pool == pool && t.conversation == sid
    requires q == QueryAt(t.knowns[|spawned| - 1], runs(|spawned| - 1), t.model, t.neverActive)
    requires store.files == t.stores[|spawned| - 1] && decision == DecisionOf(runs(|spawned| - 1))
    modifies store
    ensures old(store.files).Keys <= store.files.Keys
    ensures AllResume(store.files.Keys, pool, if r.Ok? then spawned + [r.value] else spawned)
    ensures r.Ok? ==>
              && Named(sid) && r.value.account.Some? && r.value.account.value in pool && r.value.resume == sid
              && |spawned| <= MAX_RELAYS_PER_TURN && Follows(t, spawned + [r.value], runs)
              && store.files == FilesBefore(t, spawned + [r.value], runs, |spawned|)
    ensures r.Err? ==> EndsRightly(t, spawned, runs, r.error)
  {
    var last := |spawned| - 1;
    if decision.None? {
      return Err(Ended);
    }
    if last >= MAX_RELAYS_PER_TURN {
      return Err(RelayLimit);
    }
    var next := RelayOn(store, pool, q, spawned, sid, runs(last).copy);
    if next.Err? {
      assert next == Err(next.error);
      assert next.error.NoSession? || next.error.PoolExhausted? || next.error.CopyFailed?;
      return Err(RelayFailed(next.error));
    }
    assert ChosenAt(t, spawned + [next.value], runs, |spawned|);
    FollowsSpawn(t, spawned, runs, next.value);
    return Ok(next.value);
  }

  /**
   * The spawn, decide, relay loop for any processes and anything observed meanwhile.  It goes on
   * after a process exactly if that asks for a relay, the limit allows it, the conversation has an
   * id, an account can take it and the copy does not fail; else its outcome names the first of these
   * that is missing.  So it ends after at most four processes, and each of them resumes the turn's
   * conversation where the one before it stopped, on the account that the rule picks at that moment.
   */
  method RunTurn(store: TranscriptStore, memory: PoolMemory, pool: seq<Account>, model: Model, neverActive: real,
                 first: Option<Account>, resume: Option<string>, sessionId: Option<string>, runs: nat -> ProcessRun)
      returns (spawned: seq<Spawn>, outcome: TurnOutcome, ghost trace: Trace)
    requires DistinctDirs(pool) && (first.Some? ==> first.value in pool)
    modifies store, memory
    ensures 1 <= |spawned| <= 4
    ensures spawned[0] == Spawn(first, resume, false)
    ensures AllResume(store.files.Keys, pool, spawned)
    ensures old(store.files).Keys <= store.files.Keys
    ensures trace.pool == pool && trace.model == model && trace.neverActive == neverActive
    ensures trace.conversation == Conversation(sessionId, runs)
    ensures trace.first == old(memory.Remembered()) && trace.firstFiles == old(store.files)
    ensures Follows(trace, spawned, runs)
    ensures EndsRightly(trace, spawned, runs, outcome)
  {
    var account, sid, relays := first, sessionId, 0;
    spawned := [Spawn(first, resume, false)];
    trace := Trace(pool, model, neverActive, Conversation(sessionId, runs), memory.Remembered(), store.files, [], []);
    if account.None? {
      return spawned, Ended, trace;
    }
    while true
      invariant 0 <= relays <= MAX_RELAYS_PER_TURN && |spawned| == relays + 1
      invariant spawned[0] == Spawn(first, resume, false)
      invariant account.Some? && spawned[relays].account == account && account.value in pool
      invariant if relays == 0 then sid == sessionId else Named(sid) && sid == spawned[relays].resume == trace.conversation
      invariant AllResume(store.files.Keys, pool, spawned)
      invariant old(store.files).Keys <= store.files.Keys
      invariant trace.pool == pool && trace.model == model && trace.neverActive == neverActive
      invariant trace.conversation == Conversation(sessionId, runs)
      invariant trace.first == old(memory.Remembered()) && trace.firstFiles == old(store.files)
      invariant Follows(trace, spawned, runs) && |trace.knowns| == relays
      invariant memory.Remembered() == KnownBefore(trace, relays)
      invariant store.files == FilesBefore(trace, spawned, runs, relays)
      decreases MAX_RELAYS_PER_TURN - relays
    {
      var decision;
      decision, sid, trace := RunLast(store, memory, spawned, sid, runs, trace);
      var q := QueryAt(memory.Remembered(), runs(relays), model, neverActive);
      var next := GoOn(store, pool, q, spawned, sid, decision, runs, trace);
      if next.Err? {
        return spawned, next.error, trace;
      }
      relays, account, spawned := relays + 1, next.value.account, spawned + [next.value];
    }
  }

  // ---------------------------------------------------------------------------
  // What the turn never does
  // ---------------------------------------------------------------------------

  /** Decisions come one after the other. */
  ghost predicate Forward(runs: nat -> ProcessRun, n: nat) {
    forall i, j :: 0 <= i <= j < n ==> runs(i).now <= runs(j).now
  }

  /** A failure of the login is remembered, and it is no older than since. */
  predicate FailedSince(k: Known, login: string, since: real) {
    login in k.authFailures && k.authFailures[login] >= since
  }

  lemma {:induction false} EventsKeepFailures(k: Known, login: string, events: seq<(Event, real)>)
    ensures AfterEvents(k, login, events).authFailures == k.authFailures && AfterEvents(k, login, events).panels == k.panels
  {
    if events != [] {
      EventsKeepFailures(k, login, events[..|events| - 1]);
    }
  }

  lemma {:induction false} ObservedKeepFailures(k: Known, observed: seq<Observation>, now: real, login: string, since: real)
    requires FailedSince(k, login, since) && since <= now
    ensures FailedSince(AfterObserved(k, observed, now), login, since)
  {
    if observed != [] {
      ObservedKeepFailures(k, observed[..|observed| - 1], now, login, since);
    }
  }

  lemma {:induction false} FailureStays(t: Trace, spawned: seq<Spawn>, runs: nat -> ProcessRun, k: nat, m: nat)
    requires Follows(t, spawned, runs) && k <= m < |t.knowns| && Forward(runs, m + 1)
    requires DecisionOf(runs(k)) == Some(LoginFailed)
    ensures FailedSince(t.knowns[m], LoginOf(spawned[k]), runs(k).now)
  {
    assert TraceAt(t, spawned, runs, m);
    if k < m {
      FailureStays(t, spawned, runs, k, m - 1);
      EventsKeepFailures(t.knowns[m - 1], LoginOf(spawned[m]), runs(m).events);
      ObservedKeepFailures(AfterEvents(t.knowns[m - 1], LoginOf(spawned[m]), runs(m).events), runs(m).observed, runs(m).now,
                           LoginOf(spawned[k]), runs(k).now);
    }
  }

  lemma {:induction false} FailedIsNotAvailable(q: Query, a: Account, since: real)
    requires FailedSince(q.known, a.login, since) && Available(q, a)
    ensures since + AUTH_FAILURE_COOLDOWN <= q.now
  {
  }

  /**
   * A later process of the turn runs on an account whose login failed only once the cooldown has
   * passed between that failure and the decision.
   */
  lemma {:induction false} FailedLoginWaits(t: Trace, spawned: seq<Spawn>, runs: nat -> ProcessRun, k: nat, m: nat)
    requires Follows(t, spawned, runs) && k < m < |spawned| && Forward(runs, m)
    requires DecisionOf(runs(k)) == Some(LoginFailed)
    ensures LoginOf(spawned[m]) == LoginOf(spawned[k]) ==> runs(k).now + AUTH_FAILURE_COOLDOWN <= runs(m - 1).now
  {
    FailureStays(t, spawned, runs, k, m - 1);
    assert ChosenAt(t, spawned, runs, m);
    if LoginOf(spawned[m]) == LoginOf(spawned[k]) {
      FailedIsNotAvailable(QueryAt(t.knowns[m - 1], runs(m - 1), t.model, t.neverActive).(exclude := {LoginOf(spawned[m - 1])}),
                           spawned[m].account.value, runs(k).now);
    }
  }

  /** A plan-wide panel reading newer than the account's event reading. */
  predicate NewerPanel(k: Known, login: string, now: real) {
    login in k.events && PanelReading(k, login, None, now).Some?
    && PanelReading(k, login, None, now).value.at > k.events[login].at
  }

  /** No relay goes to an account remembered as rejected, unless a newer plan-wide panel reading replaced the rejection. */
  lemma {:induction false} HeldAccountWaits(t: Trace, spawned: seq<Spawn>, runs: nat -> ProcessRun, m: nat)
    requires Follows(t, spawned, runs) && 0 < m < |spawned|
    ensures var known, login, now := t.knowns[m - 1], LoginOf(spawned[m]), runs(m - 1).now;
            Held(EventReading(known, login), now) ==> NewerPanel(known, login, now)
  {
    assert ChosenAt(t, spawned, runs, m);
    var known, login, now := t.knowns[m - 1], LoginOf(spawned[m]), runs(m - 1).now;
    if Held(EventReading(known, login), now) {
      RejectionHoldsExact(known, login, t.model, now, t.neverActive);
    }
  }

  /** None of the others observed the account. */
  predicate NotObserved(observed: seq<Observation>, login: string) {
    observed == []
    || (NotObserved(observed[..|observed| - 1], login)
        && !(observed[|observed| - 1].OtherInfo? && observed[|observed| - 1].login == login))
  }

  lemma {:induction false} ObservedKeepReading(k: Known, observed: seq<Observation>, now: real, login: string)
    requires NotObserved(observed, login)
    ensures EventReading(AfterObserved(k, observed, now), login) == EventReading(k, login)
  {
    if observed != [] {
      ObservedKeepReading(k, observed[..|observed| - 1], now, login);
    }
  }

  lemma {:induction false} EventsKeepReading(k: Known, account: string, events: seq<(Event, real)>, login: string)
    requires account != login
    ensures EventReading(AfterEvents(k, account, events), login) == EventReading(k, login)
  {
    if events != [] {
      EventsKeepReading(k, account, events[..|events| - 1], login);
    }
  }

  /** Between the k-th process's end and the decision after process m, nobody reads its account again. */
  ghost predicate Undisturbed(spawned: seq<Spawn>, runs: nat -> ProcessRun, k: nat, m: nat)
    requires k < |spawned| && m < |spawned|
  {
    && (forall j :: k < j <= m ==> LoginOf(spawned[j]) != LoginOf(spawned[k]))
    && (forall j :: k <= j <= m ==> NotObserved(runs(j).observed, LoginOf(spawned[k])))
  }

  /** What the k-th process's own events leave of its account's reading. */
  function OwnReading(t: Trace, spawned: seq<Spawn>, runs: nat -> ProcessRun, k: nat): Option<Reading>
    requires k < |spawned| && k <= |t.knowns|
  {
    EventReading(AfterEvents(KnownBefore(t, k), LoginOf(spawned[k]), runs(k).events), LoginOf(spawned[k]))
  }

  lemma {:induction false} ReadingStays(t: Trace, spawned: seq<Spawn>, runs: nat -> ProcessRun, k: nat, m: nat)
    requires Follows(t, spawned, runs) && k <= m < |t.knowns| && m < |spawned| && Undisturbed(spawned, runs, k, m)
    ensures EventReading(t.knowns[m], LoginOf(spawned[k])) == OwnReading(t, spawned, runs, k)
  {
    var login := LoginOf(spawned[k]);
    assert TraceAt(t, spawned, runs, m);
    var before := if m == 0 then t.first else t.knowns[m - 1];
    var streamed := AfterEvents(before, LoginOf(spawned[m]), runs(m).events);
    ObservedKeepReading(streamed, runs(m).observed, runs(m).now, login);
    if k < m {
      ReadingStays(t, spawned, runs, k, m - 1);
      EventsKeepReading(before, LoginOf(spawned[m]), runs(m).events, login);
    }
  }

  /**
   * An account whose own events ended in a rejection that is still ahead is not relayed to again,
   * unless a newer plan-wide panel reading exists, as long as nobody else read it meanwhile.
   */
  lemma {:induction false} RejectedAccountWaits(t: Trace, spawned: seq<Spawn>, runs: nat -> ProcessRun, k: nat, m: nat)
    requires Follows(t, spawned, runs) && k < m < |spawned| && Undisturbed(spawned, runs, k, m - 1)
    requires Held(OwnReading(t, spawned, runs, k), runs(m - 1).now)
    ensures LoginOf(spawned[m]) == LoginOf(spawned[k]) ==> NewerPanel(t.knowns[m - 1], LoginOf(spawned[k]), runs(m - 1).now)
  {
    ReadingStays(t, spawned, runs, k, m - 1);
    HeldAccountWaits(t, spawned, runs, m);
  }
}
