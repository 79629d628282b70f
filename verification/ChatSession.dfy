/**
 * A whole session over the chat-event store: events are saved, read back by global range, cached
 * and archived.  Against it stands the plain list of every event ever saved.
 */
module ChatSession {
  import opened Prelude
  import opened PhysicalLines
  import opened LiveRange
  import opened Archive
  import opened ChatStore

  /** Only saved events: whole LF-ended lines without a CR, each of them an event. */
  ghost predicate OnlySaved<E>(content: Bytes, classify: Bytes -> LineKind<E>) {
    LfEnded(content) && CR !in content && forall line :: line in Lines(content) ==> classify(line).Event?
  }

  /** The store holds exactly the log: archived events, then one live line an event, and a cache in step. */
  ghost predicate Keeps<E(!new)>(store: ChatEventStore<E>, log: seq<E>)
    reads store, store.live, store.live.file
  {
    && store.Valid()
    && OnlySaved(store.live.file.content, store.classify)
    && log == ArchivedEvents(store.archives, store.classify) + Present(LiveSlots(store.live.file.content, store.classify))
    && (store.eventsCache.Some? ==> store.cachedBytes == store.live.file.content)
  }

  lemma {:induction false} DenseIsFilled<E>(s: seq<Option<E>>)
    requires forall i :: 0 <= i < |s| ==> s[i].Some?
    ensures s == Filled(Present(s))
  {
    if s != [] {
      DenseIsFilled(s[1..]);
      assert s == [s[0]] + s[1..];
      assert Present(s) == [s[0].value] + Present(s[1..]);
    }
  }

  lemma {:induction false} PageOfFilled<E>(events: seq<E>, lo: nat, hi: nat)
    ensures Page(Filled(events), lo, hi) == Clip(events, lo, hi)
  {
    assert Clip(Filled(events), lo, hi) == Filled(Clip(events, lo, hi));
    PresentFilled(Clip(events, lo, hi));
  }

  /** With nothing but saved lines, the global slots are the log, and the line counter is right. */
  lemma {:induction false} SlotsAreLog<E>(h: Halves, classify: Bytes -> LineKind<E>)
    requires OnlySaved(h.content, classify)
    ensures GlobalSlots(h, classify) == Filled(ArchivedEvents(h.files, classify) + Present(LiveSlots(h.content, classify)))
    ensures MissedLines(h.content) == 0
  {
    var a, live := ArchivedEvents(h.files, classify), LiveSlots(h.content, classify);
    forall i | 0 <= i < |live| ensures live[i].Some? {
      assert Lines(h.content)[i] in Lines(h.content);
    }
    DenseIsFilled(live);
    assert Filled(a) + Filled(Present(live)) == Filled(a + Present(live));
    NoLoneCr(h.content);
  }

  /** Each way of answering a range gives the slice of the log. */
  lemma {:induction false} SliceOfLog<E>(h: Halves, classify: Bytes -> LineKind<E>, log: seq<E>, start: nat, end: nat, lag: nat)
    requires OnlySaved(h.content, classify) && lag <= MissedLines(h.content)
    requires log == ArchivedEvents(h.files, classify) + Present(LiveSlots(h.content, classify))
    ensures LaggingRange(h, classify, start, end, lag) == Clip(log, start, end)
    ensures ArchivedEvents(h.files, classify) == [] ==> Present(LiveSlots(h.content, classify)) == log
  {
    SlotsAreLog(h, classify);
    RangeIsGlobalPage(h, classify, start, end);
    PageOfFilled(log, start, end);
    var offset := |ArchivedEvents(h.files, classify)|;
    if 0 < offset <= start < end {
      LaggingInLive(h, classify, offset, start, end, lag);
      RangeInLive(h, classify, offset, start, end);
    }
  }

  /** Saving a line keeps the content made of saved lines, and adds its event. */
  lemma {:induction false} SavedLine<E>(content: Bytes, line: Bytes, classify: Bytes -> LineKind<E>)
    requires OnlySaved(content, classify) && TermFree(line) && classify(line).Event?
    requires Lines(content + line + [LF]) == Lines(content) + [line]
    ensures OnlySaved(content + line + [LF], classify)
    ensures Present(LiveSlots(content + line + [LF], classify)) == Present(LiveSlots(content, classify)) + [classify(line).e]
  {
    assert !(content != [] && content[|content| - 1] == CR);
    CacheAdvances(content, content, line, classify);
  }

  /** A rotation splits the log in two and changes no event of it. */
  lemma {:induction false} RotatedLog<E>(h: Halves, classify: Bytes -> LineKind<E>, cutoff: int)
    requires ListingOk(h.files) && WeeksUpTo(h.files, IsoWeekIndex(cutoff)) && OnlySaved(h.content, classify)
    ensures var after := RotateOnce(h, classify, cutoff);
            && OnlySaved(after.content, classify)
            && ArchivedEvents(after.files, classify) + Present(LiveSlots(after.content, classify)) ==
               ArchivedEvents(h.files, classify) + Present(LiveSlots(h.content, classify))
  {
    if ArchivedRaw(h.content, classify, cutoff) != [] {
      RotatedSlots(h, classify, cutoff);
      KeptOnlySaved(h.content, classify, cutoff);
      TakenAndKept(h.content, classify, cutoff);
      Assoc(ArchivedEvents(h.files, classify), Present(TakenSlots(h.content, classify, cutoff)),
            Present(KeptSlots(h.content, classify, cutoff)));
    }
  }

  lemma {:induction false} TakenAndKept<E>(content: Bytes, classify: Bytes -> LineKind<E>, cutoff: int)
    ensures Present(LiveSlots(content, classify)) ==
            Present(TakenSlots(content, classify, cutoff)) + Present(KeptSlots(content, classify, cutoff))
  {
    var p, k := TakenSlots(content, classify, cutoff), KeptSlots(content, classify, cutoff);
    assert LiveSlots(content, classify) == p + k;
    PresentAppend(p, k);
  }

  lemma {:induction false} KeptOnlySaved<E>(content: Bytes, classify: Bytes -> LineKind<E>, cutoff: int)
    requires OnlySaved(content, classify)
    ensures OnlySaved(Unlines(KeptRaw(content, classify, cutoff)), classify)
  {
    KeptReadsBack(content, classify, cutoff);
    WrittenBack(content, classify, cutoff);
  }

  lemma {:induction false} WrittenBack<E>(content: Bytes, classify: Bytes -> LineKind<E>, cutoff: int)
    ensures var kept := Unlines(KeptRaw(content, classify, cutoff)); LfEnded(kept) && CR !in kept
  {
    var kept := KeptRaw(content, classify, cutoff);
    LinesAreTermFree(content);
    NoCrInUnlines(kept);
    UnlinesEndsOnBoundary(kept);
  }

  // ---------------------------------------------------------------------------
  // A session
  // ---------------------------------------------------------------------------

  datatype Act =
    | Saved(line: Bytes, at: int)
    | Cached
    | Rotated(cutoff: int, at: int, ino: int)
    | Loaded(start: nat, end: nat)

  /** The event a save adds to the log; a line that is none is not saved. */
  function EventOf<E>(classify: Bytes -> LineKind<E>, act: Act): seq<E> {
    if act.Saved? && TermFree(act.line) && classify(act.line).Event? then [classify(act.line).e] else []
  }

  /** Every event saved by some acts, in order. */
  function LogOf<E>(classify: Bytes -> LineKind<E>, acts: seq<Act>): seq<E> {
    if acts == [] then [] else LogOf(classify, acts[..|acts| - 1]) + EventOf(classify, acts[|acts| - 1])
  }

  /** What an act must answer, given every event saved before it. */
  function AnswerOf<E>(act: Act, log: seq<E>): Option<seq<E>> {
    if act.Loaded? then Some(Clip(log, act.start, act.end)) else None
  }

  /** The newest modification time and inode number so far. */
  datatype Clock = Clock(mtime: int, inode: int)

  /** Saves are not stamped before what is there, and a rotation publishes a later stamp and a new inode. */
  predicate InTime(act: Act, clock: Clock) {
    && (act.Saved? ==> clock.mtime <= act.at)
    && (act.Rotated? ==> clock.mtime < act.at && clock.inode < act.ino)
  }

  function Tick(clock: Clock, act: Act): Clock {
    match act
    case Saved(_, at) => clock.(mtime := at)
    case Rotated(_, at, ino) => Clock(at, ino)
    case _ => clock
  }

  function ClockAfter(clock: Clock, acts: seq<Act>): Clock {
    if acts == [] then clock else Tick(ClockAfter(clock, acts[..|acts| - 1]), acts[|acts| - 1])
  }

  predicate Timely(clock: Clock, acts: seq<Act>) {
    forall k :: 0 <= k < |acts| ==> InTime(acts[k], ClockAfter(clock, acts[..k]))
  }

  /** No version of the file is newer than the clock, nor longer at the same time. */
  ghost predicate Settled(file: LiveFile, clock: Clock)
    reads file
  {
    forall sig :: sig in file.versions ==>
      && sig.0 <= clock.mtime && file.versions[sig].inode <= clock.inode
      && (sig.0 == clock.mtime ==> sig.1 <= |file.content|)
  }

  method Save<E(!new)>(store: ChatEventStore<E>, line: Bytes, at: int, ghost log: seq<E>, ghost clock: Clock)
    requires Keeps(store, log) && TermFree(line) && store.classify(line).Event?
    requires Settled(store.live.file, clock) && clock.mtime <= at
    modifies store, store.live, store.live.file
    ensures Keeps(store, log + [store.classify(line).e]) && store.archives == old(store.archives)
    ensures Settled(store.live.file, clock.(mtime := at))
  {
    assert CR !in store.live.file.content;
    store.SaveEvent(line, at);
    SavedLine(old(store.live.file.content), line, store.classify);
    Assoc(ArchivedEvents(store.archives, store.classify), Present(LiveSlots(old(store.live.file.content), store.classify)),
          [store.classify(line).e]);
  }

  method Rotate<E(!new)>(store: ChatEventStore<E>, cutoff: int, at: int, ino: int, ghost log: seq<E>, ghost clock: Clock)
    requires Keeps(store, log) && WeeksUpTo(store.archives, IsoWeekIndex(cutoff))
    requires Settled(store.live.file, clock) && clock.mtime < at && clock.inode < ino
    modifies store, store.live, store.live.file
    ensures Keeps(store, log) && WeeksUpTo(store.archives, IsoWeekIndex(cutoff))
    ensures Settled(store.live.file, Clock(at, ino))
  {
    RotatedLog(Halves(store.archives, store.live.file.content), store.classify, cutoff);
    var moved := store.Rotate(cutoff, at, ino);
  }

  /** Every range read is the slice of the log. */
  method Load<E(!new)>(store: ChatEventStore<E>, start: nat, end: nat, ghost log: seq<E>) returns (events: seq<E>)
    requires Keeps(store, log)
    modifies store.live, store.live.file
    ensures Keeps(store, log) && events == Clip(log, start, end) && unchanged(store.live.file)
  {
    ghost var h := Halves(store.archives, store.live.file.content);
    var hasMore;
    ghost var snapshot, lag;
    events, hasMore, snapshot, lag := store.LoadRange(start, end, NO_RACES);
    assert snapshot == h.content;
    SliceOfLog(h, store.classify, log, start, end, lag);
  }

  /** One act; a line that is no event is not saved, and a rotation at a cutoff that goes back is not run. */
  method Perform<E(!new)>(store: ChatEventStore<E>, act: Act, latest: int, ghost clock: Clock, ghost log: seq<E>)
      returns (answer: Option<seq<E>>, newest: int)
    requires Keeps(store, log) && WeeksUpTo(store.archives, IsoWeekIndex(latest))
    requires Settled(store.live.file, clock) && InTime(act, clock)
    modifies store, store.live, store.live.file
    ensures Keeps(store, log + EventOf(store.classify, act)) && WeeksUpTo(store.archives, IsoWeekIndex(newest))
    ensures Settled(store.live.file, Tick(clock, act))
    ensures answer == AnswerOf(act, log)
  {
    answer, newest := None, latest;
    assert log + [] == log;
    match act
    case Saved(line, at) =>
      if TermFree(line) && store.classify(line).Event? {
        Save(store, line, at, log, clock);
      }
    case Cached =>
      var events := store.LoadEvents();
    case Rotated(cutoff, at, ino) =>
      if latest <= cutoff {
        WeeksGrow(store.archives, latest, cutoff);
        Rotate(store, cutoff, at, ino, log, clock);
        newest := cutoff;
      }
    case Loaded(start, end) =>
      var events := Load(store, start, end, log);
      answer := Some(events);
  }

  lemma {:induction false} WeeksGrow(files: seq<ArchiveFile>, latest: int, cutoff: int)
    requires WeeksUpTo(files, IsoWeekIndex(latest)) && latest <= cutoff
    ensures WeeksUpTo(files, IsoWeekIndex(cutoff))
  {
    assert IsoWeekIndex(latest) <= IsoWeekIndex(cutoff);
  }

  /** After the first k acts the store keeps exactly their log. */
  ghost predicate InSession<E(!new)>(store: ChatEventStore<E>, clock: Clock, acts: seq<Act>, k: nat, latest: int)
    requires k <= |acts|
    reads store, store.live, store.live.file
  {
    && Keeps(store, LogOf(store.classify, acts[..k]))
    && Settled(store.live.file, ClockAfter(clock, acts[..k]))
    && WeeksUpTo(store.archives, IsoWeekIndex(latest))
  }

  /** Every answer so far is the one its act's log asks for. */
  ghost predicate Answered<E>(classify: Bytes -> LineKind<E>, acts: seq<Act>, answers: seq<Option<seq<E>>>) {
    |answers| <= |acts| && forall k :: 0 <= k < |answers| ==> answers[k] == AnswerOf(acts[k], LogOf(classify, acts[..k]))
  }

  lemma {:induction false} AnsweredSnoc<E>(classify: Bytes -> LineKind<E>, acts: seq<Act>, answers: seq<Option<seq<E>>>,
                                           answer: Option<seq<E>>)
    requires Answered(classify, acts, answers) && |answers| < |acts|
    requires answer == AnswerOf(acts[|answers|], LogOf(classify, acts[..|answers|]))
    ensures Answered(classify, acts, answers + [answer])
  {
  }

  lemma {:induction false} NextAct<E>(classify: Bytes -> LineKind<E>, clock: Clock, acts: seq<Act>, k: nat)
    requires k < |acts|
    ensures LogOf(classify, acts[..k + 1]) == LogOf(classify, acts[..k]) + EventOf(classify, acts[k])
    ensures ClockAfter(clock, acts[..k + 1]) == Tick(ClockAfter(clock, acts[..k]), acts[k])
  {
    assert acts[..k + 1][..k] == acts[..k];
  }

  /** The k-th act of a run. */
  method Step<E(!new)>(store: ChatEventStore<E>, acts: seq<Act>, k: nat, latest: int, ghost clock: Clock)
      returns (answer: Option<seq<E>>, newest: int)
    requires k < |acts| && InSession(store, clock, acts, k, latest) && Timely(clock, acts)
    modifies store, store.live, store.live.file
    ensures InSession(store, clock, acts, k + 1, newest)
    ensures answer == AnswerOf(acts[k], LogOf(store.classify, acts[..k]))
  {
    NextAct(store.classify, clock, acts, k);
    answer, newest := Perform(store, acts[k], latest, ClockAfter(clock, acts[..k]), LogOf(store.classify, acts[..k]));
  }

  /**
   * Any run of saves, cache loads, rotations and range reads in which the clock does not go back:
   * each read answers exactly its slice of every event saved before it.
   */
  method Session<E(!new)>(store: ChatEventStore<E>, acts: seq<Act>, since: int, ghost clock: Clock)
      returns (answers: seq<Option<seq<E>>>)
    requires Keeps(store, []) && WeeksUpTo(store.archives, IsoWeekIndex(since))
    requires Settled(store.live.file, clock) && Timely(clock, acts)
    modifies store, store.live, store.live.file
    ensures Keeps(store, LogOf(store.classify, acts))
    ensures |answers| == |acts| && Answered(store.classify, acts, answers)
  {
    answers := [];
    var latest := since;
    for k := 0 to |acts|
      invariant InSession(store, clock, acts, k, latest)
      invariant |answers| == k && Answered(store.classify, acts, answers)
    {
      var answer;
      answer, latest := Step(store, acts, k, latest, clock);
      AnsweredSnoc(store.classify, acts, answers, answer);
      answers := answers + [answer];
    }
    assert acts[..|acts|] == acts;
  }
}
