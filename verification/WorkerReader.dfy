/**
 * The cached reader of one worker log.  A read mutates the entry in place and may raise halfway,
 * which leaves rows in the entry that its offset does not account for.
 */
module WorkerReader {
  import opened Prelude
  import opened PhysicalLines
  import opened WorkerLog

  /** The fields of a cache entry. */
  datatype Cached = Cached(rows: seq<Row>, names: map<string, string>, offset: nat)

  const EMPTY_CACHE := Cached([], map[], 0)

  class CacheEntry {
    var events: seq<Row>
    var offset: nat
    var names: map<string, string>
    ghost var seen: Bytes  // every complete line a read has tried to project

    constructor ()
      ensures Fields() == EMPTY_CACHE && seen == []
    {
      events, offset, names, seen := [], 0, map[], [];
    }

    function Fields(): Cached
      reads this
    {
      Cached(events, names, offset)
    }

    /** Rows and names are the projection of the bytes before the offset. */
    ghost predicate Sound(parse: Parser)
      reads this
    {
      && |seen| == offset && LfEnded(seen)
      && Progress(events, names, false) == Project(NOTHING, Datas(parse, seen))
    }

    /** A read raised on a line at or after the offset. */
    ghost predicate Poisoned(parse: Parser)
      reads this
    {
      && offset < |seen| && LfEnded(seen) && LfEnded(seen[..offset])
      && AnyBad(Datas(parse, seen[offset..]))
    }

    /** The offset moves past the complete lines, unless projecting them raised. */
    method Settle(ghost head: Bytes, complete: Bytes, raised: bool)
      requires offset == |head|
      modifies this`offset, this`seen
      ensures seen == head + complete && offset == if raised then |head| else |head + complete|
    {
      seen := head + complete;
      if !raised {
        offset := offset + |complete|;
      }
    }

    /** Having projected the complete lines after a head of whole lines, the entry is sound, or poisoned. */
    lemma {:induction false} SettledState(parse: Parser, head: Bytes, complete: Bytes, raised: bool)
      requires LfEnded(head) && LfEnded(complete)
      requires seen == head + complete && offset == if raised then |head| else |head + complete|
      requires raised ==> complete != [] && AnyBad(Datas(parse, complete))
      requires !raised ==> Progress(events, names, false) == Project(NOTHING, Datas(parse, head + complete))
      ensures if raised then Poisoned(parse) else Sound(parse)
    {
      Seams(head, complete);
    }

    /** The projection, in place: what it added before raising stays. */
    method Append(datas: seq<Data>) returns (raised: bool)
      modifies this`events, this`names
      ensures Progress(events, names, raised) == Project(Progress(old(events), old(names), false), datas)
    {
      raised := false;
      ghost var before := Progress(events, names, false);
      assert datas[..0] == [];
      var i := 0;
      while i < |datas| && !raised
        invariant i <= |datas|
        invariant Progress(events, names, raised) == Project(before, datas[..i])
      {
        assert datas[..i + 1][..i] == datas[..i];
        raised := AppendOne(datas[i]);
        i := i + 1;
      }
      assert datas == datas[..i] + datas[i..];
      ProjectAppend(before, datas[..i], datas[i..]);
      ProjectContinues(Project(before, datas[..i]), datas[i..]);
      assert i == |datas| ==> datas[i..] == [];
    }

    method AppendOne(data: Data) returns (raised: bool)
      modifies this`events, this`names
      ensures Progress(events, names, raised) == AddData(Progress(old(events), old(names), false), data)
    {
      match data
      case NotAnObject =>
        raised := true;
      case AssistantMessage(text, blocks, timeOk) =>
        if text != "" {
          if !timeOk { return true; }
          events := events + [TextRow(text)];
        }
        if blocks.None? { return true; }
        raised := AppendToolUses(timeOk, blocks.value);
      case UserMessage(blocks, timeOk) =>
        if blocks.None? { return true; }
        raised := AppendToolResults(timeOk, blocks.value);
      case OtherEvent(isToolResult, content, rest) =>
        var row := OtherRow(content, false, rest);
        if isToolResult && content.Some? && |content.value| > TOOL_OUTPUT_RENDER_CAP {
          row := OtherRow(Some(content.value[..TOOL_OUTPUT_RENDER_CAP]), true, rest);
        }
        events := events + [row];
        raised := false;
    }

    method AppendToolUses(timeOk: bool, blocks: seq<Block>) returns (raised: bool)
      modifies this`events, this`names
      ensures Progress(events, names, raised) == AddToolUses(Progress(old(events), old(names), false), timeOk, blocks)
    {
      ghost var before := Progress(events, names, false);
      raised := false;
      assert blocks[..0] == [];
      for i := 0 to |blocks|
        invariant Progress(events, names, raised) == AddToolUses(before, timeOk, blocks[..i])
      {
        assert blocks[..i + 1][..i] == blocks[..i];
        var b := blocks[i];
        if !raised && b.ToolUse? {
          if b.name.None? || b.id.None? {
            raised := true;
          } else {
            names := names[b.id.value := b.name.value];
            if timeOk && b.inputOk {
              events := events + [ToolUseRow(b.name.value, b.input)];
            } else {
              raised := true;
            }
          }
        }
      }
      assert blocks[..|blocks|] == blocks;
    }

    method AppendToolResults(timeOk: bool, blocks: seq<Block>) returns (raised: bool)
      modifies this`events
      ensures Progress(events, names, raised) == AddToolResults(Progress(old(events), old(names), false), timeOk, blocks)
    {
      ghost var before := Progress(events, names, false);
      raised := false;
      assert blocks[..0] == [];
      for i := 0 to |blocks|
        invariant names == before.names
        invariant Progress(events, names, raised) == AddToolResults(before, timeOk, blocks[..i])
      {
        assert blocks[..i + 1][..i] == blocks[..i];
        var b := blocks[i];
        if !raised && b.NotADict? {
          raised := true;
        } else if !raised && b.ToolResult? {
          if !timeOk {
            raised := true;
          } else {
            var name := if b.toolUseId in names then names[b.toolUseId] else "";
            var truncated := |b.text| > TOOL_OUTPUT_RENDER_CAP;
            events := events + [ToolResultRow(name, if truncated then b.text[..TOOL_OUTPUT_RENDER_CAP] else b.text, truncated)];
          }
        }
      }
      assert blocks[..|blocks|] == blocks;
    }
  }

  /** What a read of the whole log would answer; None when it raises. */
  function WholeRead(parse: Parser, content: Bytes): Option<seq<Row>> {
    var p := Project(NOTHING, Datas(parse, Committed(content)));
    if p.raised then None else Some(p.rows)
  }

  lemma {:induction false} ReadOn(parse: Parser, head: Bytes, window: Bytes)
    requires LfEnded(head)
    ensures Committed(head + window) == head + Committed(window)
    ensures Project(NOTHING, Datas(parse, Committed(head + window))) ==
            Project(Project(NOTHING, Datas(parse, head)), Datas(parse, Committed(window)))
  {
    CommittedAppend(head, window);
    DatasAppend(parse, head, Committed(window));
    ProjectAppend(NOTHING, Datas(parse, head), Datas(parse, Committed(window)));
  }

  lemma {:induction false} DatasEmpty(parse: Parser)
    ensures Datas(parse, []) == []
  {
    assert SplitLf([]) == [[]];
    assert ParsePieces(parse, [[]]) == [] + ParsePieces(parse, [[]][1..]);
  }

  lemma {:induction false} CommittedWhole(s: Bytes)
    ensures LfEnded(Committed(s))
  {
  }

  /** Reading on from a sound entry answers what a whole read answers. */
  lemma {:induction false} SoundOutcome(parse: Parser, head: Bytes, window: Bytes, before: Progress)
    requires LfEnded(head) && before == Project(NOTHING, Datas(parse, head)) && !before.raised
    ensures var after := Project(before, Datas(parse, Committed(window)));
            && after == Project(NOTHING, Datas(parse, head + Committed(window)))
            && WholeRead(parse, head + window) == (if after.raised then None else Some(after.rows))
            && (after.raised ==> Committed(window) != [] && AnyBad(Datas(parse, Committed(window))))
    ensures head + Committed(window) == Committed(head + window)
  {
    ReadOn(parse, head, window);
    ProjectRaises(before, Datas(parse, Committed(window)));
    DatasEmpty(parse);
  }

  /** A bad line that has been committed is met by every read that starts before it. */
  lemma {:induction false} PoisonedOutcome(parse: Parser, head: Bytes, bad: Bytes, rest: Bytes, before: Progress)
    requires LfEnded(head) && LfEnded(bad) && AnyBad(Datas(parse, bad))
    ensures Committed(bad + rest) != [] && AnyBad(Datas(parse, Committed(bad + rest)))
    ensures Project(before, Datas(parse, Committed(bad + rest))).raised
    ensures WholeRead(parse, head + (bad + rest)).None?
  {
    DatasEmpty(parse);
    CommittedAppend(bad, rest);
    DatasAppend(parse, bad, Committed(rest));
    AnyBadAppend(Datas(parse, bad), Datas(parse, Committed(rest)));
    ReadOn(parse, head, bad + rest);
    ProjectRaises(before, Datas(parse, Committed(bad + rest)));
    ProjectRaises(Project(NOTHING, Datas(parse, head)), Datas(parse, Committed(bad + rest)));
  }

  /** Projecting the complete lines from before answers what a whole read answers. */
  ghost predicate Answers(parse: Parser, before: Progress, head: Bytes, complete: Bytes, content: Bytes) {
    var after := Project(before, Datas(parse, complete));
    && WholeRead(parse, content) == (if after.raised then None else Some(after.rows))
    && (after.raised ==> complete != [] && AnyBad(Datas(parse, complete)))
    && (!after.raised ==> after == Project(NOTHING, Datas(parse, head + complete)))
  }

  lemma {:induction false} SoundAnswers(parse: Parser, entry: CacheEntry, content: Bytes)
    requires entry.Sound(parse) && entry.seen <= content
    ensures Answers(parse, Progress(entry.events, entry.names, false), content[..entry.offset],
                    Committed(content[entry.offset..]), content)
  {
    Cut(content, entry.seen);
    SoundOutcome(parse, entry.seen, content[|entry.seen|..], Progress(entry.events, entry.names, false));
  }

  lemma {:induction false} Cut(content: Bytes, seen: Bytes)
    requires seen <= content
    ensures content[..|seen|] == seen && content == seen + content[|seen|..]
  {
  }

  lemma {:induction false} PoisonedAnswers(parse: Parser, entry: CacheEntry, content: Bytes)
    requires entry.Poisoned(parse) && entry.seen <= content
    ensures Answers(parse, Progress(entry.events, entry.names, false), content[..entry.offset],
                    Committed(content[entry.offset..]), content)
  {
    var head, bad, rest := entry.seen[..entry.offset], entry.seen[entry.offset..], content[|entry.seen|..];
    Split3(content, entry.seen, entry.offset);
    PoisonedOutcome(parse, head, bad, rest, Progress(entry.events, entry.names, false));
  }

  lemma {:induction false} Split3(content: Bytes, seen: Bytes, k: nat)
    requires k <= |seen| && seen <= content
    ensures content[..k] == seen[..k] && content[k..] == seen[k..] + content[|seen|..]
    ensures content == seen[..k] + (seen[k..] + content[|seen|..])
  {
  }

  /** What projecting the log from the entry's offset on will answer. */
  ghost predicate Foretold(parse: Parser, c: Cached, content: Bytes)
    requires c.offset <= |content|
  {
    && LfEnded(content[..c.offset])
    && content[..c.offset] + Committed(content[c.offset..]) <= content
    && Answers(parse, Progress(c.rows, c.names, false), content[..c.offset], Committed(content[c.offset..]), content)
  }

  /** What the next pass over the log will find, whichever state the entry is in. */
  lemma {:induction false} EntryAnswers(parse: Parser, entry: CacheEntry, content: Bytes)
    requires entry.Sound(parse) || entry.Poisoned(parse)
    requires entry.offset <= |content| && entry.seen <= content
    ensures Foretold(parse, entry.Fields(), content)
  {
    Split3(content, entry.seen, entry.offset);
    HeadIsCommitted(entry.seen, content, entry.offset);
    if entry.Sound(parse) {
      assert entry.seen[..entry.offset] == entry.seen;
      SoundAnswers(parse, entry, content);
    } else {
      PoisonedAnswers(parse, entry, content);
    }
  }

  // ---------------------------------------------------------------------------
  // What a read does to an entry, whatever the log has become
  // ---------------------------------------------------------------------------

  /** The projection of the complete lines from an entry's offset on, added to the entry's rows. */
  function ReadFrom(parse: Parser, c: Cached, content: Bytes): Progress
    requires c.offset <= |content|
  {
    Project(Progress(c.rows, c.names, false), Datas(parse, Committed(content[c.offset..])))
  }

  /** The entry after that: its offset moves only if nothing raised. */
  function Advanced(parse: Parser, c: Cached, content: Bytes): Cached
    requires c.offset <= |content|
  {
    var p := ReadFrom(parse, c, content);
    Cached(p.rows, p.names, if p.raised then c.offset else c.offset + |Committed(content[c.offset..])|)
  }

  /** A log shorter than the offset is read with a new entry. */
  predicate Restarts(slot: Option<Cached>, content: Bytes) {
    slot.None? || |content| < slot.value.offset
  }

  function Start(slot: Option<Cached>, content: Bytes): (c: Cached)
    ensures c.offset <= |content|
  {
    if Restarts(slot, content) then EMPTY_CACHE else slot.value
  }

  /** What a read answers from a cache slot; None when it raises. */
  function Answer(parse: Parser, slot: Option<Cached>, content: Bytes): Option<seq<Row>> {
    var p := ReadFrom(parse, Start(slot, content), content);
    if p.raised then None else Some(p.rows)
  }

  /** What a read leaves in the slot: a new entry is not stored when it raises. */
  function SlotAfter(parse: Parser, slot: Option<Cached>, content: Bytes): Option<Cached> {
    if Restarts(slot, content) && ReadFrom(parse, EMPTY_CACHE, content).raised then slot
    else Some(Advanced(parse, Start(slot, content), content))
  }

  /** The entry is what reads of this log, grown or not, have left. */
  ghost predicate InStep(parse: Parser, entry: CacheEntry, content: Bytes)
    reads entry
  {
    (entry.Sound(parse) || entry.Poisoned(parse)) && entry.offset <= |content| && entry.seen <= content
  }

  /**
   * The locked part of a read: project what the entry has not seen of the complete lines.  From an
   * entry in step it raises exactly when a whole read does, and the entry stays in step.
   */
  method Refresh(parse: Parser, entry: CacheEntry, content: Bytes) returns (raised: bool)
    requires entry.offset <= |content|
    modifies entry
    ensures entry.Fields() == Advanced(parse, old(entry.Fields()), content)
    ensures raised <==> ReadFrom(parse, old(entry.Fields()), content).raised
    ensures old(InStep(parse, entry, content)) ==> Refreshed(parse, entry, content, raised)
  {
    ghost var inStep := InStep(parse, entry, content);
    ghost var c := entry.Fields();
    if inStep {
      EntryAnswers(parse, entry, content);
    }
    raised := ReadWindow(parse, entry, content);
    if inStep {
      RefreshedInStep(parse, entry, c, content, raised);
    }
  }

  method ReadWindow(parse: Parser, entry: CacheEntry, content: Bytes) returns (raised: bool)
    requires entry.offset <= |content|
    modifies entry
    ensures entry.Fields() == Advanced(parse, old(entry.Fields()), content)
    ensures raised <==> ReadFrom(parse, old(entry.Fields()), content).raised
    ensures entry.seen == content[..old(entry.offset)] + Committed(content[old(entry.offset)..])
  {
    DatasEmpty(parse);
    ghost var head := content[..entry.offset];
    var window := content[entry.offset..];
    var completeEnd := CompleteEnd(window);
    var complete := window[..completeEnd];
    raised := false;
    if completeEnd > 0 {
      raised := entry.Append(Datas(parse, complete));
    }
    entry.Settle(head, complete, raised);
  }

  ghost predicate Refreshed(parse: Parser, entry: CacheEntry, content: Bytes, raised: bool)
    reads entry
  {
    && InStep(parse, entry, content)
    && (raised <==> WholeRead(parse, content).None?)
    && (if raised then entry.Poisoned(parse) else entry.Sound(parse) && Some(entry.events) == WholeRead(parse, content))
  }

  lemma {:induction false} RefreshedInStep(parse: Parser, entry: CacheEntry, c: Cached, content: Bytes, raised: bool)
    requires c.offset <= |content| && Foretold(parse, c, content)
    requires entry.Fields() == Advanced(parse, c, content) && raised == ReadFrom(parse, c, content).raised
    requires entry.seen == content[..c.offset] + Committed(content[c.offset..])
    ensures Refreshed(parse, entry, content, raised)
  {
    CommittedWhole(content[c.offset..]);
    entry.SettledState(parse, content[..c.offset], Committed(content[c.offset..]), raised);
  }

  lemma {:induction false} HeadIsCommitted(seen: Bytes, content: Bytes, k: nat)
    requires k <= |seen| && seen <= content
    ensures content[..k] + Committed(content[k..]) <= content
  {
    assert content == content[..k] + content[k..];
  }

  lemma {:induction false} Seams(head: Bytes, complete: Bytes)
    requires LfEnded(head) && LfEnded(complete)
    ensures LfEnded(head + complete)
    ensures (head + complete)[..|head|] == head && (head + complete)[|head|..] == complete
  {
  }

  // ---------------------------------------------------------------------------
  // The log and its cache slot
  // ---------------------------------------------------------------------------

  class WorkerLogReader {
    const parse: Parser
    var file: Option<Bytes>
    var entry: CacheEntry?

    function Slot(): Option<Cached>
      reads this, entry
    {
      if entry == null then None else Some(entry.Fields())
    }

    /** What reads of the log have left in the cache, as long as the log kept what they read. */
    ghost predicate Valid()
      reads this, entry
    {
      entry != null ==>
        && (entry.Sound(parse) || entry.Poisoned(parse))
        && (file.Some? && entry.offset <= |file.value| ==> entry.seen <= file.value)
    }

    constructor (p: Parser)
      ensures Valid() && parse == p && file.None? && entry == null
    {
      parse, file, entry := p, None, null;
    }

    /** The log falls below the offset, or keeps every line a read has tried. */
    ghost predicate Keeps(content: Bytes)
      reads this, entry
    {
      entry != null ==> |content| < entry.offset || entry.seen <= content
    }

    method Write(content: Bytes)
      modifies this`file
      ensures file == Some(content)
      ensures old(Valid() && Keeps(content)) ==> Valid()
    {
      file := Some(content);
    }

    /** The log has not been cut below the offset. */
    ghost predicate InReach()
      reads this, entry
    {
      entry != null ==> file.Some? && entry.offset <= |file.value|
    }

    /** An append, unless the log was cut below the offset and has not been read since. */
    method AppendToLog(more: Bytes)
      requires file.Some?
      modifies this`file
      ensures file == Some(old(file).value + more)
      ensures old(Valid() && InReach()) ==> Valid() && InReach()
    {
      file := Some(file.value + more);
    }

    method Remove()
      modifies this`file
      ensures file.None? && (old(Valid()) ==> Valid())
    {
      file := None;
    }

    method Evict()
      modifies this`entry
      ensures entry == null && Valid()
    {
      entry := null;
    }

    /** The entry a read goes on from: the cached one, or a new one for a log that is new or shorter. */
    method EntryFor(content: Bytes) returns (current: CacheEntry)
      requires file == Some(content)
      ensures current.Fields() == Start(Slot(), content)
      ensures if Restarts(Slot(), content) then fresh(current) else current == entry
      ensures Valid() ==> InStep(parse, current, content)
    {
      if entry == null || |content| < entry.offset {
        DatasEmpty(parse);
        current := new CacheEntry();
      } else {
        current := entry;
      }
    }

    /**
     * read_thread_worker_events; None when it raises.  Answer and SlotAfter say what it does
     * whatever has happened to the log; from a valid state the answer is that of a whole read.
     */
    method Read() returns (r: Option<seq<Row>>)
      modifies this`entry, entry
      ensures entry == null || entry == old(entry) || fresh(entry)
      ensures r == if file.None? then Some([]) else Answer(parse, old(Slot()), file.value)
      ensures Slot() == if file.None? then None else SlotAfter(parse, old(Slot()), file.value)
      ensures old(Valid()) ==> Valid() && r == if file.None? then Some([]) else WholeRead(parse, file.value)
      ensures old(InReach()) ==> InReach()
    {
      if file.None? {
        entry := null;
        return Some([]);
      }
      var content := file.value;
      var current := EntryFor(content);
      var raised := Refresh(parse, current, content);
      if raised {
        return None;  // a new entry is not stored
      }
      entry := current;
      return Some(current.events);
    }

    /** read_thread_worker_events_memo_hit; None sends the caller to Read. */
    method MemoHit() returns (r: Option<seq<Row>>)
      ensures r.Some? <==> entry != null && file.Some? && |file.value| == entry.offset
      ensures r.Some? ==> r == Answer(parse, Slot(), file.value)
      ensures r.Some? && Valid() ==> r == WholeRead(parse, file.value)
    {
      if entry == null || file.None? || |file.value| != entry.offset {
        return None;
      }
      NothingNew(parse, entry.Fields(), file.value);
      MemoIsRead();
      return Some(entry.events);
    }

    /** The rows an events request works on: the memo's if it answers, else a read's. */
    method Rows() returns (r: Option<seq<Row>>)
      requires Valid() && file.Some?
      modifies this`entry, entry
      ensures Valid() && r == WholeRead(parse, file.value)
      ensures entry == null || entry == old(entry) || fresh(entry)
      ensures old(InReach()) ==> InReach()
    {
      r := MemoHit();
      if r.None? {
        r := Read();
      }
    }

    lemma {:induction false} MemoIsRead()
      requires entry != null && file.Some? && |file.value| == entry.offset
      ensures Valid() ==> Some(entry.events) == WholeRead(parse, file.value)
    {
      if Valid() {
        assert entry.seen <= file.value;
        assert entry.Sound(parse) && entry.seen == file.value;
        assert Committed(entry.seen) == entry.seen;
      }
    }
  }

  lemma {:induction false} NothingNew(parse: Parser, c: Cached, content: Bytes)
    requires |content| == c.offset
    ensures Answer(parse, Some(c), content) == Some(c.rows)
  {
    DatasEmpty(parse);
    assert content[c.offset..] == [];
  }

  // ---------------------------------------------------------------------------
  // The client of the `after` envelope
  // ---------------------------------------------------------------------------

  datatype Envelope = Envelope(events: seq<Row>, total: nat, reset: bool)

  function EnvelopeOf(rows: seq<Row>, after: nat): Envelope {
    var reset := after > |rows|;
    Envelope(rows[(if reset then 0 else after)..], |rows|, reset)
  }

  /** What the client shows next: the payload alone on a reset, else appended. */
  function ShownNext(shown: seq<Row>, e: Envelope): seq<Row> {
    if e.reset then e.events else shown + e.events
  }

  /** The client then holds the whole projection exactly when it held a prefix of it, or more rows than there are. */
  lemma {:induction false} EnvelopeExact(shown: seq<Row>, rows: seq<Row>)
    ensures ShownNext(shown, EnvelopeOf(rows, |shown|)) == rows <==> shown <= rows || |shown| > |rows|
  {
    if |shown| <= |rows| {
      assert rows == rows[..|shown|] + rows[|shown|..];
      assert (shown + rows[|shown|..])[..|shown|] == shown;
    }
  }

  /** A log that only grew keeps every row it had. */
  lemma {:induction false} RowsGrow(parse: Parser, a: Bytes, b: Bytes)
    requires Committed(a) <= b && WholeRead(parse, a).Some? && WholeRead(parse, b).Some?
    ensures WholeRead(parse, a).value <= WholeRead(parse, b).value
  {
    var head := Committed(a);
    var rest := b[|head|..];
    Cut(b, head);
    CommittedWhole(a);
    ReadOn(parse, head, rest);
    ProjectContinues(Project(NOTHING, Datas(parse, head)), Datas(parse, Committed(rest)));
  }

  lemma {:induction false} PollGrows(parse: Parser, since: Bytes, content: Bytes, shown: seq<Row>)
    requires Committed(since) <= content && WholeRead(parse, since) == Some(shown) && WholeRead(parse, content).Some?
    ensures ShownNext(shown, EnvelopeOf(WholeRead(parse, content).value, |shown|)) == WholeRead(parse, content).value
  {
    RowsGrow(parse, since, content);
    EnvelopeExact(shown, WholeRead(parse, content).value);
  }

  class Client {
    var shown: seq<Row>

    constructor ()
      ensures shown == []
    {
      shown := [];
    }

    /** One poll: the memo if it answers, else a read; a read that raises changes nothing here. */
    method Poll(log: WorkerLogReader, ghost since: Bytes) returns (ok: bool)
      requires log.Valid() && log.file.Some?
      requires Committed(since) <= log.file.value && WholeRead(log.parse, since) == Some(shown)
      modifies this, log`entry, log.entry
      ensures log.Valid() && log.file == old(log.file) && (old(log.InReach()) ==> log.InReach())
      ensures log.entry == null || log.entry == old(log.entry) || fresh(log.entry)
      ensures ok <==> WholeRead(log.parse, log.file.value).Some?
      ensures if ok then Some(shown) == WholeRead(log.parse, log.file.value) else shown == old(shown)
    {
      var rows := log.Rows();
      if rows.None? {
        return false;
      }
      PollGrows(log.parse, since, log.file.value, shown);
      shown := ShownNext(shown, EnvelopeOf(rows.value, |shown|));
      return true;
    }
  }
}
