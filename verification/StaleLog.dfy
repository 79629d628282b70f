/**
 * What the cached reader answers on a log that was cut, rewritten, or left half projected by a read
 * that raised: exactly when it is what a read of the whole log answers, for every cache entry.
 */
module StaleLog {
  import opened Prelude
  import opened PhysicalLines
  import opened WorkerLog
  import opened WorkerReader

  // ---------------------------------------------------------------------------
  // Two projections of the same events, from different starts
  // ---------------------------------------------------------------------------

  /** q is d rows ahead of p. */
  predicate RowsApart(p: Progress, q: Progress, d: int) {
    p.raised == q.raised && |q.rows| == |p.rows| + d
  }

  /** How many rows events add, and whether they raise, does not depend on what came before. */
  lemma {:induction false} ProjectApart(p: Progress, q: Progress, d: int, datas: seq<Data>)
    requires RowsApart(p, q, d)
    ensures RowsApart(Project(p, datas), Project(q, datas), d)
  {
    if datas != [] {
      var n := |datas| - 1;
      ProjectApart(p, q, d, datas[..n]);
      DataApart(Project(p, datas[..n]), Project(q, datas[..n]), d, datas[n]);
    }
  }

  lemma {:induction false} DataApart(p: Progress, q: Progress, d: int, data: Data)
    requires RowsApart(p, q, d)
    ensures RowsApart(AddData(p, data), AddData(q, data), d)
  {
    match data
    case AssistantMessage(text, blocks, timeOk) =>
      if blocks.Some? {
        ToolUsesApart(if text != "" then p.(rows := p.rows + [TextRow(text)]) else p,
                      if text != "" then q.(rows := q.rows + [TextRow(text)]) else q, d, timeOk, blocks.value);
      }
    case UserMessage(blocks, timeOk) =>
      if blocks.Some? {
        ToolResultsApart(p, q, d, timeOk, blocks.value);
      }
    case _ =>
  }

  lemma {:induction false} ToolUsesApart(p: Progress, q: Progress, d: int, timeOk: bool, blocks: seq<Block>)
    requires RowsApart(p, q, d)
    ensures RowsApart(AddToolUses(p, timeOk, blocks), AddToolUses(q, timeOk, blocks), d)
  {
    if blocks != [] {
      ToolUsesApart(p, q, d, timeOk, blocks[..|blocks| - 1]);
    }
  }

  lemma {:induction false} ToolResultsApart(p: Progress, q: Progress, d: int, timeOk: bool, blocks: seq<Block>)
    requires RowsApart(p, q, d)
    ensures RowsApart(AddToolResults(p, timeOk, blocks), AddToolResults(q, timeOk, blocks), d)
  {
    if blocks != [] {
      ToolResultsApart(p, q, d, timeOk, blocks[..|blocks| - 1]);
    }
  }

  /** The tool name a result is shown under. */
  function NameIn(names: map<string, string>, id: string): string {
    if id in names then names[id] else ""
  }

  /** The names after the tool uses of a message. */
  function UseNames(names: map<string, string>, blocks: seq<Block>): map<string, string> {
    if blocks == [] then names
    else
      var before, b := UseNames(names, blocks[..|blocks| - 1]), blocks[|blocks| - 1];
      if b.ToolUse? && b.name.Some? && b.id.Some? then before[b.id.value := b.name.value] else before
  }

  function NamesAfter(names: map<string, string>, datas: seq<Data>): map<string, string> {
    if datas == [] then names
    else
      var before, last := NamesAfter(names, datas[..|datas| - 1]), datas[|datas| - 1];
      if last.AssistantMessage? && last.blocks.Some? then UseNames(before, last.blocks.value) else before
  }

  /** Every tool result of a message is shown under the same name. */
  predicate SameResults(m: map<string, string>, n: map<string, string>, blocks: seq<Block>) {
    blocks == []
    || (&& SameResults(m, n, blocks[..|blocks| - 1])
        && (blocks[|blocks| - 1].ToolResult? ==>
              NameIn(m, blocks[|blocks| - 1].toolUseId) == NameIn(n, blocks[|blocks| - 1].toolUseId)))
  }

  /** Every tool result of some events is shown under the same name, the tool uses among them counted in. */
  predicate SameLookups(m: map<string, string>, n: map<string, string>, datas: seq<Data>) {
    datas == []
    || (var front, last := datas[..|datas| - 1], datas[|datas| - 1];
        && SameLookups(m, n, front)
        && (last.UserMessage? && last.blocks.Some? ==>
              SameResults(NamesAfter(m, front), NamesAfter(n, front), last.blocks.value)))
  }

  lemma {:induction false} UsesName(p: Progress, timeOk: bool, blocks: seq<Block>)
    requires !AddToolUses(p, timeOk, blocks).raised
    ensures AddToolUses(p, timeOk, blocks).names == UseNames(p.names, blocks)
  {
    if blocks != [] {
      UsesName(p, timeOk, blocks[..|blocks| - 1]);
    }
  }

  lemma {:induction false} ResultsKeepNames(p: Progress, timeOk: bool, blocks: seq<Block>)
    ensures AddToolResults(p, timeOk, blocks).names == p.names
  {
    if blocks != [] {
      ResultsKeepNames(p, timeOk, blocks[..|blocks| - 1]);
    }
  }

  lemma {:induction false} NamesAre(p: Progress, datas: seq<Data>)
    requires !Project(p, datas).raised
    ensures Project(p, datas).names == NamesAfter(p.names, datas)
  {
    if datas != [] {
      var front, last := datas[..|datas| - 1], datas[|datas| - 1];
      NamesAre(p, front);
      NamesAfterOne(Project(p, front), last);
    }
  }

  lemma {:induction false} NamesAfterOne(p: Progress, data: Data)
    requires !AddData(p, data).raised
    ensures AddData(p, data).names ==
            if data.AssistantMessage? && data.blocks.Some? then UseNames(p.names, data.blocks.value) else p.names
  {
    match data
    case AssistantMessage(text, blocks, timeOk) =>
      UsesName(if text != "" then p.(rows := p.rows + [TextRow(text)]) else p, timeOk, blocks.value);
    case UserMessage(blocks, timeOk) =>
      ResultsKeepNames(p, timeOk, blocks.value);
    case _ =>
  }

  lemma {:induction false} SnocAgrees<T>(a: seq<T>, b: seq<T>, x: T, y: T)
    requires |a| == |b|
    ensures a + [x] == b + [y] <==> a == b && x == y
  {
    assert (a + [x])[..|a|] == a && (b + [y])[..|b|] == b;
    assert (a + [x])[|a|] == x && (b + [y])[|b|] == y;
  }

  lemma {:induction false} UsesAgree(p: Progress, q: Progress, timeOk: bool, blocks: seq<Block>)
    requires |p.rows| == |q.rows| && p.raised == q.raised
    ensures AddToolUses(p, timeOk, blocks).rows == AddToolUses(q, timeOk, blocks).rows <==> p.rows == q.rows
  {
    if blocks != [] {
      var front, b := blocks[..|blocks| - 1], blocks[|blocks| - 1];
      UsesAgree(p, q, timeOk, front);
      ToolUsesApart(p, q, 0, timeOk, front);
      if b.ToolUse? && b.name.Some? {
        var row := ToolUseRow(b.name.value, b.input);
        SnocAgrees(AddToolUses(p, timeOk, front).rows, AddToolUses(q, timeOk, front).rows, row, row);
      }
    }
  }

  lemma {:induction false} LastResultAgrees(p: Progress, q: Progress, timeOk: bool, b: Block)
    requires |p.rows| == |q.rows| && !p.raised && !q.raised && !BadToolResult(timeOk, b)
    ensures AddToolResult(p, timeOk, b).rows == AddToolResult(q, timeOk, b).rows <==>
            p.rows == q.rows && (b.ToolResult? ==> NameIn(p.names, b.toolUseId) == NameIn(q.names, b.toolUseId))
  {
    if b.ToolResult? {
      var cut := |b.text| > TOOL_OUTPUT_RENDER_CAP;
      SnocAgrees(p.rows, q.rows, ToolResultRow(NameIn(p.names, b.toolUseId), Cap(b.text), cut),
                 ToolResultRow(NameIn(q.names, b.toolUseId), Cap(b.text), cut));
    }
  }

  lemma {:induction false} ResultsAgree(p: Progress, q: Progress, timeOk: bool, blocks: seq<Block>)
    requires |p.rows| == |q.rows| && !p.raised && !q.raised && !AnyBadToolResult(timeOk, blocks)
    ensures AddToolResults(p, timeOk, blocks).rows == AddToolResults(q, timeOk, blocks).rows <==>
            p.rows == q.rows && SameResults(p.names, q.names, blocks)
  {
    if blocks != [] {
      var front := blocks[..|blocks| - 1];
      ResultsAgree(p, q, timeOk, front);
      ToolResultsApart(p, q, 0, timeOk, front);
      ToolResultsRaise(p, timeOk, front);
      LastResultAgrees(AddToolResults(p, timeOk, front), AddToolResults(q, timeOk, front), timeOk, blocks[|blocks| - 1]);
      ResultsKeepNames(p, timeOk, front);
      ResultsKeepNames(q, timeOk, front);
    }
  }

  lemma {:induction false} DataAgrees(p: Progress, q: Progress, data: Data)
    requires |p.rows| == |q.rows| && !p.raised && !q.raised && !Bad(data)
    ensures AddData(p, data).rows == AddData(q, data).rows <==>
            p.rows == q.rows
            && (data.UserMessage? && data.blocks.Some? ==> SameResults(p.names, q.names, data.blocks.value))
  {
    match data
    case AssistantMessage(text, blocks, timeOk) =>
      SnocAgrees(p.rows, q.rows, TextRow(text), TextRow(text));
      UsesAgree(if text != "" then p.(rows := p.rows + [TextRow(text)]) else p,
                if text != "" then q.(rows := q.rows + [TextRow(text)]) else q, timeOk, blocks.value);
    case UserMessage(blocks, timeOk) =>
      ResultsAgree(p, q, timeOk, blocks.value);
    case OtherEvent(isToolResult, content, rest) =>
      var row := AddData(p, data).rows[|p.rows|];
      SnocAgrees(p.rows, q.rows, row, row);
    case NotAnObject =>
  }

  /** From starts with equally many rows, the same events end in the same rows exactly when the starts and the lookups agree. */
  lemma {:induction false} ProjectAgrees(p: Progress, q: Progress, datas: seq<Data>)
    requires |p.rows| == |q.rows| && !p.raised && !q.raised && !AnyBad(datas)
    ensures Project(p, datas).rows == Project(q, datas).rows <==>
            p.rows == q.rows && SameLookups(p.names, q.names, datas)
  {
    if datas != [] {
      var front, last := datas[..|datas| - 1], datas[|datas| - 1];
      ProjectAgrees(p, q, front);
      ProjectApart(p, q, 0, front);
      ProjectRaises(p, front);
      NamesAre(p, front);
      NamesAre(q, front);
      DataAgrees(Project(p, front), Project(q, front), last);
    }
  }

  function Outcome(p: Progress): Option<seq<Row>> {
    if p.raised then None else Some(p.rows)
  }

  /** The starts p and q answer alike after the same events. */
  predicate Alike(p: Progress, q: Progress, rest: seq<Data>) {
    if q.raised || AnyBad(rest) then p.raised || AnyBad(rest)
    else !p.raised && p.rows == q.rows && SameLookups(p.names, q.names, rest)
  }

  lemma {:induction false} StartsDecide(p: Progress, q: Progress, rest: seq<Data>)
    ensures Outcome(Project(p, rest)) == Outcome(Project(q, rest)) <==> Alike(p, q, rest)
  {
    ProjectRaises(p, rest);
    ProjectRaises(q, rest);
    if !p.raised && !q.raised && !AnyBad(rest) {
      ProjectApart(p, q, |q.rows| - |p.rows|, rest);
      if |p.rows| == |q.rows| {
        ProjectAgrees(p, q, rest);
      }
    }
  }

  // ---------------------------------------------------------------------------
  // A cache entry and a log that may have nothing to do with each other
  // ---------------------------------------------------------------------------

  /** The end of the first line, or of the bytes if no line ends. */
  function FirstEnd(s: Bytes): (n: nat)
    ensures n <= |s|
  {
    if s == [] then 0 else if s[0] == LF then 1 else 1 + FirstEnd(s[1..])
  }

  lemma {:induction false} FirstEndIsEnded(s: Bytes)
    requires Committed(s) != []
    ensures FirstEnd(s) > 0 && s[FirstEnd(s) - 1] == LF
  {
    if s[0] != LF {
      var n := CompleteEnd(s);
      assert s[1..][n - 2] == s[n - 1] == LF;
      assert CompleteEnd(s[1..]) > 0;
      FirstEndIsEnded(s[1..]);
    }
  }

  /** Where reading from k meets a line boundary: at k, or at the end of the line k lies in, if that has ended. */
  function Resumes(content: Bytes, k: nat): (j: nat)
    requires k <= |content|
    ensures k <= j <= |content|
  {
    if LfEnded(content[..k]) || Committed(content[k..]) == [] then k else k + FirstEnd(content[k..])
  }

  /** What an entry holds once its reading has met a line boundary: its rows, and the rest of a line its offset tears. */
  function Held(parse: Parser, c: Cached, content: Bytes): Progress
    requires c.offset <= |content|
  {
    Project(Progress(c.rows, c.names, false), Datas(parse, content[c.offset..Resumes(content, c.offset)]))
  }

  /** What the log holds before that boundary. */
  function There(parse: Parser, content: Bytes, k: nat): Progress
    requires k <= |content|
  {
    Project(NOTHING, Datas(parse, Committed(content[..Resumes(content, k)])))
  }

  /** The events after that boundary. */
  function After(parse: Parser, content: Bytes, k: nat): seq<Data>
    requires k <= |content|
  {
    Datas(parse, Committed(content[Resumes(content, k)..]))
  }

  lemma {:induction false} ResumesAtBoundary(content: Bytes, k: nat)
    requires k <= |content|
    ensures var j := Resumes(content, k);
            && LfEnded(content[k..j])
            && (LfEnded(content[..j]) || Committed(content[j..]) == [])
  {
    if !LfEnded(content[..k]) && Committed(content[k..]) != [] {
      FirstEndIsEnded(content[k..]);
      var j := Resumes(content, k);
      assert content[k..j][|content[k..j]| - 1] == content[k..][FirstEnd(content[k..]) - 1];
      assert content[..j][j - 1] == content[k..j][j - k - 1];
    }
  }

  lemma {:induction false} AnswerIs(parse: Parser, c: Cached, content: Bytes)
    requires c.offset <= |content|
    ensures Answer(parse, Some(c), content) ==
            Outcome(Project(Held(parse, c, content), After(parse, content, c.offset)))
  {
    var k, j := c.offset, Resumes(content, c.offset);
    ResumesAtBoundary(content, k);
    assert content[k..] == content[k..j] + content[j..];
    CommittedAppend(content[k..j], content[j..]);
    DatasAppend(parse, content[k..j], Committed(content[j..]));
    ProjectAppend(Progress(c.rows, c.names, false), Datas(parse, content[k..j]), Datas(parse, Committed(content[j..])));
  }

  lemma {:induction false} WholeIs(parse: Parser, content: Bytes, k: nat)
    requires k <= |content|
    ensures WholeRead(parse, content) == Outcome(Project(There(parse, content, k), After(parse, content, k)))
  {
    var j := Resumes(content, k);
    ResumesAtBoundary(content, k);
    if LfEnded(content[..j]) {
      WholeAtBoundary(parse, content, j);
    } else {
      DatasEmpty(parse);
      NothingCommitted(content, j);
    }
  }

  lemma {:induction false} WholeAtBoundary(parse: Parser, content: Bytes, j: nat)
    requires j <= |content| && LfEnded(content[..j])
    ensures WholeRead(parse, content) ==
            Outcome(Project(Project(NOTHING, Datas(parse, Committed(content[..j]))), Datas(parse, Committed(content[j..]))))
  {
    assert content == content[..j] + content[j..];
    assert Committed(content[..j]) == content[..j];
    ReadOn(parse, content[..j], content[j..]);
  }

  lemma {:induction false} NoLfTail(s: Bytes)
    requires s != [] && Committed(s) == []
    ensures Committed(s[1..]) == []
  {
    if |s| > 1 {
      var n := |s| - 1;
      NoLfTail(s[..n]);
      assert s[1..][..n - 1] == s[..n][1..];
    }
  }

  /** Bytes without an LF commit nothing more. */
  lemma {:induction false} NothingCommitted(content: Bytes, j: nat)
    requires j <= |content| && Committed(content[j..]) == []
    ensures Committed(content) == Committed(content[..j])
    decreases |content| - j
  {
    if j == |content| {
      assert content[..j] == content;
    } else {
      assert content[j..][0] == content[j] && content[j] != LF;
      assert content[j + 1..] == content[j..][1..];
      NoLfTail(content[j..]);
      NothingCommitted(content, j + 1);
      assert content[..j + 1][..j] == content[..j];
    }
  }

  /**
   * Exactly when a read is right, for every cache slot and every log.  It restarts; or, where it
   * meets a line boundary, its entry holds what the log holds: the same rows, and the same names
   * for every tool result still to come (or a bad line is met either way).
   */
  lemma {:induction false} StaleOffset(parse: Parser, slot: Option<Cached>, content: Bytes)
    ensures Answer(parse, slot, content) == WholeRead(parse, content) <==>
            Restarts(slot, content)
            || Alike(Held(parse, slot.value, content), There(parse, content, slot.value.offset),
                     After(parse, content, slot.value.offset))
  {
    if Restarts(slot, content) {
      assert content[0..] == content;
    } else {
      AnswerIs(parse, slot.value, content);
      WholeIs(parse, content, slot.value.offset);
      StartsDecide(Held(parse, slot.value, content), There(parse, content, slot.value.offset),
                   After(parse, content, slot.value.offset));
    }
  }

  /** At an offset that is a line boundary of a log that reads well: the rows before it, and the names after it, decide. */
  lemma {:induction false} StaleRows(parse: Parser, c: Cached, content: Bytes)
    requires c.offset <= |content| && LfEnded(content[..c.offset]) && WholeRead(parse, content).Some?
    ensures var there := Project(NOTHING, Datas(parse, content[..c.offset]));
            Answer(parse, Some(c), content) == WholeRead(parse, content) <==>
            c.rows == there.rows
            && SameLookups(c.names, there.names, Datas(parse, Committed(content[c.offset..])))
  {
    StaleOffset(parse, Some(c), content);
    WholeIs(parse, content, c.offset);
    AtBoundary(parse, c, content);
    ProjectRaises(There(parse, content, c.offset), After(parse, content, c.offset));
  }

  lemma {:induction false} AtBoundary(parse: Parser, c: Cached, content: Bytes)
    requires c.offset <= |content| && LfEnded(content[..c.offset])
    ensures Held(parse, c, content) == Progress(c.rows, c.names, false)
    ensures There(parse, content, c.offset) == Project(NOTHING, Datas(parse, content[..c.offset]))
    ensures After(parse, content, c.offset) == Datas(parse, Committed(content[c.offset..]))
  {
    var k := c.offset;
    DatasEmpty(parse);
    assert content[k..k] == [] && Committed(content[..k]) == content[..k];
  }

  // ---------------------------------------------------------------------------
  // Two logs on which a read goes wrong
  // ---------------------------------------------------------------------------

  /** Lines of one letter: 'a' and 'b' are events, anything else is no object. */
  function Letters(line: Bytes): Option<Data> {
    if line == [97] then Some(OtherEvent(false, None, "a"))
    else if line == [98] then Some(OtherEvent(false, None, "b"))
    else Some(NotAnObject)
  }

  const ROW_A := OtherRow(None, false, "a")
  const ROW_B := OtherRow(None, false, "b")

  lemma {:induction false} LetterLine(c: byte)
    requires c != LF
    ensures Datas(Letters, [c, LF]) == [Letters([c]).value] && Committed([c, LF]) == [c, LF]
  {
    OneLineOf(Letters, c, Letters([c]).value);
  }

  lemma {:induction false} OneEvent(p: Progress, data: Data)
    ensures Project(p, [data]) == AddData(p, data)
  {
    assert [data][..0] == [];
  }

  lemma {:induction false} LetterRead(c: byte)
    requires c == 97 || c == 98
    ensures Project(NOTHING, Datas(Letters, [c, LF])) == Progress(if c == 97 then [ROW_A] else [ROW_B], map[], false)
    ensures Committed([c, LF]) == [c, LF]
  {
    LetterLine(c);
    OneEvent(NOTHING, Letters([c]).value);
  }

  /** From an empty cache, a read of a whole log stores its projection. */
  lemma {:induction false} FirstRead(parse: Parser, content: Bytes, p: Progress)
    requires Committed(content) == content && Project(NOTHING, Datas(parse, content)) == p && !p.raised
    ensures Answer(parse, None, content) == Some(p.rows) && WholeRead(parse, content) == Some(p.rows)
    ensures SlotAfter(parse, None, content) == Some(Cached(p.rows, p.names, |content|))
  {
    assert content[0..] == content;
  }

  method FillCache(content: Bytes, ghost p: Progress) returns (log: WorkerLogReader)
    requires Committed(content) == content && Project(NOTHING, Datas(Letters, content)) == p && !p.raised
    ensures fresh(log) && log.parse == Letters
    ensures log.Slot() == Some(Cached(p.rows, p.names, |content|))
    ensures log.entry != null && fresh(log.entry)
  {
    log := new WorkerLogReader(Letters);
    log.Write(content);
    FirstRead(Letters, content, p);
    var rows := log.Read();
  }

  /** What the memo and a read answer when the size is the offset. */
  method AskTwice(log: WorkerLogReader, ghost c: Cached, ghost content: Bytes) returns (hit: Option<seq<Row>>, read: Option<seq<Row>>)
    requires log.Slot() == Some(c) && log.file == Some(content) && |content| == c.offset
    modifies log`entry, log.entry
    ensures hit == read == Answer(log.parse, Some(c), content) == Some(c.rows)
  {
    NothingNew(log.parse, c, content);
    hit := log.MemoHit();
    read := log.Read();
  }

  /** Another row before the offset: StaleRows says that a read goes wrong. */
  lemma {:induction false} RegrownIsWrong()
    ensures Answer(Letters, Some(Cached([ROW_A], map[], 2)), [98, LF]) != WholeRead(Letters, [98, LF])
  {
    RegrownWhole();
    LetterRead(98);
    assert [98, LF][..2] == [98, LF];
    StaleRows(Letters, Cached([ROW_A], map[], 2), [98, LF]);
  }

  /** A row left behind, and no line before the offset: StaleRows says that a read goes wrong. */
  lemma {:induction false} LeftoverIsWrong()
    ensures Answer(Letters, Some(Cached([ROW_A], map[], 0)), []) != WholeRead(Letters, [])
  {
    DatasEmpty(Letters);
    FirstRead(Letters, [], NOTHING);
    StaleRows(Letters, Cached([ROW_A], map[], 0), []);
  }

  /** A log read, cut to nothing and grown back to its old length: memo and read answer the old row. */
  method CutAndRegrown() returns (log: WorkerLogReader, hit: Option<seq<Row>>, read: Option<seq<Row>>)
    ensures log.parse == Letters && log.file == Some([98, LF]) && WholeRead(Letters, [98, LF]) == Some([ROW_B])
    ensures hit == read == Some([ROW_A]) && read != WholeRead(Letters, [98, LF])
  {
    LetterRead(97);
    log := FillCache([97, LF], Progress([ROW_A], map[], false));
    log.Write([]);
    log.AppendToLog([98, LF]);
    assert [] + [98, LF] == [98, LF];
    hit, read := AskTwice(log, Cached([ROW_A], map[], 2), [98, LF]);
    RegrownWhole();
    RegrownIsWrong();
  }

  lemma {:induction false} RegrownWhole()
    ensures WholeRead(Letters, [98, LF]) == Some([ROW_B])
  {
    LetterRead(98);
    var p := Project(NOTHING, Datas(Letters, [98, LF]));
    assert p == Progress([ROW_B], map[], false);
    FirstRead(Letters, [98, LF], p);
  }

  /** A log read while empty, then with a bad second line, then cut to nothing: its first line stays in the answer. */
  method RaisedReadLeavesRows() returns (log: WorkerLogReader, raised: Option<seq<Row>>, hit: Option<seq<Row>>,
                                         read: Option<seq<Row>>)
    ensures log.parse == Letters && log.file == Some([]) && WholeRead(Letters, []) == Some([])
    ensures raised.None? && hit == read == Some([ROW_A]) && read != WholeRead(Letters, [])
  {
    DatasEmpty(Letters);
    log := FillCache([], NOTHING);
    log.Write(GOOD_THEN_BAD);
    GoodThenBad();
    raised := log.Read();
    log.Write([]);
    hit, read := AskTwice(log, Cached([ROW_A], map[], 0), []);
    FirstRead(Letters, [], NOTHING);
    LeftoverIsWrong();
  }

  const GOOD_THEN_BAD: Bytes := [97, LF, 99, LF]

  lemma {:induction false} GoodThenBad()
    ensures Answer(Letters, Some(EMPTY_CACHE), GOOD_THEN_BAD) == None
    ensures SlotAfter(Letters, Some(EMPTY_CACHE), GOOD_THEN_BAD) == Some(Cached([ROW_A], map[], 0))
  {
    GoodThenBadDatas();
    GoodThenBadRaises();
    assert GOOD_THEN_BAD[0..] == GOOD_THEN_BAD;
  }

  lemma {:induction false} GoodThenBadDatas()
    ensures Committed(GOOD_THEN_BAD) == GOOD_THEN_BAD
    ensures Datas(Letters, GOOD_THEN_BAD) == [OtherEvent(false, None, "a"), NotAnObject]
  {
    LetterLine(97);
    LetterLine(99);
    DatasAppend(Letters, [97, LF], [99, LF]);
    assert [97, LF] + [99, LF] == GOOD_THEN_BAD;
  }

  lemma {:induction false} GoodThenBadRaises()
    ensures Project(NOTHING, [OtherEvent(false, None, "a"), NotAnObject]) == Progress([ROW_A], map[], true)
  {
    var good, bad := OtherEvent(false, None, "a"), NotAnObject;
    OneEvent(NOTHING, good);
    assert [good, bad][..1] == [good];
  }

  lemma {:induction false} OneLineOf(parse: Parser, c: byte, data: Data)
    requires c != LF && parse([c]) == Some(data)
    ensures Datas(parse, [c, LF]) == [data]
  {
    var empty: Bytes := [];
    assert [c, LF][1..] == [LF] && [LF][1..] == empty;
    assert SplitLf(empty) == [empty];
    assert SplitLf([LF]) == [empty, empty];
    var pieces := [[c], empty];
    assert [empty, empty][1..] == [empty] && [c] + empty == [c];
    assert SplitLf([c, LF]) == pieces;
    assert pieces[1..] == [empty] && [empty][1..] == [];
    assert ParsePieces(parse, [empty]) == ParsePiece(parse, empty) + ParsePieces(parse, []);
    assert ParsePieces(parse, pieces) == [data] + ParsePieces(parse, [empty]);
  }
}
