/**
 * The workers panel's incremental reader: an append-only log is projected into rows, and a cache
 * entry keeps the rows, the tool names and the offset read so far, so that a read parses only the
 * complete lines appended since the last one.
 */
module WorkerLog {
  import opened Prelude
  import opened PhysicalLines

  const TOOL_OUTPUT_RENDER_CAP := 20000

  // ---------------------------------------------------------------------------
  // Projecting parsed events into rows
  // ---------------------------------------------------------------------------

  /** A content block; a missing field is None, an input that no row accepts has inputOk false. */
  datatype Block =
    | ToolUse(id: Option<string>, name: Option<string>, input: string, inputOk: bool)
    | ToolResult(toolUseId: string, text: string)
    | OtherBlock
    | NotADict

  /** A parsed line; timeOk says that a row accepts its timestamp, blocks None that its content cannot be iterated. */
  datatype Data =
    | AssistantMessage(text: string, blocks: Option<seq<Block>>, timeOk: bool)
    | UserMessage(blocks: Option<seq<Block>>, timeOk: bool)
    | OtherEvent(isToolResult: bool, content: Option<string>, rest: string)
    | NotAnObject

  datatype Row =
    | TextRow(text: string)
    | ToolUseRow(name: string, input: string)
    | ToolResultRow(name: string, output: string, truncated: bool)
    | OtherRow(content: Option<string>, truncated: bool, rest: string)

  /** The rows and tool names so far; raised once an event could not be projected. */
  datatype Progress = Progress(rows: seq<Row>, names: map<string, string>, raised: bool)

  const NOTHING := Progress([], map[], false)

  function Cap(s: string): string {
    if |s| > TOOL_OUTPUT_RENDER_CAP then s[..TOOL_OUTPUT_RENDER_CAP] else s
  }

  function AddToolUse(p: Progress, timeOk: bool, b: Block): Progress {
    if p.raised then p
    else if !b.ToolUse? then p
    else if b.name.None? || b.id.None? then p.(raised := true)
    else
      var named := p.(names := p.names[b.id.value := b.name.value]);
      if timeOk && b.inputOk then named.(rows := p.rows + [ToolUseRow(b.name.value, b.input)]) else named.(raised := true)
  }

  function AddToolResult(p: Progress, timeOk: bool, b: Block): Progress {
    if p.raised then p
    else if b.NotADict? then p.(raised := true)
    else if !b.ToolResult? then p
    else if !timeOk then p.(raised := true)
    else
      var name := if b.toolUseId in p.names then p.names[b.toolUseId] else "";
      p.(rows := p.rows + [ToolResultRow(name, Cap(b.text), |b.text| > TOOL_OUTPUT_RENDER_CAP)])
  }

  function AddToolUses(p: Progress, timeOk: bool, blocks: seq<Block>): Progress {
    if blocks == [] then p
    else AddToolUse(AddToolUses(p, timeOk, blocks[..|blocks| - 1]), timeOk, blocks[|blocks| - 1])
  }

  function AddToolResults(p: Progress, timeOk: bool, blocks: seq<Block>): Progress {
    if blocks == [] then p
    else AddToolResult(AddToolResults(p, timeOk, blocks[..|blocks| - 1]), timeOk, blocks[|blocks| - 1])
  }

  function AddData(p: Progress, data: Data): Progress {
    if p.raised then p
    else
      match data
      case NotAnObject => p.(raised := true)
      case AssistantMessage(text, blocks, timeOk) =>
        if text != "" && !timeOk then p.(raised := true)
        else
          var worded := if text != "" then p.(rows := p.rows + [TextRow(text)]) else p;
          if blocks.None? then worded.(raised := true) else AddToolUses(worded, timeOk, blocks.value)
      case UserMessage(blocks, timeOk) =>
        if blocks.None? then p.(raised := true) else AddToolResults(p, timeOk, blocks.value)
      case OtherEvent(isToolResult, content, rest) =>
        var over := isToolResult && content.Some? && |content.value| > TOOL_OUTPUT_RENDER_CAP;
        p.(rows := p.rows + [OtherRow(if over then Some(Cap(content.value)) else content, over, rest)])
  }

  /** The whole-list projection. */
  function Project(p: Progress, datas: seq<Data>): Progress {
    if datas == [] then p else AddData(Project(p, datas[..|datas| - 1]), datas[|datas| - 1])
  }

  lemma {:induction false} ProjectAppend(p: Progress, a: seq<Data>, b: seq<Data>)
    ensures Project(p, a + b) == Project(Project(p, a), b)
    decreases |b|
  {
    if b == [] {
      assert a + b == a;
    } else {
      ProjectAppend(p, a, b[..|b| - 1]);
      assert (a + b)[..|a + b| - 1] == a + b[..|b| - 1];
    }
  }

  // ---------------------------------------------------------------------------
  // What the projection never does
  // ---------------------------------------------------------------------------

  /** q has every row of p, first and unchanged, and has raised if p has. */
  predicate Continues(p: Progress, q: Progress) {
    p.rows <= q.rows && (p.raised ==> q == p)
  }

  lemma {:induction false} ToolUsesContinue(p: Progress, timeOk: bool, blocks: seq<Block>)
    ensures Continues(p, AddToolUses(p, timeOk, blocks))
  {
    if blocks != [] {
      ToolUsesContinue(p, timeOk, blocks[..|blocks| - 1]);
    }
  }

  lemma {:induction false} ToolResultsContinue(p: Progress, timeOk: bool, blocks: seq<Block>)
    ensures Continues(p, AddToolResults(p, timeOk, blocks))
  {
    if blocks != [] {
      ToolResultsContinue(p, timeOk, blocks[..|blocks| - 1]);
    }
  }

  lemma {:induction false} DataContinues(p: Progress, data: Data)
    ensures Continues(p, AddData(p, data))
  {
    if !p.raised && data.AssistantMessage? && data.blocks.Some? {
      ToolUsesContinue(if data.text != "" then p.(rows := p.rows + [TextRow(data.text)]) else p,
                       data.timeOk, data.blocks.value);
    }
    if !p.raised && data.UserMessage? && data.blocks.Some? {
      ToolResultsContinue(p, data.timeOk, data.blocks.value);
    }
  }

  /** An emitted row is never rewritten. */
  lemma {:induction false} ProjectContinues(p: Progress, datas: seq<Data>)
    ensures Continues(p, Project(p, datas))
  {
    if datas != [] {
      ProjectContinues(p, datas[..|datas| - 1]);
      DataContinues(Project(p, datas[..|datas| - 1]), datas[|datas| - 1]);
    }
  }

  /** Whether a block stops the projection does not depend on what came before. */
  predicate BadToolUse(timeOk: bool, b: Block) {
    b.ToolUse? && (b.name.None? || b.id.None? || !timeOk || !b.inputOk)
  }

  predicate BadToolResult(timeOk: bool, b: Block) {
    b.NotADict? || (b.ToolResult? && !timeOk)
  }

  predicate AnyBadToolUse(timeOk: bool, blocks: seq<Block>) {
    blocks != [] && (AnyBadToolUse(timeOk, blocks[..|blocks| - 1]) || BadToolUse(timeOk, blocks[|blocks| - 1]))
  }

  predicate AnyBadToolResult(timeOk: bool, blocks: seq<Block>) {
    blocks != [] && (AnyBadToolResult(timeOk, blocks[..|blocks| - 1]) || BadToolResult(timeOk, blocks[|blocks| - 1]))
  }

  predicate Bad(data: Data) {
    match data
    case NotAnObject => true
    case AssistantMessage(text, blocks, timeOk) =>
      (text != "" && !timeOk) || blocks.None? || AnyBadToolUse(timeOk, blocks.value)
    case UserMessage(blocks, timeOk) => blocks.None? || AnyBadToolResult(timeOk, blocks.value)
    case OtherEvent(_, _, _) => false
  }

  lemma {:induction false} ToolUsesRaise(p: Progress, timeOk: bool, blocks: seq<Block>)
    ensures AddToolUses(p, timeOk, blocks).raised <==> p.raised || AnyBadToolUse(timeOk, blocks)
  {
    if blocks != [] {
      ToolUsesRaise(p, timeOk, blocks[..|blocks| - 1]);
    }
  }

  lemma {:induction false} ToolResultsRaise(p: Progress, timeOk: bool, blocks: seq<Block>)
    ensures AddToolResults(p, timeOk, blocks).raised <==> p.raised || AnyBadToolResult(timeOk, blocks)
  {
    if blocks != [] {
      ToolResultsRaise(p, timeOk, blocks[..|blocks| - 1]);
    }
  }

  lemma {:induction false} DataRaises(p: Progress, data: Data)
    ensures AddData(p, data).raised <==> p.raised || Bad(data)
  {
    match data
    case AssistantMessage(text, blocks, timeOk) =>
      if blocks.Some? {
        ToolUsesRaise(if text != "" then p.(rows := p.rows + [TextRow(text)]) else p, timeOk, blocks.value);
      }
    case UserMessage(blocks, timeOk) =>
      if blocks.Some? {
        ToolResultsRaise(p, timeOk, blocks.value);
      }
    case _ =>
  }

  predicate AnyBad(datas: seq<Data>) {
    datas != [] && (AnyBad(datas[..|datas| - 1]) || Bad(datas[|datas| - 1]))
  }

  lemma {:induction false} AnyBadAppend(a: seq<Data>, b: seq<Data>)
    ensures AnyBad(a + b) <==> AnyBad(a) || AnyBad(b)
    decreases |b|
  {
    if b == [] {
      assert a + b == a;
    } else {
      AnyBadAppend(a, b[..|b| - 1]);
      assert (a + b)[..|a + b| - 1] == a + b[..|b| - 1];
    }
  }

  /** The projection raises exactly when some event is bad, wherever it starts from. */
  lemma {:induction false} ProjectRaises(p: Progress, datas: seq<Data>)
    ensures Project(p, datas).raised <==> p.raised || AnyBad(datas)
  {
    if datas != [] {
      ProjectRaises(p, datas[..|datas| - 1]);
      DataRaises(Project(p, datas[..|datas| - 1]), datas[|datas| - 1]);
    }
  }

  // ---------------------------------------------------------------------------
  // The log's complete lines
  // ---------------------------------------------------------------------------

  /** rfind of a line feed, plus one: where the complete lines end. */
  function CompleteEnd(s: Bytes): (n: nat)
    ensures n <= |s| && (n > 0 ==> s[n - 1] == LF)
    ensures forall k :: n <= k < |s| ==> s[k] != LF
  {
    if s == [] then 0 else if s[|s| - 1] == LF then |s| else CompleteEnd(s[..|s| - 1])
  }

  /** What the writer has committed: everything up to the torn last line. */
  function Committed(s: Bytes): Bytes {
    s[..CompleteEnd(s)]
  }

  type Parser = Bytes -> Option<Data>

  /** iter_ndjson_events: an empty line is invisible, an unparsable one is skipped. */
  function ParsePieces(parse: Parser, pieces: seq<Bytes>): seq<Data> {
    if pieces == [] then []
    else ParsePiece(parse, pieces[0]) + ParsePieces(parse, pieces[1..])
  }

  function ParsePiece(parse: Parser, piece: Bytes): seq<Data> {
    if piece == [] || parse(piece).None? then [] else [parse(piece).value]
  }

  function Datas(parse: Parser, s: Bytes): seq<Data> {
    ParsePieces(parse, SplitLf(s))
  }

  lemma {:induction false} ParsePiecesAppend(parse: Parser, a: seq<Bytes>, b: seq<Bytes>)
    ensures ParsePieces(parse, a + b) == ParsePieces(parse, a) + ParsePieces(parse, b)
  {
    if a == [] {
      assert a + b == b;
    } else {
      ParsePiecesAppend(parse, a[1..], b);
      assert (a + b)[0] == a[0] && (a + b)[1..] == a[1..] + b;
      Assoc(ParsePiece(parse, a[0]), ParsePieces(parse, a[1..]), ParsePieces(parse, b));
    }
  }

  lemma {:induction false} SplitLfAppend(a: Bytes, b: Bytes)
    requires LfEnded(a)
    ensures SplitLf(a)[|SplitLf(a)| - 1] == []
    ensures SplitLf(a + b) == SplitLf(a)[..|SplitLf(a)| - 1] + SplitLf(b)
    decreases |a|
  {
    if a == [] {
      assert a + b == b;
    } else {
      assert (a + b)[0] == a[0] && (a + b)[1..] == a[1..] + b;
      assert LfEnded(a[1..]);
      SplitLfAppend(a[1..], b);
      var rest := SplitLf(a[1..]);
      if a[0] == LF {
        SkipFirst([[]], rest, SplitLf(b));
      } else {
        assert |rest| > 1;
        PrefixedFront([a[0]], rest, SplitLf(b));
      }
    }
  }

  lemma {:induction false} SkipFirst<T>(a: seq<T>, rest: seq<T>, b: seq<T>)
    requires rest != []
    ensures a + (rest[..|rest| - 1] + b) == (a + rest)[..|a + rest| - 1] + b
    ensures (a + rest)[|a + rest| - 1] == rest[|rest| - 1]
  {
  }

  lemma {:induction false} PrefixedFront(p: Bytes, rest: seq<Bytes>, b: seq<Bytes>)
    requires |rest| > 1
    ensures Prefixed(p, rest[..|rest| - 1] + b) == Prefixed(p, rest)[..|rest| - 1] + b
    ensures |Prefixed(p, rest)| == |rest| && Prefixed(p, rest)[|rest| - 1] == rest[|rest| - 1]
  {
  }

  /** Reading whole lines in two parts is reading them at once. */
  lemma {:induction false} DatasAppend(parse: Parser, a: Bytes, b: Bytes)
    requires LfEnded(a)
    ensures Datas(parse, a + b) == Datas(parse, a) + Datas(parse, b)
  {
    SplitLfAppend(a, b);
    var front := SplitLf(a)[..|SplitLf(a)| - 1];
    assert SplitLf(a) == front + [[]];
    ParsePiecesAppend(parse, front, [[]]);
    assert ParsePieces(parse, [[]]) == [] + ParsePieces(parse, [[]][1..]);
    ParsePiecesAppend(parse, front, SplitLf(b));
  }

  lemma {:induction false} CommittedAppend(a: Bytes, b: Bytes)
    requires LfEnded(a)
    ensures Committed(a + b) == a + Committed(b)
    decreases |b|
  {
    if b == [] {
      assert a + b == a;
    } else {
      assert (a + b)[..|a + b| - 1] == a + b[..|b| - 1];
      if b[|b| - 1] != LF {
        CommittedAppend(a, b[..|b| - 1]);
      }
    }
  }
}
