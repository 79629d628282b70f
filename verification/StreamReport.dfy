/**
 * What a client is told about a whole stream, read off the chunks alone: why the message ended,
 * what it cost, and which blocks it has, in order.
 */
module StreamReport {
  import opened Prelude
  import opened ChatProtocol

  // ---------------------------------------------------------------------------
  // Why the message ended, and what it cost
  // ---------------------------------------------------------------------------

  /** Every choice of a stream, in order. */
  function AllChoices(chunks: seq<Chunk>): seq<Choice> {
    if chunks == [] then [] else chunks[0].choices + AllChoices(chunks[1..])
  }

  /** The last finish reason that is not empty; "" if none is. */
  predicate IsLastReason(choices: seq<Choice>, reason: string) {
    if reason == "" then forall i :: 0 <= i < |choices| ==> choices[i].finishReason == ""
    else
      exists i :: 0 <= i < |choices| && choices[i].finishReason == reason
                  && forall j :: i < j < |choices| ==> choices[j].finishReason == ""
  }

  /** The last usage a chunk carries. */
  predicate IsLastUsage(chunks: seq<Chunk>, usage: Option<Usage>) {
    if usage.None? then forall i :: 0 <= i < |chunks| ==> chunks[i].usage.None?
    else
      exists i :: 0 <= i < |chunks| && chunks[i].usage == usage
                  && forall j :: i < j < |chunks| ==> chunks[j].usage.None?
  }

  /** What the client is told for the upstream's finish reason. */
  predicate Tells(finishReason: string, stopReason: string) {
    && (finishReason == "tool_calls" ==> stopReason == "tool_use")
    && (finishReason == "length" ==> stopReason == "max_tokens")
    && (finishReason == "" || finishReason == "stop" ==> stopReason == "end_turn")
    && (finishReason !in {"tool_calls", "length", "", "stop"} ==> stopReason == finishReason)
  }

  predicate Costs(usage: Option<Usage>, total: TokenUsage) {
    && total.inputTokens == (if usage.Some? && usage.value.promptTokens.Some? then usage.value.promptTokens.value else 0)
    && total.outputTokens == (if usage.Some? && usage.value.completionTokens.Some? then usage.value.completionTokens.value else 0)
  }

  lemma {:induction false} ToolsKeepReport(a: Assembly, deltas: seq<ToolDelta>)
    requires AssemblyOk(a) && AddTools(a, deltas).Some?
    ensures AddTools(a, deltas).value.finishReason == a.finishReason && AddTools(a, deltas).value.usage == a.usage
    decreases |deltas|
  {
    if deltas != [] {
      ToolsKeepReport(AddTool(a, deltas[0]).value, deltas[1..]);
    }
  }

  function LastReason(reason: string, choices: seq<Choice>): string
    decreases |choices|
  {
    if choices == [] then reason
    else LastReason(if choices[0].finishReason != "" then choices[0].finishReason else reason, choices[1..])
  }

  lemma {:induction false} LastReasonIs(reason: string, choices: seq<Choice>)
    ensures if forall i :: 0 <= i < |choices| ==> choices[i].finishReason == "" then LastReason(reason, choices) == reason
            else LastReason(reason, choices) != "" && IsLastReason(choices, LastReason(reason, choices))
    decreases |choices|
  {
    if choices != [] {
      var next := if choices[0].finishReason != "" then choices[0].finishReason else reason;
      var last := LastReason(next, choices[1..]);
      LastReasonIs(next, choices[1..]);
      if k :| 0 <= k < |choices[1..]| && choices[1..][k].finishReason != "" {
        var i :| 0 <= i < |choices[1..]| && choices[1..][i].finishReason == last
                 && forall j :: i < j < |choices[1..]| ==> choices[1..][j].finishReason == "";
        assert choices[i + 1].finishReason == last;
        assert forall j :: i + 1 < j < |choices| ==> choices[j] == choices[1..][j - 1];
      } else {
        assert forall j :: 0 < j < |choices| ==> choices[j] == choices[1..][j - 1];
        assert choices[0].finishReason != "" ==> choices[0].finishReason == last;
      }
    }
  }

  lemma {:induction false} LastReasonAppend(reason: string, a: seq<Choice>, b: seq<Choice>)
    ensures LastReason(reason, a + b) == LastReason(LastReason(reason, a), b)
    decreases |a|
  {
    if a == [] {
      assert a + b == b;
    } else {
      LastReasonAppend(if a[0].finishReason != "" then a[0].finishReason else reason, a[1..], b);
      assert (a + b)[1..] == a[1..] + b;
    }
  }

  lemma {:induction false} ChoicesReport(a: Assembly, choices: seq<Choice>)
    requires AssemblyOk(a) && AddChoices(a, choices).Some?
    ensures AddChoices(a, choices).value.finishReason == LastReason(a.finishReason, choices)
    ensures AddChoices(a, choices).value.usage == a.usage
    decreases |choices|
  {
    if choices != [] {
      var b := if choices[0].content != "" then AddText(a, choices[0].content) else a;
      ToolsKeepReport(b, choices[0].toolCalls);
      ChoicesReport(AddChoice(a, choices[0]).value, choices[1..]);
    }
  }

  function LastUsage(usage: Option<Usage>, chunks: seq<Chunk>): Option<Usage>
    decreases |chunks|
  {
    if chunks == [] then usage else LastUsage(if chunks[0].usage.Some? then chunks[0].usage else usage, chunks[1..])
  }

  lemma {:induction false} LastUsageIs(usage: Option<Usage>, chunks: seq<Chunk>)
    ensures if forall i :: 0 <= i < |chunks| ==> chunks[i].usage.None? then LastUsage(usage, chunks) == usage
            else LastUsage(usage, chunks).Some? && IsLastUsage(chunks, LastUsage(usage, chunks))
    decreases |chunks|
  {
    if chunks != [] {
      var next := if chunks[0].usage.Some? then chunks[0].usage else usage;
      var last := LastUsage(next, chunks[1..]);
      LastUsageIs(next, chunks[1..]);
      if k :| 0 <= k < |chunks[1..]| && chunks[1..][k].usage.Some? {
        var i :| 0 <= i < |chunks[1..]| && chunks[1..][i].usage == last
                 && forall j :: i < j < |chunks[1..]| ==> chunks[1..][j].usage.None?;
        assert chunks[i + 1].usage == last;
        assert forall j :: i + 1 < j < |chunks| ==> chunks[j] == chunks[1..][j - 1];
      } else {
        assert forall j :: 0 < j < |chunks| ==> chunks[j] == chunks[1..][j - 1];
        assert chunks[0].usage.Some? ==> chunks[0].usage == last;
      }
    }
  }

  lemma {:induction false} ChunkReport(a: Assembly, chunk: Chunk)
    requires AssemblyOk(a) && AddChunk(a, chunk).Some?
    ensures AddChunk(a, chunk).value.finishReason == LastReason(a.finishReason, chunk.choices)
    ensures AddChunk(a, chunk).value.usage == if chunk.usage.Some? then chunk.usage else a.usage
  {
    ChoicesReport(if chunk.usage.Some? then a.(usage := chunk.usage) else a, chunk.choices);
  }

  lemma {:induction false} ChunksReport(a: Assembly, chunks: seq<Chunk>)
    requires AssemblyOk(a) && AddChunks(a, chunks).Some?
    ensures AddChunks(a, chunks).value.finishReason == LastReason(a.finishReason, AllChoices(chunks))
    ensures AddChunks(a, chunks).value.usage == LastUsage(a.usage, chunks)
    decreases |chunks|
  {
    if chunks != [] {
      ChunkReport(a, chunks[0]);
      ChunksReport(AddChunk(a, chunks[0]).value, chunks[1..]);
      LastReasonAppend(a.finishReason, chunks[0].choices, AllChoices(chunks[1..]));
    }
  }

  /** What ends a message is the last finish reason and the last usage of its chunks, as the client is told them. */
  ghost predicate Reported(chunks: seq<Chunk>, outcome: (string, TokenUsage)) {
    exists reason, usage ::
      && IsLastReason(AllChoices(chunks), reason) && Tells(reason, outcome.0)
      && IsLastUsage(chunks, usage) && Costs(usage, outcome.1)
  }

  lemma {:induction false} ReportIs(chunks: seq<Chunk>)
    requires AddChunks(EMPTY_ASSEMBLY, chunks).Some?
    ensures var a := AddChunks(EMPTY_ASSEMBLY, chunks).value;
            Reported(chunks, (StopReason(a.finishReason), UsageFromOpenAI(a.usage)))
  {
    var reason, usage := LastReason("", AllChoices(chunks)), LastUsage(None, chunks);
    ChunksReport(EMPTY_ASSEMBLY, chunks);
    LastReasonIs("", AllChoices(chunks));
    LastUsageIs(None, chunks);
    assert Tells(reason, StopReason(reason)) && Costs(usage, UsageFromOpenAI(usage));
  }

  // ---------------------------------------------------------------------------
  // Which blocks the message has
  // ---------------------------------------------------------------------------

  /** A piece of a stream: some text, or a tool delta. */
  datatype Piece = Said(text: string) | Called(delta: ToolDelta)

  function DeltaPieces(deltas: seq<ToolDelta>): seq<Piece> {
    seq(|deltas|, i requires 0 <= i < |deltas| => Called(deltas[i]))
  }

  function ChoicePieces(choices: seq<Choice>): seq<Piece> {
    if choices == [] then []
    else
      PiecesOf(choices[0]) + ChoicePieces(choices[1..])
  }

  /**
   * The heads of the blocks the pieces open: text opens a block unless one is open, and ends all
   * calls; a delta of a call that is not open opens a block under its own id and name, and ends text.
   */
  function Heads(textOpen: bool, open: set<int>, pieces: seq<Piece>): seq<BlockHead>
    decreases |pieces|
  {
    if pieces == [] then []
    else
      match pieces[0]
      case Said(_) => (if textOpen then [] else [TextHead]) + Heads(true, {}, pieces[1..])
      case Called(delta) =>
        if delta.index.None? then []
        else if delta.index.value in open then Heads(textOpen, open, pieces[1..])
        else [ToolUseHead(delta.id, delta.name)] + Heads(false, open + {delta.index.value}, pieces[1..])
  }

  function HeadOf(b: Block): BlockHead {
    match b
    case Text(_) => TextHead
    case ToolUse(id, name, _) => ToolUseHead(id, name)
  }

  function HeadsOf(blocks: seq<Block>): seq<BlockHead> {
    seq(|blocks|, i requires 0 <= i < |blocks| => HeadOf(blocks[i]))
  }

  function OpenCalls(a: Assembly): set<int> {
    set j | 0 <= j < |a.calls| :: a.calls[j].0
  }

  /** From a to b the blocks grow by these heads. */
  ghost predicate Opens(a: Assembly, b: Assembly, heads: seq<BlockHead>) {
    HeadsOf(b.blocks) == HeadsOf(a.blocks) + heads
  }

  lemma {:induction false} TextOpens(a: Assembly, text: string)
    requires AssemblyOk(a)
    ensures Opens(a, AddText(a, text), if a.textOpen then [] else [TextHead])
    ensures AddText(a, text).textOpen && OpenCalls(AddText(a, text)) == {}
  {
  }

  lemma {:induction false} OpenCallOpens(a: Assembly, key: int, id: string, name: string)
    requires AssemblyOk(a) && Lookup(a.calls, key).None?
    ensures var b := OpenCall(a, key, id, name);
            Opens(a, b, [ToolUseHead(id, name)]) && !b.textOpen && OpenCalls(b) == OpenCalls(a) + {key}
  {
    var b := OpenCall(a, key, id, name);
    assert b.calls[|a.calls|].0 == key;
    assert forall j :: 0 <= j < |a.calls| ==> b.calls[j] == a.calls[j];
  }

  lemma {:induction false} ExtendOpens(a: Assembly, key: int, arguments: Option<string>)
    requires AssemblyOk(a) && Lookup(a.calls, key).Some?
    ensures var b := ExtendIfPresent(a, key, arguments);
            HeadsOf(b.blocks) == HeadsOf(a.blocks) && b.textOpen == a.textOpen && b.calls == a.calls
  {
  }

  lemma {:induction false} IsOpenCall(a: Assembly, key: int)
    requires AssemblyOk(a)
    ensures key in OpenCalls(a) <==> Lookup(a.calls, key).Some?
  {
  }

  lemma {:induction false} ToolOpens(a: Assembly, delta: ToolDelta)
    requires AssemblyOk(a) && AddTool(a, delta).Some?
    ensures delta.index.Some?
    ensures var b, key := AddTool(a, delta).value, delta.index.value;
            if key in OpenCalls(a) then Opens(a, b, []) && b.textOpen == a.textOpen && OpenCalls(b) == OpenCalls(a)
            else Opens(a, b, [ToolUseHead(delta.id, delta.name)]) && !b.textOpen && OpenCalls(b) == OpenCalls(a) + {key}
  {
    var key := delta.index.value;
    IsOpenCall(a, key);
    if Lookup(a.calls, key).Some? {
      ExtendOpens(a, key, delta.arguments);
    } else {
      OpenCallOpens(a, key, delta.id, delta.name);
      ExtendOpens(OpenCall(a, key, delta.id, delta.name), key, delta.arguments);
    }
  }

  /** The blocks there are, and those the pieces to come will open. */
  function Foretold(a: Assembly, pieces: seq<Piece>): seq<BlockHead> {
    HeadsOf(a.blocks) + Heads(a.textOpen, OpenCalls(a), pieces)
  }

  lemma {:induction false} SaidStep(a: Assembly, text: string, rest: seq<Piece>)
    requires AssemblyOk(a)
    ensures Foretold(a, [Said(text)] + rest) == Foretold(AddText(a, text), rest)
  {
    TextOpens(a, text);
    assert ([Said(text)] + rest)[1..] == rest;
    Assoc(HeadsOf(a.blocks), if a.textOpen then [] else [TextHead], Heads(true, {}, rest));
  }

  lemma {:induction false} CalledStep(a: Assembly, delta: ToolDelta, rest: seq<Piece>)
    requires AssemblyOk(a) && AddTool(a, delta).Some?
    ensures Foretold(a, [Called(delta)] + rest) == Foretold(AddTool(a, delta).value, rest)
  {
    ToolOpens(a, delta);
    assert ([Called(delta)] + rest)[1..] == rest;
    HeadsCalled(a.textOpen, OpenCalls(a), delta, rest);
    if delta.index.value in OpenCalls(a) {
      assert HeadsOf(a.blocks) + [] == HeadsOf(a.blocks);
    } else {
      Assoc(HeadsOf(a.blocks), [ToolUseHead(delta.id, delta.name)], Heads(false, OpenCalls(a) + {delta.index.value}, rest));
    }
  }

  lemma {:induction false} HeadsCalled(textOpen: bool, open: set<int>, delta: ToolDelta, rest: seq<Piece>)
    requires delta.index.Some?
    ensures Heads(textOpen, open, [Called(delta)] + rest) ==
            if delta.index.value in open then Heads(textOpen, open, rest)
            else [ToolUseHead(delta.id, delta.name)] + Heads(false, open + {delta.index.value}, rest)
  {
    assert ([Called(delta)] + rest)[1..] == rest;
  }

  lemma {:induction false} DeltasSplit(deltas: seq<ToolDelta>, rest: seq<Piece>)
    requires deltas != []
    ensures DeltaPieces(deltas) + rest == [Called(deltas[0])] + (DeltaPieces(deltas[1..]) + rest)
  {
  }

  lemma {:induction false} PiecesSplit(choice: Choice, rest: seq<Piece>)
    ensures PiecesOf(choice) + rest ==
            if choice.content != "" then [Said(choice.content)] + (DeltaPieces(choice.toolCalls) + rest)
            else DeltaPieces(choice.toolCalls) + rest
  {
  }

  lemma {:induction false} ToolsOpen(a: Assembly, deltas: seq<ToolDelta>, rest: seq<Piece>)
    requires AssemblyOk(a) && AddTools(a, deltas).Some?
    ensures Foretold(a, DeltaPieces(deltas) + rest) == Foretold(AddTools(a, deltas).value, rest)
    decreases |deltas|
  {
    if deltas == [] {
      assert DeltaPieces(deltas) + rest == rest;
    } else {
      DeltasSplit(deltas, rest);
      CalledStep(a, deltas[0], DeltaPieces(deltas[1..]) + rest);
      ToolsOpen(AddTool(a, deltas[0]).value, deltas[1..], rest);
    }
  }

  function PiecesOf(choice: Choice): seq<Piece> {
    (if choice.content != "" then [Said(choice.content)] else []) + DeltaPieces(choice.toolCalls)
  }

  lemma {:induction false} FinishKeeps(a: Assembly, reason: string, rest: seq<Piece>)
    ensures Foretold(a.(finishReason := reason), rest) == Foretold(a, rest)
  {
  }

  lemma {:induction false} ChoiceOpens(a: Assembly, choice: Choice, rest: seq<Piece>)
    requires AssemblyOk(a) && AddChoice(a, choice).Some?
    ensures Foretold(a, PiecesOf(choice) + rest) == Foretold(AddChoice(a, choice).value, rest)
  {
    PiecesSplit(choice, rest);
    if choice.content != "" {
      SaidStep(a, choice.content, DeltaPieces(choice.toolCalls) + rest);
      ToolsOpen(AddText(a, choice.content), choice.toolCalls, rest);
      FinishKeeps(AddTools(AddText(a, choice.content), choice.toolCalls).value, choice.finishReason, rest);
    } else {
      ToolsOpen(a, choice.toolCalls, rest);
      FinishKeeps(AddTools(a, choice.toolCalls).value, choice.finishReason, rest);
    }
  }

  lemma {:induction false} ChoicesOpen(a: Assembly, choices: seq<Choice>, rest: seq<Piece>)
    requires AssemblyOk(a) && AddChoices(a, choices).Some?
    ensures Foretold(a, ChoicePieces(choices) + rest) == Foretold(AddChoices(a, choices).value, rest)
    decreases |choices|
  {
    if choices == [] {
      assert ChoicePieces(choices) + rest == rest;
    } else {
      ChoiceOpens(a, choices[0], ChoicePieces(choices[1..]) + rest);
      ChoicesOpen(AddChoice(a, choices[0]).value, choices[1..], rest);
      Assoc(PiecesOf(choices[0]), ChoicePieces(choices[1..]), rest);
    }
  }

  lemma {:induction false} ChunkOpens(a: Assembly, chunk: Chunk, rest: seq<Piece>)
    requires AssemblyOk(a) && AddChunk(a, chunk).Some?
    ensures Foretold(a, ChoicePieces(chunk.choices) + rest) == Foretold(AddChunk(a, chunk).value, rest)
  {
    ChoicesOpen(if chunk.usage.Some? then a.(usage := chunk.usage) else a, chunk.choices, rest);
  }

  lemma {:induction false} ChunksOpen(a: Assembly, chunks: seq<Chunk>)
    requires AssemblyOk(a) && AddChunks(a, chunks).Some?
    ensures HeadsOf(AddChunks(a, chunks).value.blocks) == Foretold(a, ChoicePieces(AllChoices(chunks)))
    decreases |chunks|
  {
    if chunks == [] {
      assert Heads(a.textOpen, OpenCalls(a), []) == [];
    } else {
      ChunkOpens(a, chunks[0], ChoicePieces(AllChoices(chunks[1..])));
      ChunksOpen(AddChunk(a, chunks[0]).value, chunks[1..]);
      PiecesAppend(chunks[0].choices, AllChoices(chunks[1..]));
    }
  }

  lemma {:induction false} PiecesAppend(a: seq<Choice>, b: seq<Choice>)
    ensures ChoicePieces(a + b) == ChoicePieces(a) + ChoicePieces(b)
    decreases |a|
  {
    if a == [] {
      assert a + b == b;
    } else {
      PiecesAppend(a[1..], b);
      assert (a + b)[1..] == a[1..] + b;
    }
  }

  /** The blocks of a message are those its pieces open, each tool block under the id and name of the delta that opened it. */
  lemma {:induction false} BlocksAre(chunks: seq<Chunk>)
    requires AddChunks(EMPTY_ASSEMBLY, chunks).Some?
    ensures HeadsOf(AddChunks(EMPTY_ASSEMBLY, chunks).value.blocks) == Heads(false, {}, ChoicePieces(AllChoices(chunks)))
  {
    ChunksOpen(EMPTY_ASSEMBLY, chunks);
    assert OpenCalls(EMPTY_ASSEMBLY) == {};
  }
}
